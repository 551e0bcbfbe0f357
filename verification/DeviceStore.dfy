/** The browser's device store: typed arrays indexed by slot, a slot for life per device,
    and frames folded in place. The live map is the one `LiveView` reasons about. */
module DeviceStores {
  import opened Options
  import opened Sets
  import opened HubState
  import LiveView

  newtype Byte = x: int | 0 <= x < 256

  datatype Rgba = Rgba(r: Byte, g: Byte, b: Byte, a: Byte)

  const PLAIN: Rgba := Rgba(110, 168, 255, 220)
  const HIGHLIGHT: Rgba := Rgba(255, 208, 92, 255)
  const MARKER: real := 3.4

  // ---------------------------------------------------------------------------
  // What a frame does to the live map
  // ---------------------------------------------------------------------------

  /** An item is taken unless the map already holds a report at least as new. */
  function Taken(view: Chunk, i: Item): Chunk {
    if i.device in view && view[i.device].at >= i.at then view else view[i.device := i]
  }

  function TakenAll(view: Chunk, items: seq<Item>): Chunk {
    if items == [] then view else Taken(TakenAll(view, items[..|items| - 1]), items[|items| - 1])
  }

  function Named(items: seq<Item>): set<DeviceId> {
    set i | 0 <= i < |items| :: items[i].device
  }

  /** A full frame is the complete set: everything it does not name goes. */
  function Applied(view: Chunk, items: seq<Item>, full: bool): Chunk {
    if full then map d | d in TakenAll(view, items) && d in Named(items) :: TakenAll(view, items)[d]
    else TakenAll(view, items)
  }

  lemma {:induction false} TakenAllKeys(view: Chunk, items: seq<Item>)
    ensures TakenAll(view, items).Keys == view.Keys + Named(items)
  {
    if items != [] {
      var init, last := items[..|items| - 1], items[|items| - 1];
      TakenAllKeys(view, init);
      assert Named(items) == Named(init) + {last.device};
    }
  }

  lemma CutIsApplied(view: Chunk, items: seq<Item>)
    ensures var taken := TakenAll(view, items);
            taken - (taken.Keys - Named(items)) == Applied(view, items, true)
    ensures Applied(view, items, true).Keys == Named(items)
  {
    TakenAllKeys(view, items);
  }

  /** `items` lists the chunk: in any order, and as often as it likes. */
  ghost predicate Lists(items: seq<Item>, chunk: Chunk) {
    && Named(items) == chunk.Keys
    && forall i :: 0 <= i < |items| ==> items[i].device in chunk && chunk[items[i].device] == items[i]
  }

  lemma {:induction false} TakenAllAt(view: Chunk, items: seq<Item>, chunk: Chunk, d: DeviceId)
    requires forall i :: 0 <= i < |items| ==> items[i].device in chunk && chunk[items[i].device] == items[i]
    ensures d in TakenAll(view, items) <==> d in view || d in Named(items)
    ensures d in TakenAll(view, items) ==>
              TakenAll(view, items)[d] ==
              if d in Named(items) && (d in view ==> view[d].at < chunk[d].at) then chunk[d] else view[d]
  {
    TakenAllKeys(view, items);
    if items != [] {
      var init, last := items[..|items| - 1], items[|items| - 1];
      TakenAllAt(view, init, chunk, d);
      assert Named(items) == Named(init) + {last.device};
    }
  }

  /** Folding the items of a frame one by one is the merge of the live view, whatever the
      order of the list. */
  lemma FoldIsMerge(view: Chunk, items: seq<Item>, chunk: Chunk)
    requires Lists(items, chunk)
    ensures TakenAll(view, items) == LiveView.MergeNewer(view, chunk)
  {
    var got, want := TakenAll(view, items), LiveView.MergeNewer(view, chunk);
    forall d ensures (d in got <==> d in want) && (d in got ==> got[d] == want[d]) {
      TakenAllAt(view, items, chunk, d);
    }
    assert got.Keys == want.Keys;
  }

  lemma AppliedIsBrowse(view: Chunk, items: seq<Item>, full: bool, chunk: Chunk, removed: set<DeviceId>)
    requires Lists(items, chunk)
    ensures Applied(view, items, full) - removed == LiveView.Browse(view, Frame(full, chunk, removed))
  {
    FoldIsMerge(view, items, chunk);
  }

  // ---------------------------------------------------------------------------
  // Slots
  // ---------------------------------------------------------------------------

  /** Every slot has one device and every device one slot. */
  ghost predicate SlotsExact(slotIds: seq<DeviceId>, slots: map<DeviceId, nat>) {
    && (forall d :: d in slots ==> slots[d] < |slotIds| && slotIds[slots[d]] == d)
    && (forall i :: 0 <= i < |slotIds| ==> slotIds[i] in slots && slots[slotIds[i]] == i)
  }

  /** No device's slot ever changes. */
  ghost predicate Extends(before: map<DeviceId, nat>, after: map<DeviceId, nat>) {
    forall d :: d in before ==> d in after && after[d] == before[d]
  }

  lemma NewSlot(slotIds: seq<DeviceId>, slots: map<DeviceId, nat>, d: DeviceId)
    requires SlotsExact(slotIds, slots) && d !in slots
    ensures SlotsExact(slotIds + [d], slots[d := |slotIds|])
  {
  }

  datatype Look = Look(radius: real, color: Rgba, lon: int, lat: int)

  /** A live device's slot shows it, in its own place and in its colour; any other slot is
      invisible. */
  predicate Fits(look: Look, d: DeviceId, entries: Chunk, shade: Rgba) {
    if d in entries then look == Look(MARKER, shade, entries[d].lon, entries[d].lat)
    else look.radius == 0.0 && look.color.a == 0
  }

  method Grown<T>(source: array<T>, zero: T, length: nat) returns (next: array<T>)
    requires source.Length <= length
    ensures fresh(next) && next.Length == length
    ensures forall i :: 0 <= i < source.Length ==> next[i] == source[i]
    ensures forall i :: source.Length <= i < length ==> next[i] == zero
  {
    next := new T[length](_ => zero);
    for k := 0 to source.Length
      invariant forall i :: 0 <= i < k ==> next[i] == source[i]
      invariant forall i :: source.Length <= i < length ==> next[i] == zero
    {
      next[k] := source[k];
    }
  }

  lemma WithoutNext(view: Chunk, ids: seq<DeviceId>, k: nat)
    requires k < |ids|
    ensures view - Members(ids[..k + 1]) == view - Members(ids[..k]) - {ids[k]}
  {
    assert ids[..k + 1] == ids[..k] + [ids[k]];
    assert Members(ids[..k + 1]) == Members(ids[..k]) + {ids[k]};
  }

  method Listing(s: set<DeviceId>) returns (r: seq<DeviceId>)
    ensures Members(r) == s
  {
    r := [];
    var rest := s;
    while rest != {}
      invariant s == Members(r) + rest
    {
      var d :| d in rest;
      assert Members(r + [d]) == Members(r) + {d};
      r, rest := r + [d], rest - {d};
    }
  }

  class DeviceStore {
    const staleMs: int
    const plain: Rgba
    const highlight: Rgba
    var capacity: nat
    var target: array<int>
    var colors: array<Byte>
    var radii: array<real>
    var slotIds: seq<DeviceId>
    var slots: map<DeviceId, nat>
    var entries: Chunk
    var highlighted: set<DeviceId>

    ghost predicate Sized()
      reads this
    {
      target.Length == 2 * capacity && colors.Length == 4 * capacity && radii.Length == capacity
    }

    ghost predicate Shapes()
      reads this
    {
      && Sized() && 1 <= capacity && |slotIds| <= capacity
      && SlotsExact(slotIds, slots)
      && entries.Keys <= slots.Keys
    }

    /** What the layer draws for a slot. */
    function LookAt(i: nat): Look
      requires Sized() && i < capacity
      reads this, target, colors, radii
    {
      Look(radii[i],
           Rgba(colors[4 * i], colors[4 * i + 1], colors[4 * i + 2], colors[4 * i + 3]),
           target[2 * i], target[2 * i + 1])
    }

    /** Every slot but those of `except` looks right, if `lit` are the highlighted devices. */
    ghost predicate Drawn(lit: set<DeviceId>, except: set<DeviceId>)
      requires Shapes()
      reads this, target, colors, radii
    {
      forall i :: 0 <= i < |slotIds| && slotIds[i] !in except ==>
        Fits(LookAt(i), slotIds[i], entries, Shade(slotIds[i], lit))
    }

    function Shade(d: DeviceId, lit: set<DeviceId>): Rgba {
      if d in lit then highlight else plain
    }

    ghost predicate Valid()
      reads this, target, colors, radii
    {
      Shapes() && Drawn(highlighted, {})
    }

    /** A slot can be seen exactly while its device is live. */
    lemma VisibleIffLive(i: nat)
      requires Valid() && i < |slotIds|
      ensures LookAt(i).radius > 0.0 <==> slotIds[i] in entries
      ensures slotIds[i] in entries ==>
                LookAt(i).color == (if slotIds[i] in highlighted then highlight else plain)
                && LookAt(i).lon == entries[slotIds[i]].lon && LookAt(i).lat == entries[slotIds[i]].lat
    {
    }

    constructor (capacity: int, staleMs: int, plainColor: Option<Rgba>, highlightColor: Option<Rgba>)
      ensures Valid() && entries == map[] && slots == map[] && highlighted == {}
      ensures this.staleMs == staleMs && fresh(target) && fresh(colors) && fresh(radii)
    {
      this.staleMs := staleMs;
      plain := if plainColor.Some? then plainColor.value else PLAIN;
      highlight := if highlightColor.Some? then highlightColor.value else HIGHLIGHT;
      var n: nat := if capacity < 1 then 1 else capacity;
      this.capacity := n;
      target := new int[2 * n](_ => 0);
      colors := new Byte[4 * n](_ => 0);
      radii := new real[n](_ => 0.0);
      slotIds, slots, entries, highlighted := [], map[], map[], {};
    }

    method Write(slot: nat, c: Rgba)
      requires Sized() && slot < capacity
      modifies colors
      ensures LookAt(slot) == old(LookAt(slot)).(color := c)
      ensures forall i: nat :: i < capacity && i != slot ==> LookAt(i) == old(LookAt(i))
    {
      var offset := slot * 4;
      colors[offset] := c.r;
      colors[offset + 1] := c.g;
      colors[offset + 2] := c.b;
      colors[offset + 3] := c.a;
    }

    method Show(slot: nat, d: DeviceId)
      requires Sized() && slot < capacity
      modifies radii, colors
      ensures LookAt(slot) == old(LookAt(slot)).(radius := MARKER, color := Shade(d, highlighted))
      ensures forall i: nat :: i < capacity && i != slot ==> LookAt(i) == old(LookAt(i))
    {
      Write(slot, if d in highlighted then highlight else plain);
      radii[slot] := MARKER;
    }

    method Hide(slot: nat)
      requires Sized() && slot < capacity
      modifies radii, colors
      ensures LookAt(slot).radius == 0.0 && LookAt(slot).color.a == 0
      ensures forall i: nat :: i < capacity && i != slot ==> LookAt(i) == old(LookAt(i))
    {
      radii[slot] := 0.0;
      colors[slot * 4 + 3] := 0;
    }

    /** Double every buffer; what is drawn does not change. */
    method Grow()
      requires Sized()
      modifies this`capacity, this`target, this`colors, this`radii
      ensures Sized() && capacity == 2 * old(capacity)
      ensures forall i: nat :: i < old(capacity) ==> LookAt(i) == old(LookAt(i))
      ensures fresh(target) && fresh(colors) && fresh(radii)
    {
      capacity := capacity * 2;
      target := Grown(target, 0, capacity * 2);
      colors := Grown(colors, 0, capacity * 4);
      radii := Grown(radii, 0.0, capacity);
    }

    /** The slot a device always had, or the next one. */
    method Reserve(d: DeviceId) returns (slot: nat)
      requires Shapes() && d !in entries
      modifies this`capacity, this`target, this`colors, this`radii, this`slotIds, this`slots
      ensures Shapes() && old(capacity) <= capacity && old(slotIds) <= slotIds
      ensures forall i: nat :: i < old(capacity) ==> LookAt(i) == old(LookAt(i))
      ensures Extends(old(slots), slots) && d in slots && slots[d] == slot
      ensures forall i :: 0 <= i < |slotIds| && slotIds[i] != d ==> i < |old(slotIds)|
      ensures target == old(target) || fresh(target)
      ensures colors == old(colors) || fresh(colors)
      ensures radii == old(radii) || fresh(radii)
    {
      if d in slots {
        return slots[d];
      }
      slot := |slotIds|;
      if slot >= capacity { Grow(); }
      NewSlot(slotIds, slots, d);
      slotIds := slotIds + [d];
      slots := slots[d := slot];
    }

    /** Bring a device on screen. */
    method Admit(d: DeviceId) returns (slot: nat)
      requires Valid() && d !in entries
      modifies this`capacity, this`target, this`colors, this`radii, this`slotIds, this`slots, colors, radii
      ensures Shapes() && Drawn(highlighted, {d})
      ensures Extends(old(slots), slots) && d in slots && slots[d] == slot
      ensures LookAt(slot).radius == MARKER && LookAt(slot).color == Shade(d, highlighted)
      ensures target == old(target) || fresh(target)
      ensures colors == old(colors) || fresh(colors)
      ensures radii == old(radii) || fresh(radii)
    {
      slot := Reserve(d);
      assert Drawn(highlighted, {d});
      Show(slot, d);
    }

    method Aim(slot: nat, i: Item)
      requires Sized() && slot < capacity
      modifies target
      ensures LookAt(slot) == old(LookAt(slot)).(lon := i.lon, lat := i.lat)
      ensures forall k: nat :: k < capacity && k != slot ==> LookAt(k) == old(LookAt(k))
    {
      target[slot * 2] := i.lon;
      target[slot * 2 + 1] := i.lat;
    }

    /** One item of a frame. */
    method Take(i: Item)
      requires Valid()
      modifies this`capacity, this`target, this`colors, this`radii, this`slotIds, this`slots, this`entries
      modifies target, colors, radii
      ensures Valid() && entries == Taken(old(entries), i) && Extends(old(slots), slots)
      ensures target == old(target) || fresh(target)
      ensures colors == old(colors) || fresh(colors)
      ensures radii == old(radii) || fresh(radii)
    {
      if i.device in entries && entries[i.device].at >= i.at {
        return;
      }
      var slot: nat;
      if i.device in entries {
        slot := slots[i.device];
      } else {
        slot := Admit(i.device);
      }
      Land(slot, i);
    }

    /** Aim an on-screen device at its newest report. */
    method Land(slot: nat, i: Item)
      requires Shapes() && Drawn(highlighted, {i.device}) && i.device in slots && slots[i.device] == slot
      requires LookAt(slot).radius == MARKER && LookAt(slot).color == Shade(i.device, highlighted)
      modifies target, this`entries
      ensures Valid() && entries == old(entries)[i.device := i]
    {
      Aim(slot, i);
      entries := entries[i.device := i];
    }

    /** Merge one frame's items. A full frame leaves exactly its own devices live. */
    method Apply(items: seq<Item>, full: bool)
      requires Valid()
      modifies this`capacity, this`target, this`colors, this`radii, this`slotIds, this`slots, this`entries
      modifies target, colors, radii
      ensures Valid() && entries == Applied(old(entries), items, full) && Extends(old(slots), slots)
      ensures full ==> entries.Keys == Named(items)
      ensures target == old(target) || fresh(target)
      ensures colors == old(colors) || fresh(colors)
      ensures radii == old(radii) || fresh(radii)
    {
      TakeEach(items);
      if full {
        CutIsApplied(old(entries), items);
        var absent := Listing(entries.Keys - Named(items));
        Remove(absent);
      }
    }

    method TakeEach(items: seq<Item>)
      requires Valid()
      modifies this`capacity, this`target, this`colors, this`radii, this`slotIds, this`slots, this`entries
      modifies target, colors, radii
      ensures Valid() && entries == TakenAll(old(entries), items) && Extends(old(slots), slots)
      ensures target == old(target) || fresh(target)
      ensures colors == old(colors) || fresh(colors)
      ensures radii == old(radii) || fresh(radii)
    {
      assert items[..0] == [];
      for k := 0 to |items|
        invariant Valid() && entries == TakenAll(old(entries), items[..k]) && Extends(old(slots), slots)
        invariant target == old(target) || fresh(target)
        invariant colors == old(colors) || fresh(colors)
        invariant radii == old(radii) || fresh(radii)
      {
        assert items[..k + 1][..k] == items[..k];
        Take(items[k]);
      }
      assert items[..|items|] == items;
    }

    /** Hide devices in place; unknown ids are ignored. */
    method Remove(ids: seq<DeviceId>)
      requires Valid()
      modifies this`entries, colors, radii
      ensures Valid() && entries == old(entries) - Members(ids)
    {
      for k := 0 to |ids|
        invariant Valid() && entries == old(entries) - Members(ids[..k])
      {
        WithoutNext(old(entries), ids, k);
        RemoveOne(ids[k]);
      }
      assert ids[..|ids|] == ids;
    }

    method RemoveOne(d: DeviceId)
      requires Valid()
      modifies this`entries, colors, radii
      ensures Valid() && entries == old(entries) - {d}
    {
      if d !in entries {
        return;
      }
      entries := entries - {d};
      Hide(slots[d]);
    }

    /** Drop exactly the devices not heard from for too long. */
    method Sweep(now: int) returns (dropped: seq<DeviceId>)
      requires Valid()
      modifies this`entries, colors, radii
      ensures Valid()
      ensures forall d :: d in Members(dropped) <==> d in old(entries) && now - old(entries)[d].at > staleMs
      ensures entries == map d | d in old(entries) && now - old(entries)[d].at <= staleMs :: old(entries)[d]
    {
      dropped := Listing(set d | d in entries && now - entries[d].at > staleMs);
      Remove(dropped);
    }

    /** Colour a device if it is live; a hidden one keeps its hidden slot. */
    method Paint(d: DeviceId, c: Rgba, ghost lit: set<DeviceId>, ghost lit': set<DeviceId>)
      requires Shapes() && Drawn(lit, {})
      requires c == Shade(d, lit') && forall e :: e != d ==> (e in lit <==> e in lit')
      modifies colors
      ensures Drawn(lit', {})
    {
      if d in entries {
        Write(slots[d], c);
      }
    }

    /** Recolour the devices that entered or left the highlighted set. */
    method SetHighlighted(next: set<DeviceId>)
      requires Valid()
      modifies this`highlighted, colors
      ensures Valid() && highlighted == next
    {
      PaintAll(highlighted - next, plain, highlighted, highlighted * next);
      PaintAll(next - highlighted, highlight, highlighted * next, next);
      highlighted := next;
    }

    method PaintAll(ids: set<DeviceId>, c: Rgba, ghost lit: set<DeviceId>, ghost lit': set<DeviceId>)
      requires Shapes() && Drawn(lit, {})
      requires forall d :: d in ids ==> c == Shade(d, lit')
      requires forall d :: d !in ids ==> (d in lit <==> d in lit')
      modifies colors
      ensures Drawn(lit', {})
    {
      var rest := ids;
      ghost var now := lit;
      while rest != {}
        invariant rest <= ids && Drawn(now, {})
        invariant forall d :: d !in rest ==> (d in now <==> d in lit')
      {
        var d :| d in rest;
        ghost var after := if d in lit' then now + {d} else now - {d};
        Paint(d, c, now, after);
        now := after;
        rest := rest - {d};
      }
      assert now == lit';
    }
  }

  /** The page's frame handler: items first, then removals, which is the live view's
      browser. */
  method OnPositions(store: DeviceStore, items: seq<Item>, full: bool, removed: seq<DeviceId>, ghost chunk: Chunk)
    requires store.Valid() && Lists(items, chunk)
    modifies store, store.target, store.colors, store.radii
    ensures store.Valid() && Extends(old(store.slots), store.slots)
    ensures store.entries == LiveView.Browse(old(store.entries), Frame(full, chunk, Members(removed)))
  {
    AppliedIsBrowse(store.entries, items, full, chunk, Members(removed));
    store.Apply(items, full);
    store.Remove(removed);
  }
}
