/** The gateway's picture of the fleet as a value: what every hub operation computes, the
    invariant all of them keep, and what a drain tells each viewport. */
module HubState {
  import opened Options
  import opened Grid

  type DeviceId = string

  datatype Item = Item(device: DeviceId, lat: int, lon: int, at: int)

  datatype Entry = Entry(item: Item, cell: Cell)

  /** One serialised cell: the items it carries, by device. */
  type Chunk = map<DeviceId, Item>

  /** For each device gone from a cell, the cell it went to, if any. */
  type Moves = map<DeviceId, Option<Cell>>

  datatype Hub = Hub(
    size: int,
    latest: map<DeviceId, Entry>,
    cells: map<Cell, set<DeviceId>>,
    changed: map<Cell, set<DeviceId>>,
    departed: map<Cell, Moves>,
    snapshots: map<Cell, Chunk>,
    updates: nat)

  datatype TickDelta = TickDelta(chunks: map<Cell, Chunk>, departures: map<Cell, Moves>)

  /** A positions frame as the browser reads it. */
  datatype Frame = Frame(full: bool, items: Chunk, removed: set<DeviceId>)

  predicate Holds(m: map<Cell, set<DeviceId>>, c: Cell, d: DeviceId) {
    c in m && d in m[c]
  }

  predicate Left(m: map<Cell, Moves>, c: Cell, d: DeviceId) {
    c in m && d in m[c]
  }

  // ---------------------------------------------------------------------------
  // Operations
  // ---------------------------------------------------------------------------

  function Empty(size: int): Hub {
    Hub(size, map[], map[], map[], map[], map[], 0)
  }

  function Added(m: map<Cell, set<DeviceId>>, cell: Cell, d: DeviceId): map<Cell, set<DeviceId>> {
    m[cell := (if cell in m then m[cell] else {}) + {d}]
  }

  function Discarded(m: map<Cell, set<DeviceId>>, cell: Cell, d: DeviceId): map<Cell, set<DeviceId>> {
    if cell in m then m[cell := m[cell] - {d}] else m
  }

  function WithoutEmpty(m: map<Cell, set<DeviceId>>, cell: Cell): map<Cell, set<DeviceId>> {
    if cell in m && m[cell] == {} then m - {cell} else m
  }

  function Noted(m: map<Cell, Moves>, cell: Cell, d: DeviceId, movedTo: Option<Cell>): map<Cell, Moves> {
    m[cell := (if cell in m then m[cell] else map[])[d := movedTo]]
  }

  function Withdrawn(m: map<Cell, Moves>, cell: Cell, d: DeviceId): map<Cell, Moves> {
    if cell in m then m[cell := m[cell] - {d}] else m
  }

  function Touch(h: Hub, cell: Cell, d: DeviceId): Hub {
    h.(changed := Added(h.changed, cell, d),
       departed := Withdrawn(h.departed, cell, d),
       snapshots := h.snapshots - {cell})
  }

  function Leave(h: Hub, cell: Cell, d: DeviceId, movedTo: Option<Cell>): Hub {
    h.(cells := WithoutEmpty(Discarded(h.cells, cell, d), cell),
       changed := Discarded(h.changed, cell, d),
       departed := Noted(h.departed, cell, d, movedTo),
       snapshots := h.snapshots - {cell})
  }

  /** A report counts only if it is newer than what is known of its device. */
  predicate Accepts(h: Hub, item: Item) {
    item.device in h.latest ==> item.at > h.latest[item.device].item.at
  }

  function ApplyItem(h: Hub, item: Item): Hub
    requires h.size > 0
  {
    if !Accepts(h, item) then h
    else
      var d, cell := item.device, CellOf(item.lat, item.lon, h.size);
      var left := if d in h.latest && h.latest[d].cell != cell
                  then Leave(h, h.latest[d].cell, d, Some(cell)) else h;
      var placed := left.(latest := left.latest[d := Entry(item, cell)],
                          cells := Added(left.cells, cell, d),
                          updates := left.updates + 1);
      Touch(placed, cell, d)
  }

  function ApplyAll(h: Hub, items: seq<Item>): (r: Hub)
    requires h.size > 0
    ensures r.size == h.size
  {
    if items == [] then h
    else ApplyItem(ApplyAll(h, items[..|items| - 1]), items[|items| - 1])
  }

  function Forget(h: Hub, d: DeviceId): Hub
    requires d in h.latest
  {
    Leave(h.(latest := h.latest - {d}), h.latest[d].cell, d, None)
  }

  /** A sweep forgets the listed devices one after the other. */
  function ForgetAll(h: Hub, stale: seq<DeviceId>): Hub {
    if stale == [] then h
    else
      var init := ForgetAll(h, stale[..|stale| - 1]);
      var d := stale[|stale| - 1];
      if d in init.latest then Forget(init, d) else init
  }

  function ItemsOf(latest: map<DeviceId, Entry>, devices: set<DeviceId>): Chunk
    requires devices <= latest.Keys
  {
    map d | d in devices :: latest[d].item
  }

  function DeltaOf(h: Hub): TickDelta
    requires Valid(h)
  {
    assert forall c, d :: c in h.changed && d in h.changed[c] ==> Holds(h.changed, c, d);
    TickDelta(map c | c in h.changed && h.changed[c] != {} :: ItemsOf(h.latest, h.changed[c]),
              map c | c in h.departed && h.departed[c] != map[] :: h.departed[c])
  }

  function Drained(h: Hub): Hub {
    h.(changed := map[], departed := map[])
  }

  // ---------------------------------------------------------------------------
  // The invariant of every reachable hub
  // ---------------------------------------------------------------------------

  predicate Changed(h: Hub, d: DeviceId) {
    d in h.latest && Holds(h.changed, h.latest[d].cell, d)
  }

  /** Where a device stands. */
  function Place(h: Hub, d: DeviceId): Option<Cell> {
    if d in h.latest then Some(h.latest[d].cell) else None
  }

  ghost predicate CellsExact(h: Hub) {
    && (forall c, d :: Holds(h.cells, c, d) <==> Place(h, d) == Some(c))
    && (forall c :: c in h.cells ==> h.cells[c] != {})
  }

  ghost predicate PendingExact(h: Hub) {
    && (forall c, d :: Holds(h.changed, c, d) ==> Place(h, d) == Some(c))
    && (forall c, d :: Left(h.departed, c, d) ==> Place(h, d) != Some(c) && (d in h.latest ==> Changed(h, d)))
  }

  ghost predicate CacheExact(h: Hub) {
    forall c :: c in h.snapshots ==>
      && c in h.cells
      && h.cells[c] <= h.latest.Keys
      && h.snapshots[c] == ItemsOf(h.latest, h.cells[c])
  }

  ghost predicate EntriesExact(h: Hub) {
    && h.size > 0
    && forall d :: d in h.latest ==>
         && h.latest[d].item.device == d
         && h.latest[d].cell == CellOf(h.latest[d].item.lat, h.latest[d].item.lon, h.size)
  }

  ghost predicate Valid(h: Hub) {
    EntriesExact(h) && CellsExact(h) && PendingExact(h) && CacheExact(h)
  }

  // ---------------------------------------------------------------------------
  // What one step does, device by device and cell by cell
  // ---------------------------------------------------------------------------

  /** Every cell set differs from before only in device `d`, which now stands in `to`. */
  ghost predicate Rehoused(m: map<Cell, set<DeviceId>>, m': map<Cell, set<DeviceId>>, d: DeviceId, to: Option<Cell>) {
    forall c, e :: Holds(m', c, e) <==> if e == d then to == Some(c) else Holds(m, c, e)
  }

  /** The departures after device `d` went from `from` to `to`. */
  ghost predicate Recorded(m: map<Cell, Moves>, m': map<Cell, Moves>, d: DeviceId,
                           from: Option<Cell>, to: Option<Cell>)
  {
    && (forall c, e :: Left(m', c, e) <==>
          if e == d then to != Some(c) && (Left(m, c, e) || from == Some(c)) else Left(m, c, e))
    && (forall c, e :: Left(m', c, e) ==>
          if e == d && from == Some(c) then m'[c][e] == to else Left(m, c, e) && m'[c][e] == m[c][e])
  }

  ghost predicate Moved(h: Hub, h': Hub, d: DeviceId, to: Option<Cell>) {
    && Rehoused(h.cells, h'.cells, d, to)
    && Rehoused(h.changed, h'.changed, d, to)
    && Recorded(h.departed, h'.departed, d, Place(h, d), to)
  }

  lemma DiscardedHolds(m: map<Cell, set<DeviceId>>, cell: Cell, d: DeviceId, c: Cell, e: DeviceId)
    ensures Holds(Discarded(m, cell, d), c, e) <==> Holds(m, c, e) && !(c == cell && e == d)
    ensures Holds(WithoutEmpty(Discarded(m, cell, d), cell), c, e) <==> Holds(Discarded(m, cell, d), c, e)
  {
  }

  lemma AddedHolds(m: map<Cell, set<DeviceId>>, cell: Cell, d: DeviceId, c: Cell, e: DeviceId)
    ensures Holds(Added(m, cell, d), c, e) <==> Holds(m, c, e) || (c == cell && e == d)
  {
  }

  /** One device moving between the sets of an index that knew where it stood. */
  lemma IndexMoves(m: map<Cell, set<DeviceId>>, left: map<Cell, set<DeviceId>>, d: DeviceId, from: Option<Cell>)
    requires forall c :: Holds(m, c, d) ==> from == Some(c)
    requires left == if from.Some? then Discarded(m, from.value, d) else m
    ensures Rehoused(m, left, d, None)
    ensures from.Some? ==> Rehoused(m, WithoutEmpty(left, from.value), d, None)
    ensures forall to :: Rehoused(m, Added(left, to, d), d, Some(to))
    ensures forall to :: from.Some? ==> Rehoused(m, Added(WithoutEmpty(left, from.value), to, d), d, Some(to))
    ensures forall to :: from == Some(to) ==> Rehoused(m, Added(m, to, d), d, Some(to))
  {
    forall c, e
      ensures Holds(left, c, e) <==> if e == d then false else Holds(m, c, e)
      ensures from.Some? ==> (Holds(WithoutEmpty(left, from.value), c, e) <==> Holds(left, c, e))
    {
      if from.Some? { DiscardedHolds(m, from.value, d, c, e); }
    }
    forall to, c, e
      ensures Holds(Added(left, to, d), c, e) <==> if e == d then to == c else Holds(m, c, e)
    {
      AddedHolds(left, to, d, c, e);
    }
    forall to, c, e | from.Some?
      ensures Holds(Added(WithoutEmpty(left, from.value), to, d), c, e) <==> if e == d then to == c else Holds(m, c, e)
    {
      AddedHolds(WithoutEmpty(left, from.value), to, d, c, e);
    }
    forall to, c, e | from == Some(to)
      ensures Holds(Added(m, to, d), c, e) <==> if e == d then to == c else Holds(m, c, e)
    {
      AddedHolds(m, to, d, c, e);
    }
  }

  /** Leaving notes a departure, arriving withdraws the one noted for the cell reached. */
  lemma DeparturesMove(m: map<Cell, Moves>, d: DeviceId, from: Option<Cell>, to: Option<Cell>)
    requires forall c :: from == Some(c) ==> !Left(m, c, d)
    ensures var noted := if from.Some? && from != to then Noted(m, from.value, d, to) else m;
            Recorded(m, if to.Some? then Withdrawn(noted, to.value, d) else noted, d, from, to)
  {
  }

  lemma ApplyMoves(h: Hub, item: Item)
    requires Valid(h) && Accepts(h, item)
    ensures var cell := CellOf(item.lat, item.lon, h.size);
            var h' := ApplyItem(h, item);
            h'.latest == h.latest[item.device := Entry(item, cell)] && Moved(h, h', item.device, Some(cell))
  {
    var d, cell, from := item.device, CellOf(item.lat, item.lon, h.size), Place(h, item.device);
    IndexMoves(h.cells, if from.Some? then Discarded(h.cells, from.value, d) else h.cells, d, from);
    IndexMoves(h.changed, if from.Some? then Discarded(h.changed, from.value, d) else h.changed, d, from);
    DeparturesMove(h.departed, d, from, Some(cell));
  }

  lemma ForgetMoves(h: Hub, d: DeviceId)
    requires Valid(h) && d in h.latest
    ensures Forget(h, d).latest == h.latest - {d}
    ensures Moved(h, Forget(h, d), d, None)
  {
    var from := Place(h, d);
    IndexMoves(h.cells, Discarded(h.cells, from.value, d), d, from);
    IndexMoves(h.changed, Discarded(h.changed, from.value, d), d, from);
    DeparturesMove(h.departed, d, from, None);
  }

  /** Snapshots of cells that neither lost nor gained anything stay right. */
  lemma CacheSurvives(h: Hub, h': Hub, d: DeviceId, to: Option<Cell>)
    requires Valid(h) && CellsExact(h') && Rehoused(h.cells, h'.cells, d, to)
    requires forall e :: e != d ==> (e in h'.latest <==> e in h.latest)
    requires forall e :: e != d && e in h.latest ==> h'.latest[e] == h.latest[e]
    requires forall c :: c in h'.snapshots ==>
               c in h.snapshots && h'.snapshots[c] == h.snapshots[c] && Place(h, d) != Some(c) && to != Some(c)
    ensures CacheExact(h')
  {
    forall c | c in h'.snapshots
      ensures c in h'.cells && h'.cells[c] == h.cells[c] && h'.cells[c] <= h'.latest.Keys
      ensures h'.snapshots[c] == ItemsOf(h'.latest, h'.cells[c])
    {
      var e :| e in h.cells[c];
      assert Holds(h.cells, c, e);
      assert Holds(h'.cells, c, e);
      forall e ensures e in h.cells[c] <==> e in h'.cells[c] {
        assert Holds(h.cells, c, e) <==> Holds(h'.cells, c, e);
      }
      assert h'.cells[c] == h.cells[c];
      forall e | e in h.cells[c] ensures e in h.latest && e != d {
        assert Holds(h.cells, c, e);
      }
    }
  }

  /** The index and the pending bookkeeping stay exact wherever a device moves. */
  lemma MovedKeepsExact(h: Hub, h': Hub, d: DeviceId, to: Option<Cell>)
    requires CellsExact(h) && PendingExact(h) && Moved(h, h', d, to) && Place(h', d) == to
    requires forall e :: e != d ==> Place(h', e) == Place(h, e)
    ensures forall c, e :: Holds(h'.cells, c, e) <==> Place(h', e) == Some(c)
    ensures PendingExact(h')
  {
    forall c, e | Left(h'.departed, c, e)
      ensures Place(h', e) != Some(c) && (e in h'.latest ==> Changed(h', e))
    {
      if e == d && to.Some? { assert Holds(h'.changed, to.value, d); }
      else if e != d { assert Left(h.departed, c, e); }
    }
  }

  lemma ApplyKeepsValid(h: Hub, item: Item)
    requires Valid(h)
    ensures Valid(ApplyItem(h, item))
  {
    if Accepts(h, item) {
      var h', to := ApplyItem(h, item), Some(CellOf(item.lat, item.lon, h.size));
      ApplyMoves(h, item);
      MovedKeepsExact(h, h', item.device, to);
      CacheSurvives(h, h', item.device, to);
    }
  }

  lemma ForgetKeepsValid(h: Hub, d: DeviceId)
    requires Valid(h) && d in h.latest
    ensures Valid(Forget(h, d))
  {
    ForgetMoves(h, d);
    MovedKeepsExact(h, Forget(h, d), d, None);
    CacheSurvives(h, Forget(h, d), d, None);
  }

  lemma {:induction false} ApplyAllKeepsValid(h: Hub, items: seq<Item>)
    requires Valid(h)
    ensures Valid(ApplyAll(h, items))
  {
    if items != [] {
      ApplyAllKeepsValid(h, items[..|items| - 1]);
      ApplyKeepsValid(ApplyAll(h, items[..|items| - 1]), items[|items| - 1]);
    }
  }
}
