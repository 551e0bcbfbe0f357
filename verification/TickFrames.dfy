/** What a tick tells one viewport, and why that is enough: the last-exit argument. */
module TickFrames {
  import opened Options
  import opened Grid
  import opened HubState

  /** A viewport as the cell rectangles it was turned into. */
  type Window = seq<Rect>

  predicate InView(v: Window, place: Option<Cell>) {
    place.Some? && Covers(v, place.value)
  }

  /** The hub's picture restricted to a window: what a client ought to show. */
  function Visible(h: Hub, v: Window): Chunk {
    map d | d in h.latest && Covers(v, h.latest[d].cell) :: h.latest[d].item
  }

  predicate Carries(chunks: map<Cell, Chunk>, c: Cell, d: DeviceId) {
    c in chunks && d in chunks[c]
  }

  /** No device is serialised in two cells. */
  ghost predicate OneCell(chunks: map<Cell, Chunk>) {
    forall c, c', d :: Carries(chunks, c, d) && Carries(chunks, c', d) ==> c == c'
  }

  /** The items of a set of chunks, as the browser reads them from the joined frame. */
  function Merge(chunks: map<Cell, Chunk>): Chunk
    requires OneCell(chunks)
  {
    assert forall c, d :: c in chunks && d in chunks[c] ==> Carries(chunks, c, d);
    map c, d | c in chunks && d in chunks[c] :: d := chunks[c][d]
  }

  lemma MergeAt(chunks: map<Cell, Chunk>, d: DeviceId)
    requires OneCell(chunks)
    ensures d in Merge(chunks) ==> exists c :: Carries(chunks, c, d)
    ensures forall c :: Carries(chunks, c, d) ==> d in Merge(chunks) && Merge(chunks)[d] == chunks[c][d]
  {
    if d in Merge(chunks) {
      var c :| c in chunks && d in chunks[c] && Merge(chunks)[d] == chunks[c][d];
      assert Carries(chunks, c, d);
    }
  }

  function ChunksIn(v: Window, chunks: map<Cell, Chunk>): map<Cell, Chunk> {
    map c | c in chunks && Covers(v, c) :: chunks[c]
  }

  /** Devices that left a covered cell for somewhere the window does not reach. */
  function RemovedFrom(v: Window, departures: map<Cell, Moves>): set<DeviceId> {
    set c, d | c in departures && Covers(v, c) && d in departures[c] && !InView(v, departures[c][d]) :: d
  }

  function FrameFor(v: Window, delta: TickDelta): Frame
    requires OneCell(delta.chunks)
  {
    ChunksInOneCell(v, delta.chunks);
    Frame(false, Merge(ChunksIn(v, delta.chunks)), RemovedFrom(v, delta.departures))
  }

  // ---------------------------------------------------------------------------
  // Snapshots
  // ---------------------------------------------------------------------------

  /** One cell's chunk, taken from the cache if it is there. */
  function ChunkOf(h: Hub, c: Cell): Chunk
    requires c in h.cells && h.cells[c] <= h.latest.Keys
  {
    if c in h.snapshots then h.snapshots[c] else ItemsOf(h.latest, h.cells[c])
  }

  /** The chunks of the visible cells. */
  function SnapshotChunks(h: Hub, v: Window): map<Cell, Chunk>
    requires Valid(h)
  {
    assert forall c, d :: c in h.cells && d in h.cells[c] ==> Holds(h.cells, c, d);
    map c | c in h.cells && Covers(v, c) :: ChunkOf(h, c)
  }

  /** The hub after serving a snapshot: whatever was not cached now is. */
  function Cached(h: Hub, v: Window): Hub
    requires Valid(h)
  {
    h.(snapshots := h.snapshots + SnapshotChunks(h, v))
  }

  lemma SnapshotCells(h: Hub, v: Window)
    requires Valid(h)
    ensures forall c :: c in h.cells ==> h.cells[c] <= h.latest.Keys
    ensures forall c :: c in SnapshotChunks(h, v) ==> SnapshotChunks(h, v)[c] == ItemsOf(h.latest, h.cells[c])
    ensures forall c, d :: Carries(SnapshotChunks(h, v), c, d) <==> Place(h, d) == Some(c) && Covers(v, c)
  {
    forall c, d | c in h.cells ensures d in h.cells[c] ==> d in h.latest {
      assert Holds(h.cells, c, d) ==> Place(h, d) == Some(c);
    }
    forall c, d ensures Carries(SnapshotChunks(h, v), c, d) <==> Place(h, d) == Some(c) && Covers(v, c) {
      assert Holds(h.cells, c, d) <==> Place(h, d) == Some(c);
    }
  }

  lemma SnapshotAt(h: Hub, v: Window, d: DeviceId)
    requires Valid(h)
    ensures OneCell(SnapshotChunks(h, v))
    ensures d in Merge(SnapshotChunks(h, v)) <==> d in h.latest && Covers(v, h.latest[d].cell)
    ensures d in Merge(SnapshotChunks(h, v)) ==> Merge(SnapshotChunks(h, v))[d] == h.latest[d].item
  {
    SnapshotCells(h, v);
    var chunks := SnapshotChunks(h, v);
    MergeAt(chunks, d);
    if d in h.latest && Covers(v, h.latest[d].cell) { assert Carries(chunks, h.latest[d].cell, d); }
  }

  /** A snapshot put together from cached and fresh cells is the live picture. */
  lemma SnapshotIsVisible(h: Hub, v: Window)
    requires Valid(h)
    ensures OneCell(SnapshotChunks(h, v))
    ensures Merge(SnapshotChunks(h, v)) == Visible(h, v)
  {
    SnapshotAt(h, v, "");
    forall d ensures SamePlace(Merge(SnapshotChunks(h, v)), Visible(h, v), d) {
      SnapshotAt(h, v, d);
    }
    SameChunks(Merge(SnapshotChunks(h, v)), Visible(h, v));
  }

  ghost predicate SamePlace(a: Chunk, b: Chunk, d: DeviceId) {
    (d in a <==> d in b) && (d in a ==> a[d] == b[d])
  }

  lemma SameChunks(a: Chunk, b: Chunk)
    requires forall d :: SamePlace(a, b, d)
    ensures a == b
  {
    forall d ensures d in a <==> d in b { assert SamePlace(a, b, d); }
    forall d | d in a ensures a[d] == b[d] { assert SamePlace(a, b, d); }
  }

  lemma CachedKeepsValid(h: Hub, v: Window)
    requires Valid(h)
    ensures Valid(Cached(h, v))
    ensures forall c :: c in h.cells && Covers(v, c) ==> c in Cached(h, v).snapshots
  {
    SnapshotCells(h, v);
  }

  // ---------------------------------------------------------------------------
  // The last exit
  // ---------------------------------------------------------------------------

  /** A report from the fan-out, or one device of a sweep. */
  datatype HubEvent = Report(item: Item) | Gone(device: DeviceId)

  function HubStep(h: Hub, e: HubEvent): Hub
    requires h.size > 0
  {
    match e
    case Report(item) => ApplyItem(h, item)
    case Gone(d) => if d in h.latest then Forget(h, d) else h
  }

  function HubRun(h: Hub, es: seq<HubEvent>): (r: Hub)
    requires h.size > 0
    ensures r.size > 0
  {
    if es == [] then h else HubStep(HubRun(h, es[..|es| - 1]), es[|es| - 1])
  }

  lemma {:induction false} RunKeepsValid(h: Hub, es: seq<HubEvent>)
    requires Valid(h)
    ensures Valid(HubRun(h, es))
  {
    if es != [] {
      var before := HubRun(h, es[..|es| - 1]);
      RunKeepsValid(h, es[..|es| - 1]);
      match es[|es| - 1] {
        case Report(item) => ApplyKeepsValid(before, item);
        case Gone(d) => if d in before.latest { ForgetKeepsValid(before, d); }
      }
    }
  }

  function Reports(items: seq<Item>): (es: seq<HubEvent>)
    ensures |es| == |items|
  {
    seq(|items|, i requires 0 <= i < |items| => Report(items[i]))
  }

  function Farewells(stale: seq<DeviceId>): (es: seq<HubEvent>)
    ensures |es| == |stale|
  {
    seq(|stale|, i requires 0 <= i < |stale| => Gone(stale[i]))
  }

  /** A batch of reports as events, one after the other. */
  lemma {:induction false} BatchIsRun(h: Hub, items: seq<Item>)
    requires h.size > 0
    ensures ApplyAll(h, items) == HubRun(h, Reports(items))
  {
    if items != [] {
      BatchIsRun(h, items[..|items| - 1]);
      assert Reports(items)[..|items| - 1] == Reports(items[..|items| - 1]);
    }
  }

  /** The devices of a sweep likewise. */
  lemma {:induction false} SweepIsRun(h: Hub, stale: seq<DeviceId>)
    requires h.size > 0
    ensures ForgetAll(h, stale) == HubRun(h, Farewells(stale))
  {
    if stale != [] {
      SweepIsRun(h, stale[..|stale| - 1]);
      assert Farewells(stale)[..|stale| - 1] == Farewells(stale[..|stale| - 1]);
    }
  }

  /** The places a device stood in, one after the other, over a run. */
  function Trail(h: Hub, es: seq<HubEvent>, d: DeviceId): (t: seq<Option<Cell>>)
    requires h.size > 0
    ensures |t| > 0 && t[|t| - 1] == Place(HubRun(h, es), d)
  {
    if es == [] then [Place(h, d)]
    else
      var t, now := Trail(h, es[..|es| - 1], d), Place(HubRun(h, es), d);
      if now == t[|t| - 1] then t else t + [now]
  }

  ghost predicate LastVisit(t: seq<Option<Cell>>, c: Cell, i: int) {
    0 <= i < |t| && t[i] == Some(c) && forall j :: i < j < |t| ==> t[j] != Some(c)
  }

  ghost predicate SameDepartures(m: map<Cell, Moves>, m': map<Cell, Moves>, d: DeviceId) {
    forall c :: (Left(m', c, d) <==> Left(m, c, d)) && (Left(m, c, d) ==> m'[c][d] == m[c][d])
  }

  /** The departures recorded for a device are its last exits along a trail. */
  ghost predicate LastExits(t: seq<Option<Cell>>, m: map<Cell, Moves>, d: DeviceId, c: Cell) {
    && (Left(m, c, d) ==> exists i :: LastVisit(t, c, i) && i + 1 < |t|)
    && (forall i :: LastVisit(t, c, i) && i + 1 < |t| ==> Left(m, c, d) && m[c][d] == t[i + 1])
  }

  lemma ExitsExtend(t: seq<Option<Cell>>, m: map<Cell, Moves>, m': map<Cell, Moves>,
                    d: DeviceId, c: Cell, to: Option<Cell>)
    requires |t| > 0 && LastExits(t, m, d, c) && to != t[|t| - 1]
    requires Recorded(m, m', d, t[|t| - 1], to)
    ensures LastExits(t + [to], m', d, c)
  {
    var t' := t + [to];
    forall i | LastVisit(t', c, i) && i + 1 < |t'| ensures Left(m', c, d) && m'[c][d] == t'[i + 1] {
      assert t'[|t|] == to;
      forall j | i < j < |t| ensures t[j] != Some(c) { assert t'[j] == t[j]; }
      assert LastVisit(t, c, i);
    }
    if Left(m', c, d) {
      var i: int;
      if t[|t| - 1] == Some(c) { i := |t| - 1; }
      else { i :| LastVisit(t, c, i) && i + 1 < |t|; }
      assert LastVisit(t', c, i);
    }
  }

  /** One event, seen from one device: it stays where it is and no departure of it
      changes, or it moves and the bookkeeping records that. */
  lemma StepMoves(h: Hub, e: HubEvent, d: DeviceId)
    requires Valid(h)
    ensures var h' := HubStep(h, e);
            || (Place(h', d) == Place(h, d) && SameDepartures(h.departed, h'.departed, d))
            || Recorded(h.departed, h'.departed, d, Place(h, d), Place(h', d))
  {
    match e {
      case Report(item) =>
        if Accepts(h, item) {
          ApplyMoves(h, item);
          MovesOneDevice(h, HubStep(h, e), item.device, d);
        }
      case Gone(g) =>
        if g in h.latest {
          ForgetMoves(h, g);
          MovesOneDevice(h, HubStep(h, e), g, d);
        }
    }
  }

  /** A recorded move of `g`, seen from any device `d`. */
  lemma MovesOneDevice(h: Hub, h': Hub, g: DeviceId, d: DeviceId)
    requires Recorded(h.departed, h'.departed, g, Place(h, g), Place(h', g))
    requires forall e :: e != g ==> Place(h', e) == Place(h, e)
    ensures || (Place(h', d) == Place(h, d) && SameDepartures(h.departed, h'.departed, d))
            || Recorded(h.departed, h'.departed, d, Place(h, d), Place(h', d))
  {
    if d != g {
      forall c ensures (Left(h'.departed, c, d) <==> Left(h.departed, c, d))
                    && (Left(h.departed, c, d) ==> h'.departed[c][d] == h.departed[c][d]) {}
    }
  }

  /** After any run since a drain, a departure is on record for a cell exactly when the
      device has been there and is there no longer, and it says where the device went
      after its last visit. */
  lemma {:induction false} LastExit(h: Hub, es: seq<HubEvent>, d: DeviceId, c: Cell)
    requires Valid(h) && h.departed == map[]
    ensures LastExits(Trail(h, es, d), HubRun(h, es).departed, d, c)
  {
    if es != [] {
      var init := es[..|es| - 1];
      var before, t := HubRun(h, init), Trail(h, init, d);
      LastExit(h, init, d, c);
      RunKeepsValid(h, init);
      StepMoves(before, es[|es| - 1], d);
      if Trail(h, es, d) != t {
        ExitsExtend(t, before.departed, HubRun(h, es).departed, d, c, Place(HubRun(h, es), d));
      } else {
        assert Left(HubRun(h, es).departed, c, d) <==> Left(before.departed, c, d);
      }
    }
  }

  ghost predicate Listed(h: Hub, v: Window, d: DeviceId) {
    exists c :: Covers(v, c) && Left(h.departed, c, d) && !InView(v, h.departed[c][d])
  }

  lemma ListedIsRemoved(h: Hub, v: Window, d: DeviceId)
    requires Valid(h)
    ensures Listed(h, v, d) <==> d in RemovedFrom(v, DeltaOf(h).departures)
  {
    if Listed(h, v, d) {
      var c :| Covers(v, c) && Left(h.departed, c, d) && !InView(v, h.departed[c][d]);
      assert DeltaOf(h).departures[c] == h.departed[c];
    }
    if d in RemovedFrom(v, DeltaOf(h).departures) {
      var c :| c in DeltaOf(h).departures && Covers(v, c) && d in h.departed[c] && !InView(v, h.departed[c][d]);
      assert Left(h.departed, c, d);
    }
  }

  /** Every window hears about every device that it could see at some point since the
      drain and can see no longer. */
  lemma DisappearanceIsListed(h: Hub, es: seq<HubEvent>, d: DeviceId, v: Window, k: nat)
    requires Valid(h) && h.departed == map[]
    requires k < |Trail(h, es, d)| && InView(v, Trail(h, es, d)[k])
    requires !InView(v, Place(HubRun(h, es), d))
    ensures Valid(HubRun(h, es))
    ensures d in RemovedFrom(v, DeltaOf(HubRun(h, es)).departures)
  {
    var t, now := Trail(h, es, d), HubRun(h, es);
    var i := LastSeen(t, v, k);
    var c := t[i].value;
    assert LastVisit(t, c, i);
    RunKeepsValid(h, es);
    LastExit(h, es, d, c);
    assert Covers(v, c) && Left(now.departed, c, d) && !InView(v, now.departed[c][d]);
    ListedIsRemoved(now, v, d);
  }

  lemma {:induction false} LastSeen(t: seq<Option<Cell>>, v: Window, k: nat) returns (i: nat)
    requires k < |t| && InView(v, t[k]) && !InView(v, t[|t| - 1])
    ensures i + 1 < |t| && InView(v, t[i]) && forall j :: i < j < |t| ==> !InView(v, t[j])
    decreases |t| - k
  {
    if j :| k < j < |t| && InView(v, t[j]) {
      i := LastSeen(t, v, j);
    } else {
      i := k;
    }
  }

  // ---------------------------------------------------------------------------
  // A drain closes the gap between any earlier view and the live picture
  // ---------------------------------------------------------------------------

  /** Fold a frame into a view; an item wins over a removal of the same device. */
  function Receive(view: Chunk, f: Frame): Chunk {
    if f.full then f.items
    else (view - f.removed) + f.items
  }

  /** What a view must satisfy for the delta a drain would give now to complete it. */
  ghost predicate SyncedAt(h: Hub, v: Window, view: Chunk, d: DeviceId) {
    if InView(v, Place(h, d)) then Changed(h, d) || (d in view && view[d] == h.latest[d].item)
    else d !in view || Listed(h, v, d)
  }

  ghost predicate Synced(h: Hub, v: Window, view: Chunk) {
    forall d :: SyncedAt(h, v, view, d)
  }

  lemma DeltaCells(h: Hub, c: Cell, d: DeviceId)
    requires Valid(h)
    ensures Carries(DeltaOf(h).chunks, c, d) <==> Changed(h, d) && Place(h, d) == Some(c)
    ensures Changed(h, d) && Place(h, d) == Some(c) ==> DeltaOf(h).chunks[c][d] == h.latest[d].item
  {
    assert Holds(h.changed, c, d) ==> Place(h, d) == Some(c);
  }

  lemma DeltaOneCell(h: Hub)
    requires Valid(h)
    ensures OneCell(DeltaOf(h).chunks)
  {
    forall c, d | Carries(DeltaOf(h).chunks, c, d) ensures Place(h, d) == Some(c) {
      DeltaCells(h, c, d);
    }
  }

  lemma ChunksInOneCell(v: Window, chunks: map<Cell, Chunk>)
    requires OneCell(chunks)
    ensures OneCell(ChunksIn(v, chunks))
    ensures forall c, d :: Carries(ChunksIn(v, chunks), c, d) <==> Carries(chunks, c, d) && Covers(v, c)
  {
    forall c, d ensures Carries(ChunksIn(v, chunks), c, d) <==> Carries(chunks, c, d) && Covers(v, c) {
    }
  }

  lemma DrainItems(h: Hub, v: Window, d: DeviceId)
    requires Valid(h)
    ensures OneCell(DeltaOf(h).chunks)
    ensures var items := FrameFor(v, DeltaOf(h)).items;
            && (d in items <==> Changed(h, d) && InView(v, Place(h, d)))
            && (d in items ==> items[d] == h.latest[d].item)
  {
    DeltaOneCell(h);
    var chunks := DeltaOf(h).chunks;
    ChunksInOneCell(v, chunks);
    MergeAt(ChunksIn(v, chunks), d);
    forall c ensures Carries(ChunksIn(v, chunks), c, d) <==> Changed(h, d) && Place(h, d) == Some(c) && Covers(v, c) {
      DeltaCells(h, c, d);
    }
    if Changed(h, d) && InView(v, Place(h, d)) {
      DeltaCells(h, h.latest[d].cell, d);
      assert Carries(ChunksIn(v, chunks), h.latest[d].cell, d);
    }
  }

  lemma ReceivedAt(h: Hub, v: Window, view: Chunk, f: Frame, d: DeviceId)
    requires Valid(h) && SyncedAt(h, v, view, d) && !f.full
    requires d in f.items <==> Changed(h, d) && InView(v, Place(h, d))
    requires d in f.items ==> f.items[d] == h.latest[d].item
    requires d in f.removed <==> Listed(h, v, d)
    ensures SamePlace(Receive(view, f), Visible(h, v), d)
  {
    if d in f.removed && d in h.latest {
      var c :| Covers(v, c) && Left(h.departed, c, d) && !InView(v, h.departed[c][d]);
      assert Changed(h, d);
    }
  }

  lemma DrainCompletesAt(h: Hub, v: Window, view: Chunk, d: DeviceId)
    requires Valid(h) && SyncedAt(h, v, view, d)
    ensures OneCell(DeltaOf(h).chunks)
    ensures SamePlace(Receive(view, FrameFor(v, DeltaOf(h))), Visible(h, v), d)
  {
    DrainItems(h, v, d);
    ListedIsRemoved(h, v, d);
    ReceivedAt(h, v, view, FrameFor(v, DeltaOf(h)), d);
  }

  /** A synchronised view plus the pending delta is exactly what the hub shows. */
  lemma DrainCompletes(h: Hub, v: Window, view: Chunk)
    requires Valid(h) && Synced(h, v, view)
    ensures OneCell(DeltaOf(h).chunks)
    ensures Receive(view, FrameFor(v, DeltaOf(h))) == Visible(h, v)
  {
    DeltaOneCell(h);
    forall d ensures SamePlace(Receive(view, FrameFor(v, DeltaOf(h))), Visible(h, v), d) {
      assert SyncedAt(h, v, view, d);
      DrainCompletesAt(h, v, view, d);
    }
    SameChunks(Receive(view, FrameFor(v, DeltaOf(h))), Visible(h, v));
  }

  lemma LiveViewIsSynced(h: Hub, v: Window)
    ensures Synced(h, v, Visible(h, v))
  {
  }

  /** Whatever the hub does next, a synchronised view stays synchronised. */
  lemma StepKeepsSynced(h: Hub, e: HubEvent, v: Window, view: Chunk)
    requires Valid(h) && Synced(h, v, view)
    ensures Synced(HubStep(h, e), v, view)
  {
    match e {
      case Report(item) =>
        if Accepts(h, item) {
          ApplyMoves(h, item);
          MoveKeepsSynced(h, HubStep(h, e), v, view, item.device);
        }
      case Gone(d) =>
        if d in h.latest {
          ForgetMoves(h, d);
          MoveKeepsSynced(h, HubStep(h, e), v, view, d);
        }
    }
  }

  lemma MoveKeepsSynced(h: Hub, h': Hub, v: Window, view: Chunk, d: DeviceId)
    requires Valid(h) && Synced(h, v, view)
    requires Moved(h, h', d, Place(h', d))
    requires forall e :: e != d ==> (e in h'.latest <==> e in h.latest)
    requires forall e :: e != d && e in h.latest ==> h'.latest[e] == h.latest[e]
    ensures Synced(h', v, view)
  {
    forall e ensures SyncedAt(h', v, view, e) {
      assert SyncedAt(h, v, view, e);
      if InView(v, Place(h', e)) {
        if e == d { assert Holds(h'.changed, h'.latest[d].cell, d); }
      } else if e in view {
        var c: Cell;
        if e == d && InView(v, Place(h, d)) {
          c := h.latest[d].cell;
        } else {
          c :| Covers(v, c) && Left(h.departed, c, e) && !InView(v, h.departed[c][e]);
        }
        assert Left(h'.departed, c, e);
        assert Covers(v, c) && !InView(v, h'.departed[c][e]);
      }
    }
  }
}
