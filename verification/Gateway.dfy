/** The gateway's mutable objects, proved against their values: the hub, a connection, and
    the fan-out of one tick. */
module Gateway {
  import opened Options
  import opened Grid
  import HubState
  import TickFrames
  import ConnectionState
  import LiveView

  type DeviceId = HubState.DeviceId
  type Chunk = HubState.Chunk
  type Window = TickFrames.Window

  /** The side of a cell, in the same fixed-point degrees as positions. */
  type CellSize = n: int | n > 0 witness 1

  class PositionHub {
    const size: int
    const staleAfterMs: int
    var latest: map<DeviceId, HubState.Entry>
    var cells: map<Cell, set<DeviceId>>
    var changed: map<Cell, set<DeviceId>>
    var departed: map<Cell, HubState.Moves>
    var snapshots: map<Cell, Chunk>
    var updates: nat

    ghost function State(): HubState.Hub
      reads this
    {
      HubState.Hub(size, latest, cells, changed, departed, snapshots, updates)
    }

    ghost predicate Valid()
      reads this
    {
      HubState.Valid(State())
    }

    constructor (size: int, staleAfterS: int)
      requires size > 0
      ensures Valid() && State() == HubState.Empty(size) && this.staleAfterMs == staleAfterS * 1000
    {
      this.size, this.staleAfterMs := size, staleAfterS * 1000;
      latest, cells, changed, departed, snapshots, updates := map[], map[], map[], map[], map[], 0;
    }

    method Touch(cell: Cell, device: DeviceId)
      modifies this
      ensures State() == HubState.Touch(old(State()), cell, device)
    {
      changed := HubState.Added(changed, cell, device);
      // Back before the drain: whatever exit was noted here no longer counts.
      if cell in departed {
        departed := departed[cell := departed[cell] - {device}];
      }
      snapshots := snapshots - {cell};
    }

    method Leave(cell: Cell, device: DeviceId, movedTo: Option<Cell>)
      modifies this
      ensures State() == HubState.Leave(old(State()), cell, device, movedTo)
    {
      if cell in cells {
        cells := cells[cell := cells[cell] - {device}];
        if cells[cell] == {} {
          cells := cells - {cell};
        }
      }
      if cell in changed {
        changed := changed[cell := changed[cell] - {device}];
      }
      departed := HubState.Noted(departed, cell, device, movedTo);
      snapshots := snapshots - {cell};
    }

    /** Take the reports one after the other; the counter moves once, at the end. */
    method Apply(items: seq<HubState.Item>)
      requires Valid()
      modifies this
      ensures Valid() && State() == HubState.ApplyAll(old(State()), items)
    {
      HubState.ApplyAllKeepsValid(State(), items);
      ApplyEach(items);
    }

    method ApplyEach(items: seq<HubState.Item>)
      requires size > 0
      modifies this
      ensures State() == HubState.ApplyAll(old(State()), items)
    {
      ghost var h := State();
      var applied := 0;
      for i := 0 to |items|
        invariant updates == h.updates
        invariant Counted(applied) == HubState.ApplyAll(h, items[..i])
      {
        assert items[..i + 1][..i] == items[..i];
        var accepted := ApplyOne(items[i]);
        if accepted {
          applied := applied + 1;
        }
      }
      assert items[..|items|] == items;
      updates := updates + applied;
    }

    /** The hub as it will read once the accepted reports have been counted. */
    ghost function Counted(applied: nat): HubState.Hub
      reads this
    {
      State().(updates := updates + applied)
    }

    method ApplyOne(item: HubState.Item) returns (accepted: bool)
      requires size > 0
      modifies this
      ensures accepted == HubState.Accepts(old(State()), item) && updates == old(updates)
      ensures accepted ==> State() == HubState.ApplyItem(old(State()), item).(updates := updates)
      ensures !accepted ==> State() == old(State())
    {
      if item.device in latest && item.at <= latest[item.device].item.at {
        return false;
      }
      var cell := CellOf(item.lat, item.lon, size);
      if item.device in latest && latest[item.device].cell != cell {
        Leave(latest[item.device].cell, item.device, Some(cell));
      }
      latest := latest[item.device := HubState.Entry(item, cell)];
      cells := HubState.Added(cells, cell, item.device);
      Touch(cell, item.device);
      accepted := true;
    }

    method Drain() returns (delta: HubState.TickDelta)
      requires Valid()
      modifies this
      ensures Valid() && State() == HubState.Drained(old(State()))
      ensures delta == HubState.DeltaOf(old(State()))
    {
      LiveView.DrainedKeepsValid(State());
      assert forall c, d :: c in changed && d in changed[c] ==> HubState.Holds(changed, c, d);
      delta := HubState.TickDelta(
        map c | c in changed && changed[c] != {} :: HubState.ItemsOf(latest, changed[c]),
        map c | c in departed && departed[c] != map[] :: departed[c]);
      changed, departed := map[], map[];
    }

    method DiscardPending()
      requires Valid()
      modifies this
      ensures Valid() && State() == HubState.Drained(old(State()))
    {
      LiveView.DrainedKeepsValid(State());
      changed, departed := map[], map[];
    }

    /** Serialise the cells of a window; what is serialised here is kept for the next
        client that needs it. */
    method SnapshotChunks(rects: Window) returns (chunks: map<Cell, Chunk>)
      requires Valid()
      modifies this
      ensures Valid() && State() == TickFrames.Cached(old(State()), rects)
      ensures chunks == TickFrames.SnapshotChunks(old(State()), rects)
    {
      TickFrames.SnapshotCells(State(), rects);
      TickFrames.CachedKeepsValid(State(), rects);
      ghost var h := State();
      chunks := VisibleCells(h, latest, cells, snapshots, rects);
      assert chunks == TickFrames.SnapshotChunks(h, rects);
      snapshots := snapshots + chunks;
    }

    /** Walk the index; serialise what is visible and not cached yet. */
    static method VisibleCells(ghost h: HubState.Hub, latest: map<DeviceId, HubState.Entry>,
                               cells: map<Cell, set<DeviceId>>, snapshots: map<Cell, Chunk>, rects: Window)
      returns (chunks: map<Cell, Chunk>)
      requires h.latest == latest && h.cells == cells && h.snapshots == snapshots
      requires forall c :: c in cells ==> cells[c] <= latest.Keys
      ensures forall c :: c in chunks <==> c in cells && Covers(rects, c)
      ensures forall c :: c in chunks ==> chunks[c] == TickFrames.ChunkOf(h, c)
    {
      chunks := map[];
      var left := cells.Keys;
      while left != {}
        invariant left <= cells.Keys
        invariant forall c :: c in chunks <==> c in cells && c !in left && Covers(rects, c)
        invariant forall c :: c in chunks ==> chunks[c] == TickFrames.ChunkOf(h, c)
        decreases left
      {
        var cell :| cell in left;
        left := left - {cell};
        if Covers(rects, cell) {
          var chunk := if cell in snapshots then snapshots[cell] else HubState.ItemsOf(latest, cells[cell]);
          assert chunk == TickFrames.ChunkOf(h, cell);
          chunks := chunks[cell := chunk];
        }
      }
    }

    /** Forget the devices that stopped reporting, in whatever order the map lists them. */
    method Sweep(now: int) returns (stale: seq<DeviceId>)
      requires Valid()
      modifies this
      ensures Valid() && State() == HubState.ForgetAll(old(State()), stale)
      ensures forall d :: d in latest <==> d in old(latest) && old(latest)[d].item.at >= now - staleAfterMs
      ensures forall d :: d in latest ==> latest[d] == old(latest)[d]
    {
      var cutoff := now - staleAfterMs;
      stale := [];
      var left := set d | d in latest && latest[d].item.at < cutoff;
      while left != {}
        invariant Valid() && State() == HubState.ForgetAll(old(State()), stale)
        invariant left == set d | d in latest && latest[d].item.at < cutoff
        invariant forall d :: d in latest ==> d in old(latest) && latest[d] == old(latest)[d]
        invariant forall d :: d in old(latest) && old(latest)[d].item.at >= cutoff ==> d in latest
        decreases left
      {
        var device :| device in left;
        HubState.ForgetKeepsValid(State(), device);
        HubState.ForgetMoves(State(), device);
        assert (stale + [device])[..|stale|] == stale;
        stale := stale + [device];
        var cell := latest[device].cell;
        latest := latest - {device};
        Leave(cell, device, None);
        left := left - {device};
      }
      forall d | d in latest ensures latest[d].item.at >= cutoff {
        assert d !in left;
      }
    }
  }

  class ClientConnection {
    const size: CellSize
    const controlMax: nat
    var viewport: Option<Window>
    var pendingDelta: Option<HubState.Frame>
    var needsSnapshot: bool
    var closing: bool
    var control: seq<string>

    ghost function State(): ConnectionState.Conn
      reads this
    {
      ConnectionState.Conn(viewport, pendingDelta, needsSnapshot, closing, control, controlMax)
    }

    constructor (size: CellSize, controlMax: nat)
      ensures State() == ConnectionState.Fresh(controlMax) && this.size == size
    {
      this.size, this.controlMax := size, controlMax;
      viewport, pendingDelta, needsSnapshot, closing, control := None, None, false, false, [];
    }

    predicate WantsPositions()
      reads this
    {
      viewport.Some? && !closing
    }

    method SetViewport(box: BBox)
      modifies this
      ensures State() == ConnectionState.SetViewport(old(State()), RectsFor(box, size))
    {
      viewport := Some(RectsFor(box, size));
      // The pending frame answers a question the client no longer asks.
      pendingDelta, needsSnapshot := None, true;
    }

    /** Never waits: builds the frame, or falls back to owing a snapshot. */
    method OfferPositions(delta: HubState.TickDelta)
      requires TickFrames.OneCell(delta.chunks)
      modifies this
      ensures State() == ConnectionState.Offer(old(State()), delta)
    {
      if closing || viewport.None? || needsSnapshot {
        return;
      }
      var v := viewport.value;
      var found := VisibleChunks(v, delta.chunks);
      var chunks := map c | c in found :: delta.chunks[c];
      assert chunks == TickFrames.ChunksIn(v, delta.chunks);
      TickFrames.ChunksInOneCell(v, delta.chunks);
      var removed := TickFrames.RemovedFrom(v, delta.departures);
      if chunks == map[] && removed == {} {
        return;
      }
      if pendingDelta.None? {
        pendingDelta := Some(HubState.Frame(false, TickFrames.Merge(chunks), removed));
      } else {
        pendingDelta, needsSnapshot := None, true;
      }
    }

    method SendControl(frame: string)
      modifies this
      ensures State() == ConnectionState.SendControl(old(State()), frame)
    {
      if closing {
        return;
      }
      if |control| >= controlMax {
        RequestClose();
        return;
      }
      control := control + [frame];
    }

    method RequestClose()
      modifies this
      ensures State() == ConnectionState.Close(old(State()))
    {
      if closing {
        return;
      }
      closing, control, pendingDelta, needsSnapshot := true, [], None, false;
    }

    /** What the sender writes next: control frames, then a snapshot debt, then the delta. */
    method NextFrame() returns (out: ConnectionState.Out)
      modifies this
      ensures out == ConnectionState.NextOut(old(State()))
      ensures State() == ConnectionState.AfterOut(old(State()))
    {
      if control != [] {
        out, control := ConnectionState.Control(control[0]), control[1..];
      } else if needsSnapshot && viewport.Some? {
        needsSnapshot := false;
        out := ConnectionState.Snapshot(viewport.value);
      } else if pendingDelta.Some? {
        out, pendingDelta := ConnectionState.Delta(pendingDelta.value), None;
      } else {
        out := ConnectionState.Nothing;
      }
    }
  }

  /** One tick for all clients that have a viewport. A tick nobody watches is discarded;
      either way each connection ends where the step system puts it. */
  method FanOut(hub: PositionHub, connections: seq<ClientConnection>)
    requires hub.Valid()
    requires forall i, j :: 0 <= i < j < |connections| ==> connections[i] != connections[j]
    modifies hub, connections
    ensures hub.Valid() && hub.State() == HubState.Drained(old(hub.State()))
    ensures TickFrames.OneCell(HubState.DeltaOf(old(hub.State())).chunks)
    ensures forall i :: 0 <= i < |connections| ==>
              connections[i].State() ==
                ConnectionState.Offer(old(connections[i].State()), HubState.DeltaOf(old(hub.State())))
  {
    TickFrames.DeltaOneCell(hub.State());
    if forall i :: 0 <= i < |connections| ==> !connections[i].WantsPositions() {
      hub.DiscardPending();
      return;
    }
    var delta := hub.Drain();
    if delta.chunks == map[] && delta.departures == map[] {
      return;
    }
    OfferAll(delta, connections);
  }

  method OfferAll(delta: HubState.TickDelta, connections: seq<ClientConnection>)
    requires TickFrames.OneCell(delta.chunks)
    requires forall i, j :: 0 <= i < j < |connections| ==> connections[i] != connections[j]
    modifies connections
    ensures forall i :: 0 <= i < |connections| ==>
              connections[i].State() == ConnectionState.Offer(old(connections[i].State()), delta)
  {
    for k := 0 to |connections|
      invariant forall i :: 0 <= i < k ==>
                  connections[i].State() == ConnectionState.Offer(old(connections[i].State()), delta)
      invariant forall i :: k <= i < |connections| ==> connections[i].State() == old(connections[i].State())
    {
      if connections[k].WantsPositions() {
        connections[k].OfferPositions(delta);
      }
    }
  }
}
