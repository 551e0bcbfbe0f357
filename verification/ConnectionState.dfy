/** A client connection as a value: what waits to be written to it. */
module ConnectionState {
  import opened Options
  import opened Grid
  import opened HubState
  import opened TickFrames

  datatype Conn = Conn(
    viewport: Option<Window>,
    pending: Option<Frame>,
    needsSnapshot: bool,
    closing: bool,
    control: seq<string>,
    controlMax: nat)

  function Fresh(controlMax: nat): Conn {
    Conn(None, None, false, false, [], controlMax)
  }

  predicate Watching(c: Conn) {
    c.viewport.Some? && !c.closing
  }

  function SetViewport(c: Conn, v: Window): Conn {
    c.(viewport := Some(v), pending := None, needsSnapshot := true)
  }

  /** Leave one tick behind for the sender; a second one turns into "owes a snapshot". */
  function Offer(c: Conn, delta: TickDelta): Conn
    requires OneCell(delta.chunks)
  {
    if !Watching(c) || c.needsSnapshot then c
    else if ChunksIn(c.viewport.value, delta.chunks) == map[]
         && RemovedFrom(c.viewport.value, delta.departures) == {} then c
    else if c.pending.None? then c.(pending := Some(FrameFor(c.viewport.value, delta)))
    else c.(pending := None, needsSnapshot := true)
  }

  function Close(c: Conn): Conn {
    if c.closing then c
    else c.(closing := true, control := [], pending := None, needsSnapshot := false)
  }

  function SendControl(c: Conn, frame: string): Conn {
    if c.closing then c
    else if |c.control| >= c.controlMax then Close(c)
    else c.(control := c.control + [frame])
  }

  /** What the sender writes next. */
  datatype Out = Nothing | Control(text: string) | Snapshot(window: Window) | Delta(frame: Frame)

  function NextOut(c: Conn): Out {
    if c.control != [] then Control(c.control[0])
    else if c.needsSnapshot && c.viewport.Some? then Snapshot(c.viewport.value)
    else if c.pending.Some? then Delta(c.pending.value)
    else Nothing
  }

  function AfterOut(c: Conn): Conn {
    match NextOut(c)
    case Nothing => c
    case Control(_) => c.(control := c.control[1..])
    case Snapshot(_) => c.(needsSnapshot := false)
    case Delta(_) => c.(pending := None)
  }

  /** A pending delta and a snapshot debt exclude each other. */
  predicate Coherent(c: Conn) {
    && (c.pending.Some? ==> Watching(c) && !c.needsSnapshot && !c.pending.value.full)
    && (c.needsSnapshot ==> c.viewport.Some?)
    && |c.control| <= c.controlMax
  }
}
