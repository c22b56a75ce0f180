/** One server's lifecycle as a transition system: crates/remo-ext-mcp/src/manager.rs.

    Every event is one section the source runs without awaiting in between. The task that
    holds the server's lifecycle lock carries a program counter; operations that hold a
    runtime lease, and the closes that `close_all` still owes, run beside it without the
    lock. Connecting, listing and closing are answered by the environment through the event. */
module McpLifecycle {
  import opened Wrappers
  import opened McpSlot
  import opened McpCatalog

  /** Where the task that holds the lifecycle lock stands. */
  datatype Pc =
    | ToReconnect
    | ToEnable
    | ToDisable
    | DisableClosing(prior: Option<Runtime>)
    | DisableFinishing
    | ClosingOld(generation: nat, attempt: nat, detached: Runtime)
    | CloseFailed
    | Sleeping(generation: nat, attempt: nat)
    | ReadingCapabilities(generation: nat, attempt: nat, transport: nat)
    | Discovering(attempt: nat, opening: Runtime)
    | ClosingFresh(attempt: nat, opening: Runtime)
    | FinishingError(attempt: nat)
    | Installing(opening: Runtime, catalog: Catalog)
    | RefreshStart
    | RefreshLeasing
    | RefreshListing(lease: Runtime)
    | RefreshApplying(lease: Runtime, catalog: Catalog)
    | RefreshFailing(lease: Runtime)
    | RefreshChecking
    | FailureMarking(kind: OpKind, lease: Runtime)
    | FailureChecking(kind: OpKind)
    | Finished

  /** Program counters of a reconnect cycle that has begun and not yet finished. */
  predicate InReconnect(pc: Pc) {
    pc.ClosingOld? || pc.CloseFailed? || pc.Sleeping? || pc.ReadingCapabilities? || pc.Discovering?
    || pc.ClosingFresh? || pc.FinishingError? || pc.Installing?
  }

  predicate CountsAttempt(pc: Pc) {
    InReconnect(pc) && !pc.CloseFailed? && !pc.Installing?
  }

  predicate InDisable(pc: Pc) {
    pc.DisableClosing? || pc.DisableFinishing?
  }

  predicate InRefresh(pc: Pc) {
    pc.RefreshStart? || pc.RefreshLeasing? || pc.RefreshListing? || pc.RefreshApplying?
    || pc.RefreshFailing? || pc.RefreshChecking?
  }

  /** An operation on a leased runtime; a failed one waits for the lifecycle lock. */
  datatype Op = Op(kind: OpKind, lease: Runtime, failed: bool)

  datatype Outcome = Proceed | Fail | Capabilities(caps: Option<nat>) | Tools(defs: seq<string>)

  datatype Event =
    | AcquireReconnect
    | AcquireEnable
    | AcquireDisable
    | TryRefresh
    | AcquireFailure(id: nat)
    | Hold(outcome: Outcome)
    | Release
    | StartOp(id: nat, kind: OpKind)
    | SetCapabilities(id: nat, caps: Option<nat>)
    | OpSucceeded(id: nat)
    | OpFailed(id: nat, tracked: bool)
    | CloseAll
    | CloseDetached(transport: nat)

  datatype HealthEvent = Success(kind: OpKind) | Failure(kind: OpKind) | Reset

  /** The slot, the lock holder, the lock-free operations, the runtimes `close_all` took but
      has not closed; and history: transports handed to close, how many were opened, the
      runtimes installed so far, and the recorded operation results. */
  datatype Server = Server(
    name: string,
    slot: Slot,
    holder: Option<Pc>,
    ops: map<nat, Op>,
    detached: multiset<nat>,
    closed: multiset<nat>,
    openCount: nat,
    installed: seq<Runtime>,
    log: seq<HealthEvent>)

  function Init(name: string, caps: Option<nat>, catalog: Catalog): Server {
    var slot := ConnectedSlot(0, caps, catalog);
    Server(name, slot, None, map[], multiset{}, multiset{}, 1, [slot.runtime.value], [])
  }

  function At(s: Server, pc: Pc): Server {
    s.(holder := Some(pc))
  }

  function WithClosed(s: Server, transport: nat): Server {
    s.(closed := s.closed + multiset{transport})
  }

  function Marked(s: Server, generation: nat, kind: OpKind, succeeded: bool): Server {
    var (slot, applied) := s.slot.MarkResult(generation, kind, succeeded);
    if !applied then s
    else s.(slot := slot, log := s.log + [if succeeded then Success(kind) else Failure(kind)])
  }

  /** `reconnect_server_locked`. */
  function ReconnectStep(s: Server, pc: Pc, o: Outcome): Option<Server> {
    match pc
    case ToReconnect =>
      if o != Proceed then None else
      var (slot, r) := s.slot.BeginReconnect();
      var next := match r
        case Err(_) => Finished
        case Ok(t) =>
          if t.detached.Some? then ClosingOld(t.generation, t.attempt, t.detached.value)
          else Sleeping(t.generation, t.attempt);
      Some(At(s.(slot := slot), next))
    case ClosingOld(generation, attempt, detached) =>
      if o != Proceed && o != Fail then None else
      Some(At(WithClosed(s, detached.transport),
              if o == Fail then CloseFailed else Sleeping(generation, attempt)))
    case CloseFailed =>
      if o != Proceed then None else
      Some(At(s.(slot := s.slot.ReconnectCloseFailure()), Finished))
    case Sleeping(generation, attempt) =>
      if o == Fail then Some(At(s, FinishingError(attempt)))
      else if o == Proceed then
        Some(At(s.(openCount := s.openCount + 1), ReadingCapabilities(generation, attempt, s.openCount)))
      else None
    case ReadingCapabilities(generation, attempt, transport) =>
      if o == Fail then Some(At(WithClosed(s, transport), FinishingError(attempt)))
      else if o.Capabilities? then
        Some(At(s, Discovering(attempt, Runtime(generation, transport, o.caps))))
      else None
    case Discovering(attempt, opening) =>
      if o == Fail then Some(At(s, ClosingFresh(attempt, opening)))
      else if o.Tools? then
        Some(At(s, match Published(s.name, o.defs)
                   case Err(_) => ClosingFresh(attempt, opening)
                   case Ok(c) => Installing(opening, c)))
      else None
    case ClosingFresh(attempt, opening) =>
      if o != Proceed && o != Fail then None else
      Some(At(WithClosed(s, opening.transport), FinishingError(attempt)))
    case FinishingError(_) =>
      if o != Proceed then None else
      Some(At(s.(slot := s.slot.ReconnectFailure()), Finished))
    case Installing(opening, catalog) =>
      if o != Proceed then None else
      Some(At(s.(slot := s.slot.FinishReconnect(opening, catalog),
                 installed := s.installed + [opening], log := s.log + [Reset]), Finished))
    case _ => None
  }

  /** `toggle`, up to the reconnect that ends enabling. */
  function ToggleStep(s: Server, pc: Pc, o: Outcome): Option<Server> {
    match pc
    case ToEnable =>
      if o != Proceed then None else
      Some(At(s.(slot := s.slot.PrepareEnable(), log := s.log + [Reset]), ToReconnect))
    case ToDisable =>
      if o != Proceed then None else
      var (slot, prior) := s.slot.BeginDisable();
      Some(At(s.(slot := slot), DisableClosing(prior)))
    case DisableClosing(prior) =>
      if o != Proceed && o != Fail then None else
      Some(At(if prior.Some? then WithClosed(s, prior.value.transport) else s, DisableFinishing))
    case DisableFinishing =>
      if o != Proceed then None else
      Some(At(s.(slot := s.slot.FinishDisable(), log := s.log + [Reset]), Finished))
    case _ => None
  }

  /** `refresh_server`, up to a reconnect. */
  function RefreshStep(s: Server, pc: Pc, o: Outcome): Option<Server> {
    match pc
    case RefreshStart =>
      if o != Proceed then None else
      Some(At(s, match s.slot.lifecycle
                 case Connected => RefreshLeasing
                 case Disconnected => ToReconnect
                 case _ => Finished))
    case RefreshLeasing =>
      if o != Proceed then None else
      Some(At(s, match s.slot.Lease() case Err(_) => Finished case Ok(r) => RefreshListing(r)))
    case RefreshListing(lease) =>
      if o == Fail then Some(At(s, RefreshFailing(lease)))
      else if o.Tools? then
        Some(At(s, match Published(s.name, o.defs)
                   case Err(_) => RefreshFailing(lease)
                   case Ok(c) => RefreshApplying(lease, c)))
      else None
    case RefreshApplying(lease, catalog) =>
      if o != Proceed then None else
      var (slot, applied) := s.slot.ApplyCatalog(lease.generation, catalog);
      Some(At(s.(slot := slot, log := if applied then s.log + [Success(Discovery)] else s.log), Finished))
    case RefreshFailing(lease) =>
      if o != Proceed then None else
      Some(At(Marked(s, lease.generation, Discovery, false), RefreshChecking))
    case RefreshChecking =>
      if o != Proceed then None else
      Some(At(s, if s.slot.Failures(Discovery) >= FAILURE_THRESHOLD then ToReconnect else Finished))
    case _ => None
  }

  /** `record_runtime_operation_failure`, up to a reconnect. */
  function FailureStep(s: Server, pc: Pc, o: Outcome): Option<Server> {
    match pc
    case FailureMarking(kind, lease) =>
      if o != Proceed then None else
      Some(At(Marked(s, lease.generation, kind, false),
              if s.slot.MarkResult(lease.generation, kind, false).1 then FailureChecking(kind) else Finished))
    case FailureChecking(kind) =>
      if o != Proceed then None else
      Some(At(s, if s.slot.Failures(kind) >= FAILURE_THRESHOLD then ToReconnect else Finished))
    case _ => None
  }

  /** The next section of the lock holder; `None` when the outcome does not fit it. */
  function HolderStep(s: Server, pc: Pc, o: Outcome): Option<Server> {
    if pc == ToReconnect || InReconnect(pc) then ReconnectStep(s, pc, o)
    else if pc == ToEnable || pc == ToDisable || InDisable(pc) then ToggleStep(s, pc, o)
    else if InRefresh(pc) then RefreshStep(s, pc, o)
    else FailureStep(s, pc, o)
  }

  function Acquire(s: Server, pc: Pc): Option<Server> {
    if s.holder.Some? then None else Some(At(s, pc))
  }

  function Step(s: Server, e: Event): Option<Server> {
    match e
    case AcquireReconnect => Acquire(s, ToReconnect)
    case AcquireEnable => Acquire(s, ToEnable)
    case AcquireDisable => Acquire(s, ToDisable)
    case TryRefresh => Acquire(s, RefreshStart)
    case AcquireFailure(id) =>
      if id in s.ops && s.ops[id].failed then
        Acquire(s.(ops := s.ops - {id}), FailureMarking(s.ops[id].kind, s.ops[id].lease))
      else None
    case Hold(o) => if s.holder.None? then None else HolderStep(s, s.holder.value, o)
    case Release => if s.holder == Some(Finished) then Some(s.(holder := None)) else None
    case StartOp(id, kind) =>
      if id in s.ops || s.slot.Lease().Err? then None
      else Some(s.(ops := s.ops[id := Op(kind, s.slot.Lease().value, false)]))
    case SetCapabilities(id, caps) =>
      if id in s.ops && !s.ops[id].failed then
        Some(s.(slot := s.slot.UpdateCapabilities(s.ops[id].lease.generation, caps)))
      else None
    case OpSucceeded(id) =>
      if id in s.ops && !s.ops[id].failed then
        Some(Marked(s.(ops := s.ops - {id}), s.ops[id].lease.generation, s.ops[id].kind, true))
      else None
    case OpFailed(id, tracked) =>
      if id in s.ops && !s.ops[id].failed then
        Some(s.(ops := if tracked then s.ops[id := s.ops[id].(failed := true)] else s.ops - {id}))
      else None
    case CloseAll =>
      var (slot, prior) := s.slot.CloseAll();
      Some(s.(slot := slot,
              detached := if prior.Some? then s.detached + multiset{prior.value.transport} else s.detached))
    case CloseDetached(t) =>
      if t in s.detached then Some(WithClosed(s.(detached := s.detached - multiset{t}), t)) else None
  }

  /** The state after a whole history; `None` when some event was not enabled. */
  function Run(s: Server, es: seq<Event>): Option<Server> {
    if es == [] then Some(s)
    else
      match Run(s, es[..|es| - 1])
      case None => None
      case Some(t) => Step(t, es[|es| - 1])
  }
}
