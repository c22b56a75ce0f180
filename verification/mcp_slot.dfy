/** One server slot of the MCP registry and its atomic transitions, each a section that the
    source runs under the slots' write lock: crates/remo-ext-mcp/src/manager.rs.
    Timestamps, error texts and the diagnostic session fields are not part of this model. */
module McpSlot {
  import opened Saturating
  import opened Wrappers

  const FAILURE_THRESHOLD: nat := 3
  const MAX_RECONNECT_ATTEMPTS: nat := 5
  const MAX_BACKOFF_SHIFT: nat := 4

  function Max(a: nat, b: nat): nat {
    if a < b then b else a
  }

  function Pow2(n: nat): nat {
    if n == 0 then 1 else 2 * Pow2(n - 1)
  }

  function ReconnectBackoff(attempt: nat): nat {
    Pow2(if attempt < MAX_BACKOFF_SHIFT then attempt else MAX_BACKOFF_SHIFT)
  }

  datatype OpKind = Discovery | Rpc

  datatype Lifecycle =
    | Connecting | Disabled | Connected | Reconnecting | Disabling | Disconnected | PermanentlyFailed

  /** A transport is known by the order in which it was opened. */
  datatype Runtime = Runtime(generation: nat, transport: nat, capabilities: Option<nat>)

  datatype Tool = Tool(server: string, name: string)

  type Catalog = map<string, Tool>

  datatype Snapshot = Snapshot(generation: nat, catalog: Catalog)

  datatype SlotError = ServerDisabled | ServerPermanentlyFailed | ConnectionClosed

  /** What `begin_reconnect_transition` hands to the reconnecting task. */
  datatype Ticket = Ticket(generation: nat, attempt: nat, detached: Option<Runtime>)

  /** The value of a slot. */
  datatype Slot = Slot(
    lifecycle: Lifecycle,
    runtime: Option<Runtime>,
    reconnecting: bool,
    permanentlyFailed: bool,
    consecutiveFailures: nat,
    discoveryFailures: nat,
    rpcFailures: nat,
    reconnectAttempts: nat,
    nextGeneration: nat,
    published: Option<Snapshot>)
  {
    /** Which fields go with which lifecycle, whatever task is under way. */
    predicate Shaped() {
      && (lifecycle == Lifecycle.Connected ==> runtime.Some?)
      && (runtime.Some? ==> lifecycle == Lifecycle.Connected || lifecycle == Disconnected)
      && (runtime.Some? && published.Some? ==> runtime.value.generation == published.value.generation)
      && (runtime.Some? ==> reconnectAttempts == 0)
      && reconnectAttempts <= MAX_RECONNECT_ATTEMPTS
      && (reconnectAttempts == MAX_RECONNECT_ATTEMPTS ==>
            lifecycle == PermanentlyFailed || lifecycle == Disabling || lifecycle == Disabled)
      && (lifecycle == PermanentlyFailed ==> reconnectAttempts == MAX_RECONNECT_ATTEMPTS && permanentlyFailed)
      && (lifecycle == PermanentlyFailed || lifecycle == Disabled ==> runtime.None? && published.None?)
      && (permanentlyFailed ==> lifecycle == PermanentlyFailed || lifecycle == Disabling || lifecycle == Disabled)
    }

    predicate Valid() {
      Shaped() && consecutiveFailures == Max(discoveryFailures, rpcFailures) && nextGeneration <= U64_MAX
    }

    predicate BelowThreshold() {
      discoveryFailures < FAILURE_THRESHOLD && rpcFailures < FAILURE_THRESHOLD
    }

    /** A reconnect cycle has taken the runtime and not yet installed another. */
    predicate Reopening() {
      runtime.None? && reconnectAttempts < MAX_RECONNECT_ATTEMPTS && !permanentlyFailed
    }

    function Failures(kind: OpKind): nat {
      match kind
      case Discovery => discoveryFailures
      case Rpc => rpcFailures
    }

    function WithFailures(kind: OpKind, n: nat): Slot {
      var s := match kind
        case Discovery => this.(discoveryFailures := n)
        case Rpc => this.(rpcFailures := n);
      s.(consecutiveFailures := Max(s.discoveryFailures, s.rpcFailures))
    }

    function ClearBudgets(): Slot {
      this.(discoveryFailures := 0, rpcFailures := 0, consecutiveFailures := 0)
    }

    function MarkSuccess(kind: OpKind): Slot {
      var s := WithFailures(kind, 0).(reconnecting := false, permanentlyFailed := false);
      if kind == Discovery then s.(reconnectAttempts := 0, lifecycle := Connected) else s
    }

    function MarkFailure(kind: OpKind): Slot {
      WithFailures(kind, SaturatingInc(Failures(kind), U64_MAX))
        .(reconnecting := false, permanentlyFailed := lifecycle == PermanentlyFailed)
    }

    function PermanentFailure(): Slot {
      this.(lifecycle := PermanentlyFailed, runtime := None, published := None,
            permanentlyFailed := true, reconnecting := false)
    }

    function ReconnectFailure(): Slot {
      var s := this.(reconnectAttempts := SaturatingInc(reconnectAttempts, U32_MAX), reconnecting := false);
      if s.reconnectAttempts >= MAX_RECONNECT_ATTEMPTS then s.PermanentFailure()
      else s.(lifecycle := Disconnected)
    }

    function ReconnectCloseFailure(): Slot {
      this.(reconnecting := false, lifecycle := Disconnected)
    }

    function BeginReconnect(): (Slot, Result<Ticket, SlotError>) {
      if lifecycle == Disabled then (this, Err(ServerDisabled))
      else if reconnectAttempts >= MAX_RECONNECT_ATTEMPTS then
        (PermanentFailure(), Err(SlotError.ServerPermanentlyFailed))
      else
        (this.(runtime := None,
               lifecycle := if runtime.Some? then Reconnecting else Connecting,
               reconnecting := true,
               permanentlyFailed := false,
               nextGeneration := SaturatingInc(nextGeneration, U64_MAX)),
         Ok(Ticket(nextGeneration, reconnectAttempts, runtime)))
    }

    function FinishReconnect(newRuntime: Runtime, catalog: Catalog): Slot {
      ClearBudgets().(runtime := Some(newRuntime),
                      published := Some(Snapshot(newRuntime.generation, catalog)),
                      reconnecting := false, permanentlyFailed := false,
                      reconnectAttempts := 0, lifecycle := Connected)
    }

    function BeginDisable(): (Slot, Option<Runtime>) {
      if lifecycle == Disabled then (this.(reconnecting := false), None)
      else (this.(lifecycle := Disabling, reconnecting := false, runtime := None), runtime)
    }

    function FinishDisable(): Slot {
      ClearBudgets().(lifecycle := Disabled, runtime := None, published := None,
                      reconnecting := false, permanentlyFailed := false)
    }

    function PrepareEnable(): Slot {
      ClearBudgets().(lifecycle := Disconnected, reconnectAttempts := 0,
                      reconnecting := false, permanentlyFailed := false)
    }

    function CloseAll(): (Slot, Option<Runtime>) {
      (this.(lifecycle := Disabled, published := None, runtime := None), runtime)
    }

    predicate RunsGeneration(generation: nat) {
      runtime.Some? && runtime.value.generation == generation
    }

    function ApplyCatalog(generation: nat, catalog: Catalog): (Slot, bool) {
      if !RunsGeneration(generation) then (this, false)
      else (this.(published := Some(Snapshot(generation, catalog))).MarkSuccess(Discovery), true)
    }

    function MarkResult(generation: nat, kind: OpKind, succeeded: bool): (Slot, bool) {
      if !RunsGeneration(generation) || lifecycle != Connected then (this, false)
      else (if succeeded then MarkSuccess(kind) else MarkFailure(kind), true)
    }

    function UpdateCapabilities(generation: nat, caps: Option<nat>): Slot {
      if !RunsGeneration(generation) then this
      else this.(runtime := Some(runtime.value.(capabilities := caps)))
    }

    function Lease(): Result<Runtime, SlotError> {
      if lifecycle == Disabled then Err(ServerDisabled)
      else if lifecycle == PermanentlyFailed then Err(SlotError.ServerPermanentlyFailed)
      else if runtime.None? then Err(ConnectionClosed)
      else Ok(runtime.value)
    }
  }

  /** The slot record as the source updates it, field by field. */
  class McpServerSlot {
    var lifecycle: Lifecycle
    var runtime: Option<Runtime>
    var reconnecting: bool
    var permanentlyFailed: bool
    var consecutiveFailures: nat
    var discoveryFailures: nat
    var rpcFailures: nat
    var reconnectAttempts: nat
    var nextGeneration: nat
    var published: Option<Snapshot>

    function State(): Slot
      reads this
    {
      Slot(lifecycle, runtime, reconnecting, permanentlyFailed, consecutiveFailures,
           discoveryFailures, rpcFailures, reconnectAttempts, nextGeneration, published)
    }

    constructor Connected(transport: nat, capabilities: Option<nat>, catalog: Catalog)
      ensures State() == ConnectedSlot(transport, capabilities, catalog)
      ensures State().Valid()
    {
      lifecycle := Lifecycle.Connected;
      runtime := Some(Runtime(1, transport, capabilities));
      reconnecting, permanentlyFailed := false, false;
      consecutiveFailures, discoveryFailures, rpcFailures := 0, 0, 0;
      reconnectAttempts, nextGeneration := 0, 2;
      published := Some(Snapshot(1, catalog));
    }

    method SyncServerHealth()
      modifies this`consecutiveFailures
      ensures consecutiveFailures == Max(discoveryFailures, rpcFailures)
    {
      consecutiveFailures := Max(discoveryFailures, rpcFailures);
    }

    method MarkServerSuccess(kind: OpKind)
      modifies this
      ensures State() == old(State()).MarkSuccess(kind)
      ensures old(State()).Valid() && old(runtime).Some? ==> State().Valid()
    {
      match kind {
        case Discovery => discoveryFailures := 0;
        case Rpc => rpcFailures := 0;
      }
      reconnecting := false;
      permanentlyFailed := false;
      if kind == Discovery {
        reconnectAttempts := 0;
        lifecycle := Lifecycle.Connected;
      }
      SyncServerHealth();
    }

    method MarkServerFailure(kind: OpKind)
      modifies this
      ensures State() == old(State()).MarkFailure(kind)
      ensures old(State()).Valid() ==> State().Valid()
    {
      match kind {
        case Discovery => discoveryFailures := SaturatingInc(discoveryFailures, U64_MAX);
        case Rpc => rpcFailures := SaturatingInc(rpcFailures, U64_MAX);
      }
      reconnecting := false;
      permanentlyFailed := lifecycle == PermanentlyFailed;
      SyncServerHealth();
    }

    method ClearHealthBudgets()
      modifies this
      ensures State() == old(State()).ClearBudgets()
      ensures old(State()).Valid() ==> State().Valid()
    {
      discoveryFailures := 0;
      rpcFailures := 0;
      SyncServerHealth();
    }

    method MarkServerPermanentFailure()
      modifies this
      ensures State() == old(State()).PermanentFailure()
      ensures old(State()).Valid() && reconnectAttempts == MAX_RECONNECT_ATTEMPTS ==> State().Valid()
    {
      lifecycle := PermanentlyFailed;
      runtime := None;
      published := None;
      permanentlyFailed := true;
      reconnecting := false;
    }

    method FinishReconnectFailure()
      modifies this
      ensures State() == old(State()).ReconnectFailure()
      ensures old(State()).Valid() && old(State()).Reopening() ==> State().Valid()
    {
      reconnectAttempts := SaturatingInc(reconnectAttempts, U32_MAX);
      reconnecting := false;
      if reconnectAttempts >= MAX_RECONNECT_ATTEMPTS {
        MarkServerPermanentFailure();
      } else {
        lifecycle := Disconnected;
      }
    }

    method FinishReconnectCloseFailure()
      modifies this
      ensures State() == old(State()).ReconnectCloseFailure()
      ensures old(State()).Valid() && old(State()).Reopening() ==> State().Valid()
    {
      reconnecting := false;
      lifecycle := Disconnected;
    }

    method ReserveGeneration() returns (generation: nat)
      modifies this`nextGeneration
      ensures generation == old(nextGeneration)
      ensures nextGeneration == SaturatingInc(old(nextGeneration), U64_MAX)
    {
      generation := nextGeneration;
      nextGeneration := SaturatingInc(nextGeneration, U64_MAX);
    }

    method BeginReconnectTransition() returns (r: Result<Ticket, SlotError>)
      modifies this
      ensures (State(), r) == old(State()).BeginReconnect()
      ensures old(State()).Valid() ==> State().Valid()
      ensures old(State()).Valid() && r.Ok? ==> State().Reopening()
    {
      if lifecycle == Disabled { return Err(ServerDisabled); }
      if reconnectAttempts >= MAX_RECONNECT_ATTEMPTS {
        MarkServerPermanentFailure();
        return Err(SlotError.ServerPermanentlyFailed);
      }
      var detached := runtime;
      runtime := None;
      lifecycle := if detached.Some? then Reconnecting else Connecting;
      reconnecting := true;
      permanentlyFailed := false;
      var generation := ReserveGeneration();
      r := Ok(Ticket(generation, reconnectAttempts, detached));
    }

    method FinishReconnectSuccess(newRuntime: Runtime, catalog: Catalog)
      modifies this
      ensures State() == old(State()).FinishReconnect(newRuntime, catalog)
      ensures old(State()).Valid() ==> State().Valid()
    {
      runtime := Some(newRuntime);
      published := Some(Snapshot(newRuntime.generation, catalog));
      discoveryFailures := 0;
      rpcFailures := 0;
      reconnecting := false;
      permanentlyFailed := false;
      SyncServerHealth();
      reconnectAttempts := 0;
      lifecycle := Lifecycle.Connected;
    }

    method BeginDisableTransition() returns (detached: Option<Runtime>)
      modifies this
      ensures (State(), detached) == old(State()).BeginDisable()
      ensures old(State()).Valid() ==> State().Valid()
    {
      if lifecycle == Disabled {
        reconnecting := false;
        return None;
      }
      lifecycle := Disabling;
      reconnecting := false;
      detached := runtime;
      runtime := None;
    }

    method FinishDisableTransition()
      modifies this
      ensures State() == old(State()).FinishDisable()
      ensures old(State()).Valid() ==> State().Valid()
    {
      lifecycle := Disabled;
      runtime := None;
      published := None;
      reconnecting := false;
      permanentlyFailed := false;
      ClearHealthBudgets();
    }

    /** The write section of `toggle(enabled = true)`. */
    method PrepareEnable()
      modifies this
      ensures State() == old(State()).PrepareEnable()
      ensures old(State()).Valid() ==> State().Valid()
    {
      lifecycle := Disconnected;
      reconnectAttempts := 0;
      reconnecting := false;
      permanentlyFailed := false;
      ClearHealthBudgets();
    }

    /** What `close_all` does to each slot under the write lock. */
    method DetachForCloseAll() returns (detached: Option<Runtime>)
      modifies this
      ensures (State(), detached) == old(State()).CloseAll()
      ensures old(State()).Valid() ==> State().Valid()
    {
      lifecycle := Disabled;
      published := None;
      detached := runtime;
      runtime := None;
    }

    method ApplyCatalogIfCurrent(generation: nat, catalog: Catalog) returns (applied: bool)
      modifies this
      ensures (State(), applied) == old(State()).ApplyCatalog(generation, catalog)
      ensures old(State()).Valid() ==> State().Valid()
      ensures applied ==> published == Some(Snapshot(generation, catalog)) && runtime.value.generation == generation
      ensures !applied ==> State() == old(State())
    {
      if runtime.None? { return false; }
      if runtime.value.generation != generation { return false; }
      published := Some(Snapshot(generation, catalog));
      MarkServerSuccess(Discovery);
      applied := true;
    }

    method MarkRuntimeOperationResultIfCurrent(generation: nat, kind: OpKind, succeeded: bool)
      returns (applied: bool)
      modifies this
      ensures (State(), applied) == old(State()).MarkResult(generation, kind, succeeded)
      ensures old(State()).Valid() ==> State().Valid()
      ensures !applied ==> State() == old(State())
    {
      if runtime.None? { return false; }
      if runtime.value.generation != generation || lifecycle != Lifecycle.Connected { return false; }
      if succeeded { MarkServerSuccess(kind); } else { MarkServerFailure(kind); }
      applied := true;
    }

    method UpdateRuntimeCapabilities(generation: nat, caps: Option<nat>)
      modifies this`runtime
      ensures State() == old(State()).UpdateCapabilities(generation, caps)
      ensures old(State()).Valid() ==> State().Valid()
    {
      if runtime.None? { return; }
      if runtime.value.generation == generation {
        runtime := Some(runtime.value.(capabilities := caps));
      }
    }

    method RuntimeLease() returns (r: Result<Runtime, SlotError>)
      ensures r == State().Lease()
    {
      if lifecycle == Disabled { return Err(ServerDisabled); }
      if lifecycle == PermanentlyFailed { return Err(SlotError.ServerPermanentlyFailed); }
      r := if runtime.None? then Err(ConnectionClosed) else Ok(runtime.value);
    }
  }

  /** A slot as `build_servers` and the first catalogue refresh leave it. */
  function ConnectedSlot(transport: nat, capabilities: Option<nat>, catalog: Catalog): Slot {
    Slot(Lifecycle.Connected, Some(Runtime(1, transport, capabilities)), false, false, 0, 0, 0, 0, 2,
         Some(Snapshot(1, catalog)))
  }
}
