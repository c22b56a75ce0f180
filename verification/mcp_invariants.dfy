/** What every step of the lifecycle protocol keeps: crates/remo-ext-mcp/src/manager.rs. The
    step lemmas go section group by section group, as the transition functions do. */
module McpInvariants {
  import opened Saturating
  import opened Wrappers
  import opened McpSlot
  import opened McpCatalog
  import opened McpLifecycle

  /** A reconnect cycle has begun and not yet finished. */
  predicate Cycling(holder: Option<Pc>) {
    holder.Some? && InReconnect(holder.value)
  }

  /** The seven-state machine: the slot is well shaped, and its transient states belong to the
      task that holds the lock. */
  predicate LifecycleInv(s: Server) {
    var slot := s.slot;
    && slot.Shaped()
    && (slot.runtime.Some? && slot.lifecycle == Disconnected ==> s.holder == Some(ToReconnect))
    && (slot.lifecycle == Connecting || slot.lifecycle == Reconnecting ==> Cycling(s.holder))
    && (slot.lifecycle == Disabling ==> (s.holder.Some? && InDisable(s.holder.value)))
    && (slot.reconnecting <==> Cycling(s.holder))
    && (s.holder.Some? ==> HolderInv(slot, s.holder.value))
  }

  predicate HolderInv(slot: Slot, pc: Pc) {
    && (InReconnect(pc) ==>
          slot.runtime.None? && slot.reconnectAttempts < MAX_RECONNECT_ATTEMPTS && !slot.permanentlyFailed
          && (slot.lifecycle == Connecting || slot.lifecycle == Reconnecting || slot.lifecycle == Disabled))
    && (InDisable(pc) ==> slot.runtime.None? && (slot.lifecycle == Disabling || slot.lifecycle == Disabled))
    && (pc.ClosingOld? || pc.CloseFailed? ==> slot.reconnectAttempts == 0)
    && (pc.ClosingOld? ==> slot.lifecycle == Reconnecting || slot.lifecycle == Disabled)
    && (CountsAttempt(pc) ==> pc.attempt == slot.reconnectAttempts)
  }

  /** The transport the lock holder must still close or install. */
  function InFlight(holder: Option<Pc>): Option<nat> {
    match holder
    case Some(DisableClosing(Some(r))) => Some(r.transport)
    case Some(ClosingOld(_, _, r)) => Some(r.transport)
    case Some(ReadingCapabilities(_, _, t)) => Some(t)
    case Some(Discovering(_, r)) => Some(r.transport)
    case Some(ClosingFresh(_, r)) => Some(r.transport)
    case Some(Installing(r, _)) => Some(r.transport)
    case _ => None
  }

  function InSlot(slot: Slot): Option<nat> {
    if slot.runtime.Some? then Some(slot.runtime.value.transport) else None
  }

  function Count(place: Option<nat>, t: nat): nat {
    if place == Some(t) then 1 else 0
  }

  /** In how many places transport `t` is: the slot, the lock holder's hands, the runtimes
      `close_all` took, and the calls to close made so far. */
  function Places(s: Server, t: nat): nat {
    Count(InSlot(s.slot), t) + Count(InFlight(s.holder), t) + s.detached[t] + s.closed[t]
  }

  /** Every transport ever opened is in exactly one place, and nothing else is anywhere. */
  ghost predicate LedgerInv(s: Server) {
    forall t: nat :: Places(s, t) == if t < s.openCount then 1 else 0
  }

  /** A generation reserved by the lock holder for a runtime it has not installed yet. */
  function Reserved(holder: Option<Pc>): Option<nat> {
    match holder
    case Some(ClosingOld(g, _, _)) => Some(g)
    case Some(Sleeping(g, _)) => Some(g)
    case Some(ReadingCapabilities(g, _, _)) => Some(g)
    case Some(Discovering(_, r)) => Some(r.generation)
    case Some(Installing(r, _)) => Some(r.generation)
    case _ => None
  }

  function HolderLease(holder: Option<Pc>): Option<Runtime> {
    match holder
    case Some(RefreshListing(r)) => Some(r)
    case Some(RefreshApplying(r, _)) => Some(r)
    case Some(RefreshFailing(r)) => Some(r)
    case Some(FailureMarking(_, r)) => Some(r)
    case _ => None
  }

  /** `r` is, up to its capabilities, one of the installed runtimes. */
  ghost predicate WasInstalled(installed: seq<Runtime>, r: Runtime) {
    exists i :: 0 <= i < |installed|
      && installed[i].generation == r.generation && installed[i].transport == r.transport
  }

  /** The order of generations: strict, but for the value at which the 64-bit counter stays. */
  predicate Below(a: nat, b: nat) {
    a < b || a == b == U64_MAX
  }

  /** Installed generations increase and stay below the next one to be reserved; only the value
      at which the counter saturates can repeat. The slot's runtime is the last one installed. */
  ghost predicate CounterInv(
      installed: seq<Runtime>, next: nat, reserved: Option<nat>, current: Option<Runtime>) {
    && installed != []
    && next <= U64_MAX
    && (forall i, j :: 0 <= i < j < |installed| ==> Below(installed[i].generation, installed[j].generation))
    && Below(installed[|installed| - 1].generation, next)
    && (reserved.Some? ==>
          Below(installed[|installed| - 1].generation, reserved.value) && Below(reserved.value, next))
    && (current.Some? ==> Same(installed[|installed| - 1], current.value))
  }

  ghost predicate LeasesInv(installed: seq<Runtime>, ops: map<nat, Op>, held: Option<Runtime>) {
    && (forall id :: id in ops ==> WasInstalled(installed, ops[id].lease))
    && (held.Some? ==> WasInstalled(installed, held.value))
  }

  ghost predicate GenerationInv(s: Server) {
    && CounterInv(s.installed, s.slot.nextGeneration, Reserved(s.holder), s.slot.runtime)
    && LeasesInv(s.installed, s.ops, HolderLease(s.holder))
  }

  predicate Same(a: Runtime, b: Runtime) {
    a.generation == b.generation && a.transport == b.transport
  }

  /** Failures of `kind` recorded since its last success or a reset. */
  function Trailing(log: seq<HealthEvent>, kind: OpKind): nat {
    if log == [] then 0
    else
      match log[|log| - 1]
      case Reset => 0
      case Success(k) => if k == kind then 0 else Trailing(log[..|log| - 1], kind)
      case Failure(k) => Trailing(log[..|log| - 1], kind) + (if k == kind then 1 else 0)
  }

  predicate HealthInv(s: Server) {
    && s.slot.consecutiveFailures == Max(s.slot.discoveryFailures, s.slot.rpcFailures)
    && s.slot.discoveryFailures == Saturated(Trailing(s.log, Discovery), U64_MAX)
    && s.slot.rpcFailures == Saturated(Trailing(s.log, Rpc), U64_MAX)
  }

  /** A connected slot is over the threshold only between recording the failure and starting
      the reconnect, which all happens under the lock. */
  predicate ThresholdInv(s: Server) {
    s.slot.lifecycle == Connected && s.holder != Some(ToReconnect) ==>
      && (s.holder != Some(FailureChecking(Discovery)) && s.holder != Some(RefreshChecking) ==>
            s.slot.discoveryFailures < FAILURE_THRESHOLD)
      && (s.holder != Some(FailureChecking(Rpc)) ==> s.slot.rpcFailures < FAILURE_THRESHOLD)
  }

  ghost predicate PublishedInv(s: Server) {
    && (s.slot.published.Some? ==> CatalogOf(s.name, s.slot.published.value.catalog))
    && (s.holder.Some? && s.holder.value.Installing? ==> CatalogOf(s.name, s.holder.value.catalog))
    && (s.holder.Some? && s.holder.value.RefreshApplying? ==> CatalogOf(s.name, s.holder.value.catalog))
  }

  ghost predicate Inv(s: Server) {
    LifecycleInv(s) && LedgerInv(s) && GenerationInv(s) && HealthInv(s) && ThresholdInv(s) && PublishedInv(s)
  }

  lemma InitInv(name: string, caps: Option<nat>, catalog: Catalog)
    requires CatalogOf(name, catalog)
    ensures Inv(Init(name, caps, catalog))
  {
  }

  lemma TrailingSnoc(log: seq<HealthEvent>, x: HealthEvent, kind: OpKind)
    ensures Trailing(log + [x], kind) ==
            match x
            case Reset => 0
            case Success(k) => if k == kind then 0 else Trailing(log, kind)
            case Failure(k) => Trailing(log, kind) + (if k == kind then 1 else 0)
  {
    assert (log + [x])[..|log|] == log;
  }

  lemma ReconnectLifecycle(s: Server, pc: Pc, o: Outcome)
    requires LifecycleInv(s) && s.holder == Some(pc) && ReconnectStep(s, pc, o).Some?
    ensures LifecycleInv(ReconnectStep(s, pc, o).value)
  {
    hide Published;
  }

  lemma ToggleLifecycle(s: Server, pc: Pc, o: Outcome)
    requires LifecycleInv(s) && s.holder == Some(pc) && ToggleStep(s, pc, o).Some?
    ensures LifecycleInv(ToggleStep(s, pc, o).value)
  {
    hide Published;
  }

  lemma RefreshLifecycle(s: Server, pc: Pc, o: Outcome)
    requires LifecycleInv(s) && s.holder == Some(pc) && RefreshStep(s, pc, o).Some?
    ensures LifecycleInv(RefreshStep(s, pc, o).value)
  {
    hide Published;
  }

  lemma FailureLifecycle(s: Server, pc: Pc, o: Outcome)
    requires LifecycleInv(s) && s.holder == Some(pc) && FailureStep(s, pc, o).Some?
    ensures LifecycleInv(FailureStep(s, pc, o).value)
  {
    hide Published;
  }

  lemma HolderLifecycle(s: Server, pc: Pc, o: Outcome)
    requires LifecycleInv(s) && s.holder == Some(pc) && HolderStep(s, pc, o).Some?
    ensures LifecycleInv(HolderStep(s, pc, o).value)
  {
    hide ReconnectStep, ToggleStep, RefreshStep, FailureStep, LifecycleInv, LedgerInv;
    if pc == ToReconnect || InReconnect(pc) { ReconnectLifecycle(s, pc, o); }
    else if pc == ToEnable || pc == ToDisable || InDisable(pc) { ToggleLifecycle(s, pc, o); }
    else if InRefresh(pc) { RefreshLifecycle(s, pc, o); }
    else { FailureLifecycle(s, pc, o); }
  }

  lemma MarkedLifecycle(s: Server, generation: nat, kind: OpKind, succeeded: bool)
    requires LifecycleInv(s)
    ensures LifecycleInv(Marked(s, generation, kind, succeeded))
  {
  }

  /** `close_all` disables the slot whatever task holds the lock. */
  lemma CloseAllLifecycle(s: Server)
    requires LifecycleInv(s)
    ensures LifecycleInv(s.(slot := s.slot.CloseAll().0))
  {
  }

  lemma CapabilitiesLifecycle(s: Server, generation: nat, caps: Option<nat>)
    requires LifecycleInv(s)
    ensures LifecycleInv(s.(slot := s.slot.UpdateCapabilities(generation, caps)))
  {
  }

  lemma SameLifecycle(s: Server, s': Server)
    requires LifecycleInv(s) && s'.slot == s.slot && s'.holder == s.holder
    ensures LifecycleInv(s')
  {
  }

  lemma StepLifecycle(s: Server, e: Event)
    requires LifecycleInv(s) && Step(s, e).Some?
    ensures LifecycleInv(Step(s, e).value)
  {
    hide HolderStep, Marked, Slot.CloseAll, Slot.UpdateCapabilities;
    var s' := Step(s, e).value;
    if e.Hold? {
      HolderLifecycle(s, s.holder.value, e.outcome);
    } else if e.OpSucceeded? {
      var op := s.ops[e.id];
      MarkedLifecycle(s.(ops := s.ops - {e.id}), op.lease.generation, op.kind, true);
    } else if e.CloseAll? {
      CloseAllLifecycle(s);
      SameLifecycle(s.(slot := s.slot.CloseAll().0), s');
    } else if e.SetCapabilities? {
      CapabilitiesLifecycle(s, s.ops[e.id].lease.generation, e.caps);
    } else {
      HandOver(s, s');
    }
  }

  /** The lock is taken by a task that has done nothing yet, or given back by one that is done. */
  lemma HandOver(s: Server, s': Server)
    requires LifecycleInv(s) && s'.slot == s.slot
    requires s'.holder == s.holder
      || (s.holder.None? && s'.holder.Some? && !InReconnect(s'.holder.value) && !InDisable(s'.holder.value))
      || (s.holder == Some(Finished) && s'.holder.None?)
    ensures LifecycleInv(s')
  {
  }

  lemma ReconnectingIsEmpty(s: Server, pc: Pc)
    requires LifecycleInv(s) && s.holder == Some(pc) && InReconnect(pc)
    ensures s.slot.runtime.None?
  {}

  lemma BeginReconnectLedger(s: Server, o: Outcome)
    requires LifecycleInv(s) && LedgerInv(s) && s.holder == Some(ToReconnect) && ReconnectStep(s, ToReconnect, o).Some?
    ensures LedgerInv(ReconnectStep(s, ToReconnect, o).value)
  {
    hide Published;
    var s' := ReconnectStep(s, ToReconnect, o).value;
    forall t: nat ensures Places(s', t) == if t < s'.openCount then 1 else 0 {
      assert Places(s, t) == if t < s.openCount then 1 else 0;
    }
  }

  lemma ClosingPlaces(s: Server, pc: Pc, o: Outcome, t: nat)
    requires s.holder == Some(pc) && (pc.ClosingOld? || pc.ClosingFresh? || pc.ReadingCapabilities?)
    requires ReconnectStep(s, pc, o).Some?
    ensures var s' := ReconnectStep(s, pc, o).value; s.openCount == s'.openCount && Places(s', t) == Places(s, t)
  {
    hide Published, Slot.BeginReconnect, Slot.ReconnectFailure, Slot.ReconnectCloseFailure, Slot.FinishReconnect;
  }

  lemma OpeningPlaces(s: Server, pc: Pc, o: Outcome, t: nat)
    requires s.slot.runtime.None? && s.holder == Some(pc) && ReconnectStep(s, pc, o).Some?
    requires pc.CloseFailed? || pc.Sleeping? || pc.Discovering? || pc.FinishingError? || pc.Installing?
    ensures var s' := ReconnectStep(s, pc, o).value;
            s.openCount <= s'.openCount <= s.openCount + 1
            && Places(s', t) == Places(s, t) + (if s.openCount <= t < s'.openCount then 1 else 0)
  {
    hide Published, Slot.BeginReconnect;
  }

  /** A section of a cycle moves transports between places, and opens at most the next one. */
  lemma ReconnectPlaces(s: Server, pc: Pc, o: Outcome, t: nat)
    requires s.slot.runtime.None? && s.holder == Some(pc) && pc != ToReconnect && ReconnectStep(s, pc, o).Some?
    ensures var s' := ReconnectStep(s, pc, o).value;
            s.openCount <= s'.openCount <= s.openCount + 1
            && Places(s', t) == Places(s, t) + (if s.openCount <= t < s'.openCount then 1 else 0)
  {
    if pc.ClosingOld? || pc.ClosingFresh? || pc.ReadingCapabilities? {
      hide ReconnectStep, Places;
      ClosingPlaces(s, pc, o, t);
    } else {
      hide Places, Published;
      OpeningPlaces(s, pc, o, t);
    }
  }

  lemma ReconnectLedger(s: Server, pc: Pc, o: Outcome)
    requires LifecycleInv(s) && LedgerInv(s) && s.holder == Some(pc) && ReconnectStep(s, pc, o).Some?
    ensures LedgerInv(ReconnectStep(s, pc, o).value)
  {
    if pc == ToReconnect {
      BeginReconnectLedger(s, o);
    } else {
      CycleLedger(s, pc, o);
    }
  }

  lemma CycleLedger(s: Server, pc: Pc, o: Outcome)
    requires LifecycleInv(s) && LedgerInv(s) && s.holder == Some(pc) && InReconnect(pc) && ReconnectStep(s, pc, o).Some?
    ensures LedgerInv(ReconnectStep(s, pc, o).value)
  {
    hide Places, ReconnectStep;
    ReconnectingIsEmpty(s, pc);
    hide LifecycleInv;
    var s' := ReconnectStep(s, pc, o).value;
    forall t: nat ensures Places(s', t) == if t < s'.openCount then 1 else 0 {
      ReconnectPlaces(s, pc, o, t);
      assert Places(s, t) == if t < s.openCount then 1 else 0;
    }
  }

  lemma ToggleLedger(s: Server, pc: Pc, o: Outcome)
    requires LifecycleInv(s) && LedgerInv(s) && s.holder == Some(pc) && ToggleStep(s, pc, o).Some?
    ensures LedgerInv(ToggleStep(s, pc, o).value)
  {
    hide Published;
    var s' := ToggleStep(s, pc, o).value;
    forall t: nat ensures Places(s', t) == if t < s'.openCount then 1 else 0 {
      assert Places(s, t) == if t < s.openCount then 1 else 0;
    }
  }

  lemma RefreshLedger(s: Server, pc: Pc, o: Outcome)
    requires LifecycleInv(s) && LedgerInv(s) && s.holder == Some(pc) && RefreshStep(s, pc, o).Some?
    ensures LedgerInv(RefreshStep(s, pc, o).value)
  {
    hide Published;
    var s' := RefreshStep(s, pc, o).value;
    forall t: nat ensures Places(s', t) == if t < s'.openCount then 1 else 0 {
      assert Places(s, t) == if t < s.openCount then 1 else 0;
    }
  }

  lemma FailureLedger(s: Server, pc: Pc, o: Outcome)
    requires LifecycleInv(s) && LedgerInv(s) && s.holder == Some(pc) && FailureStep(s, pc, o).Some?
    ensures LedgerInv(FailureStep(s, pc, o).value)
  {
    hide Published;
    var s' := FailureStep(s, pc, o).value;
    forall t: nat ensures Places(s', t) == if t < s'.openCount then 1 else 0 {
      assert Places(s, t) == if t < s.openCount then 1 else 0;
    }
  }

  lemma HolderLedger(s: Server, pc: Pc, o: Outcome)
    requires LifecycleInv(s) && LedgerInv(s) && s.holder == Some(pc) && HolderStep(s, pc, o).Some?
    ensures LedgerInv(HolderStep(s, pc, o).value)
  {
    hide ReconnectStep, ToggleStep, RefreshStep, FailureStep, LifecycleInv, LedgerInv;
    if pc == ToReconnect || InReconnect(pc) { ReconnectLedger(s, pc, o); }
    else if pc == ToEnable || pc == ToDisable || InDisable(pc) { ToggleLedger(s, pc, o); }
    else if InRefresh(pc) { RefreshLedger(s, pc, o); }
    else { FailureLedger(s, pc, o); }
  }

  lemma SamePlaces(s: Server, s': Server)
    requires LedgerInv(s) && InSlot(s.slot) == InSlot(s'.slot) && InFlight(s.holder) == InFlight(s'.holder)
    requires s.detached == s'.detached && s.closed == s'.closed && s.openCount == s'.openCount
    ensures LedgerInv(s')
  {
    forall t: nat ensures Places(s', t) == if t < s'.openCount then 1 else 0 {
      assert Places(s, t) == if t < s.openCount then 1 else 0;
    }
  }

  lemma CloseAllLedger(s: Server, e: Event)
    requires LedgerInv(s) && (e.CloseAll? || e.CloseDetached?) && Step(s, e).Some?
    ensures LedgerInv(Step(s, e).value)
  {
    hide HolderStep, Marked;
    var s' := Step(s, e).value;
    forall t: nat ensures Places(s', t) == if t < s'.openCount then 1 else 0 {
      assert Places(s, t) == if t < s.openCount then 1 else 0;
    }
  }

  lemma StepLedger(s: Server, e: Event)
    requires LifecycleInv(s) && LedgerInv(s) && Step(s, e).Some?
    ensures LedgerInv(Step(s, e).value)
  {
    hide HolderStep, LifecycleInv, LedgerInv, Slot.MarkResult;
    ResultsKeepRuntime(s.slot);
    if e.Hold? {
      HolderLedger(s, s.holder.value, e.outcome);
    } else if e.CloseAll? || e.CloseDetached? {
      CloseAllLedger(s, e);
    } else {
      SamePlaces(s, Step(s, e).value);
    }
  }

  lemma MarkedHealth(s: Server, generation: nat, kind: OpKind, succeeded: bool)
    requires HealthInv(s)
    ensures HealthInv(Marked(s, generation, kind, succeeded))
  {
    hide Trailing;
    var x := if succeeded then Success(kind) else Failure(kind);
    TrailingSnoc(s.log, x, Discovery);
    TrailingSnoc(s.log, x, Rpc);
  }

  lemma ReconnectHealth(s: Server, pc: Pc, o: Outcome)
    requires HealthInv(s) && s.holder == Some(pc) && ReconnectStep(s, pc, o).Some?
    ensures HealthInv(ReconnectStep(s, pc, o).value)
  {
    hide Published, Trailing;
    TrailingSnoc(s.log, Reset, Discovery);
    TrailingSnoc(s.log, Reset, Rpc);
  }

  lemma ToggleHealth(s: Server, pc: Pc, o: Outcome)
    requires HealthInv(s) && s.holder == Some(pc) && ToggleStep(s, pc, o).Some?
    ensures HealthInv(ToggleStep(s, pc, o).value)
  {
    hide Published, Trailing;
    TrailingSnoc(s.log, Reset, Discovery);
    TrailingSnoc(s.log, Reset, Rpc);
  }

  lemma RefreshHealth(s: Server, pc: Pc, o: Outcome)
    requires HealthInv(s) && s.holder == Some(pc) && RefreshStep(s, pc, o).Some?
    ensures HealthInv(RefreshStep(s, pc, o).value)
  {
    hide Published, Trailing, Marked;
    TrailingSnoc(s.log, Success(Discovery), Discovery);
    TrailingSnoc(s.log, Success(Discovery), Rpc);
    if pc.RefreshFailing? { MarkedHealth(s, pc.lease.generation, Discovery, false); }
  }

  lemma FailureHealth(s: Server, pc: Pc, o: Outcome)
    requires HealthInv(s) && s.holder == Some(pc) && FailureStep(s, pc, o).Some?
    ensures HealthInv(FailureStep(s, pc, o).value)
  {
    hide Trailing, Marked;
    if pc.FailureMarking? { MarkedHealth(s, pc.lease.generation, pc.kind, false); }
  }

  lemma StepHealth(s: Server, e: Event)
    requires HealthInv(s) && Step(s, e).Some?
    ensures HealthInv(Step(s, e).value)
  {
    hide Trailing, Marked, ReconnectStep, ToggleStep, RefreshStep, FailureStep;
    if e.OpSucceeded? {
      MarkedHealth(s.(ops := s.ops - {e.id}), s.ops[e.id].lease.generation, s.ops[e.id].kind, true);
    } else if e.Hold? {
      var pc, o := s.holder.value, e.outcome;
      if pc == ToReconnect || InReconnect(pc) { ReconnectHealth(s, pc, o); }
      else if pc == ToEnable || pc == ToDisable || InDisable(pc) { ToggleHealth(s, pc, o); }
      else if InRefresh(pc) { RefreshHealth(s, pc, o); }
      else { FailureHealth(s, pc, o); }
    }
  }

  lemma ReconnectThreshold(s: Server, pc: Pc, o: Outcome)
    requires LifecycleInv(s) && ThresholdInv(s) && s.holder == Some(pc) && ReconnectStep(s, pc, o).Some?
    ensures ThresholdInv(ReconnectStep(s, pc, o).value)
  {
    hide Published;
  }

  lemma ToggleThreshold(s: Server, pc: Pc, o: Outcome)
    requires LifecycleInv(s) && ThresholdInv(s) && s.holder == Some(pc) && ToggleStep(s, pc, o).Some?
    ensures ThresholdInv(ToggleStep(s, pc, o).value)
  {
    hide Published;
  }

  lemma RefreshThreshold(s: Server, pc: Pc, o: Outcome)
    requires LifecycleInv(s) && ThresholdInv(s) && s.holder == Some(pc) && RefreshStep(s, pc, o).Some?
    ensures ThresholdInv(RefreshStep(s, pc, o).value)
  {
    hide Published;
  }

  lemma FailureThreshold(s: Server, pc: Pc, o: Outcome)
    requires LifecycleInv(s) && ThresholdInv(s) && s.holder == Some(pc) && FailureStep(s, pc, o).Some?
    ensures ThresholdInv(FailureStep(s, pc, o).value)
  {
    hide Published;
  }

  lemma StepThreshold(s: Server, e: Event)
    requires LifecycleInv(s) && ThresholdInv(s) && Step(s, e).Some?
    ensures ThresholdInv(Step(s, e).value)
  {
    hide ReconnectStep, ToggleStep, RefreshStep, FailureStep;
    if e.Hold? {
      var pc, o := s.holder.value, e.outcome;
      if pc == ToReconnect || InReconnect(pc) { ReconnectThreshold(s, pc, o); }
      else if pc == ToEnable || pc == ToDisable || InDisable(pc) { ToggleThreshold(s, pc, o); }
      else if InRefresh(pc) { RefreshThreshold(s, pc, o); }
      else { FailureThreshold(s, pc, o); }
    }
  }

  lemma InstalledGrows(installed: seq<Runtime>, x: Runtime)
    ensures forall r :: WasInstalled(installed, r) ==> WasInstalled(installed + [x], r)
  {
    forall r | WasInstalled(installed, r) ensures WasInstalled(installed + [x], r) {
      var i :| 0 <= i < |installed|
        && installed[i].generation == r.generation && installed[i].transport == r.transport;
      assert (installed + [x])[i] == installed[i];
    }
  }

  lemma ResultsKeepRuntime(slot: Slot)
    ensures forall g, kind, ok ::
              var r := slot.MarkResult(g, kind, ok).0;
              r.runtime == slot.runtime && r.nextGeneration == slot.nextGeneration
    ensures forall g, c ::
              var r := slot.ApplyCatalog(g, c).0;
              r.runtime == slot.runtime && r.nextGeneration == slot.nextGeneration
  {}

  lemma LastWasInstalled(s: Server)
    requires GenerationInv(s) && s.slot.Lease().Ok?
    ensures WasInstalled(s.installed, s.slot.Lease().value)
  {}

  lemma ReconnectGeneration(s: Server, pc: Pc, o: Outcome)
    requires LifecycleInv(s) && GenerationInv(s) && s.holder == Some(pc) && ReconnectStep(s, pc, o).Some?
    ensures GenerationInv(ReconnectStep(s, pc, o).value)
  {
    hide Published, WasInstalled, CounterInv;
    if pc.Installing? {
      InstalledGrows(s.installed, pc.opening);
    }
    ReconnectCounter(s, pc, o);
  }

  lemma ReconnectCounter(s: Server, pc: Pc, o: Outcome)
    requires LifecycleInv(s) && GenerationInv(s) && s.holder == Some(pc) && ReconnectStep(s, pc, o).Some?
    ensures var s' := ReconnectStep(s, pc, o).value;
            CounterInv(s'.installed, s'.slot.nextGeneration, Reserved(s'.holder), s'.slot.runtime)
  {
    hide Published, LeasesInv, LifecycleInv;
    if InReconnect(pc) { ReconnectingIsEmpty(s, pc); }
  }

  lemma ToggleGeneration(s: Server, pc: Pc, o: Outcome)
    requires LifecycleInv(s) && GenerationInv(s) && s.holder == Some(pc) && ToggleStep(s, pc, o).Some?
    ensures GenerationInv(ToggleStep(s, pc, o).value)
  {
    hide Published;
  }

  lemma RefreshGeneration(s: Server, pc: Pc, o: Outcome)
    requires LifecycleInv(s) && GenerationInv(s) && s.holder == Some(pc) && RefreshStep(s, pc, o).Some?
    ensures GenerationInv(RefreshStep(s, pc, o).value)
  {
    hide Published, WasInstalled, CounterInv, Slot.MarkResult, Slot.ApplyCatalog, LifecycleInv;
    ResultsKeepRuntime(s.slot);
    if s.slot.Lease().Ok? { LastWasInstalled(s); }
  }

  lemma FailureGeneration(s: Server, pc: Pc, o: Outcome)
    requires LifecycleInv(s) && GenerationInv(s) && s.holder == Some(pc) && FailureStep(s, pc, o).Some?
    ensures GenerationInv(FailureStep(s, pc, o).value)
  {
    hide Published;
  }

  lemma StepGeneration(s: Server, e: Event)
    requires LifecycleInv(s) && GenerationInv(s) && Step(s, e).Some?
    ensures GenerationInv(Step(s, e).value)
  {
    hide Slot.MarkResult, WasInstalled, ReconnectStep, ToggleStep, RefreshStep, FailureStep;
    ResultsKeepRuntime(s.slot);
    if s.slot.Lease().Ok? { LastWasInstalled(s); }
    if e.Hold? {
      var pc, o := s.holder.value, e.outcome;
      if pc == ToReconnect || InReconnect(pc) { ReconnectGeneration(s, pc, o); }
      else if pc == ToEnable || pc == ToDisable || InDisable(pc) { ToggleGeneration(s, pc, o); }
      else if InRefresh(pc) { RefreshGeneration(s, pc, o); }
      else { FailureGeneration(s, pc, o); }
    }
  }

  lemma ReconnectPublished(s: Server, pc: Pc, o: Outcome)
    requires PublishedInv(s) && s.holder == Some(pc) && ReconnectStep(s, pc, o).Some?
    ensures PublishedInv(ReconnectStep(s, pc, o).value)
  {
    hide Published, CatalogOf;
  }

  lemma TogglePublished(s: Server, pc: Pc, o: Outcome)
    requires PublishedInv(s) && s.holder == Some(pc) && ToggleStep(s, pc, o).Some?
    ensures PublishedInv(ToggleStep(s, pc, o).value)
  {
    hide Published, CatalogOf;
  }

  lemma RefreshPublished(s: Server, pc: Pc, o: Outcome)
    requires PublishedInv(s) && s.holder == Some(pc) && RefreshStep(s, pc, o).Some?
    ensures PublishedInv(RefreshStep(s, pc, o).value)
  {
    hide Published, CatalogOf;
  }

  lemma FailurePublished(s: Server, pc: Pc, o: Outcome)
    requires PublishedInv(s) && s.holder == Some(pc) && FailureStep(s, pc, o).Some?
    ensures PublishedInv(FailureStep(s, pc, o).value)
  {
    hide Published, CatalogOf;
  }

  lemma StepPublished(s: Server, e: Event)
    requires PublishedInv(s) && Step(s, e).Some?
    ensures PublishedInv(Step(s, e).value)
  {
    hide CatalogOf, ReconnectStep, ToggleStep, RefreshStep, FailureStep;
    if e.Hold? {
      var pc, o := s.holder.value, e.outcome;
      if pc == ToReconnect || InReconnect(pc) { ReconnectPublished(s, pc, o); }
      else if pc == ToEnable || pc == ToDisable || InDisable(pc) { TogglePublished(s, pc, o); }
      else if InRefresh(pc) { RefreshPublished(s, pc, o); }
      else { FailurePublished(s, pc, o); }
    }
  }
}
