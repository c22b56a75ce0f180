/** The laws of one server's lifecycle over every history: crates/remo-ext-mcp/src/manager.rs. */
module McpTheorems {
  import opened Saturating
  import opened Wrappers
  import opened McpSlot
  import opened McpCatalog
  import opened McpLifecycle
  import opened McpInvariants

  lemma StepInv(s: Server, e: Event)
    requires Inv(s) && Step(s, e).Some?
    ensures Inv(Step(s, e).value)
  {
    hide Step, LifecycleInv, LedgerInv, GenerationInv, HealthInv, ThresholdInv, PublishedInv;
    StepLifecycle(s, e);
    StepLedger(s, e);
    StepGeneration(s, e);
    StepHealth(s, e);
    StepThreshold(s, e);
    StepPublished(s, e);
  }

  /** Every interleaving, of any length, stays inside the invariant. */
  lemma {:induction false} RunInv(s: Server, es: seq<Event>)
    requires Inv(s) && Run(s, es).Some?
    ensures Inv(Run(s, es).value)
  {
    hide Step, Inv;
    if es == [] {
    } else {
      RunInv(s, es[..|es| - 1]);
      StepInv(Run(s, es[..|es| - 1]).value, es[|es| - 1]);
    }
  }

  ghost predicate Reachable(s: Server, es: seq<Event>, name: string, caps: Option<nat>, catalog: Catalog) {
    CatalogOf(name, catalog) && Run(Init(name, caps, catalog), es) == Some(s)
  }

  lemma ReachableInv(s: Server, es: seq<Event>, name: string, caps: Option<nat>, catalog: Catalog)
    requires Reachable(s, es, name, caps, catalog)
    ensures Inv(s)
  {
    hide Step;
    InitInv(name, caps, catalog);
    RunInv(Init(name, caps, catalog), es);
  }

  /** Transports are conserved: after any history each opened transport is held by the slot, or
      in flight, or owed a close by `close_all`, or has been closed once; it is never in two of
      these places. When nothing is in flight the only one not closed is the slot's. */
  lemma TransportsConserved(
      s: Server, es: seq<Event>, name: string, caps: Option<nat>, catalog: Catalog, t: nat)
    requires Reachable(s, es, name, caps, catalog)
    ensures t < s.openCount ==> Places(s, t) == 1
    ensures t >= s.openCount ==> Places(s, t) == 0
    ensures s.holder.None? && s.detached == multiset{} && t < s.openCount ==>
              (s.closed[t] == 1 <==> InSlot(s.slot) != Some(t))
  {
    ReachableInv(s, es, name, caps, catalog);
    assert Places(s, t) == if t < s.openCount then 1 else 0;
  }

  /** No section that assigns `slot.runtime` ever runs while the slot still holds one, and the
      transport about to be installed has not been closed. */
  lemma InstallNeverOverwrites(s: Server, es: seq<Event>, name: string, caps: Option<nat>, catalog: Catalog)
    requires Reachable(s, es, name, caps, catalog) && s.holder.Some?
    ensures s.holder.value.Installing? || s.holder.value.DisableFinishing? || s.holder.value.FinishingError?
            || (s.holder.value.ToReconnect? && s.slot.reconnectAttempts >= MAX_RECONNECT_ATTEMPTS)
            ==> s.slot.runtime.None?
    ensures s.holder.value.Installing? ==> s.closed[s.holder.value.opening.transport] == 0
  {
    ReachableInv(s, es, name, caps, catalog);
    if s.holder.value.Installing? {
      var t := s.holder.value.opening.transport;
      assert Places(s, t) == if t < s.openCount then 1 else 0;
    }
  }

  /** A close is never taken back. */
  lemma ClosedStaysClosed(s: Server, e: Event)
    requires Step(s, e).Some?
    ensures s.closed <= Step(s, e).value.closed
  {
    hide Published;
  }

  /** What holds of the fields in every reachable state, whatever the other tasks do. */
  lemma SlotShape(s: Server, es: seq<Event>, name: string, caps: Option<nat>, catalog: Catalog)
    requires Reachable(s, es, name, caps, catalog)
    ensures var slot := s.slot;
            && (slot.lifecycle == Connected ==> slot.runtime.Some?)
            && (slot.runtime.Some? && slot.published.Some? ==>
                  slot.runtime.value.generation == slot.published.value.generation)
            && (slot.runtime.Some? ==> slot.reconnectAttempts == 0)
            && slot.reconnectAttempts <= MAX_RECONNECT_ATTEMPTS
            && (slot.reconnectAttempts == MAX_RECONNECT_ATTEMPTS ==>
                  slot.lifecycle == PermanentlyFailed || slot.lifecycle == Disabling || slot.lifecycle == Disabled)
            && (slot.lifecycle == PermanentlyFailed || slot.lifecycle == Disabled ==>
                  slot.runtime.None? && slot.published.None?)
  {
    ReachableInv(s, es, name, caps, catalog);
  }

  /** The slot is flagged as reconnecting exactly during a cycle, and while the old runtime is being
      closed it reads `Reconnecting`, unless `close_all` has turned it off meanwhile. */
  lemma CyclesShow(s: Server, es: seq<Event>, name: string, caps: Option<nat>, catalog: Catalog)
    requires Reachable(s, es, name, caps, catalog)
    ensures s.slot.reconnecting <==> (s.holder.Some? && InReconnect(s.holder.value))
    ensures s.holder.Some? && InReconnect(s.holder.value) ==>
              s.slot.lifecycle == Connecting || s.slot.lifecycle == Reconnecting || s.slot.lifecycle == Disabled
    ensures s.holder.Some? && s.holder.value.ClosingOld? ==>
              s.slot.lifecycle == Reconnecting || s.slot.lifecycle == Disabled
  {
    hide Run;
    ReachableInv(s, es, name, caps, catalog);
  }

  /** With the lifecycle lock free no transient state is left behind, a runtime is present
      exactly when the slot is connected, and a connected slot is below both thresholds. */
  lemma QuietWhenUnlocked(s: Server, es: seq<Event>, name: string, caps: Option<nat>, catalog: Catalog)
    requires Reachable(s, es, name, caps, catalog) && s.holder.None?
    ensures s.slot.lifecycle == Connected || s.slot.lifecycle == Disconnected
            || s.slot.lifecycle == Disabled || s.slot.lifecycle == PermanentlyFailed
    ensures !s.slot.reconnecting
    ensures s.slot.lifecycle == Connected <==> s.slot.runtime.Some?
    ensures s.slot.lifecycle == Connected ==>
              s.slot.discoveryFailures < FAILURE_THRESHOLD && s.slot.rpcFailures < FAILURE_THRESHOLD
              && s.slot.consecutiveFailures < FAILURE_THRESHOLD
  {
    ReachableInv(s, es, name, caps, catalog);
  }

  /** Each budget counts the failures of its own kind since that kind's last success or a
      reset, and the reported number is the larger budget. */
  lemma BudgetsCountFailures(s: Server, es: seq<Event>, name: string, caps: Option<nat>, catalog: Catalog)
    requires Reachable(s, es, name, caps, catalog)
    ensures forall kind :: s.slot.Failures(kind) == Saturated(Trailing(s.log, kind), U64_MAX)
    ensures s.slot.consecutiveFailures >= s.slot.discoveryFailures && s.slot.consecutiveFailures >= s.slot.rpcFailures
    ensures s.slot.consecutiveFailures == s.slot.discoveryFailures || s.slot.consecutiveFailures == s.slot.rpcFailures
  {
    ReachableInv(s, es, name, caps, catalog);
  }

  // ---- Stale leases ------------------------------------------------------------------------

  /** The lease an event acts on, if it acts through one. */
  function LeaseUsed(s: Server, e: Event): Option<Runtime> {
    match e
    case SetCapabilities(id, _) => if id in s.ops then Some(s.ops[id].lease) else None
    case OpSucceeded(id) => if id in s.ops then Some(s.ops[id].lease) else None
    case Hold(_) =>
      if s.holder.Some? && (s.holder.value.RefreshApplying? || s.holder.value.RefreshFailing?
                            || s.holder.value.FailureMarking?)
      then Some(s.holder.value.lease) else None
    case _ => None
  }

  predicate Stale(s: Server, lease: Runtime) {
    InSlot(s.slot) != Some(lease.transport)
  }

  /** Generations never decrease from one installation to the next, and two installed runtimes
      share one only when it is the value at which the 64-bit counter stays. */
  lemma GenerationNamesTransport(
      s: Server, es: seq<Event>, name: string, caps: Option<nat>, catalog: Catalog, i: nat, j: nat)
    requires Reachable(s, es, name, caps, catalog) && i < j < |s.installed|
    ensures s.installed[i].generation <= s.installed[j].generation <= U64_MAX
    ensures s.installed[i].generation == s.installed[j].generation <==> s.installed[i].generation == U64_MAX
  {
    hide Run, LifecycleInv, LedgerInv, LeasesInv, HealthInv, ThresholdInv, PublishedInv;
    ReachableInv(s, es, name, caps, catalog);
    assert Below(s.installed[i].generation, s.installed[j].generation);
    var last := |s.installed| - 1;
    if j < last { assert Below(s.installed[j].generation, s.installed[last].generation); }
  }

  /** A reserved generation is one that no runtime has had exactly while the last installed one
      is not yet the value at which the counter stays. */
  lemma ReservedGenerationIsFreshIff(
      s: Server, es: seq<Event>, name: string, caps: Option<nat>, catalog: Catalog)
    requires Reachable(s, es, name, caps, catalog) && Reserved(s.holder).Some?
    ensures s.installed != []
    ensures (forall r :: r in s.installed ==> r.generation != Reserved(s.holder).value)
            <==> s.installed[|s.installed| - 1].generation < U64_MAX
  {
    hide Run, LifecycleInv, LedgerInv, LeasesInv, HealthInv, ThresholdInv, PublishedInv;
    ReachableInv(s, es, name, caps, catalog);
    var last := |s.installed| - 1;
    assert s.installed[last] in s.installed;
    forall r | r in s.installed && s.installed[last].generation < U64_MAX
      ensures r.generation != Reserved(s.holder).value
    {
      var i :| 0 <= i < |s.installed| && s.installed[i] == r;
      if i < last { assert Below(r.generation, s.installed[last].generation); }
    }
  }

  lemma StaleIsNotCurrent(s: Server, lease: Runtime)
    requires GenerationInv(s) && WasInstalled(s.installed, lease) && Stale(s, lease)
    ensures s.slot.RunsGeneration(lease.generation) ==> lease.generation == U64_MAX
    ensures lease.generation <= U64_MAX
  {
    var last := |s.installed| - 1;
    var i :| 0 <= i < |s.installed|
      && s.installed[i].generation == lease.generation && s.installed[i].transport == lease.transport;
    if i < last { assert Below(lease.generation, s.installed[last].generation); }
  }

  /** Both the lease and the present runtime carry the generation at which the counter stays. */
  predicate BothAtLimit(s: Server, lease: Runtime) {
    lease.generation == U64_MAX && s.slot.RunsGeneration(U64_MAX)
  }

  /** What an operation leased from a runtime other than the slot's present one can still do: its
      result or catalogue is recorded exactly when both runtimes carry the last generation and
      the slot is connected, its capabilities are taken over exactly in the first case, and
      otherwise the slot keeps its value. */
  lemma StaleLeaseActsIff(
      s: Server, es: seq<Event>, name: string, caps: Option<nat>, catalog: Catalog, e: Event)
    requires Reachable(s, es, name, caps, catalog)
    requires Step(s, e).Some? && LeaseUsed(s, e).Some? && Stale(s, LeaseUsed(s, e).value)
    ensures var s', both := Step(s, e).value, BothAtLimit(s, LeaseUsed(s, e).value);
            && (!e.SetCapabilities? ==> (s'.log != s.log <==> both && s.slot.lifecycle == Connected))
            && (e.SetCapabilities? && both ==> s'.slot.runtime == Some(s.slot.runtime.value.(capabilities := e.caps)))
            && (s'.log == s.log && !(e.SetCapabilities? && both) ==> s'.slot == s.slot)
  {
    hide Published, WasInstalled, ReconnectStep, ToggleStep, LedgerInv, HealthInv, ThresholdInv;
    ReachableInv(s, es, name, caps, catalog);
    StaleIsNotCurrent(s, LeaseUsed(s, e).value);
  }

  /** Below that generation a stale operation changes nothing in the slot and records nothing, and
      when it is a failure it starts no reconnect. */
  lemma StaleLeaseIsInert(
      s: Server, es: seq<Event>, name: string, caps: Option<nat>, catalog: Catalog, e: Event)
    requires Reachable(s, es, name, caps, catalog)
    requires Step(s, e).Some? && LeaseUsed(s, e).Some? && Stale(s, LeaseUsed(s, e).value)
    requires LeaseUsed(s, e).value.generation < U64_MAX
    ensures Step(s, e).value.slot == s.slot && Step(s, e).value.log == s.log
    ensures e.Hold? && s.holder.value.FailureMarking? ==> Step(s, e).value.holder == Some(Finished)
  {
    hide Published, WasInstalled, ReconnectStep, ToggleStep, LifecycleInv, LedgerInv, HealthInv, ThresholdInv;
    ReachableInv(s, es, name, caps, catalog);
    StaleIsNotCurrent(s, LeaseUsed(s, e).value);
  }

  /** An operation leased from the slot's present runtime does act: its capabilities are taken
      over, its result is recorded against its own kind while the server is connected, and its
      catalogue is published under the runtime's generation. */
  lemma CurrentLeaseActs(s: Server, e: Event)
    requires Step(s, e).Some? && LeaseUsed(s, e).Some? && s.slot.lifecycle == Connected
    requires s.slot.RunsGeneration(LeaseUsed(s, e).value.generation)
    ensures var slot, now := s.slot, Step(s, e).value.slot;
            && (e.SetCapabilities? ==> now == slot.(runtime := Some(slot.runtime.value.(capabilities := e.caps))))
            && (e.OpSucceeded? ==> Step(s, e).value.log == s.log + [Success(s.ops[e.id].kind)]
                                   && now.Failures(s.ops[e.id].kind) == 0)
            && (e.Hold? && s.holder.value.FailureMarking? ==>
                  Step(s, e).value.log == s.log + [Failure(s.holder.value.kind)]
                  && now.Failures(s.holder.value.kind) == SaturatingInc(slot.Failures(s.holder.value.kind), U64_MAX))
            && (e.Hold? && s.holder.value.RefreshApplying? ==>
                  now.published == Some(Snapshot(slot.runtime.value.generation, s.holder.value.catalog))
                  && now.discoveryFailures == 0)
            && (!e.SetCapabilities? ==> now.runtime == slot.runtime)
            && (e.OpSucceeded? || (e.Hold? && s.holder.value.FailureMarking?) ==>
                  forall kind :: kind != (if e.OpSucceeded? then s.ops[e.id].kind else s.holder.value.kind) ==>
                    now.Failures(kind) == slot.Failures(kind))
  {
    hide Published, ReconnectStep, ToggleStep;
  }

  /** A well-shaped slot leases exactly the runtime it has. */
  lemma LeaseIsTheRuntime(slot: Slot)
    requires slot.Shaped()
    ensures slot.Lease().Ok? <==> slot.runtime.Some?
    ensures slot.Lease().Ok? ==> slot.Lease().value == slot.runtime.value
  {}

  // ---- The reconnect budget ----------------------------------------------------------------

  /** What is left of the reconnect budget: the attempts, and one teardown of a runtime. */
  function Potential(s: Server): nat
    requires s.slot.reconnectAttempts <= MAX_RECONNECT_ATTEMPTS
  {
    MAX_RECONNECT_ATTEMPTS - s.slot.reconnectAttempts
    + if s.slot.runtime.Some? || (s.holder.Some? && (s.holder.value.ClosingOld? || s.holder.value.CloseFailed?))
      then 1 else 0
  }

  /** The event that ends a reconnect cycle without success. */
  predicate EndsFailedCycle(s: Server, e: Event) {
    e.Hold? && s.holder.Some? && (s.holder.value.FinishingError? || s.holder.value.CloseFailed?)
  }

  /** A successful reconnect, or enabling the server. */
  predicate Renews(s: Server, e: Event) {
    e.Hold? && s.holder.Some? && (s.holder.value.Installing? || s.holder.value.ToEnable?)
  }

  /** The backoff slept in the cycle that `e` ends; a cycle whose teardown failed slept none. */
  function SleptIn(s: Server, e: Event): nat {
    if EndsFailedCycle(s, e) && s.holder.value.FinishingError? then ReconnectBackoff(s.holder.value.attempt) else 0
  }

  lemma Pow2Step(n: nat)
    requires n < MAX_RECONNECT_ATTEMPTS
    ensures ReconnectBackoff(n) == Pow2(n) && Pow2(n + 1) == Pow2(n) + Pow2(n)
  {}

  ghost predicate Spends(s: Server, e: Event, s': Server)
    requires LifecycleInv(s) && LifecycleInv(s')
  {
    && Potential(s') + (if EndsFailedCycle(s, e) then 1 else 0) <= Potential(s)
    && Pow2(s'.slot.reconnectAttempts) == Pow2(s.slot.reconnectAttempts) + SleptIn(s, e)
  }

  lemma ReconnectPotential(s: Server, pc: Pc, o: Outcome)
    requires LifecycleInv(s) && s.holder == Some(pc) && !pc.Installing? && ReconnectStep(s, pc, o).Some?
    ensures LifecycleInv(ReconnectStep(s, pc, o).value)
    ensures Spends(s, Hold(o), ReconnectStep(s, pc, o).value)
  {
    hide Published, Pow2, ReconnectBackoff;
    ReconnectLifecycle(s, pc, o);
    if s.slot.reconnectAttempts < MAX_RECONNECT_ATTEMPTS { Pow2Step(s.slot.reconnectAttempts); }
  }

  lemma RefreshPotential(s: Server, pc: Pc, o: Outcome)
    requires LifecycleInv(s) && s.holder == Some(pc) && InRefresh(pc) && RefreshStep(s, pc, o).Some?
    ensures LifecycleInv(RefreshStep(s, pc, o).value)
    ensures Spends(s, Hold(o), RefreshStep(s, pc, o).value)
  {
    hide Published, Pow2, ReconnectBackoff;
    RefreshLifecycle(s, pc, o);
  }

  lemma TogglePotential(s: Server, pc: Pc, o: Outcome)
    requires LifecycleInv(s) && s.holder == Some(pc) && !pc.ToEnable? && ToggleStep(s, pc, o).Some?
    ensures LifecycleInv(ToggleStep(s, pc, o).value)
    ensures Spends(s, Hold(o), ToggleStep(s, pc, o).value)
  {
    hide Pow2, ReconnectBackoff;
    ToggleLifecycle(s, pc, o);
  }

  lemma FailurePotential(s: Server, pc: Pc, o: Outcome)
    requires LifecycleInv(s) && s.holder == Some(pc) && !InReconnect(pc) && FailureStep(s, pc, o).Some?
    ensures LifecycleInv(FailureStep(s, pc, o).value)
    ensures Spends(s, Hold(o), FailureStep(s, pc, o).value)
  {
    hide Pow2, ReconnectBackoff;
    FailureLifecycle(s, pc, o);
  }

  /** Each unsuccessful cycle uses up budget; nothing but a renewal gives any back. */
  lemma StepPotential(s: Server, e: Event)
    requires LifecycleInv(s) && Step(s, e).Some? && !Renews(s, e)
    ensures LifecycleInv(Step(s, e).value)
    ensures Spends(s, e, Step(s, e).value)
  {
    hide Published, Pow2, ReconnectBackoff, ReconnectStep, RefreshStep, ToggleStep, FailureStep;
    StepLifecycle(s, e);
    if e.Hold? {
      var pc, o := s.holder.value, e.outcome;
      if pc == ToReconnect || InReconnect(pc) { ReconnectPotential(s, pc, o); }
      else if pc == ToEnable || pc == ToDisable || InDisable(pc) { TogglePotential(s, pc, o); }
      else if InRefresh(pc) { RefreshPotential(s, pc, o); }
      else { FailurePotential(s, pc, o); }
    }
  }

  function FailedCycles(s: Server, es: seq<Event>): nat
    requires Run(s, es).Some?
  {
    if es == [] then 0
    else
      var init := es[..|es| - 1];
      FailedCycles(s, init) + if EndsFailedCycle(Run(s, init).value, es[|es| - 1]) then 1 else 0
  }

  function Slept(s: Server, es: seq<Event>): nat
    requires Run(s, es).Some?
  {
    if es == [] then 0
    else
      var init := es[..|es| - 1];
      Slept(s, init) + SleptIn(Run(s, init).value, es[|es| - 1])
  }

  predicate NeverRenews(s: Server, es: seq<Event>)
    requires Run(s, es).Some?
  {
    es == [] || (var init := es[..|es| - 1];
                 NeverRenews(s, init) && !Renews(Run(s, init).value, es[|es| - 1]))
  }

  lemma {:induction false} RunPotential(s: Server, es: seq<Event>)
    requires LifecycleInv(s) && Run(s, es).Some? && NeverRenews(s, es)
    ensures LifecycleInv(Run(s, es).value)
    ensures FailedCycles(s, es) + Potential(Run(s, es).value) <= Potential(s)
    ensures Pow2(Run(s, es).value.slot.reconnectAttempts) == Pow2(s.slot.reconnectAttempts) + Slept(s, es)
  {
    hide Step, Pow2, SleptIn, EndsFailedCycle, Renews;
    if es == [] {
    } else {
      var init, e := es[..|es| - 1], es[|es| - 1];
      RunPotential(s, init);
      StepPotential(Run(s, init).value, e);
      StepLifecycle(Run(s, init).value, e);
    }
  }

  /** Between renewals at most six reconnect cycles fail, whatever else interleaves, and the
      backoff slept in them totals at most 31 units. */
  lemma ReconnectBudget(s: Server, es: seq<Event>)
    requires LifecycleInv(s) && Run(s, es).Some? && NeverRenews(s, es)
    ensures FailedCycles(s, es) <= 6
    ensures Slept(s, es) <= 31
  {
    hide Step;
    RunPotential(s, es);
    Pow2Values();
    Pow2Bound(Run(s, es).value.slot.reconnectAttempts);
  }

  lemma Pow2Values()
    ensures Pow2(5) == 32
  {
    assert Pow2(5) == 2 * Pow2(4) && Pow2(4) == 2 * Pow2(3) && Pow2(3) == 2 * Pow2(2);
  }

  lemma {:induction false} Pow2Bound(n: nat)
    requires n <= MAX_RECONNECT_ATTEMPTS
    ensures 1 <= Pow2(n) <= Pow2(MAX_RECONNECT_ATTEMPTS)
    decreases MAX_RECONNECT_ATTEMPTS - n
  {
    if n < MAX_RECONNECT_ATTEMPTS { Pow2Bound(n + 1); }
    Pow2Positive(n);
  }

  lemma {:induction false} Pow2Positive(n: nat)
    ensures 1 <= Pow2(n)
  {
    if n > 0 { Pow2Positive(n - 1); }
  }

  /** A permanently failed server leaves that state only by being toggled or by `close_all`;
      reconnect and refresh requests are refused. */
  lemma PermanentFailureSticks(s: Server, e: Event)
    requires LifecycleInv(s) && Step(s, e).Some? && s.slot.lifecycle == PermanentlyFailed
    requires e != CloseAll && !(e.Hold? && s.holder.Some? && (s.holder.value.ToEnable? || s.holder.value.ToDisable?))
    ensures Step(s, e).value.slot.lifecycle == PermanentlyFailed
    ensures Step(s, e).value.openCount == s.openCount && Step(s, e).value.slot.runtime.None?
  {
    hide Published;
  }
}
