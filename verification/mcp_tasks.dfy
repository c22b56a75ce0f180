/** The tasks that hold a server's lifecycle lock, as straight-line code over the slot:
    crates/remo-ext-mcp/src/manager.rs. Each is given what the environment will answer, runs
    undisturbed, and is a run of the lifecycle protocol, so that what every interleaving of the
    protocol keeps is kept by the code. */
module McpTasks {
  import opened Wrappers
  import opened McpSlot
  import opened McpCatalog
  import opened McpLifecycle
  import opened McpInvariants
  import opened McpTheorems

  datatype TaskError = Refused(error: SlotError) | OldCloseFailed | ConnectFailed | DiscoveryFailed

  /** Where a task leaves the slot, what it returns, and the transports it handed to close. */
  datatype Done = Done(slot: Slot, result: Result<(), TaskError>, closed: seq<nat>)

  /** What the environment will answer to a reconnect: to closing the old runtime, to connecting,
      as which transport, and to the listing. */
  datatype Answers = Answers(closeOk: bool, connection: Connection, transport: nat, listed: Option<seq<string>>)

  /** How `connect_runtime` ends: no transport, a transport closed again because its capabilities
      could not be read, or a runtime. */
  datatype Connection = NotOpened | OpenedAndClosed | Opened(capabilities: Option<nat>)

  /** The sections of the lock holder one after the other, with nothing in between. */
  function Held(s: Server, outcomes: seq<Outcome>): Option<Server> {
    if outcomes == [] then Some(s)
    else
      match Held(s, outcomes[..|outcomes| - 1])
      case None => None
      case Some(t) => Step(t, Hold(outcomes[|outcomes| - 1]))
  }

  /** It is a run of the protocol. */
  lemma {:induction false} HeldIsRun(s: Server, outcomes: seq<Outcome>)
    requires Held(s, outcomes).Some?
    ensures Run(s, seq(|outcomes|, i requires 0 <= i < |outcomes| => Hold(outcomes[i]))) == Held(s, outcomes)
    decreases |outcomes|
  {
    hide Step;
    var es := seq(|outcomes|, i requires 0 <= i < |outcomes| => Hold(outcomes[i]));
    if outcomes == [] {
      assert es == [];
    } else {
      var init := outcomes[..|outcomes| - 1];
      HeldIsRun(s, init);
      assert es[..|es| - 1] == seq(|init|, i requires 0 <= i < |init| => Hold(init[i]));
    }
  }

  /** So it keeps what every run keeps. */
  lemma HeldKeepsInv(s: Server, outcomes: seq<Outcome>)
    requires Inv(s) && Held(s, outcomes).Some?
    ensures Inv(Held(s, outcomes).value)
  {
    hide Inv, Run, Held;
    HeldIsRun(s, outcomes);
    RunInv(s, seq(|outcomes|, i requires 0 <= i < |outcomes| => Hold(outcomes[i])));
  }

  lemma HeldSnoc(s: Server, outcomes: seq<Outcome>, t: Server, o: Outcome)
    requires Held(s, outcomes) == Some(t)
    ensures Held(s, outcomes + [o]) == Step(t, Hold(o))
  {
    assert (outcomes + [o])[..|outcomes|] == outcomes;
  }

  lemma {:induction false} HeldConcat(s: Server, a: seq<Outcome>, t: Server, b: seq<Outcome>)
    requires Held(s, a) == Some(t)
    ensures Held(s, a + b) == Held(t, b)
    decreases |b|
  {
    hide Step;
    if b == [] {
      assert a + b == a;
    } else {
      assert (a + b)[..|a + b| - 1] == a + b[..|b| - 1];
      HeldConcat(s, a, t, b[..|b| - 1]);
    }
  }

  // ---- Reconnecting ------------------------------------------------------------------------

  /** The second half of a reconnect, from the backoff on. */
  function Reopened(slot: Slot, name: string, generation: nat, a: Answers): Done {
    match a.connection
    case NotOpened => Done(slot.ReconnectFailure(), Err(ConnectFailed), [])
    case OpenedAndClosed => Done(slot.ReconnectFailure(), Err(ConnectFailed), [a.transport])
    case Opened(capabilities) =>
      if a.listed.None? || Published(name, a.listed.value).Err? then
        Done(slot.ReconnectFailure(), Err(DiscoveryFailed), [a.transport])
      else
        Done(slot.FinishReconnect(Runtime(generation, a.transport, capabilities), Published(name, a.listed.value).value),
             Ok(()), [])
  }

  function Reconnected(slot: Slot, name: string, a: Answers): Done {
    var (begun, ticket) := slot.BeginReconnect();
    match ticket
    case Err(e) => Done(begun, Err(Refused(e)), [])
    case Ok(t) =>
      if t.detached.None? then Reopened(begun, name, t.generation, a)
      else
        var former := t.detached.value.transport;
        if !a.closeOk then Done(begun.ReconnectCloseFailure(), Err(OldCloseFailed), [former])
        else
          var d := Reopened(begun, name, t.generation, a);
          d.(closed := [former] + d.closed)
  }

  /** `reconnect_server_locked`. */
  method ReconnectServerLocked(slot: McpServerSlot, name: string, a: Answers)
    returns (r: Result<(), TaskError>, closed: seq<nat>)
    modifies slot
    ensures Done(slot.State(), r, closed) == Reconnected(old(slot.State()), name, a)
    ensures r.Ok? <==> CanReconnect(old(slot.State()), name, a)
    ensures old(slot.State()).Valid() ==> slot.State().Valid()
    ensures old(slot.State()).Valid() && r.Ok? ==>
              multiset(closed) + Live(slot.State()) == Live(old(slot.State())) + multiset{a.transport}
  {
    ReconnectSucceedsIff(slot.State(), name, a);
    if slot.State().Valid() {
      ReconnectKeepsValid(slot.State(), name, a);
      SuccessConserves(slot.State(), name, a);
    }
    hide CanReconnect, Live, Slot.Valid;
    hide Published, Slot.FinishReconnect, Slot.ReconnectFailure, Slot.ReconnectCloseFailure, Slot.BeginReconnect;
    closed := [];
    var ticket := slot.BeginReconnectTransition();
    if ticket.Err? { return Err(Refused(ticket.error)), closed; }
    var t := ticket.value;
    if t.detached.Some? {
      closed := [t.detached.value.transport];
      if !a.closeOk {
        slot.FinishReconnectCloseFailure();
        return Err(OldCloseFailed), closed;
      }
    }
    if !a.connection.Opened? {
      if a.connection.OpenedAndClosed? { closed := closed + [a.transport]; }
      slot.FinishReconnectFailure();
      return Err(ConnectFailed), closed;
    }
    var catalog := Err("");
    if a.listed.Some? { catalog := BuildPublishedTools(name, a.listed.value); }
    if catalog.Err? {
      closed := closed + [a.transport];
      slot.FinishReconnectFailure();
      return Err(DiscoveryFailed), closed;
    }
    slot.FinishReconnectSuccess(Runtime(t.generation, a.transport, a.connection.capabilities), catalog.value);
    r := Ok(());
  }

  /** What a reconnect needs of the slot and of the environment. */
  ghost predicate CanReconnect(slot: Slot, name: string, a: Answers) {
    && slot.lifecycle != Disabled && slot.reconnectAttempts < MAX_RECONNECT_ATTEMPTS
    && (slot.runtime.Some? ==> a.closeOk) && a.connection.Opened?
    && a.listed.Some? && Publishable(name, a.listed.value)
  }

  /** A slot that has just been connected. */
  predicate Installed(slot: Slot, runtime: Runtime, catalog: Catalog) {
    && slot.lifecycle == Connected && slot.runtime == Some(runtime)
    && slot.published == Some(Snapshot(runtime.generation, catalog))
    && slot.discoveryFailures == 0 && slot.rpcFailures == 0
  }

  /** A slot after a cycle that failed at the cost of `attempts`; the last attempt is final. */
  predicate Failed(before: Slot, after: Slot, attempts: nat) {
    && after.runtime.None? && after.reconnectAttempts == before.reconnectAttempts + attempts
    && after.lifecycle == (if after.reconnectAttempts == MAX_RECONNECT_ATTEMPTS then PermanentlyFailed else Disconnected)
    && after.published == (if after.lifecycle == Disconnected then before.published else None)
    && after.discoveryFailures == before.discoveryFailures && after.rpcFailures == before.rpcFailures
  }

  /** A reconnect succeeds exactly when nothing it needs fails; success puts the new transport
      into the slot under the generation that was next, with the listed catalogue and clean
      budgets. */
  lemma ReconnectSucceedsIff(slot: Slot, name: string, a: Answers)
    ensures var d := Reconnected(slot, name, a);
            && (d.result.Ok? <==> CanReconnect(slot, name, a))
            && (d.result.Ok? ==> Published(name, a.listed.value).Ok?)
            && (d.result.Ok? ==> Installed(d.slot, Runtime(slot.nextGeneration, a.transport, a.connection.capabilities),
                                           Published(name, a.listed.value).value))
  {
    hide Published, Publishable;
    if a.listed.Some? { PublishedIff(name, a.listed.value); }
  }

  /** A failed reconnect leaves a disabled slot as it was, and any other without a runtime and one
      attempt further on, unless it was refused or the old transport's close failed. */
  lemma ReconnectFails(slot: Slot, name: string, a: Answers)
    requires slot.Valid() && Reconnected(slot, name, a).result.Err?
    ensures var d := Reconnected(slot, name, a);
            if slot.lifecycle == Disabled then d.slot == slot
            else Failed(slot, d.slot, if d.result.error.Refused? || d.result.error.OldCloseFailed? then 0 else 1)
  {
    hide Published;
  }

  lemma ReconnectKeepsValid(slot: Slot, name: string, a: Answers)
    requires slot.Valid()
    ensures Reconnected(slot, name, a).slot.Valid()
  {
    hide Published;
  }

  function Live(slot: Slot): multiset<nat> {
    if slot.runtime.Some? then multiset{slot.runtime.value.transport} else multiset{}
  }

  /** A transport has been opened by the time a reconnect ends with `r`. */
  predicate HasOpened(r: Result<(), TaskError>, a: Answers) {
    !a.connection.NotOpened? && (r.Err? ==> !r.error.Refused? && !r.error.OldCloseFailed?)
  }

  lemma LiveAfter(slot: Slot, runtime: Runtime, catalog: Catalog)
    ensures slot.runtime.None? ==> Live(slot.ReconnectFailure()) == multiset{}
    ensures Live(slot.FinishReconnect(runtime, catalog)) == multiset{runtime.transport}
  {}

  function OpenedBy(a: Answers): multiset<nat> {
    if a.connection.NotOpened? then multiset{} else multiset{a.transport}
  }

  lemma ReopenConserves(slot: Slot, name: string, generation: nat, a: Answers)
    requires slot.runtime.None?
    ensures Kept(Reopened(slot, name, generation, a)) == OpenedBy(a)
    ensures HasOpened(Reopened(slot, name, generation, a).result, a) <==> !a.connection.NotOpened?
  {
    hide Published, Slot.ReconnectFailure, Slot.FinishReconnect, Live;
    var d := Reopened(slot, name, generation, a);
    match a.connection
    case NotOpened =>
      LiveAfter(slot, Runtime(generation, a.transport, None), map[]);
    case OpenedAndClosed =>
      LiveAfter(slot, Runtime(generation, a.transport, None), map[]);
      assert multiset(d.closed) == multiset{a.transport};
    case Opened(capabilities) =>
      var runtime := Runtime(generation, a.transport, capabilities);
      if a.listed.Some? && Published(name, a.listed.value).Ok? {
        LiveAfter(slot, runtime, Published(name, a.listed.value).value);
      } else {
        LiveAfter(slot, runtime, map[]);
        assert multiset(d.closed) == multiset{a.transport};
      }
  }

  lemma CloseThenReopen(t: nat, closed: seq<nat>, live: multiset<nat>, added: multiset<nat>)
    requires multiset(closed) + live == added
    ensures multiset([t] + closed) + live == multiset{t} + added
  {
    assert multiset([t] + closed) == multiset{t} + multiset(closed);
  }

  lemma BeginsWith(slot: Slot)
    requires slot.Valid()
    ensures var (begun, ticket) := slot.BeginReconnect();
            && (ticket.Err? ==> Live(begun) == Live(slot))
            && (ticket.Ok? ==> begun.runtime.None? && ticket.value.detached == slot.runtime)
  {}

  lemma LiveIs(slot: Slot)
    ensures Live(slot) == if slot.runtime.Some? then multiset{slot.runtime.value.transport} else multiset{}
    ensures slot.runtime.None? ==> Live(slot.ReconnectCloseFailure()) == multiset{}
  {}

  function Kept(d: Done): multiset<nat> {
    multiset(d.closed) + Live(d.slot)
  }

  function OpenedIn(d: Done, a: Answers): multiset<nat> {
    if HasOpened(d.result, a) then OpenedBy(a) else multiset{}
  }

  /** Every transport that was live or is opened stays in the slot or is closed once. */
  lemma ReconnectConserves(slot: Slot, name: string, a: Answers)
    requires slot.Valid()
    ensures Kept(Reconnected(slot, name, a)) == Live(slot) + OpenedIn(Reconnected(slot, name, a), a)
  {
    hide Published, Reopened, Live, Slot.BeginReconnect, OpenedBy, Slot.ReconnectCloseFailure, Slot.Valid;
    var (begun, ticket) := slot.BeginReconnect();
    BeginsWith(slot);
    LiveIs(slot);
    LiveIs(begun);
    NothingOpened(a);
    if ticket.Ok? {
      var d := Reopened(begun, name, ticket.value.generation, a);
      ReopenConserves(begun, name, ticket.value.generation, a);
      if slot.runtime.Some? {
        CloseThenReopen(slot.runtime.value.transport, d.closed, Live(d.slot), OpenedBy(a));
      }
    }
  }

  lemma SuccessConserves(slot: Slot, name: string, a: Answers)
    requires slot.Valid()
    ensures Reconnected(slot, name, a).result.Ok? ==>
              Kept(Reconnected(slot, name, a)) == Live(slot) + multiset{a.transport}
  {
    hide Published, Live, Reconnected, Slot.Valid;
    ReconnectConserves(slot, name, a);
    ReconnectSucceedsIff(slot, name, a);
  }

  lemma NothingOpened(a: Answers)
    ensures a.connection.NotOpened? ==> OpenedBy(a) == multiset{}
  {}

  /** The next section of the lock holder. */
  lemma Next(start: Server, outcomes: seq<Outcome>, now: Server, pc: Pc, o: Outcome)
    returns (outcomes': seq<Outcome>, now': Server)
    requires Held(start, outcomes) == Some(now) && now.holder == Some(pc) && HolderStep(now, pc, o).Some?
    ensures Held(start, outcomes') == Some(now') && now' == HolderStep(now, pc, o).value
  {
    hide Held, HolderStep;
    HeldSnoc(start, outcomes, now, o);
    outcomes', now' := outcomes + [o], Step(now, Hold(o)).value;
  }

  /** A protocol state is where a task that was started in `now` ends. */
  predicate EndsWith(now: Server, end: Server, d: Done) {
    && end.slot == d.slot && end.holder == Some(Finished) && end.closed == now.closed + multiset(d.closed)
    && end.name == now.name && end.ops == now.ops && end.detached == now.detached
  }

  lemma FailsCycle(start: Server, before: seq<Outcome>, now: Server, attempt: nat)
    returns (outcomes: seq<Outcome>, end: Server)
    requires Held(start, before) == Some(now) && now.holder == Some(FinishingError(attempt))
    ensures Held(start, outcomes) == Some(end)
    ensures end == now.(slot := now.slot.ReconnectFailure(), holder := Some(Finished))
  {
    hide Held, Slot.ReconnectFailure;
    outcomes, end := Next(start, before, now, FinishingError(attempt), Proceed);
  }

  lemma ReopensAsRun(start: Server, before: seq<Outcome>, now: Server, generation: nat, attempt: nat, a: Answers)
    returns (outcomes: seq<Outcome>, end: Server)
    requires Held(start, before) == Some(now) && now.holder == Some(Sleeping(generation, attempt))
    requires now.openCount == a.transport
    ensures Held(start, outcomes) == Some(end)
    ensures EndsWith(now, end, Reopened(now.slot, now.name, generation, a))
  {
    hide Held, Published, Slot.ReconnectFailure, Slot.FinishReconnect;
    var sleeping := Sleeping(generation, attempt);
    if a.connection.NotOpened? {
      outcomes, end := Next(start, before, now, sleeping, Fail);
      outcomes, end := FailsCycle(start, outcomes, end, attempt);
    } else {
      outcomes, end := Next(start, before, now, sleeping, Proceed);
      var reading := ReadingCapabilities(generation, attempt, a.transport);
      if a.connection.OpenedAndClosed? {
        outcomes, end := Next(start, outcomes, end, reading, Fail);
        outcomes, end := FailsCycle(start, outcomes, end, attempt);
      } else {
        outcomes, end := Next(start, outcomes, end, reading, Capabilities(a.connection.capabilities));
        outcomes, end := DiscoversAsRun(start, outcomes, end, attempt, generation, a);
      }
    }
  }

  lemma DiscoversAsRun(start: Server, before: seq<Outcome>, now: Server, attempt: nat, generation: nat, a: Answers)
    returns (outcomes: seq<Outcome>, end: Server)
    requires Held(start, before) == Some(now) && a.connection.Opened?
    requires now.holder == Some(Discovering(attempt, Runtime(generation, a.transport, a.connection.capabilities)))
    ensures Held(start, outcomes) == Some(end)
    ensures EndsWith(now, end, Reopened(now.slot, now.name, generation, a))
  {
    hide Held, Published, Slot.ReconnectFailure, Slot.FinishReconnect;
    var runtime := Runtime(generation, a.transport, a.connection.capabilities);
    outcomes, end := Next(start, before, now, Discovering(attempt, runtime),
                          if a.listed.Some? then Tools(a.listed.value) else Fail);
    if a.listed.None? || Published(now.name, a.listed.value).Err? {
      outcomes, end := Next(start, outcomes, end, ClosingFresh(attempt, runtime), Proceed);
      outcomes, end := FailsCycle(start, outcomes, end, attempt);
    } else {
      outcomes, end := Next(start, outcomes, end, Installing(runtime, Published(now.name, a.listed.value).value),
                            Proceed);
    }
  }

  /** The straight-line code is a run of the protocol that ends in the same slot with the same
      closes. */
  lemma ReconnectIsARun(start: Server, before: seq<Outcome>, now: Server, a: Answers)
    returns (outcomes: seq<Outcome>, end: Server)
    requires Held(start, before) == Some(now) && now.holder == Some(ToReconnect) && now.openCount == a.transport
    ensures Held(start, outcomes) == Some(end)
    ensures EndsWith(now, end, Reconnected(now.slot, now.name, a))
  {
    hide Held, Published, Reopened, Slot.ReconnectCloseFailure, Slot.BeginReconnect;
    outcomes, end := Next(start, before, now, ToReconnect, Proceed);
    var (slot, ticket) := now.slot.BeginReconnect();
    if ticket.Ok? {
      var t := ticket.value;
      if t.detached.Some? {
        outcomes, end := ClosesOld(start, outcomes, end, t.generation, t.attempt, t.detached.value, a.closeOk);
      }
      if t.detached.None? || a.closeOk {
        outcomes, end := ReopensAsRun(start, outcomes, end, t.generation, t.attempt, a);
      }
    }
  }

  lemma ClosesOld(
      start: Server, before: seq<Outcome>, now: Server, generation: nat, attempt: nat, detached: Runtime, closeOk: bool)
    returns (outcomes: seq<Outcome>, end: Server)
    requires Held(start, before) == Some(now) && now.holder == Some(ClosingOld(generation, attempt, detached))
    ensures Held(start, outcomes) == Some(end)
    ensures end == now.(closed := now.closed + multiset{detached.transport},
                        slot := if closeOk then now.slot else now.slot.ReconnectCloseFailure(),
                        holder := Some(if closeOk then Sleeping(generation, attempt) else Finished))
  {
    hide Held, Slot.ReconnectCloseFailure;
    outcomes, end := Next(start, before, now, ClosingOld(generation, attempt, detached),
                          if closeOk then Proceed else Fail);
    if !closeOk { outcomes, end := Next(start, outcomes, end, Pc.CloseFailed, Proceed); }
  }

  // ---- Recording a failure -----------------------------------------------------------------

  function ReconnectIf(slot: Slot, name: string, kind: OpKind, a: Answers): Done {
    if slot.Failures(kind) >= FAILURE_THRESHOLD then Reconnected(slot, name, a).(result := Ok(()))
    else Done(slot, Ok(()), [])
  }

  function FailureRecorded(slot: Slot, name: string, kind: OpKind, generation: nat, a: Answers): Done {
    var (marked, applied) := slot.MarkResult(generation, kind, false);
    if applied then ReconnectIf(marked, name, kind, a) else Done(slot, Ok(()), [])
  }

  /** `record_runtime_operation_failure`. */
  method RecordRuntimeOperationFailure(slot: McpServerSlot, name: string, kind: OpKind, generation: nat, a: Answers)
    returns (closed: seq<nat>)
    modifies slot
    ensures Done(slot.State(), Ok(()), closed) == FailureRecorded(old(slot.State()), name, kind, generation, a)
    ensures old(slot.State()).Valid() && old(slot.State()).BelowThreshold() ==>
              slot.State().Valid() && (slot.lifecycle == Connected ==> slot.State().BelowThreshold())
  {
    hide Reconnected;
    if slot.State().Valid() && slot.State().BelowThreshold() {
      FailureKeepsBelowThreshold(slot.State(), name, kind, generation, a);
    }
    hide Slot.Valid, Slot.BelowThreshold;
    closed := [];
    var applied := slot.MarkRuntimeOperationResultIfCurrent(generation, kind, false);
    if !applied { return; }
    if slot.State().Failures(kind) >= FAILURE_THRESHOLD {
      var r;
      r, closed := ReconnectServerLocked(slot, name, a);
    }
  }

  /** A connected slot below both thresholds is so again when the lock is given back, whatever
      failed; and, when a new transport is another than the present one, the runtime is replaced or
      given up exactly when the failure was the third in a row of its kind and one of the present
      runtime's. */
  lemma FailureKeepsBelowThreshold(slot: Slot, name: string, kind: OpKind, generation: nat, a: Answers)
    requires slot.Valid() && slot.BelowThreshold()
    ensures var d := FailureRecorded(slot, name, kind, generation, a);
            && d.slot.Valid() && (d.slot.lifecycle == Connected ==> d.slot.BelowThreshold())
            && (slot.runtime.Some? && slot.runtime.value.transport != a.transport ==>
                  (d.slot.runtime != slot.runtime <==>
                     slot.RunsGeneration(generation) && slot.lifecycle == Connected
                     && slot.Failures(kind) == 2))
  {
    hide Published, Reconnected, Publishable, Slot.BeginReconnect;
    var marked := slot.MarkResult(generation, kind, false).0;
    ReconnectKeepsValid(marked, name, a);
    ReconnectSucceedsIff(marked, name, a);
    if Reconnected(marked, name, a).result.Err? { ReconnectFails(marked, name, a); }
  }

  // ---- Refreshing --------------------------------------------------------------------------

  /** `refresh_server`: only a connected slot is listed again, and only a disconnected one is
      reconnected at once. */
  function Refreshed(slot: Slot, name: string, listed: Option<seq<string>>, a: Answers): Done {
    if slot.lifecycle == Disconnected then Reconnected(slot, name, a).(result := Ok(()))
    else if slot.lifecycle != Connected || slot.Lease().Err? then Done(slot, Ok(()), [])
    else
      var generation := slot.Lease().value.generation;
      if listed.Some? && Published(name, listed.value).Ok? then
        Done(slot.ApplyCatalog(generation, Published(name, listed.value).value).0, Ok(()), [])
      else ReconnectIf(slot.MarkResult(generation, Discovery, false).0, name, Discovery, a)
  }

  method RefreshServer(slot: McpServerSlot, name: string, listed: Option<seq<string>>, a: Answers)
    returns (closed: seq<nat>)
    modifies slot
    ensures Done(slot.State(), Ok(()), closed) == Refreshed(old(slot.State()), name, listed, a)
    ensures old(slot.State()).Valid() && old(slot.State()).BelowThreshold() && old(slot.lifecycle) == Connected ==>
              slot.State().Valid() && (slot.lifecycle == Connected ==> slot.State().BelowThreshold())
  {
    hide Reconnected, Published;
    if slot.State().Valid() && slot.State().BelowThreshold() && slot.lifecycle == Connected {
      RefreshServes(slot.State(), name, listed, a);
    }
    hide Slot.Valid, Slot.BelowThreshold;
    closed := [];
    var r;
    if slot.lifecycle == Disconnected {
      r, closed := ReconnectServerLocked(slot, name, a);
      return;
    }
    if slot.lifecycle != Connected { return; }
    var lease := slot.RuntimeLease();
    if lease.Err? { return; }
    var catalog := Err("");
    if listed.Some? { catalog := BuildPublishedTools(name, listed.value); }
    if catalog.Ok? {
      var applied := slot.ApplyCatalogIfCurrent(lease.value.generation, catalog.value);
    } else {
      var applied := slot.MarkRuntimeOperationResultIfCurrent(lease.value.generation, Discovery, false);
      if slot.State().Failures(Discovery) >= FAILURE_THRESHOLD {
        r, closed := ReconnectServerLocked(slot, name, a);
      }
    }
  }

  /** After a refresh a connected slot serves the new listing, or its last good one while fewer
      than three listings have failed in a row; what it serves always belongs to the
      runtime it holds. */
  lemma RefreshServes(slot: Slot, name: string, listed: Option<seq<string>>, a: Answers)
    requires slot.Valid() && slot.lifecycle == Connected && slot.BelowThreshold()
    ensures var d := Refreshed(slot, name, listed, a);
            && d.slot.Valid()
            && (listed.Some? && Publishable(name, listed.value) ==>
                  d.slot.runtime == slot.runtime && d.slot.discoveryFailures == 0 && d.slot.published.Some?
                  && Published(name, listed.value) == Ok(d.slot.published.value.catalog))
            && (!(listed.Some? && Publishable(name, listed.value)) && slot.discoveryFailures < 2 ==>
                  d.slot.runtime == slot.runtime && d.slot.published == slot.published
                  && d.slot.discoveryFailures == slot.discoveryFailures + 1)
            && (d.slot.lifecycle == Connected ==> d.slot.BelowThreshold())
  {
    hide Published, Reconnected, Publishable, Slot.BeginReconnect;
    if listed.Some? { PublishedIff(name, listed.value); }
    var marked := slot.MarkResult(slot.runtime.value.generation, Discovery, false).0;
    ReconnectKeepsValid(marked, name, a);
    ReconnectSucceedsIff(marked, name, a);
    if Reconnected(marked, name, a).result.Err? { ReconnectFails(marked, name, a); }
  }

  /** The new transport runs under the generation that was next. */
  predicate RunsAnew(before: Slot, after: Slot, a: Answers) {
    after.lifecycle == Connected && a.connection.Opened?
    && after.runtime == Some(Runtime(before.nextGeneration, a.transport, a.connection.capabilities))
  }

  /** The third failed listing in a row, and finding the server disconnected, both lead to a
      reconnect; in every other state a refresh does nothing. */
  lemma RefreshElsewhere(slot: Slot, name: string, listed: Option<seq<string>>, a: Answers)
    requires slot.Valid()
    ensures var d := Refreshed(slot, name, listed, a);
            && (slot.lifecycle == Disconnected && CanReconnect(slot, name, a) ==> RunsAnew(slot, d.slot, a))
            && (slot.lifecycle == Connected && slot.discoveryFailures == 2 && CanReconnect(slot, name, a) ==>
                  (listed.Some? && Publishable(name, listed.value)) || RunsAnew(slot, d.slot, a))
            && (slot.lifecycle != Connected && slot.lifecycle != Disconnected ==> d.slot == slot && d.closed == [])
  {
    hide Published, Reconnected, Publishable, Slot.BeginReconnect;
    if listed.Some? { PublishedIff(name, listed.value); }
    ReconnectSucceedsIff(slot, name, a);
    if slot.lifecycle == Connected {
      var marked := slot.MarkResult(slot.runtime.value.generation, Discovery, false).0;
      ReconnectSucceedsIff(marked, name, a);
    }
  }

  // ---- Toggling ----------------------------------------------------------------------------

  function TurnedOff(slot: Slot, closeOk: bool): Done {
    var (begun, prior) := slot.BeginDisable();
    if prior.None? then Done(begun.FinishDisable(), Ok(()), [])
    else Done(begun.FinishDisable(), if closeOk then Ok(()) else Err(OldCloseFailed), [prior.value.transport])
  }

  function Toggled(slot: Slot, name: string, enabled: bool, a: Answers): Done {
    if enabled then Reconnected(slot.PrepareEnable(), name, a) else TurnedOff(slot, a.closeOk)
  }

  /** `toggle`, with `disable_server`. */
  method Toggle(slot: McpServerSlot, name: string, enabled: bool, a: Answers)
    returns (r: Result<(), TaskError>, closed: seq<nat>)
    modifies slot
    ensures Done(slot.State(), r, closed) == Toggled(old(slot.State()), name, enabled, a)
    ensures old(slot.State()).Valid() ==> slot.State().Valid()
    ensures old(slot.State()).Valid() && !enabled ==>
              slot.lifecycle == Disabled && multiset(closed) == Live(old(slot.State()))
  {
    hide Reconnected;
    if slot.State().Valid() { ToggleLaw(slot.State(), name, enabled, a); }
    hide Slot.Valid, Live;
    if enabled {
      slot.PrepareEnable();
      r, closed := ReconnectServerLocked(slot, name, a);
    } else {
      closed := [];
      var prior := slot.BeginDisableTransition();
      if prior.Some? { closed := [prior.value.transport]; }
      slot.FinishDisableTransition();
      r := if prior.Some? && !a.closeOk then Err(OldCloseFailed) else Ok(());
    }
  }

  /** Enabling gives every server, a permanently failed one too, a new budget: whether it succeeds
      depends on the environment alone. Disabling leaves nothing behind but closed transports. */
  lemma ToggleLaw(slot: Slot, name: string, enabled: bool, a: Answers)
    requires slot.Valid()
    ensures var d := Toggled(slot, name, enabled, a);
            && d.slot.Valid()
            && (enabled ==>
                  (d.result.Ok? <==> (slot.runtime.Some? ==> a.closeOk) && a.connection.Opened?
                                     && a.listed.Some? && Publishable(name, a.listed.value)))
            && (enabled && d.result.Err? ==> d.slot.lifecycle == Disconnected && d.slot.runtime.None?)
            && (!enabled ==> d.slot.lifecycle == Disabled && d.slot.runtime.None? && d.slot.published.None?
                             && multiset(d.closed) == Live(slot))
  {
    hide Published, Publishable;
    if enabled {
      hide Reconnected;
      var begun := slot.PrepareEnable();
      ReconnectKeepsValid(begun, name, a);
      ReconnectSucceedsIff(begun, name, a);
      if Reconnected(begun, name, a).result.Err? { ReconnectFails(begun, name, a); }
    }
  }

  // ---- All of them are runs of the protocol ------------------------------------------------

  lemma ReconnectIfIsARun(start: Server, before: seq<Outcome>, now: Server, kind: OpKind, a: Answers)
    returns (outcomes: seq<Outcome>, end: Server)
    requires Held(start, before) == Some(now) && now.openCount == a.transport
    requires now.holder == Some(FailureChecking(kind)) || (kind == Discovery && now.holder == Some(RefreshChecking))
    ensures Held(start, outcomes) == Some(end) && EndsWith(now, end, ReconnectIf(now.slot, now.name, kind, a))
  {
    hide Held, Reconnected;
    outcomes, end := Next(start, before, now, now.holder.value, Proceed);
    if now.slot.Failures(kind) >= FAILURE_THRESHOLD {
      outcomes, end := ReconnectIsARun(start, outcomes, end, a);
    }
  }

  lemma FailureIsARun(start: Server, kind: OpKind, lease: Runtime, a: Answers)
    returns (outcomes: seq<Outcome>, end: Server)
    requires start.holder == Some(FailureMarking(kind, lease)) && start.openCount == a.transport
    ensures Held(start, outcomes) == Some(end)
    ensures EndsWith(start, end, FailureRecorded(start.slot, start.name, kind, lease.generation, a))
  {
    hide Held, Reconnected, ReconnectIf;
    HeldNothing(start);
    outcomes, end := Next(start, [], start, FailureMarking(kind, lease), Proceed);
    if start.slot.MarkResult(lease.generation, kind, false).1 {
      outcomes, end := ReconnectIfIsARun(start, outcomes, end, kind, a);
    }
  }

  lemma HeldNothing(s: Server)
    ensures Held(s, []) == Some(s)
  {}

  lemma RefreshIsARun(start: Server, listed: Option<seq<string>>, a: Answers)
    returns (outcomes: seq<Outcome>, end: Server)
    requires start.holder == Some(RefreshStart) && start.openCount == a.transport
    ensures Held(start, outcomes) == Some(end)
    ensures EndsWith(start, end, Refreshed(start.slot, start.name, listed, a))
  {
    hide Held, Reconnected, ReconnectIf, Published, ReconnectStep, ToggleStep, FailureStep;
    HeldNothing(start);
    outcomes, end := Next(start, [], start, RefreshStart, Proceed);
    if start.slot.lifecycle == Disconnected {
      outcomes, end := ReconnectIsARun(start, outcomes, end, a);
    } else if start.slot.lifecycle == Connected {
      outcomes, end := Next(start, outcomes, end, RefreshLeasing, Proceed);
      if start.slot.Lease().Ok? {
        var lease := start.slot.Lease().value;
        outcomes, end := Next(start, outcomes, end, RefreshListing(lease),
                              if listed.Some? then Tools(listed.value) else Fail);
        outcomes, end := ListedIsARun(start, outcomes, end, lease, listed, a);
      }
    }
  }

  lemma ListedIsARun(
      start: Server, before: seq<Outcome>, now: Server, lease: Runtime, listed: Option<seq<string>>, a: Answers)
    returns (outcomes: seq<Outcome>, end: Server)
    requires Held(start, before) == Some(now) && now.openCount == a.transport
    requires now.slot.lifecycle == Connected && now.slot.Lease() == Ok(lease)
    requires now.holder == Some(if listed.Some? && Published(now.name, listed.value).Ok?
                                then RefreshApplying(lease, Published(now.name, listed.value).value)
                                else RefreshFailing(lease))
    ensures Held(start, outcomes) == Some(end) && EndsWith(now, end, Refreshed(now.slot, now.name, listed, a))
  {
    hide Held, Reconnected, ReconnectIf, Published, ReconnectStep, ToggleStep, FailureStep;
    outcomes, end := Next(start, before, now, now.holder.value, Proceed);
    if now.holder.value.RefreshFailing? {
      outcomes, end := ReconnectIfIsARun(start, outcomes, end, Discovery, a);
    }
  }

  lemma ToggleIsARun(start: Server, enabled: bool, a: Answers) returns (outcomes: seq<Outcome>, end: Server)
    requires start.holder == Some(if enabled then ToEnable else ToDisable) && start.openCount == a.transport
    ensures Held(start, outcomes) == Some(end)
    ensures EndsWith(start, end, Toggled(start.slot, start.name, enabled, a))
  {
    hide Held, Reconnected, Published, ReconnectStep, RefreshStep, FailureStep;
    HeldNothing(start);
    outcomes, end := Next(start, [], start, start.holder.value, Proceed);
    if enabled {
      outcomes, end := ReconnectIsARun(start, outcomes, end, a);
    } else {
      var prior := start.slot.BeginDisable().1;
      outcomes, end := Next(start, outcomes, end, DisableClosing(prior), if a.closeOk then Proceed else Fail);
      outcomes, end := Next(start, outcomes, end, DisableFinishing, Proceed);
    }
  }
}
