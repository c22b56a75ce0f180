/** What a server contributes to the registry, and which events change it:
    crates/remo-ext-mcp/src/manager.rs. */
module McpOffers {
  import opened Saturating
  import opened Wrappers
  import opened McpSlot
  import opened McpCatalog
  import opened McpLifecycle
  import opened McpInvariants
  import opened McpTheorems
  import opened McpTasks
  import opened McpRegistry

  /** The last good catalogue, for as long as the server is neither turned off nor given up. */
  function Offered(slot: Slot): Catalog {
    if slot.lifecycle in {Connecting, Lifecycle.Connected, Reconnecting, Disconnected} && slot.published.Some? then
      slot.published.value.catalog
    else map[]
  }

  /** The union of the registry depends on the offers alone. */
  lemma {:induction false} UnionByOffers(a: seq<Slot>, b: seq<Slot>)
    requires |a| == |b| && forall i :: 0 <= i < |a| ==> Offered(a[i]) == Offered(b[i])
    ensures Union(a) == Union(b)
    decreases |a|
  {
    if a == [] {
    } else {
      var n := |a| - 1;
      UnionByOffers(a[..n], b[..n]);
      UnionWith(a);
      UnionWith(b);
    }
  }

  lemma UnionWith(slots: seq<Slot>)
    requires slots != []
    ensures var before, offer := Union(slots[..|slots| - 1]), Offered(slots[|slots| - 1]);
            Union(slots) == if before.None? || !(before.value.Keys !! offer.Keys) then None else Some(before.value + offer)
  {
    var before := Union(slots[..|slots| - 1]);
    if before.Some? { assert before.value + map[] == before.value; }
  }

  /** The events that may change what a server offers: installing or applying a catalogue, turning
      the server off, and the last failed cycle. */
  predicate ChangesOffer(s: Server, e: Event) {
    e == CloseAll || (e.Hold? && s.holder.Some? && SectionChangesOffer(s.slot, s.holder.value))
  }

  predicate SectionChangesOffer(slot: Slot, pc: Pc) {
    || pc.Installing? || pc.RefreshApplying? || pc.ToDisable?
    || (pc.FinishingError? && slot.reconnectAttempts == MAX_RECONNECT_ATTEMPTS - 1)
  }

  lemma ReconnectKeepsOffer(s: Server, pc: Pc, o: Outcome)
    requires LifecycleInv(s) && s.holder == Some(pc) && !SectionChangesOffer(s.slot, pc)
    requires ReconnectStep(s, pc, o).Some?
    ensures Offered(ReconnectStep(s, pc, o).value.slot) == Offered(s.slot)
  {
    hide Published;
  }

  lemma ToggleKeepsOffer(s: Server, pc: Pc, o: Outcome)
    requires LifecycleInv(s) && s.holder == Some(pc) && !SectionChangesOffer(s.slot, pc)
    requires ToggleStep(s, pc, o).Some?
    ensures Offered(ToggleStep(s, pc, o).value.slot) == Offered(s.slot)
  {}

  lemma RefreshKeepsOffer(s: Server, pc: Pc, o: Outcome)
    requires s.holder == Some(pc) && !SectionChangesOffer(s.slot, pc)
    requires RefreshStep(s, pc, o).Some?
    ensures Offered(RefreshStep(s, pc, o).value.slot) == Offered(s.slot)
  {
    hide Published;
  }

  lemma FailureKeepsOffer(s: Server, pc: Pc, o: Outcome)
    requires FailureStep(s, pc, o).Some?
    ensures Offered(FailureStep(s, pc, o).value.slot) == Offered(s.slot)
  {}

  /** No other event does, and so a reconnect cycle, from the moment the old runtime is taken to
      its failure, takes no tool away. */
  lemma StepKeepsOffer(s: Server, e: Event)
    requires LifecycleInv(s) && Step(s, e).Some? && !ChangesOffer(s, e)
    ensures Offered(Step(s, e).value.slot) == Offered(s.slot)
  {
    hide ReconnectStep, ToggleStep, RefreshStep, FailureStep, LifecycleInv;
    if e.Hold? {
      var pc, o := s.holder.value, e.outcome;
      if pc == ToReconnect || InReconnect(pc) { ReconnectKeepsOffer(s, pc, o); }
      else if pc == ToEnable || pc == ToDisable || InDisable(pc) { ToggleKeepsOffer(s, pc, o); }
      else if InRefresh(pc) { RefreshKeepsOffer(s, pc, o); }
      else { FailureKeepsOffer(s, pc, o); }
    }
  }

  /** A reconnect that fails without using up its budget leaves the offer as it was; one that
      succeeds replaces it by the new listing; the one that uses it up withdraws it. (No task
      finds the server half turned off when it takes the lock.) */
  lemma ReconnectOffers(slot: Slot, name: string, a: Answers)
    requires slot.Valid()
    ensures var d := Reconnected(slot, name, a);
            && (d.result.Err? && d.slot.lifecycle != PermanentlyFailed && slot.lifecycle != Disabling ==>
                  Offered(d.slot) == Offered(slot))
            && (d.result.Ok? ==> Published(name, a.listed.value) == Ok(Offered(d.slot)))
            && (d.slot.lifecycle == PermanentlyFailed ==> Offered(d.slot) == map[])
  {
    hide Published, Reconnected, Publishable;
    ReconnectSucceedsIff(slot, name, a);
    ReconnectKeepsValid(slot, name, a);
    if Reconnected(slot, name, a).result.Err? { ReconnectFails(slot, name, a); }
  }

  // ---- Over runs of the manager ------------------------------------------------------------

  predicate ManagerChangesOffer(m: Manager, e: ManagerEvent) {
    e == CloseAllServers || (e.On? && e.server < |m.servers| && ChangesOffer(m.servers[e.server], e.event))
  }

  ghost predicate NeverChangesOffer(m: Manager, es: seq<ManagerEvent>)
    requires RunManager(m, es).Some?
  {
    es == [] || (var init := es[..|es| - 1];
                 NeverChangesOffer(m, init) && !ManagerChangesOffer(RunManager(m, init).value, es[|es| - 1]))
  }

  lemma StepKeepsUnion(m: Manager, e: ManagerEvent)
    requires ManagerInv(m) && StepManager(m, e).Some? && !ManagerChangesOffer(m, e)
    ensures Union(Slots(StepManager(m, e).value.servers)) == Union(Slots(m.servers))
  {
    hide Step, Union, Offered, ChangesOffer, LedgerInv, GenerationInv, HealthInv, ThresholdInv, PublishedInv, LifecycleInv;
    var n := StepManager(m, e).value;
    if e.On? { StepKeepsOffer(m.servers[e.server], e.event); }
    assert |n.servers| == |m.servers|;
    UnionByOffers(Slots(n.servers), Slots(m.servers));
  }

  /** Over any run without such an event, whatever fails in it, the tools to be published stay
      exactly what they were. */
  lemma {:induction false} RunKeepsUnion(m: Manager, es: seq<ManagerEvent>)
    requires ManagerInv(m) && RunManager(m, es).Some? && NeverChangesOffer(m, es)
    ensures ManagerInv(RunManager(m, es).value)
    ensures Union(Slots(RunManager(m, es).value.servers)) == Union(Slots(m.servers))
  {
    hide StepManager, Union, Inv, ManagerChangesOffer;
    if es == [] {
    } else {
      var init := es[..|es| - 1];
      RunKeepsUnion(m, init);
      StepKeepsUnion(RunManager(m, init).value, es[|es| - 1]);
      StepManagerInv(RunManager(m, init).value, es[|es| - 1]);
    }
  }

  /** A server that is turned off or given up contributes nothing, and neither does any server
      right after `close_all`. */
  lemma OutOfServiceOffersNothing(
      s: Server, es: seq<Event>, name: string, caps: Option<nat>, catalog: Catalog)
    requires Reachable(s, es, name, caps, catalog)
    ensures s.slot.lifecycle in {Disabling, Disabled, PermanentlyFailed} ==> Offered(s.slot) == map[]
    ensures s.slot.lifecycle in {Disabled, PermanentlyFailed} ==> s.slot.published.None? && s.slot.runtime.None?
    ensures Step(s, CloseAll).Some? && Step(s, CloseAll).value.slot.lifecycle == Disabled
    ensures Offered(Step(s, CloseAll).value.slot) == map[]
    ensures Step(s, CloseAll).value.detached == s.detached + Live(s.slot)
  {
    hide Run;
    ReachableInv(s, es, name, caps, catalog);
  }

  lemma {:induction false} NothingOffered(slots: seq<Slot>)
    requires forall i :: 0 <= i < |slots| ==> Offered(slots[i]) == map[]
    ensures Union(slots) == Some(map[])
    decreases |slots|
  {
    if slots == [] {
    } else {
      NothingOffered(slots[..|slots| - 1]);
      UnionWith(slots);
    }
  }

  lemma CloseAllEmptiesUnion(m: Manager)
    ensures StepManager(m, CloseAllServers).Some?
    ensures Union(Slots(StepManager(m, CloseAllServers).value.servers)) == Some(map[])
  {
    hide Union;
    var servers := StepManager(m, CloseAllServers).value.servers;
    forall i | 0 <= i < |servers| ensures Offered(servers[i].slot) == map[] {
      assert Step(m.servers[i], CloseAll) == Some(servers[i]);
    }
    NothingOffered(Slots(servers));
  }
}
