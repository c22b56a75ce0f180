/** The manager: all servers side by side, `close_all` over all of them at once, and the
    published registry, rebuilt in two separate steps: crates/remo-ext-mcp/src/manager.rs. */
module McpRegistry {
  import opened Saturating
  import opened Wrappers
  import opened IdMapping
  import opened McpSlot
  import opened McpCatalog
  import opened McpLifecycle
  import opened McpInvariants
  import opened McpTheorems

  /** `pending` holds the unions computed by rebuilds that have not yet written theirs. */
  datatype Manager = Manager(servers: seq<Server>, version: nat, tools: Catalog, pending: seq<Catalog>)

  datatype ManagerEvent =
    | On(server: nat, event: Event)
    | CloseAllServers
    | ReadSlots
    | WriteSnapshot(read: nat)

  function Slots(servers: seq<Server>): (slots: seq<Slot>)
    ensures |slots| == |servers| && forall i :: 0 <= i < |slots| ==> slots[i] == servers[i].slot
  {
    seq(|servers|, i requires 0 <= i < |servers| => servers[i].slot)
  }

  function CloseEach(servers: seq<Server>): (closed: seq<Server>)
    ensures |closed| == |servers|
    ensures forall i :: 0 <= i < |servers| ==> Step(servers[i], CloseAll) == Some(closed[i])
  {
    seq(|servers|, i requires 0 <= i < |servers| => Step(servers[i], CloseAll).value)
  }

  function StepManager(m: Manager, e: ManagerEvent): Option<Manager> {
    match e
    case On(i, event) =>
      if i < |m.servers| && event != CloseAll && Step(m.servers[i], event).Some? then
        Some(m.(servers := m.servers[i := Step(m.servers[i], event).value]))
      else None
    case CloseAllServers => Some(m.(servers := CloseEach(m.servers)))
    case ReadSlots =>
      var u := Union(Slots(m.servers));
      if u.None? then None else Some(m.(pending := m.pending + [u.value]))
    case WriteSnapshot(k) =>
      if k >= |m.pending| then None
      else Some(m.(version := SaturatingInc(m.version, U64_MAX), tools := m.pending[k],
                   pending := m.pending[..k] + m.pending[k + 1..]))
  }

  function RunManager(m: Manager, es: seq<ManagerEvent>): Option<Manager> {
    if es == [] then Some(m)
    else
      match RunManager(m, es[..|es| - 1])
      case None => None
      case Some(n) => StepManager(n, es[|es| - 1])
  }

  /** A constructed manager: every server connected and the first registry published. */
  ghost predicate Constructed(m: Manager) {
    && (forall i :: 0 <= i < |m.servers| ==> exists caps, catalog ::
          CatalogOf(m.servers[i].name, catalog) && m.servers[i] == Init(m.servers[i].name, caps, catalog))
    && m.pending == [] && m.version == 1 && Union(Slots(m.servers)) == Some(m.tools)
  }

  /** Server names that the id mapping keeps apart. */
  ghost predicate DistinctServers(m: Manager) {
    forall i, j :: 0 <= i < j < |m.servers| ==> Sanitized(m.servers[i].name) != Sanitized(m.servers[j].name)
  }

  ghost predicate ManagerInv(m: Manager) {
    forall i :: 0 <= i < |m.servers| ==> Inv(m.servers[i])
  }

  lemma StepKeepsName(s: Server, e: Event)
    requires Step(s, e).Some?
    ensures Step(s, e).value.name == s.name
  {
    hide Published;
  }

  lemma StepManagerInv(m: Manager, e: ManagerEvent)
    requires ManagerInv(m) && StepManager(m, e).Some?
    ensures ManagerInv(StepManager(m, e).value)
    ensures |StepManager(m, e).value.servers| == |m.servers|
    ensures forall i :: 0 <= i < |m.servers| ==> StepManager(m, e).value.servers[i].name == m.servers[i].name
  {
    hide Step, Inv, Union;
    match e {
      case On(i, event) => StepInv(m.servers[i], event); StepKeepsName(m.servers[i], event);
      case CloseAllServers =>
        var closed := CloseEach(m.servers);
        forall i | 0 <= i < |m.servers| ensures Inv(closed[i]) && closed[i].name == m.servers[i].name {
          StepInv(m.servers[i], CloseAll);
          StepKeepsName(m.servers[i], CloseAll);
        }
      case _ =>
    }
  }

  /** The single-server invariants hold of every server in every manager run. */
  lemma {:induction false} RunManagerInv(m: Manager, es: seq<ManagerEvent>)
    requires Constructed(m) && RunManager(m, es).Some?
    ensures ManagerInv(RunManager(m, es).value)
    ensures |RunManager(m, es).value.servers| == |m.servers|
    ensures forall i :: 0 <= i < |m.servers| ==> RunManager(m, es).value.servers[i].name == m.servers[i].name
  {
    hide StepManager, Inv, CatalogOf, Union;
    if es == [] {
      forall i | 0 <= i < |m.servers| ensures Inv(m.servers[i]) {
        var caps, catalog :|
          CatalogOf(m.servers[i].name, catalog) && m.servers[i] == Init(m.servers[i].name, caps, catalog);
        InitInv(m.servers[i].name, caps, catalog);
      }
    } else {
      RunManagerInv(m, es[..|es| - 1]);
      StepManagerInv(RunManager(m, es[..|es| - 1]).value, es[|es| - 1]);
    }
  }

  /** With server names that sanitise apart, discovery never reports a conflict: every rebuild
      that reads the slots goes on to publish. */
  lemma DiscoveryNeverConflicts(m: Manager, es: seq<ManagerEvent>)
    requires Constructed(m) && DistinctServers(m) && RunManager(m, es).Some?
    ensures Union(Slots(RunManager(m, es).value.servers)).Some?
    ensures StepManager(RunManager(m, es).value, ReadSlots).Some?
  {
    hide Sanitized, Union, CatalogOf;
    RunManagerInv(m, es);
    var servers := RunManager(m, es).value.servers;
    var names := seq(|servers|, i requires 0 <= i < |servers| => servers[i].name);
    DistinctServersNeverConflict(Slots(servers), names);
  }

  /** Some earlier state of the same run served exactly these tools. */
  ghost predicate ServedEarlier(m: Manager, es: seq<ManagerEvent>, tools: Catalog) {
    exists k :: 0 <= k <= |es| && ServedAt(m, es, k, tools)
  }

  ghost predicate ServedAt(m: Manager, es: seq<ManagerEvent>, k: nat, tools: Catalog)
    requires k <= |es|
  {
    RunManager(m, es[..k]).Some? && Union(Slots(RunManager(m, es[..k]).value.servers)) == Some(tools)
  }

  function Writes(es: seq<ManagerEvent>): nat {
    if es == [] then 0
    else Writes(es[..|es| - 1]) + if es[|es| - 1].WriteSnapshot? then 1 else 0
  }

  lemma EarlierStays(m: Manager, es: seq<ManagerEvent>, e: ManagerEvent, tools: Catalog)
    requires ServedEarlier(m, es, tools)
    ensures ServedEarlier(m, es + [e], tools)
  {
    hide Union, RunManager;
    var k :| 0 <= k <= |es| && ServedAt(m, es, k, tools);
    assert (es + [e])[..k] == es[..k];
    assert ServedAt(m, es + [e], k, tools);
  }

  lemma ServedNow(m: Manager, es: seq<ManagerEvent>, e: ManagerEvent, tools: Catalog)
    requires RunManager(m, es).Some? && Union(Slots(RunManager(m, es).value.servers)) == Some(tools)
    ensures ServedEarlier(m, es + [e], tools)
  {
    hide Union, RunManager;
    assert (es + [e])[..|es|] == es;
    assert ServedAt(m, es + [e], |es|, tools);
  }

  ghost predicate AllServed(m: Manager, es: seq<ManagerEvent>, n: Manager) {
    ServedEarlier(m, es, n.tools) && forall i :: 0 <= i < |n.pending| ==> ServedEarlier(m, es, n.pending[i])
  }

  lemma StepServed(m: Manager, es: seq<ManagerEvent>, e: ManagerEvent, n: Manager)
    requires RunManager(m, es) == Some(n) && AllServed(m, es, n) && StepManager(n, e).Some?
    ensures AllServed(m, es + [e], StepManager(n, e).value)
  {
    hide Union, Step, RunManager, ServedEarlier;
    var n' := StepManager(n, e).value;
    EarlierStays(m, es, e, n.tools);
    forall i | 0 <= i < |n.pending| ensures ServedEarlier(m, es + [e], n.pending[i]) {
      EarlierStays(m, es, e, n.pending[i]);
    }
    if e.ReadSlots? {
      ServedNow(m, es, e, n'.pending[|n.pending|]);
    } else if e.WriteSnapshot? {
      forall i | 0 <= i < |n'.pending| ensures ServedEarlier(m, es + [e], n'.pending[i]) {
        assert n'.pending[i] == n.pending[if i < e.read then i else i + 1];
      }
    }
  }

  /** The registry is never a mixture: it, and every rebuild still to be written, is the union
      of the eligible catalogues at one state of the run, and each write adds one to the version. */
  lemma {:induction false} RegistryIsOneStatesUnion(m: Manager, es: seq<ManagerEvent>)
    requires Constructed(m) && RunManager(m, es).Some?
    ensures AllServed(m, es, RunManager(m, es).value)
    ensures RunManager(m, es).value.version == Saturated(1 + Writes(es), U64_MAX)
  {
    hide Union, Step;
    if es == [] {
      assert es[..0] == es;
      assert ServedAt(m, es, 0, m.tools);
    } else {
      hide ServedEarlier;
      var init, e := es[..|es| - 1], es[|es| - 1];
      assert es == init + [e];
      RegistryIsOneStatesUnion(m, init);
      StepServed(m, init, e, RunManager(m, init).value);
    }
  }

  /** Whatever id the registry holds, calling it reaches the tool it was computed from. */
  lemma RegistryIdsAreHonest(m: Manager, es: seq<ManagerEvent>, id: string)
    requires Constructed(m) && RunManager(m, es).Some? && id in RunManager(m, es).value.tools
    ensures var tool := RunManager(m, es).value.tools[id]; ToToolId(tool.server, tool.name) == Ok(id)
  {
    hide StepManager, ToToolId, Step;
    var tools := RunManager(m, es).value.tools;
    RegistryIsOneStatesUnion(m, es);
    var k :| 0 <= k <= |es| && ServedAt(m, es, k, tools);
    RunManagerInv(m, es[..k]);
    var slots := Slots(RunManager(m, es[..k]).value.servers);
    UnionComesFrom(slots, id);
    var i :| 0 <= i < |slots| && Serves(slots[i], id);
    UnionIsDisjointUnion(slots, i, id);
    assert Inv(RunManager(m, es[..k]).value.servers[i]);
  }
}
