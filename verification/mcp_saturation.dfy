/** What the 64-bit generation counter cannot tell apart once it stays at its last value:
    crates/remo-ext-mcp/src/manager.rs. The states are reached from a constructed server. */
module McpSaturation {
  import opened Saturating
  import opened Wrappers
  import opened McpSlot
  import opened McpCatalog
  import opened McpLifecycle
  import opened McpInvariants
  import opened McpTheorems

  /** Connected and healthy, with the lock free, an empty catalogue and no capabilities. */
  predicate Quiet(s: Server, generation: nat, next: nat, transport: nat) {
    && s.holder.None? && s.detached == multiset{}
    && s.slot == Slot(Lifecycle.Connected, Some(Runtime(generation, transport, None)), false, false, 0, 0, 0, 0,
                      next, Some(Snapshot(generation, map[])))
  }

  lemma Extend(start: Server, es: seq<Event>, s: Server, e: Event) returns (es': seq<Event>, s': Server)
    requires Run(start, es) == Some(s) && Step(s, e).Some?
    ensures Run(start, es') == Some(s') && s' == Step(s, e).value
  {
    es', s' := es + [e], Step(s, e).value;
    assert es'[..|es|] == es;
  }

  /** The first half of a reconnect cycle: the old runtime is closed and a new one opened. */
  lemma Reopen(start: Server, es: seq<Event>, s: Server, generation: nat, next: nat, transport: nat)
    returns (es': seq<Event>, s': Server)
    requires Run(start, es) == Some(s) && Quiet(s, generation, next, transport)
    ensures Run(start, es') == Some(s')
    ensures s' == s.(holder := Some(ReadingCapabilities(next, 0, s.openCount)), openCount := s.openCount + 1,
                     closed := s.closed + multiset{transport}, slot := s.slot.BeginReconnect().0)
  {
    hide Run, ToggleStep, RefreshStep, FailureStep;
    es', s' := Extend(start, es, s, AcquireReconnect);
    es', s' := Extend(start, es', s', Hold(Proceed));
    es', s' := Extend(start, es', s', Hold(Proceed));
    es', s' := Extend(start, es', s', Hold(Proceed));
  }

  /** A successful reconnect cycle hands the next generation to a new transport and leaves the
      operations under way as they were. */
  lemma Cycle(start: Server, es: seq<Event>, s: Server, generation: nat, next: nat, transport: nat)
    returns (es': seq<Event>, s': Server)
    requires Run(start, es) == Some(s) && Quiet(s, generation, next, transport)
    ensures Run(start, es') == Some(s') && Quiet(s', next, SaturatingInc(next, U64_MAX), s.openCount)
    ensures s'.ops == s.ops && s'.openCount == s.openCount + 1
  {
    hide Run, ToggleStep, RefreshStep, FailureStep;
    es', s' := Reopen(start, es, s, generation, next, transport);
    es', s' := Extend(start, es', s', Hold(Capabilities(None)));
    assert Published(s.name, []) == Ok(map[]);
    es', s' := Extend(start, es', s', Hold(Tools([])));
    es', s' := Extend(start, es', s', Hold(Proceed));
    es', s' := Extend(start, es', s', Release);
  }

  function Capped(n: nat): nat {
    Saturated(n, U64_MAX)
  }

  lemma NextCapped(n: nat)
    ensures SaturatingInc(Capped(n), U64_MAX) == Capped(n + 1)
  {}

  lemma QuietAtFirst(name: string)
    ensures Quiet(Init(name, None, map[]), Capped(1), Capped(2), 0)
  {}

  /** After `k` cycles from construction, whatever their number. */
  lemma {:induction false} Cycles(name: string, k: nat) returns (es: seq<Event>, s: Server)
    ensures Run(Init(name, None, map[]), es) == Some(s) && s.ops == map[] && s.openCount == k + 1
    ensures Quiet(s, Capped(k + 1), Capped(k + 2), k)
  {
    var start := Init(name, None, map[]);
    if k == 0 {
      QuietAtFirst(name);
      es, s := [], start;
    } else {
      hide Run, Quiet, Capped, Init;
      es, s := Cycles(name, k - 1);
      NextCapped(k + 1);
      es, s := Cycle(start, es, s, Capped(k), Capped(k + 1), k - 1);
    }
  }

  lemma OpFails(start: Server, es: seq<Event>, s: Server, generation: nat, next: nat, transport: nat)
    returns (es': seq<Event>, s': Server)
    requires Run(start, es) == Some(s) && Quiet(s, generation, next, transport) && 1 !in s.ops
    ensures Run(start, es') == Some(s')
    ensures s' == s.(ops := s.ops[1 := Op(Rpc, s.slot.runtime.value, true)])
  {
    hide Run, HolderStep;
    es', s' := Extend(start, es, s, StartOp(1, Rpc));
    es', s' := Extend(start, es', s', OpFailed(1, true));
    assert s'.ops == s.ops[1 := Op(Rpc, s.slot.runtime.value, true)];
  }

  lemma MarksFailure(start: Server, es: seq<Event>, s: Server, generation: nat, next: nat, transport: nat)
    returns (es': seq<Event>, s': Server)
    requires Run(start, es) == Some(s) && Quiet(s, generation, next, transport) && 1 !in s.ops
    ensures Run(start, es') == Some(s')
    ensures s' == s.(slot := s.slot.(rpcFailures := 1, consecutiveFailures := 1), log := s.log + [Failure(Rpc)],
                     holder := Some(FailureChecking(Rpc)))
  {
    hide Run, ReconnectStep, ToggleStep, RefreshStep;
    es', s' := OpFails(start, es, s, generation, next, transport);
    es', s' := Extend(start, es', s', AcquireFailure(1));
    assert s'.ops == s.ops;
    es', s' := Extend(start, es', s', Hold(Proceed));
  }

  /** One tracked failure of an operation on the present runtime. */
  lemma FailOnce(start: Server, es: seq<Event>, s: Server, generation: nat, next: nat, transport: nat)
    returns (es': seq<Event>, s': Server)
    requires Run(start, es) == Some(s) && Quiet(s, generation, next, transport) && 1 !in s.ops
    ensures Run(start, es') == Some(s')
    ensures s' == s.(slot := s.slot.(rpcFailures := 1, consecutiveFailures := 1), log := s.log + [Failure(Rpc)])
  {
    hide Run, ReconnectStep, ToggleStep, RefreshStep;
    es', s' := MarksFailure(start, es, s, generation, next, transport);
    es', s' := Extend(start, es', s', Hold(Proceed));
    es', s' := Extend(start, es', s', Release);
  }

  /** An operation leased from a closed transport of the last generation, beside a present
      runtime of the same generation with one failure. */
  lemma ReachesLimit(name: string) returns (es: seq<Event>, s: Server)
    ensures Reachable(s, es, name, None, map[]) && s.holder.None? && s.detached == multiset{}
    ensures s.ops == map[0 := Op(Rpc, Runtime(U64_MAX, U64_MAX, None), false)]
    ensures s.slot.runtime == Some(Runtime(U64_MAX, U64_MAX + 1, None)) && s.slot.lifecycle == Connected
    ensures s.slot.rpcFailures == 1
    ensures s.openCount == U64_MAX + 2
  {
    hide Run, HolderStep;
    var start := Init(name, None, map[]);
    es, s := Cycles(name, U64_MAX);
    es, s := Extend(start, es, s, StartOp(0, Rpc));
    es, s := Cycle(start, es, s, U64_MAX, U64_MAX, U64_MAX);
    es, s := FailOnce(start, es, s, U64_MAX, U64_MAX, U64_MAX + 1);
  }

  /** At the last generation the guard no longer separates runtimes: a constructed server reaches
      a state in which the success of an operation leased from a closed transport clears the
      failure recorded for the present one. */
  lemma SaturatedGenerationConfusesLeases(name: string)
    ensures exists s: Server, es ::
              && Reachable(s, es, name, None, map[])
              && 0 in s.ops && Stale(s, s.ops[0].lease) && s.closed[s.ops[0].lease.transport] == 1
              && s.slot.rpcFailures == 1
              && Step(s, OpSucceeded(0)).Some? && Step(s, OpSucceeded(0)).value.slot.rpcFailures == 0
  {
    hide Run, HolderStep;
    var es, s := ReachesLimit(name);
    TransportsConserved(s, es, name, None, map[], U64_MAX);
  }
}
