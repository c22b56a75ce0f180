/** The batching telemetry sink: crates/remo-ext-observability/src/batching.rs. */
module Batching {

  /** The sink as one thread sees it. The inner sink is the list of events handed to it, and
      `wakePending` is the stored permit of the background flusher's notification. */
  class BatchingSink<E> {
    var buffer: seq<E>
    var delivered: seq<E>
    var shutdownFlag: bool
    var wakePending: bool
    const maxBatchSize: nat
    const maxBufferSize: nat

    constructor (maxBatchSize: nat, maxBufferSize: nat)
      ensures this.maxBatchSize == maxBatchSize && this.maxBufferSize == maxBufferSize
      ensures buffer == [] && delivered == [] && !shutdownFlag && !wakePending
    {
      this.maxBatchSize, this.maxBufferSize := maxBatchSize, maxBufferSize;
      buffer, delivered := [], [];
      shutdownFlag, wakePending := false, false;
    }

    /** A full buffer drops the event; a full batch wakes the background flusher. */
    method Record(event: E)
      modifies this`buffer, this`wakePending
      ensures old(|buffer|) >= maxBufferSize ==> buffer == old(buffer)
      ensures old(|buffer|) < maxBufferSize ==> buffer == old(buffer) + [event]
      ensures old(|buffer|) <= maxBufferSize ==> |buffer| <= maxBufferSize
      ensures wakePending <==>
              old(wakePending) || (old(|buffer|) < maxBufferSize && maxBatchSize <= |buffer|)
    {
      if |buffer| < maxBufferSize {
        buffer := buffer + [event];
        if |buffer| >= maxBatchSize { wakePending := true; }
      }
    }

    /** Hands everything buffered to the inner sink, oldest first. */
    method FlushBuffer()
      modifies this`buffer, this`delivered
      ensures buffer == []
      ensures delivered == old(delivered) + old(buffer)
    {
      if |buffer| == 0 { return; }
      var batch := buffer;
      buffer := [];
      for i := 0 to |batch|
        invariant buffer == []
        invariant delivered == old(delivered) + batch[..i]
      {
        delivered := delivered + [batch[i]];
      }
      assert batch[..|batch|] == batch;
    }

    method Shutdown()
      modifies this
      ensures shutdownFlag && wakePending && buffer == []
      ensures delivered == old(delivered) + old(buffer)
    {
      shutdownFlag := true;
      wakePending := true;
      FlushBuffer();
    }
  }

  // The sink under concurrent callers. Taking the buffer is one critical section; every event is
  // then forwarded outside the lock, so any number of batches can be in flight together.

  /** A batch taken by one flush, of which `sent` events have been forwarded; `start` is the place
      of its first event among the accepted ones. */
  datatype Flight<E> = Flight(start: nat, batch: seq<E>, sent: nat)
  {
    predicate Valid() { sent <= |batch| }
    predicate Done() { sent == |batch| }
    function Rest(): seq<E> requires Valid() { batch[sent..] }
  }

  /** An event as it reached the inner sink, with the flight that carried it and its place among
      the accepted events. */
  datatype Delivery<E> = Delivery(carrier: nat, index: nat, event: E)

  /** The background flusher: asleep, past its check of the shutdown flag, forwarding a batch, or
      finished. */
  datatype Background = Asleep | Checked | Forwarding(flight: nat) | Finished

  /** `accepted` is the history of events not dropped, in the order of the buffer lock. */
  datatype State<E> = State(
    buffer: seq<E>,
    flights: seq<Flight<E>>,
    log: seq<Delivery<E>>,
    accepted: seq<E>,
    stop: bool,
    background: Background)

  datatype Event<E> =
    | Record(event: E)
    | CallerTakes
    | BackgroundWakes
    | BackgroundTakes
    | Forward(flight: nat)
    | BackgroundReturns
    | SetStop

  function Init<E>(): State<E> {
    State([], [], [], [], false, Asleep)
  }

  function Take<E>(s: State<E>): State<E> {
    if s.buffer == [] then s
    else
      var start := if |s.buffer| <= |s.accepted| then |s.accepted| - |s.buffer| else 0;
      s.(buffer := [], flights := s.flights + [Flight(start, s.buffer, 0)])
  }

  function Next<E>(i: nat, f: Flight<E>): Delivery<E>
    requires f.sent < |f.batch|
  {
    Delivery(i, f.start + f.sent, f.batch[f.sent])
  }

  function Sent<E>(f: Flight<E>): Flight<E> {
    f.(sent := f.sent + 1)
  }

  /** One atomic step; a step that is not enabled changes nothing. */
  function Step<E>(limit: nat, s: State<E>, e: Event<E>): State<E> {
    match e
    case Record(event) =>
      if |s.buffer| < limit then s.(buffer := s.buffer + [event], accepted := s.accepted + [event]) else s
    case CallerTakes => Take(s)
    case BackgroundWakes =>
      if s.background != Asleep then s else s.(background := if s.stop then Finished else Checked)
    case BackgroundTakes =>
      if s.background != Checked then s
      else Take(s).(background := if s.buffer == [] then Asleep else Forwarding(|s.flights|))
    case Forward(i) =>
      if i < |s.flights| && s.flights[i].sent < |s.flights[i].batch| then
        var f := s.flights[i];
        s.(flights := s.flights[i := Sent(f)], log := s.log + [Next(i, f)])
      else s
    case BackgroundReturns =>
      if s.background.Forwarding? && s.background.flight < |s.flights| && s.flights[s.background.flight].Done()
      then s.(background := Asleep)
      else s
    case SetStop => s.(stop := true)
  }

  function Run<E>(limit: nat, s: State<E>, events: seq<Event<E>>): State<E>
    decreases |events|
  {
    if events == [] then s else Run(limit, Step(limit, s, events[0]), events[1..])
  }

  // What the parts of a state hold

  function Events<E>(log: seq<Delivery<E>>): seq<E> {
    if log == [] then [] else Events(log[..|log| - 1]) + [log[|log| - 1].event]
  }

  function SentBy<E>(log: seq<Delivery<E>>, i: nat): seq<E> {
    if log == [] then []
    else
      var last := log[|log| - 1];
      SentBy(log[..|log| - 1], i) + (if last.carrier == i then [last.event] else [])
  }

  function Batches<E>(flights: seq<Flight<E>>): seq<E> {
    if flights == [] then [] else Batches(flights[..|flights| - 1]) + flights[|flights| - 1].batch
  }

  ghost predicate AllValid<E>(flights: seq<Flight<E>>) {
    forall i :: 0 <= i < |flights| ==> flights[i].Valid()
  }

  function InFlight<E>(flights: seq<Flight<E>>): multiset<E>
    requires AllValid(flights)
  {
    if flights == [] then multiset{}
    else InFlight(flights[..|flights| - 1]) + multiset(flights[|flights| - 1].Rest())
  }

  // The invariant

  ghost predicate BatchesSplitAccepted<E>(s: State<E>) {
    Batches(s.flights) + s.buffer == s.accepted
  }

  ghost predicate EachInOrder<E>(s: State<E>) {
    && AllValid(s.flights)
    && (forall d :: d in s.log ==> d.carrier < |s.flights|)
    && forall i :: 0 <= i < |s.flights| ==> SentBy(s.log, i) == s.flights[i].batch[..s.flights[i].sent]
  }

  ghost predicate Conserved<E>(s: State<E>) {
    && AllValid(s.flights)
    && multiset(s.accepted) == multiset(Events(s.log)) + InFlight(s.flights) + multiset(s.buffer)
  }

  ghost predicate Inv<E>(limit: nat, s: State<E>) {
    && |s.buffer| <= limit
    && BatchesSplitAccepted(s)
    && EachInOrder(s)
    && Conserved(s)
  }

  lemma {:induction false} SendKeepsBatches<E>(flights: seq<Flight<E>>, i: nat, f: Flight<E>)
    requires i < |flights| && f.batch == flights[i].batch
    ensures Batches(flights[i := f]) == Batches(flights)
    decreases |flights|
  {
    var n, after := |flights| - 1, flights[i := f];
    if i < n {
      SendKeepsBatches(flights[..n], i, f);
      assert after[..n] == flights[..n][i := f];
    } else {
      assert after[..n] == flights[..n];
    }
  }

  lemma {:induction false} SendLeavesFlight<E>(flights: seq<Flight<E>>, i: nat)
    requires i < |flights| && AllValid(flights) && flights[i].sent < |flights[i].batch|
    ensures AllValid(flights[i := Sent(flights[i])])
    ensures InFlight(flights)
            == InFlight(flights[i := Sent(flights[i])]) + multiset{flights[i].batch[flights[i].sent]}
    decreases |flights|
  {
    var n, f := |flights| - 1, flights[i];
    var after := flights[i := Sent(f)];
    if i < n {
      SendLeavesFlight(flights[..n], i);
      assert after[..n] == flights[..n][i := Sent(f)];
    } else {
      assert after[..n] == flights[..n];
      assert f.Rest() == [f.batch[f.sent]] + Sent(f).Rest();
    }
  }

  lemma {:induction false} NothingSentYet<E>(log: seq<Delivery<E>>, i: nat)
    requires forall d :: d in log ==> d.carrier != i
    ensures SentBy(log, i) == []
    decreases |log|
  {
    if log == [] {
    } else {
      NothingSentYet(log[..|log| - 1], i);
      assert log[|log| - 1] in log;
    }
  }

  lemma TakeEachInOrder<E>(s: State<E>)
    requires EachInOrder(s) && s.buffer != []
    ensures EachInOrder(Take(s))
  {
    var t, n := Take(s), |s.flights|;
    NothingSentYet(s.log, n);
    assert t.flights[n].batch[..0] == [];
    assert forall i :: 0 <= i < n ==> t.flights[i] == s.flights[i];
  }

  lemma TakeConserved<E>(s: State<E>)
    requires Conserved(s) && s.buffer != []
    ensures Conserved(Take(s))
  {
    var t, n := Take(s), |s.flights|;
    assert t.flights[..n] == s.flights;
    assert t.flights[n].Rest() == s.buffer;
  }

  lemma TakeSplits<E>(s: State<E>)
    requires BatchesSplitAccepted(s) && s.buffer != []
    ensures BatchesSplitAccepted(Take(s))
  {
    var t, n := Take(s), |s.flights|;
    assert t.flights[..n] == s.flights;
    assert Batches(t.flights) + [] == Batches(s.flights) + s.buffer;
  }

  lemma TakeInv<E>(limit: nat, s: State<E>)
    requires Inv(limit, s)
    ensures Inv(limit, Take(s))
  {
    if s.buffer != [] {
      TakeEachInOrder(s);
      TakeConserved(s);
      TakeSplits(s);
    }
  }

  lemma Logged<E>(log: seq<Delivery<E>>, d: Delivery<E>)
    ensures Events(log + [d]) == Events(log) + [d.event]
    ensures forall k: nat :: SentBy(log + [d], k) == SentBy(log, k) + (if d.carrier == k then [d.event] else [])
  {
    assert (log + [d])[..|log|] == log;
  }

  lemma ForwardEachInOrder<E>(limit: nat, s: State<E>, i: nat)
    requires EachInOrder(s) && i < |s.flights| && s.flights[i].sent < |s.flights[i].batch|
    ensures EachInOrder(Step(limit, s, Forward(i)))
  {
    var f := s.flights[i];
    var d := Next(i, f);
    Logged(s.log, d);
    assert f.batch[..f.sent + 1] == f.batch[..f.sent] + [f.batch[f.sent]];
    assert forall k :: 0 <= k < |s.flights| && k != i ==> SentBy(s.log + [d], k) == SentBy(s.log, k) + [];
  }

  lemma ForwardConserved<E>(limit: nat, s: State<E>, i: nat)
    requires Conserved(s) && i < |s.flights| && s.flights[i].sent < |s.flights[i].batch|
    ensures Conserved(Step(limit, s, Forward(i)))
  {
    var f := s.flights[i];
    Logged(s.log, Next(i, f));
    SendLeavesFlight(s.flights, i);
  }

  lemma ForwardInv<E>(limit: nat, s: State<E>, i: nat)
    requires Inv(limit, s) && i < |s.flights| && s.flights[i].sent < |s.flights[i].batch|
    ensures Inv(limit, Step(limit, s, Forward(i)))
  {
    ForwardEachInOrder(limit, s, i);
    ForwardConserved(limit, s, i);
    hide EachInOrder, Conserved;
    SendKeepsBatches(s.flights, i, Sent(s.flights[i]));
  }

  lemma RecordConserved<E>(limit: nat, s: State<E>, event: E)
    requires Conserved(s)
    ensures Conserved(Step(limit, s, Record(event)))
  {
    hide Events, InFlight;
  }

  lemma RecordEachInOrder<E>(limit: nat, s: State<E>, event: E)
    requires EachInOrder(s)
    ensures EachInOrder(Step(limit, s, Record(event)))
  {
    hide SentBy;
  }

  lemma RecordInv<E>(limit: nat, s: State<E>, event: E)
    requires Inv(limit, s)
    ensures Inv(limit, Step(limit, s, Record(event)))
  {
    RecordConserved(limit, s, event);
    RecordEachInOrder(limit, s, event);
    hide Conserved, EachInOrder, Batches;
    assert Batches(s.flights) + (s.buffer + [event]) == (Batches(s.flights) + s.buffer) + [event];
  }

  lemma FlagsInv<E>(limit: nat, s: State<E>, stop: bool, background: Background)
    requires Inv(limit, s)
    ensures Inv(limit, s.(stop := stop, background := background))
  {}

  lemma StepInv<E>(limit: nat, s: State<E>, e: Event<E>)
    requires Inv(limit, s)
    ensures Inv(limit, Step(limit, s, e))
  {
    hide Inv, Take;
    var t := Step(limit, s, e);
    match e
    case Record(event) => RecordInv(limit, s, event);
    case CallerTakes => TakeInv(limit, s);
    case BackgroundTakes =>
      TakeInv(limit, s);
      FlagsInv(limit, Take(s), Take(s).stop, t.background);
    case Forward(i) =>
      if i < |s.flights| && s.flights[i].sent < |s.flights[i].batch| { ForwardInv(limit, s, i); }
    case _ => FlagsInv(limit, s, t.stop, t.background);
  }

  lemma {:induction false} RunInv<E>(limit: nat, s: State<E>, events: seq<Event<E>>)
    requires Inv(limit, s)
    ensures Inv(limit, Run(limit, s, events))
    decreases |events|
  {
    if events == [] {
    } else {
      StepInv(limit, s, events[0]);
      RunInv(limit, Step(limit, s, events[0]), events[1..]);
    }
  }

  /** However recorders and flushers interleave, no accepted event is lost or repeated, and the
      buffer stays within its limit. */
  lemma EventsConserved<E>(limit: nat, events: seq<Event<E>>)
    ensures var s := Run(limit, Init<E>(), events);
            && |s.buffer| <= limit
            && AllValid(s.flights)
            && multiset(s.accepted) == multiset(Events(s.log)) + InFlight(s.flights) + multiset(s.buffer)
  {
    assert Inv(limit, Init<E>());
    RunInv(limit, Init<E>(), events);
  }

  /** The batches cut the accepted events, in order, into consecutive pieces, and each batch
      reaches the inner sink in order. */
  lemma BatchesInOrder<E>(limit: nat, events: seq<Event<E>>)
    ensures var s := Run(limit, Init<E>(), events);
            && Batches(s.flights) + s.buffer == s.accepted
            && forall i :: 0 <= i < |s.flights| ==>
                 s.flights[i].Valid() && SentBy(s.log, i) + s.flights[i].Rest() == s.flights[i].batch
  {
    assert Inv(limit, Init<E>());
    RunInv(limit, Init<E>(), events);
    var s := Run(limit, Init<E>(), events);
    forall i | 0 <= i < |s.flights|
      ensures s.flights[i].Valid() && SentBy(s.log, i) + s.flights[i].Rest() == s.flights[i].batch
    {
      assert s.flights[i].Valid();
    }
  }

  // The sink of one thread is the protocol with its steps in a row

  function Forwards<E>(i: nat, k: nat): seq<Event<E>> {
    if k == 0 then [] else [Forward(i)] + Forwards(i, k - 1)
  }

  lemma ForwardOnce<E>(limit: nat, s: State<E>, i: nat)
    requires i < |s.flights| && s.flights[i].sent < |s.flights[i].batch|
    ensures var t, f := Step(limit, s, Forward(i)), s.flights[i];
            && |t.flights| == |s.flights| && t.flights[i] == Sent(f)
            && Events(t.log) == Events(s.log) + [f.batch[f.sent]]
            && t.buffer == s.buffer && t.accepted == s.accepted
  {
    Logged(s.log, Next(i, s.flights[i]));
  }

  lemma {:induction false} ForwardsDeliver<E>(limit: nat, s: State<E>, i: nat, k: nat)
    requires i < |s.flights| && s.flights[i].sent + k <= |s.flights[i].batch|
    ensures var t, f := Run(limit, s, Forwards(i, k)), s.flights[i];
            && Events(t.log) == Events(s.log) + f.batch[f.sent..f.sent + k]
            && t.buffer == s.buffer && t.accepted == s.accepted
    decreases k
  {
    hide Events, Step;
    var f := s.flights[i];
    if k == 0 {
      assert f.batch[f.sent..f.sent] == [];
    } else {
      ForwardOnce(limit, s, i);
      ForwardsDeliver(limit, Step(limit, s, Forward(i)), i, k - 1);
      assert Forwards<E>(i, k)[1..] == Forwards<E>(i, k - 1);
      assert f.batch[f.sent..f.sent + k] == [f.batch[f.sent]] + f.batch[f.sent + 1..f.sent + k];
    }
  }

  /** A flush whose steps run together does what `FlushBuffer` promises. */
  lemma FlushIsTakeThenForwards<E>(limit: nat, s: State<E>)
    ensures var t := Run(limit, Take(s), Forwards(|s.flights|, |s.buffer|));
            t.buffer == [] && Events(t.log) == Events(s.log) + s.buffer
  {
    if s.buffer != [] {
      ForwardsDeliver(limit, Take(s), |s.flights|, |s.buffer|);
    } else {
      assert Events(s.log) + s.buffer == Events(s.log);
    }
  }

  /** An event is accepted exactly while the buffer is below its limit, and the background flusher
      ends exactly when it wakes after the flag was set. */
  lemma AcceptedIff<E>(limit: nat, s: State<E>, event: E)
    ensures |Step(limit, s, Record(event)).accepted| == |s.accepted| + (if |s.buffer| < limit then 1 else 0)
    ensures s.background.Asleep? ==> (Step(limit, s, BackgroundWakes).background == Finished <==> s.stop)
  {}

  // The order of delivery

  /** How many accepted events have been taken from the buffer. */
  function Taken<E>(s: State<E>): int {
    |s.accepted| - |s.buffer|
  }

  /** The batches lie one after the other in the accepted events, and the buffer after them. */
  ghost predicate Layout<E>(s: State<E>) {
    && 0 <= Taken(s) && s.buffer == s.accepted[Taken(s)..]
    && (forall k :: 0 <= k < |s.flights| ==> Placed(s, s.flights[k]))
    && (forall k, i :: 0 <= k < i < |s.flights| ==> End(s.flights[k]) <= s.flights[i].start)
    && (forall k :: 0 <= k < |s.flights| ==> Adjacent(s, k))
    && (s.flights == [] ==> Taken(s) == 0)
    && (s.flights != [] ==> s.flights[0].start == 0)
  }

  /** Where flight `k` ends the next begins, or else the buffer. */
  ghost predicate Adjacent<E>(s: State<E>, k: nat)
    requires k < |s.flights|
  {
    End(s.flights[k]) == if k + 1 < |s.flights| then s.flights[k + 1].start else Taken(s)
  }

  function End<E>(f: Flight<E>): nat {
    f.start + |f.batch|
  }

  ghost predicate Placed<E>(s: State<E>, f: Flight<E>) {
    f.Valid() && f.batch != [] && End(f) <= |s.accepted| && s.accepted[f.start..End(f)] == f.batch
  }

  /** Every delivery is one that its carrier has sent. */
  ghost predicate Carried<E>(s: State<E>) {
    forall d :: d in s.log ==> CarriedBy(s, d)
  }

  ghost predicate CarriedBy<E>(s: State<E>, d: Delivery<E>) {
    && d.carrier < |s.flights| && d.index < |s.accepted| && d.event == s.accepted[d.index]
    && s.flights[d.carrier].start <= d.index < s.flights[d.carrier].start + s.flights[d.carrier].sent
  }

  ghost predicate Tracked<E>(s: State<E>) {
    Layout(s) && Carried(s)
  }

  /** The deliveries are the first accepted events, in order. */
  ghost predicate Sequential<E>(log: seq<Delivery<E>>) {
    forall x :: 0 <= x < |log| ==> log[x].index == x
  }

  lemma RecordLayout<E>(limit: nat, s: State<E>, event: E)
    requires Layout(s)
    ensures Layout(Step(limit, s, Record(event)))
  {
    var t := Step(limit, s, Record(event));
    if |s.buffer| < limit {
      forall k | 0 <= k < |s.flights| ensures Placed(t, s.flights[k]) && Adjacent(t, k) {
        var f := s.flights[k];
        assert Placed(s, f) && Adjacent(s, k);
        assert t.accepted[f.start..End(f)] == s.accepted[f.start..End(f)];
      }
    }
  }

  lemma TakeLayout<E>(s: State<E>)
    requires Layout(s)
    ensures Layout(Take(s))
  {
    if s.buffer != [] {
      var t, n := Take(s), |s.flights|;
      forall k | 0 <= k < n
        ensures Placed(t, t.flights[k]) && Adjacent(t, k) && End(t.flights[k]) <= t.flights[n].start
      {
        assert Placed(s, s.flights[k]) && Adjacent(s, k);
        if k + 1 < n { assert Adjacent(s, n - 1) && Placed(s, s.flights[n - 1]); }
      }
      assert Placed(t, t.flights[n]) && Adjacent(t, n);
    }
  }

  /** The layout does not depend on how much has been sent. */
  lemma SameShapes<E>(s: State<E>, t: State<E>)
    requires Layout(s) && t.accepted == s.accepted && t.buffer == s.buffer && |t.flights| == |s.flights|
    requires forall k :: 0 <= k < |t.flights| ==>
               t.flights[k].Valid() && t.flights[k].(sent := 0) == s.flights[k].(sent := 0)
    ensures Layout(t)
  {
    forall k | 0 <= k < |t.flights| ensures Placed(t, t.flights[k]) && Adjacent(t, k) {
      assert t.flights[k].(sent := 0) == s.flights[k].(sent := 0);
      assert Placed(s, s.flights[k]) && Adjacent(s, k);
    }
    forall k, i | 0 <= k < i < |t.flights| ensures End(t.flights[k]) <= t.flights[i].start {
      assert End(s.flights[k]) <= s.flights[i].start;
    }
  }

  lemma ForwardLayout<E>(limit: nat, s: State<E>, i: nat)
    requires Layout(s)
    ensures Layout(Step(limit, s, Forward(i)))
  {
    var t := Step(limit, s, Forward(i));
    forall k | 0 <= k < |s.flights|
      ensures t.flights[k].Valid() && t.flights[k].(sent := 0) == s.flights[k].(sent := 0)
    {
      assert Placed(s, s.flights[k]);
    }
    hide Step, Layout;
    SameShapes(s, t);
  }

  lemma StepLayout<E>(limit: nat, s: State<E>, e: Event<E>)
    requires Layout(s)
    ensures Layout(Step(limit, s, e))
  {
    hide Layout;
    match e
    case Record(event) => RecordLayout(limit, s, event);
    case CallerTakes => TakeLayout(s);
    case BackgroundTakes =>
      TakeLayout(s);
      SameLayout(if s.background == Checked then Take(s) else s, Step(limit, s, e));
    case Forward(i) => ForwardLayout(limit, s, i);
    case _ => SameLayout(s, Step(limit, s, e));
  }

  lemma SameLayout<E>(s: State<E>, t: State<E>)
    requires Layout(s) && t.flights == s.flights && t.accepted == s.accepted && t.buffer == s.buffer
    ensures Layout(t)
  {
    forall k | 0 <= k < |t.flights| ensures Placed(t, t.flights[k]) && Adjacent(t, k) {
      assert Placed(s, s.flights[k]) && Adjacent(s, k);
    }
  }

  lemma StepCarried<E>(limit: nat, s: State<E>, e: Event<E>)
    requires Tracked(s)
    ensures Carried(Step(limit, s, e))
  {
    var t := Step(limit, s, e);
    forall d | d in t.log ensures CarriedBy(t, d) {
      if d in s.log {
        assert CarriedBy(s, d);
      } else {
        var f := s.flights[e.flight];
        assert Placed(s, f);
        assert d == Next(e.flight, f);
        assert s.accepted[f.start..End(f)][f.sent] == s.accepted[f.start + f.sent];
      }
    }
  }

  /** The flight `i` may forward its next event without overtaking an earlier one. */
  ghost predicate InTurn<E>(s: State<E>, i: nat) {
    i < |s.flights| ==> forall k :: 0 <= k < i ==> s.flights[k].Done()
  }

  predicate Effective<E>(s: State<E>, e: Event<E>) {
    e.Forward? && e.flight < |s.flights| && s.flights[e.flight].sent < |s.flights[e.flight].batch|
  }

  /** No event is forwarded while an earlier flight has events left. */
  ghost predicate NoOvertaking<E>(limit: nat, s: State<E>, events: seq<Event<E>>)
    decreases |events|
  {
    events == [] || (
      && (Effective(s, events[0]) ==> InTurn(s, events[0].flight))
      && NoOvertaking(limit, Step(limit, s, events[0]), events[1..]))
  }

  /** As many events are delivered as lie before the first that is not. */
  ghost predicate InStep<E>(s: State<E>) {
    CountsToFirstOpen(s) && LaterUnsent(s) && CountsToBuffer(s)
  }

  ghost predicate CountsToFirstOpen<E>(s: State<E>) {
    forall i :: 0 <= i < |s.flights| && InTurn(s, i) && !s.flights[i].Done() ==>
      |s.log| == s.flights[i].start + s.flights[i].sent
  }

  ghost predicate LaterUnsent<E>(s: State<E>) {
    forall i, l :: 0 <= i < l < |s.flights| && !s.flights[i].Done() ==> s.flights[l].sent == 0
  }

  ghost predicate CountsToBuffer<E>(s: State<E>) {
    (forall k :: 0 <= k < |s.flights| ==> s.flights[k].Done()) ==> |s.log| == Taken(s)
  }

  /** The flight after the one that forwards has not begun, and begins where that one ends. */
  lemma NextIsUnsent<E>(limit: nat, s: State<E>, i: nat)
    requires Layout(s) && LaterUnsent(s) && Effective(s, Forward(i))
    ensures var t := Step(limit, s, Forward(i));
            && End(s.flights[i]) == (if i + 1 < |s.flights| then s.flights[i + 1].start else Taken(s))
            && (i + 1 < |s.flights| ==> t.flights[i + 1].sent == 0 && !t.flights[i + 1].Done())
  {
    assert Adjacent(s, i);
    if i + 1 < |s.flights| { assert Placed(s, s.flights[i + 1]); }
  }

  lemma ForwardCounts<E>(limit: nat, s: State<E>, i: nat)
    requires Layout(s) && CountsToFirstOpen(s) && LaterUnsent(s) && Effective(s, Forward(i)) && InTurn(s, i)
    ensures CountsToFirstOpen(Step(limit, s, Forward(i))) && CountsToBuffer(Step(limit, s, Forward(i)))
  {
    NextIsUnsent(limit, s, i);
    hide Layout, LaterUnsent;
    var t := Step(limit, s, Forward(i));
    assert !s.flights[i].Done() && |s.log| == s.flights[i].start + s.flights[i].sent;
    assert (forall k :: 0 <= k < |t.flights| ==> t.flights[k].Done()) ==> t.flights[i].Done() && |t.log| == Taken(t) by {
      if i + 1 < |t.flights| { assert !t.flights[i + 1].Done(); }
    }
    forall j | 0 <= j < |t.flights| && InTurn(t, j) && !t.flights[j].Done()
      ensures |t.log| == t.flights[j].start + t.flights[j].sent
    {
      assert j > i ==> t.flights[i].Done() && j == i + 1;
    }
  }

  lemma ForwardLaterUnsent<E>(limit: nat, s: State<E>, i: nat)
    requires LaterUnsent(s) && Effective(s, Forward(i)) && InTurn(s, i)
    ensures LaterUnsent(Step(limit, s, Forward(i)))
  {
    var t := Step(limit, s, Forward(i));
    forall k, l | 0 <= k < l < |t.flights| && !t.flights[k].Done() ensures t.flights[l].sent == 0 {
      assert !s.flights[k].Done();
    }
  }

  lemma ForwardInStep<E>(limit: nat, s: State<E>, i: nat)
    requires Layout(s) && InStep(s) && Effective(s, Forward(i)) && InTurn(s, i)
    ensures InStep(Step(limit, s, Forward(i)))
  {
    hide Step, CountsToFirstOpen, LaterUnsent, CountsToBuffer;
    ForwardCounts(limit, s, i);
    ForwardLaterUnsent(limit, s, i);
  }

  lemma TakeCounts<E>(s: State<E>)
    requires Layout(s) && CountsToFirstOpen(s) && CountsToBuffer(s) && s.buffer != []
    ensures CountsToFirstOpen(Take(s)) && CountsToBuffer(Take(s))
  {
    var t, n := Take(s), |s.flights|;
    assert !t.flights[n].Done();
    forall i | 0 <= i <= n && InTurn(t, i) && !t.flights[i].Done()
      ensures |t.log| == t.flights[i].start + t.flights[i].sent
    {
      assert forall k :: 0 <= k < n ==> t.flights[k] == s.flights[k];
      if i < n { assert InTurn(s, i); }
    }
  }

  lemma TakeInStep<E>(s: State<E>)
    requires Layout(s) && InStep(s)
    ensures InStep(Take(s))
  {
    if s.buffer != [] {
      TakeCounts(s);
      hide CountsToFirstOpen, CountsToBuffer, Layout;
      var t := Take(s);
      forall i, l | 0 <= i < l < |t.flights| && !t.flights[i].Done() ensures t.flights[l].sent == 0 {
        assert t.flights[i] == s.flights[i];
      }
    }
  }

  lemma StepSequential<E>(limit: nat, s: State<E>, e: Event<E>)
    requires InStep(s) && Sequential(s.log) && (Effective(s, e) ==> InTurn(s, e.flight))
    ensures Sequential(Step(limit, s, e).log)
  {
    if Effective(s, e) {
      assert !s.flights[e.flight].Done();
      assert Step(limit, s, e).log == s.log + [Next(e.flight, s.flights[e.flight])];
    }
  }

  lemma StepInStep<E>(limit: nat, s: State<E>, e: Event<E>)
    requires Layout(s) && InStep(s) && (Effective(s, e) ==> InTurn(s, e.flight))
    ensures InStep(Step(limit, s, e))
  {
    hide InStep, Layout, InTurn;
    if e.CallerTakes? {
      TakeInStep(s);
    } else if e.BackgroundTakes? {
      TakeInStep(s);
      SameFlights(if s.background == Checked then Take(s) else s, Step(limit, s, e));
    } else if Effective(s, e) {
      ForwardInStep(limit, s, e.flight);
    } else {
      SameFlights(s, Step(limit, s, e));
    }
  }

  lemma SameFlights<E>(s: State<E>, t: State<E>)
    requires InStep(s) && t.flights == s.flights && t.log == s.log && Taken(t) == Taken(s)
    ensures InStep(t)
  {
    assert forall i :: 0 <= i < |t.flights| && InTurn(t, i) ==> InTurn(s, i);
  }

  /** An event that overtakes has its place further on than it is delivered. */
  lemma OvertakingShows<E>(limit: nat, s: State<E>, i: nat, k: nat)
    requires Tracked(s) && Effective(s, Forward(i)) && k < i && !s.flights[k].Done()
    ensures !Sequential(Step(limit, s, Forward(i)).log)
  {
    var t := Step(limit, s, Forward(i));
    var f, g := s.flights[i], s.flights[k];
    assert Placed(s, g) && Placed(s, f);
    var x := g.start + g.sent;
    assert x < f.start + f.sent;
    if Sequential(t.log) && f.start + f.sent == |s.log| {
      assert t.log[x] == s.log[x] && s.log[x] in s.log;
      var c := s.log[x].carrier;
      assert CarriedBy(s, s.log[x]) && Placed(s, s.flights[c]);
      assert t.log[x].index == x;
      NotSent(s, k, c, x);
    }
    assert t.log[|s.log|].index == f.start + f.sent;
  }

  /** The next event of flight `k` is in no other flight's stretch. */
  lemma NotSent<E>(s: State<E>, k: nat, c: nat, x: nat)
    requires Layout(s) && k < |s.flights| && c < |s.flights| && !s.flights[k].Done()
    requires x == s.flights[k].start + s.flights[k].sent
    ensures !(s.flights[c].start <= x < s.flights[c].start + s.flights[c].sent)
  {
    assert Placed(s, s.flights[k]) && Placed(s, s.flights[c]);
    if c < k { assert End(s.flights[c]) <= s.flights[k].start; }
    if k < c { assert End(s.flights[k]) <= s.flights[c].start; }
  }

  lemma {:induction false} BrokenStays<E>(limit: nat, s: State<E>, events: seq<Event<E>>)
    requires !Sequential(s.log)
    ensures !Sequential(Run(limit, s, events).log)
    decreases |events|
  {
    if events == [] {
    } else {
      var t := Step(limit, s, events[0]);
      var x :| 0 <= x < |s.log| && s.log[x].index != x;
      assert t.log[x] == s.log[x];
      BrokenStays(limit, t, events[1..]);
    }
  }

  lemma {:induction false} SequentialIff<E>(limit: nat, s: State<E>, events: seq<Event<E>>)
    requires Tracked(s) && InStep(s) && Sequential(s.log)
    ensures Sequential(Run(limit, s, events).log) <==> NoOvertaking(limit, s, events)
    ensures Tracked(Run(limit, s, events))
    decreases |events|
  {
    hide Layout, Carried, InStep, Step, Sequential, InTurn;
    if events == [] {
    } else {
      var e := events[0];
      var t := Step(limit, s, e);
      StepLayout(limit, s, e);
      StepCarried(limit, s, e);
      RunTracked(limit, t, events[1..]);
      if Effective(s, e) && !InTurn(s, e.flight) {
        Overtaken(limit, s, e);
        BrokenStays(limit, t, events[1..]);
      } else {
        StepInStep(limit, s, e);
        StepSequential(limit, s, e);
        SequentialIff(limit, t, events[1..]);
      }
    }
  }

  lemma Overtaken<E>(limit: nat, s: State<E>, e: Event<E>)
    requires Tracked(s) && Effective(s, e) && !InTurn(s, e.flight)
    ensures !Sequential(Step(limit, s, e).log)
  {
    hide Tracked, Sequential, Step;
    var k :| 0 <= k < e.flight && !s.flights[k].Done();
    OvertakingShows(limit, s, e.flight, k);
  }

  lemma {:induction false} RunTracked<E>(limit: nat, s: State<E>, events: seq<Event<E>>)
    requires Tracked(s)
    ensures Tracked(Run(limit, s, events))
    decreases |events|
  {
    hide Layout, Carried, Step;
    if events == [] {
    } else {
      StepLayout(limit, s, events[0]);
      StepCarried(limit, s, events[0]);
      RunTracked(limit, Step(limit, s, events[0]), events[1..]);
    }
  }

  /** What the inner sink has seen is the first accepted events, in order, exactly when no event
      was forwarded while an earlier batch had events left. */
  lemma DeliveredInOrderIff<E>(limit: nat, events: seq<Event<E>>)
    ensures Sequential(Run(limit, Init<E>(), events).log) <==> NoOvertaking(limit, Init<E>(), events)
  {
    SequentialIff(limit, Init<E>(), events);
  }

  lemma {:induction false} SequentialEvents<E>(log: seq<Delivery<E>>, accepted: seq<E>)
    requires Sequential(log)
    requires forall d :: d in log ==> d.index < |accepted| && d.event == accepted[d.index]
    ensures |log| <= |accepted| && Events(log) == accepted[..|log|]
    decreases |log|
  {
    if log == [] {
    } else {
      var n := |log| - 1;
      assert forall x :: 0 <= x < n ==> log[..n][x].index == x;
      SequentialEvents(log[..n], accepted);
      assert log[n] in log;
      assert accepted[..n + 1] == accepted[..n] + [accepted[n]];
    }
  }

  /** Then they are a prefix of the accepted events. */
  lemma NoOvertakingGivesPrefix<E>(limit: nat, events: seq<Event<E>>)
    requires NoOvertaking(limit, Init<E>(), events)
    ensures var s := Run(limit, Init<E>(), events);
            Events(s.log) <= s.accepted
  {
    DeliveredInOrderIff(limit, events);
    RunTracked(limit, Init<E>(), events);
    var s := Run(limit, Init<E>(), events);
    assert forall d :: d in s.log ==> CarriedBy(s, d);
    SequentialEvents(s.log, s.accepted);
  }

  // One flusher at a time

  ghost predicate AllDone<E>(flights: seq<Flight<E>>) {
    forall i :: 0 <= i < |flights| ==> flights[i].Done()
  }

  predicate Takes<E>(e: Event<E>) {
    e.CallerTakes? || e.BackgroundTakes?
  }

  /** No batch is taken while another is being forwarded. */
  ghost predicate OneFlusher<E>(limit: nat, s: State<E>, events: seq<Event<E>>)
    decreases |events|
  {
    events == [] || (
      && (Takes(events[0]) ==> AllDone(s.flights))
      && OneFlusher(limit, Step(limit, s, events[0]), events[1..]))
  }

  ghost predicate OnlyLastOpen<E>(flights: seq<Flight<E>>) {
    forall i :: 0 <= i < |flights| - 1 ==> flights[i].Done()
  }

  lemma {:induction false} OneFlusherNeverOvertakes<E>(limit: nat, s: State<E>, events: seq<Event<E>>)
    requires OnlyLastOpen(s.flights) && OneFlusher(limit, s, events)
    ensures NoOvertaking(limit, s, events)
    decreases |events|
  {
    if events == [] {
    } else {
      OneFlusherNeverOvertakes(limit, Step(limit, s, events[0]), events[1..]);
    }
  }

  /** With a single flusher the inner sink sees a prefix of the accepted events. */
  lemma DeliveredIsAPrefix<E>(limit: nat, events: seq<Event<E>>)
    requires OneFlusher(limit, Init<E>(), events)
    ensures var s := Run(limit, Init<E>(), events);
            Events(s.log) <= s.accepted
  {
    OneFlusherNeverOvertakes(limit, Init<E>(), events);
    NoOvertakingGivesPrefix(limit, events);
  }

  /** Two flushers at once can deliver a later event first. */
  lemma TwoFlushersReorder<E>(x: E, y: E)
    ensures var events := [Record(x), CallerTakes, Record(y), CallerTakes, Forward(1), Forward(0)];
            var s := Run(2, Init<E>(), events);
            s.accepted == [x, y] && s.log == [Delivery(1, 1, y), Delivery(0, 0, x)]
  {
    var es := [Record(x), CallerTakes, Record(y), CallerTakes, Forward(1), Forward(0)];
    var b := Step(2, Init<E>(), Record(x));
    var c := Step(2, b, CallerTakes);
    var d := Step(2, c, Record(y));
    var e := Step(2, d, CallerTakes);
    var f := Step(2, e, Forward(1));
    var g := Step(2, f, Forward(0));
    assert Run(2, Init<E>(), es) == Run(2, b, es[1..]) == Run(2, c, es[2..]) == Run(2, d, es[3..]);
    assert Run(2, d, es[3..]) == Run(2, e, es[4..]) == Run(2, f, es[5..]) == Run(2, g, es[6..]) == g;
  }

  // Shutting down

  function BackgroundBatches<E>(limit: nat, s: State<E>, events: seq<Event<E>>): nat
    decreases |events|
  {
    if events == [] then 0
    else
      (if events[0].BackgroundTakes? && s.background == Checked && s.buffer != [] then 1 else 0)
      + BackgroundBatches(limit, Step(limit, s, events[0]), events[1..])
  }

  /** Once the flag is set the background flusher takes at most one more batch, and none unless
      it was already past its check. */
  lemma {:induction false} BackgroundStops<E>(limit: nat, s: State<E>, events: seq<Event<E>>)
    requires s.stop
    ensures BackgroundBatches(limit, s, events) <= if s.background == Checked then 1 else 0
    decreases |events|
  {
    if events == [] {
    } else {
      BackgroundStops(limit, Step(limit, s, events[0]), events[1..]);
    }
  }
}
