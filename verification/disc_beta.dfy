/** Discounted Beta estimates of tool use: crates/remo-ext-deferred-tools/src/state.rs. Rounding
    is not part of this model: the parameters are reals. */
module DiscBeta {
  import opened Wrappers

  datatype Entry = Entry(alpha: real, beta: real, lastUsedTurn: Option<nat>)
  {
    function EffectiveN(): real {
      alpha + beta
    }

    function Mean(): real {
      if EffectiveN() < 0.0000000001 then 0.0 else alpha / EffectiveN()
    }
  }

  function MaxReal(a: real, b: real): real {
    if a < b then b else a
  }

  function NewEntry(prior: real, n0: real): Entry {
    Entry(MaxReal(prior * n0, 0.01), MaxReal((1.0 - prior) * n0, 0.01), None)
  }

  /** One turn: both parameters are discounted, then the observation is added. */
  function Observed(e: Entry, omega: real, turn: nat, called: bool): Entry {
    if called then Entry(e.alpha * omega + 1.0, e.beta * omega, Some(turn))
    else Entry(e.alpha * omega, e.beta * omega + 1.0, e.lastUsedTurn)
  }

  /** Turns from `turn` on, one flag a turn. */
  function After(e: Entry, omega: real, turn: nat, calls: seq<bool>): Entry
    decreases |calls|
  {
    if calls == [] then e else After(Observed(e, omega, turn, calls[0]), omega, turn + 1, calls[1..])
  }

  predicate FirstOf(entries: seq<(string, Entry)>, i: nat)
    requires i < |entries|
  {
    forall j :: 0 <= j < i ==> entries[j].0 != entries[i].0
  }

  class DiscBetaState {
    var tools: map<string, Entry>

    constructor ()
      ensures tools == map[]
    {
      tools := map[];
    }

    /** Entries already present are kept. */
    method InitBatch(entries: seq<(string, Entry)>)
      modifies this
      ensures forall id :: id in old(tools) ==> id in tools && tools[id] == old(tools)[id]
      ensures forall id :: id in tools <==> id in old(tools) || exists i :: 0 <= i < |entries| && entries[i].0 == id
      ensures forall i :: 0 <= i < |entries| && entries[i].0 !in old(tools) && FirstOf(entries, i) ==>
                tools[entries[i].0] == entries[i].1
    {
      for i := 0 to |entries|
        invariant forall id :: id in old(tools) ==> id in tools && tools[id] == old(tools)[id]
        invariant forall id :: id in tools <==> id in old(tools) || exists k :: 0 <= k < i && entries[k].0 == id
        invariant forall k :: 0 <= k < i && entries[k].0 !in old(tools) && FirstOf(entries, k) ==>
                    tools[entries[k].0] == entries[k].1
      {
        if entries[i].0 !in tools { tools := tools[entries[i].0 := entries[i].1]; }
      }
    }

    /** Every tool is updated once, whether or not it was called. */
    method ObserveTurn(omega: real, turn: nat, toolsCalled: seq<string>)
      modifies this
      ensures tools == map id | id in old(tools) :: Observed(old(tools)[id], omega, turn, id in toolsCalled)
    {
      var todo := tools.Keys;
      while todo != {}
        invariant todo <= old(tools).Keys && tools.Keys == old(tools).Keys
        invariant forall id :: id in tools ==>
            tools[id] == if id in todo then old(tools)[id] else Observed(old(tools)[id], omega, turn, id in toolsCalled)
        decreases todo
      {
        var id :| id in todo;
        var e := tools[id];
        var alpha, beta := e.alpha * omega, e.beta * omega;
        if id in toolsCalled {
          tools := tools[id := Entry(alpha + 1.0, beta, Some(turn))];
        } else {
          tools := tools[id := Entry(alpha, beta + 1.0, e.lastUsedTurn)];
        }
        assert tools[id] == Observed(old(tools)[id], omega, turn, id in toolsCalled);
        todo := todo - {id};
      }
    }
  }

  predicate Weighted(e: Entry) {
    e.alpha >= 0.0 && e.beta >= 0.0
  }

  function Power(x: real, k: nat): real {
    if k == 0 then 1.0 else x * Power(x, k - 1)
  }

  lemma Scale(a: real, b: real, c: real)
    requires a <= b && c >= 0.0
    ensures a * c <= b * c
  {
    assert (b - a) * c >= 0.0;
  }

  lemma ShrinkUnit(x: real, q: real)
    requires 0.0 <= x < 1.0 && 0.0 <= q <= 1.0
    ensures 0.0 <= x * q <= 1.0
  {
    Scale(0.0, x, q);
    Scale(x, 1.0, q);
    assert 1.0 * q == q && 0.0 * q == 0.0;
  }

  lemma {:induction false} PowerBounds(x: real, k: nat)
    requires 0.0 <= x < 1.0
    ensures 0.0 <= Power(x, k) <= 1.0
  {
    if k > 0 {
      PowerBounds(x, k - 1);
      ShrinkUnit(x, Power(x, k - 1));
    }
  }

  lemma NewEntryIsWeighted(prior: real, n0: real)
    ensures NewEntry(prior, n0).alpha >= 0.01 && NewEntry(prior, n0).beta >= 0.01
  {}

  /** The prior becomes the mean of a new entry, and the strength its sample size, unless one side
      would start below the smallest parameter. */
  lemma NewEntryHasThePrior(prior: real, n0: real)
    requires prior * n0 >= 0.01 && (1.0 - prior) * n0 >= 0.01
    ensures NewEntry(prior, n0).EffectiveN() == n0 && NewEntry(prior, n0).Mean() == prior
    ensures NewEntry(prior, n0).lastUsedTurn.None?
  {
    var e := NewEntry(prior, n0);
    assert (1.0 - prior) * n0 == n0 - prior * n0;
    assert e.alpha == prior * n0 && e.EffectiveN() == n0 >= 0.02;
    Cancel(prior, n0);
  }

  lemma {:induction false} IdleKeepsLastUsed(e: Entry, omega: real, turn: nat, calls: seq<bool>)
    requires forall i :: 0 <= i < |calls| ==> !calls[i]
    ensures After(e, omega, turn, calls).lastUsedTurn == e.lastUsedTurn
    decreases |calls|
  {
    if calls == [] {
    } else {
      IdleKeepsLastUsed(Observed(e, omega, turn, calls[0]), omega, turn + 1, calls[1..]);
    }
  }

  /** The last used turn is the last one on which the tool was called. */
  lemma {:induction false} LastUsedIs(e: Entry, omega: real, turn: nat, calls: seq<bool>, i: nat)
    requires i < |calls| && calls[i] && forall j :: i < j < |calls| ==> !calls[j]
    ensures After(e, omega, turn, calls).lastUsedTurn == Some(turn + i)
    decreases |calls|
  {
    var f := Observed(e, omega, turn, calls[0]);
    if i == 0 {
      IdleKeepsLastUsed(f, omega, turn + 1, calls[1..]);
    } else {
      LastUsedIs(f, omega, turn + 1, calls[1..], i - 1);
    }
  }

  lemma {:induction false} StaysWeighted(e: Entry, omega: real, turn: nat, calls: seq<bool>)
    requires Weighted(e) && 0.0 <= omega < 1.0
    ensures Weighted(After(e, omega, turn, calls))
    decreases |calls|
  {
    if calls == [] {
    } else {
      assert e.alpha * omega >= 0.0 && e.beta * omega >= 0.0;
      StaysWeighted(Observed(e, omega, turn, calls[0]), omega, turn + 1, calls[1..]);
    }
  }

  /** What turns with total discount `p` make of a total of `n`. */
  function Discounted(p: real, omega: real, n: real): real
    requires omega < 1.0
  {
    p * n + (1.0 - p) / (1.0 - omega)
  }

  lemma OneTurn(e: Entry, omega: real, turn: nat, called: bool)
    ensures Observed(e, omega, turn, called).EffectiveN() == omega * e.EffectiveN() + 1.0
  {
    assert omega * (e.alpha + e.beta) == e.alpha * omega + e.beta * omega;
  }

  lemma Cancel(p: real, d: real)
    requires d > 0.0
    ensures p * d / d == p
  {}

  lemma AddOver(a: real, b: real, d: real)
    requires d > 0.0
    ensures a / d + b / d == (a + b) / d
  {}

  lemma TotalStep(p: real, q: real, omega: real, n: real, m: real)
    requires omega < 1.0 && q == omega * p && m == omega * n + 1.0
    ensures Discounted(p, omega, m) == Discounted(q, omega, n)
  {
    var d := 1.0 - omega;
    Cancel(p, d);
    AddOver(p * d, 1.0 - p, d);
    assert p * m == q * n + p;
    assert p * d + (1.0 - p) == 1.0 - q;
  }

  lemma NoTurns(omega: real, n: real)
    requires omega < 1.0
    ensures Discounted(1.0, omega, n) == n
  {
    Cancel(0.0, 1.0 - omega);
  }

  /** The effective sample size after `k` turns is the same whichever turns called the tool. */
  lemma {:induction false} EffectiveNClosed(e: Entry, omega: real, turn: nat, calls: seq<bool>)
    requires 0.0 <= omega < 1.0
    ensures After(e, omega, turn, calls).EffectiveN()
            == Discounted(Power(omega, |calls|), omega, e.EffectiveN())
    decreases |calls|
  {
    hide Observed, Discounted;
    if calls == [] {
      NoTurns(omega, e.EffectiveN());
    } else {
      var f := Observed(e, omega, turn, calls[0]);
      EffectiveNClosed(f, omega, turn + 1, calls[1..]);
      OneTurn(e, omega, turn, calls[0]);
      var p, n := Power(omega, |calls| - 1), e.EffectiveN();
      assert f.EffectiveN() == omega * n + 1.0;
      TotalStep(p, Power(omega, |calls|), omega, n, f.EffectiveN());
    }
  }

  /** It never exceeds the larger of where it began and the limit of the recurrence. */
  lemma EffectiveNBounded(e: Entry, omega: real, turn: nat, calls: seq<bool>)
    requires 0.0 <= omega < 1.0
    ensures After(e, omega, turn, calls).EffectiveN() <= MaxReal(e.EffectiveN(), 1.0 / (1.0 - omega))
  {
    hide After, Power, Discounted;
    EffectiveNClosed(e, omega, turn, calls);
    PowerBounds(omega, |calls|);
    Mixture(Power(omega, |calls|), e.EffectiveN(), omega);
  }

  lemma Mixture(p: real, n: real, omega: real)
    requires 0.0 <= p <= 1.0 && 0.0 <= omega < 1.0
    ensures Discounted(p, omega, n) <= MaxReal(n, 1.0 / (1.0 - omega))
  {
    var limit := 1.0 / (1.0 - omega);
    var m := MaxReal(n, limit);
    assert (1.0 - p) / (1.0 - omega) == limit * (1.0 - p);
    Scale(n, m, p);
    Scale(limit, m, 1.0 - p);
    assert m * p + m * (1.0 - p) == m;
  }

  lemma MeanInRange(e: Entry)
    requires Weighted(e)
    ensures 0.0 <= e.Mean() <= 1.0
  {
    var n := e.EffectiveN();
    if n >= 0.0000000001 {
      assert e.alpha / n <= n / n by { Ratio(e.alpha, n, n, n); }
      assert e.alpha / n >= 0.0 / n by { Ratio(0.0, n, e.alpha, n); }
    }
  }

  lemma Ratio(a: real, m: real, b: real, n: real)
    requires m > 0.0 && n > 0.0
    ensures a / m <= b / n <==> a * n <= b * m
    ensures a / m < b / n <==> a * n < b * m
  {
    var x, y := a / m, b / n;
    assert a == x * m && b == y * n;
    var k := m * n;
    assert k > 0.0;
    assert a * n == x * k && b * m == y * k;
    if x < y { assert (y - x) * k > 0.0; }
    if x > y { assert (x - y) * k > 0.0; }
  }

  /** On an idle turn the mean falls exactly when there is something to lose; below the code's
      smallest total the mean reads zero beforehand, and then it cannot fall. */
  lemma IdleTurnFallsIff(e: Entry, omega: real, turn: nat)
    requires Weighted(e) && 0.0 <= omega < 1.0
    ensures Observed(e, omega, turn, false).Mean() < e.Mean() <==>
            e.alpha > 0.0 && e.EffectiveN() >= 0.0000000001
  {
    var f := Observed(e, omega, turn, false);
    var n := e.EffectiveN();
    assert e.alpha * omega >= 0.0 && e.beta * omega >= 0.0;
    MeanInRange(f);
    if n >= 0.0000000001 {
      assert f.EffectiveN() == omega * n + 1.0;
      Ratio(f.alpha, f.EffectiveN(), e.alpha, n);
      assert f.alpha * n == e.alpha * (omega * n);
      assert e.alpha * f.EffectiveN() == e.alpha * (omega * n) + e.alpha;
    }
  }

  /** The tool was called on every turn of `xs` on which it was called in `ys`. */
  predicate Covers(xs: seq<bool>, ys: seq<bool>) {
    |xs| == |ys| && forall i :: 0 <= i < |xs| ==> (ys[i] ==> xs[i])
  }

  lemma {:induction false} MoreCallsMoreAlpha(
      e: Entry, f: Entry, omega: real, turn: nat, xs: seq<bool>, ys: seq<bool>)
    requires 0.0 <= omega < 1.0 && Covers(xs, ys)
    requires f.alpha <= e.alpha && e.EffectiveN() == f.EffectiveN()
    ensures After(f, omega, turn, ys).alpha <= After(e, omega, turn, xs).alpha
    ensures After(f, omega, turn, ys).EffectiveN() == After(e, omega, turn, xs).EffectiveN()
    decreases |xs|
  {
    if xs == [] {
    } else {
      assert f.alpha * omega <= e.alpha * omega;
      var e', f' := Observed(e, omega, turn, xs[0]), Observed(f, omega, turn, ys[0]);
      assert e'.EffectiveN() == omega * e.EffectiveN() + 1.0 == f'.EffectiveN();
      MoreCallsMoreAlpha(e', f', omega, turn + 1, xs[1..], ys[1..]);
    }
  }

  /** A tool called on a superset of the turns has at least as large a mean. */
  lemma SupersetHasLargerMean(e: Entry, omega: real, turn: nat, xs: seq<bool>, ys: seq<bool>)
    requires Weighted(e) && 0.0 <= omega < 1.0 && Covers(xs, ys)
    ensures After(e, omega, turn, ys).Mean() <= After(e, omega, turn, xs).Mean()
  {
    MoreCallsMoreAlpha(e, e, omega, turn, xs, ys);
    var f, g := After(e, omega, turn, ys), After(e, omega, turn, xs);
    var n := g.EffectiveN();
    if n >= 0.0000000001 {
      Ratio(f.alpha, n, g.alpha, n);
      assert f.alpha * n <= g.alpha * n;
    }
  }
}
