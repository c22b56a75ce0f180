/** Matching recorded tool calls against an expectation: crates/remo-eval/src/score.rs and
    crates/remo-eval/src/expectation.rs. */
module Matching {
  import opened Wrappers
  import opened JsonValue
  import opened Saturating

  // Tool sequences

  /** `at` places every element of `needle` in `haystack`, in the same order. */
  ghost predicate Embeds<T>(at: seq<nat>, needle: seq<T>, haystack: seq<T>) {
    && |at| == |needle|
    && (forall i, j :: 0 <= i < j < |at| ==> at[i] < at[j])
    && forall i :: 0 <= i < |at| ==> at[i] < |haystack| && haystack[at[i]] == needle[i]
  }

  ghost predicate Subsequence<T>(needle: seq<T>, haystack: seq<T>) {
    exists at :: Embeds(at, needle, haystack)
  }

  lemma DropLast<T>(at: seq<nat>, needle: seq<T>, haystack: seq<T>)
    requires needle != [] && Embeds(at, needle, haystack)
    ensures Embeds(at[..|at| - 1], needle[..|needle| - 1], haystack[..at[|at| - 1]])
  {}

  lemma KeepFirst<T>(needle: seq<T>, haystack: seq<T>, n: nat)
    requires n <= |needle|
    ensures Subsequence(needle, haystack) ==> Subsequence(needle[..n], haystack)
  {
    if Subsequence(needle, haystack) {
      var at :| Embeds(at, needle, haystack);
      assert Embeds(at[..n], needle[..n], haystack);
    }
  }

  lemma ExtendHaystack<T>(at: seq<nat>, needle: seq<T>, haystack: seq<T>, k: nat)
    requires k <= |haystack| && Embeds(at, needle, haystack[..k])
    ensures Embeds(at, needle, haystack)
  {}

  lemma NoPlace<T>(needle: seq<T>, haystack: seq<T>)
    requires needle != []
    ensures !Subsequence(needle, haystack[..0])
  {
    forall at: seq<nat> ensures !Embeds(at, needle, haystack[..0]) {
      assert |at| == |needle| ==> at[0] >= |haystack[..0]|;
    }
  }

  /** How the last element of a needle can be placed once the haystack grows by one. */
  lemma GrowByOne<T>(needle: seq<T>, x: T, haystack: seq<T>, k: nat)
    requires k < |haystack|
    ensures Subsequence(needle + [x], haystack[..k + 1]) <==>
            || Subsequence(needle + [x], haystack[..k])
            || (haystack[k] == x && Subsequence(needle, haystack[..k]))
  {
    var longer, n := needle + [x], |needle|;
    if Subsequence(longer, haystack[..k + 1]) {
      var at :| Embeds(at, longer, haystack[..k + 1]);
      if at[n] < k {
        assert Embeds(at, longer, haystack[..k]);
      } else {
        DropLast(at, longer, haystack[..k + 1]);
        assert longer[..n] == needle;
        assert haystack[..k + 1][..at[n]] == haystack[..k];
      }
    }
    if Subsequence(longer, haystack[..k]) {
      var at :| Embeds(at, longer, haystack[..k]);
      assert Embeds(at, longer, haystack[..k + 1]);
    }
    if haystack[k] == x && Subsequence(needle, haystack[..k]) {
      var at :| Embeds(at, needle, haystack[..k]);
      assert Embeds(at + [k], longer, haystack[..k + 1]);
    }
  }

  /** The greedy scan finds an order-preserving embedding whenever there is one. */
  method IsOrderedSubseq(needle: seq<string>, haystack: seq<string>) returns (found: bool)
    ensures found <==> Subsequence(needle, haystack)
  {
    var i, k := 0, 0;
    assert Embeds([], needle[..0], haystack[..0]);
    if |needle| > 0 { NoPlace(needle[..1], haystack); }
    while k < |haystack|
      invariant 0 <= i <= |needle| && 0 <= k <= |haystack|
      invariant Subsequence(needle[..i], haystack[..k])
      invariant i < |needle| ==> !Subsequence(needle[..i + 1], haystack[..k])
    {
      if i >= |needle| { break; }
      assert needle[..i + 1] == needle[..i] + [needle[i]];
      GrowByOne(needle[..i], needle[i], haystack, k);
      if haystack[k] == needle[i] {
        if i + 1 < |needle| {
          assert needle[..i + 2] == needle[..i + 1] + [needle[i + 1]];
          GrowByOne(needle[..i + 1], needle[i + 1], haystack, k);
          assert needle[..i + 2][..i + 1] == needle[..i + 1];
          KeepFirst(needle[..i + 2], haystack[..k], i + 1);
        }
        i := i + 1;
      } else {
        ghost var at :| Embeds(at, needle[..i], haystack[..k]);
        assert Embeds(at, needle[..i], haystack[..k + 1]);
      }
      k := k + 1;
    }
    found := i == |needle|;
    ghost var at :| Embeds(at, needle[..i], haystack[..k]);
    ExtendHaystack(at, needle[..i], haystack, k);
    if found {
      assert needle[..i] == needle;
    } else {
      assert haystack[..k] == haystack;
      KeepFirst(needle, haystack, i + 1);
    }
  }

  /** Dropping expected tools, or recording more calls, never makes a match fail. */
  lemma SubsequenceTransitive<T>(a: seq<T>, b: seq<T>, c: seq<T>)
    requires Subsequence(a, b) && Subsequence(b, c)
    ensures Subsequence(a, c)
  {
    var f :| Embeds(f, a, b);
    var g :| Embeds(g, b, c);
    assert Embeds(seq(|f|, i requires 0 <= i < |f| => g[f[i]]), a, c);
  }

  /** The exact mode is the strict case of the subsequence mode. */
  lemma ExactIsLongestSubsequence<T>(a: seq<T>, b: seq<T>)
    ensures a == b <==> |a| == |b| && Subsequence(a, b)
  {
    if a == b { assert Embeds(seq(|a|, i => i), a, b); }
    if |a| == |b| && Subsequence(a, b) {
      var at :| Embeds(at, a, b);
      forall i | 0 <= i < |a| ensures at[i] == i { FullEmbedding(at, |b|, i); }
    }
  }

  lemma {:induction false} AtLeastIndex(at: seq<nat>, i: nat)
    requires i < |at| && forall i, j :: 0 <= i < j < |at| ==> at[i] < at[j]
    ensures i <= at[i]
  {
    if i > 0 { AtLeastIndex(at, i - 1); }
  }

  lemma {:induction false} FullEmbedding(at: seq<nat>, n: nat, i: nat)
    requires |at| == n && i < n
    requires forall i, j :: 0 <= i < j < |at| ==> at[i] < at[j]
    requires forall i :: 0 <= i < |at| ==> at[i] < n
    ensures at[i] == i
    decreases n - i
  {
    AtLeastIndex(at, i);
    if i + 1 < n { FullEmbedding(at, n, i + 1); }
  }

  // Matching calls

  datatype CountConstraint = Exactly(n: nat) | AtLeast(n: nat) | AtMost(n: nat)
  {
    predicate Allows(actual: nat) {
      match this
      case Exactly(n) => actual == n
      case AtLeast(n) => actual >= n
      case AtMost(n) => actual <= n
    }
  }

  datatype ToolCallMatcher = ToolCallMatcher(
    name: string, argsSubset: Option<Json>, resultSubset: Option<Json>, count: Option<CountConstraint>)

  datatype ToolSpan = ToolSpan(name: string, callArguments: Option<Json>, callResult: Option<Json>)

  /** A filter passes only when the field was captured and covers it. */
  predicate Passes(filter: Option<Json>, captured: Option<Json>) {
    filter.Some? ==> captured.Some? && JsonSubset(filter.value, captured.value)
  }

  predicate Matches(m: ToolCallMatcher, span: ToolSpan) {
    span.name == m.name && Passes(m.argsSubset, span.callArguments) && Passes(m.resultSubset, span.callResult)
  }

  ghost function MatchingCalls(m: ToolCallMatcher, spans: seq<ToolSpan>): set<nat> {
    set i: nat | i < |spans| && Matches(m, spans[i])
  }

  method CountMatchingCalls(m: ToolCallMatcher, spans: seq<ToolSpan>) returns (n: nat)
    ensures n == Saturated(|MatchingCalls(m, spans)|, U32_MAX)
  {
    n := 0;
    for i := 0 to |spans|
      invariant n == Saturated(|MatchingCalls(m, spans[..i])|, U32_MAX)
    {
      var span := spans[i];
      OneMoreSpan(m, spans, i);
      if span.name != m.name { continue; }
      if m.argsSubset.Some? {
        if span.callArguments.None? || !JsonSubset(m.argsSubset.value, span.callArguments.value) { continue; }
      }
      if m.resultSubset.Some? {
        if span.callResult.None? || !JsonSubset(m.resultSubset.value, span.callResult.value) { continue; }
      }
      n := SaturatingInc(n, U32_MAX);
    }
    assert spans[..|spans|] == spans;
  }

  lemma OneMoreSpan(m: ToolCallMatcher, spans: seq<ToolSpan>, i: nat)
    requires i < |spans|
    ensures |MatchingCalls(m, spans[..i + 1])|
            == |MatchingCalls(m, spans[..i])| + if Matches(m, spans[i]) then 1 else 0
  {
    assert MatchingCalls(m, spans[..i + 1])
        == MatchingCalls(m, spans[..i]) + if Matches(m, spans[i]) then {i} else {};
  }

  predicate WeakerFilter(f: Option<Json>, g: Option<Json>) {
    g.Some? ==> f.Some? && JsonSubset(g.value, f.value)
  }

  /** `w` asks of a call no more than `m` does. */
  predicate Weaker(m: ToolCallMatcher, w: ToolCallMatcher) {
    w.name == m.name && WeakerFilter(m.argsSubset, w.argsSubset) && WeakerFilter(m.resultSubset, w.resultSubset)
  }

  lemma FilterWeakens(f: Option<Json>, g: Option<Json>, captured: Option<Json>)
    requires WeakerFilter(f, g) && Passes(f, captured)
    ensures Passes(g, captured)
  {
    if g.Some? { SubsetTransitive(g.value, f.value, captured.value); }
  }

  lemma SmallerSet<T>(a: set<T>, b: set<T>)
    requires a <= b
    ensures |a| <= |b|
  {
    assert b == a + (b - a);
  }

  /** Weakening a matcher's filters never lowers its count. */
  lemma WeakerCountsMore(m: ToolCallMatcher, w: ToolCallMatcher, spans: seq<ToolSpan>)
    requires Weaker(m, w)
    ensures |MatchingCalls(m, spans)| <= |MatchingCalls(w, spans)|
  {
    forall i | i in MatchingCalls(m, spans) ensures i in MatchingCalls(w, spans) {
      FilterWeakens(m.argsSubset, w.argsSubset, spans[i].callArguments);
      FilterWeakens(m.resultSubset, w.resultSubset, spans[i].callResult);
    }
    SmallerSet(MatchingCalls(m, spans), MatchingCalls(w, spans));
  }

  /** The call that a matcher accepts and that tells it from every matcher not weaker. */
  function Tightest(m: ToolCallMatcher): ToolSpan {
    ToolSpan(m.name, m.argsSubset, m.resultSubset)
  }

  lemma TightestMatches(m: ToolCallMatcher, w: ToolCallMatcher)
    ensures Matches(m, Tightest(m))
    ensures Matches(w, Tightest(m)) <==> Weaker(m, w)
  {
    if m.argsSubset.Some? { SubsetReflexive(m.argsSubset.value); }
    if m.resultSubset.Some? { SubsetReflexive(m.resultSubset.value); }
  }

  /** The filters' structural weakening is the only way never to lose a match. */
  lemma WeakerIff(m: ToolCallMatcher, w: ToolCallMatcher)
    ensures Weaker(m, w) <==> forall spans :: |MatchingCalls(m, spans)| <= |MatchingCalls(w, spans)|
  {
    if Weaker(m, w) {
      forall spans ensures |MatchingCalls(m, spans)| <= |MatchingCalls(w, spans)| { WeakerCountsMore(m, w, spans); }
    } else {
      TightestMatches(m, w);
      var spans := [Tightest(m)];
      assert MatchingCalls(m, spans) == {0};
      assert MatchingCalls(w, spans) == {};
    }
  }

  /** What `score` demands of a required call; without a count it asks for one call or more. */
  ghost predicate Satisfied(m: ToolCallMatcher, spans: seq<ToolSpan>) {
    var constraint := if m.count.Some? then m.count.value else AtLeast(1);
    constraint.Allows(Saturated(|MatchingCalls(m, spans)|, U32_MAX))
  }

  /** A matcher without a count asks for one matching call. */
  lemma WithoutCountIsOnce(m: ToolCallMatcher, spans: seq<ToolSpan>)
    requires m.count.None?
    ensures Satisfied(m, spans) <==> exists i :: 0 <= i < |spans| && Matches(m, spans[i])
  {
    var found := MatchingCalls(m, spans);
    if exists i :: 0 <= i < |spans| && Matches(m, spans[i]) {
      var i: nat :| i < |spans| && Matches(m, spans[i]);
      assert i in found;
      SmallerSet({i}, found);
    }
    if found != {} { var i :| i in found; }
  }

  /** A bound from below and one from above meet in the exact count, and every number but one
      falls below the one or above the other. */
  lemma BoundsMeet(n: nat, actual: nat)
    ensures Exactly(n).Allows(actual) <==> AtLeast(n).Allows(actual) && AtMost(n).Allows(actual)
    ensures AtLeast(n + 1).Allows(actual) <==> !AtMost(n).Allows(actual)
    ensures AtLeast(n).Allows(n) && !AtLeast(n + 1).Allows(n)
  {}

  /** A lower bound survives weakening the filters, an upper bound survives tightening them. */
  lemma WeakeningKeepsVerdict(m: ToolCallMatcher, w: ToolCallMatcher, spans: seq<ToolSpan>)
    requires Weaker(m, w) && m.count == w.count
    ensures m.count.None? || m.count.value.AtLeast? ==> Satisfied(m, spans) ==> Satisfied(w, spans)
    ensures m.count.Some? && m.count.value.AtMost? ==> Satisfied(w, spans) ==> Satisfied(m, spans)
  {
    WeakerCountsMore(m, w, spans);
  }
}
