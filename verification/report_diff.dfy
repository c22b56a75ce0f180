/** Baseline diff of evaluation runs: crates/remo-eval/src/report.rs. */
module ReportDiff {
  import opened Wrappers
  import opened Ordering

  /** The compared observations of a passing run, in the order a drift lists them. */
  datatype Field =
    | FinalText | InferenceCount | ToolCount | ToolFailures | TotalInputTokens | TotalOutputTokens
    | TotalTokens | ErrorType | InferenceErrorCount | RuntimeFailure | ToolCallsByAgent | CostUsd
    | RevisionCount | JudgeScore

  const FIELDS: seq<Field> := [
    FinalText, InferenceCount, ToolCount, ToolFailures, TotalInputTokens, TotalOutputTokens,
    TotalTokens, ErrorType, InferenceErrorCount, RuntimeFailure, ToolCallsByAgent, CostUsd,
    RevisionCount, JudgeScore]

  datatype Observation = Text(s: string) | Number(n: int) | Amount(x: real) | Calls(calls: map<string, nat>)

  /** An absent observation is a `None` of the source. */
  datatype Report = Report(fixtureId: string, passed: bool, failures: seq<string>, observed: map<Field, Observation>)

  datatype MatrixCell = MatrixCell(modelId: Option<string>)

  datatype Item = Item(fixtureId: string, cell: Option<MatrixCell>, sampleIndex: Option<nat>, report: Report)

  datatype Key = Key(fixtureId: string, cell: MatrixCell, sampleIndex: Option<nat>)

  const DEFAULT_CELL := MatrixCell(None)

  function KeyOf(item: Item): Key {
    Key(item.fixtureId, if item.cell.Some? then item.cell.value else DEFAULT_CELL, item.sampleIndex)
  }

  /** Items are paired when fixture, model and sample are the same; an item without a cell counts as
      one of the default model. */
  lemma PairedIff(a: Item, b: Item)
    ensures KeyOf(a) == KeyOf(b) <==>
            && a.fixtureId == b.fixtureId && a.sampleIndex == b.sampleIndex
            && (if a.cell.Some? then a.cell.value.modelId else None) == (if b.cell.Some? then b.cell.value.modelId else None)
  {}

  datatype Change =
    | Unchanged
    | Regression(newFailures: seq<string>)
    | Fixed
    | StillFailing(newFailures: seq<string>)
    | Drift(fields: seq<Field>)
    | MissingFromNew
    | NewlyAdded(passed: bool)
  {
    predicate IsBlocking() {
      Regression? || MissingFromNew? || Drift? || (NewlyAdded? && !passed)
    }
  }

  datatype Entry = Entry(fixtureId: string, cell: Option<MatrixCell>, sampleIndex: Option<nat>, change: Change)

  // ---- Key order ---------------------------------------------------------------------------

  predicate OptionLess<T(==)>(a: Option<T>, b: Option<T>, less: (T, T) -> bool) {
    b.Some? && (a.None? || less(a.value, b.value))
  }

  /** The derived `Ord` of the key triple. */
  predicate KeyLess(a: Key, b: Key) {
    if a.fixtureId != b.fixtureId then StringLess(a.fixtureId, b.fixtureId)
    else if a.cell != b.cell then OptionLess(a.cell.modelId, b.cell.modelId, StringLess)
    else OptionLess(a.sampleIndex, b.sampleIndex, NatLess)
  }

  predicate NatLess(x: nat, y: nat) {
    x < y
  }

  lemma KeyOrder()
    ensures StrictTotal(KeyLess)
  {
    StringOrder();
    hide StringLess;
    forall a: Key ensures !KeyLess(a, a) {}
    forall a: Key, b: Key, c: Key | KeyLess(a, b) && KeyLess(b, c) ensures KeyLess(a, c) {}
    forall a: Key, b: Key ensures KeyLess(a, b) || a == b || KeyLess(b, a) {
      assert a.cell.modelId == b.cell.modelId ==> a.cell == b.cell;
    }
  }

  // ---- Pairing -----------------------------------------------------------------------------

  function Observe(r: Report, f: Field): Option<Observation> {
    if f in r.observed then Some(r.observed[f]) else None
  }

  /** The fields of `fields` in which the reports differ, in order. */
  function Differing(b: Report, n: Report, fields: seq<Field>): seq<Field> {
    if fields == [] then []
    else
      var before := Differing(b, n, fields[..|fields| - 1]);
      var f := fields[|fields| - 1];
      if Observe(b, f) != Observe(n, f) then before + [f] else before
  }

  method DiffPassingFields(b: Report, n: Report) returns (diffs: seq<Field>)
    ensures diffs == Differing(b, n, FIELDS)
  {
    diffs := [];
    for i := 0 to |FIELDS|
      invariant diffs == Differing(b, n, FIELDS[..i])
    {
      assert FIELDS[..i + 1][..i] == FIELDS[..i];
      if Observe(b, FIELDS[i]) != Observe(n, FIELDS[i]) { diffs := diffs + [FIELDS[i]]; }
    }
    assert FIELDS[..|FIELDS|] == FIELDS;
  }

  lemma {:induction false} DifferingIs(b: Report, n: Report, fields: seq<Field>)
    ensures forall f :: f in Differing(b, n, fields) <==> f in fields && Observe(b, f) != Observe(n, f)
    ensures Differing(b, n, fields) == Differing(n, b, fields)
  {
    if fields == [] {
    } else {
      DifferingIs(b, n, fields[..|fields| - 1]);
      assert fields == fields[..|fields| - 1] + [fields[|fields| - 1]];
    }
  }

  function ChangeBetween(baseline: Option<Report>, new_: Option<Report>): Change
    requires baseline.Some? || new_.Some?
  {
    match (baseline, new_)
    case (Some(b), Some(n)) =>
      if b.passed && n.passed then
        var fields := Differing(b, n, FIELDS);
        if fields == [] then Unchanged else Drift(fields)
      else if b.passed then Regression(n.failures)
      else if n.passed then Fixed
      else StillFailing(n.failures)
    case (Some(_), None) => MissingFromNew
    case (None, Some(n)) => NewlyAdded(n.passed)
  }

  // ---- Diff of items -----------------------------------------------------------------------

  /** Collecting into a map: the last item of a key wins. */
  function MapOf(items: seq<Item>): map<Key, Report> {
    if items == [] then map[]
    else MapOf(items[..|items| - 1])[KeyOf(items[|items| - 1]) := items[|items| - 1].report]
  }

  function At(m: map<Key, Report>, k: Key): Option<Report> {
    if k in m then Some(m[k]) else None
  }

  function EntryAt(b: map<Key, Report>, n: map<Key, Report>, k: Key): Entry
    requires k in b || k in n
  {
    Entry(k.fixtureId, if k.cell == DEFAULT_CELL then None else Some(k.cell), k.sampleIndex,
          ChangeBetween(At(b, k), At(n, k)))
  }

  function Entries(b: map<Key, Report>, n: map<Key, Report>, keys: seq<Key>): (r: seq<Entry>)
    requires forall k :: k in keys ==> k in b || k in n
    ensures |r| == |keys| && forall i :: 0 <= i < |keys| ==> r[i] == EntryAt(b, n, keys[i])
  {
    seq(|keys|, i requires 0 <= i < |keys| => EntryAt(b, n, keys[i]))
  }

  /** The keys of either run, ascending. */
  ghost function UnionKeys(b: map<Key, Report>, n: map<Key, Report>): (keys: seq<Key>)
    ensures Ascending(keys, KeyLess)
    ensures forall k :: k in keys <==> k in b || k in n
  {
    KeyOrder();
    var keys := Sorted(b.Keys + n.Keys, KeyLess);
    assert forall k :: k in keys <==> k in b.Keys + n.Keys;
    keys
  }

  lemma UnionKeysUnique(b: map<Key, Report>, n: map<Key, Report>, keys: seq<Key>)
    requires Ascending(keys, KeyLess) && forall k :: k in keys <==> k in b || k in n
    ensures keys == UnionKeys(b, n)
  {
    KeyOrder();
    AscendingUnique(keys, UnionKeys(b, n), b.Keys + n.Keys, KeyLess);
  }

  ghost function Diff(baseline: seq<Item>, new_: seq<Item>): seq<Entry> {
    Entries(MapOf(baseline), MapOf(new_), UnionKeys(MapOf(baseline), MapOf(new_)))
  }

  ghost predicate DistinctKeys(items: seq<Item>) {
    forall i, j :: 0 <= i < j < |items| ==> KeyOf(items[i]) != KeyOf(items[j])
  }

  method ValidateUniqueItemKeys(items: seq<Item>) returns (r: Result<(), Key>)
    ensures r.Ok? <==> DistinctKeys(items)
    ensures r.Err? ==> exists i, j :: 0 <= i < j < |items| && KeyOf(items[i]) == KeyOf(items[j]) == r.error
  {
    var seen: set<Key> := {};
    for i := 0 to |items|
      invariant forall k :: k in seen <==> exists j :: 0 <= j < i && KeyOf(items[j]) == k
      invariant DistinctKeys(items[..i])
    {
      var key := KeyOf(items[i]);
      if key in seen { return Err(key); }
      seen := seen + {key};
      assert items[..i + 1] == items[..i] + [items[i]];
    }
    assert items[..|items|] == items;
    r := Ok(());
  }

  method DiffEvalItems(baseline: seq<Item>, new_: seq<Item>) returns (entries: seq<Entry>)
    ensures entries == Diff(baseline, new_)
  {
    hide KeyLess, ChangeBetween, MapOf, UnionKeys, Ascending;
    KeyOrder();
    var b := CollectMap(baseline);
    var n := CollectMap(new_);
    var keys := UnionAscending(b.Keys, n.Keys, KeyLess);
    UnionKeysUnique(b, n, keys);
    entries := [];
    for i := 0 to |keys|
      invariant entries == Entries(b, n, keys)[..i]
    {
      assert keys[i] in keys;
      entries := entries + [EntryAt(b, n, keys[i])];
    }
  }

  method CollectMap(items: seq<Item>) returns (m: map<Key, Report>)
    ensures m == MapOf(items)
  {
    m := map[];
    for i := 0 to |items|
      invariant m == MapOf(items[..i])
    {
      assert items[..i + 1][..i] == items[..i];
      m := m[KeyOf(items[i]) := items[i].report];
    }
    assert items[..|items|] == items;
  }

  // ---- Laws --------------------------------------------------------------------------------

  function EntryKey(e: Entry): Key {
    Key(e.fixtureId, if e.cell.Some? then e.cell.value else DEFAULT_CELL, e.sampleIndex)
  }

  /** One entry for each key of either run, in strictly ascending key order, each the change
      between what the two runs hold for that key. */
  lemma DiffCoversUnion(baseline: seq<Item>, new_: seq<Item>)
    ensures var d := Diff(baseline, new_);
            && (forall i, j :: 0 <= i < j < |d| ==> KeyLess(EntryKey(d[i]), EntryKey(d[j])))
            && (forall i :: 0 <= i < |d| ==>
                  (EntryKey(d[i]) in MapOf(baseline) || EntryKey(d[i]) in MapOf(new_))
                  && d[i] == EntryAt(MapOf(baseline), MapOf(new_), EntryKey(d[i])))
            && (forall k :: k in MapOf(baseline) || k in MapOf(new_) ==>
                  exists i :: 0 <= i < |d| && EntryKey(d[i]) == k)
  {
    hide KeyLess, ChangeBetween, MapOf, UnionKeys;
    var b, n := MapOf(baseline), MapOf(new_);
    var keys := UnionKeys(b, n);
    var d := Diff(baseline, new_);
    forall i | 0 <= i < |d| ensures EntryKey(d[i]) == keys[i] && (keys[i] in b || keys[i] in n) {
      assert keys[i] in keys;
    }
    forall k | k in b || k in n ensures exists i :: 0 <= i < |d| && EntryKey(d[i]) == k {
      assert k in keys;
      var i :| 0 <= i < |keys| && keys[i] == k;
      assert EntryKey(d[i]) == k;
    }
  }

  // ---- When the order of the items matters -------------------------------------------------

  ghost predicate Permutes(a: seq<Item>, b: seq<Item>) {
    multiset(a) == multiset(b)
  }

  /** What the map of some ordering of the items can hold for `k`. */
  ghost predicate MayHold(items: seq<Item>, k: Key, r: Option<Report>) {
    if r.Some? then exists i :: 0 <= i < |items| && KeyOf(items[i]) == k && items[i].report == r.value
    else forall i :: 0 <= i < |items| ==> KeyOf(items[i]) != k
  }

  lemma {:induction false} MapMayHold(items: seq<Item>, k: Key)
    ensures MayHold(items, k, At(MapOf(items), k))
  {
    if items == [] {
    } else {
      var init := items[..|items| - 1];
      MapMayHold(init, k);
      if KeyOf(items[|items| - 1]) != k && k in MapOf(init) {
        var i :| 0 <= i < |init| && KeyOf(init[i]) == k && init[i].report == MapOf(init)[k];
        assert items[i] == init[i];
      }
    }
  }

  lemma PermutationMayHold(a: seq<Item>, b: seq<Item>, k: Key, r: Option<Report>)
    requires Permutes(a, b) && MayHold(a, k, r)
    ensures MayHold(b, k, r)
  {
    if r.Some? {
      var i :| 0 <= i < |a| && KeyOf(a[i]) == k && a[i].report == r.value;
      assert a[i] in multiset(b);
      var j :| 0 <= j < |b| && b[j] == a[i];
    } else {
      forall j | 0 <= j < |b| ensures KeyOf(b[j]) != k {
        assert b[j] in multiset(a);
        var i :| 0 <= i < |a| && a[i] == b[j];
      }
    }
  }

  /** Whatever may be held for a key, some ordering of the items makes the map hold it. */
  lemma Chosen(items: seq<Item>, k: Key, r: Option<Report>) returns (p: seq<Item>)
    requires MayHold(items, k, r)
    ensures Permutes(p, items) && At(MapOf(p), k) == r
  {
    if r.Some? {
      var i :| 0 <= i < |items| && KeyOf(items[i]) == k && items[i].report == r.value;
      var rest := items[..i] + items[i + 1..];
      p := rest + [items[i]];
      assert items == items[..i] + [items[i]] + items[i + 1..];
      assert p[..|rest|] == rest;
    } else {
      p := items;
      MapMayHold(items, k);
    }
  }

  /** Items that share a key carry one report. */
  ghost predicate Agree(items: seq<Item>) {
    forall i, j :: 0 <= i < |items| && 0 <= j < |items| && KeyOf(items[i]) == KeyOf(items[j]) ==>
      items[i].report == items[j].report
  }

  lemma AgreeingMap(items: seq<Item>, p: seq<Item>)
    requires Agree(items) && Permutes(p, items)
    ensures MapOf(p) == MapOf(items)
  {
    hide MapOf;
    forall k ensures At(MapOf(p), k) == At(MapOf(items), k) {
      MapMayHold(p, k);
      MapMayHold(items, k);
      PermutationMayHold(p, items, k, At(MapOf(p), k));
    }
    assert forall k :: k in MapOf(p) ==> At(MapOf(p), k) == At(MapOf(items), k);
    assert forall k :: k in MapOf(items) ==> At(MapOf(p), k) == At(MapOf(items), k);
  }

  /** Collecting into a map gives one answer for every ordering exactly when items that share a
      key carry one report. */
  lemma MapOrderFreeIff(items: seq<Item>)
    ensures Agree(items) <==> forall p :: Permutes(p, items) ==> MapOf(p) == MapOf(items)
  {
    hide MapOf, Permutes;
    if Agree(items) {
      forall p | Permutes(p, items) ensures MapOf(p) == MapOf(items) { AgreeingMap(items, p); }
    } else {
      var i, j :| 0 <= i < |items| && 0 <= j < |items| && KeyOf(items[i]) == KeyOf(items[j])
                  && items[i].report != items[j].report;
      var p := Chosen(items, KeyOf(items[i]), Some(items[i].report));
      var q := Chosen(items, KeyOf(items[i]), Some(items[j].report));
      assert MapOf(p) != MapOf(q);
    }
  }

  ghost predicate SameChange(b: Option<Report>, n: Option<Report>, c: Option<Report>, m: Option<Report>) {
    (b.Some? || n.Some?) && (c.Some? || m.Some?) ==> ChangeBetween(b, n) == ChangeBetween(c, m)
  }

  /** Whichever of the items that share a key are paired, the change reads the same. */
  ghost predicate PairingsAgree(baseline: seq<Item>, new_: seq<Item>) {
    forall k, b, n, c, m ::
      (MayHold(baseline, k, b) && MayHold(new_, k, n) && MayHold(baseline, k, c) && MayHold(new_, k, m))
      ==> SameChange(b, n, c, m)
  }

  lemma SameKeys(items: seq<Item>, p: seq<Item>)
    requires Permutes(p, items)
    ensures forall k :: k in MapOf(p) <==> k in MapOf(items)
  {
    hide MapOf;
    forall k ensures k in MapOf(p) <==> k in MapOf(items) {
      MapMayHold(p, k);
      MapMayHold(items, k);
      PermutationMayHold(p, items, k, At(MapOf(p), k));
    }
  }

  lemma PairingsAgreeDiff(baseline: seq<Item>, new_: seq<Item>, b: seq<Item>, n: seq<Item>)
    requires PairingsAgree(baseline, new_) && Permutes(b, baseline) && Permutes(n, new_)
    ensures Diff(b, n) == Diff(baseline, new_)
  {
    hide MapOf, KeyLess, ChangeBetween, UnionKeys, MayHold, Permutes;
    SameKeys(baseline, b);
    SameKeys(new_, n);
    var mb, mn, pb, pn := MapOf(baseline), MapOf(new_), MapOf(b), MapOf(n);
    var keys := UnionKeys(mb, mn);
    UnionKeysUnique(pb, pn, keys);
    forall i | 0 <= i < |keys|
      ensures (keys[i] in mb || keys[i] in mn) && EntryAt(pb, pn, keys[i]) == EntryAt(mb, mn, keys[i])
    {
      var k := keys[i];
      assert k in keys;
      MapMayHold(b, k);
      MapMayHold(n, k);
      MapMayHold(baseline, k);
      MapMayHold(new_, k);
      PermutationMayHold(b, baseline, k, At(pb, k));
      PermutationMayHold(n, new_, k, At(pn, k));
      assert SameChange(At(pb, k), At(pn, k), At(mb, k), At(mn, k));
    }
  }

  /** The entry of a key can be read off the diff. */
  lemma SameDiffSameChange(b: seq<Item>, n: seq<Item>, c: seq<Item>, m: seq<Item>, k: Key)
    requires Diff(b, n) == Diff(c, m)
    ensures SameChange(At(MapOf(b), k), At(MapOf(n), k), At(MapOf(c), k), At(MapOf(m), k))
  {
    hide MapOf, Diff, ChangeBetween, KeyLess;
    if k in MapOf(b) || k in MapOf(n) {
      DiffCoversUnion(b, n);
      DiffCoversUnion(c, m);
      var i :| 0 <= i < |Diff(b, n)| && EntryKey(Diff(b, n)[i]) == k;
      assert Diff(b, n)[i] == EntryAt(MapOf(b), MapOf(n), k);
      assert Diff(c, m)[i] == EntryAt(MapOf(c), MapOf(m), k);
    }
  }

  /** The diff is the same for every ordering of either run exactly when all pairings of items
      that share a key read the same. */
  lemma DiffOrderFreeIff(baseline: seq<Item>, new_: seq<Item>)
    ensures PairingsAgree(baseline, new_) <==>
            forall b, n :: Permutes(b, baseline) && Permutes(n, new_) ==> Diff(b, n) == Diff(baseline, new_)
  {
    hide MapOf, Diff, SameChange, Permutes, MayHold;
    if PairingsAgree(baseline, new_) {
      forall b, n | Permutes(b, baseline) && Permutes(n, new_) ensures Diff(b, n) == Diff(baseline, new_) {
        PairingsAgreeDiff(baseline, new_, b, n);
      }
    }
    if forall b, n :: Permutes(b, baseline) && Permutes(n, new_) ==> Diff(b, n) == Diff(baseline, new_) {
      forall k, b, n, c, m |
        MayHold(baseline, k, b) && MayHold(new_, k, n) && MayHold(baseline, k, c) && MayHold(new_, k, m)
        ensures SameChange(b, n, c, m)
      {
        var pb := Chosen(baseline, k, b);
        var pn := Chosen(new_, k, n);
        var pc := Chosen(baseline, k, c);
        var pm := Chosen(new_, k, m);
        SameDiffSameChange(pb, pn, pc, pm, k);
      }
    }
  }

  lemma DistinctPairingsAgree(baseline: seq<Item>, new_: seq<Item>)
    requires DistinctKeys(baseline) && DistinctKeys(new_)
    ensures PairingsAgree(baseline, new_)
  {
    hide ChangeBetween, KeyOf;
    forall k, b, n, c, m |
      MayHold(baseline, k, b) && MayHold(new_, k, n) && MayHold(baseline, k, c) && MayHold(new_, k, m)
      ensures SameChange(b, n, c, m)
    {
      DistinctHoldsOne(baseline, k, b, c);
      DistinctHoldsOne(new_, k, n, m);
    }
  }

  lemma DistinctHoldsOne(items: seq<Item>, k: Key, r: Option<Report>, q: Option<Report>)
    requires DistinctKeys(items) && MayHold(items, k, r) && MayHold(items, k, q)
    ensures r == q
  {
    hide KeyOf;
  }

  /** With validated keys the order of the items does not matter. */
  lemma DiffPermutes(b1: seq<Item>, b2: seq<Item>, n1: seq<Item>, n2: seq<Item>)
    requires Permutes(b1, b2) && DistinctKeys(b2) && Permutes(n1, n2) && DistinctKeys(n2)
    ensures Diff(b1, n1) == Diff(b2, n2)
  {
    DistinctPairingsAgree(b2, n2);
    PairingsAgreeDiff(b2, n2, b1, n1);
  }

  /** Without that validation it can: swapping two items of one key changes the answer. */
  lemma DuplicatesDependOnOrder()
    ensures exists b, n1, n2 :: Permutes(n1, n2) && Diff(b, n1) != Diff(b, n2)
  {
    var pass, fail := Report("f", true, [], map[]), Report("f", false, [], map[]);
    var p, q := Item("f", None, None, pass), Item("f", None, None, fail);
    LastWins(p, q);
    LastWins(q, p);
    LoneEntry([p, q], KeyOf(p), fail);
    LoneEntry([q, p], KeyOf(p), pass);
    assert Permutes([p, q], [q, p]);
  }

  lemma LastWins(p: Item, q: Item)
    requires KeyOf(p) == KeyOf(q)
    ensures MapOf([p, q]) == map[KeyOf(p) := q.report]
  {
    assert [p, q][..1] == [p] && [p][..0] == [];
    assert MapOf([p]) == map[KeyOf(p) := p.report];
  }

  lemma LoneEntry(items: seq<Item>, k: Key, report: Report)
    requires MapOf(items) == map[k := report]
    ensures Diff([], items) == [EntryAt(map[], map[k := report], k)]
  {
    hide KeyLess, UnionKeys;
    UnionKeysUnique(map[], map[k := report], [k]);
  }

  /** How a change reads when the two runs trade places. */
  predicate Mirrors(c: Change, d: Change) {
    && (c.Unchanged? <==> d.Unchanged?)
    && (c.Drift? <==> d.Drift?) && (c.Drift? ==> c.fields == d.fields)
    && (c.Regression? <==> d.Fixed?) && (c.Fixed? <==> d.Regression?)
    && (c.StillFailing? <==> d.StillFailing?)
    && (c.MissingFromNew? <==> d.NewlyAdded?) && (c.NewlyAdded? <==> d.MissingFromNew?)
  }

  lemma ChangeMirrors(b: Option<Report>, n: Option<Report>)
    requires b.Some? || n.Some?
    ensures Mirrors(ChangeBetween(b, n), ChangeBetween(n, b))
  {
    hide Differing;
    if b.Some? && n.Some? { DifferingIs(b.value, n.value, FIELDS); }
  }

  /** No observation is left out of the comparison. */
  lemma AllFields()
    ensures forall f: Field :: f in FIELDS
  {
    forall f: Field ensures f in FIELDS {
      match f
      case FinalText => assert FIELDS[0] == f;
      case InferenceCount => assert FIELDS[1] == f;
      case ToolCount => assert FIELDS[2] == f;
      case ToolFailures => assert FIELDS[3] == f;
      case TotalInputTokens => assert FIELDS[4] == f;
      case TotalOutputTokens => assert FIELDS[5] == f;
      case TotalTokens => assert FIELDS[6] == f;
      case ErrorType => assert FIELDS[7] == f;
      case InferenceErrorCount => assert FIELDS[8] == f;
      case RuntimeFailure => assert FIELDS[9] == f;
      case ToolCallsByAgent => assert FIELDS[10] == f;
      case CostUsd => assert FIELDS[11] == f;
      case RevisionCount => assert FIELDS[12] == f;
      case JudgeScore => assert FIELDS[13] == f;
    }
  }

  /** Two passing reports drift exactly in the observations in which they differ, and not at all
      exactly when they agree in every one. */
  lemma DriftIs(b: Report, n: Report)
    requires b.passed && n.passed
    ensures ChangeBetween(Some(b), Some(n)).Unchanged? <==> forall f: Field :: Observe(b, f) == Observe(n, f)
    ensures ChangeBetween(Some(b), Some(n)).Drift? ==>
              forall f: Field :: f in ChangeBetween(Some(b), Some(n)).fields <==> Observe(b, f) != Observe(n, f)
  {
    hide Differing, Observe;
    DifferingIs(b, n, FIELDS);
    AllFields();
    var fields := Differing(b, n, FIELDS);
    if fields != [] { assert fields[0] in fields; }
  }

  /** The failures of an entry are those of the new run. */
  lemma FailuresAreTheNewRuns(b: Option<Report>, n: Option<Report>)
    requires b.Some? || n.Some?
    ensures var c := ChangeBetween(b, n);
            && (c.Regression? ==> n.Some? && c.newFailures == n.value.failures && !n.value.passed)
            && (c.Regression? ==> b.Some? && b.value.passed)
            && (c.StillFailing? ==> n.Some? && c.newFailures == n.value.failures)
            && (c.Fixed? ==> n.Some? && n.value.passed && b.Some? && !b.value.passed)
            && (c.NewlyAdded? ==> b.None? && n.Some? && c.passed == n.value.passed)
            && (c.MissingFromNew? <==> n.None?)
  {}

  /** Entries come by fixture id; those of one fixture by model, the default cell first; those of
      one cell by sample, the unnumbered first. */
  lemma EntriesInOrder(baseline: seq<Item>, new_: seq<Item>, i: nat, j: nat)
    requires i < j < |Diff(baseline, new_)|
    ensures var x, y := EntryKey(Diff(baseline, new_)[i]), EntryKey(Diff(baseline, new_)[j]);
            && (x.fixtureId != y.fixtureId ==> StringLess(x.fixtureId, y.fixtureId))
            && (x.fixtureId == y.fixtureId && x.cell != y.cell ==>
                  y.cell.modelId.Some? && (x.cell.modelId.Some? ==> StringLess(x.cell.modelId.value, y.cell.modelId.value)))
            && (x.fixtureId == y.fixtureId && x.cell == y.cell ==>
                  y.sampleIndex.Some? && (x.sampleIndex.Some? ==> x.sampleIndex.value < y.sampleIndex.value))
  {
    hide Diff, StringLess, MapOf, EntryAt;
    DiffCoversUnion(baseline, new_);
  }

  /** A key is still failing exactly when both runs fail on it. */
  lemma StillFailingIff(b: Option<Report>, n: Option<Report>)
    requires b.Some? || n.Some?
    ensures ChangeBetween(b, n).StillFailing? <==>
            b.Some? && n.Some? && !b.value.passed && !n.value.passed
  {}

  /** It is so even when both runs report the same failures. */
  lemma SameFailuresStillFailing(id: string, failures: seq<string>)
    ensures var r := Some(Report(id, false, failures, map[]));
            ChangeBetween(r, r) == StillFailing(failures)
  {}

  /** Swapping the runs keeps the keys and mirrors every change. */
  lemma DiffSwaps(baseline: seq<Item>, new_: seq<Item>)
    ensures var d, e := Diff(baseline, new_), Diff(new_, baseline);
            |d| == |e| && forall i :: 0 <= i < |d| ==>
              EntryKey(d[i]) == EntryKey(e[i]) && Mirrors(d[i].change, e[i].change)
  {
    hide KeyLess, ChangeBetween, MapOf, Mirrors, UnionKeys;
    var b, n := MapOf(baseline), MapOf(new_);
    var keys := UnionKeys(b, n);
    UnionKeysUnique(n, b, keys);
    forall i | 0 <= i < |keys|
      ensures (keys[i] in b || keys[i] in n) && Mirrors(EntryAt(b, n, keys[i]).change, EntryAt(n, b, keys[i]).change)
    {
      assert keys[i] in keys;
      ChangeMirrors(At(b, keys[i]), At(n, keys[i]));
    }
  }

  ghost predicate IsClean(entries: seq<Entry>) {
    forall i :: 0 <= i < |entries| ==> !entries[i].change.IsBlocking()
  }

  /** What the gate asks of one key. */
  ghost predicate KeyIsClean(b: Option<Report>, n: Option<Report>) {
    && (b.Some? ==> n.Some?)
    && (n.Some? && (b.None? || b.value.passed) ==> n.value.passed)
    && (b.Some? && n.Some? && b.value.passed && n.value.passed ==>
          forall f :: Observe(b.value, f) == Observe(n.value, f))
  }

  ghost predicate CleanAt(b: map<Key, Report>, n: map<Key, Report>, k: Key) {
    k in b || k in n ==> KeyIsClean(At(b, k), At(n, k))
  }

  /** Every baseline key is still there, everything that passed still passes with the same
      observations, and nothing new fails. */
  ghost predicate GateOpens(b: map<Key, Report>, n: map<Key, Report>) {
    forall k :: CleanAt(b, n, k)
  }

  lemma BlocksIff(b: Option<Report>, n: Option<Report>)
    requires b.Some? || n.Some?
    ensures ChangeBetween(b, n).IsBlocking() <==> !KeyIsClean(b, n)
  {
    hide Differing, Observe;
    if b.Some? && n.Some? {
      var fields := Differing(b.value, n.value, FIELDS);
      DifferingIs(b.value, n.value, FIELDS);
      AllFields();
      if fields != [] { assert fields[0] in fields; }
    }
  }

  lemma EntriesClean(b: map<Key, Report>, n: map<Key, Report>, keys: seq<Key>)
    requires forall k :: k in keys <==> k in b || k in n
    ensures IsClean(Entries(b, n, keys)) <==> GateOpens(b, n)
  {
    hide ChangeBetween, KeyIsClean;
    var d := Entries(b, n, keys);
    forall i | 0 <= i < |d| ensures d[i].change.IsBlocking() <==> !CleanAt(b, n, keys[i]) {
      assert keys[i] in keys;
      BlocksIff(At(b, keys[i]), At(n, keys[i]));
    }
    if IsClean(d) {
      forall k ensures CleanAt(b, n, k) {
        if k in keys { var i :| 0 <= i < |keys| && keys[i] == k; }
      }
    } else {
      var i :| 0 <= i < |d| && d[i].change.IsBlocking();
      assert !CleanAt(b, n, keys[i]);
    }
  }

  /** No entry of the diff blocks exactly when the gate may open. */
  lemma GateIff(baseline: seq<Item>, new_: seq<Item>)
    ensures IsClean(Diff(baseline, new_)) <==> GateOpens(MapOf(baseline), MapOf(new_))
  {
    var b, n := MapOf(baseline), MapOf(new_);
    EntriesClean(b, n, UnionKeys(b, n));
  }

  // ---- Diff of plain reports ---------------------------------------------------------------

  function ReportMap(reports: seq<Report>): map<string, Report> {
    if reports == [] then map[]
    else ReportMap(reports[..|reports| - 1])[reports[|reports| - 1].fixtureId := reports[|reports| - 1]]
  }

  function ReportEntry(b: map<string, Report>, n: map<string, Report>, id: string): Entry
    requires id in b || id in n
  {
    Entry(id, None, None,
          ChangeBetween(if id in b then Some(b[id]) else None, if id in n then Some(n[id]) else None))
  }

  function ReportEntries(b: map<string, Report>, n: map<string, Report>, ids: seq<string>): (r: seq<Entry>)
    requires forall id :: id in ids ==> id in b || id in n
    ensures |r| == |ids| && forall i :: 0 <= i < |ids| ==> r[i] == ReportEntry(b, n, ids[i])
  {
    seq(|ids|, i requires 0 <= i < |ids| => ReportEntry(b, n, ids[i]))
  }

  ghost function UnionIds(b: map<string, Report>, n: map<string, Report>): (ids: seq<string>)
    ensures Ascending(ids, StringLess)
    ensures forall id :: id in ids <==> id in b || id in n
  {
    StringOrder();
    var ids := Sorted(b.Keys + n.Keys, StringLess);
    assert forall id :: id in ids <==> id in b.Keys + n.Keys;
    ids
  }

  ghost function DiffReports(baseline: seq<Report>, new_: seq<Report>): seq<Entry> {
    var b, n := ReportMap(baseline), ReportMap(new_);
    ReportEntries(b, n, UnionIds(b, n))
  }

  ghost predicate DistinctIds(reports: seq<Report>) {
    forall i, j :: 0 <= i < j < |reports| ==> reports[i].fixtureId != reports[j].fixtureId
  }

  method ValidateUniqueReportKeys(reports: seq<Report>) returns (r: Result<(), string>)
    ensures r.Ok? <==> DistinctIds(reports)
    ensures r.Err? ==> exists i, j :: 0 <= i < j < |reports| && reports[i].fixtureId == reports[j].fixtureId == r.error
  {
    var seen: set<string> := {};
    for i := 0 to |reports|
      invariant forall id :: id in seen <==> exists j :: 0 <= j < i && reports[j].fixtureId == id
      invariant DistinctIds(reports[..i])
    {
      var id := reports[i].fixtureId;
      if id in seen { return Err(id); }
      seen := seen + {id};
      assert reports[..i + 1] == reports[..i] + [reports[i]];
    }
    assert reports[..|reports|] == reports;
    r := Ok(());
  }

  method CollectReports(reports: seq<Report>) returns (m: map<string, Report>)
    ensures m == ReportMap(reports)
  {
    m := map[];
    for i := 0 to |reports|
      invariant m == ReportMap(reports[..i])
    {
      assert reports[..i + 1][..i] == reports[..i];
      m := m[reports[i].fixtureId := reports[i]];
    }
    assert reports[..|reports|] == reports;
  }

  method DiffAgainstBaseline(baseline: seq<Report>, new_: seq<Report>) returns (entries: seq<Entry>)
    ensures entries == DiffReports(baseline, new_)
  {
    hide StringLess, ChangeBetween, ReportMap, UnionIds, Ascending;
    StringOrder();
    var b := CollectReports(baseline);
    var n := CollectReports(new_);
    var ids := UnionAscending(b.Keys, n.Keys, StringLess);
    AscendingUnique(ids, UnionIds(b, n), b.Keys + n.Keys, StringLess);
    entries := [];
    for i := 0 to |ids|
      invariant entries == ReportEntries(b, n, ids)[..i]
    {
      assert ids[i] in ids;
      entries := entries + [ReportEntry(b, n, ids[i])];
    }
  }

  /** A run without matrix cells or samples. */
  function PlainItems(reports: seq<Report>): seq<Item> {
    seq(|reports|, i requires 0 <= i < |reports| => Item(reports[i].fixtureId, None, None, reports[i]))
  }

  function PlainKey(id: string): Key {
    Key(id, DEFAULT_CELL, None)
  }

  lemma {:induction false} PlainMap(reports: seq<Report>)
    ensures forall id :: id in ReportMap(reports) <==> PlainKey(id) in MapOf(PlainItems(reports))
    ensures forall k :: k in MapOf(PlainItems(reports)) ==> k == PlainKey(k.fixtureId)
    ensures forall id :: id in ReportMap(reports) ==>
              ReportMap(reports)[id] == MapOf(PlainItems(reports))[PlainKey(id)]
  {
    if reports == [] {
    } else {
      var init := reports[..|reports| - 1];
      PlainMap(init);
      assert PlainItems(reports)[..|reports| - 1] == PlainItems(init);
    }
  }

  /** On plain runs the keyed diff and the report diff are the same. */
  lemma PlainDiffsAgree(baseline: seq<Report>, new_: seq<Report>)
    ensures Diff(PlainItems(baseline), PlainItems(new_)) == DiffReports(baseline, new_)
  {
    hide StringLess, ReportMap, MapOf, PlainItems, UnionKeys, UnionIds, KeyLess, Ascending, ReportEntry, EntryAt;
    PlainMap(baseline);
    PlainMap(new_);
    var b, n := MapOf(PlainItems(baseline)), MapOf(PlainItems(new_));
    var rb, rn := ReportMap(baseline), ReportMap(new_);
    var ids := UnionIds(rb, rn);
    var keys := PlainKeys(ids);
    forall k ensures k in keys <==> k in b || k in n {
      PlainKeysHas(ids, k);
    }
    PlainKeysAscend(ids);
    UnionKeysUnique(b, n, keys);
    forall i | 0 <= i < |ids|
      ensures (ids[i] in rb || ids[i] in rn) && EntryAt(b, n, keys[i]) == ReportEntry(rb, rn, ids[i])
    {
      assert ids[i] in ids;
      PlainEntry(b, n, rb, rn, ids[i]);
    }
  }

  lemma PlainEntry(
      b: map<Key, Report>, n: map<Key, Report>, rb: map<string, Report>, rn: map<string, Report>, id: string)
    requires id in rb || id in rn
    requires id in rb <==> PlainKey(id) in b
    requires id in rn <==> PlainKey(id) in n
    requires id in rb ==> rb[id] == b[PlainKey(id)]
    requires id in rn ==> rn[id] == n[PlainKey(id)]
    ensures EntryAt(b, n, PlainKey(id)) == ReportEntry(rb, rn, id)
  {}

  function PlainKeys(ids: seq<string>): seq<Key> {
    seq(|ids|, i requires 0 <= i < |ids| => PlainKey(ids[i]))
  }

  lemma PlainKeysHas(ids: seq<string>, k: Key)
    ensures k in PlainKeys(ids) <==> k == PlainKey(k.fixtureId) && k.fixtureId in ids
  {
    if k.fixtureId in ids {
      var i :| 0 <= i < |ids| && ids[i] == k.fixtureId;
      assert PlainKeys(ids)[i] == PlainKey(k.fixtureId);
    }
  }

  lemma PlainKeysAscend(ids: seq<string>)
    requires Ascending(ids, StringLess)
    ensures Ascending(PlainKeys(ids), KeyLess)
  {
    StringOrder();
    hide StringLess;
  }
}
