/** JSON values, and the structural subset used by tool-call matchers:
    crates/remo-eval/src/expectation.rs. */
module JsonValue {
  import opened Wrappers

  datatype Json =
    | JNull
    | JBool(b: bool)
    | JInt(n: int)
    | JFloat(x: real)
    | JString(s: string)
    | JArray(items: seq<Json>)
    | JObject(fields: map<string, Json>)
  {
    predicate IsContainer() {
      JArray? || JObject?
    }
  }

  predicate JsonSubset(subset: Json, actual: Json) {
    match (subset, actual)
    case (JObject(s), JObject(a)) =>
      forall k :: k in s ==> k in a && JsonSubset(s[k], a[k])
    case (JArray(s), JArray(a)) =>
      |s| == |a| && forall i :: 0 <= i < |s| ==> JsonSubset(s[i], a[i])
    case (s, a) => s == a
  }

  lemma {:induction false} SubsetReflexive(v: Json)
    ensures JsonSubset(v, v)
  {
    match v {
      case JObject(m) => forall k | k in m ensures JsonSubset(m[k], m[k]) { SubsetReflexive(m[k]); }
      case JArray(xs) =>
        forall i | 0 <= i < |xs| ensures JsonSubset(xs[i], xs[i]) { SubsetReflexive(xs[i]); }
      case _ =>
    }
  }

  lemma {:induction false} SubsetTransitive(u: Json, v: Json, w: Json)
    requires JsonSubset(u, v) && JsonSubset(v, w)
    ensures JsonSubset(u, w)
  {
    match (u, v, w) {
      case (JObject(a), JObject(b), JObject(c)) =>
        forall k | k in a ensures k in c && JsonSubset(a[k], c[k]) { SubsetTransitive(a[k], b[k], c[k]); }
      case (JArray(a), JArray(b), JArray(c)) =>
        forall i | 0 <= i < |a| ensures JsonSubset(a[i], c[i]) { SubsetTransitive(a[i], b[i], c[i]); }
      case _ =>
    }
  }

  /** Two values that cover each other are equal, so the subset relation is a partial order. */
  lemma {:induction false} SubsetAntisymmetric(u: Json, v: Json)
    requires JsonSubset(u, v) && JsonSubset(v, u)
    ensures u == v
  {
    match (u, v) {
      case (JObject(a), JObject(b)) =>
        forall k | k in a ensures k in b && a[k] == b[k] { SubsetAntisymmetric(a[k], b[k]); }
        assert a == b;
      case (JArray(a), JArray(b)) =>
        forall i | 0 <= i < |a| ensures a[i] == b[i] { SubsetAntisymmetric(a[i], b[i]); }
      case _ =>
    }
  }

  // ---- What covering means, place by place -------------------------------------------------

  /** One step on the way to a part of a value. */
  datatype Step = Member(key: string) | Element(index: nat)

  function PartAt(v: Json, path: seq<Step>): Option<Json> {
    if path == [] then Some(v)
    else
      match (path[0], v)
      case (Member(key), JObject(m)) => if key in m then PartAt(m[key], path[1..]) else None
      case (Element(i), JArray(items)) => if i < |items| then PartAt(items[i], path[1..]) else None
      case _ => None
  }

  /** The same kind of container, arrays of the same length; leaves with the same content. */
  predicate SameHere(part: Json, actual: Option<Json>) {
    match (part, actual)
    case (JObject(_), Some(a)) => a.JObject?
    case (JArray(items), Some(a)) => a.JArray? && |a.items| == |items|
    case (leaf, a) => a == Some(leaf)
  }

  ghost predicate CoveredEverywhere(subset: Json, actual: Json) {
    forall path :: PartAt(subset, path).Some? ==> SameHere(PartAt(subset, path).value, PartAt(actual, path))
  }

  lemma {:induction false} CoversAt(subset: Json, actual: Json, path: seq<Step>)
    requires JsonSubset(subset, actual) && PartAt(subset, path).Some?
    ensures SameHere(PartAt(subset, path).value, PartAt(actual, path))
    decreases |path|
  {
    if path == [] {
    } else {
      match (path[0], subset, actual)
      case (Member(key), JObject(s), JObject(a)) => CoversAt(s[key], a[key], path[1..]);
      case (Element(i), JArray(s), JArray(a)) => CoversAt(s[i], a[i], path[1..]);
      case _ =>
    }
  }

  lemma CoveredBelow(subset: Json, actual: Json, step: Step)
    requires CoveredEverywhere(subset, actual)
    requires PartAt(subset, [step]).Some? && PartAt(actual, [step]).Some?
    ensures CoveredEverywhere(PartAt(subset, [step]).value, PartAt(actual, [step]).value)
  {
    var s, a := PartAt(subset, [step]).value, PartAt(actual, [step]).value;
    assert [step][1..] == [];
    forall path | PartAt(s, path).Some? ensures SameHere(PartAt(s, path).value, PartAt(a, path)) {
      assert ([step] + path)[0] == step && ([step] + path)[1..] == path;
      assert PartAt(subset, [step] + path) == PartAt(s, path) && PartAt(actual, [step] + path) == PartAt(a, path);
    }
  }

  lemma {:induction false} CoveredEverywhereCovers(subset: Json, actual: Json)
    requires CoveredEverywhere(subset, actual)
    ensures JsonSubset(subset, actual)
    decreases subset
  {
    assert PartAt(subset, []) == Some(subset) && PartAt(actual, []) == Some(actual);
    match subset {
      case JObject(s) =>
        forall k | k in s ensures k in actual.fields && JsonSubset(s[k], actual.fields[k]) {
          assert [Member(k)][1..] == [];
          assert PartAt(subset, [Member(k)]) == Some(s[k]);
          assert SameHere(s[k], PartAt(actual, [Member(k)]));
          CoveredBelow(subset, actual, Member(k));
          CoveredEverywhereCovers(s[k], actual.fields[k]);
        }
      case JArray(s) =>
        forall i | 0 <= i < |s| ensures JsonSubset(s[i], actual.items[i]) {
          assert [Element(i)][1..] == [];
          assert PartAt(subset, [Element(i)]) == Some(s[i]);
          assert SameHere(s[i], PartAt(actual, [Element(i)]));
          CoveredBelow(subset, actual, Element(i));
          CoveredEverywhereCovers(s[i], actual.items[i]);
        }
      case _ =>
    }
  }

  /** A value covers another exactly when every place of that other, named by keys and indices, is
      there too: leaves with the same content, arrays with the same length, objects with at least
      those keys. */
  lemma CoversIff(subset: Json, actual: Json)
    ensures JsonSubset(subset, actual) <==> CoveredEverywhere(subset, actual)
  {
    if JsonSubset(subset, actual) {
      forall path | PartAt(subset, path).Some?
        ensures SameHere(PartAt(subset, path).value, PartAt(actual, path))
      {
        CoversAt(subset, actual, path);
      }
    }
    if CoveredEverywhere(subset, actual) { CoveredEverywhereCovers(subset, actual); }
  }

  /** A call may carry more arguments than a filter names, never fewer, and its lists must be as
      long. */
  lemma CoversByKeys(s: map<string, Json>, a: map<string, Json>, key: string, v: Json, xs: seq<Json>, ys: seq<Json>)
    ensures JsonSubset(JObject(map[]), JObject(a))
    ensures JsonSubset(JObject(s), JObject(a)) && key !in a ==> JsonSubset(JObject(s), JObject(a[key := v]))
    ensures key in s && key !in a ==> !JsonSubset(JObject(s), JObject(a))
    ensures |xs| != |ys| ==> !JsonSubset(JArray(xs), JArray(ys))
  {}
}
