/** The loops that walk down to the parent of an edited place:
    crates/remo-ext-generative-ui/src/json_render.rs. A mutable reference into the document is
    the value it refers to together with the holes above it. */
module JsonWalk {
  import opened Wrappers
  import opened JsonValue
  import opened JsonPointer
  import opened JsonPatch

  /** A container with one place left open. */
  datatype Hole = ItemHole(items: seq<Json>, index: nat) | MemberHole(fields: map<string, Json>, key: string)

  function Fill(h: Hole, v: Json): Json {
    match h
    case ItemHole(items, i) => JArray(if i < |items| then items[i := v] else items)
    case MemberHole(m, key) => JObject(m[key := v])
  }

  /** The whole document when `v` stands at the innermost hole. */
  function Plug(context: seq<Hole>, v: Json): Json {
    if context == [] then v else Plug(context[..|context| - 1], Fill(context[|context| - 1], v))
  }

  lemma PlugSnoc(context: seq<Hole>, h: Hole, v: Json)
    ensures Plug(context + [h], v) == Plug(context, Fill(h, v))
  {
    assert (context + [h])[..|context|] == context;
  }

  method Plugged(context: seq<Hole>, v: Json) returns (r: Json)
    ensures r == Plug(context, v)
  {
    r := v;
    var i := |context|;
    assert context[..i] == context;
    while i > 0
      invariant 0 <= i <= |context|
      invariant Plug(context[..i], r) == Plug(context, v)
    {
      assert context[..i][..i - 1] == context[..i - 1];
      i := i - 1;
      r := Fill(context[i], r);
    }
  }

  /** One step down while editing: what is left open, and what goes on below. */
  lemma EditGoesOn(v: Json, kind: EditKind, segments: seq<string>, value: Json, h: Hole, place: Json)
    requires |segments| > 1
    requires match v
             case JArray(items) =>
               var i := IndexOr(segments[0], |items|);
               h == ItemHole(Padded(items, i), i) && place == Place(Some(Padded(items, i)[i]), segments)
             case JObject(m) =>
               h == MemberHole(m, segments[0])
               && place == Place(if segments[0] in m then Some(m[segments[0]]) else None, segments)
             case _ => h == MemberHole(map[], segments[0]) && place == NewParent(segments)
    ensures Edit(v, kind, segments, value) == Fill(h, Edit(place, kind, segments[1..], value))
  {
    hide ParseIndex, IsNumericIndex;
  }

  /** The edits that go on from `current` at segment `i` complete to those from the root. */
  ghost predicate Continues(
      target: Json, segments: seq<string>, i: nat, context: seq<Hole>, current: Json)
    requires i <= |segments|
  {
    forall kind, last, value ::
      Plug(context, Edit(current, kind, segments[i..] + [last], value)) == Edit(target, kind, segments + [last], value)
  }

  lemma StepDown(
      target: Json, segments: seq<string>, i: nat, context: seq<Hole>, current: Json, h: Hole, place: Json)
    requires i < |segments| && Continues(target, segments, i, context, current)
    requires forall kind, last, value ::
               Edit(current, kind, segments[i..] + [last], value)
               == Fill(h, Edit(place, kind, segments[i + 1..] + [last], value))
    ensures Continues(target, segments, i + 1, context + [h], place)
  {
    forall kind, last, value
      ensures Plug(context + [h], Edit(place, kind, segments[i + 1..] + [last], value))
              == Edit(target, kind, segments + [last], value)
    {
      assert Edit(current, kind, segments[i..] + [last], value)
          == Fill(h, Edit(place, kind, segments[i + 1..] + [last], value));
      PlugSnoc(context, h, Edit(place, kind, segments[i + 1..] + [last], value));
    }
  }

  /** Creates, pads and overwrites what is in the way; `parent` is where the last segment of an
      edit is applied. */
  method EnsureParentContainer(target: Json, segments: seq<string>) returns (context: seq<Hole>, parent: Json)
    ensures forall kind, last, value ::
              Plug(context, EditChild(parent, kind, last, value)) == Edit(target, kind, segments + [last], value)
  {
    context, parent := [], target;
    assert segments[0..] == segments;
    for i := 0 to |segments|
      invariant Continues(target, segments, i, context, parent)
    {
      var nextIsNumeric := i + 1 < |segments| && (IsNumericIndex(segments[i + 1]) || segments[i + 1] == "-");
      var empty := if nextIsNumeric then JArray([]) else JObject(map[]);
      var hole: Hole;
      var place: Json;
      match parent {
        case JArray(items) =>
          var index := IndexOr(segments[i], |items|);
          var padded := Padded(items, index);
          hole := ItemHole(padded, index);
          place := if padded[index].IsContainer() then padded[index] else empty;
        case JObject(m) =>
          hole := MemberHole(m, segments[i]);
          place := if segments[i] in m && m[segments[i]].IsContainer() then m[segments[i]] else empty;
        case _ =>
          hole := MemberHole(map[], segments[i]);
          place := empty;
      }
      forall kind, last, value
        ensures Edit(parent, kind, segments[i..] + [last], value)
                == Fill(hole, Edit(place, kind, segments[i + 1..] + [last], value))
      {
        var below := segments[i..] + [last];
        assert below[1..] == segments[i + 1..] + [last];
        EditGoesOn(parent, kind, below, value, hole, place);
      }
      StepDown(target, segments, i, context, parent, hole, place);
      context, parent := context + [hole], place;
    }
    LastStep(target, segments, context, parent);
  }

  lemma LastStep(target: Json, segments: seq<string>, context: seq<Hole>, parent: Json)
    requires Continues(target, segments, |segments|, context, parent)
    ensures forall kind, last, value ::
              Plug(context, EditChild(parent, kind, last, value)) == Edit(target, kind, segments + [last], value)
  {
    forall kind, last, value
      ensures Plug(context, EditChild(parent, kind, last, value)) == Edit(target, kind, segments + [last], value)
    {
      assert segments[|segments|..] + [last] == [last];
      assert Edit(parent, kind, [last], value) == EditChild(parent, kind, last, value);
    }
  }

  /** Walks to an existing parent; `None` when some step is missing, and then a removal below it
      changes nothing. */
  method GetParentContainer(target: Json, segments: seq<string>) returns (context: seq<Hole>, parent: Option<Json>)
    ensures parent.None? ==> forall last :: Remove(target, segments + [last]) == target
    ensures parent.Some? ==>
              forall last :: Plug(context, RemoveChild(parent.value, last)) == Remove(target, segments + [last])
  {
    context := [];
    var current := target;
    assert segments[0..] == segments;
    for i := 0 to |segments|
      invariant Plug(context, current) == target
      invariant forall last :: Plug(context, Remove(current, segments[i..] + [last])) == Remove(target, segments + [last])
    {
      var next := Child(current, segments[i]);
      forall last ensures (segments[i..] + [last])[0] == segments[i]
                       && (segments[i..] + [last])[1..] == segments[i + 1..] + [last] {}
      if next.None? {
        forall last ensures Remove(target, segments + [last]) == target {
          assert Remove(current, segments[i..] + [last]) == current;
        }
        return context, None;
      }
      var hole := match current
        case JArray(items) => ItemHole(items, ParseIndex(segments[i]).value)
        case JObject(m) => MemberHole(m, segments[i]);
      HoleOfChild(current, segments[i], hole);
      forall last
        ensures Plug(context + [hole], Remove(next.value, segments[i + 1..] + [last])) == Remove(target, segments + [last])
      {
        var below := segments[i..] + [last];
        var r := Remove(next.value, segments[i + 1..] + [last]);
        assert Remove(current, below) == WithChild(current, segments[i], r);
        PlugSnoc(context, hole, r);
      }
      PlugSnoc(context, hole, next.value);
      context, current := context + [hole], next.value;
    }
    forall last ensures Plug(context, RemoveChild(current, last)) == Remove(target, segments + [last]) {
      assert segments[|segments|..] + [last] == [last];
      assert Remove(current, [last]) == RemoveChild(current, last);
    }
    parent := Some(current);
  }

  /** Filling the hole of a child replaces that child; with the child itself nothing changes. */
  lemma HoleOfChild(v: Json, segment: string, h: Hole)
    requires Child(v, segment).Some?
    requires match v
             case JArray(items) => h == ItemHole(items, ParseIndex(segment).value)
             case JObject(m) => h == MemberHole(m, segment)
             case _ => false
    ensures forall x :: Fill(h, x) == WithChild(v, segment, x)
    ensures Fill(h, Child(v, segment).value) == v
  {
    hide ParseIndex;
    WithChildLaws(v, segment, Child(v, segment).value, JNull);
  }
}
