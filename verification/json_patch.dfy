/** The SpecStream patch engine: crates/remo-ext-generative-ui/src/json_render.rs. */
module JsonPatch {
  import opened Wrappers
  import opened JsonValue
  import opened JsonPointer

  datatype EditKind = Replace | Add

  // ---- Walking and editing by segments -----------------------------------------------------

  function Child(v: Json, segment: string): Option<Json> {
    match v
    case JArray(items) =>
      var i := ParseIndex(segment);
      if i.Some? && i.value < |items| then Some(items[i.value]) else None
    case JObject(m) => if segment in m then Some(m[segment]) else None
    case _ => None
  }

  function Get(v: Json, segments: seq<string>): Option<Json> {
    if segments == [] then Some(v)
    else
      match Child(v, segments[0])
      case None => None
      case Some(c) => Get(c, segments[1..])
  }

  /** The container created where `segments` passes through a missing or scalar place: an array
      when the next step of the parent path looks like an index, else an object. */
  function NewParent(segments: seq<string>): Json {
    if |segments| > 2 && (IsNumericIndex(segments[1]) || segments[1] == "-") then JArray([]) else JObject(map[])
  }

  /** `Vec::resize` with nulls, up to and including `index`. */
  function Padded(items: seq<Json>, index: nat): (r: seq<Json>)
    ensures |r| == if index < |items| then |items| else index + 1
    ensures forall i :: 0 <= i < |r| ==> r[i] == if i < |items| then items[i] else JNull
  {
    if index < |items| then items else items + seq(index + 1 - |items|, _ => JNull)
  }

  function IndexOr(segment: string, default: nat): nat {
    if ParseIndex(segment).Some? then ParseIndex(segment).value else default
  }

  /** `set_child_value`, and the last step of `add_by_path`. */
  function EditChild(v: Json, kind: EditKind, last: string, value: Json): Json {
    match v
    case JArray(items) =>
      if last == "-" then JArray(items + [value])
      else if kind == Replace then
        var i := IndexOr(last, |items|);
        JArray(Padded(items, i)[i := value])
      else
        var i := if IndexOr(last, |items|) < |items| then IndexOr(last, |items|) else |items|;
        JArray(items[..i] + [value] + items[i..])
    case JObject(m) => JObject(m[last := value])
    case _ => v
  }

  /** The part of `ensure_parent_container` that picks the place to go on in. */
  function Place(existing: Option<Json>, segments: seq<string>): Json {
    if existing.Some? && existing.value.IsContainer() then existing.value else NewParent(segments)
  }

  function Edit(v: Json, kind: EditKind, segments: seq<string>, value: Json): Json
    requires segments != []
    decreases |segments|
  {
    var segment, rest := segments[0], segments[1..];
    if rest == [] then EditChild(v, kind, segment, value)
    else
      match v
      case JArray(items) =>
        var i := IndexOr(segment, |items|);
        var padded := Padded(items, i);
        JArray(padded[i := Edit(Place(Some(padded[i]), segments), kind, rest, value)])
      case JObject(m) =>
        var place := Place(if segment in m then Some(m[segment]) else None, segments);
        JObject(m[segment := Edit(place, kind, rest, value)])
      case _ => JObject(map[segment := Edit(NewParent(segments), kind, rest, value)])
  }

  function RemoveChild(v: Json, last: string): Json {
    match v
    case JArray(items) =>
      var i := ParseIndex(last);
      if i.Some? && i.value < |items| then JArray(items[..i.value] + items[i.value + 1..]) else v
    case JObject(m) => JObject(m - {last})
    case _ => v
  }

  function WithChild(v: Json, segment: string, child: Json): Json
    requires Child(v, segment).Some?
  {
    match v
    case JArray(items) => JArray(items[ParseIndex(segment).value := child])
    case JObject(m) => JObject(m[segment := child])
  }

  function Remove(v: Json, segments: seq<string>): Json
    requires segments != []
    decreases |segments|
  {
    if |segments| == 1 then RemoveChild(v, segments[0])
    else if Child(v, segments[0]).None? then v
    else WithChild(v, segments[0], Remove(Child(v, segments[0]).value, segments[1..]))
  }

  /** Below an existing container an edit goes through that child and touches nothing else. */
  lemma EditThrough(v: Json, kind: EditKind, segments: seq<string>, value: Json)
    requires |segments| > 1 && Child(v, segments[0]).Some? && Child(v, segments[0]).value.IsContainer()
    ensures Edit(v, kind, segments, value) ==
            WithChild(v, segments[0], Edit(Child(v, segments[0]).value, kind, segments[1..], value))
  {
    hide ParseIndex, IsNumericIndex;
  }

  lemma WithChildLaws(v: Json, segment: string, a: Json, b: Json)
    requires Child(v, segment).Some?
    ensures Child(WithChild(v, segment, a), segment) == Some(a)
    ensures WithChild(WithChild(v, segment, a), segment, b) == WithChild(v, segment, b)
    ensures WithChild(v, segment, a) == v <==> Child(v, segment) == Some(a)
    ensures forall s :: s != segment && !SameIndex(s, segment) ==> Child(WithChild(v, segment, a), s) == Child(v, s)
  {
    hide ParseIndex;
    match v {
      case JArray(items) =>
        if Child(v, segment) == Some(a) { assert items[ParseIndex(segment).value := a] == items; }
      case JObject(m) =>
        if Child(v, segment) == Some(a) { assert m[segment := a] == m; }
    }
  }

  // ---- An edited place reads back ----------------------------------------------------------

  /** No segment meets an array without being an index, there is a container to write in, and an
      insertion does not run past the end of its array. */
  predicate Addressable(v: Json, kind: EditKind, segments: seq<string>)
    requires segments != []
    decreases |segments|
  {
    var segment := segments[0];
    if |segments| == 1 then
      v.JObject? || (v.JArray? && ParseIndex(segment).Some? && (kind == Add ==> ParseIndex(segment).value <= |v.items|))
    else if v.JArray? then
      ParseIndex(segment).Some? && Addressable(Place(Child(v, segment), segments), kind, segments[1..])
    else
      Addressable(Place(Child(v, segment), segments), kind, segments[1..])
  }

  lemma DashIsNoIndex()
    ensures ParseIndex("-").None?
  {
    assert "-"[0] == '-' && !IsDigit('-');
  }

  /** A replaced or added value reads back exactly when the path was addressable, whatever had to be
      created, padded or overwritten on the way. */
  lemma {:induction false} EditReadsBackIff(v: Json, kind: EditKind, segments: seq<string>, value: Json)
    requires segments != []
    ensures Get(Edit(v, kind, segments, value), segments) == Some(value) <==> Addressable(v, kind, segments)
    decreases |segments|
  {
    hide ParseIndex, IsNumericIndex;
    var segment, rest := segments[0], segments[1..];
    var w := Edit(v, kind, segments, value);
    DashIsNoIndex();
    if rest == [] {
      assert Child(w, segment).Some? ==> Get(w, segments) == Get(Child(w, segment).value, []);
    } else {
      var place := Place(Child(v, segment), segments);
      EditReadsBackIff(place, kind, rest, value);
    }
  }

  /** Two documents whose replaced place does not read back: past the end of an array, and below
      a scalar root. */
  lemma ReplaceCanMiss(value: Json)
    ensures Get(Edit(JArray([]), Replace, ["-"], value), ["-"]) == None
    ensures Get(Edit(JNull, Replace, ["a"], value), ["a"]) == None
  {
    DashIsNoIndex();
  }

  // ---- Frames ------------------------------------------------------------------------------

  /** The two paths part company: at some step they name different members or elements. */
  predicate Diverge(p: seq<string>, q: seq<string>) {
    p != [] && q != [] && (p[0] == q[0] || SameIndex(p[0], q[0]) ==> Diverge(p[1..], q[1..]))
  }

  lemma {:induction false} DivergeSymmetric(p: seq<string>, q: seq<string>)
    requires Diverge(p, q)
    ensures Diverge(q, p)
  {
    if p[0] == q[0] || SameIndex(p[0], q[0]) { DivergeSymmetric(p[1..], q[1..]); }
  }

  /** With indices written canonically, paths diverge exactly when neither is a prefix of the
      other. */
  lemma {:induction false} DivergeIffIncomparable(p: seq<string>, q: seq<string>)
    requires forall i :: 0 <= i < |p| ==> Canonical(p[i])
    requires forall i :: 0 <= i < |q| ==> Canonical(q[i])
    ensures Diverge(p, q) <==> !(p <= q) && !(q <= p)
  {
    hide Canonical, SameIndex;
    if p != [] && q != [] {
      if SameIndex(p[0], q[0]) { CanonicalUnique(p[0], q[0]); }
      if p[0] == q[0] {
        DivergeIffIncomparable(p[1..], q[1..]);
        assert p == [p[0]] + p[1..] && q == [q[0]] + q[1..];
        assert p <= q <==> p[1..] <= q[1..];
        assert q <= p <==> q[1..] <= p[1..];
      }
    }
  }

  /** What diverges from a replaced path keeps its value. */
  lemma {:induction false} ReplaceFrame(v: Json, p: seq<string>, value: Json, q: seq<string>)
    requires p != [] && Diverge(p, q) && Get(v, q).Some?
    ensures Get(Edit(v, Replace, p, value), q) == Get(v, q)
    decreases |p|
  {
    hide IsNumericIndex, Value, IsDigit;
    EditFrameStep(v, Replace, p, value, q);
    if |p| > 1 && (p[0] == q[0] || SameIndex(p[0], q[0])) && Child(v, q[0]) == Child(v, p[0]) {
      var c := Child(v, q[0]).value;
      if c.IsContainer() { ReplaceFrame(c, p[1..], value, q[1..]); }
    }
  }

  lemma EditFrameStep(v: Json, kind: EditKind, p: seq<string>, value: Json, q: seq<string>)
    requires p != [] && Diverge(p, q) && Get(v, q).Some? && (|p| > 1 || kind == Replace || v.JObject?)
    ensures var w := Edit(v, kind, p, value);
            Child(w, q[0]) == Child(v, q[0])
            || (|p| > 1 && Child(v, p[0]) == Child(v, q[0])
                && (p[0] == q[0] || SameIndex(p[0], q[0]))
                && Child(w, q[0]) == Some(Edit(Place(Child(v, q[0]), p), kind, p[1..], value)))
  {
    hide ParseIndex, IsNumericIndex;
  }

  /** An edit below an existing container acts on that container alone: this is what `add` and
      `replace` do at an object member, an array element and the end of an array. */
  lemma {:induction false} EditActsOnParent(
      v: Json, kind: EditKind, parents: seq<string>, last: string, value: Json, c: Json)
    requires Get(v, parents) == Some(c) && (c.IsContainer() || parents == [])
    ensures Get(Edit(v, kind, parents + [last], value), parents) == Some(EditChild(c, kind, last, value))
    decreases |parents|
  {
    hide IsNumericIndex, Value, EditChild;
    var p := parents + [last];
    if parents == [] {
    } else {
      var rest := parents[1..];
      assert p[0] == parents[0] && p[1..] == rest + [last];
      var d := Child(v, parents[0]).value;
      ThroughIsContainer(d, rest, c);
      EditActsOnParent(d, kind, rest, last, value, c);
    }
  }

  lemma ThroughIsContainer(d: Json, rest: seq<string>, c: Json)
    requires Get(d, rest) == Some(c) && c.IsContainer()
    ensures d.IsContainer()
  {
    if rest != [] { assert Child(d, rest[0]).Some?; }
  }

  /** Adding below an existing container leaves every path that parts from the parent alone. */
  lemma {:induction false} AddFrame(v: Json, parents: seq<string>, last: string, value: Json, q: seq<string>)
    requires Get(v, parents).Some? && Get(v, parents).value.IsContainer()
    requires Diverge(parents, q)
    ensures Get(Edit(v, Add, parents + [last], value), q) == Get(v, q)
    decreases |parents|
  {
    hide ParseIndex, Edit;
    var p := parents + [last];
    var rest := parents[1..];
    assert p[0] == parents[0] && p[1..] == rest + [last];
    var d := Child(v, parents[0]).value;
    ThroughIsContainer(d, rest, Get(v, parents).value);
    EditThrough(v, Add, p, value);
    WithChildLaws(v, p[0], Edit(d, Add, p[1..], value), d);
    if p[0] == q[0] || SameIndex(p[0], q[0]) {
      AddFrame(d, rest, last, value, q[1..]);
      SameStep(v, Edit(v, Add, p, value), p[0], q[0]);
    }
  }

  /** Two spellings of one index are the same step in an array, and no step, or unrelated ones,
      anywhere else. */
  lemma SameStep(v: Json, w: Json, a: string, b: string)
    requires Child(v, a).Some? && Child(w, a).Some? && (a == b || SameIndex(a, b))
    requires w == WithChild(v, a, Child(w, a).value)
    ensures (Child(v, b) == Child(v, a) && Child(w, b) == Child(w, a)) || Child(v, b) == Child(w, b)
  {
    hide ParseIndex;
  }

  /** The decimal form of a number resolves in an array exactly when it is below the length, and
      then to the element of that number. */
  lemma ElementAt(items: seq<Json>, i: nat)
    requires |items| <= USIZE_MAX
    ensures Get(JArray(items), [Decimal(i)]) == if i < |items| then Some(items[i]) else None
  {
    hide ParseIndex, Decimal;
    ParseDecimal(i);
    assert [Decimal(i)][1..] == [];
  }

  // ---- Edits of arrays ---------------------------------------------------------------------

  lemma EditedParent(v: Json, kind: EditKind, parents: seq<string>, last: string, value: Json, items: seq<Json>)
    requires Get(v, parents) == Some(JArray(items))
    ensures Get(Edit(v, kind, parents + [last], value), parents) == Some(EditChild(JArray(items), kind, last, value))
  {
    hide Edit, EditChild;
    EditActsOnParent(v, kind, parents, last, value, JArray(items));
  }

  /** Adding to an existing array makes it longer by one: the value stands at its index, or at the
      end for an index too large, "-", and whatever is no index; what was before that place stays
      there and the rest moves up by one. */
  lemma AddToArray(v: Json, parents: seq<string>, last: string, value: Json, items: seq<Json>)
    returns (at: nat, now: seq<Json>)
    requires Get(v, parents) == Some(JArray(items))
    ensures Get(Edit(v, Add, parents + [last], value), parents) == Some(JArray(now))
    ensures ParseIndex(last).Some? && ParseIndex(last).value <= |items| ==> at == ParseIndex(last).value
    ensures ParseIndex(last).None? || ParseIndex(last).value > |items| ==> at == |items|
    ensures |now| == |items| + 1 && now[at] == value
    ensures forall j :: 0 <= j < at ==> now[j] == items[j]
    ensures forall j :: at <= j < |items| ==> now[j + 1] == items[j]
  {
    hide ParseIndex, IsNumericIndex, Edit;
    EditedParent(v, Add, parents, last, value, items);
    DashIsNoIndex();
    at := if ParseIndex(last).Some? && ParseIndex(last).value <= |items| then ParseIndex(last).value else |items|;
    now := EditChild(JArray(items), Add, last, value).items;
  }

  /** Replacing in an existing array puts the value at its index, with nulls up to it when it lies
      past the end; "-" and whatever is no index append. Everything else stays where it was. */
  lemma ReplaceInArray(v: Json, parents: seq<string>, last: string, value: Json, items: seq<Json>)
    returns (at: nat, now: seq<Json>)
    requires Get(v, parents) == Some(JArray(items))
    ensures Get(Edit(v, Replace, parents + [last], value), parents) == Some(JArray(now))
    ensures at == if ParseIndex(last).Some? then ParseIndex(last).value else |items|
    ensures |now| == (if at < |items| then |items| else at + 1) && now[at] == value
    ensures forall j :: 0 <= j < |items| && j != at ==> now[j] == items[j]
    ensures forall j :: |items| <= j < at ==> now[j] == JNull
  {
    hide ParseIndex, IsNumericIndex, Edit;
    EditedParent(v, Replace, parents, last, value, items);
    DashIsNoIndex();
    at := if ParseIndex(last).Some? then ParseIndex(last).value else |items|;
    now := EditChild(JArray(items), Replace, last, value).items;
  }

  /** A missing member on the way is created as an array exactly when the next step of the parent
      path is made of digits or is "-"; the last segment has no say. */
  lemma MissingParentKind(v: Json, kind: EditKind, segments: seq<string>, value: Json)
    requires |segments| > 1 && v.JObject? && segments[0] !in v.fields
    ensures var made := Get(Edit(v, kind, segments, value), [segments[0]]);
            && made.Some? && made.value.IsContainer()
            && (made.value.JArray? <==>
                  |segments| > 2 && (segments[1] == "-" ||
                    (segments[1] != "" && forall i :: 0 <= i < |segments[1]| ==> '0' <= segments[1][i] <= '9')))
  {
    hide ParseIndex;
    var w := Edit(v, kind, segments, value);
    assert [segments[0]][1..] == [];
    assert Get(w, [segments[0]]) == Some(Edit(NewParent(segments), kind, segments[1..], value));
    EditKeepsKind(NewParent(segments), kind, segments[1..], value);
  }

  /** A container that is edited stays a container of its kind. */
  lemma EditKeepsKind(v: Json, kind: EditKind, segments: seq<string>, value: Json)
    requires segments != [] && v.IsContainer()
    ensures Edit(v, kind, segments, value).JArray? <==> v.JArray?
    ensures Edit(v, kind, segments, value).JObject? <==> v.JObject?
  {
    hide ParseIndex, IsNumericIndex;
  }

  /** Removing what is not there changes nothing. */
  lemma {:induction false} RemoveAbsent(v: Json, segments: seq<string>)
    requires segments != [] && Get(v, segments).None?
    ensures Remove(v, segments) == v
    decreases |segments|
  {
    hide ParseIndex;
    if |segments| == 1 {
      assert Get(v, segments) == match Child(v, segments[0]) case None => None case Some(c) => Some(c);
      if v.JObject? { assert v.fields - {segments[0]} == v.fields; }
    } else if Child(v, segments[0]).Some? {
      var c := Child(v, segments[0]).value;
      RemoveAbsent(c, segments[1..]);
      WithChildLaws(v, segments[0], c, c);
    }
  }

  // ---- Remove undoes add -------------------------------------------------------------------

  /** The parent is an object without the key, or an array the index does not run past; the
      scalar root, where a one-segment edit does nothing, is the only other case. */
  predicate Undoable(v: Json, segments: seq<string>)
    requires segments != []
    decreases |segments|
  {
    if |segments| == 1 then
      match v
      case JArray(items) => ParseIndex(segments[0]).Some? && ParseIndex(segments[0]).value <= |items|
      case JObject(m) => segments[0] !in m
      case _ => true
    else
      Child(v, segments[0]).Some? && Child(v, segments[0]).value.IsContainer()
      && Undoable(Child(v, segments[0]).value, segments[1..])
  }

  lemma RemoveChildUndoesIff(v: Json, last: string, value: Json)
    ensures RemoveChild(EditChild(v, Add, last, value), last) == v <==> Undoable(v, [last])
  {
    hide ParseIndex, IsNumericIndex;
    DashIsNoIndex();
    match v {
      case JArray(items) =>
        var w := EditChild(v, Add, last, value);
        if ParseIndex(last).Some? && ParseIndex(last).value <= |items| {
          var i := ParseIndex(last).value;
          assert w.items == items[..i] + [value] + items[i..];
          assert w.items[..i] + w.items[i + 1..] == items;
        } else {
          assert |w.items| == |items| + 1;
          assert RemoveChild(w, last) == w;
        }
      case JObject(m) => if last !in m { assert m[last := value] - {last} == m; }
      case _ =>
    }
  }

  lemma {:induction false} StaysContainer(v: Json, segments: seq<string>, value: Json)
    requires segments != [] && v.IsContainer()
    ensures Edit(v, Add, segments, value).IsContainer() && Remove(v, segments).IsContainer()
  {
    hide ParseIndex, IsNumericIndex;
  }

  /** Whatever an edit had to create or overwrite on its way is still there after the removal. */
  lemma CreatedStays(v: Json, segments: seq<string>, value: Json)
    requires |segments| > 1
    requires Child(v, segments[0]).Some? ==> !Child(v, segments[0]).value.IsContainer()
    ensures Remove(Edit(v, Add, segments, value), segments) != v
  {
    hide ParseIndex, IsNumericIndex;
    var segment, rest := segments[0], segments[1..];
    var place := NewParent(segments);
    var w := Edit(v, Add, segments, value);
    var below := Edit(place, Add, rest, value);
    StaysContainer(place, rest, value);
    StaysContainer(below, rest, value);
    var r := Remove(w, segments);
    if Child(w, segment).Some? {
      assert Child(w, segment).value == below;
      WithChildLaws(w, segment, Remove(below, rest), below);
      assert Child(r, segment) == Some(Remove(below, rest));
    } else {
      assert v.JArray? && |w.items| > |v.items| && r == w;
    }
  }

  /** Removing what was just added restores the document exactly when the path was undoable. */
  lemma {:induction false} RemoveUndoesAddIff(v: Json, segments: seq<string>, value: Json)
    requires segments != []
    ensures Remove(Edit(v, Add, segments, value), segments) == v <==> Undoable(v, segments)
    decreases |segments|
  {
    hide ParseIndex, Edit, RemoveChild, EditChild;
    var segment, rest := segments[0], segments[1..];
    if rest == [] {
      assert segments == [segment];
      AddOne(v, segment, value);
      RemoveChildUndoesIff(v, segment, value);
    } else if Child(v, segment).Some? && Child(v, segment).value.IsContainer() {
      var c := Child(v, segment).value;
      var d := Edit(c, Add, rest, value);
      EditThrough(v, Add, segments, value);
      WithChildLaws(v, segment, d, Remove(d, rest));
      WithChildLaws(v, segment, Remove(d, rest), d);
      RemoveUndoesAddIff(c, rest, value);
    } else {
      CreatedStays(v, segments, value);
    }
  }

  lemma AddOne(v: Json, segment: string, value: Json)
    ensures Edit(v, Add, [segment], value) == EditChild(v, Add, segment, value)
  {}

  /** Adding over a member loses it, and what was appended by "-" cannot be removed by "-". */
  lemma RemoveCanLose(value: Json)
    ensures Remove(Edit(JObject(map["a" := JNull]), Add, ["a"], value), ["a"]) == JObject(map[])
    ensures Remove(Edit(JArray([]), Add, ["-"], value), ["-"]) == JArray([value])
  {
    DashIsNoIndex();
    assert map["a" := JNull]["a" := value] - {"a"} == map[];
  }

  // ---- Move between object members ---------------------------------------------------------

  function Parents(segments: seq<string>): seq<string>
    requires segments != []
  {
    segments[..|segments| - 1]
  }

  /** `segments` names a place, filled or not, in an object that exists. */
  predicate InObject(v: Json, segments: seq<string>)
    requires segments != []
  {
    Get(v, Parents(segments)).Some? && Get(v, Parents(segments)).value.JObject?
  }

  lemma InObjectBelow(v: Json, segments: seq<string>)
    requires |segments| > 1 && InObject(v, segments)
    ensures Child(v, segments[0]).Some? && Child(v, segments[0]).value.IsContainer()
    ensures InObject(Child(v, segments[0]).value, segments[1..])
  {
    hide Child;
    assert Parents(segments)[1..] == Parents(segments[1..]);
    ThroughIsContainer(Child(v, segments[0]).value, Parents(segments[1..]), Get(v, Parents(segments)).value);
  }

  /** Adding a member to an existing object changes no path that parts from it, found or not. */
  lemma {:induction false} AddMemberFrame(v: Json, p: seq<string>, value: Json, q: seq<string>)
    requires p != [] && InObject(v, p) && Diverge(p, q)
    ensures Get(Edit(v, Add, p, value), q) == Get(v, q)
    decreases |p|
  {
    hide ParseIndex, Edit;
    if |p| == 1 {
      assert p == [p[0]];
      AddOne(v, p[0], value);
    } else {
      InObjectBelow(v, p);
      var d := Child(v, p[0]).value;
      EditThrough(v, Add, p, value);
      WithChildLaws(v, p[0], Edit(d, Add, p[1..], value), d);
      if p[0] == q[0] || SameIndex(p[0], q[0]) {
        AddMemberFrame(d, p[1..], value, q[1..]);
        SameStep(v, Edit(v, Add, p, value), p[0], q[0]);
      }
    }
  }

  lemma {:induction false} RemoveMemberFrame(v: Json, p: seq<string>, q: seq<string>)
    requires p != [] && InObject(v, p) && Diverge(p, q)
    ensures Get(Remove(v, p), q) == Get(v, q)
    decreases |p|
  {
    hide ParseIndex;
    if |p| > 1 {
      InObjectBelow(v, p);
      var d := Child(v, p[0]).value;
      WithChildLaws(v, p[0], Remove(d, p[1..]), d);
      if p[0] == q[0] || SameIndex(p[0], q[0]) {
        RemoveMemberFrame(d, p[1..], q[1..]);
        SameStep(v, Remove(v, p), p[0], q[0]);
      }
    }
  }

  /** A removed object member is gone. */
  lemma {:induction false} RemovedIsGone(v: Json, p: seq<string>)
    requires p != [] && InObject(v, p)
    ensures Get(Remove(v, p), p) == None
    decreases |p|
  {
    hide ParseIndex;
    if |p| > 1 {
      InObjectBelow(v, p);
      var d := Child(v, p[0]).value;
      WithChildLaws(v, p[0], Remove(d, p[1..]), d);
      RemovedIsGone(d, p[1..]);
    }
  }

  /** Removing a member leaves every object that was not inside it an object. */
  lemma {:induction false} ObjectsStay(v: Json, p: seq<string>, q: seq<string>, last: string)
    requires p != [] && InObject(v, p) && Diverge(p, q + [last])
    requires Get(v, q).Some? && Get(v, q).value.JObject?
    ensures Get(Remove(v, p), q).Some? && Get(Remove(v, p), q).value.JObject?
    decreases |p|
  {
    hide ParseIndex;
    if |p| > 1 { InObjectBelow(v, p); }
    if q == [] {
    } else {
      assert (q + [last])[0] == q[0] && (q + [last])[1..] == q[1..] + [last];
      if |p| > 1 {
        var d := Child(v, p[0]).value;
        WithChildLaws(v, p[0], Remove(d, p[1..]), d);
        if p[0] == q[0] || SameIndex(p[0], q[0]) {
          SameStep(v, Remove(v, p), p[0], q[0]);
          if Child(v, q[0]) == Child(v, p[0]) { ObjectsStay(d, p[1..], q[1..], last); }
        }
      }
    }
  }

  lemma {:induction false} GetSnoc(v: Json, parents: seq<string>, last: string)
    ensures Get(v, parents + [last]) ==
            if Get(v, parents).None? then None else Child(Get(v, parents).value, last)
    decreases |parents|
  {
    hide Child;
    var p := parents + [last];
    if parents == [] {
      assert p[1..] == [];
    } else {
      assert p[0] == parents[0] && p[1..] == parents[1..] + [last];
      if Child(v, p[0]).Some? { GetSnoc(Child(v, p[0]).value, parents[1..], last); }
    }
  }

  function Move(v: Json, from: seq<string>, to: seq<string>, value: Json): Json
    requires from != [] && to != []
  {
    Edit(Remove(v, from), Add, to, value)
  }

  /** Moving between object members, neither inside the other, leaves the old value at the
      target, nothing at the source, and every path that parts from both as it was. */
  lemma MoveLaw(v: Json, from: seq<string>, to: seq<string>, value: Json, q: seq<string>)
    requires from != [] && to != [] && Diverge(from, to)
    requires InObject(v, from) && InObject(v, to) && Get(v, from) == Some(value)
    ensures Get(Move(v, from, to, value), to) == Some(value)
    ensures Get(Move(v, from, to, value), from) == None
    ensures Diverge(from, q) && Diverge(to, q) ==> Get(Move(v, from, to, value), q) == Get(v, q)
  {
    hide Get, Edit, Remove, Diverge;
    DivergeSymmetric(from, to);
    var v1 := Remove(v, from);
    var parents, last := Parents(to), to[|to| - 1];
    assert to == parents + [last];
    ObjectsStay(v, from, parents, last);
    RemovedIsGone(v, from);
    AddMemberFrame(v1, to, value, from);
    var c := Get(v1, parents).value;
    EditActsOnParent(v1, Add, parents, last, value, c);
    GetSnoc(Edit(v1, Add, to, value), parents, last);
    if Diverge(from, q) && Diverge(to, q) {
      RemoveMemberFrame(v, from, q);
      AddMemberFrame(v1, to, value, q);
    }
  }
}
