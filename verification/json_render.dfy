/** Patches over a document and the compilation of a patch stream:
    crates/remo-ext-generative-ui/src/json_render.rs. */
module JsonRender {
  import opened Wrappers
  import opened JsonValue
  import opened JsonPointer
  import opened JsonPatch
  import opened JsonWalk

  datatype SpecStreamPatch = SpecStreamPatch(op: string, path: string, from: Option<string>, value: Option<Json>)

  datatype PatchError = MissingFrom | MissingValue | TestFailed | UnsupportedOp

  /** The empty pointer and "/" both mean the whole document. */
  predicate IsRoot(path: string) {
    path == "" || path == "/"
  }

  function GetAt(v: Json, path: string): Option<Json> {
    if IsRoot(path) then Some(v) else Get(v, ParsePointer(path))
  }

  function EditAt(v: Json, kind: EditKind, path: string, value: Json): Json {
    if IsRoot(path) then value else Edit(v, kind, ParsePointer(path), value)
  }

  function RemoveAt(v: Json, path: string): Json {
    if IsRoot(path) then v else Remove(v, ParsePointer(path))
  }

  function Applied(v: Json, p: SpecStreamPatch): Result<Json, PatchError> {
    var value := if p.value.Some? then p.value.value else JNull;
    if p.op == "add" then Ok(EditAt(v, Add, p.path, value))
    else if p.op == "replace" then Ok(EditAt(v, Replace, p.path, value))
    else if p.op == "remove" then Ok(RemoveAt(v, p.path))
    else if p.op == "move" then
      if p.from.None? then Err(MissingFrom)
      else
        match GetAt(v, p.from.value)
        case None => Ok(v)
        case Some(x) => Ok(EditAt(RemoveAt(v, p.from.value), Add, p.path, x))
    else if p.op == "copy" then
      if p.from.None? then Err(MissingFrom)
      else
        match GetAt(v, p.from.value)
        case None => Ok(v)
        case Some(x) => Ok(EditAt(v, Add, p.path, x))
    else if p.op == "test" then
      if p.value.None? then Err(MissingValue)
      else if GetAt(v, p.path) == p.value then Ok(v)
      else Err(TestFailed)
    else Err(UnsupportedOp)
  }

  /** Patches in order; the first error ends the stream. */
  function Replay(v: Json, patches: seq<SpecStreamPatch>): Result<Json, PatchError> {
    if patches == [] then Ok(v)
    else
      match Replay(v, patches[..|patches| - 1])
      case Err(e) => Err(e)
      case Ok(w) => Applied(w, patches[|patches| - 1])
  }

  /** The document a stream of patches updates in place. */
  class SpecDocument {
    var spec: Json

    constructor ()
      ensures spec == JObject(map[])
    {
      spec := JObject(map[]);
    }

    /** The read-only walk, one segment at a time. */
    method GetByPath(path: string) returns (r: Option<Json>)
      ensures r == GetAt(spec, path)
    {
      if IsRoot(path) { return Some(spec); }
      var segments := ParsePointer(path);
      var current := spec;
      for i := 0 to |segments|
        invariant Get(spec, segments) == Get(current, segments[i..])
      {
        assert segments[i..][1..] == segments[i + 1..];
        var next := Child(current, segments[i]);
        if next.None? { return None; }
        current := next.value;
      }
      r := Some(current);
    }

    method SetByPath(path: string, value: Json)
      modifies this
      ensures spec == EditAt(old(spec), Replace, path, value)
    {
      if IsRoot(path) { spec := value; return; }
      var segments := ParsePointer(path);
      var context, parent := EnsureParentContainer(spec, Parents(segments));
      var last := segments[|segments| - 1];
      assert segments == Parents(segments) + [last];
      spec := Plugged(context, EditChild(parent, Replace, last, value));
    }

    method AddByPath(path: string, value: Json)
      modifies this
      ensures spec == EditAt(old(spec), Add, path, value)
    {
      if IsRoot(path) { spec := value; return; }
      var segments := ParsePointer(path);
      var context, parent := EnsureParentContainer(spec, Parents(segments));
      var last := segments[|segments| - 1];
      assert segments == Parents(segments) + [last];
      spec := Plugged(context, EditChild(parent, Add, last, value));
    }

    method RemoveByPath(path: string)
      modifies this
      ensures spec == RemoveAt(old(spec), path)
    {
      if IsRoot(path) { return; }
      var segments := ParsePointer(path);
      var last := segments[|segments| - 1];
      assert segments == Parents(segments) + [last];
      var context, parent := GetParentContainer(spec, Parents(segments));
      if parent.None? { return; }
      spec := Plugged(context, RemoveChild(parent.value, last));
    }

    /** A patch that fails leaves the document as it was. */
    method ApplySpecStreamPatch(patch: SpecStreamPatch) returns (r: Result<(), PatchError>)
      modifies this
      ensures match Applied(old(spec), patch)
              case Ok(w) => r == Ok(()) && spec == w
              case Err(e) => r == Err(e) && spec == old(spec)
    {
      var value := if patch.value.Some? then patch.value.value else JNull;
      if patch.op == "add" {
        AddByPath(patch.path, value);
      } else if patch.op == "replace" {
        SetByPath(patch.path, value);
      } else if patch.op == "remove" {
        RemoveByPath(patch.path);
      } else if patch.op == "move" {
        if patch.from.None? { return Err(MissingFrom); }
        var x := GetByPath(patch.from.value);
        if x.None? { return Ok(()); }
        RemoveByPath(patch.from.value);
        AddByPath(patch.path, x.value);
      } else if patch.op == "copy" {
        if patch.from.None? { return Err(MissingFrom); }
        var x := GetByPath(patch.from.value);
        if x.None? { return Ok(()); }
        AddByPath(patch.path, x.value);
      } else if patch.op == "test" {
        if patch.value.None? { return Err(MissingValue); }
        var actual := GetByPath(patch.path);
        if actual != patch.value { return Err(TestFailed); }
      } else {
        return Err(UnsupportedOp);
      }
      r := Ok(());
    }
  }

  // ---- Validation and compilation ----------------------------------------------------------

  /** The Unicode White_Space characters that `str::trim` removes. */
  predicate IsSpace(c: char) {
    '\t' <= c <= '\r' || c == ' ' || c == '\U{85}' || c == '\U{A0}' || c == '\U{1680}'
    || '\U{2000}' <= c <= '\U{200A}' || c == '\U{2028}' || c == '\U{2029}' || c == '\U{202F}'
    || c == '\U{205F}' || c == '\U{3000}'
  }

  function Trim(s: string): string {
    if s == "" then s
    else if IsSpace(s[0]) then Trim(s[1..])
    else if IsSpace(s[|s| - 1]) then Trim(s[..|s| - 1])
    else s
  }

  /** A specification: a non-blank root name that the elements define. */
  predicate ValidSpec(spec: Json) {
    && spec.JObject?
    && "root" in spec.fields && spec.fields["root"].JString? && Trim(spec.fields["root"].s) != ""
    && "elements" in spec.fields && spec.fields["elements"].JObject?
    && spec.fields["root"].s in spec.fields["elements"].fields
  }

  datatype CompileError = EmptyOutput | BadPatch(error: PatchError) | InvalidJson | InvalidSpec

  /** The patches a stream carries: lines that parse as one and do not address the whole document
      by the empty pointer; every other line is skipped. */
  function Patches(lines: seq<string>, parse: string -> Option<SpecStreamPatch>): seq<SpecStreamPatch> {
    if lines == [] then []
    else
      var before := Patches(lines[..|lines| - 1], parse);
      var p := parse(Trim(lines[|lines| - 1]));
      if Trim(lines[|lines| - 1]) != "" && p.Some? && p.value.path != "" then before + [p.value] else before
  }

  /** What the content denotes: its patches replayed on an empty object, or, when it holds no
      patch, the content itself read as a document. */
  function Denoted(
      content: string, parse: string -> Option<SpecStreamPatch>, parseSpec: string -> Option<Json>)
    : Result<Json, CompileError>
  {
    var trimmed := Trim(content);
    var patches := Patches(Split(trimmed, '\n'), parse);
    if trimmed == "" then Err(EmptyOutput)
    else if patches == [] then
      (if parseSpec(trimmed).Some? then Ok(parseSpec(trimmed).value) else Err(InvalidJson))
    else
      match Replay(JObject(map[]), patches)
      case Err(e) => Err(BadPatch(e))
      case Ok(v) => Ok(v)
  }

  lemma {:induction false} ReplayErrStays(v: Json, patches: seq<SpecStreamPatch>, more: seq<SpecStreamPatch>)
    requires Replay(v, patches).Err?
    ensures Replay(v, patches + more) == Replay(v, patches)
  {
    var all := patches + more;
    if more == [] {
      assert all == patches;
    } else {
      assert all[..|all| - 1] == patches + more[..|more| - 1];
      ReplayErrStays(v, patches, more[..|more| - 1]);
    }
  }

  lemma {:induction false} PatchesOfPrefix(
      lines: seq<string>, n: nat, parse: string -> Option<SpecStreamPatch>) returns (more: seq<SpecStreamPatch>)
    requires n <= |lines|
    ensures Patches(lines, parse) == Patches(lines[..n], parse) + more
    decreases |lines|
  {
    if n == |lines| {
      assert lines[..n] == lines;
      more := [];
    } else {
      var init := lines[..|lines| - 1];
      assert init[..n] == lines[..n];
      more := PatchesOfPrefix(init, n, parse);
      if Patches(lines, parse) != Patches(init, parse) {
        more := more + [Patches(lines, parse)[|Patches(init, parse)|]];
      }
    }
  }

  lemma ReplaySnoc(v: Json, patches: seq<SpecStreamPatch>, p: SpecStreamPatch)
    ensures Replay(v, patches + [p]) ==
            match Replay(v, patches) case Err(e) => Err(e) case Ok(w) => Applied(w, p)
  {
    assert (patches + [p])[..|patches|] == patches;
  }

  lemma PatchesNext(lines: seq<string>, i: nat, parse: string -> Option<SpecStreamPatch>)
    requires i < |lines|
    ensures var line := Trim(lines[i]);
            var before := Patches(lines[..i], parse);
            Patches(lines[..i + 1], parse) ==
            if line != "" && parse(line).Some? && parse(line).value.path != "" then before + [parse(line).value]
            else before
  {
    assert lines[..i + 1][..i] == lines[..i];
  }

  lemma ReplayFails(lines: seq<string>, n: nat, parse: string -> Option<SpecStreamPatch>)
    requires n <= |lines| && Replay(JObject(map[]), Patches(lines[..n], parse)).Err?
    ensures Patches(lines, parse) != []
    ensures Replay(JObject(map[]), Patches(lines, parse)) == Replay(JObject(map[]), Patches(lines[..n], parse))
  {
    var more := PatchesOfPrefix(lines, n, parse);
    ReplayErrStays(JObject(map[]), Patches(lines[..n], parse), more);
  }

  /** The loop over the lines: succeeds exactly when the content denotes a valid specification,
      and returns that one. */
  method CompileOutput(
      content: string, parse: string -> Option<SpecStreamPatch>, parseSpec: string -> Option<Json>)
    returns (r: Result<Json, CompileError>)
    ensures r == match Denoted(content, parse, parseSpec)
                 case Err(e) => Err(e)
                 case Ok(v) => if ValidSpec(v) then Ok(v) else Err(InvalidSpec)
  {
    hide Applied, ValidSpec, Trim, Split, Patches, Replay;
    var trimmed := Trim(content);
    if trimmed == "" { return Err(EmptyOutput); }
    var document := new SpecDocument();
    var count := 0;
    var lines := Split(trimmed, '\n');
    NothingYet(lines, parse);
    for i := 0 to |lines|
      invariant fresh(document)
      invariant count == |Patches(lines[..i], parse)|
      invariant Replay(JObject(map[]), Patches(lines[..i], parse)) == Ok(document.spec)
    {
      var line := Trim(lines[i]);
      PatchesNext(lines, i, parse);
      if line == "" { continue; }
      var patch := parse(line);
      if patch.None? || patch.value.path == "" { continue; }
      ReplaySnoc(JObject(map[]), Patches(lines[..i], parse), patch.value);
      var applied := document.ApplySpecStreamPatch(patch.value);
      if applied.Err? {
        ReplayFails(lines, i + 1, parse);
        return Err(BadPatch(applied.error));
      }
      count := count + 1;
    }
    assert lines[..|lines|] == lines;
    if count == 0 {
      if parseSpec(trimmed).None? { return Err(InvalidJson); }
      var parsed := parseSpec(trimmed).value;
      return if ValidSpec(parsed) then Ok(parsed) else Err(InvalidSpec);
    }
    r := if ValidSpec(document.spec) then Ok(document.spec) else Err(InvalidSpec);
  }

  lemma NothingYet(lines: seq<string>, parse: string -> Option<SpecStreamPatch>)
    ensures Patches(lines[..0], parse) == [] && Replay(JObject(map[]), []) == Ok(JObject(map[]))
  {}

  /** In a compiled specification the printed pointer to the root element resolves. */
  lemma RootElementResolves(spec: Json)
    requires ValidSpec(spec)
    ensures GetAt(spec, Print(["elements", spec.fields["root"].s])).Some?
    ensures GetAt(spec, "/root") == Some(spec.fields["root"])
  {
    hide ParsePointer, Print;
    var root := spec.fields["root"].s;
    ParsePrint(["elements", root]);
    PrintIsLong(["elements", root]);
    GetTwo(spec, "elements", root);
    ParsePrint(["root"]);
    PrintPlain("root");
    assert "/" + "root" == "/root";
    GetOne(spec, "root");
    assert |"/root"| == 5;
  }

  lemma GetOne(v: Json, a: string)
    ensures Get(v, [a]) == Child(v, a)
  {
    assert [a][1..] == [];
  }

  lemma GetTwo(v: Json, a: string, b: string)
    ensures Get(v, [a, b]) == if Child(v, a).None? then None else Child(Child(v, a).value, b)
  {
    assert [a, b][1..] == [b];
    if Child(v, a).Some? { GetOne(Child(v, a).value, b); }
  }

  lemma PrintIsLong(segments: seq<string>)
    requires |segments| > 1
    ensures !IsRoot(Print(segments))
  {
    assert Print(segments[1..])[0] == '/';
  }

  /** An edit at any pointer reads back exactly when the place was addressable; the whole document
      always is. */
  lemma EditAtReadsBackIff(v: Json, kind: EditKind, path: string, value: Json)
    ensures GetAt(EditAt(v, kind, path, value), path) == Some(value)
            <==> IsRoot(path) || Addressable(v, kind, ParsePointer(path))
  {
    hide Addressable, Edit, Get, ParsePointer;
    if !IsRoot(path) { EditReadsBackIff(v, kind, ParsePointer(path), value); }
  }

  /** A `move` patch between object members, neither inside the other. */
  lemma MovePatchLaw(v: Json, p: SpecStreamPatch, q: string)
    requires p.op == "move" && p.from.Some? && !IsRoot(p.from.value) && !IsRoot(p.path)
    requires var from, to := ParsePointer(p.from.value), ParsePointer(p.path);
             Diverge(from, to) && InObject(v, from) && InObject(v, to)
    requires GetAt(v, p.from.value).Some?
    ensures Applied(v, p).Ok?
    ensures GetAt(Applied(v, p).value, p.path) == GetAt(v, p.from.value)
    ensures GetAt(Applied(v, p).value, p.from.value) == None
    ensures !IsRoot(q) && Diverge(ParsePointer(p.from.value), ParsePointer(q))
            && Diverge(ParsePointer(p.path), ParsePointer(q))
            ==> GetAt(Applied(v, p).value, q) == GetAt(v, q)
  {
    hide Edit, Get, Remove, Diverge, ParsePointer;
    MoveLaw(v, ParsePointer(p.from.value), ParsePointer(p.path), GetAt(v, p.from.value).value, ParsePointer(q));
  }

  /** A `copy` patch between object members, neither inside the other: the value is at both places
      and nothing else has changed. */
  lemma CopyPatchLaw(v: Json, p: SpecStreamPatch, q: string)
    requires p.op == "copy" && p.from.Some? && !IsRoot(p.from.value) && !IsRoot(p.path)
    requires var from, to := ParsePointer(p.from.value), ParsePointer(p.path); Diverge(from, to) && InObject(v, to)
    requires GetAt(v, p.from.value).Some?
    ensures Applied(v, p).Ok?
    ensures GetAt(Applied(v, p).value, p.path) == GetAt(v, p.from.value)
    ensures GetAt(Applied(v, p).value, p.from.value) == GetAt(v, p.from.value)
    ensures !IsRoot(q) && Diverge(ParsePointer(p.path), ParsePointer(q)) ==>
              GetAt(Applied(v, p).value, q) == GetAt(v, q)
  {
    hide Edit, Get, Diverge, ParsePointer;
    var from, to := ParsePointer(p.from.value), ParsePointer(p.path);
    var value := GetAt(v, p.from.value).value;
    DivergeSymmetric(from, to);
    AddMemberFrame(v, to, value, from);
    var parents, last := Parents(to), to[|to| - 1];
    assert to == parents + [last];
    var c := Get(v, parents).value;
    EditActsOnParent(v, Add, parents, last, value, c);
    GetSnoc(Edit(v, Add, to, value), parents, last);
    if Diverge(to, ParsePointer(q)) { AddMemberFrame(v, to, value, ParsePointer(q)); }
  }

  /** A `test` patch never changes the document, and passes exactly when the place holds the value;
      a `move` or `copy` from a place that holds nothing changes nothing. */
  lemma TestPatchLaw(v: Json, p: SpecStreamPatch)
    ensures p.op == "test" ==> (Applied(v, p).Ok? <==> p.value.Some? && GetAt(v, p.path) == p.value)
    ensures p.op == "test" && Applied(v, p).Ok? ==> Applied(v, p).value == v
    ensures (p.op == "move" || p.op == "copy") && p.from.Some? && GetAt(v, p.from.value).None? ==> Applied(v, p) == Ok(v)
    ensures (p.op == "move" || p.op == "copy") ==> (Applied(v, p).Err? <==> p.from.None?)
    ensures Applied(v, p) == Err(UnsupportedOp) <==> p.op !in {"add", "replace", "remove", "move", "copy", "test"}
  {}

  /** The whole document is replaced by `add` and `replace`, a missing value being null, and never
      removed. */
  lemma RootPatchLaw(v: Json, p: SpecStreamPatch)
    requires p.path == "" || p.path == "/"
    ensures p.op == "add" || p.op == "replace" ==> Applied(v, p) == Ok(if p.value.Some? then p.value.value else JNull)
    ensures p.op == "remove" ==> Applied(v, p) == Ok(v)
  {}

  /** What is left of a string is a stretch of it between white space that neither begins nor ends
      with any. */
  lemma {:induction false} TrimIs(s: string) returns (before: string, after: string)
    ensures s == before + Trim(s) + after
    ensures (forall i :: 0 <= i < |before| ==> IsSpace(before[i])) && (forall i :: 0 <= i < |after| ==> IsSpace(after[i]))
    ensures Trim(s) != "" ==> !IsSpace(Trim(s)[0]) && !IsSpace(Trim(s)[|Trim(s)| - 1])
    decreases |s|
  {
    before, after := "", "";
    if s == "" {
    } else if IsSpace(s[0]) {
      before, after := TrimIs(s[1..]);
      assert s == [s[0]] + s[1..];
      before := [s[0]] + before;
    } else if IsSpace(s[|s| - 1]) {
      before, after := TrimIs(s[..|s| - 1]);
      assert s == s[..|s| - 1] + [s[|s| - 1]];
      after := after + [s[|s| - 1]];
    }
  }

  lemma {:induction false} BlankTrims(s: string)
    ensures Trim(s) == "" <==> forall i :: 0 <= i < |s| ==> IsSpace(s[i])
    decreases |s|
  {
    if s == "" {
    } else if IsSpace(s[0]) {
      BlankTrims(s[1..]);
      assert forall i :: 0 <= i < |s[1..]| ==> s[1..][i] == s[i + 1];
      assert forall i :: 1 <= i < |s| ==> s[i] == s[1..][i - 1];
    } else if IsSpace(s[|s| - 1]) {
      BlankTrims(s[..|s| - 1]);
      assert s[..|s| - 1][0] == s[0];
    }
  }

  /** A document is a valid specification exactly when the pointers "/root" and "/elements" find in
      it a name that is not blank and an object that defines that name. */
  lemma ValidSpecIff(spec: Json)
    ensures ValidSpec(spec) <==>
            && spec.JObject?
            && (exists root :: GetAt(spec, "/root") == Some(JString(root)) && NamesElement(spec, root))
  {
    hide ParsePointer, Print, Trim, IsSpace;
    PrintPlain("root");
    assert "/" + "root" == "/root";
    PrintPlain("elements");
    assert "/" + "elements" == "/elements";
    ParsePrint(["root"]);
    ParsePrint(["elements"]);
    GetOne(spec, "root");
    GetOne(spec, "elements");
    assert |"/root"| == 5 && |"/elements"| == 9;
    if spec.JObject? && "root" in spec.fields && spec.fields["root"].JString? {
      BlankTrims(spec.fields["root"].s);
      assert ValidSpec(spec) ==> NamesElement(spec, spec.fields["root"].s);
    }
  }

  ghost predicate NamesElement(spec: Json, root: string) {
    && !(forall i :: 0 <= i < |root| ==> IsSpace(root[i]))
    && GetAt(spec, "/elements").Some? && GetAt(spec, "/elements").value.JObject?
    && root in GetAt(spec, "/elements").value.fields
  }

  /** Patches are applied first to last: a stream does what its beginning and then its end do. */
  lemma {:induction false} ReplayConcat(v: Json, a: seq<SpecStreamPatch>, b: seq<SpecStreamPatch>)
    ensures Replay(v, a + b) == match Replay(v, a) case Err(e) => Err(e) case Ok(w) => Replay(w, b)
    decreases |b|
  {
    hide Applied;
    if b == [] {
      assert a + b == a;
    } else {
      assert (a + b)[..|a + b| - 1] == a + b[..|b| - 1];
      ReplayConcat(v, a, b[..|b| - 1]);
    }
  }

  /** A content without any patch is read as a whole; one with a patch never is. */
  lemma DenotedWithoutPatches(
      content: string, parse: string -> Option<SpecStreamPatch>, parseSpec: string -> Option<Json>)
    requires Trim(content) != ""
    ensures (forall i :: 0 <= i < |Split(Trim(content), '\n')| ==> !CarriesPatch(Split(Trim(content), '\n')[i], parse)) ==>
              Denoted(content, parse, parseSpec)
              == if parseSpec(Trim(content)).Some? then Ok(parseSpec(Trim(content)).value) else Err(InvalidJson)
    ensures (exists i :: 0 <= i < |Split(Trim(content), '\n')| && CarriesPatch(Split(Trim(content), '\n')[i], parse)) ==>
              Denoted(content, parse, parseSpec) != Err(InvalidJson)
  {
    hide Trim, Split, Replay;
    PatchesCarried(Split(Trim(content), '\n'), parse);
  }

  predicate CarriesPatch(line: string, parse: string -> Option<SpecStreamPatch>) {
    Trim(line) != "" && parse(Trim(line)).Some? && parse(Trim(line)).value.path != ""
  }

  lemma {:induction false} PatchesCarried(lines: seq<string>, parse: string -> Option<SpecStreamPatch>)
    ensures Patches(lines, parse) == [] <==> forall i :: 0 <= i < |lines| ==> !CarriesPatch(lines[i], parse)
    decreases |lines|
  {
    hide Trim;
    if lines == [] {
    } else {
      PatchesCarried(lines[..|lines| - 1], parse);
      assert forall i :: 0 <= i < |lines| - 1 ==> lines[..|lines| - 1][i] == lines[i];
    }
  }
}
