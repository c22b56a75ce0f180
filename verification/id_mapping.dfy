/** Tool identifiers: crates/remo-ext-mcp/src/id_mapping.rs. */
module IdMapping {
  import opened Wrappers

  predicate IsAlnum(c: char) {
    '0' <= c <= '9' || 'A' <= c <= 'Z' || 'a' <= c <= 'z'
  }

  predicate IsWord(w: string) {
    w != "" && forall i :: 0 <= i < |w| ==> IsAlnum(w[i])
  }

  /** The maximal alphanumeric runs of `s`, in order. */
  function Words(s: string): (ws: seq<string>)
    ensures forall i :: 0 <= i < |ws| ==> IsWord(ws[i])
  {
    if s == "" then []
    else
      var init, c := s[..|s| - 1], s[|s| - 1];
      var ws := Words(init);
      if !IsAlnum(c) then ws
      else if EndsInWord(init) && ws != [] then ExtendLast(ws, c)
      else ws + [[c]]
  }

  function ExtendLast(ws: seq<string>, c: char): seq<string>
    requires ws != []
  {
    ws[..|ws| - 1] + [ws[|ws| - 1] + [c]]
  }

  predicate EndsInWord(s: string) {
    s != "" && IsAlnum(s[|s| - 1])
  }

  /** The words joined by single underscores. */
  function Join(ws: seq<string>): string {
    if ws == [] then ""
    else if |ws| == 1 then ws[0]
    else Join(ws[..|ws| - 1]) + "_" + ws[|ws| - 1]
  }

  /** The shape of a sanitised component. */
  predicate Clean(s: string) {
    && s != ""
    && s[0] != '_' && s[|s| - 1] != '_'
    && (forall i :: 0 <= i < |s| ==> IsAlnum(s[i]) || s[i] == '_')
    && (forall i :: 0 <= i < |s| - 1 ==> !(s[i] == '_' && s[i + 1] == '_'))
  }

  function TrimStart(s: string): string {
    if s != "" && s[0] == '_' then TrimStart(s[1..]) else s
  }

  function TrimEnd(s: string): string {
    if s != "" && s[|s| - 1] == '_' then TrimEnd(s[..|s| - 1]) else s
  }

  /** What `sanitize_component` promises, said without its loop. */
  function Sanitized(raw: string): Result<string, string> {
    if Words(raw) == [] then Err(raw) else Ok(Join(Words(raw)))
  }

  /** A word alone, or a leading and trailing separator around the joined words. */
  ghost predicate LoopShape(done: string, out: string, prevUnderscore: bool) {
    var core := Join(Words(done));
    && prevUnderscore == (done != "" && !EndsInWord(done))
    && (Words(done) == [] ==> out == if done == "" then "" else "_")
    && (Words(done) != [] ==>
          out == (if IsAlnum(done[0]) then "" else "_") + core + (if prevUnderscore then "_" else ""))
  }

  lemma EndsInWordHasWord(s: string)
    requires EndsInWord(s)
    ensures Words(s) != []
  {}

  lemma WordsSnoc(s: string, c: char)
    ensures Words(s + [c]) ==
            if !IsAlnum(c) then Words(s)
            else if EndsInWord(s) && Words(s) != [] then ExtendLast(Words(s), c)
            else Words(s) + [[c]]
  {
    assert (s + [c])[..|s|] == s;
  }

  lemma JoinSnoc(ws: seq<string>, w: string)
    ensures Join(ws + [w]) == if ws == [] then w else Join(ws) + "_" + w
  {
    assert (ws + [w])[..|ws|] == ws;
  }

  lemma JoinExtendLast(ws: seq<string>, c: char)
    requires ws != []
    ensures Join(ExtendLast(ws, c)) == Join(ws) + [c]
  {
    var init, w := ws[..|ws| - 1], ws[|ws| - 1];
    assert ws == init + [w];
    JoinSnoc(init, w);
    JoinSnoc(init, w + [c]);
    if init != [] {
      assert Join(init) + "_" + (w + [c]) == (Join(init) + "_" + w) + [c];
    }
  }

  lemma LoopShapeStep(done: string, c: char, out: string, prev: bool)
    requires LoopShape(done, out, prev)
    ensures IsAlnum(c) ==> LoopShape(done + [c], out + [c], false)
    ensures !IsAlnum(c) && prev ==> LoopShape(done + [c], out, true)
    ensures !IsAlnum(c) && !prev ==> LoopShape(done + [c], out + "_", true)
  {
    var next := done + [c];
    var ws := Words(done);
    WordsSnoc(done, c);
    assert EndsInWord(next) == IsAlnum(c);
    if done != "" {
      assert next[0] == done[0];
      if EndsInWord(done) { EndsInWordHasWord(done); }
    }
    if IsAlnum(c) {
      if ws == [] {
        JoinSnoc(ws, [c]);
        NoWordsNoAlnum(done);
        assert Join(Words(next)) == [c];
      } else {
        var core, lead := Join(ws), if IsAlnum(done[0]) then "" else "_";
        if prev {
          JoinSnoc(ws, [c]);
          assert out + [c] == lead + (core + "_" + [c]);
        } else {
          JoinExtendLast(ws, c);
          assert out + [c] == lead + (core + [c]);
        }
      }
    }
  }

  lemma {:induction false} NoWordsNoAlnum(s: string)
    requires Words(s) == []
    ensures forall i :: 0 <= i < |s| ==> !IsAlnum(s[i])
  {
    if s == "" {
    } else {
      var init := s[..|s| - 1];
      assert s == init + [s[|s| - 1]];
      WordsSnoc(init, s[|s| - 1]);
      NoWordsNoAlnum(init);
      assert forall i :: 0 <= i < |init| ==> s[i] == init[i];
    }
  }

  lemma CleanExtends(s: string, w: string)
    requires IsWord(w)
    ensures Clean(w)
    ensures Clean(s) ==> Clean(s + "_" + w)
  {
    var t := s + "_" + w;
    if Clean(s) {
      assert forall i :: 0 <= i < |t| ==>
          t[i] == if i < |s| then s[i] else if i == |s| then '_' else w[i - |s| - 1];
    }
  }

  /** Joining nonempty words gives a clean string that splits back into those words. */
  lemma {:induction false} JoinIsClean(ws: seq<string>)
    requires ws != [] && forall i :: 0 <= i < |ws| ==> IsWord(ws[i])
    ensures Clean(Join(ws)) && Words(Join(ws)) == ws && EndsInWord(Join(ws))
  {
    var init, w := ws[..|ws| - 1], ws[|ws| - 1];
    assert ws == init + [w];
    JoinSnoc(init, w);
    CleanExtends(Join(init), w);
    if init == [] {
      WordsOfExtension("", w);
      assert "" + w == w && Words("") + [w] == ws;
    } else {
      assert forall i :: 0 <= i < |init| ==> init[i] == ws[i];
      JoinIsClean(init);
      WordsSnoc(Join(init), '_');
      WordsOfExtension(Join(init) + "_", w);
    }
  }

  lemma {:induction false} WordsOfExtension(s: string, w: string)
    requires !EndsInWord(s) && IsWord(w)
    ensures Words(s + w) == Words(s) + [w] && EndsInWord(s + w)
  {
    var init, c := w[..|w| - 1], w[|w| - 1];
    assert w == init + [c] && s + w == (s + init) + [c];
    WordsSnoc(s + init, c);
    if init == "" {
      assert s + init == s && w == [c];
    } else {
      assert IsWord(init) by { assert forall i :: 0 <= i < |init| ==> init[i] == w[i]; }
      WordsOfExtension(s, init);
      assert ExtendLast(Words(s) + [init], c) == Words(s) + [init + [c]];
    }
  }

  lemma TrimClean(s: string)
    requires Clean(s)
    ensures TrimEnd(s) == s && TrimEnd(s + "_") == s
    ensures TrimStart(s) == s && TrimStart(s + "_") == s + "_"
    ensures TrimStart("_" + s) == s && TrimStart("_" + s + "_") == s + "_"
  {
    assert (s + "_")[..|s|] == s;
    assert ("_" + s)[1..] == s && ("_" + s + "_")[1..] == s + "_";
  }

  lemma TrimOfLoopShape(done: string, out: string, prev: bool)
    requires LoopShape(done, out, prev)
    ensures TrimEnd(TrimStart(out)) == Join(Words(done))
  {
    if Words(done) == [] {
      assert TrimStart("_") == "";
    } else {
      var s := Join(Words(done));
      JoinIsClean(Words(done));
      TrimClean(s);
      assert "" + s == s && s + "" == s && "_" + s + "" == "_" + s;
    }
  }

  /** The loop of `sanitize_component` with its final trim. */
  method SanitizeComponent(raw: string) returns (r: Result<string, string>)
    ensures r == Sanitized(raw)
    ensures r.Ok? ==> Clean(r.value)
  {
    var out := "";
    var prevUnderscore := false;
    for i := 0 to |raw|
      invariant LoopShape(raw[..i], out, prevUnderscore)
    {
      var ch := raw[i];
      LoopShapeStep(raw[..i], ch, out, prevUnderscore);
      assert raw[..i + 1] == raw[..i] + [ch];
      var next := if IsAlnum(ch) then ch else '_';
      if next == '_' {
        if prevUnderscore { continue; }
        prevUnderscore := true;
      } else {
        prevUnderscore := false;
      }
      out := out + [next];
    }
    assert raw[..|raw|] == raw;
    TrimOfLoopShape(raw, out, prevUnderscore);
    out := TrimEnd(TrimStart(out));
    if Words(raw) != [] { JoinIsClean(Words(raw)); }
    r := if out == "" then Err(raw) else Ok(out);
  }

  /** A string that is clean but for one underscore at its end is its words and that underscore. */
  lemma {:induction false} CleanIsItsWords(s: string)
    requires s != "" && IsAlnum(s[0])
    requires forall i :: 0 <= i < |s| ==> IsAlnum(s[i]) || s[i] == '_'
    requires forall i :: 0 <= i < |s| - 1 ==> !(s[i] == '_' && s[i + 1] == '_')
    ensures Words(s) != [] && s == Join(Words(s)) + (if EndsInWord(s) then "" else "_")
    decreases |s|
  {
    var init, c := s[..|s| - 1], s[|s| - 1];
    assert s == init + [c];
    if init == "" {
      assert Words(init) == [] && Words(s) == [[c]];
    } else {
      assert forall i :: 0 <= i < |init| ==> init[i] == s[i];
      CleanIsItsWords(init);
      WordsSnoc(init, c);
      JoinExtendLast(Words(init), c);
      JoinSnoc(Words(init), [c]);
    }
  }

  /** The fixed points of the sanitiser are exactly the clean strings. */
  lemma FixedIffClean(s: string)
    ensures Sanitized(s) == Ok(s) <==> Clean(s)
  {
    if Clean(s) {
      CleanIsItsWords(s);
      assert EndsInWord(s) && Join(Words(s)) + "" == Join(Words(s));
    }
    if Sanitized(s) == Ok(s) { JoinIsClean(Words(s)); }
  }

  /** Sanitising is idempotent, and what it gives is clean: with the fixed points, its range is
      exactly the clean strings. */
  lemma SanitizeIdempotent(raw: string)
    ensures Sanitized(raw).Ok? ==>
              var s := Sanitized(raw).value; Clean(s) && Sanitized(s) == Ok(s)
    ensures Clean(raw) ==> Sanitized(raw) == Ok(raw)
  {
    if Words(raw) != [] { JoinIsClean(Words(raw)); }
    FixedIffClean(raw);
  }

  lemma WordsAfter(x: string, front: seq<string>, init: string, d: char)
    requires Words(x) == front + Words(init) && (EndsInWord(x) <==> EndsInWord(init))
    ensures Words(x + [d]) == front + Words(init + [d])
  {
    WordsSnoc(x, d);
    WordsSnoc(init, d);
    if EndsInWord(init) { EndsInWordHasWord(init); }
    hide Words, EndsInWord, IsWord;
    if IsAlnum(d) {
      if EndsInWord(init) {
        assert ExtendLast(front + Words(init), d) == front + ExtendLast(Words(init), d);
      } else {
        assert (front + Words(init)) + [[d]] == front + (Words(init) + [[d]]);
      }
    }
  }

  /** Any other character, however often it stands there, separates the words around it. */
  lemma {:induction false} WordsSplit(a: string, c: char, b: string)
    requires !IsAlnum(c)
    ensures Words(a + [c] + b) == Words(a) + Words(b)
    decreases |b|
  {
    if b == "" {
      assert a + [c] + b == a + [c];
      WordsSnoc(a, c);
    } else {
      var init, d := b[..|b| - 1], b[|b| - 1];
      WordsSplit(a, c, init);
      WordsAfter(a + [c] + init, Words(a), init, d);
      assert b == init + [d] && a + [c] + b == (a + [c] + init) + [d];
    }
  }

  /** Two names sanitise to one component exactly when they hold the same words; the only
      rejected names are those with no ASCII letter or digit. */
  lemma {:induction false} SanitizedAgreeIff(a: string, b: string)
    requires Sanitized(a).Ok? && Sanitized(b).Ok?
    ensures Sanitized(a) == Sanitized(b) <==> Words(a) == Words(b)
  {
    JoinIsClean(Words(a));
    JoinIsClean(Words(b));
  }

  lemma {:induction false} RejectedIffNoAlnum(raw: string)
    ensures Sanitized(raw).Err? <==> forall i :: 0 <= i < |raw| ==> !IsAlnum(raw[i])
  {
    if raw == "" {
    } else {
      var init := raw[..|raw| - 1];
      RejectedIffNoAlnum(init);
      if forall i :: 0 <= i < |init| ==> !IsAlnum(init[i]) {
        assert forall i :: 0 <= i < |init| ==> init[i] == raw[i];
      } else {
        var i :| 0 <= i < |init| && IsAlnum(init[i]);
        assert IsAlnum(raw[i]);
      }
    }
  }

  function FormatToolId(server: string, tool: string): string {
    "mcp__" + server + "__" + tool
  }

  function ToToolId(server: string, tool: string): Result<string, string> {
    match Sanitized(server)
    case Err(e) => Err(e)
    case Ok(s) =>
      match Sanitized(tool)
      case Err(e) => Err(e)
      case Ok(t) => Ok(FormatToolId(s, t))
  }

  /** A clean component cannot swallow the "__" that ends a shorter one. */
  lemma ShorterDiffers(s1: string, t1: string, s2: string, t2: string)
    requires Clean(s2) && |s1| < |s2|
    ensures s1 + "__" + t1 != s2 + "__" + t2
  {
    var a, b, n := s1 + "__" + t1, s2 + "__" + t2, |s1|;
    assert a[n] == '_' && a[n + 1] == '_';
    assert b[n] == s2[n];
    if n + 1 < |s2| { assert b[n + 1] == s2[n + 1]; }
    assert !(b[n] == '_' && b[n + 1] == '_');
  }

  lemma FormatDecodable(s1: string, t1: string, s2: string, t2: string)
    requires Clean(s1) && Clean(s2)
    requires FormatToolId(s1, t1) == FormatToolId(s2, t2)
    ensures s1 == s2 && t1 == t2
  {
    var a, b := s1 + "__" + t1, s2 + "__" + t2;
    assert a == FormatToolId(s1, t1)[5..] && b == FormatToolId(s2, t2)[5..];
    assert |s1| == |s2| by {
      if |s1| < |s2| { ShorterDiffers(s1, t1, s2, t2); }
      if |s2| < |s1| { ShorterDiffers(s2, t2, s1, t1); }
    }
    assert s1 == a[..|s1|] && s2 == b[..|s2|];
    assert t1 == a[|s1| + 2..] && t2 == b[|s2| + 2..];
  }

  /** Tool ids are uniquely decodable: equal ids mean equal sanitised server and tool. */
  lemma {:induction false} ToolIdAgreesIff(server1: string, tool1: string, server2: string, tool2: string)
    requires ToToolId(server1, tool1).Ok? && ToToolId(server2, tool2).Ok?
    ensures ToToolId(server1, tool1) == ToToolId(server2, tool2) <==>
            Sanitized(server1) == Sanitized(server2) && Sanitized(tool1) == Sanitized(tool2)
  {
    SanitizeIdempotent(server1);
    SanitizeIdempotent(server2);
    if ToToolId(server1, tool1) == ToToolId(server2, tool2) {
      FormatDecodable(Sanitized(server1).value, Sanitized(tool1).value,
                      Sanitized(server2).value, Sanitized(tool2).value);
    }
  }

  /** An id is "mcp", the words of the server and those of the tool, kept apart by double
      underscores; there is one exactly when both names have a word. */
  lemma ToolIdShape(server: string, tool: string)
    ensures ToToolId(server, tool).Ok? <==> Words(server) != [] && Words(tool) != []
    ensures ToToolId(server, tool).Ok? ==>
              ToToolId(server, tool).value == "mcp__" + Join(Words(server)) + "__" + Join(Words(tool))
  {
    hide Words, Join;
  }
}
