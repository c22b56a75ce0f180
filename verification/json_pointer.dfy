/** JSON pointers and array indices: crates/remo-ext-generative-ui/src/json_render.rs, with the
    escaping of RFC 6901, sections 3 and 4. */
module JsonPointer {
  import opened Wrappers

  const USIZE_MAX: nat := 0xFFFF_FFFF_FFFF_FFFF

  // ---- Splitting and unescaping ------------------------------------------------------------

  /** The pieces between separators; always at least one. */
  function Split(s: string, separator: char): (r: seq<string>)
    ensures |r| >= 1
  {
    if s == "" then [""]
    else if s[0] == separator then [""] + Split(s[1..], separator)
    else
      var r := Split(s[1..], separator);
      [[s[0]] + r[0]] + r[1..]
  }

  /** Replaces each occurrence of the two characters `a`, `b` by `c`, left to right. */
  function ReplacePair(s: string, a: char, b: char, c: char): string {
    if s == "" then ""
    else if |s| >= 2 && s[0] == a && s[1] == b then [c] + ReplacePair(s[2..], a, b, c)
    else [s[0]] + ReplacePair(s[1..], a, b, c)
  }

  /** The two whole-string passes, "~1" before "~0". */
  function Unescape(s: string): string {
    ReplacePair(ReplacePair(s, '~', '1', '/'), '~', '0', '~')
  }

  function UnescapeAll(parts: seq<string>): (r: seq<string>)
    ensures |r| == |parts|
  {
    if parts == [] then [] else [Unescape(parts[0])] + UnescapeAll(parts[1..])
  }

  function ParsePointer(path: string): (r: seq<string>)
    ensures |r| >= 1
  {
    UnescapeAll(Split(if path != "" && path[0] == '/' then path[1..] else path, '/'))
  }

  // ---- Printing by RFC 6901, section 3 -----------------------------------------------------

  function Escape(s: string): string {
    if s == "" then ""
    else (if s[0] == '~' then "~0" else if s[0] == '/' then "~1" else [s[0]]) + Escape(s[1..])
  }

  function Print(segments: seq<string>): string {
    if segments == [] then "" else "/" + Escape(segments[0]) + Print(segments[1..])
  }

  lemma {:induction false} EscapePlain(s: string)
    requires '~' !in s && '/' !in s
    ensures Escape(s) == s
  {
    if s == "" {
    } else {
      EscapePlain(s[1..]);
      assert s == [s[0]] + s[1..];
    }
  }

  lemma PrintPlain(s: string)
    requires '~' !in s && '/' !in s
    ensures Print([s]) == "/" + s
  {
    EscapePlain(s);
    assert [s][1..] == [];
  }

  /** `s` with its tildes escaped and its slashes not: what is left between the two passes. */
  function TildesEscaped(s: string): string {
    if s == "" then ""
    else (if s[0] == '~' then "~0" else [s[0]]) + TildesEscaped(s[1..])
  }

  lemma ReplaceHit(rest: string, a: char, b: char, c: char)
    ensures ReplacePair([a, b] + rest, a, b, c) == [c] + ReplacePair(rest, a, b, c)
  {
    assert ([a, b] + rest)[2..] == rest;
  }

  lemma ReplaceMiss(x: char, rest: string, a: char, b: char, c: char)
    requires x != a || rest == "" || rest[0] != b
    ensures ReplacePair([x] + rest, a, b, c) == [x] + ReplacePair(rest, a, b, c)
  {
    assert ([x] + rest)[1..] == rest;
  }

  lemma {:induction false} FirstPass(s: string)
    ensures ReplacePair(Escape(s), '~', '1', '/') == TildesEscaped(s)
  {
    if s != "" {
      FirstPass(s[1..]);
      var rest := Escape(s[1..]);
      hide ReplacePair;
      if s[0] == '~' {
        assert "~0" + rest == ['~'] + (['0'] + rest);
        ReplaceMiss('~', ['0'] + rest, '~', '1', '/');
        ReplaceMiss('0', rest, '~', '1', '/');
      } else if s[0] == '/' {
        ReplaceHit(rest, '~', '1', '/');
      } else {
        ReplaceMiss(s[0], rest, '~', '1', '/');
      }
    } else {
      assert ReplacePair("", '~', '1', '/') == "";
    }
  }

  lemma {:induction false} SecondPass(s: string)
    ensures ReplacePair(TildesEscaped(s), '~', '0', '~') == s
  {
    if s == "" {
    } else {
      SecondPass(s[1..]);
      var rest := TildesEscaped(s[1..]);
      if s[0] == '~' {
        ReplaceHit(rest, '~', '0', '~');
      } else {
        ReplaceMiss(s[0], rest, '~', '0', '~');
      }
    }
  }

  lemma UnescapeEscape(s: string)
    ensures Unescape(Escape(s)) == s
  {
    FirstPass(s);
    SecondPass(s);
  }

  lemma {:induction false} EscapeHasNoSlash(s: string)
    ensures '/' !in Escape(s)
  {
    if s == "" {
    } else {
      EscapeHasNoSlash(s[1..]);
    }
  }

  lemma {:induction false} SplitPiece(a: string, rest: string)
    requires '/' !in a
    ensures Split(a, '/') == [a]
    ensures Split(a + "/" + rest, '/') == [a] + Split(rest, '/')
  {
    var s := a + "/" + rest;
    if a == "" {
      assert s[1..] == rest;
    } else {
      SplitPiece(a[1..], rest);
      assert s[1..] == a[1..] + "/" + rest;
      assert a == [a[0]] + a[1..];
    }
  }

  lemma UnescapeCons(a: string, parts: seq<string>)
    ensures UnescapeAll([a] + parts) == [Unescape(a)] + UnescapeAll(parts)
  {
    assert ([a] + parts)[1..] == parts;
  }

  /** Printing any non-empty list of segments and parsing it gives the list back. */
  lemma {:induction false} ParsePrint(segments: seq<string>)
    requires segments != []
    ensures ParsePointer(Print(segments)) == segments
  {
    hide Escape, Unescape, Split;
    var a, rest := Escape(segments[0]), segments[1..];
    EscapeHasNoSlash(segments[0]);
    UnescapeEscape(segments[0]);
    assert Print(segments) == "/" + (a + Print(rest));
    assert Print(segments)[1..] == a + Print(rest);
    if rest == [] {
      SplitPiece(a, "");
      assert a + Print(rest) == a;
      assert UnescapeAll([a]) == [Unescape(a)] + UnescapeAll([]);
      assert [segments[0]] == segments;
    } else {
      ParsePrint(rest);
      var tail := Print(rest)[1..];
      assert Print(rest) == "/" + tail;
      assert a + Print(rest) == a + "/" + tail;
      SplitPiece(a, tail);
      UnescapeCons(a, Split(tail, '/'));
      assert segments == [segments[0]] + rest;
    }
  }

  /** Every tilde begins "~0" or "~1", as the grammar of section 3 requires. */
  predicate WellEscaped(s: string) {
    if s == "" then true
    else if s[0] == '~' then |s| >= 2 && (s[1] == '0' || s[1] == '1') && WellEscaped(s[2..])
    else WellEscaped(s[1..])
  }

  lemma {:induction false} WellEscapedIsEscaped(s: string) returns (u: string)
    requires WellEscaped(s) && '/' !in s
    ensures Escape(u) == s
  {
    if s == "" {
      u := "";
    } else if s[0] == '~' {
      var v := WellEscapedIsEscaped(s[2..]);
      u := [if s[1] == '0' then '~' else '/'] + v;
      assert u[1..] == v && s == [s[0], s[1]] + s[2..];
    } else {
      var v := WellEscapedIsEscaped(s[1..]);
      u := [s[0]] + v;
      assert u[1..] == v && s == [s[0]] + s[1..];
    }
  }

  lemma {:induction false} FirstSlash(s: string) returns (a: string, rest: string)
    requires '/' in s && WellEscaped(s)
    ensures '/' !in a && s == a + "/" + rest && WellEscaped(a) && WellEscaped(rest)
  {
    if s[0] == '/' {
      a, rest := "", s[1..];
    } else {
      var n := if s[0] == '~' then 2 else 1;
      var b, r := FirstSlash(s[n..]);
      a, rest := s[..n] + b, r;
      assert a[n..] == b && s == s[..n] + s[n..];
    }
  }

  lemma {:induction false} PrintParsed(s: string)
    requires WellEscaped(s)
    ensures Print(UnescapeAll(Split(s, '/'))) == "/" + s
    decreases |s|
  {
    hide Escape, Unescape, Split;
    if '/' in s {
      var a, rest := FirstSlash(s);
      SplitPiece(a, rest);
      var u := WellEscapedIsEscaped(a);
      UnescapeEscape(u);
      PrintParsed(rest);
      UnescapeCons(a, Split(rest, '/'));
      PrintCons(u, UnescapeAll(Split(rest, '/')));
      assert "/" + a + ("/" + rest) == "/" + s;
    } else {
      SplitPiece(s, "");
      var u := WellEscapedIsEscaped(s);
      UnescapeEscape(u);
      UnescapeCons(s, []);
      PrintCons(u, []);
      assert [s] + [] == [s] && [u] + [] == [u] && "/" + s + "" == "/" + s;
    }
  }

  lemma PrintCons(u: string, segments: seq<string>)
    ensures Print([u] + segments) == "/" + Escape(u) + Print(segments)
  {
    assert ([u] + segments)[1..] == segments;
  }

  /** Parsing a well-formed pointer and printing the segments gives the pointer back. */
  lemma PrintParse(path: string)
    requires path != "" && path[0] == '/' && WellEscaped(path)
    ensures Print(ParsePointer(path)) == path
  {
    PrintParsed(path[1..]);
    assert path == "/" + path[1..];
  }

  /** The passes in the other order would not do: "~01" must become "~1", not "/". */
  lemma OrderOfPassesMatters()
    ensures Unescape("~01") == "~1"
    ensures ReplacePair(ReplacePair("~01", '~', '0', '~'), '~', '1', '/') == "/"
  {
    assert Escape("~1") == "~01" by { assert Escape("1") == "1" + Escape(""); }
    UnescapeEscape("~1");
    assert ReplacePair("1", '~', '0', '~') == "1";
    assert ReplacePair("~01", '~', '0', '~') == "~1";
    assert ReplacePair("~1", '~', '1', '/') == "/";
  }

  // ---- Array indices -----------------------------------------------------------------------

  predicate IsDigit(c: char) {
    '0' <= c <= '9'
  }

  /** `is_numeric_index`. */
  predicate IsNumericIndex(s: string) {
    s != "" && forall i :: 0 <= i < |s| ==> IsDigit(s[i])
  }

  function DigitValue(c: char): nat
    requires IsDigit(c)
  {
    c as nat - '0' as nat
  }

  function Value(s: string): nat
    requires forall i :: 0 <= i < |s| ==> IsDigit(s[i])
  {
    if s == "" then 0 else 10 * Value(s[..|s| - 1]) + DigitValue(s[|s| - 1])
  }

  /** `str::parse::<usize>`: an optional plus sign and digits, within 64 bits. */
  function ParseIndex(s: string): Option<nat> {
    var digits := if s != "" && s[0] == '+' then s[1..] else s;
    if IsNumericIndex(digits) && Value(digits) <= USIZE_MAX then Some(Value(digits)) else None
  }

  /** The segment is no index, or the index as it is usually written. */
  predicate Canonical(s: string) {
    ParseIndex(s).Some? ==> s[0] != '+' && (|s| > 1 ==> s[0] != '0')
  }

  function Decimal(n: nat): string {
    var last := ['0' + (n % 10) as char];
    if n < 10 then last else Decimal(n / 10) + last
  }

  lemma {:induction false} ValuePositive(s: string)
    requires IsNumericIndex(s) && s[0] != '0'
    ensures Value(s) > 0
  {
    if |s| > 1 {
      assert s[..|s| - 1][0] == s[0];
      ValuePositive(s[..|s| - 1]);
    }
  }

  lemma {:induction false} DecimalOfValue(s: string)
    requires IsNumericIndex(s) && (|s| > 1 ==> s[0] != '0')
    ensures Decimal(Value(s)) == s
  {
    var init, last := s[..|s| - 1], s[|s| - 1];
    assert s == init + [last];
    var d := DigitValue(last);
    assert last == '0' + d as char;
    if init == "" {
      assert Value(s) == d;
    } else {
      assert init[0] == s[0];
      ValuePositive(init);
      DecimalOfValue(init);
      assert Value(s) % 10 == d && Value(s) / 10 == Value(init);
    }
  }

  lemma {:induction false} ValueOfDecimal(n: nat)
    ensures IsNumericIndex(Decimal(n)) && Value(Decimal(n)) == n
  {
    var last := ['0' + (n % 10) as char];
    if n < 10 {
      assert last[..0] == "" && Value("") == 0;
    } else {
      ValueOfDecimal(n / 10);
      var init := Decimal(n / 10);
      assert (init + last)[..|init + last| - 1] == init;
      assert DigitValue(last[0]) == n % 10;
    }
  }

  /** Every number that fits 64 bits is read back from its decimal form, with a plus sign or
      without; a larger one is no index. */
  lemma ParseDecimal(n: nat)
    ensures ParseIndex(Decimal(n)) == if n <= 0xFFFF_FFFF_FFFF_FFFF then Some(n) else None
    ensures ParseIndex("+" + Decimal(n)) == if n <= 0xFFFF_FFFF_FFFF_FFFF then Some(n) else None
  {
    ValueOfDecimal(n);
    assert IsDigit(Decimal(n)[0]);
    assert ("+" + Decimal(n))[1..] == Decimal(n);
  }

  /** Two segments name one element of an array. */
  predicate SameIndex(a: string, b: string) {
    ParseIndex(a).Some? && ParseIndex(a) == ParseIndex(b)
  }

  /** Written canonically, each index has one spelling. */
  lemma CanonicalUnique(a: string, b: string)
    requires Canonical(a) && Canonical(b) && SameIndex(a, b)
    ensures a == b
  {
    DecimalOfValue(a);
    DecimalOfValue(b);
  }
}
