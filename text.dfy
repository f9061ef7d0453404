/** The Python string operations the tools use, with Python's semantics written out:
    `in` on strings, `strip`/`lstrip`/`rstrip`, `split`/`join`, `lower`, `int()`,
    `str()` of an integer, negative list indexing and prefix slicing. */
module Text {
  import opened Wrappers

  /** `c.isspace()`; also the characters that `\s` matches in a `str` pattern. */
  predicate IsSpace(c: char) {
    c == ' ' || '\t' <= c <= '\r' || '\U{1c}' <= c <= '\U{1f}'
    || c == '\U{85}' || c == '\U{a0}' || c == '\U{1680}' || '\U{2000}' <= c <= '\U{200a}'
    || c == '\U{2028}' || c == '\U{2029}' || c == '\U{202f}' || c == '\U{205f}' || c == '\U{3000}'
  }

  /** `\d`, restricted to ASCII digits. */
  predicate IsDigit(c: char) { '0' <= c <= '9' }

  /** `\w`, restricted to ASCII letters, digits and the underscore. */
  predicate IsWordChar(c: char) {
    'a' <= c <= 'z' || 'A' <= c <= 'Z' || IsDigit(c) || c == '_'
  }

  // ---------------------------------------------------------------------------
  // Substrings

  /** `sub` occurs in `s` starting at index `i`. */
  predicate OccursAt(s: string, sub: string, i: int) {
    0 <= i && i + |sub| <= |s| && s[i..i + |sub|] == sub
  }

  /** Python's `sub in s`. */
  predicate Contains(s: string, sub: string)
    decreases |s|
  {
    sub <= s || (|s| > 0 && Contains(s[1..], sub))
  }

  /** An occurrence in the tail is an occurrence one position further in the string. */
  lemma OccursInTail(s: string, sub: string, i: int)
    requires |s| > 0 && 0 <= i
    ensures OccursAt(s[1..], sub, i) <==> OccursAt(s, sub, i + 1)
  {
    if 0 <= i && i + |sub| <= |s| - 1 {
      assert s[1..][i..i + |sub|] == s[i + 1..i + 1 + |sub|];
    }
  }

  lemma {:induction false} ContainsIff(s: string, sub: string)
    ensures Contains(s, sub) <==> exists i :: OccursAt(s, sub, i)
    decreases |s|
  {
    if sub <= s {
      assert OccursAt(s, sub, 0);
    } else if |s| > 0 {
      ContainsIff(s[1..], sub);
      if Contains(s[1..], sub) {
        var i :| OccursAt(s[1..], sub, i);
        OccursInTail(s, sub, i);
      }
      if exists i :: OccursAt(s, sub, i) {
        var i :| OccursAt(s, sub, i);
        assert i != 0;
        OccursInTail(s, sub, i - 1);
      }
    }
  }

  lemma ContainsAt(s: string, sub: string, i: int)
    requires OccursAt(s, sub, i)
    ensures Contains(s, sub)
  {
    ContainsIff(s, sub);
  }

  lemma ContainsConcat(a: string, b: string, sub: string)
    ensures Contains(a, sub) ==> Contains(a + b, sub)
    ensures Contains(b, sub) ==> Contains(a + b, sub)
  {
    ContainsIff(a, sub);
    ContainsIff(b, sub);
    if Contains(a, sub) {
      var i :| OccursAt(a, sub, i);
      assert (a + b)[i..i + |sub|] == a[i..i + |sub|];
      ContainsAt(a + b, sub, i);
    }
    if Contains(b, sub) {
      var i :| OccursAt(b, sub, i);
      assert (a + b)[|a| + i..|a| + i + |sub|] == b[i..i + |sub|];
      ContainsAt(a + b, sub, |a| + i);
    }
  }

  lemma ContainsSelf(s: string)
    ensures Contains(s, s)
  {
  }

  // ---------------------------------------------------------------------------
  // strip, lstrip, rstrip

  /** `s.lstrip()`. The facts about it are the lemma `LStripSpaceSpec`, so that they are
      only in scope where a proof asks for them. */
  function LStripSpace(s: string): string
    decreases |s|
  {
    if |s| > 0 && IsSpace(s[0]) then LStripSpace(s[1..]) else s
  }

  lemma {:induction false} LStripSpaceSpec(s: string)
    ensures |LStripSpace(s)| <= |s| && LStripSpace(s) == s[|s| - |LStripSpace(s)|..]
    ensures forall i :: 0 <= i < |s| - |LStripSpace(s)| ==> IsSpace(s[i])
    ensures LStripSpace(s) == [] || !IsSpace(LStripSpace(s)[0])
    decreases |s|
  {
    if |s| > 0 && IsSpace(s[0]) { LStripSpaceSpec(s[1..]); }
  }

  /** `s.rstrip()`. */
  function RStripSpace(s: string): string
    decreases |s|
  {
    if |s| > 0 && IsSpace(s[|s| - 1]) then RStripSpace(s[..|s| - 1]) else s
  }

  lemma {:induction false} RStripSpaceSpec(s: string)
    ensures |RStripSpace(s)| <= |s| && RStripSpace(s) == s[..|RStripSpace(s)|]
    ensures forall i :: |RStripSpace(s)| <= i < |s| ==> IsSpace(s[i])
    ensures RStripSpace(s) == [] || !IsSpace(RStripSpace(s)[|RStripSpace(s)| - 1])
    decreases |s|
  {
    if |s| > 0 && IsSpace(s[|s| - 1]) { RStripSpaceSpec(s[..|s| - 1]); }
  }

  /** `s.strip()`. */
  function Strip(s: string): string {
    RStripSpace(LStripSpace(s))
  }

  /** Neither end of `s` is whitespace: what `strip()` returns. */
  predicate Anchored(s: string) {
    s == [] || (!IsSpace(s[0]) && !IsSpace(s[|s| - 1]))
  }

  lemma StripIsAnchored(s: string)
    ensures Anchored(Strip(s))
  {
    var l := LStripSpace(s);
    var r := RStripSpace(l);
    LStripSpaceSpec(s);
    RStripSpaceSpec(l);
    if r != [] {
      assert r[0] == l[0];
    }
  }

  lemma StripAnchored(s: string)
    requires Anchored(s)
    ensures Strip(s) == s
  {
  }

  /** `s.lstrip(chars)`: drops the longest prefix made of characters of the SET `chars`. */
  function LStripChars(s: string, chars: set<char>): string
    decreases |s|
  {
    if |s| > 0 && s[0] in chars then LStripChars(s[1..], chars) else s
  }

  lemma {:induction false} LStripCharsSpec(s: string, chars: set<char>)
    ensures |LStripChars(s, chars)| <= |s| && LStripChars(s, chars) == s[|s| - |LStripChars(s, chars)|..]
    ensures forall i :: 0 <= i < |s| - |LStripChars(s, chars)| ==> s[i] in chars
    ensures LStripChars(s, chars) == [] || LStripChars(s, chars)[0] !in chars
    decreases |s|
  {
    if |s| > 0 && s[0] in chars { LStripCharsSpec(s[1..], chars); }
  }

  /** `s.rstrip(chars)`. */
  function RStripChars(s: string, chars: set<char>): string
    decreases |s|
  {
    if |s| > 0 && s[|s| - 1] in chars then RStripChars(s[..|s| - 1], chars) else s
  }

  lemma {:induction false} RStripCharsSpec(s: string, chars: set<char>)
    ensures |RStripChars(s, chars)| <= |s| && RStripChars(s, chars) == s[..|RStripChars(s, chars)|]
    ensures forall i :: |RStripChars(s, chars)| <= i < |s| ==> s[i] in chars
    ensures RStripChars(s, chars) == [] || RStripChars(s, chars)[|RStripChars(s, chars)| - 1] !in chars
    decreases |s|
  {
    if |s| > 0 && s[|s| - 1] in chars { RStripCharsSpec(s[..|s| - 1], chars); }
  }

  // ---------------------------------------------------------------------------
  // split and join

  /** `sep.join(parts)`. */
  function Join(parts: seq<string>, sep: string): string
    decreases |parts|
  {
    if |parts| == 0 then ""
    else if |parts| == 1 then parts[0]
    else parts[0] + sep + Join(parts[1..], sep)
  }

  /** A join starts with its first part. */
  lemma JoinStartsWithFirst(parts: seq<string>, sep: string)
    requires |parts| >= 1
    ensures parts[0] <= Join(parts, sep)
  {
  }

  /** `"\n".join(lines)`. */
  function JoinLines(lines: seq<string>): string {
    Join(lines, "\n")
  }

  /** `s.split(sep)` for a one-character separator: always one more part than separators. */
  function Split(s: string, sep: char): (parts: seq<string>)
    ensures |parts| >= 1
    ensures forall i :: 0 <= i < |parts| ==> sep !in parts[i]
    ensures Join(parts, [sep]) == s
    decreases |s|
  {
    if |s| == 0 then [""]
    else
      var rest := Split(s[1..], sep);
      if s[0] == sep then
        [""] + rest
      else
        JoinFirst(s[0], rest, [sep]);
        [[s[0]] + rest[0]] + rest[1..]
  }

  lemma JoinFirst(c: char, parts: seq<string>, sep: string)
    requires |parts| >= 1
    ensures Join([[c] + parts[0]] + parts[1..], sep) == [c] + Join(parts, sep)
  {
    var q := [[c] + parts[0]] + parts[1..];
    if |parts| > 1 {
      assert q[1..] == parts[1..];
    }
  }

  /** Splitting a join of separator-free parts gives the parts back. */
  lemma {:induction false} SplitJoin(parts: seq<string>, sep: char)
    requires |parts| >= 1
    requires forall i :: 0 <= i < |parts| ==> sep !in parts[i]
    ensures Split(Join(parts, [sep]), sep) == parts
    decreases |parts|, |parts[0]|
  {
    var s := Join(parts, [sep]);
    if |parts[0]| == 0 {
      if |parts| == 1 {
      } else {
        assert s == [sep] + Join(parts[1..], [sep]);
        SplitJoin(parts[1..], sep);
        assert s[1..] == Join(parts[1..], [sep]);
        assert parts == [""] + parts[1..];
      }
    } else {
      var tail := [parts[0][1..]] + parts[1..];
      assert tail[1..] == parts[1..];
      assert forall i :: 0 <= i < |tail| ==> sep !in tail[i] by {
        forall i | 0 <= i < |tail| ensures sep !in tail[i] {
          if i == 0 {
            assert parts[0] == [parts[0][0]] + parts[0][1..];
          } else {
            assert tail[i] == parts[i];
          }
        }
      }
      JoinFirst(parts[0][0], tail, [sep]);
      assert [parts[0][0]] + tail[0] == parts[0];
      assert [[parts[0][0]] + tail[0]] + tail[1..] == parts;
      assert s == [parts[0][0]] + Join(tail, [sep]);
      SplitJoin(tail, sep);
      assert s[1..] == Join(tail, [sep]);
      assert s[0] != sep;
    }
  }

  /** Each part of a join occurs in any text that ends with the join. */
  lemma JoinedPartsShown(head: string, parts: seq<string>, sep: string)
    ensures forall i :: 0 <= i < |parts| ==> Contains(head + Join(parts, sep), parts[i])
  {
    forall i | 0 <= i < |parts| ensures Contains(head + Join(parts, sep), parts[i]) {
      JoinContainsPart(parts, sep, i);
      ContainsConcat(head, Join(parts, sep), parts[i]);
    }
  }

  lemma JoinCons(p: string, rest: seq<string>, sep: string)
    requires |rest| >= 1
    ensures Join([p] + rest, sep) == p + sep + Join(rest, sep)
  {
    assert ([p] + rest)[1..] == rest;
  }

  /** A join ends with its last part. */
  lemma {:induction false} JoinEndsWithLast(parts: seq<string>, sep: string)
    requires |parts| >= 1
    ensures |parts[|parts| - 1]| <= |Join(parts, sep)|
    ensures Join(parts, sep)[|Join(parts, sep)| - |parts[|parts| - 1]|..] == parts[|parts| - 1]
    decreases |parts|
  {
    if |parts| > 1 {
      JoinEndsWithLast(parts[1..], sep);
      var j := Join(parts[1..], sep);
      var last := parts[|parts| - 1];
      assert parts[1..][|parts[1..]| - 1] == last;
      var h := parts[0] + sep;
      assert Join(parts, sep) == h + j;
      assert (h + j)[|h + j| - |last|..] == j[|j| - |last|..];
    }
  }

  lemma {:induction false} JoinContainsPart(parts: seq<string>, sep: string, i: int)
    requires 0 <= i < |parts|
    ensures Contains(Join(parts, sep), parts[i])
    decreases |parts|
  {
    if |parts| == 1 {
      ContainsSelf(parts[0]);
    } else if i == 0 {
      ContainsSelf(parts[0]);
      ContainsConcat(parts[0], sep + Join(parts[1..], sep), parts[0]);
      assert parts[0] + sep + Join(parts[1..], sep) == parts[0] + (sep + Join(parts[1..], sep));
    } else {
      JoinContainsPart(parts[1..], sep, i - 1);
      ContainsConcat(parts[0] + sep, Join(parts[1..], sep), parts[i]);
    }
  }

  // ---------------------------------------------------------------------------
  // De-duplication in order of first occurrence

  /** The distinct elements of `names` in order of first occurrence: what a loop that
      appends each name not listed yet builds, and the key order of a dict built from
      `names`. */
  function Dedup(names: seq<string>): (d: seq<string>)
    ensures |d| <= |names|
    ensures forall x :: x in d ==> x in names
    decreases |names|
  {
    if names == [] then []
    else
      var d := Dedup(names[..|names| - 1]);
      if names[|names| - 1] in d then d else d + [names[|names| - 1]]
  }

  /** `a` occurs in `s` before any occurrence of `b`. */
  predicate SeenBefore(s: seq<string>, a: string, b: string) {
    exists p :: 0 <= p < |s| && s[p] == a && b !in s[..p + 1]
  }

  /** Each name is kept once, every name is kept, and the names keep the order of their
      first occurrences. */
  lemma {:induction false} DedupSpec(names: seq<string>)
    ensures forall x :: x in Dedup(names) <==> x in names
    ensures forall i, j :: 0 <= i < j < |Dedup(names)| ==> Dedup(names)[i] != Dedup(names)[j]
    ensures forall i, j :: 0 <= i < j < |Dedup(names)| ==> SeenBefore(names, Dedup(names)[i], Dedup(names)[j])
    decreases |names|
  {
    if names != [] {
      var init := names[..|names| - 1];
      var x := names[|names| - 1];
      DedupSpec(init);
      var d := Dedup(init);
      assert names == init + [x];
      assert forall y :: y in names <==> y in init || y == x;
      forall a, b | SeenBefore(init, a, b) ensures SeenBefore(names, a, b) {
        var p :| 0 <= p < |init| && init[p] == a && b !in init[..p + 1];
        assert names[..p + 1] == init[..p + 1];
      }
      if x !in d {
        var e := d + [x];
        forall i, j | 0 <= i < j < |e| ensures SeenBefore(names, e[i], e[j]) {
          if j < |d| {
            assert SeenBefore(init, d[i], d[j]);
          } else {
            var a := e[i];
            assert a in init;
            var p :| 0 <= p < |init| && init[p] == a;
            assert names[..p + 1] == init[..p + 1];
            assert x !in init;
          }
        }
      }
    }
  }

  // ---------------------------------------------------------------------------
  // lower

  function LowerChar(c: char): char {
    if 'A' <= c <= 'Z' then (c as int + 32) as char else c
  }

  /** `s.lower()`, restricted to ASCII letters. */
  function Lower(s: string): (r: string)
    ensures |r| == |s|
  {
    seq(|s|, i requires 0 <= i < |s| => LowerChar(s[i]))
  }

  lemma LowerConcat(a: string, b: string)
    ensures Lower(a + b) == Lower(a) + Lower(b)
  {
  }

  // ---------------------------------------------------------------------------
  // str(int) and int(str)

  function DigitChar(d: nat): char
    requires d < 10
  {
    ('0' as int + d) as char
  }

  /** `str(n)` for a natural number. */
  function NatToString(n: nat): (r: string)
    ensures |r| > 0 && forall i :: 0 <= i < |r| ==> IsDigit(r[i])
    decreases n
  {
    if n < 10 then [DigitChar(n)] else NatToString(n / 10) + [DigitChar(n % 10)]
  }

  /** `str(i)`. */
  function IntToString(i: int): string {
    if i < 0 then "-" + NatToString(-i) else NatToString(i)
  }

  /** The value of a string of ASCII digits. */
  function DigitsValue(s: string): nat
    requires forall i :: 0 <= i < |s| ==> IsDigit(s[i])
    decreases |s|
  {
    if s == [] then 0
    else
      assert IsDigit(s[|s| - 1]);
      DigitsValue(s[..|s| - 1]) * 10 + (s[|s| - 1] as int - '0' as int)
  }

  lemma {:induction false} NatToStringValue(n: nat)
    ensures DigitsValue(NatToString(n)) == n
    decreases n
  {
    if n >= 10 {
      NatToStringValue(n / 10);
      var s := NatToString(n);
      assert s[..|s| - 1] == NatToString(n / 10);
    }
  }

  /** Digits in groups separated by single underscores, as `int()` accepts them. */
  predicate IsDigitGroups(s: string) {
    |s| > 0 && IsDigit(s[0]) && IsDigit(s[|s| - 1])
    && forall i :: 0 <= i < |s| ==> IsDigit(s[i]) || (s[i] == '_' && i + 1 < |s| && IsDigit(s[i + 1]))
  }

  /** `s` with its underscores removed. */
  function DropUnderscores(s: string): (r: string)
    ensures (forall i :: 0 <= i < |s| ==> IsDigit(s[i]) || s[i] == '_') ==>
              forall i :: 0 <= i < |r| ==> IsDigit(r[i])
    ensures (forall i :: 0 <= i < |s| ==> s[i] != '_') ==> r == s
    decreases |s|
  {
    if s == [] then [] else (if s[0] == '_' then [] else [s[0]]) + DropUnderscores(s[1..])
  }

  /** A non-empty string of ASCII digits is its own stripped form, one group of digits,
      and without a sign. */
  lemma DigitStringParts(s: string)
    ensures (|s| > 0 && forall i :: 0 <= i < |s| ==> IsDigit(s[i])) ==>
              Strip(s) == s && IsDigitGroups(s) && DropUnderscores(s) == s && s[0] != '+' && s[0] != '-'
  {
    if |s| > 0 && forall i :: 0 <= i < |s| ==> IsDigit(s[i]) {
      assert Anchored(s);
      StripAnchored(s);
    }
  }

  /** `int(s)` in base 10: `None` stands for the `ValueError` it raises. A string of ASCII
      digits reads as its decimal value, and a blank one is refused. */
  function PyInt(s: string): (r: Option<int>)
    ensures (|s| > 0 && forall i :: 0 <= i < |s| ==> IsDigit(s[i])) ==> r == Some(DigitsValue(s))
    ensures Strip(s) == "" ==> r.None?
  {
    DigitStringParts(s);
    var t := Strip(s);
    if |t| > 0 && (t[0] == '+' || t[0] == '-') then
      if IsDigitGroups(t[1..]) then
        var v: int := GroupsValue(t[1..]);
        Some(if t[0] == '-' then -v else v)
      else None
    else if IsDigitGroups(t) then Some(GroupsValue(t))
    else None
  }

  function GroupsValue(s: string): nat
    requires IsDigitGroups(s)
  {
    DigitGroupsChars(s);
    DigitsValue(DropUnderscores(s))
  }

  /** Digit groups hold only digits and underscores. */
  lemma DigitGroupsChars(s: string)
    requires IsDigitGroups(s)
    ensures forall i :: 0 <= i < |s| ==> IsDigit(s[i]) || s[i] == '_'
  {
    forall i | 0 <= i < |s| ensures IsDigit(s[i]) || s[i] == '_' {
      assert IsDigit(s[i]) || (s[i] == '_' && i + 1 < |s| && IsDigit(s[i + 1]));
    }
  }

  lemma PyIntOfNatToString(n: nat)
    ensures PyInt(NatToString(n)) == Some(n)
  {
    NatToStringValue(n);
  }

  // ---------------------------------------------------------------------------
  // repr(str)

  /** The quote `repr` puts around a string: a double quote when the string holds a single
      quote and no double quote, a single quote otherwise. */
  function ReprQuote(s: string): char {
    if '\'' in s && '"' !in s then '"' else '\''
  }

  const HexDigits := "0123456789abcdef"

  /** `\xhh` with two lower-case hex digits, for a character below 256. */
  function HexEscape(c: char): string
    requires c as int < 256
  {
    "\\x" + [HexDigits[c as int / 16], HexDigits[c as int % 16]]
  }

  /** A character `repr` writes as `\xhh`: the ASCII and Latin-1 control characters other
      than tab, newline and carriage return, the no-break space and the soft hyphen. */
  predicate HexEscaped(c: char) {
    (c < ' ' && c != '\t' && c != '\n' && c != '\r') || '\U{7f}' <= c <= '\U{a0}' || c == '\U{ad}'
  }

  /** How `repr` writes one character between quotes `q`. */
  function ReprChar(c: char, q: char): string {
    if c == '\\' then "\\\\"
    else if c == q then ['\\', q]
    else if c == '\t' then "\\t"
    else if c == '\n' then "\\n"
    else if c == '\r' then "\\r"
    else if HexEscaped(c) then HexEscape(c)
    else [c]
  }

  /** The characters of `s` as `repr` writes them between quotes `q`. */
  function ReprBody(s: string, q: char): string
    decreases |s|
  {
    if s == [] then [] else ReprChar(s[0], q) + ReprBody(s[1..], q)
  }

  /** `repr(s)`. */
  function Repr(s: string): (r: string)
    ensures |r| >= 2 && r[0] == ReprQuote(s) && r[|r| - 1] == ReprQuote(s)
  {
    [ReprQuote(s)] + ReprBody(s, ReprQuote(s)) + [ReprQuote(s)]
  }

  /** A character `repr` writes as itself between quotes `q`. */
  predicate Verbatim(c: char, q: char) {
    c != '\\' && c != q && c != '\t' && c != '\n' && c != '\r' && !HexEscaped(c)
  }

  lemma {:induction false} ReprBodyVerbatim(s: string, q: char)
    requires forall i :: 0 <= i < |s| ==> Verbatim(s[i], q)
    ensures ReprBody(s, q) == s
    decreases |s|
  {
    if s != [] {
      ReprBodyVerbatim(s[1..], q);
      assert s == [s[0]] + s[1..];
    }
  }

  /** A string without backslashes or control characters is quoted as it is: in single
      quotes, or in double quotes when it holds a single quote and no double quote. */
  lemma ReprOfPlain(s: string)
    requires forall i :: 0 <= i < |s| ==> s[i] != '\\' && s[i] >= ' ' && !HexEscaped(s[i])
    ensures '\'' !in s ==> Repr(s) == "'" + s + "'"
    ensures '\'' in s && '"' !in s ==> Repr(s) == "\"" + s + "\""
  {
    var q := ReprQuote(s);
    assert forall i :: 0 <= i < |s| ==> s[i] != q ==> Verbatim(s[i], q);
    if '\'' !in s || '"' !in s {
      assert forall i :: 0 <= i < |s| ==> s[i] != q;
      ReprBodyVerbatim(s, q);
    }
  }

  /** A string holding both quotes keeps single quotes and escapes the single one; a
      backslash is doubled. */
  lemma ReprEscapes(a: string, b: string)
    ensures ReprChar('\'', '\'') == "\\'" && ReprChar('"', '\'') == "\""
    ensures ReprChar('\\', '\'') == "\\\\" && ReprChar('\\', '"') == "\\\\"
    ensures ReprQuote(a + "'" + b + "\"") == '\''
  {
    var s := a + "'" + b + "\"";
    assert s[|a|] == '\'' && s[|s| - 1] == '"';
  }

  // ---------------------------------------------------------------------------
  // Lists

  /** Python's `s.rfind(c)`: the last position of `c`, or -1; its facts are `RFindSpec`. */
  function RFind(s: string, c: char): (r: int)
    ensures -1 <= r < |s|
  {
    LastBefore(s, c, |s|)
  }

  /** The last position of `c` below `n`, or -1. */
  function LastBefore(s: string, c: char, n: nat): (r: int)
    requires n <= |s|
    ensures -1 <= r < n
  {
    if n == 0 then -1
    else if s[n - 1] == c then n - 1
    else LastBefore(s, c, n - 1)
  }

  lemma {:induction false} LastBeforeSpec(s: string, c: char, n: nat)
    requires n <= |s|
    ensures LastBefore(s, c, n) >= 0 ==> s[LastBefore(s, c, n)] == c
    ensures forall j :: LastBefore(s, c, n) < j < n ==> s[j] != c
    decreases n
  {
    if n > 0 && s[n - 1] != c {
      LastBeforeSpec(s, c, n - 1);
    }
  }

  /** `rfind` finds `c`, and no `c` comes after it. */
  lemma RFindSpec(s: string, c: char)
    ensures RFind(s, c) >= 0 ==> s[RFind(s, c)] == c
    ensures forall j :: RFind(s, c) < j < |s| ==> s[j] != c
  {
    LastBeforeSpec(s, c, |s|);
  }

  /** Python's `s.index(x)`: the first position of `x`; `None` is the `ValueError`. */
  function IndexOf<T(==)>(s: seq<T>, x: T): (r: Option<nat>)
    ensures r.None? <==> x !in s
    ensures r.Some? ==> r.value < |s| && s[r.value] == x && forall j :: 0 <= j < r.value ==> s[j] != x
    decreases |s|
  {
    if s == [] then None
    else if s[0] == x then Some(0)
    else match IndexOf(s[1..], x)
      case None => None
      case Some(i) => Some(i + 1)
  }

  lemma IndexOfAt<T>(s: seq<T>, x: T, i: nat)
    requires i < |s| && s[i] == x && forall j :: 0 <= j < i ==> s[j] != x
    ensures IndexOf(s, x) == Some(i)
  {
    assert x in s;
  }

  /** Python's `s[i]`, which counts from the end for a negative `i`; `None` is the `IndexError`. */
  function PyIndex<T>(s: seq<T>, i: int): (r: Option<T>)
    ensures r.Some? <==> -|s| <= i < |s|
    ensures 0 <= i < |s| ==> r == Some(s[i])
    ensures -|s| <= i < 0 ==> r == Some(s[|s| + i])
  {
    if 0 <= i < |s| then Some(s[i])
    else if -|s| <= i < 0 then Some(s[|s| + i])
    else None
  }

  /** Python's `s[:n]`. */
  function PyTake<T>(s: seq<T>, n: int): (r: seq<T>)
    ensures r <= s
    ensures 0 <= n ==> |r| == if n < |s| then n else |s|
    ensures n < 0 ==> |r| == if |s| + n > 0 then |s| + n else 0
  {
    if 0 <= n then s[..if n < |s| then n else |s|]
    else s[..if |s| + n > 0 then |s| + n else 0]
  }

  /** `c * n` for a one-character string. */
  function Repeat(c: char, n: nat): (r: string)
    ensures |r| == n && forall i :: 0 <= i < n ==> r[i] == c
  {
    seq(n, i => c)
  }
}
