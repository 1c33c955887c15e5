/** The JavaScript string operations the repository relies on: `trim`,
    `toLowerCase` (as far as a comparison with "asc" can observe it) and
    `Array.prototype.join`, plus a character count used to count placeholders. */
module JsString {

  /** The characters `String.prototype.trim` removes: ECMAScript WhiteSpace
      (TAB, VT, FF, ZWNBSP and every space separator) and LineTerminator. */
  predicate IsWhitespace(c: char) {
    || c == '\t' || c == '\n' || c == '\U{000B}' || c == '\U{000C}' || c == '\r'
    || c == ' ' || c == '\U{00A0}' || c == '\U{1680}'
    || ('\U{2000}' <= c <= '\U{200A}')
    || c == '\U{2028}' || c == '\U{2029}' || c == '\U{202F}' || c == '\U{205F}'
    || c == '\U{3000}' || c == '\U{FEFF}'
  }

  /** Drops the leading characters `strip` accepts. */
  function TrimStart(s: string, strip: char -> bool): (r: string)
    ensures |r| <= |s| && r == s[|s| - |r|..]
    ensures forall i :: 0 <= i < |s| - |r| ==> strip(s[i])
    ensures r == [] || !strip(r[0])
  {
    if s != [] && strip(s[0]) then TrimStart(s[1..], strip) else s
  }

  /** Drops the trailing characters `strip` accepts. */
  function TrimEnd(s: string, strip: char -> bool): (r: string)
    ensures |r| <= |s| && r == s[..|r|]
    ensures forall i :: |r| <= i < |s| ==> strip(s[i])
    ensures r == [] || !strip(r[|r| - 1])
  {
    if s != [] && strip(s[|s| - 1]) then TrimEnd(s[..|s| - 1], strip) else s
  }

  /** Drops leading and trailing characters `strip` accepts. */
  function TrimWith(s: string, strip: char -> bool): string {
    TrimEnd(TrimStart(s, strip), strip)
  }

  /** `s.trim()`: never longer than `s`, and neither starting nor ending with
      whitespace. */
  function Trim(s: string): (r: string)
    ensures |r| <= |s|
    ensures r == [] || (!IsWhitespace(r[0]) && !IsWhitespace(r[|r| - 1]))
  {
    TrimWithEnds(s, IsWhitespace);
    TrimWith(s, IsWhitespace)
  }

  /** Trimming leaves no accepted character at either end, and leaves nothing
      exactly when `strip` accepts every character of `s`. */
  lemma TrimWithEnds(s: string, strip: char -> bool)
    ensures var r := TrimWith(s, strip);
      && (r == [] || (!strip(r[0]) && !strip(r[|r| - 1])))
      && (r == [] <==> forall k :: 0 <= k < |s| ==> strip(s[k]))
  {
    var t := TrimStart(s, strip);
    var r := TrimEnd(t, strip);
    if r != [] {
      assert r[0] == t[0];
    } else {
      // a start-trimmed string that end-trimming empties must already be empty
      assert t == [];
    }
  }

  /** `c.toLowerCase()` on the ASCII letters; every other character is kept. */
  function LowerAscii(c: char): char {
    if 'A' <= c <= 'Z' then (c as int + 32) as char else c
  }

  /** `s.toLowerCase()`, as far as the comparison `s.toLowerCase() === "asc"` can
      observe it: the only characters whose lower-case form is `a`, `s` or `c` are
      those letters and their ASCII capitals. */
  function ToLowerCase(s: string): (r: string)
    ensures |r| == |s|
    ensures forall i :: 0 <= i < |s| ==> r[i] == LowerAscii(s[i])
    ensures forall i :: 0 <= i < |r| ==> !('A' <= r[i] <= 'Z')
  {
    if s == [] then [] else [LowerAscii(s[0])] + ToLowerCase(s[1..])
  }

  /** The sort token counts as ascending for exactly the eight spellings of
      "asc" that differ only in letter case. */
  lemma {:induction false} LowerIsAscIff(s: string)
    ensures ToLowerCase(s) == "asc" <==>
      |s| == 3 && (s[0] == 'a' || s[0] == 'A') && (s[1] == 's' || s[1] == 'S')
      && (s[2] == 'c' || s[2] == 'C')
  {
    if |s| == 3 {
      var s1 := s[1..];
      var s2 := s1[1..];
      assert s2[1..] == [];
      assert ToLowerCase(s2) == [LowerAscii(s[2])];
      assert ToLowerCase(s1) == [LowerAscii(s[1]), LowerAscii(s[2])];
      assert ToLowerCase(s) == [LowerAscii(s[0]), LowerAscii(s[1]), LowerAscii(s[2])];
    }
  }

  /** `parts.join(sep)`. */
  function Join(parts: seq<string>, sep: string): string {
    if |parts| == 0 then ""
    else if |parts| == 1 then parts[0]
    else parts[0] + sep + Join(parts[1..], sep)
  }

  /** How many times `c` occurs in `s`. */
  function Occurrences(s: string, c: char): nat {
    if s == [] then 0 else (if s[0] == c then 1 else 0) + Occurrences(s[1..], c)
  }

  lemma {:induction false} OccurrencesConcat(a: string, b: string, c: char)
    ensures Occurrences(a + b, c) == Occurrences(a, c) + Occurrences(b, c)
  {
    if a == [] {
      assert a + b == b;
    } else {
      assert (a + b)[1..] == a[1..] + b;
      OccurrencesConcat(a[1..], b, c);
    }
  }

  lemma {:induction false} OccurrencesAbsent(s: string, c: char)
    requires c !in s
    ensures Occurrences(s, c) == 0
  {
    if s != [] {
      OccurrencesAbsent(s[1..], c);
    }
  }

  /** Total occurrences of `c` in the parts. */
  function OccurrencesIn(parts: seq<string>, c: char): nat {
    if parts == [] then 0 else Occurrences(parts[0], c) + OccurrencesIn(parts[1..], c)
  }

  /** Joining with a separator that does not contain `c` adds no occurrence of `c`. */
  lemma {:induction false} OccurrencesJoin(parts: seq<string>, sep: string, c: char)
    requires Occurrences(sep, c) == 0
    ensures Occurrences(Join(parts, sep), c) == OccurrencesIn(parts, c)
  {
    if |parts| == 1 {
      assert parts[1..] == [];
    } else if |parts| > 1 {
      OccurrencesJoin(parts[1..], sep, c);
      OccurrencesConcat(parts[0] + sep, Join(parts[1..], sep), c);
      OccurrencesConcat(parts[0], sep, c);
    }
  }
}
