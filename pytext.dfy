/** The Python string operations the engine relies on, written out with the
    semantics of CPython's `str` methods: `strip`, `splitlines`, `split` on a
    one-character separator, `lower` on ASCII, containment, `isdigit`/`int`
    on ASCII digit strings and `str` of a natural number. */
module PyText {

  /** `str.isspace`: the characters `str.strip()` removes. */
  predicate IsSpace(c: char) {
    c == ' ' || ('\t' <= c <= '\r') || ('\U{1C}' <= c <= '\U{1F}')
    || c == '\U{85}' || c == '\U{A0}' || c == '\U{1680}'
    || ('\U{2000}' <= c <= '\U{200A}') || c == '\U{2028}' || c == '\U{2029}'
    || c == '\U{202F}' || c == '\U{205F}' || c == '\U{3000}'
  }

  /** A string with no whitespace at either end. */
  predicate IsStripped(s: string) {
    s == [] || (!IsSpace(s[0]) && !IsSpace(s[|s| - 1]))
  }

  /** Number of leading whitespace characters: the first character after
      them is not whitespace (`LeadLenSpaces` shows the ones before are). */
  function LeadLen(s: string): (n: nat)
    ensures n <= |s|
    ensures n < |s| ==> !IsSpace(s[n])
  {
    if |s| > 0 && IsSpace(s[0]) then 1 + LeadLen(s[1..]) else 0
  }

  /** Number of trailing whitespace characters: the last character before
      them is not whitespace (`TrailLenSpaces` shows the ones after are). */
  function TrailLen(s: string): (n: nat)
    ensures n <= |s|
    ensures n < |s| ==> !IsSpace(s[|s| - 1 - n])
  {
    if |s| > 0 && IsSpace(s[|s| - 1]) then 1 + TrailLen(s[..|s| - 1]) else 0
  }

  lemma {:induction false} LeadLenSpaces(s: string)
    ensures forall k :: 0 <= k < LeadLen(s) ==> IsSpace(s[k])
  {
    if |s| > 0 && IsSpace(s[0]) {
      LeadLenSpaces(s[1..]);
      assert forall k :: 1 <= k < LeadLen(s) ==> s[k] == s[1..][k - 1];
    }
  }

  lemma {:induction false} TrailLenSpaces(s: string)
    ensures forall k :: |s| - TrailLen(s) <= k < |s| ==> IsSpace(s[k])
  {
    if |s| > 0 && IsSpace(s[|s| - 1]) {
      TrailLenSpaces(s[..|s| - 1]);
      assert forall k :: |s| - TrailLen(s) <= k < |s| - 1 ==> s[k] == s[..|s| - 1][k];
    }
  }

  /** `s.strip()`: the result has no whitespace at either end. */
  function Strip(s: string): (r: string)
    ensures IsStripped(r)
    ensures |r| <= |s|
  {
    var t := s[LeadLen(s)..];
    t[..|t| - TrailLen(t)]
  }

  /** The result of `strip` is the slice of `s` after the leading
      whitespace. */
  lemma StripSlice(s: string)
    ensures LeadLen(s) + |Strip(s)| <= |s|
    ensures s[LeadLen(s)..LeadLen(s) + |Strip(s)|] == Strip(s)
  {
    var a := LeadLen(s);
    var t := s[a..];
    var r := t[..|t| - TrailLen(t)];
    assert Strip(s) == r;
    assert s[a..a + |r|] == r;
  }

  /** Everything after the result of `strip` is whitespace. */
  lemma StripTrailSpaces(s: string)
    ensures forall k :: LeadLen(s) + |Strip(s)| <= k < |s| ==> IsSpace(s[k])
  {
    var a := LeadLen(s);
    var t := s[a..];
    var r := t[..|t| - TrailLen(t)];
    assert Strip(s) == r;
    forall k | a + |r| <= k < |s| ensures IsSpace(s[k]) {
      TrailLenSpaces(t);
      assert s[k] == t[k - a];
    }
  }

  /** What `strip` removes is whitespace, and what it keeps is the middle of
      `s`: `s` is some whitespace, the result, and some whitespace. */
  lemma StripRemovesOnlySpace(s: string)
    ensures LeadLen(s) + |Strip(s)| <= |s|
    ensures s[LeadLen(s)..LeadLen(s) + |Strip(s)|] == Strip(s)
    ensures forall k :: 0 <= k < LeadLen(s) ==> IsSpace(s[k])
    ensures forall k :: LeadLen(s) + |Strip(s)| <= k < |s| ==> IsSpace(s[k])
  {
    StripSlice(s);
    StripTrailSpaces(s);
    LeadLenSpaces(s);
  }

  /** Stripping a string with no surrounding whitespace leaves it alone. */
  lemma StripOfStripped(s: string)
    requires IsStripped(s)
    ensures Strip(s) == s
  {
    var t := s[LeadLen(s)..];
    assert t == s;
    assert t[..|t| - TrailLen(t)] == s;
  }

  /** Stripping twice is stripping once. */
  lemma StripIdempotent(s: string)
    ensures Strip(Strip(s)) == Strip(s)
  {
    StripOfStripped(Strip(s));
  }

  /** The line boundaries of `str.splitlines()`. */
  predicate IsLineBreak(c: char) {
    ('\n' <= c <= '\r') || ('\U{1C}' <= c <= '\U{1E}')
    || c == '\U{85}' || c == '\U{2028}' || c == '\U{2029}'
  }

  predicate NoLineBreak(s: string) {
    forall k :: 0 <= k < |s| ==> !IsLineBreak(s[k])
  }

  /** Index of the first line boundary in `s`, or `|s|` when there is none. */
  function NextBreak(s: string): (i: nat)
    ensures i <= |s|
    ensures NoLineBreak(s[..i])
    ensures i < |s| ==> IsLineBreak(s[i])
  {
    if s == [] then 0
    else if IsLineBreak(s[0]) then 0
    else
      assert forall k :: 0 < k < |s| ==> s[k] == s[1..][k - 1];
      1 + NextBreak(s[1..])
  }

  /** `s.splitlines()`: the text between line boundaries, where "\r\n" is one
      boundary; no trailing empty line is produced for a final boundary, and
      the empty string yields no lines. */
  function SplitLines(s: string): (lines: seq<string>)
    ensures s == [] <==> lines == []
    decreases |s|
  {
    if s == [] then []
    else
      var i := NextBreak(s);
      if i == |s| then [s]
      else
        var width := if s[i] == '\r' && i + 1 < |s| && s[i + 1] == '\n' then 2 else 1;
        [s[..i]] + SplitLines(s[i + width..])
  }

  /** No line holds a line boundary. */
  lemma {:induction false} SplitLinesSpec(s: string)
    ensures forall k :: 0 <= k < |SplitLines(s)| ==> NoLineBreak(SplitLines(s)[k])
    decreases |s|
  {
    if s != [] {
      var i := NextBreak(s);
      if i < |s| {
        var width := if s[i] == '\r' && i + 1 < |s| && s[i + 1] == '\n' then 2 else 1;
        SplitLinesSpec(s[i + width..]);
      }
    }
  }

  /** The first boundary of a text that opens with a line free of
      boundaries is the one right after that line. */
  lemma NextBreakAfterLine(a: string, b: string)
    requires NoLineBreak(a) && b != [] && IsLineBreak(b[0])
    ensures NextBreak(a + b) == |a|
  {
    assert (a + b)[|a|] == b[0];
    assert forall k :: 0 <= k < |a| ==> (a + b)[k] == a[k];
  }

  /** A line followed by a boundary other than the "\r" of a "\r\n" splits
      off as the first line. */
  lemma SplitLinesCons(a: string, c: char, b: string)
    requires NoLineBreak(a) && IsLineBreak(c) && !(c == '\r' && b != [] && b[0] == '\n')
    ensures SplitLines(a + [c] + b) == [a] + SplitLines(b)
  {
    var s := a + [c] + b;
    assert s == a + ([c] + b);
    NextBreakAfterLine(a, [c] + b);
    assert s[..|a|] == a && s[|a|] == c;
    assert |a| + 1 < |s| ==> s[|a| + 1] == b[0];
    assert s[|a| + 1..] == b;
  }

  /** A line followed by "\r\n" splits off as the first line. */
  lemma SplitLinesCrLf(a: string, b: string)
    requires NoLineBreak(a)
    ensures SplitLines(a + "\r\n" + b) == [a] + SplitLines(b)
  {
    var s := a + "\r\n" + b;
    NextBreakAfterLine(a, "\r\n" + b);
    assert s == a + ("\r\n" + b);
    assert s[..|a|] == a && s[|a|] == '\r' && s[|a| + 1] == '\n';
    assert s[|a| + 2..] == b;
  }

  /** A non-empty text without boundaries is a single line. */
  lemma SplitLinesOne(a: string)
    requires NoLineBreak(a) && a != []
    ensures SplitLines(a) == [a]
  {
  }

  /** Round trip from text: a text whose only boundaries are "\n", and which
      does not end in one, is its lines joined by "\n". */
  lemma {:induction false} SplitLinesJoin(s: string)
    requires forall k :: 0 <= k < |s| && IsLineBreak(s[k]) ==> s[k] == '\n'
    requires s == [] || s[|s| - 1] != '\n'
    ensures Join(SplitLines(s), "\n") == s
    decreases |s|
  {
    var i := NextBreak(s);
    if s != [] && i < |s| {
      var rest := s[i + 1..];
      assert s == s[..i] + [s[i]] + rest;
      SplitLinesCons(s[..i], s[i], rest);
      assert rest != [];
      assert forall k :: 0 <= k < |rest| ==> rest[k] == s[i + 1 + k];
      SplitLinesJoin(rest);
      var tail := SplitLines(rest);
      assert ([s[..i]] + tail)[1..] == tail;
    }
  }

  /** Round trip from lines: lines free of boundaries, the last of them not
      empty, joined by "\n" split back into the same lines. */
  lemma {:induction false} JoinSplitLines(ls: seq<string>)
    requires forall k :: 0 <= k < |ls| ==> NoLineBreak(ls[k])
    requires ls != [] ==> ls[|ls| - 1] != []
    ensures SplitLines(Join(ls, "\n")) == ls
    decreases |ls|
  {
    if |ls| == 1 {
      SplitLinesOne(ls[0]);
    } else if |ls| > 1 {
      var rest := ls[1..];
      JoinSplitLines(rest);
      var j := Join(rest, "\n");
      assert Join(ls, "\n") == ls[0] + ['\n'] + j;
      assert j != [] by {
        JoinNonEmpty(rest, "\n");
      }
      SplitLinesCons(ls[0], '\n', j);
    }
  }

  /** Joining lines whose last one is not empty gives a non-empty text. */
  lemma {:induction false} JoinNonEmpty(ls: seq<string>, sep: string)
    requires ls != [] && ls[|ls| - 1] != []
    ensures Join(ls, sep) != []
    decreases |ls|
  {
    if |ls| > 1 {
      JoinNonEmpty(ls[1..], sep);
    }
  }

  /** The index of the first `c` in `s`, or `|s|` (Python's `find` returns -1
      there; every caller here only slices up to it). */
  function IndexOf(s: string, c: char): (i: nat)
    ensures i <= |s|
    ensures c !in s[..i]
    ensures i < |s| ==> s[i] == c
  {
    if s == [] then 0
    else if s[0] == c then 0
    else
      assert forall k :: 0 < k < |s| ==> s[k] == s[1..][k - 1];
      1 + IndexOf(s[1..], c)
  }

  /** `s.split(sep)` for a one-character separator: never empty, and the
      pieces hold no separator. */
  function Split(s: string, sep: char): (parts: seq<string>)
    ensures |parts| >= 1
    ensures forall k :: 0 <= k < |parts| ==> sep !in parts[k]
    decreases |s|
  {
    var i := IndexOf(s, sep);
    if i == |s| then [s] else [s[..i]] + Split(s[i + 1..], sep)
  }

  /** `sep.join(parts)`. */
  function Join(parts: seq<string>, sep: string): string
  {
    if parts == [] then []
    else if |parts| == 1 then parts[0]
    else parts[0] + sep + Join(parts[1..], sep)
  }

  /** Joining the pieces of a split with the separator gives the string back. */
  lemma {:induction false} SplitJoin(s: string, sep: char)
    ensures Join(Split(s, sep), [sep]) == s
    decreases |s|
  {
    var i := IndexOf(s, sep);
    if i < |s| {
      var rest := s[i + 1..];
      var tail := Split(rest, sep);
      SplitJoin(rest, sep);
      var parts := [s[..i]] + tail;
      assert Split(s, sep) == parts;
      assert |parts| >= 2 && parts[0] == s[..i] && parts[1..] == tail;
      assert Join(parts, [sep]) == s[..i] + [sep] + Join(tail, [sep]);
      assert s == s[..i] + [sep] + rest;
    }
  }

  function AsciiLowerChar(c: char): char {
    if 'A' <= c <= 'Z' then (c as int + 32) as char else c
  }

  /** `s.lower()` restricted to ASCII letters.  For the purpose it serves here
      (finding lower-case ASCII keywords) this is exact: the only non-ASCII
      characters whose lower case holds an ASCII letter are U+212A (giving
      "k", in no keyword) and U+0130 (giving "i" followed by U+0307). */
  function AsciiLower(s: string): (r: string)
    ensures |r| == |s|
  {
    if s == [] then [] else [AsciiLowerChar(s[0])] + AsciiLower(s[1..])
  }

  /** Every character is lowered on its own. */
  lemma {:induction false} AsciiLowerSpec(s: string)
    ensures forall k :: 0 <= k < |s| ==> AsciiLower(s)[k] == AsciiLowerChar(s[k])
  {
    if s != [] {
      AsciiLowerSpec(s[1..]);
    }
  }

  /** `t in s` for strings. */
  predicate Contains(s: string, t: string)
    decreases |s|
  {
    (|t| <= |s| && s[..|t|] == t) || (|s| > 0 && Contains(s[1..], t))
  }

  predicate IsAsciiDigit(c: char) { '0' <= c <= '9' }

  predicate IsAsciiLetter(c: char) { ('a' <= c <= 'z') || ('A' <= c <= 'Z') }

  /** A character `\w` matches (ASCII letters, digits and the underscore). */
  predicate IsWordChar(c: char) { IsAsciiLetter(c) || IsAsciiDigit(c) || c == '_' }

  /** `x.isdigit()` on ASCII: a non-empty string of decimal digits. */
  predicate IsDigits(s: string) {
    |s| > 0 && forall k :: 0 <= k < |s| ==> IsAsciiDigit(s[k])
  }

  /** `int(x)` on an ASCII digit string, read most significant digit first. */
  function DigitsValue(s: string): nat
    requires forall k :: 0 <= k < |s| ==> IsAsciiDigit(s[k])
  {
    if s == [] then 0
    else
      assert IsAsciiDigit(s[|s| - 1]);
      DigitsValue(s[..|s| - 1]) * 10 + (s[|s| - 1] as int - '0' as int)
  }

  /** `str(n)` for a natural number. */
  function NatToString(n: nat): (s: string)
    ensures IsDigits(s)
    ensures s[0] == '0' <==> n == 0
    ensures |s| > 1 ==> s[0] != '0'
  {
    var d := ['0' + (n % 10) as char];
    if n < 10 then d else NatToString(n / 10) + d
  }

  /** Reading back the decimal rendering of `n` gives `n`. */
  lemma {:induction false} NatToStringValue(n: nat)
    ensures DigitsValue(NatToString(n)) == n
  {
    if n >= 10 {
      NatToStringValue(n / 10);
      var s := NatToString(n);
      assert s[..|s| - 1] == NatToString(n / 10);
    }
  }
}
