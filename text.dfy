/**
  The pieces of .NET string handling that the G-code parser and the STL loader rely on:
  `char.IsWhiteSpace`, `string.Trim`, upper-casing, `IndexOf`, prefix tests,
  `string.Split` with `RemoveEmptyEntries`, `StringReader.ReadLine`, and the decimal
  digits read by `int.Parse` and written by `int.ToString`.
*/
module DotNetText {

  /** `char.IsWhiteSpace`: the Unicode separators and the control characters it accepts. */
  predicate IsWhiteSpace(c: char) {
    || ('\U{9}' <= c <= '\U{D}')
    || c == ' ' || c == '\U{85}' || c == '\U{A0}' || c == '\U{1680}'
    || ('\U{2000}' <= c <= '\U{200A}')
    || c == '\U{2028}' || c == '\U{2029}' || c == '\U{202F}' || c == '\U{205F}' || c == '\U{3000}'
  }

  /** `string.IsNullOrWhiteSpace` for a non-null string. */
  predicate IsBlank(s: string) {
    forall i :: 0 <= i < |s| ==> IsWhiteSpace(s[i])
  }

  lemma BlankAppend(s: string, t: string)
    ensures IsBlank(s + t) <==> IsBlank(s) && IsBlank(t)
  {
    assert forall i :: 0 <= i < |s| ==> (s + t)[i] == s[i];
    assert forall i :: 0 <= i < |t| ==> (s + t)[|s| + i] == t[i];
  }

  /** `string.TrimStart()`: drops the leading white space and nothing else. */
  function TrimStart(s: string): (r: string)
    ensures |r| <= |s| && r == s[|s| - |r|..]
    ensures IsBlank(s[..|s| - |r|])
    ensures r != [] ==> !IsWhiteSpace(r[0])
  {
    if s != [] && IsWhiteSpace(s[0]) then
      var r := TrimStart(s[1..]);
      assert s[..|s| - |r|] == [s[0]] + s[1..][..|s[1..]| - |r|];
      r
    else s
  }

  /** `string.TrimEnd()`: drops the trailing white space and nothing else. */
  function TrimEnd(s: string): (r: string)
    ensures |r| <= |s| && r == s[..|r|]
    ensures IsBlank(s[|r|..])
    ensures r != [] ==> !IsWhiteSpace(r[|r| - 1])
  {
    if s != [] && IsWhiteSpace(s[|s| - 1]) then
      var r := TrimEnd(s[..|s| - 1]);
      assert s[|r|..] == s[..|s| - 1][|r|..] + [s[|s| - 1]];
      r
    else s
  }

  /** `string.Trim()`. */
  function Trim(s: string): (r: string)
    ensures IsBlank(s) <==> r == []
    ensures r != [] ==> !IsWhiteSpace(r[0]) && !IsWhiteSpace(r[|r| - 1])
  {
    var t := TrimStart(s);
    var r := TrimEnd(t);
    assert IsBlank(s) ==> t == [] by {
      if t != [] { assert t[0] == s[|s| - |t|]; }
    }
    assert r == [] ==> IsBlank(s) by {
      if r == [] {
        assert s == s[..|s| - |t|] + t;
        assert t[|r|..] == t;
        BlankAppend(s[..|s| - |t|], t);
      }
    }
    r
  }

  /** `char.ToUpper` restricted to ASCII: 'a'..'z' become 'A'..'Z', everything else is kept. */
  function ToUpperChar(c: char): char {
    if 'a' <= c <= 'z' then (c as int - 32) as char else c
  }

  /** `string.ToUpper()` with ASCII case mapping. */
  function ToUpper(s: string): (r: string)
    ensures |r| == |s| && forall i :: 0 <= i < |s| ==> r[i] == ToUpperChar(s[i])
  {
    seq(|s|, i requires 0 <= i < |s| => ToUpperChar(s[i]))
  }

  lemma UpperKeepsWhiteSpace(c: char)
    ensures IsWhiteSpace(ToUpperChar(c)) <==> IsWhiteSpace(c)
  {
  }

  lemma ToUpperAppend(s: string, t: string)
    ensures ToUpper(s + t) == ToUpper(s) + ToUpper(t)
  {
  }

  lemma ToUpperSlice(s: string, i: nat, j: nat)
    requires i <= j <= |s|
    ensures ToUpper(s[i..j]) == ToUpper(s)[i..j]
  {
  }

  /** Upper-casing neither creates nor removes white space, so it commutes with trimming. */
  lemma {:induction false} TrimToUpper(s: string)
    ensures Trim(ToUpper(s)) == ToUpper(Trim(s))
  {
    TrimStartToUpper(s);
    TrimEndToUpper(TrimStart(s));
  }

  lemma {:induction false} TrimStartToUpper(s: string)
    ensures TrimStart(ToUpper(s)) == ToUpper(TrimStart(s))
    decreases |s|
  {
    var u := ToUpper(s);
    if s != [] {
      assert IsWhiteSpace(u[0]) <==> IsWhiteSpace(s[0]);
      if IsWhiteSpace(s[0]) {
        assert u[1..] == ToUpper(s[1..]);
        TrimStartToUpper(s[1..]);
      }
    }
  }

  lemma {:induction false} TrimEndToUpper(s: string)
    ensures TrimEnd(ToUpper(s)) == ToUpper(TrimEnd(s))
    decreases |s|
  {
    var u := ToUpper(s);
    if s != [] {
      var n := |s| - 1;
      UpperKeepsWhiteSpace(s[n]);
      if IsWhiteSpace(s[n]) {
        ToUpperSlice(s, 0, n);
        TrimEndToUpper(s[..n]);
        assert TrimEnd(u) == TrimEnd(u[..n]);
      } else {
        assert TrimEnd(u) == u;
      }
    }
  }

  lemma ToUpperIdempotent(s: string)
    ensures ToUpper(ToUpper(s)) == ToUpper(s)
  {
  }

  /** Trimming only removes characters: whatever is in the result was in the input. */
  lemma {:induction false} TrimKeepsChars(s: string, c: char)
    requires c !in s
    ensures c !in Trim(s)
  {
    var t := TrimStart(s);
    var r := TrimEnd(t);
    assert Trim(s) == r;
    forall i | 0 <= i < |r|
      ensures r[i] != c
    {
      assert r[i] == t[i] == s[|s| - |t| + i];
    }
  }

  /** Leading white space in front of non-blank text is all that `TrimStart` removes. */
  lemma {:induction false} TrimStartAppend(a: string, b: string)
    requires !IsBlank(a)
    ensures TrimStart(a + b) == TrimStart(a) + b
    decreases |a|
  {
    assert (a + b)[0] == a[0];
    if IsWhiteSpace(a[0]) {
      assert (a + b)[1..] == a[1..] + b;
      TrimStartAppend(a[1..], b);
    }
  }

  /** Non-blank text keeps a non-white first character after `TrimStart`. */
  lemma {:induction false} TrimStartNonBlank(s: string)
    requires !IsBlank(s)
    ensures TrimStart(s) != [] && !IsWhiteSpace(TrimStart(s)[0]) && !IsBlank(TrimStart(s))
    decreases |s|
  {
    if IsWhiteSpace(s[0]) {
      assert !IsBlank(s[1..]) by {
        var i :| 0 <= i < |s| && !IsWhiteSpace(s[i]);
        assert s[1..][i - 1] == s[i];
      }
      TrimStartNonBlank(s[1..]);
    }
  }

  /** A blank prefix disappears under `TrimStart`. */
  lemma {:induction false} TrimStartBlankPrefix(a: string, b: string)
    requires IsBlank(a)
    ensures TrimStart(a + b) == TrimStart(b)
    decreases |a|
  {
    if a == [] {
      assert a + b == b;
    } else {
      assert (a + b)[0] == a[0];
      assert (a + b)[1..] == a[1..] + b;
      TrimStartBlankPrefix(a[1..], b);
    }
  }

  /** Trailing white space behind non-blank text is all that `TrimEnd` removes. */
  lemma {:induction false} TrimEndAppend(a: string, b: string)
    requires !IsBlank(b)
    ensures TrimEnd(a + b) == a + TrimEnd(b)
    decreases |b|
  {
    var last := |b| - 1;
    assert (a + b)[|a + b| - 1] == b[last];
    if IsWhiteSpace(b[last]) {
      assert (a + b)[..|a + b| - 1] == a + b[..last];
      assert b == b[..last] + [b[last]];
      BlankAppend(b[..last], [b[last]]);
      TrimEndAppend(a, b[..last]);
    }
  }

  /** `TrimEnd` keeps a non-blank text non-empty, and its first character in place. */
  lemma TrimEndKeepsFirst(s: string)
    requires !IsBlank(s)
    ensures TrimEnd(s) != [] && TrimEnd(s)[0] == s[0]
  {
  }

  lemma TrimStartIdempotent(s: string)
    ensures TrimStart(TrimStart(s)) == TrimStart(s)
  {
  }

  lemma UpperKeepsSemicolon(s: string)
    requires ';' !in s
    ensures ';' !in ToUpper(s)
  {
  }

  /** `s.StartsWith(prefix, StringComparison.InvariantCultureIgnoreCase)` for ASCII text. */
  predicate StartsWithIgnoreCase(s: string, prefix: string) {
    |prefix| <= |s| && forall i :: 0 <= i < |prefix| ==> ToUpperChar(s[i]) == ToUpperChar(prefix[i])
  }

  /** `s.IndexOf(c)`: the first position of `c`, or -1. */
  function IndexOf(s: string, c: char): (r: int)
    ensures -1 <= r < |s|
    ensures r >= 0 ==> s[r] == c && c !in s[..r]
    ensures r == -1 <==> c !in s
  {
    if s == [] then -1
    else if s[0] == c then 0
    else
      var k := IndexOf(s[1..], c);
      assert s == [s[0]] + s[1..];
      if k < 0 then -1
      else
        assert s[..k + 1] == [s[0]] + s[1..][..k];
        k + 1
  }

  /** Length of the longest prefix of `s` free of the characters in `seps`. */
  function TokenLength(s: string, seps: set<char>): (n: nat)
    ensures n <= |s|
    ensures forall i :: 0 <= i < n ==> s[i] !in seps
    ensures n < |s| ==> s[n] in seps
  {
    if s == [] || s[0] in seps then 0 else 1 + TokenLength(s[1..], seps)
  }

  /** `s.Split(seps, StringSplitOptions.RemoveEmptyEntries)`. */
  function Split(s: string, seps: set<char>): (parts: seq<string>)
    ensures forall k :: 0 <= k < |parts| ==> parts[k] != []
    ensures forall k, i :: 0 <= k < |parts| && 0 <= i < |parts[k]| ==> parts[k][i] !in seps
    decreases |s|
  {
    if s == [] then []
    else if s[0] in seps then Split(s[1..], seps)
    else
      var n := TokenLength(s, seps);
      [s[..n]] + Split(s[n..], seps)
  }

  /** The characters of `s` that are not in `seps`, in order. */
  function Without(s: string, seps: set<char>): string {
    if s == [] then []
    else (if s[0] in seps then [] else [s[0]]) + Without(s[1..], seps)
  }

  function Concat(parts: seq<string>): string {
    if parts == [] then [] else parts[0] + Concat(parts[1..])
  }

  lemma {:induction false} WithoutAppend(s: string, t: string, seps: set<char>)
    ensures Without(s + t, seps) == Without(s, seps) + Without(t, seps)
    decreases |s|
  {
    if s != [] {
      assert (s + t)[1..] == s[1..] + t;
      WithoutAppend(s[1..], t, seps);
    } else {
      assert s + t == t;
    }
  }

  lemma {:induction false} WithoutNone(s: string, seps: set<char>)
    requires forall i :: 0 <= i < |s| ==> s[i] !in seps
    ensures Without(s, seps) == s
    decreases |s|
  {
    if s != [] {
      WithoutNone(s[1..], seps);
    }
  }

  lemma {:induction false} WithoutAll(s: string, seps: set<char>)
    requires forall i :: 0 <= i < |s| ==> s[i] in seps
    ensures Without(s, seps) == []
    decreases |s|
  {
    if s != [] {
      WithoutAll(s[1..], seps);
    }
  }

  /** Splitting loses exactly the separators: the parts, put back together, are the text without them. */
  lemma {:induction false} SplitKeepsText(s: string, seps: set<char>)
    ensures Concat(Split(s, seps)) == Without(s, seps)
    decreases |s|
  {
    if s == [] {
    } else if s[0] in seps {
      SplitKeepsText(s[1..], seps);
    } else {
      var n := TokenLength(s, seps);
      assert s == s[..n] + s[n..];
      WithoutAppend(s[..n], s[n..], seps);
      WithoutNone(s[..n], seps);
      SplitKeepsText(s[n..], seps);
      assert Split(s, seps)[1..] == Split(s[n..], seps);
    }
  }

  /** A token ends at the first separator. */
  lemma {:induction false} TokenLengthBefore(w: string, rest: string, seps: set<char>)
    requires forall i :: 0 <= i < |w| ==> w[i] !in seps
    requires rest != [] && rest[0] in seps
    ensures TokenLength(w + rest, seps) == |w|
    decreases |w|
  {
    if w == [] {
      assert w + rest == rest;
    } else {
      assert (w + rest)[1..] == w[1..] + rest;
      TokenLengthBefore(w[1..], rest, seps);
    }
  }

  /** A word followed by a separator is the first part, and splitting goes on after the separator. */
  lemma SplitFirst(w: string, rest: string, seps: set<char>)
    requires w != [] && forall i :: 0 <= i < |w| ==> w[i] !in seps
    requires rest != [] && rest[0] in seps
    ensures Split(w + rest, seps) == [w] + Split(rest[1..], seps)
  {
    var s := w + rest;
    TokenLengthBefore(w, rest, seps);
    assert s[..|w|] == w && s[|w|..] == rest;
  }

  /** A word without separators splits into itself alone. */
  lemma SplitWord(w: string, seps: set<char>)
    requires w != [] && forall i :: 0 <= i < |w| ==> w[i] !in seps
    ensures Split(w, seps) == [w]
  {
    assert w[..|w|] == w;
  }

  /** Text that neither starts nor ends with white space is left as it is by `Trim`. */
  lemma TrimUnchanged(s: string)
    requires s != [] && !IsWhiteSpace(s[0]) && !IsWhiteSpace(s[|s| - 1])
    ensures Trim(s) == s
  {
  }

  const LineBreaks: set<char> := {'\r', '\n'}

  /**
    The lines `StringReader.ReadLine` returns, in order: a line ends at "\r\n", "\r" or "\n";
    empty lines are kept, and a final line break does not start another line.
  */
  function ReadLines(s: string): (lines: seq<string>)
    ensures forall k, i :: 0 <= k < |lines| && 0 <= i < |lines[k]| ==> lines[k][i] !in LineBreaks
    decreases |s|
  {
    if s == [] then []
    else
      var n := TokenLength(s, LineBreaks);
      if n == |s| then [s] else [s[..n]] + ReadLines(s[NextLineStart(s, n)..])
  }

  /** Where the next line starts after the line break at position `n`: "\r\n" counts as one break. */
  function NextLineStart(s: string, n: nat): (k: nat)
    requires n < |s| && s[n] in LineBreaks
    ensures n < k <= |s| && forall i :: n <= i < k ==> s[i] in LineBreaks
  {
    if s[n] == '\r' && n + 1 < |s| && s[n + 1] == '\n' then n + 2 else n + 1
  }

  /** Reading lines loses exactly the line breaks. */
  lemma {:induction false} ReadLinesKeepsText(s: string)
    ensures Concat(ReadLines(s)) == Without(s, LineBreaks)
    decreases |s|
  {
    if s != [] {
      var n := TokenLength(s, LineBreaks);
      if n == |s| {
        WithoutNone(s, LineBreaks);
        assert Concat([s]) == s + Concat([]);
      } else {
        var k := NextLineStart(s, n);
        var head, brk, tail := s[..n], s[n..k], s[k..];
        assert head + (brk + tail) == s;
        BreakDropped(head, brk, tail, LineBreaks);
        ReadLinesKeepsText(tail);
        assert Concat([head] + ReadLines(tail)) == head + Concat(ReadLines(tail));
      }
    }
  }

  /** A line ended by "\n" is read as the first line, and reading goes on after the break. */
  lemma ReadLinesFirst(line: string, rest: string)
    requires forall i :: 0 <= i < |line| ==> line[i] !in LineBreaks
    ensures ReadLines(line + "\n" + rest) == [line] + ReadLines(rest)
  {
    var s := line + "\n" + rest;
    assert s == line + ("\n" + rest);
    TokenLengthBefore(line, "\n" + rest, LineBreaks);
    assert s[..|line|] == line && s[|line| + 1..] == rest;
  }

  /** A line ended by "\r\n" is read as that line; the two characters end it together. */
  lemma ReadLinesFirstCrLf(line: string, rest: string)
    requires forall i :: 0 <= i < |line| ==> line[i] !in LineBreaks
    ensures ReadLines(line + "\r\n" + rest) == [line] + ReadLines(rest)
  {
    var s := line + "\r\n" + rest;
    assert s == line + ("\r\n" + rest);
    TokenLengthBefore(line, "\r\n" + rest, LineBreaks);
    assert s[|line|] == '\r' && s[|line| + 1] == '\n';
    assert s[..|line|] == line && s[|line| + 2..] == rest;
  }

  lemma BreakDropped(head: string, brk: string, tail: string, seps: set<char>)
    requires forall i :: 0 <= i < |head| ==> head[i] !in seps
    requires forall i :: 0 <= i < |brk| ==> brk[i] in seps
    ensures Without(head + (brk + tail), seps) == head + Without(tail, seps)
  {
    var rest := brk + tail;
    WithoutAppend(brk, tail, seps);
    WithoutAll(brk, seps);
    assert Without(rest, seps) == Without(tail, seps);
    WithoutAppend(head, rest, seps);
    WithoutNone(head, seps);
  }

  predicate IsDigit(c: char) {
    '0' <= c <= '9'
  }

  function DigitValue(c: char): nat
    requires IsDigit(c)
  {
    c as int - '0' as int
  }

  /** Every character of `s` is a decimal digit. */
  predicate AllDigits(s: string) {
    forall i :: 0 <= i < |s| ==> IsDigit(s[i])
  }

  /** The value `int.Parse` gives a string of decimal digits (most significant first). */
  function DigitsValue(s: string): nat
    requires AllDigits(s)
  {
    if s == [] then 0 else DigitsValue(s[..|s| - 1]) * 10 + DigitValue(s[|s| - 1])
  }

  /** `n.ToString()` for a natural number: its decimal digits, without leading zeros. */
  function NatToString(n: nat): (s: string)
    ensures s != [] && forall i :: 0 <= i < |s| ==> IsDigit(s[i])
    ensures |s| > 1 ==> s[0] != '0'
  {
    if n < 10 then ['0' + n as char]
    else NatToString(n / 10) + ['0' + (n % 10) as char]
  }

  /** `n.ToString()` for any `int` (invariant culture: a leading '-' for negatives). */
  function IntToString(n: int): (s: string)
    ensures s != []
  {
    if n < 0 then "-" + NatToString(-n) else NatToString(n)
  }

  /** Reading back the digits `ToString` wrote gives the number: the two are inverse. */
  lemma {:induction false} NatToStringRoundTrip(n: nat)
    ensures DigitsValue(NatToString(n)) == n
  {
    if n >= 10 {
      var s := NatToString(n);
      assert s[..|s| - 1] == NatToString(n / 10);
      NatToStringRoundTrip(n / 10);
    }
  }
}
