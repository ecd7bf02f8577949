/**
  The per-line G-code parser of `InterpretadorGCode`: `ParsearLinea` and `ExtraerParametro`.
  A line is trimmed and upper-cased, full-line comments (';' or '(') and blank lines give no
  command, a trailing ';' comment is cut off, a leading `[GM]\d+` token gives the command
  letter and number, and each of X, Y, Z and F is read independently from its first
  occurrence followed by a number.
*/
module GCodeParsing {
  import opened Options
  import opened DotNetText

  /** The command letter held in `TipoComando`. */
  datatype Letter = G | M

  /** `ComandoGCode`: one parsed line. */
  datatype Command = Command(
    text: string,            // LineaOriginal: the line trimmed, upper-cased, without its comment
    letter: Option<Letter>,  // TipoComando: None when the line has no leading G/M token
    number: nat,             // NumeroComando: 0 when there is no token
    x: Option<real>,
    y: Option<real>,
    z: Option<real>,
    f: Option<real>,         // feed rate
    lineNumber: int)         // NumeroLinea: 0 until the whole-program parser numbers the command

  predicate IsSign(c: char) {
    c == '+' || c == '-'
  }

  /** Number of consecutive digits starting at position `j`. */
  function DigitRun(s: string, j: nat): (n: nat)
    requires j <= |s|
    ensures j + n <= |s|
    ensures j + n < |s| ==> !IsDigit(s[j + n])
    decreases |s| - j
  {
    if j < |s| && IsDigit(s[j]) then 1 + DigitRun(s, j + 1) else 0
  }

  /** Every character of the run is a digit. */
  lemma {:induction false} DigitRunDigits(s: string, j: nat)
    requires j <= |s|
    ensures forall i :: j <= i < j + DigitRun(s, j) ==> IsDigit(s[i])
    decreases |s| - j
  {
    if j < |s| && IsDigit(s[j]) {
      DigitRunDigits(s, j + 1);
    }
  }

  /** Where the digits of a numeral spanning `s[j..e]` begin: after its sign, if any. */
  function DigitsStart(s: string, j: nat, e: nat): (d: nat)
    requires j <= e <= |s|
    ensures j <= d <= e
  {
    if j < e && IsSign(s[j]) then j + 1 else j
  }

  /** `s[j..e]` is matched in full by the pattern `[-+]?\d+\.?\d*`. */
  predicate NumeralSpan(s: string, j: nat, e: nat)
    requires j <= e <= |s|
  {
    var d := DigitsStart(s, j, e);
    && d < e && IsDigit(s[d])
    && (forall i :: d <= i < e ==> IsDigit(s[i]) || s[i] == '.')
    && (forall i, k :: d <= i < k < e && s[i] == '.' ==> s[k] != '.')
  }

  /** `t` is matched in full by the pattern `[-+]?\d+\.?\d*`. */
  predicate IsNumeral(t: string) {
    NumeralSpan(t, 0, |t|)
  }

  /** The pattern `[-+]?\d+\.?\d*` matches at position `j`: a digit, or a sign and then a digit. */
  predicate StartsNumeral(s: string, j: nat) {
    || (j < |s| && IsDigit(s[j]))
    || (j + 1 < |s| && IsSign(s[j]) && IsDigit(s[j + 1]))
  }

  /** Length of the greedy match of `[-+]?\d+\.?\d*` at position `j`; 0 when there is none. */
  function NumeralLength(s: string, j: nat): (n: nat)
    requires j <= |s|
    ensures j + n <= |s|
    ensures n > 0 <==> StartsNumeral(s, j)
  {
    var sign := if j < |s| && IsSign(s[j]) then 1 else 0;
    var whole := DigitRun(s, j + sign);
    if whole == 0 then 0
    else
      var dot := j + sign + whole;
      if dot < |s| && s[dot] == '.' then sign + whole + 1 + DigitRun(s, dot + 1)
      else sign + whole
  }

  /** The text of a span is a numeral exactly when the span is one. */
  lemma {:induction false} NumeralSlice(s: string, j: nat, e: nat)
    requires j <= e <= |s|
    ensures IsNumeral(s[j..e]) <==> NumeralSpan(s, j, e)
  {
    var t := s[j..e];
    if j < e {
      assert t[0] == s[j];
    }
    var d := DigitsStart(s, j, e);
    assert DigitsStart(t, 0, |t|) == d - j;
    forall i | d <= i < e
      ensures t[i - j] == s[i]
    {
    }
  }

  /** The greedy match is a numeral. */
  lemma {:induction false} NumeralMatches(s: string, j: nat)
    requires j <= |s|
    ensures NumeralLength(s, j) > 0 ==> NumeralSpan(s, j, j + NumeralLength(s, j))
  {
    var n := NumeralLength(s, j);
    var sign := if j < |s| && IsSign(s[j]) then 1 else 0;
    var whole := DigitRun(s, j + sign);
    var dot := j + sign + whole;
    DigitRunDigits(s, j + sign);
    if n > 0 {
      assert DigitsStart(s, j, j + n) == j + sign;
      if dot < |s| && s[dot] == '.' {
        DigitRunDigits(s, dot + 1);
        assert forall i :: j + sign <= i < j + n && s[i] == '.' ==> i == dot;
      } else {
        assert n == sign + whole;
      }
    }
  }

  /** No text at position `j` longer than the greedy match is a numeral. */
  lemma {:induction false} NumeralIsLongest(s: string, j: nat)
    requires j <= |s|
    ensures forall e :: j + NumeralLength(s, j) < e <= |s| ==> !NumeralSpan(s, j, e)
  {
    forall e | j + NumeralLength(s, j) < e <= |s|
      ensures !NumeralSpan(s, j, e)
    {
      NotNumeralBeyond(s, j, e);
    }
  }

  lemma {:induction false} NotNumeralBeyond(s: string, j: nat, e: nat)
    requires j <= |s|
    requires j + NumeralLength(s, j) < e <= |s|
    ensures !NumeralSpan(s, j, e)
  {
    var n := NumeralLength(s, j);
    var sign := if IsSign(s[j]) then 1 else 0;
    var whole := DigitRun(s, j + sign);
    var d := DigitsStart(s, j, e);
    assert d == j + sign;
    var dot := j + sign + whole;
    if n == 0 {
      assert d < e ==> !IsDigit(s[d]);
    } else if dot < |s| && s[dot] == '.' {
      var frac := DigitRun(s, dot + 1);
      assert j + n == dot + 1 + frac;
      assert !IsDigit(s[j + n]);
      assert s[dot] == '.' && d <= dot < j + n;
    } else {
      assert j + n == dot;
      assert !IsDigit(s[j + n]) && s[j + n] != '.';
    }
  }

  /** The leading `^([GM])(\d+)` token of a line: its letter and the value of its digits. */
  function CommandToken(line: string): (r: Option<(Letter, nat)>)
    ensures r.Some? <==> |line| >= 2 && (line[0] == 'G' || line[0] == 'M') && IsDigit(line[1])
    ensures r.Some? ==> (r.value.0 == G <==> line[0] == 'G')
    ensures r.Some? ==> (DigitRun(line, 1) >= 1 && AllDigits(line[1..1 + DigitRun(line, 1)]) &&
      r.value.1 == DigitsValue(line[1..1 + DigitRun(line, 1)]))
  {
    if |line| >= 2 && (line[0] == 'G' || line[0] == 'M') && IsDigit(line[1]) then
      var n := DigitRun(line, 1);
      DigitRunDigits(line, 1);
      var digits := line[1..1 + n];
      assert forall i :: 0 <= i < |digits| ==> digits[i] == line[1 + i];
      assert AllDigits(digits);
      Some((if line[0] == 'G' then G else M, DigitsValue(digits)))
    else None
  }

  /** The first position at or after `from` where `letter` is followed by a number. */
  function FindParameter(line: string, letter: char, from: nat): (r: Option<nat>)
    requires from <= |line|
    ensures r.Some? ==> from <= r.value < |line| && line[r.value] == letter && StartsNumeral(line, r.value + 1)
    ensures forall i :: from <= i < |line| && line[i] == letter && StartsNumeral(line, i + 1) ==> r.Some? && r.value <= i
    decreases |line| - from
  {
    if from == |line| then None
    else if line[from] == letter && StartsNumeral(line, from + 1) then Some(from)
    else FindParameter(line, letter, from + 1)
  }

  /** The text captured by `letter([-+]?\d+\.?\d*)`, from the leftmost place where it matches. */
  function ParameterText(line: string, letter: char): (t: Option<string>)
    ensures t.Some? <==> exists i :: 0 <= i < |line| && line[i] == letter && StartsNumeral(line, i + 1)
    ensures t.Some? ==> IsNumeral(t.value)
    ensures t.Some? ==> (FindParameter(line, letter, 0).Some? &&
      var i := FindParameter(line, letter, 0).value;
      t.value == line[i + 1..i + 1 + NumeralLength(line, i + 1)])
  {
    match FindParameter(line, letter, 0)
    case None => None
    case Some(i) =>
      NumeralMatches(line, i + 1);
      NumeralSlice(line, i + 1, i + 1 + NumeralLength(line, i + 1));
      Some(line[i + 1..i + 1 + NumeralLength(line, i + 1)])
  }

  /**
    `ExtraerParametro`: the value of the first `letter` followed by a number; `num` stands for
    the `double.Parse` of the captured numeral.
  */
  function ExtractParameter(line: string, letter: char, num: string -> real): (r: Option<real>)
    ensures r.Some? <==> exists i :: 0 <= i < |line| && line[i] == letter && StartsNumeral(line, i + 1)
    ensures r.Some? ==> (FindParameter(line, letter, 0).Some? &&
      var i := FindParameter(line, letter, 0).value;
      r.value == num(line[i + 1..i + 1 + NumeralLength(line, i + 1)]))
  {
    match ParameterText(line, letter)
    case None => None
    case Some(t) => Some(num(t))
  }

  /** A run of digits that ends at the end of the text or at a non-digit is exactly what `DigitRun` counts. */
  lemma {:induction false} DigitRunExact(s: string, j: nat, k: nat)
    requires j <= k <= |s|
    requires forall i :: j <= i < k ==> IsDigit(s[i])
    requires k == |s| || !IsDigit(s[k])
    ensures DigitRun(s, j) == k - j
    decreases k - j
  {
    if j < k {
      DigitRunExact(s, j + 1, k);
    }
  }

  /**
    A numeral spanning `s[j..e]` that is not followed by a digit or a '.' is the whole greedy
    match at `j`.
  */
  lemma {:induction false} NumeralLengthOfSpan(s: string, j: nat, e: nat)
    requires j <= e <= |s| && NumeralSpan(s, j, e)
    requires e == |s| || (!IsDigit(s[e]) && s[e] != '.')
    ensures NumeralLength(s, j) == e - j
  {
    var d := DigitsStart(s, j, e);
    if p :| d <= p < e && s[p] == '.' {
      NumeralLengthWithDot(s, j, e, d, p);
    } else {
      DigitRunExact(s, d, e);
    }
  }

  /** The case of `NumeralLengthOfSpan` where the numeral has a '.' at `p`. */
  lemma {:induction false} NumeralLengthWithDot(s: string, j: nat, e: nat, d: nat, p: nat)
    requires j <= e <= |s| && NumeralSpan(s, j, e) && d == DigitsStart(s, j, e)
    requires e == |s| || (!IsDigit(s[e]) && s[e] != '.')
    requires d <= p < e && s[p] == '.'
    ensures NumeralLength(s, j) == e - j
  {
    assert forall i :: d <= i < p ==> IsDigit(s[i]);
    DigitRunExact(s, d, p);
    assert forall i :: p < i < e ==> IsDigit(s[i]);
    DigitRunExact(s, p + 1, e);
  }

  /**
    Reading a word back: after text holding no `letter`, the word `letter` followed by a
    numeral and then a space (or nothing) gives that numeral, and `ExtractParameter` its value.
  */
  lemma WordParameter(pre: string, letter: char, t: string, rest: string, num: string -> real)
    requires letter !in pre && IsNumeral(t)
    requires rest == [] || rest[0] == ' '
    ensures ParameterText(pre + [letter] + t + rest, letter) == Some(t)
    ensures ExtractParameter(pre + [letter] + t + rest, letter, num) == Some(num(t))
  {
    var line := pre + [letter] + t + rest;
    var j := |pre| + 1;
    assert line[|pre|] == letter;
    assert line[j..j + |t|] == t;
    NumeralSlice(line, j, j + |t|);
    var d := DigitsStart(t, 0, |t|);
    assert line[j + d] == t[d];
    assert StartsNumeral(line, j);
    var r := FindParameter(line, letter, 0);
    assert r == Some(|pre|);
    if rest != [] {
      assert line[j + |t|] == ' ';
    }
    NumeralLengthOfSpan(line, j, j + |t|);
  }

  /** The character a command letter is written with. */
  function LetterChar(l: Letter): char {
    if l == G then 'G' else 'M'
  }

  /**
    Reading a command token back: a letter, the decimal digits `ToString` gives for `n`, and
    then anything but a digit, parse as that letter and `n`.
  */
  lemma CommandTokenRoundTrip(l: Letter, n: nat, rest: string)
    requires rest == [] || !IsDigit(rest[0])
    ensures CommandToken([LetterChar(l)] + NatToString(n) + rest) == Some((l, n))
  {
    var digits := NatToString(n);
    var line := [LetterChar(l)] + digits + rest;
    assert line[1..1 + |digits|] == digits;
    assert forall i :: 1 <= i < 1 + |digits| ==> line[i] == digits[i - 1];
    if rest != [] {
      assert line[1 + |digits|] == rest[0];
    }
    DigitRunExact(line, 1, 1 + |digits|);
    NatToStringRoundTrip(n);
  }

  /** The line after trimming and upper-casing, the form the comment tests look at. */
  function Normalized(line: string): string {
    ToUpper(Trim(line))
  }

  /** A full-line comment: the normalized line starts with ';' or '('. */
  predicate IsCommentLine(line: string) {
    var u := Normalized(line);
    u != [] && (u[0] == ';' || u[0] == '(')
  }

  /** The code part of a line: normalized, cut at the first ';' and trimmed again. */
  function CodeText(line: string): (code: string)
    ensures ';' !in code
    ensures code == ToUpper(code)
    ensures code != [] ==> !IsWhiteSpace(code[0]) && !IsWhiteSpace(code[|code| - 1])
    ensures IsBlank(code) ==> code == []
  {
    var t := Trim(line);
    var u := ToUpper(t);
    var k := IndexOf(u, ';');
    if k >= 0 then
      CutComment(t, k);
      Trim(u[..k])
    else
      ToUpperIdempotent(t);
      UpperKeepsEnds(t);
      u
  }

  lemma {:induction false} UpperKeepsEnds(t: string)
    requires t != [] ==> !IsWhiteSpace(t[0]) && !IsWhiteSpace(t[|t| - 1])
    ensures var u := ToUpper(t);
      u != [] ==> !IsWhiteSpace(u[0]) && !IsWhiteSpace(u[|u| - 1])
  {
    if t != [] {
      UpperKeepsWhiteSpace(t[0]);
      UpperKeepsWhiteSpace(t[|t| - 1]);
    }
  }

  lemma {:induction false} CutComment(t: string, k: nat)
    requires k <= |t| && ';' !in ToUpper(t)[..k]
    ensures ';' !in Trim(ToUpper(t)[..k])
    ensures Trim(ToUpper(t)[..k]) == ToUpper(Trim(ToUpper(t)[..k]))
  {
    var before := ToUpper(t)[..k];
    TrimKeepsChars(before, ';');
    assert before == ToUpper(t[..k]);
    TrimToUpper(t[..k]);
    ToUpperIdempotent(Trim(t[..k]));
  }

  /**
    `ParsearLinea`: None for blank lines, full-line comments and lines whose code part is empty;
    otherwise the command read from the code part.
  */
  function ParseLine(line: string, num: string -> real): (r: Option<Command>)
    ensures r.Some? ==> r.value.lineNumber == 0
  {
    if IsBlank(line) then None
    else
      var u := Normalized(line);
      if u != [] && (u[0] == ';' || u[0] == '(') then None
      else
        var code := CodeText(line);
        if IsBlank(code) then None
        else
          var token := CommandToken(code);
          Some(Command(
            code,
            if token.Some? then Some(token.value.0) else None,
            if token.Some? then token.value.1 else 0,
            ExtractParameter(code, 'X', num),
            ExtractParameter(code, 'Y', num),
            ExtractParameter(code, 'Z', num),
            ExtractParameter(code, 'F', num),
            0))
  }

  /** `ParsearLinea` on a possibly null line: a null line gives no command. */
  function ParseLineOrNull(line: Option<string>, num: string -> real): (r: Option<Command>)
    ensures line.None? ==> r.None?
    ensures line.Some? ==> r == ParseLine(line.value, num)
  {
    match line
    case None => None
    case Some(l) => ParseLine(l, num)
  }

  /** Trimming code followed by a non-blank tail trims only the front of the code and the back of the tail. */
  lemma {:induction false} TrimAround(code: string, rest: string)
    requires !IsBlank(code) && !IsBlank(rest)
    ensures Trim(code + rest) == TrimStart(code) + TrimEnd(rest)
  {
    TrimStartAppend(code, rest);
    TrimEndAppend(TrimStart(code), rest);
  }

  /** The first ';' of upper-cased text sits where the comment starts. */
  lemma {:induction false} FirstSemicolon(ts: string, te: string)
    requires ';' !in ts && te != [] && te[0] == ';'
    ensures IndexOf(ToUpper(ts + te), ';') == |ts|
    ensures ToUpper(ts + te)[..|ts|] == ToUpper(ts)
  {
    var u := ToUpper(ts + te);
    ToUpperAppend(ts, te);
    UpperKeepsSemicolon(ts);
    assert u[|ts|] == ';';
    assert u[..|ts|] == ToUpper(ts);
  }

  /** The code part of a line that holds no ';' is the normalized line. */
  lemma {:induction false} CodeTextNoComment(code: string)
    requires ';' !in code
    ensures CodeText(code) == Normalized(code)
  {
    TrimKeepsChars(code, ';');
    UpperKeepsSemicolon(Trim(code));
  }

  /** The code part of a line whose trimmed form is code followed by a ';' comment. */
  lemma {:induction false} CodeTextOfCommented(line: string, ts: string, te: string)
    requires Trim(line) == ts + te
    requires ';' !in ts && te != [] && te[0] == ';'
    ensures CodeText(line) == ToUpper(Trim(ts))
  {
    FirstSemicolon(ts, te);
    TrimToUpper(ts);
  }

  /**
    What `ParseLine` gives: nothing for blank lines and comment lines, a command exactly when the
    code part is not empty, and then the code part as its text, the leading G/M token as its
    letter and number, and the first X, Y, Z and F words as its parameters.
  */
  lemma ParseLineMeaning(line: string, num: string -> real)
    ensures var r := ParseLine(line, num);
      && (IsBlank(line) ==> r.None?)
      && (IsCommentLine(line) ==> r.None?)
      && (r.Some? <==> !IsCommentLine(line) && CodeText(line) != [])
      && (r.Some? ==> r.value.text == CodeText(line))
      && (r.Some? ==> var c := r.value;
        && (c.letter.Some? <==> |c.text| >= 2 && (c.text[0] == 'G' || c.text[0] == 'M') && IsDigit(c.text[1]))
        && (c.letter == Some(G) <==> c.letter.Some? && c.text[0] == 'G')
        && (c.letter.None? ==> c.number == 0)
        && (c.letter.Some? ==> CommandToken(c.text).Some? && c.number == CommandToken(c.text).value.1)
        && c.x == ExtractParameter(c.text, 'X', num)
        && c.y == ExtractParameter(c.text, 'Y', num)
        && c.z == ExtractParameter(c.text, 'Z', num)
        && c.f == ExtractParameter(c.text, 'F', num))
  {
  }

  /** A trailing `;` comment changes neither the comment test nor the code part of a line. */
  lemma {:induction false} CommentCut(code: string, comment: string)
    requires ';' !in code && !IsBlank(code)
    ensures IsCommentLine(code + (";" + comment)) <==> IsCommentLine(code)
    ensures CodeText(code + (";" + comment)) == CodeText(code)
  {
    var rest := ";" + comment;
    assert !IsBlank(rest) by { assert !IsWhiteSpace(rest[0]); }
    TrimAround(code, rest);
    TrimEndKeepsFirst(rest);
    CommentCutCode(code, rest, TrimStart(code), TrimEnd(rest));
    CommentCutTest(code, rest, TrimStart(code), TrimEnd(rest));
  }

  lemma {:induction false} CommentCutCode(code: string, rest: string, ts: string, te: string)
    requires ';' !in code && ts == TrimStart(code)
    requires Trim(code + rest) == ts + te && te != [] && te[0] == ';'
    ensures CodeText(code + rest) == CodeText(code)
  {
    assert ';' !in ts by { assert forall i :: 0 <= i < |ts| ==> ts[i] == code[|code| - |ts| + i]; }
    CodeTextOfCommented(code + rest, ts, te);
    TrimStartIdempotent(code);
    CodeTextNoComment(code);
  }

  lemma {:induction false} CommentCutTest(code: string, rest: string, ts: string, te: string)
    requires !IsBlank(code) && ts == TrimStart(code)
    requires Trim(code + rest) == ts + te
    ensures IsCommentLine(code + rest) <==> IsCommentLine(code)
  {
    TrimStartNonBlank(code);
    TrimEndKeepsFirst(ts);
    NormalizedStart(code + rest, ts[0]);
    NormalizedStart(code, ts[0]);
    SameCommentTest(code + rest, code);
  }

  /** The normalized line starts with the upper-cased first character of its trimmed form. */
  lemma NormalizedStart(line: string, c: char)
    requires Trim(line) != [] && Trim(line)[0] == c
    ensures Normalized(line) != [] && Normalized(line)[0] == ToUpperChar(c)
  {
  }

  lemma SameCommentTest(a: string, b: string)
    requires Normalized(a) != [] && Normalized(b) != [] && Normalized(a)[0] == Normalized(b)[0]
    ensures IsCommentLine(a) <==> IsCommentLine(b)
  {
  }

  /**
    A line holding code followed by a `;` comment parses exactly like the code alone; when the
    code is blank, the whole line is a comment and gives no command.
  */
  lemma {:induction false} TrailingCommentIgnored(code: string, comment: string, num: string -> real)
    requires ';' !in code
    ensures ParseLine(code + ";" + comment, num) == ParseLine(code, num)
  {
    var rest := ";" + comment;
    assert code + ";" + comment == code + rest;
    if IsBlank(code) {
      BlankBeforeComment(code, rest);
    } else {
      assert !IsBlank(code + rest) by {
        BlankAppend(code, rest);
      }
      CommentCut(code, comment);
      SameParse(code + rest, code, num);
    }
  }

  /** Blank text in front of a ';' makes the whole line a comment. */
  lemma {:induction false} BlankBeforeComment(code: string, rest: string)
    requires IsBlank(code) && rest != [] && rest[0] == ';'
    ensures IsCommentLine(code + rest)
  {
    TrimStartBlankPrefix(code, rest);
    assert TrimStart(rest) == rest;
    assert !IsBlank(rest) by { assert !IsWhiteSpace(rest[0]); }
    TrimEndKeepsFirst(rest);
    NormalizedStart(code + rest, ';');
  }

  /** `ParseLine` looks at a line only through its blank test, its comment test and its code part. */
  lemma SameParse(a: string, b: string, num: string -> real)
    requires IsBlank(a) == IsBlank(b) && IsCommentLine(a) == IsCommentLine(b) && CodeText(a) == CodeText(b)
    ensures ParseLine(a, num) == ParseLine(b, num)
  {
  }
}
