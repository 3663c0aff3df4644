/** Text as the platform cuts, splits and reads it. */
module Text {

  datatype Option<+T> = None | Some(value: T)

  // ----- decimal integers -----------------------------------------------------------------------

  function Digit(d: nat): char
    requires d < 10
  {
    '0' + d as char
  }

  predicate IsDigit(c: char) { '0' <= c <= '9' }

  function Decimal(n: nat): string {
    if n < 10 then [Digit(n)] else Decimal(n / 10) + [Digit(n % 10)]
  }

  /** strconv.FormatInt in base 10. */
  function FormatInt(n: int): string { if n < 0 then "-" + Decimal(-n) else Decimal(n) }

  function DigitsValue(s: string): Option<nat> {
    if |s| == 0 then None
    else if !IsDigit(s[|s| - 1]) then None
    else
      var last := (s[|s| - 1] - '0') as nat;
      if |s| == 1 then Some(last) else
      match DigitsValue(s[..|s| - 1])
      case None => None
      case Some(n) => Some(10 * n + last)
  }

  const MAX_INT64 := 0x7fff_ffff_ffff_ffff

  predicate IsInt64(n: int) { -MAX_INT64 - 1 <= n <= MAX_INT64 }

  /** strconv.ParseInt in base 10 of 64 bits: an optional sign and digits, none out of range. */
  function ParseInt(s: string): Option<int> {
    var signed := |s| > 0 && (s[0] == '-' || s[0] == '+');
    match DigitsValue(if signed then s[1..] else s)
    case None => None
    case Some(n) =>
      var value := (if signed && s[0] == '-' then -1 else 1) * n;
      if IsInt64(value) then Some(value) else None
  }

  lemma {:induction false} DecimalDigits(n: nat)
    ensures |Decimal(n)| > 0 && DigitsValue(Decimal(n)) == Some(n)
    ensures forall i :: 0 <= i < |Decimal(n)| ==> IsDigit(Decimal(n)[i])
  {
    if n >= 10 {
      DecimalDigits(n / 10);
      var s := Decimal(n);
      assert s[..|s| - 1] == Decimal(n / 10);
    }
  }

  /** What FormatInt writes ParseInt reads back, and it is a sign and digits alone. */
  lemma FormatParse(n: int)
    requires IsInt64(n)
    ensures ParseInt(FormatInt(n)) == Some(n) && |FormatInt(n)| > 0
    ensures forall i :: 0 <= i < |FormatInt(n)| ==> IsDigit(FormatInt(n)[i]) || FormatInt(n)[i] == '-'
  {
    DecimalDigits(if n < 0 then -n else n);
    if n < 0 {
      assert FormatInt(n)[1..] == Decimal(-n);
    }
  }

  /** A number as FormatInt writes it: no plus sign, no zero in front and none negative. */
  predicate Canonical(s: string) {
    var digits := if |s| > 0 && s[0] == '-' then s[1..] else s;
    |digits| > 0 && IsDigit(digits[0]) && (digits[0] != '0' || s == "0")
  }

  lemma {:induction false} DecimalOfDigits(d: string)
    requires DigitsValue(d).Some? && (d[0] != '0' || |d| == 1)
    ensures Decimal(DigitsValue(d).value) == d && (d[0] != '0' ==> DigitsValue(d).value > 0)
  {
    var n := |d| - 1;
    var last := (d[n] - '0') as nat;
    assert Digit(last) == d[n];
    if n > 0 {
      DecimalOfDigits(d[..n]);
      var v := DigitsValue(d[..n]).value;
      assert (10 * v + last) / 10 == v && (10 * v + last) % 10 == last;
      assert d == d[..n] + [d[n]];
    }
  }

  lemma {:induction false} DecimalFirst(n: nat)
    ensures |Decimal(n)| > 0 && IsDigit(Decimal(n)[0]) && (Decimal(n)[0] == '0' ==> n == 0)
  {
    if n >= 10 { DecimalFirst(n / 10); }
  }

  lemma {:induction false} DigitsAreDigits(d: string)
    requires DigitsValue(d).Some?
    ensures |d| > 0 && IsDigit(d[0])
  {
    if |d| > 1 { DigitsAreDigits(d[..|d| - 1]); }
  }

  lemma DigitsWrittenBack(d: string)
    requires DigitsValue(d).Some?
    ensures |d| > 0 && IsDigit(d[0]) && (Decimal(DigitsValue(d).value) == d <==> d[0] != '0' || |d| == 1)
  {
    hide DigitsValue;
    DigitsAreDigits(d);
    DecimalFirst(DigitsValue(d).value);
    if d[0] != '0' || |d| == 1 { DecimalOfDigits(d); }
  }

  /** What ParseInt read FormatInt writes back, exactly when it was written so. */
  lemma FormatUndoesParse(s: string)
    requires ParseInt(s).Some?
    ensures FormatInt(ParseInt(s).value) == s <==> Canonical(s)
  {
    hide Decimal, DigitsValue;
    var n := ParseInt(s).value;
    DigitsAreDigits(if |s| > 0 && (s[0] == '-' || s[0] == '+') then s[1..] else s);
    if s[0] == '-' {
      NegativeWrittenBack(s, n);
    } else if s[0] == '+' {
      DecimalFirst(n);
    } else {
      DigitsWrittenBack(s);
      assert |s| == 1 && s[0] == '0' ==> s == "0";
    }
  }

  lemma NegativeWrittenBack(s: string, n: int)
    requires |s| > 0 && s[0] == '-' && ParseInt(s) == Some(n)
    ensures FormatInt(n) == s <==> Canonical(s)
  {
    hide Decimal, DigitsValue;
    var digits := s[1..];
    DigitsWrittenBack(digits);
    assert s == "-" + digits;
    if n == 0 {
      DecimalFirst(0);
      NothingIsZero(digits);
    } else {
      assert ("-" + Decimal(-n))[1..] == Decimal(-n);
      NothingIsZero(digits);
    }
  }

  /** One digit is zero only as it is written. */
  lemma NothingIsZero(d: string)
    requires DigitsValue(d).Some?
    ensures |d| == 1 && d[0] == '0' ==> DigitsValue(d).value == 0
    ensures d[0] != '0' ==> DigitsValue(d).value > 0
  {
    if d[0] != '0' { DecimalOfDigits(d); }
  }

  // ----- cutting --------------------------------------------------------------------------------

  /** strings.Cut at one character: what is before its first place and after, and whether it is there. */
  datatype Parts = Parts(before: string, after: string, found: bool)

  function Cut(s: string, sep: char): Parts {
    if |s| == 0 then Parts("", "", false)
    else if s[0] == sep then Parts("", s[1..], true)
    else
      var rest := Cut(s[1..], sep);
      Parts([s[0]] + rest.before, rest.after, rest.found)
  }

  lemma {:induction false} CutAt(a: string, sep: char, b: string)
    requires sep !in a
    ensures Cut(a + [sep] + b, sep) == Parts(a, b, true)
  {
    var s := a + [sep] + b;
    if |a| == 0 {
      assert s[1..] == b;
    } else {
      assert s[1..] == a[1..] + [sep] + b;
      CutAt(a[1..], sep, b);
      assert [a[0]] + a[1..] == a;
    }
  }

  lemma {:induction false} CutNowhere(s: string, sep: char)
    requires sep !in s
    ensures Cut(s, sep) == Parts(s, "", false)
  {
    if |s| > 0 {
      CutNowhere(s[1..], sep);
      assert [s[0]] + s[1..] == s;
    }
  }

  /** What was cut is what there was. */
  lemma {:induction false} CutInverse(s: string, sep: char)
    ensures var c := Cut(s, sep);
            sep !in c.before && (if c.found then s == c.before + [sep] + c.after else s == c.before && sep !in s)
  {
    if |s| > 0 && s[0] != sep {
      CutInverse(s[1..], sep);
      assert s == [s[0]] + s[1..];
    }
  }

  // ----- lines and words ------------------------------------------------------------------------

  /** One more character at the end of lines. */
  function GrowLines(lines: seq<string>, c: char): (grown: seq<string>)
    requires |lines| > 0
    ensures |grown| > 0
  {
    if c == '\n' then lines + [""]
    else lines[..|lines| - 1] + [lines[|lines| - 1] + [c]]
  }

  /** Text split at newlines. */
  function Lines(s: string): (lines: seq<string>)
    ensures |lines| > 0
  {
    if |s| == 0 then [""] else GrowLines(Lines(s[..|s| - 1]), s[|s| - 1])
  }

  lemma GrowBehind(a: seq<string>, b: seq<string>, c: char)
    requires |b| > 0
    ensures GrowLines(a + b, c) == a + GrowLines(b, c)
  {
    assert (a + b)[..|a| + |b| - 1] == a + b[..|b| - 1];
  }

  /** The lines of two texts with a newline between them. */
  lemma {:induction false} LinesOfTwo(s: string, t: string)
    ensures Lines(s + "\n" + t) == Lines(s) + Lines(t)
  {
    hide GrowLines;
    var all := s + "\n" + t;
    if |t| == 0 {
      assert all[..|all| - 1] == s && all[|all| - 1] == '\n';
      GrowNewline(Lines(s));
    } else {
      var n := |t| - 1;
      assert all[..|all| - 1] == s + "\n" + t[..n] && all[|all| - 1] == t[n];
      LinesOfTwo(s, t[..n]);
      GrowBehind(Lines(s), Lines(t[..n]), t[n]);
    }
  }

  lemma GrowNewline(lines: seq<string>)
    requires |lines| > 0
    ensures GrowLines(lines, '\n') == lines + [""]
  {
  }

  lemma GrowOther(line: string, c: char)
    requires c != '\n'
    ensures GrowLines([line], c) == [line + [c]]
  {
  }

  /** A text without a newline is one line. */
  lemma {:induction false} LinesOfOne(line: string)
    requires '\n' !in line
    ensures Lines(line) == [line]
  {
    hide GrowLines;
    if |line| > 0 {
      var n := |line| - 1;
      LinesOfOne(line[..n]);
      GrowOther(line[..n], line[n]);
      assert line[..n] + [line[n]] == line;
    }
  }

  /** unicode.IsSpace. */
  predicate IsSpace(c: char) {
    || '\t' <= c <= '\r' || c == ' ' || c == '\U{85}' || c == '\U{a0}' || c == '\U{1680}'
    || '\U{2000}' <= c <= '\U{200a}' || c == '\U{2028}' || c == '\U{2029}' || c == '\U{202f}'
    || c == '\U{205f}' || c == '\U{3000}'
  }

  function TrimLeft(s: string): string {
    if |s| > 0 && IsSpace(s[0]) then TrimLeft(s[1..]) else s
  }

  function TrimRight(s: string): string {
    if |s| > 0 && IsSpace(s[|s| - 1]) then TrimRight(s[..|s| - 1]) else s
  }

  function TrimSpace(s: string): string { TrimRight(TrimLeft(s)) }

  predicate NoSpaces(s: string) { forall i :: 0 <= i < |s| ==> !IsSpace(s[i]) }

  /** How long the word a text starts with is. */
  function WordLength(s: string): (n: nat)
    ensures n <= |s|
  {
    if |s| == 0 || IsSpace(s[0]) then 0 else 1 + WordLength(s[1..])
  }

  /** strings.Fields. */
  function Fields(s: string): seq<string> {
    if |s| == 0 then []
    else if IsSpace(s[0]) then Fields(s[1..])
    else [s[..WordLength(s)]] + Fields(s[WordLength(s)..])
  }

  lemma {:induction false} WordLengthIs(word: string, rest: string)
    requires NoSpaces(word) && (rest == "" || IsSpace(rest[0]))
    ensures WordLength(word + rest) == |word|
  {
    if |word| > 0 {
      assert (word + rest)[1..] == word[1..] + rest;
      WordLengthIs(word[1..], rest);
    } else {
      assert word + rest == rest;
    }
  }

  lemma FieldsWord(word: string, rest: string)
    requires |word| > 0 && NoSpaces(word) && (rest == "" || IsSpace(rest[0]))
    ensures Fields(word + rest) == [word] + Fields(rest)
  {
    WordLengthIs(word, rest);
    assert (word + rest)[..|word|] == word && (word + rest)[|word|..] == rest;
  }

  lemma FieldsSpace(rest: string)
    ensures Fields(" " + rest) == Fields(rest)
  {
    assert (" " + rest)[1..] == rest;
  }
}
