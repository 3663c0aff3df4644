/**
 A string as Python's json.dumps writes it, and a reader of the strings of section 7 of RFC 8259. A
 string is its code points, which are Unicode scalar values: a reader never gets half a pair.
 */
module PythonStrings {
  import opened Text

  function HexDigit(n: int): char
    requires 0 <= n < 16
  {
    "0123456789abcdef"[n]
  }

  function Hex4(n: int): string
    requires 0 <= n < 0x10000
  {
    [HexDigit(n / 0x10 / 0x10 / 0x10), HexDigit(n / 0x10 / 0x10 % 0x10), HexDigit(n / 0x10 % 0x10), HexDigit(n % 0x10)]
  }

  function Escape(c: char): string {
    var r := c as int;
    if c == '"' then "\\\""
    else if c == '\\' then "\\\\"
    else if c == '\n' then "\\n"
    else if c == '\r' then "\\r"
    else if c == '\t' then "\\t"
    else if r == 0x08 then "\\b"
    else if r == 0x0c then "\\f"
    else if r < 0x20 || (r > 0x7e && r <= 0xffff) then "\\u" + Hex4(r)
    else if r > 0xffff then
      "\\u" + Hex4(0xd800 + (r - 0x10000) / 0x400) + ("\\u" + Hex4(0xdc00 + (r - 0x10000) % 0x400))
    else [c]
  }

  function Escaped(s: string): string {
    if |s| == 0 then "" else Escape(s[0]) + Escaped(s[1..])
  }

  function Quoted(s: string): string { "\"" + (Escaped(s) + "\"") }

  lemma {:induction false} EscapedAppend(s: string, c: char)
    ensures Escaped(s + [c]) == Escaped(s) + Escape(c)
  {
    hide Escape;
    if |s| == 0 {
      assert s + [c] == [c] && [c][1..] == "";
    } else {
      assert (s + [c])[1..] == s[1..] + [c];
      EscapedAppend(s[1..], c);
    }
  }

  method WritePythonString(b: string, s: string) returns (out: string)
    ensures out == b + Quoted(s)
  {
    hide Escape, Escaped;
    out := b + "\"";
    assert Escaped("") == "" by { NothingEscaped(); }
    for i := 0 to |s|
      invariant out == b + "\"" + Escaped(s[..i])
    {
      assert s[..i + 1] == s[..i] + [s[i]];
      EscapedAppend(s[..i], s[i]);
      var written := WriteRune(s[i]);
      out := out + written;
    }
    assert s[..|s|] == s;
    out := out + "\"";
  }

  lemma NothingEscaped()
    ensures Escaped("") == ""
  {
  }

  method WriteRune(c: char) returns (written: string)
    ensures written == Escape(c)
  {
    hide Hex4;
    var r := c as int;
    if c == '"' {
      written := "\\\"";
    } else if c == '\\' {
      written := "\\\\";
    } else if c == '\n' {
      written := "\\n";
    } else if c == '\r' {
      written := "\\r";
    } else if c == '\t' {
      written := "\\t";
    } else if r == 0x08 {
      written := "\\b";
    } else if r == 0x0c {
      written := "\\f";
    } else if r < 0x20 || (r > 0x7e && r <= 0xffff) {
      written := "\\u" + Hex4(r);
    } else if r > 0xffff {
      r := r - 0x10000;
      written := "\\u" + Hex4(0xd800 + r / 0x400) + ("\\u" + Hex4(0xdc00 + r % 0x400));
    } else {
      written := [c];
    }
  }

  // ----- reading --------------------------------------------------------------------------------

  function HexValue(c: char): (r: Option<int>)
    ensures r.Some? ==> 0 <= r.value < 16
  {
    if '0' <= c <= '9' then Some(c as int - '0' as int)
    else if 'a' <= c <= 'f' then Some(c as int - 'a' as int + 10)
    else if 'A' <= c <= 'F' then Some(c as int - 'A' as int + 10)
    else None
  }

  function ReadHex4(s: string): (r: Option<int>)
    ensures r.Some? ==> |s| >= 4 && 0 <= r.value < 0x10000
  {
    if |s| < 4 then None else
    var a, b, c, d := HexValue(s[0]), HexValue(s[1]), HexValue(s[2]), HexValue(s[3]);
    if a.Some? && b.Some? && c.Some? && d.Some?
    then Some(a.value * 0x1000 + b.value * 0x100 + c.value * 0x10 + d.value) else None
  }

  /** One character of a string and how much of the text it took. */
  datatype Rune = Rune(c: char, taken: nat)

  function ReadUnicode(s: string): (r: Option<Rune>)
    ensures r.Some? ==> 0 < r.value.taken <= |s|
  {
    match ReadHex4(s)
    case None => None
    case Some(high) =>
      if !(0xd800 <= high < 0xe000) then Some(Rune(high as char, 4))
      else if high >= 0xdc00 || |s| < 6 || s[4] != '\\' || s[5] != 'u' then None
      else
        match ReadHex4(s[6..])
        case None => None
        case Some(low) =>
          if 0xdc00 <= low < 0xe000
          then Some(Rune((0x10000 + (high - 0xd800) * 0x400 + (low - 0xdc00)) as char, 10)) else None
  }

  function Short(c: char): Option<char> {
    if c == '"' || c == '\\' || c == '/' then Some(c)
    else if c == 'n' then Some('\n')
    else if c == 'r' then Some('\r')
    else if c == 't' then Some('\t')
    else if c == 'b' then Some(0x08 as char)
    else if c == 'f' then Some(0x0c as char)
    else None
  }

  function ReadRune(s: string): (r: Option<Rune>)
    ensures r.Some? ==> 0 < r.value.taken <= |s|
  {
    if |s| == 0 || s[0] as int < 0x20 then None
    else if s[0] != '\\' then Some(Rune(s[0], 1))
    else if |s| < 2 then None
    else if s[1] == 'u' then
      match ReadUnicode(s[2..])
      case None => None
      case Some(rune) => Some(Rune(rune.c, 2 + rune.taken))
    else
      match Short(s[1])
      case None => None
      case Some(c) => Some(Rune(c, 2))
  }

  datatype Read<T> = Read(value: T, rest: string)

  /** The characters up to the closing quote, and what follows it. */
  function ReadChars(s: string): (r: Option<Read<string>>)
    ensures r.Some? ==> |r.value.rest| < |s|
  {
    if |s| > 0 && s[0] == '"' then Some(Read("", s[1..])) else
    match ReadRune(s)
    case None => None
    case Some(rune) =>
      match ReadChars(s[rune.taken..])
      case None => None
      case Some(more) => Some(Read([rune.c] + more.value, more.rest))
  }

  // ----- what is written is read back -----------------------------------------------------------

  lemma DigitRead(n: int)
    requires 0 <= n < 16
    ensures HexValue(HexDigit(n)) == Some(n)
  {
  }

  lemma HexRead(n: int, rest: string)
    requires 0 <= n < 0x10000
    ensures ReadHex4(Hex4(n) + rest) == Some(n)
  {
    hide HexDigit, HexValue;
    DigitRead(n / 0x10 / 0x10 / 0x10);
    DigitRead(n / 0x10 / 0x10 % 0x10);
    DigitRead(n / 0x10 % 0x10);
    DigitRead(n % 0x10);
    var s := Hex4(n) + rest;
    assert s[0] == HexDigit(n / 0x10 / 0x10 / 0x10) && s[1] == HexDigit(n / 0x10 / 0x10 % 0x10);
    assert s[2] == HexDigit(n / 0x10 % 0x10) && s[3] == HexDigit(n % 0x10);
    HexDigitsOf(n);
  }

  lemma HexDigitsOf(n: int)
    requires 0 <= n < 0x10000
    ensures n == n / 0x10 / 0x10 / 0x10 * 0x1000 + n / 0x10 / 0x10 % 0x10 * 0x100 + n / 0x10 % 0x10 * 0x10 + n % 0x10
  {
    var a, b := n / 0x10, n / 0x10 / 0x10;
    assert n == a * 0x10 + n % 0x10 && a == b * 0x10 + a % 0x10 && b == b / 0x10 * 0x10 + b % 0x10;
  }

  lemma UnitRead(c: char, rest: string)
    requires c as int <= 0xffff
    ensures ReadUnicode(Hex4(c as int) + rest) == Some(Rune(c, 4))
  {
    hide Hex4, ReadHex4;
    HexRead(c as int, rest);
    assert (c as int) as char == c;
  }

  lemma PairRead(c: char, rest: string)
    requires c as int > 0xffff
    ensures var r := c as int - 0x10000;
            ReadUnicode(Hex4(0xd800 + r / 0x400) + ("\\u" + Hex4(0xdc00 + r % 0x400)) + rest) == Some(Rune(c, 10))
  {
    hide ReadHex4, HexDigit;
    var r := c as int - 0x10000;
    var high, low := 0xd800 + r / 0x400, 0xdc00 + r % 0x400;
    var s := Hex4(high) + ("\\u" + Hex4(low)) + rest;
    assert s == Hex4(high) + ("\\u" + Hex4(low) + rest);
    HexRead(high, "\\u" + Hex4(low) + rest);
    assert s[6..] == Hex4(low) + rest;
    HexRead(low, rest);
    assert s[4] == '\\' && s[5] == 'u';
    assert 0x10000 + (high - 0xd800) * 0x400 + (low - 0xdc00) == c as int;
    assert (c as int) as char == c;
  }

  lemma RuneRead(c: char, rest: string)
    ensures ReadRune(Escape(c) + rest) == Some(Rune(c, |Escape(c)|)) && Escape(c)[0] != '"'
  {
    hide ReadUnicode, Hex4;
    var r := c as int;
    var s := Escape(c) + rest;
    if c == '"' || c == '\\' || c == '\n' || c == '\r' || c == '\t' || r == 0x08 || r == 0x0c {
      assert r == 0x08 ==> c == 0x08 as char;
      assert r == 0x0c ==> c == 0x0c as char;
      assert s[0] == '\\' && s[1] == Escape(c)[1];
    } else if r < 0x20 || (r > 0x7e && r <= 0xffff) {
      FourLong(r);
      assert s[0] == '\\' && s[1] == 'u' && s[2..] == Hex4(r) + rest;
      UnitRead(c, rest);
    } else if r > 0xffff {
      var high, low := 0xd800 + (r - 0x10000) / 0x400, 0xdc00 + (r - 0x10000) % 0x400;
      FourLong(high);
      FourLong(low);
      assert s[0] == '\\' && s[1] == 'u' && s[2..] == Hex4(high) + ("\\u" + Hex4(low)) + rest;
      PairRead(c, rest);
    } else {
      assert s[0] == c;
    }
  }

  lemma FourLong(n: int)
    requires 0 <= n < 0x10000
    ensures |Hex4(n)| == 4
  {
  }

  lemma {:induction false} CharsRead(s: string, rest: string)
    ensures ReadChars(Escaped(s) + "\"" + rest) == Some(Read(s, rest))
  {
    hide Escape, ReadRune;
    var text := Escaped(s) + "\"" + rest;
    if |s| == 0 {
      assert text[0] == '"' && text[1..] == rest;
    } else {
      var more := Escaped(s[1..]) + "\"" + rest;
      assert text == Escape(s[0]) + more;
      RuneRead(s[0], more);
      CharsRead(s[1..], rest);
      assert text[|Escape(s[0])|..] == more;
      assert text[0] == Escape(s[0])[0];
      assert s == [s[0]] + s[1..];
    }
  }

  /** Characters beyond ASCII are written as Python writes them: in four lower-case hexadecimal digits, a
      pair of them past the basic plane; every other escape is the short one. */
  lemma EscapeIsPythons(c: char)
    ensures var e, r := Escape(c), c as int;
            && (r > 0x7e ==> |e| == (if r > 0xffff then 12 else 6) && e[0] == '\\' && e[1] == 'u'
                             && forall i :: 2 <= i < 6 ==> LowerHex(e[i]))
            && (r > 0xffff ==> e[6] == '\\' && e[7] == 'u' && forall i :: 8 <= i < 12 ==> LowerHex(e[i]))
            && (0x20 <= r <= 0x7e && c != '"' && c != '\\' ==> e == [c])
  {
    hide HexDigit;
    var r := c as int;
    if r > 0xffff {
      HexIsLower(0xd800 + (r - 0x10000) / 0x400);
      HexIsLower(0xdc00 + (r - 0x10000) % 0x400);
    } else if r > 0x7e {
      HexIsLower(r);
    }
  }

  predicate LowerHex(c: char) { '0' <= c <= '9' || 'a' <= c <= 'f' }

  lemma HexIsLower(n: int)
    requires 0 <= n < 0x10000
    ensures |Hex4(n)| == 4 && forall i :: 0 <= i < 4 ==> LowerHex(Hex4(n)[i])
  {
    hide HexDigit;
    DigitIsLower(n / 0x10 / 0x10 / 0x10);
    DigitIsLower(n / 0x10 / 0x10 % 0x10);
    DigitIsLower(n / 0x10 % 0x10);
    DigitIsLower(n % 0x10);
  }

  lemma DigitIsLower(n: int)
    requires 0 <= n < 16
    ensures LowerHex(HexDigit(n))
  {
  }

  // ----- only printable ASCII -------------------------------------------------------------------

  predicate Printable(s: string) { forall i :: 0 <= i < |s| ==> ' ' <= s[i] <= '~' }

  lemma DigitPrintable(n: int)
    requires 0 <= n < 16
    ensures ' ' <= HexDigit(n) <= '~'
  {
  }

  lemma HexPrintable(n: int)
    requires 0 <= n < 0x10000
    ensures Printable(Hex4(n))
  {
    hide HexDigit;
    DigitPrintable(n / 0x10 / 0x10 / 0x10);
    DigitPrintable(n / 0x10 / 0x10 % 0x10);
    DigitPrintable(n / 0x10 % 0x10);
    DigitPrintable(n % 0x10);
  }

  lemma EscapePrintable(c: char)
    ensures Printable(Escape(c))
  {
    hide Hex4;
    var r := c as int;
    if r < 0x20 || (r > 0x7e && r <= 0xffff) {
      HexPrintable(r);
    } else if r > 0xffff {
      HexPrintable(0xd800 + (r - 0x10000) / 0x400);
      HexPrintable(0xdc00 + (r - 0x10000) % 0x400);
    }
  }

  lemma {:induction false} EscapedPrintable(s: string)
    ensures Printable(Escaped(s))
  {
    hide Escape;
    if |s| > 0 {
      EscapePrintable(s[0]);
      EscapedPrintable(s[1..]);
    }
  }
}
