/**
 A text as it stands in a JSON string where only what must be is escaped, and the two line separators
 besides, and the bytes of its UTF-8.
 */
module JsonBytes {
  import opened Text
  import opened PythonStrings

  function JsonEscape(c: char): string {
    if c == '"' then "\\\""
    else if c == '\\' then "\\\\"
    else if c == '\n' then "\\n"
    else if c == '\t' then "\\t"
    else if c == '\U{2028}' then "\\u2028"
    else if c == '\U{2029}' then "\\u2029"
    else [c]
  }

  function JsonText(s: string): string {
    if |s| == 0 then "" else JsonEscape(s[0]) + JsonText(s[1..])
  }

  // ----- UTF-8 ----------------------------------------------------------------------------------

  /** The bytes of a character, the high bits of the first saying how many there are. */
  function Utf8(c: char): seq<int> {
    var r := c as int;
    if r < 0x80 then [r]
    else if r < 0x800 then [0xc0 + r / 0x40, 0x80 + r % 0x40]
    else if r < 0x10000 then [0xe0 + r / 0x40 / 0x40, 0x80 + r / 0x40 % 0x40, 0x80 + r % 0x40]
    else [0xf0 + r / 0x40 / 0x40 / 0x40, 0x80 + r / 0x40 / 0x40 % 0x40, 0x80 + r / 0x40 % 0x40, 0x80 + r % 0x40]
  }

  function Utf8Of(s: string): seq<int> {
    if |s| == 0 then [] else Utf8(s[0]) + Utf8Of(s[1..])
  }

  /** How many bytes the character that starts with a byte has. */
  function LengthFrom(first: int): nat {
    if first < 0x80 then 1 else if first < 0xe0 then 2 else if first < 0xf0 then 3 else 4
  }

  function Tail(b: int): int { b - 0x80 }

  /** The code point of one character's bytes. */
  function CodePoint(b: seq<int>): int
    requires |b| >= 1 && |b| >= LengthFrom(b[0])
  {
    if b[0] < 0x80 then b[0]
    else if b[0] < 0xe0 then (b[0] - 0xc0) * 0x40 + Tail(b[1])
    else if b[0] < 0xf0 then ((b[0] - 0xe0) * 0x40 + Tail(b[1])) * 0x40 + Tail(b[2])
    else (((b[0] - 0xf0) * 0x40 + Tail(b[1])) * 0x40 + Tail(b[2])) * 0x40 + Tail(b[3])
  }

  /** Every byte is one, those after the first are continuation bytes, and the first says how many they
      are and with them which character it is. */
  lemma Utf8Read(c: char)
    ensures var b := Utf8(c);
            && 1 <= |b| == LengthFrom(b[0]) && CodePoint(b) == c as int
            && (forall i :: 0 <= i < |b| ==> 0 <= b[i] < 0x100) && (forall i :: 1 <= i < |b| ==> 0x80 <= b[i] < 0xc0)
            && !(0x80 <= b[0] < 0xc0)
  {
    var r := c as int;
    var a, b := r / 0x40, r / 0x40 / 0x40;
    assert r == a * 0x40 + r % 0x40 && a == b * 0x40 + a % 0x40 && b == b / 0x40 * 0x40 + b % 0x40;
  }

  lemma {:induction false} Utf8Both(s: string, t: string)
    ensures Utf8Of(s + t) == Utf8Of(s) + Utf8Of(t)
  {
    hide Utf8;
    if |s| == 0 {
      assert s + t == t;
    } else {
      assert (s + t)[1..] == s[1..] + t;
      Utf8Both(s[1..], t);
    }
  }

  lemma {:induction false} JsonTextAppend(s: string, c: char)
    ensures JsonText(s + [c]) == JsonText(s) + JsonEscape(c)
  {
    hide JsonEscape;
    if |s| == 0 {
      assert s + [c] == [c] && [c][1..] == "";
    } else {
      assert (s + [c])[1..] == s[1..] + [c];
      JsonTextAppend(s[1..], c);
    }
  }

  /** The bytes of a text in JSON, between its quotes. */
  function Bytes(s: string): seq<int> { Utf8Of(JsonText(s)) }

  lemma BytesAppend(s: string, c: char)
    ensures Bytes(s + [c]) == Bytes(s) + Utf8Of(JsonEscape(c))
  {
    hide JsonText, JsonEscape, Utf8Of;
    JsonTextAppend(s, c);
    Utf8Both(JsonText(s), JsonEscape(c));
  }

  lemma {:induction false} AsciiBytes(s: string)
    requires forall i :: 0 <= i < |s| ==> s[i] as int < 0x80
    ensures |Utf8Of(s)| == |s|
  {
    if |s| > 0 { AsciiBytes(s[1..]); }
  }

  lemma OneBytes(c: char)
    ensures Utf8Of([c]) == Utf8(c)
  {
    hide Utf8;
    assert [c][1..] == "" && Utf8(c) + [] == Utf8(c);
  }

  /** The bytes a character takes: two where it has a short escape, six where a long one, and otherwise
      its own. */
  lemma EscapeBytes(c: char)
    ensures |Utf8Of(JsonEscape(c))| ==
            if c == '"' || c == '\\' || c == '\n' || c == '\t' then 2
            else if c == '\U{2028}' || c == '\U{2029}' then 6
            else |Utf8(c)|
  {
    hide Utf8, Utf8Of;
    if c == '"' || c == '\\' || c == '\n' || c == '\t' || c == '\U{2028}' || c == '\U{2029}' {
      AsciiBytes(JsonEscape(c));
    } else {
      OneBytes(c);
    }
  }

  // ----- it reads back --------------------------------------------------------------------------

  lemma SeparatorRead(rest: string)
    ensures ReadRune("\\u2028" + rest) == Some(Rune('\U{2028}', 6)) && ReadRune("\\u2029" + rest) == Some(Rune('\U{2029}', 6))
  {
    var s, t := "\\u2028" + rest, "\\u2029" + rest;
    assert s[2..][0] == '2' && s[2..][1] == '0' && s[2..][2] == '2' && s[2..][3] == '8';
    assert t[2..][0] == '2' && t[2..][1] == '0' && t[2..][2] == '2' && t[2..][3] == '9';
    assert ReadHex4(s[2..]) == Some(0x2028) && ReadHex4(t[2..]) == Some(0x2029);
  }

  lemma EscapeRead(c: char, rest: string)
    requires c as int >= 0x20 || c == '\n' || c == '\t'
    ensures ReadRune(JsonEscape(c) + rest) == Some(Rune(c, |JsonEscape(c)|)) && JsonEscape(c)[0] != '"'
  {
    hide ReadUnicode;
    var e := JsonEscape(c);
    if c == '\U{2028}' || c == '\U{2029}' {
      SeparatorRead(rest);
    } else if |e| == 2 {
      assert (e + rest)[0] == '\\' && (e + rest)[1] == e[1];
    } else {
      assert (e + rest)[0] == c;
    }
  }

  lemma {:induction false} JsonTextRead(s: string, rest: string)
    requires forall i :: 0 <= i < |s| ==> s[i] as int >= 0x20 || s[i] == '\n' || s[i] == '\t'
    ensures ReadChars(JsonText(s) + "\"" + rest) == Some(Read(s, rest))
  {
    hide JsonEscape, ReadRune;
    var text := JsonText(s) + "\"" + rest;
    if |s| == 0 {
      assert text[0] == '"' && text[1..] == rest;
    } else {
      var more := JsonText(s[1..]) + "\"" + rest;
      assert text == JsonEscape(s[0]) + more;
      EscapeRead(s[0], more);
      JsonTextRead(s[1..], rest);
      assert text[|JsonEscape(s[0])|..] == more;
      assert text[0] == JsonEscape(s[0])[0];
      assert s == [s[0]] + s[1..];
    }
  }
}
