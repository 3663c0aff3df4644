/**
 Unpadded base64url, section 5 of RFC 4648, as Go reads it: newlines anywhere are skipped and the
 unused bits of the last character are not looked at. A Go string is its bytes, one character each.
 */
module Base64Url {
  import opened Text

  predicate IsBytes(s: string) { forall i :: 0 <= i < |s| ==> s[i] as int < 256 }

  type Bytes = s: string | IsBytes(s)

  function Symbol(n: int): char
    requires 0 <= n < 64
  {
    if n < 26 then (n + 'A' as int) as char
    else if n < 52 then (n - 26 + 'a' as int) as char
    else if n < 62 then (n - 52 + '0' as int) as char
    else if n == 62 then '-' else '_'
  }

  function Value(c: char): (r: Option<int>)
    ensures r.Some? ==> 0 <= r.value < 64
  {
    if 'A' <= c <= 'Z' then Some(c as int - 'A' as int)
    else if 'a' <= c <= 'z' then Some(c as int - 'a' as int + 26)
    else if '0' <= c <= '9' then Some(c as int - '0' as int + 52)
    else if c == '-' then Some(62)
    else if c == '_' then Some(63)
    else None
  }

  function Encode(b: Bytes): string {
    if |b| == 0 then ""
    else
      var x := b[0] as int;
      if |b| == 1 then [Symbol(x / 4), Symbol(x % 4 * 16)]
      else
        var y := b[1] as int;
        if |b| == 2 then [Symbol(x / 4), Symbol(x % 4 * 16 + y / 16), Symbol(y % 16 * 4)]
        else
          var z := b[2] as int;
          [Symbol(x / 4), Symbol(x % 4 * 16 + y / 16), Symbol(y % 16 * 4 + z / 64), Symbol(z % 64)] + Encode(b[3..])
  }

  function Unwrapped(s: string): string {
    if |s| == 0 then ""
    else if s[0] == '\n' || s[0] == '\r' then Unwrapped(s[1..])
    else [s[0]] + Unwrapped(s[1..])
  }

  function FirstByte(v: int, w: int): char
    requires 0 <= v < 64 && 0 <= w < 64
  {
    (v * 4 + w / 16) as char
  }

  function SecondByte(v: int, w: int): char
    requires 0 <= v < 64 && 0 <= w < 64
  {
    (v % 16 * 16 + w / 4) as char
  }

  function ThirdByte(v: int, w: int): char
    requires 0 <= v < 64 && 0 <= w < 64
  {
    (v % 4 * 64 + w) as char
  }

  function DecodeGroups(t: string): (r: Option<Bytes>) {
    if |t| == 0 then Some("")
    else if |t| == 1 || Value(t[0]).None? || Value(t[1]).None? then None
    else
      var v, w := Value(t[0]).value, Value(t[1]).value;
      if |t| == 2 then Some([FirstByte(v, w)])
      else if Value(t[2]).None? then None
      else
        var x := Value(t[2]).value;
        if |t| == 3 then Some([FirstByte(v, w), SecondByte(w, x)])
        else if Value(t[3]).None? then None
        else
          match DecodeGroups(t[4..])
          case None => None
          case Some(rest) => Some([FirstByte(v, w), SecondByte(w, x), ThirdByte(x, Value(t[3]).value)] + rest)
  }

  function Decode(s: string): Option<Bytes> { DecodeGroups(Unwrapped(s)) }

  /** Examples of section 10 of RFC 4648, without padding, and the two characters of its section 5. */
  lemma EncodeExamples()
    ensures Encode("f") == "Zg" && Encode("fo") == "Zm8" && Encode("foo") == "Zm9v"
    ensures Encode("\U{fb}\U{ff}") == "-_8"
  {
    assert "foo"[3..] == "";
  }

  lemma SymbolValue(n: int)
    requires 0 <= n < 64
    ensures Value(Symbol(n)) == Some(n)
  {
  }

  lemma FirstBack(x: int, y: int)
    requires 0 <= x < 256 && 0 <= y < 16
    ensures FirstByte(x / 4, x % 4 * 16 + y) == x as char
  {
  }

  lemma SecondBack(x: int, y: int, z: int)
    requires 0 <= x < 4 && 0 <= y < 256 && 0 <= z < 4
    ensures SecondByte(x * 16 + y / 16, y % 16 * 4 + z) == y as char
  {
    assert (x * 16 + y / 16) % 16 == y / 16 && (y % 16 * 4 + z) / 4 == y % 16;
    assert y / 16 * 16 + y % 16 == y;
  }

  lemma ThirdBack(y: int, z: int)
    requires 0 <= y < 16 && 0 <= z < 256
    ensures ThirdByte(y * 4 + z / 64, z % 64) == z as char
  {
  }

  lemma {:induction false} GroupsBack(b: Bytes)
    ensures DecodeGroups(Encode(b)) == Some(b)
    ensures forall i :: 0 <= i < |Encode(b)| ==> Value(Encode(b)[i]).Some?
  {
    hide Value, Symbol, FirstByte, SecondByte, ThirdByte;
    if |b| > 0 {
      var x := b[0] as int;
      var y := if |b| > 1 then b[1] as int else 0;
      var z := if |b| > 2 then b[2] as int else 0;
      SymbolValue(x / 4);
      SymbolValue(x % 4 * 16 + y / 16);
      SymbolValue(y % 16 * 4 + z / 64);
      SymbolValue(z % 64);
      FirstBack(x, y / 16);
      SecondBack(x % 4, y, z / 64);
      ThirdBack(y % 16, z);
      if |b| == 1 {
        assert b == [x as char];
      } else if |b| == 2 {
        assert b == [x as char, y as char];
      } else {
        GroupsBack(b[3..]);
        assert Encode(b)[4..] == Encode(b[3..]);
        assert b == [x as char, y as char, z as char] + b[3..];
      }
    }
  }

  lemma {:induction false} NothingToUnwrap(s: string)
    requires '\n' !in s && '\r' !in s
    ensures Unwrapped(s) == s
  {
    if |s| > 0 { NothingToUnwrap(s[1..]); }
  }

  lemma NoSymbol()
    ensures Value('\n').None? && Value('\r').None? && Value('.').None?
  {
  }

  /** What is encoded is decoded, and holds neither a newline nor a dot. */
  lemma DecodeUndoesEncode(b: Bytes)
    ensures Decode(Encode(b)) == Some(b) && '.' !in Encode(b)
  {
    hide Value, DecodeGroups, Encode;
    GroupsBack(b);
    NoSymbol();
    NothingToUnwrap(Encode(b));
  }
}
