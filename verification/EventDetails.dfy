/** The free text an event carries, kept small whatever it was. Text is its code points. */
module EventDetails {
  import opened Text
  import opened PythonStrings
  import opened JsonBytes

  const MAX_BYTES := 4096
  const MARKER := "\U{2026} [truncated]"
  const MARKER_BYTES := 15

  /** unicode.IsControl. */
  predicate IsControl(c: char) { c as int < 0x20 || 0x7f <= c as int < 0xa0 }

  predicate IsShown(c: char) { !IsControl(c) || c == '\n' || c == '\t' }

  /** How many bytes the UTF-8 of a character has. */
  function RuneLen(c: char): nat {
    var r := c as int;
    if r < 0x80 then 1 else if r < 0x800 then 2 else if r < 0x10000 then 3 else 4
  }

  function JsonRuneBytes(c: char): (n: nat)
    ensures 1 <= n <= 6
  {
    if c == '"' || c == '\\' || c == '\n' || c == '\t' then 2
    else if c == '\U{2028}' || c == '\U{2029}' then 6
    else RuneLen(c)
  }

  /** The bytes of a text in JSON. */
  function Size(s: string): nat {
    if |s| == 0 then 0 else Size(s[..|s| - 1]) + JsonRuneBytes(s[|s| - 1])
  }

  /** The characters that are shown. */
  function Shown(s: string): string {
    if |s| == 0 then ""
    else if IsShown(s[|s| - 1]) then Shown(s[..|s| - 1]) + [s[|s| - 1]]
    else Shown(s[..|s| - 1])
  }

  /** How many characters of s fit in a budget, from its start. */
  function Fitting(s: string, budget: nat): (n: nat)
    ensures n <= |s|
  {
    if Size(s) <= budget || |s| == 0 then |s| else Fitting(s[..|s| - 1], budget)
  }

  function DetailOf(text: string): string {
    var kept := Shown(text);
    if Size(kept) <= MAX_BYTES then kept else kept[..Fitting(kept, MAX_BYTES - MARKER_BYTES)] + MARKER
  }

  lemma {:induction false} SizeOfPrefix(s: string, n: nat)
    requires n <= |s|
    ensures Size(s[..n]) + (|s| - n) <= Size(s)
  {
    if n == |s| {
      assert s[..n] == s;
    } else {
      assert s[..|s| - 1][..n] == s[..n];
      SizeOfPrefix(s[..|s| - 1], n);
    }
  }

  /** The prefixes that fit are those no longer than what Fitting counts. */
  lemma {:induction false} FittingIsLongest(s: string, budget: nat, n: nat)
    requires n <= |s|
    ensures Size(s[..n]) <= budget <==> n <= Fitting(s, budget)
  {
    hide JsonRuneBytes;
    if Size(s) <= budget || |s| == 0 {
      SizeOfPrefix(s, n);
    } else if n == |s| {
      assert s[..n] == s;
    } else {
      assert s[..|s| - 1][..n] == s[..n];
      FittingIsLongest(s[..|s| - 1], budget, n);
    }
  }

  lemma SizeOneMore(s: string, i: nat)
    requires i < |s|
    ensures Size(s[..i + 1]) == Size(s[..i]) + JsonRuneBytes(s[i])
  {
    assert s[..i + 1][..i] == s[..i];
  }

  method EventDetail(text: string) returns (detail: string)
    ensures detail == DetailOf(text)
  {
    hide JsonRuneBytes, IsShown, Fitting;
    var kept, size := "", 0;
    for i := 0 to |text|
      invariant kept == Shown(text[..i]) && size == Size(kept)
    {
      assert text[..i + 1][..i] == text[..i];
      if !IsShown(text[i]) {
        continue;
      }
      assert (kept + [text[i]])[..|kept|] == kept;
      kept := kept + [text[i]];
      size := size + JsonRuneBytes(text[i]);
    }
    assert text[..|text|] == text;
    if size <= MAX_BYTES {
      return kept;
    }
    detail := Cut(kept, MAX_BYTES - MARKER_BYTES);
    detail := detail + MARKER;
  }

  /** As much of a text as a budget holds. */
  method Cut(kept: string, room: nat) returns (b: string)
    ensures b == kept[..Fitting(kept, room)]
  {
    hide JsonRuneBytes, Size, Fitting;
    b := "";
    var budget: int := room;
    NoSize(kept);
    for i := 0 to |kept|
      invariant b == kept[..i] && budget == room - Size(kept[..i]) && budget >= 0
    {
      SizeOneMore(kept, i);
      budget := budget - JsonRuneBytes(kept[i]);
      FittingIsLongest(kept, room, i);
      FittingIsLongest(kept, room, i + 1);
      if budget < 0 {
        return;
      }
      b := b + [kept[i]];
    }
    FittingIsLongest(kept, room, |kept|);
  }

  lemma NoSize(s: string)
    ensures s[..0] == "" && Size(s[..0]) == 0
  {
  }

  // ----- what a detail is -----------------------------------------------------------------------

  predicate AllShown(s: string) { forall i :: 0 <= i < |s| ==> IsShown(s[i]) }

  lemma {:induction false} ShownAreShown(s: string)
    ensures AllShown(Shown(s)) && (Shown(s) == s <==> AllShown(s)) && |Shown(s)| <= |s|
  {
    hide IsShown;
    if |s| > 0 {
      var n := |s| - 1;
      ShownAreShown(s[..n]);
      assert s == s[..n] + [s[n]];
      assert AllShown(s) <==> AllShown(s[..n]) && IsShown(s[n]);
    }
  }

  lemma MarkerSize()
    ensures |MARKER| == 13 && Size(MARKER) == MARKER_BYTES && AllShown(MARKER)
  {
    hide Size;
    SizeOfAscii(MARKER, 1);
    assert Size(MARKER[..1]) == 3 by { SizeOneMore(MARKER, 0); NoSize(MARKER); }
    assert MARKER[..13] == MARKER;
  }

  /** From the n-th on, every character takes one byte. */
  lemma {:induction false} SizeOfAscii(s: string, n: nat)
    requires n <= |s| && forall i :: n <= i < |s| ==> JsonRuneBytes(s[i]) == 1
    ensures Size(s) == Size(s[..n]) + (|s| - n)
  {
    if n == |s| {
      assert s[..n] == s;
    } else {
      assert s[..|s| - 1][..n] == s[..n];
      SizeOfAscii(s[..|s| - 1], n);
    }
  }

  lemma {:induction false} SizeOfBoth(a: string, b: string)
    ensures Size(a + b) == Size(a) + Size(b)
  {
    if |b| == 0 {
      assert a + b == a;
    } else {
      assert (a + b)[..|a| + |b| - 1] == a + b[..|b| - 1];
      SizeOfBoth(a, b[..|b| - 1]);
    }
  }

  lemma ShownRange(c: char)
    ensures var r := c as int; IsShown(c) <==> r == 0x09 || r == 0x0a || 0x20 <= r < 0x7f || r >= 0xa0
  {
  }

  /** Every other character is kept, in order: the shown of two texts are the shown of each, and of one
      character it itself or nothing. */
  lemma {:induction false} ShownOfBoth(s: string, t: string)
    ensures Shown(s + t) == Shown(s) + Shown(t)
    ensures |t| == 1 ==> var r := t[0] as int;
                         Shown(t) == if r == 0x09 || r == 0x0a || 0x20 <= r < 0x7f || r >= 0xa0 then t else ""
  {
    hide IsShown;
    if |t| == 0 {
      assert s + t == s;
    } else {
      var n := |t| - 1;
      assert (s + t)[..|s| + n] == s + t[..n];
      ShownOfBoth(s, t[..n]);
      ShownRange(t[n]);
      if |t| == 1 { assert t[..0] == "" && t == [t[0]]; }
    }
  }

  /** What is counted is what the text takes in JSON, byte by byte. */
  lemma {:induction false} SizeIsBytes(s: string)
    ensures Size(s) == |Bytes(s)|
  {
    hide JsonRuneBytes, Utf8;
    if |s| > 0 {
      var n := |s| - 1;
      SizeIsBytes(s[..n]);
      RuneBytes(s[n]);
      BytesAppend(s[..n], s[n]);
      assert s == s[..n] + [s[n]];
    }
  }

  lemma RuneBytes(c: char)
    ensures JsonRuneBytes(c) == |Utf8Of(JsonEscape(c))|
  {
    EscapeBytes(c);
  }

  /** A text whose characters are all shown is, so escaped, a JSON string that reads back as it was. */
  lemma ShownReadsBack(s: string, rest: string)
    requires AllShown(s)
    ensures ReadChars(JsonText(s) + "\"" + rest) == Some(Read(s, rest))
  {
    assert forall i :: 0 <= i < |s| ==> s[i] as int >= 0x20 || s[i] == '\n' || s[i] == '\t';
    JsonTextRead(s, rest);
  }

  /** Within its bytes, and no control character but newline and tab. */
  lemma DetailIsSmallAndShown(text: string)
    ensures |Bytes(DetailOf(text))| == Size(DetailOf(text)) <= MAX_BYTES && AllShown(DetailOf(text))
    ensures forall i :: 0 <= i < |DetailOf(text)| ==>
              var r := DetailOf(text)[i] as int; r == 0x09 || r == 0x0a || 0x20 <= r < 0x7f || r >= 0xa0
  {
    hide Size, Shown, Fitting, IsShown, Bytes;
    SizeIsBytes(DetailOf(text));
    forall i | 0 <= i < |DetailOf(text)| && IsShown(DetailOf(text)[i])
      ensures var r := DetailOf(text)[i] as int; r == 0x09 || r == 0x0a || 0x20 <= r < 0x7f || r >= 0xa0
    {
      ShownRange(DetailOf(text)[i]);
    }
    ShownAreShown(text);
    var kept := Shown(text);
    if Size(kept) > MAX_BYTES {
      var n := Fitting(kept, MAX_BYTES - MARKER_BYTES);
      FittingIsLongest(kept, MAX_BYTES - MARKER_BYTES, n);
      MarkerSize();
      SizeOfBoth(kept[..n], MARKER);
    }
  }

  /** A text stays as it is exactly when it has both, so taking the detail twice is taking it once. */
  lemma DetailFixed(text: string)
    ensures DetailOf(text) == text <==> |Bytes(text)| <= MAX_BYTES && AllShown(text)
    ensures DetailOf(DetailOf(text)) == DetailOf(text)
  {
    hide Size, Shown, DetailOf, AllShown, Bytes;
    SizeIsBytes(text);
    DetailFits(text);
    DetailFits(DetailOf(text));
    DetailIsSmallAndShown(text);
  }

  lemma DetailFits(text: string)
    ensures Size(text) <= MAX_BYTES && AllShown(text) ==> DetailOf(text) == text
  {
    hide Size, Shown, Fitting, AllShown;
    ShownAreShown(text);
  }

  /** A text whose shown characters fit keeps them all; one whose do not keeps the longest prefix of
      them that leaves room for the marker. */
  lemma DetailKeepsMost(text: string, n: nat)
    requires n <= |Shown(text)|
    ensures var kept := Shown(text);
            if |Bytes(kept)| <= MAX_BYTES then DetailOf(text) == kept
            else exists m: nat :: m < |kept| && DetailOf(text) == kept[..m] + MARKER &&
                   (|Bytes(kept[..n] + MARKER)| <= MAX_BYTES <==> n <= m)
  {
    hide Size, Shown, Fitting, Bytes;
    var kept := Shown(text);
    SizeIsBytes(kept);
    SizeIsBytes(kept[..n] + MARKER);
    if Size(kept) > MAX_BYTES {
      var room := MAX_BYTES - MARKER_BYTES;
      var m := Fitting(kept, room);
      FittingIsLongest(kept, room, n);
      FittingIsLongest(kept, room, |kept|);
      assert kept[..|kept|] == kept;
      MarkerSize();
      SizeOfBoth(kept[..n], MARKER);
      assert m < |kept| && DetailOf(text) == kept[..m] + MARKER;
    }
  }
}
