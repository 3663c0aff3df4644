/** Text as part of a branch name. Lower-casing is any function of one character to one. */
module Slugs {
  predicate IsAlnum(c: char) { 'a' <= c <= 'z' || '0' <= c <= '9' }

  function Grow(b: string, c: char): string {
    if IsAlnum(c) then b + [c]
    else if |b| > 0 && b[|b| - 1] != '-' then b + "-"
    else b
  }

  /** What is built of s after b, until it is limit long when limit is positive. */
  function Built(b: string, s: string, limit: int): string
    decreases |s|
  {
    if |s| == 0 || (limit > 0 && |b| == limit) then b else Built(Grow(b, s[0]), s[1..], limit)
  }

  function TrimLeft(s: string): string { if |s| > 0 && s[0] == '-' then TrimLeft(s[1..]) else s }

  function TrimRight(s: string): string { if |s| > 0 && s[|s| - 1] == '-' then TrimRight(s[..|s| - 1]) else s }

  function Trim(s: string): string { TrimRight(TrimLeft(s)) }

  function Lowered(lower: char -> char, s: string): string { seq(|s|, i requires 0 <= i < |s| => lower(s[i])) }

  function SlugOf(lower: char -> char, text: string, limit: int): string { Trim(Built("", Lowered(lower, text), limit)) }

  method Slug(lower: char -> char, text: string, limit: int) returns (slug: string)
    ensures slug == SlugOf(lower, text, limit)
  {
    var b, s := "", Lowered(lower, text);
    assert s[0..] == s;
    for i := 0 to |s|
      invariant Built("", s, limit) == Built(b, s[i..], limit)
      invariant limit > 0 ==> |b| != limit
    {
      assert s[i..][0] == s[i] && s[i..][1..] == s[i + 1..];
      if IsAlnum(s[i]) {
        b := b + [s[i]];
      } else if |b| > 0 && b[|b| - 1] != '-' {
        b := b + "-";
      }
      if limit > 0 && |b| == limit {
        slug := Trim(b);
        return;
      }
    }
    slug := Trim(b);
  }

  // ----- what a slug is -------------------------------------------------------------------------

  predicate IsSlugChar(c: char) { IsAlnum(c) || c == '-' }

  /** Runs of letters and digits, joined by single dashes; one more dash may end it. */
  predicate Joined(s: string) {
    && (forall i :: 0 <= i < |s| ==> IsSlugChar(s[i]))
    && (forall i :: 0 < i < |s| ==> s[i - 1] != '-' || s[i] != '-')
    && (|s| > 0 ==> s[0] != '-')
  }

  predicate IsSlug(s: string) { Joined(s) && (|s| > 0 ==> s[|s| - 1] != '-') }

  lemma {:induction false} BuiltJoined(b: string, s: string, limit: int)
    requires Joined(b) && (limit > 0 ==> |b| <= limit)
    ensures Joined(Built(b, s, limit)) && (limit > 0 ==> |Built(b, s, limit)| <= limit)
    decreases |s|
  {
    if |s| > 0 && !(limit > 0 && |b| == limit) { BuiltJoined(Grow(b, s[0]), s[1..], limit); }
  }

  lemma TrimJoined(s: string)
    requires Joined(s)
    ensures IsSlug(Trim(s)) && Trim(s) == if |s| > 0 && s[|s| - 1] == '-' then s[..|s| - 1] else s
  {
    assert TrimLeft(s) == s;
    if |s| > 0 && s[|s| - 1] == '-' {
      var cut := s[..|s| - 1];
      assert TrimRight(cut) == cut;
    }
  }

  /** Always runs of [a-z0-9] joined by single dashes, within a positive limit. */
  lemma SlugShape(lower: char -> char, text: string, limit: int)
    ensures IsSlug(SlugOf(lower, text, limit)) && (limit > 0 ==> |SlugOf(lower, text, limit)| <= limit)
  {
    hide Built, Trim, Joined;
    assert Joined("") by { NothingJoined(); }
    BuiltJoined("", Lowered(lower, text), limit);
    TrimJoined(Built("", Lowered(lower, text), limit));
  }

  lemma NothingJoined()
    ensures Joined("")
  {
  }

  lemma {:induction false} BuildsItself(b: string, s: string, limit: int)
    requires Joined(b + s) && (limit > 0 ==> |b + s| <= limit)
    ensures Built(b, s, limit) == b + s
    decreases |s|
  {
    if |s| == 0 || (limit > 0 && |b| == limit) {
      assert b + s == b;
    } else {
      assert (b + s)[|b|] == s[0] && (|b| > 0 ==> (b + s)[|b| - 1] == b[|b| - 1]);
      assert b + [s[0]] + s[1..] == b + s;
      BuildsItself(b + [s[0]], s[1..], limit);
    }
  }

  /** A text is its own slug exactly when it has a slug's shape and is within the limit, so slugging
      twice is slugging once. */
  lemma SlugFixed(lower: char -> char, s: string, limit: int)
    requires forall c :: IsSlugChar(c) ==> lower(c) == c
    ensures SlugOf(lower, s, limit) == s <==> IsSlug(s) && (limit > 0 ==> |s| <= limit)
  {
    hide Built, Trim;
    SlugShape(lower, s, limit);
    if IsSlug(s) && (limit > 0 ==> |s| <= limit) {
      assert Lowered(lower, s) == s && "" + s == s;
      BuildsItself("", s, limit);
      TrimJoined(s);
    }
  }

  lemma SlugIdempotent(lower: char -> char, text: string, limit: int)
    requires forall c :: IsSlugChar(c) ==> lower(c) == c
    ensures SlugOf(lower, SlugOf(lower, text, limit), limit) == SlugOf(lower, text, limit)
  {
    hide SlugOf, IsSlug;
    SlugShape(lower, text, limit);
    SlugFixed(lower, SlugOf(lower, text, limit), limit);
  }

  // ----- the words of a text --------------------------------------------------------------------

  function RunLength(s: string): (n: nat)
    ensures n <= |s| && forall i :: 0 <= i < n ==> IsAlnum(s[i])
    ensures n < |s| ==> !IsAlnum(s[n])
  {
    if |s| > 0 && IsAlnum(s[0]) then 1 + RunLength(s[1..]) else 0
  }

  /** The runs of letters and digits. */
  function Words(s: string): seq<string> {
    if |s| == 0 then []
    else if !IsAlnum(s[0]) then Words(s[1..])
    else [s[..RunLength(s)]] + Words(s[RunLength(s)..])
  }

  function Join(words: seq<string>): string {
    if |words| == 0 then "" else if |words| == 1 then words[0] else words[0] + "-" + Join(words[1..])
  }

  lemma {:induction false} BuiltRun(b: string, run: string, rest: string)
    requires forall i :: 0 <= i < |run| ==> IsAlnum(run[i])
    ensures Built(b, run + rest, 0) == Built(b + run, rest, 0)
    decreases |run|
  {
    if |run| == 0 {
      assert run + rest == rest && b + run == b;
    } else {
      assert (run + rest)[1..] == run[1..] + rest && b + [run[0]] + run[1..] == b + run;
      BuiltRun(b + [run[0]], run[1..], rest);
    }
  }

  lemma TrimRightDash(b: string)
    requires |b| > 0 && b[|b| - 1] != '-'
    ensures TrimRight(b + "-") == b && TrimRight(b) == b
  {
    assert (b + "-")[..|b|] == b;
  }

  lemma {:induction false} WordsOfRun(s: string)
    requires |s| > 0 && IsAlnum(s[0])
    ensures var word, rest := s[..RunLength(s)], s[RunLength(s)..];
            && |word| > 0 && s == word + rest && word[|word| - 1] != '-'
            && Words(s) == if |rest| == 0 then [word] else [word] + Words(rest[1..])
  {
    hide IsAlnum;
    var n := RunLength(s);
    assert IsAlnum(s[n - 1]);
    DashIsNone(s[n - 1]);
  }

  lemma DashIsNone(c: char)
    requires IsAlnum(c)
    ensures c != '-'
  {
  }

  /** What is built after b, itself empty or ended by a dash. */
  lemma {:induction false} BuiltWords(b: string, s: string)
    requires b == "" || b[|b| - 1] == '-'
    ensures TrimRight(Built(b, s, 0)) == if |Words(s)| == 0 then TrimRight(b) else b + Join(Words(s))
    decreases |s|
  {
    hide TrimRight;
    if |s| > 0 && !IsAlnum(s[0]) {
      BuiltWords(b, s[1..]);
    } else if |s| > 0 {
      BuiltWord(b, s);
    }
  }

  lemma {:induction false} BuiltWord(b: string, s: string)
    requires (b == "" || b[|b| - 1] == '-') && |s| > 0 && IsAlnum(s[0])
    ensures TrimRight(Built(b, s, 0)) == b + Join(Words(s)) && |Words(s)| > 0
    decreases |s|, 0
  {
    hide TrimRight, Words, Join, IsAlnum, Built, RunLength;
    var word, rest := s[..RunLength(s)], s[RunLength(s)..];
    WordsOfRun(s);
    BuiltRun(b, word, rest);
    LastOf(b, word);
    TrimRightDash(b + word);
    if |rest| == 0 {
      BuiltNothing(b + word, rest);
      JoinMore(word, []);
      assert [word] + [] == [word];
    } else {
      BuiltDash(b + word, rest);
      var more := Words(rest[1..]);
      BuiltWords(b + word + "-", rest[1..]);
      JoinMore(word, more);
      Regroup(b, word, Join(more));
    }
  }

  lemma LastOf(b: string, word: string)
    requires |word| > 0
    ensures |b + word| > 0 && (b + word)[|b + word| - 1] == word[|word| - 1]
  {
  }

  lemma Regroup(b: string, word: string, more: string)
    ensures b + (word + "-" + more) == b + word + "-" + more
  {
  }

  lemma BuiltDash(b: string, s: string)
    requires |b| > 0 && b[|b| - 1] != '-' && |s| > 0 && !IsAlnum(s[0])
    ensures Built(b, s, 0) == Built(b + "-", s[1..], 0)
  {
  }

  lemma BuiltNothing(b: string, s: string)
    requires |s| == 0
    ensures Built(b, s, 0) == b
  {
  }

  lemma JoinMore(word: string, words: seq<string>)
    ensures Join([word] + words) == if |words| == 0 then word else word + "-" + Join(words)
  {
    assert ([word] + words)[1..] == words;
  }

  lemma NoLimit(b: string, s: string, limit: int)
    requires limit <= 0
    ensures Built(b, s, limit) == Built(b, s, 0)
    decreases |s|
  {
    if |s| > 0 { NoLimit(Grow(b, s[0]), s[1..], limit); }
  }

  /** Without a limit, a slug is the words of the lower-cased text joined by dashes. */
  lemma SlugIsItsWords(lower: char -> char, text: string, limit: int)
    requires limit <= 0
    ensures SlugOf(lower, text, limit) == Join(Words(Lowered(lower, text)))
  {
    hide Built, Words, Joined;
    var s := Lowered(lower, text);
    NoLimit("", s, limit);
    BuiltWords("", s);
    NothingJoined();
    BuiltJoined("", s, 0);
    FirstStays(Built("", s, 0));
  }

  lemma FirstStays(s: string)
    requires Joined(s)
    ensures TrimLeft(s) == s
  {
  }

  lemma {:induction false} BuiltIsCut(b: string, s: string, limit: nat)
    requires 0 < limit && |b| <= limit
    ensures |b| <= |Built(b, s, 0)| && b <= Built(b, s, 0)
    ensures Built(b, s, limit) == var all := Built(b, s, 0); if |all| <= limit then all else all[..limit]
    decreases |s|
  {
    if |s| > 0 {
      if |b| == limit {
        BuiltExtends(b, s);
      } else {
        BuiltIsCut(Grow(b, s[0]), s[1..], limit);
      }
    }
  }

  lemma {:induction false} BuiltExtends(b: string, s: string)
    ensures b <= Built(b, s, 0)
    decreases |s|
  {
    if |s| > 0 { BuiltExtends(Grow(b, s[0]), s[1..]); }
  }

  /** A limited slug is the whole one, cut at the limit and without the dash the cut may leave. */
  lemma LimitedSlugIsCut(lower: char -> char, text: string, limit: nat)
    requires limit > 0
    ensures var all := SlugOf(lower, text, 0);
            SlugOf(lower, text, limit) == Trim(if |all| <= limit then all else all[..limit])
  {
    hide Built, Trim;
    var s := Lowered(lower, text);
    var raw := Built("", s, 0);
    BuiltJoined("", s, 0);
    BuiltIsCut("", s, limit);
    TrimJoined(raw);
    TrimJoined(Trim(raw));
    if |raw| > limit {
      TrimJoined(raw[..limit]);
      if |Trim(raw)| > limit {
        assert raw[..limit] == Trim(raw)[..limit];
      } else {
        assert raw[..limit] == Trim(raw);
      }
    }
  }
}
