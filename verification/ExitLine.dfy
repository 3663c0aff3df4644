/** The line the launch script writes last, and how it is found in what a node printed. */
module ExitLine {
  import opened Text

  const PREFIX := "hl-launch:"

  /** An exit line: the exit code, and when the command started and ended in unix seconds. */
  datatype Exit = Exit(code: int, started: int, ended: int) {
    predicate InRange() { IsInt64(code) && IsInt64(started) && IsInt64(ended) }
  }

  function Field(key: string, n: int): string { key + "=" + FormatInt(n) }

  /** The line as the script's line function prints it, without its newlines. */
  function Written(x: Exit): string {
    PREFIX + (" " + (Field("code", x.code) + (" " + (Field("started", x.started) + (" " + Field("ended", x.ended))))))
  }

  // ----- reading --------------------------------------------------------------------------------

  function ReadField(field: string): Option<(string, int)> {
    var parts := Cut(field, '=');
    match ParseInt(parts.after)
    case Some(n) => if parts.found then Some((parts.before, n)) else None
    case None => None
  }

  /** The fields of an exit line by key, none when one of them is not key=number. A key given twice
      has its last value. */
  function ReadFields(fields: seq<string>): Option<map<string, int>> {
    if |fields| == 0 then Some(map[]) else
    match ReadFields(fields[..|fields| - 1])
    case None => None
    case Some(m) =>
      match ReadField(fields[|fields| - 1])
      case None => None
      case Some((key, n)) => Some(m[key := n])
  }

  function ExitOf(m: map<string, int>): Option<Exit> {
    if |m| == 3 && "code" in m && "started" in m && "ended" in m
    then Some(Exit(m["code"], m["started"], m["ended"])) else None
  }

  function ParsedExit(raw: string): Option<Exit> {
    match ReadFields(Fields(raw))
    case None => None
    case Some(m) => ExitOf(m)
  }

  method ParseExitLine(raw: string) returns (r: Option<Exit>)
    ensures r == ParsedExit(raw)
  {
    var words, fields: map<string, int> := Fields(raw), map[];
    for i := 0 to |words|
      invariant ReadFields(words[..i]) == Some(fields)
    {
      assert words[..i + 1][..i] == words[..i];
      var parts := Cut(words[i], '=');
      var n := ParseInt(parts.after);
      if !parts.found || n.None? {
        BadField(words, i);
        return None;
      }
      fields := fields[parts.before := n.value];
    }
    assert words[..|words|] == words;
    r := ExitOf(fields);
  }

  /** One field that cannot be read spoils the line. */
  lemma {:induction false} BadField(words: seq<string>, i: nat)
    requires i < |words| && ReadField(words[i]) == None
    ensures ReadFields(words) == None
  {
    if i < |words| - 1 {
      BadField(words[..|words| - 1], i);
    }
  }

  /** What one line of output says as an exit line. */
  function ReadLine(line: string): Option<Exit> {
    var trimmed := TrimSpace(line);
    if PREFIX <= trimmed then ParsedExit(trimmed[|PREFIX|..]) else None
  }

  function LastExit(lines: seq<string>): Option<Exit> {
    if |lines| == 0 then None else
    var n := |lines| - 1;
    if ReadLine(lines[n]).Some? then ReadLine(lines[n]) else LastExit(lines[..n])
  }

  method FindExitLine(lines: seq<string>) returns (r: Option<Exit>)
    ensures r == LastExit(lines)
  {
    hide TrimSpace, ParsedExit;
    var i := |lines| - 1;
    assert lines[..i + 1] == lines;
    while i >= 0
      invariant -1 <= i < |lines| && LastExit(lines) == LastExit(lines[..i + 1])
    {
      assert lines[..i + 1][..i] == lines[..i];
      var trimmed := TrimSpace(lines[i]);
      if PREFIX <= trimmed {
        r := ParseExitLine(trimmed[|PREFIX|..]);
        if r.Some? {
          return;
        }
      }
      i := i - 1;
    }
    r := None;
  }

  // ----- what is written is read back -----------------------------------------------------------

  predicate IsWord(s: string) { |s| > 0 && NoSpaces(s) && '\n' !in s }

  lemma FieldRead(key: string, n: int)
    requires IsWord(key) && '=' !in key && IsInt64(n)
    ensures IsWord(Field(key, n)) && ReadField(Field(key, n)) == Some((key, n))
  {
    hide FormatInt, ParseInt, Cut;
    FormatParse(n);
    CutAt(key, '=', FormatInt(n));
    assert Field(key, n) == key + ['='] + FormatInt(n);
  }

  lemma WrittenFields(x: Exit)
    requires x.InRange()
    ensures Fields(Written(x)[|PREFIX|..]) == [Field("code", x.code), Field("started", x.started), Field("ended", x.ended)]
  {
    hide Field, Fields, IsSpace, ReadField;
    var a, b, c := Field("code", x.code), Field("started", x.started), Field("ended", x.ended);
    KeysAreWords();
    FieldRead("code", x.code);
    FieldRead("started", x.started);
    FieldRead("ended", x.ended);
    SpaceIsSpace();
    assert Written(x)[|PREFIX|..] == " " + (a + (" " + (b + (" " + c))));
    FieldsSpace(a + (" " + (b + (" " + c))));
    FieldsWord(a, " " + (b + (" " + c)));
    FieldsSpace(b + (" " + c));
    FieldsWord(b, " " + c);
    FieldsSpace(c);
    FieldsWord(c, "");
    assert c + "" == c;
    FieldsNone();
  }

  lemma KeysAreWords()
    ensures IsWord("code") && IsWord("started") && IsWord("ended")
  {
  }

  lemma SpaceIsSpace()
    ensures IsSpace(' ')
  {
  }

  lemma FieldsNone()
    ensures Fields("") == []
  {
  }

  lemma FieldsRead(x: Exit)
    requires x.InRange()
    ensures var fields := [Field("code", x.code), Field("started", x.started), Field("ended", x.ended)];
            var m := map["code" := x.code, "started" := x.started, "ended" := x.ended];
            ReadFields(fields) == Some(m) && ExitOf(m) == Some(x)
  {
    hide Field, ReadField, IsSpace;
    KeysAreWords();
    FieldRead("code", x.code);
    FieldRead("started", x.started);
    FieldRead("ended", x.ended);
    var fields := [Field("code", x.code), Field("started", x.started), Field("ended", x.ended)];
    var one, two := fields[..1], fields[..2];
    assert one[..0] == [] && two[..1] == one && fields[..2] == two;
    assert ReadFields(one) == Some(map["code" := x.code]);
    assert ReadFields(two) == Some(map["code" := x.code, "started" := x.started]);
    var m := map["code" := x.code, "started" := x.started, "ended" := x.ended];
    assert "code" != "started" by { assert |"code"| != |"started"|; }
    assert "code" != "ended" by { assert |"code"| != |"ended"|; }
    assert "started" != "ended" by { assert |"started"| != |"ended"|; }
    assert m.Keys == {"code", "started", "ended"};
  }

  lemma Untrimmed(s: string)
    requires |s| > 0 && !IsSpace(s[0]) && !IsSpace(s[|s| - 1])
    ensures TrimSpace(s) == s
  {
  }

  lemma WrittenEnds(x: Exit)
    requires x.InRange()
    ensures var s := Written(x);
            PREFIX <= s && !IsSpace(s[0]) && !IsSpace(s[|s| - 1]) && '\n' !in s
  {
    hide Field, IsSpace;
    KeysAreWords();
    var a, b, c := Field("code", x.code), Field("started", x.started), Field("ended", x.ended);
    FieldRead("code", x.code);
    FieldRead("started", x.started);
    FieldRead("ended", x.ended);
    PrefixIsAWord();
    var s := Written(x);
    assert s[|s| - 1] == c[|c| - 1];
    assert s[0] == PREFIX[0];
  }

  lemma PrefixIsAWord()
    ensures IsWord(PREFIX)
  {
  }

  /** The line the script writes reads back as what it wrote. */
  lemma WrittenReadsBack(x: Exit)
    requires x.InRange()
    ensures ReadLine(Written(x)) == Some(x) && '\n' !in Written(x)
  {
    hide Written, Fields, ReadFields, ExitOf, IsSpace, TrimSpace;
    WrittenEnds(x);
    Untrimmed(Written(x));
    WrittenFields(x);
    FieldsRead(x);
  }

  lemma {:induction false} TrimmedLeft(blanks: string, s: string)
    requires (forall i :: 0 <= i < |blanks| ==> IsSpace(blanks[i])) && |s| > 0 && !IsSpace(s[0])
    ensures TrimLeft(blanks + s) == s
  {
    if |blanks| == 0 {
      assert blanks + s == s;
    } else {
      assert (blanks + s)[1..] == blanks[1..] + s;
      TrimmedLeft(blanks[1..], s);
    }
  }

  lemma {:induction false} TrimmedRight(s: string, blanks: string)
    requires (forall i :: 0 <= i < |blanks| ==> IsSpace(blanks[i])) && |s| > 0 && !IsSpace(s[|s| - 1])
    ensures TrimRight(s + blanks) == s
  {
    if |blanks| == 0 {
      assert s + blanks == s;
    } else {
      assert (s + blanks)[..|s| + |blanks| - 1] == s + blanks[..|blanks| - 1];
      TrimmedRight(s, blanks[..|blanks| - 1]);
    }
  }

  /** Also with blanks around it, as a runtime may pass it on. */
  lemma WrittenAmongBlanks(before: string, x: Exit, after: string)
    requires x.InRange() && (forall i :: 0 <= i < |before| ==> IsSpace(before[i])) && forall i :: 0 <= i < |after| ==> IsSpace(after[i])
    ensures ReadLine(before + (Written(x) + after)) == Some(x)
  {
    hide Written, IsSpace, ParsedExit;
    WrittenEnds(x);
    WrittenReadsBack(x);
    var s := Written(x);
    Untrimmed(s);
    TrimmedLeft(before, s + after);
    TrimmedRight(s, after);
  }

  lemma {:induction false} LastOfTwo(a: seq<string>, b: seq<string>)
    ensures LastExit(a + b) == if LastExit(b).Some? then LastExit(b) else LastExit(a)
  {
    hide ReadLine;
    if |b| == 0 {
      assert a + b == a;
    } else {
      var n := |b| - 1;
      assert (a + b)[..|a| + n] == a + b[..n];
      LastOfTwo(a, b[..n]);
    }
  }

  /** Whatever was printed before it, exit lines of the command's own making among it, the script's
      exit line is the one that is found, unless what follows holds another. */
  lemma ScriptsLineIsFound(before: string, x: Exit, after: string)
    requires x.InRange()
    ensures LastExit(Lines(before + "\n" + (Written(x) + "\n" + after))) ==
            if LastExit(Lines(after)).Some? then LastExit(Lines(after)) else Some(x)
  {
    hide Written, ReadLine, Lines;
    WrittenReadsBack(x);
    LinesOfTwo(before, Written(x) + "\n" + after);
    LinesOfTwo(Written(x), after);
    LinesOfOne(Written(x));
    var head := Lines(before) + [Written(x)];
    assert Lines(before) + (Lines(Written(x)) + Lines(after)) == head + Lines(after);
    LastOfTwo(head, Lines(after));
    assert head[|head| - 1] == Written(x);
  }

  /** Nothing printed after the line but its own newline. */
  lemma NothingAfter()
    ensures LastExit(Lines("")) == None
  {
    assert ReadLine("") == None;
    assert Lines("") == [""] && [""][..0] == [];
  }
}
