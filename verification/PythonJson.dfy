/**
 Values as Python's json.dumps writes them with its defaults, and a reader of RFC 8259 that gets
 every one of them back. How a number is written is not modelled: a number is its text.
 */
module PythonJson {
  import opened Text
  import opened KeyOrder
  import opened PythonStrings

  predicate NumberChar(c: char) { '0' <= c <= '9' || c == '+' || c == '-' || c == '.' || c == 'e' || c == 'E' }

  type NumberText = s: string | |s| > 0 && forall i :: 0 <= i < |s| ==> NumberChar(s[i]) witness "0"

  datatype Json =
    | Null
    | Bool(b: bool)
    | Number(text: NumberText)
    | String(s: string)
    | Array(items: seq<Json>)
    | Object(members: map<string, Json>)
    | Foreign

  /** Nothing in it that is no JSON value. */
  predicate IsJson(v: Json) {
    match v
    case Array(items) => forall i :: 0 <= i < |items| ==> IsJson(items[i])
    case Object(members) => forall k :: k in members ==> IsJson(members[k])
    case Foreign => false
    case _ => true
  }

  // ----- writing --------------------------------------------------------------------------------

  ghost function Printed(v: Json): string
    requires IsJson(v)
    decreases v, 1, 0
  {
    match v
    case Null => "null"
    case Bool(b) => if b then "true" else "false"
    case Number(text) => text
    case String(s) => Quoted(s)
    case Array(items) => "[" + PrintedItems(v, 0) + "]"
    case Object(members) => "{" + PrintedMembers(v, Sorted(members.Keys), 0) + "}"
  }

  ghost function PrintedItem(v: Json, i: nat): string
    requires v.Array? && IsJson(v) && i < |v.items|
    decreases v, 0, 0
  {
    (if i > 0 then ", " else "") + Printed(v.items[i])
  }

  ghost function PrintedItems(v: Json, from: nat): string
    requires v.Array? && IsJson(v) && from <= |v.items|
    decreases v, 0, |v.items| - from + 1
  {
    if from == |v.items| then "" else PrintedItem(v, from) + PrintedItems(v, from + 1)
  }

  ghost predicate KeysOf(v: Json, keys: seq<string>)
    requires v.Object?
  {
    forall i :: 0 <= i < |keys| ==> keys[i] in v.members
  }

  ghost function PrintedMember(v: Json, keys: seq<string>, i: nat): string
    requires v.Object? && IsJson(v) && KeysOf(v, keys) && i < |keys|
    decreases v, 0, 0
  {
    (if i > 0 then ", " else "") + Quoted(keys[i]) + ": " + Printed(v.members[keys[i]])
  }

  ghost function PrintedMembers(v: Json, keys: seq<string>, from: nat): string
    requires v.Object? && IsJson(v) && KeysOf(v, keys) && from <= |keys|
    decreases v, 0, |keys| - from + 1
  {
    if from == |keys| then "" else PrintedMember(v, keys, from) + PrintedMembers(v, keys, from + 1)
  }

  /** The keys of a map in whatever order it yields them. */
  method KeysInAnyOrder(m: map<string, Json>) returns (keys: seq<string>)
    ensures KeysIn(keys) == m.Keys && forall i, j :: 0 <= i < j < |keys| ==> keys[i] != keys[j]
  {
    keys := [];
    var left := m.Keys;
    while left != {}
      invariant left <= m.Keys && KeysIn(keys) == m.Keys - left
      invariant forall i, j :: 0 <= i < j < |keys| ==> keys[i] != keys[j]
      decreases |left|
    {
      var k :| k in left;
      assert k !in KeysIn(keys) && KeysIn(keys + [k]) == KeysIn(keys) + {k};
      keys := keys + [k];
      left := left - {k};
    }
  }

  /** Whatever order the maps in v yield their keys in, the text is the same one. */
  method WritePythonJSON(b: string, v: Json) returns (out: string, ok: bool)
    ensures ok == IsJson(v)
    ensures ok ==> out == b + Printed(v)
    decreases v, 1
  {
    match v
    case Null => out, ok := b + "null", true;
    case Bool(x) => out, ok := b + if x then "true" else "false", true;
    case Number(text) => out, ok := b + text, true;
    case String(s) =>
      out := WritePythonString(b, s);
      ok := true;
    case Array(items) => out, ok := WriteItems(b, v);
    case Object(members) => out, ok := WriteMembers(b, v);
    case Foreign => out, ok := b, false;
  }

  method WriteItems(b: string, v: Json) returns (out: string, ok: bool)
    requires v.Array?
    ensures ok == IsJson(v)
    ensures ok ==> out == b + Printed(v)
    decreases v, 0
  {
    hide Printed, PrintedItems;
    out := b + "[";
    for i := 0 to |v.items|
      invariant forall j :: 0 <= j < i ==> IsJson(v.items[j])
      invariant IsJson(v) ==> out + PrintedItems(v, i) == b + "[" + PrintedItems(v, 0)
    {
      ghost var before := out;
      if i > 0 {
        out := out + ", ";
      }
      out, ok := WritePythonJSON(out, v.items[i]);
      if !ok {
        return;
      }
      if IsJson(v) { ItemWritten(before, out, v, i); }
    }
    ItemsWritten(b, out, v);
    out, ok := out + "]", true;
  }

  lemma ItemWritten(before: string, out: string, v: Json, i: nat)
    requires v.Array? && IsJson(v) && i < |v.items|
    requires out == (if i > 0 then before + ", " else before) + Printed(v.items[i])
    ensures out + PrintedItems(v, i + 1) == before + PrintedItems(v, i)
  {
    assert out == before + PrintedItem(v, i);
  }

  lemma ItemsWritten(b: string, out: string, v: Json)
    requires v.Array? && IsJson(v) && out + PrintedItems(v, |v.items|) == b + "[" + PrintedItems(v, 0)
    ensures out + "]" == b + Printed(v)
  {
    hide PrintedItems, IsJson;
    assert PrintedItems(v, |v.items|) == "" by { NoItemsLeft(v); }
    Enclosed(b, out, "[", PrintedItems(v, 0), "]");
  }

  lemma NoItemsLeft(v: Json)
    requires v.Array? && IsJson(v)
    ensures PrintedItems(v, |v.items|) == ""
  {
  }

  lemma Enclosed(b: string, out: string, open: string, text: string, close: string)
    requires out + "" == b + open + text
    ensures out + close == b + (open + text + close)
  {
    assert out == b + open + text;
  }

  method WriteMembers(b: string, v: Json) returns (out: string, ok: bool)
    requires v.Object?
    ensures ok == IsJson(v)
    ensures ok ==> out == b + Printed(v)
    decreases v, 0
  {
    hide Quoted, Printed, PrintedMembers;
    var keys := KeysInAnyOrder(v.members);
    SortKeeps(keys);
    keys := Sort(keys);
    OneOrder(keys, Sorted(v.members.Keys));
    KeysOfSorted(v, keys);
    out := b + "{";
    for i := 0 to |keys|
      invariant forall j :: 0 <= j < i ==> IsJson(v.members[keys[j]])
      invariant IsJson(v) ==> out + PrintedMembers(v, keys, i) == b + "{" + PrintedMembers(v, keys, 0)
    {
      ghost var before := out;
      if i > 0 {
        out := out + ", ";
      }
      out := WritePythonString(out, keys[i]);
      out := out + ": ";
      out, ok := WritePythonJSON(out, v.members[keys[i]]);
      if !ok {
        return;
      }
      if IsJson(v) { MemberWritten(before, out, v, keys, i); }
    }
    assert forall k :: k in v.members ==> k in KeysIn(keys);
    MembersWritten(b, out, v, keys);
    out, ok := out + "}", true;
  }

  lemma MemberWritten(before: string, out: string, v: Json, keys: seq<string>, i: nat)
    requires v.Object? && IsJson(v) && KeysOf(v, keys) && i < |keys|
    requires out == (if i > 0 then before + ", " else before) + Quoted(keys[i]) + ": " + Printed(v.members[keys[i]])
    ensures out + PrintedMembers(v, keys, i + 1) == before + PrintedMembers(v, keys, i)
  {
    hide Quoted;
    assert out == before + PrintedMember(v, keys, i);
  }

  lemma MembersWritten(b: string, out: string, v: Json, keys: seq<string>)
    requires v.Object? && IsJson(v) && KeysOf(v, keys) && keys == Sorted(v.members.Keys)
    requires out + PrintedMembers(v, keys, |keys|) == b + "{" + PrintedMembers(v, keys, 0)
    ensures out + "}" == b + Printed(v)
  {
    hide PrintedMembers, IsJson, KeysOf, Sorted;
    assert PrintedMembers(v, keys, |keys|) == "" by { NoMembersLeft(v, keys); }
    Enclosed(b, out, "{", PrintedMembers(v, keys, 0), "}");
  }

  lemma NoMembersLeft(v: Json, keys: seq<string>)
    requires v.Object? && IsJson(v) && KeysOf(v, keys)
    ensures PrintedMembers(v, keys, |keys|) == ""
  {
  }

  // ----- reading --------------------------------------------------------------------------------

  predicate Blank(c: char) { c == ' ' || c == '\t' || c == '\n' || c == '\r' }

  function SkipBlanks(s: string): (r: string)
    ensures |r| <= |s|
  {
    if |s| > 0 && Blank(s[0]) then SkipBlanks(s[1..]) else s
  }

  function NumberLength(s: string): (n: nat)
    ensures n <= |s| && forall i :: 0 <= i < n ==> NumberChar(s[i])
  {
    if |s| > 0 && NumberChar(s[0]) then 1 + NumberLength(s[1..]) else 0
  }

  function ReadWord(s: string, word: string, v: Json): Option<Read<Json>> {
    if word <= s then Some(Read(v, s[|word|..])) else None
  }

  function ReadScalar(s: string): (r: Option<Read<Json>>)
    ensures r.Some? ==> |r.value.rest| <= |s|
  {
    if |s| == 0 then None
    else if s[0] == '"' then
      match ReadChars(s[1..])
      case None => None
      case Some(r) => Some(Read(String(r.value), r.rest))
    else if NumberLength(s) > 0 then Some(Read(Number(s[..NumberLength(s)]), s[NumberLength(s)..]))
    else if s[0] == 'n' then ReadWord(s, "null", Null)
    else if s[0] == 't' then ReadWord(s, "true", Bool(true))
    else ReadWord(s, "false", Bool(false))
  }

  function ReadValue(text: string): (r: Option<Read<Json>>)
    ensures r.Some? ==> |r.value.rest| <= |text|
    decreases |text|, 1
  {
    var s := SkipBlanks(text);
    if |s| == 0 then None
    else if s[0] == '[' then
      var inner := SkipBlanks(s[1..]);
      if |inner| > 0 && inner[0] == ']' then Some(Read(Array([]), inner[1..])) else ReadItems(inner, [])
    else if s[0] == '{' then
      var inner := SkipBlanks(s[1..]);
      if |inner| > 0 && inner[0] == '}' then Some(Read(Object(map[]), inner[1..])) else ReadMembers(inner, map[])
    else ReadScalar(s)
  }

  /** The items from here on, after those read before. */
  function ReadItems(s: string, items: seq<Json>): (r: Option<Read<Json>>)
    ensures r.Some? ==> |r.value.rest| <= |s|
    decreases |s|, 2
  {
    match ReadValue(s)
    case None => None
    case Some(v) =>
      var rest := SkipBlanks(v.rest);
      if |rest| == 0 then None
      else if rest[0] == ']' then Some(Read(Array(items + [v.value]), rest[1..]))
      else if rest[0] == ',' then ReadItems(rest[1..], items + [v.value])
      else None
  }

  function ReadMembers(text: string, members: map<string, Json>): (r: Option<Read<Json>>)
    ensures r.Some? ==> |r.value.rest| <= |text|
    decreases |text|, 2
  {
    var s := SkipBlanks(text);
    if |s| == 0 || s[0] != '"' then None else
    match ReadChars(s[1..])
    case None => None
    case Some(key) =>
      var colon := SkipBlanks(key.rest);
      if |colon| == 0 || colon[0] != ':' then None else
      match ReadValue(colon[1..])
      case None => None
      case Some(v) =>
        var rest := SkipBlanks(v.rest);
        if |rest| == 0 then None
        else if rest[0] == '}' then Some(Read(Object(members[key.value := v.value]), rest[1..]))
        else if rest[0] == ',' then ReadMembers(rest[1..], members[key.value := v.value])
        else None
  }

  function Parse(s: string): Option<Json> {
    match ReadValue(s)
    case None => None
    case Some(v) => if |SkipBlanks(v.rest)| == 0 then Some(v.value) else None
  }

  // ----- what is written is read back -----------------------------------------------------------

  /** What follows a value does not lengthen it, should it be a number. */
  predicate Closes(rest: string) { |rest| == 0 || (!NumberChar(rest[0]) && !Blank(rest[0])) }

  lemma {:induction false} NumberLengthIs(text: string, rest: string)
    requires (forall i :: 0 <= i < |text| ==> NumberChar(text[i])) && Closes(rest)
    ensures NumberLength(text + rest) == |text|
  {
    if |text| > 0 {
      assert (text + rest)[1..] == text[1..] + rest;
      NumberLengthIs(text[1..], rest);
    } else {
      assert text + rest == rest;
    }
  }

  /** A blank before a value is skipped. */
  lemma ReadAfterBlank(s: string)
    ensures ReadValue(" " + s) == ReadValue(s)
  {
    assert (" " + s)[1..] == s;
  }

  lemma StartsValue(v: Json)
    requires IsJson(v)
    ensures |Printed(v)| > 0 && !Blank(Printed(v)[0]) && Printed(v)[0] != ']' && Printed(v)[0] != '}'
  {
  }

  predicate IsScalar(v: Json) { v.Null? || v.Bool? || v.Number? || v.String? }

  lemma ScalarReadBack(v: Json, rest: string)
    requires IsScalar(v) && Closes(rest)
    ensures ReadScalar(Printed(v) + rest) == Some(Read(v, rest))
    ensures Printed(v)[0] != '[' && Printed(v)[0] != '{'
  {
    hide ReadChars, Escaped;
    var s := Printed(v) + rest;
    match v
    case Null => assert s[4..] == rest && "null" <= s;
    case Bool(b) =>
      if b {
        assert s[4..] == rest && "true" <= s;
      } else {
        assert s[5..] == rest && "false" <= s;
      }
    case Number(text) =>
      NumberLengthIs(text, rest);
      assert s[0] == text[0] && s[..|text|] == text && s[|text|..] == rest;
    case String(str) =>
      QuotedThen(str, rest);
      CharsRead(str, rest);
  }

  lemma QuotedThen(str: string, rest: string)
    ensures var s := Quoted(str) + rest; s[0] == '"' && s[1..] == Escaped(str) + "\"" + rest
  {
    hide Escaped;
    var text := Escaped(str);
    assert Quoted(str) + rest == "\"" + (text + "\"" + rest);
  }

  /** Text that starts with no blank, and with no bracket when a scalar is to be read. */
  lemma SkipsNothing(s: string)
    requires |s| > 0 && !Blank(s[0])
    ensures SkipBlanks(s) == s
    ensures s[0] != '[' && s[0] != '{' ==> ReadValue(s) == ReadScalar(s)
  {
    hide ReadScalar, ReadItems, ReadMembers;
  }

  lemma {:induction false} ReadBack(v: Json, rest: string)
    requires IsJson(v) && Closes(rest)
    ensures ReadValue(Printed(v) + rest) == Some(Read(v, rest))
    decreases v, 1, 0
  {
    hide ReadValue, ReadScalar, Printed, Closes;
    StartsValue(v);
    if v.Array? {
      ArrayReadBack(v, rest);
    } else if v.Object? {
      ObjectReadBack(v, rest);
    } else {
      ScalarReadBack(v, rest);
      SkipsNothing(Printed(v) + rest);
    }
  }

  lemma OpenArray(inner: string)
    requires |inner| > 0 && !Blank(inner[0])
    ensures ReadValue("[" + inner) == if inner[0] == ']' then Some(Read(Array([]), inner[1..])) else ReadItems(inner, [])
  {
    hide ReadItems, ReadMembers, ReadScalar;
    assert ("[" + inner)[1..] == inner;
  }

  lemma OpenObject(inner: string)
    requires |inner| > 0 && !Blank(inner[0])
    ensures ReadValue("{" + inner) == if inner[0] == '}' then Some(Read(Object(map[]), inner[1..])) else ReadMembers(inner, map[])
  {
    hide ReadItems, ReadMembers, ReadScalar;
    assert ("{" + inner)[1..] == inner;
  }

  /** What is left to read at an item. */
  ghost function ItemsText(v: Json, from: nat, rest: string): string
    requires v.Array? && IsJson(v) && from < |v.items|
  {
    Printed(v.items[from]) + (PrintedItems(v, from + 1) + "]" + rest)
  }

  lemma {:induction false} ArrayReadBack(v: Json, rest: string)
    requires v.Array? && IsJson(v)
    ensures ReadValue(Printed(v) + rest) == Some(Read(v, rest))
    decreases v, 0, |v.items| + 1
  {
    hide ReadValue, ReadItems;
    var inner := PrintedItems(v, 0) + "]" + rest;
    assert Printed(v) + rest == "[" + inner;
    if |v.items| == 0 {
      assert inner == "]" + rest && inner[1..] == rest;
    } else {
      StartsValue(v.items[0]);
      assert PrintedItem(v, 0) == Printed(v.items[0]);
      assert inner == ItemsText(v, 0, rest);
      ItemsReadBack(v, 0, rest);
      assert v.items[..0] == [];
    }
    OpenArray(inner);
  }

  /** After a value that was read, the end of the array or its next item. */
  lemma NextItem(s: string, items: seq<Json>, v: Json, more: string)
    requires ReadValue(s) == Some(Read(v, more)) && |more| > 0 && |more| <= |s| && !Blank(more[0])
    ensures more[0] == ']' ==> ReadItems(s, items) == Some(Read(Array(items + [v]), more[1..]))
    ensures more[0] == ',' ==> ReadItems(s, items) == ReadItems(more[1..], items + [v])
  {
    hide ReadValue;
  }

  lemma {:induction false} ItemsReadBack(v: Json, from: nat, rest: string)
    requires v.Array? && IsJson(v) && from < |v.items|
    ensures ReadItems(ItemsText(v, from, rest), v.items[..from]) == Some(Read(v, rest))
    decreases v, 0, |v.items| - from
  {
    hide ReadItems, ReadValue, Printed;
    var items, more := v.items, PrintedItems(v, from + 1) + "]" + rest;
    assert items[..from] + [items[from]] == items[..from + 1];
    if from + 1 == |items| {
      assert more == "]" + rest && more[1..] == rest;
      assert items[..from + 1] == items;
      ReadBack(items[from], more);
      NextItem(ItemsText(v, from, rest), items[..from], items[from], more);
    } else {
      var tail := ItemsText(v, from + 1, rest);
      assert PrintedItem(v, from + 1) == ", " + Printed(items[from + 1]);
      assert more == ", " + tail;
      assert more[0] == ',' && more[1..] == " " + tail;
      ReadBack(items[from], more);
      NextItem(ItemsText(v, from, rest), items[..from], items[from], more);
      ItemsReadBack(v, from + 1, rest);
      ItemsAfterBlank(tail, items[..from + 1]);
    }
  }

  lemma ItemsAfterBlank(s: string, items: seq<Json>)
    ensures ReadItems(" " + s, items) == ReadItems(s, items)
  {
    ReadAfterBlank(s);
  }

  lemma MembersAfterBlank(s: string, members: map<string, Json>)
    ensures ReadMembers(" " + s, members) == ReadMembers(s, members)
  {
    assert (" " + s)[1..] == s;
  }

  /** Some of a map's members. */
  ghost function Part(m: map<string, Json>, keys: seq<string>): map<string, Json> {
    map k | k in m && k in keys :: m[k]
  }

  lemma PartOneMore(m: map<string, Json>, keys: seq<string>, i: nat)
    requires i < |keys| && keys[i] in m
    ensures Part(m, keys[..i])[keys[i] := m[keys[i]]] == Part(m, keys[..i + 1])
  {
    assert keys[..i + 1] == keys[..i] + [keys[i]];
  }

  lemma PartAll(m: map<string, Json>, keys: seq<string>)
    requires KeysIn(keys) == m.Keys
    ensures Part(m, keys) == m && Part(m, []) == map[]
  {
    assert forall k :: k in m ==> k in KeysIn(keys);
  }

  lemma KeysOfSorted(v: Json, keys: seq<string>)
    requires v.Object? && KeysIn(keys) == v.members.Keys
    ensures KeysOf(v, keys)
  {
    assert forall i :: 0 <= i < |keys| ==> keys[i] in KeysIn(keys);
  }

  lemma StartsWithQuote(s: string)
    ensures |Quoted(s)| > 0 && Quoted(s)[0] == '"'
  {
  }

  /** What is left to read at the key of a member. */
  ghost function MembersText(v: Json, keys: seq<string>, from: nat, rest: string): string
    requires v.Object? && IsJson(v) && KeysOf(v, keys) && from < |keys|
  {
    Quoted(keys[from]) + (": " + (Printed(v.members[keys[from]]) + (PrintedMembers(v, keys, from + 1) + "}" + rest)))
  }

  lemma {:induction false} ObjectReadBack(v: Json, rest: string)
    requires v.Object? && IsJson(v)
    ensures ReadValue(Printed(v) + rest) == Some(Read(v, rest))
    decreases v, 0, |Sorted(v.members.Keys)| + 1
  {
    hide ReadValue, ReadMembers, Quoted, Part;
    var keys := Sorted(v.members.Keys);
    KeysOfSorted(v, keys);
    PartAll(v.members, keys);
    var inner := PrintedMembers(v, keys, 0) + "}" + rest;
    assert Printed(v) + rest == "{" + inner;
    if |keys| == 0 {
      assert inner == "}" + rest && inner[1..] == rest;
      assert keys == [];
    } else {
      assert PrintedMember(v, keys, 0) == Quoted(keys[0]) + ": " + Printed(v.members[keys[0]]);
      assert inner == MembersText(v, keys, 0, rest);
      StartsWithQuote(keys[0]);
      MembersReadBack(v, keys, 0, rest);
      assert keys[..0] == [];
    }
    OpenObject(inner);
  }

  /** After a member that was read, the end of the object or its next member. */
  lemma NextMember(k: string, text: string, members: map<string, Json>, v: Json, more: string)
    requires ReadValue(text) == Some(Read(v, more)) && |more| > 0 && !Blank(more[0])
    ensures var s := Quoted(k) + (": " + text);
            && (more[0] == '}' ==> ReadMembers(s, members) == Some(Read(Object(members[k := v]), more[1..])))
            && (more[0] == ',' ==> ReadMembers(s, members) == ReadMembers(more[1..], members[k := v]))
  {
    hide ReadValue, ReadChars, Escaped;
    var s, colon := Quoted(k) + (": " + text), ": " + text;
    assert s[0] == '"' && s[1..] == Escaped(k) + "\"" + colon;
    CharsRead(k, colon);
    assert colon[1..] == " " + text;
    ReadAfterBlank(text);
  }

  lemma {:induction false} MembersReadBack(v: Json, keys: seq<string>, from: nat, rest: string)
    requires v.Object? && IsJson(v) && KeysOf(v, keys) && from < |keys| && KeysIn(keys) == v.members.Keys
    ensures ReadMembers(MembersText(v, keys, from, rest), Part(v.members, keys[..from])) == Some(Read(v, rest))
    decreases v, 0, |keys| - from
  {
    hide ReadMembers, ReadValue, Printed, Quoted, Part;
    var k, done := keys[from], Part(v.members, keys[..from]);
    var more := PrintedMembers(v, keys, from + 1) + "}" + rest;
    PartOneMore(v.members, keys, from);
    if from + 1 == |keys| {
      assert more == "}" + rest && more[1..] == rest;
      assert keys[..from + 1] == keys;
      PartAll(v.members, keys);
      ReadBack(v.members[k], more);
      NextMember(k, Printed(v.members[k]) + more, done, v.members[k], more);
    } else {
      var tail := MembersText(v, keys, from + 1, rest);
      var next := keys[from + 1];
      assert PrintedMember(v, keys, from + 1) == ", " + Quoted(next) + ": " + Printed(v.members[next]);
      assert more == ", " + tail;
      assert more[0] == ',' && more[1..] == " " + tail;
      ReadBack(v.members[k], more);
      NextMember(k, Printed(v.members[k]) + more, done, v.members[k], more);
      MembersReadBack(v, keys, from + 1, rest);
      MembersAfterBlank(tail, Part(v.members, keys[..from + 1]));
    }
  }

  /** Every nested value is got back from its text, so two values never share one. */
  lemma ParseUndoesPrint(v: Json)
    requires IsJson(v)
    ensures Parse(Printed(v)) == Some(v)
  {
    ReadBack(v, "");
    assert Printed(v) + "" == Printed(v);
  }

  lemma PrintedOnce(v: Json, w: Json)
    requires IsJson(v) && IsJson(w) && Printed(v) == Printed(w)
    ensures v == w
  {
    ParseUndoesPrint(v);
    ParseUndoesPrint(w);
  }

  // ----- laid out as Python does ----------------------------------------------------------------

  /** Texts with a separator between any two. */
  function JoinWith(parts: seq<string>, separator: string): string {
    if |parts| == 0 then ""
    else if |parts| == 1 then parts[0]
    else JoinWith(parts[..|parts| - 1], separator) + separator + parts[|parts| - 1]
  }

  ghost function ItemTexts(v: Json, n: nat): seq<string>
    requires v.Array? && IsJson(v) && n <= |v.items|
  {
    seq(n, i requires 0 <= i < n => Printed(v.items[i]))
  }

  ghost function MemberTexts(v: Json, keys: seq<string>, n: nat): seq<string>
    requires v.Object? && IsJson(v) && KeysOf(v, keys) && n <= |keys|
  {
    seq(n, i requires 0 <= i < n => Quoted(keys[i]) + ": " + Printed(v.members[keys[i]]))
  }

  lemma {:induction false} ItemsJoined(v: Json, n: nat)
    requires v.Array? && IsJson(v) && n <= |v.items|
    ensures PrintedItems(v, 0) == JoinWith(ItemTexts(v, n), ", ") + PrintedItems(v, n)
  {
    hide Printed;
    if n > 0 {
      ItemsJoined(v, n - 1);
      var texts := ItemTexts(v, n);
      assert texts[..n - 1] == ItemTexts(v, n - 1);
      assert PrintedItems(v, n - 1) == PrintedItem(v, n - 1) + PrintedItems(v, n);
    }
  }

  lemma {:induction false} MembersJoined(v: Json, keys: seq<string>, n: nat)
    requires v.Object? && IsJson(v) && KeysOf(v, keys) && n <= |keys|
    ensures PrintedMembers(v, keys, 0) == JoinWith(MemberTexts(v, keys, n), ", ") + PrintedMembers(v, keys, n)
  {
    hide Printed, Quoted, PrintedMembers, JoinWith;
    if n == 0 {
      NothingJoined();
    } else {
      MembersJoined(v, keys, n - 1);
      var texts := MemberTexts(v, keys, n);
      assert texts[..n - 1] == MemberTexts(v, keys, n - 1);
      assert PrintedMember(v, keys, n - 1) == (if n > 1 then ", " else "") + texts[n - 1];
      MembersFrom(v, keys, n - 1);
      JoinedMore(texts);
      Regrouped(JoinWith(texts[..n - 1], ", "), PrintedMember(v, keys, n - 1), PrintedMembers(v, keys, n));
    }
  }

  lemma MembersFrom(v: Json, keys: seq<string>, from: nat)
    requires v.Object? && IsJson(v) && KeysOf(v, keys) && from < |keys|
    ensures PrintedMembers(v, keys, from) == PrintedMember(v, keys, from) + PrintedMembers(v, keys, from + 1)
  {
  }

  lemma NothingJoined()
    ensures JoinWith([], ", ") == ""
  {
  }

  lemma JoinedMore(parts: seq<string>)
    requires |parts| > 0
    ensures var n := |parts| - 1;
            JoinWith(parts, ", ") == JoinWith(parts[..n], ", ") + ((if n > 0 then ", " else "") + parts[n])
  {
  }

  lemma Regrouped(a: string, b: string, c: string)
    ensures a + (b + c) == a + b + c
  {
  }

  /** A comma and a blank between items and members, a colon and a blank after a key, the keys in order. */
  lemma PrintedAsPython(v: Json)
    requires IsJson(v)
    ensures v.Array? ==> Printed(v) == "[" + JoinWith(ItemTexts(v, |v.items|), ", ") + "]"
    ensures v.Object? ==>
              var keys := Sorted(v.members.Keys);
              KeysOf(v, keys) && Printed(v) == "{" + JoinWith(MemberTexts(v, keys, |keys|), ", ") + "}"
  {
    hide JoinWith, ItemTexts, MemberTexts;
    if v.Array? {
      ItemsJoined(v, |v.items|);
      NoItemsLeft(v);
    } else if v.Object? {
      var keys := Sorted(v.members.Keys);
      KeysOfSorted(v, keys);
      MembersJoined(v, keys, |keys|);
      NoMembersLeft(v, keys);
    }
  }

  // ----- only printable ASCII -------------------------------------------------------------------

  lemma {:induction false} PrintedPrintable(v: Json)
    requires IsJson(v)
    ensures Printable(Printed(v))
    decreases v, 1, 0
  {
    hide PrintedItems, PrintedMembers, Escaped, NumberChar, Printable;
    match v
    case Null => WordsPrintable();
    case Bool(_) => WordsPrintable();
    case Number(text) => NumberPrintable(text);
    case String(s) =>
      EscapedPrintable(s);
      AroundPrintable("\"", Escaped(s), "\"");
    case Array(items) =>
      ItemsPrintable(v, 0);
      AroundPrintable("[", PrintedItems(v, 0), "]");
    case Object(members) =>
      var keys := Sorted(members.Keys);
      assert forall i :: 0 <= i < |keys| ==> keys[i] in KeysIn(keys);
      MembersPrintable(v, keys, 0);
      AroundPrintable("{", PrintedMembers(v, keys, 0), "}");
  }

  lemma WordsPrintable()
    ensures Printable("null") && Printable("true") && Printable("false")
  {
  }

  lemma NumberPrintable(text: NumberText)
    ensures Printable(text)
  {
  }

  lemma AroundPrintable(open: string, text: string, close: string)
    requires |open| == |close| == 1 && ' ' <= open[0] <= '~' && ' ' <= close[0] <= '~' && Printable(text)
    ensures Printable(open + text + close) && Printable(open + (text + close))
  {
  }

  lemma {:induction false} ItemsPrintable(v: Json, from: nat)
    requires v.Array? && IsJson(v) && from <= |v.items|
    ensures Printable(PrintedItems(v, from))
    decreases v, 0, |v.items| - from
  {
    if from < |v.items| {
      PrintedPrintable(v.items[from]);
      ItemsPrintable(v, from + 1);
    }
  }

  lemma {:induction false} MembersPrintable(v: Json, keys: seq<string>, from: nat)
    requires v.Object? && IsJson(v) && KeysOf(v, keys) && from <= |keys|
    ensures Printable(PrintedMembers(v, keys, from))
    decreases v, 0, |keys| - from
  {
    if from < |keys| {
      EscapedPrintable(keys[from]);
      PrintedPrintable(v.members[keys[from]]);
      MembersPrintable(v, keys, from + 1);
    }
  }
}
