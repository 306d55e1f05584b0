/** JSON values and the texts encoders write for them, members of objects in any order and no
    white space; and a decoder (RFC 8259, sections 4, 5 and 7), which gets the value back
    whatever the order. */
module JsonTexts {
  import opened Model
  import opened JsonStrings

  predicate NumberChar(c: char) {
    '0' <= c <= '9' || c == '-' || c == '+' || c == '.' || c == 'e' || c == 'E'
  }

  lemma NumberCharTable(c: char)
    ensures NumberChar(c) <==> c in ['0', '1', '2', '3', '4', '5', '6', '7', '8', '9', '-', '+', '.', 'e', 'E']
  {
  }

  /** A number as the encoder writes it. */
  type NumberText = s: string | s != "" && forall c | c in s :: NumberChar(c) witness "0"

  datatype Json =
    | JNull
    | JBool(b: bool)
    | JNum(text: NumberText)
    | JStr(s: string)
    | JArr(elems: seq<Json>)
    | JObj(fields: map<string, Json>)

  /** What an encoder walks over: a value whose objects list their members in the order in
      which they are written. That is the order of the fields for a struct, the order of the
      keys for a map. */
  datatype Tree =
    | TNull
    | TBool(b: bool)
    | TNum(text: NumberText)
    | TStr(s: string)
    | TArr(elems: seq<Tree>)
    | TObj(members: seq<Member>)

  datatype Member = Member(key: string, value: Tree)

  // ----- Writing -----

  function Text(t: Tree): (s: string)
    decreases t, 1, 0
  {
    match t
    case TNull => "null"
    case TBool(b) => if b then "true" else "false"
    case TNum(text) => text
    case TStr(s) => Quote(s)
    case TArr(_) => "[" + ElementsFrom(t, 0)
    case TObj(_) => "{" + MembersFrom(t, 0)
  }

  function Separator(i: nat): string {
    if i == 0 then "" else ","
  }

  function ElementsFrom(t: Tree, i: nat): string
    requires t.TArr? && i <= |t.elems|
    decreases t, 0, |t.elems| - i
  {
    if i == |t.elems| then "]" else Separator(i) + Text(t.elems[i]) + ElementsFrom(t, i + 1)
  }

  function MembersFrom(t: Tree, i: nat): string
    requires t.TObj? && i <= |t.members|
    decreases t, 0, |t.members| - i
  {
    if i == |t.members| then "}"
    else Separator(i) + (Quote(t.members[i].key) + ":" + Text(t.members[i].value)) + MembersFrom(t, i + 1)
  }

  // ----- The value meant -----

  /** Of members with the same key the last one counts. */
  function Meaning(t: Tree): Json
    decreases t, 1, 0
  {
    match t
    case TNull => JNull
    case TBool(b) => JBool(b)
    case TNum(text) => JNum(text)
    case TStr(s) => JStr(s)
    case TArr(_) => JArr(Elements(t, 0))
    case TObj(_) => JObj(Fields(t, 0))
  }

  function Elements(t: Tree, i: nat): seq<Json>
    requires t.TArr? && i <= |t.elems|
    decreases t, 0, |t.elems| - i
  {
    if i == |t.elems| then [] else [Meaning(t.elems[i])] + Elements(t, i + 1)
  }

  function Fields(t: Tree, i: nat): map<string, Json>
    requires t.TObj? && i <= |t.members|
    decreases t, 0, |t.members| - i
  {
    if i == |t.members| then map[] else map[t.members[i].key := Meaning(t.members[i].value)] + Fields(t, i + 1)
  }

  // ----- A decoder -----

  function NumberPrefix(s: string): (p: string)
    ensures p <= s && forall c | c in p :: NumberChar(c)
  {
    if s == "" || !NumberChar(s[0]) then "" else [s[0]] + NumberPrefix(s[1..])
  }

  function Parse(s: string): (r: Option<(Json, string)>)
    ensures r.Some? ==> |r.value.1| < |s|
    decreases |s|, 0
  {
    if s == "" then None
    else if "null" <= s then Some((JNull, s[4..]))
    else if "true" <= s then Some((JBool(true), s[4..]))
    else if "false" <= s then Some((JBool(false), s[5..]))
    else if s[0] == '"' then
      var chars := ParseChars(s[1..]);
      if chars.None? then None else Some((JStr(chars.value.0), chars.value.1))
    else if s[0] == '[' then
      var elems := ParseElements(s[1..], true);
      if elems.None? then None else Some((JArr(elems.value.0), elems.value.1))
    else if s[0] == '{' then
      var fields := ParseMembers(s[1..], true);
      if fields.None? then None else Some((JObj(fields.value.0), fields.value.1))
    else
      var text := NumberPrefix(s);
      if text == "" then None else Some((JNum(text), s[|text|..]))
  }

  /** Past a separating comma, which the first item does not have. */
  function AfterSeparator(s: string, first: bool): (r: Option<string>)
    ensures r.Some? ==> |r.value| <= |s|
  {
    if first then Some(s)
    else if s != "" && s[0] == ',' then Some(s[1..])
    else None
  }

  function ParseElements(s: string, first: bool): (r: Option<(seq<Json>, string)>)
    ensures r.Some? ==> |r.value.1| < |s|
    decreases |s|, 1
  {
    if s != "" && s[0] == ']' then Some(([], s[1..]))
    else
      var item := AfterSeparator(s, first);
      if item.None? then None
      else
        var v := Parse(item.value);
        if v.None? then None
        else
          var more := ParseElements(v.value.1, false);
          if more.None? then None else Some(([v.value.0] + more.value.0, more.value.1))
  }

  /** A key, a colon and a value. */
  function ParseMember(s: string): (r: Option<(string, Json, string)>)
    ensures r.Some? ==> |r.value.2| < |s|
    decreases |s|, 0
  {
    if s == "" || s[0] != '"' then None
    else
      var key := ParseChars(s[1..]);
      if key.None? || key.value.1 == "" || key.value.1[0] != ':' then None
      else
        var v := Parse(key.value.1[1..]);
        if v.None? then None else Some((key.value.0, v.value.0, v.value.1))
  }

  function ParseMembers(s: string, first: bool): (r: Option<(map<string, Json>, string)>)
    ensures r.Some? ==> |r.value.1| < |s|
    decreases |s|, 1
  {
    if s != "" && s[0] == '}' then Some((map[], s[1..]))
    else
      var item := AfterSeparator(s, first);
      if item.None? then None
      else
        var member := ParseMember(item.value);
        if member.None? then None
        else
          var more := ParseMembers(member.value.2, false);
          if more.None? then None
          else Some((map[member.value.0 := member.value.1] + more.value.0, more.value.1))
  }

  function Decode(s: string): Option<Json> {
    var r := Parse(s);
    if r.Some? && r.value.1 == "" then Some(r.value.0) else None
  }

  // ----- The decoder gets every value back -----

  /** What follows cannot be read as part of a number. */
  predicate Ends(rest: string) {
    rest == "" || !NumberChar(rest[0])
  }

  lemma {:induction false} NumberRoundTrip(text: string, rest: string)
    requires (forall c | c in text :: NumberChar(c)) && Ends(rest)
    ensures NumberPrefix(text + rest) == text
  {
    if text == "" {
      assert text + rest == rest;
    } else {
      assert (text + rest)[1..] == text[1..] + rest;
      NumberRoundTrip(text[1..], rest);
    }
  }

  /** Nothing else starts like a number. */
  lemma NumberStart(s: string)
    requires s != "" && NumberChar(s[0])
    ensures !("null" <= s) && !("true" <= s) && !("false" <= s) && s[0] != '"' && s[0] != '[' && s[0] != '{'
  {
    assert "null"[0] == 'n' && "true"[0] == 't' && "false"[0] == 'f';
  }

  lemma ParseNumber(text: NumberText, rest: string)
    requires Ends(rest)
    ensures Parse(text + rest) == Some((JNum(text), rest))
  {
    var s := text + rest;
    assert s[0] == text[0] && text[0] in text;
    NumberStart(s);
    NumberRoundTrip(text, rest);
    assert s[|text|..] == rest;
    hide ParseElements, ParseMembers, ParseChars, NumberPrefix, NumberChar;
  }

  lemma ParseString(chars: string, rest: string)
    ensures Parse(Quote(chars) + rest) == Some((JStr(chars), rest))
  {
    hide ParseElements, ParseMembers, ParseChars, Escaped, NumberPrefix;
    var s := Quote(chars) + rest;
    assert s[1..] == Escaped(chars) + "\"" + rest;
    assert s[0] == '"' && "null"[0] == 'n' && "true"[0] == 't' && "false"[0] == 'f';
    CharsRoundTrip(chars, rest);
  }

  lemma ParseLiteral(t: Tree, rest: string)
    requires t.TNull? || t.TBool?
    ensures Parse(Text(t) + rest) == Some((Meaning(t), rest))
  {
    var s := Text(t) + rest;
    assert s[|Text(t)|..] == rest;
    assert "null"[0] == 'n' && "true"[0] == 't' && "false"[0] == 'f';
    assert s[0] == Text(t)[0];
  }

  /** No value starts like the end of an array or an object. */
  lemma FirstChar(t: Tree)
    ensures Text(t) != "" && Text(t)[0] != ']' && Text(t)[0] != '}'
  {
    if t.TNum? {
      assert t.text[0] in t.text;
    }
  }

  lemma ElementsStart(t: Tree, i: nat)
    requires t.TArr? && i <= |t.elems| && (i > 0 || i == |t.elems|)
    ensures ElementsFrom(t, i) != "" && ElementsFrom(t, i)[0] == if i == |t.elems| then ']' else ','
  {
  }

  lemma MembersStart(t: Tree, i: nat)
    requires t.TObj? && i <= |t.members| && (i > 0 || i == |t.members|)
    ensures MembersFrom(t, i) != "" && MembersFrom(t, i)[0] == if i == |t.members| then '}' else ','
  {
  }

  /** The step every item takes: past its separator, to the item itself. */
  lemma SkipSeparator(i: nat, item: string, rest: string)
    ensures AfterSeparator(Separator(i) + item + rest, i == 0) == Some(item + rest)
  {
    if i > 0 {
      assert (Separator(i) + item + rest)[1..] == item + rest;
    } else {
      assert Separator(i) + item + rest == item + rest;
    }
  }

  /** The decoder reads the value meant out of any of its texts and stops right behind it. */
  lemma {:induction false} ParseText(t: Tree, rest: string)
    requires Ends(rest)
    ensures Parse(Text(t) + rest) == Some((Meaning(t), rest))
    decreases t, 1, 0
  {
    hide ParseElements, ParseMembers, ParseChars, NumberPrefix, ElementsFrom, MembersFrom, Elements, Fields, Escaped;
    match t
    case TNull => ParseLiteral(t, rest);
    case TBool(_) => ParseLiteral(t, rest);
    case TNum(text) => ParseNumber(text, rest);
    case TStr(s) => ParseString(s, rest);
    case TArr(_) =>
      ParseElementsFrom(t, 0, rest);
      OpenBracket('[', ElementsFrom(t, 0), rest);
    case TObj(_) =>
      ParseMembersFrom(t, 0, rest);
      OpenBracket('{', MembersFrom(t, 0), rest);
  }

  lemma OpenBracket(c: char, body: string, rest: string)
    requires c == '[' || c == '{'
    ensures
      var s := [c] + body + rest;
      s != "" && s[0] == c && s[1..] == body + rest && !("null" <= s) && !("true" <= s) && !("false" <= s)
  {
    assert "null"[0] == 'n' && "true"[0] == 't' && "false"[0] == 'f';
    assert ([c] + body + rest)[1..] == body + rest;
  }

  lemma ParseElementsStep(s: string, first: bool, item: string, v: Json, tail: string, vs: seq<Json>, rest: string)
    requires s != "" && s[0] != ']' && AfterSeparator(s, first) == Some(item)
    requires Parse(item) == Some((v, tail)) && ParseElements(tail, false) == Some((vs, rest))
    ensures ParseElements(s, first) == Some(([v] + vs, rest))
  {
    hide Parse, AfterSeparator;
  }

  lemma ParseMembersStep(s: string, first: bool, item: string, k: string, v: Json, tail: string,
                         m: map<string, Json>, rest: string)
    requires s != "" && s[0] != '}' && AfterSeparator(s, first) == Some(item)
    requires ParseMember(item) == Some((k, v, tail)) && ParseMembers(tail, false) == Some((m, rest))
    ensures ParseMembers(s, first) == Some((map[k := v] + m, rest))
  {
    hide ParseMember, AfterSeparator;
  }

  lemma {:induction false} ParseElementsFrom(t: Tree, i: nat, rest: string)
    requires t.TArr? && i <= |t.elems|
    ensures ParseElements(ElementsFrom(t, i) + rest, i == 0) == Some((Elements(t, i), rest))
    decreases t, 0, |t.elems| - i
  {
    hide Parse, Text, Meaning, AfterSeparator, ParseMembers, ParseMember, MembersFrom, Fields;
    var s := ElementsFrom(t, i) + rest;
    if i == |t.elems| {
      assert s[1..] == rest;
    } else {
      var item, tail := Text(t.elems[i]), ElementsFrom(t, i + 1) + rest;
      assert s == Separator(i) + item + tail;
      SkipSeparator(i, item, tail);
      FirstChar(t.elems[i]);
      assert s[0] == if i == 0 then item[0] else ',';
      ElementsStart(t, i + 1);
      assert Ends(tail);
      ParseText(t.elems[i], tail);
      ParseElementsFrom(t, i + 1, rest);
      ParseElementsStep(s, i == 0, item + tail, Meaning(t.elems[i]), tail, Elements(t, i + 1), rest);
    }
  }

  lemma ParseOneMember(m: Member, rest: string)
    requires Parse(Text(m.value) + rest) == Some((Meaning(m.value), rest))
    ensures ParseMember(Quote(m.key) + ":" + Text(m.value) + rest) == Some((m.key, Meaning(m.value), rest))
  {
    hide Parse, Text, Meaning, Escaped, ParseChars;
    var s := Quote(m.key) + ":" + Text(m.value) + rest;
    var value := ":" + Text(m.value) + rest;
    assert s[1..] == Escaped(m.key) + "\"" + value;
    CharsRoundTrip(m.key, value);
    assert value[1..] == Text(m.value) + rest;
  }

  lemma {:induction false} ParseMembersFrom(t: Tree, i: nat, rest: string)
    requires t.TObj? && i <= |t.members|
    ensures ParseMembers(MembersFrom(t, i) + rest, i == 0) == Some((Fields(t, i), rest))
    decreases t, 0, |t.members| - i
  {
    hide Parse, Text, Meaning, AfterSeparator, ParseElements, ParseMember, ElementsFrom, Elements, Escaped;
    var s := MembersFrom(t, i) + rest;
    if i == |t.members| {
      assert s[1..] == rest;
    } else {
      var m := t.members[i];
      var item, tail := Quote(m.key) + ":" + Text(m.value), MembersFrom(t, i + 1) + rest;
      assert s == Separator(i) + item + tail;
      SkipSeparator(i, item, tail);
      assert s[0] == if i == 0 then '"' else ',';
      MembersStart(t, i + 1);
      assert Ends(tail);
      ParseText(m.value, tail);
      ParseOneMember(m, tail);
      ParseMembersFrom(t, i + 1, rest);
      ParseMembersStep(s, i == 0, item + tail, m.key, Meaning(m.value), tail, Fields(t, i + 1), rest);
    }
  }

  /** With nothing left over. */
  lemma DecodeText(t: Tree)
    ensures Decode(Text(t)) == Some(Meaning(t))
  {
    assert Text(t) + "" == Text(t);
    ParseText(t, "");
  }
}
