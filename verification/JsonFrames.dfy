/** JSON texts on the wire: the encoder escapes all control characters, so a text fits on one
    line of a frame and comes out of the line parser as it went in, in whatever order the
    members of its objects are written. */
module JsonFrames {
  import opened Model
  import opened JsonStrings
  import opened JsonTexts
  import opened Sse
  import opened Scanning
  import Client
  import Decimal

  /** No control characters, nothing special to HTML, no JavaScript line separators. */
  predicate Plain(s: string) {
    forall c | c in s :: !Escapes(c)
  }

  lemma HexPlain(d: nat)
    requires d < 16
    ensures !Escapes(HexDigit(d))
  {
    assert HEX[10..] == "abcdef";
  }

  lemma UnicodePlain(n: nat)
    requires n < 0x1_0000
    ensures Plain(UnicodeEscape(n))
  {
    hide HexDigit;
    HexPlain(n / 4096);
    HexPlain(n / 256 % 16);
    HexPlain(n / 16 % 16);
    HexPlain(n % 16);
    assert !Escapes('\\') && !Escapes('u');
    hide Escapes;
  }

  lemma EscapePlain(c: char)
    ensures Plain(Escape(c))
  {
    if Escapes(c) {
      UnicodePlain(c as int);
      hide UnicodeEscape;
    }
  }

  lemma {:induction false} QuotePlain(s: string)
    ensures Plain(Escaped(s)) && Plain(Quote(s))
  {
    if s != "" {
      EscapePlain(s[0]);
      QuotePlain(s[1..]);
      hide Escape;
    }
  }

  lemma NumberPlain(text: NumberText)
    ensures Plain(text)
  {
    assert forall c | c in text :: NumberChar(c);
  }

  function Last(s: string): char
    requires s != ""
  {
    s[|s| - 1]
  }

  lemma ItemPlain(i: nat, item: string, rest: string)
    requires Plain(item) && Plain(rest) && rest != ""
    ensures
      var s := Separator(i) + item + rest;
      Plain(s) && s != "" && Last(s) == Last(rest)
  {
    var s := Separator(i) + item + rest;
    assert !Escapes(',');
    hide Escapes;
    forall c | c in s ensures !Escapes(c) {
      assert c in Separator(i) || c in item || c in rest;
    }
  }

  lemma MemberPlain(key: string, value: string)
    requires Plain(key) && Plain(value)
    ensures Plain(key + ":" + value)
  {
    assert !Escapes(':');
    hide Escapes;
  }

  /** Texts are plain throughout. */
  lemma {:induction false} TextPlain(t: Tree)
    ensures Plain(JsonTexts.Text(t))
    decreases t, 1, 0
  {
    match t
    case TNull =>
    case TBool(_) =>
    case TNum(text) => NumberPlain(text);
    case TStr(s) => QuotePlain(s);
    case TArr(_) => ElementsPlain(t, 0);
    case TObj(_) => MembersPlain(t, 0);
  }

  lemma {:induction false} ElementsPlain(t: Tree, i: nat)
    requires t.TArr? && i <= |t.elems|
    ensures Plain(ElementsFrom(t, i)) && ElementsFrom(t, i) != "" && Last(ElementsFrom(t, i)) == ']'
    decreases t, 0, |t.elems| - i
  {
    if i < |t.elems| {
      TextPlain(t.elems[i]);
      ElementsPlain(t, i + 1);
      hide JsonTexts.Text, Plain;
      ItemPlain(i, JsonTexts.Text(t.elems[i]), ElementsFrom(t, i + 1));
    }
  }

  lemma {:induction false} MembersPlain(t: Tree, i: nat)
    requires t.TObj? && i <= |t.members|
    ensures Plain(MembersFrom(t, i)) && MembersFrom(t, i) != "" && Last(MembersFrom(t, i)) == '}'
    decreases t, 0, |t.members| - i
  {
    if i < |t.members| {
      var m := t.members[i];
      TextPlain(m.value);
      QuotePlain(m.key);
      MembersPlain(t, i + 1);
      MemberPlain(Quote(m.key), JsonTexts.Text(m.value));
      hide JsonTexts.Text, Quote, Plain;
      ItemPlain(i, Quote(m.key) + ":" + JsonTexts.Text(m.value), MembersFrom(t, i + 1));
    }
  }

  predicate Solid(s: string) {
    s != "" && !IsSpace(s[0]) && !IsSpace(Last(s))
  }

  lemma Bracketed(c: char, body: string)
    requires c == '[' || c == '{' || c == '"'
    requires body != "" && (Last(body) == ']' || Last(body) == '}' || Last(body) == '"')
    ensures Solid([c] + body)
  {
    assert Last([c] + body) == Last(body);
  }

  lemma NumberSolid(text: NumberText)
    ensures Solid(text)
  {
    assert text[0] in text && Last(text) in text;
    assert NumberChar(text[0]) && NumberChar(Last(text));
  }

  /** A text neither starts nor ends with white space. */
  lemma TextSolid(t: Tree)
    ensures Solid(JsonTexts.Text(t))
  {
    match t
    case TNull => assert Last("null") == 'l';
    case TBool(_) => assert Last("true") == 'e' && Last("false") == 'e';
    case TNum(text) => NumberSolid(text);
    case TStr(s) =>
      hide Escaped, IsSpace, Solid;
      Bracketed('"', Escaped(s) + "\"");
      assert Quote(s) == ['"'] + (Escaped(s) + "\"");
    case TArr(_) =>
      ElementsPlain(t, 0);
      hide IsSpace, Solid, ElementsFrom;
      Bracketed('[', ElementsFrom(t, 0));
    case TObj(_) =>
      MembersPlain(t, 0);
      hide IsSpace, Solid, MembersFrom;
      Bracketed('{', MembersFrom(t, 0));
  }

  lemma NothingToTrim(s: string)
    requires Solid(s)
    ensures Trim(s) == s
  {
  }

  /** So any text is fit for a frame. */
  lemma FitForAFrame(id: int, event: string, t: Tree)
    requires event != "" && '\n' !in event && Trim(event) == event
    ensures
      var f := Frame(id, event, JsonTexts.Text(t));
      OneLine(f) && Clean(f)
  {
    TextPlain(t);
    TextSolid(t);
    hide JsonTexts.Text, Trim;
    NothingToTrim(JsonTexts.Text(t));
  }

  /** A value sent under an event name that is one clean word is dispatched under that name,
      and decodes to the value that was sent. */
  lemma JsonSurvivesTheStream(id: int, event: string, t: Tree)
    requires event != "" && '\n' !in event && Trim(event) == event
    ensures
      var events := Dispatched(Stream([Frame(id, event, JsonTexts.Text(t))]));
      && |events| == 1 && events[0].event == event
      && Decode(events[0].data) == Some(Meaning(t))
  {
    var f := Frame(id, event, JsonTexts.Text(t));
    FitForAFrame(id, event, t);
    hide JsonTexts.Text, Trim, Dispatched, Stream;
    RoundTripIff([f]);
    DecodeText(t);
    hide Decode, Meaning;
    assert Pairs([f]) == [Event(event, JsonTexts.Text(t))];
  }

  /** The client's decoder reads a text as JSON first, and then the value as a snapshot. */
  ghost predicate Unmarshals(d: Client.Decoder, unmarshal: Json -> Option<Snapshot>) {
    forall text :: d.put(text) == if Decode(text).Some? then unmarshal(Decode(text).value) else None
  }

  /** What it takes for the client to get a message's snapshot: its lines fit the scanner, and
      the value written can be read back as the snapshot. Nothing else about the text matters. */
  lemma FaithfulIff(
    d: Client.Decoder, marshal: Snapshot -> Tree, unmarshal: Json -> Option<Snapshot>, m: Message<Snapshot>)
    requires Unmarshals(d, unmarshal)
    ensures Client.Faithful(d, s => JsonTexts.Text(marshal(s)), m) <==>
            && m.event == "put"
            && |Decimal.Render(m.version)| < 65_532
            && Size(JsonTexts.Text(marshal(m.data))) < 65_530
            && unmarshal(Meaning(marshal(m.data))) == Some(m.data)
  {
    var t := marshal(m.data);
    DecodeText(t);
    PutShortIff(m.version, JsonTexts.Text(t));
    if m.event == "put" {
      assert Trim("put") == "put";
      FitForAFrame(m.version, m.event, t);
    }
    hide JsonTexts.Text, Decode, Meaning, Clean, OneLine, Short, Size, Decimal.Render;
  }
}
