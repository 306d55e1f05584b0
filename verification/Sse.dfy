/** Server-sent events (section 9.2.6 of the WHATWG HTML Living Standard), as the stream
    handler writes them (internal/api/server.go) and the Go client's line parser reads them
    (sdk/go/pennant/client.go). */
module Sse {
  import Decimal

  /** What goes into one frame; `data` is the text of the message's data. */
  datatype Frame = Frame(id: int, event: string, data: string)

  datatype Event = Event(event: string, data: string)

  // ----- Writing -----

  function Text(f: Frame): string {
    "id: " + Decimal.Render(f.id) + "\n" + ("event: " + f.event + "\n" + ("data: " + f.data + "\n" + "\n"))
  }

  function Stream(frames: seq<Frame>): string {
    if frames == [] then "" else Text(frames[0]) + Stream(frames[1..])
  }

  // ----- Lines, as bufio.Scanner yields them -----

  function FirstLine(s: string): (l: string)
    ensures l <= s && '\n' !in l
    ensures |l| < |s| ==> s[|l|] == '\n'
  {
    if s == "" || s[0] == '\n' then "" else [s[0]] + FirstLine(s[1..])
  }

  function DropCr(l: string): string {
    if l != "" && l[|l| - 1] == '\r' then l[..|l| - 1] else l
  }

  /** A last line without a newline counts if it is not empty. */
  function Lines(s: string): seq<string>
    decreases |s|
  {
    if s == "" then []
    else
      var l := FirstLine(s);
      [DropCr(l)] + if |l| < |s| then Lines(s[|l| + 1..]) else []
  }

  // ----- Trimming -----

  /** The characters with Unicode's White_Space property. */
  predicate IsSpace(c: char) {
    var n := c as int;
    || 9 <= n <= 13 || n == 32 || n == 0x85 || n == 0xA0 || n == 0x1680 || 0x2000 <= n <= 0x200A
    || n == 0x2028 || n == 0x2029 || n == 0x202F || n == 0x205F || n == 0x3000
  }

  function TrimLeft(s: string): string {
    if s != "" && IsSpace(s[0]) then TrimLeft(s[1..]) else s
  }

  function TrimRight(s: string): string {
    if s != "" && IsSpace(s[|s| - 1]) then TrimRight(s[..|s| - 1]) else s
  }

  function Trim(s: string): string {
    TrimRight(TrimLeft(s))
  }

  // ----- Parsing -----

  const EVENT: string := "event:"
  const DATA: string := "data:"

  function HasPrefix(line: string, prefix: string): bool {
    |prefix| <= |line| && line[..|prefix|] == prefix
  }

  /** The events a parser holding `event` and `data` dispatches on reading the lines: a blank
      line ends an event, which counts if both its parts are set. */
  function Events(lines: seq<string>, event: string, data: string): seq<Event> {
    if lines == [] then []
    else if lines[0] == "" then
      (if event != "" && data != "" then [Event(event, data)] else []) + Events(lines[1..], "", "")
    else if HasPrefix(lines[0], EVENT) then Events(lines[1..], Trim(lines[0][|EVENT|..]), data)
    else if HasPrefix(lines[0], DATA) then Events(lines[1..], event, Trim(lines[0][|DATA|..]))
    else Events(lines[1..], event, data)
  }

  function Dispatched(stream: string): seq<Event> {
    Events(Lines(stream), "", "")
  }

  // ----- Lemmas about lines -----

  lemma {:induction false} FirstLineOf(l: string, rest: string)
    requires '\n' !in l
    ensures FirstLine(l + "\n" + rest) == l && FirstLine(l) == l
  {
    if l == "" {
      assert l + "\n" + rest == "\n" + rest;
    } else {
      assert (l + "\n" + rest)[1..] == l[1..] + "\n" + rest;
      FirstLineOf(l[1..], rest);
    }
  }

  lemma LinesSplit(l: string, rest: string)
    requires '\n' !in l
    ensures Lines(l + "\n" + rest) == [DropCr(l)] + Lines(rest)
  {
    FirstLineOf(l, rest);
    assert (l + "\n" + rest)[|l| + 1..] == rest;
  }

  /** A carriage return before the newline belongs to the line end; anything else does not. */
  lemma LineEnds(l: string, rest: string)
    requires '\n' !in l && (l == "" || l[|l| - 1] != '\r')
    ensures Lines(l + "\n" + rest) == [l] + Lines(rest)
    ensures Lines(l + "\r" + "\n" + rest) == [l] + Lines(rest)
  {
    LinesSplit(l, rest);
    LinesSplit(l + "\r", rest);
    assert (l + "\r")[..|l|] == l;
    hide Lines;
  }

  lemma LinesLast(l: string)
    requires '\n' !in l
    ensures Lines(l) == if l == "" then [] else [DropCr(l)]
  {
    FirstLineOf(l, "");
  }

  /** What the parser does with one line. */
  lemma OneLineRead(line: string, below: seq<string>, event: string, data: string)
    ensures
      Events([line] + below, event, data) ==
      if line == "" then
        if event != "" && data != "" then [Event(event, data)] + Events(below, "", "") else Events(below, "", "")
      else if HasPrefix(line, EVENT) then Events(below, Trim(line[|EVENT|..]), data)
      else if HasPrefix(line, DATA) then Events(below, event, Trim(line[|DATA|..]))
      else Events(below, event, data)
  {
    hide Trim;
    assert ([line] + below)[1..] == below;
  }

  /** What follows the colon is the field's value, be it empty or not. */
  lemma FieldsRead(value: string, below: seq<string>, event: string, data: string)
    ensures Events(["event:" + value] + below, event, data) == Events(below, Trim(value), data)
    ensures Events(["data:" + value] + below, event, data) == Events(below, event, Trim(value))
  {
    assert ("event:" + value)[..6] == "event:" && ("event:" + value)[6..] == value;
    assert ("data:" + value)[..5] == "data:" && ("data:" + value)[5..] == value;
    assert ("data:" + value)[0] == 'd' && EVENT[0] == 'e';
    PrefixHead("data:" + value, EVENT);
    OneLineRead("event:" + value, below, event, data);
    OneLineRead("data:" + value, below, event, data);
    hide Events, Trim;
  }

  /** Stopping early dispatches fewer events, not others. */
  lemma {:induction false} FewerLines(lines: seq<string>, k: nat, event: string, data: string)
    requires k <= |lines|
    ensures Events(lines[..k], event, data) <= Events(lines, event, data)
  {
    if k > 0 {
      var line, below := lines[0], lines[1..];
      OneLineRead(line, below, event, data);
      OneLineRead(line, below[..k - 1], event, data);
      assert lines == [line] + below && lines[..k] == [line] + below[..k - 1];
      hide Events, Trim;
      if line == "" {
        FewerLines(below, k - 1, "", "");
      } else if HasPrefix(line, EVENT) {
        FewerLines(below, k - 1, Trim(line[|EVENT|..]), data);
      } else if HasPrefix(line, DATA) {
        FewerLines(below, k - 1, event, Trim(line[|DATA|..]));
      } else {
        FewerLines(below, k - 1, event, data);
      }
    } else {
      assert lines[..k] == [];
      assert Events([], event, data) == [];
    }
  }

  // ----- Lemmas about trimming -----

  /** Unicode's white space, character by character. */
  lemma SpaceTable(c: char)
    ensures IsSpace(c) <==>
            c as int in {0x9, 0xA, 0xB, 0xC, 0xD, 0x20, 0x85, 0xA0, 0x1680, 0x2000, 0x2001, 0x2002, 0x2003, 0x2004, 0x2005,
                         0x2006, 0x2007, 0x2008, 0x2009, 0x200A, 0x2028, 0x2029, 0x202F, 0x205F, 0x3000}
  {
  }

  lemma {:induction false} TrimLeftMeans(s: string) returns (before: string)
    ensures s == before + TrimLeft(s) && forall c | c in before :: IsSpace(c)
    ensures TrimLeft(s) != "" ==> !IsSpace(TrimLeft(s)[0])
  {
    before := "";
    hide IsSpace;
    if s != "" && IsSpace(s[0]) {
      var more := TrimLeftMeans(s[1..]);
      before := [s[0]] + more;
    }
  }

  lemma {:induction false} TrimRightMeans(s: string) returns (after: string)
    ensures s == TrimRight(s) + after && forall c | c in after :: IsSpace(c)
    ensures TrimRight(s) != "" ==> !IsSpace(TrimRight(s)[|TrimRight(s)| - 1])
  {
    after := "";
    hide IsSpace;
    if s != "" && IsSpace(s[|s| - 1]) {
      var more := TrimRightMeans(s[..|s| - 1]);
      after := more + [s[|s| - 1]];
    }
  }

  /** Trimming takes white space off both ends, and nothing but white space, as far as it
      goes. */
  lemma TrimMeans(s: string) returns (before: string, after: string)
    ensures s == before + Trim(s) + after
    ensures forall c | c in before || c in after :: IsSpace(c)
    ensures Trim(s) != "" ==> !IsSpace(Trim(s)[0]) && !IsSpace(Trim(s)[|Trim(s)| - 1])
  {
    hide IsSpace, TrimLeft, TrimRight;
    before := TrimLeftMeans(s);
    after := TrimRightMeans(TrimLeft(s));
    assert Trim(s) != "" ==> Trim(s)[0] == TrimLeft(s)[0];
  }

  lemma TrimSpaceBefore(s: string)
    ensures Trim(" " + s) == Trim(s)
  {
    assert (" " + s)[1..] == s;
  }

  lemma {:induction false} TrimLeftAppend(s: string, c: char)
    requires IsSpace(c)
    ensures TrimLeft(s + [c]) == if TrimLeft(s) == "" then "" else TrimLeft(s) + [c]
  {
    if s == "" {
      assert s + [c] == [c] && TrimLeft([c]) == TrimLeft([c][1..]);
    } else if IsSpace(s[0]) {
      assert (s + [c])[1..] == s[1..] + [c];
      TrimLeftAppend(s[1..], c);
    }
  }

  lemma TrimDropCr(s: string)
    ensures Trim(DropCr(s)) == Trim(s)
  {
    if s != "" && s[|s| - 1] == '\r' {
      var t := s[..|s| - 1];
      assert s == t + ['\r'];
      TrimLeftAppend(t, '\r');
      var left := TrimLeft(t);
      assert (left + ['\r'])[..|left|] == left;
    }
  }

  // ----- One frame -----

  /** The parser keeps an event only if something is left of both its parts. */
  function Kept(f: Frame): seq<Event> {
    if Trim(f.event) != "" && Trim(f.data) != "" then [Event(Trim(f.event), Trim(f.data))] else []
  }

  function KeptAll(frames: seq<Frame>): seq<Event> {
    if frames == [] then [] else Kept(frames[0]) + KeptAll(frames[1..])
  }

  /** No newline inside, as in every JSON text the encoder writes. */
  predicate OneLine(f: Frame) {
    '\n' !in f.event && '\n' !in f.data
  }

  lemma IdLine(n: int)
    ensures
      var l := "id: " + Decimal.Render(n);
      '\n' !in l && DropCr(l) != "" && !HasPrefix(DropCr(l), EVENT) && !HasPrefix(DropCr(l), DATA)
  {
    var l := "id: " + Decimal.Render(n);
    forall c | c in l ensures c != '\n' {
      RenderedChar(n);
    }
    assert DropCr(l)[0] == 'i';
    PrefixHead(DropCr(l), EVENT);
    PrefixHead(DropCr(l), DATA);
  }

  lemma RenderedChar(n: int)
    ensures forall c | c in Decimal.Render(n) :: c == '-' || Decimal.IsDigit(c)
  {
  }

  lemma FieldLine(prefix: string, value: string)
    requires prefix != "" && prefix[|prefix| - 1] == ':'
    ensures
      var l := DropCr(prefix + " " + value);
      l != "" && HasPrefix(l, prefix) && Trim(l[|prefix|..]) == Trim(value)
  {
    var l := prefix + " " + value;
    if value != "" && value[|value| - 1] == '\r' {
      assert DropCr(l) == prefix + " " + DropCr(value);
      TrimDropCr(value);
      assert DropCr(l)[|prefix|..] == " " + DropCr(value);
      TrimSpaceBefore(DropCr(value));
    } else {
      assert l[|l| - 1] != '\r';
      assert DropCr(l)[|prefix|..] == " " + value;
      TrimSpaceBefore(value);
    }
    assert DropCr(l)[..|prefix|] == prefix;
  }

  lemma PrefixHead(l: string, prefix: string)
    requires prefix != ""
    ensures HasPrefix(l, prefix) ==> l[0] == prefix[0]
  {
    if HasPrefix(l, prefix) {
      assert l[0] == l[..|prefix|][0];
    }
  }

  lemma FourLines(a: string, b: string, c: string, rest: seq<string>)
    requires a != "" && !HasPrefix(a, EVENT) && !HasPrefix(a, DATA)
    requires b != "" && HasPrefix(b, EVENT) && c != "" && HasPrefix(c, DATA)
    ensures
      var event, data := Trim(b[|EVENT|..]), Trim(c[|DATA|..]);
      Events([a] + ([b] + ([c] + ([""] + rest))), "", "") ==
      (if event != "" && data != "" then [Event(event, data)] else []) + Events(rest, "", "")
  {
    hide Trim;
    PrefixHead(c, DATA);
    PrefixHead(c, EVENT);
    var event, data := Trim(b[|EVENT|..]), Trim(c[|DATA|..]);
    assert ([a] + ([b] + ([c] + ([""] + rest))))[1..] == [b] + ([c] + ([""] + rest));
    assert ([b] + ([c] + ([""] + rest)))[1..] == [c] + ([""] + rest);
    assert ([c] + ([""] + rest))[1..] == [""] + rest;
    assert ([""] + rest)[1..] == rest;
    assert Events([b] + ([c] + ([""] + rest)), "", "") == Events([c] + ([""] + rest), event, "");
    assert Events([c] + ([""] + rest), event, "") == Events([""] + rest, event, data);
  }

  lemma LinesOfFrame(a: string, b: string, c: string, rest: string)
    requires '\n' !in a && '\n' !in b && '\n' !in c
    ensures Lines(a + "\n" + (b + "\n" + (c + "\n" + ("" + "\n" + rest)))) ==
            [DropCr(a)] + ([DropCr(b)] + ([DropCr(c)] + ([""] + Lines(rest))))
  {
    LinesSplit(a, b + "\n" + (c + "\n" + ("" + "\n" + rest)));
    LinesSplit(b, c + "\n" + ("" + "\n" + rest));
    LinesSplit(c, "" + "\n" + rest);
    LinesSplit("", rest);
    hide Lines;
  }

  /** Reading a frame dispatches its event, and leaves the parser as it was. */
  lemma FrameDispatched(f: Frame, rest: string)
    requires OneLine(f)
    ensures Dispatched(Text(f) + rest) == Kept(f) + Dispatched(rest)
  {
    hide Lines, Events, Trim, DropCr, Decimal.Render;
    var a, b, c := "id: " + Decimal.Render(f.id), EVENT + " " + f.event, DATA + " " + f.data;
    assert EVENT + " " == "event: " && DATA + " " == "data: ";
    assert Text(f) + rest == a + "\n" + (b + "\n" + (c + "\n" + ("" + "\n" + rest)));
    IdLine(f.id);
    LinesOfFrame(a, b, c, rest);
    FieldLine(EVENT, f.event);
    FieldLine(DATA, f.data);
    FourLines(DropCr(a), DropCr(b), DropCr(c), Lines(rest));
  }

  // ----- Whole streams -----

  /** For messages without newlines the parser dispatches what was written, trimmed, and
      leaves out what trims to nothing. */
  lemma {:induction false} StreamDispatched(frames: seq<Frame>)
    requires forall f | f in frames :: OneLine(f)
    ensures Dispatched(Stream(frames)) == KeptAll(frames)
  {
    if frames != [] {
      hide Dispatched, Text, Kept;
      FrameDispatched(frames[0], Stream(frames[1..]));
      StreamDispatched(frames[1..]);
    }
  }

  function Pairs(frames: seq<Frame>): seq<Event> {
    if frames == [] then [] else [Event(frames[0].event, frames[0].data)] + Pairs(frames[1..])
  }

  /** Nothing to trim, and something there. */
  predicate Clean(f: Frame) {
    f.event != "" && f.data != "" && Trim(f.event) == f.event && Trim(f.data) == f.data
  }

  lemma {:induction false} KeptLength(frames: seq<Frame>)
    ensures |KeptAll(frames)| <= |frames| == |Pairs(frames)|
  {
    if frames != [] {
      KeptLength(frames[1..]);
    }
  }

  lemma {:induction false} KeptIff(frames: seq<Frame>)
    ensures KeptAll(frames) == Pairs(frames) <==> forall f | f in frames :: Clean(f)
  {
    if frames != [] {
      hide Trim;
      var f, rest := frames[0], frames[1..];
      KeptIff(rest);
      KeptLength(rest);
      if Kept(f) == [] {
        assert |KeptAll(frames)| < |Pairs(frames)|;
        assert !Clean(f);
      } else {
        assert KeptAll(frames)[0] == Event(Trim(f.event), Trim(f.data)) && KeptAll(frames)[1..] == KeptAll(rest);
        assert Pairs(frames)[0] == Event(f.event, f.data) && Pairs(frames)[1..] == Pairs(rest);
        assert KeptAll(frames) == Pairs(frames) <==> Clean(f) && KeptAll(rest) == Pairs(rest);
      }
      assert forall g :: g in frames <==> g == f || g in rest;
      assert f in frames;
    }
  }

  /** The client dispatches exactly the events and data that were written if and only if
      none of them is empty or has white space around it. */
  lemma RoundTripIff(frames: seq<Frame>)
    requires forall f | f in frames :: OneLine(f)
    ensures Dispatched(Stream(frames)) == Pairs(frames) <==> forall f | f in frames :: Clean(f)
  {
    StreamDispatched(frames);
    KeptIff(frames);
  }

  // ----- Connections that break off -----

  function Joined(lines: seq<string>): string {
    if lines == [] then "" else lines[0] + "\n" + Joined(lines[1..])
  }

  lemma {:induction false} NoBlankNoEvent(lines: seq<string>, event: string, data: string)
    requires "" !in lines
    ensures Events(lines, event, data) == []
  {
    if lines != [] {
      assert lines[0] in lines;
      if HasPrefix(lines[0], EVENT) {
        NoBlankNoEvent(lines[1..], Trim(lines[0][|EVENT|..]), data);
      } else if HasPrefix(lines[0], DATA) {
        NoBlankNoEvent(lines[1..], event, Trim(lines[0][|DATA|..]));
      } else {
        NoBlankNoEvent(lines[1..], event, data);
      }
    }
  }

  predicate Field(l: string) {
    '\n' !in l && l != "" && l[0] != '\r'
  }

  lemma AfterField(l: string, rest: string)
    requires Field(l) && "" !in Lines(rest)
    ensures "" !in Lines(l + "\n" + rest)
  {
    LinesSplit(l, rest);
    hide Lines;
  }

  lemma JoinedTail(l: string, lines: seq<string>)
    ensures Joined([l] + lines) == l + "\n" + Joined(lines)
  {
    assert ([l] + lines)[1..] == lines;
  }

  /** A block of fields that is cut off before its blank line is complete has no blank line. */
  lemma {:induction false} CutBlock(fields: seq<string>, n: nat)
    requires forall l | l in fields :: Field(l)
    requires n < |Joined(fields + [""])|
    ensures "" !in Lines(Joined(fields + [""])[..n])
  {
    if fields == [] {
      JoinedTail("", []);
      assert Joined(fields + [""])[..n] == "";
    } else {
      var l, below := fields[0], fields[1..];
      var rest := Joined(below + [""]);
      JoinedTail(l, below + [""]);
      assert fields + [""] == [l] + (below + [""]);
      hide Lines, Joined, Field;
      if n <= |l| {
        assert (l + "\n" + rest)[..n] == l[..n];
        CutField(l, n);
      } else {
        var cut := rest[..n - |l| - 1];
        assert (l + "\n" + rest)[..n] == l + "\n" + cut;
        CutBlock(below, n - |l| - 1);
        AfterField(l, cut);
      }
    }
  }

  lemma CutField(l: string, n: nat)
    requires Field(l) && n <= |l|
    ensures "" !in Lines(l[..n])
  {
    LinesLast(l[..n]);
  }

  /** How many of the frames lie completely within the first n characters. */
  function Complete(frames: seq<Frame>, n: nat): nat {
    if frames == [] || n < |Text(frames[0])| then 0 else 1 + Complete(frames[1..], n - |Text(frames[0])|)
  }

  lemma {:induction false} CompleteBound(frames: seq<Frame>, n: nat)
    ensures Complete(frames, n) <= |frames|
  {
    if frames != [] && n >= |Text(frames[0])| {
      CompleteBound(frames[1..], n - |Text(frames[0])|);
    }
  }

  lemma CutFrame(f: Frame, n: nat)
    requires OneLine(f) && n < |Text(f)|
    ensures Dispatched(Text(f)[..n]) == []
  {
    hide Lines, Events, Decimal.Render;
    var a, b, c := "id: " + Decimal.Render(f.id), "event: " + f.event, "data: " + f.data;
    IdLine(f.id);
    var fields := [a, b, c];
    assert Joined(fields + [""]) == Text(f) by {
      assert (fields + [""])[1..] == [b, c, ""] && [b, c, ""][1..] == [c, ""] && [c, ""][1..] == [""];
      assert Joined([""]) == "\n";
      assert Joined([c, ""]) == c + "\n" + "\n";
      assert Joined([b, c, ""]) == b + "\n" + (c + "\n" + "\n");
    }
    CutBlock(fields, n);
    NoBlankNoEvent(Lines(Text(f)[..n]), "", "");
  }

  /** Wherever the connection breaks off, the client has dispatched the frames that were
      complete by then and nothing of the one that was not. */
  lemma {:induction false} CutDelivers(frames: seq<Frame>, n: nat)
    requires n <= |Stream(frames)| && forall f | f in frames :: OneLine(f)
    ensures Complete(frames, n) <= |frames|
    ensures Dispatched(Stream(frames)[..n]) == KeptAll(frames[..Complete(frames, n)])
  {
    hide Dispatched, Text, Kept;
    CompleteBound(frames, n);
    if frames == [] {
      NothingDispatched();
    } else {
      var f, rest, size := frames[0], frames[1..], |Text(frames[0])|;
      StreamCut(frames, n);
      hide Stream;
      if n < size {
        CutFrame(f, n);
      } else {
        FrameDispatched(f, Stream(rest)[..n - size]);
        CutDelivers(rest, n - size);
        var k := Complete(rest, n - size);
        assert frames[..k + 1] == [f] + rest[..k];
      }
    }
  }

  lemma NothingDispatched()
    ensures Dispatched("") == []
  {
  }

  lemma StreamCut(frames: seq<Frame>, n: nat)
    requires frames != [] && n <= |Stream(frames)|
    ensures
      var text, rest := Text(frames[0]), Stream(frames[1..]);
      if n < |text| then Stream(frames)[..n] == text[..n]
      else n - |text| <= |rest| && Stream(frames)[..n] == text + rest[..n - |text|]
  {
    hide Text;
  }
}
