/** The line scanner's limit (bufio.Scanner, as sdk/go/pennant/client.go uses it): a line that
    fills the buffer ends the stream for the client. */
module Scanning {
  import opened Sse
  import Decimal

  const MAX_SCAN_TOKEN_SIZE: nat := 64 * 1024

  function CharSize(c: char): nat {
    var n := c as int;
    if n < 0x80 then 1 else if n < 0x800 then 2 else if n < 0x1_0000 then 3 else 4
  }

  /** In bytes of UTF-8. */
  function Size(s: string): nat {
    if s == "" then 0 else CharSize(s[0]) + Size(s[1..])
  }

  /** A line needs room for one more byte. */
  predicate Fits(line: string) {
    Size(line) < MAX_SCAN_TOKEN_SIZE
  }

  /** How many lines the scanner yields: those before the first that does not fit. */
  function FitLines(s: string): nat
    decreases |s|
  {
    if s == "" then 0
    else
      var l := FirstLine(s);
      if !Fits(l) then 0 else 1 + if |l| < |s| then FitLines(s[|l| + 1..]) else 0
  }

  lemma {:induction false} FitLinesBound(s: string)
    ensures FitLines(s) <= |Lines(s)|
    decreases |s|
  {
    if s != "" {
      var l := FirstLine(s);
      hide Fits, FirstLine;
      if |l| < |s| {
        FitLinesBound(s[|l| + 1..]);
      }
    }
  }

  /** What is dispatched of a stream within the limit. */
  function Scanned(stream: string): seq<Event> {
    FitLinesBound(stream);
    Events(Lines(stream)[..FitLines(stream)], "", "")
  }

  /** The three lines of a frame. */
  function FrameLines(f: Frame): seq<string> {
    ["id: " + Decimal.Render(f.id), "event: " + f.event, "data: " + f.data]
  }

  predicate Short(f: Frame) {
    forall l | l in FrameLines(f) :: Fits(l)
  }

  lemma {:induction false} SizeAppend(a: string, b: string)
    ensures Size(a + b) == Size(a) + Size(b)
  {
    if a == "" {
      assert a + b == b;
    } else {
      assert (a + b)[1..] == a[1..] + b;
      SizeAppend(a[1..], b);
    }
  }

  lemma {:induction false} AsciiSize(s: string)
    requires forall c | c in s :: c as int < 0x80
    ensures Size(s) == |s|
  {
    if s != "" {
      assert s[0] in s && forall c | c in s[1..] :: c in s;
      AsciiSize(s[1..]);
    }
  }

  lemma IdAscii(id: int)
    ensures forall c | c in "id: " + Decimal.Render(id) :: c as int < 0x80
  {
    RenderedChar(id);
    hide Decimal.Render;
    forall c | c in "id: " + Decimal.Render(id) ensures c as int < 0x80 {
      assert c in "id: " || c in Decimal.Render(id);
    }
  }

  /** The bytes of a character, by the bits of its number. */
  lemma CharSizes(c: char)
    ensures
      var n, size := c as int, Size([c]);
      && (size == 1 <==> n < 128) && (size == 2 <==> 128 <= n < 2048)
      && (size == 3 <==> 2048 <= n < 65_536) && (size == 4 <==> 65_536 <= n)
  {
    assert [c][1..] == "";
    assert Size([c]) == CharSize(c) + Size("");
  }

  /** In numbers: the text of a snapshot may have up to 65529 bytes. (A version of 64 bits has
      no more than 20 characters.) */
  lemma PutShortIff(id: int, data: string)
    ensures Short(Frame(id, "put", data)) <==> |Decimal.Render(id)| < 65_532 && Size(data) < 65_530
  {
    var f := Frame(id, "put", data);
    var a, b, c := "id: " + Decimal.Render(id), "event: put", "data: " + data;
    IdAscii(id);
    hide Decimal.Render, Size;
    AsciiSize(a);
    AsciiSize(b);
    AsciiSize("data: ");
    SizeAppend("data: ", data);
    assert "event: " + "put" == b;
    ThreeFit(f, a, b, c);
  }

  lemma ThreeFit(f: Frame, a: string, b: string, c: string)
    requires FrameLines(f) == [a, b, c]
    ensures Short(f) <==> Fits(a) && Fits(b) && Fits(c)
  {
    assert FrameLines(f)[0] == a && FrameLines(f)[1] == b && FrameLines(f)[2] == c;
    hide Fits, FrameLines;
  }

  lemma FitSplit(l: string, rest: string)
    requires '\n' !in l
    ensures FitLines(l + "\n" + rest) == if Fits(l) then 1 + FitLines(rest) else 0
  {
    FirstLineOf(l, rest);
    hide Fits, FirstLine;
    assert (l + "\n" + rest)[|l| + 1..] == rest;
  }

  lemma BlankFits()
    ensures Fits("")
  {
  }

  lemma FitOfFrame(a: string, b: string, c: string, rest: string)
    requires '\n' !in a && '\n' !in b && '\n' !in c
    ensures
      FitLines(a + "\n" + (b + "\n" + (c + "\n" + ("" + "\n" + rest)))) ==
      if !Fits(a) then 0 else if !Fits(b) then 1 else if !Fits(c) then 2 else 4 + FitLines(rest)
  {
    FitSplit(a, b + "\n" + (c + "\n" + ("" + "\n" + rest)));
    FitSplit(b, c + "\n" + ("" + "\n" + rest));
    FitSplit(c, "" + "\n" + rest);
    FitSplit("", rest);
    BlankFits();
    hide FitLines, Fits;
  }

  lemma Prefixes(a: string, b: string, c: string, rest: seq<string>, k: nat)
    requires k <= |rest|
    ensures
      var lines := [a] + ([b] + ([c] + ([""] + rest)));
      && lines[..0] == [] && lines[..1] == [a] && lines[..2] == [a, b]
      && lines[..4 + k] == [a] + ([b] + ([c] + ([""] + rest[..k])))
  {
  }

  /** A frame whose lines fit is dispatched as if there were no limit; one with a line that does
      not ends everything. */
  lemma FrameScanned(f: Frame, rest: string)
    requires OneLine(f)
    ensures Scanned(Text(f) + rest) == if Short(f) then Kept(f) + Scanned(rest) else []
  {
    var a, b, c := "id: " + Decimal.Render(f.id), EVENT + " " + f.event, DATA + " " + f.data;
    hide Lines, FitLines, Fits, Events, Trim, DropCr, Decimal.Render;
    assert EVENT + " " == "event: " && DATA + " " == "data: ";
    assert FrameLines(f) == [a, b, c];
    ThreeFit(f, a, b, c);
    hide Short, FrameLines;
    assert Text(f) + rest == a + "\n" + (b + "\n" + (c + "\n" + ("" + "\n" + rest)));
    IdLine(f.id);
    LinesOfFrame(a, b, c, rest);
    FitOfFrame(a, b, c, rest);
    FieldLine(EVENT, f.event);
    FieldLine(DATA, f.data);
    FitLinesBound(rest);
    Prefixes(DropCr(a), DropCr(b), DropCr(c), Lines(rest), FitLines(rest));
    if Short(f) {
      FourLines(DropCr(a), DropCr(b), DropCr(c), Lines(rest)[..FitLines(rest)]);
    } else {
      NoBlankNoEvent([], "", "");
      NoBlankNoEvent([DropCr(a)], "", "");
      NoBlankNoEvent([DropCr(a), DropCr(b)], "", "");
    }
  }

  /** How many frames come before the first that is too long. */
  function BeforeLong(frames: seq<Frame>): (k: nat)
    ensures k <= |frames|
    ensures forall i | 0 <= i < k :: Short(frames[i])
    ensures k < |frames| ==> !Short(frames[k])
  {
    if frames == [] || !Short(frames[0]) then 0 else 1 + BeforeLong(frames[1..])
  }

  /** The client sees exactly the frames before the first that is too long. */
  lemma {:induction false} ScannedUpToLong(frames: seq<Frame>)
    requires forall f | f in frames :: OneLine(f)
    ensures Scanned(Stream(frames)) == Dispatched(Stream(frames[..BeforeLong(frames)]))
  {
    hide Scanned, Dispatched, Text, Kept, Short;
    if frames == [] {
      NothingScanned();
      NothingDispatched();
    } else {
      var f, rest := frames[0], frames[1..];
      FrameScanned(f, Stream(rest));
      if Short(f) {
        var k := BeforeLong(rest);
        ScannedUpToLong(rest);
        assert frames[..k + 1] == [f] + rest[..k];
        assert ([f] + rest[..k])[1..] == rest[..k];
        FrameDispatched(f, Stream(rest[..k]));
      } else {
        NothingDispatched();
        assert frames[..0] == [];
      }
    }
  }

  lemma NothingScanned()
    ensures Scanned("") == []
  {
  }

  function Min(a: nat, b: nat): nat {
    if a < b then a else b
  }

  lemma NothingOfACutFrame(f: Frame, n: nat)
    requires OneLine(f) && n < |Text(f)|
    ensures Scanned(Text(f)[..n]) == []
  {
    hide Lines, FitLines, Events, Text;
    var s := Text(f)[..n];
    CutFrame(f, n);
    FitLinesBound(s);
    FewerLines(Lines(s), FitLines(s), "", "");
  }

  /** Of a stream that breaks off it sees the frames that were complete by then, again up to
      the first that is too long. */
  lemma {:induction false} CutScanned(frames: seq<Frame>, n: nat)
    requires n <= |Stream(frames)| && forall f | f in frames :: OneLine(f)
    ensures Complete(frames, n) <= |frames|
    ensures Scanned(Stream(frames)[..n]) == KeptAll(frames[..Min(Complete(frames, n), BeforeLong(frames))])
  {
    hide Scanned, Text, Kept, Short;
    CompleteBound(frames, n);
    if frames == [] {
      NothingScanned();
    } else {
      var f, rest, size := frames[0], frames[1..], |Text(frames[0])|;
      StreamCut(frames, n);
      hide Stream;
      if n < size {
        NothingOfACutFrame(f, n);
      } else {
        FrameScanned(f, Stream(rest)[..n - size]);
        CutScanned(rest, n - size);
        if Short(f) {
          var k := Min(Complete(rest, n - size), BeforeLong(rest));
          assert frames[..k + 1] == [f] + rest[..k];
        }
      }
    }
  }
}
