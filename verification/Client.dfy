/** The Go client (sdk/go/pennant/client.go): the snapshot it keeps, and the stream that
    changes it. */
module Client {
  import opened Model
  import opened Sse
  import opened Scanning
  import opened Deltas
  import Decimal
  import StreamHandler

  /** JSON decoding, which fails on texts that do not fit. */
  datatype Decoder = Decoder(put: string -> Option<Snapshot>, patch: string -> Option<Delta>)

  /** `ready` is closed for good by the first snapshot. */
  datatype State = State(snap: Option<Snapshot>, ready: bool)

  ghost function Handled(d: Decoder, s: State, e: Event): State {
    if e.event == "put" then
      if d.put(e.data).Some? then State(d.put(e.data), true) else s
    else if e.event == "patch" then
      if d.patch(e.data).Some? && s.snap.Some? then State(Some(Applied(s.snap.value, d.patch(e.data).value)), true) else s
    else s
  }

  ghost function HandledAll(d: Decoder, s: State, events: seq<Event>): State
    decreases |events|
  {
    if events == [] then s else HandledAll(d, Handled(d, s, events[0]), events[1..])
  }

  /** The header a client resumes with. */
  function LastEventId(s: State): string {
    if s.snap.Some? then Decimal.Render(s.snap.value.version) else ""
  }

  function AfterLine(s: string): string {
    var l := FirstLine(s);
    if |l| < |s| then s[|l| + 1..] else ""
  }

  /** How many of n lines are taken if the context is cancelled by the time line `stop` arrives. */
  function ReadLines(stop: Option<nat>, n: nat): nat {
    if stop.Some? && stop.value < n then stop.value else n
  }

  lemma LinesBelow(s: string)
    requires s != ""
    ensures Lines(s) == [DropCr(FirstLine(s))] + Lines(AfterLine(s))
    ensures FitLines(s) == if Fits(FirstLine(s)) then 1 + FitLines(AfterLine(s)) else 0
  {
    hide Fits;
  }

  lemma NothingLeft(event: string, data: string)
    ensures Events([], event, data) == [] && Lines("") == [] && FitLines("") == 0
  {
  }

  lemma TakeFirst(left: seq<string>, line: string, below: seq<string>)
    requires left != [] && left <= [line] + below
    ensures left == [line] + left[1..] && left[1..] <= below
  {
    assert ([line] + below)[1..] == below;
  }

  lemma HandledNothing(d: Decoder, s: State)
    ensures HandledAll(d, s, []) == s
  {
  }

  lemma HandledFirst(d: Decoder, s: State, e: Event, more: seq<Event>)
    ensures HandledAll(d, s, [e] + more) == HandledAll(d, Handled(d, s, e), more)
  {
    assert ([e] + more)[1..] == more;
  }

  class Client {
    const decoder: Decoder
    var snap: Option<Snapshot>
    var ready: bool

    constructor (decoder: Decoder)
      ensures this.decoder == decoder && View() == State(None, false)
    {
      this.decoder := decoder;
      snap, ready := None, false;
    }

    function View(): State
      reads this
    {
      State(snap, ready)
    }

    method HandleEvent(event: string, data: string)
      modifies this`snap, this`ready
      ensures View() == Handled(decoder, old(View()), Event(event, data))
    {
      if event == "put" {
        var decoded := decoder.put(data);
        if decoded.None? {
          return;
        }
        snap := decoded;
        ready := true;
      } else if event == "patch" {
        var delta := decoder.patch(data);
        if delta.None? || snap.None? {
          return;
        }
        var next := ApplyDelta(snap.value, delta.value);
        snap := Some(next);
        ready := true;
      }
    }

    /** What one line does, whatever lines follow it. */
    method TakeLine(line: string, event: string, data: string, ghost below: seq<string>)
      returns (nextEvent: string, nextData: string)
      modifies this`snap, this`ready
      ensures HandledAll(decoder, View(), Events(below, nextEvent, nextData)) ==
              HandledAll(decoder, old(View()), Events([line] + below, event, data))
    {
      OneLineRead(line, below, event, data);
      hide Events, Trim, Handled;
      nextEvent, nextData := event, data;
      if line == "" {
        if event != "" && data != "" {
          HandledFirst(decoder, View(), Event(event, data), Events(below, "", ""));
          HandleEvent(event, data);
        }
        return "", "";
      }
      if HasPrefix(line, EVENT) {
        nextEvent := Trim(line[|EVENT|..]);
      } else if HasPrefix(line, DATA) {
        nextData := Trim(line[|DATA|..]);
      }
    }

    /** Reads a stream line by line: to its end, or to a line that is too long for the scanner,
        or until a line arrives with the context cancelled, which from line `stop` on it is.
        The last two are errors. */
    method ParseSse(stream: string, stop: Option<nat>) returns (failed: bool)
      modifies this`snap, this`ready
      ensures
        var lines := Lines(stream);
        var k := ReadLines(stop, FitLines(stream));
        && FitLines(stream) <= |lines|
        && View() == HandledAll(decoder, old(View()), Events(lines[..k], "", ""))
        && failed == (k < |lines|)
    {
      FitLinesBound(stream);
      var event, data := "", "";
      var rest, i := stream, 0;
      ghost var n, fit := |Lines(stream)|, FitLines(stream);
      ghost var k := ReadLines(stop, fit);
      ghost var left := Lines(stream)[..k];  // the lines still to be taken
      ghost var target := HandledAll(decoder, View(), Events(left, "", ""));
      hide Lines, FitLines, Fits, Events, Trim, Handled, HandledAll;
      while rest != ""
        invariant i + |left| == k && i + |Lines(rest)| == n && i + FitLines(rest) == fit && left <= Lines(rest)
        invariant target == HandledAll(decoder, View(), Events(left, event, data))
        decreases |rest|
      {
        LinesBelow(rest);
        if !Fits(FirstLine(rest)) {
          break;
        }
        if stop.Some? && i >= stop.value {
          break;
        }
        var line := DropCr(FirstLine(rest));
        TakeFirst(left, line, Lines(AfterLine(rest)));
        event, data := TakeLine(line, event, data, left[1..]);
        rest := AfterLine(rest);
        left, i := left[1..], i + 1;
      }
      NothingLeft(event, data);
      assert left == [];
      HandledNothing(decoder, View());
      return rest != "";
    }
  }

  // ----- What the client ends up with -----

  /** From the beginning on the client is ready exactly when it has a snapshot, and it never
      goes back. */
  lemma {:induction false} ReadyIffHeld(d: Decoder, s: State, events: seq<Event>)
    requires s.ready <==> s.snap.Some?
    ensures
      var t := HandledAll(d, s, events);
      (t.ready <==> t.snap.Some?) && (s.ready ==> t.ready)
    decreases |events|
  {
    if events != [] {
      ReadyIffHeld(d, Handled(d, s, events[0]), events[1..]);
    }
  }

  /** Events of other names, data that does not decode, and patches before there is a snapshot
      leave no trace. */
  lemma {:induction false} OthersIgnored(d: Decoder, s: State, events: seq<Event>)
    requires forall e | e in events ::
               && (e.event == "put" ==> d.put(e.data).None?)
               && (e.event == "patch" ==> d.patch(e.data).None? || s.snap.None?)
    ensures HandledAll(d, s, events) == s
    decreases |events|
  {
    if events != [] {
      assert events[0] in events;
      OthersIgnored(d, s, events[1..]);
    }
  }

  /** The frames of full snapshots that decode. */
  ghost predicate Puts(d: Decoder, frames: seq<Frame>) {
    forall f | f in frames :: f.event == "put" && OneLine(f) && Clean(f) && d.put(f.data).Some?
  }

  lemma {:induction false} PutsHandled(d: Decoder, s: State, frames: seq<Frame>)
    requires Puts(d, frames)
    ensures HandledAll(d, s, Pairs(frames)) ==
            if frames == [] then s else State(d.put(frames[|frames| - 1].data), true)
    decreases |frames|
  {
    if frames != [] {
      var f := frames[0];
      HandledFirst(d, s, Event(f.event, f.data), Pairs(frames[1..]));
      PutsHandled(d, Handled(d, s, Event(f.event, f.data)), frames[1..]);
    }
  }

  /** Wherever a stream of full snapshots breaks off, the client holds the last snapshot that
      came in completely before any that is too long; if none did, it keeps what it had. */
  lemma HoldsLastComplete(d: Decoder, s: State, frames: seq<Frame>, n: nat)
    requires Puts(d, frames) && n <= |Stream(frames)|
    ensures
      var k := Min(Complete(frames, n), BeforeLong(frames));
      && k <= |frames|
      && HandledAll(d, s, Scanned(Stream(frames)[..n])) ==
         if k == 0 then s else State(d.put(frames[k - 1].data), true)
  {
    hide Complete, Stream, Scanned, BeforeLong;
    CutScanned(frames, n);
    var whole := frames[..Min(Complete(frames, n), BeforeLong(frames))];
    KeptIff(whole);
    PutsHandled(d, s, whole);
  }

  /** A connection that starts with a snapshot too long for the scanner leaves the client as it
      was, so it asks for the same again. */
  lemma BlockedByALongSnapshot(d: Decoder, s: State, frames: seq<Frame>)
    requires frames != [] && !Short(frames[0]) && forall f | f in frames :: OneLine(f)
    ensures HandledAll(d, s, Scanned(Stream(frames))) == s
  {
    ScannedUpToLong(frames);
    hide Scanned, Short;
    assert BeforeLong(frames) == 0 && frames[..0] == [] && Stream([]) == "";
    NothingDispatched();
    HandledNothing(d, s);
  }

  /** The header names the version of the snapshot held, and the server reads it back. */
  lemma ResumesFromHeld(s: State)
    ensures StreamHandler.Requested(LastEventId(s)) == if s.snap.Some? then s.snap.value.version else 0
  {
    if s.snap.Some? {
      Decimal.ScanRender(s.snap.value.version);
      assert Decimal.Scan("") == 0;
    }
  }

  /** A published message fits the scanner and decodes to the snapshot that went into it. */
  ghost predicate Faithful(d: Decoder, json: Snapshot -> string, m: Message<Snapshot>) {
    var f := StreamHandler.FrameOf(m, json);
    m.event == "put" && OneLine(f) && Clean(f) && Short(f) && d.put(f.data) == Some(m.data)
  }

  lemma {:induction false} FramesArePuts(d: Decoder, json: Snapshot -> string, msgs: seq<Message<Snapshot>>)
    requires forall m | m in msgs :: Faithful(d, json, m)
    ensures
      var frames := StreamHandler.FramesOf(msgs, json);
      && Puts(d, frames) && |frames| == |msgs| && (forall f | f in frames :: Short(f))
      && (msgs != [] ==> frames[|frames| - 1] == StreamHandler.FrameOf(msgs[|msgs| - 1], json))
  {
    if msgs != [] {
      FramesArePuts(d, json, msgs[..|msgs| - 1]);
      assert Faithful(d, json, msgs[|msgs| - 1]);
    }
  }

  /** What the handler writes for a sequence of messages leaves the client with the last one's
      snapshot, and a reconnecting client asks for what came after it. */
  lemma ReachesLastMessage(d: Decoder, json: Snapshot -> string, s: State, msgs: seq<Message<Snapshot>>)
    requires msgs != [] && forall m | m in msgs :: Faithful(d, json, m)
    ensures
      var t := HandledAll(d, s, Scanned(Stream(StreamHandler.FramesOf(msgs, json))));
      && t == State(Some(msgs[|msgs| - 1].data), true)
      && StreamHandler.Requested(LastEventId(t)) == msgs[|msgs| - 1].data.version
  {
    var frames := StreamHandler.FramesOf(msgs, json);
    FramesArePuts(d, json, msgs);
    assert BeforeLong(frames) == |frames| && frames[..|frames|] == frames;
    ScannedUpToLong(frames);
    RoundTripIff(frames);
    hide Scanned, Dispatched, Stream, BeforeLong, Short;
    PutsHandled(d, s, frames);
    assert Faithful(d, json, msgs[|msgs| - 1]);
    ResumesFromHeld(State(Some(msgs[|msgs| - 1].data), true));
  }

  /** A client that has a snapshot and receives the deltas to its successors follows along. */
  lemma {:induction false} PatchesFollow(d: Decoder, e: Encoder, s: State, snaps: seq<Snapshot>, events: seq<Event>)
    requires |snaps| == |events| + 1
    requires forall t | t in snaps ::
               WellKeyed(t) && t.environmentKey == snaps[0].environmentKey && t.projectKey == snaps[0].projectKey
    requires forall i | 0 <= i < |events| ::
               Patches(d, e, snaps[i], snaps[i + 1], events[i]) && TellsApart(e, snaps[i], snaps[i + 1])
    requires s.snap.Some? && Agrees(s.snap.value, snaps[0])
    ensures
      var held := HandledAll(d, s, events).snap;
      held.Some? && Agrees(held.value, snaps[|events|])
    decreases |events|
  {
    if events != [] {
      assert Patches(d, e, snaps[0], snaps[1], events[0]);
      assert snaps[1] in snaps && snaps[0] in snaps;
      DeltaRoundTripIff(e, snaps[0], snaps[1], s.snap.value, d.patch(events[0].data).value);
      PatchesFollow(d, e, Handled(d, s, events[0]), snaps[1..], events[1..]);
    }
  }

  ghost predicate Patches(d: Decoder, e: Encoder, from: Snapshot, to: Snapshot, event: Event) {
    event.event == "patch" && d.patch(event.data).Some? && IsDelta(e, from, to, d.patch(event.data).value)
  }
}
