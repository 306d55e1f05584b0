/** The stream handler (`sdkStream` in internal/api/server.go), with the response it writes. */
module StreamHandler {
  import opened Model
  import opened Hub
  import opened Sse
  import Decimal

  /** The version a client resumes from: none, or an unreadable one, is 0. */
  function Requested(lastEventId: string): int {
    if lastEventId == "" then 0 else Decimal.Scan(lastEventId)
  }

  function FrameOf<D>(msg: Message<D>, json: D -> string): Frame {
    Frame(msg.version, msg.event, json(msg.data))
  }

  function FramesOf<D>(msgs: seq<Message<D>>, json: D -> string): seq<Frame> {
    if msgs == [] then [] else FramesOf(msgs[..|msgs| - 1], json) + [FrameOf(msgs[|msgs| - 1], json)]
  }

  /** The frames before the first message from the channel. `version` is what a second read
      of the environment's version returns, after the build. */
  function Opening<D>(replayed: Option<seq<Message<D>>>, built: Option<D>, version: int, json: D -> string): seq<Frame> {
    if replayed.Some? && replayed.value != [] then FramesOf(replayed.value, json)
    else if built.Some? then [Frame(version, "put", json(built.value))]
    else []
  }

  /** The version up to which the opening covers what may still come from the channel. */
  function Covered<D>(replayed: Option<seq<Message<D>>>, built: Option<D>, version: int): int {
    if replayed.Some? && replayed.value != [] then replayed.value[|replayed.value| - 1].version
    else if built.Some? then version
    else 0
  }

  lemma {:induction false} StreamAppend(frames: seq<Frame>, f: Frame)
    ensures Stream(frames + [f]) == Stream(frames) + Text(f)
  {
    if frames == [] {
      assert [f][1..] == [] && Stream([]) == "";
      assert Stream([f]) == Text(f) + Stream([]);
    } else {
      assert (frames + [f])[1..] == frames[1..] + [f];
      StreamAppend(frames[1..], f);
    }
  }

  lemma OneMore<D>(received: seq<Message<D>>, i: nat, sent: int, json: D -> string)
    requires i < |received|
    ensures FramesOf(Above(received[..i + 1], sent), json) ==
            FramesOf(Above(received[..i], sent), json)
            + if received[i].version <= sent then [] else [FrameOf(received[i], json)]
  {
    var msg, above := received[i], Above(received[..i], sent);
    AboveAppend(received[..i], [msg], sent);
    assert received[..i + 1] == received[..i] + [msg];
    assert Above([msg], sent) == if msg.version <= sent then [] else [msg];
    assert (above + [msg])[..|above|] == above && above + [] == above;
  }

  class Handler<D(0)> {
    const json: D -> string
    var sentVersion: int
    var body: string
    ghost var frames: seq<Frame>

    constructor (json: D -> string)
      ensures Valid() && frames == [] && sentVersion == 0 && this.json == json
    {
      this.json := json;
      sentVersion, body, frames := 0, "", [];
    }

    ghost predicate Valid()
      reads this
    {
      body == Stream(frames)
    }

    method WriteFrame(version: int, event: string, data: string)
      requires Valid()
      modifies this`body, this`frames
      ensures Valid() && frames == old(frames) + [Frame(version, event, data)]
    {
      var f := Frame(version, event, data);
      StreamAppend(frames, f);
      body := body + Text(f);
      frames := frames + [f];
    }

    /** Subscribes before anything is sent, then replays or sends a full snapshot. `built` is
        what the builder returned, if it is asked, and `version` what the store says then. */
    method Open(h: Hub<D>, envKey: Env, lastEventId: string, built: Option<D>, version: int) returns (id: nat)
      requires Valid() && h.Valid() && this !in h.replay.Repr && frames == [] && sentVersion == 0
      modifies this`sentVersion, this`body, this`frames, h, h.replay
      ensures Valid() && h.Valid() && h.View() == Subscribed(old(h.View()), envKey) && id == h.subSeq
      ensures
        var replayed := Replayed(h.View(), envKey, Requested(lastEventId));
        && frames == Opening(replayed, built, version, json)
        && sentVersion == Covered(replayed, built, version)
    {
      hide Hub.Valid, Stream;
      var fromVersion := 0;
      if lastEventId != "" {
        fromVersion := Decimal.Scan(lastEventId);
      }
      id := h.Subscribe(envKey);
      var msgs, ok := h.Replay(envKey, fromVersion);
      if ok && |msgs| > 0 {
        SendReplay(msgs);
      } else if built.Some? {
        WriteFrame(version, "put", json(built.value));
        sentVersion := version;
      }
    }

    method SendReplay(msgs: seq<Message<D>>)
      requires Valid() && frames == [] && msgs != []
      modifies this`sentVersion, this`body, this`frames
      ensures Valid() && frames == FramesOf(msgs, json) && sentVersion == msgs[|msgs| - 1].version
    {
      for i := 0 to |msgs|
        invariant Valid() && frames == FramesOf(msgs[..i], json)
        invariant i > 0 ==> sentVersion == msgs[i - 1].version
      {
        assert msgs[..i + 1][..i] == msgs[..i];
        WriteFrame(msgs[i].version, msgs[i].event, json(msgs[i].data));
        sentVersion := msgs[i].version;
      }
      assert msgs[..|msgs|] == msgs;
    }

    method RelayOne(msg: Message<D>, ghost received: seq<Message<D>>, ghost i: nat, ghost before: seq<Frame>)
      requires Valid() && i < |received| && msg == received[i]
      requires frames == before + FramesOf(Above(received[..i], sentVersion), json)
      modifies this`body, this`frames
      ensures Valid() && frames == before + FramesOf(Above(received[..i + 1], sentVersion), json)
    {
      hide Above, FramesOf, Stream;
      OneMore(received, i, sentVersion, json);
      if msg.version <= sentVersion {
        return;
      }
      WriteFrame(msg.version, msg.event, json(msg.data));
    }

    /** The loop over the channel: what the opening covered is skipped, the rest is written in
        the order of arrival. `sentVersion` stays what the opening left. */
    method Relay(received: seq<Message<D>>)
      requires Valid()
      modifies this`body, this`frames
      ensures Valid() && frames == old(frames) + FramesOf(Above(received, sentVersion), json)
    {
      ghost var before := frames;
      assert frames == before + FramesOf(Above(received[..0], sentVersion), json);
      for i := 0 to |received|
        invariant Valid() && frames == before + FramesOf(Above(received[..i], sentVersion), json)
      {
        RelayOne(received[i], received, i, before);
      }
      assert received[..|received|] == received;
    }

    /** The whole of `sdkStream`: the opening, then everything received that it does not cover.
        `received` is what the channel yields until the stream ends. */
    method Serve(h: Hub<D>, envKey: Env, lastEventId: string, built: Option<D>, version: int, received: seq<Message<D>>)
      requires Valid() && h.Valid() && this !in h.replay.Repr
      requires frames == [] && sentVersion == 0
      modifies this`sentVersion, this`body, this`frames, h, h.replay
      ensures
        var replayed := Replayed(h.View(), envKey, Requested(lastEventId));
        && h.View() == Subscribed(old(h.View()), envKey)
        && body == Stream(frames)
        && frames == Opening(replayed, built, version, json)
                     + FramesOf(Above(received, Covered(replayed, built, version)), json)
    {
      hide Hub.Valid, Stream;
      var id := Open(h, envKey, lastEventId, built, version);
      Relay(received);
    }
  }

  /** What goes over the wire for a message, letter by letter. */
  lemma MessageText<D>(m: Message<D>, json: D -> string)
    ensures Stream(FramesOf([m], json)) ==
            "id: " + Decimal.Render(m.version) + "\nevent: " + m.event + "\ndata: " + json(m.data) + "\n\n"
  {
    var f := Frame(m.version, m.event, json(m.data));
    assert [m][..0] == [] && FramesOf([m][..0], json) == [];
    OneFrameText(f);
    hide Stream, Text, Decimal.Render;
  }

  lemma OneFrameText(f: Frame)
    ensures Stream([f]) ==
            "id: " + Decimal.Render(f.id) + "\nevent: " + f.event + "\ndata: " + f.data + "\n\n"
  {
    assert Stream([f]) == Text(f) + Stream([]);
    hide Decimal.Render;
    assert Text(f) == "id: " + Decimal.Render(f.id) + "\nevent: " + f.event + "\ndata: " + f.data + "\n\n";
  }

  /** And for the snapshot a new client gets. */
  lemma SnapshotText<D>(built: D, version: int, json: D -> string)
    ensures Stream(Opening(None, Some(built), version, json)) ==
            "id: " + Decimal.Render(version) + "\nevent: put\ndata: " + json(built) + "\n\n"
    ensures Opening(Some([]), Some(built), version, json) == Opening(None, Some(built), version, json)
  {
    OneFrameText(Frame(version, "put", json(built)));
    assert "\nevent: " + "put" + "\ndata: " == "\nevent: put\ndata: ";
    hide Stream, Text, Decimal.Render;
    var id, data := "id: " + Decimal.Render(version), json(built);
    assert id + "\nevent: " + "put" + "\ndata: " + data + "\n\n" == id + ("\nevent: " + "put" + "\ndata: ") + data + "\n\n";
    assert id + "\nevent: put\ndata: " + data + "\n\n" == id + ("\nevent: put\ndata: ") + data + "\n\n";
  }
}
