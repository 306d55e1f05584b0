/** What happens when two publishes of one environment come in the wrong order. Nothing in the
    server prevents it: a mutator bumps the version, builds and publishes in separate steps
    (internal/api/server.go), so one with a higher version may overtake another. */
module TwoPublishers {
  import opened Model
  import opened Hub
  import opened Sse
  import opened Scanning
  import Client
  import Ring
  import StreamHandler

  /** A client that resumes from the version of the late message is answered with a replay that
      leaves out the early one, once that has been evicted: the handler writes the rest and
      covers it all. */
  lemma ResumingClientMissesOne(h: State<Snapshot>, e: Env, header: string, built: Option<Snapshot>, version: int,
                                json: Snapshot -> string,
                                early: Message<Snapshot>, late: Message<Snapshot>, rest: seq<Message<Snapshot>>)
    requires e in h.rings && h.rings[e] == [early, late] + rest && |rest| == 255
    requires late.version == StreamHandler.Requested(header) && early.version == late.version + 1
    requires forall m | m in rest :: m.version > early.version
    ensures
      var replayed := Replayed(h, e, StreamHandler.Requested(header));
      && replayed == Some(rest)
      && StreamHandler.Opening(replayed, built, version, json) == StreamHandler.FramesOf(rest, json)
      && StreamHandler.Covered(replayed, built, version) == rest[|rest| - 1].version > early.version
    ensures Above(h.rings[e], late.version) == [early] + rest
  {
    Ring.OutOfOrderAppendLosesAMessage(RING_CAPACITY, late.version, early, late, rest);
    assert rest[|rest| - 1] in rest;
  }

  /** Publishing one message after another puts both last in the channel of a subscriber that
      has room for them. */
  lemma TwoPublished(h: State<Snapshot>, e: Env, id: nat, first: Message<Snapshot>, second: Message<Snapshot>)
    requires WellFormed(h) && id in Registered(h, e) && |h.subs[id].ch| + 2 <= 32
    ensures
      var t := Published(Published(h, e, first), e, second);
      && id in Registered(t, e) && id in t.subs && t.subs[id].ch == h.subs[id].ch + [first, second]
  {
    var s := Published(h, e, first);
    assert id in Registered(s, e) && s.subs[id].ch == h.subs[id].ch + [first];
    var t := Published(s, e, second);
    assert t.subs[id].ch == s.subs[id].ch + [second];
    assert h.subs[id].ch + [first] + [second] == h.subs[id].ch + [first, second];
  }

  /** A client on a live stream ends on the older snapshot: overtaking leaves the channel with
      the newer message first, the handler relays both, and the last one wins. The client then
      also resumes from what it holds. */
  lemma LiveClientEndsOnTheOlder(h: State<Snapshot>, e: Env, id: nat, sent: int,
                                 newer: Message<Snapshot>, older: Message<Snapshot>,
                                 d: Client.Decoder, json: Snapshot -> string, s: Client.State)
    requires WellFormed(h) && id in Registered(h, e) && h.subs[id].ch == []
    requires sent < older.version < newer.version
    requires Client.Faithful(d, json, newer) && Client.Faithful(d, json, older)
    ensures
      var t := Published(Published(h, e, newer), e, older);
      id in t.subs &&
      var relayed := Above(t.subs[id].ch, sent);
      var after := Client.HandledAll(d, s, Scanned(Stream(StreamHandler.FramesOf(relayed, json))));
      && relayed == [newer, older]
      && after == Client.State(Some(older.data), true)
      && StreamHandler.Requested(Client.LastEventId(after)) == older.data.version
  {
    TwoPublished(h, e, id, newer, older);
    assert [] + [newer, older] == [newer, older];
    AboveAll([newer, older], sent);
    hide Published, Above;
    Client.ReachesLastMessage(d, json, s, [newer, older]);
  }
}
