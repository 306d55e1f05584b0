/** From a write in the store to a client's snapshot: one stream of any run, read by the
    client at its other end. */
module EndToEnd {
  import opened Model
  import opened Sse
  import opened Scanning
  import Builder
  import Client
  import Delivery
  import Hub
  import HubRuns
  import Stamp
  import StreamHandler

  /** What goes over the wire for a message; `snap` says what snapshot a build returns. */
  function Shown(msg: Delivery.Msg, snap: Stamp.Build -> Snapshot): Message<Snapshot> {
    Message(msg.event, msg.version, snap(msg.data))
  }

  function AllShown(msgs: seq<Delivery.Msg>, snap: Stamp.Build -> Snapshot): (shown: seq<Message<Snapshot>>)
    ensures |shown| == |msgs|
    ensures forall i | 0 <= i < |msgs| :: shown[i] == Shown(msgs[i], snap)
  {
    if msgs == [] then [] else AllShown(msgs[..|msgs| - 1], snap) + [Shown(msgs[|msgs| - 1], snap)]
  }

  /** Everything the handler has written so far. */
  function Written(h: Delivery.Handler, snap: Stamp.Build -> Snapshot): seq<Message<Snapshot>>
    requires h.Streaming?
  {
    match h.start
    case ByReplay(msgs, _) => AllShown(msgs + h.frames, snap)
    case BySnapshot(build) => [Message("put", h.sent, snap(build))] + AllShown(h.frames, snap)
    case Nothing => AllShown(h.frames, snap)
  }

  lemma {:induction false} FramesAppend(a: seq<Message<Snapshot>>, b: seq<Message<Snapshot>>, json: Snapshot -> string)
    ensures StreamHandler.FramesOf(a + b, json) == StreamHandler.FramesOf(a, json) + StreamHandler.FramesOf(b, json)
  {
    if b == [] {
      assert a + b == a;
    } else {
      assert (a + b)[..|a + b| - 1] == a + b[..|b| - 1];
      FramesAppend(a, b[..|b| - 1], json);
    }
  }

  lemma ShownAppend(a: seq<Delivery.Msg>, b: seq<Delivery.Msg>, snap: Stamp.Build -> Snapshot)
    ensures AllShown(a + b, snap) == AllShown(a, snap) + AllShown(b, snap)
  {
  }

  /** These are the frames of the handler's code: its opening, then what it relays. */
  lemma WrittenByTheHandler(h: Delivery.Handler, snap: Stamp.Build -> Snapshot, json: Snapshot -> string)
    requires h.Streaming? && (h.start.ByReplay? ==> h.start.msgs != [])
    ensures
      var replayed := if h.start.ByReplay? then Some(AllShown(h.start.msgs, snap)) else None;
      var built := if h.start.BySnapshot? then Some(snap(h.start.build)) else None;
      StreamHandler.FramesOf(Written(h, snap), json) ==
      StreamHandler.Opening(replayed, built, h.sent, json) + StreamHandler.FramesOf(AllShown(h.frames, snap), json)
  {
    var relayed := AllShown(h.frames, snap);
    match h.start
    case ByReplay(msgs, _) =>
      ShownAppend(msgs, h.frames, snap);
      FramesAppend(AllShown(msgs, snap), relayed, json);
      hide StreamHandler.FramesOf, AllShown;
    case BySnapshot(build) =>
      var first := [Message("put", h.sent, snap(build))];
      FramesAppend(first, relayed, json);
      OneFrame(first[0], json);
      hide StreamHandler.FramesOf, AllShown;
    case Nothing =>
  }

  lemma OneFrame(msg: Message<Snapshot>, json: Snapshot -> string)
    ensures StreamHandler.FramesOf([msg], json) == [StreamHandler.FrameOf(msg, json)]
  {
    assert [msg][..0] == [] && StreamHandler.FramesOf([msg][..0], json) == [];
  }

  // ----- The stream of a run is what the code writes -----

  /** What the handler's state says of the answer it got from the hub. */
  predicate FollowsFrom(h: Delivery.Handler, replayed: Option<seq<Delivery.Msg>>) {
    match h
    case NeedsSnapshot(_, _) => replayed == None || replayed == Some([])
    case Building(_, _, _) => replayed == None || replayed == Some([])
    case Streaming(_, _, start, sent, _) =>
      (match start
       case ByReplay(msgs, _) => msgs != [] && replayed == Some(msgs) && sent == msgs[|msgs| - 1].version
       case BySnapshot(_) => replayed == None || replayed == Some([])
       case Nothing => (replayed == None || replayed == Some([])) && sent == 0)
    case _ => true
  }

  predicate PastReplay(h: Delivery.Handler) {
    h.NeedsSnapshot? || h.Building? || h.Streaming?
  }

  lemma ReplayFollows<V>(w: Delivery.World<V>)
    requires w.handler.Resuming?
    ensures
      var t := Delivery.AfterReplay(w);
      && PastReplay(t.handler) && t.handler.id == w.handler.id && t.handler.from == w.handler.from
      && FollowsFrom(t.handler, Hub.Replayed(w.sys.hub, w.env, w.handler.from))
  {
  }

  lemma LaterFollows<V>(w: Delivery.World<V>, step: Delivery.Step<V>, replayed: Option<seq<Delivery.Msg>>)
    requires Delivery.Enabled(w, step) && PastReplay(Delivery.Apply(w, step).handler) && !w.handler.Resuming?
    requires PastReplay(w.handler) ==> FollowsFrom(w.handler, replayed)
    ensures
      var t := Delivery.Apply(w, step);
      && PastReplay(w.handler) && t.handler.id == w.handler.id && t.handler.from == w.handler.from
      && FollowsFrom(t.handler, replayed)
  {
  }

  /** The moment the hub was asked. */
  lemma {:induction false} AskedTheHub<V(!new)>(worlds: seq<Delivery.World<V>>, steps: seq<Delivery.Step<V>>, n: nat)
    returns (i: nat)
    requires Delivery.Run(worlds, steps) && n <= |steps| && PastReplay(worlds[n].handler)
    ensures i < n && steps[i] == Delivery.Replay
    ensures worlds[i].handler == Delivery.Resuming(worlds[n].handler.id, worlds[n].handler.from)
    ensures FollowsFrom(worlds[n].handler, Hub.Replayed(worlds[i].sys.hub, worlds[i].env, worlds[n].handler.from))
  {
    assert n > 0;
    var w, step := worlds[n - 1], steps[n - 1];
    assert Delivery.Enabled(w, step) && worlds[n] == Delivery.Apply(w, step);
    if step == Delivery.Replay {
      i := n - 1;
      ReplayFollows(w);
    } else {
      if w.handler.Resuming? {
        StaysResuming(w, step);
      }
      if PastReplay(w.handler) {
        i := AskedTheHub(worlds, steps, n - 1);
        LaterFollows(w, step, Hub.Replayed(worlds[i].sys.hub, worlds[i].env, w.handler.from));
      } else {
        LaterFollows(w, step, None);
      }
    }
  }

  lemma StaysResuming<V>(w: Delivery.World<V>, step: Delivery.Step<V>)
    requires Delivery.Enabled(w, step) && w.handler.Resuming? && step != Delivery.Replay
    ensures Delivery.Apply(w, step).handler == w.handler
  {
  }

  function ShownAnswer(replayed: Option<seq<Delivery.Msg>>, snap: Stamp.Build -> Snapshot): Option<seq<Message<Snapshot>>> {
    if replayed.Some? then Some(AllShown(replayed.value, snap)) else None
  }

  lemma {:induction false} AboveShown(msgs: seq<Delivery.Msg>, snap: Stamp.Build -> Snapshot, v: int)
    ensures Above(AllShown(msgs, snap), v) == AllShown(Above(msgs, v), snap)
  {
    if msgs != [] {
      var init, last := msgs[..|msgs| - 1], msgs[|msgs| - 1];
      AboveShown(init, snap, v);
      AboveShownOne(last, snap, v);
      assert msgs == init + [last];
      hide Above, AllShown;
      AboveAppend(init, [last], v);
      ShownAppend(init, [last], snap);
      AboveAppend(AllShown(init, snap), AllShown([last], snap), v);
      ShownAppend(Above(init, v), Above([last], v), snap);
    }
  }

  lemma AboveShownOne(msg: Delivery.Msg, snap: Stamp.Build -> Snapshot, v: int)
    ensures Above(AllShown([msg], snap), v) == AllShown(Above([msg], v), snap)
  {
    assert [msg][..0] == [];
    assert AllShown([msg], snap) == [Shown(msg, snap)];
    assert Above([msg], v) == if msg.version > v then [msg] else [];
    assert Above([Shown(msg, snap)], v) == if msg.version > v then [Shown(msg, snap)] else [];
  }

  /** What the code covers is what the state machine covers. */
  lemma CoversTheSame(h: Delivery.Handler, replayed: Option<seq<Delivery.Msg>>, snap: Stamp.Build -> Snapshot,
                      json: Snapshot -> string)
    requires h.Streaming? && FollowsFrom(h, replayed)
    ensures
      var answer := ShownAnswer(replayed, snap);
      var built := if h.start.BySnapshot? then Some(snap(h.start.build)) else None;
      && StreamHandler.Covered(answer, built, h.sent) == h.sent
      && StreamHandler.FramesOf(Written(h, snap), json) ==
         StreamHandler.Opening(answer, built, h.sent, json) + StreamHandler.FramesOf(AllShown(h.frames, snap), json)
  {
    WrittenByTheHandler(h, snap, json);
    hide StreamHandler.FramesOf, Written;
  }

  /** In every run, what a stream has written so far is what `Serve` writes, letter by letter:
      given the answer the hub gave when it was asked, the snapshot built if it gave none and
      the version read after that, and the messages received since. In particular a message
      that the snapshot's version covers is not written a second time. */
  lemma ServedByTheCode<V(!new)>(
    worlds: seq<Delivery.World<V>>, steps: seq<Delivery.Step<V>>, n: nat, snap: Stamp.Build -> Snapshot,
    json: Snapshot -> string) returns (i: nat)
    requires Delivery.Run(worlds, steps) && n <= |steps| && worlds[n].handler.Streaming?
    ensures i < n && steps[i] == Delivery.Replay
    ensures
      var h := worlds[n].handler;
      var answer := ShownAnswer(Hub.Replayed(worlds[i].sys.hub, worlds[i].env, h.from), snap);
      var built := if h.start.BySnapshot? then Some(snap(h.start.build)) else None;
      var received := AllShown(HubRuns.Received(worlds[n].sys, h.id), snap);
      StreamHandler.FramesOf(Written(h, snap), json) ==
      StreamHandler.Opening(answer, built, h.sent, json)
      + StreamHandler.FramesOf(Above(received, StreamHandler.Covered(answer, built, h.sent)), json)
  {
    i := AskedTheHub(worlds, steps, n);
    var h := worlds[n].handler;
    Delivery.RunsKeep(worlds, steps, n);
    Delivery.StreamAccount(worlds[n]);
    hide Delivery.Run, Delivery.Inv, FollowsFrom, Hub.Replayed;
    CoversTheSame(h, Hub.Replayed(worlds[i].sys.hub, worlds[i].env, h.from), snap, json);
    AboveShown(HubRuns.Received(worlds[n].sys, h.id), snap, h.sent);
    hide StreamHandler.Covered, StreamHandler.Opening, StreamHandler.FramesOf, Written, AllShown, ShownAnswer, Above;
  }

  predicate WroteSomething(h: Delivery.Handler) {
    h.Streaming? && (h.frames != [] || h.start.BySnapshot? || (h.start.ByReplay? && h.start.msgs != []))
  }

  /** The build behind the last snapshot written. */
  function Latest(h: Delivery.Handler): Stamp.Build
    requires WroteSomething(h)
  {
    if h.frames != [] then h.frames[|h.frames| - 1].data
    else if h.start.BySnapshot? then h.start.build
    else h.start.msgs[|h.start.msgs| - 1].data
  }

  lemma LatestWritten(h: Delivery.Handler, snap: Stamp.Build -> Snapshot)
    requires WroteSomething(h)
    ensures
      var written := Written(h, snap);
      written != [] && written[|written| - 1].data == snap(Latest(h))
  {
  }

  /** The stream is registered, nothing is owed to it and its channel is empty. */
  ghost predicate Drained<V>(w: Delivery.World<V>) {
    && w.handler.Streaming?
    && w.handler.id in w.sys.hub.subs
    && var a := HubRuns.AccountOf(w.sys, w.handler.id);
       a.registered && a.pending.None? && a.ch == []
  }

  /** The stream began with a replay, or with a snapshot between whose stamp and the version
      read after it nothing was published. */
  ghost predicate BeganWell<V>(w: Delivery.World<V>) {
    && w.handler.Streaming?
    && !w.handler.start.Nothing?
    && (w.handler.start.BySnapshot? ==>
          forall m | m in Delivery.Log(w) :: !(w.handler.start.build.stamp < m.version <= w.handler.sent))
  }

  /** What a drained stream has written since it began. */
  lemma DrainedDelivered<V(!new)>(worlds: seq<Delivery.World<V>>, steps: seq<Delivery.Step<V>>, n: nat)
    requires Delivery.Run(worlds, steps) && n <= |steps| && Drained(worlds[n])
    ensures
      var h, log := worlds[n].handler, Delivery.Log(worlds[n]);
      && (h.start.ByReplay? ==> h.start.msgs != [] && h.start.msgs + h.frames == Above(log, h.from))
      && (h.start.BySnapshot? ==> h.frames == Above(log, h.sent))
  {
    var h := worlds[n].handler;
    var none: seq<Delivery.Msg> := [];
    assert Above(none, h.sent) == [];
    if h.start.ByReplay? {
      Delivery.ReplayDelivery(worlds, steps, n);
      Delivery.ReplayStarted(worlds, steps, n);
      hide Delivery.Run, Delivery.Log;
      assert h.start.msgs + h.frames + none == h.start.msgs + h.frames;
    } else if h.start.BySnapshot? {
      Delivery.SnapshotDelivery(worlds, steps, n);
      hide Delivery.Run, Delivery.Log;
      assert h.frames + none == h.frames;
    }
  }

  /** Once drained, the last snapshot written is stamped at least as high as everything that
      was published, and it is one of those published or the handler's own. */
  lemma LatestCoversLog<V(!new)>(worlds: seq<Delivery.World<V>>, steps: seq<Delivery.Step<V>>, n: nat)
    requires Delivery.Run(worlds, steps) && n <= |steps| && Drained(worlds[n]) && BeganWell(worlds[n])
    ensures
      var h, log := worlds[n].handler, Delivery.Log(worlds[n]);
      && WroteSomething(h)
      && (forall m | m in log :: m.version <= Latest(h).stamp)
      && (h.start == Delivery.BySnapshot(Latest(h)) || exists m | m in log :: m.data == Latest(h))
  {
    var h, log := worlds[n].handler, Delivery.Log(worlds[n]);
    Delivery.LogFacts(worlds, steps, n);
    DrainedDelivered(worlds, steps, n);
    hide Delivery.Run, Delivery.Log, Above;
    if h.start.ByReplay? {
      LastCovers(log, h.from, h.start.msgs + h.frames);
    } else {
      LastCovers(log, h.sent, h.frames);
    }
  }

  /** The messages above v end with the last of all, if there are any above v. */
  lemma LastCovers(log: seq<Delivery.Msg>, v: int, above: seq<Delivery.Msg>)
    requires Increasing(log) && above == Above(log, v)
    requires forall m | m in log :: m.version <= m.data.stamp
    ensures above == [] ==> forall m | m in log :: m.version <= v
    ensures above != [] ==>
              && above[|above| - 1] in log
              && forall m | m in log :: m.version <= above[|above| - 1].data.stamp
  {
    if above == [] {
      forall m | m in log ensures m.version <= v {
        AboveMember(log, v, m);
      }
    } else {
      var last := above[|above| - 1];
      assert last in above;
      AboveMember(log, v, last);
      Delivery.LastAbove(log, v);
      forall m | m in log ensures m.version <= log[|log| - 1].version {
        var i :| 0 <= i < |log| && log[i] == m;
      }
    }
  }

  /** A client that resumes and is told everything by a replay receives exactly what was
      published above the version it held. */
  lemma ReceivesWhatItLacks<V(!new)>(worlds: seq<Delivery.World<V>>, steps: seq<Delivery.Step<V>>, n: nat, s: Client.State)
    requires Delivery.Run(worlds, steps) && n <= |steps| && Drained(worlds[n])
    requires worlds[n].handler.start.ByReplay? && s.snap.Some?
    requires worlds[n].handler.from == StreamHandler.Requested(Client.LastEventId(s))
    ensures
      var h := worlds[n].handler;
      h.start.msgs + h.frames == Above(Delivery.Log(worlds[n]), s.snap.value.version)
  {
    DrainedDelivered(worlds, steps, n);
    Client.ResumesFromHeld(s);
  }

  // ----- What a snapshot contains -----

  /** What the store's cells hold. */
  datatype Datum = AFlag(flag: Flag) | AConfig(config: FlagConfig) | ASegment(segment: Segment)

  type Store = Stamp.Store<Datum>

  /** What a reader finds in a snapshot under a cell. */
  function Content(s: Snapshot, c: Stamp.Cell): Option<Datum> {
    match c
    case FlagCell(k) => if k in s.flags then Some(AFlag(s.flags[k].flag)) else None
    case ConfigCell(k) => if k in s.flags then Some(AConfig(s.flags[k].config)) else None
    case SegmentCell(k) => if k in s.segments then Some(ASegment(s.segments[k])) else None
  }

  /** How a write shows in a snapshot that has it: archived flags do not, and a flag without a
      configuration has the default one. */
  function ShownAs(write: Stamp.Write<Datum>, c: Stamp.Cell): Option<Datum> {
    match c
    case FlagCell(_) => if Stamp.Live(write) then write.value else None
    case ConfigCell(_) => if write.value.Some? then write.value else Some(AConfig(Builder.DEFAULT_CONFIG))
    case SegmentCell(_) => write.value
  }

  /** The write a build has read for a cell; a cell never written reads as deleted. */
  function Read(store: Store, b: Stamp.Build, c: Stamp.Cell): Stamp.Write<Datum> {
    if 0 < Stamp.Seen(b, c) <= |Stamp.History(store, c)| then Stamp.History(store, c)[Stamp.Seen(b, c) - 1]
    else Stamp.Write(None, false, None)
  }

  /** The snapshot a build returns: its version is the stamp, and every cell shows what was
      read, configurations those of the flags it has. */
  ghost predicate Renders(store: Store, b: Stamp.Build, s: Snapshot) {
    && s.version == b.stamp
    && forall c :: Content(s, c) ==
         if c.ConfigCell? && ShownAs(Read(store, b, Stamp.FlagCell(c.key)), Stamp.FlagCell(c.key)).None? then None
         else ShownAs(Read(store, b, c), c)
  }

  /** Cells hold what their kind says. */
  ghost predicate Typed(store: Store) {
    forall c, i | 0 <= i < |Stamp.History(store, c)| && Stamp.History(store, c)[i].value.Some? ::
      var v := Stamp.History(store, c)[i].value.value;
      match c
      case FlagCell(_) => v.AFlag?
      case ConfigCell(_) => v.AConfig?
      case SegmentCell(_) => v.ASegment?
  }

  function ConfigRead(store: Store, b: Stamp.Build, k: string): FlagConfig {
    var read := Read(store, b, Stamp.ConfigCell(k)).value;
    if read.Some? && read.value.AConfig? then read.value.config else Builder.DEFAULT_CONFIG
  }

  function FlagKeys(store: Store, b: Stamp.Build): set<string> {
    set c | c in store.cells && c.FlagCell? && Stamp.Live(Read(store, b, c)) && Read(store, b, c).value.value.AFlag? :: c.key
  }

  function SegmentKeys(store: Store, b: Stamp.Build): set<string> {
    set c | c in store.cells && c.SegmentCell? && Read(store, b, c).value.Some? && Read(store, b, c).value.value.ASegment? :: c.key
  }

  /** There is such a snapshot for every build. */
  function Rendered(store: Store, b: Stamp.Build, project: string, env: string, now: int): Snapshot {
    Snapshot(
      env, project, b.stamp,
      map k | k in FlagKeys(store, b) && Read(store, b, Stamp.FlagCell(k)).value.Some?
              && Read(store, b, Stamp.FlagCell(k)).value.value.AFlag? ::
        ResolvedFlag(k, Read(store, b, Stamp.FlagCell(k)).value.value.flag, ConfigRead(store, b, k)),
      map k | k in SegmentKeys(store, b) && Read(store, b, Stamp.SegmentCell(k)).value.Some?
              && Read(store, b, Stamp.SegmentCell(k)).value.value.ASegment? ::
        Read(store, b, Stamp.SegmentCell(k)).value.value.segment,
      "", now)
  }

  lemma RenderedRenders(store: Store, b: Stamp.Build, project: string, env: string, now: int)
    requires Typed(store)
    ensures Renders(store, b, Rendered(store, b, project, env, now))
  {
    var s := Rendered(store, b, project, env, now);
    forall c ensures Content(s, c) ==
      if c.ConfigCell? && ShownAs(Read(store, b, Stamp.FlagCell(c.key)), Stamp.FlagCell(c.key)).None? then None
      else ShownAs(Read(store, b, c), c)
    {
      FlagShown(store, b, c.key);
      SegmentShown(store, b, c.key);
      ReadTyped(store, b, Stamp.ConfigCell(c.key));
      hide FlagKeys, SegmentKeys, Read;
    }
  }

  lemma ReadTyped(store: Store, b: Stamp.Build, c: Stamp.Cell)
    requires Typed(store)
    ensures
      var v := Read(store, b, c).value;
      v.Some? ==>
        && (c.FlagCell? ==> v.value.AFlag?) && (c.ConfigCell? ==> v.value.AConfig?) && (c.SegmentCell? ==> v.value.ASegment?)
    ensures Read(store, b, c).value.Some? ==> c in store.cells
  {
  }

  lemma FlagShown(store: Store, b: Stamp.Build, k: string)
    requires Typed(store)
    ensures k in FlagKeys(store, b) <==> Stamp.Live(Read(store, b, Stamp.FlagCell(k)))
    ensures Read(store, b, Stamp.FlagCell(k)).value.Some? ==> Read(store, b, Stamp.FlagCell(k)).value.value.AFlag?
  {
    var c := Stamp.FlagCell(k);
    ReadTyped(store, b, c);
    if Stamp.Live(Read(store, b, c)) {
      assert c in store.cells && c.key == k;
    }
    hide Typed, Read;
  }

  lemma SegmentShown(store: Store, b: Stamp.Build, k: string)
    requires Typed(store)
    ensures k in SegmentKeys(store, b) <==> Read(store, b, Stamp.SegmentCell(k)).value.Some?
    ensures Read(store, b, Stamp.SegmentCell(k)).value.Some? ==>
              Read(store, b, Stamp.SegmentCell(k)).value.value.ASegment?
  {
    var c := Stamp.SegmentCell(k);
    ReadTyped(store, b, c);
    if Read(store, b, c).value.Some? {
      assert c in store.cells && c.key == k;
    }
    hide Typed, Read;
  }

  // ----- From the store to the client -----

  /** The handler sent this build's snapshot, or it was published. */
  ghost predicate SentOrPublished(w: Delivery.World<Datum>, b: Stamp.Build) {
    || (w.handler.Streaming? && w.handler.start == Delivery.BySnapshot(b))
    || (exists m | m in Delivery.Log(w) :: m.data == b)
  }

  /** What a finished build's snapshot contains under a cell is no older than any write whose
      bump returned at most the stamp. */
  lemma RenderedIsFresh(store: Store, b: Stamp.Build, s: Snapshot, c: Stamp.Cell, i: nat)
    requires Stamp.Sound(store, b) && Stamp.Finished(b) && Renders(store, b, s)
    requires c.ConfigCell? ==> c.key in s.flags
    requires
      && i < |Stamp.History(store, c)|
      && Stamp.History(store, c)[i].bump.Some?
      && Stamp.History(store, c)[i].bump.value <= b.stamp
    ensures exists j | i <= j < |Stamp.History(store, c)| :: Content(s, c) == ShownAs(Stamp.History(store, c)[j], c)
  {
    if c.ConfigCell? {
      assert Content(s, Stamp.FlagCell(c.key)).Some?;
      assert Stamp.Live(Read(store, b, Stamp.FlagCell(c.key)));
      assert Stamp.ListsLive(Stamp.History(store, Stamp.FlagCell(c.key)), b, c.key);
    }
    assert Stamp.Shows(store, b, c);
    Stamp.FinishedReads(store, b, c, i);
    var j := Stamp.Seen(b, c) - 1;
    assert Read(store, b, c) == Stamp.History(store, c)[j];
    hide Renders;
  }

  /** A client that has read what a drained stream wrote holds the last snapshot written, and
      in it, for every flag, every segment and every configuration of a flag it has, a write no
      older than any write announced by any message ever published to the environment: from
      the store to the client, nothing announced is missing. The version it resumes from next
      time is at least that of every message. */
  lemma ClientHoldsEveryAnnouncedWrite(
    worlds: seq<Delivery.World<Datum>>, steps: seq<Delivery.Step<Datum>>, n: nat, snap: Stamp.Build -> Snapshot,
    d: Client.Decoder, json: Snapshot -> string, s: Client.State)
    requires Delivery.Run(worlds, steps) && n <= |steps| && Drained(worlds[n]) && BeganWell(worlds[n])
    requires forall b | SentOrPublished(worlds[n], b) :: Renders(worlds[n].store, b, snap(b))
    requires forall m | m in Written(worlds[n].handler, snap) :: Client.Faithful(d, json, m)
    ensures
      var w := worlds[n];
      var t := Client.HandledAll(d, s, Scanned(Stream(StreamHandler.FramesOf(Written(w.handler, snap), json))));
      && t.ready && t.snap.Some?
      && (forall m | m in Delivery.Log(w) :: m.version <= StreamHandler.Requested(Client.LastEventId(t)))
      && forall m, c, i | m in Delivery.Log(w) && Announced(w.store, c, i, m.version) ::
           HasItOrLater(w.store, t.snap.value, c, i)
  {
    var h := worlds[n].handler;
    LatestCoversLog(worlds, steps, n);
    assert SentOrPublished(worlds[n], Latest(h));
    hide BeganWell, Drained, Delivery.Log, SentOrPublished;
    LatestHasThemAll(worlds, steps, n, Latest(h), snap(Latest(h)));
    hide Delivery.Run;
    LatestWritten(h, snap);
    Client.ReachesLastMessage(d, json, s, Written(h, snap));
    RendersVersion(worlds[n].store, Latest(h), snap(Latest(h)));
  }

  lemma LatestHasThemAll(
    worlds: seq<Delivery.World<Datum>>, steps: seq<Delivery.Step<Datum>>, n: nat, b: Stamp.Build, s: Snapshot)
    requires Delivery.Run(worlds, steps) && n <= |steps| && SentOrPublished(worlds[n], b)
    requires Renders(worlds[n].store, b, s) && forall m | m in Delivery.Log(worlds[n]) :: m.version <= b.stamp
    ensures forall m, c, i | m in Delivery.Log(worlds[n]) && Announced(worlds[n].store, c, i, m.version) ::
              HasItOrLater(worlds[n].store, s, c, i)
  {
    Delivery.SnapshotsFinished(worlds, steps, n, b);
    hide Delivery.Run, Delivery.Log, SentOrPublished, Stamp.Sound, Renders;
    forall m, c, i | m in Delivery.Log(worlds[n]) && Announced(worlds[n].store, c, i, m.version)
      ensures HasItOrLater(worlds[n].store, s, c, i)
    {
      if c.ConfigCell? ==> c.key in s.flags {
        RenderedIsFresh(worlds[n].store, b, s, c, i);
      }
    }
  }

  lemma RendersVersion(store: Store, b: Stamp.Build, s: Snapshot)
    requires Renders(store, b, s)
    ensures s.version == b.stamp
  {
  }

  /** The i-th write to the cell was followed by a bump to at most this version. */
  predicate Announced(store: Store, c: Stamp.Cell, i: nat, version: int) {
    && i < |Stamp.History(store, c)|
    && Stamp.History(store, c)[i].bump.Some?
    && Stamp.History(store, c)[i].bump.value <= version
  }

  /** The snapshot shows the cell as the i-th write to it or a later one left it; as for a
      configuration, if it has the flag. */
  ghost predicate HasItOrLater(store: Store, s: Snapshot, c: Stamp.Cell, i: nat) {
    (c.ConfigCell? ==> c.key in s.flags) ==>
      exists j | i <= j < |Stamp.History(store, c)| :: Content(s, c) == ShownAs(Stamp.History(store, c)[j], c)
  }
}
