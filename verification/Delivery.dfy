/** One stream end to end (`sdkStream` in internal/api/server.go) against everything else
    that goes on: mutators, snapshot builds, publishers and other subscribers of the hub,
    all interleaved step by step. Publishes of the stream's environment happen in version
    order; nothing else is assumed about timing. */
module Delivery {
  import opened Model
  import opened Hub
  import Ring
  import HubRuns
  import Stamp

  type Msg = Message<Stamp.Build>

  /** How the stream began: with replayed messages (`upTo` is the length of the log at that
      moment), with a full snapshot, or, when the build failed, with nothing. */
  datatype Start = ByReplay(msgs: seq<Msg>, upTo: nat) | BySnapshot(build: Stamp.Build) | Nothing

  datatype Handler =
    | Idle
    | Resuming(id: nat, from: int)
    | NeedsSnapshot(id: nat, from: int)
    | Building(id: nat, from: int, b: nat)
    | Streaming(id: nat, from: int, start: Start, sent: int, frames: seq<Msg>)

  datatype World<+V> = World(env: Env, sys: HubRuns.Sys<Stamp.Build>, store: Stamp.Store<V>, handler: Handler)

  datatype Step<+V> =
    | HubStep(hub: HubRuns.Step<Stamp.Build>)
    | StoreStep(store: Stamp.Step<V>)
    | Subscribe(from: int)
    | Replay
    | StartBuild(b: nat)
    | FinishBuild
    | FailBuild
    | Receive

  function Init<V>(env: Env): World<V> {
    World(env, HubRuns.Init(), Stamp.Init(), Idle)
  }

  function Log<V>(w: World<V>): seq<Msg> {
    HubRuns.Log(w.sys, w.env)
  }

  /** A mutator publishes under the version its bump returned, with a finished snapshot it
      built after that bump; and publishes happen in version order. */
  predicate CanPublish<V>(w: World<V>, msg: Msg) {
    && 0 < msg.version <= w.store.version
    && (exists b | b in w.store.builds :: w.store.builds[b] == msg.data)
    && msg.version <= msg.data.stamp
    && Stamp.Finished(msg.data)
    && (forall m | m in Log(w) :: m.version < msg.version)
  }

  /** Everything the hub can do, except receiving on the handler's behalf. */
  predicate CanHubStep<V>(w: World<V>, step: HubRuns.Step<Stamp.Build>) {
    && HubRuns.Enabled(w.sys, step)
    && (step.Begin? && step.envKey == w.env ==> CanPublish(w, step.msg))
    && (step.Receive? && !w.handler.Idle? ==> step.id != w.handler.id)
  }

  function AfterSubscribe<V>(w: World<V>, from: int): World<V> {
    w.(sys := HubRuns.AfterSubscribe(w.sys, w.env), handler := Resuming(w.sys.hub.subSeq + 1, from))
  }

  function AfterReplay<V>(w: World<V>): World<V>
    requires w.handler.Resuming?
  {
    var h := w.handler;
    match Replayed(w.sys.hub, w.env, h.from)
    case Some(msgs) =>
      if msgs != []
      then w.(handler := Streaming(h.id, h.from, ByReplay(msgs, |Log(w)|), msgs[|msgs| - 1].version, []))
      else w.(handler := NeedsSnapshot(h.id, h.from))
    case None => w.(handler := NeedsSnapshot(h.id, h.from))
  }

  function AfterStartBuild<V>(w: World<V>, b: nat): World<V>
    requires w.handler.NeedsSnapshot?
  {
    w.(store := Stamp.AfterStart(w.store, b), handler := Building(w.handler.id, w.handler.from, b))
  }

  predicate CanFinishBuild<V>(w: World<V>) {
    && w.handler.Building?
    && w.handler.b in w.store.builds
    && Stamp.Finished(w.store.builds[w.handler.b])
  }

  /** The build is done; the version is read a second time, for the frame's id. */
  function AfterFinishBuild<V>(w: World<V>): World<V>
    requires CanFinishBuild(w)
  {
    var h := w.handler;
    w.(handler := Streaming(h.id, h.from, BySnapshot(w.store.builds[h.b]), w.store.version, []))
  }

  function AfterFailBuild<V>(w: World<V>): World<V>
    requires w.handler.NeedsSnapshot?
  {
    w.(handler := Streaming(w.handler.id, w.handler.from, Nothing, 0, []))
  }

  predicate CanReceive<V>(w: World<V>) {
    w.handler.Streaming? && HubRuns.CanReceive(w.sys, w.handler.id)
  }

  /** The handler takes the next message off its channel and writes a frame for it, unless
      the replay or the snapshot already covered its version. */
  function AfterReceive<V>(w: World<V>): World<V>
    requires CanReceive(w)
  {
    var h := w.handler;
    var msg := w.sys.hub.subs[h.id].ch[0];
    w.(sys := HubRuns.AfterReceive(w.sys, h.id),
       handler := h.(frames := h.frames + if msg.version <= h.sent then [] else [msg]))
  }

  predicate Enabled<V>(w: World<V>, step: Step<V>) {
    match step
    case HubStep(s) => CanHubStep(w, s)
    case StoreStep(s) => Stamp.Enabled(w.store, s)
    case Subscribe(_) => w.handler.Idle?
    case Replay => w.handler.Resuming?
    case StartBuild(b) => w.handler.NeedsSnapshot? && b !in w.store.builds
    case FinishBuild => CanFinishBuild(w)
    case FailBuild => w.handler.NeedsSnapshot?
    case Receive => CanReceive(w)
  }

  function Apply<V>(w: World<V>, step: Step<V>): World<V>
    requires Enabled(w, step)
  {
    match step
    case HubStep(s) => w.(sys := HubRuns.Apply(w.sys, s))
    case StoreStep(s) => w.(store := Stamp.Apply(w.store, s))
    case Subscribe(from) => AfterSubscribe(w, from)
    case Replay => AfterReplay(w)
    case StartBuild(b) => AfterStartBuild(w, b)
    case FinishBuild => AfterFinishBuild(w)
    case FailBuild => AfterFailBuild(w)
    case Receive => AfterReceive(w)
  }

  ghost predicate Run<V(!new)>(worlds: seq<World<V>>, steps: seq<Step<V>>) {
    && |worlds| == |steps| + 1
    && worlds[0] == Init(worlds[0].env)
    && forall i | 0 <= i < |steps| :: Enabled(worlds[i], steps[i]) && worlds[i + 1] == Apply(worlds[i], steps[i])
  }

  // ----- Invariants -----

  /** The build is finished, and true to the store. */
  ghost predicate Solid<V>(store: Stamp.Store<V>, build: Stamp.Build) {
    Stamp.Sound(store, build) && Stamp.Finished(build)
  }

  /** What the log of the stream's environment looks like against the store. */
  ghost predicate LogInv<V>(log: seq<Msg>, store: Stamp.Store<V>) {
    && Increasing(log)
    && forall m | m in log :: 0 < m.version <= store.version && m.version <= m.data.stamp && Solid(store, m.data)
  }

  /** The part of the handler's history that it keeps in its own variables, against the
      log, the point at which it subscribed and what it received. */
  ghost predicate HandlerInv<V>(h: Handler, log: seq<Msg>, joined: nat, received: seq<Msg>, store: Stamp.Store<V>) {
    && joined <= |log|
    && match h
       case Idle => true
       case Resuming(_, _) => received == []
       case NeedsSnapshot(_, _) => received == []
       case Building(_, _, b) =>
         && received == []
         && b in store.builds
         && forall m | m in log[..joined] :: m.version <= store.builds[b].stamp
       case Streaming(_, from, start, sent, frames) =>
         frames == Above(received, sent) && StartInv(start, from, sent, log, joined, store)
  }

  ghost predicate StartInv<V>(start: Start, from: int, sent: int, log: seq<Msg>, joined: nat, store: Stamp.Store<V>) {
    match start
    case ByReplay(msgs, upTo) =>
      && joined <= upTo <= |log| && 0 < upTo
      && msgs == Above(log[..upTo], from)
      && sent == log[upTo - 1].version > from
    case BySnapshot(build) =>
      && build.stamp <= sent <= store.version
      && Solid(store, build)
      && joined <= |log| && forall m | m in log[..joined] :: m.version <= build.stamp
    case Nothing => sent == 0
  }

  function Joined<V>(w: World<V>, id: nat): nat {
    if id in w.sys.joined then w.sys.joined[id] else 0
  }

  ghost predicate Inv<V>(w: World<V>) {
    && HubRuns.Inv(w.sys)
    && Stamp.Inv(w.store)
    && LogInv(Log(w), w.store)
    && (!w.handler.Idle? ==>
          && w.handler.id in w.sys.hub.subs
          && w.sys.hub.subs[w.handler.id].envKey == w.env
          && HandlerInv(
               w.handler, Log(w), Joined(w, w.handler.id), HubRuns.Received(w.sys, w.handler.id), w.store))
  }

  // ----- Log and store only grow -----

  lemma LogInvAppend<V>(log: seq<Msg>, store: Stamp.Store<V>, msg: Msg)
    requires LogInv(log, store)
    requires 0 < msg.version <= store.version && msg.version <= msg.data.stamp && Solid(store, msg.data)
    requires forall m | m in log :: m.version < msg.version
    ensures LogInv(log + [msg], store)
  {
    var longer := log + [msg];
    forall i, j | 0 <= i < j < |longer| ensures longer[i].version < longer[j].version {
      assert longer[i] == log[i] && longer[i] in log;
    }
  }

  lemma HandlerInvAppend<V>(h: Handler, log: seq<Msg>, joined: nat, received: seq<Msg>, store: Stamp.Store<V>, msg: Msg)
    requires HandlerInv(h, log, joined, received, store)
    ensures HandlerInv(h, log + [msg], joined, received, store)
  {
    assert (log + [msg])[..joined] == log[..joined];
    if h.Streaming? && h.start.ByReplay? {
      assert (log + [msg])[..h.start.upTo] == log[..h.start.upTo];
    }
  }

  /** The store has moved on: versions grew, and builds that existed keep their stamps. */
  ghost predicate Later<V>(s: Stamp.Store<V>, t: Stamp.Store<V>) {
    && s.version <= t.version
    && (forall b | b in s.builds :: b in t.builds && t.builds[b].stamp == s.builds[b].stamp)
  }

  lemma StoreStepLater<V>(s: Stamp.Store<V>, step: Stamp.Step<V>)
    requires Stamp.Enabled(s, step)
    ensures Later(s, Stamp.Apply(s, step))
  {
  }

  lemma StoreStepSound<V>(s: Stamp.Store<V>, step: Stamp.Step<V>, build: Stamp.Build)
    requires Stamp.Enabled(s, step) && Stamp.Sound(s, build)
    ensures Stamp.Sound(Stamp.Apply(s, step), build)
  {
    match step
    case Put(c, value, archived) => Stamp.PutSound(s, c, value, archived, build);
    case Bump(c, i) => Stamp.BumpSound(s, c, i, build);
    case Start(b) => Stamp.SoundSameCells(s, Stamp.AfterStart(s, b), build);
    case ListFlags(b) => Stamp.SoundSameCells(s, Stamp.AfterListFlags(s, b), build);
    case ListSegments(b) => Stamp.SoundSameCells(s, Stamp.AfterListSegments(s, b), build);
    case ReadConfig(b, key) => Stamp.SoundSameCells(s, Stamp.AfterReadConfig(s, b, key), build);
  }

  lemma LogInvLater<V>(log: seq<Msg>, s: Stamp.Store<V>, step: Stamp.Step<V>)
    requires LogInv(log, s) && Stamp.Enabled(s, step)
    ensures LogInv(log, Stamp.Apply(s, step))
  {
    StoreStepLater(s, step);
    forall m | m in log ensures Solid(Stamp.Apply(s, step), m.data) {
      StoreStepSound(s, step, m.data);
    }
    hide Stamp.Apply, Stamp.Sound;
  }

  lemma HandlerInvLater<V>(h: Handler, log: seq<Msg>, joined: nat, received: seq<Msg>,
                           s: Stamp.Store<V>, step: Stamp.Step<V>)
    requires HandlerInv(h, log, joined, received, s) && Stamp.Enabled(s, step)
    ensures HandlerInv(h, log, joined, received, Stamp.Apply(s, step))
  {
    StoreStepLater(s, step);
    if h.Streaming? && h.start.BySnapshot? {
      StoreStepSound(s, step, h.start.build);
    }
    hide Stamp.Apply, Stamp.Sound;
  }

  // ----- What every step keeps -----

  /** A hub step that is not the handler's own leaves the handler's account alone, except
      that a publish to its environment lengthens the log. */
  lemma HubFrame(s: HubRuns.Sys<Stamp.Build>, step: HubRuns.Step<Stamp.Build>, id: nat)
    requires WellFormed(s.hub) && HubRuns.Enabled(s, step) && id in s.hub.subs
    requires step.Receive? ==> step.id != id
    ensures
      var t := HubRuns.Apply(s, step);
      && id in t.hub.subs && t.hub.subs[id].envKey == s.hub.subs[id].envKey
      && HubRuns.Received(t, id) == HubRuns.Received(s, id)
      && (id in t.joined <==> id in s.joined) && (id in t.joined ==> t.joined[id] == s.joined[id])
  {
  }

  lemma HubLog(s: HubRuns.Sys<Stamp.Build>, step: HubRuns.Step<Stamp.Build>, e: Env)
    requires HubRuns.Enabled(s, step)
    ensures HubRuns.Log(HubRuns.Apply(s, step), e) ==
            if step.Begin? && step.envKey == e then HubRuns.Log(s, e) + [step.msg] else HubRuns.Log(s, e)
  {
  }

  lemma HubStepKeeps<V>(w: World<V>, step: HubRuns.Step<Stamp.Build>)
    requires Inv(w) && CanHubStep(w, step)
    ensures Inv(w.(sys := HubRuns.Apply(w.sys, step)))
  {
    HubRuns.StepKeeps(w.sys, step);
    HubLog(w.sys, step, w.env);
    if step.Begin? && step.envKey == w.env {
      LogInvAppend(Log(w), w.store, step.msg);
    }
    if !w.handler.Idle? {
      var id := w.handler.id;
      HubFrame(w.sys, step, id);
      if step.Begin? && step.envKey == w.env {
        HandlerInvAppend(w.handler, Log(w), Joined(w, id), HubRuns.Received(w.sys, id), w.store, step.msg);
      }
    }
    hide HubRuns.Inv, Stamp.Inv, LogInv, HandlerInv, HubRuns.Apply;
  }

  lemma StoreStepKeeps<V>(w: World<V>, step: Stamp.Step<V>)
    requires Inv(w) && Stamp.Enabled(w.store, step)
    ensures Inv(w.(store := Stamp.Apply(w.store, step)))
  {
    Stamp.StepKeeps(w.store, step);
    LogInvLater(Log(w), w.store, step);
    if !w.handler.Idle? {
      var id := w.handler.id;
      HandlerInvLater(w.handler, Log(w), Joined(w, id), HubRuns.Received(w.sys, id), w.store, step);
    }
    hide HubRuns.Inv, Stamp.Inv, LogInv, HandlerInv, Stamp.Apply;
  }

  lemma NewSubscriber(s: HubRuns.Sys<Stamp.Build>, e: Env)
    ensures
      var t, id := HubRuns.AfterSubscribe(s, e), s.hub.subSeq + 1;
      && id in t.hub.subs && t.hub.subs[id].envKey == e
      && HubRuns.Received(t, id) == []
      && id in t.joined && t.joined[id] == |HubRuns.Log(s, e)|
      && HubRuns.Log(t, e) == HubRuns.Log(s, e)
  {
  }

  lemma SubscribeKeeps<V>(w: World<V>, from: int)
    requires Inv(w) && w.handler.Idle?
    ensures Inv(AfterSubscribe(w, from))
  {
    HubRuns.SubscribeKeeps(w.sys, w.env);
    NewSubscriber(w.sys, w.env);
    hide HubRuns.Inv, Stamp.Inv, LogInv, HubRuns.AfterSubscribe, HubRuns.Log, HubRuns.Received;
  }

  lemma SuffixIncreasing(before: seq<Msg>, ring: seq<Msg>)
    requires Increasing(before + ring)
    ensures Increasing(ring)
    ensures ring != [] ==> forall m | m in before :: m.version < ring[0].version
  {
    var log := before + ring;
    forall i, j | 0 <= i < j < |ring| ensures ring[i].version < ring[j].version {
      assert ring[i] == log[|before| + i] && ring[j] == log[|before| + j];
    }
    if ring != [] {
      forall i | 0 <= i < |before| ensures before[i].version < ring[0].version {
        assert before[i] == log[i] && ring[0] == log[|before|];
      }
    }
  }

  /** A ring that answers at all is only asked for versions it reaches back to. */
  lemma AnswerReachesBack(ring: seq<Msg>, from: int, msgs: seq<Msg>)
    requires Increasing(ring) && Ring.Answer(ring, RING_CAPACITY, from) == Some(msgs) && msgs != []
    ensures ring != [] && ring[0].version - 1 <= from && msgs == Above(ring, from)
  {
    Ring.IncreasingSinceExact(ring, RING_CAPACITY, from);
    assert Ring.ExactAt(ring, RING_CAPACITY, from);
    assert ring[0].version <= Ring.Window(ring, RING_CAPACITY)[0].version;
  }

  /** A non-empty replay is everything published above the client's version, whether or
      not it predates the ring. */
  lemma ReplayIsComplete(ring: seq<Msg>, log: seq<Msg>, from: int, msgs: seq<Msg>)
    requires HubRuns.IsSuffix(ring, log) && Increasing(log)
    requires Ring.Answer(ring, RING_CAPACITY, from) == Some(msgs) && msgs != []
    ensures msgs == Above(log, from)
  {
    hide Ring.Answer;
    var before := log[..|log| - |ring|];
    assert log == before + ring;
    SuffixIncreasing(before, ring);
    AnswerReachesBack(ring, from, msgs);
    hide Increasing;
    AboveNone(before, from);
    AboveAppend(before, ring, from);
  }

  lemma LastAbove(log: seq<Msg>, v: int)
    requires Increasing(log) && Above(log, v) != []
    ensures log != [] && Above(log, v)[|Above(log, v)| - 1] == log[|log| - 1] && log[|log| - 1].version > v
  {
    var n := |log| - 1;
    if log[n].version <= v {
      AboveNone(log, v);
    } else {
      Ring.AboveLast(log, n, v);
      assert log[..n + 1] == log;
    }
  }

  lemma ReplayStarts<V>(h: Handler, log: seq<Msg>, joined: nat, ring: seq<Msg>, msgs: seq<Msg>, store: Stamp.Store<V>)
    requires h.Resuming? && HandlerInv(h, log, joined, [], store)
    requires HubRuns.IsSuffix(ring, log) && Increasing(log)
    requires Ring.Answer(ring, RING_CAPACITY, h.from) == Some(msgs) && msgs != []
    ensures HandlerInv(
      Streaming(h.id, h.from, ByReplay(msgs, |log|), msgs[|msgs| - 1].version, []), log, joined, [], store)
  {
    ReplayIsComplete(ring, log, h.from, msgs);
    LastAbove(log, h.from);
    hide Ring.Answer, Increasing;
    assert log[..|log|] == log;
  }

  /** A step of the handler alone. */
  lemma HandlerMoves<V>(w: World<V>, next: Handler)
    requires Inv(w) && !w.handler.Idle? && !next.Idle? && next.id == w.handler.id
    requires HandlerInv(next, Log(w), Joined(w, next.id), HubRuns.Received(w.sys, next.id), w.store)
    ensures Inv(w.(handler := next))
  {
    hide HubRuns.Inv, Stamp.Inv, LogInv, HandlerInv, HubRuns.Received;
  }

  lemma RingIsSuffix<V>(w: World<V>)
    requires Inv(w) && w.env in w.sys.hub.rings
    ensures HubRuns.IsSuffix(w.sys.hub.rings[w.env], Log(w)) && Increasing(Log(w))
  {
    assert HubRuns.RingsInv(w.sys.hub.rings, w.sys.logs);
  }

  lemma ReplayKeeps<V>(w: World<V>)
    requires Inv(w) && w.handler.Resuming?
    ensures Inv(AfterReplay(w))
  {
    var h, log := w.handler, Log(w);
    assert HubRuns.Received(w.sys, h.id) == [];
    var answer := Replayed(w.sys.hub, w.env, h.from);
    if answer.Some? && answer.value != [] {
      RingIsSuffix(w);
      assert HandlerInv(h, log, Joined(w, h.id), [], w.store);
      hide Inv, HandlerInv;
      ReplayStarts(h, log, Joined(w, h.id), w.sys.hub.rings[w.env], answer.value, w.store);
    }
    hide Inv, Replayed;
    HandlerMoves(w, AfterReplay(w).handler);
  }

  lemma BeforeBuilding<V>(w: World<V>)
    requires Inv(w) && w.handler.NeedsSnapshot?
    ensures Joined(w, w.handler.id) <= |Log(w)| && HubRuns.Received(w.sys, w.handler.id) == []
    ensures forall m | m in Log(w) :: m.version <= w.store.version
  {
    hide HubRuns.Inv, Stamp.Inv, HubRuns.Received, HubRuns.Log, Joined;
  }

  /** The version is the first thing a build reads: nothing published so far is above it. */
  lemma BuildingInv<V>(h: Handler, log: seq<Msg>, joined: nat, store: Stamp.Store<V>)
    requires h.Building? && joined <= |log| && forall m | m in log :: m.version <= store.version
    ensures HandlerInv(h, log, joined, [], Stamp.AfterStart(store, h.b))
  {
    assert forall m | m in log[..joined] :: m in log;
  }

  lemma StartBuildKeeps<V>(w: World<V>, b: nat)
    requires Inv(w) && w.handler.NeedsSnapshot? && b !in w.store.builds
    ensures Inv(AfterStartBuild(w, b))
  {
    hide Inv, HandlerInv, HubRuns.Received, Joined, Log;
    BeforeBuilding(w);
    StoreStepKeeps(w, Stamp.Start(b));
    var t, id := w.(store := Stamp.AfterStart(w.store, b)), w.handler.id;
    assert Stamp.Apply(w.store, Stamp.Start(b)) == t.store;
    SameStream(w, t);
    hide Stamp.AfterStart, Stamp.Apply;
    var next := Building(id, w.handler.from, b);
    BuildingInv(next, Log(w), Joined(w, id), w.store);
    HandlerMoves(t, next);
  }

  lemma SameStream<V>(w: World<V>, t: World<V>)
    requires t.env == w.env && t.sys == w.sys
    ensures Log(t) == Log(w) && forall id :: Joined(t, id) == Joined(w, id)
  {
  }

  lemma FinishBuildKeeps<V>(w: World<V>)
    requires Inv(w) && CanFinishBuild(w)
    ensures Inv(AfterFinishBuild(w))
  {
    assert Stamp.Sound(w.store, w.store.builds[w.handler.b]);
    hide HubRuns.Inv, Stamp.Inv, LogInv;
  }

  lemma FailBuildKeeps<V>(w: World<V>)
    requires Inv(w) && w.handler.NeedsSnapshot?
    ensures Inv(AfterFailBuild(w))
  {
    hide HubRuns.Inv, Stamp.Inv, LogInv;
  }

  lemma ReceiveKeeps<V>(w: World<V>)
    requires Inv(w) && CanReceive(w)
    ensures Inv(AfterReceive(w))
  {
    hide HubRuns.Inv, Stamp.Inv, LogInv, StartInv;
    var h := w.handler;
    HubRuns.ReceiveKeeps(w.sys, h.id);
    var msg := w.sys.hub.subs[h.id].ch[0];
    AboveAppend(HubRuns.Received(w.sys, h.id), [msg], h.sent);
    assert Above([msg], h.sent) == if msg.version <= h.sent then [] else [msg];
    hide Above;
  }

  lemma StepKeeps<V>(w: World<V>, step: Step<V>)
    requires Inv(w) && Enabled(w, step)
    ensures Inv(Apply(w, step))
  {
    hide Inv;
    match step
    case HubStep(s) => HubStepKeeps(w, s);
    case StoreStep(s) => StoreStepKeeps(w, s);
    case Subscribe(from) => SubscribeKeeps(w, from);
    case Replay => ReplayKeeps(w);
    case StartBuild(b) => StartBuildKeeps(w, b);
    case FinishBuild => FinishBuildKeeps(w);
    case FailBuild => FailBuildKeeps(w);
    case Receive => ReceiveKeeps(w);
  }

  lemma {:induction false} RunsKeep<V(!new)>(worlds: seq<World<V>>, steps: seq<Step<V>>, n: nat)
    requires Run(worlds, steps) && n <= |steps|
    ensures Inv(worlds[n])
  {
    if n > 0 {
      RunsKeep(worlds, steps, n - 1);
      StepKeeps(worlds[n - 1], steps[n - 1]);
    } else {
      assert HubRuns.AllRegistered(map[]) == {};
    }
  }

  // ----- What this means for every run -----

  lemma {:induction false} AbovePrefix(a: seq<Msg>, b: seq<Msg>, v: int)
    requires a <= b
    ensures Above(a, v) <= Above(b, v)
  {
    assert b == a + b[|a|..];
    AboveAppend(a, b[|a|..], v);
  }

  /** Skipping up to `sent` loses nothing above `v` exactly when nothing lies between. */
  lemma {:induction false} AboveRaised(log: seq<Msg>, v: int, sent: int)
    requires v <= sent
    ensures |Above(log, sent)| <= |Above(log, v)|
    ensures Above(log, sent) == Above(log, v) <==> forall m | m in log :: !(v < m.version <= sent)
  {
    if log != [] {
      AboveRaised(log[1..], v, sent);
      var head, x, y := [log[0]], Above(log[1..], sent), Above(log[1..], v);
      assert log == head + log[1..];
      assert (forall m | m in log :: !(v < m.version <= sent)) <==>
             !(v < log[0].version <= sent) && forall m | m in log[1..] :: !(v < m.version <= sent);
      if log[0].version > sent {
        assert (head + x)[1..] == x && (head + y)[1..] == y;
        assert Above(log, sent) == head + x && Above(log, v) == head + y;
      } else if log[0].version > v {
        assert |Above(log, v)| == 1 + |y|;
        assert |Above(log, sent)| == |x|;
      } else {
        assert Above(log, sent) == x && Above(log, v) == y;
      }
    }
  }

  /** In an increasing log, what lies above the version of one message is what follows it. */
  lemma AboveSplit(log: seq<Msg>, k: nat)
    requires Increasing(log) && 0 < k <= |log|
    ensures Above(log[k..], log[k - 1].version) == log[k..]
    ensures forall m | m in log[..k] :: m.version <= log[k - 1].version
  {
    forall m | m in log[k..] ensures m.version > log[k - 1].version {
      var i :| 0 <= i < |log[k..]| && log[k..][i] == m;
      assert m == log[k + i];
    }
    AboveAll(log[k..], log[k - 1].version);
    forall m | m in log[..k] ensures m.version <= log[k - 1].version {
      var i :| 0 <= i < k && log[..k][i] == m;
      assert m == log[i];
    }
  }

  /** The messages replayed up to some point of the log, and what the rest of the log has
      above the last of them, make up the log. */
  lemma ReplayedTotal(log: seq<Msg>, joined: nat, from: int, upTo: nat)
    requires Increasing(log) && joined <= upTo <= |log| && 0 < upTo && log[upTo - 1].version > from
    ensures Above(log, from) == Above(log[..upTo], from) + Above(log[joined..], log[upTo - 1].version)
  {
    hide Above;
    AboveSplit(log, upTo);
    hide Increasing;
    var sent, rest := log[upTo - 1].version, log[upTo..];
    AboveLower(rest, sent, from);
    AboveAppend(log[..upTo], rest, from);
    assert log == log[..upTo] + rest;
    AboveSkips(log[joined..upTo], rest, sent, log[..upTo]);
    assert log[joined..] == log[joined..upTo] + rest;
  }

  lemma AboveSkips(covered: seq<Msg>, rest: seq<Msg>, sent: int, before: seq<Msg>)
    requires Above(rest, sent) == rest
    requires (forall m | m in covered :: m in before) && forall m | m in before :: m.version <= sent
    ensures Above(covered + rest, sent) == rest
  {
    hide Above;
    AboveNone(covered, sent);
    AboveAppend(covered, rest, sent);
  }

  lemma AboveLower(log: seq<Msg>, sent: int, v: int)
    requires Above(log, sent) == log && v <= sent
    ensures Above(log, v) == log
  {
    forall m | m in log ensures m.version > v {
      AboveMember(log, sent, m);
    }
    AboveAll(log, v);
  }

  lemma ReplayedDelivered(a: HubRuns.Account<Stamp.Build>, from: int, upTo: nat)
    requires HubRuns.Balanced(a) && Increasing(a.log)
    requires a.joined <= upTo <= |a.log| && 0 < upTo && a.log[upTo - 1].version > from
    ensures
      var sent := a.log[upTo - 1].version;
      var delivered := Above(a.log[..upTo], from) + Above(a.received, sent) + Above(a.ch, sent);
      && delivered <= Above(a.log, from)
      && (a.registered && a.pending.None? ==> delivered == Above(a.log, from))
  {
    hide Above;
    var sent := a.log[upTo - 1].version;
    ReplayedTotal(a.log, a.joined, from, upTo);
    hide Increasing;
    AboveAppend(a.received, a.ch, sent);
    AbovePrefix(a.received + a.ch, a.log[a.joined..], sent);
    var first := Above(a.log[..upTo], from);
    assert first + Above(a.received, sent) + Above(a.ch, sent) == first + Above(a.received + a.ch, sent);
  }

  lemma StreamAccount<V>(w: World<V>)
    requires Inv(w) && w.handler.Streaming?
    ensures w.handler.id in w.sys.hub.subs
    ensures
      var h := w.handler;
      var a := HubRuns.AccountOf(w.sys, h.id);
      && HubRuns.Balanced(a)
      && a.log == Log(w) && Increasing(a.log)
      && h.frames == Above(a.received, h.sent)
      && StartInv(h.start, h.from, h.sent, a.log, a.joined, w.store)
  {
    hide Stamp.Inv;
  }

  /** Resumption by replay. In every run, for a stream that resumed from version `from`
      by a replay, the replayed frames, the frames written since and the buffered messages
      still to be written are a prefix of the messages published above `from`: nothing is
      doubled, reordered or invented. While the stream is registered and no publish in
      progress still owes it its message, they are all of them: nothing is lost. */
  lemma ReplayDelivery<V(!new)>(worlds: seq<World<V>>, steps: seq<Step<V>>, n: nat)
    requires Run(worlds, steps) && n <= |steps|
    requires worlds[n].handler.Streaming? && worlds[n].handler.start.ByReplay?
    ensures worlds[n].handler.id in worlds[n].sys.hub.subs
    ensures
      var h := worlds[n].handler;
      var a := HubRuns.AccountOf(worlds[n].sys, h.id);
      var delivered := h.start.msgs + h.frames + Above(a.ch, h.sent);
      && delivered <= Above(Log(worlds[n]), h.from)
      && (a.registered && a.pending.None? ==> delivered == Above(Log(worlds[n]), h.from))
  {
    RunsKeep(worlds, steps, n);
    StreamAccount(worlds[n]);
    hide Inv, Run, Log, HubRuns.AccountOf, HubRuns.Balanced;
    var h := worlds[n].handler;
    ReplayedDelivered(HubRuns.AccountOf(worlds[n].sys, h.id), h.from, h.start.upTo);
  }

  /** Starting from a full snapshot. The frames written since and the buffered messages
      still to be written are, while the stream is registered and owed nothing, exactly
      the messages published above the version `sent` that the handler read after
      building the snapshot. So the stream misses nothing that is newer than the stamp of
      its snapshot if and only if no message was published with a version between the
      stamp and `sent`, in particular when no bump fell between the two reads. */
  lemma SnapshotDelivery<V(!new)>(worlds: seq<World<V>>, steps: seq<Step<V>>, n: nat)
    requires Run(worlds, steps) && n <= |steps|
    requires worlds[n].handler.Streaming? && worlds[n].handler.start.BySnapshot?
    ensures worlds[n].handler.id in worlds[n].sys.hub.subs
    ensures
      var h, log := worlds[n].handler, Log(worlds[n]);
      var a := HubRuns.AccountOf(worlds[n].sys, h.id);
      var stamp := h.start.build.stamp;
      var delivered := h.frames + Above(a.ch, h.sent);
      && stamp <= h.sent
      && delivered <= Above(log, h.sent)
      && (a.registered && a.pending.None? ==>
            && delivered == Above(log, h.sent)
            && (delivered == Above(log, stamp) <==> forall m | m in log :: !(stamp < m.version <= h.sent)))
  {
    RunsKeep(worlds, steps, n);
    StreamAccount(worlds[n]);
    hide Inv, Run, Log, HubRuns.AccountOf, HubRuns.Balanced;
    var h := worlds[n].handler;
    SnapshotDelivered(HubRuns.AccountOf(worlds[n].sys, h.id), h.start.build.stamp, h.sent);
  }

  lemma SnapshotDelivered(a: HubRuns.Account<Stamp.Build>, stamp: int, sent: int)
    requires HubRuns.Balanced(a) && stamp <= sent && forall m | m in a.log[..a.joined] :: m.version <= sent
    ensures
      var delivered := Above(a.received, sent) + Above(a.ch, sent);
      && delivered <= Above(a.log, sent)
      && (a.registered && a.pending.None? ==>
            && delivered == Above(a.log, sent)
            && (delivered == Above(a.log, stamp) <==> forall m | m in a.log :: !(stamp < m.version <= sent)))
  {
    AboveNone(a.log[..a.joined], sent);
    assert a.log == a.log[..a.joined] + a.log[a.joined..];
    AboveAppend(a.log[..a.joined], a.log[a.joined..], sent);
    AboveAppend(a.received, a.ch, sent);
    AbovePrefix(a.received + a.ch, a.log[a.joined..], sent);
    AboveRaised(a.log, stamp, sent);
  }

  lemma LogFacts<V(!new)>(worlds: seq<World<V>>, steps: seq<Step<V>>, n: nat)
    requires Run(worlds, steps) && n <= |steps|
    ensures Increasing(Log(worlds[n])) && forall m | m in Log(worlds[n]) :: m.version <= m.data.stamp
  {
    RunsKeep(worlds, steps, n);
  }

  lemma ReplayStarted<V(!new)>(worlds: seq<World<V>>, steps: seq<Step<V>>, n: nat)
    requires Run(worlds, steps) && n <= |steps|
    requires worlds[n].handler.Streaming? && worlds[n].handler.start.ByReplay?
    ensures worlds[n].handler.start.msgs != []
  {
    RunsKeep(worlds, steps, n);
    StreamAccount(worlds[n]);
    hide Inv, Run;
    var h, log := worlds[n].handler, Log(worlds[n]);
    AboveMember(log[..h.start.upTo], h.from, log[h.start.upTo - 1]);
  }

  lemma SnapshotsFinished<V(!new)>(worlds: seq<World<V>>, steps: seq<Step<V>>, n: nat, build: Stamp.Build)
    requires Run(worlds, steps) && n <= |steps|
    requires
      var w := worlds[n];
      || (w.handler.Streaming? && w.handler.start == BySnapshot(build))
      || (exists m | m in Log(w) :: m.data == build)
    ensures Stamp.Finished(build) && Stamp.Sound(worlds[n].store, build)
  {
    RunsKeep(worlds, steps, n);
    assert Solid(worlds[n].store, build);
    hide Inv, Run, Stamp.Sound;
  }

  /** A snapshot that the handler sent or that was published: in every run it is finished, and
      for everything it shows, configurations of live flags included, it holds a write no
      older than any write bumped at most to its stamp. So whatever the handler skips because
      the stamp covers it is in the snapshot. A published snapshot is stamped no lower than
      the version it was published under. */
  lemma CoveredMeansContained<V(!new)>(
    worlds: seq<World<V>>, steps: seq<Step<V>>, n: nat, build: Stamp.Build, c: Stamp.Cell, i: nat)
    requires Run(worlds, steps) && n <= |steps|
    requires
      var w := worlds[n];
      || (w.handler.Streaming? && w.handler.start == BySnapshot(build))
      || (exists m | m in Log(w) :: m.data == build)
    requires Stamp.Shows(worlds[n].store, build, c) && i < |Stamp.History(worlds[n].store, c)|
    requires
      var bump := Stamp.History(worlds[n].store, c)[i].bump;
      bump.Some? && bump.value <= build.stamp
    ensures Stamp.Finished(build)
    ensures exists j | i <= j < |Stamp.History(worlds[n].store, c)| ::
      Stamp.Held(worlds[n].store, build, c) == Stamp.History(worlds[n].store, c)[j].value
    ensures forall m | m in Log(worlds[n]) :: m.version <= m.data.stamp
  {
    LogFacts(worlds, steps, n);
    SnapshotsFinished(worlds, steps, n, build);
    hide Run, Stamp.Sound, Stamp.Shows;
    Stamp.FinishedHolds(worlds[n].store, build, c, i);
  }
}
