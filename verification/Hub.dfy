/** The fan-out hub (internal/stream/hub.go). `State` is what the hub amounts to,
    the functions on it say what each operation does to all of it, and the class does
    it in place, on maps of subscribers with bounded channels. */
module Hub {
  import opened Model
  import Decimal
  import Ring

  const CHANNEL_CAPACITY := 32
  const RING_CAPACITY := 256

  /** An environment key. The hub's maps are keyed by it alone, so two projects must not
      use the same one. */
  datatype Env = Env(key: string)

  datatype Sub<+D> = Sub(envKey: Env, ch: seq<Message<D>>, lastSent: int)

  /** Every subscriber ever handed out, by id, with what its channel buffers; which of
      them are registered, by environment; what the ring of each known environment was
      given; and the counters. */
  datatype State<+D> = State(
    subs: map<nat, Sub<D>>,
    members: map<Env, set<nat>>,
    rings: map<Env, seq<Message<D>>>,
    active: int,
    slow: nat,
    published: nat,
    subSeq: nat)

  /** The id the n-th subscriber gets. The model names a subscriber by n, which is the
      same thing because no two ids coincide. */
  function SubId(n: nat): string {
    "sub-" + Decimal.Render(n)
  }

  lemma SubIdInjective(m: nat, n: nat)
    requires SubId(m) == SubId(n)
    ensures m == n
  {
    assert SubId(m)[4..] == Decimal.Render(m);
    assert SubId(n)[4..] == Decimal.Render(n);
    Decimal.RenderInjective(m, n);
  }

  function Registered<D>(h: State<D>, envKey: Env): set<nat> {
    if envKey in h.members then h.members[envKey] else {}
  }

  function EnvEnsured<D>(h: State<D>, envKey: Env): State<D> {
    h.(members := if envKey in h.members then h.members else h.members[envKey := {}],
       rings := if envKey in h.rings then h.rings else h.rings[envKey := []])
  }

  function Subscribed<D>(h: State<D>, envKey: Env): State<D> {
    var id := h.subSeq + 1;
    var known := EnvEnsured(h, envKey);
    known.(
      subs := h.subs[id := Sub(envKey, [], 0)],
      members := known.members[envKey := known.members[envKey] + {id}],
      active := h.active + 1,
      subSeq := h.subSeq + 1)
  }

  function Unsubscribed<D>(h: State<D>, envKey: Env, id: nat): State<D> {
    if id in Registered(h, envKey)
    then h.(members := h.members[envKey := h.members[envKey] - {id}], active := h.active - 1)
    else h
  }

  /** `Publish` in steps, as other goroutines can see it happen: the ring is appended to
      and the subscribers are listed under one lock ... */
  function PublishBegun<D>(h: State<D>, envKey: Env, msg: Message<D>): State<D> {
    h.(rings := if envKey in h.rings then h.rings[envKey := h.rings[envKey] + [msg]] else h.rings,
       published := h.published + 1)
  }

  /** ... then each listed subscriber is offered the message ... */
  function Offered<D>(h: State<D>, id: nat, msg: Message<D>): State<D>
    requires id in h.subs
  {
    h.(subs := h.subs[id := OfferedSub(h.subs[id], msg)])
  }

  function OfferedSub<D>(s: Sub<D>, msg: Message<D>): Sub<D> {
    if |s.ch| < CHANNEL_CAPACITY then s.(ch := s.ch + [msg], lastSent := msg.version) else s
  }

  /** ... and those that were full are disconnected. */
  function Disconnected<D>(h: State<D>, envKey: Env, id: nat): State<D> {
    Unsubscribed(h, envKey, id).(slow := h.slow + 1)
  }

  function Overflowing<D>(h: State<D>, envKey: Env): set<nat> {
    set id | id in Registered(h, envKey) && id in h.subs && |h.subs[id].ch| >= CHANNEL_CAPACITY
  }

  /** The subscribers in `done` have been offered the message. */
  function FannedOut<D>(h: State<D>, done: set<nat>, msg: Message<D>): State<D> {
    h.(subs := map id | id in h.subs :: if id in done then OfferedSub(h.subs[id], msg) else h.subs[id])
  }

  lemma FannedOutOneMore<D>(h: State<D>, done: set<nat>, msg: Message<D>, id: nat)
    requires id in h.subs && id !in done
    ensures FannedOut(h, done + {id}, msg) == Offered(FannedOut(h, done, msg), id, msg)
  {
    assert FannedOut(h, done + {id}, msg).subs == Offered(FannedOut(h, done, msg), id, msg).subs;
  }

  /** The subscribers in `gone` have been disconnected. */
  function Dropped<D>(h: State<D>, envKey: Env, gone: set<nat>): State<D> {
    h.(members := if envKey in h.members then h.members[envKey := h.members[envKey] - gone] else h.members,
       active := h.active - |gone|,
       slow := h.slow + |gone|)
  }

  /** `Publish` as a whole: every registered subscriber of the environment with room gets
      the message at the end of its channel, every full one is removed, nobody else is
      touched. */
  function Published<D>(h: State<D>, envKey: Env, msg: Message<D>): State<D> {
    Dropped(FannedOut(PublishBegun(h, envKey, msg), Registered(h, envKey), msg), envKey, Overflowing(h, envKey))
  }

  /** What a publish does, subscriber by subscriber: whoever is registered for the environment
      and has fewer than 32 messages waiting gets this one behind them and stays; whoever has
      more leaves with what was waiting, is taken off the gauge and counted as slow; nothing
      changes for anybody else. */
  lemma PublishEffect<D>(h: State<D>, e: Env, msg: Message<D>)
    requires WellFormed(h)
    ensures
      var t := Published(h, e, msg);
      var listed := Registered(h, e);
      var slow := set id | id in listed && |h.subs[id].ch| >= 32;
      && t.subs.Keys == h.subs.Keys
      && (forall id | id in h.subs ::
            t.subs[id] == if id in listed && id !in slow then Sub(e, h.subs[id].ch + [msg], msg.version) else h.subs[id])
      && Registered(t, e) == listed - slow
      && (forall f | f != e :: Registered(t, f) == Registered(h, f))
      && t.active == h.active - |slow| && t.slow == h.slow + |slow|
      && t.published == h.published + 1 && t.subSeq == h.subSeq
      && t.rings == if e in h.rings then h.rings[e := h.rings[e] + [msg]] else h.rings
  {
    var listed := Registered(h, e);
    var slow := set id | id in listed && |h.subs[id].ch| >= 32;
    assert Overflowing(h, e) == slow;
    hide Overflowing;
    if e in h.members {
      assert h.members[e] - slow == listed - slow;
    } else {
      assert slow == {} && listed - slow == {};
    }
  }

  lemma DroppedNobody<D>(h: State<D>, envKey: Env)
    ensures Dropped(h, envKey, {}) == h
  {
    if envKey in h.members {
      assert h.members[envKey] - {} == h.members[envKey];
    }
    assert Dropped(h, envKey, {}).members == h.members;
  }

  lemma DroppedOneMore<D>(h: State<D>, envKey: Env, gone: set<nat>, id: nat)
    requires id in Registered(h, envKey) && id !in gone
    ensures Disconnected(Dropped(h, envKey, gone), envKey, id) == Dropped(h, envKey, gone + {id})
  {
    var d := Dropped(h, envKey, gone);
    assert id in Registered(d, envKey);
    assert d.members[envKey] - {id} == h.members[envKey] - (gone + {id});
    assert Disconnected(d, envKey, id).members == Dropped(h, envKey, gone + {id}).members;
  }

  function Elements(ids: seq<nat>): set<nat> {
    set id | id in ids
  }

  /** What the ring of the environment, if there is one, answers to a resuming client. */
  function Replayed<D>(h: State<D>, envKey: Env, version: int): Option<seq<Message<D>>> {
    if envKey in h.rings then Ring.Answer(h.rings[envKey], RING_CAPACITY, version) else None
  }

  /** For gap-free versions a resuming client is refused exactly when the next message it
      needs is not among the last 256 that the ring was given, or there is no ring. */
  lemma ReplayRefusedIff<D>(h: State<D>, e: Env, v: int)
    requires e in h.rings ==> Ring.GapFree(h.rings[e])
    ensures
      Replayed(h, e, v).None? <==>
      || e !in h.rings
      || (h.rings[e] != [] &&
          var log := h.rings[e];
          v + 1 < (if |log| <= 256 then log[0] else log[|log| - 256]).version)
  {
    if e in h.rings && h.rings[e] != [] {
      var log := h.rings[e];
      assert Ring.Window(log, 256)[0] == if |log| <= 256 then log[0] else log[|log| - 256];
    }
  }

  /** Registered ids name records of their environment; ids yet to be given out are unused. */
  ghost predicate WellFormed<D>(h: State<D>) {
    && (forall e, id | e in h.members && id in h.members[e] :: id in h.subs && h.subs[id].envKey == e)
    && (forall id | id in h.subs :: id <= h.subSeq)
  }

  lemma SubscribedWellFormed<D>(h: State<D>, envKey: Env)
    requires WellFormed(h)
    ensures WellFormed(Subscribed(h, envKey))
  {
    var t := Subscribed(h, envKey);
    forall e, id | e in t.members && id in t.members[e] ensures id in t.subs && t.subs[id].envKey == e {
      if e in h.members && id in h.members[e] {
        assert id in h.subs && id <= h.subSeq;
      }
    }
  }

  lemma DroppedWellFormed<D>(h: State<D>, envKey: Env, gone: set<nat>)
    requires WellFormed(h)
    ensures WellFormed(Dropped(h, envKey, gone))
  {
  }

  /** The hub's rings, one per known environment, and for each what it was given. */
  class RingTable<D(0)> {
    var rings: map<Env, Ring.EventRing<D>>
    ghost var logs: map<Env, seq<Message<D>>>
    ghost var Repr: set<object>

    /** The environment's ring has the hub's capacity and holds its log. */
    ghost predicate Keeps(e: Env)
      requires e in rings && e in logs
      reads this, rings[e], rings[e].buf
    {
      rings[e].buf.Length == RING_CAPACITY && rings[e].Valid() && rings[e].log == logs[e]
    }

    /** No two environments share a ring. */
    ghost predicate Separate()
      reads this
    {
      && (forall e | e in rings :: rings[e] in Repr && rings[e].buf in Repr)
      && (forall e, f | e in rings && f in rings && e != f :: rings[e].buf != rings[f].buf)
    }

    ghost predicate Valid()
      reads this, Repr
    {
      this in Repr && logs.Keys == rings.Keys && Separate() && forall e | e in rings :: Keeps(e)
    }

    constructor ()
      ensures Valid() && logs == map[] && fresh(Repr)
    {
      rings, logs, Repr := map[], map[], {this};
    }

    method Ensure(e: Env)
      requires Valid()
      modifies this
      ensures Valid() && fresh(Repr - old(Repr))
      ensures logs == if e in old(logs) then old(logs) else old(logs)[e := []]
    {
      hide Ring.EventRing.Valid;
      if e in rings {
        return;
      }
      var ring := new Ring.EventRing(RING_CAPACITY);
      assert forall f | f in rings :: rings[f].buf != ring.buf;
      rings, logs, Repr := rings[e := ring], logs[e := []], Repr + {ring, ring.buf};
      forall f | f in rings ensures Keeps(f) {
        assert f != e ==> old(Keeps(f));
      }
      assert Separate();
      hide RingTable.Keeps, RingTable.Separate;
    }

    method Append(e: Env, msg: Message<D>)
      requires Valid()
      modifies Repr
      ensures Valid() && Repr == old(Repr)
      ensures logs == if e in old(logs) then old(logs)[e := old(logs)[e] + [msg]] else old(logs)
    {
      hide Ring.EventRing.Valid;
      if e in rings {
        assert Keeps(e);
        rings[e].Append(msg);
        logs := logs[e := logs[e] + [msg]];
        forall f | f in rings ensures Keeps(f) {
          assert f != e ==> old(Keeps(f));
        }
      }
    }

    method Since(e: Env, version: int) returns (msgs: seq<Message<D>>, ok: bool)
      requires Valid()
      ensures (if ok then Some(msgs) else None) ==
              if e in logs then Ring.Answer(logs[e], RING_CAPACITY, version) else None
    {
      if e !in rings {
        return [], false;
      }
      assert Keeps(e);
      msgs, ok := rings[e].Since(version);
    }
  }

  /** The hub. A subscriber record is an entry in `subs`. */
  class Hub<D(0)> {
    const replay: RingTable<D>
    var subs: map<nat, Sub<D>>
    var members: map<Env, set<nat>>
    var active: int
    var slow: nat
    var published: nat
    var subSeq: nat

    ghost function View(): State<D>
      reads this, replay
    {
      State(subs, members, replay.logs, active, slow, published, subSeq)
    }

    ghost predicate Valid()
      reads this, replay, replay.Repr
    {
      this !in replay.Repr && replay.Valid() && WellFormed(View())
    }

    constructor ()
      ensures Valid() && View() == State(map[], map[], map[], 0, 0, 0, 0)
      ensures fresh(replay) && fresh(replay.Repr)
    {
      replay := new RingTable();
      subs, members := map[], map[];
      active, slow, published, subSeq := 0, 0, 0, 0;
    }

    method EnsureEnv(envKey: Env)
      requires Valid()
      modifies this`members, replay
      ensures Valid() && View() == EnvEnsured(old(View()), envKey)
      ensures fresh(replay.Repr - old(replay.Repr))
    {
      hide RingTable.Valid;
      if envKey !in members {
        members := members[envKey := {}];
      }
      replay.Ensure(envKey);
    }

    method Subscribe(envKey: Env) returns (id: nat)
      requires Valid()
      modifies this, replay
      ensures Valid() && View() == Subscribed(old(View()), envKey) && id == subSeq
      ensures fresh(replay.Repr - old(replay.Repr))
    {
      hide RingTable.Valid;
      EnsureEnv(envKey);
      subSeq := subSeq + 1;
      id := subSeq;
      subs := subs[id := Sub(envKey, [], 0)];
      members := members[envKey := members[envKey] + {id}];
      active := active + 1;
      SubscribedWellFormed(old(View()), envKey);
    }

    method Unsubscribe(envKey: Env, subId: nat)
      requires Valid()
      modifies this`members, this`active
      ensures Valid() && View() == Unsubscribed(old(View()), envKey, subId)
    {
      if envKey in members && subId in members[envKey] {
        members := members[envKey := members[envKey] - {subId}];
        active := active - 1;
      }
    }

    /** The first loop of `Publish`: a non-blocking send to every listed subscriber. */
    method FanOut(listed: set<nat>, msg: Message<D>) returns (full: seq<nat>)
      requires Valid() && listed <= subs.Keys
      modifies this`subs
      ensures Valid() && View() == FannedOut(old(View()), listed, msg)
      ensures forall i, j | 0 <= i < j < |full| :: full[i] != full[j]
      ensures forall id :: id in full <==> id in listed && |old(subs)[id].ch| >= 32
    {
      hide RingTable.Valid;
      var todo := listed;
      full := [];
      while todo != {}
        invariant todo <= listed <= subs.Keys
        invariant View() == FannedOut(old(View()), listed - todo, msg)
        invariant forall i, j | 0 <= i < j < |full| :: full[i] != full[j]
        invariant forall id :: id in full <==> id in listed - todo && |old(subs)[id].ch| >= CHANNEL_CAPACITY
      {
        var id :| id in todo;
        assert listed - (todo - {id}) == listed - todo + {id};
        FannedOutOneMore(old(View()), listed - todo, msg, id);
        if |subs[id].ch| < CHANNEL_CAPACITY {
          subs := subs[id := Sub(subs[id].envKey, subs[id].ch + [msg], msg.version)];
        } else {
          full := full + [id];
        }
        todo := todo - {id};
      }
    }

    /** The second loop of `Publish`: the subscribers that were full are removed. */
    method DropSlow(envKey: Env, full: seq<nat>)
      requires Valid() && forall id :: id in full ==> id in Registered(View(), envKey)
      requires forall i, j | 0 <= i < j < |full| :: full[i] != full[j]
      modifies this`members, this`active, this`slow
      ensures Valid() && View() == Dropped(old(View()), envKey, Elements(full))
    {
      hide RingTable.Valid;
      ghost var gone: set<nat> := {};
      DroppedNobody(View(), envKey);
      for i := 0 to |full|
        invariant View() == Dropped(old(View()), envKey, gone)
        invariant forall id :: id in gone <==> id in full[..i]
      {
        DroppedWellFormed(old(View()), envKey, gone);
        DroppedOneMore(old(View()), envKey, gone, full[i]);
        Unsubscribe(envKey, full[i]);
        slow := slow + 1;
        gone := gone + {full[i]};
      }
      assert gone == Elements(full);
      DroppedWellFormed(old(View()), envKey, gone);
    }

    method Publish(envKey: Env, msg: Message<D>)
      requires Valid()
      modifies this, replay.Repr
      ensures Valid() && View() == Published(old(View()), envKey, msg) && replay.Repr == old(replay.Repr)
    {
      hide RingTable.Valid;
      replay.Append(envKey, msg);
      var listed := if envKey in members then members[envKey] else {};
      published := published + 1;
      var full := FanOut(listed, msg);
      assert Elements(full) == Overflowing(old(View()), envKey);
      DropSlow(envKey, full);
    }

    /** Messages since `version`, or false if a full snapshot is needed. */
    method Replay(envKey: Env, version: int) returns (msgs: seq<Message<D>>, ok: bool)
      requires Valid()
      ensures Replayed(View(), envKey, version) == if ok then Some(msgs) else None
    {
      msgs, ok := replay.Since(envKey, version);
    }

    method ActiveCount(envKey: Env) returns (n: nat)
      ensures n == |Registered(View(), envKey)|
    {
      n := if envKey in members then |members[envKey]| else 0;
    }
  }
}
