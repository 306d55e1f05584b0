/** What the hub's records say about its past, in every interleaving: who left and why, what the
    counters counted, how far back the rings reach. */
module HubHistory {
  import opened Model
  import opened Hub
  import opened HubRuns
  import Ring

  /** The n-th step of a run, taken in a well-formed hub. */
  lemma StepOfRun<D(!new)>(states: seq<Sys<D>>, steps: seq<Step<D>>, n: nat)
    requires Run(states, steps) && 0 < n <= |steps|
    ensures Enabled(states[n - 1], steps[n - 1]) && states[n] == Apply(states[n - 1], steps[n - 1])
    ensures WellFormed(states[n - 1].hub)
  {
    RunsKeep(states, steps, n - 1);
    assert Enabled(states[n - 1], steps[n - 1]);
    hide Apply, Enabled, WellFormed;
  }

  // ----- Leaving -----

  /** A subscriber leaves in one of two ways only: it unsubscribes, or a publisher disconnects
      it; and it joins only by subscribing. */
  lemma ComesAndGoes<D>(s: Sys<D>, step: Step<D>, e: Env, id: nat)
    requires Enabled(s, step)
    ensures
      var before, after := id in Registered(s.hub, e), id in Registered(Apply(s, step).hub, e);
      && (before && !after <==> before && (step == Step.Unsubscribe(e, id) || step == Disconnect(e, id)))
      && (!before && after <==> !before && step == Step.Subscribe(e) && id == s.hub.subSeq + 1)
  {
  }

  predicate FoundFull<D>(s: Sys<D>, e: Env, id: nat) {
    e in s.flights && id in s.flights[e].full
  }

  lemma FoundFullStep<D>(s: Sys<D>, step: Step<D>, e: Env, id: nat)
    requires Enabled(s, step) && FoundFull(Apply(s, step), e, id)
    ensures FoundFull(s, e, id) || (step == Offer(e, id) && CanOffer(s, e, id) && |s.hub.subs[id].ch| >= 32)
    ensures FoundFull(s, e, id) ==> s.flights[e].msg == Apply(s, step).flights[e].msg
  {
  }

  /** Whoever is disconnected had 32 messages waiting when it was offered the message that is
      being published. */
  lemma {:induction false} FullWhenOffered<D(!new)>(states: seq<Sys<D>>, steps: seq<Step<D>>, n: nat, e: Env, id: nat)
    returns (i: nat)
    requires Run(states, steps) && n <= |steps| && FoundFull(states[n], e, id)
    ensures i < n && steps[i] == Offer(e, id) && CanOffer(states[i], e, id) && |states[i].hub.subs[id].ch| == 32
    ensures states[i].flights[e].msg == states[n].flights[e].msg
  {
    assert n > 0;
    var s, step := states[n - 1], steps[n - 1];
    FoundFullStep(s, step, e, id);
    hide Apply, Enabled;
    if FoundFull(s, e, id) {
      i := FullWhenOffered(states, steps, n - 1, e, id);
    } else {
      i := n - 1;
      RunsKeep(states, steps, n - 1);
      OfferedIsBounded(s, id);
      FlightGoesOn(s, e, id);
    }
  }

  lemma OfferedIsBounded<D>(s: Sys<D>, id: nat)
    requires Inv(s) && id in s.hub.subs
    ensures |s.hub.subs[id].ch| <= 32
  {
    assert Balanced(AccountOf(s, id));
  }

  lemma FlightGoesOn<D>(s: Sys<D>, e: Env, id: nat)
    requires CanOffer(s, e, id)
    ensures e in Apply(s, Offer(e, id)).flights && Apply(s, Offer(e, id)).flights[e].msg == s.flights[e].msg
  {
  }

  // ----- Counting -----

  function Begins<D>(steps: seq<Step<D>>): nat {
    if steps == [] then 0 else Begins(steps[..|steps| - 1]) + if steps[|steps| - 1].Begin? then 1 else 0
  }

  function Disconnects<D>(steps: seq<Step<D>>): nat {
    if steps == [] then 0 else Disconnects(steps[..|steps| - 1]) + if steps[|steps| - 1].Disconnect? then 1 else 0
  }

  lemma CountStep<D>(s: Sys<D>, step: Step<D>)
    requires Enabled(s, step)
    ensures
      var t := Apply(s, step);
      && t.hub.published == s.hub.published + (if step.Begin? then 1 else 0)
      && t.hub.slow == s.hub.slow + (if step.Disconnect? then 1 else 0)
  {
  }

  /** The counters count what they are named for. */
  lemma {:induction false} CountersInEveryRun<D(!new)>(states: seq<Sys<D>>, steps: seq<Step<D>>, n: nat)
    requires Run(states, steps) && n <= |steps|
    ensures states[n].hub.published == Begins(steps[..n])
    ensures states[n].hub.slow == Disconnects(steps[..n])
  {
    if n > 0 {
      CountersInEveryRun(states, steps, n - 1);
      CountStep(states[n - 1], steps[n - 1]);
      assert steps[..n][..n - 1] == steps[..n - 1];
      hide Apply, Enabled;
    }
  }

  // ----- The last version sent -----

  /** The version of the last message that went into the channel. */
  function LastGiven<D>(received: seq<Message<D>>, ch: seq<Message<D>>): int {
    if ch != [] then ch[|ch| - 1].version
    else if received != [] then received[|received| - 1].version
    else 0
  }

  predicate KnowsLast<D>(s: Sys<D>, id: nat)
    requires id in s.hub.subs
  {
    s.hub.subs[id].lastSent == LastGiven(Received(s, id), s.hub.subs[id].ch)
  }

  lemma KnowsLastStep<D>(s: Sys<D>, step: Step<D>, id: nat)
    requires WellFormed(s.hub) && Enabled(s, step) && id in Apply(s, step).hub.subs
    requires id in s.hub.subs ==> KnowsLast(s, id)
    ensures KnowsLast(Apply(s, step), id)
  {
  }

  lemma {:induction false} LastSentInEveryRun<D(!new)>(states: seq<Sys<D>>, steps: seq<Step<D>>, n: nat, id: nat)
    requires Run(states, steps) && n <= |steps| && id in states[n].hub.subs
    ensures states[n].hub.subs[id].lastSent == LastGiven(Received(states[n], id), states[n].hub.subs[id].ch)
  {
    if n > 0 {
      StepOfRun(states, steps, n);
      hide Run, Enabled, Apply, WellFormed, LastGiven, Received;
      if id in states[n - 1].hub.subs {
        LastSentInEveryRun(states, steps, n - 1, id);
      }
      KnowsLastStep(states[n - 1], steps[n - 1], id);
    }
  }

  // ----- How far back a ring reaches -----

  /** The subscriber's environment has a ring, and it was given everything published since the
      subscriber joined. */
  predicate RingReaches<D>(s: Sys<D>, id: nat)
    requires id in s.hub.subs
  {
    var e := s.hub.subs[id].envKey;
    && id in s.joined && e in s.hub.rings
    && |Log(s, e)| <= s.joined[id] + |s.hub.rings[e]|
  }

  lemma RingReachesStep<D>(s: Sys<D>, step: Step<D>, id: nat)
    requires WellFormed(s.hub) && Enabled(s, step) && id in Apply(s, step).hub.subs
    requires id in s.hub.subs ==> RingReaches(s, id)
    ensures RingReaches(Apply(s, step), id)
  {
  }

  lemma {:induction false} RingReachesBack<D(!new)>(states: seq<Sys<D>>, steps: seq<Step<D>>, n: nat, id: nat)
    requires Run(states, steps) && n <= |steps| && id in states[n].hub.subs
    ensures RingReaches(states[n], id)
  {
    if n > 0 {
      StepOfRun(states, steps, n);
      hide Run, Enabled, Apply, WellFormed, RingReaches;
      if id in states[n - 1].hub.subs {
        RingReachesBack(states, steps, n - 1, id);
      }
      RingReachesStep(states[n - 1], steps[n - 1], id);
    }
  }

  /** Replay works for as long as it is meant to: in every run, if versions go up and no more
      than 256 messages were published since some subscriber joined, a client that had
      everything by then, and to which the next message is the next version at most, gets
      exactly what it misses. */
  lemma ReplayWithin256<D(!new)>(states: seq<Sys<D>>, steps: seq<Step<D>>, n: nat, id: nat, v: int)
    requires Run(states, steps) && n <= |steps| && id in states[n].hub.subs
    requires
      var a := AccountOf(states[n], id);
      && Increasing(a.log) && a.joined <= |a.log| <= a.joined + 256
      && (forall m | m in a.log[..a.joined] :: m.version <= v)
      && (a.joined < |a.log| ==> a.log[a.joined].version - 1 <= v)
    ensures
      var a := AccountOf(states[n], id);
      Replayed(states[n].hub, states[n].hub.subs[id].envKey, v) == Some(Above(a.log, v))
  {
    RunsKeep(states, steps, n);
    RingReachesBack(states, steps, n, id);
    var s, e, a := states[n], states[n].hub.subs[id].envKey, AccountOf(states[n], id);
    assert IsSuffix(s.hub.rings[e], a.log);
    hide Run, Inv;
    SuffixAnswers(s.hub.rings[e], a.log, a.joined, v);
  }

  lemma SuffixAnswers<D>(ring: seq<Message<D>>, log: seq<Message<D>>, joined: nat, v: int)
    requires IsSuffix(ring, log) && Increasing(log) && joined <= |log| <= joined + 256 && |log| <= joined + |ring|
    requires forall m | m in log[..joined] :: m.version <= v
    requires joined < |log| ==> log[joined].version - 1 <= v
    ensures Ring.Answer(ring, 256, v) == Some(Above(log, v))
  {
    SuffixAbove(ring, log, joined, v);
    if ring != [] {
      SuffixIncreasing(ring, log);
      WindowReaches(ring, log, joined, v);
      Ring.IncreasingSinceExact(ring, 256, v);
    }
    hide Above, Increasing, IsSuffix, Ring.Window, Ring.MaxVersion;
  }

  lemma SuffixIncreasing<D>(ring: seq<Message<D>>, log: seq<Message<D>>)
    requires IsSuffix(ring, log) && Increasing(log)
    ensures Increasing(ring)
  {
    var k := |log| - |ring|;
    forall i, j | 0 <= i < j < |ring| ensures ring[i].version < ring[j].version {
      assert ring[i] == log[k + i] && ring[j] == log[k + j];
    }
  }

  lemma SuffixAbove<D>(ring: seq<Message<D>>, log: seq<Message<D>>, joined: nat, v: int)
    requires IsSuffix(ring, log) && joined <= |log| <= joined + |ring| && forall m | m in log[..joined] :: m.version <= v
    ensures Above(log, v) == Above(ring, v)
  {
    hide Above;
    var k := |log| - |ring|;
    assert log == log[..k] + ring;
    assert log[..joined][..k] == log[..k];
    forall m | m in log[..k] ensures m.version <= v {
      assert m in log[..joined];
    }
    AboveNone(log[..k], v);
    AboveAppend(log[..k], ring, v);
  }

  lemma WindowReaches<D>(ring: seq<Message<D>>, log: seq<Message<D>>, joined: nat, v: int)
    requires IsSuffix(ring, log) && ring != [] && joined <= |log| <= joined + 256 && |log| <= joined + |ring|
    requires forall m | m in log[..joined] :: m.version <= v
    requires joined < |log| ==> log[joined].version - 1 <= v
    ensures Ring.Window(ring, 256)[0].version - 1 <= v
  {
    var w := Ring.Window(ring, 256);
    var i := |log| - |w|;
    assert w[0] == log[i];
    if i < joined {
      assert log[..joined][i] in log[..joined];
    }
  }
}
