/** From a request to the subscribers: what a mutator's outcome means for the store and for
    everyone with a stream open (internal/api/server.go). */
module Announcements {
  import opened Model
  import opened Builder
  import opened Checksum
  import opened Hub

  lemma PublishedWellFormed<D>(h: State<D>, e: Env, msg: Message<D>)
    requires WellFormed(h)
    ensures WellFormed(Published(h, e, msg))
  {
    PublishEffect(h, e, msg);
    var t := Published(h, e, msg);
    hide Published;
    forall f, id | f in t.members && id in t.members[f] ensures id in t.subs && t.subs[id].envKey == f {
      assert id in Registered(t, f);
      assert id in Registered(h, f);
    }
  }

  /** The channel of a subscriber with room after a publish to some environment. */
  lemma OnePublish<D>(h: State<D>, e: Env, msg: Message<D>, f: Env, id: nat)
    requires WellFormed(h) && id in Registered(h, f) && (e == f ==> |h.subs[id].ch| < 32)
    ensures WellFormed(Published(h, e, msg))
    ensures
      var t := Published(h, e, msg);
      && id in Registered(t, f) && id in t.subs
      && t.subs[id].ch == if e == f then h.subs[id].ch + [msg] else h.subs[id].ch
  {
    PublishedWellFormed(h, e, msg);
    PublishEffect(h, e, msg);
    hide Published;
    assert h.subs[id].envKey == f;
    if e != f {
      assert id !in Registered(h, e);
    }
  }

  /** A known project's configuration is stored, whatever it is, and the environment's version
      goes up by one if it has one. An unknown project changes nothing at all. */
  lemma WriteIsStored(e: Encoders, before: Contents, after: Contents, hub: State<Snapshot>, hubAfter: State<Snapshot>,
                      project: string, flag: string, env: string, cfg: FlagConfig, status: Status,
                      published: Option<Message<Snapshot>>)
    requires PutOutcome(e, before, after, hub, hubAfter, project, flag, env, cfg, status, published)
    ensures status == Saved <==> project in before.configs
    ensures status == InternalError ==> after == before && hubAfter == hub
    ensures status == Saved ==> forall p, v, f ::
      Config(after, p, v, f) == if p == project && v == env && f == flag then Some(cfg) else Config(before, p, v, f)
    ensures status == Saved ==> forall p, v ::
      Version(after, p, v) == if p == project && v == env && Version(before, p, v).Some?
                              then Some(Version(before, p, v).value + 1) else Version(before, p, v)
    ensures after.flags == before.flags && after.segments == before.segments && after.environments == before.environments
  {
    if project in before.configs {
      WrittenAndBumped(before, project, env, flag, cfg);
      assert after == Bumped(Upserted(before, project, env, flag, cfg), project, env);
      hide Upserted, Bumped, Announces, Published, Config, Version, PutOutcome;
    }
  }

  lemma WrittenAndBumped(c: Contents, project: string, env: string, flag: string, cfg: FlagConfig)
    requires project in c.configs
    ensures
      var d := Bumped(Upserted(c, project, env, flag, cfg), project, env);
      && d.flags == c.flags && d.segments == c.segments && d.environments == c.environments
      && (forall p, v, f ::
            Config(d, p, v, f) == if p == project && v == env && f == flag then Some(cfg) else Config(c, p, v, f))
      && (forall p, v ::
            Version(d, p, v) == if p == project && v == env && Version(c, p, v).Some?
                                then Some(Version(c, p, v).value + 1) else Version(c, p, v))
  {
    var u := Upserted(c, project, env, flag, cfg);
    UpsertedMeans(c, project, env, flag, cfg);
    BumpedMeans(u, project, env);
    SameVersions(c, u);
    SameConfigs(u, Bumped(u, project, env));
    hide Upserted, Bumped, Config, Version;
  }

  lemma SameVersions(c: Contents, d: Contents)
    requires c.versions == d.versions
    ensures forall p, v :: Version(d, p, v) == Version(c, p, v)
  {
  }

  lemma SameConfigs(c: Contents, d: Contents)
    requires c.configs == d.configs
    ensures forall p, v, f :: Config(d, p, v, f) == Config(c, p, v, f)
  {
  }

  /** Everyone with a stream to the environment and room in its channel gets the write: behind
      what was waiting, under the new version, in a snapshot that has the new configuration, if
      the flag exists and is not archived, and all others as they were. Nobody else is told. */
  lemma WriteReachesSubscribers(e: Encoders, before: Contents, after: Contents, hub: State<Snapshot>,
                                hubAfter: State<Snapshot>, project: string, flag: string, env: string, cfg: FlagConfig,
                                status: Status, published: Option<Message<Snapshot>>, f: Env, id: nat)
    returns (msg: Message<Snapshot>)
    requires PutOutcome(e, before, after, hub, hubAfter, project, flag, env, cfg, status, published)
    requires Keyed(before) && project in before.configs && Buildable(before, project, env)
    requires WellFormed(hub) && id in Registered(hub, f) && (f == Env(env) ==> |hub.subs[id].ch| < 32)
    ensures id in Registered(hubAfter, f) && id in hubAfter.subs
    ensures hubAfter.subs[id].ch == if f == Env(env) then hub.subs[id].ch + [msg] else hub.subs[id].ch
    ensures msg.event == "put" && msg.version == Version(before, project, env).value + 1 == msg.data.version
    ensures forall k :: k in msg.data.flags <==> k in before.flags[project] && !before.flags[project][k].archived
    ensures forall k | k in msg.data.flags ::
      && msg.data.flags[k].flag == before.flags[project][k]
      && msg.data.flags[k].config == if k == flag then cfg else ConfigOrDefault(before, project, env, k)
  {
    PutAnnounces(e, before, after, hub, hubAfter, project, flag, env, cfg, status, published);
    msg := published.value;
    OnePublish(hub, Env(env), msg, f, id);
    hide PutOutcome, Published, Upserted, Bumped, Keyed;
    forall k
      ensures k in msg.data.flags <==> k in before.flags[project] && !before.flags[project][k].archived
      ensures k in msg.data.flags ==>
                && msg.data.flags[k].flag == before.flags[project][k]
                && msg.data.flags[k].config == if k == flag then cfg else ConfigOrDefault(before, project, env, k)
    {
      PublishedHoldsTheWrite(e, before, project, env, flag, cfg, msg.data, k);
    }
    PublishedHoldsTheWrite(e, before, project, env, flag, cfg, msg.data, flag);
  }

  lemma PutAnnounces(e: Encoders, before: Contents, after: Contents, hub: State<Snapshot>, hubAfter: State<Snapshot>,
                     project: string, flag: string, env: string, cfg: FlagConfig, status: Status,
                     published: Option<Message<Snapshot>>)
    requires PutOutcome(e, before, after, hub, hubAfter, project, flag, env, cfg, status, published)
    requires project in before.configs && Buildable(before, project, env)
    ensures published.Some? && hubAfter == Published(hub, Env(env), published.value)
    ensures published.value.event == "put" && published.value.version == Version(before, project, env).value + 1
    ensures IsSnapshot(e, Bumped(Upserted(before, project, env, flag, cfg), project, env), project, env, published.value.data)
  {
    UpsertedMeans(before, project, env, flag, cfg);
    BumpedMeans(Upserted(before, project, env, flag, cfg), project, env);
    assert Version(Upserted(before, project, env, flag, cfg), project, env) == Version(before, project, env);
    assert Buildable(after, project, env);
    hide Upserted, Bumped, IsSnapshot, Published;
  }

  // ----- A change to a flag, for all environments -----

  /** What was sent for one environment. */
  function For(sent: seq<Sent>, env: string): seq<Message<Snapshot>> {
    if sent == [] then []
    else
      var last := sent[|sent| - 1];
      For(sent[..|sent| - 1], env) + if last.env == env then [last.msg] else []
  }

  lemma {:induction false} AllPublished(h: State<Snapshot>, sent: seq<Sent>, env: string, id: nat)
    requires WellFormed(h) && id in Registered(h, Env(env)) && |h.subs[id].ch| + |For(sent, env)| <= 32
    ensures
      var t := PublishedAll(h, sent);
      && WellFormed(t) && id in Registered(t, Env(env)) && id in t.subs
      && t.subs[id].ch == h.subs[id].ch + For(sent, env)
  {
    if sent != [] {
      var init, last := sent[..|sent| - 1], sent[|sent| - 1];
      AllPublished(h, init, env, id);
      OnePublish(PublishedAll(h, init), Env(last.env), last.msg, Env(env), id);
      hide Published, Registered, WellFormed;
      assert PublishedAll(h, sent) == Published(PublishedAll(h, init), Env(last.env), last.msg);
      assert h.subs[id].ch + For(init, env) + [last.msg] == h.subs[id].ch + (For(init, env) + [last.msg]);
    }
  }

  lemma {:induction false} ForNobody(sent: seq<Sent>, env: string)
    requires forall s | s in sent :: s.env != env
    ensures For(sent, env) == []
  {
    if sent != [] {
      assert sent[|sent| - 1] in sent;
      ForNobody(sent[..|sent| - 1], env);
    }
  }

  lemma {:induction false} ForOne(sent: seq<Sent>, s: Sent)
    requires s in sent && forall i, j | 0 <= i < j < |sent| :: sent[i].env != sent[j].env
    ensures For(sent, s.env) == [s.msg]
  {
    var init, last := sent[..|sent| - 1], sent[|sent| - 1];
    if last.env == s.env {
      var i :| 0 <= i < |sent| && sent[i] == s;
      assert i == |sent| - 1;
      ForNobody(init, s.env);
    } else {
      assert s in init by {
        var i :| 0 <= i < |sent| && sent[i] == s;
        assert init[i] == s;
      }
      ForOne(init, s);
    }
  }

  /** After a change to a flag everyone with a stream to one of the project's environments and
      room in its channel has one message more, that environment's own; everyone whose
      environment is not one of them has none. */
  lemma ChangeReachesSubscribers(e: Encoders, before: Contents, after: Contents, hub: State<Snapshot>,
                                 hubAfter: State<Snapshot>, project: string, sent: seq<Sent>, env: string, id: nat)
    requires ChangeOutcome(e, before, after, hub, hubAfter, project, sent)
    requires project in before.environments
    requires
      var envs := before.environments[project];
      forall i, j | 0 <= i < j < |envs| :: envs[i] != envs[j]
    requires WellFormed(hub) && id in Registered(hub, Env(env)) && |hub.subs[id].ch| < 32
    ensures id in Registered(hubAfter, Env(env)) && id in hubAfter.subs
    ensures env in before.environments[project] && Buildable(before, project, env) ==>
              exists msg :: OwnMessage(e, before, project, env, msg) && hubAfter.subs[id].ch == hub.subs[id].ch + [msg]
    ensures env !in before.environments[project] ==> hubAfter.subs[id].ch == hub.subs[id].ch
  {
    OneMessageEach(e, before, project, before.environments[project], sent);
    if s :| s in sent && s.env == env {
      ForOne(sent, s);
    } else {
      ForNobody(sent, env);
    }
    assert |For(sent, env)| <= 1;
    hide SentFor, BumpedAll, PublishedAll, Registered, OwnMessage, Buildable, For;
    AllPublished(hub, sent, env, id);
  }

  /** And the version of each of the environments that has one is one higher, no other is. */
  lemma ChangeBumpsVersions(e: Encoders, before: Contents, after: Contents, hub: State<Snapshot>,
                            hubAfter: State<Snapshot>, project: string, sent: seq<Sent>, env: string)
    requires ChangeOutcome(e, before, after, hub, hubAfter, project, sent)
    requires
      var envs := if project in before.environments then before.environments[project] else [];
      forall i, j | 0 <= i < j < |envs| :: envs[i] != envs[j]
    ensures
      var envs := if project in before.environments then before.environments[project] else [];
      var v := Version(before, project, env);
      Version(after, project, env) == if env in envs && v.Some? then Some(v.value + 1) else v
    ensures OnlyVersions(before, after)
  {
    var envs := if project in before.environments then before.environments[project] else [];
    BumpedOnce(before, project, envs, env);
    hide SentFor, PublishedAll, Version, BumpedAll;
  }

  lemma {:induction false} BumpedOnce(c: Contents, project: string, envs: seq<string>, env: string)
    requires forall i, j | 0 <= i < j < |envs| :: envs[i] != envs[j]
    ensures
      var d, v := BumpedAll(c, project, envs), Version(c, project, env);
      && OnlyVersions(c, d)
      && Version(d, project, env) == if env in envs && v.Some? then Some(v.value + 1) else v
  {
    if envs != [] {
      var init, last := envs[..|envs| - 1], envs[|envs| - 1];
      BumpedOnce(c, project, init, env);
      BumpedMeans(BumpedAll(c, project, init), project, last);
      assert envs == init + [last] && last !in init;
      hide Bumped, Version;
    }
  }
}
