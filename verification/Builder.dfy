/** The in-memory configuration store (internal/store/memory.go), the snapshot builder on top
    of it (internal/snapshot/builder.go), and the mutator that uses both and publishes
    (`putFlagConfig` in internal/api/server.go). */
module Builder {
  import opened Model
  import opened Checksum
  import opened Hub
  import Canonical
  import Deltas

  /** What the store holds: per project its environments, flags and segments, per project and
      environment the flag configurations and the version. */
  datatype Contents = Contents(
    environments: map<string, seq<string>>,
    flags: map<string, map<string, Flag>>,
    segments: map<string, map<string, Segment>>,
    configs: map<string, map<string, map<string, FlagConfig>>>,
    versions: map<string, map<string, int>>)

  function Version(c: Contents, project: string, env: string): Option<int> {
    if project in c.versions && env in c.versions[project] then Some(c.versions[project][env]) else None
  }

  function Config(c: Contents, project: string, env: string, flag: string): Option<FlagConfig> {
    if project in c.configs && env in c.configs[project] && flag in c.configs[project][env]
    then Some(c.configs[project][env][flag]) else None
  }

  /** Every entry is stored under its own key. */
  ghost predicate Keyed(c: Contents) {
    && (forall p, k | p in c.flags && k in c.flags[p] :: c.flags[p][k].key == k)
    && (forall p, k | p in c.segments && k in c.segments[p] :: c.segments[p][k].key == k)
  }

  /** An environment that has no configurations yet gets some, known or not; an unknown
      project gets none. */
  function Upserted(c: Contents, project: string, env: string, flag: string, cfg: FlagConfig): Contents {
    if project !in c.configs then c
    else
      var envs := c.configs[project];
      var configs := if env in envs then envs[env] else map[];
      c.(configs := c.configs[project := envs[env := configs[flag := cfg]]])
  }

  function Bumped(c: Contents, project: string, env: string): Contents {
    var v := Version(c, project, env);
    if v.None? then c else c.(versions := c.versions[project := c.versions[project][env := v.value + 1]])
  }

  // ----- What a snapshot should hold -----

  /** A flag without a configuration for the environment is off. */
  const DEFAULT_CONFIG: FlagConfig :=
    FlagConfig(false, [], [], [], VariationOrRollout(None, None), Some(0), "", "")

  function ConfigOrDefault(c: Contents, project: string, env: string, flag: string): FlagConfig {
    var cfg := Config(c, project, env, flag);
    if cfg.Some? then cfg.value else DEFAULT_CONFIG
  }

  function Resolve(c: Contents, project: string, env: string, flag: Flag): ResolvedFlag {
    ResolvedFlag(flag.key, flag, ConfigOrDefault(c, project, env, flag.key))
  }

  function ResolvedFlags(c: Contents, project: string, env: string): map<string, ResolvedFlag>
    requires project in c.flags
  {
    map k | k in c.flags[project] && !c.flags[project][k].archived :: Resolve(c, project, env, c.flags[project][k])
  }

  ghost predicate Buildable(c: Contents, project: string, env: string) {
    Version(c, project, env).Some? && project in c.flags && project in c.segments
  }

  /** A write to a configuration, read back: it is there if the project is known, be the
      environment known or not, and nothing else has changed. */
  lemma UpsertedMeans(c: Contents, project: string, env: string, flag: string, cfg: FlagConfig)
    ensures
      var d := Upserted(c, project, env, flag, cfg);
      && d.environments == c.environments && d.flags == c.flags && d.segments == c.segments && d.versions == c.versions
      && (project in d.configs <==> project in c.configs)
      && forall p, v, f ::
           Config(d, p, v, f) ==
           if p == project && v == env && f == flag && project in c.configs then Some(cfg) else Config(c, p, v, f)
  {
  }

  /** A bump raises one environment's version by one, if it has one, and nothing else. */
  lemma BumpedMeans(c: Contents, project: string, env: string)
    ensures
      var d := Bumped(c, project, env);
      && d.environments == c.environments && d.flags == c.flags && d.segments == c.segments && d.configs == c.configs
      && forall p, v ::
           Version(d, p, v) ==
           if p == project && v == env && Version(c, p, v).Some? then Some(Version(c, p, v).value + 1) else Version(c, p, v)
  {
  }

  ghost predicate IsSnapshot(e: Encoders, c: Contents, project: string, env: string, s: Snapshot) {
    && Buildable(c, project, env)
    && s.environmentKey == env && s.projectKey == project && s.version == Version(c, project, env).value
    && s.flags == ResolvedFlags(c, project, env)
    && s.segments == c.segments[project]
    && s.checksum == "sha256:" + e.digest(Canonical.Encode(Payload(e, s)))
  }

  // ----- The store -----

  class MemoryStore {
    var environments: map<string, seq<string>>
    var flags: map<string, map<string, Flag>>
    var segments: map<string, map<string, Segment>>
    var configs: map<string, map<string, map<string, FlagConfig>>>
    var versions: map<string, map<string, int>>

    ghost function View(): Contents
      reads this
    {
      Contents(environments, flags, segments, configs, versions)
    }

    method ListEnvironments(project: string) returns (listed: Option<seq<string>>)
      ensures listed == if project in environments then Some(environments[project]) else None
    {
      if project !in environments {
        return None;
      }
      var p := environments[project];
      var out := [];
      for i := 0 to |p|
        invariant out == p[..i]
      {
        out := out + [p[i]];
      }
      assert p[..|p|] == p;
      return Some(out);
    }

    method GetEnvVersion(project: string, env: string) returns (version: Option<int>)
      ensures version == Version(View(), project, env)
    {
      if project !in versions || env !in versions[project] {
        return None;
      }
      return Some(versions[project][env]);
    }

    method IncrementEnvVersion(project: string, env: string) returns (version: Option<int>)
      modifies this`versions
      ensures View() == Bumped(old(View()), project, env)
      ensures version == Version(View(), project, env)
      ensures version.Some? <==> Version(old(View()), project, env).Some?
    {
      if project !in versions || env !in versions[project] {
        return None;
      }
      var next := versions[project][env] + 1;
      versions := versions[project := versions[project][env := next]];
      return Some(next);
    }

    method UpsertFlagConfig(project: string, env: string, flag: string, cfg: FlagConfig) returns (ok: bool)
      modifies this`configs
      ensures View() == Upserted(old(View()), project, env, flag, cfg)
      ensures ok <==> project in old(configs)
    {
      if project !in configs {
        return false;
      }
      if env !in configs[project] {
        configs := configs[project := configs[project][env := map[]]];
      }
      configs := configs[project := configs[project][env := configs[project][env][flag := cfg]]];
      ghost var envs := old(configs)[project];
      assert configs[project] == envs[env := (if env in envs then envs[env] else map[])[flag := cfg]];
      assert configs == Upserted(old(View()), project, env, flag, cfg).configs;
      return true;
    }

    method GetFlagConfig(project: string, env: string, flag: string) returns (cfg: Option<FlagConfig>)
      ensures cfg == Config(View(), project, env, flag)
    {
      if project !in configs || env !in configs[project] || flag !in configs[project][env] {
        return None;
      }
      return Some(configs[project][env][flag]);
    }

    /** The flags, in whatever order the map yields them. */
    method ListFlags(project: string) returns (listed: Option<seq<Flag>>)
      ensures listed.Some? <==> project in flags
      ensures listed.Some? ==>
                forall f :: f in listed.value <==> exists k | k in flags[project] :: flags[project][k] == f
    {
      if project !in flags {
        return None;
      }
      var out := ValuesOf(flags[project]);
      return Some(out);
    }

    method ListSegments(project: string) returns (listed: Option<seq<Segment>>)
      ensures listed.Some? <==> project in segments
      ensures listed.Some? ==>
                forall s :: s in listed.value <==> exists k | k in segments[project] :: segments[project][k] == s
    {
      if project !in segments {
        return None;
      }
      var out := ValuesOf(segments[project]);
      return Some(out);
    }
  }

  method ValuesOf<V(==)>(m: map<string, V>) returns (out: seq<V>)
    ensures forall v :: v in out <==> exists k | k in m :: m[k] == v
  {
    out := [];
    var rest := m.Keys;
    while rest != {}
      invariant rest <= m.Keys
      invariant forall v :: v in out <==> exists k | k in m && k !in rest :: m[k] == v
    {
      var k :| k in rest;
      out := out + [m[k]];
      rest := rest - {k};
    }
  }

  // ----- The builder -----

  /** With nobody else writing meanwhile, the snapshot holds what the store holds. (What
      concurrent writers can do to its stamp is the subject of `Stamp`.) */
  method Build(store: MemoryStore, e: Encoders, project: string, env: string, now: int)
    returns (snapshot: Option<Snapshot>)
    requires Keyed(store.View())
    ensures snapshot.Some? <==> Buildable(store.View(), project, env)
    ensures snapshot.Some? <==>
            && project in store.versions && env in store.versions[project]
            && project in store.flags && project in store.segments
    ensures snapshot.Some? ==>
              IsSnapshot(e, store.View(), project, env, snapshot.value) && snapshot.value.publishedAt == now
  {
    var version := store.GetEnvVersion(project, env);
    if version.None? {
      return None;
    }
    var flags := store.ListFlags(project);
    if flags.None? {
      return None;
    }
    var segments := store.ListSegments(project);
    if segments.None? {
      return None;
    }
    var resolved := ResolveFlags(store, project, env, flags.value);
    var segMap := MapSegments(store, project, segments.value);
    var snap := Snapshot(env, project, version.value, resolved, segMap, "", now);
    var checksum := ChecksumOf(e, snap);
    var stamped := snap.(checksum := checksum);
    assert Payload(e, stamped) == Payload(e, snap);
    return Some(stamped);
  }

  method ResolveFlags(store: MemoryStore, project: string, env: string, flags: seq<Flag>)
    returns (resolved: map<string, ResolvedFlag>)
    requires Keyed(store.View()) && project in store.flags
    requires forall f :: f in flags <==> exists k | k in store.flags[project] :: store.flags[project][k] == f
    ensures resolved == ResolvedFlags(store.View(), project, env)
  {
    resolved := map[];
    for i := 0 to |flags|
      invariant forall k :: k in resolved <==> exists j | 0 <= j < i :: flags[j].key == k && !flags[j].archived
      invariant forall k | k in resolved ::
                  && k in store.flags[project]
                  && resolved[k] == Resolve(store.View(), project, env, store.flags[project][k])
    {
      var f := flags[i];
      if f.archived {
        continue;
      }
      assert f in flags;
      var cfg := store.GetFlagConfig(project, env, f.key);
      if cfg.None? {
        cfg := Some(FlagConfig(false, [], [], [], VariationOrRollout(None, None), Some(0), "", ""));
      }
      resolved := resolved[f.key := ResolvedFlag(f.key, f, cfg.value)];
    }
    forall k | k in store.flags[project] ensures k in resolved <==> !store.flags[project][k].archived {
      assert store.flags[project][k] in flags;
      if j :| 0 <= j < |flags| && flags[j].key == k && !flags[j].archived {
        assert flags[j] in flags;
      }
    }
  }

  method MapSegments(store: MemoryStore, project: string, segments: seq<Segment>)
    returns (segMap: map<string, Segment>)
    requires Keyed(store.View()) && project in store.segments
    requires forall s :: s in segments <==> exists k | k in store.segments[project] :: store.segments[project][k] == s
    ensures segMap == store.segments[project]
  {
    segMap := map[];
    for i := 0 to |segments|
      invariant forall k :: k in segMap <==> exists j | 0 <= j < i :: segments[j].key == k
      invariant forall k | k in segMap :: k in store.segments[project] && segMap[k] == store.segments[project][k]
    {
      assert segments[i] in segments;
      segMap := segMap[segments[i].key := segments[i]];
    }
    forall k | k in store.segments[project] ensures k in segMap {
      assert store.segments[project][k] in segments;
    }
  }

  // ----- A mutator -----

  /** The outcome of a request. Whether the version could be bumped, or the snapshot built, is
      not part of it. */
  datatype Status = InternalError | Saved

  lemma UpsertedKept(c: Contents, project: string, env: string, flag: string, cfg: FlagConfig)
    requires Keyed(c)
    ensures
      var d := Upserted(c, project, env, flag, cfg);
      && Keyed(d) && Version(d, project, env) == Version(c, project, env)
      && (project !in c.configs ==> d == c)
  {
  }

  /** A message goes out whenever a snapshot can be built. It carries a snapshot of the store
      after the write and after the bump, and the version of that bump. */
  ghost predicate Announces(e: Encoders, before: Contents, after: Contents, project: string, env: string,
                            msg: Option<Message<Snapshot>>) {
    && (msg.Some? <==> Buildable(after, project, env))
    && (msg.Some? ==>
          && msg.value.event == "put"
          && Version(before, project, env).Some? && msg.value.version == Version(before, project, env).value + 1
          && IsSnapshot(e, after, project, env, msg.value.data))
  }

  /** What became of the request: an unknown project is an error and changes nothing;
      otherwise the write is stored, and announced through the hub if it can be. */
  ghost predicate PutOutcome(e: Encoders, before: Contents, after: Contents, hub: State<Snapshot>,
                             hubAfter: State<Snapshot>, project: string, flag: string, env: string, cfg: FlagConfig,
                             status: Status, published: Option<Message<Snapshot>>) {
    if project !in before.configs then
      status == InternalError && published == None && after == before && hubAfter == hub
    else
      && status == Saved
      && after == Bumped(Upserted(before, project, env, flag, cfg), project, env)
      && Announces(e, before, after, project, env, published)
      && hubAfter == if published.Some? then Published(hub, Env(env), published.value) else hub
  }

  /** Bumps the version, whether that works or not, and builds. */
  method BumpAndBuildAnyway(store: MemoryStore, e: Encoders, project: string, env: string, now: int)
    returns (msg: Option<Message<Snapshot>>)
    requires Keyed(store.View())
    modifies store`versions
    ensures store.View() == Bumped(old(store.View()), project, env)
    ensures Announces(e, old(store.View()), store.View(), project, env, msg)
  {
    BumpedKept(store.View(), project, env);
    hide Keyed, IsSnapshot, Bumped, ResolvedFlags, Payload;
    var bumped := store.IncrementEnvVersion(project, env);
    var newVersion := if bumped.Some? then bumped.value else 0;
    var snap := Build(store, e, project, env, now);
    if snap.None? {
      return None;
    }
    return Some(Message("put", newVersion, snap.value));
  }

  /** Stores the configuration as it came, without validating it; bumps the version; and
      publishes a snapshot built after that, if one can be built. */
  method PutFlagConfig(store: MemoryStore, h: Hub<Snapshot>, e: Encoders, project: string, flag: string, env: string,
                       cfg: FlagConfig, now: int)
    returns (status: Status, ghost published: Option<Message<Snapshot>>)
    requires Keyed(store.View()) && h.Valid() && store !in h.replay.Repr
    modifies store`configs, store`versions, h, h.replay.Repr
    ensures h.Valid()
    ensures PutOutcome(e, old(store.View()), store.View(), old(h.View()), h.View(),
                       project, flag, env, cfg, status, published)
  {
    ghost var before, hub := store.View(), h.View();
    UpsertedKept(before, project, env, flag, cfg);
    hide Hub.Valid, Keyed, Upserted, Bumped, Published, Announces, PutOutcome;
    var ok := store.UpsertFlagConfig(project, env, flag, cfg);
    if !ok {
      Refused(e, before, hub, project, flag, env, cfg);
      return InternalError, None;
    }
    var msg := BumpAndBuildAnyway(store, e, project, env, now);
    if msg.Some? {
      h.Publish(Env(env), msg.value);
    }
    AfterSaving(e, before, hub, project, flag, env, cfg, msg);
    return Saved, msg;
  }

  lemma Refused(e: Encoders, before: Contents, hub: State<Snapshot>, project: string, flag: string, env: string,
                cfg: FlagConfig)
    requires project !in before.configs
    ensures PutOutcome(e, before, before, hub, hub, project, flag, env, cfg, InternalError, None)
  {
  }

  lemma AfterSaving(e: Encoders, before: Contents, hub: State<Snapshot>, project: string, flag: string, env: string,
                    cfg: FlagConfig, msg: Option<Message<Snapshot>>)
    requires project in before.configs
    requires
      var upserted := Upserted(before, project, env, flag, cfg);
      Announces(e, upserted, Bumped(upserted, project, env), project, env, msg)
    ensures PutOutcome(e, before, Bumped(Upserted(before, project, env, flag, cfg), project, env),
                       hub, if msg.Some? then Published(hub, Env(env), msg.value) else hub,
                       project, flag, env, cfg, Saved, msg)
  {
    assert Version(Upserted(before, project, env, flag, cfg), project, env) == Version(before, project, env);
    hide Upserted, Bumped, IsSnapshot, Published;
  }

  /** What a caller is promised: a flag that exists and is not archived is in the published
      snapshot with the new configuration, every other flag with its old one, and the
      snapshot is stamped with the version of its message. */
  lemma PublishedHoldsTheWrite(e: Encoders, before: Contents, project: string, env: string, flag: string,
                               cfg: FlagConfig, s: Snapshot, k: string)
    requires Keyed(before) && project in before.configs
    requires IsSnapshot(e, Bumped(Upserted(before, project, env, flag, cfg), project, env), project, env, s)
    ensures s.environmentKey == env && s.projectKey == project
    ensures Version(before, project, env).Some? && s.version == Version(before, project, env).value + 1
    ensures s.checksum == "sha256:" + e.digest(Canonical.Encode(Payload(e, s)))
    ensures k in s.flags <==> k in before.flags[project] && !before.flags[project][k].archived
    ensures k in s.flags ==>
              && s.flags[k].key == before.flags[project][k].key && s.flags[k].flag == before.flags[project][k]
              && s.flags[k].config == if k == flag then cfg else ConfigOrDefault(before, project, env, k)
    ensures s.segments == before.segments[project]
  {
    var upserted := Upserted(before, project, env, flag, cfg);
    assert Version(upserted, project, env) == Version(before, project, env);
    var after := Bumped(upserted, project, env);
    assert Config(after, project, env, k) == if k == flag then Some(cfg) else Config(before, project, env, k);
  }

  /** Built snapshots are what deltas and evaluation need: flags and segments under their own
      keys. */
  lemma BuiltIsWellKeyed(e: Encoders, c: Contents, project: string, env: string, s: Snapshot)
    requires Keyed(c) && IsSnapshot(e, c, project, env, s)
    ensures Deltas.WellKeyed(s)
    ensures forall k | k in s.flags :: s.flags[k].flag.key == k
  {
  }

  // ----- A change to a flag, for all environments -----

  datatype Sent = Sent(env: string, msg: Message<Snapshot>)

  function PublishedAll(h: State<Snapshot>, sent: seq<Sent>): State<Snapshot> {
    if sent == [] then h
    else
      var last := sent[|sent| - 1];
      Published(PublishedAll(h, sent[..|sent| - 1]), Env(last.env), last.msg)
  }

  function BumpedAll(c: Contents, project: string, envs: seq<string>): Contents {
    if envs == [] then c else Bumped(BumpedAll(c, project, envs[..|envs| - 1]), project, envs[|envs| - 1])
  }

  /** `msg` announces the state `d` of an environment whose version was just bumped. */
  ghost predicate Announced(e: Encoders, d: Contents, project: string, env: string, msg: Message<Snapshot>) {
    && IsSnapshot(e, d, project, env, msg.data)
    && msg == Message("put", Version(d, project, env).value, msg.data)
  }

  /** What goes out for a list of environments, one after the other. */
  ghost predicate SentFor(e: Encoders, c: Contents, project: string, envs: seq<string>, sent: seq<Sent>) {
    if envs == [] then sent == []
    else
      var before, env := envs[..|envs| - 1], envs[|envs| - 1];
      var d := BumpedAll(c, project, envs);
      if Buildable(d, project, env) then
        && sent != [] && sent[|sent| - 1].env == env && Announced(e, d, project, env, sent[|sent| - 1].msg)
        && SentFor(e, c, project, before, sent[..|sent| - 1])
      else SentFor(e, c, project, before, sent)
  }

  lemma AllOneMore(c: Contents, project: string, envs: seq<string>, i: nat)
    requires i < |envs|
    ensures BumpedAll(c, project, envs[..i + 1]) == Bumped(BumpedAll(c, project, envs[..i]), project, envs[i])
  {
    assert envs[..i + 1][..i] == envs[..i];
  }

  lemma SentOneMore(e: Encoders, c: Contents, project: string, envs: seq<string>, i: nat, sent: seq<Sent>,
                    msg: Option<Message<Snapshot>>)
    requires i < |envs| && SentFor(e, c, project, envs[..i], sent)
    requires
      var d := BumpedAll(c, project, envs[..i + 1]);
      && (msg.Some? <==> Buildable(d, project, envs[i]))
      && (msg.Some? ==> Announced(e, d, project, envs[i], msg.value))
    ensures SentFor(e, c, project, envs[..i + 1], if msg.Some? then sent + [Sent(envs[i], msg.value)] else sent)
  {
    hide Announced, Buildable, BumpedAll;
    assert envs[..i + 1][..i] == envs[..i];
    if msg.Some? {
      assert (sent + [Sent(envs[i], msg.value)])[..|sent|] == sent;
    }
  }

  lemma PublishedOneMore(h: State<Snapshot>, sent: seq<Sent>, one: Sent)
    ensures PublishedAll(h, sent + [one]) == Published(PublishedAll(h, sent), Env(one.env), one.msg)
  {
    assert (sent + [one])[..|sent|] == sent;
  }

  /** What became of the change: the environments are taken in the order they are listed; each
      version that can be bumped is, and each snapshot that can be built is published. An
      unknown project changes nothing. */
  ghost predicate ChangeOutcome(e: Encoders, before: Contents, after: Contents, hub: State<Snapshot>,
                                hubAfter: State<Snapshot>, project: string, sent: seq<Sent>) {
    var envs := if project in before.environments then before.environments[project] else [];
    && after == BumpedAll(before, project, envs)
    && SentFor(e, before, project, envs, sent)
    && hubAfter == PublishedAll(hub, sent)
  }

  method PublishFlagChange(store: MemoryStore, h: Hub<Snapshot>, e: Encoders, project: string, now: int)
    returns (ghost sent: seq<Sent>)
    requires Keyed(store.View()) && h.Valid() && store !in h.replay.Repr
    modifies store`versions, h, h.replay.Repr
    ensures h.Valid()
    ensures ChangeOutcome(e, old(store.View()), store.View(), old(h.View()), h.View(), project, sent)
  {
    ghost var c, hub := store.View(), h.View();
    sent := [];
    var listed := store.ListEnvironments(project);
    if listed.None? {
      return;
    }
    var envs := listed.value;
    assert BumpedAll(c, project, envs[..0]) == c && SentFor(e, c, project, envs[..0], []);
    assert PublishedAll(hub, []) == hub;
    hide Hub.Valid, Keyed, Buildable, SentFor, PublishedAll, Published, BumpedAll, Bumped, Announced;
    for i := 0 to |envs|
      invariant h.Valid() && h.View() == PublishedAll(hub, sent) && h.replay.Repr == old(h.replay.Repr)
      invariant Keyed(store.View()) && store.View() == BumpedAll(c, project, envs[..i])
      invariant SentFor(e, c, project, envs[..i], sent)
    {
      AllOneMore(c, project, envs, i);
      var msg := BumpAndBuild(store, e, project, envs[i], now);
      SentOneMore(e, c, project, envs, i, sent, msg);
      if msg.Some? {
        h.Publish(Env(envs[i]), msg.value);
        PublishedOneMore(hub, sent, Sent(envs[i], msg.value));
        sent := sent + [Sent(envs[i], msg.value)];
      }
    }
    assert envs[..|envs|] == envs;
  }

  /** What happens for one environment, up to the message to publish. */
  method BumpAndBuild(store: MemoryStore, e: Encoders, project: string, env: string, now: int)
    returns (msg: Option<Message<Snapshot>>)
    requires Keyed(store.View())
    modifies store`versions
    ensures Keyed(store.View()) && store.View() == Bumped(old(store.View()), project, env)
    ensures msg.Some? <==> Buildable(store.View(), project, env)
    ensures msg.Some? ==> Announced(e, store.View(), project, env, msg.value)
  {
    BumpedKept(store.View(), project, env);
    hide Keyed, IsSnapshot, Bumped, ResolvedFlags, Payload;
    var newVersion := store.IncrementEnvVersion(project, env);
    if newVersion.None? {
      return None;
    }
    var snap := Build(store, e, project, env, now);
    if snap.None? {
      return None;
    }
    return Some(Message("put", newVersion.value, snap.value));
  }

  lemma BumpedKept(c: Contents, project: string, env: string)
    requires Keyed(c)
    ensures
      var d := Bumped(c, project, env);
      && Keyed(d) && OnlyVersions(c, d)
      && Version(d, project, env) == (var v := Version(c, project, env); if v.Some? then Some(v.value + 1) else None)
  {
  }

  // ----- What each environment gets -----

  ghost predicate OnlyVersions(c: Contents, d: Contents) {
    c.environments == d.environments && c.flags == d.flags && c.segments == d.segments && c.configs == d.configs
  }

  /** `d` differs from `c` in the versions of other environments only. */
  ghost predicate BumpedElsewhere(c: Contents, d: Contents, project: string, env: string) {
    OnlyVersions(c, d) && Version(d, project, env) == Version(c, project, env)
  }

  lemma BumpedOther(c: Contents, project: string, env: string, other: string)
    requires env != other
    ensures BumpedElsewhere(c, Bumped(c, project, env), project, other)
  {
  }

  lemma {:induction false} AllElsewhere(c: Contents, project: string, envs: seq<string>, other: string)
    requires other !in envs
    ensures BumpedElsewhere(c, BumpedAll(c, project, envs), project, other)
  {
    if envs != [] {
      var before := envs[..|envs| - 1];
      AllElsewhere(c, project, before, other);
      BumpedOther(BumpedAll(c, project, before), project, envs[|envs| - 1], other);
      hide Bumped, Version;
    }
  }

  lemma ResolvedSame(c: Contents, d: Contents, project: string, env: string)
    requires OnlyVersions(c, d) && project in c.flags
    ensures ResolvedFlags(c, project, env) == ResolvedFlags(d, project, env)
  {
    forall k ensures Config(c, project, env, k) == Config(d, project, env, k) {
    }
  }

  /** The environment's own version, one higher, and a snapshot of its own contents. */
  ghost predicate OwnMessage(e: Encoders, c: Contents, project: string, env: string, msg: Message<Snapshot>) {
    && Buildable(c, project, env)
    && msg.event == "put"
    && msg.version == Version(c, project, env).value + 1 == msg.data.version
    && msg.data.environmentKey == env && msg.data.projectKey == project
    && msg.data.flags == ResolvedFlags(c, project, env) && msg.data.segments == c.segments[project]
  }

  lemma SnapshotFields(e: Encoders, d: Contents, project: string, env: string, s: Snapshot)
    requires IsSnapshot(e, d, project, env, s)
    ensures Buildable(d, project, env)
    ensures s.environmentKey == env && s.projectKey == project && s.version == Version(d, project, env).value
    ensures s.flags == ResolvedFlags(d, project, env) && s.segments == d.segments[project]
  {
  }

  lemma BumpedSame(c: Contents, d: Contents, project: string, env: string)
    requires BumpedElsewhere(c, d, project, env)
    ensures OnlyVersions(c, Bumped(d, project, env))
    ensures Buildable(Bumped(d, project, env), project, env) <==> Buildable(c, project, env)
    ensures
      var v := Version(c, project, env);
      Version(Bumped(d, project, env), project, env) == if v.Some? then Some(v.value + 1) else None
  {
  }

  lemma AnnouncedOwn(e: Encoders, c: Contents, d: Contents, project: string, env: string, msg: Message<Snapshot>)
    requires BumpedElsewhere(c, d, project, env) && Announced(e, Bumped(d, project, env), project, env, msg)
    ensures OwnMessage(e, c, project, env, msg)
  {
    hide IsSnapshot, ResolvedFlags, Bumped, Version;
    SnapshotFields(e, Bumped(d, project, env), project, env, msg.data);
    BumpedSame(c, d, project, env);
    ResolvedSame(c, Bumped(d, project, env), project, env);
  }

  /** Each of the environments that can be built got one message, of its own. */
  ghost predicate OneEach(e: Encoders, c: Contents, project: string, envs: seq<string>, sent: seq<Sent>) {
    && (forall s | s in sent :: s.env in envs && OwnMessage(e, c, project, s.env, s.msg))
    && (forall env | env in envs && Buildable(c, project, env) :: exists s | s in sent :: s.env == env)
    && (forall i, j | 0 <= i < j < |sent| :: sent[i].env != sent[j].env)
  }

  lemma OneEachMore(e: Encoders, c: Contents, project: string, envs: seq<string>, sent: seq<Sent>, env: string,
                    msg: Option<Message<Snapshot>>)
    requires OneEach(e, c, project, envs, sent) && env !in envs
    requires msg.Some? <==> Buildable(c, project, env)
    requires msg.Some? ==> OwnMessage(e, c, project, env, msg.value)
    ensures OneEach(e, c, project, envs + [env], if msg.Some? then sent + [Sent(env, msg.value)] else sent)
  {
    hide Buildable, OwnMessage;
    if msg.Some? {
      var one := Sent(env, msg.value);
      assert one in sent + [one];
      forall i | 0 <= i < |sent| ensures sent[i].env != env {
        assert sent[i] in sent;
      }
      forall other | other in envs && Buildable(c, project, other)
        ensures exists s | s in sent + [one] :: s.env == other
      {
        var s :| s in sent && s.env == other;
        assert s in sent + [one];
      }
    }
  }

  /** The last environment of a list, and what was sent for it. */
  lemma LastOne(e: Encoders, c: Contents, project: string, before: seq<string>, env: string, sent: seq<Sent>)
    returns (init: seq<Sent>, msg: Option<Message<Snapshot>>)
    requires SentFor(e, c, project, before + [env], sent) && env !in before
    ensures SentFor(e, c, project, before, init)
    ensures sent == if msg.Some? then init + [Sent(env, msg.value)] else init
    ensures msg.Some? <==> Buildable(c, project, env)
    ensures msg.Some? ==> OwnMessage(e, c, project, env, msg.value)
  {
    hide Buildable, Bumped, BumpedElsewhere, OwnMessage, Announced;
    var d := BumpedAll(c, project, before);
    assert (before + [env])[..|before|] == before;
    AllElsewhere(c, project, before, env);
    BumpedSame(c, d, project, env);
    if Buildable(Bumped(d, project, env), project, env) {
      var last := sent[|sent| - 1];
      AnnouncedOwn(e, c, d, project, env, last.msg);
      init, msg := sent[..|sent| - 1], Some(last.msg);
    } else {
      init, msg := sent, None;
    }
  }

  /** If no environment is listed twice, exactly those for which a snapshot can be built get a
      message, each one of its own. */
  lemma {:induction false} OneMessageEach(e: Encoders, c: Contents, project: string, envs: seq<string>, sent: seq<Sent>)
    requires SentFor(e, c, project, envs, sent)
    requires forall i, j | 0 <= i < j < |envs| :: envs[i] != envs[j]
    ensures OneEach(e, c, project, envs, sent)
  {
    if envs != [] {
      hide Buildable, OwnMessage, OneEach, SentFor;
      var before, env := envs[..|envs| - 1], envs[|envs| - 1];
      assert envs == before + [env];
      var init, msg := LastOne(e, c, project, before, env, sent);
      OneMessageEach(e, c, project, before, init);
      OneEachMore(e, c, project, before, init, env, msg);
    }
  }
}
