/** Evaluating flags out of a snapshot, as the SDK clients do (sdk/go/pennant/client.go). */
module SnapshotEval {
  import opened Model
  import opened Bucketing
  import opened GoEval
  import Builder
  import Checksum
  import Clauses

  /** The snapshot as the evaluator's store. */
  function StoreOf(s: Snapshot): Store {
    Store(map k | k in s.flags :: Entry(s.flags[k].flag, s.flags[k].config), s.segments)
  }

  /** What the evaluator finds in a built snapshot: the project's segments, its flags without
      the archived ones, and their configurations, those of flags nobody configured being off
      with the first variation to serve. */
  lemma SnapshotServesTheStore(e: Checksum.Encoders, c: Builder.Contents, project: string, env: string, s: Snapshot)
    requires Builder.Keyed(c) && Builder.IsSnapshot(e, c, project, env, s)
    ensures StoreOf(s).segments == c.segments[project]
    ensures forall k :: k in StoreOf(s).flags <==> k in c.flags[project] && !c.flags[project][k].archived
    ensures forall k | k in StoreOf(s).flags ::
      var configured := Builder.Config(c, project, env, k);
      StoreOf(s).flags[k] == Entry(
        c.flags[project][k],
        if configured.Some? then configured.value
        else FlagConfig(false, [], [], [], VariationOrRollout(None, None), Some(0), "", ""))
  {
  }

  /** A flag nobody configured for the environment is off and serves its first variation. */
  lemma UnconfiguredFlagIsOff(c: Builder.Contents, project: string, env: string, s: Snapshot,
                              w: World, o: Clauses.Order, k: string)
    requires Builder.Keyed(c) && project in c.flags && s.flags == Builder.ResolvedFlags(c, project, env)
    requires w.store == StoreOf(s) && Clauses.Acyclic(w.store, o)
    requires k in c.flags[project] && !c.flags[project][k].archived && c.flags[project][k].variations != []
    requires Builder.Config(c, project, env, k).None?
    ensures k in w.store.flags
    ensures
      var flag, cfg := w.store.flags[k].flag, w.store.flags[k].config;
      Result(w, o, flag, cfg, []) == EvalResult(Some(0), c.flags[project][k].variations[0].value, Because(Off))
  {
  }

  /** A flag whose prerequisite is archived is blocked as soon as it is on, since snapshots
      leave archived flags out. */
  lemma ArchivedPrerequisiteBlocks(c: Builder.Contents, project: string, env: string, s: Snapshot,
                                   w: World, o: Clauses.Order, flag: Flag, cfg: FlagConfig, i: nat)
    requires Builder.Keyed(c) && project in c.flags && s.flags == Builder.ResolvedFlags(c, project, env)
    requires w.store == StoreOf(s) && Clauses.Acyclic(w.store, o)
    requires cfg.on && i < |cfg.prerequisites|
    requires
      var p := cfg.prerequisites[i].flagKey;
      p in c.flags[project] && c.flags[project][p].archived
    ensures Decided(w, o, flag, cfg, []).Blocked? && Decided(w, o, flag, cfg, []).p <= i
  {
    assert !Met(w, o, cfg.prerequisites[i], [flag.key]) by {
      hide Clauses.Acyclic;
    }
    hide Met, StoreOf, Builder.Keyed, Builder.ResolvedFlags;
    assert [] + [flag.key] == [flag.key];
    var p := FirstUnmet(w, o, cfg.prerequisites, [flag.key], 0);
  }
}
