/** The Go and the TypeScript evaluator say the same about every flag, including flags whose
    prerequisites form cycles, when the configuration and the context are portable. */
module Agreement {
  import opened Model
  import opened Bucketing
  import opened GoEval
  import opened TsEval
  import Clauses
  import TsClauses

  type Order = Clauses.Order

  /** Clauses name segments by strings, and rollouts have seeds that both languages print
      alike. */
  ghost predicate PortableConfig(host: Host, cfg: FlagConfig) {
    && (forall rule, c | rule in cfg.rules && c in rule.clauses :: TsClauses.PortableClause(c))
    && (forall rule | rule in cfg.rules :: PortableServe(host, rule.serve))
    && PortableServe(host, cfg.otherwise)
  }

  predicate PortableServe(host: Host, vr: VariationOrRollout) {
    vr.rollout.Some? ==> PortableSeed(host, vr.rollout.value.seed)
  }

  ghost predicate Portable(w: World, o: Order) {
    && TsClauses.PortableWorld(w)
    && Clauses.Acyclic(w.store, o)
    && TsClauses.Acyclic(w, o)
    && forall k | k in w.store.flags :: PortableConfig(w.host, w.store.flags[k].config)
  }

  /** An order for Go's segment references is one for TypeScript's. */
  lemma PortableIntro(w: World, o: Order)
    requires TsClauses.PortableWorld(w) && Clauses.Acyclic(w.store, o)
    requires forall k | k in w.store.flags :: PortableConfig(w.host, w.store.flags[k].config)
    ensures Portable(w, o)
  {
    TsClauses.AcyclicAgree(w, o);
  }

  lemma ResolvedAgree(w: World, flag: Flag, cfg: FlagConfig, vr: VariationOrRollout, reason: Reason)
    requires PortableContext(w.ctx) && PortableServe(w.host, vr) && !reason.inExperiment
    ensures TsResolved(w, flag, cfg, vr, reason) == Resolved(w, flag, cfg, vr, reason)
  {
    if vr.rollout.Some? {
      var ro := vr.rollout.value;
      PrefixesAgree(w, ro.bucketBy, flag.key, cfg.salt, ro.seed);
    }
  }

  /** Only the error kind of a cycle differs. */
  lemma OutcomesAgree(w: World, flag: Flag, cfg: FlagConfig, d: Decision)
    requires PortableContext(w.ctx) && PortableConfig(w.host, cfg) && InRange(cfg, d)
    ensures TsOutcome(w, flag, cfg, d).index == Outcome(w, flag, cfg, d).index
    ensures TsOutcome(w, flag, cfg, d).value == Outcome(w, flag, cfg, d).value
    ensures d != Cyclic ==> TsOutcome(w, flag, cfg, d) == Outcome(w, flag, cfg, d)
  {
    match d
    case Ruled(r) => ResolvedAgree(w, flag, cfg, cfg.rules[r].serve, Credits(r, cfg.rules[r].id));
    case FellThrough => ResolvedAgree(w, flag, cfg, cfg.otherwise, Because(Fallthrough));
    case _ =>
  }

  lemma TailsAgree(w: World, o: Order, cfg: FlagConfig)
    requires Portable(w, o) && PortableConfig(w.host, cfg)
    ensures TsTail(w, o, cfg) == Tail(w, o, cfg)
  {
    FirstRulesAgree(w, o, cfg.rules, 0);
  }

  lemma {:induction false} FirstRulesAgree(w: World, o: Order, rules: seq<Rule>, i: nat)
    requires Portable(w, o) && i <= |rules|
    requires forall rule, c | rule in rules && c in rule.clauses :: TsClauses.PortableClause(c)
    ensures TsFirstRule(w, o, rules, i) == FirstRule(w, o, rules, i)
    decreases |rules| - i
  {
    if i < |rules| {
      assert rules[i] in rules;
      TsClauses.RulesAgree(w, o, rules[i]);
      FirstRulesAgree(w, o, rules, i + 1);
    }
  }

  /** The same step decides, however deep in the recursion. */
  lemma {:induction false} DecisionsAgree(w: World, o: Order, flag: Flag, cfg: FlagConfig, path: seq<string>)
    requires Portable(w, o) && PortableConfig(w.host, cfg) && |path| <= MAX_PREREQUISITE_DEPTH + 1
    ensures TsDecided(w, o, flag, cfg, path) == Decided(w, o, flag, cfg, path)
    decreases MAX_PREREQUISITE_DEPTH + 1 - |path|, 1, 0
  {
    TailsAgree(w, o, cfg);
    if cfg.on && !Guarded(path, flag.key) {
      FirstUnmetAgree(w, o, cfg.prerequisites, path + [flag.key], 0);
    }
  }

  lemma {:induction false} FirstUnmetAgree(w: World, o: Order, ps: seq<Prerequisite>, path: seq<string>, i: nat)
    requires Portable(w, o) && |path| <= MAX_PREREQUISITE_DEPTH + 1 && i <= |ps|
    ensures TsFirstUnmet(w, o, ps, path, i) == FirstUnmet(w, o, ps, path, i)
    decreases MAX_PREREQUISITE_DEPTH + 1 - |path|, 3, |ps| - i
  {
    if i < |ps| {
      MetAgree(w, o, ps[i], path);
      FirstUnmetAgree(w, o, ps, path, i + 1);
    }
  }

  lemma {:induction false} MetAgree(w: World, o: Order, p: Prerequisite, path: seq<string>)
    requires Portable(w, o) && |path| <= MAX_PREREQUISITE_DEPTH + 1
    ensures TsMet(w, o, p, path) <==> Met(w, o, p, path)
    decreases MAX_PREREQUISITE_DEPTH + 1 - |path|, 2, 0
  {
    if p.flagKey in w.store.flags {
      var e := w.store.flags[p.flagKey];
      DecisionsAgree(w, o, e.flag, e.config, path);
      OutcomesAgree(w, e.flag, e.config, Decided(w, o, e.flag, e.config, path));
    }
  }

  /** At top level the two evaluators return the same index, value and reason. */
  lemma EvaluatorsAgree(w: World, o: Order, flag: Flag, cfg: FlagConfig)
    requires TsClauses.PortableWorld(w) && Clauses.Acyclic(w.store, o) && PortableConfig(w.host, cfg)
    requires forall k | k in w.store.flags :: PortableConfig(w.host, w.store.flags[k].config)
    ensures Portable(w, o)
    ensures TsResult(w, o, flag, cfg, []) == Result(w, o, flag, cfg, [])
  {
    PortableIntro(w, o);
    DecisionsAgree(w, o, flag, cfg, []);
    OutcomesAgree(w, flag, cfg, Decided(w, o, flag, cfg, []));
  }
}
