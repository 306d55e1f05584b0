/** What a result of `Evaluate` says about how it came about: the reason, the index and the
    value, each in terms of the configuration. */
module Reasons {
  import opened Model
  import opened Bucketing
  import opened GoEval
  import Clauses
  import Rollout

  type Order = Clauses.Order

  ghost predicate NoTarget(w: World, cfg: FlagConfig, n: nat)
    requires n <= |cfg.targets|
  {
    forall t | 0 <= t < n :: w.ctx.key !in cfg.targets[t].contextKeys
  }

  ghost predicate NoRule(w: World, o: Order, cfg: FlagConfig, n: nat)
    requires Clauses.Acyclic(w.store, o) && n <= |cfg.rules|
  {
    forall i | 0 <= i < n :: !Clauses.RuleHolds(w, o, cfg.rules[i])
  }

  ghost predicate AllMet(w: World, o: Order, flag: Flag, cfg: FlagConfig, n: nat)
    requires Clauses.Acyclic(w.store, o) && n <= |cfg.prerequisites|
  {
    forall p | 0 <= p < n :: Met(w, o, cfg.prerequisites[p], [flag.key])
  }

  /** What a rule or the fallthrough serves: its variation, or else that of the position whose
      range of prefixes has the context's. */
  ghost predicate Serves(w: World, flag: Flag, cfg: FlagConfig, vr: VariationOrRollout, index: int, inExperiment: bool) {
    if vr.variation.Some? then index == vr.variation.value && !inExperiment
    else
      && vr.rollout.Some? && vr.rollout.value.variations != []
      && var ro := vr.rollout.value;
         index == ro.variations[Rollout.Served(ro.variations, GoPrefix(w, ro.bucketBy, flag.key, cfg.salt, ro.seed))].variation
         && inExperiment == ro.isExperiment
  }

  /** The reason is true of the configuration, and the index goes with it. */
  ghost predicate Truthful(w: World, o: Order, flag: Flag, cfg: FlagConfig, r: EvalResult)
    requires Clauses.Acyclic(w.store, o)
  {
    match r.reason.kind
    case Off =>
      !cfg.on && r.index == cfg.offVariation && r.reason == Reason(Off, None, "", "", None, false)
    case PrerequisiteFailed =>
      && cfg.on && r.index == cfg.offVariation
      && exists p | 0 <= p < |cfg.prerequisites| ::
           && AllMet(w, o, flag, cfg, p) && !Met(w, o, cfg.prerequisites[p], [flag.key])
           && r.reason == Reason(PrerequisiteFailed, None, "", cfg.prerequisites[p].flagKey, None, false)
    case TargetMatch =>
      && cfg.on && AllMet(w, o, flag, cfg, |cfg.prerequisites|)
      && r.reason == Reason(TargetMatch, None, "", "", None, false)
      && exists t | 0 <= t < |cfg.targets| ::
           NoTarget(w, cfg, t) && w.ctx.key in cfg.targets[t].contextKeys && r.index == Some(cfg.targets[t].variation)
    case RuleMatch =>
      && cfg.on && AllMet(w, o, flag, cfg, |cfg.prerequisites|) && NoTarget(w, cfg, |cfg.targets|)
      && r.index.Some?
      && exists i | 0 <= i < |cfg.rules| ::
           && NoRule(w, o, cfg, i) && Clauses.RuleHolds(w, o, cfg.rules[i])
           && r.reason == Reason(RuleMatch, Some(i), cfg.rules[i].id, "", None, r.reason.inExperiment)
           && Serves(w, flag, cfg, cfg.rules[i].serve, r.index.value, r.reason.inExperiment)
    case Fallthrough =>
      && cfg.on && AllMet(w, o, flag, cfg, |cfg.prerequisites|)
      && NoTarget(w, cfg, |cfg.targets|) && NoRule(w, o, cfg, |cfg.rules|)
      && r.index.Some?
      && r.reason == Reason(Fallthrough, None, "", "", None, r.reason.inExperiment)
      && Serves(w, flag, cfg, cfg.otherwise, r.index.value, r.reason.inExperiment)
    case Error =>
      r.index.None? && r.reason == Reason(Error, None, "", "", Some(MalformedFlag), false)
  }

  lemma OffTruthful(w: World, o: Order, flag: Flag, cfg: FlagConfig)
    requires Clauses.Acyclic(w.store, o) && !cfg.on
    ensures Truthful(w, o, flag, cfg, Outcome(w, flag, cfg, TurnedOff))
  {
    hide Clauses.RuleHolds, Met, Serves, Clauses.Acyclic;
  }

  lemma BlockedTruthful(w: World, o: Order, flag: Flag, cfg: FlagConfig, p: nat)
    requires Clauses.Acyclic(w.store, o) && cfg.on && p < |cfg.prerequisites|
    requires AllMet(w, o, flag, cfg, p) && !Met(w, o, cfg.prerequisites[p], [flag.key])
    ensures Truthful(w, o, flag, cfg, Outcome(w, flag, cfg, Blocked(p)))
  {
    hide Clauses.RuleHolds, Met, Serves, AllMet, Clauses.Acyclic;
  }

  lemma TargetedTruthful(w: World, o: Order, flag: Flag, cfg: FlagConfig, t: nat)
    requires Clauses.Acyclic(w.store, o) && cfg.on && AllMet(w, o, flag, cfg, |cfg.prerequisites|)
    requires t < |cfg.targets| && NoTarget(w, cfg, t) && w.ctx.key in cfg.targets[t].contextKeys
    ensures Truthful(w, o, flag, cfg, Outcome(w, flag, cfg, Targeted(t)))
  {
    hide Clauses.RuleHolds, Met, Serves, AllMet, NoTarget, Clauses.Acyclic;
  }

  /** A rule or the fallthrough serves what it says, or is malformed. */
  lemma ResolvedTells(w: World, flag: Flag, cfg: FlagConfig, vr: VariationOrRollout, reason: Reason)
    requires reason.errorKind.None? && !reason.inExperiment
    ensures
      var r := Resolved(w, flag, cfg, vr, reason);
      || (r.index.None? && r.reason == Reason(Error, None, "", "", Some(MalformedFlag), false))
      || (r.index.Some? && r.reason == reason.(inExperiment := r.reason.inExperiment)
          && Serves(w, flag, cfg, vr, r.index.value, r.reason.inExperiment))
  {
    hide Rollout.Served, GoPrefix;
  }

  lemma RuledTruthful(w: World, o: Order, flag: Flag, cfg: FlagConfig, i: nat)
    requires Clauses.Acyclic(w.store, o) && cfg.on && AllMet(w, o, flag, cfg, |cfg.prerequisites|)
    requires NoTarget(w, cfg, |cfg.targets|)
    requires i < |cfg.rules| && NoRule(w, o, cfg, i) && Clauses.RuleHolds(w, o, cfg.rules[i])
    ensures Truthful(w, o, flag, cfg, Outcome(w, flag, cfg, Ruled(i)))
  {
    ResolvedTells(w, flag, cfg, cfg.rules[i].serve, Credits(i, cfg.rules[i].id));
    hide Clauses.RuleHolds, Met, Serves, Resolved, AllMet, NoTarget, NoRule, Clauses.Acyclic;
  }

  lemma FellThroughTruthful(w: World, o: Order, flag: Flag, cfg: FlagConfig)
    requires Clauses.Acyclic(w.store, o) && cfg.on && AllMet(w, o, flag, cfg, |cfg.prerequisites|)
    requires NoTarget(w, cfg, |cfg.targets|) && NoRule(w, o, cfg, |cfg.rules|)
    ensures Truthful(w, o, flag, cfg, Outcome(w, flag, cfg, FellThrough))
  {
    ResolvedTells(w, flag, cfg, cfg.otherwise, Because(Fallthrough));
    hide Clauses.RuleHolds, Met, Serves, Resolved, AllMet, NoTarget, NoRule, Clauses.Acyclic;
  }

  /** Whatever the configuration and the context, the reason is true, the index goes with it,
      and the value with the index. */
  lemma ReasonIsTrue(w: World, o: Order, flag: Flag, cfg: FlagConfig)
    requires Clauses.Acyclic(w.store, o)
    ensures Truthful(w, o, flag, cfg, Result(w, o, flag, cfg, []))
  {
    assert [] + [flag.key] == [flag.key];
    hide Clauses.RuleHolds, Met, Outcome, Truthful, Clauses.Acyclic;
    match Decided(w, o, flag, cfg, [])
    case TurnedOff => OffTruthful(w, o, flag, cfg);
    case Cyclic =>
    case Blocked(p) => BlockedTruthful(w, o, flag, cfg, p);
    case Targeted(t) => TargetedTruthful(w, o, flag, cfg, t);
    case Ruled(i) => RuledTruthful(w, o, flag, cfg, i);
    case FellThrough => FellThroughTruthful(w, o, flag, cfg);
  }

  lemma ValueGoesWithIndex(w: World, o: Order, flag: Flag, cfg: FlagConfig)
    requires Clauses.Acyclic(w.store, o)
    ensures
      var r := Result(w, o, flag, cfg, []);
      if r.index.None? then r.value == Null
      else 0 <= r.index.value < |flag.variations| && r.value == flag.variations[r.index.value].value
  {
    hide Clauses.RuleHolds, Met, Decided, Clauses.Acyclic, Rollout.Served, GoPrefix;
  }

  /** A flag with a missing prerequisite, or one that is off, is blocked: even if the one that
      is off would serve the variation asked for. */
  lemma OffPrerequisiteBlocks(w: World, o: Order, flag: Flag, cfg: FlagConfig, p: nat)
    requires Clauses.Acyclic(w.store, o) && cfg.on && p < |cfg.prerequisites|
    requires
      var key := cfg.prerequisites[p].flagKey;
      key !in w.store.flags || !w.store.flags[key].config.on
    ensures
      var r := Result(w, o, flag, cfg, []);
      && r.reason.kind in {PrerequisiteFailed, Error}
      && (r.reason.kind == PrerequisiteFailed ==> r.index == cfg.offVariation)
  {
    assert [] + [flag.key] == [flag.key];
    assert !Met(w, o, cfg.prerequisites[p], [flag.key]);
    hide Met, Clauses.RuleHolds, Clauses.Acyclic;
    var first := FirstUnmet(w, o, cfg.prerequisites, [flag.key], 0);
    assert first <= p;
    assert Decided(w, o, flag, cfg, []) == Blocked(first);
  }

  /** There is nothing to serve, or it is out of range. */
  ghost predicate Broken(w: World, flag: Flag, cfg: FlagConfig, vr: VariationOrRollout) {
    forall index, x | Serves(w, flag, cfg, vr, index, x) :: !(0 <= index < |flag.variations|)
  }

  /** A result is an error exactly when the deciding step has nothing to serve or serves a
      variation that the flag does not have. */
  lemma ErrorIff(w: World, o: Order, flag: Flag, cfg: FlagConfig)
    requires Clauses.Acyclic(w.store, o)
    ensures Result(w, o, flag, cfg, []).reason.kind == Error <==>
            match Decided(w, o, flag, cfg, [])
            case Targeted(t) => !(0 <= cfg.targets[t].variation < |flag.variations|)
            case Ruled(i) => Broken(w, flag, cfg, cfg.rules[i].serve)
            case FellThrough => Broken(w, flag, cfg, cfg.otherwise)
            case _ => cfg.offVariation.Some? && !(0 <= cfg.offVariation.value < |flag.variations|)
  {
    assert Decided(w, o, flag, cfg, []) != Cyclic;
    hide Clauses.RuleHolds, Met, Decided, Clauses.Acyclic;
    match Decided(w, o, flag, cfg, [])
    case Ruled(i) => BrokenIff(w, flag, cfg, cfg.rules[i].serve, Credits(i, cfg.rules[i].id));
    case FellThrough => BrokenIff(w, flag, cfg, cfg.otherwise, Because(Fallthrough));
    case _ =>
    hide Broken, Serves, Resolved;
  }

  lemma BrokenIff(w: World, flag: Flag, cfg: FlagConfig, vr: VariationOrRollout, reason: Reason)
    requires reason.kind != Error
    ensures Resolved(w, flag, cfg, vr, reason).reason.kind == Error <==> Broken(w, flag, cfg, vr)
  {
    hide Rollout.ServedFrom, GoPrefix;
    if vr.variation.Some? {
      assert Serves(w, flag, cfg, vr, vr.variation.value, false);
    } else if vr.rollout.Some? && vr.rollout.value.variations != [] {
      var ro := vr.rollout.value;
      var n := GoPrefix(w, ro.bucketBy, flag.key, cfg.salt, ro.seed);
      assert Serves(w, flag, cfg, vr, ro.variations[Rollout.Served(ro.variations, n)].variation, ro.isExperiment);
    }
  }
}
