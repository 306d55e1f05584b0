/** Flag evaluation in the TypeScript SDK (sdk/ts/src/evaluate.ts), and its agreement with Go. */
module TsEval {
  import opened Model
  import opened Bucketing
  import opened GoEval
  import Rollout
  import Clauses
  import TsClauses

  // ----- What is served -----

  function TsVariationResult(flag: Flag, index: int, reason: Reason): EvalResult {
    if index < 0 || index >= |flag.variations| then EvalResult(None, Null, Failed(MalformedFlag))
    else EvalResult(Some(index), flag.variations[index].value, reason)
  }

  function TsOffResult(flag: Flag, cfg: FlagConfig, reason: Reason): EvalResult {
    if cfg.offVariation.None? then EvalResult(None, Null, reason)
    else TsVariationResult(flag, cfg.offVariation.value, reason)
  }

  function InExperiment(ro: Model.Rollout, reason: Reason): Reason {
    if ro.isExperiment then reason.(inExperiment := true) else reason
  }

  ghost function TsResolved(w: World, flag: Flag, cfg: FlagConfig, vr: VariationOrRollout, reason: Reason): EvalResult {
    if vr.variation.Some? then TsVariationResult(flag, vr.variation.value, reason)
    else if vr.rollout.None? || vr.rollout.value.variations == [] then EvalResult(None, Null, Failed(MalformedFlag))
    else
      var ro := vr.rollout.value;
      var n := TsPrefix(w, ro.bucketBy, flag.key, cfg.salt, ro.seed);
      TsVariationResult(flag, ro.variations[Rollout.Served(ro.variations, n)].variation, InExperiment(ro, reason))
  }

  /** A cycle is reported as a malformed flag here. */
  ghost function TsOutcome(w: World, flag: Flag, cfg: FlagConfig, d: Decision): EvalResult
    requires InRange(cfg, d)
  {
    match d
    case TurnedOff => TsOffResult(flag, cfg, Because(Off))
    case Cyclic => TsOffResult(flag, cfg, Failed(MalformedFlag))
    case Blocked(p) => TsOffResult(flag, cfg, Blames(cfg.prerequisites[p].flagKey))
    case Targeted(t) => TsVariationResult(flag, cfg.targets[t].variation, Because(TargetMatch))
    case Ruled(r) => TsResolved(w, flag, cfg, cfg.rules[r].serve, Credits(r, cfg.rules[r].id))
    case FellThrough => TsResolved(w, flag, cfg, cfg.otherwise, Because(Fallthrough))
  }

  // ----- What is decided -----

  ghost function TsFirstRule(w: World, o: Clauses.Order, rules: seq<Rule>, i: nat): (r: nat)
    requires TsClauses.Acyclic(w, o) && i <= |rules|
    ensures i <= r <= |rules|
    ensures forall j | i <= j < r :: !TsClauses.RuleHolds(w, o, rules[j])
    ensures r < |rules| ==> TsClauses.RuleHolds(w, o, rules[r])
    decreases |rules| - i
  {
    if i == |rules| || TsClauses.RuleHolds(w, o, rules[i]) then i else TsFirstRule(w, o, rules, i + 1)
  }

  ghost function TsTail(w: World, o: Clauses.Order, cfg: FlagConfig): (d: Decision)
    requires TsClauses.Acyclic(w, o)
    ensures InRange(cfg, d)
  {
    var t := FirstTarget(cfg.targets, w.ctx.key, 0);
    if t < |cfg.targets| then Targeted(t)
    else
      var r := TsFirstRule(w, o, cfg.rules, 0);
      if r < |cfg.rules| then Ruled(r) else FellThrough
  }

  ghost function TsDecided(w: World, o: Clauses.Order, flag: Flag, cfg: FlagConfig, path: seq<string>): (d: Decision)
    requires TsClauses.Acyclic(w, o) && |path| <= MAX_PREREQUISITE_DEPTH + 1
    ensures InRange(cfg, d)
    decreases MAX_PREREQUISITE_DEPTH + 1 - |path|, 1, 0
  {
    if !cfg.on then TurnedOff
    else if Guarded(path, flag.key) then Cyclic
    else
      var p := TsFirstUnmet(w, o, cfg.prerequisites, path + [flag.key], 0);
      if p < |cfg.prerequisites| then Blocked(p) else TsTail(w, o, cfg)
  }

  ghost function TsFirstUnmet(w: World, o: Clauses.Order, ps: seq<Prerequisite>, path: seq<string>, i: nat): (p: nat)
    requires TsClauses.Acyclic(w, o) && |path| <= MAX_PREREQUISITE_DEPTH + 1 && i <= |ps|
    ensures i <= p <= |ps|
    ensures forall j | i <= j < p :: TsMet(w, o, ps[j], path)
    ensures p < |ps| ==> !TsMet(w, o, ps[p], path)
    decreases MAX_PREREQUISITE_DEPTH + 1 - |path|, 3, |ps| - i
  {
    if i == |ps| || !TsMet(w, o, ps[i], path) then i else TsFirstUnmet(w, o, ps, path, i + 1)
  }

  ghost predicate TsMet(w: World, o: Clauses.Order, p: Prerequisite, path: seq<string>)
    requires TsClauses.Acyclic(w, o) && |path| <= MAX_PREREQUISITE_DEPTH + 1
    decreases MAX_PREREQUISITE_DEPTH + 1 - |path|, 2, 0
  {
    && p.flagKey in w.store.flags
    && w.store.flags[p.flagKey].config.on
    && var e := w.store.flags[p.flagKey];
       TsOutcome(w, e.flag, e.config, TsDecided(w, o, e.flag, e.config, path)).index == Some(p.variation)
  }

  ghost function TsResult(w: World, o: Clauses.Order, flag: Flag, cfg: FlagConfig, path: seq<string>): EvalResult
    requires TsClauses.Acyclic(w, o) && |path| <= MAX_PREREQUISITE_DEPTH + 1
  {
    TsOutcome(w, flag, cfg, TsDecided(w, o, flag, cfg, path))
  }

  // ----- The code -----

  method ResolveRollout(w: World, flag: Flag, cfg: FlagConfig, ro: Model.Rollout, reason: Reason)
    returns (result: EvalResult)
    requires ro.variations != []
    ensures result == TsResolved(w, flag, cfg, VariationOrRollout(None, Some(ro)), reason)
  {
    var n := TsPrefix(w, ro.bucketBy, flag.key, cfg.salt, ro.seed);
    var j := Rollout.Pick(Rollout.Bucket(n), ro.variations, n);
    return TsVariationResult(flag, ro.variations[j].variation, InExperiment(ro, reason));
  }

  method ResolveVariationOrRollout(w: World, flag: Flag, cfg: FlagConfig, vr: VariationOrRollout, reason: Reason)
    returns (result: EvalResult)
    ensures result == TsResolved(w, flag, cfg, vr, reason)
  {
    if vr.variation.Some? {
      return TsVariationResult(flag, vr.variation.value, reason);
    }
    if vr.rollout.None? || |vr.rollout.value.variations| == 0 {
      return EvalResult(None, Null, Failed(MalformedFlag));
    }
    result := ResolveRollout(w, flag, cfg, vr.rollout.value, reason);
  }

  method MatchingRule(w: World, ghost o: Clauses.Order, rules: seq<Rule>) returns (r: nat)
    requires TsClauses.Acyclic(w, o)
    ensures r == TsFirstRule(w, o, rules, 0)
  {
    for i := 0 to |rules|
      invariant TsFirstRule(w, o, rules, 0) == TsFirstRule(w, o, rules, i)
    {
      var matched := TsClauses.RuleMatches(w, o, rules[i]);
      if matched {
        return i;
      }
    }
    return |rules|;
  }

  method MatchingTarget(targets: seq<Target>, key: string) returns (t: nat)
    ensures t == FirstTarget(targets, key, 0)
  {
    for i := 0 to |targets|
      invariant FirstTarget(targets, key, 0) == FirstTarget(targets, key, i)
    {
      if key in targets[i].contextKeys {
        return i;
      }
    }
    return |targets|;
  }

  method UnmetPrerequisite(w: World, ghost o: Clauses.Order, ps: seq<Prerequisite>, depth: nat,
                           nextVisited: set<string>, ghost path: seq<string>) returns (p: nat)
    requires TsClauses.Acyclic(w, o)
    requires depth + 1 == |path| <= 21
    requires NoRepeats(path) && nextVisited == KeysOf(path)
    ensures p == TsFirstUnmet(w, o, ps, path, 0)
    decreases MAX_PREREQUISITE_DEPTH + 1 - |path|, 2
  {
    for i := 0 to |ps|
      invariant TsFirstUnmet(w, o, ps, path, 0) == TsFirstUnmet(w, o, ps, path, i)
    {
      if ps[i].flagKey !in w.store.flags {
        return i;
      }
      var entry := w.store.flags[ps[i].flagKey];
      if !entry.config.on {
        return i;
      }
      var served := EvaluateWithDepth(w, o, entry.flag, entry.config, depth + 1, nextVisited, path);
      if served.index != Some(ps[i].variation) {
        return i;
      }
    }
    return |ps|;
  }

  method EvaluateWithDepth(w: World, ghost o: Clauses.Order, flag: Flag, cfg: FlagConfig, depth: nat,
                           visited: set<string>, ghost path: seq<string>) returns (result: EvalResult)
    requires TsClauses.Acyclic(w, o)
    requires depth == |path| <= 21
    requires NoRepeats(path) && visited == KeysOf(path)
    ensures result == TsResult(w, o, flag, cfg, path)
    decreases MAX_PREREQUISITE_DEPTH + 1 - |path|, 1
  {
    if !cfg.on {
      return TsOffResult(flag, cfg, Because(Off));
    }
    if depth > MAX_PREREQUISITE_DEPTH || flag.key in visited {
      return TsOffResult(flag, cfg, Failed(MalformedFlag));
    }
    var nextVisited := visited + {flag.key};

    var unmet := UnmetPrerequisite(w, o, cfg.prerequisites, depth, nextVisited, path + [flag.key]);
    if unmet < |cfg.prerequisites| {
      return TsOffResult(flag, cfg, Blames(cfg.prerequisites[unmet].flagKey));
    }

    var target := MatchingTarget(cfg.targets, w.ctx.key);
    if target < |cfg.targets| {
      return TsVariationResult(flag, cfg.targets[target].variation, Because(TargetMatch));
    }

    var index := MatchingRule(w, o, cfg.rules);
    if index < |cfg.rules| {
      var rule := cfg.rules[index];
      result := ResolveVariationOrRollout(w, flag, cfg, rule.serve, Credits(index, rule.id));
      return;
    }

    result := ResolveVariationOrRollout(w, flag, cfg, cfg.otherwise, Because(Fallthrough));
  }
}
