/** Flag evaluation in Go (internal/eval/evaluate.go): a recursion over the prerequisite
    graph, guarded by a depth counter and by the set of keys on the current path. */
module GoEval {
  import opened Model
  import opened Bucketing
  import Rollout
  import Clauses

  const MAX_PREREQUISITE_DEPTH: nat := 20

  datatype ErrorKind = MalformedFlag | PrerequisiteCycle

  datatype ReasonKind = Off | Fallthrough | TargetMatch | RuleMatch | PrerequisiteFailed | Error

  datatype Reason = Reason(
    kind: ReasonKind,
    ruleIndex: Option<nat>,
    ruleId: string,
    prerequisiteKey: string,
    errorKind: Option<ErrorKind>,
    inExperiment: bool)

  datatype EvalResult = EvalResult(index: Option<int>, value: Value, reason: Reason)

  function Because(kind: ReasonKind): Reason {
    Reason(kind, None, "", "", None, false)
  }

  function Failed(error: ErrorKind): Reason {
    Because(Error).(errorKind := Some(error))
  }

  function Blames(key: string): Reason {
    Because(PrerequisiteFailed).(prerequisiteKey := key)
  }

  function Credits(index: nat, id: string): Reason {
    Because(RuleMatch).(ruleIndex := Some(index), ruleId := id)
  }

  // ----- What is served -----

  function VariationResult(flag: Flag, index: int, reason: Reason): EvalResult {
    if 0 <= index < |flag.variations| then EvalResult(Some(index), flag.variations[index].value, reason)
    else EvalResult(None, Null, Failed(MalformedFlag))
  }

  function OffResult(flag: Flag, cfg: FlagConfig, reason: Reason): EvalResult {
    if cfg.offVariation.None? then EvalResult(None, Null, reason)
    else VariationResult(flag, cfg.offVariation.value, reason)
  }

  /** A fixed variation wins over a rollout. */
  ghost function Resolved(w: World, flag: Flag, cfg: FlagConfig, vr: VariationOrRollout, reason: Reason): EvalResult {
    if vr.variation.Some? then VariationResult(flag, vr.variation.value, reason)
    else if vr.rollout.None? || vr.rollout.value.variations == [] then EvalResult(None, Null, Failed(MalformedFlag))
    else
      var ro := vr.rollout.value;
      var n := GoPrefix(w, ro.bucketBy, flag.key, cfg.salt, ro.seed);
      VariationResult(flag, ro.variations[Rollout.Served(ro.variations, n)].variation,
                      reason.(inExperiment := ro.isExperiment))
  }

  // ----- What is decided -----

  /** The step of the algorithm that decides, with its position in the configuration. */
  datatype Decision = TurnedOff | Cyclic | Blocked(p: nat) | Targeted(t: nat) | Ruled(r: nat) | FellThrough

  predicate InRange(cfg: FlagConfig, d: Decision) {
    && (d.Blocked? ==> d.p < |cfg.prerequisites|)
    && (d.Targeted? ==> d.t < |cfg.targets|)
    && (d.Ruled? ==> d.r < |cfg.rules|)
  }

  ghost function Outcome(w: World, flag: Flag, cfg: FlagConfig, d: Decision): EvalResult
    requires InRange(cfg, d)
  {
    match d
    case TurnedOff => OffResult(flag, cfg, Because(Off))
    case Cyclic => OffResult(flag, cfg, Failed(PrerequisiteCycle))
    case Blocked(p) => OffResult(flag, cfg, Blames(cfg.prerequisites[p].flagKey))
    case Targeted(t) => VariationResult(flag, cfg.targets[t].variation, Because(TargetMatch))
    case Ruled(r) => Resolved(w, flag, cfg, cfg.rules[r].serve, Credits(r, cfg.rules[r].id))
    case FellThrough => Resolved(w, flag, cfg, cfg.otherwise, Because(Fallthrough))
  }

  function FirstTarget(targets: seq<Target>, key: string, i: nat): (t: nat)
    requires i <= |targets|
    ensures i <= t <= |targets|
    ensures forall j | i <= j < t :: key !in targets[j].contextKeys
    ensures t < |targets| ==> key in targets[t].contextKeys
    decreases |targets| - i
  {
    if i == |targets| || key in targets[i].contextKeys then i else FirstTarget(targets, key, i + 1)
  }

  ghost function FirstRule(w: World, o: Clauses.Order, rules: seq<Rule>, i: nat): (r: nat)
    requires Clauses.Acyclic(w.store, o) && i <= |rules|
    ensures i <= r <= |rules|
    ensures forall j | i <= j < r :: !Clauses.RuleHolds(w, o, rules[j])
    ensures r < |rules| ==> Clauses.RuleHolds(w, o, rules[r])
    decreases |rules| - i
  {
    if i == |rules| || Clauses.RuleHolds(w, o, rules[i]) then i else FirstRule(w, o, rules, i + 1)
  }

  /** The steps after the prerequisites. */
  ghost function Tail(w: World, o: Clauses.Order, cfg: FlagConfig): (d: Decision)
    requires Clauses.Acyclic(w.store, o)
    ensures InRange(cfg, d)
  {
    var t := FirstTarget(cfg.targets, w.ctx.key, 0);
    if t < |cfg.targets| then Targeted(t)
    else
      var r := FirstRule(w, o, cfg.rules, 0);
      if r < |cfg.rules| then Ruled(r) else FellThrough
  }

  /** `path` lists the keys of the flags whose evaluation led here, outermost first. */
  ghost predicate Guarded(path: seq<string>, key: string) {
    |path| > MAX_PREREQUISITE_DEPTH || key in path
  }

  ghost function Decided(w: World, o: Clauses.Order, flag: Flag, cfg: FlagConfig, path: seq<string>): (d: Decision)
    requires Clauses.Acyclic(w.store, o) && |path| <= MAX_PREREQUISITE_DEPTH + 1
    ensures InRange(cfg, d)
    decreases MAX_PREREQUISITE_DEPTH + 1 - |path|, 1, 0
  {
    if !cfg.on then TurnedOff
    else if Guarded(path, flag.key) then Cyclic
    else
      var p := FirstUnmet(w, o, cfg.prerequisites, path + [flag.key], 0);
      if p < |cfg.prerequisites| then Blocked(p) else Tail(w, o, cfg)
  }

  ghost function FirstUnmet(w: World, o: Clauses.Order, ps: seq<Prerequisite>, path: seq<string>, i: nat): (p: nat)
    requires Clauses.Acyclic(w.store, o) && |path| <= MAX_PREREQUISITE_DEPTH + 1 && i <= |ps|
    ensures i <= p <= |ps|
    ensures forall j | i <= j < p :: Met(w, o, ps[j], path)
    ensures p < |ps| ==> !Met(w, o, ps[p], path)
    decreases MAX_PREREQUISITE_DEPTH + 1 - |path|, 3, |ps| - i
  {
    if i == |ps| || !Met(w, o, ps[i], path) then i else FirstUnmet(w, o, ps, path, i + 1)
  }

  /** The prerequisite's flag exists, is on and serves the variation asked for. */
  ghost predicate Met(w: World, o: Clauses.Order, p: Prerequisite, path: seq<string>)
    requires Clauses.Acyclic(w.store, o) && |path| <= MAX_PREREQUISITE_DEPTH + 1
    decreases MAX_PREREQUISITE_DEPTH + 1 - |path|, 2, 0
  {
    && p.flagKey in w.store.flags
    && w.store.flags[p.flagKey].config.on
    && var e := w.store.flags[p.flagKey];
       Outcome(w, e.flag, e.config, Decided(w, o, e.flag, e.config, path)).index == Some(p.variation)
  }

  ghost function Result(w: World, o: Clauses.Order, flag: Flag, cfg: FlagConfig, path: seq<string>): EvalResult
    requires Clauses.Acyclic(w.store, o) && |path| <= MAX_PREREQUISITE_DEPTH + 1
  {
    Outcome(w, flag, cfg, Decided(w, o, flag, cfg, path))
  }

  // ----- The code -----

  /** Go's map from keys to true, which callees share. */
  class KeySet {
    var keys: set<string>

    constructor ()
      ensures keys == {}
    {
      keys := {};
    }
  }

  method CopyVisited(v: KeySet) returns (cp: KeySet)
    ensures fresh(cp) && cp.keys == v.keys
  {
    cp := new KeySet();
    var rest := v.keys;
    while rest != {}
      invariant rest <= v.keys && cp.keys == v.keys - rest
    {
      var k :| k in rest;
      cp.keys := cp.keys + {k};
      rest := rest - {k};
    }
  }

  method ResolveVariationOrRollout(w: World, flag: Flag, cfg: FlagConfig, vr: VariationOrRollout, reason: Reason)
    returns (result: EvalResult)
    ensures result == Resolved(w, flag, cfg, vr, reason)
  {
    if vr.variation.Some? {
      return VariationResult(flag, vr.variation.value, reason);
    }
    if vr.rollout.None? || |vr.rollout.value.variations| == 0 {
      return EvalResult(None, Null, Failed(MalformedFlag));
    }
    var ro := vr.rollout.value;
    var n := GoPrefix(w, ro.bucketBy, flag.key, cfg.salt, ro.seed);
    var j := Rollout.Pick(Rollout.Bucket(n), ro.variations, n);
    return VariationResult(flag, ro.variations[j].variation, reason.(inExperiment := ro.isExperiment));
  }

  method MatchingRule(w: World, ghost o: Clauses.Order, rules: seq<Rule>) returns (r: nat)
    requires Clauses.Acyclic(w.store, o)
    ensures r == FirstRule(w, o, rules, 0)
  {
    for i := 0 to |rules|
      invariant FirstRule(w, o, rules, 0) == FirstRule(w, o, rules, i)
    {
      var matched := Clauses.RuleMatches(w, o, rules[i]);
      if matched {
        return i;
      }
    }
    return |rules|;
  }

  method MatchingTarget(targets: seq<Target>, key: string) returns (t: nat)
    ensures t == FirstTarget(targets, key, 0)
  {
    for i := 0 to |targets|
      invariant FirstTarget(targets, key, 0) == FirstTarget(targets, key, i)
    {
      var keys := targets[i].contextKeys;
      for j := 0 to |keys|
        invariant key !in keys[..j]
      {
        if keys[j] == key {
          return i;
        }
      }
    }
    return |targets|;
  }

  ghost predicate NoRepeats(path: seq<string>) {
    forall i, j | 0 <= i < j < |path| :: path[i] != path[j]
  }

  ghost function KeysOf(path: seq<string>): set<string> {
    set k | k in path
  }

  /** The set is exactly the keys of the flags under evaluation on the way here, and the
      counter is their number; siblings never see each other. */
  method EvaluateWithDepth(w: World, ghost o: Clauses.Order, flag: Flag, cfg: FlagConfig, depth: nat,
                           visited: KeySet, ghost path: seq<string>) returns (result: EvalResult)
    requires Clauses.Acyclic(w.store, o)
    requires depth == |path| <= 21
    requires NoRepeats(path) && visited.keys == KeysOf(path)
    modifies visited
    ensures result == Result(w, o, flag, cfg, path)
    ensures visited.keys == if cfg.on && depth <= 20 && flag.key !in path then KeysOf(path) + {flag.key} else KeysOf(path)
    decreases MAX_PREREQUISITE_DEPTH + 1 - |path|, 1
  {
    if !cfg.on {
      return OffResult(flag, cfg, Because(Off));
    }
    if depth > MAX_PREREQUISITE_DEPTH || flag.key in visited.keys {
      return OffResult(flag, cfg, Failed(PrerequisiteCycle));
    }
    visited.keys := visited.keys + {flag.key};

    var unmet := UnmetPrerequisite(w, o, cfg.prerequisites, depth, visited, path + [flag.key]);
    if unmet < |cfg.prerequisites| {
      return OffResult(flag, cfg, Blames(cfg.prerequisites[unmet].flagKey));
    }

    var target := MatchingTarget(cfg.targets, w.ctx.key);
    if target < |cfg.targets| {
      return VariationResult(flag, cfg.targets[target].variation, Because(TargetMatch));
    }

    var index := MatchingRule(w, o, cfg.rules);
    if index < |cfg.rules| {
      var rule := cfg.rules[index];
      result := ResolveVariationOrRollout(w, flag, cfg, rule.serve, Credits(index, rule.id));
      return;
    }

    result := ResolveVariationOrRollout(w, flag, cfg, cfg.otherwise, Because(Fallthrough));
  }

  method UnmetPrerequisite(w: World, ghost o: Clauses.Order, ps: seq<Prerequisite>, depth: nat, visited: KeySet,
                           ghost path: seq<string>) returns (p: nat)
    requires Clauses.Acyclic(w.store, o)
    requires depth + 1 == |path| <= 21
    requires NoRepeats(path) && visited.keys == KeysOf(path)
    ensures p == FirstUnmet(w, o, ps, path, 0)
    decreases MAX_PREREQUISITE_DEPTH + 1 - |path|, 2
  {
    for i := 0 to |ps|
      invariant FirstUnmet(w, o, ps, path, 0) == FirstUnmet(w, o, ps, path, i)
    {
      if ps[i].flagKey !in w.store.flags {
        return i;
      }
      var entry := w.store.flags[ps[i].flagKey];
      if !entry.config.on {
        return i;
      }
      var cp := CopyVisited(visited);
      var served := EvaluateWithDepth(w, o, entry.flag, entry.config, depth + 1, cp, path);
      if served.index != Some(ps[i].variation) {
        return i;
      }
    }
    return |ps|;
  }

  method Evaluate(w: World, ghost o: Clauses.Order, flag: Flag, cfg: FlagConfig) returns (result: EvalResult)
    requires Clauses.Acyclic(w.store, o)
    ensures result == Result(w, o, flag, cfg, [])
  {
    var visited := new KeySet();
    result := EvaluateWithDepth(w, o, flag, cfg, 0, visited, []);
  }
}
