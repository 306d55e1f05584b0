/** Validation of flag configurations (internal/model/flag.go), and what it buys: an accepted
    configuration is malformed to the evaluator only at the steps validation does not check. */
module Validate {
  import opened Model
  import opened Bucketing
  import opened GoEval
  import Rollout
  import Clauses

  datatype ConfigError =
    | OffVariationOutOfRange(index: int)
    | EmptyRuleId(rule: nat)
    | DuplicateRuleId(id: string)
    | RuleVariationOutOfRange(id: string, index: int)
    | RolloutVariationOutOfRange(id: string, index: int)
    | WeightsDoNotSum(id: string, sum: int)

  /** What validating a flag comes to; a missing configuration is dereferenced and panics. */
  datatype Verdict =
    | Valid
    | TooFewVariations(count: nat)
    | BadEnvironment(env: string, error: ConfigError)
    | Panics(env: string)

  const FALLTHROUGH: string := "fallthrough"

  predicate Indexes(flag: Flag, index: int) {
    0 <= index < |flag.variations|
  }

  // ----- The first problem, in the order of the checks -----

  function RolloutErrorFrom(flag: Flag, id: string, ro: Model.Rollout, i: nat): Option<ConfigError>
    requires i <= |ro.variations|
    decreases |ro.variations| - i
  {
    var sum := Rollout.Cum(ro.variations, |ro.variations|);
    if i == |ro.variations| then if sum == Rollout.TOTAL then None else Some(WeightsDoNotSum(id, sum))
    else if !Indexes(flag, ro.variations[i].variation) then
      Some(RolloutVariationOutOfRange(id, ro.variations[i].variation))
    else RolloutErrorFrom(flag, id, ro, i + 1)
  }

  function RuleError(flag: Flag, rules: seq<Rule>, i: nat): Option<ConfigError>
    requires i < |rules|
  {
    var rule := rules[i];
    if rule.id == "" then Some(EmptyRuleId(i))
    else if rule.id in Ids(rules[..i]) then Some(DuplicateRuleId(rule.id))
    else if rule.serve.variation.Some? && !Indexes(flag, rule.serve.variation.value) then
      Some(RuleVariationOutOfRange(rule.id, rule.serve.variation.value))
    else if rule.serve.rollout.Some? then RolloutErrorFrom(flag, rule.id, rule.serve.rollout.value, 0)
    else None
  }

  function Ids(rules: seq<Rule>): set<string> {
    set rule | rule in rules :: rule.id
  }

  function RulesErrorFrom(flag: Flag, rules: seq<Rule>, i: nat): Option<ConfigError>
    requires i <= |rules|
    decreases |rules| - i
  {
    if i == |rules| then None
    else if RuleError(flag, rules, i).Some? then RuleError(flag, rules, i)
    else RulesErrorFrom(flag, rules, i + 1)
  }

  function FirstError(flag: Flag, cfg: FlagConfig): Option<ConfigError> {
    if cfg.offVariation.Some? && !Indexes(flag, cfg.offVariation.value) then
      Some(OffVariationOutOfRange(cfg.offVariation.value))
    else if RulesErrorFrom(flag, cfg.rules, 0).Some? then RulesErrorFrom(flag, cfg.rules, 0)
    else if cfg.otherwise.rollout.Some? then RolloutErrorFrom(flag, FALLTHROUGH, cfg.otherwise.rollout.value, 0)
    else None
  }

  // ----- The code -----

  method ValidateRollout(flag: Flag, id: string, ro: Model.Rollout) returns (error: Option<ConfigError>)
    ensures error == RolloutErrorFrom(flag, id, ro, 0)
  {
    var sum := 0;
    for i := 0 to |ro.variations|
      invariant sum == Rollout.Cum(ro.variations, i)
      invariant RolloutErrorFrom(flag, id, ro, 0) == RolloutErrorFrom(flag, id, ro, i)
    {
      var wv := ro.variations[i];
      if wv.variation < 0 || wv.variation >= |flag.variations| {
        return Some(RolloutVariationOutOfRange(id, wv.variation));
      }
      sum := sum + wv.weight;
    }
    if sum != 100000 {
      return Some(WeightsDoNotSum(id, sum));
    }
    return None;
  }

  method ValidateRules(flag: Flag, rules: seq<Rule>) returns (error: Option<ConfigError>)
    ensures error == RulesErrorFrom(flag, rules, 0)
  {
    var ruleIds: set<string> := {};
    for i := 0 to |rules|
      invariant ruleIds == Ids(rules[..i])
      invariant RulesErrorFrom(flag, rules, 0) == RulesErrorFrom(flag, rules, i)
    {
      var rule := rules[i];
      if rule.id == "" {
        return Some(EmptyRuleId(i));
      }
      if rule.id in ruleIds {
        return Some(DuplicateRuleId(rule.id));
      }
      assert rules[..i + 1] == rules[..i] + [rule];
      ruleIds := ruleIds + {rule.id};
      if rule.serve.variation.Some? {
        var v := rule.serve.variation.value;
        if v < 0 || v >= |flag.variations| {
          return Some(RuleVariationOutOfRange(rule.id, v));
        }
      }
      if rule.serve.rollout.Some? {
        error := ValidateRollout(flag, rule.id, rule.serve.rollout.value);
        if error.Some? {
          return;
        }
      }
    }
    return None;
  }

  method ValidateFlagConfig(flag: Flag, cfg: FlagConfig) returns (error: Option<ConfigError>)
    ensures error == FirstError(flag, cfg)
  {
    if cfg.offVariation.Some? {
      if cfg.offVariation.value < 0 || cfg.offVariation.value >= |flag.variations| {
        return Some(OffVariationOutOfRange(cfg.offVariation.value));
      }
    }
    error := ValidateRules(flag, cfg.rules);
    if error.Some? {
      return;
    }
    if cfg.otherwise.rollout.Some? {
      error := ValidateRollout(flag, FALLTHROUGH, cfg.otherwise.rollout.value);
    }
  }

  /** Environments are visited in whatever order the map yields them, so which broken
      environment is reported, or panics, is open; whether all pass is not. */
  method ValidateFlag(flag: Flag, environments: map<string, Option<FlagConfig>>) returns (verdict: Verdict)
    ensures verdict.Valid? <==>
            && |flag.variations| >= 2
            && forall env | env in environments :: environments[env].Some? && Accepted(flag, environments[env].value)
    ensures verdict.TooFewVariations? <==> |flag.variations| < 2
    ensures verdict.BadEnvironment? ==>
              && verdict.env in environments && environments[verdict.env].Some?
              && FirstError(flag, environments[verdict.env].value) == Some(verdict.error)
    ensures verdict.Panics? ==> verdict.env in environments && environments[verdict.env].None?
  {
    if |flag.variations| < 2 {
      return TooFewVariations(|flag.variations|);
    }
    var rest := environments.Keys;
    while rest != {}
      invariant rest <= environments.Keys
      invariant forall env | env in environments.Keys - rest ::
                  environments[env].Some? && Accepted(flag, environments[env].value)
    {
      var env :| env in rest;
      rest := rest - {env};
      if environments[env].None? {
        return Panics(env);
      }
      var cfg := environments[env].value;
      AcceptedIff(flag, cfg);
      var found := ValidateFlagConfig(flag, cfg);
      if found.Some? {
        return BadEnvironment(env, found.value);
      }
    }
    return Valid;
  }

  // ----- What is accepted -----

  ghost predicate AcceptedRollout(flag: Flag, ro: Model.Rollout) {
    && (forall wv | wv in ro.variations :: Indexes(flag, wv.variation))
    && Rollout.Cum(ro.variations, |ro.variations|) == Rollout.TOTAL
  }

  ghost predicate AcceptedRule(flag: Flag, rule: Rule) {
    && rule.id != ""
    && (rule.serve.variation.Some? ==> Indexes(flag, rule.serve.variation.value))
    && (rule.serve.rollout.Some? ==> AcceptedRollout(flag, rule.serve.rollout.value))
  }

  ghost predicate Accepted(flag: Flag, cfg: FlagConfig) {
    && (cfg.offVariation.Some? ==> Indexes(flag, cfg.offVariation.value))
    && (forall rule | rule in cfg.rules :: AcceptedRule(flag, rule))
    && (forall i, j | 0 <= i < j < |cfg.rules| :: cfg.rules[i].id != cfg.rules[j].id)
    && (cfg.otherwise.rollout.Some? ==> AcceptedRollout(flag, cfg.otherwise.rollout.value))
  }

  lemma {:induction false} RolloutAcceptedIff(flag: Flag, id: string, ro: Model.Rollout, i: nat)
    requires i <= |ro.variations|
    ensures RolloutErrorFrom(flag, id, ro, i).None? <==>
            && (forall j | i <= j < |ro.variations| :: Indexes(flag, ro.variations[j].variation))
            && Rollout.Cum(ro.variations, |ro.variations|) == Rollout.TOTAL
    decreases |ro.variations| - i
  {
    if i < |ro.variations| {
      RolloutAcceptedIff(flag, id, ro, i + 1);
    }
  }

  lemma RuleAcceptedIff(flag: Flag, rules: seq<Rule>, i: nat)
    requires i < |rules|
    ensures RuleError(flag, rules, i).None? <==>
            AcceptedRule(flag, rules[i]) && forall j | 0 <= j < i :: rules[j].id != rules[i].id
  {
    if rules[i].serve.rollout.Some? {
      RolloutAcceptedIff(flag, rules[i].id, rules[i].serve.rollout.value, 0);
    }
    forall j | 0 <= j < i ensures rules[j].id in Ids(rules[..i]) {
      assert rules[..i][j] in rules[..i];
    }
  }

  lemma {:induction false} RulesAcceptedIff(flag: Flag, rules: seq<Rule>, i: nat)
    requires i <= |rules|
    ensures RulesErrorFrom(flag, rules, i).None? <==>
            forall k | i <= k < |rules| ::
              AcceptedRule(flag, rules[k]) && forall j | 0 <= j < k :: rules[j].id != rules[k].id
    decreases |rules| - i
  {
    if i < |rules| {
      RuleAcceptedIff(flag, rules, i);
      RulesAcceptedIff(flag, rules, i + 1);
    }
  }

  /** The indices are in range and the weights sum to 100000. */
  ghost predicate AddsUp(flag: Flag, ws: seq<WeightedVariation>) {
    && (forall wv | wv in ws :: 0 <= wv.variation < |flag.variations|)
    && Rollout.Cum(ws, |ws|) == 100_000
  }

  /** Validation accepts exactly the configurations whose off-variation, rules and rollouts
      are in range, whose rule ids are set and distinct, and whose rollouts add up. */
  lemma AcceptedIff(flag: Flag, cfg: FlagConfig)
    ensures FirstError(flag, cfg).None? <==> Accepted(flag, cfg)
    ensures Accepted(flag, cfg) <==>
            && (cfg.offVariation.Some? ==> 0 <= cfg.offVariation.value < |flag.variations|)
            && (forall rule | rule in cfg.rules ::
                  && rule.id != ""
                  && (rule.serve.variation.Some? ==> 0 <= rule.serve.variation.value < |flag.variations|)
                  && (rule.serve.rollout.Some? ==> AddsUp(flag, rule.serve.rollout.value.variations)))
            && (forall i, j | 0 <= i < j < |cfg.rules| :: cfg.rules[i].id != cfg.rules[j].id)
            && (cfg.otherwise.rollout.Some? ==> AddsUp(flag, cfg.otherwise.rollout.value.variations))
  {
    RulesAcceptedIff(flag, cfg.rules, 0);
    if cfg.otherwise.rollout.Some? {
      RolloutAcceptedIff(flag, FALLTHROUGH, cfg.otherwise.rollout.value, 0);
    }
  }

  /** The rollouts of a configuration, under the names errors use for them. */
  ghost predicate HasRollout(cfg: FlagConfig, id: string, ro: Model.Rollout) {
    || (exists rule | rule in cfg.rules :: rule.id == id && rule.serve.rollout == Some(ro))
    || (id == FALLTHROUGH && cfg.otherwise.rollout == Some(ro))
  }

  /** What the error says is so. */
  ghost predicate IsSo(flag: Flag, cfg: FlagConfig, error: ConfigError) {
    match error
    case OffVariationOutOfRange(index) => cfg.offVariation == Some(index) && !Indexes(flag, index)
    case EmptyRuleId(i) => i < |cfg.rules| && cfg.rules[i].id == ""
    case DuplicateRuleId(id) => exists i, j | 0 <= i < j < |cfg.rules| :: cfg.rules[i].id == id && cfg.rules[j].id == id
    case RuleVariationOutOfRange(id, index) =>
      !Indexes(flag, index) && exists rule | rule in cfg.rules :: rule.id == id && rule.serve.variation == Some(index)
    case RolloutVariationOutOfRange(id, index) =>
      && !Indexes(flag, index)
      && exists ro, wv :: HasRollout(cfg, id, ro) && wv in ro.variations && wv.variation == index
    case WeightsDoNotSum(id, sum) =>
      sum != Rollout.TOTAL && exists ro :: HasRollout(cfg, id, ro) && Rollout.Cum(ro.variations, |ro.variations|) == sum
  }

  lemma {:induction false} RolloutErrorIsSo(flag: Flag, cfg: FlagConfig, id: string, ro: Model.Rollout, i: nat)
    requires HasRollout(cfg, id, ro) && i <= |ro.variations|
    requires RolloutErrorFrom(flag, id, ro, i).Some?
    ensures IsSo(flag, cfg, RolloutErrorFrom(flag, id, ro, i).value)
    decreases |ro.variations| - i
  {
    if i < |ro.variations| {
      if Indexes(flag, ro.variations[i].variation) {
        RolloutErrorIsSo(flag, cfg, id, ro, i + 1);
      } else {
        assert ro.variations[i] in ro.variations;
      }
    }
  }

  lemma RuleErrorIsSo(flag: Flag, cfg: FlagConfig, i: nat)
    requires i < |cfg.rules| && RuleError(flag, cfg.rules, i).Some?
    ensures IsSo(flag, cfg, RuleError(flag, cfg.rules, i).value)
  {
    var rule := cfg.rules[i];
    assert rule in cfg.rules;
    var badVariation := rule.serve.variation.Some? && !Indexes(flag, rule.serve.variation.value);
    if rule.id != "" && rule.id in Ids(cfg.rules[..i]) {
      var other :| other in cfg.rules[..i] && other.id == rule.id;
      var j :| 0 <= j < i && cfg.rules[..i][j] == other;
      assert cfg.rules[j].id == rule.id;
    } else if rule.id != "" && !badVariation {
      RolloutErrorIsSo(flag, cfg, rule.id, rule.serve.rollout.value, 0);
    }
  }

  lemma {:induction false} RulesErrorIsSo(flag: Flag, cfg: FlagConfig, i: nat)
    requires i <= |cfg.rules| && RulesErrorFrom(flag, cfg.rules, i).Some?
    ensures IsSo(flag, cfg, RulesErrorFrom(flag, cfg.rules, i).value)
    decreases |cfg.rules| - i
  {
    if RuleError(flag, cfg.rules, i).Some? {
      RuleErrorIsSo(flag, cfg, i);
    } else {
      RulesErrorIsSo(flag, cfg, i + 1);
    }
  }

  /** A configuration is turned down for a reason it really has. */
  lemma FirstErrorIsSo(flag: Flag, cfg: FlagConfig)
    requires FirstError(flag, cfg).Some?
    ensures IsSo(flag, cfg, FirstError(flag, cfg).value)
  {
    if cfg.offVariation.Some? && !Indexes(flag, cfg.offVariation.value) {
    } else if RulesErrorFrom(flag, cfg.rules, 0).Some? {
      RulesErrorIsSo(flag, cfg, 0);
    } else {
      RolloutErrorIsSo(flag, cfg, FALLTHROUGH, cfg.otherwise.rollout.value, 0);
    }
  }

  // ----- In which order -----

  predicate AllIndexed(flag: Flag, ws: seq<WeightedVariation>, i: nat)
    requires i <= |ws|
  {
    forall k | 0 <= k < i :: 0 <= ws[k].variation < |flag.variations|
  }

  /** A rollout's first index out of range; failing that, a sum other than 100000. */
  lemma {:induction false} RolloutErrorInOrder(flag: Flag, id: string, ro: Model.Rollout, i: nat, j: nat)
    requires i <= j <= |ro.variations| && AllIndexed(flag, ro.variations, j)
    ensures j < |ro.variations| && !(0 <= ro.variations[j].variation < |flag.variations|) ==>
              RolloutErrorFrom(flag, id, ro, i) == Some(RolloutVariationOutOfRange(id, ro.variations[j].variation))
    ensures j == |ro.variations| ==>
              var sum := Rollout.Cum(ro.variations, j);
              RolloutErrorFrom(flag, id, ro, i) == if sum == 100_000 then None else Some(WeightsDoNotSum(id, sum))
    decreases j - i
  {
    if i < j {
      RolloutErrorInOrder(flag, id, ro, i + 1, j);
    }
  }

  /** An off-variation out of range is reported before anything else. */
  lemma OffVariationFirst(flag: Flag, cfg: FlagConfig, index: int)
    requires cfg.offVariation == Some(index) && !(0 <= index < |flag.variations|)
    ensures FirstError(flag, cfg) == Some(OffVariationOutOfRange(index))
  {
  }

  /** Then the first rule that is faulty: for a missing id, else for one that an earlier rule
      has, else for its variation, else for its rollout. */
  lemma FirstFaultyRule(flag: Flag, cfg: FlagConfig, r: nat)
    requires cfg.offVariation.Some? ==> 0 <= cfg.offVariation.value < |flag.variations|
    requires r < |cfg.rules|
    requires forall k | 0 <= k < r ::
               AcceptedRule(flag, cfg.rules[k]) && forall j | 0 <= j < k :: cfg.rules[j].id != cfg.rules[k].id
    ensures
      var rule, error := cfg.rules[r], FirstError(flag, cfg);
      if rule.id == "" then error == Some(EmptyRuleId(r))
      else if exists j | 0 <= j < r :: cfg.rules[j].id == rule.id then error == Some(DuplicateRuleId(rule.id))
      else if rule.serve.variation.Some? && !(0 <= rule.serve.variation.value < |flag.variations|) then
        error == Some(RuleVariationOutOfRange(rule.id, rule.serve.variation.value))
      else rule.serve.rollout.Some? && RolloutErrorFrom(flag, rule.id, rule.serve.rollout.value, 0).Some? ==>
        error == RolloutErrorFrom(flag, rule.id, rule.serve.rollout.value, 0)
  {
    SkipAccepted(flag, cfg.rules, r, 0);
    var rules := cfg.rules;
    forall j | 0 <= j < r ensures rules[j].id in Ids(rules[..r]) {
      assert rules[..r][j] in rules[..r];
    }
    if rules[r].id in Ids(rules[..r]) {
      var other :| other in rules[..r] && other.id == rules[r].id;
      var j :| 0 <= j < r && rules[..r][j] == other;
      assert rules[j].id == rules[r].id;
    }
    hide RolloutErrorFrom, Ids, AcceptedRule;
  }

  lemma {:induction false} SkipAccepted(flag: Flag, rules: seq<Rule>, r: nat, i: nat)
    requires i <= r < |rules|
    requires forall k | 0 <= k < r ::
               AcceptedRule(flag, rules[k]) && forall j | 0 <= j < k :: rules[j].id != rules[k].id
    ensures RulesErrorFrom(flag, rules, i) == RulesErrorFrom(flag, rules, r)
    decreases r - i
  {
    if i < r {
      RuleAcceptedIff(flag, rules, i);
      SkipAccepted(flag, rules, r, i + 1);
      hide RuleError, AcceptedRule;
    }
  }

  /** Under which name the rollout of the fallthrough is turned down. */
  lemma FallthroughError(flag: Flag, cfg: FlagConfig, ro: Model.Rollout)
    requires cfg.offVariation.None? && cfg.rules == [] && cfg.otherwise.rollout == Some(ro)
    ensures
      var sum := Rollout.Cum(ro.variations, |ro.variations|);
      && (ro.variations != [] && !(0 <= ro.variations[0].variation < |flag.variations|) ==>
            FirstError(flag, cfg) == Some(RolloutVariationOutOfRange("fallthrough", ro.variations[0].variation)))
      && (ro.variations == [] ==> FirstError(flag, cfg) == Some(WeightsDoNotSum("fallthrough", 0)))
  {
  }

  // ----- What acceptance buys -----

  predicate Payload(vr: VariationOrRollout) {
    vr.variation.Some? || vr.rollout.Some?
  }

  /** The deciding step is one of those validation leaves unchecked, and is broken. */
  predicate Unchecked(flag: Flag, cfg: FlagConfig, d: Decision)
    requires InRange(cfg, d)
  {
    match d
    case Targeted(t) => !Indexes(flag, cfg.targets[t].variation)
    case Ruled(r) => !Payload(cfg.rules[r].serve)
    case FellThrough =>
      || !Payload(cfg.otherwise)
      || (cfg.otherwise.variation.Some? && !Indexes(flag, cfg.otherwise.variation.value))
    case _ => false
  }

  lemma ResolvedMalformedIff(w: World, flag: Flag, cfg: FlagConfig, vr: VariationOrRollout, reason: Reason)
    requires vr.rollout.Some? ==> AcceptedRollout(flag, vr.rollout.value)
    requires reason.errorKind.None?
    ensures
      var result := Resolved(w, flag, cfg, vr, reason);
      var broken := !Payload(vr) || (vr.variation.Some? && !Indexes(flag, vr.variation.value));
      && (result.index.None? <==> broken)
      && result.reason.errorKind == if broken then Some(MalformedFlag) else None
  {
    if vr.variation.None? && vr.rollout.Some? && vr.rollout.value.variations != [] {
      var ro := vr.rollout.value;
      var n := GoPrefix(w, ro.bucketBy, flag.key, cfg.salt, ro.seed);
      assert ro.variations[Rollout.Served(ro.variations, n)] in ro.variations;
    }
  }

  /** An accepted configuration is reported as malformed exactly when the deciding step is a
      target or a fixed fallthrough out of range, or a rule or fallthrough that serves
      nothing. It serves no variation in those cases, and for want of an off-variation. */
  lemma MalformedIff(w: World, o: Clauses.Order, flag: Flag, cfg: FlagConfig)
    requires Clauses.Acyclic(w.store, o) && Accepted(flag, cfg)
    ensures
      var d, result := Decided(w, o, flag, cfg, []), Result(w, o, flag, cfg, []);
      && (result.reason.errorKind == Some(MalformedFlag) <==> Unchecked(flag, cfg, d))
      && (result.index.None? <==>
            Unchecked(flag, cfg, d) || (cfg.offVariation.None? && (d.TurnedOff? || d.Blocked?)))
  {
    var d := Decided(w, o, flag, cfg, []);
    match d
    case Ruled(r) =>
      assert cfg.rules[r] in cfg.rules;
      assert AcceptedRule(flag, cfg.rules[r]);
      ResolvedMalformedIff(w, flag, cfg, cfg.rules[r].serve, Credits(r, cfg.rules[r].id));
    case FellThrough => ResolvedMalformedIff(w, flag, cfg, cfg.otherwise, Because(Fallthrough));
    case _ =>
  }

  /** Nothing is left to break at the unchecked steps. */
  predicate Complete(flag: Flag, cfg: FlagConfig) {
    && (forall t | t in cfg.targets :: Indexes(flag, t.variation))
    && (forall rule | rule in cfg.rules :: Payload(rule.serve))
    && Payload(cfg.otherwise)
    && (cfg.otherwise.variation.Some? ==> Indexes(flag, cfg.otherwise.variation.value))
  }

  /** Accepted and complete: no context and no store ever make the flag malformed, and it
      serves no variation only when it has no off-variation to serve. */
  lemma AcceptedAndCompleteNeverMalformed(w: World, o: Clauses.Order, flag: Flag, cfg: FlagConfig)
    requires Clauses.Acyclic(w.store, o) && Accepted(flag, cfg) && Complete(flag, cfg)
    ensures Result(w, o, flag, cfg, []).reason.errorKind.None?
    ensures Result(w, o, flag, cfg, []).index.None? ==> cfg.offVariation.None?
  {
    MalformedIff(w, o, flag, cfg);
    var d := Decided(w, o, flag, cfg, []);
    match d
    case Targeted(t) => assert cfg.targets[t] in cfg.targets;
    case Ruled(r) =>
      assert cfg.rules[r] in cfg.rules;
      ResolvedMalformedIff(w, flag, cfg, cfg.rules[r].serve, Credits(r, cfg.rules[r].id));
    case FellThrough => ResolvedMalformedIff(w, flag, cfg, cfg.otherwise, Because(Fallthrough));
    case _ =>
  }

  /** Weights may be negative as long as they add up: then a position can be shut out. */
  lemma NegativeWeightShutsOut(flag: Flag, first: int, second: int, excess: int, n: Rollout.Prefix)
    requires Indexes(flag, first) && Indexes(flag, second) && excess > 0
    ensures
      var ws := [WeightedVariation(first, Rollout.TOTAL + excess), WeightedVariation(second, -excess)];
      && AcceptedRollout(flag, Model.Rollout(ws, "", None, false))
      && Rollout.Served(ws, n) == 0
  {
    var ws := [WeightedVariation(first, Rollout.TOTAL + excess), WeightedVariation(second, -excess)];
    assert Rollout.Cum(ws, 0) == 0;
    assert Rollout.Cum(ws, 1) == Rollout.TOTAL + excess;
    assert Rollout.Cum(ws, 2) == Rollout.TOTAL;
    assert n * Rollout.TOTAL <= Rollout.SCALE * Rollout.TOTAL < (Rollout.TOTAL + excess) * Rollout.SCALE;
    assert Rollout.Below(n, Rollout.TOTAL + excess);
  }
}
