/** The third implementation of evaluation: `Explain` records a trace of every step it takes
    (internal/eval/explain.go). */
module Explain {
  import opened Model
  import opened Bucketing
  import opened GoEval
  import Clauses
  import Decimal
  import Guards
  import Cycles

  type Order = Clauses.Order

  datatype StepKind = OffCheck | PrerequisiteCheck | TargetCheck | RuleCheck | FallthroughCheck

  datatype ClauseResult = ClauseResult(clause: Clause, matched: bool)

  datatype TraceStep = TraceStep(
    kind: StepKind,
    matched: bool,
    ruleIndex: Option<nat>,
    ruleId: string,
    prerequisiteKey: string,
    clauseResults: seq<ClauseResult>)

  datatype Trace = Trace(steps: seq<TraceStep>, result: EvalResult)

  function Step(kind: StepKind, matched: bool): TraceStep {
    TraceStep(kind, matched, None, "", "", [])
  }

  function PrerequisiteStep(p: Prerequisite, matched: bool): TraceStep {
    Step(PrerequisiteCheck, matched).(prerequisiteKey := p.flagKey)
  }

  // ----- What the trace is -----

  /** Every clause holds; unlike in `Evaluate`, a rule without clauses matches. */
  ghost predicate AllHold(w: World, o: Order, rule: Rule)
    requires Clauses.Acyclic(w.store, o)
  {
    forall c | c in rule.clauses :: Clauses.RefersBelow(w.store, o, c, o.top) && Clauses.ClauseHolds(w, o, c, o.top)
  }

  ghost function FirstAllHolding(w: World, o: Order, rules: seq<Rule>, i: nat): (r: nat)
    requires Clauses.Acyclic(w.store, o) && i <= |rules|
    ensures i <= r <= |rules|
    ensures forall j | i <= j < r :: !AllHold(w, o, rules[j])
    ensures r < |rules| ==> AllHold(w, o, rules[r])
    decreases |rules| - i
  {
    if i == |rules| || AllHold(w, o, rules[i]) then i else FirstAllHolding(w, o, rules, i + 1)
  }

  /** Each prerequisite is evaluated from scratch, with nothing on its path. */
  ghost function Explained(w: World, o: Order, cfg: FlagConfig): (d: Decision)
    requires Clauses.Acyclic(w.store, o)
    ensures InRange(cfg, d)
  {
    if !cfg.on then TurnedOff
    else
      var p := FirstUnmet(w, o, cfg.prerequisites, [], 0);
      if p < |cfg.prerequisites| then Blocked(p)
      else
        var t := FirstTarget(cfg.targets, w.ctx.key, 0);
        if t < |cfg.targets| then Targeted(t)
        else
          var r := FirstAllHolding(w, o, cfg.rules, 0);
          if r < |cfg.rules| then Ruled(r) else FellThrough
  }

  ghost function ClauseResults(w: World, o: Order, clauses: seq<Clause>): seq<ClauseResult>
    requires Clauses.Acyclic(w.store, o)
  {
    if clauses == [] then []
    else
      var c := clauses[|clauses| - 1];
      Clauses.TopBelow(w.store, o, c);
      ClauseResults(w, o, clauses[..|clauses| - 1]) + [ClauseResult(c, Clauses.ClauseHolds(w, o, c, o.top))]
  }

  ghost function RuleStep(w: World, o: Order, cfg: FlagConfig, r: nat, matched: bool): TraceStep
    requires Clauses.Acyclic(w.store, o) && r < |cfg.rules|
  {
    TraceStep(RuleCheck, matched, Some(r), cfg.rules[r].id, "", ClauseResults(w, o, cfg.rules[r].clauses))
  }

  /** The first p prerequisites, all met. */
  function PassedPrerequisites(ps: seq<Prerequisite>, p: nat): (steps: seq<TraceStep>)
    requires p <= |ps|
    ensures |steps| == p && forall s | s in steps :: !s.matched
  {
    if p == 0 then [] else PassedPrerequisites(ps, p - 1) + [PrerequisiteStep(ps[p - 1], false)]
  }

  /** The first r rules, none of them matching. */
  ghost function PassedRules(w: World, o: Order, cfg: FlagConfig, r: nat): (steps: seq<TraceStep>)
    requires Clauses.Acyclic(w.store, o) && r <= |cfg.rules|
    ensures |steps| == r && forall s | s in steps :: !s.matched
  {
    if r == 0 then [] else PassedRules(w, o, cfg, r - 1) + [RuleStep(w, o, cfg, r - 1, false)]
  }

  /** The steps before the one that decides. */
  ghost function Passed(w: World, o: Order, cfg: FlagConfig, d: Decision): (steps: seq<TraceStep>)
    requires Clauses.Acyclic(w.store, o) && InRange(cfg, d)
    ensures forall s | s in steps :: !s.matched
  {
    match d
    case TurnedOff => []
    case Cyclic => []
    case Blocked(p) => [Step(OffCheck, false)] + PassedPrerequisites(cfg.prerequisites, p)
    case Targeted(_) => [Step(OffCheck, false)] + PassedPrerequisites(cfg.prerequisites, |cfg.prerequisites|)
    case Ruled(r) =>
      [Step(OffCheck, false)] + PassedPrerequisites(cfg.prerequisites, |cfg.prerequisites|)
      + [Step(TargetCheck, false)] + PassedRules(w, o, cfg, r)
    case FellThrough =>
      [Step(OffCheck, false)] + PassedPrerequisites(cfg.prerequisites, |cfg.prerequisites|)
      + [Step(TargetCheck, false)] + PassedRules(w, o, cfg, |cfg.rules|)
  }

  ghost function Deciding(w: World, o: Order, cfg: FlagConfig, d: Decision): (step: TraceStep)
    requires Clauses.Acyclic(w.store, o) && InRange(cfg, d)
    ensures step.matched
  {
    match d
    case TurnedOff => Step(OffCheck, true)
    case Cyclic => Step(OffCheck, true)
    case Blocked(p) => PrerequisiteStep(cfg.prerequisites[p], true)
    case Targeted(_) => Step(TargetCheck, true)
    case Ruled(r) => RuleStep(w, o, cfg, r, true)
    case FellThrough => Step(FallthroughCheck, true)
  }

  ghost function TraceOf(w: World, o: Order, flag: Flag, cfg: FlagConfig): Trace
    requires Clauses.Acyclic(w.store, o)
  {
    var d := Explained(w, o, cfg);
    Trace(Passed(w, o, cfg, d) + [Deciding(w, o, cfg, d)], Outcome(w, flag, cfg, d))
  }

  // ----- The code -----

  /** The prerequisite loop: the steps it appends, and whether one of them decides. */
  method ExplainPrerequisites(w: World, ghost o: Order, ps: seq<Prerequisite>, steps: seq<TraceStep>)
    returns (extended: seq<TraceStep>, p: nat)
    requires Clauses.Acyclic(w.store, o)
    ensures p == FirstUnmet(w, o, ps, [], 0)
    ensures extended == steps + PassedPrerequisites(ps, p) + if p < |ps| then [PrerequisiteStep(ps[p], true)] else []
  {
    hide Clauses.Acyclic, Outcome, Decided;
    extended := steps;
    for i := 0 to |ps|
      invariant FirstUnmet(w, o, ps, [], 0) == FirstUnmet(w, o, ps, [], i)
      invariant extended == steps + PassedPrerequisites(ps, i)
    {
      if ps[i].flagKey !in w.store.flags || !w.store.flags[ps[i].flagKey].config.on {
        extended := extended + [PrerequisiteStep(ps[i], true)];
        return extended, i;
      }
      var entry := w.store.flags[ps[i].flagKey];
      var served := Evaluate(w, o, entry.flag, entry.config);
      if served.index != Some(ps[i].variation) {
        extended := extended + [PrerequisiteStep(ps[i], true)];
        return extended, i;
      }
      extended := extended + [PrerequisiteStep(ps[i], false)];
    }
    return extended, |ps|;
  }

  method ExplainClauses(w: World, ghost o: Order, rule: Rule) returns (results: seq<ClauseResult>, allMatch: bool)
    requires Clauses.Acyclic(w.store, o)
    ensures results == ClauseResults(w, o, rule.clauses)
    ensures allMatch == AllHold(w, o, rule)
  {
    results, allMatch := [], true;
    for i := 0 to |rule.clauses|
      invariant results == ClauseResults(w, o, rule.clauses[..i])
      invariant allMatch == forall c | c in rule.clauses[..i] ::
                  Clauses.RefersBelow(w.store, o, c, o.top) && Clauses.ClauseHolds(w, o, c, o.top)
    {
      Clauses.TopBelow(w.store, o, rule.clauses[i]);
      assert rule.clauses[..i + 1][..i] == rule.clauses[..i];
      var matched := Clauses.ClauseMatches(w, o, rule.clauses[i], o.top);
      results := results + [ClauseResult(rule.clauses[i], matched)];
      if !matched {
        allMatch := false;
      }
    }
    assert rule.clauses[..|rule.clauses|] == rule.clauses;
  }

  /** The rule loop. */
  method ExplainRules(w: World, ghost o: Order, cfg: FlagConfig, steps: seq<TraceStep>)
    returns (extended: seq<TraceStep>, r: nat)
    requires Clauses.Acyclic(w.store, o)
    ensures r == FirstAllHolding(w, o, cfg.rules, 0)
    ensures extended == steps + PassedRules(w, o, cfg, r) + if r < |cfg.rules| then [RuleStep(w, o, cfg, r, true)] else []
  {
    extended := steps;
    for i := 0 to |cfg.rules|
      invariant FirstAllHolding(w, o, cfg.rules, 0) == FirstAllHolding(w, o, cfg.rules, i)
      invariant extended == steps + PassedRules(w, o, cfg, i)
    {
      var results, allMatch := ExplainClauses(w, o, cfg.rules[i]);
      extended := extended + [TraceStep(RuleCheck, allMatch, Some(i), cfg.rules[i].id, "", results)];
      if allMatch {
        return extended, i;
      }
    }
    return extended, |cfg.rules|;
  }

  /** The rules and the fallthrough. */
  method ExplainServing(w: World, ghost o: Order, flag: Flag, cfg: FlagConfig, steps: seq<TraceStep>)
    returns (trace: Trace)
    requires Clauses.Acyclic(w.store, o)
    ensures
      var r := FirstAllHolding(w, o, cfg.rules, 0);
      var d := if r < |cfg.rules| then Ruled(r) else FellThrough;
      trace == Trace(steps + PassedRules(w, o, cfg, r) + [Deciding(w, o, cfg, d)], Outcome(w, flag, cfg, d))
  {
    var extended, index := ExplainRules(w, o, cfg, steps);
    if index < |cfg.rules| {
      var rule := cfg.rules[index];
      var served := ResolveVariationOrRollout(w, flag, cfg, rule.serve, Credits(index, rule.id));
      return Trace(extended, served);
    }
    extended := extended + [Step(FallthroughCheck, true)];
    var otherwise := ResolveVariationOrRollout(w, flag, cfg, cfg.otherwise, Because(Fallthrough));
    return Trace(extended, otherwise);
  }

  method ExplainFlag(w: World, ghost o: Order, flag: Flag, cfg: FlagConfig) returns (trace: Trace)
    requires Clauses.Acyclic(w.store, o)
    ensures trace == TraceOf(w, o, flag, cfg)
  {
    hide PassedPrerequisites, PassedRules, FirstUnmet, FirstTarget, FirstAllHolding, Clauses.Acyclic;
    if !cfg.on {
      return Trace([Step(OffCheck, true)], OffResult(flag, cfg, Because(Off)));
    }
    var steps := [Step(OffCheck, false)];

    var unmet;
    steps, unmet := ExplainPrerequisites(w, o, cfg.prerequisites, steps);
    if unmet < |cfg.prerequisites| {
      return Trace(steps, OffResult(flag, cfg, Blames(cfg.prerequisites[unmet].flagKey)));
    }

    assert steps == [Step(OffCheck, false)] + PassedPrerequisites(cfg.prerequisites, |cfg.prerequisites|);
    var target := MatchingTarget(cfg.targets, w.ctx.key);
    if target < |cfg.targets| {
      steps := steps + [Step(TargetCheck, true)];
      return Trace(steps, VariationResult(flag, cfg.targets[target].variation, Because(TargetMatch)));
    }
    steps := steps + [Step(TargetCheck, false)];

    PassedServing(w, o, cfg, FirstAllHolding(w, o, cfg.rules, 0));
    trace := ExplainServing(w, o, flag, cfg, steps);
  }

  lemma PassedServing(w: World, o: Order, cfg: FlagConfig, r: nat)
    requires Clauses.Acyclic(w.store, o) && r <= |cfg.rules|
    ensures Passed(w, o, cfg, if r < |cfg.rules| then Ruled(r) else FellThrough) ==
            [Step(OffCheck, false)] + PassedPrerequisites(cfg.prerequisites, |cfg.prerequisites|)
            + [Step(TargetCheck, false)] + PassedRules(w, o, cfg, r)
  {
  }

  // ----- What traces say -----

  /** In every trace exactly one step is marked as matched, and it is the last. */
  lemma OneStepMatches(w: World, o: Order, flag: Flag, cfg: FlagConfig)
    requires Clauses.Acyclic(w.store, o)
    ensures
      var steps := TraceOf(w, o, flag, cfg).steps;
      && steps != []
      && forall i | 0 <= i < |steps| :: steps[i].matched <==> i == |steps| - 1
  {
    var d := Explained(w, o, cfg);
    var passed := Passed(w, o, cfg, d);
    forall i | 0 <= i < |passed| ensures !passed[i].matched {
      assert passed[i] in passed;
    }
  }

  lemma {:induction false} PassedPrerequisiteAt(ps: seq<Prerequisite>, p: nat, i: nat)
    requires i < p <= |ps|
    ensures PassedPrerequisites(ps, p)[i] == TraceStep(PrerequisiteCheck, false, None, "", ps[i].flagKey, [])
  {
    if i < p - 1 {
      PassedPrerequisiteAt(ps, p - 1, i);
    }
  }

  /** A rule's step: its position, its id and an answer for every one of its clauses. */
  ghost predicate RuleRecorded(w: World, o: Order, cfg: FlagConfig, r: nat, matched: bool, step: TraceStep)
    requires Clauses.Acyclic(w.store, o) && r < |cfg.rules|
  {
    var clauses := cfg.rules[r].clauses;
    && step == TraceStep(RuleCheck, matched, Some(r), cfg.rules[r].id, "", step.clauseResults)
    && |step.clauseResults| == |clauses|
    && forall j | 0 <= j < |clauses| ::
         && Clauses.RefersBelow(w.store, o, clauses[j], o.top)
         && step.clauseResults[j] == ClauseResult(clauses[j], Clauses.ClauseHolds(w, o, clauses[j], o.top))
  }

  lemma {:induction false} ClauseResultAt(w: World, o: Order, clauses: seq<Clause>, j: nat)
    requires Clauses.Acyclic(w.store, o) && j < |clauses|
    ensures |ClauseResults(w, o, clauses)| == |clauses| && Clauses.RefersBelow(w.store, o, clauses[j], o.top)
    ensures ClauseResults(w, o, clauses)[j] == ClauseResult(clauses[j], Clauses.ClauseHolds(w, o, clauses[j], o.top))
  {
    Clauses.TopBelow(w.store, o, clauses[j]);
    var init := clauses[..|clauses| - 1];
    hide Clauses.Acyclic, Clauses.ClauseHolds, Clauses.RefersBelow;
    if j < |init| {
      ClauseResultAt(w, o, init, j);
    } else if init != [] {
      ClauseResultAt(w, o, init, 0);
    }
  }

  lemma RuleStepRecords(w: World, o: Order, cfg: FlagConfig, r: nat, matched: bool)
    requires Clauses.Acyclic(w.store, o) && r < |cfg.rules|
    ensures RuleRecorded(w, o, cfg, r, matched, RuleStep(w, o, cfg, r, matched))
  {
    var clauses := cfg.rules[r].clauses;
    forall j | 0 <= j < |clauses|
      ensures |ClauseResults(w, o, clauses)| == |clauses| && Clauses.RefersBelow(w.store, o, clauses[j], o.top)
      ensures ClauseResults(w, o, clauses)[j] == ClauseResult(clauses[j], Clauses.ClauseHolds(w, o, clauses[j], o.top))
    {
      ClauseResultAt(w, o, clauses, j);
    }
    hide Clauses.Acyclic, Clauses.ClauseHolds, Clauses.RefersBelow;
  }

  lemma {:induction false} PassedRuleAt(w: World, o: Order, cfg: FlagConfig, r: nat, i: nat)
    requires Clauses.Acyclic(w.store, o) && i < r <= |cfg.rules|
    ensures PassedRules(w, o, cfg, r)[i] == RuleStep(w, o, cfg, i, false)
  {
    hide RuleStep, Clauses.Acyclic;
    if i < r - 1 {
      PassedRuleAt(w, o, cfg, r - 1, i);
    }
  }

  /** How many prerequisites, and how many rules, the trace records. */
  function Prerequisites(cfg: FlagConfig, d: Decision): nat {
    match d
    case TurnedOff => 0
    case Blocked(p) => p + 1
    case _ => |cfg.prerequisites|
  }

  function Rules(cfg: FlagConfig, d: Decision): nat {
    match d
    case Ruled(r) => r + 1
    case FellThrough => |cfg.rules|
    case _ => 0
  }

  /** What the steps of a trace record if d decides. */
  ghost predicate Records(w: World, o: Order, cfg: FlagConfig, d: Decision, steps: seq<TraceStep>)
    requires Clauses.Acyclic(w.store, o) && InRange(cfg, d)
  {
    var ps, rs := Prerequisites(cfg, d), Rules(cfg, d);
    && |steps| == 1 + ps + (if d.TurnedOff? || d.Blocked? then 0 else 1) + rs + (if d.FellThrough? then 1 else 0)
    && steps[0] == TraceStep(OffCheck, d.TurnedOff?, None, "", "", [])
    && (forall i | 0 <= i < ps ::
          steps[1 + i] == TraceStep(PrerequisiteCheck, d == Blocked(i), None, "", cfg.prerequisites[i].flagKey, []))
    && (!d.TurnedOff? && !d.Blocked? ==> steps[1 + ps] == TraceStep(TargetCheck, d.Targeted?, None, "", "", []))
    && (forall i | 0 <= i < rs :: RuleRecorded(w, o, cfg, i, d == Ruled(i), steps[2 + ps + i]))
    && (d.FellThrough? ==> steps[2 + ps + rs] == TraceStep(FallthroughCheck, true, None, "", "", []))
  }

  lemma PassedPrerequisitesTell(ps: seq<Prerequisite>, p: nat)
    requires p <= |ps|
    ensures forall i | 0 <= i < p ::
              PassedPrerequisites(ps, p)[i] == TraceStep(PrerequisiteCheck, false, None, "", ps[i].flagKey, [])
  {
    forall i | 0 <= i < p
      ensures PassedPrerequisites(ps, p)[i] == TraceStep(PrerequisiteCheck, false, None, "", ps[i].flagKey, [])
    {
      PassedPrerequisiteAt(ps, p, i);
    }
  }

  lemma PassedRulesTell(w: World, o: Order, cfg: FlagConfig, r: nat)
    requires Clauses.Acyclic(w.store, o) && r <= |cfg.rules|
    ensures forall i | 0 <= i < r :: RuleRecorded(w, o, cfg, i, false, PassedRules(w, o, cfg, r)[i])
  {
    hide RuleRecorded, RuleStep, Clauses.Acyclic;
    forall i | 0 <= i < r ensures RuleRecorded(w, o, cfg, i, false, PassedRules(w, o, cfg, r)[i]) {
      PassedRuleAt(w, o, cfg, r, i);
      RuleStepRecords(w, o, cfg, i, false);
    }
  }

  lemma Layout<T>(a: T, p: seq<T>, rest: seq<T>)
    ensures
      var s := [a] + p + rest;
      && |s| == 1 + |p| + |rest| && s[0] == a
      && (forall i | 0 <= i < |p| :: s[1 + i] == p[i])
      && (forall i | 0 <= i < |rest| :: s[1 + |p| + i] == rest[i])
  {
  }

  lemma BlockedTrace(w: World, o: Order, cfg: FlagConfig, p: nat)
    requires Clauses.Acyclic(w.store, o) && p < |cfg.prerequisites|
    ensures Records(w, o, cfg, Blocked(p), Passed(w, o, cfg, Blocked(p)) + [Deciding(w, o, cfg, Blocked(p))])
  {
    PassedPrerequisitesTell(cfg.prerequisites, p);
    var last := PrerequisiteStep(cfg.prerequisites[p], true);
    Layout(Step(OffCheck, false), PassedPrerequisites(cfg.prerequisites, p), [last]);
    hide PassedPrerequisites, PassedRules, RuleStep, RuleRecorded, Clauses.Acyclic;
  }

  lemma TargetedTrace(w: World, o: Order, cfg: FlagConfig, t: nat)
    requires Clauses.Acyclic(w.store, o) && t < |cfg.targets|
    ensures Records(w, o, cfg, Targeted(t), Passed(w, o, cfg, Targeted(t)) + [Deciding(w, o, cfg, Targeted(t))])
  {
    var n := |cfg.prerequisites|;
    PassedPrerequisitesTell(cfg.prerequisites, n);
    Layout(Step(OffCheck, false), PassedPrerequisites(cfg.prerequisites, n), [Step(TargetCheck, true)]);
    hide PassedPrerequisites, PassedRules, RuleStep, RuleRecorded, Clauses.Acyclic;
  }

  /** The rules' steps, the target's step before and the deciding step behind them. */
  lemma LongTrace(w: World, o: Order, cfg: FlagConfig, d: Decision, r: nat)
    requires Clauses.Acyclic(w.store, o) && r <= |cfg.rules|
    requires d == if r < |cfg.rules| then Ruled(r) else FellThrough
    ensures Records(w, o, cfg, d, Passed(w, o, cfg, d) + [Deciding(w, o, cfg, d)])
  {
    var n, target, last := |cfg.prerequisites|, Step(TargetCheck, false), Deciding(w, o, cfg, d);
    var ps, rs := PassedPrerequisites(cfg.prerequisites, n), PassedRules(w, o, cfg, r);
    var steps := [Step(OffCheck, false)] + ps + ([target] + rs + [last]);
    PassedPrerequisitesTell(cfg.prerequisites, n);
    PassedRulesTell(w, o, cfg, r);
    if r < |cfg.rules| {
      RuleStepRecords(w, o, cfg, r, true);
    }
    assert Passed(w, o, cfg, d) + [last] == steps by {
      PassedServing(w, o, cfg, r);
      hide Passed, PassedPrerequisites, PassedRules;
    }
    hide PassedPrerequisites, PassedRules, RuleStep, RuleRecorded, Clauses.Acyclic, Passed;
    Layout(Step(OffCheck, false), ps, [target] + rs + [last]);
    Layout(target, rs, [last]);
    LongRecords(w, o, cfg, d, r, steps, ps, rs, last);
  }

  lemma LongRecords(w: World, o: Order, cfg: FlagConfig, d: Decision, r: nat, steps: seq<TraceStep>,
                    ps: seq<TraceStep>, rs: seq<TraceStep>, last: TraceStep)
    requires Clauses.Acyclic(w.store, o) && r <= |cfg.rules| && d == if r < |cfg.rules| then Ruled(r) else FellThrough
    requires |ps| == |cfg.prerequisites| && |rs| == r && |steps| == 3 + |ps| + r
    requires steps[0] == Step(OffCheck, false) && steps[1 + |ps|] == Step(TargetCheck, false)
    requires steps[2 + |ps| + r] == last
    requires forall i | 0 <= i < |ps| :: steps[1 + i] == ps[i]
    requires forall i | 0 <= i < |ps| ::
               ps[i] == TraceStep(PrerequisiteCheck, false, None, "", cfg.prerequisites[i].flagKey, [])
    requires forall i | 0 <= i < r :: steps[2 + |ps| + i] == rs[i] && RuleRecorded(w, o, cfg, i, false, rs[i])
    requires if r < |cfg.rules| then RuleRecorded(w, o, cfg, r, true, last) else last == Step(FallthroughCheck, true)
    ensures Records(w, o, cfg, d, steps)
  {
    hide RuleRecorded, Clauses.Acyclic;
    var n := |ps|;
    forall i | 0 <= i < n
      ensures steps[1 + i] == TraceStep(PrerequisiteCheck, d == Blocked(i), None, "", cfg.prerequisites[i].flagKey, [])
    {
      assert steps[1 + i] == ps[i];
    }
    forall i | 0 <= i < Rules(cfg, d) ensures RuleRecorded(w, o, cfg, i, d == Ruled(i), steps[2 + n + i]) {
      if i < r {
        assert steps[2 + n + i] == rs[i];
      }
    }
  }

  /** The trace, step by step. First whether the flag is off; if it is not, every prerequisite
      up to the first unmet one under its key; past those, whether a target matched; past that,
      every rule up to the first that matched, with an answer for each clause; and past those
      the fallthrough. Nothing else. */
  lemma TraceTells(w: World, o: Order, flag: Flag, cfg: FlagConfig)
    requires Clauses.Acyclic(w.store, o)
    ensures Records(w, o, cfg, Explained(w, o, cfg), TraceOf(w, o, flag, cfg).steps)
    ensures Explained(w, o, cfg).TurnedOff? <==> !cfg.on
  {
    var d := Explained(w, o, cfg);
    assert d != Cyclic && (d.TurnedOff? <==> !cfg.on);
    hide Explained, Clauses.Acyclic, Outcome;
    match d
    case TurnedOff =>
    case Blocked(p) => BlockedTrace(w, o, cfg, p);
    case Targeted(t) => TargetedTrace(w, o, cfg, t);
    case Ruled(r) => LongTrace(w, o, cfg, d, r);
    case FellThrough => LongTrace(w, o, cfg, d, |cfg.rules|);
    hide Records, Passed, Deciding;
  }

  /** The rule without clauses would be reached. */
  predicate Reaches(d: Decision, rule: nat) {
    match d
    case Ruled(r) => rule < r
    case FellThrough => true
    case _ => false
  }

  // ----- The prerequisites -----

  /** Following prerequisites from `ps` through flags that are on, and round no cycle twice,
      never leads to the flag `key` and over at most `room` flags in a row. Cycles among the
      prerequisites do no harm. */
  ghost predicate Fits(store: Store, key: string, ps: seq<Prerequisite>, path: seq<string>, room: nat) {
    forall p | p in ps :: FitsOne(store, key, p, path, room)
  }

  ghost predicate FitsOne(store: Store, key: string, p: Prerequisite, path: seq<string>, room: nat)
    decreases room
  {
    p.flagKey in store.flags && store.flags[p.flagKey].config.on ==>
      && store.flags[p.flagKey].flag.key == p.flagKey && p.flagKey != key
      && (p.flagKey in path ||
          (room > 0 && forall q | q in store.flags[p.flagKey].config.prerequisites ::
             FitsOne(store, key, q, path + [p.flagKey], room - 1)))
  }

  /** Then it makes no difference to a prerequisite whether `key` is on its path. */
  lemma {:induction false} MetWithout(w: World, o: Order, key: string, p: Prerequisite, path: seq<string>, room: nat)
    requires Clauses.Acyclic(w.store, o) && |path| + room == MAX_PREREQUISITE_DEPTH
    requires FitsOne(w.store, key, p, path, room)
    ensures Met(w, o, p, [key] + path) <==> Met(w, o, p, path)
    decreases room, 1
  {
    if p.flagKey in w.store.flags && w.store.flags[p.flagKey].config.on && p.flagKey !in path {
      var e := w.store.flags[p.flagKey];
      assert p.flagKey !in [key] + path;
      assert [key] + path + [p.flagKey] == [key] + (path + [p.flagKey]);
      FirstUnmetWithout(w, o, key, e.config.prerequisites, path + [p.flagKey], room - 1, 0);
    }
  }

  lemma {:induction false} FirstUnmetWithout(w: World, o: Order, key: string, ps: seq<Prerequisite>, path: seq<string>,
                                             room: nat, i: nat)
    requires Clauses.Acyclic(w.store, o) && |path| + room == MAX_PREREQUISITE_DEPTH && i <= |ps|
    requires Fits(w.store, key, ps, path, room)
    ensures FirstUnmet(w, o, ps, [key] + path, i) == FirstUnmet(w, o, ps, path, i)
    decreases room, 2, |ps| - i
  {
    if i < |ps| {
      assert ps[i] in ps;
      MetWithout(w, o, key, ps[i], path, room);
      FirstUnmetWithout(w, o, key, ps, path, room, i + 1);
    }
  }

  /** Acyclic prerequisites at most 20 deep fit, in particular. */
  lemma {:induction false} RankedFits(store: Store, rank: string -> nat, key: string, ps: seq<Prerequisite>,
                                      path: seq<string>, r: nat, room: nat)
    requires Guards.Ranked(store, rank) && Guards.Below(store, rank, ps, r)
    requires r <= rank(key) && r <= room
    ensures Fits(store, key, ps, path, room)
    decreases room
  {
    forall p | p in ps && p.flagKey in store.flags && store.flags[p.flagKey].config.on
      ensures FitsOne(store, key, p, path, room)
    {
      RankedFits(store, rank, key, store.flags[p.flagKey].config.prerequisites, path + [p.flagKey],
                 rank(p.flagKey), room - 1);
    }
  }

  // ----- Agreement with `Evaluate` -----

  /** Where the flag is not reached from its own prerequisites and there is room for them below
      the limit, the trace tells what `Evaluate` decides exactly when no rule without clauses
      is reached. */
  lemma ExplainAgreesIff(w: World, o: Order, flag: Flag, cfg: FlagConfig)
    requires Clauses.Acyclic(w.store, o)
    requires cfg.on ==> Fits(w.store, flag.key, cfg.prerequisites, [], 20)
    ensures Explained(w, o, cfg) == Decided(w, o, flag, cfg, []) <==>
            forall i | 0 <= i < |cfg.rules| && cfg.rules[i].clauses == [] :: !Reaches(Decided(w, o, flag, cfg, []), i)
  {
    if cfg.on {
      assert [] + [flag.key] == [flag.key] + [];
      FirstUnmetWithout(w, o, flag.key, cfg.prerequisites, [], MAX_PREREQUISITE_DEPTH, 0);
      FirstRulesAgreeIff(w, o, cfg.rules);
      hide Fits, FirstUnmet, FirstRule, FirstTarget, FirstAllHolding, Clauses.Acyclic;
    }
  }

  /** So for configurations whose rules all have clauses the trace's variation, value and
      reason are the evaluator's; acyclic prerequisites at most 20 deep are enough. */
  lemma ExplainAgrees(w: World, o: Order, rank: string -> nat, flag: Flag, cfg: FlagConfig)
    requires Clauses.Acyclic(w.store, o)
    requires cfg.on ==>
               || Fits(w.store, flag.key, cfg.prerequisites, [], 20)
               || (Guards.Ranked(w.store, rank) && Guards.Below(w.store, rank, cfg.prerequisites, rank(flag.key))
                   && rank(flag.key) <= 20)
    requires forall rule | rule in cfg.rules :: rule.clauses != []
    ensures TraceOf(w, o, flag, cfg).result == Result(w, o, flag, cfg, [])
  {
    if cfg.on && !Fits(w.store, flag.key, cfg.prerequisites, [], MAX_PREREQUISITE_DEPTH) {
      RankedFits(w.store, rank, flag.key, cfg.prerequisites, [], rank(flag.key), MAX_PREREQUISITE_DEPTH);
    }
    ExplainAgreesIff(w, o, flag, cfg);
    hide Fits;
  }

  lemma FirstRulesAgreeIff(w: World, o: Order, rules: seq<Rule>)
    requires Clauses.Acyclic(w.store, o)
    ensures
      var r := FirstRule(w, o, rules, 0);
      FirstAllHolding(w, o, rules, 0) == r <==> forall i | 0 <= i < r :: rules[i].clauses != []
  {
    var r, e := FirstRule(w, o, rules, 0), FirstAllHolding(w, o, rules, 0);
    forall i | 0 <= i < |rules|
      ensures Clauses.RuleHolds(w, o, rules[i]) <==> rules[i].clauses != [] && AllHold(w, o, rules[i])
    {
    }
    assert e <= r;
    if e < r {
      assert rules[e].clauses == [];
    }
  }

  /** On a cycle the trace can tell another story: whatever else it requires, a flag's
      prerequisite on itself is met in `Evaluate` if it asks for the off-variation, and in
      `Explain` if it asks for what the flag serves. */
  lemma ExplainOnACycle(w: World, o: Order, flag: Flag, cfg: FlagConfig, i: nat)
    requires Clauses.Acyclic(w.store, o) && cfg.on
    requires flag.key in w.store.flags && w.store.flags[flag.key] == Entry(flag, cfg)
    requires i < |cfg.prerequisites| && cfg.prerequisites[i].flagKey == flag.key
    ensures
      var variation := cfg.prerequisites[i].variation;
      && (Met(w, o, cfg.prerequisites[i], [flag.key]) <==> Cycles.ServesOff(flag, cfg, variation))
      && (Met(w, o, cfg.prerequisites[i], []) <==> Result(w, o, flag, cfg, []).index == Some(variation))
  {
    Cycles.ClosingACycle(w, o, cfg.prerequisites[i], [flag.key]);
  }

  /** And past the limit: `Explain` starts every prerequisite at depth 0 again, so it lets a
      chain of 21 prerequisites through that `Evaluate` blocks. No other length sets the two
      apart. */
  lemma ExplainOnAChain(w: World, o: Order, n: nat)
    requires Clauses.Acyclic(w.store, o) && Cycles.HasLinks(w.store, n)
    ensures Explained(w, o, Cycles.LinkConfig(n)) == if n <= 21 then FellThrough else Blocked(0)
    ensures Explained(w, o, Cycles.LinkConfig(n)) == Decided(w, o, Cycles.LinkFlag(n), Cycles.LinkConfig(n), []) <==>
            n != 21
  {
    ChainExplained(w, o, n);
    Cycles.LinkServes(w, o, n, n);
    hide Explained, Decided;
  }

  lemma ChainExplained(w: World, o: Order, n: nat)
    requires Clauses.Acyclic(w.store, o) && Cycles.HasLinks(w.store, n)
    ensures Explained(w, o, Cycles.LinkConfig(n)) == if n <= MAX_PREREQUISITE_DEPTH + 1 then FellThrough else Blocked(0)
  {
    hide Explained, Met;
    ExplainedLink(w, o, Cycles.LinkConfig(n));
    if n > 0 {
      assert Cycles.Linked(w.store, n - 1);
      LinkMet(w, o, n - 1);
    }
  }

  /** With nothing but prerequisites, and at most one of those. */
  lemma ExplainedLink(w: World, o: Order, cfg: FlagConfig)
    requires Clauses.Acyclic(w.store, o)
    requires cfg.on && cfg.targets == [] && cfg.rules == [] && |cfg.prerequisites| <= 1
    ensures Explained(w, o, cfg) ==
            if cfg.prerequisites == [] || Met(w, o, cfg.prerequisites[0], []) then FellThrough else Blocked(0)
  {
    hide Met, Clauses.Acyclic;
  }

  lemma MetByResult(w: World, o: Order, p: Prerequisite, path: seq<string>, e: Entry)
    requires Clauses.Acyclic(w.store, o) && |path| <= MAX_PREREQUISITE_DEPTH + 1
    requires p.flagKey in w.store.flags && w.store.flags[p.flagKey] == e && e.config.on
    ensures Met(w, o, p, path) <==> Result(w, o, e.flag, e.config, path).index == Some(p.variation)
  {
    hide Decided, Outcome;
  }

  lemma LinkMet(w: World, o: Order, i: nat)
    requires Clauses.Acyclic(w.store, o) && Cycles.HasLinks(w.store, i) && Cycles.Linked(w.store, i)
    ensures Met(w, o, Prerequisite(Decimal.Render(i), 1), []) <==> i <= MAX_PREREQUISITE_DEPTH
  {
    hide Clauses.Acyclic, Cycles.HasLinks, Met, Result, Decided, Outcome;
    MetByResult(w, o, Prerequisite(Decimal.Render(i), 1), [], Entry(Cycles.LinkFlag(i), Cycles.LinkConfig(i)));
    Cycles.ChainServed(w, o, i);
  }
}
