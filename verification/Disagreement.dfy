/** Why agreement between the two languages needs its conditions: exactly when they agree on a
    comparison, on a segment reference and on a segment, whatever the configuration, and worlds
    in which they serve a context differently. */
module Disagreement {
  import opened Model
  import opened Bucketing
  import opened GoEval
  import opened TsEval
  import Decimal
  import Rollout
  import Clauses
  import TsClauses

  type Order = Clauses.Order

  // ----- Comparisons -----

  ghost predicate SomeValueMatches(host: Host, attribute: Value, c: Clause)
    requires c.op.Compare?
  {
    exists e, v | e in Clauses.Elements(attribute) && v in c.values :: host.op(c.op.name, e, v)
  }

  /** On comparisons the languages differ in two things only. A context without a kind is of
      kind "" in Go and "user" in TypeScript; and a null attribute is a value in Go and missing
      in TypeScript, so there they agree exactly when Go's clause does not hold. */
  lemma ComparisonsAgreeIff(w: World, c: Clause)
    requires c.op.Compare?
    ensures
      var go := Clauses.AttributeHolds(w.host, GoAttribute(w.ctx, c.attribute), c);
      var ts := TsClauses.AttributeHolds(w.host, TsAttribute(w.ctx, c.attribute), c);
      go == ts <==>
      if c.attribute == "kind" && w.ctx.kind.None? then
        SomeValueMatches(w.host, Str(""), c) == SomeValueMatches(w.host, Str("user"), c)
      else if GoAttribute(w.ctx, c.attribute) == Some(Null) then SomeValueMatches(w.host, Null, c) == c.negate
      else true
  {
    var attribute := GoAttribute(w.ctx, c.attribute);
    if attribute.Some? {
      assert Clauses.AttributeHolds(w.host, attribute, c) <==> SomeValueMatches(w.host, attribute.value, c) != c.negate;
    }
    var other := TsAttribute(w.ctx, c.attribute);
    if other.Some? && other.value != Null {
      assert TsClauses.AttributeHolds(w.host, other, c) <==> SomeValueMatches(w.host, other.value, c) != c.negate;
    }
    hide SomeValueMatches, Clauses.AttributeHolds, Clauses.Elements;
  }

  // ----- Segment references -----

  /** What JavaScript's `String` does to the two kinds of values that Go reads as segment keys. */
  predicate RendersKeys(host: Host, v: Value) {
    && (v.Str? ==> host.jsString(v) == v.s)
    && (v.Null? ==> host.jsString(v) == "null")
  }

  /** A clause on one segment, named by a value of any kind. Go takes a string, reads null as
      the empty string and skips everything else; TypeScript looks up whatever the value
      renders as. So a string is no cause of disagreement; null names two different segments;
      and for any other value the context must be outside the segment it renders as. */
  lemma SegmentKeyOfAnyKind(w: World, o: Order, v: Value, negate: bool)
    requires Clauses.Acyclic(w.store, o) && TsClauses.Acyclic(w, o) && RendersKeys(w.host, v)
    ensures
      var c := Clause("", SegmentMatch, [v], negate);
      && Clauses.RefersBelow(w.store, o, c, o.top) && TsClauses.RefersBelow(w, o, c, o.top)
      && (Clauses.ClauseHolds(w, o, c, o.top) <==> GoInSegment(w, o, v) != negate)
      && (TsClauses.ClauseHolds(w, o, c, o.top) <==> TsInSegment(w, o, w.host.jsString(v)) != negate)
      && (Clauses.ClauseHolds(w, o, c, o.top) == TsClauses.ClauseHolds(w, o, c, o.top) <==>
            if v.Str? then v.s in w.store.segments ==> Clauses.SegmentHolds(w, o, v.s) == TsClauses.SegmentHolds(w, o, v.s)
            else if v.Null? then GoInSegment(w, o, Str("")) == TsInSegment(w, o, "null")
            else !TsInSegment(w, o, w.host.jsString(v)))
  {
    var c := Clause("", SegmentMatch, [v], negate);
    assert c.values[0] in c.values;
    assert forall u | u in c.values :: u == v;
    hide Clauses.SegmentHolds, TsClauses.SegmentHolds;
  }

  ghost predicate GoInSegment(w: World, o: Order, v: Value)
    requires Clauses.Acyclic(w.store, o)
  {
    match v
    case Str(s) => s in w.store.segments && Clauses.SegmentHolds(w, o, s)
    case Null => "" in w.store.segments && Clauses.SegmentHolds(w, o, "")
    case _ => false
  }

  ghost predicate TsInSegment(w: World, o: Order, k: string)
    requires TsClauses.Acyclic(w, o)
  {
    k in w.store.segments && TsClauses.SegmentHolds(w, o, k)
  }

  // ----- Segments -----

  /** The rules' clauses mean the same in both languages. */
  ghost predicate ClausesAgree(w: World, o: Order, k: string)
    requires Clauses.Acyclic(w.store, o) && TsClauses.Acyclic(w, o) && k in w.store.segments
  {
    forall rule, c | rule in w.store.segments[k].rules && c in rule.clauses ::
      TsClauses.ClauseHolds(w, o, c, o.rank(k)) == Clauses.ClauseHolds(w, o, c, o.rank(k))
  }

  /** Go: the first rule whose clauses hold, one without clauses included, decides by its
      weight, with the attribute it names. */
  ghost predicate GoAdmits(w: World, o: Order, k: string)
    requires Clauses.Acyclic(w.store, o) && k in w.store.segments
  {
    var seg := w.store.segments[k];
    exists i | 0 <= i < |seg.rules| ::
      && Clauses.SegmentRuleHolds(w, o, k, i)
      && (forall j | 0 <= j < i :: !Clauses.SegmentRuleHolds(w, o, k, j))
      && Clauses.WeightAdmits(w, seg, seg.rules[i])
  }

  /** TypeScript: any rule that has clauses and whose clauses hold admits by its weight, and
      always buckets by key. */
  ghost predicate TsAdmits(w: World, o: Order, k: string)
    requires Clauses.Acyclic(w.store, o) && k in w.store.segments
  {
    var seg := w.store.segments[k];
    exists i | 0 <= i < |seg.rules| ::
      && seg.rules[i].clauses != []
      && Clauses.SegmentRuleHolds(w, o, k, i)
      && KeyAdmits(w, seg, seg.rules[i])
  }

  predicate KeyAdmits(w: World, seg: Segment, rule: SegmentRule) {
    rule.weight.None? || Rollout.Below(TsPrefix(w, "key", seg.key, seg.salt, None), rule.weight.value)
  }

  /** Who is excluded is outside, in both languages, listed as included or not; else who is
      included is inside; else the rules of admission decide. */
  lemma AdmissionDecides(w: World, o: Order, k: string)
    requires Clauses.Acyclic(w.store, o) && TsClauses.Acyclic(w, o) && k in w.store.segments
    requires ClausesAgree(w, o, k)
    ensures
      var seg := w.store.segments[k];
      var go, ts := Clauses.SegmentHolds(w, o, k), TsClauses.SegmentHolds(w, o, k);
      if w.ctx.key in seg.excluded then !go && !ts
      else if w.ctx.key in seg.included then go && ts
      else (go <==> GoAdmits(w, o, k)) && (ts <==> TsAdmits(w, o, k))
  {
    var seg := w.store.segments[k];
    forall i | 0 <= i < |seg.rules|
      ensures TsClauses.SegmentRuleHolds(w, o, k, i) <==>
              && seg.rules[i].clauses != []
              && Clauses.SegmentRuleHolds(w, o, k, i)
              && KeyAdmits(w, seg, seg.rules[i])
    {
      assert seg.rules[i] in seg.rules;
    }
  }

  /** The first rule whose clauses hold, or the number of rules. */
  ghost predicate IsFirst(w: World, o: Order, k: string, first: nat)
    requires Clauses.Acyclic(w.store, o) && k in w.store.segments
  {
    && first <= |w.store.segments[k].rules|
    && (first < |w.store.segments[k].rules| ==> Clauses.SegmentRuleHolds(w, o, k, first))
    && forall j | 0 <= j < first :: !Clauses.SegmentRuleHolds(w, o, k, j)
  }

  /** Some rule behind the first has clauses, they hold, and its weight admits the key. */
  ghost predicate AdmittedLater(w: World, o: Order, k: string, first: nat)
    requires Clauses.Acyclic(w.store, o) && k in w.store.segments
  {
    var seg := w.store.segments[k];
    exists i | first < i < |seg.rules| ::
      seg.rules[i].clauses != [] && Clauses.SegmentRuleHolds(w, o, k, i) && KeyAdmits(w, seg, seg.rules[i])
  }

  /** The three ways they part, seen at the first rule whose clauses hold. If it has no
      clauses, TypeScript passes it over. If it has, Go is done with it and goes by the
      attribute the rule names; TypeScript goes by the key, and on to later rules. */
  lemma FirstRuleDecides(w: World, o: Order, k: string, first: nat)
    requires Clauses.Acyclic(w.store, o) && k in w.store.segments && IsFirst(w, o, k, first)
    ensures
      var seg := w.store.segments[k];
      if first == |seg.rules| then !GoAdmits(w, o, k) && !TsAdmits(w, o, k)
      else
        var rule := seg.rules[first];
        && (GoAdmits(w, o, k) <==> Clauses.WeightAdmits(w, seg, rule))
        && (TsAdmits(w, o, k) <==> (rule.clauses != [] && KeyAdmits(w, seg, rule)) || AdmittedLater(w, o, k, first))
  {
    hide Clauses.SegmentRuleHolds, Clauses.WeightAdmits, KeyAdmits;
  }

  /** Where the clauses agree, the languages agree on a segment, whatever its rules, exactly
      when its lists settle the matter, or no rule's clauses hold, or the first one whose
      clauses do admits in Go just when it or a later one admits in TypeScript. */
  lemma SegmentsAgreeIff(w: World, o: Order, k: string, first: nat)
    requires Clauses.Acyclic(w.store, o) && TsClauses.Acyclic(w, o) && k in w.store.segments
    requires ClausesAgree(w, o, k) && IsFirst(w, o, k, first)
    ensures
      var seg := w.store.segments[k];
      Clauses.SegmentHolds(w, o, k) == TsClauses.SegmentHolds(w, o, k) <==>
      || w.ctx.key in seg.excluded
      || w.ctx.key in seg.included
      || first == |seg.rules|
      || var rule := seg.rules[first];
         Clauses.WeightAdmits(w, seg, rule) ==
         ((rule.clauses != [] && KeyAdmits(w, seg, rule)) || AdmittedLater(w, o, k, first))
  {
    AdmissionDecides(w, o, k);
    FirstRuleDecides(w, o, k, first);
    hide Clauses.SegmentHolds, TsClauses.SegmentHolds, GoAdmits, TsAdmits, AdmittedLater, IsFirst, ClausesAgree,
      Clauses.WeightAdmits, KeyAdmits;
  }

  /** For a rule with a weight the attribute matters: the two buckets must fall on the same
      side of it. */
  lemma BucketByMatters(w: World, seg: Segment, rule: SegmentRule)
    requires rule.weight.Some?
    ensures
      var named := GoPrefix(w, rule.bucketBy, seg.key, seg.salt, None);
      var byKey := GoPrefix(w, "key", seg.key, seg.salt, None);
      Clauses.WeightAdmits(w, seg, rule) == KeyAdmits(w, seg, rule) <==>
      Rollout.Below(named, rule.weight.value) == Rollout.Below(byKey, rule.weight.value)
  {
    assert TsPrefix(w, "key", seg.key, seg.salt, None) == GoPrefix(w, "key", seg.key, seg.salt, None);
  }

  /** So where every rule has clauses and buckets by key, TypeScript admits whoever Go admits,
      and besides exactly those whom a later rule admits. */
  lemma WeightsInTheMiddle(w: World, o: Order, k: string, first: nat)
    requires Clauses.Acyclic(w.store, o) && TsClauses.Acyclic(w, o) && k in w.store.segments
    requires PortableContext(w.ctx) && ClausesAgree(w, o, k)
    requires
      var seg := w.store.segments[k];
      && w.ctx.key !in seg.included && w.ctx.key !in seg.excluded
      && (forall rule | rule in seg.rules :: rule.clauses != [] && BucketBy(rule.bucketBy) == "key")
      && first < |seg.rules| && Clauses.SegmentRuleHolds(w, o, k, first)
      && forall j | 0 <= j < first :: !Clauses.SegmentRuleHolds(w, o, k, j)
    ensures
      var seg := w.store.segments[k];
      && (Clauses.SegmentHolds(w, o, k) <==> Clauses.WeightAdmits(w, seg, seg.rules[first]))
      && (TsClauses.SegmentHolds(w, o, k) <==>
            exists i | first <= i < |seg.rules| ::
              Clauses.SegmentRuleHolds(w, o, k, i) && Clauses.WeightAdmits(w, seg, seg.rules[i]))
  {
    var seg := w.store.segments[k];
    AdmissionDecides(w, o, k);
    FirstRuleDecides(w, o, k, first);
    forall i | 0 <= i < |seg.rules|
      ensures seg.rules[i].clauses != [] && (KeyAdmits(w, seg, seg.rules[i]) <==> Clauses.WeightAdmits(w, seg, seg.rules[i]))
    {
      assert seg.rules[i] in seg.rules;
      PrefixesAgree(w, seg.rules[i].bucketBy, seg.key, seg.salt, None);
    }
    hide Clauses.SegmentRuleHolds, Clauses.SegmentHolds, TsClauses.SegmentHolds, KeyAdmits, Clauses.WeightAdmits;
  }

  // ----- Flags served differently -----

  /** A flag of two variations: one for whom the rule matches, the other for everyone else. */
  function Twofold(): Flag {
    Flag("flag", "", [Variation("off", Bool(false)), Variation("on", Bool(true))], false)
  }

  function Plainly(rules: seq<Rule>, otherwise: VariationOrRollout): FlagConfig {
    FlagConfig(true, [], [], rules, otherwise, None, "", "")
  }

  const NO_ORDER: Order := Clauses.Order(_ => 0, 1)

  /** Whatever the context: one that has no kind, evaluated for a rule on the kind "user", gets
      the rule's variation in TypeScript and the other one in Go. Any operator will do that
      tells "user" from the empty string. */
  lemma UnsetKindServedDifferently(host: Host, name: string, ctx: Context)
    requires host.op(name, Str("user"), Str("user")) && !host.op(name, Str(""), Str("user"))
    requires ctx.kind.None?
    ensures
      var w := World(host, Store(map[], map[]), ctx);
      var users := Rule("users", [Clause("kind", Compare(name), [Str("user")], false)], VariationOrRollout(Some(1), None));
      var cfg := Plainly([users], VariationOrRollout(Some(0), None));
      && Clauses.Acyclic(w.store, NO_ORDER) && TsClauses.Acyclic(w, NO_ORDER)
      && Result(w, NO_ORDER, Twofold(), cfg, []) == EvalResult(Some(0), Bool(false), Because(Fallthrough))
      && TsResult(w, NO_ORDER, Twofold(), cfg, []) == EvalResult(Some(1), Bool(true), Credits(0, "users"))
  {
    var w := World(host, Store(map[], map[]), ctx);
    var c := Clause("kind", Compare(name), [Str("user")], false);
    var users := Rule("users", [c], VariationOrRollout(Some(1), None));
    assert c in users.clauses && Str("user") in Clauses.Elements(Str("user"));
    assert !Clauses.RuleHolds(w, NO_ORDER, users);
    assert forall d | d in users.clauses :: d == c;
    assert TsClauses.RuleHolds(w, NO_ORDER, users);
  }

  /** A rollout to half of the contexts under a seed. */
  function Halves(seed: int): VariationOrRollout {
    var ws := [WeightedVariation(0, 50_000), WeightedVariation(1, 50_000)];
    VariationOrRollout(None, Some(Model.Rollout(ws, "", Some(seed), false)))
  }

  lemma HalvesServed(n: Rollout.Prefix, seed: int)
    ensures Rollout.Served(Halves(seed).rollout.value.variations, n) == if Rollout.Below(n, 50_000) then 0 else 1
  {
    var ws := Halves(seed).rollout.value.variations;
    assert Rollout.Cum(ws, 0) == 0 && Rollout.Cum(ws, 1) == 50_000;
  }

  /** Under any seed the two languages serve a context alike exactly when the two texts, with
      the seed printed by each, fall into the same half. */
  lemma SeededHalvesAgreeIff(host: Host, ctx: Context, seed: int)
    ensures
      var w := World(host, Store(map[], map[]), ctx);
      var cfg := Plainly([], Halves(seed));
      var go, ts := Decimal.Render(seed) + "." + ctx.key, host.jsNumber(seed) + "." + ctx.key;
      && Clauses.Acyclic(w.store, NO_ORDER) && TsClauses.Acyclic(w, NO_ORDER)
      && (TsResult(w, NO_ORDER, Twofold(), cfg, []) == Result(w, NO_ORDER, Twofold(), cfg, []) <==>
            Rollout.Below(host.hash(go), 50_000) == Rollout.Below(host.hash(ts), 50_000))
  {
    var w := World(host, Store(map[], map[]), ctx);
    var cfg := Plainly([], Halves(seed));
    HalvesServed(GoPrefix(w, "", "flag", "", Some(seed)), seed);
    HalvesServed(TsPrefix(w, "", "flag", "", Some(seed)), seed);
    assert Decided(w, NO_ORDER, Twofold(), cfg, []) == FellThrough;
    assert TsDecided(w, NO_ORDER, Twofold(), cfg, []) == FellThrough;
    hide Rollout.Served, Rollout.Below;
  }

  /** The double nearest to 2^60 is 2^60, but JavaScript prints no more digits of it than it
      takes to tell it from its neighbours. */
  const LARGE_SEED: int := 0x1000_0000_0000_0000

  predicate Prints(n: nat, text: string) {
    Decimal.Digits(n) == text
  }

  lemma OneMore(n: nat, d: nat, text: string, next: string)
    requires 0 < n && d < 10 && Prints(n, text) && next == text + [Decimal.Digit(d)]
    ensures Prints(10 * n + d, next)
  {
  }

  lemma LargeSeedStarts()
    ensures Prints(1152921504, "1152921504")
  {
    assert Prints(1, "1");
    hide Decimal.Digits, Prints;
    OneMore(1, 1, "1", "11");
    OneMore(11, 5, "11", "115");
    OneMore(115, 2, "115", "1152");
    OneMore(1152, 9, "1152", "11529");
    OneMore(11529, 2, "11529", "115292");
    OneMore(115292, 1, "115292", "1152921");
    OneMore(1152921, 5, "1152921", "11529215");
    OneMore(11529215, 0, "11529215", "115292150");
    OneMore(115292150, 4, "115292150", "1152921504");
  }

  lemma LargeSeedEnds()
    ensures Prints(LARGE_SEED, "1152921504606846976")
  {
    LargeSeedStarts();
    hide Decimal.Digits, Prints;
    OneMore(1152921504, 6, "1152921504", "11529215046");
    OneMore(11529215046, 0, "11529215046", "115292150460");
    OneMore(115292150460, 6, "115292150460", "1152921504606");
    OneMore(1152921504606, 8, "1152921504606", "11529215046068");
    OneMore(11529215046068, 4, "11529215046068", "115292150460684");
    OneMore(115292150460684, 6, "115292150460684", "1152921504606846");
    OneMore(1152921504606846, 9, "1152921504606846", "11529215046068469");
    OneMore(11529215046068469, 7, "11529215046068469", "115292150460684697");
    OneMore(115292150460684697, 6, "115292150460684697", "1152921504606846976");
  }

  lemma LargeSeedServedDifferently(host: Host, ctx: Context)
    requires host.jsNumber(LARGE_SEED) == "1152921504606847000"
    requires Rollout.Below(host.hash("1152921504606846976." + ctx.key), 50_000) !=
             Rollout.Below(host.hash("1152921504606847000." + ctx.key), 50_000)
    ensures
      var w := World(host, Store(map[], map[]), ctx);
      var cfg := Plainly([], Halves(LARGE_SEED));
      && Clauses.Acyclic(w.store, NO_ORDER) && TsClauses.Acyclic(w, NO_ORDER)
      && TsResult(w, NO_ORDER, Twofold(), cfg, []) != Result(w, NO_ORDER, Twofold(), cfg, [])
  {
    SeededHalvesAgreeIff(host, ctx, LARGE_SEED);
    LargeSeedEnds();
    hide Decimal.Digits, Rollout.Below;
    assert Decimal.Render(LARGE_SEED) + "." + ctx.key == "1152921504606846976." + ctx.key;
    assert host.jsNumber(LARGE_SEED) + "." + ctx.key == "1152921504606847000." + ctx.key;
  }
}
