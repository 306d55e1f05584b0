/** Clauses and segments as the TypeScript SDK evaluates them (sdk/ts/src/evaluate.ts),
    and when that is what Go says. */
module TsClauses {
  import opened Model
  import opened Bucketing
  import Rollout
  import Clauses

  type Order = Clauses.Order

  ghost predicate RefersBelow(w: World, o: Order, c: Clause, r: nat) {
    c.op.SegmentMatch? ==>
      forall v | v in c.values && w.host.jsString(v) in w.store.segments :: o.rank(w.host.jsString(v)) < r
  }

  ghost predicate Acyclic(w: World, o: Order) {
    forall k | k in w.store.segments ::
      && o.rank(k) < o.top
      && forall rule, c | rule in w.store.segments[k].rules && c in rule.clauses :: RefersBelow(w, o, c, o.rank(k))
  }

  // ----- Meaning -----

  /** A null attribute counts as missing. */
  ghost predicate AttributeHolds(host: Host, attribute: Option<Value>, c: Clause)
    requires c.op.Compare?
  {
    && attribute.Some? && attribute.value != Null
    && (exists e, v | e in Clauses.Elements(attribute.value) && v in c.values :: host.op(c.op.name, e, v)) != c.negate
  }

  ghost predicate ClauseHolds(w: World, o: Order, c: Clause, r: nat)
    requires Acyclic(w, o) && RefersBelow(w, o, c, r)
    decreases r, 0
  {
    match c.op
    case SegmentMatch =>
      (exists v | v in c.values && w.host.jsString(v) in w.store.segments ::
        SegmentHolds(w, o, w.host.jsString(v))) != c.negate
    case Compare(_) => AttributeHolds(w.host, TsAttribute(w.ctx, c.attribute), c)
  }

  /** A rule without clauses never matches; a weight is checked per rule. The snapshot's
      `bucket_by` is not the property this code reads, so it always buckets by key. */
  ghost predicate SegmentRuleHolds(w: World, o: Order, k: string, i: nat)
    requires Acyclic(w, o) && k in w.store.segments && i < |w.store.segments[k].rules|
    decreases o.rank(k), 1
  {
    var seg := w.store.segments[k];
    var rule := seg.rules[i];
    && rule.clauses != []
    && (forall c | c in rule.clauses :: ClauseHolds(w, o, c, o.rank(k)))
    && (rule.weight.None? || Rollout.Below(TsPrefix(w, "key", seg.key, seg.salt, None), rule.weight.value))
  }

  ghost predicate SegmentHolds(w: World, o: Order, k: string)
    requires Acyclic(w, o) && k in w.store.segments
    decreases o.rank(k), 2
  {
    var seg := w.store.segments[k];
    && w.ctx.key !in seg.excluded
    && (w.ctx.key in seg.included || exists i | 0 <= i < |seg.rules| :: SegmentRuleHolds(w, o, k, i))
  }

  ghost predicate RuleHolds(w: World, o: Order, rule: Rule)
    requires Acyclic(w, o)
  {
    && rule.clauses != []
    && forall c | c in rule.clauses :: RefersBelow(w, o, c, o.top) && ClauseHolds(w, o, c, o.top)
  }

  lemma TopBelow(w: World, o: Order, c: Clause)
    requires Acyclic(w, o)
    ensures RefersBelow(w, o, c, o.top)
  {
  }

  // ----- The code -----

  method ClauseMatches(w: World, ghost o: Order, c: Clause, ghost r: nat) returns (b: bool)
    requires Acyclic(w, o) && RefersBelow(w, o, c, r)
    ensures b == ClauseHolds(w, o, c, r)
    decreases r, 0
  {
    if c.op.SegmentMatch? {
      for i := 0 to |c.values|
        invariant forall v | v in c.values[..i] && w.host.jsString(v) in w.store.segments ::
                    !SegmentHolds(w, o, w.host.jsString(v))
      {
        var key := w.host.jsString(c.values[i]);
        assert c.values[i] in c.values;
        if key in w.store.segments {
          var matched := SegmentMatches(w, o, w.store.segments[key], key);
          if matched {
            return !c.negate;
          }
        }
      }
      return c.negate;
    }

    var found := TsAttribute(w.ctx, c.attribute);
    if found.None? || found.value.Null? {
      return false;
    }
    if found.value.Arr? {
      var arr := found.value.elems;
      for i := 0 to |arr|
        invariant forall e, v | e in arr[..i] && v in c.values :: !w.host.op(c.op.name, e, v)
      {
        for j := 0 to |c.values|
          invariant forall v | v in c.values[..j] :: !w.host.op(c.op.name, arr[i], v)
        {
          if w.host.op(c.op.name, arr[i], c.values[j]) {
            return !c.negate;
          }
        }
      }
      return c.negate;
    }
    for j := 0 to |c.values|
      invariant forall v | v in c.values[..j] :: !w.host.op(c.op.name, found.value, v)
    {
      if w.host.op(c.op.name, found.value, c.values[j]) {
        return !c.negate;
      }
    }
    return c.negate;
  }

  method SegmentMatches(w: World, ghost o: Order, seg: Segment, ghost k: string) returns (b: bool)
    requires Acyclic(w, o) && k in w.store.segments && seg == w.store.segments[k]
    ensures b == SegmentHolds(w, o, k)
    decreases o.rank(k), 2
  {
    for i := 0 to |seg.excluded|
      invariant w.ctx.key !in seg.excluded[..i]
    {
      if seg.excluded[i] == w.ctx.key {
        return false;
      }
    }
    for i := 0 to |seg.included|
      invariant w.ctx.key !in seg.included[..i]
    {
      if seg.included[i] == w.ctx.key {
        return true;
      }
    }
    for i := 0 to |seg.rules|
      invariant forall j | 0 <= j < i :: !SegmentRuleHolds(w, o, k, j)
    {
      var matched := SegmentRuleMatches(w, o, seg, k, i);
      if matched {
        return true;
      }
    }
    return false;
  }

  method SegmentRuleMatches(w: World, ghost o: Order, seg: Segment, ghost k: string, i: nat) returns (b: bool)
    requires Acyclic(w, o) && k in w.store.segments && seg == w.store.segments[k] && i < |seg.rules|
    ensures b == SegmentRuleHolds(w, o, k, i)
    decreases o.rank(k), 1
  {
    var rule := seg.rules[i];
    assert rule in seg.rules;
    if |rule.clauses| == 0 {
      return false;
    }
    for j := 0 to |rule.clauses|
      invariant forall c | c in rule.clauses[..j] :: RefersBelow(w, o, c, o.rank(k)) && ClauseHolds(w, o, c, o.rank(k))
    {
      assert rule.clauses[j] in rule.clauses;
      var matched := ClauseMatches(w, o, rule.clauses[j], o.rank(k));
      if !matched {
        return false;
      }
    }
    assert rule.clauses[..|rule.clauses|] == rule.clauses;
    if rule.weight.Some? {
      var n := TsPrefix(w, "key", seg.key, seg.salt, None);
      Rollout.BucketBelow(n, rule.weight.value, rule.weight.value as real / 100000.0);
      return Rollout.Bucket(n) < rule.weight.value as real / 100000.0;
    }
    return true;
  }

  method RuleMatches(w: World, ghost o: Order, rule: Rule) returns (b: bool)
    requires Acyclic(w, o)
    ensures b == RuleHolds(w, o, rule)
  {
    if |rule.clauses| == 0 {
      return false;
    }
    for i := 0 to |rule.clauses|
      invariant forall c | c in rule.clauses[..i] :: RefersBelow(w, o, c, o.top) && ClauseHolds(w, o, c, o.top)
    {
      TopBelow(w, o, rule.clauses[i]);
      var matched := ClauseMatches(w, o, rule.clauses[i], o.top);
      if !matched {
        assert rule.clauses[i] in rule.clauses;
        return false;
      }
    }
    assert rule.clauses[..|rule.clauses|] == rule.clauses;
    return true;
  }

  // ----- Agreement with Go -----

  ghost predicate PortableClause(c: Clause) {
    c.op.SegmentMatch? ==> forall v | v in c.values :: v.Str?
  }

  /** Rules have clauses; a rule with a weight is the last one and buckets by key. */
  ghost predicate PortableSegment(seg: Segment) {
    forall i | 0 <= i < |seg.rules| ::
      && seg.rules[i].clauses != []
      && (forall c | c in seg.rules[i].clauses :: PortableClause(c))
      && (seg.rules[i].weight.Some? ==> i == |seg.rules| - 1 && BucketBy(seg.rules[i].bucketBy) == "key")
  }

  /** JavaScript renders a string as itself. */
  ghost predicate FaithfulHost(host: Host) {
    forall s :: host.jsString(Str(s)) == s
  }

  ghost predicate PortableWorld(w: World) {
    && FaithfulHost(w.host)
    && PortableContext(w.ctx)
    && forall k | k in w.store.segments :: PortableSegment(w.store.segments[k])
  }

  lemma RefersAgree(w: World, o: Order, c: Clause, r: nat)
    requires FaithfulHost(w.host) && PortableClause(c)
    ensures Clauses.RefersBelow(w.store, o, c, r) <==> RefersBelow(w, o, c, r)
    ensures c.op.SegmentMatch? ==>
              forall v | v in c.values ::
                && Clauses.SegmentKey(v) == Some(w.host.jsString(v))
                && (Clauses.Refers(w.store, v) <==> w.host.jsString(v) in w.store.segments)
  {
    if c.op.SegmentMatch? {
      forall v | v in c.values ensures Clauses.SegmentKey(v) == Some(w.host.jsString(v)) {
        assert v == Str(v.s);
      }
    }
  }

  /** One order serves both languages. */
  lemma AcyclicAgree(w: World, o: Order)
    requires PortableWorld(w) && Clauses.Acyclic(w.store, o)
    ensures Acyclic(w, o)
  {
    forall k, rule, c | k in w.store.segments && rule in w.store.segments[k].rules && c in rule.clauses
      ensures RefersBelow(w, o, c, o.rank(k))
    {
      assert PortableSegment(w.store.segments[k]);
      var i :| 0 <= i < |w.store.segments[k].rules| && w.store.segments[k].rules[i] == rule;
      RefersAgree(w, o, c, o.rank(k));
    }
  }

  lemma ClausesAgree(w: World, o: Order, c: Clause, r: nat)
    requires PortableWorld(w) && Clauses.Acyclic(w.store, o) && Acyclic(w, o)
    requires PortableClause(c) && Clauses.RefersBelow(w.store, o, c, r) && RefersBelow(w, o, c, r)
    ensures ClauseHolds(w, o, c, r) == Clauses.ClauseHolds(w, o, c, r)
    decreases r, 0
  {
    RefersAgree(w, o, c, r);
    if c.op.SegmentMatch? {
      forall v | v in c.values && Clauses.Refers(w.store, v)
        ensures SegmentHolds(w, o, w.host.jsString(v)) == Clauses.SegmentHolds(w, o, w.host.jsString(v))
      {
        SegmentsAgree(w, o, w.host.jsString(v));
      }
    } else {
      AttributesAgree(w.ctx, c.attribute);
    }
  }

  lemma SegmentsAgree(w: World, o: Order, k: string)
    requires PortableWorld(w) && Clauses.Acyclic(w.store, o) && Acyclic(w, o) && k in w.store.segments
    ensures SegmentHolds(w, o, k) == Clauses.SegmentHolds(w, o, k)
    decreases o.rank(k), 1
  {
    var seg := w.store.segments[k];
    assert PortableSegment(seg);
    forall i | 0 <= i < |seg.rules|
      ensures SegmentRuleHolds(w, o, k, i) <==>
              Clauses.SegmentRuleHolds(w, o, k, i) && Clauses.WeightAdmits(w, seg, seg.rules[i])
    {
      assert seg.rules[i] in seg.rules;
      forall c | c in seg.rules[i].clauses
        ensures ClauseHolds(w, o, c, o.rank(k)) == Clauses.ClauseHolds(w, o, c, o.rank(k))
      {
        ClausesAgree(w, o, c, o.rank(k));
      }
      PrefixesAgree(w, seg.rules[i].bucketBy, seg.key, seg.salt, None);
      PrefixesAgree(w, "key", seg.key, seg.salt, None);
    }
    if i :| 0 <= i < |seg.rules| && SegmentRuleHolds(w, o, k, i) {
      var m := LeastHolding(w, o, k, i);
    }
  }

  /** Below a rule that holds there is a first rule that holds. */
  lemma LeastHolding(w: World, o: Order, k: string, i: nat) returns (m: nat)
    requires Clauses.Acyclic(w.store, o) && k in w.store.segments && i < |w.store.segments[k].rules|
    requires Clauses.SegmentRuleHolds(w, o, k, i)
    ensures m <= i && Clauses.SegmentRuleHolds(w, o, k, m)
    ensures forall j | 0 <= j < m :: !Clauses.SegmentRuleHolds(w, o, k, j)
  {
    m := 0;
    while !Clauses.SegmentRuleHolds(w, o, k, m)
      invariant m <= i && forall j | 0 <= j < m :: !Clauses.SegmentRuleHolds(w, o, k, j)
      decreases i - m
    {
      m := m + 1;
    }
  }

  lemma RulesAgree(w: World, o: Order, rule: Rule)
    requires PortableWorld(w) && Clauses.Acyclic(w.store, o) && Acyclic(w, o)
    requires forall c | c in rule.clauses :: PortableClause(c)
    ensures RuleHolds(w, o, rule) == Clauses.RuleHolds(w, o, rule)
  {
    forall c | c in rule.clauses
      ensures ClauseHolds(w, o, c, o.top) == Clauses.ClauseHolds(w, o, c, o.top)
    {
      Clauses.TopBelow(w.store, o, c);
      TopBelow(w, o, c);
      ClausesAgree(w, o, c, o.top);
    }
  }
}
