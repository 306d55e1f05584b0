/** Clauses and segments as Go evaluates them (internal/eval/clause.go). Segments refer to
    each other without any guard, so evaluation ends because the references do: `Order`
    ranks the segments. */
module Clauses {
  import opened Model
  import opened Bucketing
  import Rollout

  /** A rank that goes down along segment references; all ranks are below `top`. */
  datatype Order = Order(rank: string -> nat, top: nat)

  /** A segment clause's value names a segment if it is a string; decoding JSON null into
      a string leaves it empty, and other values are skipped. */
  function SegmentKey(v: Value): Option<string> {
    match v
    case Str(s) => Some(s)
    case Null => Some("")
    case _ => None
  }

  predicate Refers(store: Store, v: Value) {
    SegmentKey(v).Some? && SegmentKey(v).value in store.segments
  }

  ghost predicate RefersBelow(store: Store, o: Order, c: Clause, r: nat) {
    c.op.SegmentMatch? ==> forall v | v in c.values && Refers(store, v) :: o.rank(SegmentKey(v).value) < r
  }

  /** Segment references are acyclic, witnessed by the order. */
  ghost predicate Acyclic(store: Store, o: Order) {
    forall k | k in store.segments ::
      && o.rank(k) < o.top
      && forall rule, c | rule in store.segments[k].rules && c in rule.clauses :: RefersBelow(store, o, c, o.rank(k))
  }

  function Elements(v: Value): seq<Value> {
    match v
    case Arr(elems) => elems
    case _ => [v]
  }

  // ----- Meaning -----

  /** Negation flips the answer, except that a missing attribute never matches. */
  ghost predicate AttributeHolds(host: Host, attribute: Option<Value>, c: Clause)
    requires c.op.Compare?
  {
    attribute.Some? &&
    (exists e, v | e in Elements(attribute.value) && v in c.values :: host.op(c.op.name, e, v)) != c.negate
  }

  ghost predicate ClauseHolds(w: World, o: Order, c: Clause, r: nat)
    requires Acyclic(w.store, o) && RefersBelow(w.store, o, c, r)
    decreases r, 0
  {
    match c.op
    case SegmentMatch =>
      (exists v | v in c.values && Refers(w.store, v) :: SegmentHolds(w, o, SegmentKey(v).value)) != c.negate
    case Compare(_) => AttributeHolds(w.host, GoAttribute(w.ctx, c.attribute), c)
  }

  ghost predicate SegmentRuleHolds(w: World, o: Order, k: string, i: nat)
    requires Acyclic(w.store, o) && k in w.store.segments && i < |w.store.segments[k].rules|
    decreases o.rank(k), 1
  {
    var rule := w.store.segments[k].rules[i];
    forall c | c in rule.clauses :: ClauseHolds(w, o, c, o.rank(k))
  }

  /** The context is inside the part of the segment rule that its weight admits. */
  ghost predicate WeightAdmits(w: World, seg: Segment, rule: SegmentRule) {
    rule.weight.None? || Rollout.Below(GoPrefix(w, rule.bucketBy, seg.key, seg.salt, None), rule.weight.value)
  }

  /** Exclusion first, then inclusion, then the first rule whose clauses all hold decides,
      by its weight. */
  ghost predicate SegmentHolds(w: World, o: Order, k: string)
    requires Acyclic(w.store, o) && k in w.store.segments
    decreases o.rank(k), 2
  {
    var seg := w.store.segments[k];
    && w.ctx.key !in seg.excluded
    && (w.ctx.key in seg.included ||
        exists i | 0 <= i < |seg.rules| ::
          && SegmentRuleHolds(w, o, k, i)
          && (forall j | 0 <= j < i :: !SegmentRuleHolds(w, o, k, j))
          && WeightAdmits(w, seg, seg.rules[i]))
  }

  /** Rules of flags may refer to any segment. */
  lemma TopBelow(store: Store, o: Order, c: Clause)
    requires Acyclic(store, o)
    ensures RefersBelow(store, o, c, o.top)
  {
  }

  ghost predicate RuleHolds(w: World, o: Order, rule: Rule)
    requires Acyclic(w.store, o)
  {
    && rule.clauses != []
    && forall c | c in rule.clauses :: RefersBelow(w.store, o, c, o.top) && ClauseHolds(w, o, c, o.top)
  }

  // ----- The code -----

  method ClauseMatches(w: World, ghost o: Order, c: Clause, ghost r: nat) returns (b: bool)
    requires Acyclic(w.store, o) && RefersBelow(w.store, o, c, r)
    ensures b == ClauseHolds(w, o, c, r)
    decreases r, 0
  {
    if c.op.SegmentMatch? {
      for i := 0 to |c.values|
        invariant forall v | v in c.values[..i] && Refers(w.store, v) :: !SegmentHolds(w, o, SegmentKey(v).value)
      {
        var raw := c.values[i];
        var key := SegmentKey(raw);
        if key.Some? && key.value in w.store.segments {
          assert raw in c.values && Refers(w.store, raw);
          var matched := SegmentMatches(w, o, w.store.segments[key.value], key.value);
          if matched {
            return !c.negate;
          }
        }
      }
      return c.negate;
    }

    var found := GoAttribute(w.ctx, c.attribute);
    if found.None? {
      return false;
    }
    if found.value.Arr? {
      var arr := found.value.elems;
      for i := 0 to |arr|
        invariant forall e, v | e in arr[..i] && v in c.values :: !w.host.op(c.op.name, e, v)
      {
        for j := 0 to |c.values|
          invariant forall v | v in c.values[..j] :: !w.host.op(c.op.name, arr[i], v)
        {
          if w.host.op(c.op.name, arr[i], c.values[j]) {
            return !c.negate;
          }
        }
      }
      return c.negate;
    }
    for j := 0 to |c.values|
      invariant forall v | v in c.values[..j] :: !w.host.op(c.op.name, found.value, v)
    {
      if w.host.op(c.op.name, found.value, c.values[j]) {
        return !c.negate;
      }
    }
    return c.negate;
  }

  method SegmentMatches(w: World, ghost o: Order, seg: Segment, ghost k: string) returns (b: bool)
    requires Acyclic(w.store, o) && k in w.store.segments && seg == w.store.segments[k]
    ensures b == SegmentHolds(w, o, k)
    decreases o.rank(k), 1
  {
    for i := 0 to |seg.excluded|
      invariant w.ctx.key !in seg.excluded[..i]
    {
      if seg.excluded[i] == w.ctx.key {
        return false;
      }
    }
    for i := 0 to |seg.included|
      invariant w.ctx.key !in seg.included[..i]
    {
      if seg.included[i] == w.ctx.key {
        return true;
      }
    }
    for i := 0 to |seg.rules|
      invariant forall j | 0 <= j < i :: !SegmentRuleHolds(w, o, k, j)
    {
      var rule := seg.rules[i];
      var allMatch := true;
      for j := 0 to |rule.clauses|
        invariant allMatch
        invariant forall c | c in rule.clauses[..j] ::
                    RefersBelow(w.store, o, c, o.rank(k)) && ClauseHolds(w, o, c, o.rank(k))
      {
        var c := rule.clauses[j];
        assert rule in seg.rules && c in rule.clauses;
        var matched := ClauseMatches(w, o, c, o.rank(k));
        if !matched {
          allMatch := false;
          break;
        }
      }
      if allMatch {
        assert SegmentRuleHolds(w, o, k, i);
        if rule.weight.None? {
          return true;
        }
        var n := GoPrefix(w, rule.bucketBy, seg.key, seg.salt, None);
        Rollout.BucketBelow(n, rule.weight.value, rule.weight.value as real / 100000.0);
        return Rollout.Bucket(n) < rule.weight.value as real / 100000.0;
      }
    }
    return false;
  }

  method RuleMatches(w: World, ghost o: Order, rule: Rule) returns (b: bool)
    requires Acyclic(w.store, o)
    ensures b == RuleHolds(w, o, rule)
  {
    if |rule.clauses| == 0 {
      return false;
    }
    for i := 0 to |rule.clauses|
      invariant forall c | c in rule.clauses[..i] :: RefersBelow(w.store, o, c, o.top) && ClauseHolds(w, o, c, o.top)
    {
      TopBelow(w.store, o, rule.clauses[i]);
      var matched := ClauseMatches(w, o, rule.clauses[i], o.top);
      if !matched {
        assert rule.clauses[i] in rule.clauses;
        return false;
      }
    }
    assert rule.clauses[..|rule.clauses|] == rule.clauses;
    return true;
  }

  // ----- Consequences -----

  function Negated(c: Clause): Clause {
    c.(negate := !c.negate)
  }

  /** Negating a clause flips its answer exactly when it is a segment clause or its
      attribute is present; a missing attribute fails either way. */
  lemma NegationFlips(w: World, o: Order, c: Clause, r: nat)
    requires Acyclic(w.store, o) && RefersBelow(w.store, o, c, r)
    ensures RefersBelow(w.store, o, Negated(c), r)
    ensures ClauseHolds(w, o, Negated(c), r) == !ClauseHolds(w, o, c, r) <==>
            c.op.SegmentMatch? || GoAttribute(w.ctx, c.attribute).Some?
    ensures c.op.Compare? && GoAttribute(w.ctx, c.attribute).None? ==>
              !ClauseHolds(w, o, c, r) && !ClauseHolds(w, o, Negated(c), r)
  {
  }

  /** What a clause means does not depend on which order witnesses that evaluation ends. */
  lemma ClauseMeaningUnique(w: World, o: Order, p: Order, c: Clause, r: nat, s: nat)
    requires Acyclic(w.store, o) && RefersBelow(w.store, o, c, r)
    requires Acyclic(w.store, p) && RefersBelow(w.store, p, c, s)
    ensures ClauseHolds(w, o, c, r) == ClauseHolds(w, p, c, s)
    decreases r, 0
  {
    if c.op.SegmentMatch? {
      forall v | v in c.values && Refers(w.store, v)
        ensures SegmentHolds(w, o, SegmentKey(v).value) == SegmentHolds(w, p, SegmentKey(v).value)
      {
        SegmentMeaningUnique(w, o, p, SegmentKey(v).value);
      }
    }
  }

  lemma SegmentMeaningUnique(w: World, o: Order, p: Order, k: string)
    requires Acyclic(w.store, o) && Acyclic(w.store, p) && k in w.store.segments
    ensures SegmentHolds(w, o, k) == SegmentHolds(w, p, k)
    decreases o.rank(k), 1
  {
    var rules := w.store.segments[k].rules;
    forall i | 0 <= i < |rules|
      ensures SegmentRuleHolds(w, o, k, i) == SegmentRuleHolds(w, p, k, i)
    {
      assert rules[i] in rules;
      forall c | c in rules[i].clauses
        ensures ClauseHolds(w, o, c, o.rank(k)) == ClauseHolds(w, p, c, p.rank(k))
      {
        ClauseMeaningUnique(w, o, p, c, o.rank(k), p.rank(k));
      }
    }
  }
}
