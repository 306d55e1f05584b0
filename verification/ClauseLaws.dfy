/** What clauses, rules and segments mean, one comparison at a time. */
module ClauseLaws {
  import opened Model
  import opened Bucketing
  import Clauses
  import TsClauses

  type Order = Clauses.Order

  function Comparison(attribute: string, op: string, value: Value, negate: bool): Clause {
    Clause(attribute, Compare(op), [value], negate)
  }

  /** One value of a clause against one value of an attribute: the operator decides, and
      negation turns its answer around. A missing attribute never matches. */
  lemma OneComparison(w: World, o: Order, name: string, op: string, value: Value, negate: bool, r: nat)
    requires Clauses.Acyclic(w.store, o)
    ensures
      var a := GoAttribute(w.ctx, name);
      Clauses.ClauseHolds(w, o, Comparison(name, op, value, negate), r) <==>
      a.Some? && (if a.value.Arr? then exists x | x in a.value.elems :: w.host.op(op, x, value)
                  else w.host.op(op, a.value, value)) != negate
  {
    var c, a := Comparison(name, op, value, negate), GoAttribute(w.ctx, name);
    assert value in c.values && forall u | u in c.values :: u == value;
    if a.Some? && !a.value.Arr? {
      assert a.value in Clauses.Elements(a.value) && forall x | x in Clauses.Elements(a.value) :: x == a.value;
    }
  }

  lemma TsOneComparison(w: World, o: Order, name: string, op: string, value: Value, negate: bool, r: nat)
    requires TsClauses.Acyclic(w, o)
    ensures
      var a := TsAttribute(w.ctx, name);
      TsClauses.ClauseHolds(w, o, Comparison(name, op, value, negate), r) <==>
      a.Some? && a.value != Null
      && (if a.value.Arr? then exists x | x in a.value.elems :: w.host.op(op, x, value)
          else w.host.op(op, a.value, value)) != negate
  {
    var c, a := Comparison(name, op, value, negate), TsAttribute(w.ctx, name);
    assert value in c.values && forall u | u in c.values :: u == value;
    if a.Some? && !a.value.Arr? {
      assert a.value in Clauses.Elements(a.value) && forall x | x in Clauses.Elements(a.value) :: x == a.value;
    }
  }

  /** The clause with one of its values only. */
  function Only(c: Clause, v: Value): Clause {
    c.(values := [v])
  }

  /** It takes one of a clause's values to match, be they segments or not. */
  lemma AnyValueWillDo(w: World, o: Order, c: Clause, r: nat)
    requires Clauses.Acyclic(w.store, o) && Clauses.RefersBelow(w.store, o, c, r) && !c.negate
    ensures forall v | v in c.values :: Clauses.RefersBelow(w.store, o, Only(c, v), r)
    ensures Clauses.ClauseHolds(w, o, c, r) <==> exists v | v in c.values :: Clauses.ClauseHolds(w, o, Only(c, v), r)
  {
    forall v | v in c.values
      ensures Clauses.RefersBelow(w.store, o, Only(c, v), r)
      ensures Clauses.ClauseHolds(w, o, Only(c, v), r) ==> Clauses.ClauseHolds(w, o, c, r)
    {
      assert forall u | u in Only(c, v).values :: u == v;
    }
    if Clauses.ClauseHolds(w, o, c, r) {
      if c.op.SegmentMatch? {
        var v :| v in c.values && Clauses.Refers(w.store, v) && Clauses.SegmentHolds(w, o, Clauses.SegmentKey(v).value);
        assert v in Only(c, v).values;
      } else {
        var a := GoAttribute(w.ctx, c.attribute).value;
        var x, v :| x in Clauses.Elements(a) && v in c.values && w.host.op(c.op.name, x, v);
        assert v in Only(c, v).values;
      }
    }
  }

  /** A rule holds if it has clauses and each of them would do on its own. */
  lemma EveryClauseMustHold(w: World, o: Order, rule: Rule)
    requires Clauses.Acyclic(w.store, o)
    ensures Clauses.RuleHolds(w, o, rule) <==>
            rule.clauses != [] && forall c | c in rule.clauses :: Clauses.RuleHolds(w, o, rule.(clauses := [c]))
    ensures forall c | rule.clauses == [c] :: Clauses.RefersBelow(w.store, o, c, o.top)
    ensures forall c | rule.clauses == [c] :: Clauses.RuleHolds(w, o, rule) == Clauses.ClauseHolds(w, o, c, o.top)
  {
    forall c | c in rule.clauses
      ensures Clauses.RefersBelow(w.store, o, c, o.top)
      ensures Clauses.RuleHolds(w, o, rule.(clauses := [c])) <==> Clauses.ClauseHolds(w, o, c, o.top)
    {
      Clauses.TopBelow(w.store, o, c);
      assert c in [c] && forall d | d in [c] :: d == c;
    }
    hide Clauses.ClauseHolds;
  }

  /** Of someone on no list, a segment of one rule without a weight asks all of its clauses. */
  lemma OneRuleSegment(w: World, o: Order, k: string, rule: SegmentRule)
    requires Clauses.Acyclic(w.store, o) && k in w.store.segments
    requires w.store.segments[k].rules == [rule] && rule.weight.None?
    requires w.ctx.key !in w.store.segments[k].included && w.ctx.key !in w.store.segments[k].excluded
    ensures forall c | c in rule.clauses :: Clauses.RefersBelow(w.store, o, c, o.rank(k))
    ensures Clauses.SegmentHolds(w, o, k) <==> forall c | c in rule.clauses :: Clauses.ClauseHolds(w, o, c, o.rank(k))
  {
    assert rule in w.store.segments[k].rules;
    assert Clauses.SegmentRuleHolds(w, o, k, 0) <==>
           forall c | c in rule.clauses :: Clauses.ClauseHolds(w, o, c, o.rank(k));
  }
}
