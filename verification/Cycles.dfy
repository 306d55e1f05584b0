/** Where evaluation meets the guards after all: prerequisite cycles, and chains that are
    too long. */
module Cycles {
  import opened Model
  import opened Bucketing
  import opened GoEval
  import Clauses
  import Decimal

  type Order = Clauses.Order

  /** A flag that is on is blocked by its first prerequisite that is missing, off or serving
      another variation, and by no other; it then serves its off-variation. */
  lemma FirstUnmetBlocks(w: World, o: Order, flag: Flag, cfg: FlagConfig, p: nat)
    requires Clauses.Acyclic(w.store, o) && cfg.on && p < |cfg.prerequisites|
    ensures Decided(w, o, flag, cfg, []) == Blocked(p) <==>
            && !Met(w, o, cfg.prerequisites[p], [flag.key])
            && forall i | 0 <= i < p :: Met(w, o, cfg.prerequisites[i], [flag.key])
    ensures Decided(w, o, flag, cfg, []) == Blocked(p) ==>
              Result(w, o, flag, cfg, []) == OffResult(flag, cfg, Blames(cfg.prerequisites[p].flagKey))
  {
    assert [] + [flag.key] == [flag.key];
    var first := FirstUnmet(w, o, cfg.prerequisites, [flag.key], 0);
    assert Decided(w, o, flag, cfg, []) == if first < |cfg.prerequisites| then Blocked(first) else Tail(w, o, cfg);
  }

  /** The specification promises PREREQUISITE_CYCLE for a cycle, but the top-level call can
      never return it: nothing is on its path yet, and callers drop the reasons of nested
      calls. */
  lemma CycleErrorNeverSurfaces(w: World, o: Order, flag: Flag, cfg: FlagConfig)
    requires Clauses.Acyclic(w.store, o)
    ensures Decided(w, o, flag, cfg, []) != Cyclic
    ensures Result(w, o, flag, cfg, []).reason.errorKind != Some(PrerequisiteCycle)
  {
  }

  ghost predicate ServesOff(flag: Flag, cfg: FlagConfig, variation: int) {
    cfg.offVariation == Some(variation) && 0 <= variation < |flag.variations|
  }

  /** A prerequisite that closes a cycle is met exactly when it asks for the off-variation. */
  lemma ClosingACycle(w: World, o: Order, p: Prerequisite, path: seq<string>)
    requires Clauses.Acyclic(w.store, o) && |path| <= MAX_PREREQUISITE_DEPTH + 1
    requires p.flagKey in path && p.flagKey in w.store.flags
    requires w.store.flags[p.flagKey].flag.key == p.flagKey && w.store.flags[p.flagKey].config.on
    ensures Met(w, o, p, path) <==>
            ServesOff(w.store.flags[p.flagKey].flag, w.store.flags[p.flagKey].config, p.variation)
  {
  }

  /** So a flag that is its own prerequisite is blocked, unless it asks itself for its
      off-variation: then evaluation goes on as if there were no cycle. */
  lemma SelfPrerequisite(w: World, o: Order, flag: Flag, cfg: FlagConfig, variation: int)
    requires Clauses.Acyclic(w.store, o) && cfg.on
    requires flag.key in w.store.flags && w.store.flags[flag.key] == Entry(flag, cfg)
    requires cfg.prerequisites == [Prerequisite(flag.key, variation)]
    ensures Decided(w, o, flag, cfg, []) ==
            if ServesOff(flag, cfg, variation) then Tail(w, o, cfg) else Blocked(0)
    ensures Decided(w, o, flag, cfg.(prerequisites := []), []) == Tail(w, o, cfg)
  {
    assert [] + [flag.key] == [flag.key];
    ClosingACycle(w, o, cfg.prerequisites[0], [flag.key]);
    var first := FirstUnmet(w, o, cfg.prerequisites, [flag.key], 0);
  }

  // ----- Long chains -----

  const CHAIN_VARIATIONS: seq<Variation> := [Variation("off", Bool(false)), Variation("on", Bool(true))]

  function LinkFlag(i: nat): Flag {
    Flag(Decimal.Render(i), "", CHAIN_VARIATIONS, false)
  }

  function LinkConfig(i: nat): FlagConfig {
    FlagConfig(true, if i == 0 then [] else [Prerequisite(Decimal.Render(i - 1), 1)], [], [],
               VariationOrRollout(Some(1), None), Some(0), "", "")
  }

  /** Flags 0 to n, each asking the one before it for its second variation. */
  function Chain(n: nat): map<string, Entry> {
    (if n == 0 then map[] else Chain(n - 1))[Decimal.Render(n) := Entry(LinkFlag(n), LinkConfig(n))]
  }

  /** The store has flags 0 to n of the chain, whatever else it has. */
  ghost predicate HasLinks(store: Store, n: nat) {
    forall i: nat | i <= n :: Linked(store, i)
  }

  ghost predicate Linked(store: Store, i: nat) {
    && Decimal.Render(i) in store.flags
    && store.flags[Decimal.Render(i)] == Entry(LinkFlag(i), LinkConfig(i))
  }

  lemma {:induction false} ChainHas(store: Store, n: nat, i: nat)
    requires i <= n && forall k | k in Chain(n) :: k in store.flags && store.flags[k] == Chain(n)[k]
    ensures Linked(store, i)
  {
    if i < n {
      forall k | k in Chain(n - 1) ensures k in store.flags && store.flags[k] == Chain(n - 1)[k] {
        LinkBelow(n, k);
      }
      ChainHas(store, n - 1, i);
    } else {
      assert Decimal.Render(n) in Chain(n);
    }
  }

  /** A longer chain leaves the shorter one as it is. */
  lemma LinkBelow(n: nat, k: string)
    requires n > 0 && k in Chain(n - 1)
    ensures Chain(n)[k] == Chain(n - 1)[k]
  {
    var i := LinkNumber(n - 1, k);
    if k == Decimal.Render(n) {
      Decimal.RenderInjective(i, n);
    }
  }

  lemma {:induction false} LinkNumber(n: nat, k: string) returns (i: nat)
    requires k in Chain(n)
    ensures i <= n && k == Decimal.Render(i)
  {
    if k == Decimal.Render(n) {
      i := n;
    } else {
      i := LinkNumber(n - 1, k);
    }
  }

  lemma ChainHasLinks(store: Store, n: nat)
    requires store.flags == Chain(n)
    ensures HasLinks(store, n)
  {
    forall i: nat | i <= n ensures Linked(store, i) {
      ChainHas(store, n, i);
    }
  }

  /** The path on which the chain's evaluation reaches flag i. */
  function PathTo(n: nat, i: nat): seq<string>
    requires i <= n
    decreases n - i
  {
    if i == n then [] else PathTo(n, i + 1) + [Decimal.Render(i + 1)]
  }

  lemma {:induction false} PathLength(n: nat, i: nat, j: nat)
    requires j <= i <= n
    ensures |PathTo(n, i)| == n - i && Decimal.Render(j) !in PathTo(n, i)
    decreases n - i
  {
    if i < n {
      PathLength(n, i + 1, j);
      if Decimal.Render(j) == Decimal.Render(i + 1) {
        Decimal.RenderInjective(j, i + 1);
      }
    }
  }

  lemma {:induction false} LinkServes(w: World, o: Order, n: nat, i: nat)
    requires Clauses.Acyclic(w.store, o) && HasLinks(w.store, n)
    requires i <= n && |PathTo(n, i)| == n - i <= MAX_PREREQUISITE_DEPTH + 1
    ensures Decided(w, o, LinkFlag(i), LinkConfig(i), PathTo(n, i)) ==
            if n - i > MAX_PREREQUISITE_DEPTH then Cyclic
            else if n <= MAX_PREREQUISITE_DEPTH then FellThrough
            else Blocked(0)
  {
    hide FirstUnmet, Met, Outcome, PathTo;
    PathLength(n, i, i);
    if n - i <= MAX_PREREQUISITE_DEPTH {
      if i == 0 {
        Unblocked(w, o, LinkFlag(i), LinkConfig(i), PathTo(n, i));
      } else {
        PathLength(n, i - 1, 0);
        LinkServes(w, o, n, i - 1);
        assert Linked(w.store, i - 1);
        LinkFollows(w, o, n, i);
      }
    }
  }

  lemma Unblocked(w: World, o: Order, flag: Flag, cfg: FlagConfig, path: seq<string>)
    requires Clauses.Acyclic(w.store, o) && |path| <= MAX_PREREQUISITE_DEPTH
    requires cfg.on && flag.key !in path && cfg.prerequisites == []
    ensures Decided(w, o, flag, cfg, path) == Tail(w, o, cfg)
  {
  }

  lemma LinkFollows(w: World, o: Order, n: nat, i: nat)
    requires Clauses.Acyclic(w.store, o) && 0 < i <= n && n - i <= MAX_PREREQUISITE_DEPTH
    requires |PathTo(n, i)| == n - i && |PathTo(n, i - 1)| == n - i + 1 && Decimal.Render(i) !in PathTo(n, i)
    requires Decimal.Render(i - 1) in w.store.flags
    requires w.store.flags[Decimal.Render(i - 1)] == Entry(LinkFlag(i - 1), LinkConfig(i - 1))
    ensures Decided(w, o, LinkFlag(i), LinkConfig(i), PathTo(n, i)) ==
            if Decided(w, o, LinkFlag(i - 1), LinkConfig(i - 1), PathTo(n, i - 1)) == FellThrough then FellThrough
            else Blocked(0)
  {
    var below := Decided(w, o, LinkFlag(i - 1), LinkConfig(i - 1), PathTo(n, i - 1));
    var p := LinkConfig(i).prerequisites[0];
    assert Met(w, o, p, PathTo(n, i - 1)) <==> below == FellThrough;
    assert FirstUnmet(w, o, LinkConfig(i).prerequisites, PathTo(n, i - 1), 0) == if below == FellThrough then 1 else 0;
  }

  /** The limit is exact: the head of a chain of n prerequisites serves its fallthrough if n
      is at most 20, and is blocked otherwise. */
  lemma ChainServed(w: World, o: Order, n: nat)
    requires Clauses.Acyclic(w.store, o) && HasLinks(w.store, n)
    ensures Result(w, o, LinkFlag(n), LinkConfig(n), []) ==
            if n <= 20 then EvalResult(Some(1), Bool(true), Because(Fallthrough))
            else EvalResult(Some(0), Bool(false), Blames(Decimal.Render(n - 1)))
  {
    LinkServes(w, o, n, n);
  }
}
