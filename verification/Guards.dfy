/** What the guards of evaluation do: nothing at all while prerequisites are acyclic and at
    most 20 levels deep, and what exactly once they are not. */
module Guards {
  import opened Model
  import opened Bucketing
  import opened GoEval
  import Clauses

  type Order = Clauses.Order

  /** Prerequisites on flags that are on have a rank below r. */
  ghost predicate Below(store: Store, rank: string -> nat, ps: seq<Prerequisite>, r: nat) {
    forall p | p in ps && p.flagKey in store.flags && store.flags[p.flagKey].config.on :: rank(p.flagKey) < r
  }

  /** The rank goes down along the prerequisites of flags that are on, and flags are stored
      under their own keys. */
  ghost predicate Ranked(store: Store, rank: string -> nat) {
    && (forall k | k in store.flags :: store.flags[k].flag.key == k)
    && (forall k | k in store.flags && store.flags[k].config.on ::
          Below(store, rank, store.flags[k].config.prerequisites, rank(k)))
  }

  // ----- Evaluation without guards -----

  /** The prerequisite's flag is on, and what it decides serves the variation asked for. */
  ghost predicate Satisfied(w: World, o: Order, rank: string -> nat, p: Prerequisite, r: nat)
    requires Clauses.Acyclic(w.store, o) && Ranked(w.store, rank) && Below(w.store, rank, [p], r)
    decreases r, 0
  {
    && p.flagKey in w.store.flags
    && w.store.flags[p.flagKey].config.on
    && var e := w.store.flags[p.flagKey];
       assert p in [p];
       exists d :: Decides(w, o, rank, e.flag, e.config, d) && Outcome(w, e.flag, e.config, d).index == Some(p.variation)
  }

  /** The first j prerequisites are satisfied. */
  ghost predicate SatisfiedUpTo(w: World, o: Order, rank: string -> nat, ps: seq<Prerequisite>, j: nat, r: nat)
    requires Clauses.Acyclic(w.store, o) && Ranked(w.store, rank) && Below(w.store, rank, ps, r) && j <= |ps|
    decreases r, 1
  {
    forall i | 0 <= i < j :: Satisfied(w, o, rank, ps[i], r)
  }

  /** The decision d is the right one: every earlier step of the algorithm lets the context
      through, and d's step does not. */
  ghost predicate Decides(w: World, o: Order, rank: string -> nat, flag: Flag, cfg: FlagConfig, d: Decision)
    requires Clauses.Acyclic(w.store, o) && Ranked(w.store, rank)
    requires cfg.on ==> Below(w.store, rank, cfg.prerequisites, rank(flag.key))
    ensures Decides(w, o, rank, flag, cfg, d) ==> InRange(cfg, d)
    decreases rank(flag.key), 2
  {
    if !cfg.on then d == TurnedOff
    else
      var r := rank(flag.key);
      match d
      case TurnedOff => false
      case Cyclic => false
      case Blocked(p) =>
        && p < |cfg.prerequisites|
        && SatisfiedUpTo(w, o, rank, cfg.prerequisites, p, r)
        && !Satisfied(w, o, rank, cfg.prerequisites[p], r)
      case Targeted(t) =>
        && SatisfiedUpTo(w, o, rank, cfg.prerequisites, |cfg.prerequisites|, r)
        && t < |cfg.targets| && FirstTargetAt(w, cfg, t)
      case Ruled(i) =>
        && SatisfiedUpTo(w, o, rank, cfg.prerequisites, |cfg.prerequisites|, r)
        && Untargeted(w, cfg, |cfg.targets|)
        && i < |cfg.rules| && Unruled(w, o, cfg, i) && Clauses.RuleHolds(w, o, cfg.rules[i])
      case FellThrough =>
        && SatisfiedUpTo(w, o, rank, cfg.prerequisites, |cfg.prerequisites|, r)
        && Untargeted(w, cfg, |cfg.targets|)
        && Unruled(w, o, cfg, |cfg.rules|)
  }

  ghost predicate Untargeted(w: World, cfg: FlagConfig, t: nat)
    requires t <= |cfg.targets|
  {
    forall j | 0 <= j < t :: w.ctx.key !in cfg.targets[j].contextKeys
  }

  ghost predicate FirstTargetAt(w: World, cfg: FlagConfig, t: nat)
    requires t < |cfg.targets|
  {
    Untargeted(w, cfg, t) && w.ctx.key in cfg.targets[t].contextKeys
  }

  ghost predicate Unruled(w: World, o: Order, cfg: FlagConfig, i: nat)
    requires Clauses.Acyclic(w.store, o) && i <= |cfg.rules|
  {
    forall j | 0 <= j < i :: !Clauses.RuleHolds(w, o, cfg.rules[j])
  }

  // ----- The guards are transparent -----

  /** The flags under evaluation rank above this one, and there is room for all below it. */
  ghost predicate Room(rank: string -> nat, key: string, path: seq<string>) {
    && |path| + rank(key) <= MAX_PREREQUISITE_DEPTH
    && forall k | k in path :: rank(key) < rank(k)
  }

  /** However many routes lead to a flag, the guards leave its decision alone. */
  lemma {:induction false} Transparent(w: World, o: Order, rank: string -> nat, flag: Flag, cfg: FlagConfig,
                                         path: seq<string>, d: Decision)
    requires Clauses.Acyclic(w.store, o) && Ranked(w.store, rank) && |path| <= MAX_PREREQUISITE_DEPTH + 1
    requires cfg.on ==> Below(w.store, rank, cfg.prerequisites, rank(flag.key)) && Room(rank, flag.key, path)
    ensures Decides(w, o, rank, flag, cfg, d) <==> d == Decided(w, o, flag, cfg, path)
    decreases rank(flag.key), 1
  {
    if cfg.on {
      var deeper := path + [flag.key];
      forall i | 0 <= i < |cfg.prerequisites|
        ensures Satisfied(w, o, rank, cfg.prerequisites[i], rank(flag.key)) <==> Met(w, o, cfg.prerequisites[i], deeper)
      {
        SatisfiedIffMet(w, o, rank, cfg.prerequisites[i], rank(flag.key), deeper);
      }
      var p := FirstUnmet(w, o, cfg.prerequisites, deeper, 0);
      DecidesPrerequisites(w, o, rank, flag, cfg, p, d);
    }
  }

  lemma SatisfiedIffMet(w: World, o: Order, rank: string -> nat, p: Prerequisite, r: nat, path: seq<string>)
    requires Clauses.Acyclic(w.store, o) && Ranked(w.store, rank) && Below(w.store, rank, [p], r)
    requires |path| + r <= MAX_PREREQUISITE_DEPTH + 1 && forall k | k in path :: r <= rank(k)
    ensures Satisfied(w, o, rank, p, r) <==> Met(w, o, p, path)
    decreases r, 0
  {
    if p.flagKey in w.store.flags && w.store.flags[p.flagKey].config.on {
      var e := w.store.flags[p.flagKey];
      assert p in [p];
      var decided := Decided(w, o, e.flag, e.config, path);
      forall d ensures Decides(w, o, rank, e.flag, e.config, d) <==> d == decided {
        Transparent(w, o, rank, e.flag, e.config, path, d);
      }
    }
  }

  /** Knowing the first unsatisfied prerequisite, there is one right decision. */
  lemma DecidesPrerequisites(w: World, o: Order, rank: string -> nat, flag: Flag, cfg: FlagConfig, p: nat, d: Decision)
    requires Clauses.Acyclic(w.store, o) && Ranked(w.store, rank) && cfg.on
    requires Below(w.store, rank, cfg.prerequisites, rank(flag.key)) && p <= |cfg.prerequisites|
    requires SatisfiedUpTo(w, o, rank, cfg.prerequisites, p, rank(flag.key))
    requires p < |cfg.prerequisites| ==> !Satisfied(w, o, rank, cfg.prerequisites[p], rank(flag.key))
    ensures Decides(w, o, rank, flag, cfg, d) <==> d == if p < |cfg.prerequisites| then Blocked(p) else Tail(w, o, cfg)
  {
    if p == |cfg.prerequisites| {
      TailDecides(w, o, cfg, d);
    }
  }

  lemma TailDecides(w: World, o: Order, cfg: FlagConfig, d: Decision)
    requires Clauses.Acyclic(w.store, o)
    ensures d == Tail(w, o, cfg) <==>
            match d
            case Targeted(t) => t < |cfg.targets| && FirstTargetAt(w, cfg, t)
            case Ruled(i) =>
              && Untargeted(w, cfg, |cfg.targets|)
              && i < |cfg.rules| && Unruled(w, o, cfg, i) && Clauses.RuleHolds(w, o, cfg.rules[i])
            case FellThrough => Untargeted(w, cfg, |cfg.targets|) && Unruled(w, o, cfg, |cfg.rules|)
            case _ => false
  {
    var t := FirstTarget(cfg.targets, w.ctx.key, 0);
    var i := FirstRule(w, o, cfg.rules, 0);
  }

  /** With acyclic prerequisites at most 20 levels deep, `Evaluate` serves what the
      evaluation without guards serves, and nothing else is right. */
  lemma GuardTransparency(w: World, o: Order, rank: string -> nat, flag: Flag, cfg: FlagConfig, d: Decision)
    requires Clauses.Acyclic(w.store, o) && Ranked(w.store, rank)
    requires cfg.on ==> Below(w.store, rank, cfg.prerequisites, rank(flag.key)) && rank(flag.key) <= 20
    ensures Decides(w, o, rank, flag, cfg, Decided(w, o, flag, cfg, []))
    ensures Decides(w, o, rank, flag, cfg, d) ==> Result(w, o, flag, cfg, []) == Outcome(w, flag, cfg, d)
  {
    Transparent(w, o, rank, flag, cfg, [], d);
    Transparent(w, o, rank, flag, cfg, [], Decided(w, o, flag, cfg, []));
  }
}
