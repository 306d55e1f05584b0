/** The configuration entities that every part of Pennant shares: flags, their
    per-environment configuration, segments, contexts, snapshots and the messages
    that carry snapshots to clients. */
module Model {

  datatype Option<+T> = None | Some(value: T)

  /** A decoded JSON value. `Int` is a native Go `int` or `int64` that a caller put
      into a context by hand: JSON decoding yields only `Num`. */
  datatype Value =
    | Null
    | Bool(b: bool)
    | Int(i: int)
    | Num(r: real)
    | Str(s: string)
    | Arr(elems: seq<Value>)
    | Obj(fields: map<string, Value>)

  datatype Variation = Variation(id: string, value: Value)

  /** Here and below `details` stands for all the rest of an entity: names, descriptions,
      types, tags, timestamps and the like, which travel with it but no modelled decision
      reads. */
  datatype Flag = Flag(key: string, details: string, variations: seq<Variation>, archived: bool)

  datatype Prerequisite = Prerequisite(flagKey: string, variation: int)

  datatype Target = Target(variation: int, contextKeys: seq<string>)

  datatype WeightedVariation = WeightedVariation(variation: int, weight: int)

  datatype Rollout = Rollout(variations: seq<WeightedVariation>, bucketBy: string, seed: Option<int>, isExperiment: bool)

  datatype VariationOrRollout = VariationOrRollout(variation: Option<int>, rollout: Option<Rollout>)

  datatype Operator = SegmentMatch | Compare(name: string)

  datatype Clause = Clause(attribute: string, op: Operator, values: seq<Value>, negate: bool)

  datatype Rule = Rule(id: string, clauses: seq<Clause>, serve: VariationOrRollout)

  datatype FlagConfig = FlagConfig(
    on: bool,
    prerequisites: seq<Prerequisite>,
    targets: seq<Target>,
    rules: seq<Rule>,
    otherwise: VariationOrRollout,
    offVariation: Option<int>,
    salt: string,
    details: string)

  datatype SegmentRule = SegmentRule(clauses: seq<Clause>, weight: Option<int>, bucketBy: string)

  datatype Segment = Segment(
    key: string,
    details: string,
    included: seq<string>,
    excluded: seq<string>,
    rules: seq<SegmentRule>,
    salt: string)

  /** `kind` and `anonymous` are `None` when the caller left them out: Go then reads
      its zero values, TypeScript its own defaults. */
  datatype Context = Context(key: string, kind: Option<string>, anonymous: Option<bool>, attributes: map<string, Value>)

  datatype ResolvedFlag = ResolvedFlag(key: string, flag: Flag, config: FlagConfig)

  datatype Snapshot = Snapshot(
    environmentKey: string,
    projectKey: string,
    version: int,
    flags: map<string, ResolvedFlag>,
    segments: map<string, Segment>,
    checksum: string,
    publishedAt: int)

  /** The same flags and segments at the same version of the same environment. */
  predicate SameContent(s: Snapshot, t: Snapshot) {
    && s.environmentKey == t.environmentKey
    && s.projectKey == t.projectKey
    && s.version == t.version
    && s.flags == t.flags
    && s.segments == t.segments
  }

  /** A server-sent event on its way through the hub, which never looks at its data. */
  datatype Message<+D> = Message(event: string, version: int, data: D)

  /** The messages of `log` with a version above `v`, in order. */
  function Above<D>(log: seq<Message<D>>, v: int): seq<Message<D>> {
    if log == [] then []
    else (if log[0].version > v then [log[0]] else []) + Above(log[1..], v)
  }

  lemma {:induction false} AboveAppend<D>(a: seq<Message<D>>, b: seq<Message<D>>, v: int)
    ensures Above(a + b, v) == Above(a, v) + Above(b, v)
  {
    if a == [] {
      assert a + b == b;
    } else {
      assert (a + b)[0] == a[0] && (a + b)[1..] == a[1..] + b;
      AboveAppend(a[1..], b, v);
    }
  }

  lemma {:induction false} AboveNone<D>(log: seq<Message<D>>, v: int)
    requires forall m :: m in log ==> m.version <= v
    ensures Above(log, v) == []
  {
    if log != [] {
      AboveNone(log[1..], v);
    }
  }

  lemma {:induction false} AboveAll<D>(log: seq<Message<D>>, v: int)
    requires forall m :: m in log ==> m.version > v
    ensures Above(log, v) == log
  {
    if log != [] {
      AboveAll(log[1..], v);
    }
  }

  lemma {:induction false} AboveMember<D>(log: seq<Message<D>>, v: int, m: Message<D>)
    ensures m in Above(log, v) <==> m in log && m.version > v
  {
    if log != [] {
      AboveMember(log[1..], v, m);
    }
  }

  ghost predicate Increasing<D>(log: seq<Message<D>>) {
    forall i, j | 0 <= i < j < |log| :: log[i].version < log[j].version
  }
}
