/** What both evaluators are given: contexts and their attributes, the configuration they
    look flags and segments up in, and the host's operators and hash. And the bucket of a
    context, in Go (internal/eval/bucket.go) and in TypeScript (sdk/ts/src/bucket.ts). */
module Bucketing {
  import opened Model
  import Decimal
  import Rollout

  datatype Entry = Entry(flag: Flag, config: FlagConfig)

  datatype Store = Store(flags: map<string, Entry>, segments: map<string, Segment>)

  /** The parts of the host both evaluators rely on and the model leaves open: what a
      comparison operator says, the hash prefix of a string, how JavaScript's `String` renders
      a value, and how JavaScript prints the number it has read for an integer in JSON, which
      is the nearest double. */
  datatype Host = Host(
    op: (string, Value, Value) -> bool,
    hash: string -> Rollout.Prefix,
    jsString: Value -> string,
    jsNumber: int -> string)

  datatype World = World(host: Host, store: Store, ctx: Context)

  function GoAttribute(ctx: Context, name: string): Option<Value> {
    if name == "key" then Some(Str(ctx.key))
    else if name == "kind" then Some(Str(if ctx.kind.Some? then ctx.kind.value else ""))
    else if name == "anonymous" then Some(Bool(ctx.anonymous.Some? && ctx.anonymous.value))
    else if name in ctx.attributes then Some(ctx.attributes[name])
    else None
  }

  function TsAttribute(ctx: Context, name: string): Option<Value> {
    if name == "key" then Some(Str(ctx.key))
    else if name == "kind" then Some(Str(if ctx.kind.Some? then ctx.kind.value else "user"))
    else if name == "anonymous" then Some(Bool(if ctx.anonymous.Some? then ctx.anonymous.value else false))
    else if name in ctx.attributes then Some(ctx.attributes[name])
    else None
  }

  /** What the two readers find under a name. The three names every context has cannot be
      overridden by attributes; where the caller left kind or anonymity out, Go reads the empty
      string and TypeScript "user", and both read that the context is not anonymous. */
  lemma AttributeTable(ctx: Context, name: string)
    ensures GoAttribute(ctx, "key") == TsAttribute(ctx, "key") == Some(Str(ctx.key))
    ensures GoAttribute(ctx, "anonymous") == TsAttribute(ctx, "anonymous") == Some(Bool(ctx.anonymous == Some(true)))
    ensures ctx.kind.Some? ==> GoAttribute(ctx, "kind") == TsAttribute(ctx, "kind") == Some(Str(ctx.kind.value))
    ensures ctx.kind.None? ==> GoAttribute(ctx, "kind") == Some(Str("")) && TsAttribute(ctx, "kind") == Some(Str("user"))
    ensures name !in ["key", "kind", "anonymous"] ==>
              GoAttribute(ctx, name) == TsAttribute(ctx, name) ==
              if name in ctx.attributes then Some(ctx.attributes[name]) else None
  {
  }

  const INTEGRAL_LIMIT: real := 1000000000000000.0

  /** Only strings and integral numbers are valid bucketing values. */
  function GoStringify(v: Value): Option<string> {
    match v
    case Str(s) => Some(s)
    case Int(i) => Some(Decimal.Render(i))
    case Num(r) =>
      if r == r.Floor as real && -INTEGRAL_LIMIT < r < INTEGRAL_LIMIT then Some(Decimal.Render(r.Floor)) else None
    case _ => None
  }

  /** JavaScript has no integers apart from its numbers. */
  function TsStringify(v: Value): Option<string> {
    match v
    case Str(s) => Some(s)
    case Int(i) =>
      if -INTEGRAL_LIMIT < i as real < INTEGRAL_LIMIT then Some(Decimal.Render(i)) else None
    case Num(r) =>
      if r == r.Floor as real && -INTEGRAL_LIMIT < r < INTEGRAL_LIMIT then Some(Decimal.Render(r.Floor)) else None
    case _ => None
  }

  /** With a seed the flag's key and salt play no part. */
  function GoHashInput(key: string, salt: string, seed: Option<int>, id: string): string {
    if seed.Some? then Decimal.Render(seed.value) + "." + id else key + "." + salt + "." + id
  }

  function TsHashInput(host: Host, key: string, salt: string, seed: Option<int>, id: string): string {
    match seed
    case Some(n) => host.jsNumber(n) + "." + id
    case None => key + "." + salt + "." + id
  }

  function BucketBy(bucketBy: string): string {
    if bucketBy == "" then "key" else bucketBy
  }

  /** A context without a usable bucketing value falls into bucket 0. */
  function GoPrefix(w: World, bucketBy: string, key: string, salt: string, seed: Option<int>): Rollout.Prefix {
    var a := GoAttribute(w.ctx, BucketBy(bucketBy));
    var id := if a.Some? then GoStringify(a.value) else None;
    if id.Some? then w.host.hash(GoHashInput(key, salt, seed, id.value)) else 0
  }

  function TsPrefix(w: World, bucketBy: string, key: string, salt: string, seed: Option<int>): Rollout.Prefix {
    var a := TsAttribute(w.ctx, BucketBy(bucketBy));
    if a.None? || a.value.Null? then 0
    else
      var id := TsStringify(a.value);
      if id.None? then 0 else w.host.hash(TsHashInput(w.host, key, salt, seed, id.value))
  }

  /** Within one rollout, or one seed, different ids are hashed from different texts. */
  lemma HashInputsTellIds(key: string, salt: string, seed: Option<int>, id: string, other: string)
    ensures GoHashInput(key, salt, seed, id) == GoHashInput(key, salt, seed, other) <==> id == other
  {
    HashInputParts(key, salt, seed, id);
    HashInputParts(key, salt, seed, other);
    var prefix := HashPrefix(key, salt, seed) + ".";
    assert (prefix + id)[|prefix|..] == id && (prefix + other)[|prefix|..] == other;
  }

  /** What precedes the last dot and the id. */
  function HashPrefix(key: string, salt: string, seed: Option<int>): string {
    if seed.Some? then Decimal.Render(seed.value) else key + "." + salt
  }

  lemma HashInputParts(key: string, salt: string, seed: Option<int>, id: string)
    ensures GoHashInput(key, salt, seed, id) == HashPrefix(key, salt, seed) + "." + id
  {
  }

  lemma SameBefore(a: string, b: string, end: string)
    ensures a + end == b + end <==> a == b
  {
    if a + end == b + end {
      assert |a| == |b|;
      assert a == (a + end)[..|a|] && b == (b + end)[..|b|];
    }
  }

  /** When two rollouts bucket an id alike because they hash the same text: with seeds exactly
      if the seeds are equal, whatever the flags; without, exactly if key, dot and salt read
      the same; and never if only one of them has a seed. */
  lemma SharedBucketsIff(key: string, salt: string, seed: Option<int>, key': string, salt': string, seed': Option<int>, id: string)
    ensures GoHashInput(key, salt, seed, id) == GoHashInput(key', salt', seed', id) <==>
            match (seed, seed')
            case (Some(n), Some(n')) => n == n'
            case (None, None) => key + "." + salt == key' + "." + salt'
            case _ => false
  {
    HashInputParts(key, salt, seed, id);
    HashInputParts(key', salt', seed', id);
    var a, b := HashPrefix(key, salt, seed), HashPrefix(key', salt', seed');
    assert a + "." + id == a + ("." + id) && b + "." + id == b + ("." + id);
    SameBefore(a, b, "." + id);
    match (seed, seed')
    case (Some(n), Some(n')) =>
      if a == b {
        Decimal.RenderInjective(n, n');
      }
    case (None, Some(n')) => NoDot(n', key, salt);
    case (Some(n), None) => NoDot(n, key', salt');
    case _ =>
  }

  lemma NoDot(n: int, key: string, salt: string)
    ensures Decimal.Render(n) != key + "." + salt
  {
    assert '.' !in Decimal.Render(n) by {
      assert forall c | c in Decimal.Render(n) :: c == '-' || Decimal.IsDigit(c);
    }
    assert (key + "." + salt)[|key|] == '.';
  }

  /** What a caller can look at: as long as flag keys contain no dot, flags share their buckets
      only if key and salt are the same. With dots they can coincide. */
  lemma DotFreeKeysKeepApart(key: string, salt: string, key': string, salt': string)
    ensures '.' !in key && '.' !in key' ==>
              (key + "." + salt == key' + "." + salt' <==> key == key' && salt == salt')
  {
    if '.' !in key && '.' !in key' && key + "." + salt == key' + "." + salt' {
      var text, text' := key + "." + salt, key' + "." + salt';
      assert text[|key|] == '.' && text'[|key'|] == '.';
      assert forall i | 0 <= i < |key| :: text[i] == key[i] && key[i] in key;
      assert forall i | 0 <= i < |key'| :: text'[i] == key'[i] && key'[i] in key';
      assert |key| == |key'|;
      assert key == text[..|key|] && salt == text[|key| + 1..];
      assert key' == text'[..|key'|] && salt' == text'[|key'| + 1..];
    }
  }

  lemma DotsMakeFlagsShareBuckets(a: string, b: string, c: string, id: string)
    ensures GoHashInput(a + "." + b, c, None, id) == GoHashInput(a, b + "." + c, None, id)
  {
    SharedBucketsIff(a + "." + b, c, None, a, b + "." + c, None, id);
    assert a + "." + b + "." + c == a + "." + (b + "." + c);
  }

  /** JavaScript prints the seed as Go does. So it is for every seed that a double holds. */
  predicate PortableSeed(host: Host, seed: Option<int>) {
    seed.None? || host.jsNumber(seed.value) == Decimal.Render(seed.value)
  }

  /** Exactly then the two languages hash the same text. */
  lemma HashInputsAgreeIff(host: Host, key: string, salt: string, seed: Option<int>, id: string)
    ensures TsHashInput(host, key, salt, seed, id) == GoHashInput(key, salt, seed, id) <==> PortableSeed(host, seed)
  {
    if seed.Some? {
      var ts, go := host.jsNumber(seed.value), Decimal.Render(seed.value);
      assert ts + "." + id == ts + ("." + id) && go + "." + id == go + ("." + id);
      SameBefore(ts, go, "." + id);
    }
  }

  /** The context says the same to both languages: its kind is set, no attribute is null,
      and a native integer fits the range in which JavaScript keeps it. */
  ghost predicate PortableContext(ctx: Context) {
    && ctx.kind.Some?
    && forall name | name in ctx.attributes ::
         && ctx.attributes[name] != Null
         && (ctx.attributes[name].Int? ==> -INTEGRAL_LIMIT < ctx.attributes[name].i as real < INTEGRAL_LIMIT)
  }

  lemma AttributesAgree(ctx: Context, name: string)
    requires PortableContext(ctx)
    ensures GoAttribute(ctx, name) == TsAttribute(ctx, name)
    ensures GoAttribute(ctx, name) != Some(Null)
  {
  }

  lemma PrefixesAgree(w: World, bucketBy: string, key: string, salt: string, seed: Option<int>)
    requires PortableContext(w.ctx) && PortableSeed(w.host, seed)
    ensures GoPrefix(w, bucketBy, key, salt, seed) == TsPrefix(w, bucketBy, key, salt, seed)
  {
    AttributesAgree(w.ctx, BucketBy(bucketBy));
    var a := GoAttribute(w.ctx, BucketBy(bucketBy));
    if a.Some? && GoStringify(a.value).Some? {
      HashInputsAgreeIff(w.host, key, salt, seed, GoStringify(a.value).value);
    }
  }
}
