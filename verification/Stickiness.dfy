/** What a context's bucket depends on: the one attribute the rollout names, and nothing else
    about the context. */
module Stickiness {
  import opened Model
  import opened Bucketing
  import opened GoEval
  import Clauses
  import Decimal
  import Rollout
  import TsEval

  /** The text of a value that can be bucketed name: strings as they are, and numbers without
      fractions and of less than sixteen digits. */
  predicate ReadsAs(v: Value, s: string) {
    || v == Str(s)
    || (v.Int? && s == Decimal.Render(v.i))
    || (v.Num? && v.r == v.r.Floor as real && -1_000_000_000_000_000.0 < v.r < 1_000_000_000_000_000.0
        && s == Decimal.Render(v.r.Floor))
  }

  /** What the rollout names: an attribute the caller set, or one that every context has. */
  predicate Names(ctx: Context, name: string, s: string) {
    match name
    case "" => s == ctx.key
    case "key" => s == ctx.key
    case "kind" => ctx.kind == Some(s)
    case "anonymous" => false
    case _ => name in ctx.attributes && ReadsAs(ctx.attributes[name], s)
  }

  /** The name is one that only the caller's attributes have. */
  predicate Custom(name: string) {
    name != "" && name != "key" && name != "kind" && name != "anonymous"
  }

  /** In both languages the text is hashed behind the seed, or else behind the flag's key and
      salt. */
  lemma BucketOfText(w: World, name: string, key: string, salt: string, seed: Option<int>, s: string)
    requires Names(w.ctx, name, s)
    ensures seed.None? ==> GoPrefix(w, name, key, salt, seed) == w.host.hash(key + "." + salt + "." + s)
    ensures seed.Some? ==> GoPrefix(w, name, key, salt, seed) == w.host.hash(Decimal.Render(seed.value) + "." + s)
  {
    var a := GoAttribute(w.ctx, BucketBy(name));
    assert a.Some? && GoStringify(a.value) == Some(s) by {
      hide Decimal.Render;
    }
  }

  lemma TsBucketOfText(w: World, name: string, key: string, salt: string, seed: Option<int>, s: string)
    requires Names(w.ctx, name, s)
    requires Custom(name) && w.ctx.attributes[name].Int? ==> -1_000_000_000_000_000 < w.ctx.attributes[name].i < 1_000_000_000_000_000
    ensures seed.None? ==> TsPrefix(w, name, key, salt, seed) == w.host.hash(key + "." + salt + "." + s)
    ensures seed.Some? ==> TsPrefix(w, name, key, salt, seed) == w.host.hash(w.host.jsNumber(seed.value) + "." + s)
  {
    var a := TsAttribute(w.ctx, BucketBy(name));
    assert a.Some? && a.value != Null && TsStringify(a.value) == Some(s) by {
      hide Decimal.Render;
    }
  }

  /** Without such a text everyone is in bucket 0. */
  lemma NoTextNoBucket(w: World, name: string, key: string, salt: string, seed: Option<int>)
    requires Custom(name) || name == "anonymous"
    requires forall s :: !Names(w.ctx, name, s)
    ensures GoPrefix(w, name, key, salt, seed) == 0 == TsPrefix(w, name, key, salt, seed)
  {
    if Custom(name) && name in w.ctx.attributes {
      var v := w.ctx.attributes[name];
      OnlyReadable(v);
      assert forall s :: Names(w.ctx, name, s) <==> ReadsAs(v, s);
      hide GoStringify, TsStringify, ReadsAs, Names;
    }
  }

  lemma OnlyReadable(v: Value)
    ensures GoStringify(v).Some? ==> ReadsAs(v, GoStringify(v).value)
    ensures TsStringify(v).Some? ==> ReadsAs(v, TsStringify(v).value)
  {
    hide Decimal.Render;
  }

  /** In TypeScript native integers of sixteen digits and more have no text. */
  lemma TsLargeInteger(w: World, name: string, key: string, salt: string, seed: Option<int>)
    requires Custom(name) && name in w.ctx.attributes && w.ctx.attributes[name].Int?
    requires
      var i := w.ctx.attributes[name].i;
      i <= -1_000_000_000_000_000 || 1_000_000_000_000_000 <= i
    ensures TsPrefix(w, name, key, salt, seed) == 0
  {
    hide Decimal.Render;
  }

  /** The share of a segment rule: of those with a text, whoever's bucket is below the weight,
      in hundred-thousandths, the text being hashed behind the segment's key and salt. */
  lemma SegmentShare(w: World, seg: Segment, rule: SegmentRule, s: string)
    requires Names(w.ctx, rule.bucketBy, s) && rule.weight.Some?
    ensures Clauses.WeightAdmits(w, seg, rule) <==>
            Rollout.Bucket(w.host.hash(seg.key + "." + seg.salt + "." + s)) < rule.weight.value as real / 100000.0
  {
    BucketOfText(w, rule.bucketBy, seg.key, seg.salt, None, s);
    var n := GoPrefix(w, rule.bucketBy, seg.key, seg.salt, None);
    Rollout.BucketBelow(n, rule.weight.value, rule.weight.value as real / 100000.0);
    hide Names, GoPrefix, Rollout.Bucket, Rollout.Below;
  }

  /** The contexts have the same value, or none, under the name. */
  predicate SameUnder(c: Context, d: Context, name: string) {
    && (name in c.attributes <==> name in d.attributes)
    && (name in c.attributes ==> c.attributes[name] == d.attributes[name])
  }

  /** Everyone with the same value of the attribute is served alike, whatever their keys: all
      of a company, say. So it is in both languages, and with the weights of segments. */
  lemma ServedTogether(w: World, other: Context, flag: Flag, cfg: FlagConfig, ro: Model.Rollout, reason: Reason)
    requires Custom(ro.bucketBy) && SameUnder(w.ctx, other, ro.bucketBy)
    ensures
      var vr, x := VariationOrRollout(None, Some(ro)), w.(ctx := other);
      && Resolved(x, flag, cfg, vr, reason) == Resolved(w, flag, cfg, vr, reason)
      && TsEval.TsResolved(x, flag, cfg, vr, reason) == TsEval.TsResolved(w, flag, cfg, vr, reason)
  {
  }

  lemma AdmittedTogether(w: World, other: Context, seg: Segment, rule: SegmentRule)
    requires Custom(rule.bucketBy) && SameUnder(w.ctx, other, rule.bucketBy)
    ensures Clauses.WeightAdmits(w.(ctx := other), seg, rule) == Clauses.WeightAdmits(w, seg, rule)
  {
  }
}
