/** Percentage rollouts (internal/eval/evaluate.go). A context's hash prefix n, a number of
    60 bits, stands for the bucket n / (2^60 - 1); the rollout serves the first position
    whose cumulative weight, out of 100000, exceeds the bucket. */
module Rollout {
  import opened Model

  const SCALE: int := 0xFFF_FFFF_FFFF_FFFF
  const TOTAL: int := 100_000

  /** The first 15 hexadecimal digits of a hash. */
  type Prefix = n: int | 0 <= n <= SCALE

  function Cum(ws: seq<WeightedVariation>, i: nat): int
    requires i <= |ws|
  {
    if i == 0 then 0 else Cum(ws, i - 1) + ws[i - 1].weight
  }

  /** bucket < c / 100000, without the division. */
  predicate Below(n: Prefix, c: int) {
    n * TOTAL < c * SCALE
  }

  function ServedFrom(ws: seq<WeightedVariation>, n: Prefix, i: nat): (j: nat)
    requires i <= |ws| && 0 < |ws|
    ensures j < |ws| && (i < |ws| ==> i <= j)
    decreases |ws| - i
  {
    if i == |ws| then |ws| - 1
    else if Below(n, Cum(ws, i + 1)) then i
    else ServedFrom(ws, n, i + 1)
  }

  /** The position of the rollout that serves the prefix. */
  function Served(ws: seq<WeightedVariation>, n: Prefix): nat
    requires 0 < |ws|
  {
    ServedFrom(ws, n, 0)
  }

  function Bucket(n: Prefix): (b: real)
    ensures 0.0 <= b <= 1.0
  {
    n as real / SCALE as real
  }

  /** The bucket is in [0, 1), with one exception: the largest prefix has bucket 1. */
  lemma BucketIsOneIff(n: Prefix)
    ensures 0.0 <= Bucket(n) <= 1.0 && Bucket(n) * 1_152_921_504_606_846_975.0 == n as real
    ensures Bucket(n) == 1.0 <==> n == 1_152_921_504_606_846_975
  {
    assert Bucket(n) * SCALE as real == n as real;
  }

  lemma BucketBelow(n: Prefix, c: int, sum: real)
    requires sum == c as real / 100000.0
    ensures Bucket(n) < sum <==> Below(n, c)
  {
    var b := Bucket(n);
    assert b * SCALE as real == n as real;
    assert sum * 100000.0 == c as real;
    assert Bucket(n) < sum <==> b * SCALE as real * 100000.0 < sum * 100000.0 * SCALE as real;
    assert Below(n, c) <==> n as real * 100000.0 < c as real * SCALE as real;
  }

  /** The loop of `resolveVariationOrRollout`: which position of the rollout serves. */
  method Pick(bucket: real, ws: seq<WeightedVariation>, ghost n: Prefix) returns (j: nat)
    requires 0 < |ws| && bucket == Bucket(n)
    ensures j < |ws| && j == Served(ws, n)
  {
    var sum := 0.0;
    for i := 0 to |ws|
      invariant sum == Cum(ws, i) as real / 100000.0
      invariant Served(ws, n) == ServedFrom(ws, n, i)
    {
      sum := sum + ws[i].weight as real / 100000.0;
      BucketBelow(n, Cum(ws, i + 1), sum);
      if bucket < sum {
        return i;
      }
    }
    return |ws| - 1;
  }

  /** Whatever the weights: the first position whose cumulative weight exceeds the bucket, and
      the last one if there is none. */
  lemma {:induction false} ServedFirst(ws: seq<WeightedVariation>, n: Prefix, i: nat)
    requires i <= |ws| && 0 < |ws|
    requires forall k | 0 < k <= i :: Cum(ws, k) as real / 100000.0 <= Bucket(n)
    ensures
      var j := ServedFrom(ws, n, i);
      if forall k | 0 < k <= |ws| :: Cum(ws, k) as real / 100000.0 <= Bucket(n) then j == |ws| - 1
      else
        && (forall k | 0 < k <= j :: Cum(ws, k) as real / 100000.0 <= Bucket(n))
        && Bucket(n) < Cum(ws, j + 1) as real / 100000.0
    decreases |ws| - i
  {
    if i < |ws| {
      BucketBelow(n, Cum(ws, i + 1), Cum(ws, i + 1) as real / 100000.0);
      hide Bucket, Below;
      if !Below(n, Cum(ws, i + 1)) {
        ServedFirst(ws, n, i + 1);
      }
    }
  }

  // ----- Which prefixes each position serves -----

  ghost predicate Weights(ws: seq<WeightedVariation>) {
    && 0 < |ws|
    && (forall i | 0 <= i < |ws| :: ws[i].weight >= 0)
    && Cum(ws, |ws|) == TOTAL
  }

  lemma {:induction false} CumMonotone(ws: seq<WeightedVariation>, i: nat, j: nat)
    requires i <= j <= |ws| && forall k | 0 <= k < |ws| :: ws[k].weight >= 0
    ensures Cum(ws, i) <= Cum(ws, j)
  {
    if i < j {
      CumMonotone(ws, i, j - 1);
    }
  }

  /** How many prefixes lie below c / 100000. */
  function Cut(c: int): int {
    (c * SCALE + TOTAL - 1) / TOTAL
  }

  lemma CutBelow(n: Prefix, c: int)
    ensures n < Cut(c) <==> Below(n, c)
    ensures (Cut(c) - 1) * TOTAL < c * SCALE <= Cut(c) * TOTAL
  {
  }

  /** The first prefix of a position, and the first one past it; the last position also
      takes whatever is left, the bucket 1 in particular. */
  function From(ws: seq<WeightedVariation>, j: nat): int
    requires j < |ws|
  {
    Cut(Cum(ws, j))
  }

  function To(ws: seq<WeightedVariation>, j: nat): int
    requires j < |ws|
  {
    if j == |ws| - 1 then SCALE + 1 else Cut(Cum(ws, j + 1))
  }

  lemma {:induction false} ServedFromRange(ws: seq<WeightedVariation>, n: Prefix, i: nat, j: nat)
    requires Weights(ws) && i <= j < |ws| && From(ws, i) <= n
    ensures ServedFrom(ws, n, i) == j <==> From(ws, j) <= n < To(ws, j)
    decreases |ws| - i
  {
    CutBelow(n, Cum(ws, i + 1));
    if i < |ws| - 1 {
      if i < j {
        CumMonotone(ws, i + 1, j);
      }
      if n < Cut(Cum(ws, i + 1)) {
        if i < j {
          CutMonotone(Cum(ws, i + 1), Cum(ws, j));
        }
      } else if i < j {
        ServedFromRange(ws, n, i + 1, j);
      }
    } else {
      assert ServedFrom(ws, n, i + 1) == i;
    }
  }

  lemma CutMonotone(c: int, d: int)
    requires c <= d
    ensures Cut(c) <= Cut(d)
  {
  }

  /** Every position serves an interval of prefixes. */
  lemma ServedRange(ws: seq<WeightedVariation>, n: Prefix, j: nat)
    requires Weights(ws) && j < |ws|
    ensures Served(ws, n) == j <==> From(ws, j) <= n < To(ws, j)
  {
    assert Cut(0) == 0;
    ServedFromRange(ws, n, 0, j);
  }

  ghost function ServedBy(ws: seq<WeightedVariation>, j: nat): set<int>
    requires 0 < |ws|
  {
    set n: int | 0 <= n <= SCALE && Served(ws, n) == j
  }

  lemma {:induction false} IntervalSize(lo: int, hi: int, s: set<int>)
    requires lo <= hi && forall n :: n in s <==> lo <= n < hi
    ensures |s| == hi - lo
    decreases hi - lo
  {
    if lo == hi {
      assert forall n | n in s :: n < n;
      assert s == {};
    } else {
      IntervalSize(lo, hi - 1, s - {hi - 1});
    }
  }

  lemma RangeBounds(ws: seq<WeightedVariation>, j: nat)
    requires Weights(ws) && j < |ws|
    ensures 0 <= From(ws, j) <= To(ws, j) <= SCALE + 1
  {
    CumMonotone(ws, 0, j);
    CumMonotone(ws, j, j + 1);
    CumMonotone(ws, j + 1, |ws|);
    CutMonotone(Cum(ws, j), Cum(ws, j + 1));
    CutMonotone(0, Cum(ws, j));
    CutMonotone(Cum(ws, j + 1), TOTAL);
    assert Cut(TOTAL) == SCALE && Cut(0) == 0;
  }

  /** Of the 2^60 hash prefixes, a position of weight w serves w * (2^60 - 1) / 100000,
      give or take one; the last position always serves the bucket that is exactly 1. */
  lemma CountingBound(ws: seq<WeightedVariation>, j: nat)
    requires Weights(ws) && j < |ws|
    ensures
      var count, exact := |ServedBy(ws, j)| * 100_000, ws[j].weight * 1_152_921_504_606_846_975;
      && exact - 100_000 <= count <= exact + 100_000
      && (j < |ws| - 1 ==> exact - 100_000 < count < exact + 100_000)
    ensures 1_152_921_504_606_846_975 in ServedBy(ws, |ws| - 1)
  {
    RangeBounds(ws, j);
    forall n ensures n in ServedBy(ws, j) <==> From(ws, j) <= n < To(ws, j) {
      if 0 <= n <= SCALE {
        ServedRange(ws, n, j);
      }
    }
    IntervalSize(From(ws, j), To(ws, j), ServedBy(ws, j));
    CutBelow(0, Cum(ws, j));
    CutBelow(0, Cum(ws, j + 1));
    var last := |ws| - 1;
    RangeBounds(ws, last);
    CumMonotone(ws, last, |ws|);
    CutMonotone(Cum(ws, last), TOTAL);
    ServedRange(ws, SCALE, last);
    assert Cut(TOTAL) == SCALE;
  }

  // ----- Ramping a rollout up -----

  /** Changing the weights from `ws` to `vs` keeps every prefix of position j where it is. */
  ghost predicate Keeps(ws: seq<WeightedVariation>, vs: seq<WeightedVariation>, j: nat)
    requires 0 < |ws| && 0 < |vs|
  {
    forall n: Prefix :: Served(ws, n) == j ==> Served(vs, n) == j
  }

  /** It does so exactly when the position's interval does not move in on either side,
      or was empty to begin with. */
  lemma KeepsIff(ws: seq<WeightedVariation>, vs: seq<WeightedVariation>, j: nat)
    requires Weights(ws) && Weights(vs) && |ws| == |vs| && j < |ws|
    ensures Keeps(ws, vs, j) <==>
            From(ws, j) == To(ws, j) || (From(vs, j) <= From(ws, j) && To(ws, j) <= To(vs, j))
  {
    RangeBounds(ws, j);
    RangeBounds(vs, j);
    if From(ws, j) == To(ws, j) || (From(vs, j) <= From(ws, j) && To(ws, j) <= To(vs, j)) {
      forall n: Prefix | Served(ws, n) == j ensures Served(vs, n) == j {
        ServedRange(ws, n, j);
        ServedRange(vs, n, j);
      }
    } else {
      var first: Prefix, last: Prefix := From(ws, j), To(ws, j) - 1;
      ServedRange(ws, first, j);
      ServedRange(vs, first, j);
      ServedRange(ws, last, j);
      ServedRange(vs, last, j);
    }
  }

  /** In terms of weights: the cumulative weight before the position must not rise and the
      one after it must not fall. Raising the first position's weight is such a change. */
  lemma RampUpKeeps(ws: seq<WeightedVariation>, vs: seq<WeightedVariation>, j: nat)
    requires Weights(ws) && Weights(vs) && |ws| == |vs| && j < |ws|
    requires Cum(vs, j) <= Cum(ws, j) && Cum(ws, j + 1) <= Cum(vs, j + 1)
    ensures Keeps(ws, vs, j)
  {
    CutMonotone(Cum(vs, j), Cum(ws, j));
    CutMonotone(Cum(ws, j + 1), Cum(vs, j + 1));
    KeepsIff(ws, vs, j);
  }

  // ----- Ramping a variation up -----

  /** What the rollout serves the prefix. */
  function VariationFor(ws: seq<WeightedVariation>, n: Prefix): int
    requires 0 < |ws|
  {
    ws[Served(ws, n)].variation
  }

  /** Changing the rollout from `ws` to `vs` takes the variation from nobody who has it. */
  ghost predicate KeepsVariation(ws: seq<WeightedVariation>, vs: seq<WeightedVariation>, variation: int)
    requires 0 < |ws| && 0 < |vs|
  {
    forall n: Prefix :: VariationFor(ws, n) == variation ==> VariationFor(vs, n) == variation
  }

  /** The intervals of two positions have no prefix in common. */
  predicate Apart(ws: seq<WeightedVariation>, j: nat, vs: seq<WeightedVariation>, i: nat)
    requires j < |ws| && i < |vs|
  {
    To(ws, j) <= From(vs, i) || To(vs, i) <= From(ws, j) || From(ws, j) == To(ws, j) || From(vs, i) == To(vs, i)
  }

  /** For any two rollouts, of any lengths and with variations listed any number of times: the
      variation is kept if and only if none of its old intervals meets a new interval of
      another variation. */
  lemma KeepsVariationIff(ws: seq<WeightedVariation>, vs: seq<WeightedVariation>, variation: int)
    requires Weights(ws) && Weights(vs)
    ensures KeepsVariation(ws, vs, variation) <==>
            forall j, i | 0 <= j < |ws| && 0 <= i < |vs| && ws[j].variation == variation != vs[i].variation ::
              Apart(ws, j, vs, i)
  {
    if forall j, i | 0 <= j < |ws| && 0 <= i < |vs| && ws[j].variation == variation != vs[i].variation :: Apart(ws, j, vs, i) {
      forall n: Prefix | VariationFor(ws, n) == variation ensures VariationFor(vs, n) == variation {
        var j, i := Served(ws, n), Served(vs, n);
        ServedRange(ws, n, j);
        ServedRange(vs, n, i);
      }
    } else {
      var j, i :| 0 <= j < |ws| && 0 <= i < |vs| && ws[j].variation == variation != vs[i].variation && !Apart(ws, j, vs, i);
      var common := if From(ws, j) < From(vs, i) then From(vs, i) else From(ws, j);
      RangeBounds(ws, j);
      RangeBounds(vs, i);
      var n: Prefix := common;
      ServedRange(ws, n, j);
      ServedRange(vs, n, i);
      assert VariationFor(ws, n) == variation && VariationFor(vs, n) != variation;
    }
  }

  /** A larger weight alone is not enough: here the second position grows from 20% to 30%
      and still loses the prefixes around 55%. */
  lemma LargerWeightCanLoseContexts()
    ensures
      var w := (weights: (int, int, int)) =>
        [WeightedVariation(0, weights.0), WeightedVariation(1, weights.1), WeightedVariation(2, weights.2)];
      var ws, vs := w((50_000, 20_000, 30_000)), w((60_000, 30_000, 10_000));
      Weights(ws) && Weights(vs) && ws[1].weight < vs[1].weight && !Keeps(ws, vs, 1)
  {
    var ws := [WeightedVariation(0, 50_000), WeightedVariation(1, 20_000), WeightedVariation(2, 30_000)];
    var vs := [WeightedVariation(0, 60_000), WeightedVariation(1, 30_000), WeightedVariation(2, 10_000)];
    assert Cum(ws, 1) == 50_000 && Cum(ws, 2) == 70_000 && Cum(ws, 3) == TOTAL;
    assert Cum(vs, 1) == 60_000 && Cum(vs, 2) == 90_000 && Cum(vs, 3) == TOTAL;
    KeepsIff(ws, vs, 1);
  }
}
