/** Welford's running mean and variance (internal/stats/welford.go), over exact reals. */
module Welford {

  datatype Stats = Stats(n: nat, mean: real, m2: real)

  const ZERO: Stats := Stats(0, 0.0, 0.0)

  // ----- What the statistics should be -----

  function Sum(xs: seq<real>): real {
    if xs == [] then 0.0 else Sum(xs[..|xs| - 1]) + xs[|xs| - 1]
  }

  function Square(x: real): real {
    x * x
  }

  /** The sum of squared deviations from m. */
  function Deviations(xs: seq<real>, m: real): real {
    if xs == [] then 0.0
    else Deviations(xs[..|xs| - 1], m) + Square(xs[|xs| - 1] - m)
  }

  function Average(xs: seq<real>): real {
    if xs == [] then 0.0 else Sum(xs) / |xs| as real
  }

  /** The statistics of a sample, computed from all of it at once. */
  function Exact(xs: seq<real>): Stats {
    Stats(|xs|, Average(xs), Deviations(xs, Average(xs)))
  }

  // ----- One step at a time -----

  function Added(s: Stats, x: real): Stats {
    var n := s.n + 1;
    var delta := x - s.mean;
    var mean := s.mean + delta / n as real;
    Stats(n, mean, s.m2 + delta * (x - mean))
  }

  function Merged(r: Stats, o: Stats): Stats {
    if o.n == 0 then r
    else if r.n == 0 then o
    else
      var n := r.n + o.n;
      Stats(n, Pooled(r.n as real, o.n as real, r.mean, o.mean),
            r.m2 + o.m2 + Spread(r.n as real, o.n as real, r.mean, o.mean))
  }

  /** The average of a values averaging p and b values averaging q. */
  function Pooled(a: real, b: real, p: real, q: real): real
    requires a + b != 0.0
  {
    p + (q - p) * b / (a + b)
  }

  /** What the distance of the two averages adds to the squared deviations. */
  function Spread(a: real, b: real, p: real, q: real): real
    requires a + b != 0.0
  {
    (q - p) * (q - p) * a * b / (a + b)
  }

  class RunningStats {
    var n: nat
    var mean: real
    var m2: real

    constructor ()
      ensures View() == ZERO
    {
      n, mean, m2 := 0, 0.0, 0.0;
    }

    function View(): Stats
      reads this
    {
      Stats(n, mean, m2)
    }

    method Add(x: real)
      modifies this
      ensures View() == Added(old(View()), x)
    {
      n := n + 1;
      var delta := x - mean;
      mean := mean + delta / n as real;
      var delta2 := x - mean;
      m2 := m2 + delta * delta2;
    }

    method Merge(o: Stats)
      modifies this
      ensures View() == Merged(old(View()), o)
    {
      if o.n == 0 {
        return;
      }
      if n == 0 {
        n, mean, m2 := o.n, o.mean, o.m2;
        return;
      }
      var total := n + o.n;
      var delta := o.mean - mean;
      var merged := mean + delta * o.n as real / total as real;
      var squares := m2 + o.m2 + delta * delta * n as real * o.n as real / total as real;
      assert total as real == n as real + o.n as real;
      assert merged == Pooled(n as real, o.n as real, mean, o.mean);
      assert squares == m2 + o.m2 + Spread(n as real, o.n as real, mean, o.mean);
      hide Pooled, Spread;
      n, mean, m2 := total, merged, squares;
    }

    /** The sample variance of whatever sample the object has seen. */
    method Variance(ghost xs: seq<real>) returns (v: real)
      requires View() == Exact(xs)
      ensures v >= 0.0
      ensures |xs| >= 2 ==> v * (|xs| - 1) as real == Deviations(xs, Average(xs))
      ensures |xs| < 2 ==> v == 0.0
    {
      DeviationsNonNegative(xs, Average(xs));
      if n < 2 {
        return 0.0;
      }
      v := m2 / (n - 1) as real;
      NonNegativeQuotient(m2, (n - 1) as real);
    }

    /** Adds a whole sample. */
    method AddAll(xs: seq<real>, ghost before: seq<real>)
      requires View() == Exact(before)
      modifies this
      ensures View() == Exact(before + xs)
    {
      assert before + xs[..0] == before;
      for i := 0 to |xs|
        invariant View() == Exact(before + xs[..i])
      {
        Add(xs[i]);
        AddExact(before + xs[..i], xs[i]);
        assert before + xs[..i + 1] == before + xs[..i] + [xs[i]];
      }
      assert xs[..|xs|] == xs;
    }
  }

  lemma NonNegativeQuotient(x: real, y: real)
    requires x >= 0.0 && y > 0.0
    ensures x / y >= 0.0 && x / y * y == x
  {
  }

  // ----- Closed forms -----

  function Squares(xs: seq<real>): real {
    if xs == [] then 0.0 else Squares(xs[..|xs| - 1]) + Square(xs[|xs| - 1])
  }

  /** The sum of squared deviations of n values from m, by the sums of the values and of
      their squares. */
  function Closed(squares: real, sum: real, n: real, m: real): real {
    squares - 2.0 * m * sum + n * (m * m)
  }

  lemma {:induction false} DeviationsClosed(xs: seq<real>, m: real)
    ensures Deviations(xs, m) == Closed(Squares(xs), Sum(xs), |xs| as real, m)
  {
    if xs != [] {
      var init, x := xs[..|xs| - 1], xs[|xs| - 1];
      DeviationsClosed(init, m);
      ClosedStep(x, m, Squares(init), Sum(init), |init| as real);
      LastTerms(xs, m);
      hide Deviations, Squares, Sum, Square, Closed;
    }
  }

  lemma LastTerms(xs: seq<real>, m: real)
    requires xs != []
    ensures
      var init, x := xs[..|xs| - 1], xs[|xs| - 1];
      && Sum(xs) == Sum(init) + x && Squares(xs) == Squares(init) + Square(x)
      && Deviations(xs, m) == Deviations(init, m) + Square(x - m)
      && |xs| as real == |init| as real + 1.0
  {
    hide Square;
  }

  lemma ClosedStep(x: real, m: real, squares: real, sum: real, n: real)
    ensures Closed(squares, sum, n, m) + Square(x - m) == Closed(squares + Square(x), sum + x, n + 1.0, m)
  {
    assert (x - m) * (x - m) == x * x - 2.0 * m * x + m * m;
    assert 2.0 * m * (sum + x) == 2.0 * m * sum + 2.0 * m * x;
    assert (n + 1.0) * (m * m) == n * (m * m) + m * m;
  }

  lemma AverageTimesCount(xs: seq<real>)
    ensures Average(xs) * |xs| as real == Sum(xs)
  {
    if xs != [] {
      QuotientTimes(Sum(xs), |xs| as real);
    }
  }

  lemma QuotientTimes(x: real, y: real)
    requires y != 0.0
    ensures x / y * y == x
  {
  }

  /** Around the average, the deviations are the squares less average times sum. */
  lemma DeviationsAtAverage(xs: seq<real>)
    ensures Deviations(xs, Average(xs)) == Squares(xs) - Average(xs) * Sum(xs)
  {
    hide Deviations, Squares, Sum, Average, Closed;
    DeviationsClosed(xs, Average(xs));
    AverageTimesCount(xs);
    AtAverage(Squares(xs), Sum(xs), |xs| as real, Average(xs));
  }

  lemma AtAverage(squares: real, sum: real, n: real, m: real)
    requires m * n == sum
    ensures Closed(squares, sum, n, m) == squares - m * sum
  {
    assert n * (m * m) == m * (m * n);
    assert 2.0 * m * sum == 2.0 * (m * sum);
  }

  lemma {:induction false} DeviationsNonNegative(xs: seq<real>, m: real)
    ensures Deviations(xs, m) >= 0.0
  {
    if xs != [] {
      DeviationsNonNegative(xs[..|xs| - 1], m);
      var d := xs[|xs| - 1] - m;
      assert d * d >= 0.0;
    }
  }

  // ----- Adding and merging are exact -----

  lemma AppendSums(xs: seq<real>, x: real)
    ensures Sum(xs + [x]) == Sum(xs) + x && Squares(xs + [x]) == Squares(xs) + Square(x)
  {
    assert (xs + [x])[..|xs|] == xs;
  }

  lemma {:induction false} ConcatSums(xs: seq<real>, ys: seq<real>)
    ensures Sum(xs + ys) == Sum(xs) + Sum(ys) && Squares(xs + ys) == Squares(xs) + Squares(ys)
  {
    if ys == [] {
      assert xs + ys == xs;
    } else {
      var init := ys[..|ys| - 1];
      ConcatSums(xs, init);
      AppendSums(xs + init, ys[|ys| - 1]);
      assert xs + ys == xs + init + [ys[|ys| - 1]];
    }
  }

  /** From the average m of n values with sum s to the average k with one more value x. */
  lemma AddAlgebra(n: real, m: real, k: real, s: real, x: real)
    requires s == n * m && (n + 1.0) * k == s + x
    ensures (x - m) * (x - k) == x * x + m * s - k * (s + x)
  {
    var product := m * k;
    assert m * (s + x) == (n + 1.0) * product by {
      assert m * ((n + 1.0) * k) == (n + 1.0) * (m * k);
    }
    assert k * (s + m) == (n + 1.0) * product by {
      assert k * ((n + 1.0) * m) == (n + 1.0) * (m * k);
      assert s + m == (n + 1.0) * m;
    }
    assert (x - m) * (x - k) == x * x - x * k - m * x + product;
    assert m * (s + x) == m * s + m * x && k * (s + m) == k * s + product && k * (s + x) == k * s + k * x;
  }

  lemma AddMean(n: real, m: real, s: real, x: real)
    requires n >= 0.0 && s == n * m
    ensures (n + 1.0) * (m + (x - m) / (n + 1.0)) == s + x
  {
    QuotientTimes(x - m, n + 1.0);
  }

  /** Adding a value to the statistics of a sample gives those of the longer sample. */
  lemma AddExact(xs: seq<real>, x: real)
    ensures Added(Exact(xs), x) == Exact(xs + [x])
  {
    AddedAverage(xs, x);
    AddedDeviations(xs, x);
    hide Deviations, Average;
  }

  lemma AddedAverage(xs: seq<real>, x: real)
    ensures Average(xs) + (x - Average(xs)) / (|xs| as real + 1.0) == Average(xs + [x])
  {
    var n, m, s := |xs| as real, Average(xs), Sum(xs);
    AverageTimesCount(xs);
    AppendSums(xs, x);
    AddMean(n, m, s, x);
    QuotientUnique(m + (x - m) / (n + 1.0), n + 1.0, Sum(xs + [x]));
    hide Sum;
  }

  lemma AddedDeviations(xs: seq<real>, x: real)
    ensures
      var m, k := Average(xs), Average(xs + [x]);
      Deviations(xs, m) + (x - m) * (x - k) == Deviations(xs + [x], k)
  {
    hide Deviations, Sum, Squares, Average;
    AverageTimesCount(xs);
    AverageTimesCount(xs + [x]);
    AppendSums(xs, x);
    AddAlgebra(|xs| as real, Average(xs), Average(xs + [x]), Sum(xs), x);
    DeviationsAtAverage(xs);
    DeviationsAtAverage(xs + [x]);
  }

  lemma QuotientUnique(q: real, y: real, x: real)
    requires y != 0.0 && y * q == x
    ensures q == x / y
  {
    assert x / y * y == x;
    assert (q - x / y) * y == 0.0;
  }

  lemma MergeMean(a: real, b: real, p: real, q: real)
    requires a > 0.0 && b > 0.0
    ensures (a + b) * Pooled(a, b, p, q) == a * p + b * q
  {
    QuotientTimes((q - p) * b, a + b);
  }

  /** Two averages p and q of a and b values, and the average m of all of them. */
  lemma MergeAlgebra(a: real, b: real, p: real, q: real, m: real)
    requires a > 0.0 && b > 0.0 && (a + b) * m == a * p + b * q
    ensures Spread(a, b, p, q) == a * p * p + b * q * q - m * (a * p + b * q)
  {
    var n, cross := a + b, (q - p) * (q - p) * a * b;
    var target := a * p * p + b * q * q - m * (a * p + b * q);
    assert n * (m * (a * p + b * q)) == (a * p + b * q) * (a * p + b * q);
    MergePolynomial(a, b, p, q);
    assert n * target == n * (a * p * p + b * q * q) - n * (m * (a * p + b * q));
    QuotientUnique(target, n, cross);
  }

  lemma MergePolynomial(a: real, b: real, p: real, q: real)
    ensures (a + b) * (a * p * p + b * q * q) - (a * p + b * q) * (a * p + b * q) == (q - p) * (q - p) * a * b
  {
    var aa, bb, ab, pp, qq, pq := a * a, b * b, a * b, p * p, q * q, p * q;
    assert (a + b) * (a * p * p + b * q * q) == aa * pp + ab * qq + ab * pp + bb * qq;
    assert (a * p + b * q) * (a * p + b * q) == aa * pp + 2.0 * (ab * pq) + bb * qq;
    assert (q - p) * (q - p) * a * b == (qq - 2.0 * pq + pp) * ab;
  }

  /** Merging the statistics of two samples gives those of the two together. */
  lemma MergeExact(xs: seq<real>, ys: seq<real>)
    ensures Merged(Exact(xs), Exact(ys)) == Exact(xs + ys)
  {
    if ys == [] {
      assert xs + ys == xs;
    } else if xs == [] {
      assert xs + ys == ys;
    } else {
      MergeExactProper(xs, ys);
    }
  }

  lemma MergeExactProper(xs: seq<real>, ys: seq<real>)
    requires xs != [] && ys != []
    ensures Merged(Exact(xs), Exact(ys)) == Exact(xs + ys)
  {
    hide Deviations, Average, Pooled, Spread;
    MergedAverage(xs, ys);
    MergedDeviations(xs, ys);
  }

  lemma MergedAverage(xs: seq<real>, ys: seq<real>)
    requires xs != [] && ys != []
    ensures
      var a, b, p, q := |xs| as real, |ys| as real, Average(xs), Average(ys);
      Pooled(a, b, p, q) == Average(xs + ys)
  {
    hide Sum, Average, Pooled;
    var a, b, p, q := |xs| as real, |ys| as real, Average(xs), Average(ys);
    AverageTimesCount(xs);
    AverageTimesCount(ys);
    AverageTimesCount(xs + ys);
    ConcatSums(xs, ys);
    MergeMean(a, b, p, q);
    assert a * p == Sum(xs) && b * q == Sum(ys) && (a + b) * Average(xs + ys) == Sum(xs + ys);
    SameFactor(a + b, Pooled(a, b, p, q), Average(xs + ys));
  }

  lemma SameFactor(y: real, p: real, q: real)
    requires y != 0.0 && y * p == y * q
    ensures p == q
  {
    assert y * (p - q) == 0.0;
  }

  lemma MergedDeviations(xs: seq<real>, ys: seq<real>)
    requires xs != [] && ys != []
    ensures
      var a, b, p, q := |xs| as real, |ys| as real, Average(xs), Average(ys);
      Deviations(xs, p) + Deviations(ys, q) + Spread(a, b, p, q) ==
      Deviations(xs + ys, Average(xs + ys))
  {
    hide Deviations, Sum, Squares, Average, Spread;
    var a, b, p, q := |xs| as real, |ys| as real, Average(xs), Average(ys);
    AverageTimesCount(xs);
    AverageTimesCount(ys);
    AverageTimesCount(xs + ys);
    ConcatSums(xs, ys);
    MergeAlgebra(a, b, p, q, Average(xs + ys));
    DeviationsAtAverage(xs);
    DeviationsAtAverage(ys);
    DeviationsAtAverage(xs + ys);
    TimesTwice(a, p, Sum(xs));
    TimesTwice(b, q, Sum(ys));
  }

  lemma TimesTwice(a: real, p: real, s: real)
    requires p * a == s
    ensures a * p * p == p * s
  {
  }

  // ----- Any way of cutting a sample up -----

  datatype Partition = Part(xs: seq<real>) | Join(left: Partition, right: Partition)

  function Sample(p: Partition): seq<real> {
    match p
    case Part(xs) => xs
    case Join(l, r) => Sample(l) + Sample(r)
  }

  function AddedAll(s: Stats, xs: seq<real>): Stats {
    if xs == [] then s else Added(AddedAll(s, xs[..|xs| - 1]), xs[|xs| - 1])
  }

  /** Adds each part up from scratch and merges along the tree. */
  function Aggregate(p: Partition): Stats {
    match p
    case Part(xs) => AddedAll(ZERO, xs)
    case Join(l, r) => Merged(Aggregate(l), Aggregate(r))
  }

  lemma {:induction false} AddedAllExact(xs: seq<real>)
    ensures AddedAll(ZERO, xs) == Exact(xs)
  {
    if xs != [] {
      AddedAllExact(xs[..|xs| - 1]);
      AddExact(xs[..|xs| - 1], xs[|xs| - 1]);
      assert xs == xs[..|xs| - 1] + [xs[|xs| - 1]];
    }
  }

  /** However a sample is partitioned and merged, the statistics are those of the whole. */
  lemma {:induction false} AggregateExact(p: Partition)
    ensures Aggregate(p) == Exact(Sample(p))
  {
    match p
    case Part(xs) => AddedAllExact(xs);
    case Join(l, r) =>
      AggregateExact(l);
      AggregateExact(r);
      MergeExact(Sample(l), Sample(r));
  }

  /** The sample with one value taken out. */
  function Without(ys: seq<real>, i: nat): seq<real>
    requires i < |ys|
  {
    ys[..i] + ys[i + 1..]
  }

  lemma SumsWithout(ys: seq<real>, i: nat)
    requires i < |ys|
    ensures |Without(ys, i)| == |ys| - 1
    ensures Sum(ys) == Sum(Without(ys, i)) + ys[i] && Squares(ys) == Squares(Without(ys, i)) + Square(ys[i])
    ensures multiset(Without(ys, i)) == multiset(ys) - multiset{ys[i]}
  {
    hide Sum, Squares, Square;
    AppendSums(ys[..i], ys[i]);
    ConcatSums(ys[..i] + [ys[i]], ys[i + 1..]);
    ConcatSums(ys[..i], ys[i + 1..]);
    assert ys == ys[..i] + [ys[i]] + ys[i + 1..];
    assert multiset(ys) == multiset(ys[..i]) + multiset{ys[i]} + multiset(ys[i + 1..]);
  }

  lemma {:induction false} SumsOfPermutation(xs: seq<real>, ys: seq<real>)
    requires multiset(xs) == multiset(ys)
    ensures |xs| == |ys| && Sum(xs) == Sum(ys) && Squares(xs) == Squares(ys)
    decreases |xs|
  {
    assert |multiset(xs)| == |xs| && |multiset(ys)| == |ys|;
    if xs != [] {
      assert xs[0] in multiset(ys);
      var i :| 0 <= i < |ys| && ys[i] == xs[0];
      hide Sum, Squares, Square, Without;
      SumsWithout(xs, 0);
      SumsWithout(ys, i);
      SumsOfPermutation(Without(xs, 0), Without(ys, i));
    }
  }

  /** Nor does the order of the values matter: any two ways of partitioning and merging the
      same values agree, and the sum of squared deviations is never negative. */
  lemma AggregationOrderIrrelevant(p: Partition, q: Partition)
    requires multiset(Sample(p)) == multiset(Sample(q))
    ensures Aggregate(p) == Aggregate(q) && Aggregate(p).m2 >= 0.0
  {
    AggregateExact(p);
    AggregateExact(q);
    SumsOfPermutation(Sample(p), Sample(q));
    ExactFromSums(Sample(p), Sample(q));
    DeviationsNonNegative(Sample(p), Average(Sample(p)));
    hide Aggregate, Deviations, Average;
  }

  lemma ExactFromSums(xs: seq<real>, ys: seq<real>)
    requires |xs| == |ys| && Sum(xs) == Sum(ys) && Squares(xs) == Squares(ys)
    ensures Exact(xs) == Exact(ys)
  {
    DeviationsAtAverage(xs);
    DeviationsAtAverage(ys);
    hide Deviations, Sum, Squares;
  }
}
