/**
 * The cyclomatic `Stats` accumulator of one space (file unit, function,
 * class, closure).
 *
 * The source keeps every field as an `f64`, but every value stored in them
 * is a whole-number count, so counts are `nat` here and f64 rounding is not
 * modelled. The minimum starts at the largest f64 as a "no space finalized
 * yet" sentinel; here that sentinel is `None`, which `MinOpt` treats exactly
 * as `f64::min` treats `f64::MAX` against a count: as the identity.
 *
 * The record is modelled twice, as the two layers of one concept: the value
 * `StatsValue` with the pure functions that specify each operation, and the
 * class `Stats` whose methods update its fields in place and are proved
 * against those functions.
 */
module CyclomaticStats {

  datatype Option<T> = None | Some(value: T)

  /** The abstract value of a `Stats` record. */
  datatype StatsValue = StatsValue(
    sum: nat,           // local complexities of every finalized space folded in
    cyclomatic: nat,    // local complexity of the space itself (1 + its decisions)
    n: nat,             // number of spaces this record stands for
    max: nat,           // largest finalized local complexity; 0 before any
    min: Option<nat>    // smallest finalized local complexity; None is the sentinel
  )

  /** `f64::max` on counts. */
  function Max(x: nat, y: nat): (r: nat)
    ensures r >= x && r >= y
    ensures r == x || r == y
  {
    if x >= y then x else y
  }

  /** `f64::min` on counts, with the sentinel as its identity. */
  function MinOpt(x: Option<nat>, y: Option<nat>): (r: Option<nat>)
    ensures r == None <==> x == None && y == None
    ensures r.Some? && x.Some? ==> r.value <= x.value
    ensures r.Some? && y.Some? ==> r.value <= y.value
    ensures r == x || r == y
  {
    match (x, y)
    case (None, _) => y
    case (_, None) => x
    case (Some(a), Some(b)) => if a <= b then x else y
  }

  /** `Stats::default`: one space, one linear path, nothing finalized. */
  function DefaultValue(): (d: StatsValue)
    ensures Open(d) && d.cyclomatic == 1 && d.min == None
  {
    StatsValue(0, 1, 1, 0, None)
  }

  /** `merge`: folds `b`'s summary into `a`; `a`'s local complexity is kept. */
  function Merged(a: StatsValue, b: StatsValue): StatsValue
  {
    a.(max := Max(a.max, b.max), min := MinOpt(a.min, b.min), sum := a.sum + b.sum, n := a.n + b.n)
  }

  /** `compute_sum`: adds the space's own local complexity to the sum. */
  function WithSum(s: StatsValue): StatsValue
  {
    s.(sum := s.sum + s.cyclomatic)
  }

  /** `compute_minmax`: the space's own local complexity enters the extrema, then the sum. */
  function Finalized(s: StatsValue): (r: StatsValue)
    ensures r.sum == s.sum + s.cyclomatic
    ensures r.n == s.n && r.cyclomatic == s.cyclomatic
    ensures r.max >= s.cyclomatic && r.max >= s.max
    ensures r.max == s.max || r.max == s.cyclomatic
    ensures r.min.Some? && r.min.value <= s.cyclomatic
    ensures s.min.Some? ==> r.min.value <= s.min.value
    ensures r.min == s.min || r.min == Some(s.cyclomatic)
    ensures r.min.value <= r.max
  {
    WithSum(s.(max := Max(s.max, s.cyclomatic), min := MinOpt(s.min, Some(s.cyclomatic))))
  }

  /** `cyclomatic_average`: the sum divided by the number of spaces (real division). */
  function Average(s: StatsValue): (r: real)
    requires s.n >= 1
    ensures r * (s.n as real) == s.sum as real
  {
    s.sum as real / s.n as real
  }

  /**
   * `s` summarises `k` finalized spaces whose local complexities are all at
   * least 1: with no space the summary fields hold their initial values, and
   * otherwise min <= max <= sum, k * min <= sum <= k * max.
   */
  ghost predicate Tallies(s: StatsValue, k: nat)
  {
    if k == 0 then
      s.sum == 0 && s.max == 0 && s.min == None
    else
      s.min.Some? && 1 <= s.min.value <= s.max <= s.sum &&
      k * s.min.value <= s.sum <= k * s.max
  }

  /**
   * A still-open space: its own complexity is pending, and the `n - 1` spaces
   * handed over by its closed children are tallied.
   */
  ghost predicate Open(s: StatsValue)
  {
    s.n >= 1 && s.cyclomatic >= 1 && Tallies(s, s.n - 1)
  }

  /** A finalized record: every one of the `n` spaces it stands for is tallied. */
  ghost predicate Closed(s: StatsValue)
  {
    s.n >= 1 && Tallies(s, s.n)
  }

  lemma MulMono(k: nat, x: nat, y: nat)
    requires x <= y
    ensures k * x <= k * y
  {
  }

  /** Merging a summary of `kb` spaces into one of `ka` spaces gives a summary of `ka + kb`. */
  lemma {:induction false} TalliesMerged(a: StatsValue, ka: nat, b: StatsValue, kb: nat)
    requires Tallies(a, ka) && Tallies(b, kb)
    ensures Tallies(Merged(a, b), ka + kb)
  {
    var r := Merged(a, b);
    if ka > 0 && kb > 0 {
      var m, M := r.min.value, r.max;
      MulMono(ka, m, a.min.value);
      MulMono(kb, m, b.min.value);
      MulMono(ka, a.max, M);
      MulMono(kb, b.max, M);
      assert (ka + kb) * m == ka * m + kb * m;
      assert (ka + kb) * M == ka * M + kb * M;
    }
  }

  /** Finalizing a space with local complexity at least 1 adds one space to the tally. */
  lemma {:induction false} TalliesFinalized(s: StatsValue, k: nat)
    requires Tallies(s, k) && s.cyclomatic >= 1
    ensures Tallies(Finalized(s), k + 1)
  {
    var r := Finalized(s);
    if k > 0 {
      var m, M, c := r.min.value, r.max, s.cyclomatic;
      assert m <= s.min.value && m <= c;
      MulMono(k, m, s.min.value);
      MulMono(k, s.max, M);
      assert (k + 1) * m == k * m + m;
      assert (k + 1) * M == k * M + M;
    }
  }

  /** Finalizing an open space closes it. */
  lemma FinalizedCloses(s: StatsValue)
    requires Open(s)
    ensures Closed(Finalized(s))
  {
    TalliesFinalized(s, s.n - 1);
  }

  /** Merging a finalized child into an open space leaves it open. */
  lemma MergedKeepsOpen(a: StatsValue, b: StatsValue)
    requires Open(a) && Closed(b)
    ensures Open(Merged(a, b))
  {
    TalliesMerged(a, a.n - 1, b, b.n);
  }

  /** Merging two finalized records (two files, say) gives a finalized record. */
  lemma MergedKeepsClosed(a: StatsValue, b: StatsValue)
    requires Closed(a) && Closed(b)
    ensures Closed(Merged(a, b))
  {
    TalliesMerged(a, a.n, b, b.n);
  }

  /** Every finalized record has a real minimum, and min <= average <= max. */
  lemma ClosedAverageBetween(s: StatsValue)
    requires Closed(s)
    ensures s.min.Some? && s.min.value <= s.max
    ensures s.min.value as real <= Average(s) <= s.max as real
  {
    AverageAtLeast(s.n, s.min.value, s.sum, Average(s));
    AverageAtMost(s.n, s.max, s.sum, Average(s));
  }

  lemma ScaleCancels(x: real, y: real, k: real)
    requires k > 0.0 && x * k <= y * k
    ensures x <= y
  {
    assert (y - x) * k >= 0.0;
  }

  lemma AverageAtLeast(n: nat, m: nat, total: nat, avg: real)
    requires n >= 1 && n * m <= total && avg * (n as real) == total as real
    ensures m as real <= avg
  {
    assert (n * m) as real == (m as real) * (n as real);
    ScaleCancels(m as real, avg, n as real);
  }

  lemma AverageAtMost(n: nat, m: nat, total: nat, avg: real)
    requires n >= 1 && total <= n * m && avg * (n as real) == total as real
    ensures avg <= m as real
  {
    assert (n * m) as real == (m as real) * (n as real);
    ScaleCancels(avg, m as real, n as real);
  }

  /** The count never drops below one, so the average is always defined. */
  lemma CountStaysPositive(a: StatsValue, b: StatsValue)
    requires a.n >= 1
    ensures Merged(a, b).n >= 1 && Finalized(a).n >= 1 && WithSum(a).n >= 1
    ensures Merged(a, b).n > b.n
  {
  }

  /** Once finalized, `min <= max`; merging two records that satisfy it keeps it. */
  lemma MergeKeepsMinLeMax(a: StatsValue, b: StatsValue)
    requires a.min.Some? ==> a.min.value <= a.max
    requires b.min.Some? ==> b.min.value <= b.max
    ensures Merged(a, b).min.Some? ==> Merged(a, b).min.value <= Merged(a, b).max
  {
  }

  /** The default summary is a neutral element for merge on sum, max and min. */
  lemma DefaultMergeNeutral(b: StatsValue)
    ensures Merged(DefaultValue(), b).sum == b.sum
    ensures Merged(DefaultValue(), b).max == b.max
    ensures Merged(DefaultValue(), b).min == b.min
    ensures Merged(DefaultValue(), b).n == b.n + 1
  {
  }

  /** Merge is commutative on the four fields it combines. */
  lemma MergeCommutes(a: StatsValue, b: StatsValue)
    ensures Merged(a, b).sum == Merged(b, a).sum
    ensures Merged(a, b).n == Merged(b, a).n
    ensures Merged(a, b).max == Merged(b, a).max
    ensures Merged(a, b).min == Merged(b, a).min
  {
  }

  /** Merge is associative. */
  lemma MergeAssociates(a: StatsValue, b: StatsValue, c: StatsValue)
    ensures Merged(Merged(a, b), c) == Merged(a, Merged(b, c))
  {
  }

  /** Merging two children into a parent in either order gives the same parent. */
  lemma MergeOrderIrrelevant(s: StatsValue, b: StatsValue, c: StatsValue)
    ensures Merged(Merged(s, b), c) == Merged(Merged(s, c), b)
  {
  }

  /** Finalizing twice counts the local complexity twice: it must happen exactly once. */
  lemma FinalizeTwiceCountsTwice(s: StatsValue)
    ensures Finalized(Finalized(s)).sum == s.sum + 2 * s.cyclomatic
    ensures s.cyclomatic >= 1 ==> Finalized(Finalized(s)).sum != Finalized(s).sum
  {
  }

  /** A `Stats` record, updated in place by the traversal. */
  class Stats {
    var cyclomaticSum: nat
    var cyclomatic: nat
    var n: nat
    var cyclomaticMax: nat
    var cyclomaticMin: Option<nat>

    /** The record's value; the getters for cyclomatic, sum, max and min are these fields. */
    function Value(): StatsValue
      reads this
    {
      StatsValue(cyclomaticSum, cyclomatic, n, cyclomaticMax, cyclomaticMin)
    }

    constructor ()
      ensures Value() == DefaultValue()
      ensures Open(Value())
    {
      cyclomaticSum := 0;
      cyclomatic := 1;
      n := 1;
      cyclomaticMax := 0;
      cyclomaticMin := None;
    }

    /** Merges `other` into this record; `other` is only read. */
    method Merge(other: Stats)
      modifies this
      ensures Value() == Merged(old(Value()), old(other.Value()))
      ensures other != this ==> other.Value() == old(other.Value())
      ensures old(Open(Value())) && old(Closed(other.Value())) ==> Open(Value())
    {
      cyclomaticMax := Max(cyclomaticMax, other.cyclomaticMax);
      cyclomaticMin := MinOpt(cyclomaticMin, other.cyclomaticMin);
      cyclomaticSum := cyclomaticSum + other.cyclomaticSum;
      n := n + other.n;
      if old(Open(Value())) && old(Closed(other.Value())) {
        MergedKeepsOpen(old(Value()), old(other.Value()));
      }
    }

    function CyclomaticAverage(): (r: real)
      reads this
      requires n >= 1
      ensures r * (n as real) == cyclomaticSum as real
    {
      Average(Value())
    }

    method ComputeSum()
      modifies this
      ensures Value() == WithSum(old(Value()))
      ensures cyclomaticSum == old(cyclomaticSum) + cyclomatic
    {
      cyclomaticSum := cyclomaticSum + cyclomatic;
    }

    method ComputeMinmax()
      modifies this
      ensures Value() == Finalized(old(Value()))
      ensures old(Open(Value())) ==> Closed(Value())
    {
      cyclomaticMax := Max(cyclomaticMax, cyclomatic);
      cyclomaticMin := MinOpt(cyclomaticMin, Some(cyclomatic));
      ComputeSum();
      if old(Open(Value())) {
        FinalizedCloses(old(Value()));
      }
    }
  }
}
