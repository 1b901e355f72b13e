/**
 * PageStats: the iterations recorded for one page, and their average.
 */
module Stats {
  import opened Wrappers
  import opened Py
  import opened Timelines
  import Pages

  /** What `get_avg` reads of one iteration's page. */
  datatype Sample = Sample(timeline: Timeline, dur: int, ramKb: int)

  /** The averaged page `get_avg` returns: its iteration count, deltas, duration and RAM. */
  datatype Average = Average(iterations: nat, deltas: seq<int>, dur: int, ramKb: real)

  /** The pointwise sum of two delta lists. */
  function AddDeltas(a: seq<int>, b: seq<int>): (c: seq<int>)
    requires |a| == 6 && |b| == 6
    ensures |c| == 6 && forall d :: 0 <= d < 6 ==> c[d] == a[d] + b[d]
  {
    seq(6, d requires 0 <= d < 6 => a[d] + b[d])
  }

  /** The six delta columns summed over the samples. */
  function DeltaSums(its: seq<Sample>): (s: seq<int>)
    ensures |s| == 6
  {
    if its == [] then [0, 0, 0, 0, 0, 0]
    else AddDeltas(DeltaSums(its[..|its| - 1]), its[|its| - 1].timeline.deltas)
  }

  function DurSum(its: seq<Sample>): int {
    if its == [] then 0 else DurSum(its[..|its| - 1]) + its[|its| - 1].dur
  }

  function RamSum(its: seq<Sample>): int {
    if its == [] then 0 else RamSum(its[..|its| - 1]) + its[|its| - 1].ramKb
  }

  /**
   * The average of at least two samples: each delta and the duration are the
   * column sums truncated-divided by the count; the RAM usage is a true quotient.
   */
  function Averaged(its: seq<Sample>): (a: Average)
    requires |its| >= 2
    ensures a.iterations == |its| && |a.deltas| == 6
  {
    var sums := DeltaSums(its);
    Average(
      |its|,
      seq(6, d requires 0 <= d < 6 => TruncDiv(sums[d], |its|)),
      TruncDiv(DurSum(its), |its|),
      (RamSum(its) as real) / (|its| as real))
  }

  /** One more term adds one more bound: (n + 1) * v == n * v + v. */
  lemma MulSucc(n: int, v: int)
    ensures (n + 1) * v == n * v + v
  {
  }

  /** Column d sums to between |its|*lo and |its|*hi when each entry lies in [lo, hi]. */
  lemma {:induction false} DeltaSumBounds(its: seq<Sample>, d: nat, lo: int, hi: int)
    requires d < 6
    requires forall i :: 0 <= i < |its| ==> lo <= its[i].timeline.deltas[d] <= hi
    ensures |its| * lo <= DeltaSums(its)[d] <= |its| * hi
  {
    if its != [] {
      var init := its[..|its| - 1];
      DeltaSumBounds(init, d, lo, hi);
      MulSucc(|init|, lo);
      MulSucc(|init|, hi);
      assert DeltaSums(its)[d] == DeltaSums(init)[d] + its[|its| - 1].timeline.deltas[d];
    }
  }

  lemma {:induction false} DurSumBounds(its: seq<Sample>, lo: int, hi: int)
    requires forall i :: 0 <= i < |its| ==> lo <= its[i].dur <= hi
    ensures |its| * lo <= DurSum(its) <= |its| * hi
  {
    if its != [] {
      var init := its[..|its| - 1];
      DurSumBounds(init, lo, hi);
      MulSucc(|init|, lo);
      MulSucc(|init|, hi);
    }
  }

  /** A positive factor can be cancelled from both sides of <=. */
  lemma MulCancel(a: int, b: int, n: int)
    requires n > 0 && a * n <= b * n
    ensures a <= b
  {
  }

  /** A positive factor can be cancelled from both sides of <. */
  lemma MulCancelStrict(a: int, b: int, n: int)
    requires n > 0 && a * n < b * n
    ensures a < b
  {
  }

  /** Truncating a mean keeps it between the bounds of the values averaged. */
  lemma TruncDivBetween(sum: int, n: int, lo: int, hi: int)
    requires n > 0 && n * lo <= sum <= n * hi
    ensures lo <= TruncDiv(sum, n) <= hi
  {
    var q := TruncDiv(sum, n);
    assert n * lo == lo * n && n * hi == hi * n;
    if sum >= 0 {
      MulSucc(q, n);
      MulCancelStrict(lo, q + 1, n);
      MulCancel(q, hi, n);
    } else {
      MulSucc(q - 1, n);
      MulCancel(lo, q, n);
      MulCancelStrict(q - 1, hi, n);
    }
  }

  /**
   * When every sample's delta d lies in [lo, hi], so does the averaged delta d;
   * in particular samples that all agree average to that common value.
   */
  lemma AverageDeltaBetween(its: seq<Sample>, d: nat, lo: int, hi: int)
    requires |its| >= 2 && d < 6
    requires forall i :: 0 <= i < |its| ==> lo <= its[i].timeline.deltas[d] <= hi
    ensures lo <= Averaged(its).deltas[d] <= hi
  {
    DeltaSumBounds(its, d, lo, hi);
    TruncDivBetween(DeltaSums(its)[d], |its|, lo, hi);
  }

  /** The averaged duration lies between the smallest and the largest duration. */
  lemma AverageDurBetween(its: seq<Sample>, lo: int, hi: int)
    requires |its| >= 2
    requires forall i :: 0 <= i < |its| ==> lo <= its[i].dur <= hi
    ensures lo <= Averaged(its).dur <= hi
  {
    DurSumBounds(its, lo, hi);
    TruncDivBetween(DurSum(its), |its|, lo, hi);
  }

  class PageStats {
    const id: string
    var iterations: seq<Sample>

    constructor (id: string := "")
      ensures this.id == id && iterations == []
    {
      this.id := id;
      iterations := [];
    }

    /** `add_iteration`: the page's timeline, duration and RAM usage are recorded last. */
    method AddIteration(p: Pages.Page)
      modifies `iterations
      ensures iterations == old(iterations) + [Sample(p.timeline, p.dur, p.ramUsageKb)]
    {
      iterations := iterations + [Sample(p.timeline, p.dur, p.ramUsageKb)];
    }

    /**
     * `get_avg(iterations)`: an empty argument falls back to the recorded
     * iterations; fewer than two give nothing; otherwise the Averaged page.
     */
    method GetAvg(given: seq<Sample>) returns (avg: Option<Average>)
      ensures var its := if given == [] then iterations else given;
              && (avg.None? <==> |its| < 2)
              && (avg.Some? ==> avg.value == Averaged(its))
    {
      var its := given;
      if its == [] {
        its := iterations;
      }
      if |its| < 2 {
        return None;
      }
      var n := |its|;
      var deltas := [0, 0, 0, 0, 0, 0];
      var dur := 0;
      for i := 0 to n
        invariant deltas == DeltaSums(its[..i])
        invariant dur == DurSum(its[..i])
      {
        assert its[..i + 1][..i] == its[..i];
        var t := its[i].timeline;
        for d := 0 to 6
          invariant |deltas| == 6
          invariant forall e :: 0 <= e < d ==> deltas[e] == DeltaSums(its[..i])[e] + t.deltas[e]
          invariant forall e :: d <= e < 6 ==> deltas[e] == DeltaSums(its[..i])[e]
        {
          deltas := deltas[d := deltas[d] + t.deltas[d]];
        }
        dur := dur + its[i].dur;
      }
      assert its[..n] == its;
      for d := 0 to 6
        invariant |deltas| == 6
        invariant forall e :: 0 <= e < d ==> deltas[e] == TruncDiv(DeltaSums(its)[e], n)
        invariant forall e :: d <= e < 6 ==> deltas[e] == DeltaSums(its)[e]
      {
        deltas := deltas[d := TruncDiv(deltas[d], n)];
      }
      dur := TruncDiv(dur, n);
      var ram := (RamSum(its) as real) / (n as real);
      avg := Some(Average(n, deltas, dur, ram));
    }
  }
}
