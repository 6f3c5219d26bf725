/** Percentiles by linear interpolation between neighbouring ranks, over the reals. */
module InterpolatedPercentile {
  import opened Ordering

  predicate AtMost(a: real, b: real) { a <= b }

  function Ordered(values: seq<real>): seq<real> { Sort(values, AtMost) }

  function Ceiling(x: real): int { -(-x).Floor }

  /** From `a` to `b`, as far as `part` says. */
  function Blend(a: real, b: real, part: real): real {
    a + (b - a) * part
  }

  lemma BlendIsMonotone(a: real, b: real, p: real, q: real)
    requires a <= b && 0.0 <= p <= q <= 1.0
    ensures a <= Blend(a, b, p) <= Blend(a, b, q) <= b
    ensures Blend(a, b, 0.0) == a
  {
    var gap := b - a;
    assert 0.0 <= gap * p <= gap * q <= gap * 1.0;
  }

  /** The value at a fractional rank. */
  function At(ordered: seq<real>, rank: real): real
    requires 0.0 <= rank <= (|ordered| - 1) as real
  {
    var lower, upper := rank.Floor, Ceiling(rank);
    if lower == upper then ordered[lower] else Blend(ordered[lower], ordered[upper], rank - lower as real)
  }

  function RankOf(n: nat, quantile: real): (rank: real)
    requires n > 0 && 0.0 <= quantile <= 1.0
    ensures 0.0 <= rank <= (n - 1) as real
  {
    (n - 1) as real * quantile
  }

  lemma RankIsMonotone(n: nat, p: real, q: real)
    requires n > 0 && 0.0 <= p <= q <= 1.0
    ensures RankOf(n, p) <= RankOf(n, q)
  {
    var last := (n - 1) as real;
    assert last * p <= last * q;
  }

  function Percentile(values: seq<real>, quantile: real): real
    requires values != [] && 0.0 <= quantile <= 1.0
  {
    SortArranges(AtMost, values);
    At(Ordered(values), RankOf(|values|, quantile))
  }

  /** Between two whole ranks the value stays between theirs, and moves with the rank. */
  lemma AtIsBetween(ordered: seq<real>, rank: real)
    requires 0.0 <= rank <= (|ordered| - 1) as real && Ascending(ordered, AtMost)
    ensures var lower, upper := rank.Floor, Ceiling(rank);
            0 <= lower <= upper < |ordered| && ordered[lower] <= At(ordered, rank) <= ordered[upper]
  {
    var lower, upper := rank.Floor, Ceiling(rank);
    if lower < upper {
      assert AtMost(ordered[lower], ordered[upper]);
      BlendIsMonotone(ordered[lower], ordered[upper], rank - lower as real, 1.0);
    }
  }

  /** Within one pair of neighbours. */
  lemma AtIsBlend(ordered: seq<real>, rank: real, i: nat)
    requires i + 1 < |ordered| && i as real <= rank < (i + 1) as real && Ascending(ordered, AtMost)
    ensures At(ordered, rank) == Blend(ordered[i], ordered[i + 1], rank - i as real)
  {
    assert rank.Floor == i;
    assert AtMost(ordered[i], ordered[i + 1]);
    BlendIsMonotone(ordered[i], ordered[i + 1], 0.0, 1.0);
    if Ceiling(rank) == i {
      assert rank == i as real;
    } else {
      assert Ceiling(rank) == i + 1;
    }
  }

  lemma AtIsMonotone(ordered: seq<real>, r: real, s: real)
    requires 0.0 <= r <= s <= (|ordered| - 1) as real && Ascending(ordered, AtMost)
    ensures At(ordered, r) <= At(ordered, s)
  {
    AtIsBetween(ordered, r);
    AtIsBetween(ordered, s);
    var i, j := r.Floor, s.Floor;
    if i == j {
      if i + 1 < |ordered| {
        AtIsBlend(ordered, r, i);
        AtIsBlend(ordered, s, i);
        assert AtMost(ordered[i], ordered[i + 1]);
        BlendIsMonotone(ordered[i], ordered[i + 1], r - i as real, s - i as real);
      }
    } else {
      assert Ceiling(r) <= j;
      assert Ceiling(r) < j ==> AtMost(ordered[Ceiling(r)], ordered[j]);
    }
  }

  /** The percentile lies between the least and the greatest value. */
  lemma PercentileIsBounded(values: seq<real>, quantile: real)
    requires values != [] && 0.0 <= quantile <= 1.0
    ensures exists lo, hi :: lo in values && hi in values && (forall v :: v in values ==> lo <= v <= hi)
                             && lo <= Percentile(values, quantile) <= hi
  {
    SortArranges(AtMost, values);
    var ordered, rank := Ordered(values), RankOf(|values|, quantile);
    AtIsBetween(ordered, rank);
    var lo, hi := ordered[0], ordered[|ordered| - 1];
    assert lo in ordered && hi in ordered;
    forall v | v in values ensures lo <= v <= hi {
      assert v in ordered;
      var i :| 0 <= i < |ordered| && ordered[i] == v;
      assert (i > 0 ==> AtMost(lo, v)) && (i < |ordered| - 1 ==> AtMost(v, hi));
    }
    assert ordered[rank.Floor] in ordered && ordered[Ceiling(rank)] in ordered;
  }

  /** It does not depend on the order of the values. */
  lemma PercentileIgnoresOrder(values: seq<real>, values': seq<real>, quantile: real)
    requires values != [] && 0.0 <= quantile <= 1.0 && multiset(values) == multiset(values')
    ensures values' != [] && Percentile(values, quantile) == Percentile(values', quantile)
  {
    assert |multiset(values)| == |values| && |multiset(values')| == |values'|;
    SortArranges(AtMost, values);
    SortArranges(AtMost, values');
    AscendingIsUnique(Ordered(values), Ordered(values'), AtMost);
  }

  /** A greater quantile gives no smaller percentile: p50 <= p95 <= p99. */
  lemma PercentileIsMonotone(values: seq<real>, p: real, q: real)
    requires values != [] && 0.0 <= p <= q <= 1.0
    ensures Percentile(values, p) <= Percentile(values, q)
  {
    SortArranges(AtMost, values);
    RankIsMonotone(|values|, p, q);
    AtIsMonotone(Ordered(values), RankOf(|values|, p), RankOf(|values|, q));
  }

  /** The percentile is taken at this share of the way from the first to the last value. */
  lemma PercentileAtRank(values: seq<real>, quantile: real, rank: real)
    requires values != [] && 0.0 <= quantile <= 1.0 && rank == (|values| - 1) as real * quantile
    ensures 0.0 <= rank <= (|Ordered(values)| - 1) as real
    ensures Percentile(values, quantile) == At(Ordered(values), rank) && rank == RankOf(|values|, quantile)
  {
    assert rank == RankOf(|values|, quantile);
  }

  /** Behind the `i`-th of the sorted values it goes on toward the next one, as far as the rank is
      from `i`. */
  lemma PercentileInterpolates(values: seq<real>, quantile: real, rank: real, i: nat)
    requires 0.0 <= quantile <= 1.0 && i + 1 < |values| == |Ordered(values)|
    requires rank == RankOf(|values|, quantile) && i as real <= rank < (i + 1) as real
    ensures var ordered := Ordered(values);
            Percentile(values, quantile) == ordered[i] + (ordered[i + 1] - ordered[i]) * (rank - i as real)
  {
    hide RankOf, Ordered, At, Blend;
    OrderedAscends(values);
    AtInterpolates(Ordered(values), rank, i);
  }

  lemma OrderedAscends(values: seq<real>)
    ensures Ascending(Ordered(values), AtMost) && |Ordered(values)| == |values|
  {
    SortArranges(AtMost, values);
  }

  lemma AtInterpolates(ordered: seq<real>, rank: real, i: nat)
    requires i + 1 < |ordered| && i as real <= rank < (i + 1) as real && Ascending(ordered, AtMost)
    ensures At(ordered, rank) == ordered[i] + (ordered[i + 1] - ordered[i]) * (rank - i as real)
  {
    hide At;
    AtIsBlend(ordered, rank, i);
  }

  /** At a whole rank it is that element of the sorted values; the ends are the extremes. */
  lemma PercentileAtWholeRank(values: seq<real>, quantile: real, k: nat)
    requires values != [] && 0.0 <= quantile <= 1.0 && RankOf(|values|, quantile) == k as real
    ensures k < |values| == |Ordered(values)| && Percentile(values, quantile) == Ordered(values)[k]
  {
    SortArranges(AtMost, values);
    AtWholeRank(Ordered(values), k);
  }

  lemma AtWholeRank(ordered: seq<real>, k: nat)
    requires k as real <= (|ordered| - 1) as real
    ensures k < |ordered| && At(ordered, k as real) == ordered[k]
  {
    var rank := k as real;
    assert rank.Floor == k;
    var i: int := k;
    assert -rank == (-i) as real;
    assert Ceiling(rank) == k;
  }

  datatype Option<T> = None | Some(value: T)

  /** One request: its latency, the time to its first token, and the gaps between its tokens. */
  datatype Measurement = Measurement(e2e: real, ttft: real, gaps: seq<real>)

  datatype Percentiles = Percentiles(p50: real, p95: real, p99: real)

  datatype Gaps = Gaps(mean: real, p95: real)

  datatype Summary = Summary(latency: Percentiles, ttft: Percentiles, gaps: Option<Gaps>)

  function Latencies(rows: seq<Measurement>): (r: seq<real>)
    ensures |r| == |rows| && forall i :: 0 <= i < |r| ==> r[i] == rows[i].e2e
  {
    seq(|rows|, i requires 0 <= i < |rows| => rows[i].e2e)
  }

  function FirstTokens(rows: seq<Measurement>): (r: seq<real>)
    ensures |r| == |rows| && forall i :: 0 <= i < |r| ==> r[i] == rows[i].ttft
  {
    seq(|rows|, i requires 0 <= i < |rows| => rows[i].ttft)
  }

  function AllGaps(rows: seq<Measurement>): seq<real> {
    if rows == [] then [] else AllGaps(rows[..|rows| - 1]) + rows[|rows| - 1].gaps
  }

  function Sum(xs: seq<real>): real {
    if xs == [] then 0.0 else Sum(xs[..|xs| - 1]) + xs[|xs| - 1]
  }

  function Mean(xs: seq<real>): real
    requires xs != []
  {
    Sum(xs) / |xs| as real
  }

  /** The sum does not depend on how the values are cut into parts. */
  lemma {:induction false} SumJoins(xs: seq<real>, ys: seq<real>)
    ensures Sum([]) == 0.0 && (|ys| == 1 ==> Sum(ys) == ys[0])
    ensures Sum(xs + ys) == Sum(xs) + Sum(ys)
  {
    if ys == [] {
      assert xs + ys == xs;
    } else {
      var init := ys[..|ys| - 1];
      SumJoins(xs, init);
      assert (xs + ys)[..|xs + ys| - 1] == xs + init;
    }
  }

  /** The mean counted once for each value gives the sum. */
  lemma MeanTimesCount(xs: seq<real>)
    requires xs != []
    ensures Mean(xs) * |xs| as real == Sum(xs)
  {
    var n := |xs| as real;
    assert n > 0.0;
    assert Sum(xs) / n * n == Sum(xs);
  }

  /** The gaps are those of all requests, one request after the other. */
  lemma {:induction false} GapsJoin(rows: seq<Measurement>, rows': seq<Measurement>)
    ensures |rows'| == 1 ==> AllGaps(rows') == rows'[0].gaps
    ensures AllGaps(rows + rows') == AllGaps(rows) + AllGaps(rows')
  {
    if rows' == [] {
      assert rows + rows' == rows;
    } else {
      var init := rows'[..|rows'| - 1];
      GapsJoin(rows, init);
      assert (rows + rows')[..|rows + rows'| - 1] == rows + init;
    }
  }

  lemma {:induction false} SumIsBounded(xs: seq<real>, lo: real, hi: real)
    requires forall x :: x in xs ==> lo <= x <= hi
    ensures |xs| as real * lo <= Sum(xs) <= |xs| as real * hi
  {
    if xs == [] {
    } else {
      var init, last := xs[..|xs| - 1], xs[|xs| - 1];
      forall x | x in init ensures lo <= x <= hi {
        assert x in xs;
      }
      assert last in xs;
      SumIsBounded(init, lo, hi);
      var n := |init| as real;
      assert |xs| as real == n + 1.0;
      assert (n + 1.0) * lo == n * lo + lo && (n + 1.0) * hi == n * hi + hi;
    }
  }

  /** The mean lies between any bounds of the values. */
  lemma MeanIsBounded(xs: seq<real>, lo: real, hi: real)
    requires xs != [] && forall x :: x in xs ==> lo <= x <= hi
    ensures lo <= Mean(xs) <= hi
  {
    SumIsBounded(xs, lo, hi);
    QuotientIsBounded(Sum(xs), |xs| as real, lo, hi);
  }

  lemma QuotientIsBounded(a: real, n: real, lo: real, hi: real)
    requires n > 0.0 && n * lo <= a <= n * hi
    ensures lo <= a / n <= hi
  {
    var q := a / n;
    assert q * n == a;
    assert q < lo ==> q * n < lo * n;
    assert q > hi ==> q * n > hi * n;
  }

  /** The percentiles of one kind of measurement. */
  function Three(values: seq<real>): (r: Percentiles)
    requires values != []
    ensures r.p50 <= r.p95 <= r.p99
  {
    PercentileIsMonotone(values, 0.5, 0.95);
    PercentileIsMonotone(values, 0.95, 0.99);
    Percentiles(Percentile(values, 0.5), Percentile(values, 0.95), Percentile(values, 0.99))
  }

  /** The latency blocks of a benchmark summary. Without requests, resource measurements or
      elapsed time there is none. */
  function Summarize(rows: seq<Measurement>, resourceRows: nat, wallSeconds: real): (r: Option<Summary>)
    ensures r.None? <==> rows == [] || resourceRows == 0 || wallSeconds <= 0.0
    ensures r.Some? ==> r.value.latency.p50 <= r.value.latency.p95 <= r.value.latency.p99
    ensures r.Some? ==> r.value.ttft.p50 <= r.value.ttft.p95 <= r.value.ttft.p99
    ensures r.Some? ==> (r.value.gaps.None? <==> forall i :: 0 <= i < |rows| ==> rows[i].gaps == [])
  {
    if rows == [] || resourceRows == 0 || wallSeconds <= 0.0 then None
    else
      var gaps := AllGaps(rows);
      NoGaps(rows);
      Some(Summary(Three(Latencies(rows)), Three(FirstTokens(rows)),
                   if gaps == [] then None else Some(Gaps(Mean(gaps), Percentile(gaps, 0.95)))))
  }

  lemma {:induction false} NoGaps(rows: seq<Measurement>)
    ensures AllGaps(rows) == [] <==> forall i :: 0 <= i < |rows| ==> rows[i].gaps == []
  {
    if rows == [] {
    } else {
      NoGaps(rows[..|rows| - 1]);
    }
  }

  /** Each number of a summary lies between any bounds of what it summarizes. */
  lemma SummaryIsFaithful(rows: seq<Measurement>, resourceRows: nat, wallSeconds: real, lo: real, hi: real)
    requires Summarize(rows, resourceRows, wallSeconds).Some?
    ensures var s := Summarize(rows, resourceRows, wallSeconds).value;
            && ((forall x :: x in Latencies(rows) ==> lo <= x <= hi) ==> lo <= s.latency.p50 && s.latency.p99 <= hi)
            && ((forall x :: x in FirstTokens(rows) ==> lo <= x <= hi) ==> lo <= s.ttft.p50 && s.ttft.p99 <= hi)
            && (s.gaps.Some? && (forall x :: x in AllGaps(rows) ==> lo <= x <= hi) ==>
                  lo <= s.gaps.value.mean <= hi && lo <= s.gaps.value.p95 <= hi)
  {
    PercentileWithin(Latencies(rows), 0.5, lo, hi);
    PercentileWithin(Latencies(rows), 0.99, lo, hi);
    PercentileWithin(FirstTokens(rows), 0.5, lo, hi);
    PercentileWithin(FirstTokens(rows), 0.99, lo, hi);
    if AllGaps(rows) != [] {
      PercentileWithin(AllGaps(rows), 0.95, lo, hi);
      if forall x :: x in AllGaps(rows) ==> lo <= x <= hi {
        MeanIsBounded(AllGaps(rows), lo, hi);
      }
    }
  }

  /** Which percentiles these are, and of what; the mean gap is that of all gaps. */
  lemma SummaryIsExact(rows: seq<Measurement>, resourceRows: nat, wallSeconds: real)
    requires Summarize(rows, resourceRows, wallSeconds).Some?
    ensures var s := Summarize(rows, resourceRows, wallSeconds).value;
            && s.latency.p50 == Percentile(Latencies(rows), 0.5) && s.latency.p95 == Percentile(Latencies(rows), 0.95)
            && s.latency.p99 == Percentile(Latencies(rows), 0.99)
            && s.ttft.p50 == Percentile(FirstTokens(rows), 0.5) && s.ttft.p95 == Percentile(FirstTokens(rows), 0.95)
            && s.ttft.p99 == Percentile(FirstTokens(rows), 0.99)
            && (s.gaps.Some? ==>
                  s.gaps.value.mean * |AllGaps(rows)| as real == Sum(AllGaps(rows))
                  && AllGaps(rows) != [] && s.gaps.value.p95 == Percentile(AllGaps(rows), 0.95))
  {
    hide Percentile, Mean, Sum, AllGaps;
    if AllGaps(rows) != [] {
      MeanTimesCount(AllGaps(rows));
    }
  }

  lemma PercentileWithin(values: seq<real>, quantile: real, lo: real, hi: real)
    requires values != [] && 0.0 <= quantile <= 1.0
    ensures (forall x :: x in values ==> lo <= x <= hi) ==> lo <= Percentile(values, quantile) <= hi
  {
    PercentileIsBounded(values, quantile);
  }
}
