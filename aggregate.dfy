/**
 * `aggregate_history_by_month` / `aggregate_history_by_year`: roll a repository's dated
 * snapshots into calendar buckets.  The source fills a `buckets` dictionary in one pass
 * (a missing reading adds 0) and then emits the buckets in `sorted(buckets.keys())` order.
 * Both functions are the same loop with a different key, modelled once as `Aggregate`
 * with a `Granularity`.
 */
module Aggregator {
  import opened Wrappers
  import opened Text
  import opened Collections
  import opened Dates

  /** One stored snapshot `(datetime, clone_count?, unique_clones?, download_count?)`. */
  datatype Snapshot = Snapshot(date: CalendarDate, clones: Option<int>, uniques: Option<int>, downloads: Option<int>)

  /** Snapshots in `ORDER BY day ASC` order, as the history reader returns them. */
  predicate Chronological(hist: seq<Snapshot>) {
    forall i, j :: 0 <= i < j < |hist| ==> AtOrBefore(hist[i].date, hist[j].date)
  }

  /** One output tuple `(period_start, sum_clones, sum_uniques, sum_downloads)`. */
  datatype Bucket = Bucket(period: CalendarDate, clones: int, uniques: int, downloads: int)

  datatype Metric = Clones | Uniques | Downloads

  datatype Granularity = Monthly | Yearly

  /** The reading a snapshot contributes to a sum: `v or 0`. */
  function Reading(s: Snapshot, m: Metric): int {
    match m
    case Clones => OrZero(s.clones)
    case Uniques => OrZero(s.uniques)
    case Downloads => OrZero(s.downloads)
  }

  function BucketValue(b: Bucket, m: Metric): int {
    match m
    case Clones => b.clones
    case Uniques => b.uniques
    case Downloads => b.downloads
  }

  /** The bucket key of a date: `month_key(dt)` as the first of the month, or `dt.year` as 1 January. */
  function PeriodOf(g: Granularity, d: CalendarDate): CalendarDate {
    match g
    case Monthly => MonthStart(d)
    case Yearly => YearStart(d)
  }

  predicate NonNegative(hist: seq<Snapshot>) {
    forall i, m :: 0 <= i < |hist| ==> Reading(hist[i], m) >= 0
  }

  /** Sum of the readings of `m` over the snapshots of `hist` that fall in period `p`. */
  function PeriodSum(hist: seq<Snapshot>, g: Granularity, p: Date, m: Metric): (r: int)
    ensures NonNegative(hist) ==> r >= 0
  {
    if hist == [] then 0
    else
      var s := hist[|hist| - 1];
      PeriodSum(hist[..|hist| - 1], g, p, m) + (if PeriodOf(g, s.date) == p then Reading(s, m) else 0)
  }

  /** Sum of the readings of `m` over all of `hist`. */
  function Total(hist: seq<Snapshot>, m: Metric): int {
    if hist == [] then 0 else Total(hist[..|hist| - 1], m) + Reading(hist[|hist| - 1], m)
  }

  /** The bucket the source emits for period `p`. */
  function BucketOf(hist: seq<Snapshot>, g: Granularity, p: CalendarDate): Bucket {
    Bucket(p, PeriodSum(hist, g, p, Clones), PeriodSum(hist, g, p, Uniques), PeriodSum(hist, g, p, Downloads))
  }

  /** Some snapshot of `hist` falls in period `p`. */
  predicate Observed(hist: seq<Snapshot>, g: Granularity, p: Date) {
    exists k :: 0 <= k < |hist| && PeriodOf(g, hist[k].date) == p
  }

  /** `out` is the aggregation of `hist`: one bucket per observed period, in strictly ascending
      period order, each holding that period's sums. */
  predicate IsAggregate(hist: seq<Snapshot>, g: Granularity, out: seq<Bucket>) {
    && (forall i, j :: 0 <= i < j < |out| ==> Before(out[i].period, out[j].period))
    && (forall k :: 0 <= k < |hist| ==> PeriodOf(g, hist[k].date) in Periods(out))
    && (forall j :: 0 <= j < |out| ==> Observed(hist, g, out[j].period) && out[j] == BucketOf(hist, g, out[j].period))
  }

  /** Two aggregations of one history hold the same periods: exactly the observed ones. */
  lemma AggregatePeriodsAgree(hist: seq<Snapshot>, g: Granularity, out1: seq<Bucket>, out2: seq<Bucket>)
    requires IsAggregate(hist, g, out1) && IsAggregate(hist, g, out2)
    ensures forall p :: p in Periods(out1) ==> p in Periods(out2)
  {
    forall p | p in Periods(out1) ensures p in Periods(out2) {
      var j :| 0 <= j < |out1| && Periods(out1)[j] == p;
      assert Observed(hist, g, out1[j].period);
      var k :| 0 <= k < |hist| && PeriodOf(g, hist[k].date) == p;
    }
  }

  /** The period keys of the buckets, in order. */
  function Periods(out: seq<Bucket>): (ps: seq<Date>)
    ensures |ps| == |out| && forall j :: 0 <= j < |out| ==> ps[j] == out[j].period
  {
    seq(|out|, j requires 0 <= j < |out| => out[j].period)
  }

  function SumBuckets(out: seq<Bucket>, m: Metric): int {
    if out == [] then 0 else SumBuckets(out[..|out| - 1], m) + BucketValue(out[|out| - 1], m)
  }

  function SumOverPeriods(hist: seq<Snapshot>, g: Granularity, ps: seq<Date>, m: Metric): int {
    if ps == [] then 0 else SumOverPeriods(hist, g, ps[..|ps| - 1], m) + PeriodSum(hist, g, ps[|ps| - 1], m)
  }

  lemma PeriodSumSnoc(h: seq<Snapshot>, s: Snapshot, g: Granularity, p: Date, m: Metric)
    ensures PeriodSum(h + [s], g, p, m) == PeriodSum(h, g, p, m) + (if PeriodOf(g, s.date) == p then Reading(s, m) else 0)
  {
    assert (h + [s])[..|h|] == h;
  }

  lemma {:induction false} PeriodSumUnobserved(h: seq<Snapshot>, g: Granularity, p: Date, m: Metric)
    requires !Observed(h, g, p)
    ensures PeriodSum(h, g, p, m) == 0
  {
    if h != [] {
      var h' := h[..|h| - 1];
      forall k | 0 <= k < |h'| ensures PeriodOf(g, h'[k].date) != p {
        assert h'[k] == h[k];
      }
      PeriodSumUnobserved(h', g, p, m);
    }
  }

  lemma {:induction false} SumOverPeriodsOfNothing(g: Granularity, ps: seq<Date>, m: Metric)
    ensures SumOverPeriods([], g, ps, m) == 0
  {
    if ps != [] {
      SumOverPeriodsOfNothing(g, ps[..|ps| - 1], m);
    }
  }

  lemma {:induction false} SumOverPeriodsSnoc(h: seq<Snapshot>, s: Snapshot, g: Granularity, ps: seq<Date>, m: Metric)
    requires Distinct(ps)
    ensures SumOverPeriods(h + [s], g, ps, m)
         == SumOverPeriods(h, g, ps, m) + (if PeriodOf(g, s.date) in ps then Reading(s, m) else 0)
  {
    if ps != [] {
      var qs, q := ps[..|ps| - 1], ps[|ps| - 1];
      assert ps == qs + [q];
      assert q !in qs;
      SumOverPeriodsSnoc(h, s, g, qs, m);
      PeriodSumSnoc(h, s, g, q, m);
    }
  }

  /** Rolling up loses and invents nothing: summing one metric over a list of distinct periods
      that covers every snapshot gives the metric's total over the whole history. */
  lemma {:induction false} Conservation(hist: seq<Snapshot>, g: Granularity, ps: seq<Date>, m: Metric)
    requires Distinct(ps)
    requires forall k :: 0 <= k < |hist| ==> PeriodOf(g, hist[k].date) in ps
    ensures SumOverPeriods(hist, g, ps, m) == Total(hist, m)
  {
    if hist == [] {
      SumOverPeriodsOfNothing(g, ps, m);
    } else {
      var h, s := hist[..|hist| - 1], hist[|hist| - 1];
      assert hist == h + [s];
      assert forall k :: 0 <= k < |h| ==> h[k] == hist[k];
      Conservation(h, g, ps, m);
      SumOverPeriodsSnoc(h, s, g, ps, m);
    }
  }

  /** What the first pass knows after reading the first `i` snapshots. */
  ghost predicate CollectInv(hist: seq<Snapshot>, g: Granularity, i: int, buckets: map<Date, Bucket>, order: seq<Date>)
    requires 0 <= i <= |hist|
  {
    && Distinct(order)
    && (forall p :: p in buckets <==> p in order)
    && (forall k :: 0 <= k < i ==> PeriodOf(g, hist[k].date) in buckets)
    && (forall p :: p in buckets ==> Observed(hist[..i], g, p))
    && (forall p :: p in buckets ==> buckets[p].period == p && buckets[p] == BucketOf(hist[..i], g, buckets[p].period))
  }

  /** The bucket of `s` after adding its readings to `b`. */
  function AddReadings(b: Bucket, s: Snapshot): Bucket {
    Bucket(b.period, b.clones + Reading(s, Clones), b.uniques + Reading(s, Uniques), b.downloads + Reading(s, Downloads))
  }

  /** The first pass of the source: the `buckets` dictionary, and its keys in insertion order. */
  method CollectBuckets(hist: seq<Snapshot>, g: Granularity) returns (buckets: map<Date, Bucket>, order: seq<Date>)
    ensures CollectInv(hist, g, |hist|, buckets, order)
  {
    buckets, order := map[], [];
    for i := 0 to |hist|
      invariant CollectInv(hist, g, i, buckets, order)
    {
      ghost var buckets0, order0 := buckets, order;
      var s := hist[i];
      var k := PeriodOf(g, s.date);
      if k !in buckets {
        buckets := buckets[k := Bucket(k, 0, 0, 0)];
        order := order + [k];
      }
      buckets := buckets[k := AddReadings(buckets[k], s)];
      CollectStep(hist, g, i, buckets0, order0, buckets, order);
    }
  }

  /** The state after the loop body reads snapshot `i`. */
  ghost predicate StepOf(hist: seq<Snapshot>, g: Granularity, i: int, buckets: map<Date, Bucket>, order: seq<Date>,
                         buckets': map<Date, Bucket>, order': seq<Date>)
    requires 0 <= i < |hist|
  {
    var k := PeriodOf(g, hist[i].date);
    var b := if k in buckets then buckets[k] else Bucket(k, 0, 0, 0);
    && buckets' == buckets[k := AddReadings(b, hist[i])]
    && order' == if k in buckets then order else order + [k]
  }

  lemma CollectStep(hist: seq<Snapshot>, g: Granularity, i: int, buckets: map<Date, Bucket>, order: seq<Date>,
                    buckets': map<Date, Bucket>, order': seq<Date>)
    requires 0 <= i < |hist| && CollectInv(hist, g, i, buckets, order)
    requires StepOf(hist, g, i, buckets, order, buckets', order')
    ensures CollectInv(hist, g, i + 1, buckets', order')
  {
    StepKeys(hist, g, i, buckets, order, buckets', order');
    StepObserved(hist, g, i, buckets, order, buckets', order');
    StepValues(hist, g, i, buckets, order, buckets', order');
  }

  lemma StepKeys(hist: seq<Snapshot>, g: Granularity, i: int, buckets: map<Date, Bucket>, order: seq<Date>,
                 buckets': map<Date, Bucket>, order': seq<Date>)
    requires 0 <= i < |hist| && CollectInv(hist, g, i, buckets, order)
    requires StepOf(hist, g, i, buckets, order, buckets', order')
    ensures Distinct(order') && (forall p :: p in buckets' <==> p in order')
    ensures forall k :: 0 <= k < i + 1 ==> PeriodOf(g, hist[k].date) in buckets'
  {
  }

  lemma StepObserved(hist: seq<Snapshot>, g: Granularity, i: int, buckets: map<Date, Bucket>, order: seq<Date>,
                     buckets': map<Date, Bucket>, order': seq<Date>)
    requires 0 <= i < |hist| && CollectInv(hist, g, i, buckets, order)
    requires StepOf(hist, g, i, buckets, order, buckets', order')
    ensures forall p :: p in buckets' ==> Observed(hist[..i + 1], g, p)
  {
    ObservedSnoc(hist, i, g);
  }

  lemma StepValues(hist: seq<Snapshot>, g: Granularity, i: int, buckets: map<Date, Bucket>, order: seq<Date>,
                   buckets': map<Date, Bucket>, order': seq<Date>)
    requires 0 <= i < |hist| && CollectInv(hist, g, i, buckets, order)
    requires StepOf(hist, g, i, buckets, order, buckets', order')
    ensures forall p :: p in buckets' ==> buckets'[p].period == p && buckets'[p] == BucketOf(hist[..i + 1], g, buckets'[p].period)
  {
    var k := PeriodOf(g, hist[i].date);
    if k !in buckets {
      PeriodSumUnobserved(hist[..i], g, k, Clones);
      PeriodSumUnobserved(hist[..i], g, k, Uniques);
      PeriodSumUnobserved(hist[..i], g, k, Downloads);
    }
    forall p | p in buckets'
      ensures buckets'[p].period == p && buckets'[p] == BucketOf(hist[..i + 1], g, buckets'[p].period)
    {
      BucketStep(hist, i, g, buckets'[p].period);
    }
  }

  /** How one more snapshot changes the bucket of period `p`. */
  lemma BucketStep(hist: seq<Snapshot>, i: int, g: Granularity, p: CalendarDate)
    requires 0 <= i < |hist|
    ensures var b, s := BucketOf(hist[..i], g, p), hist[i];
            BucketOf(hist[..i + 1], g, p)
            == if PeriodOf(g, s.date) == p
               then Bucket(p, b.clones + Reading(s, Clones), b.uniques + Reading(s, Uniques), b.downloads + Reading(s, Downloads))
               else b
  {
    assert hist[..i + 1] == hist[..i] + [hist[i]];
    PeriodSumSnoc(hist[..i], hist[i], g, p, Clones);
    PeriodSumSnoc(hist[..i], hist[i], g, p, Uniques);
    PeriodSumSnoc(hist[..i], hist[i], g, p, Downloads);
  }

  /** A period observed in a prefix stays observed in the longer prefix, and the next snapshot's period is observed. */
  lemma ObservedSnoc(hist: seq<Snapshot>, i: int, g: Granularity)
    requires 0 <= i < |hist|
    ensures forall p :: Observed(hist[..i], g, p) ==> Observed(hist[..i + 1], g, p)
    ensures Observed(hist[..i + 1], g, PeriodOf(g, hist[i].date))
  {
    forall p | Observed(hist[..i], g, p) ensures Observed(hist[..i + 1], g, p) {
      var k :| 0 <= k < i && PeriodOf(g, hist[..i][k].date) == p;
      assert hist[..i + 1][k] == hist[..i][k];
    }
    assert hist[..i + 1][i] == hist[i];
  }

  /** The shared body of `aggregate_history_by_month` and `aggregate_history_by_year`: the first pass,
      then one bucket per key in `sorted(buckets.keys())` order. */
  method Aggregate(hist: seq<Snapshot>, g: Granularity) returns (out: seq<Bucket>)
    ensures IsAggregate(hist, g, out)
    ensures forall m :: SumBuckets(out, m) == Total(hist, m)
    ensures NonNegative(hist) ==> forall j, m :: 0 <= j < |out| ==> BucketValue(out[j], m) >= 0
  {
    var buckets, order := CollectBuckets(hist, g);
    var keys := SortDates(order);
    KeysHaveBuckets(buckets, order, keys);
    out := EmitBuckets(buckets, keys);
    AggregateFacts(hist, g, buckets, order, keys, out);
  }

  /** The second pass of the source: the bucket of every key, in key order. */
  method EmitBuckets(buckets: map<Date, Bucket>, keys: seq<Date>) returns (out: seq<Bucket>)
    requires forall t :: 0 <= t < |keys| ==> keys[t] in buckets
    ensures |out| == |keys| && forall t :: 0 <= t < |keys| ==> out[t] == buckets[keys[t]]
  {
    out := [];
    for j := 0 to |keys|
      invariant |out| == j
      invariant forall t :: 0 <= t < j ==> out[t] == buckets[keys[t]]
    {
      out := out + [buckets[keys[j]]];
    }
  }

  lemma KeysHaveBuckets(buckets: map<Date, Bucket>, order: seq<Date>, keys: seq<Date>)
    requires forall p :: p in buckets <==> p in order
    requires multiset(keys) == multiset(order)
    ensures forall t :: 0 <= t < |keys| ==> keys[t] in buckets
  {
    forall t | 0 <= t < |keys| ensures keys[t] in buckets {
      assert keys[t] in multiset(order);
    }
  }

  /** The emitted buckets are exactly the collected ones in sorted key order, hence an aggregate of `hist`. */
  lemma AggregateFacts(hist: seq<Snapshot>, g: Granularity, buckets: map<Date, Bucket>, order: seq<Date>,
                       keys: seq<Date>, out: seq<Bucket>)
    requires CollectInv(hist, g, |hist|, buckets, order)
    requires keys == SortDates(order)
    requires |out| == |keys| && forall t :: 0 <= t < |keys| ==> keys[t] in buckets && out[t] == buckets[keys[t]]
    ensures IsAggregate(hist, g, out)
    ensures forall m :: SumBuckets(out, m) == Total(hist, m)
    ensures NonNegative(hist) ==> forall j, m :: 0 <= j < |out| ==> BucketValue(out[j], m) >= 0
  {
    assert hist[..|hist|] == hist;
    assert Periods(out) == keys;
    assert Distinct(keys);
    forall k | 0 <= k < |hist| ensures PeriodOf(g, hist[k].date) in keys {
      assert PeriodOf(g, hist[k].date) in multiset(order);
    }
    forall m ensures SumBuckets(out, m) == Total(hist, m) {
      SumBucketsByPeriod(hist, g, out, m);
      Conservation(hist, g, keys, m);
    }
  }

  /** Summing the buckets is summing each bucket's period over the history. */
  lemma {:induction false} SumBucketsByPeriod(hist: seq<Snapshot>, g: Granularity, out: seq<Bucket>, m: Metric)
    requires forall t :: 0 <= t < |out| ==> out[t] == BucketOf(hist, g, out[t].period)
    ensures SumBuckets(out, m) == SumOverPeriods(hist, g, Periods(out), m)
  {
    if out != [] {
      var init := out[..|out| - 1];
      assert forall t :: 0 <= t < |init| ==> init[t] == out[t];
      assert Periods(out)[..|out| - 1] == Periods(init);
      SumBucketsByPeriod(hist, g, init, m);
    }
  }

  /** `aggregate_history_by_month`: monthly buckets, each keyed by the first day of its month. */
  method AggregateByMonth(hist: seq<Snapshot>) returns (out: seq<Bucket>)
    ensures IsAggregate(hist, Monthly, out)
    ensures forall m :: SumBuckets(out, m) == Total(hist, m)
    ensures NonNegative(hist) ==> forall j, m :: 0 <= j < |out| ==> BucketValue(out[j], m) >= 0
    ensures forall j :: 0 <= j < |out| ==> out[j].period.day == 1
  {
    out := Aggregate(hist, Monthly);
  }

  /** `aggregate_history_by_year`: yearly buckets, each keyed by 1 January of its year. */
  method AggregateByYear(hist: seq<Snapshot>) returns (out: seq<Bucket>)
    ensures IsAggregate(hist, Yearly, out)
    ensures forall m :: SumBuckets(out, m) == Total(hist, m)
    ensures NonNegative(hist) ==> forall j, m :: 0 <= j < |out| ==> BucketValue(out[j], m) >= 0
    ensures forall j :: 0 <= j < |out| ==> out[j].period.month == 1 && out[j].period.day == 1
  {
    out := Aggregate(hist, Yearly);
  }
}
