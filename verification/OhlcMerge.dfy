/** Bars of a coarse interval are the merge of the finer bars inside them. */
module OhlcMerge {
  import opened Machine
  import opened Sums
  import opened Ohlc

  predicate Nests(fine: Interval, coarse: Interval) { Seconds(fine) <= Seconds(coarse) }

  /** Every interval is a whole multiple of each shorter one. */
  lemma Ratio(fine: Interval, coarse: Interval) returns (k: nat)
    requires Nests(fine, coarse)
    ensures Seconds(coarse) == k * Seconds(fine)
  {
    k := Seconds(coarse) / Seconds(fine);
  }

  /** Flooring to the finer interval first does not change the coarse bucket. */
  lemma FloorsNest(fine: Interval, coarse: Interval, t: nat)
    requires Nests(fine, coarse)
    ensures FloorTimestamp(coarse, FloorTimestamp(fine, t)) == FloorTimestamp(coarse, t)
  {
    var k := Ratio(fine, coarse);
    var n, m := Seconds(fine), Seconds(coarse);
    var q, f := t / m, FloorTimestamp(fine, t);
    Division(t, m);
    Division(t, n);
    Division(f, m);
    MultiplesNest(t, n, k, t / n, t % n, q, t % m, f / m, f % m);
  }

  /** `f = p * n` is `t` floored to a multiple of `n`; flooring either to a multiple of `k * n` agrees. */
  lemma MultiplesNest(t: int, n: int, k: int, p: int, r: int, q: int, s: int, q': int, s': int)
    requires 0 < n && t == p * n + r && 0 <= r < n
    requires t == q * (k * n) + s && 0 <= s < k * n
    requires p * n == q' * (k * n) + s' && 0 <= s' < k * n
    ensures q' == q
  {
    assert q * (k * n) == (q * k) * n;
    if p < q * k { MulMono(p + 1, q * k, n); }
    MulMono(q * k, p, n);
    if q' < q { MulMono(q' + 1, q, k * n); }
    if q < q' { MulMono(q + 1, q', k * n); }
  }

  lemma BucketsNest(fine: Interval, coarse: Interval, t: Trade)
    requires Nests(fine, coarse)
    ensures FloorTimestamp(coarse, Bucket(fine, t)) == Bucket(coarse, t)
  {
    FloorsNest(fine, coarse, t.timestampMs / 1000);
  }

  // ---------------------------------------------------------------- additive measures

  /** The measure of each finer bucket that lies in coarse bucket `b`. */
  ghost function Inside(log: seq<Trade>, fine: Interval, coarse: Interval, b: nat, w: Measure): map<nat, int>
  {
    map x | x in Unbounded(log, fine) && FloorTimestamp(coarse, x) == b :: Weight(w, BucketTrades(log, fine, x))
  }

  lemma WeightAppend(w: Measure, trades: seq<Trade>, t: Trade)
    ensures Weight(w, trades + [t]) == Weight(w, trades) + w.Of(t)
  {
  }

  /** Any additive measure of a coarse bucket is the sum of that measure over its finer buckets. */
  lemma {:induction false} MergeWeight(log: seq<Trade>, fine: Interval, coarse: Interval, b: nat, w: Measure)
    requires Nests(fine, coarse)
    ensures MapSum<nat>(Inside(log, fine, coarse, b, w)) == Weight(w, BucketTrades(log, coarse, b))
    decreases |log|
  {
    if log == [] {
      assert Inside(log, fine, coarse, b, w) == map[];
    } else {
      var before, last := log[..|log| - 1], log[|log| - 1];
      assert before + [last] == log;
      MergeWeight(before, fine, coarse, b, w);
      MergeWeightStep(before, last, fine, coarse, b, w);
    }
  }

  lemma MergeWeightStep(before: seq<Trade>, last: Trade, fine: Interval, coarse: Interval, b: nat, w: Measure)
    requires Nests(fine, coarse)
    requires MapSum<nat>(Inside(before, fine, coarse, b, w)) == Weight(w, BucketTrades(before, coarse, b))
    ensures MapSum<nat>(Inside(before + [last], fine, coarse, b, w)) == Weight(w, BucketTrades(before + [last], coarse, b))
  {
    BucketTradesAppend(before, last, coarse, b);
    if Bucket(coarse, last) == b {
      var past, x := Inside(before, fine, coarse, b, w), Bucket(fine, last);
      InsideStep(before, last, fine, coarse, b, w);
      WeightAppend(w, BucketTrades(before, coarse, b), last);
      SumBump<nat>(past, x, w.Of(last));
      assert MapSum<nat>(Inside(before + [last], fine, coarse, b, w)) == MapSum<nat>(past) + w.Of(last);
      assert Weight(w, BucketTrades(before + [last], coarse, b)) == Weight(w, BucketTrades(before, coarse, b)) + w.Of(last);
    } else {
      InsideSame(before, last, fine, coarse, b, w);
      assert MapSum<nat>(Inside(before + [last], fine, coarse, b, w)) == MapSum<nat>(Inside(before, fine, coarse, b, w));
      assert Weight(w, BucketTrades(before + [last], coarse, b)) == Weight(w, BucketTrades(before, coarse, b));
    }
  }

  lemma InsideSame(before: seq<Trade>, last: Trade, fine: Interval, coarse: Interval, b: nat, w: Measure)
    requires Nests(fine, coarse) && Bucket(coarse, last) != b
    ensures Inside(before + [last], fine, coarse, b, w) == Inside(before, fine, coarse, b, w)
  {
    BucketsNest(fine, coarse, last);
    var past, now := Inside(before, fine, coarse, b, w), Inside(before + [last], fine, coarse, b, w);
    assert now.Keys == past.Keys by {
      UnboundedKeys(before, fine, last);
    }
    forall y | y in now ensures now[y] == past[y] {
      BucketTradesAppend(before, last, fine, y);
    }
  }

  lemma InsideStep(before: seq<Trade>, last: Trade, fine: Interval, coarse: Interval, b: nat, w: Measure)
    requires Nests(fine, coarse) && Bucket(coarse, last) == b
    ensures var past, x := Inside(before, fine, coarse, b, w), Bucket(fine, last);
            Inside(before + [last], fine, coarse, b, w) == Bump<nat>(past, x, w.Of(last))
  {
    var past, now := Inside(before, fine, coarse, b, w), Inside(before + [last], fine, coarse, b, w);
    var next := Bump<nat>(past, Bucket(fine, last), w.Of(last));
    hide Inside, FloorTimestamp;
    forall y: nat
      ensures y in now <==> y in next
      ensures y in now ==> now[y] == next[y]
    {
      InsideAt(before, last, fine, coarse, b, w, y);
    }
  }

  lemma InsideAt(before: seq<Trade>, last: Trade, fine: Interval, coarse: Interval, b: nat, w: Measure, y: nat)
    requires Nests(fine, coarse) && Bucket(coarse, last) == b
    ensures var past, now, x := Inside(before, fine, coarse, b, w), Inside(before + [last], fine, coarse, b, w), Bucket(fine, last);
            && (y in now <==> y in past || y == x)
            && (y in now ==> now[y] == (if y in past then past[y] else 0) + (if y == x then w.Of(last) else 0))
  {
    hide FloorTimestamp;
    BucketsNest(fine, coarse, last);
    UnboundedKeys(before, fine, last);
    BucketTradesAppend(before, last, fine, y);
    UnboundedBars(before, fine, y);
    WeightAppend(w, BucketTrades(before, fine, y), last);
  }

  lemma UnboundedKeys(before: seq<Trade>, i: Interval, last: Trade)
    ensures Unbounded(before + [last], i).Keys == Unbounded(before, i).Keys + {Bucket(i, last)}
  {
  }

  lemma BucketTradesAppend(before: seq<Trade>, last: Trade, i: Interval, b: nat)
    ensures BucketTrades(before + [last], i, b) == if Bucket(i, last) == b then BucketTrades(before, i, b) + [last] else BucketTrades(before, i, b)
  {
  }

  lemma {:induction false} WeightCount(trades: seq<Trade>)
    ensures Weight(Count, trades) == |trades|
  {
    if trades != [] { WeightCount(trades[..|trades| - 1]); }
  }

  ghost function Volumes(s: Series): map<nat, int> { map x | x in s :: s[x].volume }

  ghost function Counts(s: Series): map<nat, int> { map x | x in s :: s[x].tradeCount }

  /** The finer bars of a series that lie in coarse bucket `b`. */
  ghost function BarsInside(s: Series, coarse: Interval, b: nat): Series
  {
    map x | x in s && FloorTimestamp(coarse, x) == b :: s[x]
  }

  ghost function FineBars(log: seq<Trade>, fine: Interval, coarse: Interval, b: nat): Series
  {
    BarsInside(Unbounded(log, fine), coarse, b)
  }

  /** Volume and trade count add up, saturating as the bar does; high and low are the extremes of the finer highs and lows. */
  ghost predicate Merges(bar: OhlcBar, inside: Series)
  {
    && bar.volume == Min(MapSum<nat>(Volumes(inside)), U64_MAX)
    && bar.tradeCount == Min(MapSum<nat>(Counts(inside)), U64_MAX)
    && (forall x :: x in inside ==> bar.low <= inside[x].low && inside[x].high <= bar.high)
    && (exists x :: x in inside && inside[x].high == bar.high)
    && (exists x :: x in inside && inside[x].low == bar.low)
  }

  /** A coarse bar is the merge of the finer bars inside it, for every log and pair of intervals. */
  lemma CoarseBarMerges(log: seq<Trade>, fine: Interval, coarse: Interval, b: nat)
    requires Nests(fine, coarse) && b in Unbounded(log, coarse)
    ensures Merges(Unbounded(log, coarse)[b], FineBars(log, fine, coarse, b))
  {
    hide FloorTimestamp, MapSum;
    var trades, inside := BucketTrades(log, coarse, b), FineBars(log, fine, coarse, b);
    var bar := Unbounded(log, coarse)[b];
    UnboundedBars(log, coarse, b);
    WeightCount(trades);
    MeasuresMerge(log, fine, coarse, b);
    forall x | x in inside ensures bar.low <= inside[x].low && inside[x].high <= bar.high { FineBarFacts(log, fine, coarse, b, x); }
    var top :| top in trades && top.price == bar.high;
    FineBarOf(log, fine, coarse, b, top);
    assert inside[Bucket(fine, top)].high == bar.high;
    var bottom :| bottom in trades && bottom.price == bar.low;
    FineBarOf(log, fine, coarse, b, bottom);
    assert inside[Bucket(fine, bottom)].low == bar.low;
  }

  lemma MeasuresMerge(log: seq<Trade>, fine: Interval, coarse: Interval, b: nat)
    requires Nests(fine, coarse) && b in Unbounded(log, coarse)
    ensures var inside, trades := FineBars(log, fine, coarse, b), BucketTrades(log, coarse, b);
            && Min(MapSum<nat>(Volumes(inside)), U64_MAX) == Min(Weight(Volume, trades), U64_MAX)
            && Min(MapSum<nat>(Counts(inside)), U64_MAX) == Min(Weight(Count, trades), U64_MAX)
  {
    MeasureMerges(log, fine, coarse, b, Volume, Volumes(FineBars(log, fine, coarse, b)));
    MeasureMerges(log, fine, coarse, b, Count, Counts(FineBars(log, fine, coarse, b)));
  }

  lemma MeasureMerges(log: seq<Trade>, fine: Interval, coarse: Interval, b: nat, w: Measure, parts: map<nat, int>)
    requires Nests(fine, coarse) && b in Unbounded(log, coarse)
    requires parts == if w.Volume? then Volumes(FineBars(log, fine, coarse, b)) else Counts(FineBars(log, fine, coarse, b))
    ensures Min(MapSum<nat>(parts), U64_MAX) == Min(Weight(w, BucketTrades(log, coarse, b)), U64_MAX)
  {
    PartsCapped(log, fine, coarse, b, w, parts);
    MergeWeight(log, fine, coarse, b, w);
    hide MapSum, Capped, Weight, Unbounded, BucketTrades, FloorTimestamp;
    CappedSum<nat>(Inside(log, fine, coarse, b, w), U64_MAX);
  }

  lemma PartsCapped(log: seq<Trade>, fine: Interval, coarse: Interval, b: nat, w: Measure, parts: map<nat, int>)
    requires Nests(fine, coarse) && b in Unbounded(log, coarse)
    requires parts == if w.Volume? then Volumes(FineBars(log, fine, coarse, b)) else Counts(FineBars(log, fine, coarse, b))
    ensures parts == Capped(Inside(log, fine, coarse, b, w), U64_MAX)
  {
    hide FloorTimestamp, Unbounded, BucketTrades, Weight;
    forall x | x in parts ensures parts[x] == Min(Weight(w, BucketTrades(log, fine, x)), U64_MAX) {
      FineBarFacts(log, fine, coarse, b, x);
    }
  }

  /** The same of the stored series, as long as neither has evicted a bar. */
  lemma {:induction false} StoredBarsMerge(log: seq<Trade>, fine: Interval, coarse: Interval, b: nat)
    requires Nests(fine, coarse) && b in Bounded(log, coarse)
    requires |Unbounded(log, fine)| <= MAX_BARS_PER_SERIES && |Unbounded(log, coarse)| <= MAX_BARS_PER_SERIES
    ensures Merges(Bounded(log, coarse)[b], BarsInside(Bounded(log, fine), coarse, b))
  {
    hide FloorTimestamp, Merges, Unbounded, Bounded;
    BoundedRefinesLog(log, fine);
    BoundedRefinesLog(log, coarse);
    NewestWhole(Unbounded(log, fine), MAX_BARS_PER_SERIES);
    NewestWhole(Unbounded(log, coarse), MAX_BARS_PER_SERIES);
    CoarseBarMerges(log, fine, coarse, b);
  }

  lemma FineBarFacts(log: seq<Trade>, fine: Interval, coarse: Interval, b: nat, x: nat)
    requires Nests(fine, coarse) && x in FineBars(log, fine, coarse, b) && b in Unbounded(log, coarse)
    ensures var bar, part := Unbounded(log, coarse)[b], Unbounded(log, fine)[x];
            && part.volume == Min(Weight(Volume, BucketTrades(log, fine, x)), U64_MAX)
            && part.tradeCount == Min(Weight(Count, BucketTrades(log, fine, x)), U64_MAX)
            && bar.low <= part.low && part.high <= bar.high
  {
    UnboundedBars(log, fine, x);
    UnboundedBars(log, coarse, b);
    WeightCount(BucketTrades(log, fine, x));
    forall t | t in BucketTrades(log, fine, x) ensures t in BucketTrades(log, coarse, b) {
      CoarseMember(log, fine, coarse, b, x, t);
    }
    SubBar(Unbounded(log, coarse)[b], Unbounded(log, fine)[x], b, x, BucketTrades(log, coarse, b), BucketTrades(log, fine, x));
  }

  lemma SubBar(bar: OhlcBar, part: OhlcBar, b: nat, x: nat, trades: seq<Trade>, some: seq<Trade>)
    requires IsBarOf(bar, b, trades) && IsBarOf(part, x, some)
    requires forall t :: t in some ==> t in trades
    ensures bar.low <= part.low && part.high <= bar.high
  {
  }

  lemma CoarseMember(log: seq<Trade>, fine: Interval, coarse: Interval, b: nat, x: nat, t: Trade)
    requires Nests(fine, coarse) && FloorTimestamp(coarse, x) == b && t in BucketTrades(log, fine, x)
    ensures t in BucketTrades(log, coarse, b)
  {
    BucketMember(log, fine, x, t);
    BucketsNest(fine, coarse, t);
    BucketMember(log, coarse, b, t);
  }

  /** The finer bar a trade of the coarse bucket fell into reaches that trade's price. */
  lemma FineBarOf(log: seq<Trade>, fine: Interval, coarse: Interval, b: nat, t: Trade)
    requires Nests(fine, coarse) && t in BucketTrades(log, coarse, b)
    requires b in Unbounded(log, coarse)
    ensures Bucket(fine, t) in FineBars(log, fine, coarse, b)
    ensures var bar, part := Unbounded(log, coarse)[b], FineBars(log, fine, coarse, b)[Bucket(fine, t)];
            && (t.price == bar.high ==> part.high == bar.high)
            && (t.price == bar.low ==> part.low == bar.low)
  {
    var x := Bucket(fine, t);
    BucketMember(log, coarse, b, t);
    BucketsNest(fine, coarse, t);
    BucketMember(log, fine, x, t);
    UnboundedBars(log, fine, x);
    FineBarFacts(log, fine, coarse, b, x);
  }

  // ---------------------------------------------------------------- open and close, in time order

  ghost predicate TimeOrdered(log: seq<Trade>)
  {
    forall i, j :: 0 <= i < j < |log| ==> log[i].timestampMs <= log[j].timestampMs
  }

  lemma BucketMonotone(i: Interval, a: Trade, b: Trade)
    requires a.timestampMs <= b.timestampMs
    ensures Bucket(i, a) <= Bucket(i, b)
  {
  }

  /** In time order the first and last trades of a coarse bucket open its first and close its last finer bucket. */
  lemma {:induction false} EdgeTrades(log: seq<Trade>, fine: Interval, coarse: Interval, b: nat)
    requires Nests(fine, coarse) && TimeOrdered(log) && BucketTrades(log, coarse, b) != []
    ensures var trades := BucketTrades(log, coarse, b);
            var first, last := trades[0], trades[|trades| - 1];
            var opens, closes := BucketTrades(log, fine, Bucket(fine, first)), BucketTrades(log, fine, Bucket(fine, last));
            && opens != [] && opens[0] == first
            && closes != [] && closes[|closes| - 1] == last
            && (forall t :: t in trades ==> Bucket(fine, first) <= Bucket(fine, t) <= Bucket(fine, last))
    decreases |log|
  {
    hide FloorTimestamp, Seconds;
    var before, newest := log[..|log| - 1], log[|log| - 1];
    var trades, earlier := BucketTrades(log, coarse, b), BucketTrades(before, coarse, b);
    BucketsNest(fine, coarse, newest);
    if earlier == [] {
      NoFineTrades(before, fine, coarse, b, Bucket(fine, newest));
    } else {
      EdgeTrades(before, fine, coarse, b);
      if trades != earlier {
        forall t | t in earlier ensures Bucket(fine, t) <= Bucket(fine, newest) {
          BucketMember(before, coarse, b, t);
          BucketMonotone(fine, t, newest);
        }
      } else {
        var first, last := earlier[0], earlier[|earlier| - 1];
        BucketMember(before, coarse, b, first);
        BucketMember(before, coarse, b, last);
        BucketsNest(fine, coarse, first);
        BucketsNest(fine, coarse, last);
      }
    }
  }

  lemma NoFineTrades(log: seq<Trade>, fine: Interval, coarse: Interval, b: nat, x: nat)
    requires Nests(fine, coarse) && BucketTrades(log, coarse, b) == [] && FloorTimestamp(coarse, x) == b
    ensures BucketTrades(log, fine, x) == []
  {
    if BucketTrades(log, fine, x) != [] {
      CoarseMember(log, fine, coarse, b, x, BucketTrades(log, fine, x)[0]);
    }
  }

  /** For trades arriving in time order the coarse open and close are those of the first and last finer bar. */
  lemma {:induction false} OpenAndCloseMerge(log: seq<Trade>, fine: Interval, coarse: Interval, b: nat) returns (first: nat, last: nat)
    requires Nests(fine, coarse) && TimeOrdered(log) && b in Unbounded(log, coarse)
    ensures var bar, inside := Unbounded(log, coarse)[b], FineBars(log, fine, coarse, b);
            && first in inside && last in inside
            && (forall x :: x in inside ==> first <= x <= last)
            && bar.open == inside[first].open && bar.close == inside[last].close
  {
    hide FloorTimestamp, Unbounded, BucketTrades, TimeOrdered;
    UnboundedBars(log, coarse, b);
    EdgeTrades(log, fine, coarse, b);
    var trades, inside := BucketTrades(log, coarse, b), FineBars(log, fine, coarse, b);
    var opener, closer := trades[0], trades[|trades| - 1];
    first, last := Bucket(fine, opener), Bucket(fine, closer);
    BucketMember(log, coarse, b, opener);
    BucketMember(log, coarse, b, closer);
    BucketsNest(fine, coarse, opener);
    BucketsNest(fine, coarse, closer);
    UnboundedBars(log, fine, first);
    UnboundedBars(log, fine, last);
    forall x | x in inside ensures first <= x <= last {
      UnboundedBars(log, fine, x);
      var t := BucketTrades(log, fine, x)[0];
      BucketMember(log, fine, x, t);
      CoarseMember(log, fine, coarse, b, x, t);
    }
  }
}
