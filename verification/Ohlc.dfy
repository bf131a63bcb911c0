/**
 OHLC bars of a trade stream: the bounded per-series store (`OhlcAggregator`,
 src/ohlc.rs) against the unbounded log of trades it was fed.
 */
module Ohlc {
  import opened Machine
  import opened TopK

  datatype Interval = OneMinute | FiveMinutes | FifteenMinutes | OneHour | FourHours | OneDay

  const INTERVALS: seq<Interval> := [OneMinute, FiveMinutes, FifteenMinutes, OneHour, FourHours, OneDay]

  const MAX_BARS_PER_SERIES: nat := 2048

  function Seconds(i: Interval): (n: nat)
    ensures n > 0
  {
    match i
    case OneMinute => 60
    case FiveMinutes => 300
    case FifteenMinutes => 900
    case OneHour => 3600
    case FourHours => 14400
    case OneDay => 86400
  }

  lemma AllIntervals(i: Interval)
    ensures i in INTERVALS
  {
  }

  function FloorTimestamp(i: Interval, seconds: nat): (r: nat)
  {
    var n := Seconds(i);
    QuotientBound(seconds, n);
    MulNonNegative(seconds / n, n);
    (seconds / n) * n
  }

  datatype Trade = Trade(timestampMs: u64, price: u128, quantity: u64)

  function Bucket(i: Interval, t: Trade): nat { FloorTimestamp(i, t.timestampMs / 1000) }

  /** `b` starts the span of `n` seconds, counted from the epoch, in which the trade fell. */
  predicate StartsSpan(b: nat, n: nat, t: Trade)
    requires n > 0
  {
    b % n == 0 && b * 1000 <= t.timestampMs < (b + n) * 1000
  }

  lemma FloorStartsSpan(b: nat, n: nat, t: Trade)
    requires n > 0
    ensures StartsSpan(b, n, t) <==> b == (t.timestampMs / 1000 / n) * n
  {
    var s := t.timestampMs / 1000;
    Division(s, n);
    MulNonNegative(s / n, n);
    Division(b, n);
    if StartsSpan(b, n, t) { SameQuotient(n, b / n, s - b, s / n, s % n); }
    if b == (s / n) * n { SameQuotient(n, b / n, b % n, s / n, 0); }
  }

  /** A trade's bucket is the minute, five minutes, quarter, hour, four hours or day it fell in. */
  lemma BucketIsSpan(i: Interval, t: Trade, b: nat)
    ensures i.OneMinute? ==> (b == Bucket(i, t) <==> StartsSpan(b, 60, t))
    ensures i.FiveMinutes? ==> (b == Bucket(i, t) <==> StartsSpan(b, 300, t))
    ensures i.FifteenMinutes? ==> (b == Bucket(i, t) <==> StartsSpan(b, 900, t))
    ensures i.OneHour? ==> (b == Bucket(i, t) <==> StartsSpan(b, 3600, t))
    ensures i.FourHours? ==> (b == Bucket(i, t) <==> StartsSpan(b, 14400, t))
    ensures i.OneDay? ==> (b == Bucket(i, t) <==> StartsSpan(b, 86400, t))
  {
    FloorStartsSpan(b, Seconds(i), t);
  }

  datatype OhlcBar = OhlcBar(timestamp: nat, open: u128, high: u128, low: u128, close: u128, volume: u64, tradeCount: u64)
  {
    static function New(timestamp: nat, price: u128, quantity: u64): OhlcBar
    {
      OhlcBar(timestamp, price, price, price, price, quantity, 1)
    }

    function Update(price: u128, quantity: u64): OhlcBar
    {
      OhlcBar(timestamp, open, Max(high, price), Min(low, price), price,
              SatAddU64(volume, quantity), SatAddU64(tradeCount, 1))
    }
  }

  type Series = map<nat, OhlcBar>

  function Record(s: Series, i: Interval, t: Trade): Series
  {
    var b := Bucket(i, t);
    s[b := if b in s then s[b].Update(t.price, t.quantity) else OhlcBar.New(b, t.price, t.quantity)]
  }

  ghost predicate Older(a: nat, b: nat) { a < b }

  /** The bars of the `k` newest buckets. */
  ghost function Newest(s: Series, k: nat): Series
  {
    map b | b in s && b in Top(Older, s.Keys, k) :: s[b]
  }

  // ---------------------------------------------------------------- specification: the whole log

  ghost function Unbounded(log: seq<Trade>, i: Interval): Series
  {
    if log == [] then map[] else Record(Unbounded(log[..|log| - 1], i), i, log[|log| - 1])
  }

  /** The store as the code keeps it: record, then evict beyond the cap. */
  ghost function Bounded(log: seq<Trade>, i: Interval): Series
  {
    if log == [] then map[]
    else Newest(Record(Bounded(log[..|log| - 1], i), i, log[|log| - 1]), MAX_BARS_PER_SERIES)
  }

  /** The trades of one bucket, in arrival order. */
  ghost function BucketTrades(log: seq<Trade>, i: Interval, b: nat): seq<Trade>
  {
    if log == [] then []
    else
      var before, last := BucketTrades(log[..|log| - 1], i, b), log[|log| - 1];
      if Bucket(i, last) == b then before + [last] else before
  }

  /** The additive measures of a bar. */
  datatype Measure = Volume | Count
  {
    function Of(t: Trade): nat { if Volume? then t.quantity else 1 }
  }

  ghost function Weight(w: Measure, trades: seq<Trade>): nat
  {
    if trades == [] then 0 else Weight(w, trades[..|trades| - 1]) + w.Of(trades[|trades| - 1])
  }

  /** What a bar must say about the trades of its bucket. */
  ghost predicate IsBarOf(bar: OhlcBar, b: nat, trades: seq<Trade>)
  {
    && trades != []
    && bar.timestamp == b
    && bar.open == trades[0].price
    && bar.close == trades[|trades| - 1].price
    && (forall t :: t in trades ==> bar.low <= t.price <= bar.high)
    && (exists t :: t in trades && t.price == bar.high)
    && (exists t :: t in trades && t.price == bar.low)
    && bar.volume == Min(Weight(Volume, trades), U64_MAX)
    && bar.tradeCount == Min(|trades|, U64_MAX)
  }

  lemma IsBarOfUpdate(bar: OhlcBar, b: nat, trades: seq<Trade>, t: Trade)
    requires IsBarOf(bar, b, trades)
    ensures IsBarOf(bar.Update(t.price, t.quantity), b, trades + [t])
  {
  }

  lemma IsBarOfNew(b: nat, t: Trade)
    ensures IsBarOf(OhlcBar.New(b, t.price, t.quantity), b, [t])
  {
  }

  lemma {:induction false} BucketMember(log: seq<Trade>, i: Interval, b: nat, t: Trade)
    ensures t in BucketTrades(log, i, b) <==> t in log && Bucket(i, t) == b
  {
    if log != [] {
      BucketMember(log[..|log| - 1], i, b, t);
      assert log == log[..|log| - 1] + [log[|log| - 1]];
    }
  }

  /** The unbounded series has one bar per bucket with trades, each the fold of its trades in arrival order. */
  lemma {:induction false} UnboundedBars(log: seq<Trade>, i: Interval, b: nat)
    ensures b in Unbounded(log, i) <==> BucketTrades(log, i, b) != []
    ensures b in Unbounded(log, i) ==> IsBarOf(Unbounded(log, i)[b], b, BucketTrades(log, i, b))
  {
    if log != [] {
      var before, last := log[..|log| - 1], log[|log| - 1];
      UnboundedBars(before, i, b);
      if Bucket(i, last) == b {
        if b in Unbounded(before, i) {
          IsBarOfUpdate(Unbounded(before, i)[b], b, BucketTrades(before, i, b), last);
        } else {
          IsBarOfNew(b, last);
        }
      }
    }
  }

  lemma OlderIsStrict(s: set<nat>)
    ensures StrictOrder(Older, s)
  {
  }

  lemma NewestKeys(s: Series, k: nat)
    ensures Newest(s, k).Keys == Top(Older, s.Keys, k)
  {
  }

  /** Recording into the truncated series and truncating again is truncating the full one. */
  lemma NewestRecord(s: Series, i: Interval, t: Trade, k: nat)
    ensures Newest(Record(Newest(s, k), i, t), k) == Newest(Record(s, i, t), k)
  {
    hide FloorTimestamp, Top;
    var b := Bucket(i, t);
    var part, whole := Record(Newest(s, k), i, t), Record(s, i, t);
    OlderIsStrict(s.Keys + {b});
    TopInsert(Older, s.Keys, b, k);
    NewestKeys(s, k);
    assert part.Keys == Top(Older, s.Keys, k) + {b} && whole.Keys == s.Keys + {b};
    NewestKeys(part, k);
    NewestKeys(whole, k);
    forall x | x in Newest(whole, k)
      ensures part[x] == whole[x]
    {
      if x in s { TopBefore(Older, s.Keys, b, k, x); }
    }
  }

  /**
   The store always holds exactly the newest min(2048, n) of the n distinct buckets ever
   traded, whatever the order of timestamps, each bar complete: an evicted bucket never
   comes back with part of its trades.
   */
  lemma {:induction false} BoundedRefinesLog(log: seq<Trade>, i: Interval)
    ensures Bounded(log, i) == Newest(Unbounded(log, i), MAX_BARS_PER_SERIES)
    ensures |Bounded(log, i)| == Min(|Unbounded(log, i)|, 2048)
    ensures forall dropped, kept :: dropped in Unbounded(log, i) && dropped !in Bounded(log, i) && kept in Bounded(log, i) ==> dropped < kept
    ensures forall b :: b in Bounded(log, i) ==> IsBarOf(Bounded(log, i)[b], b, BucketTrades(log, i, b))
  {
    if log != [] {
      BoundedRefinesLog(log[..|log| - 1], i);
      NewestRecord(Unbounded(log[..|log| - 1], i), i, log[|log| - 1], MAX_BARS_PER_SERIES);
    }
    var u := Unbounded(log, i);
    OlderIsStrict(u.Keys);
    NewestKeys(u, MAX_BARS_PER_SERIES);
    TopSize(Older, u.Keys, MAX_BARS_PER_SERIES);
    forall dropped, kept | dropped in u && dropped !in Bounded(log, i) && kept in Bounded(log, i) ensures dropped < kept {
      TopOutside(Older, u.Keys, MAX_BARS_PER_SERIES, dropped);
    }
    assert |u.Keys| == |u| && |Newest(u, MAX_BARS_PER_SERIES).Keys| == |Newest(u, MAX_BARS_PER_SERIES)|;
    forall b | b in Bounded(log, i)
      ensures IsBarOf(Bounded(log, i)[b], b, BucketTrades(log, i, b))
    {
      UnboundedBars(log, i, b);
    }
  }

  lemma BoundedAppend(log: seq<Trade>, t: Trade, i: Interval)
    ensures Bounded(log + [t], i) == Newest(Record(Bounded(log, i), i, t), MAX_BARS_PER_SERIES)
  {
  }

  predicate IsOldest(s: Series, first: nat) { first in s && forall b :: b in s ==> first <= b }

  lemma OldestExists(s: Series)
    requires |s| > 0
    ensures exists first :: IsOldest(s, first)
  {
    OlderIsStrict(s.Keys);
    assert |s.Keys| == |s|;
    var first := LeastExists(Older, s.Keys);
    assert IsOldest(s, first);
  }

  lemma NewestWhole(s: Series, k: nat)
    requires |s| <= k
    ensures Newest(s, k) == s
  {
    OlderIsStrict(s.Keys);
    assert |s.Keys| == |s|;
    TopWhole(Older, s.Keys, k);
  }

  lemma PopFirst(s: Series, first: nat, k: nat)
    requires k < |s| && IsOldest(s, first)
    ensures Newest(s - {first}, k) == Newest(s, k)
    ensures |s - {first}| == |s| - 1
  {
    OlderIsStrict(s.Keys);
    assert |s.Keys| == |s|;
    TopEvict(Older, s.Keys, first, k);
    assert (s - {first}).Keys == s.Keys - {first};
    assert |(s - {first}).Keys| == |s - {first}|;
    SubsetSize(Above(Older, s.Keys, first), s.Keys - {first});
    assert first !in Top(Older, s.Keys, k);
  }

  // ---------------------------------------------------------------- the object the service mutates

  class OhlcAggregator {
    var bars: map<(string, Interval), Series>
    ghost var logs: map<string, seq<Trade>>

    ghost function Log(symbol: string): seq<Trade>
      reads this`logs
    {
      if symbol in logs then logs[symbol] else []
    }

    function SeriesOf(symbol: string, i: Interval): Series
      reads this`bars
    {
      if (symbol, i) in bars then bars[(symbol, i)] else map[]
    }

    ghost predicate Valid()
      reads this
    {
      forall symbol: string, i: Interval :: SeriesOf(symbol, i) == Bounded(Log(symbol), i)
    }

    constructor ()
      ensures Valid() && logs == map[]
    {
      bars, logs := map[], map[];
    }

    method RecordTrade(symbol: string, t: Trade)
      requires Valid()
      modifies this
      ensures Valid() && logs == old(logs)[symbol := old(Log(symbol)) + [t]]
    {
      hide Bounded, Newest, Record;
      ghost var log := Log(symbol);
      var n := 0;
      while n < |INTERVALS|
        invariant 0 <= n <= |INTERVALS| && logs == old(logs)
        invariant forall s: string, i: Interval ::
                    SeriesOf(s, i) == if s == symbol && i in INTERVALS[..n] then Bounded(log + [t], i) else Bounded(Log(s), i)
      {
        assert INTERVALS[n] !in INTERVALS[..n];
        assert INTERVALS[..n + 1] == INTERVALS[..n] + [INTERVALS[n]];
        BoundedAppend(log, t, INTERVALS[n]);
        UpdateBar(symbol, INTERVALS[n], t);
        n := n + 1;
      }
      assert INTERVALS[..n] == INTERVALS;
      forall i: Interval ensures i in INTERVALS { AllIntervals(i); }
      logs := logs[symbol := log + [t]];
    }

    /** Folds the trade into its bar, then drops the oldest bars beyond the cap. */
    method UpdateBar(symbol: string, i: Interval, t: Trade)
      modifies this`bars
      ensures forall s: string, j: Interval ::
                SeriesOf(s, j) == if s == symbol && j == i
                                  then Newest(Record(old(SeriesOf(symbol, i)), i, t), MAX_BARS_PER_SERIES)
                                  else old(SeriesOf(s, j))
    {
      var series := EvictOldest(Record(SeriesOf(symbol, i), i, t));
      bars := bars[(symbol, i) := series];
    }

    /** Drops the oldest bar for as long as the series is over the cap. */
    method EvictOldest(recorded: Series) returns (series: Series)
      ensures series == Newest(recorded, MAX_BARS_PER_SERIES)
    {
      series := recorded;
      while |series| > MAX_BARS_PER_SERIES
        invariant Newest(series, MAX_BARS_PER_SERIES) == Newest(recorded, MAX_BARS_PER_SERIES)
        decreases |series|
      {
        OldestExists(series);
        var first :| IsOldest(series, first);
        PopFirst(series, first, MAX_BARS_PER_SERIES);
        series := series - {first};
      }
      NewestWhole(series, MAX_BARS_PER_SERIES);
    }

    method ClearSymbol(symbol: string)
      requires Valid()
      modifies this
      ensures Valid() && logs == old(logs)[symbol := []]
    {
      var n := 0;
      while n < |INTERVALS|
        invariant 0 <= n <= |INTERVALS| && logs == old(logs)
        invariant forall s: string, i: Interval ::
                    SeriesOf(s, i) == if s == symbol && i in INTERVALS[..n] then map[] else Bounded(Log(s), i)
      {
        assert INTERVALS[..n + 1] == INTERVALS[..n] + [INTERVALS[n]];
        RemoveSeries(symbol, INTERVALS[n]);
        n := n + 1;
      }
      assert INTERVALS[..n] == INTERVALS;
      forall i: Interval ensures i in INTERVALS { AllIntervals(i); }
      logs := logs[symbol := []];
    }

    method RemoveSeries(symbol: string, i: Interval)
      modifies this`bars
      ensures forall s: string, j: Interval ::
                SeriesOf(s, j) == if s == symbol && j == i then map[] else old(SeriesOf(s, j))
    {
      bars := bars - {(symbol, i)};
    }
  }
}
