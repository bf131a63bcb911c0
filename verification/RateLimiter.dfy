/**
 The rate limiter over all keys, one call at a time: the tracked-key cap, reclaiming by sweep
 and by sampled eviction (`RateLimiter`, src/auth.rs). `clock` stands for the wall clock,
 read anew at each place the code reads it and never going back.
 */
module RateLimits {
  import opened Machine
  import opened RateWindow
  import opened TopK

  const MAX_TRACKED_KEYS: nat := 100_000
  const LRU_SAMPLE_SIZE: nat := 8

  type Windows = map<string, Window>

  /** What a sweep at `at` leaves: every bucket pruned, empty ones dropped. */
  function Swept(m: Windows, at: u64): Windows
  {
    map k | k in m && Prune(m[k], WindowStart(at)) != [] :: Prune(m[k], WindowStart(at))
  }

  // ---------------------------------------------------------------- victim choice

  datatype Rank = Rank(live: bool, inWindow: nat, newest: u64)

  function RankOf(w: Window, start: u64): Rank
  {
    var newest := if w == [] then 0 else w[|w| - 1];
    Rank(newest >= start, LiveSuffix(w, start), newest)
  }

  /** Number of entries counted from the newest back while still in the window. */
  function LiveSuffix(w: Window, start: u64): nat
  {
    if w != [] && w[|w| - 1] >= start then 1 + LiveSuffix(w[..|w| - 1], start) else 0
  }

  predicate RankAtMost(a: Rank, b: Rank)
  {
    if a.live != b.live then !a.live
    else if a.inWindow != b.inWindow then a.inWindow < b.inWindow
    else a.newest <= b.newest
  }

  /** On a sorted bucket the count from the back is the number of entries pruning keeps. */
  lemma {:induction false} LiveSuffixCounts(w: Window, start: u64)
    requires Sorted(w)
    ensures LiveSuffix(w, start) == |Prune(w, start)|
    decreases |w|
  {
    var n := PruneSuffix(w, start);
    if w != [] && w[|w| - 1] >= start {
      var before := w[..|w| - 1];
      LiveSuffixCounts(before, start);
      var m := PruneSuffix(before, start);
      assert forall i :: 0 <= i < |before| ==> before[i] == w[i];
    }
  }

  predicate IsVictim(m: Windows, sample: seq<string>, start: u64, victim: string)
  {
    && victim in sample && (forall k :: k in sample ==> k in m)
    && forall k :: k in sample ==> RankAtMost(RankOf(m[victim], start), RankOf(m[k], start))
  }

  /** The time of a bucket's latest admission. */
  function LastAt(w: Window): u64 { if w == [] then 0 else w[|w| - 1] }

  /**
   No sampled bucket has fewer requests left in the window than the victim, and of those with as
   many none was last used earlier. So a fully expired bucket always goes before a live one.
   */
  ghost predicate Idlest(m: Windows, sample: seq<string>, start: u64, victim: string)
  {
    && victim in sample && (forall k :: k in sample ==> k in m)
    && (forall k :: k in sample ==> |Prune(m[victim], start)| <= |Prune(m[k], start)|)
    && (forall k :: k in sample && |Prune(m[victim], start)| == |Prune(m[k], start)| ==> LastAt(m[victim]) <= LastAt(m[k]))
  }

  /** On sorted buckets the minimal rank is the idlest bucket. */
  lemma VictimIsIdlest(m: Windows, sample: seq<string>, start: u64, victim: string, clock: u64)
    requires Ordered(m, clock) && IsVictim(m, sample, start, victim)
    ensures Idlest(m, sample, start, victim)
  {
    forall k | k in sample
      ensures |Prune(m[victim], start)| <= |Prune(m[k], start)|
      ensures |Prune(m[victim], start)| == |Prune(m[k], start)| ==> LastAt(m[victim]) <= LastAt(m[k])
    {
      LiveSuffixCounts(m[victim], start);
      LiveSuffixCounts(m[k], start);
    }
  }

  /** The first entries an iteration over the map yields, skipping `exclude`: any of them, in any order. */
  ghost predicate IsSample(keys: set<string>, exclude: string, sample: seq<string>)
  {
    && (forall k :: k in sample ==> k in keys && k != exclude)
    && (forall i, j :: 0 <= i < j < |sample| ==> sample[i] != sample[j])
    && |sample| == Min(LRU_SAMPLE_SIZE, |keys - {exclude}|)
  }

  // ---------------------------------------------------------------- admitting a new key

  datatype Reclaim =
    | NotNeeded
    | BySweep(at: u64)
    | ByEviction(sweptAt: u64, at: u64, sample: seq<string>, victim: string)

  /** How room was made for a new key: not at all, by a sweep, or by one eviction when nothing had expired. */
  ghost predicate MadeRoom(before: Windows, after: Windows, key: string, r: Reclaim)
  {
    match r
    case NotNeeded => |before| < 100_000 && after == before
    case BySweep(at) => |before| == 100_000 && after == Swept(before, at) && |after| < 100_000
    case ByEviction(sweptAt, at, sample, victim) =>
      && |before| == 100_000 && sweptAt <= at
      && AllLive(before, sweptAt)
      && IsSample(before.Keys, key, sample)
      && Idlest(Swept(before, sweptAt), sample, WindowStart(at), victim)
      && after == Swept(before, sweptAt) - {victim}
  }

  ghost predicate AllLive(m: Windows, at: u64)
  {
    forall k :: k in m ==> Prune(m[k], WindowStart(at)) != []
  }

  lemma SweptSize(m: Windows, at: u64)
    ensures |Swept(m, at)| <= |m| && Swept(m, at).Keys <= m.Keys
    ensures |Swept(m, at)| == |m| <==> AllLive(m, at)
    ensures AllLive(m, at) ==> Swept(m, at).Keys == m.Keys
  {
    var s := Swept(m, at);
    assert |s.Keys| == |s| && |m.Keys| == |m|;
    SubsetSize(s.Keys, m.Keys);
    if AllLive(m, at) {
      assert s.Keys == m.Keys;
    } else {
      var k :| k in m && Prune(m[k], WindowStart(at)) == [];
      assert k !in s.Keys;
    }
  }

  /** Every bucket is sorted and no entry is ahead of the clock. */
  ghost predicate Ordered(m: Windows, clock: u64)
  {
    forall k :: k in m ==> Sorted(m[k]) && forall i :: 0 <= i < |m[k]| ==> m[k][i] <= clock
  }

  lemma RecordOrdered(w: Window, now: u64, limit: u32, clock: u64)
    requires Sorted(w) && (forall i :: 0 <= i < |w| ==> w[i] <= now) && now <= clock
    ensures var r := Record(w, now, limit); Sorted(r) && forall i :: 0 <= i < |r| ==> r[i] <= clock
  {
    var n := PruneSuffix(w, WindowStart(now));
  }

  lemma SweptOrdered(m: Windows, at: u64, clock: u64)
    requires Ordered(m, clock)
    ensures Ordered(Swept(m, at), clock)
  {
    forall k | k in Swept(m, at)
      ensures Sorted(Swept(m, at)[k]) && forall i :: 0 <= i < |Swept(m, at)[k]| ==> Swept(m, at)[k][i] <= clock
    {
      var n := PruneSuffix(m[k], WindowStart(at));
    }
  }

  lemma LaterOrdered(m: Windows, clock: u64, later: u64)
    requires Ordered(m, clock) && clock <= later
    ensures Ordered(m, later)
    ensures forall k :: k in m ==> forall i :: 0 <= i < |m[k]| ==> m[k][i] <= clock
  {
  }

  lemma PutOrdered(m: Windows, key: string, now: u64, limit: u32, clock: u64)
    requires Ordered(m, clock) && now <= clock
    requires key in m ==> forall i :: 0 <= i < |m[key]| ==> m[key][i] <= now
    ensures Ordered(m[key := Record(if key in m then m[key] else [], now, limit)], clock)
  {
    RecordOrdered(if key in m then m[key] else [], now, limit, clock);
  }

  lemma RemoveOne(m: Windows, key: string, clock: u64)
    requires Ordered(m, clock) && key in m
    ensures Ordered(m - {key}, clock) && |m - {key}| == |m| - 1
  {
  }

  // ---------------------------------------------------------------- what has happened to each key

  /** Per key, the events since its bucket was last evicted. */
  type Histories = map<string, seq<Event>>

  ghost function HistoryOf(h: Histories, k: string): seq<Event> { if k in h then h[k] else [] }

  function BucketOf(m: Windows, k: string): Window { if k in m then m[k] else [] }

  /** Every bucket is what its key's history makes of it, and histories follow the clock. */
  ghost predicate Chronicled(m: Windows, h: Histories, clock: u64)
  {
    forall k: string :: Follows(HistoryOf(h, k), BucketOf(m, k), clock)
  }

  ghost predicate Follows(events: seq<Event>, w: Window, clock: u64)
  {
    Bucket(events) == w && ClockOrdered(events) && (events != [] ==> events[|events| - 1].at <= clock)
  }

  /** A sweep is an event of every key that has a bucket. */
  ghost function SweptHistory(m: Windows, h: Histories, at: u64): Histories
  {
    map k | k in m.Keys + h.Keys :: if k in m then HistoryOf(h, k) + [Sweep(at)] else h[k]
  }

  /** The histories once room has been made; an evicted key starts over. */
  ghost function RoomHistory(m: Windows, h: Histories, r: Reclaim): Histories
  {
    match r
    case NotNeeded => h
    case BySweep(at) => SweptHistory(m, h, at)
    case ByEviction(sweptAt, _, _, victim) => SweptHistory(m, h, sweptAt) - {victim}
  }

  lemma FollowsStep(events: seq<Event>, w: Window, clock: u64, e: Event, later: u64)
    requires Follows(events, w, clock) && (events != [] ==> events[|events| - 1].at <= e.at) && e.at <= later
    ensures Follows(events + [e], Step(w, e), later)
  {
    hide Step, Bucket;
    RunUnfolds(events + [e]);
    assert (events + [e])[..|events|] == events;
  }

  lemma SweepChronicled(m: Windows, h: Histories, clock: u64, at: u64)
    requires Chronicled(m, h, clock) && clock <= at
    ensures Chronicled(Swept(m, at), SweptHistory(m, h, at), at)
  {
    hide Bucket, Prune, ClockOrdered;
    forall k: string ensures Follows(HistoryOf(SweptHistory(m, h, at), k), BucketOf(Swept(m, at), k), at) {
      assert Follows(HistoryOf(h, k), BucketOf(m, k), clock);
      if k in m { FollowsStep(HistoryOf(h, k), m[k], clock, Sweep(at), at); }
    }
  }

  lemma LaterChronicled(m: Windows, h: Histories, clock: u64, later: u64)
    requires Chronicled(m, h, clock) && clock <= later
    ensures Chronicled(m, h, later)
    ensures forall k: string :: HistoryOf(h, k) != [] ==> HistoryOf(h, k)[|HistoryOf(h, k)| - 1].at <= clock
  {
    forall k: string
      ensures Follows(HistoryOf(h, k), BucketOf(m, k), later)
      ensures HistoryOf(h, k) != [] ==> HistoryOf(h, k)[|HistoryOf(h, k)| - 1].at <= clock
    {
      assert Follows(HistoryOf(h, k), BucketOf(m, k), clock);
    }
  }

  lemma NothingChronicled(clock: u64)
    ensures Chronicled(map[], map[], clock)
  {
  }

  /** Making room leaves the history of the key that asked alone. */
  lemma OwnHistory(m: Windows, h: Histories, after: Windows, key: string, r: Reclaim)
    requires MadeRoom(m, after, key, r) && key !in m
    ensures HistoryOf(RoomHistory(m, h, r), key) == HistoryOf(h, key)
  {
  }

  lemma EvictChronicled(m: Windows, h: Histories, clock: u64, key: string, later: u64)
    requires Chronicled(m, h, clock) && clock <= later
    ensures Chronicled(m - {key}, h - {key}, later)
  {
    forall k: string ensures Follows(HistoryOf(h - {key}, k), BucketOf(m - {key}, k), later) {
      assert Follows(HistoryOf(h, k), BucketOf(m, k), clock);
    }
  }

  lemma RequestChronicled(m: Windows, h: Histories, clock: u64, key: string, now: u64, limit: u32)
    requires Chronicled(m, h, clock) && now <= clock
    requires var e := HistoryOf(h, key); e != [] ==> e[|e| - 1].at <= now
    ensures Chronicled(m[key := Record(BucketOf(m, key), now, limit)], h[key := HistoryOf(h, key) + [Request(now, limit)]], clock)
  {
    hide Bucket, Record, ClockOrdered;
    var m', h' := m[key := Record(BucketOf(m, key), now, limit)], h[key := HistoryOf(h, key) + [Request(now, limit)]];
    forall k: string ensures Follows(HistoryOf(h', k), BucketOf(m', k), clock) {
      assert Follows(HistoryOf(h, k), BucketOf(m, k), clock);
      if k == key { FollowsStep(HistoryOf(h, k), BucketOf(m, k), clock, Request(now, limit), clock); }
    }
  }

  class RateLimiter {
    var windows: Windows
    var tracked: nat
    var clock: u64
    ghost var history: Histories

    ghost predicate Valid()
      reads this
    {
      tracked == |windows| <= MAX_TRACKED_KEYS && Ordered(windows, clock) && Chronicled(windows, history, clock)
    }

    /** As long as a key is not evicted no closed window of 60 000 ms admits more than its highest limit. */
    lemma WindowBound(key: string, limit: u32, from: int)
      requires Valid() && AtMost(HistoryOf(history, key), limit)
      ensures CountIn(Admitted(HistoryOf(history, key)), from, from + 60_000) <= limit
    {
      assert Follows(HistoryOf(history, key), BucketOf(windows, key), clock);
      SlidingWindowGuarantee(HistoryOf(history, key), limit, from);
    }

    constructor ()
      ensures Valid() && windows == map[] && history == map[]
    {
      windows, tracked, history := map[], 0, map[];
      new;
      NothingChronicled(clock);
    }

    method NowMillis() returns (now: u64)
      modifies this`clock
      ensures old(clock) <= now == clock
    {
      var later: u64 :| clock <= later;
      clock := later;
      now := later;
    }

    /**
     Admits or denies one request. An existing key only touches its own bucket; a new key is
     never turned away for lack of room, and costs at most one other bucket.
     */
    method CheckAndRecordStatus(key: string, limit: u32)
      returns (d: RateLimitDecision, ghost now: u64, ghost room: Windows, ghost reclaim: Reclaim)
      requires Valid()
      modifies this
      ensures Valid() && old(clock) <= now <= clock && |windows| <= 100_000
      ensures key in old(windows) ==> room == old(windows)
      ensures key !in old(windows) ==> MadeRoom(old(windows), room, key, reclaim) && key !in room
      ensures windows == room[key := Record(BucketOf(room, key), now, limit)] && d == Decide(BucketOf(room, key), now, limit)
      ensures var h := if key in old(windows) then old(history) else RoomHistory(old(windows), old(history), reclaim);
              history == h[key := old(HistoryOf(history, key)) + [Request(now, limit)]]
    {
      hide Swept, AllLive, IsSample, Idlest, Record, Ordered, Chronicled, RoomHistory;
      var at := NowMillis();
      now := at;
      room, reclaim := windows, NotNeeded;
      var windowStart := Max(at - RATE_LIMIT_WINDOW_MS, 0);
      LaterChronicled(windows, history, old(clock), at);
      LaterOrdered(windows, old(clock), at);
      if key in windows {
        PutOrdered(windows, key, at, limit, clock);
        RequestChronicled(windows, history, clock, key, at, limit);
        var after, decision := PruneAndRecord(windows[key], at, windowStart, limit);
        windows := windows[key := after];
        history := history[key := HistoryOf(history, key) + [Request(at, limit)]];
        return decision, now, room, reclaim;
      }
      var admitted;
      admitted, reclaim := WinSlot(key);
      assert admitted;
      room := windows;
      OwnHistory(old(windows), old(history), windows, key, reclaim);
      PutOrdered(windows, key, at, limit, clock);
      RequestChronicled(windows, history, clock, key, at, limit);
      var after, decision := PruneAndRecord([], at, windowStart, limit);
      windows := windows[key := after];
      history := history[key := HistoryOf(history, key) + [Request(at, limit)]];
      d := decision;
    }

    /**
     Three attempts at a slot, reclaiming space after each failure. One is always won, so the
     rejection at capacity that the caller keeps in reserve is never reached.
     */
    method WinSlot(key: string) returns (admitted: bool, ghost reclaim: Reclaim)
      requires Valid() && key !in windows
      modifies this
      ensures admitted && old(clock) <= clock && Ordered(windows, clock) && key !in windows
      ensures tracked == |windows| + 1 <= MAX_TRACKED_KEYS
      ensures MadeRoom(old(windows), windows, key, reclaim)
      ensures history == RoomHistory(old(windows), old(history), reclaim) && Chronicled(windows, history, clock)
    {
      hide Ordered, Swept, AllLive, IsSample, Idlest, Chronicled, SweptHistory;
      admitted, reclaim := false, NotNeeded;
      var attempt := 0;
      while attempt < 3 && !admitted
        invariant 0 <= attempt <= 3 && old(clock) <= clock && Ordered(windows, clock) && key !in windows
        invariant tracked == |windows| + (if admitted then 1 else 0) <= MAX_TRACKED_KEYS
        invariant history == RoomHistory(old(windows), old(history), reclaim) && Chronicled(windows, history, clock)
        invariant attempt == 0 ==> !admitted && windows == old(windows) && reclaim == NotNeeded
        invariant attempt > 0 ==> MadeRoom(old(windows), windows, key, reclaim) && (admitted || tracked < MAX_TRACKED_KEYS)
        invariant attempt >= 2 ==> admitted
      {
        if tracked < MAX_TRACKED_KEYS {
          tracked := tracked + 1;
          admitted := true;
        } else {
          reclaim := MakeRoom(key);
        }
        attempt := attempt + 1;
      }
    }

    method MakeRoom(key: string) returns (ghost reclaim: Reclaim)
      requires Valid() && key !in windows && tracked == MAX_TRACKED_KEYS
      modifies this
      ensures Valid() && old(clock) <= clock && key !in windows && tracked < MAX_TRACKED_KEYS
      ensures MadeRoom(old(windows), windows, key, reclaim) && reclaim != NotNeeded
      ensures history == RoomHistory(old(windows), old(history), reclaim)
    {
      hide Ordered, Swept, AllLive, IsSample, Idlest, Chronicled, SweptHistory;
      ghost var full := windows;
      var swept := SweepExpired();
      ghost var sweptAt := clock;
      SweptSize(full, sweptAt);
      reclaim := BySweep(sweptAt);
      assert key !in windows.Keys;
      if swept == 0 {
        assert |windows.Keys| == |windows| && windows.Keys - {key} == windows.Keys;
        ghost var sample, victim := EvictIdlestOfSample(key);
        reclaim := ByEviction(sweptAt, clock, sample, victim);
      }
    }

    /** Reaps every fully expired bucket and resynchronises the counter. */
    method SweepExpired() returns (removed: nat)
      requires Ordered(windows, clock) && Chronicled(windows, history, clock)
      modifies this
      ensures Ordered(windows, clock) && Chronicled(windows, history, clock)
      ensures old(clock) <= clock && history == SweptHistory(old(windows), old(history), clock)
      ensures windows == Swept(old(windows), clock) && tracked == |windows|
      ensures removed == |old(windows)| - |windows|
    {
      hide Ordered, Chronicled, SweptHistory, Swept;
      var now := NowMillis();
      var before := |windows|;
      LaterOrdered(windows, old(clock), now);
      SweptSize(windows, now);
      SweptOrdered(windows, now, clock);
      SweepChronicled(windows, history, old(clock), now);
      history := SweptHistory(windows, history, now);
      windows := Retained(now);
      removed := before - |windows|;
      tracked := |windows|;
    }

    /** The closure of the sweep's `retain`: prune each bucket and keep it if anything is left. */
    method Retained(now: u64) returns (kept: Windows)
      ensures kept == Swept(windows, now)
    {
      kept := map[];
      var todo := windows.Keys;
      while todo != {}
        invariant todo <= windows.Keys
        invariant kept == Swept(map k | k in windows && k !in todo :: windows[k], now)
        decreases |todo|
      {
        var k :| k in todo;
        var pruned := PopExpired(windows[k], WindowStart(now));
        if pruned != [] { kept := kept[k := pruned]; }
        todo := todo - {k};
      }
      assert (map k | k in windows && k !in todo :: windows[k]) == windows;
    }

    /** Evicts a bucket minimal by (live, in-window count, newest) in a bounded sample. */
    method EvictIdlestOfSample(exclude: string) returns (ghost sample: seq<string>, ghost victim: string)
      requires Valid() && windows.Keys - {exclude} != {}
      modifies this
      ensures Valid() && old(clock) <= clock
      ensures IsSample(old(windows).Keys, exclude, sample)
      ensures Idlest(old(windows), sample, WindowStart(clock), victim)
      ensures windows == old(windows) - {victim} && |windows| == |old(windows)| - 1
      ensures history == old(history) - {victim}
    {
      hide RankOf, RankAtMost, Chronicled, Ordered, Idlest;
      var now := NowMillis();
      LaterOrdered(windows, old(clock), now);
      var chosen := IterationPrefix(exclude);
      var key := MinByRank(chosen, WindowStart(now));
      sample, victim := chosen, key;
      VictimIsIdlest(windows, chosen, WindowStart(now), key, clock);
      RemoveOne(windows, key, clock);
      EvictChronicled(windows, history, old(clock), key, clock);
      windows := windows - {key};
      history := history - {key};
      tracked := tracked - 1;
    }

    method IterationPrefix(exclude: string) returns (sample: seq<string>)
      ensures IsSample(windows.Keys, exclude, sample)
    {
      sample := [];
      var rest := windows.Keys - {exclude};
      while |sample| < LRU_SAMPLE_SIZE && rest != {}
        invariant |sample| <= LRU_SAMPLE_SIZE && |sample| + |rest| == |windows.Keys - {exclude}|
        invariant forall k :: k in sample ==> k in windows.Keys - {exclude} && k !in rest
        invariant rest <= windows.Keys - {exclude}
        invariant forall i, j :: 0 <= i < j < |sample| ==> sample[i] != sample[j]
      {
        var k :| k in rest;
        sample, rest := sample + [k], rest - {k};
      }
    }

    method MinByRank(sample: seq<string>, start: u64) returns (victim: string)
      requires sample != [] && forall k :: k in sample ==> k in windows
      ensures IsVictim(windows, sample, start, victim)
    {
      victim := sample[0];
      for i := 1 to |sample|
        invariant victim in sample[..i]
        invariant forall k :: k in sample[..i] ==> RankAtMost(RankOf(windows[victim], start), RankOf(windows[k], start))
      {
        if !RankAtMost(RankOf(windows[victim], start), RankOf(windows[sample[i]], start)) { victim := sample[i]; }
      }
      assert sample[..|sample|] == sample;
    }
  }
}
