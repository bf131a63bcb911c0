/** One bucket of the sliding-window rate limiter: pruning, admission, and what they guarantee (src/auth.rs). */
module RateWindow {
  import opened Machine

  const RATE_LIMIT_WINDOW_MS: nat := 60_000

  datatype RateLimitDecision = RateLimitDecision(allowed: bool, remaining: nat, resetSecs: nat)

  /** Timestamps of admitted requests, oldest first. */
  type Window = seq<u64>

  function WindowStart(now: u64): u64 { Max(now - RATE_LIMIT_WINDOW_MS, 0) }

  function CeilDiv(x: nat, n: nat): nat
    requires n > 0
  {
    (x + n - 1) / n
  }

  /** Drops the timestamps in front that are older than `start`. */
  function Prune(w: Window, start: u64): Window
  {
    if w != [] && w[0] < start then Prune(w[1..], start) else w
  }

  function Record(w: Window, now: u64, limit: u32): Window
  {
    var kept := Prune(w, WindowStart(now));
    if |kept| < limit then kept + [now] else kept
  }

  function ResetMs(w: Window, now: u64): u64 { SatAddU64(if w == [] then now else w[0], RATE_LIMIT_WINDOW_MS) }

  function Decide(w: Window, now: u64, limit: u32): RateLimitDecision
  {
    var kept, after := Prune(w, WindowStart(now)), Record(w, now, limit);
    RateLimitDecision(|kept| < limit, Max(limit - Min(|after|, U32_MAX), 0), CeilDiv(ResetMs(after, now), 1000))
  }

  /** `prune_and_record`: pops the front of the deque step by step, then pushes `now` if there is room. */
  method PruneAndRecord(window: Window, now: u64, windowStart: u64, limit: u32) returns (after: Window, d: RateLimitDecision)
    requires windowStart == WindowStart(now)
    ensures after == Record(window, now, limit) && d == Decide(window, now, limit)
  {
    after := PopExpired(window, windowStart);
    var allowed := |after| < limit;
    if allowed { after := after + [now]; }
    var remaining := Max(limit - Min(|after|, U32_MAX), 0);
    d := RateLimitDecision(allowed, remaining, CeilDiv(ResetMs(after, now), 1000));
  }

  method PopExpired(window: Window, windowStart: u64) returns (after: Window)
    ensures after == Prune(window, windowStart)
  {
    after := window;
    while after != [] && after[0] < windowStart
      invariant Prune(after, windowStart) == Prune(window, windowStart)
      decreases |after|
    {
      after := after[1..];
    }
  }

  // ---------------------------------------------------------------- what pruning keeps

  ghost predicate Sorted(w: seq<u64>) { forall i, j :: 0 <= i < j < |w| ==> w[i] <= w[j] }

  /** Pruning a sorted window keeps exactly the suffix of timestamps still inside. */
  lemma {:induction false} PruneSuffix(w: Window, start: u64) returns (n: nat)
    ensures n <= |w| && Prune(w, start) == w[n..]
    ensures forall i :: 0 <= i < n ==> w[i] < start
    ensures n < |w| ==> w[n] >= start
    decreases |w|
  {
    if w != [] && w[0] < start {
      n := PruneSuffix(w[1..], start);
      n := n + 1;
      assert forall i :: 1 <= i < n ==> w[i] == w[1..][i - 1];
    } else {
      n := 0;
    }
  }

  // ---------------------------------------------------------------- one key over a whole run

  /** What can happen to a bucket that is not evicted: a request under some limit, or a sweep at some instant. */
  datatype Event = Request(at: u64, limit: u32) | Sweep(at: u64)

  function Step(w: Window, e: Event): Window
  {
    if e.Request? then Record(w, e.at, e.limit) else Prune(w, WindowStart(e.at))
  }

  function Bucket(events: seq<Event>): Window
  {
    if events == [] then [] else Step(Bucket(events[..|events| - 1]), events[|events| - 1])
  }

  predicate Admits(w: Window, e: Event) { e.Request? && Decide(w, e.at, e.limit).allowed }

  /** The admission times of a run, in order. */
  function Admitted(events: seq<Event>): seq<u64>
  {
    if events == [] then []
    else
      var before, last := events[..|events| - 1], events[|events| - 1];
      Admitted(before) + if Admits(Bucket(before), last) then [last.at] else []
  }

  /** No request of the run was given a higher limit. */
  predicate AtMost(events: seq<Event>, limit: u32) { forall e :: e in events && e.Request? ==> e.limit <= limit }

  ghost predicate ClockOrdered(events: seq<Event>)
  {
    forall i, j :: 0 <= i < j < |events| ==> events[i].at <= events[j].at
  }

  /** Any `limit + 1` consecutive admissions span more than the window. */
  ghost predicate Spaced(a: seq<u64>, limit: u32)
  {
    forall i, j :: 0 <= i && i + limit <= j < |a| && i < j ==> a[j] - a[i] > RATE_LIMIT_WINDOW_MS
  }

  /** The bucket is the still-relevant suffix of all admissions so far. */
  ghost predicate Tracks(a: seq<u64>, w: Window, clock: int, limit: u32)
  {
    && Sorted(a) && |w| <= |a| && |w| <= limit
    && w == a[|a| - |w|..]
    && (forall i :: 0 <= i < |a| ==> a[i] <= clock)
    && (forall i :: 0 <= i < |a| - |w| ==> a[i] < clock - RATE_LIMIT_WINDOW_MS)
    && Spaced(a, limit)
  }

  lemma TracksPrune(a: seq<u64>, w: Window, clock: int, limit: u32, now: u64)
    requires Tracks(a, w, clock, limit) && clock <= now
    ensures Tracks(a, Prune(w, WindowStart(now)), now, limit)
  {
    var n := PruneSuffix(w, WindowStart(now));
    var p := |a| - |w| + n;
    assert a[p..] == a[|a| - |w|..][n..];
    forall i | 0 <= i < p ensures a[i] < now - RATE_LIMIT_WINDOW_MS {
      if i >= |a| - |w| { assert a[i] == w[i - (|a| - |w|)]; }
    }
  }

  lemma TracksPush(a: seq<u64>, w: Window, now: u64, limit: u32)
    requires Tracks(a, w, now, limit) && |w| < limit
    ensures Tracks(a + [now], w + [now], now, limit)
  {
  }

  lemma TracksStep(a: seq<u64>, w: Window, clock: int, limit: u32, e: Event)
    requires Tracks(a, w, clock, limit) && clock <= e.at && (e.Request? ==> e.limit <= limit)
    ensures Tracks(if Admits(w, e) then a + [e.at] else a, Step(w, e), e.at, limit)
  {
    TracksPrune(a, w, clock, limit, e.at);
    hide Tracks;
    if Admits(w, e) { TracksPush(a, Prune(w, WindowStart(e.at)), e.at, limit); }
  }

  lemma {:induction false} TracksRun(events: seq<Event>, limit: u32)
    requires ClockOrdered(events) && AtMost(events, limit)
    ensures Tracks(Admitted(events), Bucket(events), if events == [] then 0 else events[|events| - 1].at, limit)
    decreases |events|
  {
    if events != [] {
      hide Tracks, Step, Decide, Bucket, Admitted, ClockOrdered, AtMost;
      var before, last := events[..|events| - 1], events[|events| - 1];
      AllButLast(events, limit);
      TracksRun(before, limit);
      RunUnfolds(events);
      TracksStep(Admitted(before), Bucket(before), if before == [] then 0 else before[|before| - 1].at, limit, last);
    }
  }

  lemma AllButLast(events: seq<Event>, limit: u32)
    requires events != [] && ClockOrdered(events) && AtMost(events, limit)
    ensures var before, last := events[..|events| - 1], events[|events| - 1];
            && ClockOrdered(before) && AtMost(before, limit) && (last.Request? ==> last.limit <= limit)
            && (before != [] ==> before[|before| - 1].at <= last.at)
  {
  }

  lemma RunUnfolds(events: seq<Event>)
    requires events != []
    ensures var before, last := events[..|events| - 1], events[|events| - 1];
            && Bucket(events) == Step(Bucket(before), last)
            && Admitted(events) == if Admits(Bucket(before), last) then Admitted(before) + [last.at] else Admitted(before)
  {
  }

  function CountIn(a: seq<u64>, from: int, to: int): nat
  {
    if a == [] then 0
    else CountIn(a[..|a| - 1], from, to) + if from <= a[|a| - 1] <= to then 1 else 0
  }

  /** The elements of a sorted sequence inside an interval are consecutive. */
  lemma {:induction false} CountIsRun(a: seq<u64>, from: int, to: int) returns (i: nat)
    requires Sorted(a)
    ensures CountIn(a, from, to) > 0 ==>
              i + CountIn(a, from, to) <= |a| && from <= a[i] && a[i + CountIn(a, from, to) - 1] <= to
    ensures CountIn(a, from, to) > 0 && i + CountIn(a, from, to) < |a| ==> to < a[i + CountIn(a, from, to)]
    decreases |a|
  {
    i := 0;
    if a != [] {
      var before, last := a[..|a| - 1], a[|a| - 1];
      i := CountIsRun(before, from, to);
      if CountIn(before, from, to) == 0 && from <= last <= to { i := |a| - 1; }
    }
  }

  /** No closed window of 60 000 ms ever holds more admissions than the highest limit asked with, sweeps or not. */
  lemma SlidingWindowGuarantee(events: seq<Event>, limit: u32, from: int)
    requires ClockOrdered(events) && AtMost(events, limit)
    ensures CountIn(Admitted(events), from, from + 60_000) <= limit
  {
    var a := Admitted(events);
    TracksRun(events, limit);
    var i := CountIsRun(a, from, from + RATE_LIMIT_WINDOW_MS);
    if limit == 0 { NothingAdmitted(events); }
  }

  lemma {:induction false} NothingAdmitted(events: seq<Event>)
    requires AtMost(events, 0)
    ensures Admitted(events) == []
    decreases |events|
  {
    if events != [] { NothingAdmitted(events[..|events| - 1]); }
  }

  // ---------------------------------------------------------------- after a denial

  lemma PruneNothing(w: Window, start: u64)
    requires w != [] && w[0] >= start
    ensures Prune(w, start) == w
  {
  }

  /**
   A request is admitted if and only if fewer than `limit` admissions are at most 60 000 ms old; what
   the client is told it has left is what the bucket can still take.
   */
  lemma DecisionCounts(w: Window, now: u64, limit: u32)
    requires Sorted(w)
    ensures var inWindow, d := CountIn(w, now - RATE_LIMIT_WINDOW_MS, U64_MAX), Decide(w, now, limit);
            && (d.allowed <==> inWindow < limit)
            && (d.allowed ==> d.remaining + inWindow + 1 == limit)
            && (!d.allowed ==> d.remaining == 0)
  {
    var n := PruneSuffix(w, WindowStart(now));
    SuffixCount(w, n, now - RATE_LIMIT_WINDOW_MS);
  }

  lemma {:induction false} SuffixCount(w: Window, n: nat, from: int)
    requires n <= |w| && (forall i :: 0 <= i < n ==> w[i] < from) && forall i :: n <= i < |w| ==> from <= w[i]
    ensures CountIn(w, from, U64_MAX) == |w| - n
    decreases |w|
  {
    if w != [] { SuffixCount(w[..|w| - 1], Min(n, |w| - 1), from); }
  }

  /** What any decision reports is the instant its oldest remembered request ages out, rounded up to a second. */
  lemma ResetIsOldestAged(w: Window, now: u64, limit: u32)
    ensures var after, reset := Record(w, now, limit), Decide(w, now, limit).resetSecs;
            var ages := (if after == [] then now else after[0]) + 60_000;
            if ages <= U64_MAX then reset * 1000 - 1000 < ages <= reset * 1000
            else reset * 1000 - 1000 < U64_MAX <= reset * 1000
  {
  }

  /** A full bucket stays as it is, and denies, up to the instant its oldest entry is 60 000 ms old. */
  lemma DeniedUntilOldestAges(w: Window, events: seq<Event>)
    requires w != [] && (forall e :: e in events && e.Request? ==> e.limit <= |w|) && forall e :: e in events ==> e.at <= w[0] + RATE_LIMIT_WINDOW_MS
    ensures forall e :: e in events ==> Step(w, e) == w && !Admits(w, e)
  {
  }

  /** ... and the first request after that instant is admitted. */
  lemma AdmittedAfterOldestAges(w: Window, now: u64, limit: u32)
    requires 0 < |w| <= limit && now > w[0] + RATE_LIMIT_WINDOW_MS
    ensures Decide(w, now, limit).allowed
  {
    var n := PruneSuffix(w, WindowStart(now));
  }

  /** A denial reports the instant its oldest in-window request ages out, rounded up to a second. */
  lemma DenialReportsReset(w: Window, now: u64, limit: u32)
    requires limit > 0 && !Decide(w, now, limit).allowed
    ensures var kept := Record(w, now, limit);
            && kept != [] && kept == Prune(w, WindowStart(now)) && |kept| >= limit
            && (kept[0] + RATE_LIMIT_WINDOW_MS <= U64_MAX ==>
                  var reset := Decide(w, now, limit).resetSecs;
                  reset * 1000 - 1000 < kept[0] + RATE_LIMIT_WINDOW_MS <= reset * 1000)
  {
  }

  /**
   A client that retries at exactly `reset_secs` is admitted if and only if the oldest
   request did not fall on a whole second: at the ageing instant itself it still counts.
   */
  lemma RetryAtResetIff(w: Window, now: u64, limit: u32)
    requires limit > 0 && |w| <= limit && !Decide(w, now, limit).allowed
    requires Record(w, now, limit)[0] + RATE_LIMIT_WINDOW_MS <= U64_MAX - 1000
    ensures var kept, retry := Record(w, now, limit), Decide(w, now, limit).resetSecs * 1000;
            Decide(kept, retry, limit).allowed <==> kept[0] % 1000 != 0
  {
    DenialReportsReset(w, now, limit);
    var kept, retry := Record(w, now, limit), Decide(w, now, limit).resetSecs * 1000;
    var n := PruneSuffix(w, WindowStart(now));
    if kept[0] % 1000 == 0 {
      PruneNothing(kept, WindowStart(retry));
    } else {
      AdmittedAfterOldestAges(kept, retry, limit);
    }
  }

  /** One request a minute: after one at 60 s, the next is told to come back at 120 s, and at 120 s is denied. */
  lemma RetryDenied()
    ensures var w := Bucket([Request(60_000, 1)]);
            && w == [60_000]
            && !Decide(w, 60_000, 1).allowed && Decide(w, 60_000, 1).resetSecs == 120
            && !Decide(w, 120_000, 1).allowed && Decide(w, 120_001, 1).allowed
  {
    var events := [Request(60_000, 1)];
    assert events[..0] == [] && Bucket([]) == [] && Step([], events[0]) == [60_000];
    assert Prune([60_000], 0) == [60_000] && Prune([60_000], 60_000) == [60_000] && Prune([60_000], 60_001) == [];
    assert Record([60_000], 60_000, 1) == [60_000] && ResetMs([60_000], 60_000) == 120_000;
  }
}
