/**
 Schedules of the rate limiter's counter (src/auth.rs:360-376): how far the size a sweep stores
 is from what is due, told by what happened while it counted, and runs from an empty limiter that
 end past the cap.
 */
module RateCapRuns {
  import opened Machine
  import opened TopK
  import opened RateLimits
  import opened RateCap

  // ---------------------------------------------------------------- what happens while a sweep counts

  /** The keys in the shards thread `t` has read. */
  function Read(s: State, t: Thread): set<Key>
    requires InSweep(s, t)
  {
    Before(s, Counted(s.threads[t]))
  }

  /** How much more the sweep has counted than is now in the shards it has read. */
  function Lag(s: State, t: Thread): int
    requires InSweep(s, t)
  {
    SizeSoFar(s.threads[t]) - |Read(s, t)|
  }

  /** Keys the step removes from shards already read. */
  function Gone(s: State, t: Thread, a: Action): nat
    requires InSweep(s, t)
  {
    match a
    case EvictRemove(_, victim) => if victim in Read(s, t) then 1 else 0
    case Reap(_, expired) => |Read(s, t) * expired|
    case _ => 0
  }

  /** Keys the step inserts into shards already read. */
  function Came(s: State, t: Thread, a: Action): nat
    requires InSweep(s, t) && Enabled(s, a)
  {
    if a.Insert? && s.threads[a.t].key !in s.keys && s.shardOf(s.threads[a.t].key) < Counted(s.threads[t]) then 1 else 0
  }

  /** The step is another thread's, or one with which `t` goes on with its sweep. */
  predicate StillSweeping(a: Action, t: Thread) { a.t == t ==> a.ReadShard? || a.Reap? }

  lemma LagMoves(s: State, t: Thread, a: Action)
    requires InSweep(s, t) && Enabled(s, a) && StillSweeping(a, t)
    ensures InSweep(Next(s, a), t) && Lag(Next(s, a), t) == Lag(s, t) + Gone(s, t, a) - Came(s, t, a)
  {
    var s', n := Next(s, a), Counted(s.threads[t]);
    if a.t == t && a.ReadShard? {
      OwnRead(s, t);
    } else {
      OthersMove(s, t, a);
    }
  }

  lemma OwnRead(s: State, t: Thread)
    requires InSweep(s, t) && Enabled(s, ReadShard(t))
    ensures InSweep(Next(s, ReadShard(t)), t) && Lag(Next(s, ReadShard(t)), t) == Lag(s, t)
  {
    var s', n := Next(s, ReadShard(t)), Counted(s.threads[t]);
    hide Before, Shard, Left;
    ShardCounted(s, n);
    SameKeysBefore(s, s', n + 1);
  }

  lemma OthersMove(s: State, t: Thread, a: Action)
    requires InSweep(s, t) && Enabled(s, a) && StillSweeping(a, t) && !(a.t == t && a.ReadShard?)
    ensures InSweep(Next(s, a), t) && Next(s, a).threads[t] == s.threads[t]
    ensures |Read(Next(s, a), t)| == |Read(s, t)| + Came(s, t, a) - Gone(s, t, a)
  {
    hide Before;
    StaysPut(s, t, a);
    var s', n := Next(s, a), Counted(s.threads[t]);
    match a
    case EvictRemove(_, victim) => KeysRemoved(s, s', n, if victim in s.keys then {victim} else {});
    case Reap(_, expired) => KeysRemoved(s, s', n, expired);
    case Insert(u) =>
      if s.threads[u].key in s.keys { SameKeysBefore(s, s', n); } else { KeyInserted(s, s', n, s.threads[u].key); }
    case _ => SameKeysBefore(s, s', n);
  }

  lemma StaysPut(s: State, t: Thread, a: Action)
    requires InSweep(s, t) && Enabled(s, a) && StillSweeping(a, t) && !(a.t == t && a.ReadShard?)
    ensures InSweep(Next(s, a), t) && Next(s, a).threads[t] == s.threads[t]
  {
  }

  lemma KeysRemoved(s: State, s': State, n: nat, removed: set<Key>)
    requires s'.keys == s.keys - removed && s'.shardOf == s.shardOf
    ensures |Before(s', n)| == |Before(s, n)| - |Before(s, n) * removed|
    ensures forall k :: removed == {k} ==> |Before(s, n) * removed| == if k in Before(s, n) then 1 else 0
    ensures removed == {} ==> |Before(s, n) * removed| == 0
    ensures forall k :: k in Before(s, n) ==> k in s.keys
  {
    var read := Before(s, n);
    assert Before(s', n) == read - removed;
    assert read == (read - removed) + (read * removed);
    forall k | removed == {k} ensures |read * removed| == if k in read then 1 else 0 {
      assert read * removed == if k in read then {k} else {};
    }
  }

  lemma KeyInserted(s: State, s': State, n: nat, key: Key)
    requires s'.keys == s.keys + {key} && key !in s.keys && s'.shardOf == s.shardOf
    ensures |Before(s', n)| == |Before(s, n)| + if s.shardOf(key) < n then 1 else 0
  {
    assert Before(s', n) == Before(s, n) + if s.shardOf(key) < n then {key} else {};
  }

  // ---------------------------------------------------------------- over a whole count

  predicate AllStillSweeping(actions: seq<Action>, t: Thread) { forall i :: 0 <= i < |actions| ==> StillSweeping(actions[i], t) }

  /** Removals from shards already read, over a run that leaves `t` sweeping. */
  ghost function TotalGone(s: State, t: Thread, actions: seq<Action>): nat
    requires InSweep(s, t) && Runs(s, actions) && AllStillSweeping(actions, t)
    decreases |actions|
  {
    if actions == [] then 0
    else
      assert StillSweeping(actions[0], t);
      LagMoves(s, t, actions[0]);
      Gone(s, t, actions[0]) + TotalGone(Next(s, actions[0]), t, actions[1..])
  }

  ghost function TotalCame(s: State, t: Thread, actions: seq<Action>): nat
    requires InSweep(s, t) && Runs(s, actions) && AllStillSweeping(actions, t)
    decreases |actions|
  {
    if actions == [] then 0
    else
      assert StillSweeping(actions[0], t);
      LagMoves(s, t, actions[0]);
      Came(s, t, actions[0]) + TotalCame(Next(s, actions[0]), t, actions[1..])
  }

  lemma {:induction false} LagOverRun(s: State, t: Thread, actions: seq<Action>)
    requires InSweep(s, t) && Runs(s, actions) && AllStillSweeping(actions, t)
    ensures var y := After(s, actions);
            && InSweep(y, t) && y.shardOf == s.shardOf && y.shards == s.shards
            && Lag(y, t) == Lag(s, t) + TotalGone(s, t, actions) - TotalCame(s, t, actions)
    decreases |actions|
  {
    if actions != [] {
      hide Lag, Gone, Came;
      assert StillSweeping(actions[0], t);
      LagMoves(s, t, actions[0]);
      LagOverRun(Next(s, actions[0]), t, actions[1..]);
    }
  }

  /**
   The size a sweep is about to store falls short of what is due exactly when the slots and
   removals in flight, with the keys inserted into shards it had already read, outnumber the keys
   removed from such shards meanwhile; so nothing need be in flight at all.
   */
  lemma StoreShortIff(s: State, t: Thread, actions: seq<Action>)
    requires Sharded(s) && t in s.threads && s.threads[t].Sweeping?
    requires Runs(s, actions) && AllStillSweeping(actions, t) && Enabled(After(s, actions), Store(t))
    ensures var y, gone, came := After(s, actions), TotalGone(s, t, actions), TotalCame(s, t, actions);
            && y.threads[t].size - Due(y) == gone - came - |InFlight(y)|
            && (y.threads[t].size < Due(y) <==> gone < came + |InFlight(y)|)
            && (Covers(y) && gone < came + |InFlight(y)| ==> !Covers(Next(y, Store(t))))
  {
    hide InFlight, Before;
    var y := After(s, actions);
    NoneCounted(s);
    LagOverRun(s, t, actions);
    AllCounted(y);
    if Covers(y) { StepCoversIff(y, Store(t)); }
  }

  // ---------------------------------------------------------------- building runs

  lemma Nothing(s: State) returns (run: seq<Action>)
    ensures run == [] && Runs(s, run) && After(s, run) == s
  {
    run := [];
  }

  lemma {:induction false} Extend(s: State, run: seq<Action>, a: Action) returns (longer: seq<Action>)
    requires Runs(s, run) && Enabled(After(s, run), a)
    ensures longer == run + [a] && Runs(s, longer) && After(s, longer) == Next(After(s, run), a)
    decreases |run|
  {
    longer := run + [a];
    if run != [] {
      var rest := Extend(Next(s, run[0]), run[1..], a);
      assert longer[1..] == rest;
    } else {
      assert longer == [a] && longer[1..] == [] && Runs(Next(s, a), []);
    }
  }

  /** `n` shard reads in a row. */
  function Reads(t: Thread, n: nat): (actions: seq<Action>)
    ensures |actions| == n
  {
    if n == 0 then [] else Reads(t, n - 1) + [ReadShard(t)]
  }

  /** A sweep that counts its shards without interruption counts the map. */
  lemma {:induction false} CountTo(s: State, run: seq<Action>, t: Thread, n: nat) returns (longer: seq<Action>)
    requires Runs(s, run) && t in After(s, run).threads && After(s, run).threads[t] == Sweeping(None) && 0 < n <= After(s, run).shards
    ensures longer == run + Reads(t, n) && Runs(s, longer)
    ensures var y := After(s, run); After(s, longer) == To(y, t, Counting(None, n, |Before(y, n)|))
    decreases n
  {
    hide Runs, After, Before, Shard, Left;
    var y := After(s, run);
    ShardCounted(y, n - 1);
    if n == 1 {
      NoneCounted(y);
      longer := Extend(s, run, ReadShard(t));
      assert Reads(t, 0) + [ReadShard(t)] == [ReadShard(t)];
      assert Shard(y, 0) == Shard(After(s, run), 0);
    } else {
      longer := CountTo(s, run, t, n - 1);
      SameShard(y, After(s, longer), n - 1);
      var before := longer;
      longer := Extend(s, longer, ReadShard(t));
      assert longer == run + (Reads(t, n - 1) + [ReadShard(t)]);
      assert y.threads[t := Counting(None, n - 1, |Before(y, n - 1)|)][t := Counting(None, n, |Before(y, n)|)] ==
             y.threads[t := Counting(None, n, |Before(y, n)|)];
    }
  }

  lemma SameShard(s: State, s': State, i: nat)
    requires s'.keys == s.keys && s'.shardOf == s.shardOf
    ensures Shard(s', i) == Shard(s, i)
  {
  }

  /** One admission by itself. */
  function AdmitSteps(t: Thread, k: Key): seq<Action> { [Arrive(t, k), TryAdmit(t), Insert(t)] }

  /** A sweep begun, and the map counted. */
  function CountSteps(shards: nat): seq<Action> { [BeginSweep(1)] + Reads(1, shards) }

  /** A slot is won, a sweep counts and stores, and only then is the bucket inserted. */
  function AcrossSteps(k: Key, shards: nat): seq<Action>
  {
    [Arrive(0, k), TryAdmit(0)] + CountSteps(shards) + [Store(1), Insert(0)]
  }

  /** A limiter nobody is using, its counter exact. */
  ghost predicate Calm(s: State) { s.threads == map[] && s.tracked == |s.keys| <= MAX_TRACKED_KEYS && Sharded(s) }

  /** A whole admission of a new key on top of a run that leaves no thread behind. */
  lemma AdmitAlone(s: State, run: seq<Action>, k: Key) returns (longer: seq<Action>)
    requires Runs(s, run) && After(s, run).threads == map[] && After(s, run).tracked < MAX_TRACKED_KEYS && k !in After(s, run).keys
    ensures longer == run + AdmitSteps(2, k) && Runs(s, longer)
    ensures var y := After(s, run); After(s, longer) == y.(keys := y.keys + {k}, tracked := y.tracked + 1)
  {
    hide Runs, After;
    var y := After(s, run);
    longer := Extend(s, run, Arrive(2, k));
    longer := Extend(s, longer, TryAdmit(2));
    assert After(s, longer) == y.(tracked := y.tracked + 1, threads := map[2 := Won(k)]);
    longer := Extend(s, longer, Insert(2));
    assert After(s, longer).threads == map[];
  }

  // ---------------------------------------------------------------- two runs past the cap

  /** A sweep that stores over a slot won but not inserted: the new bucket goes uncounted. */
  lemma AdmitAcrossSweep(s: State, run: seq<Action>, k: Key) returns (longer: seq<Action>)
    requires Runs(s, run) && Calm(After(s, run)) && After(s, run).tracked < MAX_TRACKED_KEYS && k !in After(s, run).keys
    ensures longer == run + AcrossSteps(k, After(s, run).shards)
    ensures Runs(s, longer) && After(s, longer) == After(s, run).(keys := After(s, run).keys + {k})
  {
    hide Runs, After, Before, Shard;
    var y := After(s, run);
    longer := Extend(s, run, Arrive(0, k));
    assert After(s, longer) == y.(threads := map[0 := Trying(k)]);
    longer := Extend(s, longer, TryAdmit(0));
    assert After(s, longer) == y.(tracked := y.tracked + 1, threads := map[0 := Won(k)]);
    longer := Extend(s, longer, BeginSweep(1));
    assert After(s, longer) == y.(tracked := y.tracked + 1, threads := map[0 := Won(k), 1 := Sweeping(None)]);
    SameKeysBefore(y, After(s, longer), y.shards);
    AllCounted(y);
    longer := CountTo(s, longer, 1, y.shards);
    assert After(s, longer) == y.(tracked := y.tracked + 1, threads := map[0 := Won(k), 1 := Counting(None, y.shards, |y.keys|)]);
    longer := Extend(s, longer, Store(1));
    assert After(s, longer) == y.(threads := map[0 := Won(k)]);
    longer := Extend(s, longer, Insert(0));
    assert After(s, longer).threads == map[];
  }

  /** A sweep that counts, then a whole admission, then the store: nothing in flight at the count or the store. */
  lemma StoreAcrossAdmission(s: State, run: seq<Action>, k: Key) returns (counted: seq<Action>, admitted: seq<Action>, longer: seq<Action>)
    requires Runs(s, run) && Calm(After(s, run)) && After(s, run).tracked < MAX_TRACKED_KEYS && k !in After(s, run).keys
    ensures counted == run + CountSteps(After(s, run).shards)
    ensures admitted == counted + AdmitSteps(2, k) && longer == admitted + [Store(1)]
    ensures Runs(s, longer) && After(s, longer) == After(s, run).(keys := After(s, run).keys + {k})
    ensures Runs(s, counted) && InFlight(After(s, counted)) == {} && Runs(s, admitted) && InFlight(After(s, admitted)) == {}
  {
    hide Runs, After;
    var y := After(s, run);
    counted := CountAlone(s, run);
    var pc := Counting(None, y.shards, |y.keys|);
    longer := Extend(s, counted, Arrive(2, k));
    longer := Extend(s, longer, TryAdmit(2));
    assert After(s, longer) == y.(tracked := y.tracked + 1, threads := map[1 := pc, 2 := Won(k)]);
    admitted := Extend(s, longer, Insert(2));
    assert After(s, admitted) == y.(keys := y.keys + {k}, tracked := y.tracked + 1, threads := map[1 := pc]);
    longer := Extend(s, admitted, Store(1));
    assert After(s, longer).threads == map[];
  }

  lemma CountAlone(s: State, run: seq<Action>) returns (counted: seq<Action>)
    requires Runs(s, run) && Calm(After(s, run))
    ensures counted == run + CountSteps(After(s, run).shards) && Runs(s, counted)
    ensures var y := After(s, run); After(s, counted) == y.(threads := map[1 := Counting(None, y.shards, |y.keys|)])
  {
    hide Runs, After, Before, Shard;
    var y := After(s, run);
    counted := Extend(s, run, BeginSweep(1));
    SameKeysBefore(y, After(s, counted), y.shards);
    AllCounted(y);
    counted := CountTo(s, counted, 1, y.shards);
  }

  function Name(i: nat): Key { seq(i, _ => 'k') }

  /** A limiter can be filled, one admission after the other. */
  lemma {:induction false} FillUp(s: State, n: nat) returns (run: seq<Action>)
    requires s.keys == {} && Calm(s) && n <= MAX_TRACKED_KEYS
    ensures Runs(s, run) && Calm(After(s, run)) && |After(s, run).keys| == n
    ensures After(s, run).shardOf == s.shardOf && After(s, run).shards == s.shards
    ensures forall k :: k in After(s, run).keys ==> |k| < n
    decreases n
  {
    if n == 0 {
      run := Nothing(s);
    } else {
      run := FillUp(s, n - 1);
      hide Runs, After;
      var k := Name(n - 1);
      assert k !in After(s, run).keys;
      run := AdmitAlone(s, run, k);
    }
  }

  /** The first name that no key of a limiter one below the cap has, and the next. */
  const LAST: nat := MAX_TRACKED_KEYS - 1

  /** From an empty limiter, a sweep in the middle of an admission lets the map pass the cap. */
  lemma SweepInFlightOvershoots(shardOf: Key -> nat, shards: nat) returns (fill: seq<Action>, run: seq<Action>)
    requires Sharded(Start(shardOf, shards))
    ensures Runs(Start(shardOf, shards), fill) && Calm(After(Start(shardOf, shards), fill))
    ensures run == fill + AcrossSteps(Name(LAST), shards) + AdmitSteps(2, Name(LAST + 1))
    ensures Runs(Start(shardOf, shards), run) && |After(Start(shardOf, shards), run).keys| == 100_001
  {
    var s := Start(shardOf, shards);
    fill := FillUp(s, LAST);
    hide Runs, After;
    run := AdmitAcrossSweep(s, fill, Name(LAST));
    run := AdmitAlone(s, run, Name(LAST + 1));
  }

  /** Nothing is in flight after the run. */
  ghost predicate Settled(s: State, run: seq<Action>) { Runs(s, run) && InFlight(After(s, run)) == {} }

  /** From an empty limiter, an admission between a sweep's count and its store does too, with nothing in flight at either. */
  lemma StaleStoreOvershoots(shardOf: Key -> nat, shards: nat) returns (fill: seq<Action>, run: seq<Action>)
    requires Sharded(Start(shardOf, shards))
    ensures Runs(Start(shardOf, shards), fill) && Calm(After(Start(shardOf, shards), fill))
    ensures run == fill + CountSteps(shards) + AdmitSteps(2, Name(LAST)) + [Store(1)] + AdmitSteps(2, Name(LAST + 1))
    ensures Runs(Start(shardOf, shards), run) && |After(Start(shardOf, shards), run).keys| == 100_001
    ensures Settled(Start(shardOf, shards), fill + CountSteps(shards))
    ensures Settled(Start(shardOf, shards), fill + CountSteps(shards) + AdmitSteps(2, Name(LAST)))
  {
    var s := Start(shardOf, shards);
    fill := FillUp(s, LAST);
    hide Runs, After;
    var counted, admitted;
    counted, admitted, run := StoreAcrossAdmission(s, fill, Name(LAST));
    run := AdmitAlone(s, run, Name(LAST + 1));
  }
}
