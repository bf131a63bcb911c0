/**
 The key cap of the rate limiter under concurrency: one step per atomic operation on the
 counter or the map (`check_and_record_status`, `evict_idlest_of_sample`, `sweep_expired`,
 src/auth.rs). A sweep reaps shard by shard, then adds up the sizes of the shards one by one, then
 stores the sum, and any other step may come between. Steps on the bucket of an existing key touch
 neither counter nor key set and are left out.
 */
module RateCap {
  import opened Machine
  import opened TopK
  import opened RateLimits

  type Key = string
  type Thread = nat

  /** Where a request for a new key, or a sweep, stands. A sweep that a request runs keeps its key. */
  datatype Pc =
    | Trying(key: Key)                         // no slot yet
    | Won(key: Key)                            // slot counted, bucket not inserted
    | Refunding(key: Key)                      // slot counted, bucket found already present
    | Reaped(key: Key)                         // a victim removed from the map, not yet subtracted
    | Sweeping(caller: Option<Key>)            // removing expired buckets
    | Counting(caller: Option<Key>, next: nat, size: nat)  // shards before `next` counted, `size` in all

  /** The map spreads its keys over shards in a way of its own. */
  datatype State = State(keys: set<Key>, tracked: int, threads: map<Thread, Pc>, shardOf: Key -> nat, shards: nat)

  /** Every key has a shard. */
  ghost predicate Sharded(s: State) { 0 < s.shards && forall k: Key :: s.shardOf(k) < s.shards }

  function Shard(s: State, i: nat): set<Key> { set k | k in s.keys && s.shardOf(k) == i }

  /** The keys in the shards before `next`. */
  function Before(s: State, next: nat): set<Key> { set k | k in s.keys && s.shardOf(k) < next }

  datatype Action =
    | Arrive(t: Thread, key: Key)
    | TryAdmit(t: Thread)
    | EvictRemove(t: Thread, victim: Key)
    | EvictSubtract(t: Thread)
    | Insert(t: Thread)
    | Refund(t: Thread)
    | GiveUp(t: Thread)
    | BeginSweep(t: Thread)
    | Reap(t: Thread, expired: set<Key>)
    | ReadShard(t: Thread)
    | Store(t: Thread)

  /** The keys in the shards from `next` on. */
  function Left(s: State, next: nat): set<Key> { set k | k in s.keys && s.shardOf(k) >= next }

  predicate At(s: State, t: Thread) { t in s.threads }

  predicate Enabled(s: State, a: Action)
  {
    match a
    case Arrive(t, _) => !At(s, t)
    case TryAdmit(t) => At(s, t) && s.threads[t].Trying?
    case EvictRemove(t, victim) => At(s, t) && s.threads[t].Trying? && victim != s.threads[t].key
    case EvictSubtract(t) => At(s, t) && s.threads[t].Reaped?
    case Insert(t) => At(s, t) && s.threads[t].Won?
    case Refund(t) => At(s, t) && s.threads[t].Refunding?
    case GiveUp(t) => At(s, t) && s.threads[t].Trying?
    case BeginSweep(t) => At(s, t) ==> s.threads[t].Trying?
    case Reap(t, _) => At(s, t) && s.threads[t].Sweeping?
    case ReadShard(t) => At(s, t) && (s.threads[t].Sweeping? || s.threads[t].Counting?) && Counted(s.threads[t]) < s.shards
    case Store(t) => At(s, t) && s.threads[t].Counting? && s.threads[t].next == s.shards
  }

  function Counted(pc: Pc): nat { if pc.Counting? then pc.next else 0 }

  function SizeSoFar(pc: Pc): nat { if pc.Counting? then pc.size else 0 }

  function To(s: State, t: Thread, pc: Pc): State { s.(threads := s.threads[t := pc]) }

  function Next(s: State, a: Action): State
    requires Enabled(s, a)
  {
    match a
    case Arrive(t, key) => To(s, t, Trying(key))
    case TryAdmit(t) =>
      if s.tracked < MAX_TRACKED_KEYS then To(s.(tracked := s.tracked + 1), t, Won(s.threads[t].key)) else s
    case EvictRemove(t, victim) =>
      if victim in s.keys then To(s.(keys := s.keys - {victim}), t, Reaped(s.threads[t].key)) else s
    case EvictSubtract(t) => To(s.(tracked := s.tracked - 1), t, Trying(s.threads[t].key))
    case Insert(t) =>
      if s.threads[t].key in s.keys then To(s, t, Refunding(s.threads[t].key))
      else s.(keys := s.keys + {s.threads[t].key}, threads := s.threads - {t})
    case Refund(t) => s.(tracked := s.tracked - 1, threads := s.threads - {t})
    case GiveUp(t) => s.(threads := s.threads - {t})
    case BeginSweep(t) => To(s, t, Sweeping(if At(s, t) then Some(s.threads[t].key) else None))
    case Reap(t, expired) => s.(keys := s.keys - expired)
    case ReadShard(t) =>
      var pc := s.threads[t];
      To(s, t, Counting(pc.caller, Counted(pc) + 1, SizeSoFar(pc) + |Shard(s, Counted(pc))|))
    case Store(t) =>
      var Counting(caller, _, size) := s.threads[t];
      s.(tracked := size, threads := if caller.Some? then s.threads[t := Trying(caller.value)] else s.threads - {t})
  }

  predicate Flying(pc: Pc) { pc.Won? || pc.Refunding? || pc.Reaped? }

  /** Requests between a counter update and the map update it stands for. */
  ghost function InFlight(s: State): set<Thread> { set t | t in s.threads && Flying(s.threads[t]) }

  /** Map size + slots won but not inserted + removals not yet subtracted: what the counter should say. */
  ghost function Due(s: State): nat { |s.keys| + |InFlight(s)| }

  ghost predicate Balanced(s: State) { s.tracked == Due(s) }

  /** The counter never says less than what is due, nor more than the cap. */
  ghost predicate Covers(s: State) { Due(s) <= s.tracked <= MAX_TRACKED_KEYS }

  predicate SweepStep(a: Action) { a.BeginSweep? || a.Reap? || a.ReadShard? || a.Store? }

  // ---------------------------------------------------------------- one step

  function Held(threads: map<Thread, Pc>, t: Thread): nat { if t in threads && Flying(threads[t]) then 1 else 0 }

  /** A step of thread `t` alone changes who is in flight by `t` alone. */
  lemma InFlightMoves(s: State, s': State, t: Thread)
    requires forall u :: u != t ==> (u in s.threads <==> u in s'.threads) && (u in s.threads ==> s'.threads[u] == s.threads[u])
    ensures |InFlight(s')| - Held(s'.threads, t) == |InFlight(s)| - Held(s.threads, t)
  {
    var was, now := InFlight(s), InFlight(s');
    assert Held(s.threads, t) == (if t in was then 1 else 0) && Held(s'.threads, t) == if t in now then 1 else 0;
    assert forall u :: u != t ==> (u in was <==> u in now);
    SameButOne(was, now, t);
  }

  lemma SameButOne(a: set<Thread>, b: set<Thread>, t: Thread)
    requires forall u :: u != t ==> (u in a <==> u in b)
    ensures |b| - (if t in b then 1 else 0) == |a| - if t in a then 1 else 0
  {
    assert b - {t} == a - {t};
    assert |a - {t}| == |a| - if t in a then 1 else 0;
  }

  /** Admissions, evictions and refunds move the counter by exactly what becomes due. */
  lemma AdmissionMoves(s: State, a: Action)
    requires Enabled(s, a) && !SweepStep(a)
    ensures Next(s, a).tracked - s.tracked == Due(Next(s, a)) - Due(s)
    ensures Next(s, a).tracked <= s.tracked || Next(s, a).tracked <= MAX_TRACKED_KEYS
  {
    hide InFlight;
    InFlightMoves(s, Next(s, a), a.t);
  }

  /** A sweep never adds to what is due, and touches the counter only when it stores. */
  lemma SweepMoves(s: State, a: Action)
    requires Enabled(s, a) && SweepStep(a)
    ensures InFlight(Next(s, a)) == InFlight(s) && |Next(s, a).keys| <= |s.keys|
    ensures !a.Reap? ==> Next(s, a).keys == s.keys
    ensures Next(s, a).tracked == if a.Store? then s.threads[a.t].size else s.tracked
  {
    if a.Reap? { SubsetSize(s.keys - a.expired, s.keys); }
  }

  // ---------------------------------------------------------------- when a step keeps the count

  /**
   The counter stays at or above what is due if and only if the step is not the store of a size
   that is by then too small, and stays exact if and only if it is not the removal of a bucket by
   a sweep or the store of a size that is by then not what is due.
   */
  lemma StepCoversIff(s: State, a: Action)
    requires Covers(s) && Enabled(s, a)
    ensures Covers(Next(s, a)) <==> !(a.Store? && !(Due(s) <= s.threads[a.t].size <= MAX_TRACKED_KEYS))
  {
    hide InFlight;
    if SweepStep(a) { SweepMoves(s, a); } else { AdmissionMoves(s, a); }
  }

  lemma StepBalancesIff(s: State, a: Action)
    requires Balanced(s) && Enabled(s, a)
    ensures Balanced(Next(s, a)) <==>
            !(a.Reap? && s.keys * a.expired != {}) && !(a.Store? && s.threads[a.t].size != Due(s))
  {
    hide InFlight;
    if SweepStep(a) { SweepMoves(s, a); } else { AdmissionMoves(s, a); }
    if a.Reap? { ReapShrinks(s.keys, a.expired); }
  }

  lemma ReapShrinks(keys: set<Key>, expired: set<Key>)
    ensures |keys - expired| == |keys| <==> keys * expired == {}
  {
    if keys * expired != {} {
      var k :| k in keys * expired;
      SubsetSize(keys - expired, keys - {k});
    } else {
      forall k | k in keys ensures k in keys - expired { assert k in expired ==> k in keys * expired; }
      assert keys - expired == keys;
    }
  }

  /** Whatever the counter said before, a store leaves it exact if and only if the size it read is what is due now. */
  lemma StoreExactIff(s: State, t: Thread)
    requires Enabled(s, Store(t))
    ensures Balanced(Next(s, Store(t))) <==> s.threads[t].size == Due(s)
  {
    hide InFlight;
    SweepMoves(s, Store(t));
  }

  // ---------------------------------------------------------------- runs

  predicate Runs(s: State, actions: seq<Action>)
    decreases |actions|
  {
    actions == [] || (Enabled(s, actions[0]) && Runs(Next(s, actions[0]), actions[1..]))
  }

  function After(s: State, actions: seq<Action>): State
    requires Runs(s, actions)
    decreases |actions|
  {
    if actions == [] then s else After(Next(s, actions[0]), actions[1..])
  }

  function Start(shardOf: Key -> nat, shards: nat): State { State({}, 0, map[], shardOf, shards) }

  ghost predicate CoversThroughout(s: State, actions: seq<Action>)
    requires Runs(s, actions)
    decreases |actions|
  {
    Covers(s) && (actions != [] ==> CoversThroughout(Next(s, actions[0]), actions[1..]))
  }

  /** No store puts the counter below what is due at that moment. */
  ghost predicate NoShortStore(s: State, actions: seq<Action>)
    requires Runs(s, actions)
    decreases |actions|
  {
    actions != [] ==>
      && (actions[0].Store? ==> Due(s) <= s.threads[actions[0].t].size <= MAX_TRACKED_KEYS)
      && NoShortStore(Next(s, actions[0]), actions[1..])
  }

  /** In any run the counter covers what is due throughout if and only if no sweep stores too small a size. */
  lemma {:induction false} CoversThroughoutIff(s: State, actions: seq<Action>)
    requires Covers(s) && Runs(s, actions)
    ensures CoversThroughout(s, actions) <==> NoShortStore(s, actions)
    decreases |actions|
  {
    if actions != [] {
      hide Covers, Due, Next, Enabled;
      StepCoversIff(s, actions[0]);
      if Covers(Next(s, actions[0])) { CoversThroughoutIff(Next(s, actions[0]), actions[1..]); }
    } else {
      assert actions == [];
    }
  }

  predicate InSweep(s: State, t: Thread) { t in s.threads && (s.threads[t].Sweeping? || s.threads[t].Counting?) }

  ghost predicate UnderSweep(s: State) { exists t: Thread :: InSweep(s, t) }

  /** Nothing is in flight when a sweep begins, and no admission or eviction step comes before it ends. */
  ghost predicate SweepsAlone(s: State, a: Action)
  {
    && (a.BeginSweep? ==> InFlight(s) == {})
    && (UnderSweep(s) ==> !a.TryAdmit? && !a.EvictRemove? && !a.EvictSubtract? && !a.Insert? && !a.Refund?)
  }

  ghost predicate AllAlone(s: State, actions: seq<Action>)
    requires Runs(s, actions)
    decreases |actions|
  {
    actions == [] || (SweepsAlone(s, actions[0]) && AllAlone(Next(s, actions[0]), actions[1..]))
  }

  /** A sweep has counted at least what is now in the shards it has read, and no more than the cap allows for. */
  ghost predicate Enough(s: State, pc: Pc)
  {
    Counted(pc) <= s.shards && |Before(s, Counted(pc))| <= SizeSoFar(pc) &&
    SizeSoFar(pc) + |Left(s, Counted(pc))| <= MAX_TRACKED_KEYS
  }

  /** Between the first and last step of a sweep nothing is in flight and no size read is too small. */
  ghost predicate Inv(s: State)
  {
    && Covers(s)
    && (UnderSweep(s) ==> InFlight(s) == {})
    && Sharded(s) && forall t: Thread :: InSweep(s, t) ==> Enough(s, s.threads[t])
  }

  /** An admission or eviction step leaves every sweep where it is. */
  lemma SweepsKept(s: State, a: Action)
    requires Enabled(s, a) && !SweepStep(a)
    ensures forall u: Thread :: InSweep(s, u) || InSweep(Next(s, a), u) ==>
              u in s.threads && u in Next(s, a).threads && Next(s, a).threads[u] == s.threads[u]
    ensures forall u: Thread :: InSweep(Next(s, a), u) ==> InSweep(s, u)
    ensures UnderSweep(Next(s, a)) <==> UnderSweep(s)
  {
    var s' := Next(s, a);
    assert forall u: Thread :: InSweep(s', u) <==> InSweep(s, u);
  }

  /** While a sweep keeps to itself other threads only arrive and give up. */
  lemma Bystander(s: State, a: Action)
    requires Enabled(s, a) && !SweepStep(a) && UnderSweep(s) && SweepsAlone(s, a)
    ensures Next(s, a).keys == s.keys && Next(s, a).tracked == s.tracked && InFlight(Next(s, a)) == InFlight(s)
  {
  }

  lemma StepKeeps(s: State, a: Action)
    requires Inv(s) && Enabled(s, a) && SweepsAlone(s, a)
    ensures Inv(Next(s, a))
  {
    if SweepStep(a) { SweepKeeps(s, a); } else { AdmissionKeeps(s, a); }
  }

  lemma AdmissionKeeps(s: State, a: Action)
    requires Inv(s) && Enabled(s, a) && SweepsAlone(s, a) && !SweepStep(a)
    ensures Inv(Next(s, a))
  {
    hide InFlight, UnderSweep, Before, Left;
    var s' := Next(s, a);
    StepCoversIff(s, a);
    SweepsKept(s, a);
    if UnderSweep(s) { Bystander(s, a); }
    forall t: Thread | InSweep(s', t) ensures Enough(s', s'.threads[t]) {
      assert InSweep(s, t);
      SweepingIsUnder(s, t);
      SameKeysBefore(s, s', Counted(s.threads[t]));
    }
  }

  lemma SweepingIsUnder(s: State, t: Thread)
    requires InSweep(s, t)
    ensures UnderSweep(s)
  {
  }

  /** Reading a shard adds exactly its keys to those counted. */
  lemma ShardCounted(s: State, i: nat)
    ensures |Before(s, i + 1)| == |Before(s, i)| + |Shard(s, i)|
    ensures |Left(s, i)| == |Left(s, i + 1)| + |Shard(s, i)|
  {
    assert Before(s, i + 1) == Before(s, i) + Shard(s, i);
    assert Left(s, i) == Left(s, i + 1) + Shard(s, i);
  }

  lemma NoneCounted(s: State)
    ensures Before(s, 0) == {} && Left(s, 0) == s.keys
  {
  }

  lemma AllCounted(s: State)
    requires Sharded(s)
    ensures Before(s, s.shards) == s.keys && |Left(s, s.shards)| == 0
  {
    assert Left(s, s.shards) == {};
  }

  /** Removing keys only leaves fewer to count. */
  lemma FewerLeft(s: State, s': State, i: nat)
    requires s'.keys <= s.keys && s'.shardOf == s.shardOf
    ensures |Before(s', i)| <= |Before(s, i)| && |Left(s', i)| <= |Left(s, i)|
  {
    SubsetSize(Before(s', i), Before(s, i));
    SubsetSize(Left(s', i), Left(s, i));
  }

  lemma SweepKeeps(s: State, a: Action)
    requires Inv(s) && Enabled(s, a) && SweepsAlone(s, a) && SweepStep(a)
    ensures Inv(Next(s, a))
  {
    hide InFlight, UnderSweep, Before, Left, Shard, Enough;
    var s' := Next(s, a);
    SweepMoves(s, a);
    SweepThreads(s, a);
    if a.Store? { StoresEnough(s, a.t); }
    StepCoversIff(s, a);
    forall t: Thread | InSweep(s', t) ensures Enough(s', s'.threads[t]) {
      if t != a.t {
        assert InSweep(s, t);
        OthersKeep(s, a, t);
      } else {
        assert a.BeginSweep? || InSweep(s, t);
        SweeperKeeps(s, a);
      }
    }
  }

  lemma StoresEnough(s: State, t: Thread)
    requires Inv(s) && Enabled(s, Store(t))
    ensures Due(s) <= s.threads[t].size <= MAX_TRACKED_KEYS
  {
    hide InFlight, Before, Left;
    assert InSweep(s, t);
    AllCounted(s);
    assert |InFlight(s)| == 0;
  }

  lemma OthersKeep(s: State, a: Action, t: Thread)
    requires Enabled(s, a) && SweepStep(a) && t != a.t && t in s.threads && Enough(s, s.threads[t])
    ensures t in Next(s, a).threads && Next(s, a).threads[t] == s.threads[t] && Enough(Next(s, a), s.threads[t])
  {
    hide Before, Left, Shard, InFlight;
    SweepMoves(s, a);
    FewerLeft(s, Next(s, a), Counted(s.threads[t]));
  }

  lemma SweeperKeeps(s: State, a: Action)
    requires Enabled(s, a) && SweepStep(a) && !a.Store?
    requires if a.BeginSweep? then |s.keys| <= MAX_TRACKED_KEYS else Enough(s, s.threads[a.t])
    ensures Enough(Next(s, a), Next(s, a).threads[a.t])
  {
    hide Before, Left, Shard;
    var s' := Next(s, a);
    match a
    case BeginSweep(t) => NoneCounted(s');
    case Reap(t, _) => FewerLeft(s, s', Counted(s.threads[t]));
    case ReadShard(t) =>
      ShardCounted(s, Counted(s.threads[t]));
      SameKeysBefore(s, s', Counted(s'.threads[t]));
    case _ =>
  }

  lemma SameKeysBefore(s: State, s': State, i: nat)
    requires s'.keys == s.keys && s'.shardOf == s.shardOf
    ensures Before(s', i) == Before(s, i) && Left(s', i) == Left(s, i)
  {
  }

  lemma SweepThreads(s: State, a: Action)
    requires Enabled(s, a) && SweepStep(a)
    ensures !a.BeginSweep? ==> InSweep(s, a.t) && UnderSweep(s)
    ensures !a.Store? ==> InSweep(Next(s, a), a.t) && UnderSweep(Next(s, a))
    ensures forall u: Thread :: u != a.t ==> (InSweep(Next(s, a), u) <==> InSweep(s, u))
    ensures forall u: Thread :: u != a.t && u in Next(s, a).threads ==> u in s.threads && Next(s, a).threads[u] == s.threads[u]
  {
    assert a.BeginSweep? || InSweep(s, a.t);
    assert a.Store? || InSweep(Next(s, a), a.t);
  }

  /**
   In every interleaving whose sweeps keep to themselves, any number of them at once, the
   counter covers the map and the map never exceeds the cap.
   */
  lemma {:induction false} CapHolds(s: State, actions: seq<Action>)
    requires Inv(s) && Runs(s, actions) && AllAlone(s, actions)
    ensures Inv(After(s, actions)) && |After(s, actions).keys| <= 100_000
    decreases |actions|
  {
    if actions != [] {
      StepKeeps(s, actions[0]);
      CapHolds(Next(s, actions[0]), actions[1..]);
    }
  }

  lemma StartIsBalanced(shardOf: Key -> nat, shards: nat)
    requires Sharded(Start(shardOf, shards))
    ensures Inv(Start(shardOf, shards)) && Exact(Start(shardOf, shards))
  {
    assert InFlight(Start(shardOf, shards)) == {};
  }

  // ---------------------------------------------------------------- one sweep at a time: exact counting

  /** Outside sweeps the count is exact; within the only one nothing is in flight and the size read is current. */
  ghost predicate Exact(s: State)
  {
    && (!UnderSweep(s) ==> Balanced(s))
    && (UnderSweep(s) ==> InFlight(s) == {})
    && (forall t: Thread, u: Thread :: InSweep(s, t) && InSweep(s, u) ==> t == u)
    && Sharded(s) && forall t: Thread :: InSweep(s, t) ==>
         Counted(s.threads[t]) <= s.shards && SizeSoFar(s.threads[t]) == |Before(s, Counted(s.threads[t]))|
  }

  lemma StepKeepsExact(s: State, a: Action)
    requires Exact(s) && Enabled(s, a) && SweepsAlone(s, a) && (a.BeginSweep? ==> !UnderSweep(s))
    ensures Exact(Next(s, a))
  {
    if SweepStep(a) { SweepKeepsExact(s, a); } else { AdmissionKeepsExact(s, a); }
  }

  lemma AdmissionKeepsExact(s: State, a: Action)
    requires Exact(s) && Enabled(s, a) && SweepsAlone(s, a) && !SweepStep(a)
    ensures Exact(Next(s, a))
  {
    hide InFlight, UnderSweep, Before, Left;
    var s' := Next(s, a);
    AdmissionMoves(s, a);
    SweepsKept(s, a);
    if UnderSweep(s) { Bystander(s, a); }
    forall t: Thread | InSweep(s', t)
      ensures Counted(s'.threads[t]) <= s'.shards && SizeSoFar(s'.threads[t]) == |Before(s', Counted(s'.threads[t]))|
    {
      assert InSweep(s, t);
      SweepingIsUnder(s, t);
      SameKeysBefore(s, s', Counted(s.threads[t]));
    }
  }

  lemma SweepKeepsExact(s: State, a: Action)
    requires Exact(s) && Enabled(s, a) && SweepsAlone(s, a) && SweepStep(a) && (a.BeginSweep? ==> !UnderSweep(s))
    ensures Exact(Next(s, a))
  {
    hide InFlight, UnderSweep, Before, Left, Shard;
    var s' := Next(s, a);
    SweepMoves(s, a);
    SweepThreads(s, a);
    OnlySweeper(s, a);
    assert |InFlight(s')| == 0;
    NoneCounted(s');
    match a
    case ReadShard(t) =>
      assert InSweep(s, t);
      NoneCounted(s);
      ShardCounted(s, Counted(s.threads[t]));
      SameKeysBefore(s, s', Counted(s'.threads[t]));
    case Store(t) =>
      assert InSweep(s, t);
      AllCounted(s);
    case _ =>
  }

  /** Where sweeps do not overlap the thread that moves one is the only one in it. */
  lemma OnlySweeper(s: State, a: Action)
    requires Exact(s) && Enabled(s, a) && SweepStep(a) && (a.BeginSweep? ==> !UnderSweep(s))
    ensures InFlight(s) == {} || a.BeginSweep?
    ensures forall u: Thread :: InSweep(Next(s, a), u) ==> u == a.t
    ensures UnderSweep(Next(s, a)) <==> !a.Store?
  {
    SweepThreads(s, a);
  }

  ghost predicate OneAtATime(s: State, actions: seq<Action>)
    requires Runs(s, actions)
    decreases |actions|
  {
    actions == [] || ((actions[0].BeginSweep? ==> !UnderSweep(s)) && OneAtATime(Next(s, actions[0]), actions[1..]))
  }

  /** If moreover sweeps do not overlap, counter = map size + slots won + removals pending whenever none is under way. */
  lemma {:induction false} CountIsExact(s: State, actions: seq<Action>)
    requires Exact(s) && Runs(s, actions) && AllAlone(s, actions) && OneAtATime(s, actions)
    ensures Exact(After(s, actions))
    ensures !UnderSweep(After(s, actions)) ==> Balanced(After(s, actions))
    decreases |actions|
  {
    if actions != [] {
      StepKeepsExact(s, actions[0]);
      CountIsExact(Next(s, actions[0]), actions[1..]);
    }
  }
}
