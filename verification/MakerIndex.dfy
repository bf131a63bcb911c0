/**
 What the reverse index promises when the market maker runs concurrently
 (src/market_maker/engine.rs:307-313): every tracked order's leg is recorded, or its requote is
 about to record it. The steps that break the promise are named exactly.
 */
module MakerIndex {
  import opened Machine
  import opened Instruments
  import opened MakerSteps

  // ---------------------------------------------------------------- the claim

  /** The leg a requote has tracked and not yet recorded. */
  function Carried(pc: Pc, leg: bool): Option<OrderId>
  {
    match pc
    case BidDone(_, bid) => if leg then bid else None
    case AskPlaced(_, bid, _, _) => if leg then bid else None
    case AskDone(_, bid, ask) => if leg then bid else ask
    case _ => None
  }

  predicate Carries(pc: Pc, key: InstrumentKey, leg: bool, id: OrderId)
  {
    (pc.BidDone? || pc.AskPlaced? || pc.AskDone?) && pc.key == key && Carried(pc, leg) == Some(id)
  }

  predicate Live(s: State, key: InstrumentKey, leg: bool, id: OrderId)
  {
    id in s.active && s.active[id].key == key && s.active[id].isBuy == leg
  }

  function Slot(s: State, key: InstrumentKey, leg: bool): Option<OrderId> { SlotsOf(s.index, key).Leg(leg) }

  /** The slot of `key` and `leg` records `id`, or a requote of `key` carries it as that leg. */
  ghost predicate InPlace(s: State, key: InstrumentKey, leg: bool, id: OrderId)
  {
    Slot(s, key, leg) == Some(id) || exists t :: t in s.threads && Carries(s.threads[t], key, leg, id)
  }

  /** The documented claim: every tracked order's leg is recorded, or about to be. */
  ghost predicate Claim(s: State)
  {
    forall id :: id in s.active ==> InPlace(s, s.active[id].key, s.active[id].isBuy, id)
  }

  // ---------------------------------------------------------------- the steps that break it

  /** The slot records an order still tracked for that instrument and leg. */
  predicate LiveRecord(s: State, key: InstrumentKey, leg: bool)
  {
    var held := Slot(s, key, leg);
    held.Some? && Live(s, key, leg, held.value)
  }

  /** Recording `placed` overwrites a live record of `leg` other than its own. */
  predicate Overwrites(s: State, key: InstrumentKey, placed: Slots, leg: bool)
  {
    !placed.Empty() && LiveRecord(s, key, leg) && Slot(s, key, leg) != placed.Leg(leg)
  }

  /** The step takes the record of a live quote away. */
  ghost predicate Drops(s: State, a: Action)
    requires Enabled(s, a)
  {
    match a
    case ClearFilled(f) => LiveRecord(s, s.fills[f].key, s.fills[f].isBuy)
    case ClearLeg(t) => LiveRecord(s, s.threads[t].key, s.threads[t].isBuy)
    case DropEntry(t) => LiveRecord(s, s.threads[t].key, true) || LiveRecord(s, s.threads[t].key, false)
    case WipeIndex => exists key, leg :: LiveRecord(s, key, leg)
    case RecordIndex(t) =>
      var pc := s.threads[t];
      Overwrites(s, pc.key, Slots(pc.bid, pc.ask), true) || Overwrites(s, pc.key, Slots(pc.bid, pc.ask), false)
    case _ => false
  }

  // ---------------------------------------------------------------- what is being placed is not recorded

  /** The ids a requote has placed and not yet recorded. */
  predicate Mine(pc: Pc, id: OrderId)
  {
    match pc
    case BidPlaced(_, bid, _) => bid == id
    case BidDone(_, bid) => bid == Some(id)
    case AskPlaced(_, bid, ask, _) => bid == Some(id) || ask == id
    case AskDone(_, bid, ask) => bid == Some(id) || ask == Some(id)
    case _ => false
  }

  ghost predicate MineAt(s: State, t: Thread, id: OrderId) { t in s.threads && Mine(s.threads[t], id) }

  /** Each id is placed by at most one requote, and recorded only after that requote is done. */
  ghost predicate Apart(s: State)
  {
    && (forall t: Thread, id: OrderId :: MineAt(s, t, id) ==> id < s.nextId)
    && (forall t: Thread, u: Thread, id: OrderId :: MineAt(s, t, id) && MineAt(s, u, id) ==> t == u)
    && (forall key, leg :: Slot(s, key, leg).Some? ==> Slot(s, key, leg).value < s.nextId)
    && (forall t: Thread, id: OrderId, key, leg :: MineAt(s, t, id) ==> Slot(s, key, leg) != Some(id))
  }

  /** A step of thread `t` keeps ids apart if it places only fresh ids and records nothing. */
  lemma Settled(s: State, s': State, t: Thread)
    requires Apart(s) && SameElsewhere(s, s', t) && s.nextId <= s'.nextId
    requires forall id: OrderId :: MineAt(s', t, id) ==> MineAt(s, t, id) || s.nextId <= id < s'.nextId
    requires forall key, leg :: Slot(s', key, leg) == None || Slot(s', key, leg) == Slot(s, key, leg)
    ensures Apart(s')
  {
    hide Mine, Slot;
    assert forall u: Thread, id: OrderId :: u != t ==> (MineAt(s', u, id) <==> MineAt(s, u, id));
  }

  lemma RecordApart(s: State, t: Thread)
    requires Apart(s) && Enabled(s, RecordIndex(t))
    ensures Apart(Next(s, RecordIndex(t)))
  {
    var s', pc := Next(s, RecordIndex(t)), s.threads[t];
    assert forall u: Thread, id: OrderId :: MineAt(s', u, id) <==> u != t && MineAt(s, u, id);
    forall key, leg | Slot(s', key, leg) != Slot(s, key, leg)
      ensures Slot(s', key, leg).Some? ==> MineAt(s, t, Slot(s', key, leg).value)
    {
    }
    hide Mine;
  }

  lemma StepApart(s: State, a: Action)
    requires Apart(s) && Enabled(s, a)
    ensures Apart(Next(s, a))
  {
    var s' := Next(s, a);
    if a.RecordIndex? {
      RecordApart(s, a.t);
    } else if a.WipeIndex? || a.Match? || a.Gate? || a.Report? || a.ClearFilled? {
      FillApart(s, a);
    } else {
      RequoteApart(s, a);
    }
  }

  lemma FillApart(s: State, a: Action)
    requires Apart(s) && Enabled(s, a) && (a.WipeIndex? || a.Match? || a.Gate? || a.Report? || a.ClearFilled?)
    ensures Apart(Next(s, a))
  {
    var nobody: Thread := if s.threads == map[] then 0 else var t :| t in s.threads; t;
    Settled(s, Next(s, a), nobody);
  }

  lemma RequoteApart(s: State, a: Action)
    requires Apart(s) && Enabled(s, a) && !a.RecordIndex?
    requires !a.WipeIndex? && !a.Match? && !a.Gate? && !a.Report? && !a.ClearFilled?
    ensures Apart(Next(s, a))
  {
    Settled(s, Next(s, a), a.t);
  }

  // ---------------------------------------------------------------- every step, both ways

  /** No step but a dropping one loses a place, and what it drops has no other place. */
  lemma StepClaimIff(s: State, a: Action)
    requires Apart(s) && Claim(s) && Enabled(s, a)
    ensures Claim(Next(s, a)) <==> !Drops(s, a)
  {
    if Drops(s, a) {
      DropLoses(s, a);
    } else {
      NoDropKeeps(s, a);
    }
  }

  lemma LostRecord(s: State, s': State, key: InstrumentKey, leg: bool)
    requires Apart(s) && LiveRecord(s, key, leg) && s'.active == s.active
    requires Slot(s', key, leg) != Slot(s, key, leg)
    requires forall t :: t in s'.threads ==> t in s.threads && (s'.threads[t] == s.threads[t] || s'.threads[t].SlotCleared?  || s'.threads[t].Cleared?)
    ensures !Claim(s')
  {
    var id := Slot(s, key, leg).value;
    forall t | t in s'.threads ensures !Carries(s'.threads[t], key, leg, id) {
      assert !MineAt(s, t, id);
    }
    assert !InPlace(s', key, leg, id);
  }

  lemma DropLoses(s: State, a: Action)
    requires Apart(s) && Enabled(s, a) && Drops(s, a)
    ensures !Claim(Next(s, a))
  {
    hide Apart, Claim, LiveRecord;
    var s' := Next(s, a);
    match a
    case ClearFilled(f) => HeldSlot(s, s.fills[f].key, s.fills[f].isBuy); LostRecord(s, s', s.fills[f].key, s.fills[f].isBuy);
    case ClearLeg(t) => HeldSlot(s, s.threads[t].key, s.threads[t].isBuy); LostRecord(s, s', s.threads[t].key, s.threads[t].isBuy);
    case DropEntry(t) =>
      var leg := LiveRecord(s, s.threads[t].key, true);
      HeldSlot(s, s.threads[t].key, leg);
      LostRecord(s, s', s.threads[t].key, leg);
    case WipeIndex =>
      var key, leg :| LiveRecord(s, key, leg);
      HeldSlot(s, key, leg);
      LostRecord(s, s', key, leg);
    case RecordIndex(t) =>
      var pc := s.threads[t];
      LostRecord(s, s', pc.key, Overwrites(s, pc.key, Slots(pc.bid, pc.ask), true));
  }

  lemma HeldSlot(s: State, key: InstrumentKey, leg: bool)
    requires LiveRecord(s, key, leg)
    ensures Slot(s, key, leg).Some?
  {
  }

  /** Carrying requotes other than `t` carry on. */
  lemma PlaceKept(s: State, s': State, t: Thread, key: InstrumentKey, leg: bool, id: OrderId)
    requires InPlace(s, key, leg, id) && SameElsewhere(s, s', t)
    requires Slot(s, key, leg) == Some(id) ==> Slot(s', key, leg) == Some(id)
    requires t in s.threads && Carries(s.threads[t], key, leg, id) ==>
               Slot(s', key, leg) == Some(id) || (t in s'.threads && Carries(s'.threads[t], key, leg, id))
    ensures InPlace(s', key, leg, id)
  {
    if Slot(s, key, leg) != Some(id) {
      var u :| u in s.threads && Carries(s.threads[u], key, leg, id);
      if u != t { assert u in s'.threads && Carries(s'.threads[u], key, leg, id); }
    }
  }

  lemma NoDropKeeps(s: State, a: Action)
    requires Claim(s) && Enabled(s, a) && !Drops(s, a)
    ensures Claim(Next(s, a))
  {
    hide Claim;
    match a
    case TrackBid(t) => TrackKeeps(s, t, true);
    case TrackAsk(t) => TrackKeeps(s, t, false);
    case WipeIndex => FillKeeps(s, a);
    case Match(_, _, _) => FillKeeps(s, a);
    case Gate(_) => FillKeeps(s, a);
    case Report(_) => FillKeeps(s, a);
    case ClearFilled(_) => FillKeeps(s, a);
    case _ => RequoteKeeps(s, a);
  }

  lemma TrackKeeps(s: State, t: Thread, leg: bool)
    requires Claim(s) && Enabled(s, if leg then TrackBid(t) else TrackAsk(t))
    ensures Claim(Next(s, if leg then TrackBid(t) else TrackAsk(t)))
  {
    var s' := Next(s, if leg then TrackBid(t) else TrackAsk(t));
    var key, placed := s.threads[t].key, s.threads[t].id;
    assert t in s'.threads && Carries(s'.threads[t], key, leg, placed);
    forall id | id in s'.active && id != placed ensures InPlace(s', s'.active[id].key, s'.active[id].isBuy, id) {
      PlaceKept(s, s', t, s.active[id].key, s.active[id].isBuy, id);
    }
  }

  lemma FillKeeps(s: State, a: Action)
    requires Claim(s) && Enabled(s, a) && !Drops(s, a) && (a.WipeIndex? || a.Match? || a.Gate? || a.Report? || a.ClearFilled?)
    ensures Claim(Next(s, a))
  {
    hide InPlace;
    var s' := Next(s, a);
    forall id | id in s'.active ensures InPlace(s', s'.active[id].key, s'.active[id].isBuy, id) {
      var key, leg := s.active[id].key, s.active[id].isBuy;
      assert InPlace(s, key, leg, id);
      if Slot(s, key, leg) == Some(id) { SlotKept(s, a, key, leg, id); }
      PlaceHeld(s, s', key, leg, id);
    }
  }

  lemma PlaceHeld(s: State, s': State, key: InstrumentKey, leg: bool, id: OrderId)
    requires InPlace(s, key, leg, id) && s'.threads == s.threads
    requires Slot(s, key, leg) == Some(id) ==> Slot(s', key, leg) == Some(id)
    ensures InPlace(s', key, leg, id)
  {
  }

  /** A step that drops nothing leaves the record of a tracked order in its slot. */
  lemma SlotKept(s: State, a: Action, key: InstrumentKey, leg: bool, id: OrderId)
    requires Enabled(s, a) && !Drops(s, a) && Live(s, key, leg, id) && Slot(s, key, leg) == Some(id)
    ensures Slot(Next(s, a), key, leg) == Some(id)
  {
    assert LiveRecord(s, key, leg);
  }

  lemma RequoteKeeps(s: State, a: Action)
    requires Claim(s) && Enabled(s, a) && !Drops(s, a) && !a.TrackBid? && !a.TrackAsk?
    requires !a.WipeIndex? && !a.Match? && !a.Gate? && !a.Report? && !a.ClearFilled?
    ensures Claim(Next(s, a))
  {
    hide InPlace;
    var s' := Next(s, a);
    forall id | id in s'.active ensures InPlace(s', s'.active[id].key, s'.active[id].isBuy, id) {
      var key, leg := s.active[id].key, s.active[id].isBuy;
      assert InPlace(s, key, leg, id);
      if Slot(s, key, leg) == Some(id) { SlotKept(s, a, key, leg, id); }
      PlaceKept(s, s', a.t, key, leg, id);
    }
  }

  // ---------------------------------------------------------------- whole runs

  /** The claim holds in every state of the run. */
  ghost predicate ClaimThroughout(actions: seq<Action>)
    requires Runs(actions)
  {
    Claim(After(actions)) && (actions != [] ==> ClaimThroughout(actions[..|actions| - 1]))
  }

  ghost predicate NeverDrops(actions: seq<Action>)
    requires Runs(actions)
  {
    actions != [] ==>
      var before := actions[..|actions| - 1];
      NeverDrops(before) && !Drops(After(before), actions[|actions| - 1])
  }

  lemma {:induction false} RunApart(actions: seq<Action>)
    requires Runs(actions)
    ensures Apart(After(actions))
    decreases |actions|
  {
    if actions != [] {
      RunApart(actions[..|actions| - 1]);
      StepApart(After(actions[..|actions| - 1]), actions[|actions| - 1]);
    }
  }

  /** The documented claim holds throughout a run if and only if no step takes away the record of a live quote. */
  lemma {:induction false} ClaimHoldsIff(actions: seq<Action>)
    requires Runs(actions)
    ensures ClaimThroughout(actions) <==> NeverDrops(actions)
    decreases |actions|
  {
    if actions != [] {
      hide Claim, Apart, Drops, Next;
      var before := actions[..|actions| - 1];
      ClaimHoldsIff(before);
      RunApart(before);
      if ClaimThroughout(before) {
        StepClaimIff(After(before), actions[|actions| - 1]);
      }
    }
  }

  // ---------------------------------------------------------------- two runs that lose a quote

  lemma Extend(run: seq<Action>, a: Action) returns (longer: seq<Action>)
    requires Runs(run) && Enabled(After(run), a)
    ensures longer == run + [a] && Runs(longer) && After(longer) == Next(After(run), a)
  {
    longer := run + [a];
    assert longer[..|run|] == run;
  }

  /** A requote alone, up to dropping what it found in the index (no ask leg). */
  lemma ClearAlone(run: seq<Action>, t: Thread, key: InstrumentKey) returns (longer: seq<Action>)
    requires Runs(run) && t !in After(run).threads && SlotsOf(After(run).index, key).ask == None
    requires key in After(run).index ==> !After(run).index[key].Empty()
    ensures Runs(longer)
    ensures var s := After(run);
            var stale := Ids(SlotsOf(s.index, key).bid);
            After(longer) == s.(active := s.active - stale, index := s.index - {key}, book := s.book - stale,
                                threads := s.threads[t := Cleared(key)])
  {
    hide Exec;
    var s := After(run);
    var slots := SlotsOf(s.index, key);
    longer := Extend(run, ReadStale(t, key));
    if slots.bid.Some? {
      longer := CancelAlone(longer, t);
      longer := Extend(longer, Prune(t));
      assert After(longer).active == s.active - Ids(slots.bid);
      longer := Extend(longer, DropEntry(t));
    } else {
      assert s.book - {} == s.book && s.active - {} == s.active && s.index - {key} == s.index;
    }
  }

  lemma CancelAlone(run: seq<Action>, t: Thread) returns (longer: seq<Action>)
    requires Runs(run) && t in After(run).threads && After(run).threads[t].Stale? && After(run).threads[t].slots.ask == None
    ensures Runs(longer)
    ensures var s := After(run);
            var pc := s.threads[t];
            After(longer) == At(s.(book := s.book - Ids(pc.slots.bid)), t, BothCancelled(pc.key, pc.slots))
  {
    hide Exec;
    var s := After(run);
    longer := Extend(run, CancelBid(t));
    longer := Extend(longer, CancelAsk(t));
    assert After(longer).book == s.book - Ids(s.threads[t].slots.bid);
  }

  /** ... and from there, placing only a bid of `size`. */
  lemma BidAlone(run: seq<Action>, t: Thread, key: InstrumentKey, size: nat) returns (longer: seq<Action>)
    requires Runs(run) && t in After(run).threads && After(run).threads[t] == Cleared(key) && 0 < size
    ensures Runs(longer) && longer == run + [PlaceBid(t, size, size), TrackBid(t), RefuseAsk(t), RecordIndex(t)]
    ensures var s := After(run);
            After(longer) == s.(active := s.active[s.nextId := Order(key, true, size)],
                                index := s.index[key := Slots(Some(s.nextId), None)],
                                book := s.book[s.nextId := size],
                                nextId := s.nextId + 1, threads := s.threads - {t})
  {
    hide Exec;
    var s := After(run);
    longer := Extend(run, PlaceBid(t, size, size));
    assert After(longer) == At(Rest(s, size), t, BidPlaced(key, s.nextId, size));
    longer := Extend(longer, TrackBid(t));
    longer := Extend(longer, RefuseAsk(t));
    assert After(longer).threads == s.threads[t := AskDone(key, Some(s.nextId), None)];
    longer := Extend(longer, RecordIndex(t));
  }

  /**
   An interleaving after which everything is quiet and a bid rests and is tracked, but no slot
   records it: its next requote will place a second bid instead of replacing it.
   */
  lemma IndexCanLoseALiveQuote(key: InstrumentKey) returns (run: seq<Action>, lost: OrderId)
    ensures Runs(run)
    ensures var s := After(run);
            Quiet(s) && lost in s.book && lost in s.active && s.active[lost].key == key && key !in s.index && !Claim(s)
  {
    run := QuoteThenFill(key);
    hide Exec;
    var s := After(run);
    run := ClearAlone(run, 0, key);
    assert After(run) == State(map[], map[], map[], s.fills, map[0 := Cleared(key)], 1, 1);
    run := BidAlone(run, 0, key, 5);
    assert After(run) == State(map[1 := Order(key, true, 5)], map[key := Slots(Some(1), None)], map[1 := 5], s.fills, map[], 2, 1);
    run := Extend(run, ClearFilled(0));
    lost := 1;
    assert After(run) == State(map[1 := Order(key, true, 5)], map[], map[1 := 5], map[], map[], 2, 1);
  }

  /** A bid is quoted, wholly filled, and its notification is about to clear the slot. */
  lemma QuoteThenFill(key: InstrumentKey) returns (run: seq<Action>)
    ensures Runs(run)
    ensures After(run) == State(map[], map[key := Slots(Some(0), None)], map[], map[0 := Clearing(key, true)], map[], 1, 1)
  {
    run := ClearAlone([], 0, key);
    hide Exec;
    assert After(run) == State(map[], map[], map[], map[], map[0 := Cleared(key)], 0, 0);
    run := BidAlone(run, 0, key, 5);
    assert After(run) == State(map[0 := Order(key, true, 5)], map[key := Slots(Some(0), None)], map[0 := 5], map[], map[], 1, 0);
    run := Extend(run, Match(0, 5, true));
    run := Extend(run, Gate(0));
    assert After(run) == State(map[0 := Order(key, true, 5)], map[key := Slots(Some(0), None)], map[], map[0 := Gated(0, 5)], map[], 1, 1);
    run := Extend(run, Report(0));
  }

  /** Whether a step can only add records: nothing clears a leg, drops an entry or wipes the index. */
  predicate OnlyRecords(a: Action) { !a.ClearFilled? && !a.ClearLeg? && !a.DropEntry? && !a.WipeIndex? }

  /**
   Two requotes of one instrument that both read an empty entry: the second record overwrites
   the first, and the first bid rests and is tracked with no slot naming it.
   */
  lemma TwoRequotesLoseOne(key: InstrumentKey) returns (run: seq<Action>, lost: OrderId)
    ensures Runs(run) && forall a :: a in run ==> OnlyRecords(a)
    ensures var s := After(run);
            Quiet(s) && lost in s.book && lost in s.active && s.active[lost].key == key && !Claim(s)
  {
    run := [];
    hide Exec;
    run := BothRead(key);
    run := BidFor(run, 0, key);
    assert After(run) == State(map[0 := Order(key, true, 5)], map[key := Slots(Some(0), None)], map[0 := 5], map[], map[1 := Cleared(key)], 1, 0);
    run := BidFor(run, 1, key);
    assert After(run) == State(map[0 := Order(key, true, 5), 1 := Order(key, true, 5)], map[key := Slots(Some(1), None)],
                               map[0 := 5, 1 := 5], map[], map[], 2, 0);
    lost := 0;
    assert !InPlace(After(run), key, true, lost);
  }

  lemma BothRead(key: InstrumentKey) returns (run: seq<Action>)
    ensures Runs(run) && (forall a :: a in run ==> OnlyRecords(a))
    ensures After(run) == State(map[], map[], map[], map[], map[0 := Cleared(key), 1 := Cleared(key)], 0, 0)
  {
    run := Extend([], ReadStale(0, key));
    run := Extend(run, ReadStale(1, key));
  }

  lemma BidFor(run: seq<Action>, t: Thread, key: InstrumentKey) returns (longer: seq<Action>)
    requires Runs(run) && t in After(run).threads && After(run).threads[t] == Cleared(key)
    requires forall a :: a in run ==> OnlyRecords(a)
    ensures Runs(longer) && forall a :: a in longer ==> OnlyRecords(a)
    ensures var s := After(run);
            After(longer) == s.(active := s.active[s.nextId := Order(key, true, 5)],
                                index := s.index[key := Slots(Some(s.nextId), None)],
                                book := s.book[s.nextId := 5], nextId := s.nextId + 1, threads := s.threads - {t})
  {
    longer := BidAlone(run, t, key, 5);
  }

  // ---------------------------------------------------------------- ids recorded but not tracked

  /**
   The other half of the documented claim is that a recorded id is tracked, or dangles because of
   a concurrent full fill. A cancel between tracking and recording leaves one dangling with nothing
   under way and no fill at all.
   */
  lemma CancelLeavesDangling(key: InstrumentKey) returns (run: seq<Action>, id: OrderId)
    ensures Runs(run) && forall a :: a in run ==> !a.Match? && !a.Gate? && !a.Report? && !a.ClearFilled?
    ensures var s := After(run); Quiet(s) && Slot(s, key, true) == Some(id) && id !in s.active && id !in s.book
  {
    id := 0;
    run := CancelMidRequote(key);
    hide Exec;
    run := Extend(run, RefuseAsk(0));
    assert After(run) == State(map[], map[], map[], map[], map[0 := AskDone(key, Some(0), None)], 1, 0);
    run := Extend(run, RecordIndex(0));
    assert After(run) == State(map[], map[key := Slots(Some(0), None)], map[], map[], map[], 1, 0);
  }

  lemma CancelMidRequote(key: InstrumentKey) returns (run: seq<Action>)
    ensures run == [ReadStale(0, key), PlaceBid(0, 5, 5), TrackBid(0), Untrack(1, 0), ClearLeg(1), CancelRemoved(1)] && Runs(run)
    ensures After(run) == State(map[], map[], map[], map[], map[0 := BidDone(key, Some(0))], 1, 0)
  {
    run := TrackedBid(key);
    hide Exec;
    run := Extend(run, Untrack(1, 0));
    assert After(run) == State(map[], map[], map[0 := 5], map[], map[0 := BidDone(key, Some(0)), 1 := Removed(0, key, true)], 1, 0);
    run := Extend(run, ClearLeg(1));
    assert After(run) == State(map[], map[], map[0 := 5], map[], map[0 := BidDone(key, Some(0)), 1 := SlotCleared(0)], 1, 0);
    run := Extend(run, CancelRemoved(1));
  }

  lemma TrackedBid(key: InstrumentKey) returns (run: seq<Action>)
    ensures run == [ReadStale(0, key), PlaceBid(0, 5, 5), TrackBid(0)] && Runs(run)
    ensures After(run) == State(map[0 := Order(key, true, 5)], map[], map[0 := 5], map[], map[0 := BidDone(key, Some(0))], 1, 0)
  {
    run := Extend([], ReadStale(0, key));
    hide Exec;
    assert After(run) == State(map[], map[], map[], map[], map[0 := Cleared(key)], 0, 0);
    run := Extend(run, PlaceBid(0, 5, 5));
    assert After(run) == State(map[], map[], map[0 := 5], map[], map[0 := BidPlaced(key, 0, 5)], 1, 0);
    run := Extend(run, TrackBid(0));
  }

  /**
   Dangling is harmless: in every reachable state a recorded id that is not tracked rests only
   while a canceling thread is about to take it off the book.
   */
  lemma DanglingIsHarmless(actions: seq<Action>, key: InstrumentKey, leg: bool, id: OrderId)
    requires Runs(actions) && Slot(After(actions), key, leg) == Some(id) && id !in After(actions).active
    ensures var s := After(actions);
            && (id in s.book ==>
                  exists t :: t in s.threads && (s.threads[t].Removed? || s.threads[t].SlotCleared?) && s.threads[t].id == id)
            && (Quiet(s) ==> id !in s.book)
  {
    var s := After(actions);
    if id in s.book {
      RestingOrdersAreOwned(actions, id);
      RunApart(actions);
      var t :| t in s.threads && Holds(s.threads[t], id);
      assert !MineAt(s, t, id);
    }
  }
}
