/**
 The market maker under concurrency: one step per lock section or book call of requotes,
 cancels and fill notifications, interleaved freely (src/market_maker/engine.rs).
 The maps are never locked together, so between two steps of one thread any other may run.
 */
module MakerSteps {
  import opened Machine
  import opened Sums
  import opened Instruments

  type Thread = nat
  type FillId = nat

  datatype Order = Order(key: InstrumentKey, isBuy: bool, quantity: nat)

  /** Where a requote or a cancel stands: named for what it has done. */
  datatype Pc =
    | Stale(key: InstrumentKey, slots: Slots)          // read the index
    | BidCancelled(key: InstrumentKey, slots: Slots)   // cancelled the stale bid on the book
    | BothCancelled(key: InstrumentKey, slots: Slots)  // and the stale ask
    | Pruned(key: InstrumentKey)                       // dropped both from the active orders
    | Cleared(key: InstrumentKey)                      // dropped the index entry
    | BidPlaced(key: InstrumentKey, id: OrderId, size: nat)
    | BidDone(key: InstrumentKey, bid: Option<OrderId>)
    | AskPlaced(key: InstrumentKey, bid: Option<OrderId>, id: OrderId, size: nat)
    | AskDone(key: InstrumentKey, bid: Option<OrderId>, ask: Option<OrderId>)
    | Removed(id: OrderId, key: InstrumentKey, isBuy: bool)  // cancel: dropped from the active orders
    | SlotCleared(id: OrderId)                               // cancel: and its index slot

  /** One execution against a maker order, from the match to the end of its only notification. */
  datatype Fill =
    | Executed(id: OrderId, quantity: nat)
    | Gated(id: OrderId, quantity: nat)            // passed the read gate
    | Clearing(key: InstrumentKey, isBuy: bool)    // removed a filled order, its slot still set

  /** `book` holds the resting quantity of each maker order resting on any book. */
  datatype State = State(
    active: map<OrderId, Order>,
    index: Index,
    book: map<OrderId, nat>,
    fills: map<FillId, Fill>,
    threads: map<Thread, Pc>,
    nextId: OrderId,
    nextFill: FillId)

  const START := State(map[], map[], map[], map[], map[], 0, 0)

  datatype Action =
    | ReadStale(t: Thread, key: InstrumentKey)
    | CancelBid(t: Thread)
    | CancelAsk(t: Thread)
    | Prune(t: Thread)
    | DropEntry(t: Thread)
    | PlaceBid(t: Thread, size: nat, rests: nat)
    | RefuseBid(t: Thread)
    | TrackBid(t: Thread)
    | PlaceAsk(t: Thread, size: nat, rests: nat)
    | RefuseAsk(t: Thread)
    | TrackAsk(t: Thread)
    | RecordIndex(t: Thread)
    | Untrack(t: Thread, id: OrderId)
    | ClearLeg(t: Thread)
    | CancelRemoved(t: Thread)
    | WipeIndex
    | Match(id: OrderId, quantity: nat, notified: bool)
    | Gate(f: FillId)
    | Report(f: FillId)
    | ClearFilled(f: FillId)

  function Ids(o: Option<OrderId>): set<OrderId> { if o.Some? then {o.value} else {} }

  predicate Enabled(s: State, a: Action)
  {
    match a
    case ReadStale(t, _) => t !in s.threads
    case CancelBid(t) => t in s.threads && s.threads[t].Stale?
    case CancelAsk(t) => t in s.threads && s.threads[t].BidCancelled?
    case Prune(t) => t in s.threads && s.threads[t].BothCancelled?
    case DropEntry(t) => t in s.threads && s.threads[t].Pruned?
    case PlaceBid(t, size, rests) => t in s.threads && s.threads[t].Cleared? && rests <= size
    case RefuseBid(t) => t in s.threads && s.threads[t].Cleared?
    case TrackBid(t) => t in s.threads && s.threads[t].BidPlaced?
    case PlaceAsk(t, size, rests) => t in s.threads && s.threads[t].BidDone? && rests <= size
    case RefuseAsk(t) => t in s.threads && s.threads[t].BidDone?
    case TrackAsk(t) => t in s.threads && s.threads[t].AskPlaced?
    case RecordIndex(t) => t in s.threads && s.threads[t].AskDone?
    case Untrack(t, id) => t !in s.threads && id in s.active
    case ClearLeg(t) => t in s.threads && s.threads[t].Removed?
    case CancelRemoved(t) => t in s.threads && s.threads[t].SlotCleared?
    case WipeIndex => true
    case Match(id, q, _) => id in s.book && 0 < q <= s.book[id]
    case Gate(f) => f in s.fills && s.fills[f].Executed?
    case Report(f) => f in s.fills && s.fills[f].Gated?
    case ClearFilled(f) => f in s.fills && s.fills[f].Clearing?
  }

  function At(s: State, t: Thread, pc: Pc): State { s.(threads := s.threads[t := pc]) }

  function Rest(s: State, rests: nat): State
  {
    s.(book := if rests > 0 then s.book[s.nextId := rests] else s.book, nextId := s.nextId + 1)
  }

  function Next(s: State, a: Action): State
    requires Enabled(s, a)
  {
    match a
    case ReadStale(t, key) =>
      var slots := SlotsOf(s.index, key);
      At(s, t, if slots.Empty() then Cleared(key) else Stale(key, slots))
    case CancelBid(t) =>
      var pc := s.threads[t];
      At(s.(book := s.book - Ids(pc.slots.bid)), t, BidCancelled(pc.key, pc.slots))
    case CancelAsk(t) =>
      var pc := s.threads[t];
      At(s.(book := s.book - Ids(pc.slots.ask)), t, BothCancelled(pc.key, pc.slots))
    case Prune(t) =>
      var pc := s.threads[t];
      At(s.(active := s.active - (Ids(pc.slots.bid) + Ids(pc.slots.ask))), t, Pruned(pc.key))
    case DropEntry(t) =>
      var key := s.threads[t].key;
      At(s.(index := s.index - {key}), t, Cleared(key))
    case PlaceBid(t, size, rests) => At(Rest(s, rests), t, BidPlaced(s.threads[t].key, s.nextId, size))
    case RefuseBid(t) => At(s, t, BidDone(s.threads[t].key, None))
    case TrackBid(t) =>
      var pc := s.threads[t];
      At(s.(active := s.active[pc.id := Order(pc.key, true, pc.size)]), t, BidDone(pc.key, Some(pc.id)))
    case PlaceAsk(t, size, rests) => At(Rest(s, rests), t, AskPlaced(s.threads[t].key, s.threads[t].bid, s.nextId, size))
    case RefuseAsk(t) => At(s, t, AskDone(s.threads[t].key, s.threads[t].bid, None))
    case TrackAsk(t) =>
      var pc := s.threads[t];
      At(s.(active := s.active[pc.id := Order(pc.key, false, pc.size)]), t, AskDone(pc.key, pc.bid, Some(pc.id)))
    case RecordIndex(t) =>
      var pc := s.threads[t];
      var placed := Slots(pc.bid, pc.ask);
      s.(index := if placed.Empty() then s.index else s.index[pc.key := placed], threads := s.threads - {t})
    case Untrack(t, id) =>
      At(s.(active := s.active - {id}), t, Removed(id, s.active[id].key, s.active[id].isBuy))
    case ClearLeg(t) =>
      var pc := s.threads[t];
      At(s.(index := ClearSlot(s.index, pc.key, pc.isBuy)), t, SlotCleared(pc.id))
    case CancelRemoved(t) => s.(book := s.book - {s.threads[t].id}, threads := s.threads - {t})
    case WipeIndex => s.(index := map[])
    case Match(id, q, notified) =>
      var hit := s.(book := if q == s.book[id] then s.book - {id} else s.book[id := s.book[id] - q]);
      if notified then hit.(fills := s.fills[s.nextFill := Executed(id, q)], nextFill := s.nextFill + 1) else hit
    case Gate(f) =>
      var fill := s.fills[f];
      s.(fills := if fill.id in s.active then s.fills[f := Gated(fill.id, fill.quantity)] else s.fills - {f})
    case Report(f) =>
      var Gated(id, q) := s.fills[f];
      if id !in s.active then s.(fills := s.fills - {f})
      else if q >= s.active[id].quantity then
        s.(active := s.active - {id}, fills := s.fills[f := Clearing(s.active[id].key, s.active[id].isBuy)])
      else
        s.(active := s.active[id := s.active[id].(quantity := s.active[id].quantity - q)], fills := s.fills - {f})
    case ClearFilled(f) =>
      var fill := s.fills[f];
      s.(index := ClearSlot(s.index, fill.key, fill.isBuy), fills := s.fills - {f})
  }

  // ---------------------------------------------------------------- the invariant

  predicate Pending(fill: Fill, id: OrderId) { !fill.Clearing? && fill.id == id }

  /** Executed but not yet reported quantities of `id`, by fill. */
  ghost function PendingOf(fills: map<FillId, Fill>, id: OrderId): map<FillId, int>
  {
    map f | f in fills && Pending(fills[f], id) :: fills[f].quantity
  }

  ghost function Resting(s: State, id: OrderId): nat { if id in s.book then s.book[id] else 0 }

  /** Resting plus executed-but-unreported quantity. */
  ghost function Exposure(s: State, id: OrderId): int { Resting(s, id) + MapSum<FillId>(PendingOf(s.fills, id)) }

  /** A thread has placed `id` and is about to track it, or untracked it and is about to cancel it. */
  predicate Holds(pc: Pc, id: OrderId)
  {
    (pc.BidPlaced? || pc.AskPlaced? || pc.Removed? || pc.SlotCleared?) && pc.id == id
  }

  ghost predicate Owned(s: State, id: OrderId)
  {
    id in s.active || exists t :: t in s.threads && Holds(s.threads[t], id)
  }

  ghost predicate BookOwned(s: State) { forall id :: id in s.book ==> s.book[id] > 0 && id < s.nextId && Owned(s, id) }

  ghost predicate ActiveCovers(s: State)
  {
    forall id :: id in s.active ==> id < s.nextId && Exposure(s, id) <= s.active[id].quantity
  }

  predicate Issued(s: State, id: Option<OrderId>) { id.Some? ==> id.value < s.nextId }

  predicate Known(s: State, slots: Slots) { Issued(s, slots.bid) && Issued(s, slots.ask) }

  predicate Gone(s: State, id: Option<OrderId>) { id.Some? ==> id.value !in s.book }

  ghost predicate PcOk(s: State, pc: Pc)
  {
    match pc
    case Stale(_, slots) => Known(s, slots)
    case BidCancelled(_, slots) => Known(s, slots) && Gone(s, slots.bid)
    case BothCancelled(_, slots) => Known(s, slots) && Gone(s, slots.bid) && Gone(s, slots.ask)
    case Pruned(_) => true
    case Cleared(_) => true
    case BidPlaced(_, id, size) => id < s.nextId && Exposure(s, id) <= size
    case BidDone(_, bid) => Issued(s, bid)
    case AskPlaced(_, bid, id, size) => Issued(s, bid) && id < s.nextId && Exposure(s, id) <= size
    case AskDone(_, bid, ask) => Known(s, Slots(bid, ask))
    case Removed(id, _, _) => true
    case SlotCleared(id) => true
  }

  ghost predicate FillsOk(s: State)
  {
    forall f :: f in s.fills ==> f < s.nextFill && (!s.fills[f].Clearing? ==> s.fills[f].id < s.nextId)
  }

  ghost predicate ThreadsOk(s: State) { forall t :: t in s.threads ==> PcOk(s, s.threads[t]) }

  predicate IndexKnown(s: State) { forall key :: key in s.index ==> Known(s, s.index[key]) }

  ghost predicate Inv(s: State)
  {
    BookOwned(s) && ActiveCovers(s) && FillsOk(s) && ThreadsOk(s) && IndexKnown(s)
  }

  // ---------------------------------------------------------------- how exposure moves

  lemma PendingInsert(fills: map<FillId, Fill>, f: FillId, id: OrderId, q: nat, other: OrderId)
    requires f !in fills
    ensures MapSum<FillId>(PendingOf(fills[f := Executed(id, q)], other)) ==
            MapSum<FillId>(PendingOf(fills, other)) + if other == id then q else 0
  {
    var before, after := PendingOf(fills, other), PendingOf(fills[f := Executed(id, q)], other);
    if other == id {
      assert after == before[f := q];
      SumUpdate<FillId>(before, f, q);
    } else {
      assert after == before;
    }
  }

  /** Taking fill `f` out of the pending ones, or keeping its quantity pending under another stage. */
  lemma PendingReplace(fills: map<FillId, Fill>, after: map<FillId, Fill>, f: FillId, other: OrderId)
    requires f in fills && !fills[f].Clearing? && (forall g :: g != f ==> (g in fills <==> g in after))
    requires forall g :: g in fills && g != f ==> after[g] == fills[g]
    ensures f in after && Pending(after[f], fills[f].id) && after[f].quantity == fills[f].quantity ==>
              MapSum<FillId>(PendingOf(after, other)) == MapSum<FillId>(PendingOf(fills, other))
    ensures f !in after || after[f].Clearing? ==>
              MapSum<FillId>(PendingOf(after, other)) ==
              MapSum<FillId>(PendingOf(fills, other)) - if other == fills[f].id then fills[f].quantity else 0
    ensures other == fills[f].id ==> fills[f].quantity <= MapSum<FillId>(PendingOf(fills, other))
  {
    var was, now := PendingOf(fills, other), PendingOf(after, other);
    SumNonNegative<FillId>(was);
    if other == fills[f].id {
      assert f in was;
      SumRemove<FillId>(was, f);
      if f !in after || after[f].Clearing? {
        assert now == was - {f};
      } else if Pending(after[f], fills[f].id) && after[f].quantity == fills[f].quantity {
        assert now == was;
      }
    } else if f !in after || after[f].Clearing? || Pending(after[f], fills[f].id) {
      assert now == was;
    }
  }

  // ---------------------------------------------------------------- every step keeps it

  ghost predicate SameElsewhere(s: State, s': State, t: Thread)
  {
    forall u :: u != t ==> (u in s.threads <==> u in s'.threads) && (u in s.threads ==> s'.threads[u] == s.threads[u])
  }

  ghost predicate HeldBy(s: State, t: Thread, id: OrderId) { t in s.threads && Holds(s.threads[t], id) }

  /** An order stays owned when thread `t` hands it over properly. */
  lemma OwnedKept(s: State, s': State, t: Thread, id: OrderId)
    requires Owned(s, id) && SameElsewhere(s, s', t)
    requires id in s.active ==> id in s'.active || HeldBy(s', t, id)
    requires HeldBy(s, t, id) ==> id in s'.active || HeldBy(s', t, id)
    ensures Owned(s', id)
  {
  }

  /** Known ids never start resting again and nothing gets more exposed. */
  ghost predicate Recedes(s: State, s': State)
  {
    && s.nextId <= s'.nextId
    && (forall id: OrderId :: id < s.nextId && id in s'.book ==> id in s.book)
    && (forall id: OrderId :: id < s.nextId ==> Exposure(s', id) <= Exposure(s, id))
  }

  lemma PcKept(s: State, s': State, pc: Pc)
    requires Recedes(s, s') && PcOk(s, pc)
    ensures PcOk(s', pc)
  {
  }

  lemma ThreadsKept(s: State, s': State, t: Thread)
    requires Recedes(s, s') && ThreadsOk(s) && SameElsewhere(s, s', t)
    requires t in s'.threads ==> PcOk(s', s'.threads[t])
    ensures ThreadsOk(s')
  {
  }

  lemma SameBookAndFills(s: State, s': State)
    requires s'.fills == s.fills && s.nextId <= s'.nextId
    requires forall id: OrderId :: id < s.nextId && id in s'.book ==> id in s.book && s'.book[id] <= s.book[id]
    ensures Recedes(s, s')
  {
  }

  /** Every resting order is still owned after a step of thread `t` that adds nothing to the book. */
  lemma BookKept(s: State, s': State, t: Thread)
    requires BookOwned(s) && SameElsewhere(s, s', t) && s'.nextId == s.nextId
    requires forall id :: id in s'.book ==> id in s.book && 0 < s'.book[id] <= s.book[id]
    requires forall id :: id in s'.book && id in s.active ==> id in s'.active || HeldBy(s', t, id)
    requires forall id :: id in s'.book && HeldBy(s, t, id) ==> id in s'.active || HeldBy(s', t, id)
    ensures BookOwned(s')
  {
  }

  /** A step of thread `t` that adds nothing to the book and touches no fill keeps the invariant if it hands over what it held. */
  lemma Settle(s: State, s': State, t: Thread)
    requires Inv(s) && SameElsewhere(s, s', t)
    requires s'.fills == s.fills && s'.nextId == s.nextId && s'.nextFill == s.nextFill
    requires forall id :: id in s'.book ==> id in s.book && s'.book[id] == s.book[id]
    requires forall id :: id in s'.book && (id in s.active || HeldBy(s, t, id)) ==> id in s'.active || HeldBy(s', t, id)
    requires forall id :: id in s'.active ==>
               id < s.nextId && (Exposure(s, id) <= s'.active[id].quantity || (id in s.active && s'.active[id] == s.active[id]))
    requires IndexKnown(s') && (t in s'.threads ==> PcOk(s', s'.threads[t]))
    ensures Inv(s')
  {
    hide Exposure;
    SameBookAndFills(s, s');
    BookKept(s, s', t);
    ThreadsKept(s, s', t);
  }

  lemma ReadStaleKeeps(s: State, t: Thread, key: InstrumentKey)
    requires Inv(s) && Enabled(s, ReadStale(t, key))
    ensures Inv(Next(s, ReadStale(t, key)))
  {
    hide Exposure;
    Settle(s, Next(s, ReadStale(t, key)), t);
  }

  lemma CancelBidKeeps(s: State, t: Thread)
    requires Inv(s) && Enabled(s, CancelBid(t))
    ensures Inv(Next(s, CancelBid(t)))
  {
    hide Exposure;
    assert PcOk(s, s.threads[t]);
    Settle(s, Next(s, CancelBid(t)), t);
  }

  lemma CancelAskKeeps(s: State, t: Thread)
    requires Inv(s) && Enabled(s, CancelAsk(t))
    ensures Inv(Next(s, CancelAsk(t)))
  {
    hide Exposure;
    assert PcOk(s, s.threads[t]);
    Settle(s, Next(s, CancelAsk(t)), t);
  }

  lemma PruneKeeps(s: State, t: Thread)
    requires Inv(s) && Enabled(s, Prune(t))
    ensures Inv(Next(s, Prune(t)))
  {
    hide Exposure;
    assert PcOk(s, s.threads[t]);
    Settle(s, Next(s, Prune(t)), t);
  }

  lemma DropEntryKeeps(s: State, t: Thread)
    requires Inv(s) && Enabled(s, DropEntry(t))
    ensures Inv(Next(s, DropEntry(t)))
  {
    hide Exposure;
    assert PcOk(s, s.threads[t]);
    Settle(s, Next(s, DropEntry(t)), t);
  }

  lemma RefuseBidKeeps(s: State, t: Thread)
    requires Inv(s) && Enabled(s, RefuseBid(t))
    ensures Inv(Next(s, RefuseBid(t)))
  {
    hide Exposure;
    assert PcOk(s, s.threads[t]);
    Settle(s, Next(s, RefuseBid(t)), t);
  }

  lemma RefuseAskKeeps(s: State, t: Thread)
    requires Inv(s) && Enabled(s, RefuseAsk(t))
    ensures Inv(Next(s, RefuseAsk(t)))
  {
    hide Exposure;
    assert PcOk(s, s.threads[t]);
    Settle(s, Next(s, RefuseAsk(t)), t);
  }

  lemma TrackBidKeeps(s: State, t: Thread)
    requires Inv(s) && Enabled(s, TrackBid(t))
    ensures Inv(Next(s, TrackBid(t)))
  {
    hide Exposure;
    assert PcOk(s, s.threads[t]);
    Settle(s, Next(s, TrackBid(t)), t);
  }

  lemma TrackAskKeeps(s: State, t: Thread)
    requires Inv(s) && Enabled(s, TrackAsk(t))
    ensures Inv(Next(s, TrackAsk(t)))
  {
    hide Exposure;
    assert PcOk(s, s.threads[t]);
    Settle(s, Next(s, TrackAsk(t)), t);
  }

  lemma RecordIndexKeeps(s: State, t: Thread)
    requires Inv(s) && Enabled(s, RecordIndex(t))
    ensures Inv(Next(s, RecordIndex(t)))
  {
    hide Exposure;
    assert PcOk(s, s.threads[t]);
    Settle(s, Next(s, RecordIndex(t)), t);
  }

  lemma UntrackKeeps(s: State, t: Thread, id: OrderId)
    requires Inv(s) && Enabled(s, Untrack(t, id))
    ensures Inv(Next(s, Untrack(t, id)))
  {
    hide Exposure;
    Settle(s, Next(s, Untrack(t, id)), t);
  }

  lemma ClearLegKeeps(s: State, t: Thread)
    requires Inv(s) && Enabled(s, ClearLeg(t))
    ensures Inv(Next(s, ClearLeg(t)))
  {
    hide Exposure;
    assert PcOk(s, s.threads[t]);
    Settle(s, Next(s, ClearLeg(t)), t);
  }

  lemma CancelRemovedKeeps(s: State, t: Thread)
    requires Inv(s) && Enabled(s, CancelRemoved(t))
    ensures Inv(Next(s, CancelRemoved(t)))
  {
    hide Exposure;
    assert PcOk(s, s.threads[t]);
    Settle(s, Next(s, CancelRemoved(t)), t);
  }

  lemma WipeKeeps(s: State)
    requires Inv(s)
    ensures Inv(Next(s, WipeIndex))
  {
    hide Exposure;
    var s' := Next(s, WipeIndex);
    SameBookAndFills(s, s');
    forall id | id in s'.book ensures Owned(s', id) { assert Owned(s, id); }
    forall t | t in s'.threads ensures PcOk(s', s'.threads[t]) { PcKept(s, s', s.threads[t]); }
  }

  lemma Fresh(s: State, rests: nat)
    requires Inv(s)
    ensures forall s': State :: s'.book == Rest(s, rests).book && s'.fills == s.fills ==> Exposure(s', s.nextId) == rests
  {
  }

  /** Thread `t` puts a fresh order on the book and holds it. */
  lemma Arrive(s: State, s': State, t: Thread, rests: nat)
    requires Inv(s) && SameElsewhere(s, s', t) && HeldBy(s', t, s.nextId)
    requires forall id :: !HeldBy(s, t, id)
    requires s'.book == Rest(s, rests).book && s'.nextId == s.nextId + 1
    requires s'.active == s.active && s'.index == s.index && s'.fills == s.fills && s'.nextFill == s.nextFill
    requires PcOk(s', s'.threads[t])
    ensures Inv(s')
  {
    hide Exposure;
    SameBookAndFills(s, s');
    ThreadsKept(s, s', t);
    forall id | id in s'.book ensures s'.book[id] > 0 && id < s'.nextId && Owned(s', id) {
      if id != s.nextId { OwnedKept(s, s', t, id); }
    }
  }

  lemma PlaceBidKeeps(s: State, t: Thread, size: nat, rests: nat)
    requires Inv(s) && Enabled(s, PlaceBid(t, size, rests))
    ensures Inv(Next(s, PlaceBid(t, size, rests)))
  {
    assert PcOk(s, s.threads[t]);
    Fresh(s, rests);
    hide Exposure;
    Arrive(s, Next(s, PlaceBid(t, size, rests)), t, rests);
  }

  lemma PlaceAskKeeps(s: State, t: Thread, size: nat, rests: nat)
    requires Inv(s) && Enabled(s, PlaceAsk(t, size, rests))
    ensures Inv(Next(s, PlaceAsk(t, size, rests)))
  {
    assert PcOk(s, s.threads[t]);
    Fresh(s, rests);
    hide Exposure;
    Arrive(s, Next(s, PlaceAsk(t, size, rests)), t, rests);
  }

  lemma MatchExposure(s: State, a: Action, id: OrderId)
    requires Inv(s) && Enabled(s, a) && a.Match?
    ensures Exposure(Next(s, a), id) <= Exposure(s, id)
  {
    if a.notified { PendingInsert(s.fills, s.nextFill, a.id, a.quantity, id); }
  }

  lemma MatchKeeps(s: State, a: Action)
    requires Inv(s) && Enabled(s, a) && a.Match?
    ensures Inv(Next(s, a))
  {
    hide Exposure;
    var s' := Next(s, a);
    forall id: OrderId ensures Exposure(s', id) <= Exposure(s, id) { MatchExposure(s, a, id); }
    forall id | id in s'.book ensures s'.book[id] > 0 && id < s'.nextId && Owned(s', id) { assert Owned(s, id); }
    forall t | t in s'.threads ensures PcOk(s', s'.threads[t]) { PcKept(s, s', s.threads[t]); }
  }

  predicate FillStep(a: Action) { a.Gate? || a.Report? || a.ClearFilled? }

  lemma FillExposure(s: State, a: Action, id: OrderId)
    requires Enabled(s, a) && FillStep(a)
    ensures var s' := Next(s, a);
            && Exposure(s', id) == Exposure(s, id) - (if a.Report? && id == s.fills[a.f].id then s.fills[a.f].quantity else 0)
               - (if a.Gate? && s.fills[a.f].id !in s.active && id == s.fills[a.f].id then s.fills[a.f].quantity else 0)
            && (!a.ClearFilled? && id == s.fills[a.f].id ==> Resting(s, id) + s.fills[a.f].quantity <= Exposure(s, id))
  {
    var s' := Next(s, a);
    if a.ClearFilled? {
      assert PendingOf(s'.fills, id) == PendingOf(s.fills, id);
    } else {
      PendingReplace(s.fills, s'.fills, a.f, id);
    }
  }

  /** A step of a fill's notification keeps the invariant if it never drops an order that still rests. */
  lemma Notified(s: State, s': State)
    requires Inv(s) && FillsOk(s') && IndexKnown(s')
    requires s'.book == s.book && s'.threads == s.threads && s'.nextId == s.nextId
    requires forall id: OrderId :: Exposure(s', id) <= Exposure(s, id)
    requires forall id :: id in s'.active ==> id in s.active && Exposure(s', id) <= s'.active[id].quantity
    requires forall id :: id in s.active && id !in s'.active ==> id !in s.book
    ensures Inv(s')
  {
  }

  lemma GateKeeps(s: State, f: FillId)
    requires Inv(s) && Enabled(s, Gate(f))
    ensures Inv(Next(s, Gate(f)))
  {
    forall id: OrderId ensures Exposure(Next(s, Gate(f)), id) <= Exposure(s, id) { FillExposure(s, Gate(f), id); }
    hide Exposure;
    Notified(s, Next(s, Gate(f)));
  }

  lemma ClearFilledKeeps(s: State, f: FillId)
    requires Inv(s) && Enabled(s, ClearFilled(f))
    ensures Inv(Next(s, ClearFilled(f)))
  {
    forall id: OrderId ensures Exposure(Next(s, ClearFilled(f)), id) <= Exposure(s, id) { FillExposure(s, ClearFilled(f), id); }
    hide Exposure;
    Notified(s, Next(s, ClearFilled(f)));
  }

  /** A report never drops an order that still rests: its tracked quantity covers what rests. */
  lemma ReportAt(s: State, f: FillId, id: OrderId)
    requires Inv(s) && Enabled(s, Report(f))
    ensures var s' := Next(s, Report(f));
            && Exposure(s', id) <= Exposure(s, id)
            && (id in s'.active ==> id in s.active && Exposure(s', id) <= s'.active[id].quantity)
            && (id in s.active && id !in s'.active ==> id !in s.book)
  {
    FillExposure(s, Report(f), id);
    hide Exposure, ThreadsOk, FillsOk, IndexKnown, Owned;
    assert id in s.active ==> Exposure(s, id) <= s.active[id].quantity;
    assert id in s.book ==> Resting(s, id) > 0;
  }

  lemma ReportFrame(s: State, f: FillId)
    requires FillsOk(s) && Enabled(s, Report(f))
    ensures var s' := Next(s, Report(f));
            FillsOk(s') && s'.book == s.book && s'.threads == s.threads && s'.index == s.index && s'.nextId == s.nextId
  {
  }

  lemma ReportKeeps(s: State, f: FillId)
    requires Inv(s) && Enabled(s, Report(f))
    ensures Inv(Next(s, Report(f)))
  {
    var s' := Next(s, Report(f));
    ReportFrame(s, f);
    hide Exposure, Next;
    forall id: OrderId
      ensures Exposure(s', id) <= Exposure(s, id)
      ensures id in s'.active ==> id in s.active && Exposure(s', id) <= s'.active[id].quantity
      ensures id in s.active && id !in s'.active ==> id !in s.book
    {
      ReportAt(s, f, id);
    }
    hide BookOwned, ThreadsOk, ActiveCovers;
    Notified(s, s');
  }

  lemma {:induction false} StepKeeps(s: State, a: Action)
    requires Inv(s) && Enabled(s, a)
    ensures Inv(Next(s, a))
  {
    match a
    case ReadStale(t, key) => ReadStaleKeeps(s, t, key);
    case CancelBid(t) => CancelBidKeeps(s, t);
    case CancelAsk(t) => CancelAskKeeps(s, t);
    case Prune(t) => PruneKeeps(s, t);
    case DropEntry(t) => DropEntryKeeps(s, t);
    case RefuseBid(t) => RefuseBidKeeps(s, t);
    case RefuseAsk(t) => RefuseAskKeeps(s, t);
    case TrackBid(t) => TrackBidKeeps(s, t);
    case TrackAsk(t) => TrackAskKeeps(s, t);
    case RecordIndex(t) => RecordIndexKeeps(s, t);
    case Untrack(t, id) => UntrackKeeps(s, t, id);
    case ClearLeg(t) => ClearLegKeeps(s, t);
    case CancelRemoved(t) => CancelRemovedKeeps(s, t);
    case PlaceBid(t, size, rests) => PlaceBidKeeps(s, t, size, rests);
    case PlaceAsk(t, size, rests) => PlaceAskKeeps(s, t, size, rests);
    case WipeIndex => WipeKeeps(s);
    case Match(_, _, _) => MatchKeeps(s, a);
    case Gate(f) => GateKeeps(s, f);
    case Report(f) => ReportKeeps(s, f);
    case ClearFilled(f) => ClearFilledKeeps(s, f);
  }

  // ---------------------------------------------------------------- whole runs

  /** The state reached from the start, if every action was enabled when taken. */
  function Exec(actions: seq<Action>): Option<State>
  {
    if actions == [] then Some(START)
    else
      var before := Exec(actions[..|actions| - 1]);
      var a := actions[|actions| - 1];
      if before.Some? && Enabled(before.value, a) then Some(Next(before.value, a)) else None
  }

  predicate Runs(actions: seq<Action>) { Exec(actions).Some? }

  function After(actions: seq<Action>): State
    requires Runs(actions)
  {
    Exec(actions).value
  }

  lemma {:induction false} RunKeeps(actions: seq<Action>)
    requires Runs(actions)
    ensures Inv(After(actions))
    decreases |actions|
  {
    if actions != [] {
      RunKeeps(actions[..|actions| - 1]);
      StepKeeps(After(actions[..|actions| - 1]), actions[|actions| - 1]);
    }
  }

  /** No requote, cancel or notification is under way. */
  predicate Quiet(s: State) { s.threads == map[] && s.fills == map[] }

  /**
   In every reachable state each resting maker order is tracked, or a thread has just placed
   it, or a thread has just untracked it to cancel it; what is tracked covers what rests plus
   what has executed unreported. At rest, every resting maker order is tracked.
   */
  lemma RestingOrdersAreOwned(actions: seq<Action>, id: OrderId)
    requires Runs(actions) && id in After(actions).book
    ensures var s := After(actions);
            && (id in s.active || exists t :: t in s.threads && Holds(s.threads[t], id))
            && (id in s.active ==> s.book[id] + MapSum<FillId>(PendingOf(s.fills, id)) <= s.active[id].quantity)
            && (Quiet(s) ==> id in s.active)
  {
    RunKeeps(actions);
    assert Owned(After(actions), id);
  }
}
