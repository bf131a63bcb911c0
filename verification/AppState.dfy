/**
 The order handlers over the state they mutate: the engine's books, the tracked-order map and
 the delta stream (src/api/handlers.rs, src/state.rs). Each handler is proved to be a legal
 event, or run of events, of `Exchange`. Order ids and times come from outside, ids unique.
 */
module AppStates {
  import opened Machine
  import opened Instruments
  import opened Books
  import opened Exchange
  import opened Deltas
  import opened Tracking
  import opened Bulk

  datatype AddStatus = AddFilled | AddPartial | AddAccepted | AddRejected

  datatype AddResponse = AddResponse(id: OrderId, status: AddStatus, filled: nat, remaining: nat)

  /** Filters of a cancel-all request. */
  datatype Filter = Filter(underlying: Option<string>, expiration: Option<ExpKey>, side: Option<Side>, style: Option<Style>)
  {
    predicate Selects(o: OrderInfo)
    {
      && (underlying.Some? ==> o.level.book.symbol == underlying.value)
      && (expiration.Some? ==> o.level.book.expiration == expiration.value)
      && (side.Some? ==> o.level.side == side.value)
      && (style.Some? ==> o.level.book.style == style.value)
      && o.status.Active?
    }
  }

  /** The tracked orders a cancel-all request targets: those that match it and are Active. */
  function Selected(orders: Orders, filter: Filter): set<OrderId>
  {
    set id | id in orders && filter.Selects(orders[id])
  }

  /** Matching every filter given, an order still wholly unfilled is selected. */
  predicate Matches(filter: Filter, o: OrderInfo)
  {
    && filter.underlying in {None, Some(o.level.book.symbol)} && filter.expiration in {None, Some(o.level.book.expiration)}
    && filter.side in {None, Some(o.level.side)} && filter.style in {None, Some(o.level.book.style)}
    && o.status == Active
  }

  lemma SelectedMatch(orders: Orders, filter: Filter)
    ensures forall id :: id in Selected(orders, filter) <==> id in orders && Matches(filter, orders[id])
  {
  }

  /** The events are cancels through tracking, one for each of `ids`. */
  ghost predicate OneCancelEach(events: seq<Event>, ids: set<OrderId>)
  {
    && |events| == |ids| && (forall e :: e in events ==> e.CancelTracked? && e.id in ids)
    && forall id :: id in ids ==> exists k :: 0 <= k < |events| && events[k].CancelTracked? && events[k].id == id
  }

  lemma NoCancel()
    ensures OneCancelEach([], {})
  {
  }

  lemma OneMoreCancel(events: seq<Event>, ids: set<OrderId>, e: Event)
    requires OneCancelEach(events, ids) && e.CancelTracked? && e.id !in ids
    ensures OneCancelEach(events + [e], ids + {e.id})
  {
    var more := events + [e];
    assert more[|events|] == e;
    forall id | id in ids ensures exists k :: 0 <= k < |more| && more[k].CancelTracked? && more[k].id == id {
      var k :| 0 <= k < |events| && events[k].CancelTracked? && events[k].id == id;
      assert more[k] == events[k];
    }
  }

  /** A replacement is tracked as a fresh order at the requested price and size, each defaulting to what rested. */
  predicate Replacement(o: OrderInfo, rested: Resting, price: Option<u128>, quantity: Option<u64>, now: u64)
  {
    && o.level.book == rested.level.book && o.level.side == rested.level.side
    && (price.Some? ==> o.level.price == price.value) && (price.None? ==> o.level.price == rested.level.price)
    && (quantity.Some? ==> o.originalQuantity == quantity.value) && (quantity.None? ==> o.originalQuantity == rested.quantity)
    && o.remainingQuantity == o.originalQuantity && o.filledQuantity == 0 && o.status == Active && o.timeInForce == Gtc
    && o.createdAtMs == now && o.updatedAtMs == now
  }

  /**
   The tracked entry of an order that filled on submit after its rollback: with the remainder gone
   nothing of it is left to fill, otherwise what did not fill still is.
   */
  predicate Reconciled(o: OrderInfo, was: OrderInfo, filled: u64, cleared: bool, now: u64)
  {
    && o.level == was.level && o.originalQuantity == was.originalQuantity && o.timeInForce == was.timeInForce
    && o.createdAtMs == was.createdAtMs && o.updatedAtMs == now && o.filledQuantity == filled
    && (cleared ==> o.remainingQuantity == 0)
    && (!cleared && filled <= was.originalQuantity ==> o.remainingQuantity + filled == was.originalQuantity)
    && (o.status.Filled? <==> cleared && filled >= was.originalQuantity)
    && (o.status.Canceled? <==> cleared && filled < was.originalQuantity)
    && (o.status.Partial? <==> !cleared)
  }

  function Said(before: seq<Delta>, after: seq<Delta>): seq<Delta> { if |before| <= |after| then after[|before|..] else [] }

  /** One delta for each price traded at. */
  predicate OnePerPrice(said: seq<Delta>, trades: seq<Trade>)
  {
    && (forall i, j :: 0 <= i < j < |said| ==> said[i].level.price != said[j].level.price)
    && (forall t :: t in trades ==> exists i :: 0 <= i < |said| && said[i].level.price == t.price)
    && (forall d :: d in said ==> exists t :: t in trades && t.price == d.level.price)
  }

  lemma OnePriceEach(said: seq<Delta>, trades: seq<Trade>)
    requires var once := Distinct(Prices(trades)); |said| == |once| && forall i :: 0 <= i < |said| ==> said[i].level.price == once[i]
    ensures OnePerPrice(said, trades)
  {
    var once := Distinct(Prices(trades));
    DistinctOnce(Prices(trades));
    forall p: u128 ensures p in once <==> exists t :: t in trades && t.price == p {
      DistinctSame(Prices(trades), p);
      PricesOf(trades, p);
    }
    forall t | t in trades ensures exists i :: 0 <= i < |said| && said[i].level.price == t.price {
      assert t.price in once;
      var i :| 0 <= i < |once| && once[i] == t.price;
      assert said[i].level.price == t.price;
    }
    forall d | d in said ensures exists t :: t in trades && t.price == d.level.price { assert d.level.price in once; }
  }

  /** Each submission the engine accepted is tracked as its reply says. */
  ghost predicate SubmittedAs(orders: Orders, events: seq<Event>)
  {
    forall k :: 0 <= k < |events| && events[k].Add? && events[k].reply.Accepted? ==>
      events[k].id in orders && TrackedAs(orders[events[k].id], events[k].item, events[k].reply, events[k].now)
  }

  lemma NothingSubmitted(orders: Orders)
    ensures SubmittedAs(orders, [])
  {
  }

  lemma OneMoreSubmitted(was: Orders, orders: Orders, events: seq<Event>, item: Item, id: OrderId, r: AddReply, now: u64)
    requires SubmittedAs(was, events) && forall other :: other in was ==> other in orders && orders[other] == was[other]
    requires r.Accepted? ==> id in orders && TrackedAs(orders[id], item, r, now)
    ensures SubmittedAs(orders, events + [Add(id, item, r, now)])
  {
  }

  function CountTrue(results: seq<bool>): nat
  {
    if results == [] then 0 else CountTrue(results[..|results| - 1]) + if results[|results| - 1] then 1 else 0
  }

  lemma RemovedSize(orders: Orders, ids: set<OrderId>)
    requires ids <= orders.Keys
    ensures |orders - ids| == |orders| - |ids|
  {
  }

  lemma CleanupRemoves(x: Exchange, threshold: int, ids: set<OrderId>)
    requires ids == set id | id in x.orders && Expired(x.orders[id], threshold)
    ensures Legal(x, Cleanup(threshold)) && Apply(x, Cleanup(threshold)) == x.(orders := x.orders - ids)
  {
  }

  class AppState {
    const engine: Engine
    var orders: Orders
    ghost var users: set<OrderId>
    var deltas: seq<Delta>

    ghost function Value(): Exchange
      reads this, engine
    {
      Exchange(engine.resting, orders, users, deltas)
    }

    constructor ()
      ensures fresh(engine) && Value() == EMPTY
    {
      engine := new Engine();
      orders, users, deltas := map[], {}, [];
    }

    // -------------------------------------------------- publishing

    method PublishLevelDelta(l: Level)
      modifies this`deltas
      ensures Value() == Publish(old(Value()), l)
    {
      var quantity := engine.LevelVisibleQuantity(l);
      deltas := deltas + [Delta(l, quantity)];
    }

    method PublishConsumedMakerDeltas(book: BookId, taker: Side, trades: seq<Trade>)
      modifies this`deltas
      ensures Value() == PublishConsumed(old(Value()), book, taker, trades)
      ensures OnePerPrice(Said(old(deltas), deltas), trades)
    {
      var side := taker.Opposite();
      var prices := Prices(trades);
      var seen: seq<u128> := [];
      for i := 0 to |prices|
        invariant seen == Distinct(prices[..i])
        invariant Value() == PublishAll(old(Value()), book, side, seen)
      {
        assert prices[..i + 1][..i] == prices[..i];
        if prices[i] !in seen {
          seen := seen + [prices[i]];
          assert seen[..|seen| - 1] == Distinct(prices[..i]);
          PublishLevelDelta(Level(book, side, prices[i]));
        }
      }
      assert prices[..|prices|] == prices;
      PublishAllInOrder(old(Value()), book, side, seen);
      DistinctOnce(prices);
      OnePriceEach(Said(old(deltas), deltas), trades);
    }

    // -------------------------------------------------- single orders

    /** Adds, tracks and publishes one order; shared by the single and the bulk submit paths. */
    method Submit(id: OrderId, item: Item, now: u64) returns (r: AddReply)
      requires Fresh(Value(), id)
      modifies this, engine
      ensures Legal(old(Value()), Add(id, item, r, now))
      ensures Value() == Apply(old(Value()), Add(id, item, r, now))
      ensures engine.calls == old(engine.calls) +
                [AskAdd(id, item.level, item.quantity, item.timeInForce.Gtc? || item.timeInForce.Gtd?, r)]
      ensures r.Accepted? ==> orders.Keys == old(orders).Keys + {id} && TrackedAs(orders[id], item, r, now)
      ensures engine.calls == old(engine.calls) + Calls(old(Value()), Add(id, item, r, now))
      ensures forall other :: other in old(orders) ==> other in orders && orders[other] == old(orders)[other]
      ensures r.Refused? ==> Value() == old(Value())
    {
      r := engine.AddLimitOrder(id, item.level, item.quantity, Rests(item.timeInForce));
      if r.Accepted? {
        orders := orders[id := Track(item, r, now)];
        users := users + {id};
        FreshlyTracked(old(engine.resting), item, r, now);
        var filled := Executed(r.trades);
        if filled > 0 { PublishConsumedMakerDeltas(item.level.book, item.level.side, r.trades); }
        if r.remaining > 0 { PublishLevelDelta(item.level); }
      }
    }

    method AddOrder(id: OrderId, item: Item, now: u64) returns (resp: Option<AddResponse>, ghost r: AddReply)
      requires Fresh(Value(), id)
      modifies this, engine
      ensures Legal(old(Value()), Add(id, item, r, now)) && Value() == Apply(old(Value()), Add(id, item, r, now))
      ensures engine.calls == old(engine.calls) +
                [AskAdd(id, item.level, item.quantity, item.timeInForce.Gtc? || item.timeInForce.Gtd?, r)]
      ensures r.Accepted? ==> id in orders && TrackedAs(orders[id], item, r, now)
      ensures r.Refused? ==> id !in orders
      ensures r.Refused? ==> resp == None || resp == Some(AddResponse(id, AddRejected, 0, item.quantity))
      ensures r.Accepted? ==> resp.Some? && resp.value.id == id && resp.value.filled + resp.value.remaining == item.quantity
      ensures r.Accepted? ==> resp.value.filled == Executed(r.trades) && resp.value.remaining == r.remaining
      ensures r.Accepted? ==> (resp.value.status.AddFilled? <==> r.remaining == 0) && (resp.value.status.AddAccepted? ==> r.trades == [])
      ensures r.Accepted? ==> !resp.value.status.AddRejected? && (resp.value.status.AddPartial? ==> r.trades != [] && r.remaining > 0)
    {
      var reply := Submit(id, item, now);
      r := reply;
      if reply.Refused? {
        resp := *;
        if resp != None { resp := Some(AddResponse(id, AddRejected, 0, item.quantity)); }
      } else {
        var filled := Executed(reply.trades);
        var status := if reply.remaining == 0 then AddFilled else if filled > 0 then AddPartial else AddAccepted;
        resp := Some(AddResponse(id, status, filled, reply.remaining));
        TradesPositive(old(engine.resting), item.level.book, item.level.side.Opposite(), reply.trades);
      }
    }

    /** A market order takes and never rests; it is not tracked. */
    method SubmitMarketOrder(id: OrderId, book: BookId, side: Side, quantity: u64)
      returns (filled: Option<nat>, ghost reply: AddReply, ghost events: seq<Event>)
      requires Fresh(Value(), id)
      modifies this, engine
      ensures LegalRun(old(Value()), events) && Value() == After(old(Value()), events)
      ensures events == if quantity == 0 then [] else [Market(id, book, side, quantity, reply)]
      ensures filled == if quantity == 0 || reply.Refused? then None else Some(Executed(reply.trades))
      ensures filled.Some? ==> filled.value <= quantity
      ensures engine.calls == old(engine.calls) + if quantity == 0 then [] else [AskMarket(id, book, side, quantity, reply)]
    {
      NoEvents(Value());
      if quantity == 0 { return None, Refused, []; }
      var r := engine.SubmitMarketOrder(id, book, side, quantity);
      reply, events := r, [Market(id, book, side, quantity, r)];
      if r.Refused? {
        filled := None;
      } else {
        var executed := Executed(r.trades);
        if executed > 0 { PublishConsumedMakerDeltas(book, side, r.trades); }
        filled := Some(executed);
      }
      RunOne(old(Value()), events[0]);
    }

    method CancelOrder(book: BookId, id: OrderId, now: u64) returns (success: bool, ghost cancel: CancelReply)
      modifies this, engine
      ensures Value() == Apply(old(Value()), Cancel(book, id, cancel, now))
      ensures success <==> cancel.Answered? && RestsIn(old(engine.resting), book, id)
      ensures engine.calls == old(engine.calls) + [AskCancel(book, id, cancel)]
      ensures success ==> id !in orders && id !in engine.resting
      ensures !success ==> orders.Keys == old(orders).Keys && engine.resting == old(engine.resting)
      ensures !success && id in old(orders) ==>
                orders[id] == if cancel.Errored? then old(orders)[id]
                              else old(orders)[id].(filledQuantity := old(orders)[id].originalQuantity, remainingQuantity := 0,
                                                    status := OrderStatus.Filled, updatedAtMs := now)
      ensures forall other :: other in old(orders) && other != id ==> other in orders && orders[other] == old(orders)[other]
    {
      var level := if RestsIn(engine.resting, book, id) then Some(engine.resting[id].level) else None;
      var reply, cancelled := engine.CancelOrder(book, id);
      cancel, success := reply, cancelled;
      if reply.Errored? { return; }
      if cancelled {
        orders := orders - {id};
        PublishLevelDelta(level.value);
      } else if id in orders {
        var o := orders[id];
        orders := orders[id := o.(filledQuantity := o.originalQuantity, remainingQuantity := 0,
                                  status := OrderStatus.Filled, updatedAtMs := now)];
      }
    }

    /** Cancel-and-replace; None when nothing was replaced. */
    method ModifyOrder(book: BookId, id: OrderId, price: Option<u128>, quantity: Option<u64>, newId: OrderId, now: u64)
      returns (replaced: Option<OrderId>, ghost e: Event)
      requires Fresh(Value(), newId) && newId != id
      modifies this, engine
      ensures e.Modify? && e.book == book && e.id == id && e.price == price && e.newQuantity == quantity && e.newId == newId
      ensures Legal(old(Value()), e) && Value() == Apply(old(Value()), e)
      ensures replaced.Some? <==> Replaces(old(Value()), e) && e.reply.Accepted?
      ensures replaced.Some? ==> replaced.value == newId
      ensures replaced.Some? <==>
                && (price.Some? || quantity.Some?) && id in old(engine.resting) && old(engine.resting)[id].level.book == book
                && (if price.Some? then price.value else old(engine.resting)[id].level.price) > 0
                && (if quantity.Some? then quantity.value else old(engine.resting)[id].quantity) > 0
                && e.cancel.Answered? && e.reply.Accepted?
      ensures engine.calls == old(engine.calls) + Calls(old(Value()), e)
      ensures replaced.Some? ==> RestsIn(old(engine.resting), book, id) && newId in orders
      ensures replaced.Some? ==> Replacement(orders[newId], old(engine.resting)[id], price, quantity, now)
    {
      replaced := None;
      e := Modify(book, id, price, quantity, Errored, newId, Refused, now);
      if (price.None? && quantity.None?) || !RestsIn(engine.resting, book, id) { return; }
      var current := engine.resting[id];
      var newLevel := current.level.(price := if price.Some? then price.value else current.level.price);
      var newQuantity := if quantity.Some? then quantity.value else current.quantity;
      if newLevel.price == 0 || newQuantity == 0 { return; }
      var cancel, cancelled := engine.CancelOrder(book, id);
      if cancel.Errored? { return; }
      orders := orders - {id};
      PublishLevelDelta(current.level);
      var reply := engine.AddLimitOrder(newId, newLevel, newQuantity, true);
      e := Modify(book, id, price, quantity, cancel, newId, reply, now);
      if reply.Accepted? {
        orders := orders[newId := OrderInfo(newLevel, newQuantity, newQuantity, 0, Active, Gtc, now, now)];
        users := users + {newId};
        PublishLevelDelta(newLevel);
        replaced := Some(newId);
      }
    }

    // -------------------------------------------------- cancels through tracking

    /** Cancels a tracked order on the book its tracking names; the path may fail to resolve. */
    method CancelByTrackedPath(id: OrderId) returns (canceled: bool, ghost e: Event)
      modifies this, engine
      ensures e.CancelTracked? && e.id == id
      ensures Value() == Apply(old(Value()), e)
      ensures canceled ==> id in old(orders) && orders == old(orders) - {id} && id !in engine.resting && |orders| == |old(orders)| - 1
      ensures !canceled ==> Value() == old(Value())
      ensures canceled <==> id in old(orders) && e.found && e.cancel.Answered? &&
                            RestsIn(old(engine.resting), old(orders)[id].level.book, id)
      ensures engine.calls == old(engine.calls) +
                if id in old(orders) then PathCalls(old(orders)[id].level.book, id, e.found, e.cancel) else []
      ensures engine.calls == old(engine.calls) + Calls(old(Value()), e)
    {
      canceled := false;
      e := CancelTracked(id, false, Errored);
      if id !in orders { return; }
      var o := orders[id];
      var found := engine.Resolve(o.level.book);
      if !found { return; }
      var cancel, cancelled := engine.CancelOrder(o.level.book, id);
      e := CancelTracked(id, true, cancel);
      if cancelled {
        RemovedSize(orders, {id});
        orders := orders - {id};
        PublishLevelDelta(o.level);
        canceled := true;
      }
    }

    /** `bulk_cancel_orders`: each id once, in order; one result per id. */
    method BulkCancelOrders(ids: seq<OrderId>) returns (results: Option<seq<bool>>, successCount: nat, failureCount: nat, ghost events: seq<Event>)
      modifies this, engine
      ensures ids == [] ==> results == None && Value() == old(Value())
      ensures LegalRun(old(Value()), events) && Value() == After(old(Value()), events)
      ensures |events| == |ids| && forall i :: 0 <= i < |ids| ==> events[i].CancelTracked? && events[i].id == ids[i]
      ensures ids != [] ==> results.Some? && |results.value| == |ids| && successCount == CountTrue(results.value) &&
                            successCount + failureCount == |ids|
      ensures ids != [] ==> forall i :: 0 <= i < |ids| && results.value[i] ==> ids[i] !in orders
      ensures successCount == |old(orders)| - |orders|
      ensures engine.calls == old(engine.calls) + RunCalls(old(Value()), events)
    {
      hide LegalRun, After, Apply, RunCalls;
      events, successCount, failureCount := [], 0, 0;
      NoEvents(Value());
      if ids == [] { return None, 0, 0, []; }
      var done: seq<bool> := [];
      ghost var start := Value();
      for i := 0 to |ids|
        invariant LegalRun(start, events) && Value() == After(start, events)
        invariant |events| == i && forall k :: 0 <= k < i ==> events[k].CancelTracked? && events[k].id == ids[k]
        invariant engine.calls == old(engine.calls) + RunCalls(start, events)
        invariant successCount == |old(orders)| - |orders|
        invariant |done| == i && successCount == CountTrue(done) && successCount + failureCount == i
        invariant forall k :: 0 <= k < i && done[k] ==> ids[k] !in orders
      {
        ghost var asked := engine.calls;
        ghost var e;
        var canceled;
        canceled, e := CancelByTrackedPath(ids[i]);
        ExtendAsked(start, events, e, old(engine.calls), asked, engine.calls);
        events := events + [e];
        assert (done + [canceled])[..|done|] == done;
        done := done + [canceled];
        if canceled { successCount := successCount + 1; } else { failureCount := failureCount + 1; }
      }
      results := Some(done);
    }

    /**
     `cancel_all_orders`: sends one cancel through tracking for each order that matches every filter
     given and is Active at the time of the call, and for no other.
     */
    method CancelAllOrders(filter: Filter) returns (canceledCount: nat, failedCount: nat, ghost events: seq<Event>)
      modifies this, engine
      ensures LegalRun(old(Value()), events) && Value() == After(old(Value()), events)
      ensures engine.calls == old(engine.calls) + RunCalls(old(Value()), events)
      ensures OneCancelEach(events, Selected(old(orders), filter))
      ensures forall id :: id in Selected(old(orders), filter) <==> id in old(orders) && Matches(filter, old(orders)[id])
      ensures canceledCount + failedCount == |events|
      ensures canceledCount == |old(orders)| - |orders|
      ensures forall id :: id in orders ==> id in old(orders) && orders[id] == old(orders)[id]
      ensures forall id :: id in old(orders) && !Matches(filter, old(orders)[id]) ==> id in orders
    {
      hide LegalRun, After, Apply, RunCalls, OneCancelEach, Calls, PathCalls, Matches, Selected, Publish, RestsIn;
      events, canceledCount, failedCount := [], 0, 0;
      var selected := Selected(orders, filter);
      SelectedMatch(orders, filter);
      var todo := selected;
      ghost var start := Value();
      NoEvents(start);
      NoCancel();
      assert selected - todo == {};
      while todo != {}
        invariant LegalRun(start, events) && Value() == After(start, events)
        invariant engine.calls == old(engine.calls) + RunCalls(start, events)
        invariant todo <= selected && OneCancelEach(events, selected - todo) && canceledCount + failedCount == |events|
        invariant canceledCount == |old(orders)| - |orders|
        invariant forall id :: id in orders ==> id in old(orders) && orders[id] == old(orders)[id]
        invariant forall id :: id in old(orders) && id !in selected ==> id in orders
        decreases |todo|
      {
        var id :| id in todo;
        ghost var done, asked := selected - todo, engine.calls;
        ghost var e;
        var canceled;
        canceled, e := CancelByTrackedPath(id);
        ExtendAsked(start, events, e, old(engine.calls), asked, engine.calls);
        OneMoreCancel(events, done, e);
        events := events + [e];
        todo := todo - {id};
        assert selected - todo == done + {id};
        if canceled { canceledCount := canceledCount + 1; } else { failedCount := failedCount + 1; }
      }
      assert selected - todo == selected;
    }

    /** `cleanup_old_orders`: collects the keys first, then removes them. */
    method CleanupOldOrders(threshold: int) returns (count: nat)
      modifies this`orders
      ensures Value() == Apply(old(Value()), Cleanup(threshold))
      ensures count == |old(orders)| - |orders| && engine.calls == old(engine.calls)
      ensures forall id :: id in orders ==> id in old(orders) && orders[id] == old(orders)[id]
      ensures forall id :: id in old(orders) ==>
                (id !in orders <==> old(orders)[id].status in {OrderStatus.Filled, Canceled} && old(orders)[id].updatedAtMs < threshold)
    {
      var keys := set id | id in orders && Expired(orders[id], threshold);
      count := |keys|;
      RemovedSize(orders, keys);
      CleanupRemoves(Value(), threshold, keys);
      hide Apply;
      orders := orders - keys;
    }

    // -------------------------------------------------- atomic bulk

    /** Cancels an accepted bulk order through its item's path; `answered` is false on any error. */
    method CancelBulkItemOrder(item: Item, id: OrderId) returns (answered: bool, cancelled: bool, ghost found: bool, ghost cancel: CancelReply)
      modifies this`deltas, engine
      ensures answered == (found && cancel.Answered?)
      ensures cancelled == (answered && RestsIn(old(engine.resting), item.level.book, id))
      ensures Value() == if cancelled then Publish(old(Value()).(books := old(engine.resting) - {id}), item.level) else old(Value())
      ensures engine.calls == old(engine.calls) + PathCalls(item.level.book, id, found, cancel)
    {
      var resolved := engine.Resolve(item.level.book);
      found, cancel, answered, cancelled := resolved, Errored, false, false;
      if resolved {
        var reply, hit := engine.CancelOrder(item.level.book, id);
        cancel, answered, cancelled := reply, reply.Answered?, hit;
        if hit { PublishLevelDelta(item.level); }
      }
    }

    /** Rolls back one accepted order and reconciles its tracking. */
    method RollbackItem(item: Item, a: AcceptedOrder, now: u64) returns (outcome: RollbackOutcome, answered: bool, cancelled: bool, ghost e: Event)
      modifies this, engine
      ensures e.Rollback? && e.item == item && e.id == a.id && e.filled == a.filled && e.now == now
      ensures answered == (e.found && e.cancel.Answered?)
      ensures Value() == RollbackOne(old(Value()), item, a.id, a.filled, e.found, e.cancel, now)
      ensures engine.resting == old(engine.resting) || engine.resting == old(engine.resting) - {a.id}
      ensures cancelled == (answered && RestsIn(old(engine.resting), item.level.book, a.id))
      ensures outcome == OutcomeOf(a, answered, cancelled)
      ensures a.filled == 0 && answered ==> (outcome == Clean <==> RestsIn(old(engine.resting), item.level.book, a.id))
      ensures a.filled == 0 && answered ==> (outcome == Phantom <==> !RestsIn(old(engine.resting), item.level.book, a.id))
      ensures engine.calls == old(engine.calls) + PathCalls(item.level.book, a.id, e.found, e.cancel)
      ensures engine.calls == old(engine.calls) + Calls(old(Value()), e)
      ensures a.filled > 0 && a.id in old(orders) ==> a.id in orders && Reconciled(orders[a.id], old(orders)[a.id], a.filled, answered, now)
    {
      ghost var found, cancel;
      answered, cancelled, found, cancel := CancelBulkItemOrder(item, a.id);
      e := Rollback(item, a.id, a.filled, found, cancel, now);
      if a.filled > 0 {
        if a.id in orders { orders := orders[a.id := Kept(orders[a.id], a.filled, answered, now)]; }
      } else if answered {
        orders := orders - {a.id};
      }
      outcome := OutcomeOf(a, answered, cancelled);
    }

    /** Undoes every accepted order, filled or not, and reports what could not be undone. */
    method RollbackAtomicBulk(items: seq<BulkItem>, accepted: seq<AcceptedOrder>, failedIndex: nat, now: u64, ghost before: Exchange)
      returns (resp: BulkResponse, ghost answers: seq<bool>, ghost events: seq<Event>)
      requires Batch(before, Value(), items, accepted) && failedIndex == |accepted| < |items|
      modifies this, engine
      ensures LegalRun(old(Value()), events) && Value() == After(old(Value()), events)
      ensures RollsBack(events, items, accepted, |accepted|) && AnswersOf(events, answers)
      ensures Undone(before, Value(), items, accepted, answers) && Reported(items, accepted, resp, answers)
      ensures NotesTell(accepted, resp, answers, old(engine.resting))
      ensures engine.calls == old(engine.calls) + RunCalls(old(Value()), events)
    {
      hide LegalRun, After, Apply, Legal, Undone, Placed, RollbackOne, RunCalls, Calls, PathCalls, Reported, NotesTell, Reconciled;
      hide OutcomesFit, UndoneAs, OutcomeOf, RollsBack, AnswersOf, RestAsBefore, RestsIn;
      NoEvents(Value());
      BatchIsUndone(before, Value(), items, accepted);
      events, answers := [], [];
      ghost var start := Value();
      var outcomes: map<nat, RollbackOutcome> := map[];
      NothingUndone(items, accepted, start);
      for k := 0 to |accepted|
        invariant LegalRun(start, events) && Value() == After(start, events)
        invariant |events| == k && RollsBack(events, items, accepted, k) && AnswersOf(events, answers)
        invariant engine.calls == old(engine.calls) + RunCalls(start, events)
        invariant |answers| == k && Undone(before, Value(), items, accepted, answers)
        invariant OutcomesFit(accepted, outcomes, answers) && UndoneAs(accepted, outcomes, answers, start.books)
        invariant RestAsBefore(Value(), accepted, k, start.books)
      {
        ghost var x, asked := Value(), engine.calls;
        ghost var e;
        var outcome, answered, cancelled;
        RestsWherePlaced(before, x, items, accepted, answers, start.books);
        outcome, answered, cancelled, e := RollbackItem(items[k], accepted[k], now);
        RestStays(before, x, Value(), items, accepted, answers, start.books);
        RollbackLegal(before, x, items, accepted, answers, e.found, e.cancel, now);
        RollbackAdvances(before, x, items, accepted, answers, e.found, e.cancel, now);
        OutcomesStep(accepted, outcomes, answers, answered, cancelled);
        UndoneAsStep(accepted, outcomes, answers, start.books, answered, cancelled);
        RollbackStep(events, items, accepted, answers, e);
        ExtendAsked(start, events, e, old(engine.calls), asked, engine.calls);
        events := events + [e];
        answers := answers + [answered];
        outcomes := outcomes[accepted[k].index := outcome];
      }
      resp := Report(items, accepted, outcomes, failedIndex, answers, start.books);
    }

    method Report(items: seq<BulkItem>, accepted: seq<AcceptedOrder>, outcomes: map<nat, RollbackOutcome>, failedIndex: nat, ghost answers: seq<bool>, ghost books: Books)
      returns (resp: BulkResponse)
      requires failedIndex == |accepted| < |items| && |answers| == |accepted| && OutcomesFit(accepted, outcomes, answers)
      requires UndoneAs(accepted, outcomes, answers, books)
      ensures Reported(items, accepted, resp, answers) && NotesTell(accepted, resp, answers, books)
    {
      hide CountAccepted;
      var unrollbackable := set i | i in outcomes && outcomes[i].Unrollbackable?;
      var warned := set i | i in outcomes && !outcomes[i].Clean?;
      var successCount := |unrollbackable|;
      ResultsTell(|items|, accepted, outcomes, answers, books);
      hide UndoneAs;
      var results := ResultsOf(|items|, outcomes, failedIndex);
      CountIsSize(results, unrollbackable);
      CountBound(results);
      resp := BulkResponse(successCount, |items| - Min(successCount, |items|), results, true, |warned|);
    }

    /**
     Submits the items in order. In atomic mode the first failure rolls the batch back: `batch`
     is what had been accepted and `answers` says which rollback cancels were answered.
     */
    method BulkSubmitOrders(items: seq<BulkItem>, ids: seq<OrderId>, atomic: bool, now: u64)
      returns (resp: Option<BulkResponse>, ghost batch: seq<AcceptedOrder>, ghost answers: seq<bool>, ghost events: seq<Event>)
      requires |ids| == |items|
      requires forall i :: 0 <= i < |ids| ==> Fresh(Value(), ids[i])
      requires forall i, j :: 0 <= i < j < |ids| ==> ids[i] != ids[j]
      modifies this, engine
      ensures (resp == None <==> items == []) && (items == [] ==> events == [])
      ensures LegalRun(old(Value()), events) && Value() == After(old(Value()), events)
      ensures engine.calls == old(engine.calls) + RunCalls(old(Value()), events)
      ensures resp.Some? && !resp.value.rolledBack ==>
                |events| == |items| && Submits(events, items, ids, |items|, now) && Answers(events, resp.value.results)
      ensures resp.Some? && !resp.value.rolledBack ==> SubmittedAs(orders, events)
      ensures resp.Some? ==>
                && |resp.value.results| == |items| && (forall i :: 0 <= i < |items| ==> resp.value.results[i].index == i)
                && resp.value.successCount == CountAccepted(resp.value.results)
                && resp.value.successCount + resp.value.failureCount == |items|
                && Truthful(Value(), ids, resp.value.results)
      ensures resp.Some? && resp.value.rolledBack ==>
                && atomic && Reported(items, batch, resp.value, answers)
                && Aborts(events, items, ids, batch, answers, now)
                && LegalRun(old(Value()), events[..|batch| + 1])
                && NotesTell(batch, resp.value, answers, After(old(Value()), events[..|batch| + 1]).books)
                && (AllAnswered(answers) ==> forall a :: a in batch ==> a.id !in engine.resting)
                && (AllAnswered(answers) && NoFills(batch) ==> engine.resting == old(engine.resting) && orders == old(orders))
      ensures resp.Some? && atomic && !resp.value.rolledBack ==> resp.value.successCount == |items|
    {
      hide LegalRun, After, Legal, Apply, Batch, Truthful, CountAccepted, NoFills, AllAnswered, Fresh, Submits, Accepts, Aborts, RunCalls, SubmittedAs, TrackedAs, Calls, NotesTell;
      batch, answers, events := [], [], [];
      NoEvents(Value());
      if items == [] { return None, [], [], []; }
      var accepted: seq<AcceptedOrder> := [];
      var results: seq<ResultItem> := [];
      var successCount, failureCount := 0, 0;
      ghost var start := Value();
      EmptyBatch(start, items, ids, now);
      NothingSubmitted(orders);
      for i := 0 to |items|
        invariant LegalRun(start, events) && Value() == After(start, events)
        invariant |events| == i && Submits(events, items, ids, i, now)
        invariant engine.calls == old(engine.calls) + RunCalls(start, events)
        invariant (forall k :: 0 <= k < i ==> events[k].Add? && events[k].id == ids[k]) && SubmittedAs(orders, events)
        invariant |results| == i && Answers(events, results)
        invariant successCount + failureCount == i && successCount == CountAccepted(results)
        invariant forall k :: i <= k < |ids| ==> Fresh(Value(), ids[k])
        invariant Truthful(Value(), ids, results)
        invariant atomic ==> Batch(start, Value(), items, accepted) && |accepted| == i && failureCount == 0
        invariant atomic ==> Accepts(events, ids, accepted)
      {
        ghost var x, tracked, asked := Value(), orders, engine.calls;
        var r := Submit(ids[i], items[i], now);
        OneMoreSubmitted(tracked, orders, events, items[i], ids[i], r, now);
        ghost var e := Add(ids[i], items[i], r, now);
        ExtendAsked(start, events, e, old(engine.calls), asked, engine.calls);
        events := events + [e];
        SubmitStep(events[..i], items, ids, results, accepted, r, now);
        assert events[..i] + [e] == events;
        SubmitIsTruthful(x, ids, results, items[i], r, now);
        AddIsPlace(x, ids[i], items[i], r, now);
        if r.Accepted? {
          if atomic { SubmitExtends(start, x, items, accepted, ids[i], r, now); }
          accepted := accepted + [AcceptedOrder(i, ids[i], Executed(r.trades))];
          results := AppendResult(results, ResultItem(i, Some(ids[i]), ItemAccepted, NoNote));
          successCount := successCount + 1;
        } else {
          if atomic {
            var response;
            ghost var submitted := events;
            response, answers, events := AbortBatch(items, ids, accepted, now, start, events, old(engine.calls));
            batch := accepted;
            assert events[..|batch| + 1] == submitted;
            return Some(response), batch, answers, events;
          }
          results := AppendResult(results, ResultItem(i, None, ItemRejected, SubmitFailed));
          failureCount := failureCount + 1;
        }
      }
      resp := Some(BulkResponse(successCount, failureCount, results, false, 0));
    }

    /** The failure at the next item of an atomic batch: roll back what was accepted. */
    method AbortBatch(items: seq<BulkItem>, ids: seq<OrderId>, accepted: seq<AcceptedOrder>, now: u64, ghost start: Exchange, ghost before: seq<Event>, ghost asked: seq<EngineCall>)
      returns (resp: BulkResponse, ghost answers: seq<bool>, ghost events: seq<Event>)
      requires LegalRun(start, before) && Value() == After(start, before) && engine.calls == asked + RunCalls(start, before)
      requires Batch(start, Value(), items, accepted) && |accepted| < |items| == |ids|
      requires |before| == |accepted| + 1 && Submits(before, items, ids, |accepted| + 1, now)
      requires Accepts(before[..|accepted|], ids, accepted) && before[|accepted|].reply.Refused?
      requires forall k :: |accepted| <= k < |ids| ==> Fresh(Value(), ids[k])
      modifies this, engine
      ensures LegalRun(start, events) && Value() == After(start, events)
      ensures engine.calls == asked + RunCalls(start, events)
      ensures Aborts(events, items, ids, accepted, answers, now)
      ensures Reported(items, accepted, resp, answers) && Truthful(Value(), ids, resp.results)
      ensures NotesTell(accepted, resp, answers, old(engine.resting)) && before <= events
      ensures AllAnswered(answers) ==> forall a :: a in accepted ==> a.id !in engine.resting
      ensures AllAnswered(answers) && NoFills(accepted) ==> engine.resting == start.books && orders == start.orders
    {
      hide LegalRun, After, Batch, Undone, Truthful, RunCalls;
      ghost var x := Value();
      ghost var more;
      resp, answers, more := RollbackAtomicBulk(items, accepted, |accepted|, now, start);
      RunThen(start, before, more);
      events := before + more;
      assert events[..|accepted|] == before[..|accepted|] && events[|accepted| + 1..] == more;
      RollbacksOnlyRemove(x, more);
      ReportIsTruthful(start, Value(), items, accepted, answers, resp, ids);
      if AllAnswered(answers) { CleanRollback(start, Value(), items, accepted, answers); }
    }

    static method AppendResult(results: seq<ResultItem>, item: ResultItem) returns (more: seq<ResultItem>)
      ensures more == results + [item]
      ensures CountAccepted(more) == CountAccepted(results) + if item.status.ItemAccepted? then 1 else 0
    {
      more := results + [item];
      assert more[..|results|] == results;
    }
  }

  lemma {:induction false} CountBound(results: seq<ResultItem>)
    ensures CountAccepted(results) <= |results|
    decreases |results|
  {
    if results != [] { CountBound(results[..|results| - 1]); }
  }

  lemma AddIsPlace(x: Exchange, id: OrderId, item: Item, r: AddReply, now: u64)
    requires Legal(x, Add(id, item, r, now))
    ensures Apply(x, Add(id, item, r, now)) == Place(x, id, item, r, now)
    ensures r.Accepted? ==> Executed(r.trades) <= item.quantity
  {
  }

  lemma EmptyBatch(x: Exchange, items: seq<BulkItem>, ids: seq<OrderId>, now: u64)
    ensures Batch(x, x, items, []) && Truthful(x, ids, []) && CountAccepted([]) == 0
    ensures Submits([], items, ids, 0, now) && Accepts([], ids, [])
  {
  }

  /** A run of rollbacks puts nothing on a book and tracks nothing new. */
  lemma {:induction false} RollbacksOnlyRemove(x: Exchange, events: seq<Event>)
    requires LegalRun(x, events) && forall e :: e in events ==> e.Rollback?
    ensures forall id :: id in After(x, events).books ==> id in x.books
    ensures forall id :: id in After(x, events).orders ==> id in x.orders
    decreases |events|
  {
    if events != [] {
      var y := Apply(x, events[0]);
      assert events[0].Rollback?;
      assert forall id :: (id in y.books ==> id in x.books) && (id in y.orders ==> id in x.orders);
      hide Apply, Legal;
      RollbacksOnlyRemove(y, events[1..]);
    }
  }
}
