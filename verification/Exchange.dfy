/**
 The order handlers as changes of one value: books, tracked orders and the published delta
 stream (src/api/handlers.rs). Each event carries the engine's reply, so a run is a list of
 events, and the handlers in `AppState` are proved to be such runs.
 */
module Exchange {
  import opened Machine
  import opened Instruments
  import opened Books

  datatype TimeInForce = Gtc | Ioc | Fok | Gtd

  datatype OrderStatus = Active | Partial | Filled | Canceled

  datatype OrderInfo = OrderInfo(
    level: Level,
    originalQuantity: u64,
    remainingQuantity: u64,
    filledQuantity: u64,
    status: OrderStatus,
    timeInForce: TimeInForce,
    createdAtMs: u64,
    updatedAtMs: u64)

  type Orders = map<OrderId, OrderInfo>

  /** A level's resulting visible quantity, 0 meaning the level is gone. */
  datatype Delta = Delta(level: Level, quantity: int)

  /** `users` are the ids of orders the handlers placed; the market maker's are not among them. */
  datatype Exchange = Exchange(books: Books, orders: Orders, users: set<OrderId>, deltas: seq<Delta>)

  datatype Item = Item(level: Level, quantity: u64, timeInForce: TimeInForce)

  predicate Rests(tif: TimeInForce) { tif.Gtc? || tif.Gtd? }

  function StatusOf(filled: nat, remaining: nat): OrderStatus
  {
    if remaining == 0 then OrderStatus.Filled else if filled > 0 then Partial else Active
  }

  /** The tracking entry of a freshly accepted order. */
  function Track(item: Item, r: AddReply, now: u64): OrderInfo
    requires r.Accepted? && Executed(r.trades) + r.remaining == item.quantity
  {
    var filled := Executed(r.trades);
    OrderInfo(item.level, item.quantity, r.remaining, filled, StatusOf(filled, r.remaining), item.timeInForce, now, now)
  }

  /** What an accepted order is tracked as, told from the engine's reply. */
  predicate TrackedAs(o: OrderInfo, item: Item, r: AddReply, now: u64)
  {
    && r.Accepted? && o.level == item.level && o.originalQuantity == item.quantity && o.timeInForce == item.timeInForce
    && o.filledQuantity == Executed(r.trades) && o.remainingQuantity == r.remaining && o.createdAtMs == now && o.updatedAtMs == now
    && (o.status.Filled? <==> r.remaining == 0)
    && (o.status.Partial? <==> r.remaining > 0 && Executed(r.trades) > 0)
    && (o.status.Active? <==> r.remaining > 0 && r.trades == [])
  }

  /** An accepted order is tracked Filled, Partial or Active as the engine's reply says. */
  lemma FreshlyTracked(m: Books, item: Item, r: AddReply, now: u64)
    requires r.Accepted? && TradesOk(m, item.level.book, item.level.side.Opposite(), r.trades)
    requires Executed(r.trades) + r.remaining == item.quantity
    ensures TrackedAs(Track(item, r, now), item, r, now)
  {
    TradesPositive(m, item.level.book, item.level.side.Opposite(), r.trades);
  }

  // ---------------------------------------------------------------- publishing

  ghost function Publish(x: Exchange, l: Level): Exchange
  {
    x.(deltas := x.deltas + [Delta(l, Visible(x.books, l))])
  }

  function Prices(trades: seq<Trade>): seq<u128>
  {
    if trades == [] then [] else Prices(trades[..|trades| - 1]) + [trades[|trades| - 1].price]
  }

  /** Distinct prices in order of first occurrence. */
  function Distinct(prices: seq<u128>): seq<u128>
  {
    if prices == [] then []
    else
      var before, last := Distinct(prices[..|prices| - 1]), prices[|prices| - 1];
      if last in before then before else before + [last]
  }

  ghost function PublishAll(x: Exchange, book: BookId, side: Side, prices: seq<u128>): Exchange
  {
    if prices == [] then x
    else Publish(PublishAll(x, book, side, prices[..|prices| - 1]), Level(book, side, prices[|prices| - 1]))
  }

  /** `publish_consumed_maker_deltas`: one delta per distinct traded price, on the makers' side. */
  ghost function PublishConsumed(x: Exchange, book: BookId, taker: Side, trades: seq<Trade>): Exchange
  {
    PublishAll(x, book, taker.Opposite(), Distinct(Prices(trades)))
  }

  // ---------------------------------------------------------------- events

  datatype Event =
    | Add(id: OrderId, item: Item, reply: AddReply, now: u64)
    | Market(id: OrderId, book: BookId, side: Side, quantity: u64, reply: AddReply)
    | Cancel(book: BookId, id: OrderId, cancel: CancelReply, now: u64)
    | Modify(book: BookId, id: OrderId, price: Option<u128>, newQuantity: Option<u64>,
             cancel: CancelReply, newId: OrderId, reply: AddReply, now: u64)
    | CancelTracked(id: OrderId, found: bool, cancel: CancelReply)
    | Rollback(item: Item, id: OrderId, filled: u64, found: bool, cancel: CancelReply, now: u64)
    | Cleanup(threshold: int)
    | MakerAdd(id: OrderId, level: Level, quantity: u64, reply: AddReply)
    | MakerCancel(book: BookId, id: OrderId)

  predicate Fresh(x: Exchange, id: OrderId) { id !in x.books && id !in x.users && id !in x.orders }

  /** What the engine's contract, and globally unique order ids, promise of an event. */
  predicate Legal(x: Exchange, e: Event)
  {
    match e
    case Add(id, item, r, _) => Fresh(x, id) && LimitOk(x.books, id, item.level, item.quantity, r)
    case Market(id, book, side, quantity, r) => Fresh(x, id) && AddOk(x.books, id, book, side, quantity, r)
    case Cancel(_, _, _, _) => true
    case Modify(book, id, price, quantity, cancel, newId, r, _) =>
      Replaces(x, e) ==>
        Fresh(x, newId) && newId != id &&
        LimitOk(x.books - {id}, newId, NewItem(x, e).level, NewItem(x, e).quantity, r)
    case CancelTracked(_, _, _) => true
    case Rollback(item, id, filled, _, _, _) =>
      && item.timeInForce.Gtc? && id in x.users && filled <= item.quantity
      && (id in x.orders ==> x.orders[id].level == item.level && x.orders[id].originalQuantity == item.quantity &&
                             x.orders[id].filledQuantity == filled && !x.orders[id].status.Canceled?)
      && (RestsIn(x.books, item.level.book, id) ==> x.books[id].level == item.level && x.books[id].quantity <= item.quantity - filled)
    case Cleanup(_) => true
    case MakerAdd(id, level, quantity, r) => Fresh(x, id) && LimitOk(x.books, id, level, quantity, r)
    case MakerCancel(_, id) => id !in x.users
  }

  // ---------------------------------------------------------------- what each handler does

  ghost function Place(x: Exchange, id: OrderId, item: Item, r: AddReply, now: u64): Exchange
    requires AddOk(x.books, id, item.level.book, item.level.side, item.quantity, r)
  {
    if r.Refused? then x
    else
      var placed := Exchange(AfterAdd(x.books, id, item.level, Rests(item.timeInForce), r),
                             x.orders[id := Track(item, r, now)], x.users + {id}, x.deltas);
      var consumed := if Executed(r.trades) > 0 then PublishConsumed(placed, item.level.book, item.level.side, r.trades) else placed;
      if r.remaining > 0 then Publish(consumed, item.level) else consumed
  }

  ghost function Take(x: Exchange, id: OrderId, book: BookId, side: Side, quantity: u64, r: AddReply): Exchange
    requires AddOk(x.books, id, book, side, quantity, r)
  {
    if r.Refused? then x
    else
      var hit := x.(books := AfterAdd(x.books, id, Level(book, side, 0), false, r));
      if Executed(r.trades) > 0 then PublishConsumed(hit, book, side, r.trades) else hit
  }

  ghost function CancelOne(x: Exchange, book: BookId, id: OrderId, cancel: CancelReply, now: u64): Exchange
  {
    if cancel.Errored? then x
    else if RestsIn(x.books, book, id) then
      Publish(x.(books := x.books - {id}, orders := x.orders - {id}), x.books[id].level)
    else if id in x.orders then
      var o := x.orders[id];
      x.(orders := x.orders[id := o.(filledQuantity := o.originalQuantity, remainingQuantity := 0,
                                     status := OrderStatus.Filled, updatedAtMs := now)])
    else x
  }

  /** The request of a modify, once resolved against the resting order. */
  function NewItem(x: Exchange, e: Event): Item
    requires e.Modify? && e.id in x.books
  {
    var resting := x.books[e.id];
    Item(resting.level.(price := if e.price.Some? then e.price.value else resting.level.price),
         if e.newQuantity.Some? then e.newQuantity.value else resting.quantity, Gtc)
  }

  /** A modify cancels the order: something to change, it rests there, and the new values are valid. */
  predicate Withdraws(x: Exchange, e: Event)
    requires e.Modify?
  {
    && (e.price.Some? || e.newQuantity.Some?)
    && RestsIn(x.books, e.book, e.id)
    && NewItem(x, e).level.price > 0 && NewItem(x, e).quantity > 0
  }

  /** A modify reaches the replacement once that cancel is answered. */
  predicate Replaces(x: Exchange, e: Event)
    requires e.Modify?
  {
    Withdraws(x, e) && e.cancel.Answered?
  }

  /** Modify stops after the cancel of the old order: its level is published, its tracking gone. */
  ghost function Withdrawn(x: Exchange, id: OrderId): Exchange
    requires id in x.books
  {
    Publish(x.(books := x.books - {id}, orders := x.orders - {id}), x.books[id].level)
  }

  ghost function Replace(x: Exchange, e: Event): Exchange
    requires e.Modify? && Legal(x, e) && Replaces(x, e)
  {
    var item, y := NewItem(x, e), Withdrawn(x, e.id);
    if e.reply.Refused? then y
    else
      var o := OrderInfo(item.level, item.quantity, item.quantity, 0, Active, Gtc, e.now, e.now);
      Publish(Exchange(AfterAdd(y.books, e.newId, item.level, true, e.reply),
                       y.orders[e.newId := o], y.users + {e.newId}, y.deltas), item.level)
  }

  ghost function CancelByTracking(x: Exchange, id: OrderId, found: bool, cancel: CancelReply): Exchange
  {
    if id in x.orders && found && cancel.Answered? && RestsIn(x.books, x.orders[id].level.book, id) then
      Publish(x.(books := x.books - {id}, orders := x.orders - {id}), x.orders[id].level)
    else x
  }

  /** The tracked entry after an order that filled on submit could not be rolled back. */
  function Kept(o: OrderInfo, filled: u64, cleared: bool, now: u64): OrderInfo
  {
    if cleared then
      o.(filledQuantity := filled, remainingQuantity := 0, updatedAtMs := now,
         status := if filled >= o.originalQuantity then OrderStatus.Filled else Canceled)
    else
      o.(filledQuantity := filled, remainingQuantity := o.originalQuantity - Min(filled, o.originalQuantity),
         status := Partial, updatedAtMs := now)
  }

  ghost function RollbackOne(x: Exchange, item: Item, id: OrderId, filled: u64, found: bool, cancel: CancelReply, now: u64): Exchange
  {
    var answered := found && cancel.Answered?;
    var y := if answered && RestsIn(x.books, item.level.book, id)
             then Publish(x.(books := x.books - {id}), item.level) else x;
    if filled > 0 then
      if id in y.orders then y.(orders := y.orders[id := Kept(y.orders[id], filled, answered, now)]) else y
    else if answered then y.(orders := y.orders - {id})
    else y
  }

  /** `cleanup_old_orders`: drops finished orders last touched before the threshold. */
  predicate Expired(o: OrderInfo, threshold: int)
  {
    (o.status.Filled? || o.status.Canceled?) && o.updatedAtMs < threshold
  }

  ghost function Apply(x: Exchange, e: Event): Exchange
    requires Legal(x, e)
  {
    match e
    case Add(id, item, r, now) => Place(x, id, item, r, now)
    case Market(id, book, side, quantity, r) => Take(x, id, book, side, quantity, r)
    case Cancel(book, id, cancel, now) => CancelOne(x, book, id, cancel, now)
    case Modify(_, _, _, _, _, _, _, _) => if Replaces(x, e) then Replace(x, e) else x
    case CancelTracked(id, found, cancel) => CancelByTracking(x, id, found, cancel)
    case Rollback(item, id, filled, found, cancel, now) => RollbackOne(x, item, id, filled, found, cancel, now)
    case Cleanup(threshold) => x.(orders := map id | id in x.orders && !Expired(x.orders[id], threshold) :: x.orders[id])
    case MakerAdd(id, level, quantity, r) => x.(books := AfterAdd(x.books, id, level, true, r))
    case MakerCancel(book, id) => x.(books := AfterCancel(x.books, book, id, Answered))
  }

  /** What an event asks of the engine, in order. */
  function Calls(x: Exchange, e: Event): seq<EngineCall>
  {
    match e
    case Add(id, item, r, _) => [AskAdd(id, item.level, item.quantity, Rests(item.timeInForce), r)]
    case Market(id, book, side, quantity, r) => [AskMarket(id, book, side, quantity, r)]
    case Cancel(book, id, cancel, _) => [AskCancel(book, id, cancel)]
    case Modify(book, id, _, _, cancel, newId, r, _) =>
      if !Withdraws(x, e) then []
      else [AskCancel(book, id, cancel)] +
           if cancel.Answered? then [AskAdd(newId, NewItem(x, e).level, NewItem(x, e).quantity, true, r)] else []
    case CancelTracked(id, found, cancel) => if id in x.orders then PathCalls(x.orders[id].level.book, id, found, cancel) else []
    case Rollback(item, id, _, found, cancel, _) => PathCalls(item.level.book, id, found, cancel)
    case Cleanup(_) => []
    case MakerAdd(id, level, quantity, r) => [AskAdd(id, level, quantity, true, r)]
    case MakerCancel(book, id) => [AskCancel(book, id, Answered)]
  }

  /** A cancel through a path: the cancel is sent if and only if the book was found. */
  function PathCalls(book: BookId, id: OrderId, found: bool, cancel: CancelReply): seq<EngineCall>
  {
    [AskPath(book, found)] + if found then [AskCancel(book, id, cancel)] else []
  }

  // ---------------------------------------------------------------- runs

  ghost predicate LegalRun(x: Exchange, events: seq<Event>)
    decreases |events|
  {
    events == [] || (Legal(x, events[0]) && LegalRun(Apply(x, events[0]), events[1..]))
  }

  ghost function After(x: Exchange, events: seq<Event>): Exchange
    requires LegalRun(x, events)
    decreases |events|
  {
    if events == [] then x else After(Apply(x, events[0]), events[1..])
  }

  ghost function RunCalls(x: Exchange, events: seq<Event>): seq<EngineCall>
    requires LegalRun(x, events)
    decreases |events|
  {
    if events == [] then [] else Calls(x, events[0]) + RunCalls(Apply(x, events[0]), events[1..])
  }

  lemma {:induction false} RunThen(x: Exchange, first: seq<Event>, second: seq<Event>)
    requires LegalRun(x, first) && LegalRun(After(x, first), second)
    ensures LegalRun(x, first + second) && After(x, first + second) == After(After(x, first), second)
    ensures RunCalls(x, first + second) == RunCalls(x, first) + RunCalls(After(x, first), second)
    decreases |first|
  {
    hide Apply, Legal, Calls;
    if first == [] {
      assert first + second == second;
    } else {
      RunThen(Apply(x, first[0]), first[1..], second);
      assert (first + second)[0] == first[0] && (first + second)[1..] == first[1..] + second;
    }
  }

  lemma RunOne(x: Exchange, e: Event)
    requires Legal(x, e)
    ensures LegalRun(x, [e]) && After(x, [e]) == Apply(x, e) && RunCalls(x, [e]) == Calls(x, e)
  {
  }

  lemma NoEvents(x: Exchange)
    ensures LegalRun(x, []) && After(x, []) == x && RunCalls(x, []) == []
  {
  }

  lemma Extend(x: Exchange, events: seq<Event>, e: Event)
    requires LegalRun(x, events) && Legal(After(x, events), e)
    ensures LegalRun(x, events + [e]) && After(x, events + [e]) == Apply(After(x, events), e)
    ensures RunCalls(x, events + [e]) == RunCalls(x, events) + Calls(After(x, events), e)
  {
    RunOne(After(x, events), e);
    RunThen(x, events, [e]);
  }

  /** One event more, and what it asked of the engine. */
  lemma ExtendAsked(x: Exchange, events: seq<Event>, e: Event, before: seq<EngineCall>, asked: seq<EngineCall>, after: seq<EngineCall>)
    requires LegalRun(x, events) && Legal(After(x, events), e)
    requires asked == before + RunCalls(x, events) && after == asked + Calls(After(x, events), e)
    ensures LegalRun(x, events + [e]) && After(x, events + [e]) == Apply(After(x, events), e)
    ensures after == before + RunCalls(x, events + [e])
  {
    Extend(x, events, e);
  }
}
