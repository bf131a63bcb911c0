/**
 What tracked orders say has filled against what has executed (src/api/handlers.rs). Executions
 are counted as the engine's trades happen, apart from the handlers' own bookkeeping.
 */
module Executions {
  import opened Machine
  import opened Instruments
  import opened Books
  import opened Exchange
  import opened Deltas
  import opened Tracking

  /** How much of each order has executed, as taker or maker. */
  type Ledger = map<OrderId, nat>

  function Done(ex: Ledger, id: OrderId): nat { if id in ex then ex[id] else 0 }

  /** Each trade executes its quantity against its maker. */
  function Fill(ex: Ledger, trades: seq<Trade>): Ledger
    decreases |trades|
  {
    if trades == [] then ex else Fill(ex[trades[0].maker := Done(ex, trades[0].maker) + trades[0].quantity], trades[1..])
  }

  /** An accepted order starts with what it traded as taker; its makers fill. */
  function Took(ex: Ledger, id: OrderId, r: AddReply): Ledger
  {
    if r.Refused? then ex else Fill(ex, r.trades)[id := Executed(r.trades)]
  }

  ghost function Counted(x: Exchange, ex: Ledger, e: Event): Ledger
    requires Legal(x, e)
  {
    match e
    case Add(id, _, r, _) => Took(ex, id, r)
    case Market(_, _, _, _, r) => if r.Refused? then ex else Fill(ex, r.trades)
    case Modify(_, _, _, _, _, newId, r, _) => if Replaces(x, e) then Took(ex, newId, r) else ex
    case MakerAdd(id, _, _, r) => Took(ex, id, r)
    case _ => ex
  }

  function RestOf(m: Books, id: OrderId): nat { if id in m then m[id].quantity else 0 }

  // ---------------------------------------------------------------- conservation

  /** A match moves quantity from resting to executed, order by order. */
  lemma {:induction false} TradesConserve(m: Books, ex: Ledger, book: BookId, side: Side, trades: seq<Trade>, id: OrderId)
    requires TradesOk(m, book, side, trades)
    ensures RestOf(ApplyTrades(m, trades), id) + Done(Fill(ex, trades), id) == RestOf(m, id) + Done(ex, id)
    decreases |trades|
  {
    if trades != [] {
      var t := trades[0];
      TradesConserve(ApplyTrade(m, t), ex[t.maker := Done(ex, t.maker) + t.quantity], book, side, trades[1..], id);
    }
  }

  /** Makers that do not rest are not filled. */
  lemma {:induction false} OnlyMakersFill(m: Books, ex: Ledger, book: BookId, side: Side, trades: seq<Trade>, id: OrderId)
    requires TradesOk(m, book, side, trades) && id !in m
    ensures Done(Fill(ex, trades), id) == Done(ex, id) && id !in ApplyTrades(m, trades)
    decreases |trades|
  {
    if trades != [] {
      var t := trades[0];
      OnlyMakersFill(ApplyTrade(m, t), ex[t.maker := Done(ex, t.maker) + t.quantity], book, side, trades[1..], id);
    }
  }

  lemma {:induction false} TradesLeavePositive(m: Books, book: BookId, side: Side, trades: seq<Trade>)
    requires TradesOk(m, book, side, trades) && PositiveRest(m)
    ensures PositiveRest(ApplyTrades(m, trades))
    decreases |trades|
  {
    if trades != [] { TradesLeavePositive(ApplyTrade(m, trades[0]), book, side, trades[1..]); }
  }

  // ---------------------------------------------------------------- the invariant

  ghost predicate PositiveRest(m: Books) { forall id :: id in m ==> m[id].quantity > 0 }

  /**
   What the tracking of one order keeps: no more is reported filled than has executed, and no more
   has executed than was asked. What may rest and was not withdrawn by a rollback is executed or
   still resting; what may not rest has executed exactly what is reported.
   */
  ghost predicate EntryTrue(o: OrderInfo, resting: nat, executed: nat)
  {
    && o.filledQuantity <= executed <= o.originalQuantity
    && (Rests(o.timeInForce) && !o.status.Canceled? ==> executed + resting == o.originalQuantity)
    && (!Rests(o.timeInForce) ==> resting == 0 && executed <= o.filledQuantity)
    && executed + resting <= o.originalQuantity
    && (o.status.Canceled? ==> resting == 0)
  }

  ghost predicate Truthful(x: Exchange, ex: Ledger)
  {
    && Tracked(x) && PositiveRest(x.books)
    && forall id :: id in x.orders ==> EntryTrue(x.orders[id], RestOf(x.books, id), Done(ex, id))
  }

  /** A cancel that finds nothing resting on its book reports the order filled. */
  predicate Marks(x: Exchange, e: Event)
  {
    e.Cancel? && e.cancel.Answered? && !RestsIn(x.books, e.book, e.id) && e.id in x.orders
  }

  /**
   When that report is true: an order that may rest is executed in full once it rests nowhere, one
   that may not when nothing remained of it; of one a rollback withdrew only the count can tell.
   */
  ghost predicate MarkIsTrue(x: Exchange, ex: Ledger, id: OrderId)
    requires id in x.orders
  {
    var o := x.orders[id];
    if o.status.Canceled? then Done(ex, id) == o.originalQuantity
    else if Rests(o.timeInForce) then id !in x.books
    else o.remainingQuantity == 0
  }

  /** No cancel breaks tracking, and none reports as filled what has not executed. */
  ghost predicate Honest(x: Exchange, ex: Ledger, e: Event)
  {
    OwnBook(x, e) && (Marks(x, e) ==> MarkIsTrue(x, ex, e.id))
  }

  // ---------------------------------------------------------------- every step

  lemma AddConserves(m: Books, ex: Ledger, id: OrderId, own: Level, quantity: u64, rests: bool, r: AddReply, other: OrderId)
    requires AddOk(m, id, own.book, own.side, quantity, r)
    ensures other != id ==> RestOf(AfterAdd(m, id, own, rests, r), other) + Done(Took(ex, id, r), other) == RestOf(m, other) + Done(ex, other)
    ensures other != id && other !in m ==> Done(Took(ex, id, r), other) == Done(ex, other) && other !in AfterAdd(m, id, own, rests, r)
    ensures r.Accepted? ==> Done(Took(ex, id, r), id) == Executed(r.trades) &&
                            RestOf(AfterAdd(m, id, own, rests, r), id) == if rests then r.remaining else 0
    ensures PositiveRest(m) ==> PositiveRest(AfterAdd(m, id, own, rests, r))
  {
    if r.Accepted? {
      TradesConserve(m, ex, own.book, own.side.Opposite(), r.trades, other);
      if other !in m { OnlyMakersFill(m, ex, own.book, own.side.Opposite(), r.trades, other); }
      OnlyMakersFill(m, ex, own.book, own.side.Opposite(), r.trades, id);
      if PositiveRest(m) { TradesLeavePositive(m, own.book, own.side.Opposite(), r.trades); }
    }
  }

  /** Trading on keeps an entry true: what it loses resting it gains executed. */
  lemma EntryKept(o: OrderInfo, resting: nat, executed: nat, resting': nat, executed': nat)
    requires EntryTrue(o, resting, executed) && resting' + executed' == resting + executed && executed <= executed'
    requires resting == 0 ==> executed' == executed
    ensures EntryTrue(o, resting', executed')
  {
  }

  lemma {:induction false} FillGrows(ex: Ledger, trades: seq<Trade>, id: OrderId)
    ensures Done(ex, id) <= Done(Fill(ex, trades), id)
    decreases |trades|
  {
    if trades != [] { FillGrows(ex[trades[0].maker := Done(ex, trades[0].maker) + trades[0].quantity], trades[1..], id); }
  }

  lemma AddStep(x: Exchange, ex: Ledger, id: OrderId, item: Item, r: AddReply, now: u64)
    requires Truthful(x, ex) && Legal(x, Add(id, item, r, now))
    ensures Truthful(Place(x, id, item, r, now), Took(ex, id, r))
  {
    hide EntryTrue;
    AddKeeps(x, id, item, r, now);
    if r.Accepted? {
      var y, ex' := Place(x, id, item, r, now), Took(ex, id, r);
      PlaceShape(x, id, item, r, now);
      hide Place, AfterAdd;
      AddConserves(x.books, ex, id, item.level, item.quantity, Rests(item.timeInForce), r, id);
      NewEntry(item, r, now);
      forall other | other in x.orders ensures EntryTrue(x.orders[other], RestOf(y.books, other), Done(ex', other)) {
        OthersKept(x.books, ex, id, item.level, item.quantity, Rests(item.timeInForce), r, other, x.orders[other]);
      }
    }
  }

  lemma NewEntry(item: Item, r: AddReply, now: u64)
    requires r.Accepted? && Executed(r.trades) + r.remaining == item.quantity
    ensures EntryTrue(Track(item, r, now), if Rests(item.timeInForce) then r.remaining else 0, Executed(r.trades))
  {
  }

  lemma OthersKept(m: Books, ex: Ledger, id: OrderId, own: Level, quantity: u64, rests: bool, r: AddReply, other: OrderId, o: OrderInfo)
    requires AddOk(m, id, own.book, own.side, quantity, r) && other != id && PositiveRest(m)
    requires EntryTrue(o, RestOf(m, other), Done(ex, other))
    ensures EntryTrue(o, RestOf(AfterAdd(m, id, own, rests, r), other), Done(Took(ex, id, r), other))
  {
    hide EntryTrue;
    AddConserves(m, ex, id, own, quantity, rests, r, other);
    if r.Accepted? { FillGrows(ex, r.trades, other); }
    EntryKept(o, RestOf(m, other), Done(ex, other), RestOf(AfterAdd(m, id, own, rests, r), other), Done(Took(ex, id, r), other));
  }

  lemma MarketStep(x: Exchange, ex: Ledger, e: Event)
    requires Truthful(x, ex) && e.Market? && Legal(x, e)
    ensures Truthful(Apply(x, e), Counted(x, ex, e))
  {
    hide EntryTrue;
    StepTracks(x, e);
    if e.reply.Accepted? {
      TakeShape(x, e.id, e.book, e.side, e.quantity, e.reply);
      var makers, trades := e.side.Opposite(), e.reply.trades;
      TradesLeavePositive(x.books, e.book, makers, trades);
      forall id | id in x.orders ensures EntryTrue(x.orders[id], RestOf(ApplyTrades(x.books, trades), id), Done(Fill(ex, trades), id)) {
        TradesConserve(x.books, ex, e.book, makers, trades, id);
        if id !in x.books { OnlyMakersFill(x.books, ex, e.book, makers, trades, id); }
        FillGrows(ex, trades, id);
        EntryKept(x.orders[id], RestOf(x.books, id), Done(ex, id), RestOf(ApplyTrades(x.books, trades), id), Done(Fill(ex, trades), id));
      }
    }
  }

  lemma MakerStep(x: Exchange, ex: Ledger, e: Event)
    requires Truthful(x, ex) && e.MakerAdd? && Legal(x, e)
    ensures Truthful(Apply(x, e), Counted(x, ex, e))
  {
    hide EntryTrue;
    StepTracks(x, e);
    AddConserves(x.books, ex, e.id, e.level, e.quantity, true, e.reply, e.id);
    forall id | id in x.orders ensures EntryTrue(x.orders[id], RestOf(Apply(x, e).books, id), Done(Took(ex, e.id, e.reply), id)) {
      OthersKept(x.books, ex, e.id, e.level, e.quantity, true, e.reply, id, x.orders[id]);
    }
  }

  lemma ModifyStep(x: Exchange, ex: Ledger, e: Event)
    requires Truthful(x, ex) && e.Modify? && Legal(x, e)
    ensures Truthful(Apply(x, e), Counted(x, ex, e))
  {
    hide EntryTrue;
    StepTracks(x, e);
    if Replaces(x, e) && e.reply.Accepted? {
      var y, item, z := Withdrawn(x, e.id), NewItem(x, e), Apply(x, e);
      AddConserves(y.books, ex, e.newId, item.level, item.quantity, true, e.reply, e.newId);
      ReplacedEntry(z.orders[e.newId], e.reply);
      forall id | id in y.orders ensures EntryTrue(y.orders[id], RestOf(z.books, id), Done(Took(ex, e.newId, e.reply), id)) {
        OthersKept(y.books, ex, e.newId, item.level, item.quantity, true, e.reply, id, y.orders[id]);
      }
    }
  }

  lemma ReplacedEntry(o: OrderInfo, r: AddReply)
    requires r.Accepted? && Executed(r.trades) + r.remaining == o.originalQuantity
    requires o.filledQuantity == 0 && o.timeInForce.Gtc? && o.status.Active?
    ensures EntryTrue(o, r.remaining, Executed(r.trades))
  {
  }

  lemma RollbackStep(x: Exchange, ex: Ledger, e: Event)
    requires Truthful(x, ex) && e.Rollback? && Legal(x, e)
    ensures Truthful(Apply(x, e), Counted(x, ex, e))
  {
    StepTracks(x, e);
  }

  /**
   Reported fills stay true exactly when the step does not report as filled an order that has not
   executed in full, for every step in which cancels name their order's own book.
   */
  lemma StepTruthfulIff(x: Exchange, ex: Ledger, e: Event)
    requires Truthful(x, ex) && Legal(x, e) && OwnBook(x, e)
    ensures Truthful(Apply(x, e), Counted(x, ex, e)) <==> Honest(x, ex, e)
  {
    match e
    case Add(id, item, r, now) => AddStep(x, ex, id, item, r, now);
    case Market(_, _, _, _, _) => MarketStep(x, ex, e);
    case Cancel(_, _, _, _) => CancelStep(x, ex, e);
    case Modify(_, _, _, _, _, _, _, _) => ModifyStep(x, ex, e);
    case CancelTracked(_, _, _) => StepTracks(x, e);
    case Rollback(_, _, _, _, _, _) => RollbackStep(x, ex, e);
    case Cleanup(_) => StepTracks(x, e);
    case MakerAdd(_, _, _, _) => MakerStep(x, ex, e);
    case MakerCancel(_, _) => StepTracks(x, e);
  }

  lemma CancelStep(x: Exchange, ex: Ledger, e: Event)
    requires Truthful(x, ex) && e.Cancel? && OwnBook(x, e)
    ensures Truthful(Apply(x, e), ex) <==> Honest(x, ex, e)
  {
    StepTracks(x, e);
    if Marks(x, e) { MarkStep(x, ex, e); }
  }

  lemma MarkStep(x: Exchange, ex: Ledger, e: Event)
    requires Truthful(x, ex) && OwnBook(x, e) && Marks(x, e)
    ensures Truthful(Apply(x, e), ex) <==> MarkIsTrue(x, ex, e.id)
  {
    StepTracks(x, e);
    var o := x.orders[e.id];
    assert e.id !in x.books && RestOf(x.books, e.id) == 0;
    assert EntryTrue(o, 0, Done(ex, e.id));
  }

  // ---------------------------------------------------------------- whole runs

  ghost function RunExecuted(x: Exchange, ex: Ledger, events: seq<Event>): Ledger
    requires LegalRun(x, events)
    decreases |events|
  {
    if events == [] then ex else RunExecuted(Apply(x, events[0]), Counted(x, ex, events[0]), events[1..])
  }

  ghost predicate AllHonest(x: Exchange, ex: Ledger, events: seq<Event>)
    requires LegalRun(x, events)
    decreases |events|
  {
    events == [] || (Honest(x, ex, events[0]) && AllHonest(Apply(x, events[0]), Counted(x, ex, events[0]), events[1..]))
  }

  /** Over every such run no tracked order is reported filled beyond what executed, and none executes beyond what was asked. */
  lemma {:induction false} RunTruthful(x: Exchange, ex: Ledger, events: seq<Event>)
    requires Truthful(x, ex) && LegalRun(x, events) && AllHonest(x, ex, events)
    ensures Truthful(After(x, events), RunExecuted(x, ex, events))
    decreases |events|
  {
    if events != [] {
      StepTruthfulIff(x, ex, events[0]);
      RunTruthful(Apply(x, events[0]), Counted(x, ex, events[0]), events[1..]);
    }
  }

  lemma StartTruthful()
    ensures Truthful(EMPTY, map[])
  {
  }

  /**
   An order that may not rest, of which 2 of 5 traded, then a cancel naming its own book: the
   order is tracked as filled in full.
   */
  lemma UnexecutedReportedFilled(book: BookId) returns (events: seq<Event>)
    ensures events == [Add(0, Item(Level(book, Sell, 100), 2, Gtc), Accepted([], 2), 0),
                       Add(1, Item(Level(book, Buy, 100), 5, Ioc), Accepted([Trade(100, 2, 0)], 3), 0),
                       Cancel(book, 1, Answered, 0)]
    ensures LegalRun(EMPTY, events) && OwnBooks(EMPTY, events)
    ensures var x := After(EMPTY, events);
            && 1 in x.orders && x.orders[1].filledQuantity == 5 && x.orders[1].status == OrderStatus.Filled
            && Done(RunExecuted(EMPTY, map[], events), 1) == 2
  {
    hide LegalRun, After, OwnBooks, RunExecuted, Apply, Counted, Legal;
    var ask := Item(Level(book, Sell, 100), 2, Gtc);
    var x1 := RestsAlone(EMPTY, 0, ask);
    var x2 := TakesTwo(x1, book);
    MarkedFilled(x2, book);
    events := [Add(0, ask, Accepted([], 2), 0), Add(1, Item(Level(book, Buy, 100), 5, Ioc), Accepted([Trade(100, 2, 0)], 3), 0),
               Cancel(book, 1, Answered, 0)];
    ThreeEvents(EMPTY, map[], events[0], events[1], events[2]);
    TakenIsTwo(x1, EMPTY, ask, events[1], events[2]);
  }

  lemma TakesTwo(x: Exchange, book: BookId) returns (y: Exchange)
    requires x.books == map[0 := Resting(Level(book, Sell, 100), 2)] && Fresh(x, 1)
    ensures var e := Add(1, Item(Level(book, Buy, 100), 5, Ioc), Accepted([Trade(100, 2, 0)], 3), 0);
            Legal(x, e) && y == Apply(x, e) && y.books == map[] && 1 in y.orders && y.orders[1].originalQuantity == 5
  {
    var r, t := Accepted([Trade(100, 2, 0)], 3), Trade(100, 2, 0);
    assert [t][1..] == [] && Executed([]) == 0 && Executed([t]) == 2;
    assert ApplyTrade(x.books, t) == map[] && TradesOk(map[], book, Sell, []) && ApplyTrades(map[], []) == map[];
    PlaceShape(x, 1, Item(Level(book, Buy, 100), 5, Ioc), r, 0);
    y := Place(x, 1, Item(Level(book, Buy, 100), 5, Ioc), r, 0);
  }

  lemma MarkedFilled(x: Exchange, book: BookId)
    requires 1 in x.orders && x.orders[1].originalQuantity == 5 && 1 !in x.books
    ensures var e := Cancel(book, 1, Answered, 0);
            && Legal(x, e) && OwnBook(x, e) && 1 in Apply(x, e).orders
            && Apply(x, e).orders[1].filledQuantity == 5 && Apply(x, e).orders[1].status == OrderStatus.Filled
  {
  }

  lemma TakenIsTwo(x: Exchange, start: Exchange, ask: Item, second: Event, last: Event)
    requires second.Add? && second.id == 1 && second.reply == Accepted([Trade(100, 2, 0)], 3) && last.Cancel? && Legal(x, second)
    requires Legal(start, Add(0, ask, Accepted([], 2), 0)) && x == Apply(start, Add(0, ask, Accepted([], 2), 0))
    requires Legal(Apply(x, second), last)
    ensures Done(Counted(Apply(x, second), Counted(x, Counted(start, map[], Add(0, ask, Accepted([], 2), 0)), second), last), 1) == 2
  {
    hide Apply, Legal;
    assert [Trade(100, 2, 0)][1..] == [] && Executed([]) == 0;
  }

  lemma ThreeEvents(x: Exchange, ex: Ledger, a: Event, b: Event, c: Event)
    requires Legal(x, a) && Legal(Apply(x, a), b) && Legal(Apply(Apply(x, a), b), c)
    requires OwnBook(x, a) && OwnBook(Apply(x, a), b) && OwnBook(Apply(Apply(x, a), b), c)
    ensures var y := Apply(x, a);
            var z := Apply(y, b);
            && LegalRun(x, [a, b, c]) && OwnBooks(x, [a, b, c]) && After(x, [a, b, c]) == Apply(z, c)
            && RunExecuted(x, ex, [a, b, c]) == Counted(z, Counted(y, Counted(x, ex, a), b), c)
  {
    var y := Apply(x, a);
    var z := Apply(y, b);
    var e1 := Counted(x, ex, a);
    var e2 := Counted(y, e1, b);
    hide Apply, Legal, Counted, OwnBook;
    assert LegalRun(Apply(z, c), []) && OwnBooks(Apply(z, c), []);
    FirstEvent(z, e2, c, []);
    FirstEvent(y, e1, b, [c]);
    FirstEvent(x, ex, a, [b, c]);
    assert [c] + [] == [c] && [b] + [c] == [b, c] && [a] + [b, c] == [a, b, c];
  }

  lemma FirstEvent(x: Exchange, ex: Ledger, e: Event, rest: seq<Event>)
    requires Legal(x, e) && LegalRun(Apply(x, e), rest) && OwnBook(x, e) && OwnBooks(Apply(x, e), rest)
    ensures LegalRun(x, [e] + rest) && OwnBooks(x, [e] + rest) && After(x, [e] + rest) == After(Apply(x, e), rest)
    ensures RunExecuted(x, ex, [e] + rest) == RunExecuted(Apply(x, e), Counted(x, ex, e), rest)
  {
    hide Apply, Legal, Counted, OwnBook;
    assert ([e] + rest)[1..] == rest;
  }
}
