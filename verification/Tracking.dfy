/**
 Order tracking over whole runs: every user order resting on a book is tracked as open, and
 subscribers of the delta stream stay in sync (src/api/handlers.rs, src/state.rs).
 */
module Tracking {
  import opened Machine
  import opened Instruments
  import opened Books
  import opened Exchange
  import opened Deltas

  /** Only user orders are tracked, on the level they rest on. */
  ghost predicate LevelsAgree(x: Exchange)
  {
    x.orders.Keys <= x.users && TrackedLevels(x)
  }

  /** Filled + remaining never exceeds the original quantity, and falls short only for a canceled order. */
  ghost predicate QuantitiesAdd(x: Exchange)
  {
    forall id :: id in x.orders ==>
      var o := x.orders[id];
      && o.filledQuantity + o.remainingQuantity <= o.originalQuantity
      && (!o.status.Canceled? ==> o.filledQuantity + o.remainingQuantity == o.originalQuantity)
  }

  predicate Open(o: OrderInfo) { o.status.Active? || o.status.Partial? }

  /** Every resting user order is tracked as open, with at least what still rests remaining. */
  ghost predicate RestingTracked(x: Exchange)
  {
    forall id :: id in x.books && id in x.users ==>
      id in x.orders && Open(x.orders[id]) && x.books[id].quantity <= x.orders[id].remainingQuantity
  }

  ghost predicate Tracked(x: Exchange) { LevelsAgree(x) && QuantitiesAdd(x) && RestingTracked(x) }

  /** A cancel request names the book its order rests on. */
  predicate OwnBook(x: Exchange, e: Event)
  {
    e.Cancel? && e.cancel.Answered? && e.id in x.users && e.id in x.books ==> x.books[e.id].level.book == e.book
  }

  // ---------------------------------------------------------------- every step

  lemma AddShape(m: Books, id: OrderId, own: Level, quantity: u64, rests: bool, r: AddReply, other: OrderId)
    requires AddOk(m, id, own.book, own.side, quantity, r)
    ensures other in AfterAdd(m, id, own, rests, r) && other != id ==>
              other in m && AfterAdd(m, id, own, rests, r)[other].level == m[other].level &&
              AfterAdd(m, id, own, rests, r)[other].quantity <= m[other].quantity
    ensures id in AfterAdd(m, id, own, rests, r) ==>
              r.Accepted? && r.remaining > 0 && AfterAdd(m, id, own, rests, r)[id] == Resting(own, r.remaining)
  {
    if r.Accepted? {
      TradesShrink(m, own.book, own.side.Opposite(), r.trades, other);
      TradesShrink(m, own.book, own.side.Opposite(), r.trades, id);
    }
  }

  lemma AddKeeps(x: Exchange, id: OrderId, item: Item, r: AddReply, now: u64)
    requires Tracked(x) && Legal(x, Add(id, item, r, now))
    ensures Tracked(Place(x, id, item, r, now))
  {
    if r.Accepted? {
      var y := Place(x, id, item, r, now);
      PlaceShape(x, id, item, r, now);
      forall other | other in y.books
        ensures other != id ==> other in x.books && y.books[other].level == x.books[other].level && y.books[other].quantity <= x.books[other].quantity
        ensures other == id ==> r.remaining > 0 && y.books[id] == Resting(item.level, r.remaining)
      {
        AddShape(x.books, id, item.level, item.quantity, Rests(item.timeInForce), r, other);
      }
    }
  }

  lemma PlaceShape(x: Exchange, id: OrderId, item: Item, r: AddReply, now: u64)
    requires AddOk(x.books, id, item.level.book, item.level.side, item.quantity, r) && r.Accepted?
    ensures var y := Place(x, id, item, r, now);
            && y.books == AfterAdd(x.books, id, item.level, Rests(item.timeInForce), r)
            && y.orders == x.orders[id := Track(item, r, now)] && y.users == x.users + {id}
  {
    var placed := Exchange(AfterAdd(x.books, id, item.level, Rests(item.timeInForce), r),
                           x.orders[id := Track(item, r, now)], x.users + {id}, x.deltas);
    SyncedStart(placed);
    PublishAllSyncs(placed, placed, {}, item.level.book, item.level.side.Opposite(), Distinct(Prices(r.trades)));
  }

  lemma TakeKeeps(x: Exchange, id: OrderId, book: BookId, side: Side, quantity: u64, r: AddReply)
    requires Tracked(x) && Legal(x, Market(id, book, side, quantity, r))
    ensures Tracked(Take(x, id, book, side, quantity, r))
  {
    if r.Accepted? {
      var y := Take(x, id, book, side, quantity, r);
      TakeShape(x, id, book, side, quantity, r);
      forall other | other in y.books
        ensures other in x.books && y.books[other].level == x.books[other].level && y.books[other].quantity <= x.books[other].quantity
      {
        TradesShrink(x.books, book, side.Opposite(), r.trades, other);
      }
    }
  }

  lemma TakeShape(x: Exchange, id: OrderId, book: BookId, side: Side, quantity: u64, r: AddReply)
    requires AddOk(x.books, id, book, side, quantity, r) && r.Accepted?
    ensures var y := Take(x, id, book, side, quantity, r);
            y.books == ApplyTrades(x.books, r.trades) && y.orders == x.orders && y.users == x.users
  {
    var hit := x.(books := AfterAdd(x.books, id, Level(book, side, 0), false, r));
    SyncedStart(hit);
    PublishAllSyncs(hit, hit, {}, book, side.Opposite(), Distinct(Prices(r.trades)));
  }

  lemma ModifyKeeps(x: Exchange, e: Event)
    requires Tracked(x) && e.Modify? && Legal(x, e)
    ensures Tracked(Apply(x, e))
  {
    if Replaces(x, e) && e.reply.Accepted? {
      var y, item, z := Withdrawn(x, e.id), NewItem(x, e), Apply(x, e);
      forall other | other in z.books
        ensures other != e.newId ==> other in y.books && z.books[other].level == y.books[other].level && z.books[other].quantity <= y.books[other].quantity
        ensures other == e.newId ==> z.books[other].level == item.level && z.books[other].quantity <= item.quantity
      {
        AddShape(y.books, e.newId, item.level, item.quantity, true, e.reply, other);
      }
    }
  }

  lemma MakerKeeps(x: Exchange, e: Event)
    requires Tracked(x) && e.MakerAdd? && Legal(x, e)
    ensures Tracked(Apply(x, e))
  {
    var y := Apply(x, e);
    forall other | other in y.books && other != e.id
      ensures other in x.books && y.books[other].level == x.books[other].level && y.books[other].quantity <= x.books[other].quantity
    {
      AddShape(x.books, e.id, e.level, e.quantity, true, e.reply, other);
    }
  }

  lemma RollbackKeeps(x: Exchange, e: Event)
    requires Tracked(x) && e.Rollback? && Legal(x, e)
    ensures Tracked(Apply(x, e))
  {
  }

  lemma StepTracks(x: Exchange, e: Event)
    requires Tracked(x) && Legal(x, e) && OwnBook(x, e)
    ensures Tracked(Apply(x, e))
  {
    match e
    case Add(id, item, r, now) => AddKeeps(x, id, item, r, now);
    case Market(id, book, side, quantity, r) => TakeKeeps(x, id, book, side, quantity, r);
    case Cancel(_, _, _, _) =>
    case Modify(_, _, _, _, _, _, _, _) => ModifyKeeps(x, e);
    case CancelTracked(_, _, _) =>
    case Rollback(_, _, _, _, _, _) => RollbackKeeps(x, e);
    case Cleanup(_) =>
    case MakerAdd(_, _, _, _) => MakerKeeps(x, e);
    case MakerCancel(_, _) =>
  }

  /**
   A single-order cancel keeps tracking safe exactly when it names the order's own book: on
   any other book the engine answers "not resting" and the live order is marked filled.
   */
  lemma CancelSafeIff(x: Exchange, book: BookId, id: OrderId, cancel: CancelReply, now: u64)
    requires Tracked(x)
    ensures Tracked(CancelOne(x, book, id, cancel, now)) <==> OwnBook(x, Cancel(book, id, cancel, now))
  {
  }

  // ---------------------------------------------------------------- whole runs

  ghost predicate OwnBooks(x: Exchange, events: seq<Event>)
    requires LegalRun(x, events)
    decreases |events|
  {
    events == [] || (OwnBook(x, events[0]) && OwnBooks(Apply(x, events[0]), events[1..]))
  }

  const EMPTY := Exchange(map[], map[], {}, [])

  /** From a tracked state, in particular the empty one, every run of requests keeps every resting user order tracked. */
  lemma {:induction false} RunTracks(x: Exchange, events: seq<Event>)
    requires Tracked(x) && LegalRun(x, events) && OwnBooks(x, events)
    ensures Tracked(After(x, events))
    decreases |events|
  {
    if events != [] {
      StepTracks(x, events[0]);
      RunTracks(Apply(x, events[0]), events[1..]);
    }
  }

  /** Cleaning up after any run drops no order that still rests. */
  lemma CleanupSparesResting(events: seq<Event>, threshold: int, id: OrderId)
    requires LegalRun(EMPTY, events) && OwnBooks(EMPTY, events)
    requires id in After(EMPTY, events).orders && id !in Apply(After(EMPTY, events), Cleanup(threshold)).orders
    ensures id !in After(EMPTY, events).books
  {
    RunTracks(EMPTY, events);
  }

  /** Levels stay agreed even when a cancel names the wrong book. */
  lemma StepAgrees(x: Exchange, e: Event)
    requires LevelsAgree(x) && Legal(x, e)
    ensures LevelsAgree(Apply(x, e))
  {
    var y := Apply(x, e);
    match e
    case Add(id, item, r, now) =>
      if r.Accepted? {
        PlaceShape(x, id, item, r, now);
        forall other | other in y.books && other in y.orders ensures y.books[other].level == y.orders[other].level {
          AddShape(x.books, id, item.level, item.quantity, Rests(item.timeInForce), r, other);
        }
      }
    case Market(id, book, side, quantity, r) =>
      if r.Accepted? {
        TakeShape(x, id, book, side, quantity, r);
        forall other | other in y.books && other in y.orders ensures y.books[other].level == y.orders[other].level {
          TradesShrink(x.books, book, side.Opposite(), r.trades, other);
        }
      }
    case Modify(_, _, _, _, _, _, _, _) =>
      if Replaces(x, e) && e.reply.Accepted? {
        var item := NewItem(x, e);
        forall other | other in y.books && other in y.orders ensures y.books[other].level == y.orders[other].level {
          AddShape(x.books - {e.id}, e.newId, item.level, item.quantity, true, e.reply, other);
        }
      }
    case MakerAdd(id, level, quantity, r) =>
      forall other | other in y.books && other in y.orders ensures y.books[other].level == y.orders[other].level {
        AddShape(x.books, id, level, quantity, true, r, other);
      }
    case Cancel(_, _, _, _) =>
    case CancelTracked(_, _, _) =>
    case Rollback(_, _, _, _, _, _) =>
    case Cleanup(_) =>
    case MakerCancel(_, _) =>
  }

  ghost predicate PublishedRun(x: Exchange, events: seq<Event>)
    requires LegalRun(x, events)
    decreases |events|
  {
    events == [] || (Published(x, events[0]) && PublishedRun(Apply(x, events[0]), events[1..]))
  }

  lemma {:induction false} StreamRefines(x: Exchange, events: seq<Event>)
    requires LevelsAgree(x) && LegalRun(x, events) && PublishedRun(x, events)
    ensures Synced(x, After(x, events))
    decreases |events|
  {
    SyncedStart(x);
    if events != [] {
      var y := Apply(x, events[0]);
      StepSyncs(x, events[0]);
      StepAgrees(x, events[0]);
      StreamRefines(y, events[1..]);
      SyncedTransitive(x, y, After(x, events));
    }
  }

  /** Every run keeps tracking and books on the same levels, wrong-book cancels included. */
  lemma {:induction false} RunAgrees(x: Exchange, events: seq<Event>)
    requires LevelsAgree(x) && LegalRun(x, events)
    ensures LevelsAgree(After(x, events))
    decreases |events|
  {
    if events != [] {
      StepAgrees(x, events[0]);
      RunAgrees(Apply(x, events[0]), events[1..]);
    }
  }

  /**
   A subscriber who takes a snapshot after any run and applies every later delta holds the
   visible quantity of every level, after any further run of adds, market orders, cancels, bulk
   submits, rollbacks, cancel-alls and modifies that do not cross. Market-maker calls publish
   nothing, so the further run may hold only those that change nothing.
   */
  lemma DeltaStreamRefinesBooks(before: seq<Event>, events: seq<Event>)
    requires LegalRun(EMPTY, before) && LegalRun(After(EMPTY, before), events) && PublishedRun(After(EMPTY, before), events)
    ensures Synced(After(EMPTY, before), After(After(EMPTY, before), events))
  {
    RunAgrees(EMPTY, before);
    StreamRefines(After(EMPTY, before), events);
  }

  // ---------------------------------------------------------------- two runs from the empty exchange

  /** A resting order, then a cancel that names another book: the live order is marked filled. */
  lemma WrongBookCancelRun(own: BookId, other: BookId) returns (events: seq<Event>)
    requires own != other
    ensures events == [Add(0, Item(Level(own, Buy, 90), 5, Gtc), Accepted([], 5), 0), Cancel(other, 0, Answered, 0)]
    ensures LegalRun(EMPTY, events) && !Tracked(After(EMPTY, events))
    ensures var x := After(EMPTY, events); 0 in x.books && 0 in x.orders && x.orders[0].status == OrderStatus.Filled
  {
    NoEvents(EMPTY);
    hide LegalRun, After;
    var item := Item(Level(own, Buy, 90), 5, Gtc);
    Extend(EMPTY, [], Add(0, item, Accepted([], 5), 0));
    events := [] + [Add(0, item, Accepted([], 5), 0)];
    PlaceShape(EMPTY, 0, item, Accepted([], 5), 0);
    Extend(EMPTY, events, Cancel(other, 0, Answered, 0));
    events := events + [Cancel(other, 0, Answered, 0)];
  }

  /** Being in sync with an earlier state is being in sync with any state that was. */
  lemma SyncedSince(a: Exchange, b: Exchange, c: Exchange)
    requires Synced(a, b) && Synced(a, c) && b.deltas <= c.deltas
    ensures Synced(b, c)
  {
    forall l: Level ensures Seen(c.deltas[|b.deltas|..], l, Visible(b.books, l)) == Visible(c.books, l) {
      assert c.deltas[|a.deltas|..] == b.deltas[|a.deltas|..] + c.deltas[|b.deltas|..];
      SeenConcat(b.deltas[|a.deltas|..], c.deltas[|b.deltas|..], l, Visible(a.books, l));
    }
  }

  /** An ask, a bid below it, then the bid modified up to the ask: a subscriber since the start is left behind. */
  lemma CrossingModifyRun(book: BookId) returns (events: seq<Event>)
    ensures events == [Add(0, Item(Level(book, Sell, 100), 5, Gtc), Accepted([], 5), 0),
                       Add(1, Item(Level(book, Buy, 90), 5, Gtc), Accepted([], 5), 0),
                       Modify(book, 1, Some(100), None, Answered, 2, Accepted([Trade(100, 5, 0)], 0), 0)]
    ensures LegalRun(EMPTY, events) && !Synced(EMPTY, After(EMPTY, events))
  {
    hide LegalRun, After, Apply, Legal, Synced;
    NoEvents(EMPTY);
    var ask, bid := Item(Level(book, Sell, 100), 5, Gtc), Item(Level(book, Buy, 90), 5, Gtc);
    var x1 := RestsAlone(EMPTY, 0, ask);
    var x2 := RestsAlone(x1, 1, bid);
    assert x2.books == map[0 := Resting(ask.level, 5), 1 := Resting(bid.level, 5)];
    Extend(EMPTY, [], Add(0, ask, Accepted([], 5), 0));
    events := [] + [Add(0, ask, Accepted([], 5), 0)];
    Extend(EMPTY, events, Add(1, bid, Accepted([], 5), 0));
    events := events + [Add(1, bid, Accepted([], 5), 0)];
    SyncedTransitive(EMPTY, x1, x2);
    var e := CrossOver(x2, book);
    Extend(EMPTY, events, e);
    events := events + [e];
    if Synced(EMPTY, Apply(x2, e)) { SyncedSince(EMPTY, x2, Apply(x2, e)); }
  }

  lemma CrossOver(x: Exchange, book: BookId) returns (e: Event)
    requires x.books == map[0 := Resting(Level(book, Sell, 100), 5), 1 := Resting(Level(book, Buy, 90), 5)] && Fresh(x, 2)
    ensures e == Modify(book, 1, Some(100), None, Answered, 2, Accepted([Trade(100, 5, 0)], 0), 0)
    ensures Legal(x, e) && x.deltas <= Apply(x, e).deltas && !Synced(x, Apply(x, e))
  {
    hide LevelTotal, Synced;
    e := Modify(book, 1, Some(100), None, Answered, 2, Accepted([Trade(100, 5, 0)], 0), 0);
    OneTrade(x, e, Trade(100, 5, 0));
    forall l: Level ensures LevelTotal(x.books, l) <= U64_MAX { TwoOrders(x.books, l); }
    CrossingModifyUnseen(x, e);
  }

  lemma TwoOrders(m: Books, l: Level)
    requires m.Keys == {0, 1} && m[0].quantity == 5 && m[1].quantity == 5
    ensures LevelTotal(m, l) <= 10
  {
    RemoveTotal(m, 0, l);
    RemoveTotal(m - {0}, 1, l);
    assert LevelOrders(m - {0} - {1}, l) == map[];
  }

  /** An order that meets nothing rests whole. */
  lemma RestsAlone(x: Exchange, id: OrderId, item: Item) returns (y: Exchange)
    requires Fresh(x, id) && item.timeInForce.Gtc? && item.quantity > 0
    ensures Legal(x, Add(id, item, Accepted([], item.quantity), 0)) && y == Apply(x, Add(id, item, Accepted([], item.quantity), 0))
    ensures y.books == x.books[id := Resting(item.level, item.quantity)]
    ensures y.users == x.users + {id} && y.orders.Keys == x.orders.Keys + {id} && Synced(x, y)
  {
    var r := Accepted([], item.quantity);
    PlaceShape(x, id, item, r, 0);
    PlaceSyncs(x, id, item, r, 0);
    y := Place(x, id, item, r, 0);
  }

  lemma OneTrade(x: Exchange, e: Event, t: Trade)
    requires e.Modify? && Replaces(x, e) && e.reply == Accepted([t], 0) && Fresh(x, e.newId) && e.newId != e.id
    requires var own := NewItem(x, e);
             && t.quantity == own.quantity > 0 && Reaches(own.level.side, own.level.price, t.price) && t.maker != e.id
             && TradeOk(x.books, own.level.book, own.level.side.Opposite(), t)
    ensures Legal(x, e) && x.deltas <= Apply(x, e).deltas
  {
    var rest := x.books - {e.id};
    assert [t][1..] == [] && Executed([]) == 0 && Executed([t]) == t.quantity;
    assert TradesOk(ApplyTrade(rest, t), e.book, NewItem(x, e).level.side.Opposite(), []);
  }

  /** A market-maker bid placed on an empty book is news to no subscriber. */
  lemma MakerBidRun(book: BookId) returns (events: seq<Event>)
    ensures events == [MakerAdd(0, Level(book, Buy, 90), 5, Accepted([], 5))]
    ensures LegalRun(EMPTY, events) && !Synced(EMPTY, After(EMPTY, events))
  {
    var e, l := MakerAdd(0, Level(book, Buy, 90), 5, Accepted([], 5)), Level(book, Buy, 90);
    events := [e];
    RunOne(EMPTY, e);
    hide LevelTotal;
    MakerAddSyncsIff(EMPTY, e);
    EmptyTotal(l);
    assert Shift(e, l) == 5;
  }

  /** Nor is its cancel, to one who took a snapshot while it rested. */
  lemma MakerCancelRun(book: BookId) returns (events: seq<Event>)
    ensures events == [MakerAdd(0, Level(book, Buy, 90), 5, Accepted([], 5)), MakerCancel(book, 0)]
    ensures LegalRun(EMPTY, events[..1]) && LegalRun(EMPTY, events) && !Synced(After(EMPTY, events[..1]), After(EMPTY, events))
  {
    var e, l := MakerAdd(0, Level(book, Buy, 90), 5, Accepted([], 5)), Level(book, Buy, 90);
    RunOne(EMPTY, e);
    var x := Apply(EMPTY, e);
    assert ApplyTrades(EMPTY.books, []) == EMPTY.books;
    assert x.books == map[0 := Resting(l, 5)];
    hide LegalRun, After, LevelTotal;
    Extend(EMPTY, [e], MakerCancel(book, 0));
    events := [e] + [MakerCancel(book, 0)];
    assert events[..1] == [e];
    MakerAddShifts(EMPTY, e, l);
    EmptyTotal(l);
    MakerCancelSyncsIff(x, book, 0);
  }

  lemma EmptyTotal(l: Level)
    ensures LevelTotal(EMPTY.books, l) == 0
  {
    assert LevelOrders(EMPTY.books, l) == map[];
  }
}
