/**
 The published delta stream refines the books: a subscriber that starts from a snapshot and
 applies every delta sees the visible quantity of every level (src/api/handlers.rs).
 */
module Deltas {
  import opened Machine
  import opened Instruments
  import opened Books
  import opened Exchange

  /** The quantity a subscriber holds for `l` after `deltas`, starting from `start`. */
  ghost function Seen(deltas: seq<Delta>, l: Level, start: int): int
  {
    if deltas == [] then start
    else if deltas[|deltas| - 1].level == l then deltas[|deltas| - 1].quantity
    else Seen(deltas[..|deltas| - 1], l, start)
  }

  /** The view of a subscriber who took a snapshot at `from` agrees with `x` outside `stale`. */
  ghost predicate SyncedExcept(from: Exchange, x: Exchange, stale: set<Level>)
  {
    && from.deltas <= x.deltas
    && forall l: Level :: l !in stale ==> Seen(x.deltas[|from.deltas|..], l, Visible(from.books, l)) == Visible(x.books, l)
  }

  ghost predicate Synced(from: Exchange, x: Exchange) { SyncedExcept(from, x, {}) }

  lemma {:induction false} SeenConcat(a: seq<Delta>, b: seq<Delta>, l: Level, start: int)
    ensures Seen(a + b, l, start) == Seen(b, l, Seen(a, l, start))
    decreases |b|
  {
    if b == [] {
      assert a + b == a;
    } else {
      assert (a + b)[..|a + b| - 1] == a + b[..|b| - 1];
      SeenConcat(a, b[..|b| - 1], l, start);
    }
  }

  lemma SyncedTransitive(a: Exchange, b: Exchange, c: Exchange)
    requires Synced(a, b) && Synced(b, c)
    ensures Synced(a, c)
  {
    forall l: Level
      ensures Seen(c.deltas[|a.deltas|..], l, Visible(a.books, l)) == Visible(c.books, l)
    {
      assert c.deltas[|a.deltas|..] == b.deltas[|a.deltas|..] + c.deltas[|b.deltas|..];
      SeenConcat(b.deltas[|a.deltas|..], c.deltas[|b.deltas|..], l, Visible(a.books, l));
    }
  }

  lemma SyncedStart(x: Exchange)
    ensures Synced(x, x)
  {
  }

  // ---------------------------------------------------------------- how syncing moves

  /** Publishing a level brings it in sync. */
  lemma PublishSyncs(from: Exchange, x: Exchange, stale: set<Level>, l: Level)
    requires SyncedExcept(from, x, stale)
    ensures SyncedExcept(from, Publish(x, l), stale - {l})
  {
    var y, n := Publish(x, l), |from.deltas|;
    assert y.deltas[n..] == x.deltas[n..] + [Delta(l, Visible(x.books, l))];
    assert y.deltas[n..][..|y.deltas[n..]| - 1] == x.deltas[n..];
  }

  ghost function LevelsAt(book: BookId, side: Side, prices: seq<u128>): set<Level>
  {
    set p | p in prices :: Level(book, side, p)
  }

  lemma {:induction false} PublishAllSyncs(from: Exchange, x: Exchange, stale: set<Level>, book: BookId, side: Side, prices: seq<u128>)
    requires SyncedExcept(from, x, stale)
    ensures SyncedExcept(from, PublishAll(x, book, side, prices), stale - LevelsAt(book, side, prices))
    ensures PublishAll(x, book, side, prices).(deltas := x.deltas) == x
    decreases |prices|
  {
    if prices == [] {
      assert stale - LevelsAt(book, side, prices) == stale;
    } else {
      var before, l := prices[..|prices| - 1], Level(book, side, prices[|prices| - 1]);
      PublishAllSyncs(from, x, stale, book, side, before);
      PublishSyncs(from, PublishAll(x, book, side, before), stale - LevelsAt(book, side, before), l);
      assert prices == before + [prices[|prices| - 1]];
      assert LevelsAt(book, side, prices) == LevelsAt(book, side, before) + {l};
      assert stale - LevelsAt(book, side, before) - {l} == stale - LevelsAt(book, side, prices);
    }
  }

  lemma {:induction false} DistinctSame(prices: seq<u128>, p: u128)
    ensures p in Distinct(prices) <==> p in prices
    decreases |prices|
  {
    if prices != [] {
      DistinctSame(prices[..|prices| - 1], p);
      assert prices == prices[..|prices| - 1] + [prices[|prices| - 1]];
    }
  }

  /** No price is published twice. */
  lemma {:induction false} DistinctOnce(prices: seq<u128>)
    ensures forall i, j :: 0 <= i < j < |Distinct(prices)| ==> Distinct(prices)[i] != Distinct(prices)[j]
    decreases |prices|
  {
    if prices != [] { DistinctOnce(prices[..|prices| - 1]); }
  }

  lemma {:induction false} PricesOf(trades: seq<Trade>, p: u128)
    ensures p in Prices(trades) <==> exists t :: t in trades && t.price == p
    decreases |trades|
  {
    if trades != [] {
      PricesOf(trades[..|trades| - 1], p);
      assert trades == trades[..|trades| - 1] + [trades[|trades| - 1]];
    }
  }

  /** Publishing the consumed levels syncs exactly the levels a match touched. */
  /** Publishing some levels says one thing of each, in order. */
  lemma {:induction false} PublishAllInOrder(x: Exchange, book: BookId, side: Side, prices: seq<u128>)
    ensures var y := PublishAll(x, book, side, prices);
            && x.deltas <= y.deltas && |y.deltas| == |x.deltas| + |prices|
            && forall i :: 0 <= i < |prices| ==> y.deltas[|x.deltas| + i].level == Level(book, side, prices[i])
    decreases |prices|
  {
    if prices != [] { PublishAllInOrder(x, book, side, prices[..|prices| - 1]); }
  }

  lemma ConsumedSyncs(from: Exchange, x: Exchange, stale: set<Level>, book: BookId, taker: Side, trades: seq<Trade>)
    requires SyncedExcept(from, x, stale)
    ensures SyncedExcept(from, PublishConsumed(x, book, taker, trades), stale - LevelsAt(book, taker.Opposite(), Prices(trades)))
    ensures PublishConsumed(x, book, taker, trades).(deltas := x.deltas) == x
  {
    PublishAllSyncs(from, x, stale, book, taker.Opposite(), Distinct(Prices(trades)));
    forall p: u128 ensures p in Distinct(Prices(trades)) <==> p in Prices(trades) { DistinctSame(Prices(trades), p); }
    assert LevelsAt(book, taker.Opposite(), Distinct(Prices(trades))) == LevelsAt(book, taker.Opposite(), Prices(trades));
  }

  /** Changing the books leaves in sync every level whose visible quantity did not change. */
  lemma BooksMove(from: Exchange, x: Exchange, y: Exchange, touched: set<Level>)
    requires Synced(from, x) && y.deltas == x.deltas
    requires forall l: Level :: l !in touched ==> Visible(y.books, l) == Visible(x.books, l)
    ensures SyncedExcept(from, y, touched)
  {
  }

  /** A match touches only the traded prices on the makers' side. */
  lemma MatchTouches(m: Books, book: BookId, side: Side, trades: seq<Trade>, l: Level)
    requires TradesOk(m, book, side, trades) && l !in LevelsAt(book, side, Prices(trades))
    ensures LevelTotal(ApplyTrades(m, trades), l) == LevelTotal(m, l)
  {
    TradesTotal(m, book, side, trades, l);
    TradesPositive(m, book, side, trades);
    PricesOf(trades, l.price);
    TradedAtPrice(trades, l.price);
    assert l.book == book && l.side == side && l.price in Prices(trades) ==> l == Level(book, side, l.price);
  }

  /** An add touches the traded maker levels and, if it rests, its own level. */
  lemma AddTouches(m: Books, id: OrderId, own: Level, quantity: u64, rests: bool, r: AddReply, l: Level)
    requires AddOk(m, id, own.book, own.side, quantity, r) && r.Accepted?
    requires l !in LevelsAt(own.book, own.side.Opposite(), Prices(r.trades)) && (r.remaining > 0 ==> l != own)
    ensures Visible(AfterAdd(m, id, own, rests, r), l) == Visible(m, l)
  {
    MatchTouches(m, own.book, own.side.Opposite(), r.trades, l);
    TradesShrink(m, own.book, own.side.Opposite(), r.trades, id);
    if rests && r.remaining > 0 {
      PutTotal(ApplyTrades(m, r.trades), id, Resting(own, r.remaining), l);
    }
  }

  // ---------------------------------------------------------------- every handler stays in sync

  lemma PlaceSyncs(x: Exchange, id: OrderId, item: Item, r: AddReply, now: u64)
    requires AddOk(x.books, id, item.level.book, item.level.side, item.quantity, r)
    ensures Synced(x, Place(x, id, item, r, now))
  {
    SyncedStart(x);
    if r.Accepted? {
      var own, rests := item.level, Rests(item.timeInForce);
      var makers := LevelsAt(own.book, own.side.Opposite(), Prices(r.trades));
      var stale := makers + if r.remaining > 0 then {own} else {};
      var y := Exchange(AfterAdd(x.books, id, own, rests, r), x.orders[id := Track(item, r, now)], x.users + {id}, x.deltas);
      forall l: Level | l !in stale ensures Visible(y.books, l) == Visible(x.books, l) {
        AddTouches(x.books, id, own, item.quantity, rests, r, l);
      }
      BooksMove(x, x, y, stale);
      PublishMatch(x, y, own, r);
    }
  }

  /** The two publications after a match: consumed maker levels, then the own level if anything remained. */
  lemma PublishMatch(x: Exchange, y: Exchange, own: Level, r: AddReply)
    requires r.Accepted? && TradesOk(x.books, own.book, own.side.Opposite(), r.trades)
    requires SyncedExcept(x, y, LevelsAt(own.book, own.side.Opposite(), Prices(r.trades)) + if r.remaining > 0 then {own} else {})
    ensures var z := if Executed(r.trades) > 0 then PublishConsumed(y, own.book, own.side, r.trades) else y;
            Synced(x, if r.remaining > 0 then Publish(z, own) else z)
  {
    var makers := LevelsAt(own.book, own.side.Opposite(), Prices(r.trades));
    var mine: set<Level> := if r.remaining > 0 then {own} else {};
    var z := if Executed(r.trades) > 0 then PublishConsumed(y, own.book, own.side, r.trades) else y;
    TradesPositive(x.books, own.book, own.side.Opposite(), r.trades);
    if r.trades != [] {
      ConsumedSyncs(x, y, makers + mine, own.book, own.side, r.trades);
    } else {
      assert makers == {};
    }
    assert SyncedExcept(x, z, mine);
    if r.remaining > 0 {
      PublishSyncs(x, z, mine, own);
      assert mine - {own} == {};
    }
  }

  lemma TakeSyncs(x: Exchange, id: OrderId, book: BookId, side: Side, quantity: u64, r: AddReply)
    requires AddOk(x.books, id, book, side, quantity, r)
    ensures Synced(x, Take(x, id, book, side, quantity, r))
  {
    SyncedStart(x);
    if r.Accepted? {
      var makers := LevelsAt(book, side.Opposite(), Prices(r.trades));
      var y := x.(books := AfterAdd(x.books, id, Level(book, side, 0), false, r));
      forall l: Level | l !in makers ensures Visible(y.books, l) == Visible(x.books, l) {
        MatchTouches(x.books, book, side.Opposite(), r.trades, l);
      }
      BooksMove(x, x, y, makers);
      TradesPositive(x.books, book, side.Opposite(), r.trades);
      if r.trades != [] {
        ConsumedSyncs(x, y, makers, book, side, r.trades);
        assert makers - makers == {};
      } else {
        assert makers == {};
      }
    }
  }

  /** Taking one order off the books and publishing its level keeps the view in sync. */
  lemma RemoveSyncs(x: Exchange, id: OrderId, orders: Orders)
    requires id in x.books
    ensures Synced(x, Publish(Exchange(x.books - {id}, orders, x.users, x.deltas), x.books[id].level))
  {
    var y, own := Exchange(x.books - {id}, orders, x.users, x.deltas), x.books[id].level;
    SyncedStart(x);
    forall l: Level | l !in {own} ensures Visible(y.books, l) == Visible(x.books, l) {
      RemoveTotal(x.books, id, l);
    }
    BooksMove(x, x, y, {own});
    PublishSyncs(x, y, {own}, own);
    assert {own} - {own} == {};
  }

  /** Changing only the tracked orders changes no view. */
  lemma TrackingIsUnseen(from: Exchange, x: Exchange, y: Exchange)
    requires Synced(from, x) && y.books == x.books && y.deltas == x.deltas
    ensures Synced(from, y)
  {
  }

  lemma ReplaceSyncs(x: Exchange, e: Event)
    requires e.Modify? && Legal(x, e) && Replaces(x, e) && (e.reply.Accepted? ==> e.reply.trades == [])
    ensures Synced(x, Replace(x, e))
  {
    var y, item := Withdrawn(x, e.id), NewItem(x, e);
    RemoveSyncs(x, e.id, x.orders - {e.id});
    assert Synced(x, y);
    if e.reply.Accepted? {
      var z := Replace(x, e);
      var placed := z.(deltas := y.deltas);
      forall l: Level | l !in {item.level} ensures Visible(placed.books, l) == Visible(y.books, l) {
        AddTouches(y.books, e.newId, item.level, item.quantity, true, e.reply, l);
      }
      BooksMove(x, y, placed, {item.level});
      PublishSyncs(x, placed, {item.level}, item.level);
      assert {item.level} - {item.level} == {};
      assert Publish(placed, item.level) == z;
    }
  }

  /**
   Events after which subscribers are up to date: every handler but a modify whose replacement
   crosses, and a market-maker call, which publishes nothing, only if it changes nothing.
   */
  predicate Published(x: Exchange, e: Event)
  {
    match e
    case Modify(_, _, _, _, _, _, _, _) => Replaces(x, e) && e.reply.Accepted? ==> !Crosses(x.books, NewItem(x, e).level)
    case MakerAdd(_, _, quantity, r) => r.Refused? || quantity == 0
    case MakerCancel(book, id) => !RestsIn(x.books, book, id) || x.books[id].quantity == 0
    case _ => true
  }

  /** The level a tracking-addressed cancel publishes is the level the order rests on. */
  ghost predicate TrackedLevels(x: Exchange)
  {
    forall id :: id in x.books && id in x.orders ==> x.books[id].level == x.orders[id].level
  }

  lemma StepSyncs(x: Exchange, e: Event)
    requires Legal(x, e) && Published(x, e) && TrackedLevels(x)
    ensures Synced(x, Apply(x, e))
  {
    SyncedStart(x);
    match e
    case Add(id, item, r, now) => PlaceSyncs(x, id, item, r, now);
    case Market(id, book, side, quantity, r) => TakeSyncs(x, id, book, side, quantity, r);
    case Cancel(book, id, cancel, now) =>
      if cancel.Answered? && RestsIn(x.books, book, id) {
        RemoveSyncs(x, id, x.orders - {id});
      } else {
        TrackingIsUnseen(x, x, Apply(x, e));
      }
    case Modify(_, _, _, _, _, _, _, _) =>
      if Replaces(x, e) {
        if e.reply.Accepted? { ReplacementTradesNot(x, e); }
        ReplaceSyncs(x, e);
      }
    case CancelTracked(id, found, cancel) =>
      if Apply(x, e) != x { RemoveSyncs(x, id, x.orders - {id}); }
    case Rollback(item, id, filled, found, cancel, now) => RollbackSyncs(x, item, id, filled, found, cancel, now);
    case Cleanup(_) => TrackingIsUnseen(x, x, Apply(x, e));
    case MakerAdd(_, _, _, _) => IdleMakerAdd(x, e);
    case MakerCancel(book, id) => IdleMakerCancel(x, book, id);
  }

  /** A replacement that does not cross does not trade. */
  lemma ReplacementTradesNot(x: Exchange, e: Event)
    requires e.Modify? && Legal(x, e) && Replaces(x, e) && e.reply.Accepted? && !Crosses(x.books, NewItem(x, e).level)
    ensures e.reply.trades == []
  {
    NoCrossNoTrade(x.books - {e.id}, e.newId, NewItem(x, e).level, NewItem(x, e).quantity, e.reply);
  }

  lemma IdleMakerAdd(x: Exchange, e: Event)
    requires e.MakerAdd? && Legal(x, e) && (e.reply.Refused? || e.quantity == 0)
    ensures Synced(x, Apply(x, e))
  {
    SyncedStart(x);
    if e.reply.Accepted? { TradesPositive(x.books, e.level.book, e.level.side.Opposite(), e.reply.trades); }
    assert Apply(x, e) == x;
  }

  lemma IdleMakerCancel(x: Exchange, book: BookId, id: OrderId)
    requires !RestsIn(x.books, book, id) || x.books[id].quantity == 0
    ensures Synced(x, x.(books := AfterCancel(x.books, book, id, Answered)))
  {
    SyncedStart(x);
    if RestsIn(x.books, book, id) {
      forall l: Level ensures Visible(x.books - {id}, l) == Visible(x.books, l) { RemoveTotal(x.books, id, l); }
    }
  }

  lemma RollbackSyncs(x: Exchange, item: Item, id: OrderId, filled: u64, found: bool, cancel: CancelReply, now: u64)
    requires RestsIn(x.books, item.level.book, id) ==> x.books[id].level == item.level
    ensures Synced(x, RollbackOne(x, item, id, filled, found, cancel, now))
  {
    SyncedStart(x);
    var y := RollbackOne(x, item, id, filled, found, cancel, now);
    if found && cancel.Answered? && RestsIn(x.books, item.level.book, id) {
      RemoveSyncs(x, id, x.orders);
      TrackingIsUnseen(x, Publish(x.(books := x.books - {id}), item.level), y);
    } else {
      TrackingIsUnseen(x, x, y);
    }
  }

  // ---------------------------------------------------------------- crossing modifies

  /** No level's visible quantity is capped. */
  ghost predicate Unsaturated(m: Books) { forall l: Level :: LevelTotal(m, l) <= U64_MAX }

  /**
   A modify whose replacement is accepted keeps subscribers in sync exactly when the new limit
   reaches no resting order of the other side: the handler publishes nothing for the maker levels
   a replacement consumes. That a crossing order trades is asked of the engine only here.
   */
  lemma ModifySyncsIff(x: Exchange, e: Event)
    requires e.Modify? && Legal(x, e) && Replaces(x, e) && e.reply.Accepted? && Unsaturated(x.books)
    requires Crosses(x.books, NewItem(x, e).level) ==> e.reply.trades != []
    ensures Synced(x, Apply(x, e)) <==> !Crosses(x.books, NewItem(x, e).level)
  {
    if Crosses(x.books, NewItem(x, e).level) {
      CrossingModifyUnseen(x, e);
    } else {
      ReplacementTradesNot(x, e);
      ReplaceSyncs(x, e);
    }
  }

  lemma CrossingModifyUnseen(x: Exchange, e: Event)
    requires e.Modify? && Legal(x, e) && Replaces(x, e) && e.reply.Accepted? && e.reply.trades != []
    requires Unsaturated(x.books)
    ensures !Synced(x, Apply(x, e))
  {
    var y, item, z := Withdrawn(x, e.id), NewItem(x, e), Replace(x, e);
    var l := Level(e.book, item.level.side.Opposite(), e.reply.trades[0].price);
    CrossedLevelShrinks(x, e);
    hide LevelTotal;
    var n := |x.deltas|;
    var news := z.deltas[n..];
    assert news == [Delta(x.books[e.id].level, Visible(y.books, x.books[e.id].level)), Delta(item.level, Visible(z.books, item.level))];
    assert news[..1][..0] == [] && news[..|news| - 1] == news[..1];
    assert Seen(news[..1], l, Visible(x.books, l)) == Visible(x.books, l);
    assert Seen(news, l, Visible(x.books, l)) == Visible(x.books, l);
  }

  /** The first maker level a crossing modify hits ends smaller, and its handler does not publish it. */
  lemma CrossedLevelShrinks(x: Exchange, e: Event)
    requires e.Modify? && Legal(x, e) && Replaces(x, e) && e.reply.Accepted? && e.reply.trades != []
    ensures var l := Level(e.book, x.books[e.id].level.side.Opposite(), e.reply.trades[0].price);
            LevelTotal(Replace(x, e).books, l) < LevelTotal(x.books, l)
  {
    var y, item, z := Withdrawn(x, e.id), NewItem(x, e), Replace(x, e);
    var l := Level(e.book, item.level.side.Opposite(), e.reply.trades[0].price);
    RemoveTotal(x.books, e.id, l);
    hide LevelTotal;
    assert LevelTotal(y.books, l) == LevelTotal(x.books, l);
    TradesTotal(y.books, e.book, l.side, e.reply.trades, l);
    TradesPositive(y.books, e.book, l.side, e.reply.trades);
    TradedAtPrice(e.reply.trades, l.price);
    assert e.reply.trades[0] in e.reply.trades;
    TradesShrink(y.books, e.book, l.side, e.reply.trades, e.newId);
    if e.reply.remaining > 0 {
      PutTotal(ApplyTrades(y.books, e.reply.trades), e.newId, Resting(item.level, e.reply.remaining), l);
    }
  }

  // ---------------------------------------------------------------- market-maker calls

  /** A level that changed without a delta leaves a subscriber behind. */
  lemma UnpublishedChange(x: Exchange, y: Exchange, l: Level)
    requires y.deltas == x.deltas && Visible(y.books, l) != Visible(x.books, l)
    ensures !Synced(x, y)
  {
    assert y.deltas[|x.deltas|..] == [];
    assert Seen([], l, Visible(x.books, l)) == Visible(x.books, l);
  }

  /** What a market-maker order is about to do to the total of a level. */
  function Shift(e: Event, l: Level): int
    requires e.MakerAdd? && e.reply.Accepted?
  {
    var traded: int := TradedAt(e.reply.trades, l.price);
    if l == e.level then e.reply.remaining
    else if l.book == e.level.book && l.side == e.level.side.Opposite() then -traded
    else 0
  }

  lemma MakerAddShifts(x: Exchange, e: Event, l: Level)
    requires e.MakerAdd? && Legal(x, e) && e.reply.Accepted?
    ensures LevelTotal(Apply(x, e).books, l) == LevelTotal(x.books, l) + Shift(e, l)
  {
    hide LevelTotal;
    var r, own := e.reply, e.level;
    TradesTotal(x.books, own.book, own.side.Opposite(), r.trades, l);
    TradesShrink(x.books, own.book, own.side.Opposite(), r.trades, e.id);
    if r.remaining > 0 { PutTotal(ApplyTrades(x.books, r.trades), e.id, Resting(own, r.remaining), l); }
  }

  /**
   A market-maker order leaves subscribers in sync exactly when it is refused, or every level it
   trades at or rests on shows the capped quantity before and after; in particular an order that
   asks for something must find all of them beyond u64.
   */
  lemma MakerAddSyncsIff(x: Exchange, e: Event)
    requires e.MakerAdd? && Legal(x, e)
    ensures Synced(x, Apply(x, e)) <==>
            e.reply.Refused? ||
            forall l: Level :: Shift(e, l) != 0 ==> U64_MAX <= LevelTotal(x.books, l) && U64_MAX <= LevelTotal(x.books, l) + Shift(e, l)
  {
    hide LevelTotal;
    SyncedStart(x);
    if e.reply.Accepted? {
      var y := Apply(x, e);
      forall l: Level
        ensures Visible(y.books, l) == Visible(x.books, l) <==>
                (Shift(e, l) != 0 ==> U64_MAX <= LevelTotal(x.books, l) && U64_MAX <= LevelTotal(x.books, l) + Shift(e, l))
      {
        MakerAddShifts(x, e, l);
      }
      if l: Level :| Visible(y.books, l) != Visible(x.books, l) {
        UnpublishedChange(x, y, l);
      } else {
        BooksMove(x, x, y, {});
      }
    }
  }

  /** An accepted order for something moves the total of some level. */
  lemma MakerAddMoves(x: Exchange, e: Event)
    requires e.MakerAdd? && Legal(x, e) && e.reply.Accepted? && e.quantity > 0
    ensures exists l: Level :: Shift(e, l) != 0
  {
    var r, own := e.reply, e.level;
    TradesPositive(x.books, own.book, own.side.Opposite(), r.trades);
    if r.trades == [] {
      assert Shift(e, own) != 0;
    } else {
      assert r.trades[0] in r.trades;
      TradedAtPrice(r.trades, r.trades[0].price);
      assert Shift(e, Level(own.book, own.side.Opposite(), r.trades[0].price)) != 0;
    }
  }

  /** A market-maker cancel leaves subscribers in sync exactly when it takes nothing off that book, or its level stays capped. */
  lemma MakerCancelSyncsIff(x: Exchange, book: BookId, id: OrderId)
    requires Legal(x, MakerCancel(book, id))
    ensures Synced(x, Apply(x, MakerCancel(book, id))) <==>
            !RestsIn(x.books, book, id) || x.books[id].quantity == 0 ||
            U64_MAX <= LevelTotal(x.books, x.books[id].level) - x.books[id].quantity
  {
    hide LevelTotal;
    SyncedStart(x);
    if RestsIn(x.books, book, id) {
      var y := Apply(x, MakerCancel(book, id));
      forall l: Level
        ensures LevelTotal(y.books, l) == LevelTotal(x.books, l) - if l == x.books[id].level then x.books[id].quantity else 0
      {
        RemoveTotal(x.books, id, l);
      }
      if Visible(y.books, x.books[id].level) != Visible(x.books, x.books[id].level) {
        UnpublishedChange(x, y, x.books[id].level);
      } else {
        BooksMove(x, x, y, {});
      }
    }
  }
}
