/**
 What the handlers rely on from the matching engine, which is not part of this model: resting
 orders, and what adding, matching and cancelling may do to them. Any engine meeting this
 contract will do; how it picks makers is left open.
 */
module Books {
  import opened Machine
  import opened Sums
  import opened Instruments

  type BookId = InstrumentKey

  datatype Side = Buy | Sell
  {
    function Opposite(): Side { if Buy? then Sell else Buy }
  }

  datatype Level = Level(book: BookId, side: Side, price: u128)

  datatype Resting = Resting(level: Level, quantity: u64)

  /** Every order resting on any book. */
  type Books = map<OrderId, Resting>

  datatype Trade = Trade(price: u128, quantity: u64, maker: OrderId)

  datatype AddReply = Refused | Accepted(trades: seq<Trade>, remaining: u64)

  datatype CancelReply = Errored | Answered

  function Executed(trades: seq<Trade>): nat
  {
    if trades == [] then 0 else trades[0].quantity + Executed(trades[1..])
  }

  function ApplyTrade(m: Books, t: Trade): Books
  {
    if t.maker !in m then m
    else if m[t.maker].quantity <= t.quantity then m - {t.maker}
    else m[t.maker := m[t.maker].(quantity := m[t.maker].quantity - t.quantity)]
  }

  function ApplyTrades(m: Books, trades: seq<Trade>): Books
    decreases |trades|
  {
    if trades == [] then m else ApplyTrades(ApplyTrade(m, trades[0]), trades[1..])
  }

  /** A trade takes a positive quantity, no more than rests, from a maker of `book` at its own price on `side`. */
  predicate TradeOk(m: Books, book: BookId, side: Side, t: Trade)
  {
    t.maker in m && m[t.maker].level == Level(book, side, t.price) && 0 < t.quantity <= m[t.maker].quantity
  }

  predicate TradesOk(m: Books, book: BookId, side: Side, trades: seq<Trade>)
    decreases |trades|
  {
    trades == [] || (TradeOk(m, book, side, trades[0]) && TradesOk(ApplyTrade(m, trades[0]), book, side, trades[1..]))
  }

  /** An accepted order is filled by makers of the opposite side, and filled + remaining is what was submitted. */
  predicate AddOk(m: Books, id: OrderId, book: BookId, side: Side, quantity: u64, r: AddReply)
  {
    id !in m &&
    (r.Accepted? ==> TradesOk(m, book, side.Opposite(), r.trades) && Executed(r.trades) + r.remaining == quantity)
  }

  /** Whether a limit order on `side` at `limit` may trade at `price`. */
  predicate Reaches(side: Side, limit: u128, price: u128) { if side.Buy? then price <= limit else price >= limit }

  /** A limit order is filled only at prices its limit reaches. */
  predicate LimitOk(m: Books, id: OrderId, own: Level, quantity: u64, r: AddReply)
  {
    && AddOk(m, id, own.book, own.side, quantity, r)
    && (r.Accepted? ==> forall t :: t in r.trades ==> Reaches(own.side, own.price, t.price))
  }

  /** An order of the opposite side rests at a price the limit reaches. */
  predicate Crosses(m: Books, own: Level)
  {
    exists id :: id in m && m[id].level.book == own.book && m[id].level.side == own.side.Opposite() &&
                 Reaches(own.side, own.price, m[id].level.price)
  }

  lemma NoCrossNoTrade(m: Books, id: OrderId, own: Level, quantity: u64, r: AddReply)
    requires LimitOk(m, id, own, quantity, r) && r.Accepted? && !Crosses(m, own)
    ensures r.trades == []
  {
  }

  /** A refused add changes nothing; an accepted one rests its remainder if it may rest. */
  function AfterAdd(m: Books, id: OrderId, own: Level, rests: bool, r: AddReply): Books
  {
    if r.Refused? then m
    else
      var hit := ApplyTrades(m, r.trades);
      if rests && r.remaining > 0 then hit[id := Resting(own, r.remaining)] else hit
  }

  predicate RestsIn(m: Books, book: BookId, id: OrderId) { id in m && m[id].level.book == book }

  /** A cancel that answers leaves the id not resting on that book; one that errors changes nothing. */
  function AfterCancel(m: Books, book: BookId, id: OrderId, r: CancelReply): Books
  {
    if r.Answered? && RestsIn(m, book, id) then m - {id} else m
  }

  // ---------------------------------------------------------------- levels

  ghost function LevelOrders(m: Books, l: Level): map<OrderId, int>
  {
    map id | id in m && m[id].level == l :: m[id].quantity
  }

  ghost function LevelTotal(m: Books, l: Level): int { MapSum<OrderId>(LevelOrders(m, l)) }

  /** The visible quantity of a level: the saturating sum over its resting orders. */
  ghost function Visible(m: Books, l: Level): int { Min(LevelTotal(m, l), U64_MAX) }

  lemma TotalNonNegative(m: Books, l: Level)
    ensures 0 <= LevelTotal(m, l)
  {
    SumNonNegative<OrderId>(LevelOrders(m, l));
  }

  lemma RemoveTotal(m: Books, id: OrderId, l: Level)
    requires id in m
    ensures LevelTotal(m - {id}, l) == LevelTotal(m, l) - if m[id].level == l then m[id].quantity else 0
  {
    if m[id].level == l {
      SumRemove<OrderId>(LevelOrders(m, l), id);
      assert LevelOrders(m - {id}, l) == LevelOrders(m, l) - {id};
    } else {
      assert LevelOrders(m - {id}, l) == LevelOrders(m, l);
    }
  }

  lemma PutTotal(m: Books, id: OrderId, o: Resting, l: Level)
    requires id in m ==> m[id].level == o.level
    ensures LevelTotal(m[id := o], l) ==
            LevelTotal(m, l) + if o.level == l then o.quantity - (if id in m then m[id].quantity else 0) else 0
  {
    if o.level == l {
      SumUpdate<OrderId>(LevelOrders(m, l), id, o.quantity);
      assert LevelOrders(m[id := o], l) == LevelOrders(m, l)[id := o.quantity];
    } else {
      assert LevelOrders(m[id := o], l) == LevelOrders(m, l);
    }
  }

  function TradedAt(trades: seq<Trade>, price: u128): nat
  {
    if trades == [] then 0 else (if trades[0].price == price then trades[0].quantity else 0) + TradedAt(trades[1..], price)
  }

  lemma TradeTotal(m: Books, book: BookId, side: Side, t: Trade, l: Level)
    requires TradeOk(m, book, side, t)
    ensures LevelTotal(ApplyTrade(m, t), l) == LevelTotal(m, l) - if l == Level(book, side, t.price) then t.quantity else 0
  {
    if m[t.maker].quantity == t.quantity {
      RemoveTotal(m, t.maker, l);
    } else {
      PutTotal(m, t.maker, m[t.maker].(quantity := m[t.maker].quantity - t.quantity), l);
    }
  }

  /** A match takes from each maker level exactly what traded at its price, and nothing anywhere else. */
  lemma {:induction false} TradesTotal(m: Books, book: BookId, side: Side, trades: seq<Trade>, l: Level)
    requires TradesOk(m, book, side, trades)
    ensures LevelTotal(ApplyTrades(m, trades), l) ==
            LevelTotal(m, l) - if l.book == book && l.side == side then TradedAt(trades, l.price) else 0
    decreases |trades|
  {
    if trades != [] {
      TradeTotal(m, book, side, trades[0], l);
      TradesTotal(ApplyTrade(m, trades[0]), book, side, trades[1..], l);
    }
  }

  /** A match only shrinks or removes orders, all of them makers on its own book and side. */
  lemma {:induction false} TradesShrink(m: Books, book: BookId, side: Side, trades: seq<Trade>, id: OrderId)
    requires TradesOk(m, book, side, trades)
    ensures id in ApplyTrades(m, trades) ==>
              id in m && ApplyTrades(m, trades)[id].level == m[id].level && ApplyTrades(m, trades)[id].quantity <= m[id].quantity
    ensures id in m && (m[id].level.book != book || m[id].level.side != side) ==>
              id in ApplyTrades(m, trades) && ApplyTrades(m, trades)[id] == m[id]
    decreases |trades|
  {
    if trades != [] { TradesShrink(ApplyTrade(m, trades[0]), book, side, trades[1..], id); }
  }

  lemma {:induction false} TradedAtPrice(trades: seq<Trade>, price: u128)
    requires forall t :: t in trades ==> t.quantity > 0
    ensures TradedAt(trades, price) > 0 <==> exists t :: t in trades && t.price == price
    decreases |trades|
  {
    if trades != [] {
      assert forall t :: t in trades <==> t == trades[0] || t in trades[1..];
      TradedAtPrice(trades[1..], price);
      if trades[0].price == price { assert trades[0] in trades; }
    }
  }

  lemma {:induction false} TradesPositive(m: Books, book: BookId, side: Side, trades: seq<Trade>)
    requires TradesOk(m, book, side, trades)
    ensures forall t :: t in trades ==> t.quantity > 0
    ensures trades != [] ==> Executed(trades) > 0
    decreases |trades|
  {
    if trades != [] {
      TradesPositive(ApplyTrade(m, trades[0]), book, side, trades[1..]);
      assert forall t :: t in trades <==> t == trades[0] || t in trades[1..];
    }
  }

  // ---------------------------------------------------------------- the engine as an object

  /** What is asked of the engine, with its answer. */
  datatype EngineCall =
    | AskAdd(id: OrderId, own: Level, quantity: u64, rests: bool, reply: AddReply)
    | AskMarket(id: OrderId, book: BookId, side: Side, quantity: u64, reply: AddReply)
    | AskCancel(book: BookId, id: OrderId, cancel: CancelReply)
    | AskPath(book: BookId, found: bool)

  /** Any engine under the contract: each reply is chosen freely among those it allows. */
  class Engine {
    var resting: Books
    /** Everything asked so far, in order. */
    ghost var calls: seq<EngineCall>

    constructor ()
      ensures resting == map[] && calls == []
    {
      resting, calls := map[], [];
    }

    /** Looks a book up by the path an order carries; it may be gone. */
    method Resolve(book: BookId) returns (found: bool)
      modifies this`calls
      ensures calls == old(calls) + [AskPath(book, found)]
    {
      found := *;
      calls := calls + [AskPath(book, found)];
    }

    method AddLimitOrder(id: OrderId, own: Level, quantity: u64, rests: bool) returns (r: AddReply)
      requires id !in resting
      modifies this
      ensures LimitOk(old(resting), id, own, quantity, r)
      ensures resting == AfterAdd(old(resting), id, own, rests, r)
      ensures calls == old(calls) + [AskAdd(id, own, quantity, rests, r)]
    {
      assert LimitOk(resting, id, own, quantity, Refused);
      r :| LimitOk(resting, id, own, quantity, r);
      resting := AfterAdd(resting, id, own, rests, r);
      calls := calls + [AskAdd(id, own, quantity, rests, r)];
    }

    /** A market order has no limit and never rests. */
    method SubmitMarketOrder(id: OrderId, book: BookId, side: Side, quantity: u64) returns (r: AddReply)
      requires id !in resting
      modifies this
      ensures AddOk(old(resting), id, book, side, quantity, r)
      ensures resting == AfterAdd(old(resting), id, Level(book, side, 0), false, r)
      ensures calls == old(calls) + [AskMarket(id, book, side, quantity, r)]
    {
      assert AddOk(resting, id, book, side, quantity, Refused);
      r :| AddOk(resting, id, book, side, quantity, r);
      resting := AfterAdd(resting, id, Level(book, side, 0), false, r);
      calls := calls + [AskMarket(id, book, side, quantity, r)];
    }

    method CancelOrder(book: BookId, id: OrderId) returns (r: CancelReply, cancelled: bool)
      modifies this
      ensures cancelled == (r.Answered? && RestsIn(old(resting), book, id))
      ensures resting == AfterCancel(old(resting), book, id, r)
      ensures calls == old(calls) + [AskCancel(book, id, r)]
    {
      r := *;
      cancelled := r.Answered? && RestsIn(resting, book, id);
      resting := AfterCancel(resting, book, id, r);
      calls := calls + [AskCancel(book, id, r)];
    }

    /** `level_visible_quantity`: a saturating fold over the orders at one price. */
    method LevelVisibleQuantity(l: Level) returns (quantity: u64)
      ensures quantity == Visible(resting, l)
    {
      var todo := set id | id in resting && resting[id].level == l;
      quantity := 0;
      assert LevelOrders(resting - todo, l) == map[];
      hide LevelTotal;
      while todo != {}
        invariant todo <= resting.Keys && forall id :: id in todo ==> resting[id].level == l
        invariant quantity == Visible(resting - todo, l)
        decreases |todo|
      {
        var id :| id in todo;
        PutTotal(resting - todo, id, resting[id], l);
        TotalNonNegative(resting - todo, l);
        quantity := SatAddU64(quantity, resting[id].quantity);
        assert resting - (todo - {id}) == (resting - todo)[id := resting[id]];
        todo := todo - {id};
      }
      assert resting - {} == resting;
    }
  }
}
