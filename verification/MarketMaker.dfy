/**
 The market maker run one call at a time: live quotes, the reverse index over them, and the
 switches that decide who is quoted (`MarketMakerEngine`, src/market_maker/engine.rs).
 The quoter is any function of its inputs and the clock, and the matching engine accepts or
 refuses each order freely.
 */
module MarketMaker {
  import opened Machine
  import opened TopK
  import opened Instruments

  datatype ActiveOrderInfo = ActiveOrderInfo(key: InstrumentKey, isBuy: bool, theoCents: u64, quantity: u64)

  type ActiveOrders = map<OrderId, ActiveOrderInfo>

  /** The quoting parameters, as the reals their floating-point values stand for. */
  datatype Controls = Controls(spreadMultiplier: real, sizeScalar: real, directionalSkew: real)
  {
    predicate InRange()
    {
      0.1 <= spreadMultiplier <= 10.0 && 0.0 <= sizeScalar <= 1.0 && -1.0 <= directionalSkew <= 1.0
    }
  }

  /** A requested parameter value: a number, or NaN or an infinity. */
  datatype Requested = Finite(x: real) | NonFinite

  function Clamp(x: real, low: real, high: real): real { if x < low then low else if x > high then high else x }

  datatype Quote = Quote(theoPrice: u64, bidPrice: u128, bidSize: u64, askPrice: u128, askSize: u64)

  datatype Event =
    | QuoteUpdated(key: InstrumentKey, quote: Quote)
    | OrderFilled(id: OrderId, key: InstrumentKey, isBuy: bool, quantity: u64, price: u128)
    | ConfigChanged(enabled: bool, controls: Controls)
    | PriceUpdated(symbol: string, priceCents: u64)

  /** What the manager lists for an underlying: its expirations and their strikes. */
  type Listing = map<ExpKey, set<u64>>

  /** A quoter: a quote for an instrument at a spot price under some parameters, at some instant, if it has one. */
  type Quoter = (InstrumentKey, u64, Controls, int) -> Option<Quote>

  /** A call to an instrument's book: an order offered to it, with its reply, or a cancel. */
  datatype BookCall =
    | Offer(key: InstrumentKey, id: OrderId, isBuy: bool, price: u128, size: u64, accepted: bool)
    | Cancel(key: InstrumentKey, id: OrderId)

  // ---------------------------------------------------------------- the index agrees with the map

  /** `id` is tracked for `key` and leg exactly when that slot of the index holds `id`. */
  ghost predicate Agrees(active: ActiveOrders, index: Index)
  {
    && (forall id :: id in active ==> SlotsOf(index, active[id].key).Leg(active[id].isBuy) == Some(id))
    && (forall key, leg :: key in index && index[key].Leg(leg).Some? ==> InSlot(active, key, leg, index[key].Leg(leg).value))
    && (forall key :: key in index ==> !index[key].Empty())
  }

  predicate InSlot(active: ActiveOrders, key: InstrumentKey, leg: bool, id: OrderId)
  {
    id in active && active[id].key == key && active[id].isBuy == leg
  }

  lemma AgreesIff(active: ActiveOrders, index: Index, id: OrderId, key: InstrumentKey, leg: bool)
    requires Agrees(active, index)
    ensures InSlot(active, key, leg, id) <==> key in index && index[key].Leg(leg) == Some(id)
  {
  }

  ghost function OrdersOf(active: ActiveOrders, key: InstrumentKey): set<OrderId>
  {
    set id | id in active && active[id].key == key
  }

  /** However often an instrument is requoted, at most two of its orders are tracked. */
  lemma AtMostTwoOrders(active: ActiveOrders, index: Index, key: InstrumentKey)
    requires Agrees(active, index)
    ensures |OrdersOf(active, key)| <= 2
    ensures OrdersOf(active, key) == StaleIds(index, key)
  {
    var stale := StaleIds(index, key);
    forall id ensures id in OrdersOf(active, key) <==> id in stale {
      AgreesIff(active, index, id, key, true);
      AgreesIff(active, index, id, key, false);
    }
    assert OrdersOf(active, key) == stale;
    var slots := SlotsOf(index, key);
    if slots.bid.Some? && slots.ask.Some? {
      assert stale == {slots.bid.value, slots.ask.value};
      SubsetSize(stale - {slots.bid.value}, {slots.ask.value});
    }
  }

  function StaleIds(index: Index, key: InstrumentKey): set<OrderId>
  {
    var slots := SlotsOf(index, key);
    (if slots.bid.Some? then {slots.bid.value} else {}) + (if slots.ask.Some? then {slots.ask.value} else {})
  }

  lemma RemoveAgrees(active: ActiveOrders, index: Index, id: OrderId)
    requires Agrees(active, index) && id in active
    ensures Agrees(active - {id}, ClearSlot(index, active[id].key, active[id].isBuy))
  {
    var key, leg := active[id].key, active[id].isBuy;
    var rest, cleared := active - {id}, ClearSlot(index, key, leg);
    forall k, l
      ensures SlotsOf(cleared, k).Leg(l) == if k == key && l == leg then None else SlotsOf(index, k).Leg(l)
    {
    }
    forall other | other in rest ensures SlotsOf(cleared, rest[other].key).Leg(rest[other].isBuy) == Some(other) {
      AgreesIff(active, index, other, key, leg);
    }
    forall k, l | k in cleared && cleared[k].Leg(l).Some? ensures InSlot(rest, k, l, cleared[k].Leg(l).value) {
      assert index[k].Leg(l) == cleared[k].Leg(l);
      AgreesIff(active, index, id, k, l);
    }
  }

  lemma DropInstrumentAgrees(active: ActiveOrders, index: Index, key: InstrumentKey)
    requires Agrees(active, index)
    ensures Agrees(active - StaleIds(index, key), index - {key})
    ensures forall id :: id in active - StaleIds(index, key) <==> id in active && active[id].key != key
    ensures forall id :: id in active && active[id].key == key ==> id in StaleIds(index, key)
    ensures SlotsOf(index, key).Empty() ==> active - StaleIds(index, key) == active && index - {key} == index
  {
    AtMostTwoOrders(active, index, key);
    forall id ensures id in active - StaleIds(index, key) <==> id in active && active[id].key != key {
      assert id in OrdersOf(active, key) <==> id in active && active[id].key == key;
    }
    forall k, l | k in index - {key} && index[k].Leg(l).Some?
      ensures InSlot(active - StaleIds(index, key), k, l, index[k].Leg(l).value)
    {
      assert InSlot(active, k, l, index[k].Leg(l).value);
    }
  }

  /** The orders one requote places: at most one per leg. */
  function Placed(key: InstrumentKey, placed: Slots, quote: Quote): ActiveOrders
  {
    (if placed.bid.Some? then map[placed.bid.value := ActiveOrderInfo(key, true, quote.theoPrice, quote.bidSize)] else map[]) +
    (if placed.ask.Some? then map[placed.ask.value := ActiveOrderInfo(key, false, quote.theoPrice, quote.askSize)] else map[])
  }

  lemma PlaceAgrees(active: ActiveOrders, index: Index, key: InstrumentKey, placed: Slots, quote: Quote)
    requires Agrees(active, index) && key !in index
    requires forall id :: id in Placed(key, placed, quote) ==> id !in active
    requires placed.bid.Some? && placed.ask.Some? ==> placed.bid != placed.ask
    ensures Agrees(active + Placed(key, placed, quote), if placed.Empty() then index else index[key := placed])
  {
  }

  /** Tracking the accepted legs one after the other adds exactly `Placed`. */
  lemma PlacedLegs(active: ActiveOrders, key: InstrumentKey, placed: Slots, quote: Quote)
    ensures var bidIn := if placed.bid.Some?
                         then active[placed.bid.value := ActiveOrderInfo(key, true, quote.theoPrice, quote.bidSize)] else active;
            active + Placed(key, placed, quote) ==
            if placed.ask.Some?
            then bidIn[placed.ask.value := ActiveOrderInfo(key, false, quote.theoPrice, quote.askSize)] else bidIn
  {
  }

  /** Fresh ids above `start`: placing keeps what is tracked and adds only orders of the instrument. */
  lemma PlacedIds(active: ActiveOrders, key: InstrumentKey, placed: Slots, quote: Quote, start: OrderId)
    requires forall id :: id in active ==> id < start
    requires placed.bid.Some? ==> placed.bid.value == start
    requires placed.ask.Some? ==> placed.ask.value == start + 1
    ensures forall id :: id in Placed(key, placed, quote) ==> start <= id < start + 2 && id !in active
    ensures var next := active + Placed(key, placed, quote);
            && (forall id :: id in next ==>
                  if id < start then id in active && next[id] == active[id] else id < start + 2 && next[id].key == key)
            && (forall id :: id in active ==> id in next)
  {
  }

  // ---------------------------------------------------------------- what a requote does

  /** The part of the engine's state that requotes change. */
  datatype QuotingState = QuotingState(active: ActiveOrders, index: Index, resting: set<OrderId>, events: seq<Event>, nextId: OrderId,
                                       calls: seq<BookCall>)

  /** What a log has gained. */
  function Since<T>(before: seq<T>, after: seq<T>): seq<T> { if |before| <= |after| then after[|before|..] else [] }

  /** The calls to one instrument's book. */
  function CallsOf(calls: seq<BookCall>, key: InstrumentKey): seq<BookCall>
  {
    if calls == [] then []
    else CallsOf(calls[..|calls| - 1], key) + if calls[|calls| - 1].key == key then [calls[|calls| - 1]] else []
  }

  /** The quotes announced of one instrument. */
  function QuotesOf(events: seq<Event>, key: InstrumentKey): seq<Quote>
  {
    if events == [] then []
    else
      var before, last := QuotesOf(events[..|events| - 1], key), events[|events| - 1];
      if last.QuoteUpdated? && last.key == key then before + [last.quote] else before
  }

  lemma {:induction false} CallsThen(first: seq<BookCall>, second: seq<BookCall>, key: InstrumentKey)
    ensures CallsOf(first + second, key) == CallsOf(first, key) + CallsOf(second, key)
    decreases |second|
  {
    if second == [] {
      assert first + second == first;
    } else {
      CallsThen(first, second[..|second| - 1], key);
      assert (first + second)[..|first + second| - 1] == first + second[..|second| - 1];
    }
  }

  lemma {:induction false} QuotesThen(first: seq<Event>, second: seq<Event>, key: InstrumentKey)
    ensures QuotesOf(first + second, key) == QuotesOf(first, key) + QuotesOf(second, key)
    decreases |second|
  {
    if second == [] {
      assert first + second == first;
    } else {
      QuotesThen(first, second[..|second| - 1], key);
      assert (first + second)[..|first + second| - 1] == first + second[..|second| - 1];
    }
  }

  lemma {:induction false} CallsOfOne(calls: seq<BookCall>, key: InstrumentKey, k: InstrumentKey)
    requires forall c :: c in calls ==> c.key == key
    ensures CallsOf(calls, k) == if k == key then calls else []
    decreases |calls|
  {
    if calls != [] { CallsOfOne(calls[..|calls| - 1], key, k); }
  }

  /** The cancels of an instrument's earlier orders, the bid first. */
  function Withdrawals(key: InstrumentKey, stale: Slots): seq<BookCall>
  {
    (if stale.bid.Some? then [Cancel(key, stale.bid.value)] else []) + (if stale.ask.Some? then [Cancel(key, stale.ask.value)] else [])
  }

  /** Exactly two orders were offered: the quote's bid, then its ask, each placed if and only if the book accepted it. */
  predicate Offered(offers: seq<BookCall>, key: InstrumentKey, q: Quote, placed: Slots)
  {
    && |offers| == 2 && offers[0].id != offers[1].id
    && offers[0] == Offer(key, offers[0].id, true, q.bidPrice, q.bidSize, placed.bid.Some?)
    && offers[1] == Offer(key, offers[1].id, false, q.askPrice, q.askSize, placed.ask.Some?)
    && (placed.bid.Some? ==> placed.bid.value == offers[0].id)
    && (placed.ask.Some? ==> placed.ask.value == offers[1].id)
  }

  /** A requote's calls: the stale legs are canceled, then the quote is offered. */
  predicate Replaced(calls: seq<BookCall>, key: InstrumentKey, stale: Slots, q: Quote, placed: Slots)
  {
    var w := Withdrawals(key, stale);
    |w| <= |calls| && calls[..|w|] == w && Offered(calls[|w|..], key, q, placed)
  }

  /** Each of `ids` was canceled once, on the book of its own instrument, and nothing else was called. */
  ghost predicate CanceledEach(before: seq<BookCall>, after: seq<BookCall>, active: ActiveOrders, ids: set<OrderId>)
  {
    && before <= after && |after| == |before| + |ids|
    && forall id :: id in ids ==> id in active && Cancel(active[id].key, id) in Since(before, after)
  }

  ghost function OrdersFor(active: ActiveOrders, key: InstrumentKey): ActiveOrders
  {
    map id | id in active && active[id].key == key :: active[id]
  }

  type Quotes = map<InstrumentKey, Option<Quote>>

  function QuoteOf(quotes: Quotes, key: InstrumentKey): Option<Quote> { if key in quotes then quotes[key] else None }

  /**
   With a quote, its earlier orders were canceled and the quote's legs offered, what is tracked and
   indexed for the instrument is exactly what the book accepted of them, none of its earlier orders
   is tracked or rests, and the quote was announced once; without one nothing of it changed.
   */
  ghost predicate QuotedAs(s: QuotingState, t: QuotingState, key: InstrumentKey, q: Option<Quote>)
  {
    var calls, announced := CallsOf(Since(s.calls, t.calls), key), QuotesOf(Since(s.events, t.events), key);
    if q.None? then
      && OrdersFor(t.active, key) == OrdersFor(s.active, key) && SlotsOf(t.index, key) == SlotsOf(s.index, key)
      && calls == [] && announced == []
    else
      && Replaced(calls, key, SlotsOf(s.index, key), q.value, SlotsOf(t.index, key)) && announced == [q.value]
      && OrdersFor(t.active, key) == Placed(key, SlotsOf(t.index, key), q.value)
      && forall id :: id in OrdersFor(s.active, key) ==> id !in t.active && id !in t.resting
  }

  /** From `s` to `t` exactly the instruments of `quotes` were asked for a quote, with those answers. */
  ghost predicate Requoted(s: QuotingState, t: QuotingState, quotes: Quotes)
  {
    && s.nextId <= t.nextId && s.events <= t.events && s.calls <= t.calls
    && (forall key :: QuotedAs(s, t, key, QuoteOf(quotes, key)))
    && (forall id :: id in t.active ==> id in s.active || s.nextId <= id)
    && (forall id :: id in t.resting ==> id in s.resting || s.nextId <= id)
    && (forall e :: e in Since(s.events, t.events) ==> e.QuoteUpdated?)
  }

  lemma RequotedNothing(s: QuotingState)
    ensures Requoted(s, s, map[])
  {
  }

  lemma RequotedThen(s: QuotingState, t: QuotingState, u: QuotingState, first: Quotes, second: Quotes)
    requires Requoted(s, t, first) && Requoted(t, u, second) && first.Keys !! second.Keys
    requires forall id :: id in s.active ==> id < s.nextId
    ensures Requoted(s, u, first + second)
  {
    hide Placed, SlotsOf, CallsOf, QuotesOf, Replaced, Since;
    var all := first + second;
    SinceThen(s.calls, t.calls, u.calls);
    SinceThen(s.events, t.events, u.events);
    forall key ensures QuotedAs(s, u, key, QuoteOf(all, key)) {
      assert QuotedAs(s, t, key, QuoteOf(first, key)) && QuotedAs(t, u, key, QuoteOf(second, key));
      CallsThen(Since(s.calls, t.calls), Since(t.calls, u.calls), key);
      QuotesThen(Since(s.events, t.events), Since(t.events, u.events), key);
      var c1, c2 := CallsOf(Since(s.calls, t.calls), key), CallsOf(Since(t.calls, u.calls), key);
      var q1, q2 := QuotesOf(Since(s.events, t.events), key), QuotesOf(Since(t.events, u.events), key);
      assert c1 + [] == c1 && [] + c2 == c2 && q1 + [] == q1 && [] + q2 == q2;
    }
  }

  lemma SinceThen<T>(a: seq<T>, b: seq<T>, c: seq<T>)
    requires a <= b <= c
    ensures a <= c && Since(a, c) == Since(a, b) + Since(b, c)
  {
  }

  lemma NoQuote(s: QuotingState, key: InstrumentKey)
    ensures Requoted(s, s, map[key := None])
  {
  }

  /** The two offers of a quote under consecutive ids. */
  function Offers(key: InstrumentKey, quote: Quote, id: OrderId, placed: Slots): seq<BookCall>
  {
    [Offer(key, id, true, quote.bidPrice, quote.bidSize, placed.bid.Some?),
     Offer(key, id + 1, false, quote.askPrice, quote.askSize, placed.ask.Some?)]
  }

  lemma NewCalls(calls: seq<BookCall>, after: seq<BookCall>, key: InstrumentKey, stale: Slots, quote: Quote, id: OrderId, placed: Slots)
    requires after == calls + Withdrawals(key, stale) + Offers(key, quote, id, placed)
    requires placed.bid.Some? ==> placed.bid.value == id
    requires placed.ask.Some? ==> placed.ask.value == id + 1
    ensures calls <= after && Replaced(CallsOf(Since(calls, after), key), key, stale, quote, placed)
    ensures forall k :: k != key ==> CallsOf(Since(calls, after), k) == []
  {
    var made := Withdrawals(key, stale) + Offers(key, quote, id, placed);
    assert Since(calls, after) == made;
    CallsOfOne(made, key, key);
    forall k | k != key ensures CallsOf(made, k) == [] { CallsOfOne(made, key, k); }
  }

  lemma NewEvent(events: seq<Event>, key: InstrumentKey, quote: Quote)
    ensures var more := Since(events, events + [QuoteUpdated(key, quote)]);
            && more == [QuoteUpdated(key, quote)] && QuotesOf(more, key) == [quote]
            && forall k :: k != key ==> QuotesOf(more, k) == []
  {
    assert Since(events, events + [QuoteUpdated(key, quote)]) == [QuoteUpdated(key, quote)];
    assert [QuoteUpdated(key, quote)][..0] == [];
  }

  /** Dropping the stale orders of an instrument and placing fresh ones requotes that instrument alone. */
  lemma NewQuote(s: QuotingState, t: QuotingState, key: InstrumentKey, placed: Slots, quote: Quote)
    requires Agrees(s.active, s.index) && forall id :: id in s.active ==> id < s.nextId
    requires placed.bid.Some? ==> placed.bid.value == s.nextId
    requires placed.ask.Some? ==> placed.ask.value == s.nextId + 1
    requires t.active == s.active - StaleIds(s.index, key) + Placed(key, placed, quote)
    requires t.index == if placed.Empty() then s.index - {key} else (s.index - {key})[key := placed]
    requires forall id :: id in t.resting ==> id in s.resting - StaleIds(s.index, key) || s.nextId <= id
    requires t.events == s.events + [QuoteUpdated(key, quote)] && t.nextId == s.nextId + 2
    requires t.calls == s.calls + Withdrawals(key, SlotsOf(s.index, key)) + Offers(key, quote, s.nextId, placed)
    ensures Requoted(s, t, map[key := Some(quote)])
  {
    hide Agrees, Placed, StaleIds, SlotsOf, CallsOf, QuotesOf, Replaced, Withdrawals, Offers, Since;
    DropInstrumentAgrees(s.active, s.index, key);
    NewCalls(s.calls, t.calls, key, SlotsOf(s.index, key), quote, s.nextId, placed);
    NewEvent(s.events, key, quote);
    var rest, added := s.active - StaleIds(s.index, key), Placed(key, placed, quote);
    PlacedIds(rest, key, placed, quote, s.nextId);
    PlacedKeys(key, placed, quote);
    SlotsPlaced(s.index, t.index, key, placed);
    forall k ensures QuotedAs(s, t, k, QuoteOf(map[key := Some(quote)], k)) {
      OrdersAround(s.active, rest, added, key, k, s.nextId);
    }
  }

  lemma SlotsPlaced(before: Index, after: Index, key: InstrumentKey, placed: Slots)
    requires after == if placed.Empty() then before - {key} else (before - {key})[key := placed]
    ensures SlotsOf(after, key) == placed && forall k :: k != key ==> SlotsOf(after, k) == SlotsOf(before, k)
  {
  }

  lemma OrdersAround(active: ActiveOrders, rest: ActiveOrders, added: ActiveOrders, key: InstrumentKey, k: InstrumentKey, start: OrderId)
    requires forall id :: id in rest <==> id in active && active[id].key != key
    requires forall id :: id in rest ==> rest[id] == active[id]
    requires forall id :: id in added ==> added[id].key == key && start <= id
    requires forall id :: id in active ==> id < start
    ensures OrdersFor(rest + added, k) == if k == key then added else OrdersFor(active, k)
    ensures forall id :: id in OrdersFor(active, key) ==> id !in rest + added && id < start
  {
  }

  lemma PlacedKeys(key: InstrumentKey, placed: Slots, quote: Quote)
    ensures forall id :: id in Placed(key, placed, quote) ==> Placed(key, placed, quote)[id].key == key
  {
  }

  function KeysAt(symbol: string, expiration: ExpKey, strikes: set<u64>): set<InstrumentKey>
  {
    (set strike | strike in strikes :: InstrumentKey(symbol, expiration, strike, Call)) +
    (set strike | strike in strikes :: InstrumentKey(symbol, expiration, strike, Put))
  }

  /** Every instrument listed for a symbol under some expirations: each strike, both styles. */
  function KeysOf(symbol: string, listing: Listing, expirations: set<ExpKey>): set<InstrumentKey>
  {
    set expiration, key | expiration in expirations && expiration in listing && key in KeysAt(symbol, expiration, listing[expiration]) :: key
  }

  lemma KeyAt(symbol: string, expiration: ExpKey, strikes: set<u64>, key: InstrumentKey)
    ensures key in KeysAt(symbol, expiration, strikes) <==> key.symbol == symbol && key.expiration == expiration && key.strike in strikes
  {
    match key.style
    case Call => assert key == InstrumentKey(key.symbol, key.expiration, key.strike, Call);
    case Put => assert key == InstrumentKey(key.symbol, key.expiration, key.strike, Put);
  }

  /** Both styles of every listed strike, and nothing else, are quoted. */
  lemma KeyOf(symbol: string, listing: Listing, key: InstrumentKey)
    ensures key in KeysOf(symbol, listing, listing.Keys) <==>
            key.symbol == symbol && key.expiration in listing && key.strike in listing[key.expiration]
  {
    hide KeysAt;
    forall expiration | expiration in listing
      ensures key in KeysAt(symbol, expiration, listing[expiration]) <==>
              key.symbol == symbol && key.expiration == expiration && key.strike in listing[expiration]
    {
      KeyAt(symbol, expiration, listing[expiration], key);
    }
  }

  lemma KeysMore(symbol: string, listing: Listing, done: set<ExpKey>, expiration: ExpKey)
    requires expiration in listing && expiration !in done
    ensures KeysOf(symbol, listing, done + {expiration}) == KeysOf(symbol, listing, done) + KeysAt(symbol, expiration, listing[expiration])
    ensures KeysOf(symbol, listing, done) !! KeysAt(symbol, expiration, listing[expiration])
  {
  }

  lemma StrikeMore(symbol: string, expiration: ExpKey, done: set<u64>, strike: u64)
    requires strike !in done
    ensures KeysAt(symbol, expiration, done + {strike}) == KeysAt(symbol, expiration, done) + KeysAt(symbol, expiration, {strike})
    ensures KeysAt(symbol, expiration, done) !! KeysAt(symbol, expiration, {strike})
  {
  }

  lemma StrikeKeys(symbol: string, expiration: ExpKey, strike: u64)
    ensures KeysAt(symbol, expiration, {strike}) ==
            {InstrumentKey(symbol, expiration, strike, Call), InstrumentKey(symbol, expiration, strike, Put)}
  {
  }

  /** What is done and what is left to do of a whole. */
  ghost predicate Partition<T(!new)>(done: set<T>, todo: set<T>, all: set<T>)
  {
    forall x :: (x in all <==> x in done || x in todo) && !(x in done && x in todo)
  }

  lemma PartitionStep<T(!new)>(done: set<T>, todo: set<T>, all: set<T>, x: T)
    requires Partition(done, todo, all) && x in todo
    ensures Partition(done + {x}, todo - {x}, all) && x !in done && x in all
  {
  }

  lemma PartitionEnds<T(!new)>(done: set<T>, todo: set<T>, all: set<T>)
    ensures Partition({}, all, all)
    ensures Partition(done, {}, all) ==> done == all
  {
  }

  lemma NoKeys(symbol: string, expiration: ExpKey, listing: Listing)
    ensures KeysAt(symbol, expiration, {}) == {} && KeysOf(symbol, listing, {}) == {}
  {
  }

  // ---------------------------------------------------------------- the engine

  class MarketMakerEngine {
    var activeOrders: ActiveOrders
    var instrumentOrders: Index
    var prices: map<string, u64>
    var enabled: bool
    var symbolEnabled: map<string, bool>
    var controls: Controls
    var events: seq<Event>
    /** The manager's listings, and the ids of maker orders resting on its books. */
    var listings: map<string, Listing>
    var resting: set<OrderId>
    var nextId: OrderId
    /** Every call made to a book, in order. */
    ghost var calls: seq<BookCall>
    const quoter: Quoter

    ghost function State(): QuotingState
      reads this`activeOrders, this`instrumentOrders, this`resting, this`events, this`nextId, this`calls
    {
      QuotingState(activeOrders, instrumentOrders, resting, events, nextId, calls)
    }

    constructor (listings: map<string, Listing>, quoter: Quoter)
      ensures Valid() && activeOrders == map[] && instrumentOrders == map[] && this.quoter == quoter
    {
      this.listings, this.quoter := listings, quoter;
      activeOrders, instrumentOrders, prices := map[], map[], map[];
      enabled, symbolEnabled, controls, events, resting, nextId, calls := true, map[], Controls(1.0, 1.0, 0.0), [], {}, 0, [];
    }

    predicate IsSymbolEnabled(symbol: string)
      reads this`symbolEnabled
    {
      if symbol in symbolEnabled then symbolEnabled[symbol] else true
    }

    /** Nobody has turned the symbol off. */
    predicate NotDisabled(symbol: string)
      reads this`symbolEnabled
    {
      symbol in symbolEnabled ==> symbolEnabled[symbol]
    }

    ghost predicate Indexed()
      reads this`activeOrders, this`instrumentOrders, this`nextId
    {
      Agrees(activeOrders, instrumentOrders) && forall id :: id in activeOrders ==> id < nextId
    }

    /** The index agrees with the map, parameters are in range, and a disabled symbol has no quote. */
    ghost predicate Valid()
      reads this
    {
      Indexed() && controls.InRange() && forall id :: id in activeOrders ==> IsSymbolEnabled(activeOrders[id].key.symbol)
    }

    // -------------------------------------------------- book calls

    /** The book may accept and match at once, so an accepted order need not rest and others may stop resting. */
    method AddLimitOrder(key: InstrumentKey, id: OrderId, isBuy: bool, price: u128, size: u64) returns (ok: bool)
      modifies this`resting, this`calls
      ensures resting <= old(resting) + {id} && (!ok ==> resting == old(resting))
      ensures calls == old(calls) + [Offer(key, id, isBuy, price, size, ok)]
    {
      ok := *;
      if ok {
        var consumed: set<OrderId> := *;
        resting := resting - consumed;
        if * { resting := resting + {id}; }
      }
      calls := calls + [Offer(key, id, isBuy, price, size, ok)];
    }

    method CancelOnBook(key: InstrumentKey, id: OrderId)
      modifies this`resting, this`calls
      ensures resting == old(resting) - {id} && calls == old(calls) + [Cancel(key, id)]
    {
      resting := resting - {id};
      calls := calls + [Cancel(key, id)];
    }

    // -------------------------------------------------- cancels and fills

    method ClearInstrumentSlot(key: InstrumentKey, isBuy: bool)
      modifies this`instrumentOrders
      ensures instrumentOrders == ClearSlot(old(instrumentOrders), key, isBuy)
    {
      if key in instrumentOrders {
        var slots := instrumentOrders[key].With(isBuy, None);
        instrumentOrders := instrumentOrders[key := slots];
        if slots.bid.None? && slots.ask.None? { instrumentOrders := instrumentOrders - {key}; }
        assert old(instrumentOrders)[key := slots] - {key} == old(instrumentOrders) - {key};
      }
    }

    method CancelOrder(id: OrderId)
      requires Indexed()
      modifies this`activeOrders, this`instrumentOrders, this`resting, this`calls
      ensures Indexed() && activeOrders == old(activeOrders) - {id}
      ensures id in old(activeOrders) ==> resting == old(resting) - {id}
      ensures id !in old(activeOrders) ==> resting == old(resting)
      ensures calls == old(calls) + if id in old(activeOrders) then [Cancel(old(activeOrders)[id].key, id)] else []
    {
      if id in activeOrders {
        var order := activeOrders[id];
        RemoveAgrees(activeOrders, instrumentOrders, id);
        activeOrders := activeOrders - {id};
        ClearInstrumentSlot(order.key, order.isBuy);
        CancelOnBook(order.key, id);
      }
    }

    static lemma OneMoreCanceled(before: seq<BookCall>, done: seq<BookCall>, after: seq<BookCall>, active: ActiveOrders,
                                 ids: set<OrderId>, id: OrderId)
      requires CanceledEach(before, done, active, ids) && id !in ids && id in active && after == done + [Cancel(active[id].key, id)]
      ensures CanceledEach(before, after, active, ids + {id})
    {
      assert Since(before, after) == Since(before, done) + [Cancel(active[id].key, id)];
    }

    static lemma NothingCanceled(calls: seq<BookCall>, active: ActiveOrders)
      ensures CanceledEach(calls, calls, active, {})
    {
    }

    method CancelEach(ids: set<OrderId>)
      requires Indexed() && ids <= activeOrders.Keys
      modifies this`activeOrders, this`instrumentOrders, this`resting, this`calls
      ensures Indexed() && activeOrders == old(activeOrders) - ids && resting == old(resting) - ids
      ensures CanceledEach(old(calls), calls, old(activeOrders), ids)
    {
      hide Agrees, CanceledEach;
      NothingCanceled(calls, activeOrders);
      var todo := ids;
      assert ids - todo == {};
      while todo != {}
        invariant todo <= ids && Indexed()
        invariant activeOrders == old(activeOrders) - (ids - todo) && resting == old(resting) - (ids - todo)
        invariant CanceledEach(old(calls), calls, old(activeOrders), ids - todo)
        decreases |todo|
      {
        var id :| id in todo;
        ghost var done, gone := calls, ids - todo;
        CancelOrder(id);
        todo := todo - {id};
        assert ids - todo == gone + {id};
        OneMoreCanceled(old(calls), done, calls, old(activeOrders), gone, id);
      }
      assert ids - todo == ids;
    }

    /** The kill switch: afterwards nothing is tracked, indexed, or left resting. */
    method CancelAllOrders()
      requires Indexed()
      modifies this`activeOrders, this`instrumentOrders, this`resting, this`calls
      ensures Indexed() && activeOrders == map[] && instrumentOrders == map[]
      ensures resting == old(resting) - old(activeOrders).Keys
      ensures CanceledEach(old(calls), calls, old(activeOrders), old(activeOrders).Keys)
    {
      CancelEach(activeOrders.Keys);
      assert activeOrders == map[];
      instrumentOrders := map[];
    }

    method CancelSymbolOrders(symbol: string)
      requires Indexed()
      modifies this`activeOrders, this`instrumentOrders, this`resting, this`calls
      ensures Indexed()
      ensures activeOrders == map id | id in old(activeOrders) && old(activeOrders)[id].key.symbol != symbol :: old(activeOrders)[id]
      ensures resting == old(resting) - (old(activeOrders).Keys - activeOrders.Keys)
      ensures CanceledEach(old(calls), calls, old(activeOrders), old(activeOrders).Keys - activeOrders.Keys)
    {
      hide CanceledEach, Agrees;
      var ids := set id | id in activeOrders && activeOrders[id].key.symbol == symbol;
      CancelEach(ids);
      assert old(activeOrders).Keys - activeOrders.Keys == ids;
    }

    method OnOrderFilled(id: OrderId, fillPriceCents: u128, quantity: u64)
      requires Valid()
      modifies this`activeOrders, this`instrumentOrders, this`events
      ensures Valid()
      ensures quantity == 0 || id !in old(activeOrders) ==>
                activeOrders == old(activeOrders) && instrumentOrders == old(instrumentOrders) && events == old(events)
      ensures quantity > 0 && id in old(activeOrders) ==>
                var o := old(activeOrders)[id];
                && activeOrders == (if quantity >= o.quantity then old(activeOrders) - {id}
                                    else old(activeOrders)[id := o.(quantity := o.quantity - quantity)])
                && instrumentOrders == (if quantity >= o.quantity then ClearSlot(old(instrumentOrders), o.key, o.isBuy)
                                        else old(instrumentOrders))
                && events == old(events) + (if fillPriceCents <= U64_MAX
                                            then [OrderFilled(id, o.key, o.isBuy, Min(quantity, o.quantity), fillPriceCents)]
                                            else [])
    {
      if quantity == 0 || id !in activeOrders { return; }
      var order := activeOrders[id];
      var reported := Min(quantity, order.quantity);
      if quantity >= order.quantity {
        RemoveAgrees(activeOrders, instrumentOrders, id);
        activeOrders := activeOrders - {id};
        ClearInstrumentSlot(order.key, order.isBuy);
      } else {
        activeOrders := activeOrders[id := order.(quantity := order.quantity - quantity)];
        forall key, leg, other | InSlot(old(activeOrders), key, leg, other) ensures InSlot(activeOrders, key, leg, other) { }
      }
      if fillPriceCents <= U64_MAX {
        events := events + [OrderFilled(id, order.key, order.isBuy, reported, fillPriceCents)];
      }
    }

    // -------------------------------------------------- requotes

    /** The quote is the quoter's answer for the instrument at some instant. */
    ghost predicate Answered(key: InstrumentKey, spot: u64, quote: Option<Quote>)
      reads this`controls
    {
      exists now: int :: quote == quoter(key, spot, controls, now)
    }

    /**
     Asks the quoter and, if it answers, replaces the quote of one instrument: no earlier order of
     it is left tracked or resting, and what is tracked and indexed for it is exactly what was
     placed. Other instruments keep theirs.
     */
    method UpdateQuote(key: InstrumentKey, spot: u64) returns (quote: Option<Quote>)
      requires Indexed()
      modifies this`activeOrders, this`instrumentOrders, this`resting, this`nextId, this`events, this`calls
      ensures Indexed() && Answered(key, spot, quote)
      ensures Requoted(old(State()), State(), map[key := quote])
      ensures events == old(events) + if quote.Some? then [QuoteUpdated(key, quote.value)] else []
    {
      hide Agrees, Placed;
      ghost var was := State();
      var now: int := *;
      quote := quoter(key, spot, controls, now);
      if quote == None {
        NoQuote(was, key);
        return;
      }
      var slots := SlotsOf(instrumentOrders, key);
      DropInstrumentAgrees(activeOrders, instrumentOrders, key);
      if slots.bid.Some? || slots.ask.Some? {
        if slots.bid.Some? { CancelOnBook(key, slots.bid.value); }
        if slots.ask.Some? { CancelOnBook(key, slots.ask.value); }
        activeOrders := activeOrders - StaleIds(instrumentOrders, key);
        instrumentOrders := instrumentOrders - {key};
      }
      assert activeOrders == was.active - StaleIds(was.index, key);
      assert resting == was.resting - StaleIds(was.index, key);
      assert instrumentOrders == was.index - {key};
      assert calls == was.calls + Withdrawals(key, slots);
      var placed := PlaceQuote(key, quote.value);
      NewQuote(was, State(), key, placed, quote.value);
    }

    /** Places the fresh bid and ask and records the legs that were accepted. */
    method PlaceQuote(key: InstrumentKey, quote: Quote) returns (placed: Slots)
      requires Indexed() && key !in instrumentOrders
      modifies this`activeOrders, this`instrumentOrders, this`resting, this`nextId, this`events, this`calls
      ensures Indexed() && nextId == old(nextId) + 2
      ensures placed.bid.Some? ==> placed.bid.value == old(nextId)
      ensures placed.ask.Some? ==> placed.ask.value == old(nextId) + 1
      ensures activeOrders == old(activeOrders) + Placed(key, placed, quote)
      ensures placed.bid.Some? ==>
                old(nextId) in activeOrders && activeOrders[old(nextId)] == ActiveOrderInfo(key, true, quote.theoPrice, quote.bidSize)
      ensures placed.ask.Some? ==>
                old(nextId) + 1 in activeOrders && activeOrders[old(nextId) + 1] == ActiveOrderInfo(key, false, quote.theoPrice, quote.askSize)
      ensures forall id :: id in activeOrders ==>
                if id < old(nextId) then id in old(activeOrders) && activeOrders[id] == old(activeOrders)[id] else activeOrders[id].key == key
      ensures forall id :: id in old(activeOrders) ==> id in activeOrders
      ensures instrumentOrders == if placed.Empty() then old(instrumentOrders) else old(instrumentOrders)[key := placed]
      ensures forall id :: id in resting ==> id in old(resting) || (old(nextId) <= id && id in activeOrders)
      ensures events == old(events) + [QuoteUpdated(key, quote)]
      ensures calls == old(calls) + [Offer(key, old(nextId), true, quote.bidPrice, quote.bidSize, placed.bid.Some?),
                                     Offer(key, old(nextId) + 1, false, quote.askPrice, quote.askSize, placed.ask.Some?)]
    {
      hide Agrees, Placed;
      var bidId, askId := nextId, nextId + 1;
      nextId := nextId + 2;
      var bid := PlaceLeg(bidId, key, true, quote.theoPrice, quote.bidPrice, quote.bidSize);
      var ask := PlaceLeg(askId, key, false, quote.theoPrice, quote.askPrice, quote.askSize);
      placed := Slots(bid, ask);
      PlacedIds(old(activeOrders), key, placed, quote, old(nextId));
      PlaceAgrees(old(activeOrders), instrumentOrders, key, placed, quote);
      PlacedLegs(old(activeOrders), key, placed, quote);
      if bid.Some? || ask.Some? { instrumentOrders := instrumentOrders[key := placed]; }
      events := events + [QuoteUpdated(key, quote)];
    }

    /** Places one leg and tracks it if the book accepted it. */
    method PlaceLeg(id: OrderId, key: InstrumentKey, isBuy: bool, theoPrice: u64, price: u128, size: u64) returns (placed: Option<OrderId>)
      modifies this`activeOrders, this`resting, this`calls
      ensures placed == None || placed == Some(id)
      ensures calls == old(calls) + [Offer(key, id, isBuy, price, size, placed.Some?)]
      ensures activeOrders == if placed.Some? then old(activeOrders)[id := ActiveOrderInfo(key, isBuy, theoPrice, size)] else old(activeOrders)
      ensures forall other :: other in resting ==> other in old(resting) || placed == Some(other)
    {
      var ok := AddLimitOrder(key, id, isBuy, price, size);
      placed := None;
      if ok {
        activeOrders := activeOrders[id := ActiveOrderInfo(key, isBuy, theoPrice, size)];
        placed := Some(id);
      }
    }

    /** The quoter answered each of these quotes, at the prices and parameters now in force. */
    ghost predicate AllAnswered(quotes: Quotes)
      reads this`controls, this`prices
    {
      forall key :: key in quotes ==> key.symbol in prices && Answered(key, prices[key.symbol], quotes[key])
    }

    lemma NothingAnswered()
      ensures AllAnswered(map[]) && Requoted(State(), State(), map[])
      ensures Indexed() ==> forall id :: id in State().active ==> id < State().nextId
    {
    }

    /** Two rounds of requotes over different instruments are one. */
    lemma BothRounds(s: QuotingState, t: QuotingState, first: Quotes, second: Quotes)
      requires Requoted(s, t, first) && Requoted(t, State(), second) && first.Keys !! second.Keys
      requires AllAnswered(first) && AllAnswered(second) && forall id :: id in s.active ==> id < s.nextId
      ensures Requoted(s, State(), first + second) && AllAnswered(first + second)
      ensures (first + second).Keys == first.Keys + second.Keys
    {
      RequotedThen(s, t, State(), first, second);
    }

    lemma OneAnswered(key: InstrumentKey, quote: Option<Quote>)
      requires key.symbol in prices && Answered(key, prices[key.symbol], quote)
      ensures AllAnswered(map[key := quote])
    {
    }

    /** The instruments a requote of the symbol asks for: all that are listed, once it has a price. */
    ghost function Targets(symbol: string): set<InstrumentKey>
      reads this`prices, this`listings
    {
      if symbol in prices && symbol in listings then KeysOf(symbol, listings[symbol], listings[symbol].Keys) else {}
    }

    /** The instrument's symbol has a price, and the manager lists its strike under its expiration. */
    predicate IsListed(key: InstrumentKey)
      reads this`prices, this`listings
    {
      && key.symbol in prices && key.symbol in listings && key.expiration in listings[key.symbol]
      && key.strike in listings[key.symbol][key.expiration]
    }

    lemma TargetsListed(symbol: string)
      ensures forall key :: key in Targets(symbol) <==> key.symbol == symbol && IsListed(key)
    {
      hide KeysOf;
      forall key ensures key in Targets(symbol) <==> key.symbol == symbol && IsListed(key) {
        if symbol in listings { KeyOf(symbol, listings[symbol], key); }
      }
    }

    method RequoteSymbol(symbol: string) returns (ghost quotes: Quotes)
      requires Indexed()
      modifies this`activeOrders, this`instrumentOrders, this`resting, this`nextId, this`events, this`calls
      ensures Indexed() && Requoted(old(State()), State(), quotes)
      ensures quotes.Keys == Targets(symbol) && AllAnswered(quotes)
      ensures forall key :: key in quotes <==> key.symbol == symbol && IsListed(key)
    {
      hide Requoted, KeysOf, KeysAt, Agrees, AllAnswered, State;
      TargetsListed(symbol);
      quotes := map[];
      NothingAnswered();
      if symbol !in prices || symbol !in listings { return; }
      quotes := RequoteListed(symbol, listings[symbol]);
    }

    method RequoteListed(symbol: string, listing: Listing) returns (ghost quotes: Quotes)
      requires Indexed() && symbol in prices
      modifies this`activeOrders, this`instrumentOrders, this`resting, this`nextId, this`events, this`calls
      ensures Indexed() && Requoted(old(State()), State(), quotes)
      ensures quotes.Keys == KeysOf(symbol, listing, listing.Keys) && AllAnswered(quotes)
    {
      hide Requoted, KeysOf, KeysAt, Indexed, AllAnswered, State, Partition;
      quotes := map[];
      NothingAnswered();
      NoKeys(symbol, Days(0.0), listing);
      PartitionEnds({}, {}, listing.Keys);
      var todo := listing.Keys;
      ghost var done: set<ExpKey> := {};
      while todo != {}
        invariant Partition(done, todo, listing.Keys) && Indexed() && Requoted(old(State()), State(), quotes)
        invariant quotes.Keys == KeysOf(symbol, listing, done) && AllAnswered(quotes)
        decreases |todo|
      {
        var expiration :| expiration in todo;
        PartitionStep(done, todo, listing.Keys, expiration);
        ghost var was := State();
        ghost var more := RequoteExpiration(symbol, expiration, listing[expiration]);
        KeysMore(symbol, listing, done, expiration);
        BothRounds(old(State()), was, quotes, more);
        quotes, done, todo := quotes + more, done + {expiration}, todo - {expiration};
      }
      PartitionEnds(done, {}, listing.Keys);
    }

    method RequoteExpiration(symbol: string, expiration: ExpKey, strikes: set<u64>) returns (ghost quotes: Quotes)
      requires Indexed() && symbol in prices
      modifies this`activeOrders, this`instrumentOrders, this`resting, this`nextId, this`events, this`calls
      ensures Indexed() && Requoted(old(State()), State(), quotes)
      ensures quotes.Keys == KeysAt(symbol, expiration, strikes) && AllAnswered(quotes)
    {
      hide Requoted, KeysOf, KeysAt, Indexed, AllAnswered, State, Partition;
      quotes := map[];
      NothingAnswered();
      var todo := strikes;
      ghost var done: set<u64> := {};
      NoKeys(symbol, expiration, map[]);
      PartitionEnds({}, {}, strikes);
      while todo != {}
        invariant Partition(done, todo, strikes) && Indexed() && Requoted(old(State()), State(), quotes)
        invariant quotes.Keys == KeysAt(symbol, expiration, done) && AllAnswered(quotes)
        decreases |todo|
      {
        var strike :| strike in todo;
        ghost var was := State();
        ghost var more := RequoteStrike(symbol, expiration, strike);
        PartitionStep(done, todo, strikes, strike);
        StrikeMore(symbol, expiration, done, strike);
        BothRounds(old(State()), was, quotes, more);
        quotes, done, todo := quotes + more, done + {strike}, todo - {strike};
      }
      PartitionEnds(done, {}, strikes);
    }

    /** Both styles of a strike, the call first. */
    method RequoteStrike(symbol: string, expiration: ExpKey, strike: u64) returns (ghost quotes: Quotes)
      requires Indexed() && symbol in prices
      modifies this`activeOrders, this`instrumentOrders, this`resting, this`nextId, this`events, this`calls
      ensures Indexed() && Requoted(old(State()), State(), quotes)
      ensures quotes.Keys == KeysAt(symbol, expiration, {strike}) && AllAnswered(quotes)
    {
      hide Requoted, KeysOf, KeysAt, Agrees, AllAnswered, State, Answered;
      NothingAnswered();
      var call, put := InstrumentKey(symbol, expiration, strike, Call), InstrumentKey(symbol, expiration, strike, Put);
      ghost var callQuote := UpdateQuote(call, prices[symbol]);
      OneAnswered(call, callQuote);
      ghost var was := State();
      ghost var putQuote := UpdateQuote(put, prices[symbol]);
      OneAnswered(put, putQuote);
      BothRounds(old(State()), was, map[call := callQuote], map[put := putQuote]);
      quotes := map[call := callQuote] + map[put := putQuote];
      StrikeKeys(symbol, expiration, strike);
    }

    /** Every enabled symbol is requoted, whatever the global flag says. */
    method RequoteAll() returns (ghost quotes: Quotes)
      requires Valid()
      modifies this`activeOrders, this`instrumentOrders, this`resting, this`nextId, this`events, this`calls
      ensures Valid() && Requoted(old(State()), State(), quotes) && AllAnswered(quotes)
      ensures forall key :: key in quotes <==> NotDisabled(key.symbol) && IsListed(key)
    {
      hide Requoted, KeysOf, Agrees, AllAnswered;
      quotes := RequoteEach();
      forall key: InstrumentKey ensures key in Targets(key.symbol) <==> IsListed(key) { TargetsListed(key.symbol); }
      EnabledOnly(old(State()), State(), quotes);
    }

    method RequoteEach() returns (ghost quotes: Quotes)
      requires Indexed()
      modifies this`activeOrders, this`instrumentOrders, this`resting, this`nextId, this`events, this`calls
      ensures Indexed() && Requoted(old(State()), State(), quotes) && AllAnswered(quotes)
      ensures forall key :: key in quotes <==> IsSymbolEnabled(key.symbol) && key in Targets(key.symbol)
    {
      hide Requoted, KeysOf, Agrees, AllAnswered, State;
      quotes := map[];
      NothingAnswered();
      var todo := listings.Keys;
      while todo != {}
        invariant todo <= listings.Keys && Indexed() && Requoted(old(State()), State(), quotes) && AllAnswered(quotes)
        invariant forall key :: key in quotes <==> IsSymbolEnabled(key.symbol) && key in Targets(key.symbol) && key.symbol !in todo
        decreases |todo|
      {
        var symbol :| symbol in todo;
        TargetSymbols(symbol);
        if IsSymbolEnabled(symbol) {
          ghost var was := State();
          ghost var more := RequoteSymbol(symbol);
          BothRounds(old(State()), was, quotes, more);
          quotes := quotes + more;
        }
        todo := todo - {symbol};
      }
    }

    lemma TargetSymbols(symbol: string)
      ensures forall key :: key in Targets(symbol) ==> key.symbol == symbol
    {
    }

    /** Requoting enabled symbols leaves disabled ones unquoted. */
    lemma EnabledOnly(s: QuotingState, t: QuotingState, quotes: Quotes)
      requires Requoted(s, t, quotes)
      requires forall id :: id in s.active ==> IsSymbolEnabled(s.active[id].key.symbol)
      requires forall key :: key in quotes ==> IsSymbolEnabled(key.symbol)
      ensures forall id :: id in t.active ==> IsSymbolEnabled(t.active[id].key.symbol)
    {
      forall id | id in t.active ensures IsSymbolEnabled(t.active[id].key.symbol) {
        var key := t.active[id].key;
        assert id in OrdersFor(t.active, key) && QuotedAs(s, t, key, QuoteOf(quotes, key));
        if key !in quotes { assert id in OrdersFor(s.active, key); }
      }
    }

    // -------------------------------------------------- the public switches

    /** Stores and announces the price; an enabled symbol has every listed instrument requoted at it. */
    method UpdatePrice(symbol: string, priceCents: u64) returns (ghost quotes: Quotes)
      requires Valid()
      modifies this
      ensures Valid() && prices == old(prices)[symbol := priceCents]
      ensures enabled == old(enabled) && symbolEnabled == old(symbolEnabled) && controls == old(controls) && listings == old(listings)
      ensures Requoted(old(State()).(events := old(events) + [PriceUpdated(symbol, priceCents)]), State(), quotes)
      ensures AllAnswered(quotes) && forall key :: key in quotes <==> enabled && NotDisabled(symbol) && key.symbol == symbol && IsListed(key)
      ensures !enabled || !NotDisabled(symbol) ==>
                State() == old(State()).(events := old(events) + [PriceUpdated(symbol, priceCents)])
    {
      hide Requoted;
      prices := prices[symbol := priceCents];
      events := events + [PriceUpdated(symbol, priceCents)];
      quotes := map[];
      RequotedNothing(State());
      ghost var was := State();
      if enabled && IsSymbolEnabled(symbol) {
        quotes := RequoteSymbol(symbol);
        TargetSymbols(symbol);
        EnabledOnly(was, State(), quotes);
      }
    }

    method SetEnabled(on: bool)
      requires Valid()
      modifies this
      ensures Valid() && enabled == on
      ensures !on ==> activeOrders == map[] && instrumentOrders == map[] && resting == old(resting) - old(activeOrders).Keys
      ensures events == old(events) + [ConfigChanged(on, controls)] && controls == old(controls)
      ensures on ==> activeOrders == old(activeOrders) && instrumentOrders == old(instrumentOrders) && resting == old(resting)
      ensures CanceledEach(old(calls), calls, old(activeOrders), if on then {} else old(activeOrders).Keys)
      ensures symbolEnabled == old(symbolEnabled) && prices == old(prices) && listings == old(listings) && nextId == old(nextId)
    {
      hide CanceledEach;
      NothingCanceled(calls, activeOrders);
      enabled := on;
      if !on { CancelAllOrders(); }
      BroadcastConfigChange();
    }

    method SetSymbolEnabled(symbol: string, on: bool)
      requires Valid()
      modifies this
      ensures Valid() && symbolEnabled == old(symbolEnabled)[symbol := on]
      ensures !on ==> activeOrders == map id | id in old(activeOrders) && old(activeOrders)[id].key.symbol != symbol :: old(activeOrders)[id]
      ensures resting == old(resting) - (old(activeOrders).Keys - activeOrders.Keys)
      ensures on ==> activeOrders == old(activeOrders) && instrumentOrders == old(instrumentOrders)
      ensures CanceledEach(old(calls), calls, old(activeOrders), old(activeOrders).Keys - activeOrders.Keys)
      ensures enabled == old(enabled) && controls == old(controls) && prices == old(prices) && listings == old(listings)
      ensures events == old(events) && nextId == old(nextId)
    {
      hide CanceledEach, Agrees;
      NothingCanceled(calls, activeOrders);
      symbolEnabled := symbolEnabled[symbol := on];
      assert activeOrders.Keys - activeOrders.Keys == {};
      if !on { CancelSymbolOrders(symbol); }
    }

    method BroadcastConfigChange()
      modifies this`events
      ensures events == old(events) + [ConfigChanged(enabled, controls)]
    {
      events := events + [ConfigChanged(enabled, controls)];
    }

    /** A non-finite value is ignored; a finite one is clamped, announced, and requotes everything. */
    method SetSpreadMultiplier(value: Requested) returns (ghost quotes: Quotes)
      requires Valid()
      modifies this
      ensures Valid() && enabled == old(enabled) && symbolEnabled == old(symbolEnabled) && prices == old(prices) && listings == old(listings)
      ensures value.NonFinite? ==> controls == old(controls) && State() == old(State())
      ensures value.Finite? ==>
                && controls == old(controls).(spreadMultiplier := controls.spreadMultiplier)
                && (0.1 <= value.x <= 10.0 ==> controls.spreadMultiplier == value.x)
                && (value.x < 0.1 ==> controls.spreadMultiplier == 0.1) && (10.0 < value.x ==> controls.spreadMultiplier == 10.0)
                && Requoted(old(State()).(events := old(events) + [ConfigChanged(enabled, controls)]), State(), quotes)
                && AllAnswered(quotes) && forall key :: key in quotes <==> NotDisabled(key.symbol) && IsListed(key)
    {
      hide Requoted;
      quotes := map[];
      if value.NonFinite? { return; }
      controls := controls.(spreadMultiplier := Clamp(value.x, 0.1, 10.0));
      BroadcastConfigChange();
      quotes := RequoteAll();
    }

    method SetSizeScalar(value: Requested) returns (ghost quotes: Quotes)
      requires Valid()
      modifies this
      ensures Valid() && enabled == old(enabled) && symbolEnabled == old(symbolEnabled) && prices == old(prices) && listings == old(listings)
      ensures value.NonFinite? ==> controls == old(controls) && State() == old(State())
      ensures value.Finite? ==>
                && controls == old(controls).(sizeScalar := controls.sizeScalar)
                && (0.0 <= value.x <= 1.0 ==> controls.sizeScalar == value.x)
                && (value.x < 0.0 ==> controls.sizeScalar == 0.0) && (1.0 < value.x ==> controls.sizeScalar == 1.0)
                && Requoted(old(State()).(events := old(events) + [ConfigChanged(enabled, controls)]), State(), quotes)
                && AllAnswered(quotes) && forall key :: key in quotes <==> NotDisabled(key.symbol) && IsListed(key)
    {
      hide Requoted;
      quotes := map[];
      if value.NonFinite? { return; }
      controls := controls.(sizeScalar := Clamp(value.x, 0.0, 1.0));
      BroadcastConfigChange();
      quotes := RequoteAll();
    }

    method SetDirectionalSkew(value: Requested) returns (ghost quotes: Quotes)
      requires Valid()
      modifies this
      ensures Valid() && enabled == old(enabled) && symbolEnabled == old(symbolEnabled) && prices == old(prices) && listings == old(listings)
      ensures value.NonFinite? ==> controls == old(controls) && State() == old(State())
      ensures value.Finite? ==>
                && controls == old(controls).(directionalSkew := controls.directionalSkew)
                && (-1.0 <= value.x <= 1.0 ==> controls.directionalSkew == value.x)
                && (value.x < -1.0 ==> controls.directionalSkew == -1.0) && (1.0 < value.x ==> controls.directionalSkew == 1.0)
                && Requoted(old(State()).(events := old(events) + [ConfigChanged(enabled, controls)]), State(), quotes)
                && AllAnswered(quotes) && forall key :: key in quotes <==> NotDisabled(key.symbol) && IsListed(key)
    {
      hide Requoted;
      quotes := map[];
      if value.NonFinite? { return; }
      controls := controls.(directionalSkew := Clamp(value.x, -1.0, 1.0));
      BroadcastConfigChange();
      quotes := RequoteAll();
    }

    /** A disabled symbol is quoted nowhere, in the map or in the index. */
    lemma DisabledIsUnquoted(symbol: string)
      requires Valid() && !IsSymbolEnabled(symbol)
      ensures forall id :: id in activeOrders ==> activeOrders[id].key.symbol != symbol
      ensures forall key :: key in instrumentOrders ==> key.symbol != symbol
    {
      forall key | key in instrumentOrders ensures key.symbol != symbol {
        var slots := instrumentOrders[key];
        assert InSlot(activeOrders, key, slots.bid.Some?, slots.Leg(slots.bid.Some?).value);
      }
    }
  }
}
