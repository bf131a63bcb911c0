/**
 Recording executed fills into the market-data stores: positions, last trades, OHLC bars and
 execution reports (`record_fills` and `update_position_on_fill`, src/api/handlers.rs).
 */
module FillStores {
  import opened Machine
  import opened Sums
  import opened Positions
  import Ohlc
  import OhlcMerge
  import Books

  datatype ExecutedFill = ExecutedFill(tradeId: string, price: u128, quantity: u64, timestampMs: u64)

  datatype LastTrade = LastTrade(price: u64, quantity: u64, side: Books.Side, timestampMs: u64, tradeId: string)

  datatype Execution = Execution(symbol: string, side: Books.Side, price: u64, quantity: u64, timestampMs: u64)

  /** The four stores; each series of the bars is the bounded form of its symbol's log. */
  datatype Stores = Stores(
    positions: map<string, Book>,
    lastTrades: map<string, LastTrade>,
    logs: map<string, seq<Ohlc.Trade>>,
    executions: map<string, Execution>)

  const NOTHING := Stores(map[], map[], map[], map[])

  /** One fill as handed to `record_fills`. */
  datatype Entry = Entry(symbol: string, taker: Books.Side, fill: ExecutedFill)

  function Log(s: Stores, symbol: string): seq<Ohlc.Trade> { if symbol in s.logs then s.logs[symbol] else [] }

  /** The taker's signed quantity, through the code's cast to i64. */
  function SignedFill(e: Entry): Fill
  {
    Fill(if e.taker.Buy? then AsI64(e.fill.quantity) else NegI64(AsI64(e.fill.quantity)), e.fill.price)
  }

  function PositionAfter(positions: map<string, Book>, symbol: string, f: Fill): Book
  {
    if symbol in positions then Apply(positions[symbol], f) else Opened(f)
  }

  /** A price beyond u64 cents is skipped by every store. */
  predicate Skipped(e: Entry) { e.fill.price > U64_MAX }

  function RecordOne(s: Stores, e: Entry): Stores
  {
    if Skipped(e) then s
    else
      var f := e.fill;
      Stores(
        s.positions[e.symbol := PositionAfter(s.positions, e.symbol, SignedFill(e))],
        s.lastTrades[e.symbol := LastTrade(f.price, f.quantity, e.taker, f.timestampMs, f.tradeId)],
        s.logs[e.symbol := Log(s, e.symbol) + [Ohlc.Trade(f.timestampMs, f.price, f.quantity)]],
        s.executions[f.tradeId := Execution(e.symbol, e.taker, f.price, f.quantity, f.timestampMs)])
  }

  function Record(s: Stores, entries: seq<Entry>): Stores
  {
    if entries == [] then s else RecordOne(Record(s, entries[..|entries| - 1]), entries[|entries| - 1])
  }

  /** What one call hands over. */
  function Tagged(symbol: string, taker: Books.Side, fills: seq<ExecutedFill>): (entries: seq<Entry>)
    ensures |entries| == |fills| && forall i :: 0 <= i < |fills| ==> entries[i] == Entry(symbol, taker, fills[i])
  {
    seq(|fills|, i requires 0 <= i < |fills| => Entry(symbol, taker, fills[i]))
  }

  lemma RecordAppend(s: Stores, entries: seq<Entry>, e: Entry)
    ensures Record(s, entries + [e]) == RecordOne(Record(s, entries), e)
  {
  }

  /** A fill leaves every store alone exactly when its price is out of range; otherwise it reaches all of them. */
  lemma SkippedInAllStores(s: Stores, e: Entry)
    ensures Skipped(e) <==> RecordOne(s, e) == s
    ensures !Skipped(e) ==>
              var r := RecordOne(s, e);
              e.symbol in r.positions && e.symbol in r.lastTrades && e.fill.tradeId in r.executions &&
              |Log(r, e.symbol)| == |Log(s, e.symbol)| + 1
  {
  }

  /** What each store keeps of a recorded fill; what it keeps of other symbols and trades stays. */
  lemma RecordedFields(s: Stores, e: Entry)
    requires e.fill.price <= U64_MAX
    ensures var r, f := RecordOne(s, e), e.fill;
            && r.lastTrades == s.lastTrades[e.symbol := LastTrade(f.price, f.quantity, e.taker, f.timestampMs, f.tradeId)]
            && r.executions == s.executions[f.tradeId := Execution(e.symbol, e.taker, f.price, f.quantity, f.timestampMs)]
            && Log(r, e.symbol) == Log(s, e.symbol) + [Ohlc.Trade(f.timestampMs, f.price, f.quantity)]
            && e.symbol in r.positions
            && (e.symbol !in s.positions && f.quantity <= I64_MAX ==>
                  r.positions[e.symbol].averagePrice == f.price && r.positions[e.symbol].realizedPnl == 0 &&
                  r.positions[e.symbol].quantity == if e.taker == Books.Buy then f.quantity else 0 - f.quantity)
            && forall other :: other != e.symbol ==>
                 && Log(r, other) == Log(s, other) && (other in r.positions <==> other in s.positions)
                 && (other in s.positions ==> r.positions[other] == s.positions[other])
  {
  }

  /** `r` is `alone` recorded on top of `s`: executions and last trades overwritten, logs continued. */
  ghost predicate OnTop(s: Stores, alone: Stores, r: Stores)
  {
    && r.executions == s.executions + alone.executions
    && r.lastTrades == s.lastTrades + alone.lastTrades
    && forall symbol: string :: Log(r, symbol) == Log(s, symbol) + Log(alone, symbol)
  }

  lemma PutOnTop<V>(a: map<string, V>, b: map<string, V>, key: string, v: V)
    ensures a + b[key := v] == (a + b)[key := v]
  {
  }

  lemma OnTopStep(s: Stores, alone: Stores, r: Stores, e: Entry)
    requires OnTop(s, alone, r)
    ensures OnTop(s, RecordOne(alone, e), RecordOne(r, e))
  {
    hide PositionAfter, SignedFill;
    if Skipped(e) { return; }
    var f := e.fill;
    PutOnTop(s.executions, alone.executions, f.tradeId, Execution(e.symbol, e.taker, f.price, f.quantity, f.timestampMs));
    PutOnTop(s.lastTrades, alone.lastTrades, e.symbol, LastTrade(f.price, f.quantity, e.taker, f.timestampMs, f.tradeId));
    var alone', r' := RecordOne(alone, e), RecordOne(r, e);
    forall symbol: string ensures Log(r', symbol) == Log(s, symbol) + Log(alone', symbol) {
      assert Log(r, symbol) == Log(s, symbol) + Log(alone, symbol);
    }
  }

  lemma {:induction false} RecordOnTop(s: Stores, entries: seq<Entry>)
    ensures OnTop(s, Record(NOTHING, entries), Record(s, entries))
    decreases |entries|
  {
    if entries == [] {
      forall symbol: string ensures Log(s, symbol) == Log(s, symbol) + Log(NOTHING, symbol) { }
    } else {
      var before, last := entries[..|entries| - 1], entries[|entries| - 1];
      RecordOnTop(s, before);
      hide OnTop, RecordOne;
      OnTopStep(s, Record(NOTHING, before), Record(s, before), last);
    }
  }

  /** Replaying a run leaves executions and last trades as they were but doubles the traded volume. */
  lemma ReplayDoublesVolume(entries: seq<Entry>, symbol: string)
    ensures var once := Record(NOTHING, entries);
            var twice := Record(once, entries);
            && twice.executions == once.executions && twice.lastTrades == once.lastTrades
            && Ohlc.Weight(Ohlc.Volume, Log(twice, symbol)) == 2 * Ohlc.Weight(Ohlc.Volume, Log(once, symbol))
  {
    var once := Record(NOTHING, entries);
    RecordOnTop(once, entries);
    WeightConcat(Log(once, symbol), Log(once, symbol));
  }

  lemma {:induction false} WeightConcat(a: seq<Ohlc.Trade>, b: seq<Ohlc.Trade>)
    ensures Ohlc.Weight(Ohlc.Volume, a + b) == Ohlc.Weight(Ohlc.Volume, a) + Ohlc.Weight(Ohlc.Volume, b)
    decreases |b|
  {
    if b == [] {
      assert a + b == a;
    } else {
      WeightConcat(a, b[..|b| - 1]);
      assert (a + b)[..|a + b| - 1] == a + b[..|b| - 1];
    }
  }

  // ---------------------------------------------------------------- executions against positions and bars

  ghost predicate DistinctTrades(entries: seq<Entry>)
  {
    forall i, j :: 0 <= i < j < |entries| ==> entries[i].fill.tradeId != entries[j].fill.tradeId
  }

  function Signed(side: Books.Side, quantity: u64): int
  {
    var q: int := quantity;
    if side.Buy? then q else -q
  }

  ghost function SignedExecutions(executions: map<string, Execution>, symbol: string): map<string, int>
  {
    map id | id in executions && executions[id].symbol == symbol :: Signed(executions[id].side, executions[id].quantity)
  }

  ghost function ExecutionQuantities(executions: map<string, Execution>, symbol: string): map<string, int>
  {
    map id | id in executions && executions[id].symbol == symbol :: executions[id].quantity
  }

  function Quantity(s: Stores, symbol: string): int { if symbol in s.positions then s.positions[symbol].quantity else 0 }

  /** Every recorded quantity fits i64 and no update of the symbol's position clamps. */
  ghost predicate Exact(entries: seq<Entry>, symbol: string)
    decreases |entries|
  {
    entries == [] ||
    var before, last := entries[..|entries| - 1], entries[|entries| - 1];
    && Exact(before, symbol)
    && (last.symbol == symbol && !Skipped(last) ==>
          && last.fill.quantity <= I64_MAX
          && I64_MIN <= Quantity(Record(NOTHING, before), symbol) + Signed(last.taker, last.fill.quantity) <= I64_MAX)
  }

  lemma {:induction false} ExecutionIds(entries: seq<Entry>, id: string)
    requires id in Record(NOTHING, entries).executions
    ensures exists i :: 0 <= i < |entries| && entries[i].fill.tradeId == id
    decreases |entries|
  {
    var before, last := entries[..|entries| - 1], entries[|entries| - 1];
    if id in Record(NOTHING, before).executions {
      ExecutionIds(before, id);
      var i :| 0 <= i < |before| && before[i].fill.tradeId == id;
      assert entries[i].fill.tradeId == id;
    }
  }

  lemma ExecutionAdds(executions: map<string, Execution>, id: string, e: Execution, symbol: string)
    requires id !in executions
    ensures MapSum<string>(SignedExecutions(executions[id := e], symbol)) ==
            MapSum<string>(SignedExecutions(executions, symbol)) + if e.symbol == symbol then Signed(e.side, e.quantity) else 0
    ensures MapSum<string>(ExecutionQuantities(executions[id := e], symbol)) ==
            MapSum<string>(ExecutionQuantities(executions, symbol)) + if e.symbol == symbol then e.quantity else 0
  {
    var more := executions[id := e];
    if e.symbol == symbol {
      SumUpdate<string>(SignedExecutions(executions, symbol), id, Signed(e.side, e.quantity));
      assert SignedExecutions(more, symbol) == SignedExecutions(executions, symbol)[id := Signed(e.side, e.quantity)];
      SumUpdate<string>(ExecutionQuantities(executions, symbol), id, e.quantity);
      assert ExecutionQuantities(more, symbol) == ExecutionQuantities(executions, symbol)[id := e.quantity];
    } else {
      assert SignedExecutions(more, symbol) == SignedExecutions(executions, symbol);
      assert ExecutionQuantities(more, symbol) == ExecutionQuantities(executions, symbol);
    }
  }

  /** One recorded fill with a new trade id moves executions, position and log by the same amount. */
  lemma StepAgrees(s: Stores, e: Entry, symbol: string)
    requires !Skipped(e) && e.fill.tradeId !in s.executions
    ensures var r := RecordOne(s, e);
            var hit := e.symbol == symbol;
            && MapSum<string>(SignedExecutions(r.executions, symbol)) ==
               MapSum<string>(SignedExecutions(s.executions, symbol)) + (if hit then Signed(e.taker, e.fill.quantity) else 0)
            && MapSum<string>(ExecutionQuantities(r.executions, symbol)) ==
               MapSum<string>(ExecutionQuantities(s.executions, symbol)) + (if hit then e.fill.quantity else 0)
            && Ohlc.Weight(Ohlc.Volume, Log(r, symbol)) == Ohlc.Weight(Ohlc.Volume, Log(s, symbol)) + (if hit then e.fill.quantity else 0)
            && (!hit ==> Quantity(r, symbol) == Quantity(s, symbol))
            && (hit && e.fill.quantity <= I64_MAX && I64_MIN <= Quantity(s, symbol) + Signed(e.taker, e.fill.quantity) <= I64_MAX ==>
                  Quantity(r, symbol) == Quantity(s, symbol) + Signed(e.taker, e.fill.quantity))
  {
    var f := e.fill;
    ExecutionAdds(s.executions, f.tradeId, Execution(e.symbol, e.taker, f.price, f.quantity, f.timestampMs), symbol);
    OhlcMerge.WeightAppend(Ohlc.Volume, Log(s, symbol), Ohlc.Trade(f.timestampMs, f.price, f.quantity));
    hide MapSum, SignedExecutions, ExecutionQuantities, Ohlc.Weight;
    QuantityStep(s, e, symbol);
  }

  lemma QuantityStep(s: Stores, e: Entry, symbol: string)
    requires !Skipped(e)
    ensures Log(RecordOne(s, e), symbol) ==
            if e.symbol == symbol then Log(s, symbol) + [Ohlc.Trade(e.fill.timestampMs, e.fill.price, e.fill.quantity)] else Log(s, symbol)
    ensures e.symbol != symbol ==> Quantity(RecordOne(s, e), symbol) == Quantity(s, symbol)
    ensures e.symbol == symbol && e.fill.quantity <= I64_MAX && I64_MIN <= Quantity(s, symbol) + Signed(e.taker, e.fill.quantity) <= I64_MAX ==>
              Quantity(RecordOne(s, e), symbol) == Quantity(s, symbol) + Signed(e.taker, e.fill.quantity)
  {
  }

  lemma {:induction false} SumsAgree(entries: seq<Entry>, symbol: string)
    requires DistinctTrades(entries)
    ensures var s := Record(NOTHING, entries);
            && MapSum<string>(ExecutionQuantities(s.executions, symbol)) == Ohlc.Weight(Ohlc.Volume, Log(s, symbol))
            && (Exact(entries, symbol) ==> MapSum<string>(SignedExecutions(s.executions, symbol)) == Quantity(s, symbol))
    decreases |entries|
  {
    hide MapSum, SignedExecutions, ExecutionQuantities;
    if entries == [] {
      NothingRecorded(symbol);
    } else {
      var before, last := entries[..|entries| - 1], entries[|entries| - 1];
      var s := Record(NOTHING, before);
      SumsAgree(before, symbol);
      if !Skipped(last) {
        if last.fill.tradeId in s.executions { ExecutionIds(before, last.fill.tradeId); }
        StepAgrees(s, last, symbol);
      }
    }
  }

  lemma NothingRecorded(symbol: string)
    ensures MapSum<string>(SignedExecutions(map[], symbol)) == 0 && MapSum<string>(ExecutionQuantities(map[], symbol)) == 0
  {
  }

  // ---------------------------------------------------------------- total bar volume

  /** The traded volume of every bucket. */
  ghost function BucketVolumes(log: seq<Ohlc.Trade>, i: Ohlc.Interval): map<nat, int>
  {
    map b | b in Ohlc.Unbounded(log, i) :: Ohlc.Weight(Ohlc.Volume, Ohlc.BucketTrades(log, i, b))
  }

  lemma BucketVolumesAppend(before: seq<Ohlc.Trade>, last: Ohlc.Trade, i: Ohlc.Interval)
    ensures BucketVolumes(before + [last], i) == Bump<nat>(BucketVolumes(before, i), Ohlc.Bucket(i, last), last.quantity)
  {
    hide Ohlc.FloorTimestamp;
    var past, now := BucketVolumes(before, i), BucketVolumes(before + [last], i);
    OhlcMerge.UnboundedKeys(before, i, last);
    forall b | b in now ensures now[b] == Bump<nat>(past, Ohlc.Bucket(i, last), last.quantity)[b] {
      OhlcMerge.BucketTradesAppend(before, last, i, b);
      Ohlc.UnboundedBars(before, i, b);
      OhlcMerge.WeightAppend(Ohlc.Volume, Ohlc.BucketTrades(before, i, b), last);
    }
  }

  lemma {:induction false} BucketVolumesTotal(log: seq<Ohlc.Trade>, i: Ohlc.Interval)
    ensures MapSum<nat>(BucketVolumes(log, i)) == Ohlc.Weight(Ohlc.Volume, log)
    decreases |log|
  {
    if log == [] {
      assert BucketVolumes(log, i) == map[];
    } else {
      var before, last := log[..|log| - 1], log[|log| - 1];
      assert before + [last] == log;
      BucketVolumesTotal(before, i);
      BucketVolumesAppend(before, last, i);
      SumBump<nat>(BucketVolumes(before, i), Ohlc.Bucket(i, last), last.quantity);
    }
  }

  lemma BarVolume(log: seq<Ohlc.Trade>, i: Ohlc.Interval, b: nat)
    requires b in Ohlc.Unbounded(log, i)
    ensures Ohlc.Unbounded(log, i)[b].volume == Min(Ohlc.Weight(Ohlc.Volume, Ohlc.BucketTrades(log, i, b)), U64_MAX)
  {
    hide Ohlc.Unbounded, Ohlc.BucketTrades, Ohlc.Weight;
    Ohlc.UnboundedBars(log, i, b);
  }

  lemma BarVolumes(log: seq<Ohlc.Trade>, i: Ohlc.Interval)
    requires Ohlc.Weight(Ohlc.Volume, log) <= U64_MAX
    ensures OhlcMerge.Volumes(Ohlc.Unbounded(log, i)) == BucketVolumes(log, i)
  {
    hide Ohlc.Unbounded, Ohlc.BucketTrades, Ohlc.Weight, MapSum;
    var volumes := BucketVolumes(log, i);
    BucketVolumesTotal(log, i);
    SumNonNegative<nat>(volumes);
    forall b | b in Ohlc.Unbounded(log, i) ensures Ohlc.Unbounded(log, i)[b].volume == volumes[b] {
      BarVolume(log, i, b);
      assert b in volumes;
    }
  }

  /** With no bar evicted or saturated, the volumes of an interval's bars add up to all that traded. */
  lemma TotalBarVolume(log: seq<Ohlc.Trade>, i: Ohlc.Interval)
    requires |Ohlc.Unbounded(log, i)| <= Ohlc.MAX_BARS_PER_SERIES && Ohlc.Weight(Ohlc.Volume, log) <= U64_MAX
    ensures MapSum<nat>(OhlcMerge.Volumes(Ohlc.Bounded(log, i))) == Ohlc.Weight(Ohlc.Volume, log)
  {
    Ohlc.BoundedRefinesLog(log, i);
    Ohlc.NewestWhole(Ohlc.Unbounded(log, i), Ohlc.MAX_BARS_PER_SERIES);
    hide *;
    BarVolumes(log, i);
    BucketVolumesTotal(log, i);
  }

  /**
   Over any run of recorded fills with distinct trade ids, the unsigned executions of a symbol
   add up to the volume of its bars in every interval, and the signed ones to its position.
   */
  lemma {:induction false} StoresAgree(entries: seq<Entry>, symbol: string, i: Ohlc.Interval)
    requires DistinctTrades(entries)
    ensures var s := Record(NOTHING, entries);
            var log := Log(s, symbol);
            && (|Ohlc.Unbounded(log, i)| <= Ohlc.MAX_BARS_PER_SERIES && Ohlc.Weight(Ohlc.Volume, log) <= U64_MAX ==>
                  MapSum<string>(ExecutionQuantities(s.executions, symbol)) == MapSum<nat>(OhlcMerge.Volumes(Ohlc.Bounded(log, i))))
            && (Exact(entries, symbol) ==> MapSum<string>(SignedExecutions(s.executions, symbol)) == Quantity(s, symbol))
  {
    SumsAgree(entries, symbol);
    var log := Log(Record(NOTHING, entries), symbol);
    if |Ohlc.Unbounded(log, i)| <= Ohlc.MAX_BARS_PER_SERIES && Ohlc.Weight(Ohlc.Volume, log) <= U64_MAX { TotalBarVolume(log, i); }
  }

  // ---------------------------------------------------------------- positions follow the fills of their symbol

  function FillsOf(entries: seq<Entry>, symbol: string): seq<Fill>
  {
    if entries == [] then []
    else
      var before, last := FillsOf(entries[..|entries| - 1], symbol), entries[|entries| - 1];
      if last.symbol == symbol && !Skipped(last) then before + [SignedFill(last)] else before
  }

  lemma {:induction false} RunAppend(b: Book, fills: seq<Fill>, f: Fill)
    ensures Run(b, fills + [f]) == Apply(Run(b, fills), f)
    decreases |fills|
  {
    if fills == [] {
      assert ([f])[1..] == [] && fills + [f] == [f];
    } else {
      RunAppend(Apply(b, fills[0]), fills[1..], f);
      assert (fills + [f])[1..] == fills[1..] + [f];
    }
  }

  lemma {:induction false} PositionIsRun(entries: seq<Entry>, symbol: string)
    ensures var s, fills := Record(NOTHING, entries), FillsOf(entries, symbol);
            && (symbol in s.positions <==> fills != [])
            && (fills != [] ==> s.positions[symbol] == Run(Opened(fills[0]), fills[1..]))
    decreases |entries|
  {
    if entries != [] {
      hide Apply;
      var before, last := entries[..|entries| - 1], entries[|entries| - 1];
      PositionIsRun(before, symbol);
      var past, f := FillsOf(before, symbol), SignedFill(last);
      if last.symbol == symbol && !Skipped(last) {
        if past != [] {
          RunAppend(Opened(past[0]), past[1..], f);
          assert (past + [f])[1..] == past[1..] + [f];
        } else {
          assert FillsOf(entries, symbol) == [f] && [f][1..] == [];
        }
      }
    }
  }

  /** Only fills in u64 cents are recorded. */
  lemma {:induction false} FillsInCents(entries: seq<Entry>, symbol: string)
    ensures forall f :: f in FillsOf(entries, symbol) ==> f.price <= U64_MAX
    decreases |entries|
  {
    if entries != [] { FillsInCents(entries[..|entries| - 1], symbol); }
  }

  /**
   Whatever has been recorded, the next fill of a symbol books its true P&L clamped to i64, the
   entry value fits u128 and every average price fits u64: the prices at which the position
   arithmetic goes wrong never reach it.
   */
  lemma {:induction false} RecordedPnlIsExact(entries: seq<Entry>, e: Entry)
    requires !Skipped(e) && e.symbol in Record(NOTHING, entries).positions
    ensures var b, f := Record(NOTHING, entries).positions[e.symbol], SignedFill(e);
            && Realized(b, f) == ClampI64(TrueRealized(b, f))
            && EntryValue(b, f) <= U128_MAX
            && Apply(b, f).averagePrice <= U64_MAX
  {
    PositionIsRun(entries, e.symbol);
    FillsInCents(entries, e.symbol);
    var fills := FillsOf(entries, e.symbol);
    CentsRun(Opened(fills[0]), fills[1..]);
    CentsAreExact(Record(NOTHING, entries).positions[e.symbol], SignedFill(e));
  }

  /** Whatever fills of whatever symbols are recorded, a position is worth what its own fills earn, up to the rounding of adds. */
  lemma RecordedEquity(entries: seq<Entry>, symbol: string, m: int)
    requires symbol in Record(NOTHING, entries).positions
    requires var fills := FillsOf(entries, symbol); fills != [] ==> NeverClamps(Opened(fills[0]), fills[1..])
    ensures var fills := FillsOf(entries, symbol);
            && fills != []
            && var error := Equity(Record(NOTHING, entries).positions[symbol], m) - Flow(fills, m);
               -TotalSlack(Opened(fills[0]), fills[1..], false) <= error <= TotalSlack(Opened(fills[0]), fills[1..], true)
  {
    PositionIsRun(entries, symbol);
    FillsInCents(entries, symbol);
    var fills := FillsOf(entries, symbol);
    CentsRun(Opened(fills[0]), fills[1..]);
    EquityIdentity(fills[0], fills[1..], m);
    assert [fills[0]] + fills[1..] == fills;
  }

  // ---------------------------------------------------------------- the stores as the service keeps them

  class FillRecorder {
    var positions: map<string, PositionInfo>
    var lastTrades: map<string, LastTrade>
    var executions: map<string, Execution>
    const aggregator: Ohlc.OhlcAggregator

    ghost function Objects(): set<PositionInfo>
      reads this`positions
    {
      set symbol | symbol in positions :: positions[symbol]
    }

    /** Each position object is filed under its own symbol, so no two entries share one. */
    ghost predicate Filed()
      reads this`positions
    {
      forall symbol :: symbol in positions ==> positions[symbol].symbol == symbol
    }

    ghost predicate Valid()
      reads this, aggregator
    {
      Filed() && aggregator.Valid()
    }

    ghost function PositionBooks(): map<string, Book>
      reads this`positions, Objects()
    {
      map symbol | symbol in positions :: positions[symbol].Value()
    }

    ghost function Value(): Stores
      reads this, Objects(), aggregator
    {
      Stores(PositionBooks(), lastTrades, aggregator.logs, executions)
    }

    constructor ()
      ensures Valid() && Value() == NOTHING && fresh(aggregator)
    {
      positions, lastTrades, executions := map[], map[], map[];
      aggregator := new Ohlc.OhlcAggregator();
    }

    method UpdatePositionOnFill(symbol: string, underlying: string, side: Books.Side, quantity: u64, price: u128, timestampMs: u64)
      requires Filed()
      modifies this`positions, Objects()
      ensures Filed() && fresh(Objects() - old(Objects()))
      ensures var f := SignedFill(Entry(symbol, side, ExecutedFill("", price, quantity, timestampMs)));
              PositionBooks() == old(PositionBooks())[symbol := PositionAfter(old(PositionBooks()), symbol, f)]
    {
      hide Apply;
      var fillQuantity := if side.Buy? then AsI64(quantity) else NegI64(AsI64(quantity));
      if symbol in positions {
        var position := positions[symbol];
        var _ := position.Update(fillQuantity, price, timestampMs);
      } else {
        var position := new PositionInfo(symbol, underlying, fillQuantity, price, timestampMs);
        positions := positions[symbol := position];
      }
    }

    /** Records each fill, in order, in every store; the market maker's notification and the trade stream are separate. */
    method RecordFills(symbol: string, underlying: string, taker: Books.Side, fills: seq<ExecutedFill>)
      requires Valid()
      modifies this, Objects(), aggregator
      ensures Valid() && fresh(Objects() - old(Objects()))
      ensures Value() == Record(old(Value()), Tagged(symbol, taker, fills))
    {
      ghost var entries := Tagged(symbol, taker, fills);
      for n := 0 to |fills|
        invariant Valid() && fresh(Objects() - old(Objects()))
        invariant Value() == Record(old(Value()), entries[..n])
      {
        assert entries[..n + 1] == entries[..n] + [entries[n]];
        RecordAppend(old(Value()), entries[..n], entries[n]);
        RecordFill(symbol, underlying, taker, fills[n]);
      }
      assert entries[..|fills|] == entries;
    }

    method RecordFill(symbol: string, underlying: string, taker: Books.Side, fill: ExecutedFill)
      requires Valid()
      modifies this, Objects(), aggregator
      ensures Valid() && fresh(Objects() - old(Objects()))
      ensures Value() == RecordOne(old(Value()), Entry(symbol, taker, fill))
    {
      hide Apply;
      if fill.price > U64_MAX { return; }
      UpdatePositionOnFill(symbol, underlying, taker, fill.quantity, fill.price, fill.timestampMs);
      hide PositionAfter, SignedFill;
      RecordMarketData(symbol, taker, fill);
    }

    method RecordMarketData(symbol: string, taker: Books.Side, fill: ExecutedFill)
      requires aggregator.Valid() && fill.price <= U64_MAX
      modifies this`lastTrades, this`executions, aggregator
      ensures aggregator.Valid()
      ensures lastTrades == old(lastTrades)[symbol := LastTrade(fill.price, fill.quantity, taker, fill.timestampMs, fill.tradeId)]
      ensures aggregator.logs == old(aggregator.logs)[symbol := old(aggregator.Log(symbol)) + [Ohlc.Trade(fill.timestampMs, fill.price, fill.quantity)]]
      ensures executions == old(executions)[fill.tradeId := Execution(symbol, taker, fill.price, fill.quantity, fill.timestampMs)]
    {
      lastTrades := lastTrades[symbol := LastTrade(fill.price, fill.quantity, taker, fill.timestampMs, fill.tradeId)];
      aggregator.RecordTrade(symbol, Ohlc.Trade(fill.timestampMs, fill.price, fill.quantity));
      executions := executions[fill.tradeId := Execution(symbol, taker, fill.price, fill.quantity, fill.timestampMs)];
    }
  }
}
