/**
 Position accounting: the net position of one option symbol, its floored
 size-weighted entry price and its realised P&L (`PositionInfo`, src/models.rs).
 */
module Positions {
  import opened Machine

  /** The accounting state of a position; the labels and timestamps are in the class. */
  datatype Book = Book(quantity: i64, averagePrice: u128, realizedPnl: i64)

  datatype Fill = Fill(quantity: i64, price: u128)

  // ---------------------------------------------------------------- checked arithmetic

  function CheckedU128(x: int): (r: Option<u128>)
    ensures r == None <==> x < 0 || U128_MAX < x
  {
    if 0 <= x <= U128_MAX then Some(x) else None
  }

  function CheckedI128(x: int): (r: Option<int>)
    ensures r == None <==> x < -I128_MAX - 1 || I128_MAX < x
  {
    if -I128_MAX - 1 <= x <= I128_MAX then Some(x) else None
  }

  function CheckedI64(x: int): (r: Option<i64>)
    ensures r == None <==> x < I64_MIN || I64_MAX < x
  {
    if I64_MIN <= x <= I64_MAX then Some(x) else None
  }

  // ---------------------------------------------------------------- what a fill means

  function Sign(q: int): int { if q > 0 then 1 else if q < 0 then -1 else 0 }

  predicate Opens(b: Book, f: Fill) { b.quantity == 0 || Sign(b.quantity) == Sign(f.quantity) }

  /** The P&L a fill locks in, over unbounded integers. */
  function TrueRealized(b: Book, f: Fill): int
  {
    if Opens(b, f) then 0
    else Sign(b.quantity) * (f.price - b.averagePrice) * Min(Abs(f.quantity), Abs(b.quantity))
  }

  predicate InI128(b: Book, f: Fill) { f.price <= I128_MAX && b.averagePrice <= I128_MAX }

  /** The P&L the code books: exact and clamped below 2^127, else all or nothing by direction. */
  function Realized(b: Book, f: Fill): i64
  {
    if Opens(b, f) || InI128(b, f) then ClampI64(TrueRealized(b, f))
    else if (if b.quantity > 0 then f.price > b.averagePrice else f.price < b.averagePrice) then I64_MAX
    else I64_MIN
  }

  /** The money paid for the open size, before rounding. */
  function EntryValue(b: Book, f: Fill): nat
  {
    MulNonNegative(b.averagePrice, Abs(b.quantity));
    MulNonNegative(f.price, Abs(f.quantity));
    b.averagePrice * Abs(b.quantity) + f.price * Abs(f.quantity)
  }

  function Average(b: Book, f: Fill): u128
  {
    var size := Abs(b.quantity) + Abs(f.quantity);
    if size == 0 then b.averagePrice
    else if EntryValue(b, f) <= U128_MAX then
      QuotientBound(EntryValue(b, f), size);
      EntryValue(b, f) / size
    else U128_MAX
  }

  /** The position after a fill. */
  function Apply(b: Book, f: Fill): Book
  {
    var quantity := ClampI64(b.quantity + f.quantity);
    if Opens(b, f) then Book(quantity, Average(b, f), b.realizedPnl)
    else
      var flipped := Sign(quantity) != 0 && Sign(quantity) == Sign(f.quantity);
      Book(quantity, if flipped then f.price else b.averagePrice, ClampI64(b.realizedPnl + Realized(b, f)))
  }

  // ---------------------------------------------------------------- the object the service mutates

  class PositionInfo {
    const symbol: string
    const underlying: string
    var quantity: i64
    var averagePrice: u128
    var realizedPnl: i64
    const createdAtMs: u64
    var updatedAtMs: u64

    function Value(): Book
      reads this
    {
      Book(quantity, averagePrice, realizedPnl)
    }

    constructor (symbol: string, underlying: string, quantity: i64, price: u128, timestampMs: u64)
      ensures this.symbol == symbol && this.underlying == underlying
      ensures Value() == Book(quantity, price, 0)
      ensures createdAtMs == timestampMs && updatedAtMs == timestampMs
    {
      this.symbol, this.underlying := symbol, underlying;
      this.quantity, this.averagePrice, this.realizedPnl := quantity, price, 0;
      createdAtMs, updatedAtMs := timestampMs, timestampMs;
    }

    /** Applies a fill step by step in the code's checked and saturating arithmetic. */
    method Update(fillQuantity: i64, fillPrice: u128, timestampMs: u64) returns (realized: i64)
      modifies this
      ensures Value() == Apply(old(Value()), Fill(fillQuantity, fillPrice))
      ensures realized == Realized(old(Value()), Fill(fillQuantity, fillPrice))
      ensures updatedAtMs == timestampMs
    {
      realized := 0;
      var sameDirection := (quantity > 0 && fillQuantity > 0) || (quantity < 0 && fillQuantity < 0);
      if sameDirection || quantity == 0 {
        UpdateAverage(fillQuantity, fillPrice);
        quantity := ClampI64(quantity + fillQuantity);
      } else {
        ghost var before := Value();
        var closeQuantity := Min(Abs(fillQuantity), Abs(quantity));
        realized := CloseRealized(fillPrice, closeQuantity);
        assert realized == Realized(before, Fill(fillQuantity, fillPrice)) by {
          SignedProduct(quantity, fillPrice - averagePrice, closeQuantity);
        }
        realizedPnl := ClampI64(realizedPnl + realized);
        quantity := ClampI64(quantity + fillQuantity);
        if (quantity > 0 && fillQuantity > 0) || (quantity < 0 && fillQuantity < 0) {
          averagePrice := fillPrice;
        }
      }
      updatedAtMs := timestampMs;
    }

    method UpdateAverage(fillQuantity: i64, fillPrice: u128)
      modifies this`averagePrice
      ensures averagePrice == Average(old(Value()), Fill(fillQuantity, fillPrice))
    {
      ghost var before, fill := Value(), Fill(fillQuantity, fillPrice);
      var oldSize, addSize := Abs(quantity), Abs(fillQuantity);
      var total := oldSize + addSize;
      if total > 0 {
        MulNonNegative(averagePrice, oldSize);
        MulNonNegative(fillPrice, addSize);
        var oldValue, newValue := CheckedU128(averagePrice * oldSize), CheckedU128(fillPrice * addSize);
        var weighted := None;
        if oldValue.Some? && newValue.Some? {
          var a: int, b: int := oldValue.value, newValue.value;
          weighted := CheckedU128(a + b);
        }
        assert weighted.Some? <==> EntryValue(before, fill) <= U128_MAX;
        if weighted.Some? { QuotientBound(weighted.value, total); }
        averagePrice := if weighted.Some? then weighted.value / total else U128_MAX;
      }
    }

    /** Realised amount of closing `closeQuantity` at `fillPrice`, saturating by direction. */
    method CloseRealized(fillPrice: u128, closeQuantity: nat) returns (realized: i64)
      requires quantity != 0 && closeQuantity <= -I64_MIN
      ensures fillPrice <= I128_MAX && averagePrice <= I128_MAX ==>
                realized == ClampI64((if quantity > 0 then fillPrice - averagePrice else averagePrice - fillPrice) * closeQuantity)
      ensures !(fillPrice <= I128_MAX && averagePrice <= I128_MAX) ==>
                realized == if (if quantity > 0 then fillPrice > averagePrice else fillPrice < averagePrice) then I64_MAX else I64_MIN
    {
      var fits := fillPrice <= I128_MAX && averagePrice <= I128_MAX;
      var signedDiff := None;
      if fits {
        var diff := CheckedI128(fillPrice - averagePrice);
        signedDiff := if quantity > 0 then diff else CheckedI128(-diff.value);
      }
      var wide := if signedDiff.Some? then CheckedI128(signedDiff.value * closeQuantity) else None;
      var narrow := if wide.Some? then CheckedI64(wide.value) else None;
      var positive := if quantity > 0 then fillPrice > averagePrice else fillPrice < averagePrice;
      if signedDiff.Some? { ProductSign(signedDiff.value, closeQuantity); }
      realized := if narrow.Some? then narrow.value else if positive then I64_MAX else I64_MIN;
    }

    /** Mark-to-market of the open size; None is overflow. */
    function UnrealizedPnl(currentPrice: u128): (r: Option<i64>)
      reads this
      ensures r.Some? <==> currentPrice <= I128_MAX && averagePrice <= I128_MAX &&
                           I64_MIN <= (currentPrice - averagePrice) * quantity <= I64_MAX
      ensures r.Some? ==> realizedPnl + r.value == Equity(Value(), currentPrice)
    {
      if currentPrice > I128_MAX || averagePrice > I128_MAX then None
      else
        var pnl := CheckedI128((currentPrice - averagePrice) * quantity);
        if pnl == None then None else CheckedI64(pnl.value)
    }
  }

  lemma ProductSign(d: int, n: nat)
    ensures d > 0 ==> d * n >= 0
    ensures d < 0 ==> d * n <= 0
    ensures d == 0 ==> d * n == 0
  {
  }

  lemma SignedProduct(q: int, d: int, n: nat)
    ensures q > 0 ==> Sign(q) * d * n == d * n
    ensures q < 0 ==> Sign(q) * d * n == (-d) * n
  {
  }

  // ---------------------------------------------------------------- realised P&L

  /**
   The booked amount is the true P&L clamped to i64 exactly when the fill opens, both prices
   are below 2^127, or the move times the closed size reaches the i64 limit on its own.
   */
  lemma RealizedExactIff(b: Book, f: Fill)
    ensures Realized(b, f) == ClampI64(TrueRealized(b, f)) <==>
            || Opens(b, f)
            || InI128(b, f)
            || Abs(f.price - b.averagePrice) * Min(Abs(f.quantity), Abs(b.quantity)) >=
               (if (b.quantity > 0) == (f.price > b.averagePrice) then I64_MAX else -I64_MIN)
  {
    if !Opens(b, f) && !InI128(b, f) {
      var d, n := f.price - b.averagePrice, Min(Abs(f.quantity), Abs(b.quantity));
      SignedProduct(b.quantity, d, n);
      ProductSign(d, n);
      assert Abs(d) * n == if d < 0 then -(d * n) else d * n;
      assert (-d) * n == -(d * n);
    }
  }

  /** Above 2^127 even a close at the entry price, which earns nothing, is booked as the largest loss. */
  lemma FlatCloseAbove127Bits(b: Book, f: Fill)
    requires !Opens(b, f) && b.averagePrice > I128_MAX && f.price == b.averagePrice
    ensures TrueRealized(b, f) == 0 && Realized(b, f) == I64_MIN
  {
  }

  /** The net size and the P&L of a fill stop at the ends of i64. */
  lemma FillTotals(b: Book, f: Fill)
    ensures var net, pnl := b.quantity + f.quantity, b.realizedPnl + if Opens(b, f) then 0 else Realized(b, f);
            && (if net > I64_MAX then Apply(b, f).quantity == I64_MAX
                else if net < I64_MIN then Apply(b, f).quantity == I64_MIN else Apply(b, f).quantity == net)
            && (if pnl > I64_MAX then Apply(b, f).realizedPnl == I64_MAX
                else if pnl < I64_MIN then Apply(b, f).realizedPnl == I64_MIN else Apply(b, f).realizedPnl == pnl)
  {
    hide Average, Realized;
  }

  /**
   An add's average is the floored size-weighted price, all ones if the money does not fit u128; a
   reduction keeps the average, and going through zero restarts it at the fill's price.
   */
  lemma FillAverage(b: Book, f: Fill)
    ensures var net, average := b.quantity + f.quantity, Apply(b, f).averagePrice;
            if Opens(b, f) then AverageFits(b, f, average)
            else if (b.quantity > 0 && net < 0) || (b.quantity < 0 && net > 0) then average == f.price
            else average == b.averagePrice
  {
    hide Realized;
    if Opens(b, f) { AverageFloors(b, f); }
  }

  predicate AverageFits(b: Book, f: Fill, average: u128)
  {
    var size, money := Abs(b.quantity) + Abs(f.quantity), b.averagePrice * Abs(b.quantity) + f.price * Abs(f.quantity);
    && (size > 0 && money <= U128_MAX ==> average * size <= money < (average + 1) * size)
    && (size > 0 && money > U128_MAX ==> average == U128_MAX)
    && (size == 0 ==> average == b.averagePrice)
  }

  lemma AverageFloors(b: Book, f: Fill)
    ensures AverageFits(b, f, Average(b, f))
  {
    var size := Abs(b.quantity) + Abs(f.quantity);
    if size > 0 { Division(EntryValue(b, f), size); }
  }

  // ---------------------------------------------------------------- equity

  /** Realised plus mark-to-market P&L at mark `m`. */
  function Equity(b: Book, m: int): int { b.realizedPnl + (m - b.averagePrice) * b.quantity }

  predicate Adds(b: Book, f: Fill) { b.quantity != 0 && Opens(b, f) && f.quantity != 0 }

  predicate Saturates(b: Book, f: Fill)
  {
    || !(I64_MIN <= b.quantity + f.quantity <= I64_MAX)
    || if Opens(b, f) then EntryValue(b, f) > U128_MAX
       else
         || !InI128(b, f)
         || !(I64_MIN <= TrueRealized(b, f) <= I64_MAX)
         || !(I64_MIN <= b.realizedPnl + TrueRealized(b, f) <= I64_MAX)
  }

  /** Rounding room of one fill: one unit less than the size it grows the position to. */
  function Slack(b: Book, f: Fill, long: bool): int
  {
    if Adds(b, f) && (b.quantity > 0) == long then Abs(b.quantity + f.quantity) - 1 else 0
  }

  lemma EquityStep(b: Book, f: Fill, m: int)
    requires !Saturates(b, f)
    ensures var error := Equity(Apply(b, f), m) - Equity(b, m) - f.quantity * (m - f.price);
            -Slack(b, f, false) <= error <= Slack(b, f, true)
  {
    if Opens(b, f) {
      EquityOpen(b, f, m);
    } else {
      EquityClose(b, f, m);
    }
  }

  lemma EquityOpen(b: Book, f: Fill, m: int)
    requires !Saturates(b, f) && Opens(b, f)
    ensures var error := Equity(Apply(b, f), m) - Equity(b, m) - f.quantity * (m - f.price);
            -Slack(b, f, false) <= error <= Slack(b, f, true)
  {
    hide Average, EntryValue, Realized, TrueRealized;
    var next := Apply(b, f);
    assert next == Book(b.quantity + f.quantity, Average(b, f), b.realizedPnl);
    if Abs(b.quantity) + Abs(f.quantity) > 0 {
      var r := AverageRemainder(b, f);
      OpenAlgebra(b.averagePrice, f.price, next.averagePrice, b.quantity, f.quantity, m, r);
    }
  }

  /** The floor drops `r` from the entry value, and nothing when the position opens from flat. */
  lemma AverageRemainder(b: Book, f: Fill) returns (r: int)
    requires !Saturates(b, f) && Opens(b, f) && Abs(b.quantity) + Abs(f.quantity) > 0
    ensures Average(b, f) * (Abs(b.quantity) + Abs(f.quantity)) == b.averagePrice * Abs(b.quantity) + f.price * Abs(f.quantity) - r
    ensures 0 <= r < Abs(b.quantity) + Abs(f.quantity)
    ensures b.quantity == 0 ==> r == 0
  {
    var n := Abs(b.quantity) + Abs(f.quantity);
    r := EntryValue(b, f) % n;
    Division(EntryValue(b, f), n);
    if b.quantity == 0 {
      MulCancel(f.price, n);
    }
  }

  lemma MulCancel(p: nat, n: nat)
    requires n > 0
    ensures (p * n) / n == p && (p * n) % n == 0
  {
    Division(p * n, n);
    FloorBetween(p * n, n, p, p);
  }

  lemma OpenAlgebra(avg: int, p: int, avg': int, q: int, f: int, m: int, r: int)
    requires (q >= 0 && f >= 0) || (q <= 0 && f <= 0)
    requires avg' * (Abs(q) + Abs(f)) == avg * Abs(q) + p * Abs(f) - r
    ensures (m - avg') * (q + f) - (m - avg) * q - f * (m - p) == if q + f > 0 then r else if q + f < 0 then -r else 0
  {
  }

  lemma EquityClose(b: Book, f: Fill, m: int)
    requires !Saturates(b, f) && !Opens(b, f)
    ensures Equity(Apply(b, f), m) == Equity(b, m) + f.quantity * (m - f.price)
  {
    var n := Min(Abs(f.quantity), Abs(b.quantity));
    var d := f.price - b.averagePrice;
    SignedProduct(b.quantity, d, n);
    CloseAlgebra(b.averagePrice, f.price, b.quantity, f.quantity, m);
    var next := Apply(b, f);
    if Abs(f.quantity) <= Abs(b.quantity) {
      assert next == Book(b.quantity + f.quantity, b.averagePrice, b.realizedPnl + TrueRealized(b, f));
      NegatedProduct(d, f.quantity);
      assert TrueRealized(b, f) == -(d * f.quantity);
    } else {
      assert next == Book(b.quantity + f.quantity, f.price, b.realizedPnl + TrueRealized(b, f));
      NegatedProduct(d, b.quantity);
      assert TrueRealized(b, f) == d * b.quantity;
    }
  }

  lemma NegatedProduct(d: int, n: int)
    ensures d * (-n) == -(d * n) == (-d) * n
    ensures (-d) * (-n) == d * n
  {
  }

  lemma CloseAlgebra(avg: int, p: int, q: int, f: int, m: int)
    ensures -((p - avg) * f) + (m - avg) * (q + f) == (m - avg) * q + f * (m - p)
    ensures (p - avg) * q + (m - p) * (q + f) == (m - avg) * q + f * (m - p)
  {
  }

  // ---------------------------------------------------------------- whole runs

  function Run(b: Book, fills: seq<Fill>): Book
    decreases |fills|
  {
    if fills == [] then b else Run(Apply(b, fills[0]), fills[1..])
  }

  predicate NeverSaturates(b: Book, fills: seq<Fill>)
    decreases |fills|
  {
    fills == [] || (!Saturates(b, fills[0]) && NeverSaturates(Apply(b, fills[0]), fills[1..]))
  }

  function TotalSlack(b: Book, fills: seq<Fill>, long: bool): int
    decreases |fills|
  {
    if fills == [] then 0
    else Slack(b, fills[0], long) + TotalSlack(Apply(b, fills[0]), fills[1..], long)
  }

  /** What the fills earn at mark `m`: the sum of quantity times (mark - price). */
  function Flow(fills: seq<Fill>, m: int): int
  {
    if fills == [] then 0 else fills[0].quantity * (m - fills[0].price) + Flow(fills[1..], m)
  }

  /** Floors only ever flatter a long and understate a short, and only fills that add to a position round. */
  lemma {:induction false} EquityOfRun(b: Book, fills: seq<Fill>, m: int)
    requires NeverSaturates(b, fills)
    ensures var error := Equity(Run(b, fills), m) - Equity(b, m) - Flow(fills, m);
            -TotalSlack(b, fills, false) <= error <= TotalSlack(b, fills, true)
    decreases |fills|
  {
    if fills != [] {
      EquityStep(b, fills[0], m);
      EquityOfRun(Apply(b, fills[0]), fills[1..], m);
    }
  }

  /** The book created by a first fill. */
  function Opened(f: Fill): Book { Book(f.quantity, f.price, 0) }

  /** The equity identity from the first fill on: only fills that add to an open position round. */
  lemma EquityIdentity(first: Fill, rest: seq<Fill>, m: int)
    requires NeverSaturates(Opened(first), rest)
    ensures var error := Equity(Run(Opened(first), rest), m) - Flow([first] + rest, m);
            -TotalSlack(Opened(first), rest, false) <= error <= TotalSlack(Opened(first), rest, true)
  {
    EquityOfRun(Opened(first), rest, m);
    FlowHead(first, rest, m);
    OpenedEquity(first.price, first.quantity, m);
  }

  lemma FlowHead(first: Fill, rest: seq<Fill>, m: int)
    ensures Flow([first] + rest, m) == first.quantity * (m - first.price) + Flow(rest, m)
  {
  }

  lemma OpenedEquity(p: int, q: int, m: int)
    ensures (m - p) * q == q * (m - p)
  {
  }

  // ---------------------------------------------------------------- the average stays among the entry prices

  /** Prices of the fills that built the open position since it was last flat or flipped. */
  function EntryPrices(b: Book, prices: seq<u128>, f: Fill): seq<u128>
  {
    var next := Apply(b, f);
    if next.quantity == 0 then []
    else if b.quantity == 0 || Sign(next.quantity) != Sign(b.quantity) then [f.price]
    else if Adds(b, f) then prices + [f.price]
    else prices
  }

  predicate AmongEntries(b: Book, prices: seq<u128>)
  {
    b.quantity != 0 ==>
      && (exists i :: 0 <= i < |prices| && prices[i] <= b.averagePrice)
      && (exists i :: 0 <= i < |prices| && b.averagePrice <= prices[i])
  }

  lemma AverageStep(b: Book, prices: seq<u128>, f: Fill)
    requires !Saturates(b, f) && AmongEntries(b, prices)
    ensures AmongEntries(Apply(b, f), EntryPrices(b, prices, f))
  {
    var next, after := Apply(b, f), EntryPrices(b, prices, f);
    if b.quantity == 0 && f.quantity != 0 {
      MulCancel(f.price, Abs(f.quantity));
      assert after[0] == next.averagePrice;
    } else if Adds(b, f) {
      var low :| 0 <= low < |prices| && prices[low] <= b.averagePrice;
      var high :| 0 <= high < |prices| && b.averagePrice <= prices[high];
      AverageBetween(b, f);
      assert after[|prices|] == f.price;
      if f.price <= b.averagePrice {
        assert after[|prices|] <= next.averagePrice <= after[high];
      } else {
        assert after[low] <= next.averagePrice <= after[|prices|];
      }
    } else if f.quantity == 0 && b.quantity != 0 {
      assert next.averagePrice == b.averagePrice;
    } else if next.quantity != 0 && Sign(next.quantity) != Sign(b.quantity) {
      assert after[0] == next.averagePrice;
    }
  }

  lemma AverageBetween(b: Book, f: Fill)
    requires !Saturates(b, f) && Adds(b, f)
    ensures Min(b.averagePrice, f.price) <= Average(b, f) <= Max(b.averagePrice, f.price)
  {
    var o, a := Abs(b.quantity), Abs(f.quantity);
    var low, high := Min(b.averagePrice, f.price), Max(b.averagePrice, f.price);
    MulMono(low, b.averagePrice, o);
    MulMono(low, f.price, a);
    MulMono(b.averagePrice, high, o);
    MulMono(f.price, high, a);
    assert low * (o + a) == low * o + low * a;
    assert high * (o + a) == high * o + high * a;
    FloorBetween(EntryValue(b, f), o + a, low, high);
  }

  function EntriesOfRun(b: Book, prices: seq<u128>, fills: seq<Fill>): seq<u128>
    decreases |fills|
  {
    if fills == [] then prices
    else EntriesOfRun(Apply(b, fills[0]), EntryPrices(b, prices, fills[0]), fills[1..])
  }

  lemma {:induction false} AverageOfRun(b: Book, prices: seq<u128>, fills: seq<Fill>)
    requires NeverSaturates(b, fills) && AmongEntries(b, prices)
    ensures AmongEntries(Run(b, fills), EntriesOfRun(b, prices, fills))
    decreases |fills|
  {
    if fills != [] {
      AverageStep(b, prices, fills[0]);
      AverageOfRun(Apply(b, fills[0]), EntryPrices(b, prices, fills[0]), fills[1..]);
    }
  }

  // ---------------------------------------------------------------- prices that fit u64 cents

  /** A position and a fill whose prices fit u64, as every recorded fill's do. */
  predicate InCents(b: Book, f: Fill) { b.averagePrice <= U64_MAX && f.price <= U64_MAX }

  /** One of the i64 counters of the position would clamp. */
  predicate Clamps(b: Book, f: Fill)
  {
    || !(I64_MIN <= b.quantity + f.quantity <= I64_MAX)
    || !(I64_MIN <= TrueRealized(b, f) <= I64_MAX)
    || !(I64_MIN <= b.realizedPnl + TrueRealized(b, f) <= I64_MAX)
  }

  /** In u64 cents no wide arithmetic can overflow: the P&L is exact but for its clamp and the average stays in u64. */
  lemma CentsAreExact(b: Book, f: Fill)
    requires InCents(b, f)
    ensures Realized(b, f) == ClampI64(TrueRealized(b, f)) && EntryValue(b, f) <= U128_MAX
    ensures Apply(b, f).averagePrice <= U64_MAX
    ensures Saturates(b, f) ==> Clamps(b, f)
  {
    var o, a := Abs(b.quantity), Abs(f.quantity);
    MulMono(b.averagePrice, U64_MAX, o);
    MulMono(f.price, U64_MAX, a);
    assert U64_MAX * o + U64_MAX * a == U64_MAX * (o + a);
    MulMono(o + a, -2 * I64_MIN, U64_MAX);
    assert (o + a) * U64_MAX == U64_MAX * (o + a);
    if o + a > 0 { FloorBetween(EntryValue(b, f), o + a, 0, U64_MAX); }
  }

  predicate NeverClamps(b: Book, fills: seq<Fill>)
    decreases |fills|
  {
    fills == [] || (!Clamps(b, fills[0]) && NeverClamps(Apply(b, fills[0]), fills[1..]))
  }

  lemma {:induction false} CentsRun(b: Book, fills: seq<Fill>)
    requires b.averagePrice <= U64_MAX && forall f :: f in fills ==> f.price <= U64_MAX
    ensures Run(b, fills).averagePrice <= U64_MAX
    ensures NeverClamps(b, fills) ==> NeverSaturates(b, fills)
    decreases |fills|
  {
    if fills != [] {
      hide Apply, Saturates, Clamps;
      assert fills[0] in fills;
      CentsAreExact(b, fills[0]);
      CentsRun(Apply(b, fills[0]), fills[1..]);
    }
  }
}
