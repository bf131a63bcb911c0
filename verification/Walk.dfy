/**
 The simulated price walk of one asset: consuming a generated path, regenerating when it is
 exhausted, and backing off after a failed generation (src/simulation.rs).
 Prices along a path are in cents, None where the rounding of the walk value is out of range.
 */
module Walk {
  import opened Machine

  const DORMANT_RETRY_TICKS: nat := 600

  datatype AssetSimulation = AssetSimulation(currentIndex: nat, prices: seq<Option<u64>>, dormantTicksRemaining: nat)

  /** What the path generator answers when it is asked; it is asked off the lock. */
  datatype Generation = Path(prices: seq<Option<u64>>) | Failed | Cancelled

  datatype StepOutcome = Price(cents: Option<u64>) | NeedsRegen | Dormant | NoSim

  /** `advance_step`: one tick under the lock, never generating. */
  function AdvanceStep(s: AssetSimulation): (AssetSimulation, StepOutcome)
  {
    if s.dormantTicksRemaining > 0 then
      var left := s.dormantTicksRemaining - 1;
      (s.(dormantTicksRemaining := left), if left == 0 then NeedsRegen else Dormant)
    else
      var index := s.currentIndex + 1;
      (s.(currentIndex := index), if index >= |s.prices| then NeedsRegen else Price(s.prices[index]))
  }

  /** `regenerate`: store a usable path, or back off, or leave a cancelled attempt schedulable. */
  function Regenerate(s: AssetSimulation, g: Generation): AssetSimulation
  {
    match g
    case Path(prices) =>
      if |prices| < 2 then s.(dormantTicksRemaining := DORMANT_RETRY_TICKS)
      else s.(prices := prices, currentIndex := 1)
    case Failed => s.(dormantTicksRemaining := DORMANT_RETRY_TICKS)
    case Cancelled => s
  }

  predicate Attempts(s: AssetSimulation) { AdvanceStep(s).1 == NeedsRegen }

  predicate Usable(g: Generation) { g.Path? && |g.prices| >= 2 }

  function Tick(s: AssetSimulation, g: Generation): AssetSimulation
  {
    var (next, outcome) := AdvanceStep(s);
    if outcome == NeedsRegen then Regenerate(next, g) else next
  }

  /** The walk value a tick yields, if it yields one. */
  function Yield(s: AssetSimulation, g: Generation): Option<Option<u64>>
  {
    var (_, outcome) := AdvanceStep(s);
    if outcome.Price? then Some(outcome.cents)
    else if outcome == NeedsRegen && Usable(g) then Some(g.prices[1])
    else None
  }

  /** The price served when the walk gives none: the last one stored, else the configured one, else none. */
  predicate KeepsPrice(prices: map<string, u64>, symbol: string, initial: Option<u64>, cents: u64)
  {
    && (symbol in prices ==> prices[symbol] == cents)
    && (symbol !in prices ==> initial == Some(cents) || (initial == None && cents == 0))
  }

  // ---------------------------------------------------------------- the object the service mutates

  class PriceSimulator {
    var simulations: map<string, AssetSimulation>
    var prices: map<string, u64>

    constructor ()
      ensures simulations == map[] && prices == map[]
    {
      simulations, prices := map[], map[];
    }

    function LastPrice(symbol: string, initial: Option<u64>): u64
      reads this
    {
      if symbol in prices then prices[symbol] else if initial.Some? then initial.value else 0
    }

    /**
     One tick for `symbol`. `initial` is the configured price in cents and `g` the generator's
     answer, used only if the walk asks.
     */
    method GetNextPrice(symbol: string, initial: Option<u64>, g: Generation) returns (cents: u64)
      modifies this
      ensures symbol !in old(simulations) ==>
                simulations == old(simulations) && prices == old(prices) && KeepsPrice(old(prices), symbol, initial, cents)
      ensures symbol in old(simulations) ==>
                && simulations == old(simulations)[symbol := Tick(old(simulations)[symbol], g)]
                && var y := Yield(old(simulations)[symbol], g);
                   if y == None then prices == old(prices) && KeepsPrice(old(prices), symbol, initial, cents)
                   else prices == old(prices)[symbol := cents] &&
                        if y.value.Some? then cents == y.value.value else KeepsPrice(old(prices), symbol, None, cents)
    {
      if symbol !in simulations {
        cents := LastPrice(symbol, initial);
      } else {
        var (next, outcome) := AdvanceStep(simulations[symbol]);
        simulations := simulations[symbol := next];
        match outcome
        case Price(walked) => cents := StoreWalkPrice(symbol, walked);
        case NeedsRegen =>
          cents := LastPrice(symbol, initial);
          simulations := simulations[symbol := Regenerate(next, g)];
          if Usable(g) { cents := StoreWalkPrice(symbol, g.prices[1]); }
        case _ => cents := LastPrice(symbol, initial);
      }
    }

    /** Stores a walk price; an unrepresentable one falls back to the last known price. */
    method StoreWalkPrice(symbol: string, walked: Option<u64>) returns (cents: u64)
      modifies this`prices
      ensures cents == if walked.Some? then walked.value else old(LastPrice(symbol, None))
      ensures prices == old(prices)[symbol := cents]
    {
      cents := if walked.Some? then walked.value else LastPrice(symbol, None);
      prices := prices[symbol := cents];
    }
  }

  // ---------------------------------------------------------------- the schedule

  /** A dormant walk is an exhausted one. */
  predicate Coherent(s: AssetSimulation)
  {
    s.dormantTicksRemaining <= DORMANT_RETRY_TICKS &&
    (s.dormantTicksRemaining > 0 ==> s.currentIndex >= |s.prices|)
  }

  /** The states an asset is registered in: a generated path, or dormant after a walker failure. */
  predicate Registered(s: AssetSimulation)
  {
    s.currentIndex == 0 && (s.dormantTicksRemaining == 0 || (s.prices == [] && s.dormantTicksRemaining == DORMANT_RETRY_TICKS))
  }

  function RunTicks(s: AssetSimulation, gs: seq<Generation>): AssetSimulation
    decreases |gs|
  {
    if gs == [] then s else RunTicks(Tick(s, gs[0]), gs[1..])
  }

  lemma {:induction false} DormantMeansExhausted(s: AssetSimulation, gs: seq<Generation>)
    requires Registered(s) || Coherent(s)
    ensures Coherent(RunTicks(s, gs))
    decreases |gs|
  {
    if gs != [] { DormantMeansExhausted(Tick(s, gs[0]), gs[1..]); }
  }

  /** Ticks until the walk next asks the generator, counting the asking tick. */
  function Wait(s: AssetSimulation): nat
  {
    if s.dormantTicksRemaining > 0 then s.dormantTicksRemaining
    else if s.currentIndex + 1 < |s.prices| then |s.prices| - s.currentIndex
    else 1
  }

  /** The next attempt comes after exactly `Wait` ticks whatever the generator would have answered before. */
  lemma {:induction false} AttemptsExactlyAt(s: AssetSimulation, gs: seq<Generation>)
    ensures |gs| < Wait(s) - 1 ==> !Attempts(RunTicks(s, gs))
    ensures |gs| == Wait(s) - 1 ==> Attempts(RunTicks(s, gs))
    decreases |gs|
  {
    if gs != [] && |gs| <= Wait(s) - 1 {
      assert Wait(Tick(s, gs[0])) == Wait(s) - 1;
      AttemptsExactlyAt(Tick(s, gs[0]), gs[1..]);
    }
  }

  /** A failed attempt is retried exactly 600 ticks later, a path of L prices is exhausted exactly L - 1 ticks later. */
  lemma WaitAfterAttempt(s: AssetSimulation, g: Generation)
    requires Attempts(s) && Coherent(s)
    ensures Wait(Tick(s, g)) ==
            if Usable(g) then |g.prices| - 1 else if g == Cancelled then 1 else 600
  {
  }

  /** After a success the walk yields path[1], path[2], ... in order, one per tick, to the end. */
  lemma {:induction false} PathConsumedInOrder(s: AssetSimulation, path: seq<Option<u64>>, gs: seq<Generation>, g: Generation)
    requires Attempts(s) && Coherent(s) && |path| >= 2 && |gs| < |path| - 2
    ensures Yield(s, Path(path)) == Some(path[1])
    ensures Yield(RunTicks(Tick(s, Path(path)), gs), g) == Some(path[|gs| + 2])
  {
    ConsumedFrom(Tick(s, Path(path)), gs);
  }

  lemma {:induction false} ConsumedFrom(s: AssetSimulation, gs: seq<Generation>)
    requires s.dormantTicksRemaining == 0 && s.currentIndex + |gs| < |s.prices|
    ensures RunTicks(s, gs) == s.(currentIndex := s.currentIndex + |gs|)
    decreases |gs|
  {
    if gs != [] { ConsumedFrom(Tick(s, gs[0]), gs[1..]); }
  }

  // ---------------------------------------------------------------- the cost of persistent failure

  function AttemptCount(s: AssetSimulation, gs: seq<Generation>): nat
    decreases |gs|
  {
    if gs == [] then 0 else (if Attempts(s) then 1 else 0) + AttemptCount(Tick(s, gs[0]), gs[1..])
  }

  predicate Failure(g: Generation) { g == Failed || (g.Path? && |g.prices| < 2) }

  /** While every generation fails the number of attempts in N ticks is exactly that of one per 600 ticks. */
  lemma {:induction false} FailureCost(s: AssetSimulation, gs: seq<Generation>)
    requires Coherent(s) && forall g :: g in gs ==> Failure(g)
    ensures AttemptCount(s, gs) == if |gs| < Wait(s) then 0 else 1 + (|gs| - Wait(s)) / 600
    ensures AttemptCount(s, gs) <= 1 + |gs| / 600
    decreases |gs|
  {
    if gs != [] {
      assert Failure(gs[0]);
      FailureCost(Tick(s, gs[0]), gs[1..]);
      if Attempts(s) {
        WaitAfterAttempt(s, gs[0]);
      } else {
        assert Wait(Tick(s, gs[0])) == Wait(s) - 1;
      }
    }
  }
}
