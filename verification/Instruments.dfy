/** Identity of a quotable instrument and its two quote legs (src/market_maker/engine.rs). */
module Instruments {
  import opened Machine

  type OrderId = nat

  datatype Style = Call | Put

  /** Clock-independent expiration key: a day count or an instant, never compared across forms. */
  datatype ExpKey = Days(days: real) | DateTime(instant: int)

  datatype InstrumentKey = InstrumentKey(symbol: string, expiration: ExpKey, strike: u64, style: Style)

  /** Slot 0 is the bid leg, slot 1 the ask leg. */
  datatype Slots = Slots(bid: Option<OrderId>, ask: Option<OrderId>)
  {
    function Leg(isBuy: bool): Option<OrderId> { if isBuy then bid else ask }

    function With(isBuy: bool, id: Option<OrderId>): Slots
    {
      if isBuy then this.(bid := id) else this.(ask := id)
    }

    predicate Empty() { bid.None? && ask.None? }
  }

  const NO_SLOTS := Slots(None, None)

  type Index = map<InstrumentKey, Slots>

  function SlotsOf(index: Index, key: InstrumentKey): Slots { if key in index then index[key] else NO_SLOTS }

  /** `clear_instrument_slot`: clears a leg whatever id it holds, dropping an entry left empty. */
  function ClearSlot(index: Index, key: InstrumentKey, isBuy: bool): Index
  {
    if key !in index then index
    else
      var left := index[key].With(isBuy, None);
      if left.Empty() then index - {key} else index[key := left]
  }
}
