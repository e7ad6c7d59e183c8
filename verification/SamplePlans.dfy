/** Plans as the IG adapter quotes them, for any order size and risk percent, on settings that leave
    them room: the inputs on which the conditions elsewhere are shown to be exact. */
module SamplePlans {
  import opened Rounding
  import opened IgSizing
  import opened Allocator
  import opened BudgetBounds
  import opened SizingCoherence
  import opened AllocationCycle

  /** All risk limits alike, one position, a gross limit of the whole equity. */
  function Uniform(limit: real, notional: real, tolerance: real): Settings {
    Settings(1, 1, 1, limit, limit, limit, limit, limit, limit, notional, 100.0, tolerance, 1.0, 1.0)
  }

  /** A plan at price one for a size that is quoted for the percent asked for. */
  function SampleOn(instrument: string, d: Details, risk: real, size: real): Plan
    requires risk > 0.0
  {
    var share := 100.0 / risk;
    Plan(0, "s", "f", instrument, Buy, risk, size, size * UnitRisk(risk), size * (1.0 + share), 1.0, 0.0, d, [])
  }

  function Sample(d: Details, risk: real, size: real): Plan
    requires risk > 0.0
  {
    SampleOn("i", d, risk, size)
  }

  function UnitRisk(risk: real): real { 1.0 + risk / 100.0 }

  lemma SampleIsQuoted(instrument: string, d: Details, risk: real, size: real)
    requires risk > 0.0 && size > 0.0
    ensures
      var p := SampleOn(instrument, d, risk, size);
      WellFormed(p) && QuotedByIg(p, UnitRisk(risk)) && p.equity >= size && p.details == d
  {
    var share := Divide(100.0, risk);
    Scale(0.0, share, risk);
    var percent := risk / 100.0;
    assert share * percent == 1.0;
    var grown := 1.0 + share;
    assert grown * percent == UnitRisk(risk);
    Scale(1.0, grown, size);
    assert size * grown * percent == size * UnitRisk(risk);
    Ratio(UnitRisk(risk), size);
    Scale(0.0, UnitRisk(risk), size);
  }

  /** With the whole request in reach of every budget, the plan is fitted to the broker as it is. */
  lemma SampleOffered(s: Settings, instrument: string, d: Details, risk: real, size: real, open: Ledger)
    requires risk > 0.0 && size > 0.0 && s.maxPositionNotional >= size
    requires Available(s, SampleOn(instrument, d, risk, size), open, EMPTY) >= risk
    requires GrossRoom(s, SampleOn(instrument, d, risk, size).equity, open, EMPTY) >= size
    ensures
      var p := SampleOn(instrument, d, risk, size);
      CappedFor(s, p, open, EMPTY) == Fits(Quantity(size, risk, p.riskAmount))
      && Offer(s, p, open, EMPTY)
         == FitToBroker(s, d, Quantity(size, risk, p.riskAmount), Available(s, p, open, EMPTY))
  {
    var p := SampleOn(instrument, d, risk, size);
    hide Available, GrossRoom, FitToBroker;
    SampleCapped(s, p, risk, size, GrossRoom(s, p.equity, open, EMPTY));
  }

  lemma SampleCapped(s: Settings, p: Plan, risk: real, size: real, room: real)
    requires risk > 0.0 && size > 0.0 && s.maxPositionNotional >= size && room >= size
    requires p.requestedRisk == risk && p.requestedSize == size && p.entryPrice == 1.0
    ensures CappedOffer(s, p, risk, room) == Fits(Quantity(size, risk, p.riskAmount))
  {
    Ratio(risk, 1.0);
    Ratio(size, 1.0);
    assert ScaledSize(p, risk) == size;
    assert Notional(size, 1.0) == size;
  }

  lemma UniformRoom(limit: real, notional: real, tolerance: real, d: Details, risk: real, size: real)
    requires risk > 0.0 && limit > 0.0
    ensures Available(Uniform(limit, notional, tolerance), Sample(d, risk, size), EMPTY, EMPTY) == limit
  {
    var s, p := Uniform(limit, notional, tolerance), Sample(d, risk, size);
    assert Accounts(p) == [Portfolio, Cycle, Strategy("s"), Family("f"), Instrument("i")];
  }

  /** The decision on the plan when every limit is at least its percent. */
  lemma SampleDecided(limit: real, notional: real, tolerance: real, d: Details, risk: real, size: real, id: string)
    requires 0.0 < risk <= limit && 0.0 < size <= notional && tolerance > 0.0
    ensures
      var s, p := Uniform(limit, notional, tolerance), Sample(d, risk, size);
      var fit := FitToBroker(s, d, Quantity(size, risk, p.riskAmount), limit);
      var decision := AllocateCandidate(s, id, p, EMPTY, EMPTY);
      && s.Valid()
      && (decision.selected <==> fit.Fits?)
      && (fit.Fits? ==> decision.size == Round8(fit.quantity.size) && decision.risk == Round6(fit.quantity.risk))
  {
    var s := Uniform(limit, notional, tolerance);
    UniformRoom(limit, notional, tolerance, d, risk, size);
    SampleIsQuoted("i", d, risk, size);
    hide FitToBroker, Available, SampleOn, Round6, Round8;
    SampleOffered(s, "i", d, risk, size, EMPTY);
    hide Offer, Binding;
  }
}
