/** The stop of a signal in an IG quote: which distance the size is worked out for, and what the quoted size
    loses when the price reaches the stop. */
module StopSizing {
  import opened Basics
  import opened Rounding
  import opened IgSizing

  /** How far the signal's stop is from the entry, or the fallback distance, if it has no stop. */
  function AskedDistance(entryPrice: real, stopLoss: Option<real>, fallback: Option<real>): (distance: real) {
    match stopLoss
    case Some(stop) => if stop <= entryPrice then entryPrice - stop else stop - entryPrice
    case None => match fallback case Some(x) => x case None => 0.0
  }

  /** The broker's minimum distance, or none. */
  function LeastDistance(minStop: Option<real>): real { match minStop case Some(m) => m case None => 0.0 }

  /** The size is worked out for the greatest of the distance asked for, the broker's minimum and 1e-9. */
  lemma StopDistanceIs(entryPrice: real, stopLoss: Option<real>, fallback: Option<real>, minStop: Option<real>)
    ensures
      var distance := EffectiveStopDistance(entryPrice, stopLoss, fallback, minStop);
      var asked, least := AskedDistance(entryPrice, stopLoss, fallback), LeastDistance(minStop);
      && distance >= asked && distance >= least && distance >= TINY
      && (distance == asked || distance == least || distance == TINY)
  {
  }

  /** What one unit of size loses over a distance, in account money. */
  function LossPerUnit(distance: real, priceIncrement: real, valuePerIncrement: real): real
    requires priceIncrement > 0.0
  {
    distance * valuePerIncrement / priceIncrement
  }

  /** The size the adapter asks for. */
  function QuoteSize(riskAmount: real, entryPrice: real, stopLoss: Option<real>, fallback: Option<real>,
                     minStop: Option<real>, priceIncrement: real, valuePerIncrement: real): real {
    var distance := EffectiveStopDistance(entryPrice, stopLoss, fallback, minStop);
    QuotedSize(riskAmount, RiskPerUnit(distance, priceIncrement, valuePerIncrement))
  }

  lemma LossIsRisk(distance: real, increment: real, value: real)
    requires increment > 0.0
    ensures LossPerUnit(distance, increment, value) == distance / increment * value
  {
    var x := Divide(distance, increment);
    Quotient(x * value, increment, distance * value) by { assert x * value * increment == distance * value; }
  }

  lemma RiskPerUnitStrict(small: real, large: real, increment: real, value: real)
    requires increment >= TINY && value > 0.0
    ensures small < large ==> RiskPerUnit(small, increment, value) < RiskPerUnit(large, increment, value)
    ensures small <= large ==> RiskPerUnit(small, increment, value) <= RiskPerUnit(large, increment, value)
  {
    var x := Divide(small, increment);
    var y := Divide(large, increment);
    Scale(x, y, increment);
    Scale(x, y, value);
    Scale(y, x, increment);
    Scale(y, x, value);
  }

  /** At the stop the quoted size loses at most the risk amount. It loses exactly that if and only if the
      distance asked for reaches the broker's minimum and 1e-9, and a unit loses at least 1e-9 over it. */
  lemma LossAtStop(riskAmount: real, entryPrice: real, stopLoss: Option<real>, fallback: Option<real>,
                   minStop: Option<real>, priceIncrement: real, valuePerIncrement: real)
    requires riskAmount > 0.0 && priceIncrement >= TINY && valuePerIncrement > 0.0
    ensures
      var asked := AskedDistance(entryPrice, stopLoss, fallback);
      var size := QuoteSize(riskAmount, entryPrice, stopLoss, fallback, minStop, priceIncrement, valuePerIncrement);
      var loss := LossPerUnit(asked, priceIncrement, valuePerIncrement);
      && size > 0.0 && size * loss <= riskAmount
      && (size * loss == riskAmount <==>
          asked >= LeastDistance(minStop) && asked >= TINY && loss >= TINY)
  {
    var asked := AskedDistance(entryPrice, stopLoss, fallback);
    var distance := EffectiveStopDistance(entryPrice, stopLoss, fallback, minStop);
    StopDistanceIs(entryPrice, stopLoss, fallback, minStop);
    LossIsRisk(asked, priceIncrement, valuePerIncrement);
    var loss, unit := LossPerUnit(asked, priceIncrement, valuePerIncrement),
                      RiskPerUnit(distance, priceIncrement, valuePerIncrement);
    assert loss == RiskPerUnit(asked, priceIncrement, valuePerIncrement);
    RiskPerUnitStrict(asked, distance, priceIncrement, valuePerIncrement);
    QuotedSizeSpendsRisk(riskAmount, unit);
    var size := QuotedSize(riskAmount, unit);
    hide QuotedSize, RiskPerUnit, LossPerUnit, EffectiveStopDistance, AskedDistance, LeastDistance;
    SizeTimesLoss(size, loss, Max(unit, TINY), riskAmount);
  }

  lemma SizeTimesLoss(size: real, loss: real, divisor: real, riskAmount: real)
    requires size * divisor == riskAmount > 0.0 && divisor > 0.0 && loss <= divisor
    ensures size > 0.0 && size * loss <= riskAmount && (size * loss == riskAmount <==> loss == divisor)
  {
    Scale(size, 0.0, divisor);
    Scale(loss, divisor, size);
  }

  /** The distance asked for loses at most 1e-9 a unit, or is no larger part of the distance sized for than the
      increment is of the one the quote divides by, which is 1e-9 at least. */
  predicate RiskKept(asked: real, distance: real, priceIncrement: real, valuePerIncrement: real) {
    || asked * valuePerIncrement <= priceIncrement * TINY
    || asked * Max(priceIncrement, TINY) <= priceIncrement * distance
  }

  /** For any positive increment and value, the quoted size loses at most the risk amount at the stop if and only
      if that holds. */
  lemma RiskKeptIff(riskAmount: real, entryPrice: real, stopLoss: Option<real>, fallback: Option<real>,
                    minStop: Option<real>, priceIncrement: real, valuePerIncrement: real)
    requires riskAmount > 0.0 && priceIncrement > 0.0 && valuePerIncrement > 0.0
    ensures
      var asked := AskedDistance(entryPrice, stopLoss, fallback);
      var distance := Max(Max(asked, LeastDistance(minStop)), TINY);
      var size := QuoteSize(riskAmount, entryPrice, stopLoss, fallback, minStop, priceIncrement, valuePerIncrement);
      size * LossPerUnit(asked, priceIncrement, valuePerIncrement) <= riskAmount
      <==> RiskKept(asked, distance, priceIncrement, valuePerIncrement)
  {
    hide *;
    var asked := AskedDistance(entryPrice, stopLoss, fallback);
    var distance := Max(Max(asked, LeastDistance(minStop)), TINY);
    var unit := RiskPerUnit(distance, priceIncrement, valuePerIncrement);
    QuoteSizeIs(riskAmount, entryPrice, stopLoss, fallback, minStop, priceIncrement, valuePerIncrement);
    QuotedSizeSpendsRisk(riskAmount, unit);
    UnitRisk(distance, priceIncrement, valuePerIncrement);
    UnitLoss(asked, priceIncrement, valuePerIncrement);
    RiskKeptFor(QuotedSize(riskAmount, unit), LossPerUnit(asked, priceIncrement, valuePerIncrement), unit, riskAmount,
                asked, distance, priceIncrement, valuePerIncrement);
  }

  lemma QuoteSizeIs(riskAmount: real, entryPrice: real, stopLoss: Option<real>, fallback: Option<real>,
                    minStop: Option<real>, priceIncrement: real, valuePerIncrement: real)
    ensures
      var distance := Max(Max(AskedDistance(entryPrice, stopLoss, fallback), LeastDistance(minStop)), TINY);
      QuoteSize(riskAmount, entryPrice, stopLoss, fallback, minStop, priceIncrement, valuePerIncrement)
        == QuotedSize(riskAmount, RiskPerUnit(distance, priceIncrement, valuePerIncrement))
  {
    StopDistanceIs(entryPrice, stopLoss, fallback, minStop);
    hide EffectiveStopDistance, AskedDistance, LeastDistance, QuotedSize, RiskPerUnit;
  }

  lemma RiskKeptFor(size: real, loss: real, unit: real, riskAmount: real, asked: real, distance: real,
                    increment: real, value: real)
    requires riskAmount > 0.0 && increment > 0.0 && value > 0.0 && size * Max(unit, TINY) == riskAmount
    requires loss * increment == asked * value && unit * Max(increment, TINY) == distance * value
    ensures size * loss <= riskAmount <==> RiskKept(asked, distance, increment, value)
  {
    LossUnderDivisor(size, loss, Max(unit, TINY), riskAmount);
    Scale(loss, TINY, increment);
    CrossProducts(loss, increment, asked, unit, Max(increment, TINY), distance, value);
  }

  lemma UnitLoss(distance: real, increment: real, value: real)
    requires increment > 0.0
    ensures LossPerUnit(distance, increment, value) * increment == distance * value
  {
  }

  lemma UnitRisk(distance: real, increment: real, value: real)
    ensures RiskPerUnit(distance, increment, value) * Max(increment, TINY) == distance * value
  {
    var x := Divide(distance, Max(increment, TINY));
    assert x * value * Max(increment, TINY) == distance * value;
  }

  lemma LossUnderDivisor(size: real, loss: real, divisor: real, riskAmount: real)
    requires size * divisor == riskAmount > 0.0 && divisor > 0.0
    ensures size * loss <= riskAmount <==> loss <= divisor
  {
    Scale(size, 0.0, divisor);
    Scale(loss, divisor, size);
  }

  lemma CrossProducts(loss: real, increment: real, asked: real, unit: real, divisor: real, distance: real, value: real)
    requires increment > 0.0 && divisor > 0.0 && value > 0.0
    requires loss * increment == asked * value && unit * divisor == distance * value
    ensures loss <= unit <==> asked * divisor <= increment * distance
  {
    var a, b := asked * divisor, increment * distance;
    Scale(loss, unit, increment * divisor);
    calc {
      loss * (increment * divisor);
      (loss * increment) * divisor;
      (asked * value) * divisor;
      a * value;
    }
    calc {
      unit * (increment * divisor);
      (unit * divisor) * increment;
      (distance * value) * increment;
      b * value;
    }
    Scale(a, b, value);
  }

  /** With an increment below 1e-9, which the quote replaces by 1e-9, the size is too large by that ratio
      wherever none of the floors would matter. */
  lemma SmallIncrementOverspends(riskAmount: real, entryPrice: real, stopLoss: Option<real>, fallback: Option<real>,
                                 minStop: Option<real>, priceIncrement: real, valuePerIncrement: real)
    requires riskAmount > 0.0 && 0.0 < priceIncrement < TINY && valuePerIncrement > 0.0
    requires
      var asked := AskedDistance(entryPrice, stopLoss, fallback);
      && asked >= LeastDistance(minStop) && asked >= TINY
      && LossPerUnit(asked, TINY, valuePerIncrement) >= TINY
    ensures
      var asked := AskedDistance(entryPrice, stopLoss, fallback);
      var size := QuoteSize(riskAmount, entryPrice, stopLoss, fallback, minStop, priceIncrement, valuePerIncrement);
      size * LossPerUnit(asked, priceIncrement, valuePerIncrement) * priceIncrement == riskAmount * TINY
  {
    var asked := AskedDistance(entryPrice, stopLoss, fallback);
    StopDistanceIs(entryPrice, stopLoss, fallback, minStop);
    LossIsRisk(asked, TINY, valuePerIncrement);
    var unit := RiskPerUnit(asked, priceIncrement, valuePerIncrement);
    assert unit == LossPerUnit(asked, TINY, valuePerIncrement);
    QuotedSizeSpendsRisk(riskAmount, unit);
    var size := QuotedSize(riskAmount, unit);
    assert size * unit == riskAmount;
    var product := asked * valuePerIncrement;
    var fine := Divide(product, TINY);
    var coarse := Divide(product, priceIncrement);
    TwoIncrements(size, product, fine, coarse, priceIncrement);
  }

  lemma TwoIncrements(size: real, product: real, fine: real, coarse: real, increment: real)
    requires fine * TINY == product && coarse * increment == product
    ensures size * coarse * increment == size * fine * TINY
  {
    calc {
      size * coarse * increment;
      size * (coarse * increment);
      size * product;
      size * (fine * TINY);
    }
  }
}
