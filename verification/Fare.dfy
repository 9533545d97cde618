/**
 Fares, refunds and money rounding (internal/ride/fare.go, internal/ride/refund.go).
 Floating point is modelled by `real`; the haversine distance is an arbitrary real argument.
 */
module Fare {
  import opened Prelude

  datatype FareError = InvalidDistance | InvalidDuration | InvalidRideType

  datatype Rates = Rates(base: real, perKm: real, perMinute: real)

  datatype FareEstimate = FareEstimate(distanceKm: real, durationMinutes: int, fare: real)

  const MINIMUM_RIDE_DURATION := 1

  const NANOSECONDS_PER_MINUTE := 60_000_000_000

  /** The constant rate table, keyed by ride type. */
  function RatesFor(rideType: string): Option<Rates> {
    if rideType == "ECONOMY" then Some(Rates(500.0, 100.0, 50.0))
    else if rideType == "PREMIUM" then Some(Rates(800.0, 120.0, 60.0))
    else if rideType == "XL" then Some(Rates(1000.0, 150.0, 75.0))
    else None
  }

  /** `math.Round`: nearest integer, halves away from zero. */
  function RoundHalfAway(x: real): real {
    if x >= 0.0 then (x + 0.5).Floor as real else -((0.5 - x).Floor as real)
  }

  /** `round(value, 100)`: money and displayed distances keep two decimals. */
  function Round2(value: real): real {
    RoundHalfAway(value * 100.0) / 100.0
  }

  function Ceil(x: real): int {
    -((-x).Floor)
  }

  function EstimateDurationMinutes(distanceKm: real): int {
    if distanceKm <= 0.0 then MINIMUM_RIDE_DURATION
    else
      var minutes := Ceil(distanceKm / 30.0 * 60.0);
      if minutes < MINIMUM_RIDE_DURATION then MINIMUM_RIDE_DURATION else minutes
  }

  function CalculateFare(rideType: string, distanceKm: real, durationMinutes: int): Result<real, FareError> {
    if distanceKm < 0.0 then Err(InvalidDistance)
    else if durationMinutes < 0 then Err(InvalidDuration)
    else
      match RatesFor(rideType)
      case None => Err(InvalidRideType)
      case Some(rates) =>
        Ok(Round2(rates.base + distanceKm * rates.perKm + durationMinutes as real * rates.perMinute))
  }

  function CalculateFareEstimate(rideType: string, distanceKm: real): Result<FareEstimate, FareError> {
    var minutes := EstimateDurationMinutes(distanceKm);
    match CalculateFare(rideType, distanceKm, minutes)
    case Err(e) => Err(e)
    case Ok(fare) => Ok(FareEstimate(Round2(distanceKm), minutes, fare))
  }

  /** The cheapest fare a completed ride of this type can have. */
  function MinimumFare(rates: Rates): real {
    rates.base + rates.perMinute
  }

  /** The un-rounded price of a ride driven at exactly 30 km/h. */
  function IdealFare(rates: Rates, distanceKm: real): real {
    rates.base + distanceKm * (rates.perKm + 2.0 * rates.perMinute)
  }

  // ----- rounding

  lemma RoundNear(value: real)
    ensures value - 0.005 <= Round2(value) <= value + 0.005
  {
  }

  lemma RoundMonotone(x: real, y: real)
    requires x <= y
    ensures Round2(x) <= Round2(y)
  {
    var a, b := x * 100.0, y * 100.0;
    assert a <= b;
    assert (a + 0.5).Floor <= (b + 0.5).Floor;
    assert (0.5 - b).Floor <= (0.5 - a).Floor;
    if a < 0.0 <= b {
      assert (0.5 - a).Floor >= 0 && (b + 0.5).Floor >= 0;
    }
  }

  /** A whole number of hundredths is left alone. */
  lemma RoundExact(cents: int)
    ensures Round2(cents as real / 100.0) == cents as real / 100.0
  {
    var x := cents as real / 100.0 * 100.0;
    assert x == cents as real;
    assert (cents as real + 0.5).Floor == cents;
    assert (0.5 - cents as real).Floor == -cents;
  }

  /** Ties go away from zero, and every result is a whole number of hundredths. */
  lemma RoundTies(n: nat)
    ensures Round2((n as real + 0.5) / 100.0) == (n as real + 1.0) / 100.0
    ensures Round2(-(n as real + 0.5) / 100.0) == -(n as real + 1.0) / 100.0
  {
    assert (n as real + 0.5) / 100.0 * 100.0 == n as real + 0.5;
    assert -(n as real + 0.5) / 100.0 * 100.0 == -(n as real + 0.5);
    assert (n as real + 1.0).Floor == n + 1;
  }

  lemma RoundIsWhole(x: real)
    ensures RoundHalfAway(x).Floor as real == RoundHalfAway(x)
  {
    if x >= 0.0 {
      WholeIsItsFloor((x + 0.5).Floor);
    } else {
      WholeIsItsFloor(-(0.5 - x).Floor);
    }
  }

  lemma WholeIsItsFloor(n: int)
    ensures (n as real).Floor == n
  {
  }

  lemma RoundedIsHundredths(value: real)
    ensures Round2(value) * 100.0 == (Round2(value) * 100.0).Floor as real
  {
    hide RoundHalfAway;
    RoundIsWhole(value * 100.0);
    assert Round2(value) * 100.0 == RoundHalfAway(value * 100.0);
  }

  // ----- prices in numbers

  /** The rate table, the error cases in their order, and the price to within half a hundredth, for all arguments. */
  lemma FareInNumbers(rideType: string, distanceKm: real, minutes: int)
    ensures var fare := CalculateFare(rideType, distanceKm, minutes);
            if distanceKm < 0.0 then fare == Err(InvalidDistance)
            else if minutes < 0 then fare == Err(InvalidDuration)
            else if rideType == "ECONOMY" then PricedAt(fare, 500.0 + 100.0 * distanceKm + 50.0 * minutes as real)
            else if rideType == "PREMIUM" then PricedAt(fare, 800.0 + 120.0 * distanceKm + 60.0 * minutes as real)
            else if rideType == "XL" then PricedAt(fare, 1000.0 + 150.0 * distanceKm + 75.0 * minutes as real)
            else fare == Err(InvalidRideType)
  {
    hide Round2;
    var m := minutes as real;
    RoundNear(500.0 + distanceKm * 100.0 + m * 50.0);
    RoundNear(800.0 + distanceKm * 120.0 + m * 60.0);
    RoundNear(1000.0 + distanceKm * 150.0 + m * 75.0);
    RoundedIsHundredths(500.0 + distanceKm * 100.0 + m * 50.0);
    RoundedIsHundredths(800.0 + distanceKm * 120.0 + m * 60.0);
    RoundedIsHundredths(1000.0 + distanceKm * 150.0 + m * 75.0);
  }

  /** A whole number of hundredths within half a hundredth of the price. */
  predicate PricedAt(fare: Result<real, FareError>, price: real) {
    && fare.Ok? && price - 0.005 <= fare.value <= price + 0.005
    && fare.value * 100.0 == (fare.value * 100.0).Floor as real
  }

  /**
   A quote shows the distance to two decimals and the least whole number of minutes, at least one, at two minutes per
   km.
   */
  lemma QuoteInNumbers(rideType: string, distanceKm: real)
    requires distanceKm >= 0.0
    ensures var quote := CalculateFareEstimate(rideType, distanceKm);
            && (quote.Ok? <==> rideType == "ECONOMY" || rideType == "PREMIUM" || rideType == "XL")
            && (quote.Ok? ==>
                  var m := quote.value.durationMinutes;
                  && m >= 1 && m as real >= 2.0 * distanceKm && (m > 1 ==> (m - 1) as real < 2.0 * distanceKm)
                  && distanceKm - 0.005 <= quote.value.distanceKm <= distanceKm + 0.005
                  && CalculateFare(rideType, distanceKm, m) == Ok(quote.value.fare))
  {
    hide Round2;
    RoundNear(distanceKm);
    assert distanceKm / 30.0 * 60.0 == 2.0 * distanceKm;
  }

  // ----- quotes

  /**
   The ceiling never under-counts driving time and adds less than a minute, except that no quote is below one minute.
   */
  lemma DurationTracksDistance(distanceKm: real)
    requires distanceKm >= 0.0
    ensures MINIMUM_RIDE_DURATION <= EstimateDurationMinutes(distanceKm)
    ensures 2.0 * distanceKm <= EstimateDurationMinutes(distanceKm) as real <= 2.0 * distanceKm + 1.0
  {
    assert distanceKm / 30.0 * 60.0 == 2.0 * distanceKm;
  }

  /** Every quote lies between the ideal price and one extra minute, up to half a hundredth of rounding. */
  lemma QuoteTracksIdeal(rideType: string, distanceKm: real)
    requires distanceKm >= 0.0
    ensures CalculateFareEstimate(rideType, distanceKm).Ok? <==> RatesFor(rideType).Some?
    ensures RatesFor(rideType).Some? ==>
              var rates := RatesFor(rideType).value;
              var quote := CalculateFareEstimate(rideType, distanceKm).value.fare;
              IdealFare(rates, distanceKm) - 0.005 <= quote <= IdealFare(rates, distanceKm) + rates.perMinute + 0.005
  {
    DurationTracksDistance(distanceKm);
    var minutes := EstimateDurationMinutes(distanceKm) as real;
    if rideType == "ECONOMY" {
      RoundNear(500.0 + distanceKm * 100.0 + minutes * 50.0);
    } else if rideType == "PREMIUM" {
      RoundNear(800.0 + distanceKm * 120.0 + minutes * 60.0);
    } else if rideType == "XL" {
      RoundNear(1000.0 + distanceKm * 150.0 + minutes * 75.0);
    }
  }

  lemma DurationMonotone(d1: real, d2: real)
    requires d1 <= d2
    ensures EstimateDurationMinutes(d1) <= EstimateDurationMinutes(d2)
  {
    assert d1 / 30.0 * 60.0 <= d2 / 30.0 * 60.0;
  }

  /** A longer ride is never quoted cheaper. */
  lemma QuoteMonotone(rideType: string, d1: real, d2: real)
    requires 0.0 <= d1 <= d2
    requires RatesFor(rideType).Some?
    ensures CalculateFareEstimate(rideType, d1).value.fare <= CalculateFareEstimate(rideType, d2).value.fare
  {
    DurationMonotone(d1, d2);
    DurationTracksDistance(d1);
    DurationTracksDistance(d2);
    var m1, m2 := EstimateDurationMinutes(d1) as real, EstimateDurationMinutes(d2) as real;
    if rideType == "ECONOMY" {
      RoundMonotone(500.0 + d1 * 100.0 + m1 * 50.0, 500.0 + d2 * 100.0 + m2 * 50.0);
    } else if rideType == "PREMIUM" {
      RoundMonotone(800.0 + d1 * 120.0 + m1 * 60.0, 800.0 + d2 * 120.0 + m2 * 60.0);
    } else {
      RoundMonotone(1000.0 + d1 * 150.0 + m1 * 75.0, 1000.0 + d2 * 150.0 + m2 * 75.0);
    }
  }

  /** At every distance ECONOMY costs at most PREMIUM, and PREMIUM at most XL. */
  lemma QuoteOrderedByType(distanceKm: real)
    requires distanceKm >= 0.0
    ensures CalculateFareEstimate("ECONOMY", distanceKm).value.fare
         <= CalculateFareEstimate("PREMIUM", distanceKm).value.fare
         <= CalculateFareEstimate("XL", distanceKm).value.fare
  {
    DurationTracksDistance(distanceKm);
    var m := EstimateDurationMinutes(distanceKm) as real;
    assert "PREMIUM" != "ECONOMY" && "XL" != "ECONOMY" && "XL" != "PREMIUM" by {
      assert "PREMIUM"[0] != "ECONOMY"[0];
      assert |"XL"| == 2 && |"ECONOMY"| == 7 && |"PREMIUM"| == 7;
    }
    RoundMonotone(500.0 + distanceKm * 100.0 + m * 50.0, 800.0 + distanceKm * 120.0 + m * 60.0);
    RoundMonotone(800.0 + distanceKm * 120.0 + m * 60.0, 1000.0 + distanceKm * 150.0 + m * 75.0);
  }

  /** A valid ride of at least one minute is priced at no less than the base fare plus one minute. */
  lemma FareAtLeastMinimum(rideType: string, distanceKm: real, minutes: int)
    requires distanceKm >= 0.0 && minutes >= MINIMUM_RIDE_DURATION && RatesFor(rideType).Some?
    ensures CalculateFare(rideType, distanceKm, minutes).Ok?
    ensures CalculateFare(rideType, distanceKm, minutes).value >= MinimumFare(RatesFor(rideType).value) > 0.0
    ensures MinimumFare(RatesFor(rideType).value)
         == if rideType == "ECONOMY" then 550.0 else if rideType == "PREMIUM" then 860.0 else 1075.0
  {
    var m := minutes as real;
    if rideType == "ECONOMY" {
      RoundMonotone(550.0, 500.0 + distanceKm * 100.0 + m * 50.0);
      RoundExact(55000);
    } else if rideType == "PREMIUM" {
      RoundMonotone(860.0, 800.0 + distanceKm * 120.0 + m * 60.0);
      RoundExact(86000);
    } else {
      RoundMonotone(1075.0, 1000.0 + distanceKm * 150.0 + m * 75.0);
      RoundExact(107500);
    }
  }
}
