/** The rent escalation engine and the lease-expiry rules of the dashboard's
    helper module: the projection used by the lease terms chart, the
    escalated rent of one year, days to expiry and the risk band. */
module LeaseHelpers {
  import opened Outcomes
  import opened RealMath
  import opened JsNumber
  import opened LeaseTypes

  /** The projection compounds at this fixed factor, whatever the lease's
      escalation label says. */
  const Escalation: real := 1.03
  const MarketWarehouseBase: real := 40.0
  const MarketParkingBase: real := 20.0
  const DefaultYears: int := 13

  /** The largest length an array can have: `Array.from` throws a RangeError
      for anything longer. */
  const MaxArrayLength: int := 0xFFFF_FFFF

  /** The length `Array.from({ length: years })` asks for (a negative length
      becomes 0). */
  function ArrayLength(years: int): nat
  {
    if years < 0 then 0 else years
  }

  /** A base rent per square foot compounded at the fixed factor for i years. */
  function Escalated(base: real, i: nat): real
  {
    base * Pow(Escalation, i)
  }

  /** Point i of the projection from the two components' rents per square foot. */
  function ProjectedPoint(warehousePSF: real, parkingPSF: real, i: nat): RentPoint
  {
    RentPoint(
      i + 1,
      RoundCents(Escalated(warehousePSF, i)),
      RoundCents(Escalated(parkingPSF, i)),
      Escalated(MarketWarehouseBase, i),
      Escalated(MarketParkingBase, i))
  }

  /** `generateProjectedRentData(leaseData, years)`. A length beyond the
      array limit is refused before any point is mapped; the mapping callback
      reads components 0 and 1, so it throws as soon as it runs (years > 0)
      on a lease with fewer than two components. */
  function GenerateProjectedRentData(lease: LeaseData, years: int): (r: Result<seq<RentPoint>>)
    ensures r.Threw? <==> years > MaxArrayLength || (years > 0 && |lease.property.components| < 2)
    ensures years > MaxArrayLength ==> r == Threw(InvalidArrayLength)
    ensures r.Threw? && years <= MaxArrayLength ==> r.error == ComponentMissing(|lease.property.components|)
    ensures r.Returned? ==> |r.value| == ArrayLength(years)
    ensures r.Returned? ==> forall k :: 0 <= k < |r.value| ==> r.value[k].year == k + 1
  {
    var n := ArrayLength(years);
    var c := lease.property.components;
    if years > MaxArrayLength then Threw(InvalidArrayLength)
    else if n == 0 then Returned([])
    else if |c| < 2 then Threw(ComponentMissing(|c|))
    else Returned(seq(n, i requires 0 <= i < n => ProjectedPoint(c[0].rentPSF, c[1].rentPSF, i)))
  }

  /** Each contract series is the component's base rent compounded at 1.03
      and rounded to cents; the market series is 40 and 20 compounded and
      not rounded. */
  lemma ProjectionValues(lease: LeaseData, years: int, i: nat)
    requires GenerateProjectedRentData(lease, years).Returned?
    requires i < ArrayLength(years)
    ensures var p := GenerateProjectedRentData(lease, years).value[i];
            var c := lease.property.components;
            && p.warehouseRent == RoundCents(Escalated(c[0].rentPSF, i))
            && p.parkingRent == RoundCents(Escalated(c[1].rentPSF, i))
            && p.marketRentWarehouse == Escalated(40.0, i)
            && p.marketRentParking == Escalated(20.0, i)
  {
    var c := lease.property.components;
    assert GenerateProjectedRentData(lease, years).value[i] == ProjectedPoint(c[0].rentPSF, c[1].rentPSF, i);
  }

  /** Every contract rent is a whole number of cents within half a cent of
      the exactly compounded rent. */
  lemma ProjectionRounding(lease: LeaseData, years: int, i: nat)
    requires GenerateProjectedRentData(lease, years).Returned?
    requires i < ArrayLength(years)
    ensures var p := GenerateProjectedRentData(lease, years).value[i];
            var c := lease.property.components;
            && IsCents(p.warehouseRent) && IsCents(p.parkingRent)
            && Escalated(c[0].rentPSF, i) - 0.005 < p.warehouseRent <= Escalated(c[0].rentPSF, i) + 0.005
            && Escalated(c[1].rentPSF, i) - 0.005 < p.parkingRent <= Escalated(c[1].rentPSF, i) + 0.005
  {
  }

  /** In the first year the factor is 1: the contract rents are the rounded
      base rents and the market series starts at 40 and 20. */
  lemma ProjectionFirstYear(lease: LeaseData, years: int)
    requires GenerateProjectedRentData(lease, years).Returned? && years > 0
    ensures var c := lease.property.components;
            GenerateProjectedRentData(lease, years).value[0]
              == RentPoint(1, RoundCents(c[0].rentPSF), RoundCents(c[1].rentPSF), 40.0, 20.0)
  {
  }

  /** The market series does not depend on the lease. */
  lemma ProjectionMarketIndependent(a: LeaseData, b: LeaseData, years: int, i: nat)
    requires GenerateProjectedRentData(a, years).Returned? && GenerateProjectedRentData(b, years).Returned?
    requires i < ArrayLength(years)
    ensures GenerateProjectedRentData(a, years).value[i].marketRentWarehouse
         == GenerateProjectedRentData(b, years).value[i].marketRentWarehouse
    ensures GenerateProjectedRentData(a, years).value[i].marketRentParking
         == GenerateProjectedRentData(b, years).value[i].marketRentParking
  {
  }

  /** The escalation label is never read: replacing it changes nothing. */
  lemma ProjectionIgnoresEscalationLabel(lease: LeaseData, escalations: string, years: int)
    ensures GenerateProjectedRentData(lease.(financials := lease.financials.(annualEscalations := escalations)), years)
         == GenerateProjectedRentData(lease, years)
  {
  }

  /** With non-negative base rents every series is non-decreasing over the years. */
  lemma ProjectionNonDecreasing(lease: LeaseData, years: int, i: nat, j: nat)
    requires GenerateProjectedRentData(lease, years).Returned?
    requires i <= j < ArrayLength(years)
    requires |lease.property.components| >= 2 ==>
               lease.property.components[0].rentPSF >= 0.0 && lease.property.components[1].rentPSF >= 0.0
    ensures var r := GenerateProjectedRentData(lease, years).value;
            && r[i].warehouseRent <= r[j].warehouseRent
            && r[i].parkingRent <= r[j].parkingRent
            && r[i].marketRentWarehouse <= r[j].marketRentWarehouse
            && r[i].marketRentParking <= r[j].marketRentParking
  {
    var c := lease.property.components;
    var r := GenerateProjectedRentData(lease, years).value;
    assert r[i] == ProjectedPoint(c[0].rentPSF, c[1].rentPSF, i);
    assert r[j] == ProjectedPoint(c[0].rentPSF, c[1].rentPSF, j);
    PointNonDecreasing(c[0].rentPSF, c[1].rentPSF, i, j);
  }

  lemma PointNonDecreasing(warehousePSF: real, parkingPSF: real, i: nat, j: nat)
    requires warehousePSF >= 0.0 && parkingPSF >= 0.0 && i <= j
    ensures var a, b := ProjectedPoint(warehousePSF, parkingPSF, i), ProjectedPoint(warehousePSF, parkingPSF, j);
            && a.warehouseRent <= b.warehouseRent
            && a.parkingRent <= b.parkingRent
            && a.marketRentWarehouse <= b.marketRentWarehouse
            && a.marketRentParking <= b.marketRentParking
  {
    ScaledPowMonotone(warehousePSF, Escalation, i, j);
    ScaledPowMonotone(parkingPSF, Escalation, i, j);
    ScaledPowMonotone(MarketWarehouseBase, Escalation, i, j);
    ScaledPowMonotone(MarketParkingBase, Escalation, i, j);
    RoundCentsMonotone(Escalated(warehousePSF, i), Escalated(warehousePSF, j));
    RoundCentsMonotone(Escalated(parkingPSF, i), Escalated(parkingPSF, j));
  }

  /** 1.03 to the twelfth power, exactly. */
  lemma PowEscalationTwelve()
    ensures Pow(Escalation, 12) == 1.425760886846178945447841
  {
    assert Pow(Escalation, 2) == 1.0609;
    assert Pow(Escalation, 4) == 1.0609 * 1.0609 by {
      assert Pow(Escalation, 4) == Escalation * Escalation * Pow(Escalation, 2);
    }
    assert Pow(Escalation, 6) == Escalation * Escalation * Pow(Escalation, 4);
    assert Pow(Escalation, 8) == Escalation * Escalation * Pow(Escalation, 6);
    assert Pow(Escalation, 10) == Escalation * Escalation * Pow(Escalation, 8);
    assert Pow(Escalation, 12) == Escalation * Escalation * Pow(Escalation, 10);
  }

  /** The shipped lease's projection: year 1 is 36.92 and 12.66, year 13 is
      52.64 and 18.05 against an unrounded market of 40 and 20 times 1.03^12. */
  lemma FixtureProjection()
    ensures var r := GenerateProjectedRentData(AmazonLease, DefaultYears);
            && r.Returned? && |r.value| == 13
            && r.value[0] == RentPoint(1, 36.92, 12.66, 40.0, 20.0)
            && r.value[12].warehouseRent == 52.64
            && r.value[12].parkingRent == 18.05
            && r.value[12].marketRentWarehouse == 40.0 * 1.425760886846178945447841
  {
    ProjectionFirstYear(AmazonLease, DefaultYears);
    RoundCentsOfCents(36.92);
    RoundCentsOfCents(12.66);
    PowEscalationTwelve();
    RoundCentsUnique(Escalated(36.92, 12), 52.64);
    RoundCentsUnique(Escalated(12.66, 12), 18.05);
  }

  /** The escalated rents and rent totals of one lease year; NaN wherever
      JavaScript would compute NaN. */
  datatype YearRent = YearRent(warehouseRentPSF: Num, parkingRentPSF: Num, annualRent: Num, monthlyRent: Num)

  /** The escalation rate: the numeric prefix of the label, as a fraction. */
  function EscalationRate(escalations: string): (r: Num)
    ensures r.NaN? <==> ParseFloat(escalations).NaN?
    ensures r.Finite? ==> r.value * 100.0 == ParseFloat(escalations).value
  {
    match ParseFloat(escalations)
    case Finite(v) => Finite(v / 100.0)
    case NaN => NaN
  }

  /** `calculateRentForYear(leaseData, yearIndex)`. */
  function CalculateRentForYear(lease: LeaseData, yearIndex: nat): (r: Result<YearRent>)
    ensures r.Threw? <==> |lease.property.components| < 2
    ensures r.Threw? ==> r.error == ComponentMissing(|lease.property.components|)
  {
    var c := lease.property.components;
    if |c| < 2 then Threw(ComponentMissing(|c|))
    else Returned(EscalatedRent(c[0], c[1], EscalationRate(lease.financials.annualEscalations), yearIndex))
  }

  /** The body of `calculateRentForYear` once both components are present. */
  function EscalatedRent(warehouse: Component, parking: Component, rate: Num, yearIndex: nat): YearRent
  {
    var factor := PowNum(Add(Finite(1.0), rate), yearIndex);
    var warehousePSF := Mul(Finite(warehouse.rentPSF), factor);
    var parkingPSF := Mul(Finite(parking.rentPSF), factor);
    var annual := Add(Mul(warehousePSF, Finite(warehouse.sf)), Mul(parkingPSF, Finite(parking.sf)));
    YearRent(warehousePSF, parkingPSF, annual, DivBy(annual, 12.0))
  }

  /** A base rent per square foot compounded at 1 + rate for n years. */
  function Compound(base: real, rate: real, n: nat): real
  {
    base * Pow(1.0 + rate, n)
  }

  /** With a parsable label of rate r, each component is its base rent
      compounded at 1 + r for yearIndex years; annual rent weighs the two
      by their square footage and monthly rent is a twelfth of it. */
  lemma RentForYearValues(lease: LeaseData, yearIndex: nat)
    requires |lease.property.components| >= 2
    requires EscalationRate(lease.financials.annualEscalations).Finite?
    ensures var rate := EscalationRate(lease.financials.annualEscalations).value;
            var c := lease.property.components;
            var y := CalculateRentForYear(lease, yearIndex).value;
            && y.warehouseRentPSF == Finite(Compound(c[0].rentPSF, rate, yearIndex))
            && y.parkingRentPSF == Finite(Compound(c[1].rentPSF, rate, yearIndex))
            && y.annualRent == Finite(Compound(c[0].rentPSF, rate, yearIndex) * c[0].sf
                                      + Compound(c[1].rentPSF, rate, yearIndex) * c[1].sf)
            && y.monthlyRent.Finite? && y.monthlyRent.value * 12.0 == y.annualRent.value
  {
    var c := lease.property.components;
    var rate := EscalationRate(lease.financials.annualEscalations).value;
    assert CalculateRentForYear(lease, yearIndex).value == EscalatedRent(c[0], c[1], Finite(rate), yearIndex);
    EscalatedRentValues(c[0], c[1], rate, yearIndex);
  }

  lemma EscalatedRentValues(warehouse: Component, parking: Component, rate: real, yearIndex: nat)
    ensures var y := EscalatedRent(warehouse, parking, Finite(rate), yearIndex);
            var w := Compound(warehouse.rentPSF, rate, yearIndex);
            var p := Compound(parking.rentPSF, rate, yearIndex);
            && y.warehouseRentPSF == Finite(w)
            && y.parkingRentPSF == Finite(p)
            && y.annualRent == Finite(w * warehouse.sf + p * parking.sf)
            && y.monthlyRent.Finite? && y.monthlyRent.value * 12.0 == y.annualRent.value
  {
    var f := Pow(1.0 + rate, yearIndex);
    assert PowNum(Add(Finite(1.0), Finite(rate)), yearIndex) == Finite(f);
  }

  /** Year index 0 returns the base rents, even when the label has no
      numeric prefix (`Math.pow(NaN, 0)` is 1). */
  lemma RentForYearZero(lease: LeaseData)
    requires |lease.property.components| >= 2
    ensures var c := lease.property.components;
            var y := CalculateRentForYear(lease, 0).value;
            && y.warehouseRentPSF == Finite(c[0].rentPSF)
            && y.parkingRentPSF == Finite(c[1].rentPSF)
            && y.annualRent == Finite(c[0].rentPSF * c[0].sf + c[1].rentPSF * c[1].sf)
  {
  }

  /** An unparsable label is not trapped: every later year is NaN throughout. */
  lemma RentForYearUnparsable(lease: LeaseData, yearIndex: nat)
    requires |lease.property.components| >= 2
    requires ParseFloat(lease.financials.annualEscalations).NaN? && yearIndex > 0
    ensures CalculateRentForYear(lease, yearIndex).value == YearRent(NaN, NaN, NaN, NaN)
  {
  }

  /** For a label that reads as 3% (such as "3%", which `ThreePercentRate`
      covers) the escalated rents, rounded to cents, are exactly the
      projection's contract rents of the same year. */
  lemma RentForYearMatchesProjection(lease: LeaseData, years: int, i: nat)
    requires |lease.property.components| >= 2
    requires EscalationRate(lease.financials.annualEscalations) == Finite(0.03)
    requires years <= MaxArrayLength && i < ArrayLength(years)
    ensures var y := CalculateRentForYear(lease, i).value;
            var p := GenerateProjectedRentData(lease, years).value[i];
            && y.warehouseRentPSF.Finite? && y.parkingRentPSF.Finite?
            && RoundCents(y.warehouseRentPSF.value) == p.warehouseRent
            && RoundCents(y.parkingRentPSF.value) == p.parkingRent
  {
    var c := lease.property.components;
    RentForYearValues(lease, i);
    ProjectionValues(lease, years, i);
    CompoundAtThreePercent(c[0].rentPSF, i);
    CompoundAtThreePercent(c[1].rentPSF, i);
  }

  lemma ThreePercentRate()
    ensures EscalationRate("3%") == Finite(0.03)
  {
    ParseFloatOfThreePercent();
  }

  lemma CompoundAtThreePercent(base: real, i: nat)
    ensures Compound(base, 0.03, i) == Escalated(base, i)
  {
    assert 1.0 + 0.03 == Escalation;
  }

  const MsPerDay: int := 1000 * 60 * 60 * 24

  /** A point in time as `new Date(s).getTime()` yields it: whole
      milliseconds, or NaN for a string that does not parse as a date. */
  datatype Instant = At(ms: int) | InvalidDate

  function Abs(x: int): nat
  {
    if x < 0 then -x else x
  }

  /** The number of whole or started days between two instants. */
  function DaysBetween(a: int, b: int): (d: nat)
    ensures (d - 1) * MsPerDay < Abs(a - b) <= d * MsPerDay
  {
    (Abs(a - b) + MsPerDay - 1) / MsPerDay
  }

  /** `calculateDaysRemaining(expirationDate)`, with the parsed expiry and
      the current time passed in. */
  function CalculateDaysRemaining(expiry: Instant, today: int): (r: Num)
    ensures r.NaN? <==> expiry.InvalidDate?
    ensures r.Finite? ==> r.value >= 0.0 && r.value == DaysBetween(expiry.ms, today) as real
  {
    match expiry
    case InvalidDate => NaN
    case At(ms) => Finite(DaysBetween(ms, today) as real)
  }

  /** The count is symmetric in its two instants and zero only when they coincide. */
  lemma DaysRemainingSymmetric(a: int, b: int)
    ensures CalculateDaysRemaining(At(a), b) == CalculateDaysRemaining(At(b), a)
    ensures CalculateDaysRemaining(At(a), b) == Finite(0.0) <==> a == b
  {
    assert Abs(a - b) == Abs(b - a);
  }

  datatype RiskLevel = High | Medium | Low

  /** `determineRiskLevel(daysRemaining)`: a NaN count fails both comparisons
      and lands in the low band. */
  function DetermineRiskLevel(days: Num): (r: RiskLevel)
    ensures r == High <==> days.Finite? && days.value <= 365.0
    ensures r == Medium <==> days.Finite? && 365.0 < days.value <= 730.0
    ensures r == Low <==> days.NaN? || days.value > 730.0
  {
    if days.Finite? && days.value <= 365.0 then High
    else if days.Finite? && days.value <= 730.0 then Medium
    else Low
  }

  function Severity(level: RiskLevel): nat
  {
    match level
    case High => 2
    case Medium => 1
    case Low => 0
  }

  /** More days remaining never raises the risk level. */
  lemma RiskNeverRisesWithTime(d1: real, d2: real)
    requires d1 <= d2
    ensures Severity(DetermineRiskLevel(Finite(d2))) <= Severity(DetermineRiskLevel(Finite(d1)))
  {
  }
}
