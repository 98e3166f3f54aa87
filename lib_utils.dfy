/** The second rent projection, the one the rent schedule table renders:
    the same compounding as the helper module, with every series passed
    through `toFixed(2)`. */
module LibUtils {
  import opened Outcomes
  import opened RealMath
  import opened LeaseTypes
  import LeaseHelpers

  /** Point i: all four series compounded at the fixed 1.03 and rounded to cents. */
  function ProjectedPoint(warehousePSF: real, parkingPSF: real, i: nat): RentPoint
  {
    RentPoint(
      i + 1,
      FixedCents(LeaseHelpers.Escalated(warehousePSF, i)),
      FixedCents(LeaseHelpers.Escalated(parkingPSF, i)),
      FixedCents(LeaseHelpers.Escalated(LeaseHelpers.MarketWarehouseBase, i)),
      FixedCents(LeaseHelpers.Escalated(LeaseHelpers.MarketParkingBase, i)))
  }

  /** `generateProjectedRentData(leaseData, years)` of this module; like the
      helper version it refuses an over-long array, and throws on fewer than
      two components once it maps a point. */
  function GenerateProjectedRentData(lease: LeaseData, years: int): (r: Result<seq<RentPoint>>)
    ensures r.Threw? <==> years > LeaseHelpers.MaxArrayLength || (years > 0 && |lease.property.components| < 2)
    ensures years > LeaseHelpers.MaxArrayLength ==> r == Threw(InvalidArrayLength)
    ensures r.Threw? && years <= LeaseHelpers.MaxArrayLength ==> r.error == ComponentMissing(|lease.property.components|)
    ensures r.Returned? ==> |r.value| == LeaseHelpers.ArrayLength(years)
    ensures r.Returned? ==> forall k :: 0 <= k < |r.value| ==> r.value[k].year == k + 1
  {
    var n := LeaseHelpers.ArrayLength(years);
    var c := lease.property.components;
    if years > LeaseHelpers.MaxArrayLength then Threw(InvalidArrayLength)
    else if n == 0 then Returned([])
    else if |c| < 2 then Threw(ComponentMissing(|c|))
    else Returned(seq(n, i requires 0 <= i < n => ProjectedPoint(c[0].rentPSF, c[1].rentPSF, i)))
  }

  /** Every series is its base compounded at 1.03 and rounded with
      `toFixed(2)`, whatever the sign of the rents. */
  lemma ProjectionValues(lease: LeaseData, years: int, i: nat)
    requires GenerateProjectedRentData(lease, years).Returned?
    requires i < LeaseHelpers.ArrayLength(years)
    ensures var c := lease.property.components;
            var p := GenerateProjectedRentData(lease, years).value[i];
            && p.year == i + 1
            && p.warehouseRent == FixedCents(LeaseHelpers.Escalated(c[0].rentPSF, i))
            && p.parkingRent == FixedCents(LeaseHelpers.Escalated(c[1].rentPSF, i))
            && p.marketRentWarehouse == FixedCents(LeaseHelpers.Escalated(40.0, i))
            && p.marketRentParking == FixedCents(LeaseHelpers.Escalated(20.0, i))
  {
    var c := lease.property.components;
    assert GenerateProjectedRentData(lease, years).value[i] == ProjectedPoint(c[0].rentPSF, c[1].rentPSF, i);
  }

  /** Every field of every point is a whole number of cents, and the first
      market values are exactly 40.00 and 20.00. */
  lemma ProjectionInCents(lease: LeaseData, years: int, i: nat)
    requires GenerateProjectedRentData(lease, years).Returned?
    requires i < LeaseHelpers.ArrayLength(years)
    ensures var p := GenerateProjectedRentData(lease, years).value[i];
            && IsCents(p.warehouseRent) && IsCents(p.parkingRent)
            && IsCents(p.marketRentWarehouse) && IsCents(p.marketRentParking)
    ensures i == 0 ==> var p := GenerateProjectedRentData(lease, years).value[0];
            p.marketRentWarehouse == 40.0 && p.marketRentParking == 20.0
  {
    var c := lease.property.components;
    assert GenerateProjectedRentData(lease, years).value[i] == ProjectedPoint(c[0].rentPSF, c[1].rentPSF, i);
    if i == 0 {
      RoundCentsOfCents(40.0);
      RoundCentsOfCents(20.0);
    }
  }

  /** With non-negative base rents the contract series equal the helper
      module's, and the market series are the helper's rounded to cents. */
  lemma AgreesWithHelperProjection(lease: LeaseData, years: int, i: nat)
    requires forall k :: 0 <= k < |lease.property.components| ==> lease.property.components[k].rentPSF >= 0.0
    ensures GenerateProjectedRentData(lease, years).Threw?
        <==> LeaseHelpers.GenerateProjectedRentData(lease, years).Threw?
    ensures GenerateProjectedRentData(lease, years).Returned? && i < LeaseHelpers.ArrayLength(years) ==>
            var p := GenerateProjectedRentData(lease, years).value[i];
            var q := LeaseHelpers.GenerateProjectedRentData(lease, years).value[i];
            && p.year == q.year
            && p.warehouseRent == q.warehouseRent
            && p.parkingRent == q.parkingRent
            && p.marketRentWarehouse == FixedCents(q.marketRentWarehouse)
            && p.marketRentParking == FixedCents(q.marketRentParking)
  {
    var c := lease.property.components;
    if GenerateProjectedRentData(lease, years).Returned? && i < LeaseHelpers.ArrayLength(years) {
      assert GenerateProjectedRentData(lease, years).value[i] == ProjectedPoint(c[0].rentPSF, c[1].rentPSF, i);
      assert LeaseHelpers.GenerateProjectedRentData(lease, years).value[i]
          == LeaseHelpers.ProjectedPoint(c[0].rentPSF, c[1].rentPSF, i);
      PowMonotone(LeaseHelpers.Escalation, 0, i);
      ScaledPowMonotone(c[0].rentPSF, LeaseHelpers.Escalation, 0, i);
      ScaledPowMonotone(c[1].rentPSF, LeaseHelpers.Escalation, 0, i);
      FixedCentsAgreesOnNonNegative(LeaseHelpers.Escalated(c[0].rentPSF, i));
      FixedCentsAgreesOnNonNegative(LeaseHelpers.Escalated(c[1].rentPSF, i));
    }
  }

  /** On a negative rent the two modules round a tie differently. */
  lemma NegativeRentTieDisagrees(lease: LeaseData)
    requires |lease.property.components| >= 2
    requires lease.property.components[0].rentPSF == -0.005
    ensures GenerateProjectedRentData(lease, 1).value[0].warehouseRent == -0.01
    ensures LeaseHelpers.GenerateProjectedRentData(lease, 1).value[0].warehouseRent == 0.0
  {
    var c := lease.property.components;
    assert GenerateProjectedRentData(lease, 1).value[0] == ProjectedPoint(c[0].rentPSF, c[1].rentPSF, 0);
    assert LeaseHelpers.GenerateProjectedRentData(lease, 1).value[0]
        == LeaseHelpers.ProjectedPoint(c[0].rentPSF, c[1].rentPSF, 0);
    assert LeaseHelpers.Escalated(-0.005, 0) == -0.005;
    FixedCentsDiffersOnNegativeTie();
  }

  /** With non-negative base rents every series is non-decreasing over the years. */
  lemma ProjectionNonDecreasing(lease: LeaseData, years: int, i: nat, j: nat)
    requires GenerateProjectedRentData(lease, years).Returned?
    requires i <= j < LeaseHelpers.ArrayLength(years)
    requires |lease.property.components| >= 2 ==>
               lease.property.components[0].rentPSF >= 0.0 && lease.property.components[1].rentPSF >= 0.0
    ensures var r := GenerateProjectedRentData(lease, years).value;
            && r[i].warehouseRent <= r[j].warehouseRent
            && r[i].parkingRent <= r[j].parkingRent
            && r[i].marketRentWarehouse <= r[j].marketRentWarehouse
            && r[i].marketRentParking <= r[j].marketRentParking
  {
    var c := lease.property.components;
    var r := GenerateProjectedRentData(lease, years).value;
    assert r[i] == ProjectedPoint(c[0].rentPSF, c[1].rentPSF, i);
    assert r[j] == ProjectedPoint(c[0].rentPSF, c[1].rentPSF, j);
    PointNonDecreasing(c[0].rentPSF, c[1].rentPSF, i, j);
  }

  lemma PointNonDecreasing(warehousePSF: real, parkingPSF: real, i: nat, j: nat)
    requires warehousePSF >= 0.0 && parkingPSF >= 0.0 && i <= j
    ensures var a, b := ProjectedPoint(warehousePSF, parkingPSF, i), ProjectedPoint(warehousePSF, parkingPSF, j);
            && a.warehouseRent <= b.warehouseRent
            && a.parkingRent <= b.parkingRent
            && a.marketRentWarehouse <= b.marketRentWarehouse
            && a.marketRentParking <= b.marketRentParking
  {
    ScaledPowMonotone(warehousePSF, LeaseHelpers.Escalation, i, j);
    ScaledPowMonotone(parkingPSF, LeaseHelpers.Escalation, i, j);
    ScaledPowMonotone(LeaseHelpers.MarketWarehouseBase, LeaseHelpers.Escalation, i, j);
    ScaledPowMonotone(LeaseHelpers.MarketParkingBase, LeaseHelpers.Escalation, i, j);
    FixedCentsMonotone(LeaseHelpers.Escalated(warehousePSF, i), LeaseHelpers.Escalated(warehousePSF, j));
    FixedCentsMonotone(LeaseHelpers.Escalated(parkingPSF, i), LeaseHelpers.Escalated(parkingPSF, j));
    FixedCentsMonotone(LeaseHelpers.Escalated(LeaseHelpers.MarketWarehouseBase, i),
                       LeaseHelpers.Escalated(LeaseHelpers.MarketWarehouseBase, j));
    FixedCentsMonotone(LeaseHelpers.Escalated(LeaseHelpers.MarketParkingBase, i),
                       LeaseHelpers.Escalated(LeaseHelpers.MarketParkingBase, j));
  }

  /** The shipped lease's year-13 row values: 52.64, 18.05, and a market of
      57.03 and 28.52. */
  lemma FixtureProjection()
    ensures var r := GenerateProjectedRentData(AmazonLease, LeaseHelpers.DefaultYears);
            && r.Returned? && |r.value| == 13
            && r.value[0] == RentPoint(1, 36.92, 12.66, 40.0, 20.0)
            && r.value[12] == RentPoint(13, 52.64, 18.05, 57.03, 28.52)
  {
    var r := GenerateProjectedRentData(AmazonLease, LeaseHelpers.DefaultYears).value;
    assert r[0] == ProjectedPoint(36.92, 12.66, 0);
    assert r[12] == ProjectedPoint(36.92, 12.66, 12);
    RoundCentsOfCents(36.92);
    RoundCentsOfCents(12.66);
    RoundCentsOfCents(40.0);
    RoundCentsOfCents(20.0);
    LeaseHelpers.PowEscalationTwelve();
    RoundCentsUnique(LeaseHelpers.Escalated(36.92, 12), 52.64);
    RoundCentsUnique(LeaseHelpers.Escalated(12.66, 12), 18.05);
    RoundCentsUnique(LeaseHelpers.Escalated(40.0, 12), 57.03);
    RoundCentsUnique(LeaseHelpers.Escalated(20.0, 12), 28.52);
  }
}
