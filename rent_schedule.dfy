/** The rent schedule section: which projection years the table shows,
    how each row's figures are derived, the summary cards, and the
    "all years" toggle. */
module RentSchedule {
  import opened Outcomes
  import opened LeaseTypes
  import LeaseHelpers
  import LibUtils

  /** The projection indices the table shows in key-years mode. */
  predicate IsKeyIndex(idx: nat)
  {
    idx == 0 || idx == 4 || idx == 9 || idx == 12
  }

  /** `projectedRentData.filter((_, idx) => idx === 0 || idx === 4 || idx === 9 || idx === 12)`. */
  function KeyYears<T>(projection: seq<T>): (r: seq<T>)
    ensures |r| == KeyCount(|projection|)
  {
    if projection == [] then []
    else
      var last := |projection| - 1;
      KeyYears(projection[..last]) + (if IsKeyIndex(last) then [projection[last]] else [])
  }

  /** `displayData`: the whole projection, or only its key years. */
  function DisplayData<T>(projection: seq<T>, viewAllYears: bool): (r: seq<T>)
    ensures |r| == if viewAllYears then |projection| else KeyCount(|projection|)
    ensures forall k :: 0 <= k < |r| ==>
              ActualIndex(viewAllYears, k) < |projection| && r[k] == projection[ActualIndex(viewAllYears, k)]
  {
    KeyYearsAtActualIndices(projection);
    if viewAllYears then projection else KeyYears(projection)
  }

  /** `actualIndex`: the projection index that table position `index` shows. */
  function ActualIndex(viewAllYears: bool, index: nat): (i: nat)
    ensures viewAllYears ==> i == index
    ensures !viewAllYears ==> IsKeyIndex(i) && (index < 4 ==> KeyCount(i) == index)
  {
    if viewAllYears then index
    else if index == 0 then 0
    else if index == 1 then 4
    else if index == 2 then 9
    else 12
  }

  /** How many key indices lie below n. */
  function KeyCount(n: nat): nat
  {
    if n > 12 then 4 else if n > 9 then 3 else if n > 4 then 2 else if n > 0 then 1 else 0
  }

  /** The filtered rows are the key indices below the projection's length,
      in increasing order, and the position-to-index mapping finds each. */
  lemma {:induction false} KeyYearsAtActualIndices<T>(projection: seq<T>)
    ensures forall k :: 0 <= k < |KeyYears(projection)| ==>
              ActualIndex(false, k) < |projection| && KeyYears(projection)[k] == projection[ActualIndex(false, k)]
  {
    if projection != [] {
      var last := |projection| - 1;
      var front := projection[..last];
      KeyYearsAtActualIndices(front);
      assert KeyCount(|projection|) == KeyCount(last) + (if IsKeyIndex(last) then 1 else 0);
      assert IsKeyIndex(last) ==> ActualIndex(false, KeyCount(last)) == last;
      forall k | 0 <= k < KeyCount(last)
        ensures KeyYears(projection)[k] == projection[ActualIndex(false, k)]
      {
        assert KeyYears(projection)[k] == KeyYears(front)[k];
      }
    }
  }

  /** With the full 13-year projection the key years are exactly entries 0, 4, 9 and 12. */
  lemma KeyYearsOfFullProjection<T>(projection: seq<T>)
    requires |projection| >= 13
    ensures KeyYears(projection) == [projection[0], projection[4], projection[9], projection[12]]
  {
    KeyYearsAtActualIndices(projection);
  }

  datatype BadgeVariant = Secondary | Destructive | Default

  /** The badge of a row: the first year, the last projected year, or neither. */
  function Badge(actualIndex: nat, projectionLength: nat): (b: BadgeVariant)
    ensures b == Secondary <==> actualIndex == 0
    ensures b == Destructive <==> actualIndex != 0 && actualIndex == projectionLength - 1
  {
    if actualIndex == 0 then Secondary
    else if actualIndex == projectionLength - 1 then Destructive
    else Default
  }

  datatype ScheduleRow = ScheduleRow(
    leaseYear: int,
    period: int,
    warehouseRent: real,
    parkingRent: real,
    annualRent: real,
    monthlyRent: real,
    badge: BadgeVariant)

  /** One table row for the projection point shown at `actualIndex`. */
  function Row(point: RentPoint, warehouseSF: real, parkingSF: real, actualIndex: nat, projectionLength: nat, currentYear: int): (r: ScheduleRow)
    ensures r.monthlyRent * 12.0 == r.annualRent
    ensures r.period - r.leaseYear == currentYear - 1
    ensures r.badge == Destructive ==> r.leaseYear == projectionLength
  {
    var annual := point.warehouseRent * warehouseSF + point.parkingRent * parkingSF;
    ScheduleRow(actualIndex + 1, currentYear + actualIndex, point.warehouseRent, point.parkingRent,
                annual, annual / 12.0, Badge(actualIndex, projectionLength))
  }

  /** The rows of the table body: `displayData.map(...)`. */
  function ScheduleRows(projection: seq<RentPoint>, warehouseSF: real, parkingSF: real, viewAllYears: bool, currentYear: int): (rows: seq<ScheduleRow>)
    ensures |rows| == if viewAllYears then |projection| else KeyCount(|projection|)
  {
    var display := DisplayData(projection, viewAllYears);
    seq(|display|, k requires 0 <= k < |display| =>
      Row(display[k], warehouseSF, parkingSF, ActualIndex(viewAllYears, k), |projection|, currentYear))
  }

  /** Row k carries the rents of projection entry `actualIndex(k)`, its
      lease year and calendar year, rent totals weighted by square footage
      with a monthly figure of one twelfth, and the badge of that index. */
  lemma RowsFollowProjection(projection: seq<RentPoint>, warehouseSF: real, parkingSF: real, viewAllYears: bool, currentYear: int, k: nat)
    requires k < |ScheduleRows(projection, warehouseSF, parkingSF, viewAllYears, currentYear)|
    ensures var a := ActualIndex(viewAllYears, k);
            var row := ScheduleRows(projection, warehouseSF, parkingSF, viewAllYears, currentYear)[k];
            && a < |projection|
            && row.warehouseRent == projection[a].warehouseRent
            && row.parkingRent == projection[a].parkingRent
            && row.annualRent == projection[a].warehouseRent * warehouseSF + projection[a].parkingRent * parkingSF
            && row.monthlyRent * 12.0 == row.annualRent
            && row.leaseYear == a + 1
            && row.period == currentYear + a
            && row.badge == Badge(a, |projection|)
  {
  }

  /** The rendered section: table rows, toggle caption, the hint shown in
      key-years mode, and the four summary cards (three from the projection,
      the mark-to-market text from the lease). */
  datatype SectionView = SectionView(
    rows: seq<ScheduleRow>,
    toggleCaption: string,
    showsKeyYearsHint: bool,
    currentWarehousePSF: real,
    year13WarehousePSF: real,
    year13MarketPSF: real,
    markToMarket: string)

  /** `RentScheduleSection({ leaseData })` rendered with the given view flag
      and calendar year. The summary cards read projection entries 0 and 12,
      which the fixed 13-year projection always has. */
  function RentScheduleSection(lease: LeaseData, viewAllYears: bool, currentYear: int): (r: Result<SectionView>)
    ensures r.Threw? <==> |lease.property.components| < 2
    ensures r.Returned? ==> r.value.showsKeyYearsHint == !viewAllYears
    ensures r.Returned? ==> |r.value.rows| == if viewAllYears then 13 else 4
  {
    match LibUtils.GenerateProjectedRentData(lease, LeaseHelpers.DefaultYears)
    case Threw(e) => Threw(e)
    case Returned(projection) =>
      var c := lease.property.components;
        Returned(SectionView(
        ScheduleRows(projection, c[0].sf, c[1].sf, viewAllYears, currentYear),
        if viewAllYears then "Show Key Years" else "Show All Years",
        !viewAllYears,
        projection[0].warehouseRent,
        projection[12].warehouseRent,
        projection[12].marketRentWarehouse,
        lease.financials.markToMarket))
  }

  /** In key-years mode the four rows are lease years 1, 5, 10 and 13, in
      calendar years currentYear + 0, 4, 9, 12, badged first, plain, plain, last. */
  lemma KeyYearRows(lease: LeaseData, currentYear: int)
    requires |lease.property.components| >= 2
    ensures var rows := RentScheduleSection(lease, false, currentYear).value.rows;
            && |rows| == 4
            && rows[0].leaseYear == 1 && rows[1].leaseYear == 5 && rows[2].leaseYear == 10 && rows[3].leaseYear == 13
            && rows[0].period == currentYear && rows[3].period == currentYear + 12
            && rows[0].badge == Secondary && rows[1].badge == Default
            && rows[2].badge == Default && rows[3].badge == Destructive
  {
    var projection := LibUtils.GenerateProjectedRentData(lease, LeaseHelpers.DefaultYears).value;
    var c := lease.property.components;
    var rows := ScheduleRows(projection, c[0].sf, c[1].sf, false, currentYear);
    RowsFollowProjection(projection, c[0].sf, c[1].sf, false, currentYear, 0);
    RowsFollowProjection(projection, c[0].sf, c[1].sf, false, currentYear, 1);
    RowsFollowProjection(projection, c[0].sf, c[1].sf, false, currentYear, 2);
    RowsFollowProjection(projection, c[0].sf, c[1].sf, false, currentYear, 3);
  }

  /** In all-years mode row k is lease year k + 1; only the first and the
      last rows carry a special badge. */
  lemma AllYearRows(lease: LeaseData, currentYear: int, k: nat)
    requires |lease.property.components| >= 2
    requires k < 13
    ensures var rows := RentScheduleSection(lease, true, currentYear).value.rows;
            && |rows| == 13
            && rows[k].leaseYear == k + 1
            && rows[k].period == currentYear + k
            && (rows[k].badge == Secondary <==> k == 0)
            && (rows[k].badge == Destructive <==> k == 12)
  {
    var projection := LibUtils.GenerateProjectedRentData(lease, LeaseHelpers.DefaultYears).value;
    var c := lease.property.components;
    RowsFollowProjection(projection, c[0].sf, c[1].sf, true, currentYear, k);
  }

  /** The shipped lease's summary cards: 36.92 now, 52.64 in year 13 against
      a market of 57.03. */
  lemma FixtureSummaryCards(viewAllYears: bool, currentYear: int)
    ensures var v := RentScheduleSection(AmazonLease, viewAllYears, currentYear).value;
            && v.currentWarehousePSF == 36.92
            && v.year13WarehousePSF == 52.64
            && v.year13MarketPSF == 57.03
  {
    LibUtils.FixtureProjection();
  }

  /** The section's one piece of state: the `viewAllYears` flag. */
  class ScheduleView {
    var viewAllYears: bool

    /** `useState(false)`. */
    constructor ()
      ensures !viewAllYears
    {
      viewAllYears := false;
    }

    /** The toggle button's click handler, `setViewAllYears(!viewAllYears)`. */
    method ToggleViewAllYears()
      modifies this
      ensures viewAllYears == !old(viewAllYears)
    {
      viewAllYears := !viewAllYears;
    }

    /** What the section renders in the current state. */
    function Render(lease: LeaseData, currentYear: int): (r: Result<SectionView>)
      reads this
      ensures r.Returned? ==> (r.value.toggleCaption == "Show All Years" <==> !viewAllYears)
    {
      RentScheduleSection(lease, viewAllYears, currentYear)
    }
  }
}
