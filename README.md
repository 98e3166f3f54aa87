# Lease dashboard core, modelled in Dafny

This project models the logic under a static lease-abstract dashboard for a
single industrial lease (a warehouse floor and a rooftop parking deck let to
one tenant). It does not model the rendering. It covers:

- two rent-projection generators;
- the per-year rent calculation, with its `parseFloat` of the escalation label;
- the days-remaining and risk-band rules;
- the rent schedule table's row selection and arithmetic;
- the PDF export's file name, page geometry and paging loop, and its busy flag;
- the PDF viewer dialog's page and zoom state machine.

Numbers are exact reals, not IEEE doubles. A JavaScript number is
`Num = Finite(real) | NaN`, so an unparsable label propagates as NaN, as
in the code. Two rounding rules are modelled separately:

- `Math.round(x*100)/100` is `RoundCents`, which rounds halves up;
- `+x.toFixed(2)` is `FixedCents`, which rounds halves away from zero.

They agree for every non-negative value and differ at every negative tie
(an amount half a cent below a whole number of cents), and the model
proves both facts. Reading a missing rent component is a
JavaScript `TypeError`. It is modelled as `Threw(ComponentMissing(i))`
of a `Result`. An `Array.from` length of 2^32 or more is a `RangeError`,
modelled as `Threw(InvalidArrayLength)`. Wall-clock reads become
parameters: `today`, `currentYear` and `isoNow`.

Modules, one per file:

- `Outcomes`: `Option`, `Result` and the model of the JavaScript errors.
- `RealMath`: `Pow`, cents rounding and `Ceil`.
- `JsNumber`: `Num` arithmetic, JavaScript whitespace and `parseFloat`.
- `LeaseTypes`: the lease record, a rent point and the shipped lease fixture.
- `LeaseHelpers`: `utils/leaseHelpers.ts`.
- `LibUtils`: `lib/utils.ts`.
- `RentSchedule`: `components/lease/RentScheduleSection.tsx`.
- `ExportPdf`: `components/lease/ExportPdfButton.tsx`.
- `PdfViewer`: `components/lease/PdfViewerModal.tsx`.

The state of the three components becomes classes:

- `ScheduleView` holds `viewAllYears`.
- `ExportButton` holds `isExporting`.
- `Viewer` holds `currentPage`, `totalPages` and `zoomTenths`.

Their handlers are methods with `modifies this`. The paging loop of the
export is a method with a `while` loop and its invariants.

Facts about the code that the model proves:

- The year-13 warehouse rent of the shipped lease is 52.64, because
  36.92 · 1.03^12 = 52.6391….
- The year-13 market rent in `lib/utils.ts` is 57.03.
- An unparsable escalation label gives NaN, not an error.
- There is no horizon check: `years <= 0` gives an empty array, as
  `Array.from` does.
- Only components 0 and 1 are read. With fewer than two components, the
  code throws.

## Model

| member | source | states |
|---|---|---|
| RealMath.RoundCents | utils/leaseHelpers.ts:50-51 | `Math.round(x*100)/100` is a whole number of cents within half a cent of x: x − 0.005 < r ≤ x + 0.005 |
| RealMath.RoundCentsUnique | utils/leaseHelpers.ts:50-51 | any whole-cents value in that half-open interval is the rounding, so the rounding is determined by the interval |
| RealMath.RoundCentsOfCents | utils/leaseHelpers.ts:50-51 | rounding leaves a whole-cents value unchanged |
| RealMath.RoundCentsMonotone | utils/leaseHelpers.ts:50-51 | rounding to cents preserves ≤ |
| RealMath.FixedCents | lib/utils.ts:26-29 | `+x.toFixed(2)` is whole cents within half a cent of x; non-negative ties go up; negative ties go away from zero |
| RealMath.FixedCentsAgreesOnNonNegative | lib/utils.ts:26-29 | for x ≥ 0, `toFixed(2)` and `Math.round` cents rounding coincide |
| RealMath.FixedCentsDiffersOnNegativeTie | lib/utils.ts:26-29 | at −0.005 they differ: `Math.round` gives 0, `toFixed(2)` gives −0.01 |
| RealMath.FixedCentsDiffersOnNegativeTies | lib/utils.ts:26-29 | for every k ≥ 0, at −k/100 − 0.005 `Math.round` gives −k/100 and `toFixed(2)` gives −(k+1)/100 |
| RealMath.FixedCentsMonotone | lib/utils.ts:26-29 | `toFixed(2)` rounding preserves ≤ |
| RealMath.PowPositive | utils/leaseHelpers.ts:50-53 | a positive base has positive powers |
| RealMath.PowMonotone | utils/leaseHelpers.ts:50-53 | for base ≥ 1, powers are ≥ 1 and non-decreasing in the exponent |
| RealMath.ScaledPowMonotone | utils/leaseHelpers.ts:50-53 | a non-negative multiple of such powers is non-negative and non-decreasing |
| JsNumber.IsJsWhitespace | utils/leaseHelpers.ts:60 | no whitespace character is a digit, a point or a sign, and space, tab, line feed, carriage return, no-break space and the byte-order mark are whitespace |
| JsNumber.DigitsValueBound | utils/leaseHelpers.ts:60 | a string of k digits is worth less than 10^k |
| JsNumber.TrimWhitespacePrefix | utils/leaseHelpers.ts:60 | the whitespace skip ignores any run of whitespace put in front |
| JsNumber.ExponentNeedsMarker | utils/leaseHelpers.ts:60 | the exponent part read is 0 unless the text opens with `e` or `E` and has a further character |
| JsNumber.FractionPrefixBounds | utils/leaseHelpers.ts:60 | the fraction part read is in [0, 1), is 0 without digits, has digits iff the text opens with a point and a digit, and leaves a suffix of the text |
| JsNumber.DecimalPrefixExists | utils/leaseHelpers.ts:60 | an unsigned decimal prefix exists iff the text opens with a digit, or with a point and a digit |
| JsNumber.DecimalPrefixNonNegative | utils/leaseHelpers.ts:60 | an unsigned decimal prefix is never negative |
| JsNumber.ParseFloatNaN | utils/leaseHelpers.ts:60 | `parseFloat` gives NaN iff, past the leading whitespace and one sign, the text does not open with a digit or a point and a digit; a finite result has the sign written |
| JsNumber.ParseFloatSkipsWhitespace | utils/leaseHelpers.ts:60 | leading whitespace does not change the result |
| JsNumber.ParseFloatOfNegated | utils/leaseHelpers.ts:60 | a minus sign before unsigned text negates the result, and keeps NaN as NaN |
| JsNumber.FractionPrefixOfDigits | utils/leaseHelpers.ts:60 | a point and digits followed by a non-digit are read as the fraction 0.<digits> |
| JsNumber.DecimalPrefixAfterDigits | utils/leaseHelpers.ts:60 | after a run of integer digits the literal reads on into the fraction and exponent parts that follow |
| JsNumber.DecimalPrefixOfFraction | utils/leaseHelpers.ts:60 | digits, a point and digits, followed by anything but a digit, `e` or `E`, are read as integer part plus fraction |
| JsNumber.ParseFloatOfDecimalLabel | utils/leaseHelpers.ts:60 | `parseFloat` of "n.f" followed by such a suffix is n + f / 10^\|f\| |
| JsNumber.ParseFloatOfFractionalLabel | utils/leaseHelpers.ts:60 | "2.5%" parses to 2.5 |
| RealMath.Ceil | utils/leaseHelpers.ts:99 | `Math.ceil(x)` is the integer r with r − 1 < x ≤ r |
| JsNumber.PowNum | utils/leaseHelpers.ts:63-66 | `Math.pow` of a JS number: exponent 0 gives 1 even for NaN; otherwise the result is NaN iff the base is; a finite base gives the exact power |
| JsNumber.LeadingDigits | utils/leaseHelpers.ts:60 | the digit run `parseFloat` reads: every character before k is a digit, and the character at k is not |
| JsNumber.TrimLeadingWhitespace | utils/leaseHelpers.ts:60 | `parseFloat` skips exactly the leading JavaScript whitespace: what is dropped is all whitespace, and what remains is a suffix that does not start with whitespace |
| JsNumber.DigitsValueOfNatDigits | utils/leaseHelpers.ts:60 | reading back the decimal digits of n gives n |
| JsNumber.LeadingDigitsOfConcat | utils/leaseHelpers.ts:60 | a digit prefix extends the leading digit run by its length |
| JsNumber.DecimalPrefixOfDigits | utils/leaseHelpers.ts:60 | a digit string followed by a character that cannot continue a number parses to the digits' value |
| JsNumber.ParseFloatOfNatLabel | utils/leaseHelpers.ts:60 | `parseFloat` of a whole number followed by a non-numeric suffix (such as "%") is that number |
| JsNumber.ParseFloatExamples | utils/leaseHelpers.ts:60 | "3%" parses to 3; "N/A" and "" parse to NaN |
| LeaseHelpers.GenerateProjectedRentData | utils/leaseHelpers.ts:46-55 | throws a RangeError iff years ≥ 2^32; otherwise throws exactly when years > 0 and fewer than two components exist, naming the missing index; otherwise gives max(years, 0) points with point k in year k + 1 |
| LeaseHelpers.ProjectionValues | utils/leaseHelpers.ts:50-53 | point i holds the cents-rounded base PSF · 1.03^i of components 0 and 1, and the unrounded 40 · 1.03^i and 20 · 1.03^i |
| LeaseHelpers.ProjectionRounding | utils/leaseHelpers.ts:50-51 | the contract series are whole cents within half a cent of the exact escalated rent |
| LeaseHelpers.ProjectionFirstYear | utils/leaseHelpers.ts:50-53 | the first point is the rounded base PSF, with market 40 and 20 |
| LeaseHelpers.ProjectionMarketIndependent | utils/leaseHelpers.ts:52-53 | two leases get the same market series |
| LeaseHelpers.ProjectionIgnoresEscalationLabel | utils/leaseHelpers.ts:46-55 | changing `annualEscalations` does not change the projection |
| LeaseHelpers.ProjectionNonDecreasing | utils/leaseHelpers.ts:50-53 | with non-negative rents on components 0 and 1 (any others are not read), all four series are non-decreasing over the years |
| LeaseHelpers.PointNonDecreasing | utils/leaseHelpers.ts:50-53 | the same, for two points of the projection formula |
| LeaseHelpers.PowEscalationTwelve | utils/leaseHelpers.ts:50 | 1.03^12 is exactly 1.425760886846178945447841 |
| LeaseHelpers.FixtureProjection | data/leaseData.ts:15-18 | the shipped lease projects year 1 as (36.92, 12.66, 40, 20), and year 13 as warehouse 52.64 and parking 18.05, with market 40 · 1.03^12 |
| LeaseHelpers.EscalationRate | utils/leaseHelpers.ts:60 | the rate is NaN iff the label's numeric prefix is; otherwise 100 · rate is that prefix |
| LeaseHelpers.CalculateRentForYear | utils/leaseHelpers.ts:59-78 | throws exactly when fewer than two components exist, naming the missing index |
| LeaseHelpers.RentForYearValues | utils/leaseHelpers.ts:63-70 | with a parsed rate, each PSF is base · (1 + rate)^yearIndex, annual rent is the square-footage-weighted sum, and monthly rent is one twelfth of it |
| LeaseHelpers.EscalatedRentValues | utils/leaseHelpers.ts:63-70 | the same, for the rent formula with a finite rate |
| LeaseHelpers.RentForYearZero | utils/leaseHelpers.ts:63-66 | year index 0 returns the base PSFs and their totals, even for an unparsable label |
| LeaseHelpers.RentForYearUnparsable | utils/leaseHelpers.ts:60-70 | an unparsable label makes every field NaN once the year index is positive |
| LeaseHelpers.RentForYearMatchesProjection | utils/leaseHelpers.ts:50-66 | with any label that reads as a 3% rate (such as "3%", by `ThreePercentRate`), the unrounded rent for year i is the value the projection rounds to cents |
| LeaseHelpers.ThreePercentRate | utils/leaseHelpers.ts:60 | the label "3%" yields the rate 0.03 |
| LeaseHelpers.DaysBetween | utils/leaseHelpers.ts:98-99 | the number d of whole or partial days in \|a − b\| ms: (d − 1) days < \|a − b\| ≤ d days |
| LeaseHelpers.CalculateDaysRemaining | utils/leaseHelpers.ts:95-100 | NaN iff the expiry date is invalid; otherwise the non-negative ceiling of the day distance |
| LeaseHelpers.DaysRemainingSymmetric | utils/leaseHelpers.ts:98-99 | swapping the two instants gives the same count, and the count is 0 iff they are equal |
| LeaseHelpers.DetermineRiskLevel | utils/leaseHelpers.ts:103-111 | 'high' iff days ≤ 365; 'medium' iff 365 < days ≤ 730; 'low' otherwise, NaN included |
| LeaseHelpers.RiskNeverRisesWithTime | utils/leaseHelpers.ts:103-111 | more days remaining never gives a higher risk level |
| LibUtils.GenerateProjectedRentData | lib/utils.ts:22-32 | the same throwing conditions, length and year numbering as the helper version |
| LibUtils.ProjectionValues | lib/utils.ts:25-29 | point i is year i + 1 and holds `toFixed(2)` of base PSF · 1.03^i for components 0 and 1 and of 40 · 1.03^i and 20 · 1.03^i, for rents of any sign |
| LibUtils.ProjectionInCents | lib/utils.ts:26-29 | every field of every point is whole cents; the first point's market values are exactly 40.00 and 20.00 |
| LibUtils.AgreesWithHelperProjection | lib/utils.ts:26-29 | with non-negative rents, both versions throw on the same inputs and their contract series coincide; each market value here is the helper's, rounded to cents |
| LibUtils.NegativeRentTieDisagrees | lib/utils.ts:26-27 | a component at −0.005 PSF projects to −0.01 here but to 0 in the helper version |
| LibUtils.ProjectionNonDecreasing | lib/utils.ts:26-29 | with non-negative rents on components 0 and 1 (any others are not read), all four rounded series are non-decreasing |
| LibUtils.PointNonDecreasing | lib/utils.ts:26-29 | the same, for two points of the rounded formula |
| LibUtils.FixtureProjection | lib/utils.ts:26-29 | the shipped lease's year-13 point is (52.64, 18.05, 57.03, 28.52) |
| RentSchedule.KeyYears | components/lease/RentScheduleSection.tsx:39 | the key-years filter keeps as many entries as there are key indices 0, 4, 9, 12 below the length |
| RentSchedule.KeyYearsAtActualIndices | components/lease/RentScheduleSection.tsx:37-39 | position k of the filtered projection holds the entry at `actualIndex(k)`, in order |
| RentSchedule.ActualIndex | components/lease/RentScheduleSection.tsx:73-77 | all-years mode maps a position to itself; key-years mode maps it to a key index, and positions 0 to 3 to the key index with that many key indices below it |
| RentSchedule.DisplayData | components/lease/RentScheduleSection.tsx:37-39 | the table lists the whole projection or the key years; in both modes entry k is projection entry `actualIndex(k)` |
| RentSchedule.KeyYearsOfFullProjection | components/lease/RentScheduleSection.tsx:37-39 | with at least 13 points, key-years mode shows exactly entries 0, 4, 9, 12 |
| RentSchedule.Badge | components/lease/RentScheduleSection.tsx:87-90 | "secondary" iff index 0; "destructive" iff a later index is the last projection index |
| RentSchedule.Row | components/lease/RentScheduleSection.tsx:78-92 | a row's monthly rent is one twelfth of its annual rent, its calendar year is lease year + currentYear − 1, and a "destructive" row is the last projected year |
| RentSchedule.ScheduleRows | components/lease/RentScheduleSection.tsx:72 | there is one row per projection entry in all-years mode and one per key year otherwise |
| RentSchedule.RowsFollowProjection | components/lease/RentScheduleSection.tsx:72-95 | row k carries the rents of entry `actualIndex(k)`: annual = warehouse · sf₀ + parking · sf₁, monthly · 12 = annual, lease year `actualIndex + 1`, period `currentYear + actualIndex`, and that index's badge |
| RentSchedule.RentScheduleSection | components/lease/RentScheduleSection.tsx:26-39 | rendering throws exactly when fewer than two components exist; otherwise there are 13 rows in all-years mode and 4 in key-years mode, and the hint shows iff in key-years mode |
| RentSchedule.KeyYearRows | components/lease/RentScheduleSection.tsx:72-93 | key-years mode lists lease years 1, 5, 10, 13 from `currentYear` to `currentYear + 12`, badged secondary, default, default, destructive |
| RentSchedule.AllYearRows | components/lease/RentScheduleSection.tsx:72-93 | all-years row k is lease year k + 1 in `currentYear + k`; only rows 0 and 12 carry the special badges |
| RentSchedule.FixtureSummaryCards | components/lease/RentScheduleSection.tsx:250-264 | for the shipped lease the summary cards read 36.92, 52.64 and a market of 57.03 |
| RentSchedule.ScheduleView.constructor | components/lease/RentScheduleSection.tsx:34 | the view starts in key-years mode |
| RentSchedule.ScheduleView.ToggleViewAllYears | components/lease/RentScheduleSection.tsx:53 | a click negates `viewAllYears`, so two clicks restore it |
| RentSchedule.ScheduleView.Render | components/lease/RentScheduleSection.tsx:55 | the button reads "Show All Years" iff the view is in key-years mode |
| ExportPdf.CollapseWhitespace | components/lease/ExportPdfButton.tsx:39 | the replacement never lengthens the string, and is empty iff its input is |
| ExportPdf.CollapseRemovesWhitespace | components/lease/ExportPdfButton.tsx:39 | no whitespace character survives `replace(/\s+/g, '_')` |
| ExportPdf.CollapseWithoutWhitespace | components/lease/ExportPdfButton.tsx:39 | a string without whitespace is unchanged |
| ExportPdf.CollapseIdempotent | components/lease/ExportPdfButton.tsx:39 | replacing twice is replacing once |
| ExportPdf.CollapseRun | components/lease/ExportPdfButton.tsx:39 | a maximal whitespace run at the front becomes exactly one `_` |
| ExportPdf.CollapseAppend | components/lease/ExportPdfButton.tsx:39 | the replacement distributes over a concatenation whose cut does not split a whitespace run |
| ExportPdf.DatePart | components/lease/ExportPdfButton.tsx:39 | `split('T')[0]` is the longest prefix without `T`: it is followed by a `T` or by the end |
| ExportPdf.DatePartBeforeT | components/lease/ExportPdfButton.tsx:39 | a prefix free of `T`, followed by `T`, is exactly what is kept |
| ExportPdf.DatePartOfTimestamp | components/lease/ExportPdfButton.tsx:39 | "2026-10-14T09:30:00.000Z" yields "2026-10-14" |
| ExportPdf.AddressOrDefault | components/lease/ExportPdfButton.tsx:38 | a missing or empty address becomes "Property"; any other address is kept as given |
| ExportPdf.FileName | components/lease/ExportPdfButton.tsx:38-39 | the name ends with "_Lease_Abstract_", the date and ".pdf", after a non-empty address part free of whitespace |
| ExportPdf.ExportFileName | components/lease/ExportPdfButton.tsx:38-39 | the declared lease has no address field, so every export is named "Property_Lease_Abstract_<date>.pdf" |
| ExportPdf.FileNameOfPlainAddress | components/lease/ExportPdfButton.tsx:38-39 | an address without whitespace goes into the name verbatim, followed by "_Lease_Abstract_", the date and ".pdf" |
| ExportPdf.FileNameHasNoWhitespace | components/lease/ExportPdfButton.tsx:38-39 | with a timestamp free of whitespace, the file name is free of whitespace |
| ExportPdf.PdfHeight | components/lease/ExportPdfButton.tsx:108-109 | the image height satisfies pdfHeight · width = height · 210 and is non-negative |
| ExportPdf.PdfHeightScaleInvariant | components/lease/ExportPdfButton.tsx:108-109 | scaling the content's width and height by one factor leaves the image height unchanged |
| ExportPdf.OrientationFor | components/lease/ExportPdfButton.tsx:113 | portrait iff pdfHeight > 210 · 1.414 = 296.94 |
| ExportPdf.OrientationByAspect | components/lease/ExportPdfButton.tsx:108-113 | the document is portrait iff the content is more than 1.414 times taller than wide |
| ExportPdf.FirstPageFormat | components/lease/ExportPdfButton.tsx:115 | the first page is 210 wide and min(pdfHeight, 297) tall |
| ExportPdf.ExtraPageOffsets | components/lease/ExportPdfButton.tsx:123-141 | extra page k draws the image at −297 · (k + 1); there is no extra page when pdfHeight ≤ 297; otherwise 297 · n < pdfHeight ≤ 297 · (n + 1) for n extra pages; for a positive height the page total is ⌈pdfHeight / 297⌉ |
| ExportPdf.ExportButton.constructor | components/lease/ExportPdfButton.tsx:17 | the button starts idle |
| ExportPdf.ExportButton.Disabled | components/lease/ExportPdfButton.tsx:175 | the button is disabled exactly while `isExporting` is set |
| ExportPdf.ExportButton.Caption | components/lease/ExportPdfButton.tsx:175-178 | the caption reads "Exporting..." iff the button is disabled, and "Export PDF" otherwise |
| ExportPdf.ExportButton.BeginExport | components/lease/ExportPdfButton.tsx:20-26 | without a container, export stops and the flag is unchanged; otherwise the flag is set and the button is disabled |
| ExportPdf.ExportButton.FinishExport | components/lease/ExportPdfButton.tsx:37-161 | the flag is cleared on success and on failure; a failure reports the error; a success plans the file name, orientation, first page, image height and offsets the functions above describe |
| ExportPdf.ExportButton.HandleExport | components/lease/ExportPdfButton.tsx:19-162 | no container: nothing changes; otherwise the button is idle again afterwards, the outcome is a failure iff the capture failed, and a success carries the plan of file name, orientation, first page, image height and page offsets for that container |
| PdfViewer.PrevPage | components/lease/PdfViewerModal.tsx:31-35 | the page goes down by one iff it is above 1, and stays put otherwise |
| PdfViewer.NextPage | components/lease/PdfViewerModal.tsx:37-41 | the page goes up by one iff it is below the page count, and stays put otherwise |
| PdfViewer.ZoomIn | components/lease/PdfViewerModal.tsx:43-47 | zoom goes up one tenth iff it is below 2 and stays put otherwise, never leaving a zoom ≤ 2 above 2 |
| PdfViewer.ZoomOut | components/lease/PdfViewerModal.tsx:49-53 | zoom goes down one tenth iff it is above 0.5 and stays put otherwise, never leaving a zoom ≥ 0.5 below 0.5 |
| PdfViewer.AfterLoad | components/lease/PdfViewerModal.tsx:109-113 | an unknown page count becomes 19; a known one is kept |
| PdfViewer.ZoomRoundTrip | components/lease/PdfViewerModal.tsx:43-53 | where both guards allow it, zooming in then out (or out then in) restores the zoom |
| PdfViewer.AfterLoadIdempotent | components/lease/PdfViewerModal.tsx:109-113 | a second load changes nothing, and loading never lowers the page count |
| PdfViewer.ZoomPercent | components/lease/PdfViewerModal.tsx:82 | `Math.round(zoom * 100)` is ten times the zoom in tenths |
| PdfViewer.PageCountLabelFor | components/lease/PdfViewerModal.tsx:72 | the count shows as '?' iff it is 0, and as the count otherwise |
| PdfViewer.Viewer.constructor | components/lease/PdfViewerModal.tsx:27-29 | the viewer starts on page 1 of an unknown count at zoom 1, a state that satisfies the invariant |
| PdfViewer.Viewer.PrevDisabled | components/lease/PdfViewerModal.tsx:68 | Prev is disabled iff its handler would leave the page unchanged |
| PdfViewer.Viewer.NextDisabled | components/lease/PdfViewerModal.tsx:74 | Next is disabled iff its handler would leave the page unchanged |
| PdfViewer.Viewer.PageText | components/lease/PdfViewerModal.tsx:72 | "Page n of m" shows the current page, and '?' iff the count is unknown |
| PdfViewer.Viewer.HandlePrevPage | components/lease/PdfViewerModal.tsx:31-35 | keeps the invariant (1 ≤ page ≤ max(1, count), count 0 or 19, zoom in [0.5, 2]); the page follows `PrevPage`; nothing else changes |
| PdfViewer.Viewer.HandleNextPage | components/lease/PdfViewerModal.tsx:37-41 | keeps the invariant; the page follows `NextPage` and does not move while the count is unknown; nothing else changes |
| PdfViewer.Viewer.HandleZoomIn | components/lease/PdfViewerModal.tsx:43-47 | keeps the invariant; zoom follows `ZoomIn`; nothing else changes |
| PdfViewer.Viewer.HandleZoomOut | components/lease/PdfViewerModal.tsx:49-53 | keeps the invariant; zoom follows `ZoomOut`; nothing else changes |
| PdfViewer.Viewer.OnLoad | components/lease/PdfViewerModal.tsx:109-113 | keeps the invariant; the count follows `AfterLoad` and never decreases; nothing else changes |

## Left out

- Rendering: JSX, the recharts chart, styling, currency and percentage
  formatting, and the `cn` class helper. These only display values that are
  modelled.
- IEEE-754 doubles. All arithmetic is exact, and zoom is held in integer
  tenths. Repeated `zoom - 0.1` steps in doubles may land just above 0.5,
  which would let one more step reach 0.4. The model does not represent this.
- `toFixed` for magnitudes of 10^21 and above, which switches to
  exponential notation. Such doubles are whole numbers anyway.
- Fractional `years` values. The model takes an integer, and negative
  `years` give an empty array as `Array.from` does.
- LeaseHelpers.CalculateRentForYear: takes a non-negative integer
  `yearIndex`. A negative index would make `Math.pow` a reciprocal power,
  which is infinite at a rate of −100%; the model's numbers have no
  infinities.
- JsNumber.ParseFloat: "Infinity" and "-Infinity" parse to NaN in the
  model, not to ±Infinity, because the model's numbers have no infinities.
  No lease label has this form.
- Date parsing: `new Date(expirationDate)` on free text such as "Sep 2037".
  `CalculateDaysRemaining` takes the parsed instant, or `InvalidDate`, and
  today's time in milliseconds.
- The clock: `new Date()` is replaced by the parameters `today`,
  `currentYear` and `isoNow`.
- html2canvas, jsPDF (`addImage`, `addPage`, `save`), the dynamic imports
  and the toasts. The export plan records what would be passed to them,
  and a Boolean says whether any of them threw.
- ExportPdf.ExportButton.FinishExport: requires a container wider than 0.
  A zero-width element would give an infinite or NaN `pdfHeight`. An
  infinite height would make the paging loop run forever.
- ExportPdf.ExportButton.HandleExport: requires a present container to be
  wider than 0, for the same reason as `FinishExport`, which it runs.
- The async interleaving of `handleExport`. It is split into `BeginExport`,
  which sets the flag, and `FinishExport`, which runs through `finally`.
- Opening the PDF in a new window, and the iframe's actual loading.
- The dialog's open/close callback.

