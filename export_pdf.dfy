/** The PDF export button: the file name, the page geometry, the loop that
    places the captured image on further pages, and the `isExporting` flag. */
module ExportPdf {
  import opened Outcomes
  import opened LeaseTypes
  import opened RealMath
  import opened JsNumber

  /** A4 width in millimetres; every page and the image are this wide. */
  const PdfWidth: real := 210.0
  /** A4 height in millimetres: the first page's cap and the paging step. */
  const PageHeight: real := 297.0

  // ---------------------------------------------------------------- file name

  /** `s.replace(/\s+/g, '_')`: each maximal run of whitespace becomes one `_`. */
  function CollapseWhitespace(s: string): (r: string)
    ensures |r| <= |s|
    ensures r == [] <==> s == []
    decreases |s|
  {
    if s == [] then []
    else if IsJsWhitespace(s[0]) then "_" + CollapseWhitespace(TrimLeadingWhitespace(s[1..]))
    else [s[0]] + CollapseWhitespace(s[1..])
  }

  /** No whitespace survives the replacement. */
  lemma {:induction false} CollapseRemovesWhitespace(s: string)
    ensures forall i :: 0 <= i < |CollapseWhitespace(s)| ==> !IsJsWhitespace(CollapseWhitespace(s)[i])
    decreases |s|
  {
    if s != [] {
      if IsJsWhitespace(s[0]) {
        CollapseRemovesWhitespace(TrimLeadingWhitespace(s[1..]));
      } else {
        CollapseRemovesWhitespace(s[1..]);
      }
    }
  }

  /** A string without whitespace is left as it is. */
  lemma {:induction false} CollapseWithoutWhitespace(s: string)
    requires forall i :: 0 <= i < |s| ==> !IsJsWhitespace(s[i])
    ensures CollapseWhitespace(s) == s
    decreases |s|
  {
    if s != [] {
      CollapseWithoutWhitespace(s[1..]);
    }
  }

  /** Replacing twice is replacing once. */
  lemma CollapseIdempotent(s: string)
    ensures CollapseWhitespace(CollapseWhitespace(s)) == CollapseWhitespace(s)
  {
    CollapseRemovesWhitespace(s);
    CollapseWithoutWhitespace(CollapseWhitespace(s));
  }

  /** Trimming stops inside a prefix that ends in a non-whitespace character. */
  lemma {:induction false} TrimBeforeNonWhitespace(x: string, y: string)
    requires x != [] && !IsJsWhitespace(x[|x| - 1])
    ensures TrimLeadingWhitespace(x + y) == TrimLeadingWhitespace(x) + y
    ensures TrimLeadingWhitespace(x) != []
    decreases |x|
  {
    if IsJsWhitespace(x[0]) {
      assert (x + y)[1..] == x[1..] + y;
      TrimBeforeNonWhitespace(x[1..], y);
    }
  }

  /** A maximal whitespace run at the front becomes exactly one `_`. */
  lemma CollapseRun(w: string, t: string)
    requires w != [] && forall i :: 0 <= i < |w| ==> IsJsWhitespace(w[i])
    requires t == [] || !IsJsWhitespace(t[0])
    ensures CollapseWhitespace(w + t) == "_" + CollapseWhitespace(t)
  {
    var s := w + t;
    assert s[0] == w[0];
    assert s[1..] == w[1..] + t;
    TrimWhitespacePrefix(w[1..], t);
    assert TrimLeadingWhitespace(t) == t;
    assert CollapseWhitespace(s) == "_" + CollapseWhitespace(TrimLeadingWhitespace(s[1..]));
  }

  /** The replacement works piecewise across a cut that does not split a
      whitespace run. */
  lemma {:induction false} CollapseAppend(a: string, b: string)
    requires a == [] || !IsJsWhitespace(a[|a| - 1])
    ensures CollapseWhitespace(a + b) == CollapseWhitespace(a) + CollapseWhitespace(b)
    decreases |a|, 1
  {
    if a == [] {
      assert a + b == b;
    } else if IsJsWhitespace(a[0]) {
      CollapseAppendFromRun(a, b);
    } else {
      var s := a + b;
      assert s[0] == a[0];
      assert s[1..] == a[1..] + b;
      CollapseAppend(a[1..], b);
      assert CollapseWhitespace(s) == [a[0]] + CollapseWhitespace(a[1..] + b);
    }
  }

  /** The case of `CollapseAppend` where `a` opens with whitespace. */
  lemma {:induction false} CollapseAppendFromRun(a: string, b: string)
    requires a != [] && IsJsWhitespace(a[0]) && !IsJsWhitespace(a[|a| - 1])
    ensures CollapseWhitespace(a + b) == CollapseWhitespace(a) + CollapseWhitespace(b)
    decreases |a|, 0
  {
    var s := a + b;
    assert s[0] == a[0];
    assert s[1..] == a[1..] + b;
    TrimBeforeNonWhitespace(a[1..], b);
    var rest := TrimLeadingWhitespace(a[1..]);
    assert rest[|rest| - 1] == a[|a| - 1];
    CollapseAppend(rest, b);
    calc {
      CollapseWhitespace(s);
      "_" + CollapseWhitespace(TrimLeadingWhitespace(s[1..]));
      "_" + CollapseWhitespace(rest + b);
      "_" + (CollapseWhitespace(rest) + CollapseWhitespace(b));
      ("_" + CollapseWhitespace(rest)) + CollapseWhitespace(b);
      CollapseWhitespace(a) + CollapseWhitespace(b);
    }
  }

  /** `new Date().toISOString().split('T')[0]`: everything before the first `T`. */
  function DatePart(iso: string): (d: string)
    ensures |d| <= |iso| && d == iso[..|d|]
    ensures 'T' !in d
    ensures |d| < |iso| ==> iso[|d|] == 'T'
  {
    if iso == [] || iso[0] == 'T' then [] else [iso[0]] + DatePart(iso[1..])
  }

  /** `leaseData?.property?.address || "Property"`: a missing or empty
      address falls back to "Property". */
  function AddressOrDefault(address: Option<string>): (a: string)
    ensures a != []
    ensures address.Some? && address.value != [] ==> a == address.value
    ensures address.None? || address.value == [] ==> a == "Property"
  {
    if address.None? || address.value == [] then "Property" else address.value
  }

  /** The saved file's name: a non-empty address part free of whitespace,
      then "_Lease_Abstract_", the date and ".pdf". */
  function FileName(address: Option<string>, isoNow: string): (name: string)
    ensures var tail := "_Lease_Abstract_" + DatePart(isoNow) + ".pdf";
            && |name| > |tail|
            && name[|name| - |tail|..] == tail
            && forall i :: 0 <= i < |name| - |tail| ==> !IsJsWhitespace(name[i])
  {
    var prefix := CollapseWhitespace(AddressOrDefault(address));
    CollapseRemovesWhitespace(AddressOrDefault(address));
    prefix + ("_Lease_Abstract_" + DatePart(isoNow) + ".pdf")
  }

  /** The lease record declares no address, so every export is named
      "Property_Lease_Abstract_<date>.pdf". */
  function ExportFileName(lease: LeaseData, isoNow: string): (name: string)
    ensures name == "Property_Lease_Abstract_" + DatePart(isoNow) + ".pdf"
  {
    FileNameOfFallback(isoNow);
    FileName(None, isoNow)
  }

  lemma FileNameOfFallback(isoNow: string)
    ensures FileName(None, isoNow) == "Property_Lease_Abstract_" + DatePart(isoNow) + ".pdf"
  {
    var date := DatePart(isoNow);
    assert FileName(None, isoNow) == CollapseWhitespace("Property") + ("_Lease_Abstract_" + date + ".pdf");
    FallbackHasNoWhitespace();
    FallbackNameJoins(date);
  }

  lemma FallbackNameJoins(date: string)
    ensures "Property" + ("_Lease_Abstract_" + date + ".pdf") == "Property_Lease_Abstract_" + date + ".pdf"
  {
    assert "Property" + "_Lease_Abstract_" == "Property_Lease_Abstract_";
  }

  lemma FallbackHasNoWhitespace()
    ensures CollapseWhitespace("Property") == "Property"
  {
    var p := "Property";
    assert forall i :: 0 <= i < |p| ==> 'A' <= p[i] <= 'z';
    CollapseWithoutWhitespace(p);
  }

  /** The address part of the name holds no whitespace; with a timestamp
      free of whitespace the whole name is free of it. */
  lemma FileNameHasNoWhitespace(address: Option<string>, isoNow: string)
    requires forall i :: 0 <= i < |isoNow| ==> !IsJsWhitespace(isoNow[i])
    ensures forall i :: 0 <= i < |FileName(address, isoNow)| ==> !IsJsWhitespace(FileName(address, isoNow)[i])
  {
    CollapseRemovesWhitespace(AddressOrDefault(address));
    var d := DatePart(isoNow);
    assert forall i :: 0 <= i < |d| ==> d[i] == isoNow[i];
  }

  /** The date part of `p + rest`, for `p` without `T` and `rest` opening
      with one, is `p`. */
  lemma {:induction false} DatePartBeforeT(p: string, rest: string)
    requires 'T' !in p
    requires rest != [] && rest[0] == 'T'
    ensures DatePart(p + rest) == p
    decreases |p|
  {
    if p == [] {
      assert p + rest == rest;
    } else {
      assert (p + rest)[1..] == p[1..] + rest;
      assert p[0] in p;
      DatePartBeforeT(p[1..], rest);
    }
  }

  /** An ISO timestamp yields its calendar date. */
  lemma DatePartOfTimestamp()
    ensures DatePart("2026-10-14T09:30:00.000Z") == "2026-10-14"
  {
    var date, time := "2026-10-14", "T09:30:00.000Z";
    assert date + time == "2026-10-14T09:30:00.000Z";
    DatePartBeforeT(date, time);
  }

  /** An address without whitespace is used verbatim. */
  lemma FileNameOfPlainAddress(address: string, isoNow: string)
    requires address != []
    requires forall i :: 0 <= i < |address| ==> !IsJsWhitespace(address[i])
    ensures FileName(Some(address), isoNow) == address + "_Lease_Abstract_" + DatePart(isoNow) + ".pdf"
  {
    CollapseWithoutWhitespace(address);
  }

  // ------------------------------------------------------------ page geometry

  /** `(height * pdfWidth) / width`: the content height scaled to a 210 mm width. */
  function PdfHeight(width: nat, height: nat): (h: real)
    requires width > 0
    ensures h * width as real == height as real * PdfWidth
    ensures h >= 0.0
  {
    (height as real * PdfWidth) / width as real
  }

  /** Only the content's aspect ratio matters. */
  lemma PdfHeightScaleInvariant(width: nat, height: nat, k: nat)
    requires width > 0 && k > 0
    ensures PdfHeight(k * width, k * height) == PdfHeight(width, height)
  {
    var h := PdfHeight(width, height);
    var hk := PdfHeight(k * width, k * height);
    assert hk * (k * width) as real == (k * height) as real * PdfWidth;
    assert (k as real) * (hk * width as real) == (k as real) * (h * width as real);
  }

  datatype Orientation = Portrait | Landscape

  /** `pdfHeight > pdfWidth * 1.414 ? "portrait" : "landscape"`. */
  function OrientationFor(pdfHeight: real): (o: Orientation)
    ensures o == Portrait <==> pdfHeight > 296.94
  {
    if pdfHeight > PdfWidth * 1.414 then Portrait else Landscape
  }

  /** Content taller than 1.414 times its width gives a portrait document. */
  lemma OrientationByAspect(width: nat, height: nat)
    requires width > 0
    ensures OrientationFor(PdfHeight(width, height)) == Portrait <==> height as real > 1.414 * width as real
  {
    var h := PdfHeight(width, height);
    assert h * width as real == height as real * PdfWidth;
    ScaleKeepsOrder(h, 296.94, width as real);
  }

  /** Multiplying by a positive factor keeps a strict comparison. */
  lemma ScaleKeepsOrder(a: real, b: real, c: real)
    requires c > 0.0
    ensures a > b <==> a * c > b * c
  {
    if a > b {
      assert (a - b) * c > 0.0;
    } else {
      assert (b - a) * c >= 0.0;
    }
  }

  /** `format: [pdfWidth, Math.min(pdfHeight, 297)]`. */
  function FirstPageFormat(pdfHeight: real): (f: (real, real))
    ensures f.0 == PdfWidth
    ensures f.1 <= PageHeight && f.1 <= pdfHeight
    ensures f.1 == PageHeight || f.1 == pdfHeight
  {
    (PdfWidth, if pdfHeight < PageHeight then pdfHeight else PageHeight)
  }

  /** The vertical offsets at which the full image is drawn on each page
      after the first: `-currentPosition` for every turn of the loop. */
  method ExtraPageOffsets(pdfHeight: real) returns (offsets: seq<real>)
    ensures forall k :: 0 <= k < |offsets| ==> offsets[k] == -(PageHeight * (k + 1) as real)
    ensures pdfHeight <= PageHeight ==> offsets == []
    ensures pdfHeight > PageHeight ==>
              PageHeight * |offsets| as real < pdfHeight <= PageHeight * (|offsets| + 1) as real
    ensures pdfHeight > 0.0 ==> |offsets| + 1 == Ceil(pdfHeight / PageHeight)
  {
    offsets := [];
    if pdfHeight > PageHeight {
      var remainingHeight := pdfHeight - PageHeight;
      var currentPosition := PageHeight;
      while remainingHeight > 0.0
        invariant currentPosition + remainingHeight == pdfHeight
        invariant currentPosition == PageHeight * (|offsets| + 1) as real
        invariant PageHeight * |offsets| as real < pdfHeight
        invariant forall k :: 0 <= k < |offsets| ==> offsets[k] == -(PageHeight * (k + 1) as real)
        decreases (remainingHeight / PageHeight).Floor
      {
        assert (remainingHeight - PageHeight) / PageHeight == remainingHeight / PageHeight - 1.0;
        offsets := offsets + [-currentPosition];
        currentPosition := currentPosition + PageHeight;
        remainingHeight := remainingHeight - PageHeight;
      }
    }
    if pdfHeight > 0.0 {
      CeilUnique(pdfHeight / PageHeight, |offsets| + 1);
    }
  }

  // ------------------------------------------------------------------ button

  /** The DOM node captured: its layout width and height in CSS pixels. */
  datatype Element = Element(offsetWidth: nat, offsetHeight: nat)

  /** What a successful export produces, short of the pixels. */
  datatype PdfPlan = PdfPlan(
    fileName: string,
    orientation: Orientation,
    firstPage: (real, real),
    imageHeight: real,
    extraPageOffsets: seq<real>)

  datatype ExportOutcome = NoContainer | Exported(plan: PdfPlan) | ExportFailed

  /** The plan `handleExport` builds for a container: the fallback file
      name, the orientation and first page for the scaled height, the image
      at that height, and one further page per 297 mm beyond the first. */
  predicate IsPlanFor(plan: PdfPlan, lease: LeaseData, container: Element, isoNow: string)
    requires container.offsetWidth > 0
  {
    var h := PdfHeight(container.offsetWidth, container.offsetHeight);
    && plan.fileName == ExportFileName(lease, isoNow)
    && plan.orientation == OrientationFor(h)
    && plan.firstPage == FirstPageFormat(h)
    && plan.imageHeight == h
    && |plan.extraPageOffsets| + 1 == (if h > 0.0 then Ceil(h / PageHeight) else 1)
    && forall k :: 0 <= k < |plan.extraPageOffsets| ==>
         plan.extraPageOffsets[k] == -(PageHeight * (k + 1) as real)
  }

  /** The component's one piece of state: `isExporting`. */
  class ExportButton {
    var isExporting: bool

    /** `useState(false)`. */
    constructor ()
      ensures !isExporting
    {
      isExporting := false;
    }

    /** `disabled={isExporting}`. */
    predicate Disabled()
      reads this
      ensures Disabled() <==> isExporting
    {
      isExporting
    }

    /** The caption: "Exporting..." while busy, "Export PDF" otherwise. */
    function Caption(): (c: string)
      reads this
      ensures c == "Exporting..." <==> Disabled()
      ensures c == "Export PDF" <==> !Disabled()
    {
      if isExporting then "Exporting..." else "Export PDF"
    }

    /** The synchronous start of `handleExport`: without a container it stops
        and nothing changes; otherwise the button becomes busy. */
    method BeginExport(container: Option<Element>) returns (started: bool)
      modifies this
      ensures started <==> container.Some?
      ensures started ==> isExporting && Disabled()
      ensures !started ==> isExporting == old(isExporting)
    {
      if container.None? {
        return false;
      }
      isExporting := true;
      started := true;
    }

    /** The rest of `handleExport`, from the capture to `finally`. The
        capture and the PDF library are outside the model: `captureFails`
        says whether any of them threw. Either way the button is released. */
    method FinishExport(lease: LeaseData, container: Element, isoNow: string, captureFails: bool)
      returns (outcome: ExportOutcome)
      requires container.offsetWidth > 0
      modifies this
      ensures !isExporting
      ensures captureFails ==> outcome == ExportFailed
      ensures !captureFails ==> outcome.Exported?
      ensures outcome.Exported? ==> IsPlanFor(outcome.plan, lease, container, isoNow)
    {
      if captureFails {
        outcome := ExportFailed;
      } else {
        var fileName := ExportFileName(lease, isoNow);
        var pdfHeight := PdfHeight(container.offsetWidth, container.offsetHeight);
        var offsets := ExtraPageOffsets(pdfHeight);
        outcome := Exported(PdfPlan(fileName, OrientationFor(pdfHeight), FirstPageFormat(pdfHeight), pdfHeight, offsets));
      }
      isExporting := false;
    }

    /** The whole click handler. */
    method HandleExport(lease: LeaseData, container: Option<Element>, isoNow: string, captureFails: bool)
      returns (outcome: ExportOutcome)
      requires container.Some? ==> container.value.offsetWidth > 0
      modifies this
      ensures container.None? ==> outcome == NoContainer && isExporting == old(isExporting)
      ensures container.Some? ==> !isExporting && (outcome == ExportFailed <==> captureFails)
      ensures container.Some? && !captureFails ==>
                outcome.Exported? && IsPlanFor(outcome.plan, lease, container.value, isoNow)
    {
      var started := BeginExport(container);
      if !started {
        return NoContainer;
      }
      outcome := FinishExport(lease, container.value, isoNow, captureFails);
    }
  }
}
