/** The PDF viewer dialog: page navigation and zoom, with the page count
    filled in when the embedded document reports that it has loaded. Zoom
    is held in tenths, so the factor 1 is 10 and a step of 0.1 is 1. */
module PdfViewer {

  /** The page count the `onLoad` handler fills in. */
  const LoadedPageCount: int := 19
  /** `zoom > 0.5` guards zooming out, `zoom < 2` guards zooming in. */
  const MinZoomTenths: int := 5
  const MaxZoomTenths: int := 20
  /** `useState(1)`. */
  const InitialZoomTenths: int := 10

  function Max(a: int, b: int): int
  {
    if a < b then b else a
  }

  /** `handlePrevPage`: step back unless on the first page. */
  function PrevPage(currentPage: int): (p: int)
    ensures p == currentPage - 1 <==> currentPage > 1
    ensures p == currentPage <==> currentPage <= 1
  {
    if currentPage > 1 then currentPage - 1 else currentPage
  }

  /** `handleNextPage`: step forward unless on the last known page. */
  function NextPage(currentPage: int, totalPages: int): (p: int)
    ensures p == currentPage + 1 <==> currentPage < totalPages
    ensures p == currentPage <==> currentPage >= totalPages
  {
    if currentPage < totalPages then currentPage + 1 else currentPage
  }

  /** `handleZoomIn`: one tenth up while below 2. */
  function ZoomIn(zoomTenths: int): (z: int)
    ensures zoomTenths <= MaxZoomTenths ==> z <= MaxZoomTenths
    ensures z == zoomTenths + 1 <==> zoomTenths < MaxZoomTenths
    ensures z == zoomTenths <==> zoomTenths >= MaxZoomTenths
  {
    if zoomTenths < MaxZoomTenths then zoomTenths + 1 else zoomTenths
  }

  /** `handleZoomOut`: one tenth down while above 0.5. */
  function ZoomOut(zoomTenths: int): (z: int)
    ensures zoomTenths >= MinZoomTenths ==> z >= MinZoomTenths
    ensures z == zoomTenths - 1 <==> zoomTenths > MinZoomTenths
    ensures z == zoomTenths <==> zoomTenths <= MinZoomTenths
  {
    if zoomTenths > MinZoomTenths then zoomTenths - 1 else zoomTenths
  }

  /** The iframe's `onLoad`: set the page count once, when it is still unknown. */
  function AfterLoad(totalPages: int): (t: int)
    ensures totalPages == 0 ==> t == LoadedPageCount
    ensures totalPages != 0 ==> t == totalPages
  {
    if totalPages == 0 then LoadedPageCount else totalPages
  }

  /** Zooming in and then out, when both are allowed, restores the zoom;
      so does zooming out and then in. */
  lemma ZoomRoundTrip(zoomTenths: int)
    ensures MinZoomTenths <= zoomTenths < MaxZoomTenths ==> ZoomOut(ZoomIn(zoomTenths)) == zoomTenths
    ensures MinZoomTenths < zoomTenths <= MaxZoomTenths ==> ZoomIn(ZoomOut(zoomTenths)) == zoomTenths
  {
  }

  /** A second load changes nothing, and loading never lowers the count. */
  lemma AfterLoadIdempotent(totalPages: int)
    requires totalPages >= 0
    ensures AfterLoad(AfterLoad(totalPages)) == AfterLoad(totalPages)
    ensures AfterLoad(totalPages) >= totalPages
  {
  }

  /** `Math.round(zoom * 100)` for the zoom held in tenths. */
  function ZoomPercent(zoomTenths: int): (percent: int)
    ensures percent == 10 * zoomTenths
  {
    var scaled := (zoomTenths as real / 10.0) * 100.0;
    assert scaled == (10 * zoomTenths) as real;
    (scaled + 0.5).Floor
  }

  /** `{totalPages || '?'}`. */
  datatype PageCountLabel = Known(pages: int) | Unknown

  function PageCountLabelFor(totalPages: int): (l: PageCountLabel)
    ensures l == Unknown <==> totalPages == 0
    ensures l.Known? ==> l.pages == totalPages
  {
    if totalPages == 0 then Unknown else Known(totalPages)
  }

  /** The dialog's three state fields. */
  class Viewer {
    var currentPage: int
    var totalPages: int
    var zoomTenths: int

    /** The bounds every handler keeps: a page between 1 and the known page
        count (1 while unknown), a count that is unknown or the loaded one,
        and a zoom between 0.5 and 2. */
    predicate Valid()
      reads this
    {
      && 1 <= currentPage <= Max(1, totalPages)
      && (totalPages == 0 || totalPages == LoadedPageCount)
      && MinZoomTenths <= zoomTenths <= MaxZoomTenths
    }

    /** Page 1 of an unknown count, at zoom 1. */
    constructor ()
      ensures Valid()
      ensures currentPage == 1 && totalPages == 0 && zoomTenths == InitialZoomTenths
    {
      currentPage := 1;
      totalPages := 0;
      zoomTenths := InitialZoomTenths;
    }

    /** `disabled={currentPage <= 1}`: exactly when the handler would
        leave the page where it is. */
    predicate PrevDisabled()
      reads this
      ensures PrevDisabled() <==> PrevPage(currentPage) == currentPage
    {
      currentPage <= 1
    }

    /** `disabled={currentPage >= totalPages}`: exactly when the handler
        would leave the page where it is. */
    predicate NextDisabled()
      reads this
      ensures NextDisabled() <==> NextPage(currentPage, totalPages) == currentPage
    {
      currentPage >= totalPages
    }

    /** The text shown as "Page n of m". */
    function PageText(): (r: (int, PageCountLabel))
      reads this
      ensures r.0 == currentPage
      ensures r.1 == Unknown <==> totalPages == 0
    {
      (currentPage, PageCountLabelFor(totalPages))
    }

    method HandlePrevPage()
      requires Valid()
      modifies this
      ensures Valid()
      ensures currentPage == PrevPage(old(currentPage))
      ensures totalPages == old(totalPages) && zoomTenths == old(zoomTenths)
    {
      if currentPage > 1 {
        currentPage := currentPage - 1;
      }
    }

    method HandleNextPage()
      requires Valid()
      modifies this
      ensures Valid()
      ensures currentPage == NextPage(old(currentPage), old(totalPages))
      ensures old(totalPages) == 0 ==> currentPage == old(currentPage)
      ensures totalPages == old(totalPages) && zoomTenths == old(zoomTenths)
    {
      if currentPage < totalPages {
        currentPage := currentPage + 1;
      }
    }

    method HandleZoomIn()
      requires Valid()
      modifies this
      ensures Valid()
      ensures zoomTenths == ZoomIn(old(zoomTenths))
      ensures currentPage == old(currentPage) && totalPages == old(totalPages)
    {
      if zoomTenths < MaxZoomTenths {
        zoomTenths := zoomTenths + 1;
      }
    }

    method HandleZoomOut()
      requires Valid()
      modifies this
      ensures Valid()
      ensures zoomTenths == ZoomOut(old(zoomTenths))
      ensures currentPage == old(currentPage) && totalPages == old(totalPages)
    {
      if zoomTenths > MinZoomTenths {
        zoomTenths := zoomTenths - 1;
      }
    }

    /** The iframe's `onLoad` callback. */
    method OnLoad()
      requires Valid()
      modifies this
      ensures Valid()
      ensures totalPages == AfterLoad(old(totalPages))
      ensures totalPages >= old(totalPages)
      ensures currentPage == old(currentPage) && zoomTenths == old(zoomTenths)
    {
      if totalPages == 0 {
        totalPages := LoadedPageCount;
      }
    }
  }
}
