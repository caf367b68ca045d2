/**
  The "Download PDF" button. The rendered résumé is one tall image; it is cut
  into A4 pages by placing the same image on every page, shifted up by one
  page height per page. The hyperlinks measured in the page before capture
  are then scaled into millimetres and re-attached to the page they fall on.

  Lengths are real numbers in millimetres (the PDF's unit); screen pixels are
  converted by `scale`, the PDF width divided by the element's width.
 */
module PdfExport {
  import opened Text
  import opened Wrappers

  /**
    Width and height of a portrait A4 page, rounded to whole millimetres. The
    library's own "a4" size is 595.28 by 841.89 points, a few thousandths of a
    millimetre more; the model uses the rounded values.
   */
  const PageWidth: real := 210.0
  const PageHeight: real := 297.0

  /** The message shown when rendering or building the PDF throws. */
  const FailureAlert: String := "Failed to generate PDF. Please try again."

  /** A hyperlink's box relative to the top-left corner of the résumé, in screen pixels or, once scaled, millimetres. */
  datatype LinkBox = LinkBox(x: real, y: real, width: real, height: real, href: String)

  /** A clickable area on one page of the PDF (1-based page), in millimetres. */
  datatype Annotation = Annotation(page: int, x: real, y: real, width: real, height: real, url: String)

  /**
    The generated document: every page shows the image, `imageWidth` by
    `imageHeight`, with its top edge at `imageY[k]` on page `k + 1`.
   */
  datatype PdfDoc = PdfDoc(imageWidth: real, imageHeight: real, imageY: seq<real>, annotations: seq<Annotation>)

  // ---------------------------------------------------------------------------
  // Page count

  /**
    `n` pages are exactly enough for content `contentHeight` tall: they cover
    it, and (beyond the first page, which always exists) one page fewer would not.
   */
  predicate IsPageCount(n: int, contentHeight: real) {
    n >= 1 && n as real * PageHeight >= contentHeight && (n == 1 || (n - 1) as real * PageHeight < contentHeight)
  }

  /** The least integer not below `x`. */
  function Ceiling(x: real): (r: int)
    ensures (r - 1) as real < x <= r as real
  {
    -((-x).Floor)
  }

  /** The page count is determined by the content height. */
  lemma PageCountUnique(n: int, m: int, contentHeight: real)
    requires IsPageCount(n, contentHeight) && IsPageCount(m, contentHeight)
    ensures n == m
  {
  }

  /** For content of positive height the page count is the height in pages, rounded up. */
  lemma PageCountIsCeiling(n: int, contentHeight: real)
    requires contentHeight > 0.0
    requires IsPageCount(n, contentHeight)
    ensures n == Ceiling(contentHeight / PageHeight)
  {
  }

  /** Content no taller than one page gives a one-page document. */
  lemma ShortContentIsOnePage(contentHeight: real)
    requires contentHeight <= PageHeight
    ensures IsPageCount(1, contentHeight)
  {
  }

  /**
    The pagination loop: the first page shows the image at the top, and each
    further page is added while uncovered height remains, showing the image
    shifted up by the height already covered.
   */
  method Paginate(pdfHeight: real) returns (imageY: seq<real>)
    ensures IsPageCount(|imageY|, pdfHeight)
    ensures forall k :: 0 <= k < |imageY| ==> imageY[k] == -(k as real * PageHeight)
  {
    var heightLeft := pdfHeight;
    var position := 0.0;
    var page := 1;
    imageY := [position];
    heightLeft := heightLeft - PageHeight;
    while heightLeft > 0.0
      invariant page == |imageY| && page >= 1
      invariant heightLeft == pdfHeight - page as real * PageHeight
      invariant page == 1 || (page - 1) as real * PageHeight < pdfHeight
      invariant forall k :: 0 <= k < page ==> imageY[k] == -(k as real * PageHeight)
      decreases (heightLeft / PageHeight).Floor
    {
      position := heightLeft - pdfHeight;
      page := page + 1;
      imageY := imageY + [position];
      heightLeft := heightLeft - PageHeight;
    }
  }

  // ---------------------------------------------------------------------------
  // Link placement

  /** Rounding toward zero. */
  function Trunc(x: real): (r: int)
    ensures x >= 0.0 ==> r as real <= x < r as real + 1.0
    ensures x < 0.0 ==> r as real - 1.0 < x <= r as real
  {
    if x >= 0.0 then x.Floor else -((-x).Floor)
  }

  /** The 1-based page on which a point `linkY` millimetres below the top of the résumé falls. */
  function LinkPage(linkY: real): (r: int)
    ensures (r - 1) as real * PageHeight <= linkY < r as real * PageHeight
  {
    (linkY / PageHeight).Floor + 1
  }

  /**
    The point's distance below the top of its page: JavaScript's `%` by the
    page height, the remainder of the quotient rounded toward zero, so it has
    the sign of `linkY`.
   */
  function LinkYOnPage(linkY: real): (r: real)
    ensures linkY >= 0.0 ==> 0.0 <= r < PageHeight && linkY == (LinkPage(linkY) - 1) as real * PageHeight + r
    ensures linkY < 0.0 ==> -PageHeight < r <= 0.0
  {
    linkY - PageHeight * Trunc(linkY / PageHeight) as real
  }

  /**
    A point at or below the top of the résumé lands on page 1 or later, at an
    offset inside that page, and page and offset together give back its position.
   */
  lemma LinkPlacement(linkY: real)
    requires linkY >= 0.0
    ensures LinkPage(linkY) >= 1
    ensures 0.0 <= LinkYOnPage(linkY) < PageHeight
    ensures linkY == (LinkPage(linkY) - 1) as real * PageHeight + LinkYOnPage(linkY)
  {
  }

  /** Any page and in-page offset that give back the position are the ones computed. */
  lemma LinkPlacementUnique(linkY: real, page: int, offset: real)
    requires linkY >= 0.0
    requires 0.0 <= offset < PageHeight
    requires linkY == (page - 1) as real * PageHeight + offset
    ensures page == LinkPage(linkY) && offset == LinkYOnPage(linkY)
  {
  }

  /** A point exactly on a page boundary starts the next page. */
  lemma LinkOnBoundary(k: nat)
    ensures LinkPage(k as real * PageHeight) == k + 1
    ensures LinkYOnPage(k as real * PageHeight) == 0.0
  {
    LinkPlacementUnique(k as real * PageHeight, k + 1, 0.0);
  }

  /** A point above the top of the résumé gets a page before page 1 and a negative or zero offset. */
  lemma LinkAboveContent(linkY: real)
    requires -PageHeight <= linkY < 0.0
    ensures LinkPage(linkY) == 0
    ensures -PageHeight < LinkYOnPage(linkY) <= 0.0
  {
  }

  /** A measured box converted from pixels to millimetres: every coordinate is multiplied by `scale`. */
  function ToMillimetres(link: LinkBox, scale: real): (r: LinkBox)
    ensures r.href == link.href
    ensures scale >= 0.0 && link.y >= 0.0 ==> r.y >= 0.0
    ensures scale == 1.0 ==> r == link
  {
    LinkBox(link.x * scale, link.y * scale, link.width * scale, link.height * scale, link.href)
  }

  /** The annotation for a box in millimetres: its page and its offset on that page; the rest is kept. */
  function Place(box: LinkBox): (a: Annotation)
    ensures a.x == box.x && a.width == box.width && a.height == box.height && a.url == box.href
    ensures box.y >= 0.0 ==> 1 <= a.page && 0.0 <= a.y < PageHeight && box.y == (a.page - 1) as real * PageHeight + a.y
    ensures box.y < 0.0 ==> a.page <= 0 && -PageHeight < a.y <= 0.0
  {
    Annotation(LinkPage(box.y), box.x, LinkYOnPage(box.y), box.width, box.height, box.href)
  }

  /** The annotations the link pass emits for one link: it is kept only on an existing page. */
  function Emit(link: LinkBox, scale: real, pageCount: int): (r: seq<Annotation>)
    ensures |r| <= 1
    ensures |r| == 1 <==> LinkPage(ToMillimetres(link, scale).y) <= pageCount
    ensures |r| == 1 ==> r[0] == Place(ToMillimetres(link, scale))
  {
    var a := Place(ToMillimetres(link, scale));
    if a.page <= pageCount then [a] else []
  }

  /** The annotations the link pass emits, in link order. */
  function RemapAll(links: seq<LinkBox>, scale: real, pageCount: int): (r: seq<Annotation>)
    ensures |r| <= |links|
    ensures forall k :: 0 <= k < |r| ==> r[k].page <= pageCount
  {
    if links == [] then []
    else RemapAll(links[..|links| - 1], scale, pageCount) + Emit(links[|links| - 1], scale, pageCount)
  }

  /** The link pass over the captured links. */
  method AddLinks(links: seq<LinkBox>, scale: real, pageCount: int) returns (annotations: seq<Annotation>)
    ensures annotations == RemapAll(links, scale, pageCount)
  {
    annotations := [];
    for i := 0 to |links|
      invariant annotations == RemapAll(links[..i], scale, pageCount)
    {
      assert links[..i + 1][..i] == links[..i];
      var link := links[i];
      var linkX := link.x * scale;
      var linkY := link.y * scale;
      var linkWidth := link.width * scale;
      var linkHeight := link.height * scale;
      var linkPage := LinkPage(linkY);
      var linkYOnPage := LinkYOnPage(linkY);
      assert ToMillimetres(link, scale) == LinkBox(linkX, linkY, linkWidth, linkHeight, link.href);
      assert RemapAll(links[..i + 1], scale, pageCount) == RemapAll(links[..i], scale, pageCount) + Emit(link, scale, pageCount);
      if linkPage <= pageCount {
        annotations := annotations + [Annotation(linkPage, linkX, linkYOnPage, linkWidth, linkHeight, link.href)];
      }
    }
    assert links[..|links|] == links;
  }

  /** A link measured at or below the top of the résumé. */
  predicate InsideContent(link: LinkBox) {
    link.y >= 0.0
  }

  /** Scaling by a non-negative factor keeps a link inside the content. */
  lemma ScaledInsideContent(link: LinkBox, scale: real)
    requires InsideContent(link) && scale >= 0.0
    ensures InsideContent(ToMillimetres(link, scale))
  {
  }

  /**
    With a non-negative scale and links inside the content, every annotation
    is on an existing page and starts inside that page.
   */
  lemma {:induction false} AnnotationsOnPages(links: seq<LinkBox>, scale: real, pageCount: int)
    requires scale >= 0.0
    requires forall k :: 0 <= k < |links| ==> InsideContent(links[k])
    ensures forall a :: a in RemapAll(links, scale, pageCount) ==> 1 <= a.page <= pageCount && 0.0 <= a.y < PageHeight
  {
    if links != [] {
      var init := links[..|links| - 1];
      var last := links[|links| - 1];
      assert forall k :: 0 <= k < |init| ==> init[k] == links[k];
      AnnotationsOnPages(init, scale, pageCount);
      ScaledInsideContent(last, scale);
      LinkPlacement(ToMillimetres(last, scale).y);
    }
  }

  /** The number of annotations on `page`. */
  function AnnotationsOn(annotations: seq<Annotation>, page: int): nat {
    if annotations == [] then 0
    else AnnotationsOn(annotations[..|annotations| - 1], page) + (if annotations[|annotations| - 1].page == page then 1 else 0)
  }

  /** The number of links whose scaled position falls on `page`. */
  function LinksOn(links: seq<LinkBox>, scale: real, page: int): nat {
    if links == [] then 0
    else LinksOn(links[..|links| - 1], scale, page) + (if LinkPage(ToMillimetres(links[|links| - 1], scale).y) == page then 1 else 0)
  }

  lemma {:induction false} AnnotationsOnAppend(a: seq<Annotation>, b: seq<Annotation>, page: int)
    ensures AnnotationsOn(a + b, page) == AnnotationsOn(a, page) + AnnotationsOn(b, page)
    decreases |b|
  {
    if b == [] {
      assert a + b == a;
    } else {
      assert (a + b)[..|a + b| - 1] == a + b[..|b| - 1];
      AnnotationsOnAppend(a, b[..|b| - 1], page);
    }
  }

  /**
    Every generated page gets one annotation per link that falls on it, and a
    page beyond the document gets none: links below the last page are dropped.
   */
  lemma {:induction false} AnnotationsPerPage(links: seq<LinkBox>, scale: real, pageCount: int, page: int)
    ensures AnnotationsOn(RemapAll(links, scale, pageCount), page)
         == if page <= pageCount then LinksOn(links, scale, page) else 0
  {
    if links != [] {
      var init := links[..|links| - 1];
      var last := links[|links| - 1];
      AnnotationsPerPage(init, scale, pageCount, page);
      var e := Emit(last, scale, pageCount);
      AnnotationsOnAppend(RemapAll(init, scale, pageCount), e, page);
      if e != [] {
        assert e[..0] == [];
      }
    }
  }

  /** A link whose scaled top lies inside the captured image falls on a generated page. */
  lemma LinkInsideImageIsKept(link: LinkBox, scale: real, pdfHeight: real, pageCount: int)
    requires IsPageCount(pageCount, pdfHeight)
    requires 0.0 <= ToMillimetres(link, scale).y < pdfHeight
    ensures 1 <= LinkPage(ToMillimetres(link, scale).y) <= pageCount
    ensures Emit(link, scale, pageCount) == [Place(ToMillimetres(link, scale))]
  {
  }

  /** A link whose scaled top lies at or below the end of the last page is dropped. */
  lemma LinkBelowLastPageIsDropped(link: LinkBox, scale: real, pageCount: int)
    requires ToMillimetres(link, scale).y >= pageCount as real * PageHeight
    ensures LinkPage(ToMillimetres(link, scale).y) > pageCount
    ensures Emit(link, scale, pageCount) == []
  {
  }

  /**
    For a document paginated for an image `pdfHeight` tall, every link whose
    scaled top lies inside the image is annotated, in order: only links beyond
    the captured image can be dropped.
   */
  lemma LinksInsideImageAreKept(links: seq<LinkBox>, scale: real, pdfHeight: real, pageCount: int)
    requires IsPageCount(pageCount, pdfHeight)
    requires forall k :: 0 <= k < |links| ==> 0.0 <= ToMillimetres(links[k], scale).y < pdfHeight
    ensures |RemapAll(links, scale, pageCount)| == |links|
    ensures forall k :: 0 <= k < |links| ==> RemapAll(links, scale, pageCount)[k] == Place(ToMillimetres(links[k], scale))
  {
    forall k | 0 <= k < |links| ensures LinkPage(ToMillimetres(links[k], scale).y) <= pageCount {
      LinkInsideImageIsKept(links[k], scale, pdfHeight, pageCount);
    }
    NoLinkDropped(links, scale, pageCount);
  }

  /** When every link falls on a generated page, none is dropped and they keep their order. */
  lemma {:induction false} NoLinkDropped(links: seq<LinkBox>, scale: real, pageCount: int)
    requires forall k :: 0 <= k < |links| ==> LinkPage(ToMillimetres(links[k], scale).y) <= pageCount
    ensures |RemapAll(links, scale, pageCount)| == |links|
    ensures forall k :: 0 <= k < |links| ==> RemapAll(links, scale, pageCount)[k] == Place(ToMillimetres(links[k], scale))
  {
    if links != [] {
      var init := links[..|links| - 1];
      assert forall k :: 0 <= k < |init| ==> init[k] == links[k];
      NoLinkDropped(init, scale, pageCount);
    }
  }

  /** A link 1000 pixels down at half scale lands 203 mm down page 2. */
  lemma HalfScaleExample()
    ensures Place(ToMillimetres(LinkBox(40.0, 1000.0, 100.0, 20.0, "https://example.com"), 0.5))
         == Annotation(2, 20.0, 203.0, 50.0, 10.0, "https://example.com")
  {
    LinkPlacementUnique(500.0, 2, 203.0);
  }

  // ---------------------------------------------------------------------------
  // The button

  /** What the page provides when the button is pressed: the measured links and the pixel-to-millimetre scale. */
  datatype Target = Target(links: seq<LinkBox>, scale: real)

  /** The outcome of rendering the résumé to an image and building the PDF around it. */
  datatype Capture = Rendered(pdfHeight: real) | RenderFailed

  /** How a press ended. */
  datatype Outcome = TargetMissing | Failed | Saved(doc: PdfDoc)

  /** A document handed to the browser as a download. */
  datatype SavedFile = SavedFile(name: String, doc: PdfDoc)

  class DownloadButton {
    /** True while a PDF is being generated; the button is disabled meanwhile. */
    var isGenerating: bool
    /** The downloads this button has produced. */
    var savedFiles: seq<SavedFile>
    /** The alerts this button has shown. */
    var alerts: seq<String>

    constructor()
      ensures !isGenerating && savedFiles == [] && alerts == []
    {
      isGenerating := false;
      savedFiles := [];
      alerts := [];
    }

    /**
      The click handler. A missing résumé element ends the press quietly; a
      failed render shows the failure alert; otherwise the paginated document
      with its link annotations is saved as `<fileName>.pdf`. Every path
      leaves the button enabled again.
     */
    method HandleDownload(target: Option<Target>, capture: Capture, fileName: String) returns (outcome: Outcome)
      modifies this
      ensures !isGenerating
      ensures target.None? ==> outcome == TargetMissing && savedFiles == old(savedFiles) && alerts == old(alerts)
      ensures target.Some? && capture.RenderFailed? ==>
                outcome == Failed && savedFiles == old(savedFiles) && alerts == old(alerts) + [FailureAlert]
      ensures target.Some? && capture.Rendered? ==>
                && outcome.Saved?
                && outcome.doc.imageWidth == PageWidth
                && outcome.doc.imageHeight == capture.pdfHeight
                && IsPageCount(|outcome.doc.imageY|, capture.pdfHeight)
                && (forall k :: 0 <= k < |outcome.doc.imageY| ==> outcome.doc.imageY[k] == -(k as real * PageHeight))
                && outcome.doc.annotations == RemapAll(target.value.links, target.value.scale, |outcome.doc.imageY|)
                && savedFiles == old(savedFiles) + [SavedFile(fileName + ".pdf", outcome.doc)]
                && alerts == old(alerts)
    {
      isGenerating := true;
      if target.None? {
        outcome := TargetMissing;
      } else {
        var links := target.value.links;
        match capture {
          case RenderFailed =>
            alerts := alerts + [FailureAlert];
            outcome := Failed;
          case Rendered(pdfHeight) =>
            var imageY := Paginate(pdfHeight);
            var annotations := AddLinks(links, target.value.scale, |imageY|);
            var doc := PdfDoc(PageWidth, pdfHeight, imageY, annotations);
            savedFiles := savedFiles + [SavedFile(fileName + ".pdf", doc)];
            outcome := Saved(doc);
        }
      }
      isGenerating := false;
    }
  }

  /**
    A résumé three pages tall with one link near the top and one on the third
    page: three pages are generated and each link is annotated on its own page.
   */
  lemma ThreePageScenario()
    ensures IsPageCount(3, 891.0)
    ensures RemapAll([LinkBox(10.0, 100.0, 50.0, 5.0, "a"), LinkBox(10.0, 700.0, 50.0, 5.0, "b")], 1.0, 3)
         == [Annotation(1, 10.0, 100.0, 50.0, 5.0, "a"), Annotation(3, 10.0, 106.0, 50.0, 5.0, "b")]
  {
    var links := [LinkBox(10.0, 100.0, 50.0, 5.0, "a"), LinkBox(10.0, 700.0, 50.0, 5.0, "b")];
    assert links[..1] == [links[0]];
    assert [links[0]][..0] == [];
    LinkPlacementUnique(100.0, 1, 100.0);
    LinkPlacementUnique(700.0, 3, 106.0);
  }
}
