/**
 * PDF export (App.tsx): the branch between a one-page and a multi-page
 * document in `handleDownloadPdf`, the loop that cuts the rendered canvas
 * into page-high slices, and the `loading` flag around `handleExport`.
 *
 * The jsPDF document is modelled by the calls it receives. Millimetre
 * quantities are exact `real`s; canvas sizes are `nat`s because the canvas
 * `width` and `height` attributes are `unsigned long`s in the HTML standard.
 */
module PdfExport {

  /** Rows `[top, top + rows)` of the rendered canvas, as copied onto one page canvas. */
  datatype Slice = Slice(top: nat, rows: nat)

  /** What an `addImage` call draws: the whole rendered canvas, or one page canvas. */
  datatype ImageSource = WholeCanvas | PageCanvas(slice: Slice)

  /** One call on the jsPDF document. */
  datatype PdfCall =
    | Image(source: ImageSource, x: real, y: real, width: real, height: real)
    | NewPage
    | Saved(fileName: string)

  /** The jsPDF document: the calls made on it so far, in order. */
  class PdfDocument {
    var calls: seq<PdfCall>

    constructor ()
      ensures calls == []
    {
      calls := [];
    }

    method AddImage(source: ImageSource, x: real, y: real, width: real, height: real)
      modifies this
      ensures calls == old(calls) + [Image(source, x, y, width, height)]
    {
      calls := calls + [Image(source, x, y, width, height)];
    }

    method AddPage()
      modifies this
      ensures calls == old(calls) + [NewPage]
    {
      calls := calls + [NewPage];
    }

    method Save(fileName: string)
      modifies this
      ensures calls == old(calls) + [Saved(fileName)]
    {
      calls := calls + [Saved(fileName)];
    }
  }

  function Min(a: nat, b: nat): nat {
    if a <= b then a else b
  }

  function RealMin(a: real, b: real): real {
    if a <= b then a else b
  }

  /** Assigning a non-negative number to a canvas `height` stores its integer part. */
  function CanvasHeight(x: real): (r: nat)
    requires 0.0 <= x
    ensures r as real <= x < r as real + 1.0
  {
    x.Floor
  }

  /** `widthInPdf / (imgWidth / imgHeight)`: the height of the whole image scaled to the page width. */
  function HeightInPdf(pdfWidth: real, imgWidth: nat, imgHeight: nat): real
    requires imgWidth > 0
  {
    pdfWidth * imgHeight as real / imgWidth as real
  }

  /** `(pdfHeight * imgWidth) / pdfWidth`: the canvas rows one page holds, before truncation. */
  function SliceHeight(pdfWidth: real, pdfHeight: real, imgWidth: nat): real
    requires pdfWidth > 0.0 && pdfHeight > 0.0
  {
    pdfHeight * imgWidth as real / pdfWidth
  }

  /** `(pageCanvas.height * pdfWidth) / imgWidth`: the height a slice of `rows` rows takes on its page. */
  function PlacedHeight(rows: nat, pdfWidth: real, imgWidth: nat): real
    requires imgWidth > 0
  {
    rows as real * pdfWidth / imgWidth as real
  }

  /**
   * What the model of the export assumes: a canvas at least one pixel wide and
   * a page at least one canvas row high. A4 portrait with any canvas at least
   * one pixel wide meets it. On a page under one row, a canvas with at least
   * one row makes the source loop forever (`ShortPageStoresNoRows`); a canvas
   * with no rows, and a 0 x 0 canvas, still end with a save, and are outside
   * this model.
   */
  ghost predicate ValidExport(pdfWidth: real, pdfHeight: real, imgWidth: nat) {
    imgWidth > 0 && pdfWidth > 0.0 && pdfHeight > 0.0 && pdfHeight * imgWidth as real >= pdfWidth
  }

  /** The rows a full page slice holds: `sliceHeight` truncated by the canvas. */
  function Step(pdfWidth: real, pdfHeight: real, imgWidth: nat): (s: nat)
    requires ValidExport(pdfWidth, pdfHeight, imgWidth)
    ensures s >= 1
    ensures s as real <= SliceHeight(pdfWidth, pdfHeight, imgWidth) < s as real + 1.0
  {
    var sh := SliceHeight(pdfWidth, pdfHeight, imgWidth);
    assert sh >= 1.0 by {
      assert pdfHeight * imgWidth as real / pdfWidth >= pdfWidth / pdfWidth;
    }
    CanvasHeight(sh)
  }

  /** The slices the loop cuts when it starts at `position` with `remaining` rows left. */
  function Slices(position: nat, remaining: nat, step: nat): (r: seq<Slice>)
    requires step >= 1
    decreases remaining
  {
    if remaining == 0 then []
    else
      var h := Min(step, remaining);
      [Slice(position, h)] + Slices(position + h, remaining - h, step)
  }

  /** The `addImage` call for one page slice, placed at the top left and filling the page width. */
  function SliceImage(s: Slice, pdfWidth: real, imgWidth: nat): PdfCall
    requires imgWidth > 0
  {
    Image(PageCanvas(s), 0.0, 0.0, pdfWidth, PlacedHeight(s.rows, pdfWidth, imgWidth))
  }

  /** One `addImage` per slice, with an `addPage` after every slice but the last. */
  function PageCalls(slices: seq<Slice>, pdfWidth: real, imgWidth: nat): seq<PdfCall>
    requires imgWidth > 0
  {
    if slices == [] then []
    else
      [SliceImage(slices[0], pdfWidth, imgWidth)]
      + (if |slices| == 1 then [] else [NewPage] + PageCalls(slices[1..], pdfWidth, imgWidth))
  }

  /** Everything `handleDownloadPdf` does to a fresh document, `save` included. */
  function ExportCalls(pdfWidth: real, pdfHeight: real, imgWidth: nat, imgHeight: nat): seq<PdfCall>
    requires ValidExport(pdfWidth, pdfHeight, imgWidth)
  {
    var heightInPdf := HeightInPdf(pdfWidth, imgWidth, imgHeight);
    (if heightInPdf <= pdfHeight
     then [Image(WholeCanvas, 0.0, 0.0, pdfWidth, heightInPdf)]
     else PageCalls(Slices(0, imgHeight, Step(pdfWidth, pdfHeight, imgWidth)), pdfWidth, imgWidth))
    + [Saved("resume.pdf")]
  }

  /** The page canvas height the loop stores is the full step or, on the last page, the rows left. */
  lemma CanvasHeightIsMin(pdfWidth: real, pdfHeight: real, imgWidth: nat, remaining: nat)
    requires ValidExport(pdfWidth, pdfHeight, imgWidth)
    ensures CanvasHeight(RealMin(SliceHeight(pdfWidth, pdfHeight, imgWidth), remaining as real))
            == Min(Step(pdfWidth, pdfHeight, imgWidth), remaining)
  {
    var sh := SliceHeight(pdfWidth, pdfHeight, imgWidth);
    var s := Step(pdfWidth, pdfHeight, imgWidth);
    var h := CanvasHeight(RealMin(sh, remaining as real));
    if sh <= remaining as real {
      assert h == s;
    } else {
      assert remaining < s + 1;
    }
  }

  /**
   * On a page under one canvas row high, a canvas with at least one row fails
   * the single-page test, and every pass of the loop stores a page canvas of
   * height 0, so `remainingHeight` never falls.
   */
  lemma ShortPageStoresNoRows(pdfWidth: real, pdfHeight: real, imgWidth: nat, imgHeight: nat, remaining: nat)
    requires imgWidth > 0 && pdfWidth > 0.0 && pdfHeight > 0.0
    requires pdfHeight * imgWidth as real < pdfWidth
    requires imgHeight >= 1 && remaining >= 1
    ensures HeightInPdf(pdfWidth, imgWidth, imgHeight) > pdfHeight
    ensures CanvasHeight(RealMin(SliceHeight(pdfWidth, pdfHeight, imgWidth), remaining as real)) == 0
  {
    var w := imgWidth as real;
    var h := imgHeight as real;
    var sh := SliceHeight(pdfWidth, pdfHeight, imgWidth);
    assert sh < 1.0 by {
      assert sh * pdfWidth == pdfHeight * w;
      ScaleMonotone(1.0, sh, pdfWidth);
    }
    assert RealMin(sh, remaining as real) == sh;
    assert pdfWidth * h >= pdfWidth by {
      ScaleMonotone(1.0, h, pdfWidth);
    }
    assert HeightInPdf(pdfWidth, imgWidth, imgHeight) * w == pdfWidth * h;
    assert HeightInPdf(pdfWidth, imgWidth, imgHeight) * w > pdfHeight * w;
    ScaleMonotone(HeightInPdf(pdfWidth, imgWidth, imgHeight), pdfHeight, w);
  }

  /** `handleDownloadPdf` after rasterization: one image, or page slices with `addPage` between, then save. */
  method DownloadPdf(pdf: PdfDocument, imgWidth: nat, imgHeight: nat, pdfWidth: real, pdfHeight: real)
    requires ValidExport(pdfWidth, pdfHeight, imgWidth)
    modifies pdf
    ensures pdf.calls == old(pdf.calls) + ExportCalls(pdfWidth, pdfHeight, imgWidth, imgHeight)
  {
    var widthInPdf := pdfWidth;
    var heightInPdf := HeightInPdf(pdfWidth, imgWidth, imgHeight);
    var position: nat := 0;
    ghost var step := Step(pdfWidth, pdfHeight, imgWidth);
    if heightInPdf <= pdfHeight {
      pdf.AddImage(WholeCanvas, 0.0, 0.0, widthInPdf, heightInPdf);
    } else {
      var remainingHeight: nat := imgHeight;
      while remainingHeight > 0
        invariant position + remainingHeight == imgHeight
        invariant pdf.calls + PageCalls(Slices(position, remainingHeight, step), pdfWidth, imgWidth)
                  == old(pdf.calls) + PageCalls(Slices(0, imgHeight, step), pdfWidth, imgWidth)
        decreases remainingHeight
      {
        var sliceHeight := SliceHeight(pdfWidth, pdfHeight, imgWidth);
        CanvasHeightIsMin(pdfWidth, pdfHeight, imgWidth, remainingHeight);
        var pageCanvasHeight := CanvasHeight(RealMin(sliceHeight, remainingHeight as real));
        ghost var rest := Slices(position + pageCanvasHeight, remainingHeight - pageCanvasHeight, step);
        assert Slices(position, remainingHeight, step) == [Slice(position, pageCanvasHeight)] + rest;
        pdf.AddImage(PageCanvas(Slice(position, pageCanvasHeight)), 0.0, 0.0, pdfWidth,
                     PlacedHeight(pageCanvasHeight, pdfWidth, imgWidth));
        position := position + pageCanvasHeight;
        remainingHeight := remainingHeight - pageCanvasHeight;
        if remainingHeight > 0 {
          pdf.AddPage();
        }
      }
      assert pdf.calls == old(pdf.calls) + PageCalls(Slices(0, imgHeight, step), pdfWidth, imgWidth);
    }
    pdf.Save("resume.pdf");
  }

  // ---------------------------------------------------------------------------
  // What the slices are

  /** `slices` cut rows `[from, to)` into consecutive, non-empty pieces: no gap, no overlap, in order. */
  ghost predicate Tiles(slices: seq<Slice>, from: nat, to: nat) {
    && from <= to
    && (slices == [] <==> from == to)
    && (slices != [] ==> slices[0].top == from && slices[|slices| - 1].top + slices[|slices| - 1].rows == to)
    && (forall k :: 0 <= k < |slices| - 1 ==> slices[k + 1].top == slices[k].top + slices[k].rows)
    && (forall k :: 0 <= k < |slices| ==> slices[k].rows > 0)
  }

  /** The loop's slices tile exactly the rows it has still to copy. */
  lemma {:induction false} SlicesTile(position: nat, remaining: nat, step: nat)
    requires step >= 1
    ensures Tiles(Slices(position, remaining, step), position, position + remaining)
    decreases remaining
  {
    if remaining > 0 {
      var h := Min(step, remaining);
      var rest := Slices(position + h, remaining - h, step);
      SlicesTile(position + h, remaining - h, step);
      assert Slices(position, remaining, step) == [Slice(position, h)] + rest;
    }
  }

  /**
   * Slice k starts at row `position + k * step` and holds `min(step, rows left)`
   * rows, so every slice but the last is a full step.
   */
  lemma {:induction false} SliceShape(position: nat, remaining: nat, step: nat, k: nat)
    requires step >= 1 && k < |Slices(position, remaining, step)|
    ensures k * step < remaining
    ensures Slices(position, remaining, step)[k] == Slice(position + k * step, Min(step, remaining - k * step))
    ensures k < |Slices(position, remaining, step)| - 1 ==> Slices(position, remaining, step)[k].rows == step
    decreases remaining
  {
    var h := Min(step, remaining);
    var rest := Slices(position + h, remaining - h, step);
    assert Slices(position, remaining, step) == [Slice(position, h)] + rest;
    if k > 0 {
      SliceShape(position + h, remaining - h, step, k - 1);
      assert remaining - h != 0 by { assert |rest| >= 1; }
      assert h == step;
      assert (k - 1) * step + step == k * step;
    } else if |rest| > 0 {
      assert remaining - h > 0;
    }
  }

  /** There are `ceil(remaining / step)` slices: `(n - 1) * step < remaining <= n * step`. */
  lemma {:induction false} SliceCount(position: nat, remaining: nat, step: nat)
    requires step >= 1
    ensures var n := |Slices(position, remaining, step)|;
      (remaining == 0 <==> n == 0) && (n > 0 ==> (n - 1) * step < remaining <= n * step)
    decreases remaining
  {
    if remaining > 0 {
      var h := Min(step, remaining);
      var rest := Slices(position + h, remaining - h, step);
      SliceCount(position + h, remaining - h, step);
      var m := |rest|;
      assert |Slices(position, remaining, step)| == m + 1;
      if m > 0 {
        assert (m + 1) * step == m * step + step;
        assert m * step == (m - 1) * step + step;
      }
    }
  }

  /** Every canvas row `r` of the tiled range lies in exactly one slice. */
  lemma {:induction false} RowInExactlyOneSlice(slices: seq<Slice>, from: nat, to: nat, r: nat)
    requires Tiles(slices, from, to) && from <= r < to
    ensures exists k :: 0 <= k < |slices| && slices[k].top <= r < slices[k].top + slices[k].rows
    ensures forall k1, k2 :: 0 <= k1 < |slices| && 0 <= k2 < |slices|
              && slices[k1].top <= r < slices[k1].top + slices[k1].rows
              && slices[k2].top <= r < slices[k2].top + slices[k2].rows
              ==> k1 == k2
  {
    forall k | 0 <= k < |slices| ensures TopOf(slices, from, k) {
      TopsIncrease(slices, from, to, k);
    }
    var k := 0;
    while k < |slices| - 1 && r >= slices[k].top + slices[k].rows
      invariant 0 <= k < |slices|
      invariant slices[k].top <= r
      decreases |slices| - k
    {
      k := k + 1;
    }
    if k == |slices| - 1 {
      assert r < slices[k].top + slices[k].rows;
    }
    forall k1, k2 | 0 <= k1 < k2 < |slices| ensures slices[k1].top + slices[k1].rows <= slices[k2].top {
      assert TopOf(slices, from, k1 + 1);
      TopsMonotone(slices, from, to, k1 + 1, k2);
    }
  }

  /** Slice k starts after all the rows of the slices before it. */
  ghost predicate TopOf(slices: seq<Slice>, from: nat, k: nat)
    requires k < |slices|
  {
    from <= slices[k].top
  }

  lemma {:induction false} TopsIncrease(slices: seq<Slice>, from: nat, to: nat, k: nat)
    requires Tiles(slices, from, to) && k < |slices|
    ensures from + k <= slices[k].top
  {
    if k > 0 {
      TopsIncrease(slices, from, to, k - 1);
    }
  }

  lemma {:induction false} TopsMonotone(slices: seq<Slice>, from: nat, to: nat, i: nat, j: nat)
    requires Tiles(slices, from, to) && i <= j < |slices|
    ensures slices[i].top <= slices[j].top
    decreases j - i
  {
    if i < j {
      TopsMonotone(slices, from, to, i + 1, j);
    }
  }

  // ---------------------------------------------------------------------------
  // What the calls are

  /**
   * The calls alternate: image of slice k at position 2k, `addPage` at every odd
   * position, and the last call is an image. So pages equal slices and
   * `addPage` runs once between consecutive slices and never after the last.
   */
  lemma {:induction false} PageCallsShape(slices: seq<Slice>, pdfWidth: real, imgWidth: nat)
    requires imgWidth > 0 && slices != []
    ensures |PageCalls(slices, pdfWidth, imgWidth)| == 2 * |slices| - 1
    ensures forall k :: 0 <= k < |slices| ==>
      PageCalls(slices, pdfWidth, imgWidth)[2 * k] == SliceImage(slices[k], pdfWidth, imgWidth)
    ensures forall k :: 0 <= k < |slices| - 1 ==> PageCalls(slices, pdfWidth, imgWidth)[2 * k + 1] == NewPage
  {
    var calls := PageCalls(slices, pdfWidth, imgWidth);
    if |slices| > 1 {
      var tail := PageCalls(slices[1..], pdfWidth, imgWidth);
      PageCallsShape(slices[1..], pdfWidth, imgWidth);
      assert calls == [SliceImage(slices[0], pdfWidth, imgWidth), NewPage] + tail;
      forall k | 0 <= k < |slices| ensures calls[2 * k] == SliceImage(slices[k], pdfWidth, imgWidth) {
        if k > 0 { assert calls[2 * k] == tail[2 * (k - 1)]; }
      }
      forall k | 0 <= k < |slices| - 1 ensures calls[2 * k + 1] == NewPage {
        if k > 0 { assert calls[2 * k + 1] == tail[2 * (k - 1) + 1]; }
      }
    }
  }

  /** The one-page test `heightInPdf <= pdfHeight` is the test "the canvas is at most one slice high". */
  lemma FitsIffWithinSlice(pdfWidth: real, pdfHeight: real, imgWidth: nat, imgHeight: nat)
    requires ValidExport(pdfWidth, pdfHeight, imgWidth)
    ensures HeightInPdf(pdfWidth, imgWidth, imgHeight) <= pdfHeight
            <==> imgHeight as real <= SliceHeight(pdfWidth, pdfHeight, imgWidth)
  {
    var w, h := imgWidth as real, imgHeight as real;
    assert HeightInPdf(pdfWidth, imgWidth, imgHeight) * w == pdfWidth * h;
    assert SliceHeight(pdfWidth, pdfHeight, imgWidth) * pdfWidth == pdfHeight * w;
  }

  /** A canvas that fits gives one image, at (0,0) and of size `widthInPdf x heightInPdf`, and no `addPage`. */
  lemma ExportSinglePage(pdfWidth: real, pdfHeight: real, imgWidth: nat, imgHeight: nat)
    requires ValidExport(pdfWidth, pdfHeight, imgWidth)
    requires imgHeight as real <= SliceHeight(pdfWidth, pdfHeight, imgWidth)
    ensures ExportCalls(pdfWidth, pdfHeight, imgWidth, imgHeight)
            == [Image(WholeCanvas, 0.0, 0.0, pdfWidth, HeightInPdf(pdfWidth, imgWidth, imgHeight)), Saved("resume.pdf")]
  {
    FitsIffWithinSlice(pdfWidth, pdfHeight, imgWidth, imgHeight);
  }

  /**
   * A canvas that does not fit gives at least two page slices; they tile the
   * canvas rows, number `ceil(imgHeight / step)` and are drawn with `addPage`
   * between consecutive ones, followed by the save.
   */
  lemma ExportMultiPage(pdfWidth: real, pdfHeight: real, imgWidth: nat, imgHeight: nat)
    requires ValidExport(pdfWidth, pdfHeight, imgWidth)
    requires imgHeight as real > SliceHeight(pdfWidth, pdfHeight, imgWidth)
    ensures var step := Step(pdfWidth, pdfHeight, imgWidth);
      var slices := Slices(0, imgHeight, step);
      && |slices| >= 2
      && Tiles(slices, 0, imgHeight)
      && (|slices| - 1) * step < imgHeight <= |slices| * step
      && ExportCalls(pdfWidth, pdfHeight, imgWidth, imgHeight)
         == PageCalls(slices, pdfWidth, imgWidth) + [Saved("resume.pdf")]
  {
    var step := Step(pdfWidth, pdfHeight, imgWidth);
    FitsIffWithinSlice(pdfWidth, pdfHeight, imgWidth, imgHeight);
    SlicesTile(0, imgHeight, step);
    SliceCount(0, imgHeight, step);
    var n := |Slices(0, imgHeight, step)|;
    assert imgHeight > step;
    assert n >= 2 by { assert 1 * step == step; }
  }

  /** A slice of at most one step fits on its page; a full step falls short of the page by under one row. */
  lemma PlacedHeightBounds(pdfWidth: real, pdfHeight: real, imgWidth: nat, rows: nat)
    requires ValidExport(pdfWidth, pdfHeight, imgWidth)
    requires rows <= Step(pdfWidth, pdfHeight, imgWidth)
    ensures PlacedHeight(rows, pdfWidth, imgWidth) <= pdfHeight
    ensures rows == Step(pdfWidth, pdfHeight, imgWidth) ==>
      pdfHeight - pdfWidth / imgWidth as real < PlacedHeight(rows, pdfWidth, imgWidth)
  {
    SliceFitsPage(pdfWidth, pdfHeight, imgWidth, rows);
    if rows == Step(pdfWidth, pdfHeight, imgWidth) {
      FullSliceFillsPage(pdfWidth, pdfHeight, imgWidth);
    }
  }

  lemma SliceFitsPage(pdfWidth: real, pdfHeight: real, imgWidth: nat, rows: nat)
    requires ValidExport(pdfWidth, pdfHeight, imgWidth)
    requires rows <= Step(pdfWidth, pdfHeight, imgWidth)
    ensures PlacedHeight(rows, pdfWidth, imgWidth) <= pdfHeight
  {
    var w := imgWidth as real;
    var c := pdfWidth / w;
    var sh := SliceHeight(pdfWidth, pdfHeight, imgWidth);
    assert c > 0.0;
    assert sh * c == pdfHeight;
    assert PlacedHeight(rows, pdfWidth, imgWidth) == rows as real * c;
    ScaleMonotone(rows as real, sh, c);
  }

  lemma FullSliceFillsPage(pdfWidth: real, pdfHeight: real, imgWidth: nat)
    requires ValidExport(pdfWidth, pdfHeight, imgWidth)
    ensures pdfHeight - pdfWidth / imgWidth as real
          < PlacedHeight(Step(pdfWidth, pdfHeight, imgWidth), pdfWidth, imgWidth)
  {
    var rows := Step(pdfWidth, pdfHeight, imgWidth);
    var w := imgWidth as real;
    var c := pdfWidth / w;
    var sh := SliceHeight(pdfWidth, pdfHeight, imgWidth);
    assert c > 0.0;
    assert sh * c == pdfHeight;
    assert PlacedHeight(rows, pdfWidth, imgWidth) == rows as real * c;
    assert sh < rows as real + 1.0;
    ScaleMonotone(sh, rows as real + 1.0, c);
    assert (rows as real + 1.0) * c == rows as real * c + c;
    assert pdfHeight < rows as real * c + c;
  }

  lemma ScaleMonotone(a: real, b: real, c: real)
    requires c > 0.0
    ensures a <= b ==> a * c <= b * c
    ensures a < b ==> a * c < b * c
  {
  }

  // ---------------------------------------------------------------------------
  // Concrete runs on an A4 page (210 mm x 297 mm)

  /** A canvas 1000 px wide holds 1414 rows per page; 4200 rows become pages of 1414, 1414 and 1372 rows. */
  lemma A4ThreePages()
    ensures Step(210.0, 297.0, 1000) == 1414
    ensures Slices(0, 4200, 1414) == [Slice(0, 1414), Slice(1414, 1414), Slice(2828, 1372)]
  {
    assert 1414.0 <= SliceHeight(210.0, 297.0, 1000) < 1415.0;
    assert Slices(2828, 1372, 1414) == [Slice(2828, 1372)] + Slices(4200, 0, 1414);
    assert Slices(1414, 2786, 1414) == [Slice(1414, 1414)] + Slices(2828, 1372, 1414);
  }

  /**
   * Because the page canvas truncates the step, 5657 rows need five pages,
   * the last holding one row, although `heightInPdf` is under four page
   * heights.
   */
  lemma A4TruncationAddsPage()
    ensures HeightInPdf(210.0, 1000, 5657) < 4.0 * 297.0
    ensures |Slices(0, 5657, 1414)| == 5 && Slices(0, 5657, 1414)[4] == Slice(5656, 1)
  {
    assert Slices(5656, 1, 1414) == [Slice(5656, 1)] + Slices(5657, 0, 1414);
    assert Slices(4242, 1415, 1414) == [Slice(4242, 1414)] + Slices(5656, 1, 1414);
    assert Slices(2828, 2829, 1414) == [Slice(2828, 1414)] + Slices(4242, 1415, 1414);
    assert Slices(1414, 4243, 1414) == [Slice(1414, 1414)] + Slices(2828, 2829, 1414);
  }

  // ---------------------------------------------------------------------------
  // The `loading` flag

  /** The export button of the header: `loading` and the exports started and not yet settled. */
  class ExportButton {
    var loading: bool
    ghost var pending: nat

    ghost predicate Valid()
      reads this
    {
      pending <= 1 && (loading <==> pending == 1)
    }

    constructor ()
      ensures Valid() && !loading && pending == 0
    {
      loading := false;
      pending := 0;
    }

    /** `disabled={loading}`: the button is disabled exactly while an export is pending. */
    function Disabled(): (r: bool)
      requires Valid()
      reads this
      ensures r <==> pending == 1
    {
      loading
    }

    /** A click: a disabled button ignores it; otherwise `handleExport` sets `loading` and schedules the export. */
    method Click()
      requires Valid()
      modifies this
      ensures Valid()
      ensures old(Disabled()) ==> loading == old(loading) && pending == old(pending)
      ensures !old(Disabled()) ==> loading && pending == old(pending) + 1
      ensures Disabled()
    {
      if !Disabled() {
        loading := true;
        pending := pending + 1;
      }
    }

    /** The export settles, by success or failure: the `finally` clears `loading` either way. */
    method Settle()
      requires Valid() && pending > 0
      modifies this
      ensures Valid() && !loading && pending == old(pending) - 1
      ensures !Disabled()
    {
      loading := false;
      pending := pending - 1;
    }
  }

  /**
   * Clicking twice before the export settles starts one export only: the
   * second click finds the button disabled.
   */
  method DoubleClick(b: ExportButton)
    requires b.Valid() && !b.Disabled()
    modifies b
    ensures b.Valid() && b.Disabled() && b.pending == old(b.pending) + 1
  {
    b.Click();
    b.Click();
  }
}
