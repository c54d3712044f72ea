/**
 * image_preprocessing/extract_cells.py: from a photographed attendance
 * sheet to the list of 28x28 digit cells the recogniser reads.
 *
 * Pixel work (thresholding, marker detection, the perspective warp,
 * contours, Otsu, dilation, resizing) is done by OpenCV and is not
 * modelled. What OpenCV reports enters as data: the detected markers, and,
 * for the quadrilateral handed to the warp, a `Sheet` giving the warped
 * size, the bounding boxes of the grid contours and, for every cell crop,
 * the bounding box of its ink (or none).
 */
module ExtractCells {
  import opened Wrappers
  import opened Text
  import opened CellGrid

  /** A pixel rectangle `warped[y1:y2, x1:x2]`, bounds as computed before slicing. */
  datatype Crop = Crop(x1: int, y1: int, x2: int, y2: int)

  datatype Sheet = Sheet(width: nat, height: nat, contours: seq<Box>, ink: Crop -> Option<Box>)

  /** A decoded photo: the markers found in it and the sheet its warp yields. */
  datatype Photo = Photo(markers: seq<Marker>, warp: Quad -> Sheet)

  /**
   * A cleaned cell. `Blank` is the all-zero 28x28 image. `Placed` records
   * the digit rectangle cut from the binary crop, the size it is resized
   * to and where it is put inside the 28x28 image.
   */
  datatype Cell = Blank | Placed(digit: Box, newW: nat, newH: nat, xOff: nat, yOff: nat)

  /** `(cleaned_cells, num_markers, error_message)`. */
  datatype ProcessResult = ProcessResult(cells: Option<seq<Cell>>, numMarkers: nat, error: Option<string>)

  const CellMargin: int := 4
  const DigitMargin: int := 1
  const Side: nat := 28
  const Fit: nat := 20

  const NoImageMessage := "Input image is None"

  /** The text the exception handler stores (the traceback it appends is not modelled). */
  function ExceptionMessage(detail: string): string {
    "Error processing image: " + detail + "\n"
  }

  /** OpenCV's assertion when a colour conversion is handed an empty image. */
  const EmptyCropMessage := "OpenCV(4) error: (-215:Assertion failed) !_src.empty() in function 'cvtColor'"

  // ------------------------------------------------------------ cropping

  /** extract_cells.py:110-114: shrink the cell by a 4-pixel margin, clamped to the image. */
  function CropOf(b: Box, width: nat, height: nat): (c: Crop)
    ensures c.x1 >= 0 && c.y1 >= 0 && c.x2 <= width && c.y2 <= height
    ensures c.x1 >= b.x + CellMargin && c.y1 >= b.y + CellMargin
    ensures c.x2 <= b.x + b.w - CellMargin && c.y2 <= b.y + b.h - CellMargin
  {
    Crop(Max(b.x + CellMargin, 0), Max(b.y + CellMargin, 0),
         Min(b.x + b.w - CellMargin, width), Min(b.y + b.h - CellMargin, height))
  }

  /** Length of the Python slice `[i:j]` of an axis of length `n`, for `i >= 0`. */
  function SliceLen(i: nat, j: int, n: nat): (len: nat)
    ensures len <= n
  {
    var start := Min(i, n);
    var stop := if j < 0 then Max(j + n, 0) else Min(j, n);
    if stop > start then stop - start else 0
  }

  function CropWidth(c: Crop, width: nat): nat
    requires c.x1 >= 0
  {
    SliceLen(c.x1, c.x2, width)
  }

  function CropHeight(c: Crop, height: nat): nat
    requires c.y1 >= 0
  {
    SliceLen(c.y1, c.y2, height)
  }

  /**
   * Python's slice rules: in range the slice has `j - i` elements; a stop
   * past the end is the end; a negative stop counts from the end, clamped
   * at 0; a start at or past the end gives nothing.
   */
  lemma SliceLenRules(i: nat, j: int, n: nat)
    ensures i <= j <= n ==> SliceLen(i, j, n) == j - i
    ensures j > n ==> SliceLen(i, j, n) == SliceLen(i, n, n)
    ensures j < 0 ==> SliceLen(i, j, n) == SliceLen(i, Max(j + n, 0), n)
    ensures i >= n ==> SliceLen(i, j, n) == 0
    ensures j <= i && j >= 0 ==> SliceLen(i, j, n) == 0
  {
  }

  // -------------------------------------------------- clean and rebuild

  /** `(28 - n) // 2`. */
  function Offset(n: nat): int { (Side - n) / 2 }

  predicate Inside(b: Box, cw: nat, ch: nat) {
    b.w >= 1 && b.h >= 1 && b.x + b.w <= cw && b.y + b.h <= ch
  }

  /** What a cell promises: the digit fits the crop and is centred, long side 20, inside 28x28. */
  predicate WellPlaced(c: Cell, cw: nat, ch: nat) {
    c.Placed? ==>
      && Inside(c.digit, cw, ch)
      && (c.newW == Fit || c.newH == Fit)
      && 1 <= c.newW <= Fit && 1 <= c.newH <= Fit
      && c.xOff >= 4 && c.yOff >= 4
      && c.xOff + c.newW <= Side && c.yOff + c.newH <= Side
      && Side - c.newW - 2 * c.xOff in {0, 1} && Side - c.newH - 2 * c.yOff in {0, 1}
  }

  /** The short side is the long side's ratio of 20, rounded down: `int(h * (20.0 / w))` on integers. */
  predicate Proportional(c: Cell) {
    c.Placed? ==>
      (c.digit.w > c.digit.h ==> c.newW == Fit && ScaledTo(c.newH, c.digit.h, c.digit.w)) &&
      (c.digit.w <= c.digit.h ==> c.newH == Fit && ScaledTo(c.newW, c.digit.w, c.digit.h))
  }

  /**
   * `r` is `short * 20 / long` rounded down, or 1 when that rounds to 0:
   * `r` is the largest side with `r * long <= 20 * short` unless even 1 overshoots.
   */
  predicate ScaledTo(r: nat, short: nat, long: nat) {
    && (Fit * short >= long ==> r * long <= Fit * short < (r + 1) * long)
    && (Fit * short < long ==> r == 1)
  }

  /** `max(1, int(short * (20.0 / long)))` on integers: `short * 20 / long`, at least 1. */
  function Scaled(short: nat, long: nat): (r: nat)
    requires 0 < short <= long
    ensures 1 <= r <= Fit
    ensures Fit * short >= long ==> r * long <= Fit * short < (r + 1) * long
    ensures Fit * short < long ==> r == 1
  {
    ScaledFacts(short, long);
    Max(1, short * Fit / long)
  }

  lemma ScaledFacts(short: nat, long: nat)
    requires 0 < short <= long
    ensures short * Fit / long <= Fit
    ensures short * Fit >= long <==> short * Fit / long >= 1
    ensures (short * Fit / long) * long <= Fit * short < (short * Fit / long + 1) * long
  {
    var q, m := short * Fit / long, short * Fit % long;
    assert short * Fit == q * long + m && 0 <= m < long;
  }

  lemma OffsetFacts(n: nat)
    requires 1 <= n <= Fit
    ensures Offset(n) >= 4 && Offset(n) + n <= Side && Side - n - 2 * Offset(n) in {0, 1}
  {
  }

  /**
   * extract_cells.py:212-247 on integers: no ink gives a blank cell; else the
   * ink box grows by one pixel each side, clamped to the crop; an empty
   * digit gives a blank cell; else the long side is scaled to 20 and the
   * digit centred.
   */
  function Rebuilt(cw: nat, ch: nat, ink: Option<Box>): (c: Cell)
    ensures WellPlaced(c, cw, ch) && Proportional(c)
    ensures ink.None? ==> c == Blank
  {
    if ink.None? then Blank
    else
      var b := ink.value;
      var x := Max(b.x - DigitMargin, 0);
      var y := Max(b.y - DigitMargin, 0);
      var w := Min(b.w + 2 * DigitMargin, cw - x);
      var h := Min(b.h + 2 * DigitMargin, ch - y);
      if w <= 0 || h <= 0 then Blank
      else
        var newW: nat := if w > h then Fit else Scaled(w, h);
        var newH: nat := if w > h then Scaled(h, w) else Fit;
        OffsetFacts(newW);
        OffsetFacts(newH);
        Placed(Box(x, y, w, h), newW, newH, Offset(newW), Offset(newH))
  }

  /** When the ink lies inside the crop, the digit rectangle holds all of it. */
  lemma DigitHoldsInk(cw: nat, ch: nat, b: Box)
    requires Inside(b, cw, ch)
    ensures Rebuilt(cw, ch, Some(b)).Placed?
    ensures var d := Rebuilt(cw, ch, Some(b)).digit;
      d.x <= b.x && d.y <= b.y && b.x + b.w <= d.x + d.w && b.y + b.h <= d.y + d.h
  {
  }

  /** clean_and_rebuild_cell, with the margin clamps as the sequential updates they are. */
  method CleanAndRebuildCell(cw: nat, ch: nat, ink: Option<Box>) returns (c: Cell)
    ensures c == Rebuilt(cw, ch, ink)
  {
    if ink.None? {
      return Blank;
    }
    var x, y, w, h := ink.value.x, ink.value.y, ink.value.w, ink.value.h;
    x := Max(x - DigitMargin, 0);
    y := Max(y - DigitMargin, 0);
    w := Min(w + 2 * DigitMargin, cw - x);
    h := Min(h + 2 * DigitMargin, ch - y);
    if w <= 0 || h <= 0 {
      return Blank;
    }
    var newW, newH;
    if w > h {
      newW := Fit;
      newH := Scaled(h, w);
    } else {
      newH := Fit;
      newW := Scaled(w, h);
    }
    c := Placed(Box(x, y, w, h), newW, newH, Offset(newW), Offset(newH));
  }

  /**
   * extract_cells.py:245-248: a zero 28x28 image with the resized digit
   * written into the centred window.
   */
  method Centre(resized: seq<seq<int>>, newW: nat, newH: nat) returns (padded: array2<int>)
    requires 1 <= newW <= Fit && 1 <= newH <= Fit
    requires |resized| == newH && forall i :: 0 <= i < newH ==> |resized[i]| == newW
    ensures fresh(padded) && padded.Length0 == Side && padded.Length1 == Side
    ensures forall i, j :: 0 <= i < Side && 0 <= j < Side ==>
      padded[i, j] == (if Offset(newH) <= i < Offset(newH) + newH && Offset(newW) <= j < Offset(newW) + newW
                       then resized[i - Offset(newH)][j - Offset(newW)] else 0)
  {
    padded := new int[Side, Side]((i, j) => 0);
    var yOff, xOff := Offset(newH), Offset(newW);
    forall i, j | 0 <= i < newH && 0 <= j < newW {
      padded[yOff + i, xOff + j] := resized[i][j];
    }
  }

  // ------------------------------------------------------- the pipeline

  /** extract_id_cells on the sheet's contours: filter with aspect test, then rows, then last eights. */
  function ExtractIdCellsSpec(sheet: Sheet): Result<seq<Box>, string> {
    match FilterSpec(sheet.contours, sheet.width, sheet.height, true)
    case Err(e) => Err(e)
    case Ok(kept) => Ok(IdCells(kept))
  }

  method ExtractIdCells(sheet: Sheet) returns (r: Result<seq<Box>, string>)
    ensures r == ExtractIdCellsSpec(sheet)
  {
    var filtered := FilterBoxes(sheet.contours, sheet.width, sheet.height, true);
    if filtered.Err? {
      return Err(filtered.error);
    }
    var boxes := filtered.value;
    if boxes == [] {
      return Ok([]);
    }
    var sorted := Sorting.SortBy(boxes, YKey);
    var rows := GroupRows(sorted);
    r := Ok(LastEights(SortRows(rows)));
  }

  /**
   * The cells of the sheet's grid: eight for every row of at least eight
   * kept boxes, each one of the kept boxes; none at all when no box is kept.
   */
  lemma ExtractIdCellsShape(sheet: Sheet)
    requires ExtractIdCellsSpec(sheet).Ok?
    ensures var cells := ExtractIdCellsSpec(sheet).value;
      var kept := Kept(sheet.contours, sheet.width, sheet.height, true);
      && |cells| == IdCols * LongRows(Rows(Sorting.SortBy(kept, YKey)))
      && multiset(cells) <= multiset(kept)
      && (kept == [] ==> cells == [])
  {
    IdCellsShape(Kept(sheet.contours, sheet.width, sheet.height, true));
  }

  predicate EmptyCrop(sheet: Sheet, b: Box) {
    var c := CropOf(b, sheet.width, sheet.height);
    CropWidth(c, sheet.width) == 0 || CropHeight(c, sheet.height) == 0
  }

  function CellOf(sheet: Sheet, b: Box): (c: Cell)
    ensures var cr := CropOf(b, sheet.width, sheet.height);
      WellPlaced(c, CropWidth(cr, sheet.width), CropHeight(cr, sheet.height))
  {
    var c := CropOf(b, sheet.width, sheet.height);
    Rebuilt(CropWidth(c, sheet.width), CropHeight(c, sheet.height), sheet.ink(c))
  }

  /** The cleaning loop's outcome: OpenCV raises on the first empty crop. */
  function CleanedSpec(sheet: Sheet, boxes: seq<Box>): Result<seq<Cell>, string> {
    if exists i :: 0 <= i < |boxes| && EmptyCrop(sheet, boxes[i]) then Err(EmptyCropMessage)
    else Ok(seq(|boxes|, i requires 0 <= i < |boxes| => CellOf(sheet, boxes[i])))
  }

  /** extract_cells.py:107-118: crop, clean and append every ID cell. */
  method CleanCells(sheet: Sheet, boxes: seq<Box>) returns (r: Result<seq<Cell>, string>)
    ensures r == CleanedSpec(sheet, boxes)
  {
    var cleaned: seq<Cell> := [];
    var i := 0;
    while i < |boxes|
      invariant 0 <= i <= |boxes|
      invariant forall j :: 0 <= j < i ==> !EmptyCrop(sheet, boxes[j])
      invariant |cleaned| == i && forall j :: 0 <= j < i ==> cleaned[j] == CellOf(sheet, boxes[j])
    {
      var b := boxes[i];
      var c := CropOf(b, sheet.width, sheet.height);
      var cw, ch := CropWidth(c, sheet.width), CropHeight(c, sheet.height);
      if cw == 0 || ch == 0 {
        assert EmptyCrop(sheet, boxes[i]);
        return Err(EmptyCropMessage);
      }
      var cell := CleanAndRebuildCell(cw, ch, sheet.ink(c));
      cleaned := cleaned + [cell];
      i := i + 1;
    }
    assert cleaned == seq(|boxes|, i requires 0 <= i < |boxes| => CellOf(sheet, boxes[i]));
    r := Ok(cleaned);
  }

  /** What process_image returns for a decoded image, or for none. */
  function ProcessImageSpec(image: Option<Photo>): ProcessResult {
    if image.None? then ProcessResult(None, 0, Some(NoImageMessage))
    else
      var n := |image.value.markers|;
      if n < 4 then ProcessResult(None, n, Some(NeedMarkersMessage(n)))
      else
        var sheet := image.value.warp(OrderCorners(image.value.markers));
        match ExtractIdCellsSpec(sheet)
        case Err(e) => ProcessResult(None, n, Some(ExceptionMessage(e)))
        case Ok(boxes) =>
          match CleanedSpec(sheet, boxes)
          case Err(e) => ProcessResult(None, n, Some(ExceptionMessage(e)))
          case Ok(cells) => ProcessResult(Some(cells), n, None)
  }

  /** extract_cells.py:5-126. */
  method ProcessImage(image: Option<Photo>) returns (r: ProcessResult)
    ensures r == ProcessImageSpec(image)
  {
    if image.None? {
      return ProcessResult(None, 0, Some(NoImageMessage));
    }
    var photo := image.value;
    var numMarkers := |photo.markers|;
    if numMarkers < 4 {
      return ProcessResult(None, numMarkers, Some(NeedMarkersMessage(numMarkers)));
    }
    var sheet := photo.warp(OrderCorners(photo.markers));
    var idCells := ExtractIdCells(sheet);
    if idCells.Err? {
      return ProcessResult(None, numMarkers, Some(ExceptionMessage(idCells.error)));
    }
    var cleaned := CleanCells(sheet, idCells.value);
    if cleaned.Err? {
      return ProcessResult(None, numMarkers, Some(ExceptionMessage(cleaned.error)));
    }
    r := ProcessResult(Some(cleaned.value), numMarkers, None);
  }

  /**
   * The three outcomes of process_image: an error comes without cells and
   * reports the marker count that was reached; success comes with one
   * well-placed cell per chosen grid box and four or more markers.
   */
  lemma ProcessImageOutcomes(image: Option<Photo>)
    ensures var r := ProcessImageSpec(image);
      && (image.None? ==> r == ProcessResult(None, 0, Some(NoImageMessage)))
      && (image.Some? && |image.value.markers| < 4 ==>
            r == ProcessResult(None, |image.value.markers|, Some(NeedMarkersMessage(|image.value.markers|))))
      && (r.error.Some? <==> r.cells.None?)
      && (image.Some? ==> r.numMarkers == |image.value.markers|)
      && (r.error.None? ==>
            var sheet := image.value.warp(OrderCorners(image.value.markers));
            && r.numMarkers >= 4
            && ExtractIdCellsSpec(sheet).Ok?
            && |r.cells.value| == |ExtractIdCellsSpec(sheet).value|
            && forall i :: 0 <= i < |r.cells.value| ==>
                 var cr := CropOf(ExtractIdCellsSpec(sheet).value[i], sheet.width, sheet.height);
                 WellPlaced(r.cells.value[i], CropWidth(cr, sheet.width), CropHeight(cr, sheet.height)))
  {
  }
}
