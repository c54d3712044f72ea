/**
 * image_aruco_detection/detect_arucoImage.py: the command-line predecessor
 * of the service's cell extraction. It raises instead of returning error
 * values, keeps boxes by size only, and writes one image file per chosen
 * cell. Reading and writing files is not modelled: the decoded image (or
 * its absence) is the input and the list of files that would be written,
 * with the rectangle each one holds, is the result.
 */
module DetectAruco {
  import opened Wrappers
  import opened Text
  import opened CellGrid

  /** The warped sheet as OpenCV reports it: size and grid bounding boxes. */
  datatype Warped = Warped(width: nat, height: nat, contours: seq<Box>)

  datatype Photo = Photo(markers: seq<Marker>, warp: Quad -> Warped)

  /** The Python exceptions the script can raise. */
  datatype Failure = ValueError(message: string) | RuntimeError(message: string) | IndexError(message: string)

  /** One written cell image: its file name and the rectangle of the warped sheet it holds. */
  datatype CellFile = CellFile(name: string, rect: Box)

  const ImageNotFound := "Image not found at specified path."
  const IndexOutOfRange := "list index out of range"

  /** `f"id_cell_{idx + 1:03d}.png"` for the 1-based index `k`. */
  function CellFileName(k: nat): string {
    "id_cell_" + ZeroPad3(k) + ".png"
  }

  /** Different indexes give different names, so no cell file overwrites another. */
  lemma CellFileNamesDistinct(j: nat, k: nat)
    requires j != k
    ensures CellFileName(j) != CellFileName(k)
  {
    ZeroPad3Shape(j);
    ZeroPad3Shape(k);
    var nj, nk := CellFileName(j), CellFileName(k);
    assert nj[8..|nj| - 4] == ZeroPad3(j);
    assert nk[8..|nk| - 4] == ZeroPad3(k);
  }

  /** Below 1000 cells a name is `id_cell_` followed by exactly three digits and `.png`. */
  lemma CellFileNameShape(k: nat)
    requires k < 1000
    ensures |CellFileName(k)| == 15
    ensures CellFileName(k)[..8] == "id_cell_" && CellFileName(k)[11..] == ".png"
    ensures forall i :: 8 <= i < 11 ==> IsDigitChar(CellFileName(k)[i])
  {
    ZeroPad3Shape(k);
    assert CellFileName(k)[8..11] == ZeroPad3(k);
  }

  /** The files written for the chosen cells, in order. */
  function NamedCells(cells: seq<Box>): seq<CellFile> {
    seq(|cells|, i requires 0 <= i < |cells| => CellFile(CellFileName(i + 1), cells[i]))
  }

  /** No two written files share a name. */
  lemma NamedCellsDistinct(cells: seq<Box>)
    ensures |NamedCells(cells)| == |cells|
    ensures forall i, j :: 0 <= i < j < |cells| ==> NamedCells(cells)[i].name != NamedCells(cells)[j].name
  {
    forall i, j | 0 <= i < j < |cells| ensures NamedCells(cells)[i].name != NamedCells(cells)[j].name {
      CellFileNamesDistinct(i + 1, j + 1);
    }
  }

  /** The file-writing loop, detect_arucoImage.py:132-135. */
  method CellFiles(cells: seq<Box>) returns (files: seq<CellFile>)
    ensures |files| == |cells|
    ensures forall i :: 0 <= i < |files| ==> files[i] == CellFile(CellFileName(i + 1), cells[i])
  {
    files := [];
    var idx := 0;
    while idx < |cells|
      invariant 0 <= idx <= |cells|
      invariant |files| == idx
      invariant files == NamedCells(cells[..idx])
    {
      files := files + [CellFile(CellFileName(idx + 1), cells[idx])];
      idx := idx + 1;
    }
  }

  /** The nested extract_id_cells: size filter only, and `boxes[0]` fails on an empty list. */
  function ExtractIdCellsSpec(sheet: Warped): Result<seq<Box>, Failure> {
    var kept := Kept(sheet.contours, sheet.width, sheet.height, false);
    if kept == [] then Err(IndexError(IndexOutOfRange)) else Ok(IdCells(kept))
  }

  method ExtractIdCells(sheet: Warped) returns (r: Result<seq<Box>, Failure>)
    ensures r == ExtractIdCellsSpec(sheet)
  {
    var filtered := FilterBoxes(sheet.contours, sheet.width, sheet.height, false);
    var boxes := filtered.value;
    if boxes == [] {
      return Err(IndexError(IndexOutOfRange));
    }
    var sorted := Sorting.SortBy(boxes, YKey);
    var rows := GroupRows(sorted);
    r := Ok(LastEights(SortRows(rows)));
  }

  function ProcessImageSpec(image: Option<Photo>): Result<seq<CellFile>, Failure> {
    if image.None? then Err(ValueError(ImageNotFound))
    else
      var n := |image.value.markers|;
      if n < 4 then Err(RuntimeError(NeedMarkersMessage(n)))
      else
        match ExtractIdCellsSpec(image.value.warp(OrderCorners(image.value.markers)))
        case Err(e) => Err(e)
        case Ok(cells) => Ok(NamedCells(cells))
  }

  /** detect_arucoImage.py:8-137. */
  method ProcessImage(image: Option<Photo>) returns (r: Result<seq<CellFile>, Failure>)
    ensures r == ProcessImageSpec(image)
  {
    if image.None? {
      return Err(ValueError(ImageNotFound));
    }
    var photo := image.value;
    if |photo.markers| < 4 {
      return Err(RuntimeError(NeedMarkersMessage(|photo.markers|)));
    }
    var warped := photo.warp(OrderCorners(photo.markers));
    var idCells := ExtractIdCells(warped);
    if idCells.Err? {
      return Err(idCells.error);
    }
    var files := CellFiles(idCells.value);
    assert files == NamedCells(idCells.value);
    r := Ok(files);
  }

  /**
   * A missing image raises ValueError; fewer than four markers raise
   * RuntimeError with the count; no kept box raises IndexError; otherwise
   * one distinctly named file per chosen cell, eight per long row.
   */
  lemma ProcessImageOutcomes(image: Option<Photo>)
    ensures var r := ProcessImageSpec(image);
      && (image.None? ==> r == Err(ValueError(ImageNotFound)))
      && (image.Some? && |image.value.markers| < 4 ==>
            r == Err(RuntimeError(NeedMarkersMessage(|image.value.markers|))))
      && (image.Some? && |image.value.markers| >= 4 ==>
            var sheet := image.value.warp(OrderCorners(image.value.markers));
            Kept(sheet.contours, sheet.width, sheet.height, false) == [] ==> r == Err(IndexError(IndexOutOfRange)))
      && (r.Ok? ==>
            var sheet := image.value.warp(OrderCorners(image.value.markers));
            var kept := Kept(sheet.contours, sheet.width, sheet.height, false);
            && |image.value.markers| >= 4
            && kept != []
            && |r.value| == IdCols * LongRows(Rows(Sorting.SortBy(kept, YKey)))
            && forall i, j :: 0 <= i < j < |r.value| ==> r.value[i].name != r.value[j].name)
  {
    var r := ProcessImageSpec(image);
    if r.Ok? {
      var sheet := image.value.warp(OrderCorners(image.value.markers));
      var kept := Kept(sheet.contours, sheet.width, sheet.height, false);
      IdCellsShape(kept);
      NamedCellsDistinct(IdCells(kept));
    }
  }
}
