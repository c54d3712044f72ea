/**
 * image_preprocessing/predict.py: turns the cleaned cells of one sheet into
 * student IDs. The recogniser (a Keras model followed by `argmax`) is a
 * parameter that gives one digit per cell.
 */
module Predict {
  import opened Wrappers
  import opened Text
  import opened ExtractCells
  import Sorting

  type Digit = d: nat | d < 10

  /** `predict`'s result: `False`, a list of IDs, or an exception escaping it. */
  datatype PredictOutcome = Falsy | IdList(ids: seq<string>) | Raised(message: string)

  /** Cells on a sheet: 23 students of 8 digits. IDs are groups of 8 digits. */
  const CellCount: nat := 184

  /** `''.join(map(str, predicted_digits))`. */
  function DigitString(ds: seq<Digit>): (s: string)
    ensures |s| == |ds|
    ensures forall i :: 0 <= i < |s| ==> IsDigitChar(s[i]) && DigitValue(s[i]) == ds[i]
  {
    seq(|ds|, i requires 0 <= i < |ds| => DigitChar(ds[i]))
  }

  /** `f"{group[:2]}-{group[2:]}"`. */
  function FormatGroup(g: string): string
    requires |g| == 8
  {
    g[..2] + "-" + g[2..]
  }

  /** The IDs of the complete 8-character groups of `s`, left to right. */
  function IdsOf(s: string): seq<string>
    decreases |s|
  {
    if |s| < 8 then [] else [FormatGroup(s[..8])] + IdsOf(s[8..])
  }

  /** An ID as the service emits it: two digits, a dash, six digits. */
  predicate WellFormedId(id: string) {
    |id| == 9 && id[2] == '-' && forall i :: 0 <= i < 9 && i != 2 ==> IsDigitChar(id[i])
  }

  /** The ID with its dash removed. */
  function Undash(id: string): string {
    if |id| < 3 then id else id[..2] + id[3..]
  }

  /** The IDs with their dashes removed, joined into one string. */
  function JoinUndashed(ids: seq<string>): string {
    if ids == [] then "" else Undash(ids[0]) + JoinUndashed(ids[1..])
  }

  /** One ID per complete group: a trailing group shorter than eight is dropped. */
  lemma {:induction false} IdsOfLength(s: string)
    ensures |IdsOf(s)| == |s| / 8
  {
    if |s| >= 8 {
      IdsOfLength(s[8..]);
    }
  }

  /** ID `k` is group `k`, in cell order; equal groups give equal, repeated IDs. */
  lemma {:induction false} IdsOfAt(s: string, k: nat)
    requires k < |s| / 8
    ensures |IdsOf(s)| == |s| / 8
    ensures IdsOf(s)[k] == FormatGroup(s[8 * k..8 * k + 8])
  {
    IdsOfLength(s);
    if k > 0 {
      IdsOfAt(s[8..], k - 1);
      assert s[8..][8 * (k - 1)..8 * (k - 1) + 8]
          == s[8 * k..8 * k + 8];
    }
  }

  /** Every ID built from digits has the `DD-DDDDDD` shape. */
  lemma {:induction false} IdsOfWellFormed(s: string)
    requires forall i :: 0 <= i < |s| ==> IsDigitChar(s[i])
    ensures forall k :: 0 <= k < |IdsOf(s)| ==> WellFormedId(IdsOf(s)[k])
  {
    if |s| >= 8 {
      IdsOfWellFormed(s[8..]);
      var id := FormatGroup(s[..8]);
      forall i | 0 <= i < 9 && i != 2 ensures IsDigitChar(id[i]) {
        if i < 2 { assert id[i] == s[i]; } else { assert id[i] == s[i - 1]; }
      }
    }
  }

  /** Removing the dashes and joining the IDs gives back the digits of the complete groups. */
  lemma {:induction false} IdsOfRoundTrip(s: string)
    ensures |IdsOf(s)| == |s| / 8
    ensures JoinUndashed(IdsOf(s)) == s[..8 * |IdsOf(s)|]
  {
    IdsOfLength(s);
    if |s| >= 8 {
      var rest, g := s[8..], s[..8];
      IdsOfRoundTrip(rest);
      var ids := IdsOf(s);
      assert ids[0] == FormatGroup(g) && ids[1..] == IdsOf(rest);
      assert Undash(FormatGroup(g)) == g;
      assert JoinUndashed(ids) == g + JoinUndashed(IdsOf(rest));
      assert s[..8 * |ids|] == g + rest[..8 * |IdsOf(rest)|];
    }
  }

  /** predict.py:15-22: a stepping loop over the digit string, one ID per complete group. */
  method FormatIds(digits: seq<Digit>) returns (ids: seq<string>)
    ensures ids == IdsOf(DigitString(digits))
  {
    var s := DigitString(digits);
    ids := [];
    var i := 0;
    while i < |s|
      invariant 0 <= i && i % 8 == 0
      invariant i < |s| + 8
      invariant |ids| == if i <= |s| then i / 8 else |s| / 8
      invariant forall k :: 0 <= k < |ids| ==> ids[k] == FormatGroup(s[8 * k..8 * k + 8])
    {
      var end := if i + 8 <= |s| then i + 8 else |s|;
      var group := s[i..end];
      if |group| == 8 {
        ids := ids + [group[..2] + "-" + group[2..]];
      }
      i := i + 8;
    }
    IdsOfLength(s);
    forall k | 0 <= k < |ids| ensures ids[k] == IdsOf(s)[k] {
      IdsOfAt(s, k);
    }
  }

  /**
   * `np.argmax(model.predict(cleaned_cells), axis=1)`: one digit per cell.
   * The recogniser is told the cell's position in the batch as well as the
   * cell, so equally placed cells may hold different digits.
   */
  function Classified(cells: seq<Cell>, classify: (nat, Cell) -> Digit): seq<Digit> {
    seq(|cells|, i requires 0 <= i < |cells| => classify(i, cells[i]))
  }

  /**
   * The guard as intended: an error with a marker count other than four,
   * missing cells, or a cell count other than 184 all give `False`.
   */
  predicate Rejects(pr: ProcessResult) {
    (pr.error.Some? && pr.numMarkers != 4) || pr.cells.None? || |pr.cells.value| != CellCount
  }

  /** What predict returns once the guard is corrected (see the README findings). */
  function Predicted(pr: ProcessResult, classify: (nat, Cell) -> Digit): PredictOutcome {
    if Rejects(pr) then Falsy else IdList(IdsOf(DigitString(Classified(pr.cells.value, classify))))
  }

  /**
   * The corrected predict never raises: it returns `False` exactly when the
   * guard rejects, and otherwise 23 IDs of the `DD-DDDDDD` shape.
   */
  lemma PredictedShape(pr: ProcessResult, classify: (nat, Cell) -> Digit)
    ensures !Predicted(pr, classify).Raised?
    ensures Rejects(pr) <==> Predicted(pr, classify) == Falsy
    ensures Predicted(pr, classify).IdList? ==>
      var ids := Predicted(pr, classify).ids;
      |ids| == CellCount / 8 && forall k :: 0 <= k < |ids| ==> WellFormedId(ids[k])
  {
    if !Rejects(pr) {
      var s := DigitString(Classified(pr.cells.value, classify));
      IdsOfLength(s);
      IdsOfWellFormed(s);
    }
  }

  /**
   * predict.py:5-24, with the guard's missing-cells case returning `False`
   * and `numpy` available.
   */
  method Predict(pr: ProcessResult, classify: (nat, Cell) -> Digit) returns (out: PredictOutcome)
    ensures out == Predicted(pr, classify)
    ensures Rejects(pr) <==> out == Falsy
    ensures out.IdList? ==> |out.ids| == CellCount / 8
    ensures out.IdList? ==> forall k :: 0 <= k < |out.ids| ==> WellFormedId(out.ids[k])
  {
    if Rejects(pr) {
      return Falsy;
    }
    var digits := Classified(pr.cells.value, classify);
    var ids := FormatIds(digits);
    IdsOfLength(DigitString(digits));
    IdsOfWellFormed(DigitString(digits));
    out := IdList(ids);
  }

  // ---------------------------------------------------------- as written

  const NoneLenMessage := "object of type 'NoneType' has no len()"
  const NumpyMissingMessage := "name 'np' is not defined"

  /**
   * predict exactly as written: `len(cleaned_cells)` is evaluated on `None`
   * when an error comes with exactly four markers, and `np` is used without
   * being imported, so the success path raises.
   */
  function PredictAsWritten(pr: ProcessResult): PredictOutcome {
    if pr.error.Some? && pr.numMarkers != 4 then Falsy
    else if pr.cells.None? then Raised(NoneLenMessage)
    else if |pr.cells.value| != CellCount then Falsy
    else Raised(NumpyMissingMessage)
  }

  /** As written, no input ever yields IDs. */
  lemma AsWrittenNeverSucceeds(pr: ProcessResult)
    ensures !PredictAsWritten(pr).IdList?
    ensures pr.cells.Some? && |pr.cells.value| == CellCount && pr.error.None? ==>
      PredictAsWritten(pr) == Raised(NumpyMissingMessage)
  {
  }

  /**
   * Every exception process_image catches after finding exactly four
   * markers comes back as an error with four markers and no cells, and the
   * guard as written then raises instead of returning `False`.
   */
  lemma AsWrittenGuardRaises(photo: Photo)
    requires |photo.markers| == 4
    ensures var pr := ProcessImageSpec(Some(photo));
      pr.error.Some? ==> pr.numMarkers == 4 && pr.cells.None? && PredictAsWritten(pr) == Raised(NoneLenMessage)
  {
    ProcessImageOutcomes(Some(photo));
  }

  /** One row of eight 5x5 boxes, ten pixels apart. */
  function SmallBoxes(): seq<CellGrid.Box> {
    seq(8, k requires 0 <= k < 8 => CellGrid.Box(10 * k, 0, 5, 5))
  }

  function SmallSheet(): Sheet {
    Sheet(100, 100, SmallBoxes(), c => None)
  }

  /** The small boxes pass the filter, lie on one line and run left to right. */
  lemma SmallBoxesFacts()
    ensures var boxes := SmallBoxes();
      && !CellGrid.HasZeroHeight(boxes)
      && (forall i :: 0 <= i < |boxes| ==> CellGrid.Keep(boxes[i], 100, 100, true))
      && Sorting.SortedBy(boxes, CellGrid.YKey) && Sorting.SortedBy(boxes, CellGrid.XKey)
      && forall i :: 0 < i < |boxes| ==> CellGrid.Near(boxes[i - 1], boxes[i])
  {
    var boxes := SmallBoxes();
    assert forall i :: 0 <= i < |boxes| ==> boxes[i] == CellGrid.Box(10 * i, 0, 5, 5);
  }

  /** On a 100x100 sheet the eight small boxes pass the filter and are the ID cells. */
  lemma SmallSheetCells()
    ensures ExtractIdCellsSpec(SmallSheet()) == Ok(SmallBoxes())
  {
    var boxes := SmallBoxes();
    SmallBoxesFacts();
    CellGrid.KeptAll(boxes, 100, 100, true);
    CellGrid.IdCellsOfOneRow(boxes);
  }

  /** A 10x10 marker with its top-left corner at `(x, y)`, corners clockwise from top-left. */
  function SquareMarker(x: int, y: int): CellGrid.Marker {
    CellGrid.Marker(CellGrid.Point(x, y), CellGrid.Point(x + 10, y),
                    CellGrid.Point(x + 10, y + 10), CellGrid.Point(x, y + 10))
  }

  /** Four markers at the corners of a 100x100 area: top-left, top-right, bottom-left, bottom-right. */
  function CornerMarkers(): seq<CellGrid.Marker> {
    [SquareMarker(0, 0), SquareMarker(90, 0), SquareMarker(0, 90), SquareMarker(90, 90)]
  }

  const SheetQuad := CellGrid.Quad(CellGrid.Point(0, 0), CellGrid.Point(100, 0),
                                   CellGrid.Point(100, 100), CellGrid.Point(0, 100))

  /** The corner markers give the quadrilateral of the whole 100x100 area. */
  lemma CornerMarkersQuad()
    ensures CellGrid.OrderCorners(CornerMarkers()) == SheetQuad
  {
    var ms := CornerMarkers();
    assert Sorting.SortedBy(ms, CellGrid.CentreKey);
    Sorting.SortBySortedInput(ms, CellGrid.CentreKey);
    assert ms[..2] == [SquareMarker(0, 0), SquareMarker(90, 0)];
    assert ms[2..] == [SquareMarker(0, 90), SquareMarker(90, 90)];
    Sorting.SortBySortedInput(ms[..2], CellGrid.CentreXKey);
    Sorting.SortBySortedInput(ms[2..], CellGrid.CentreXKey);
  }

  /**
   * A photo with four markers at the corners of a 100x100 area, whose warp
   * gives a 100x100 sheet with a grid of one row of eight 5x5 boxes: they
   * pass the size and aspect tests and become the ID cells, but the
   * 4-pixel margin leaves an empty crop, OpenCV raises, and the guard as
   * written raises.
   */
  lemma AsWrittenGuardExample()
    ensures var warp := (q: CellGrid.Quad) => if q == SheetQuad then SmallSheet() else Sheet(0, 0, [], c => None);
      var pr := ProcessImageSpec(Some(Photo(CornerMarkers(), warp)));
      && CellGrid.OrderCorners(CornerMarkers()) == SheetQuad
      && ExtractIdCellsSpec(SmallSheet()) == Ok(SmallBoxes())
      && EmptyCrop(SmallSheet(), SmallBoxes()[0])
      && pr == ProcessResult(None, 4, Some(ExceptionMessage(EmptyCropMessage)))
      && PredictAsWritten(pr) == Raised(NoneLenMessage)
  {
    CornerMarkersQuad();
    SmallSheetCells();
    assert EmptyCrop(SmallSheet(), SmallBoxes()[0]);
  }

  /** The intended guard turns every error process_image reports into `False`. */
  lemma {:induction false} RejectsEveryProcessError(image: Option<Photo>)
    ensures ProcessImageSpec(image).error.Some? ==> Rejects(ProcessImageSpec(image))
  {
    ProcessImageOutcomes(image);
  }
}
