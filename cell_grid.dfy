/**
 * The integer logic that picks the student-ID cells out of the grid of an
 * attendance sheet, shared by the service (image_preprocessing/extract_cells.py)
 * and the older script (image_aruco_detection/detect_arucoImage.py), which
 * carry the same code twice: the size filter on bounding boxes, grouping
 * of the boxes into rows, the choice of the last eight boxes of every long
 * row, and the ordering of the four corner markers.
 *
 * OpenCV's contour detection is not modelled: its bounding rectangles are
 * the input.
 */
module CellGrid {
  import opened Wrappers
  import opened Sorting

  /** A bounding rectangle `(x, y, w, h)` as `cv2.boundingRect` returns it. */
  datatype Box = Box(x: nat, y: nat, w: nat, h: nat)

  function YKey(b: Box): Key { (b.y, 0) }
  function XKey(b: Box): Key { (b.x, 0) }

  /** Number of ID digits per student: `id_cols`. */
  const IdCols: nat := 8
  /** Two boxes are on one row when their `y` differ by less than this: `y_threshold`. */
  const YThreshold: int := 10

  /**
   * `w > width * 0.02 and h > height * 0.02 and w < width * 0.95 and
   * h < height * 0.95`, written with integers.
   */
  predicate SizeOk(b: Box, width: nat, height: nat) {
    50 * b.w > width && 50 * b.h > height && 20 * b.w < 19 * width && 20 * b.h < 19 * height
  }

  /** `0.5 < w / h < 2.0` for `h > 0`, written with integers. */
  predicate AspectOk(b: Box) {
    b.h < 2 * b.w && b.w < 2 * b.h
  }

  /** Whether a box is kept; `withAspect` selects the service's extra aspect-ratio test. */
  predicate Keep(b: Box, width: nat, height: nat, withAspect: bool) {
    SizeOk(b, width, height) && (withAspect ==> AspectOk(b))
  }

  /** The kept boxes, in contour order. */
  function Kept(cs: seq<Box>, width: nat, height: nat, withAspect: bool): seq<Box> {
    if cs == [] then []
    else
      var last := cs[|cs| - 1];
      Kept(cs[..|cs| - 1], width, height, withAspect) + (if Keep(last, width, height, withAspect) then [last] else [])
  }

  /** The service computes `w / float(h)` before testing, so a zero height raises. */
  predicate HasZeroHeight(cs: seq<Box>) {
    exists i :: 0 <= i < |cs| && cs[i].h == 0
  }

  const ZeroDivisionMessage := "float division by zero"

  /** What the filter loop produces: the kept boxes, or the division error. */
  function FilterSpec(cs: seq<Box>, width: nat, height: nat, withAspect: bool): Result<seq<Box>, string> {
    if withAspect && HasZeroHeight(cs) then Err(ZeroDivisionMessage)
    else Ok(Kept(cs, width, height, withAspect))
  }

  lemma {:induction false} KeptIff(cs: seq<Box>, width: nat, height: nat, withAspect: bool, b: Box)
    ensures b in Kept(cs, width, height, withAspect) <==> b in cs && Keep(b, width, height, withAspect)
  {
    if cs != [] {
      var init := cs[..|cs| - 1];
      KeptIff(init, width, height, withAspect, b);
      assert cs == init + [cs[|cs| - 1]];
    }
  }

  /** Every kept box occurs as often as in the contours; every other box not at all. */
  lemma {:induction false} KeptPerm(cs: seq<Box>, width: nat, height: nat, withAspect: bool)
    ensures multiset(Kept(cs, width, height, withAspect)) <= multiset(cs)
    ensures forall b ::
      multiset(Kept(cs, width, height, withAspect))[b] == (if Keep(b, width, height, withAspect) then multiset(cs)[b] else 0)
  {
    if cs != [] {
      var init, last := cs[..|cs| - 1], cs[|cs| - 1];
      KeptPerm(init, width, height, withAspect);
      assert cs == init + [last];
      var mine := if Keep(last, width, height, withAspect) then [last] else [];
      var kept, keptInit := multiset(Kept(cs, width, height, withAspect)), multiset(Kept(init, width, height, withAspect));
      assert kept == keptInit + multiset(mine);
      assert multiset(cs) == multiset(init) + multiset{last};
      forall b ensures kept[b] == if Keep(b, width, height, withAspect) then multiset(cs)[b] else 0 {
        assert kept[b] == keptInit[b] + multiset(mine)[b];
      }
    }
  }

  /** When every box passes, the filter keeps them all. */
  lemma {:induction false} KeptAll(cs: seq<Box>, width: nat, height: nat, withAspect: bool)
    requires forall i :: 0 <= i < |cs| ==> Keep(cs[i], width, height, withAspect)
    ensures Kept(cs, width, height, withAspect) == cs
  {
    if cs != [] {
      KeptAll(cs[..|cs| - 1], width, height, withAspect);
    }
  }

  /** The filter keeps order: filtering a concatenation concatenates the filtered parts. */
  lemma {:induction false} KeptAppend(a: seq<Box>, b: seq<Box>, width: nat, height: nat, withAspect: bool)
    ensures Kept(a + b, width, height, withAspect) == Kept(a, width, height, withAspect) + Kept(b, width, height, withAspect)
    decreases |b|
  {
    if b == [] {
      assert a + b == a;
    } else {
      var init := b[..|b| - 1];
      KeptAppend(a, init, width, height, withAspect);
      assert (a + b)[..|a + b| - 1] == a + init;
      assert (a + b)[|a + b| - 1] == b[|b| - 1];
    }
  }

  /**
   * The contour loop: appends every box that passes the filter
   * (extract_cells.py:147-156 with the aspect test, detect_arucoImage.py:83-87 without).
   */
  method FilterBoxes(cs: seq<Box>, width: nat, height: nat, withAspect: bool) returns (r: Result<seq<Box>, string>)
    ensures r == FilterSpec(cs, width, height, withAspect)
  {
    var boxes: seq<Box> := [];
    var i := 0;
    while i < |cs|
      invariant 0 <= i <= |cs|
      invariant withAspect ==> forall j :: 0 <= j < i ==> cs[j].h != 0
      invariant boxes == Kept(cs[..i], width, height, withAspect)
    {
      var b := cs[i];
      if withAspect && b.h == 0 {
        return Err(ZeroDivisionMessage);
      }
      if Keep(b, width, height, withAspect) {
        boxes := boxes + [b];
      }
      assert cs[..i + 1][..i] == cs[..i];
      i := i + 1;
    }
    assert cs[..i] == cs;
    r := Ok(boxes);
  }

  // ---------------------------------------------------------------- rows

  function Abs(n: int): nat { if n < 0 then -n else n }
  function Max(a: int, b: int): int { if a >= b then a else b }
  function Min(a: int, b: int): int { if a <= b then a else b }

  /** `abs(b[1] - current_row[-1][1]) < y_threshold`. */
  predicate Near(prev: Box, b: Box) {
    Abs(b.y - prev.y) < YThreshold
  }

  /** One step of the grouping loop: `b` joins the last row, or starts a new one. */
  function AddBox(rows: seq<seq<Box>>, b: Box, join: bool): (r: seq<seq<Box>>)
    requires rows != []
    ensures r != [] && |r| <= |rows| + 1
  {
    if join then rows[..|rows| - 1] + [rows[|rows| - 1] + [b]] else rows + [[b]]
  }

  /**
   * The rows the grouping loop builds: walking the boxes in order, a box
   * joins the current row when it is near the box before it, and starts a
   * new row otherwise.
   */
  function Rows(s: seq<Box>): (rows: seq<seq<Box>>)
    ensures |rows| <= |s|
    ensures s != [] ==> rows != []
    decreases |s|
  {
    if |s| <= 1 then (if s == [] then [] else [s])
    else AddBox(Rows(s[..|s| - 1]), s[|s| - 1], Near(s[|s| - 2], s[|s| - 1]))
  }

  lemma RowsSnoc(s: seq<Box>, b: Box)
    requires s != []
    ensures Rows(s + [b]) == AddBox(Rows(s), b, Near(s[|s| - 1], b))
  {
    assert (s + [b])[..|s|] == s;
  }

  function Flatten<T>(rows: seq<seq<T>>): seq<T> {
    if rows == [] then [] else Flatten(rows[..|rows| - 1]) + rows[|rows| - 1]
  }

  lemma FlattenAppend<T>(rows: seq<seq<T>>, row: seq<T>)
    ensures Flatten(rows + [row]) == Flatten(rows) + row
  {
    assert (rows + [row])[..|rows|] == rows;
  }

  /** The last box of the last row is the last box. */
  lemma {:induction false} RowsLast(s: seq<Box>)
    requires s != []
    ensures Rows(s)[|Rows(s)| - 1] != []
    ensures Rows(s)[|Rows(s)| - 1][|Rows(s)[|Rows(s)| - 1]| - 1] == s[|s| - 1]
  {
    if |s| > 1 {
      RowsLast(s[..|s| - 1]);
    }
  }

  /** Boxes each near the one before them form a single row. */
  lemma {:induction false} RowsOfChain(s: seq<Box>)
    requires s != []
    requires forall i :: 0 < i < |s| ==> Near(s[i - 1], s[i])
    ensures Rows(s) == [s]
  {
    if |s| > 1 {
      var init := s[..|s| - 1];
      RowsOfChain(init);
      assert init + [s[|s| - 1]] == s;
    }
  }

  /** Read in order, the rows give the boxes back: nothing lost, added or reordered. */
  lemma {:induction false} RowsFlatten(s: seq<Box>)
    ensures Flatten(Rows(s)) == s
  {
    if |s| == 1 {
      assert Flatten([s]) == Flatten([]) + s;
    } else if |s| > 1 {
      var init, b := s[..|s| - 1], s[|s| - 1];
      RowsFlatten(init);
      FlattenAddBox(Rows(init), b, Near(s[|s| - 2], b));
      assert s == init + [b];
    }
  }

  /** Either way a grouping step appends the box to the flattened rows. */
  lemma FlattenAddBox(rs: seq<seq<Box>>, b: Box, join: bool)
    requires rs != []
    ensures Flatten(AddBox(rs, b, join)) == Flatten(rs) + [b]
  {
    if join {
      var front, last := rs[..|rs| - 1], rs[|rs| - 1];
      assert rs == front + [last];
      FlattenAppend(front, last);
      FlattenAppend(front, last + [b]);
    } else {
      FlattenAppend(rs, [b]);
    }
  }

  /** No row is empty. */
  lemma {:induction false} RowsNonEmpty(s: seq<Box>)
    ensures forall k :: 0 <= k < |Rows(s)| ==> Rows(s)[k] != []
  {
    if |s| > 1 {
      RowsNonEmpty(s[..|s| - 1]);
    }
  }

  /** Every box of `row` is near the box before it. */
  predicate Chained(row: seq<Box>) {
    forall j :: 0 < j < |row| ==> Near(row[j - 1], row[j])
  }

  lemma ChainedSnoc(row: seq<Box>, b: Box)
    requires row != [] && Chained(row) && Near(row[|row| - 1], b)
    ensures Chained(row + [b])
  {
    forall j | 0 < j < |row| + 1 ensures Near((row + [b])[j - 1], (row + [b])[j]) {
      if j < |row| {
        assert (row + [b])[j - 1] == row[j - 1] && (row + [b])[j] == row[j];
      }
    }
  }

  /** A step of the grouping keeps every row chained. */
  lemma ChainedAddBox(rs: seq<seq<Box>>, b: Box, join: bool)
    requires rs != [] && rs[|rs| - 1] != []
    requires forall k :: 0 <= k < |rs| ==> Chained(rs[k])
    requires join ==> Near(rs[|rs| - 1][|rs[|rs| - 1]| - 1], b)
    ensures forall k :: 0 <= k < |AddBox(rs, b, join)| ==> Chained(AddBox(rs, b, join)[k])
  {
    var r := AddBox(rs, b, join);
    if join {
      ChainedSnoc(rs[|rs| - 1], b);
      assert r == rs[..|rs| - 1] + [rs[|rs| - 1] + [b]];
      forall k | 0 <= k < |r| ensures Chained(r[k]) {
        if k < |rs| - 1 {
          assert r[k] == rs[k];
        }
      }
    } else {
      forall k | 0 <= k < |r| ensures Chained(r[k]) {
        if k < |rs| {
          assert r[k] == rs[k];
        }
      }
    }
  }

  /** Inside a row, every box is near the box before it. */
  lemma {:induction false} RowsWithin(s: seq<Box>)
    ensures forall k :: 0 <= k < |Rows(s)| ==> Chained(Rows(s)[k])
  {
    if |s| > 1 {
      var init, b := s[..|s| - 1], s[|s| - 1];
      RowsWithin(init);
      RowsLast(init);
      assert s[|s| - 2] == init[|init| - 1];
      ChainedAddBox(Rows(init), b, Near(s[|s| - 2], b));
    }
  }

  /** Row `k` starts with a box that is not near the last box of row `k - 1`. */
  predicate BreakBefore(rows: seq<seq<Box>>, k: int) {
    0 < k < |rows| && rows[k - 1] != [] && rows[k] != [] && !Near(rows[k - 1][|rows[k - 1]| - 1], rows[k][0])
  }

  /** The first box of a row is not near the last box of the row before it. */
  lemma {:induction false} RowsBetween(s: seq<Box>)
    ensures forall k :: 0 < k < |Rows(s)| ==> BreakBefore(Rows(s), k)
  {
    RowsNonEmpty(s);
    if |s| > 1 {
      var init, b := s[..|s| - 1], s[|s| - 1];
      RowsBetween(init);
      RowsNonEmpty(init);
      RowsLast(init);
      var rs := Rows(init);
      forall k | 0 < k < |Rows(s)| ensures BreakBefore(Rows(s), k) {
        if Near(s[|s| - 2], b) {
          assert Rows(s)[k - 1] == rs[k - 1];
          assert Rows(s)[k][0] == rs[k][0];
          assert BreakBefore(rs, k);
        } else if k < |rs| {
          assert BreakBefore(rs, k);
        }
      }
    }
  }

  /** A grouping step seen from the loop: the current row is the last one. */
  lemma AddBoxSplit(rows: seq<seq<Box>>, current: seq<Box>, b: Box, join: bool)
    ensures AddBox(rows + [current], b, join)
         == if join then rows + [current + [b]] else rows + [current] + [[b]]
  {
    assert (rows + [current])[..|rows|] == rows;
  }

  /** One pass of the grouping loop extends the rows of the prefix by the next box. */
  lemma GroupStep(prefix: seq<Box>, b: Box, rows: seq<seq<Box>>, current: seq<Box>)
    requires current != [] && prefix != [] && current[|current| - 1] == prefix[|prefix| - 1]
    requires rows + [current] == Rows(prefix)
    ensures Rows(prefix + [b]) == if Near(current[|current| - 1], b)
      then rows + [current + [b]] else rows + [current] + [[b]]
  {
    RowsSnoc(prefix, b);
    AddBoxSplit(rows, current, b, Near(current[|current| - 1], b));
  }

  /**
   * The grouping loop of extract_cells.py:162-172 and detect_arucoImage.py:91-101.
   * `boxes[0]` is read unguarded, so at least one box is needed.
   */
  method GroupRows(boxes: seq<Box>) returns (rows: seq<seq<Box>>)
    requires boxes != []
    ensures rows == Rows(boxes)
  {
    rows := [];
    var current := [boxes[0]];
    var i := 1;
    assert boxes[..1] == [boxes[0]];
    while i < |boxes|
      invariant 1 <= i <= |boxes|
      invariant current != [] && current[|current| - 1] == boxes[i - 1]
      invariant rows + [current] == Rows(boxes[..i])
    {
      var b := boxes[i];
      assert boxes[..i + 1] == boxes[..i] + [b];
      GroupStep(boxes[..i], b, rows, current);
      if Abs(b.y - current[|current| - 1].y) < YThreshold {
        current := current + [b];
      } else {
        rows := rows + [current];
        current := [b];
      }
      i := i + 1;
    }
    assert boxes[..i] == boxes;
    rows := rows + [current];
  }

  // ------------------------------------------------------- ID-cell choice

  /** `[sorted(row, key=lambda b: b[0]) for row in rows_grouped]`. */
  function SortRows(rows: seq<seq<Box>>): (r: seq<seq<Box>>)
    ensures |r| == |rows|
  {
    seq(|rows|, k requires 0 <= k < |rows| => SortBy(rows[k], XKey))
  }

  /** Rows with at least `id_cols` boxes. */
  function LongRows(rows: seq<seq<Box>>): nat {
    if rows == [] then 0
    else LongRows(rows[..|rows| - 1]) + (if |rows[|rows| - 1]| >= IdCols then 1 else 0)
  }

  /** `chain.from_iterable(row[-id_cols:] for row in rows if len(row) >= id_cols)`. */
  function LastEights(rows: seq<seq<Box>>): seq<Box> {
    if rows == [] then []
    else
      var row := rows[|rows| - 1];
      LastEights(rows[..|rows| - 1]) + (if |row| >= IdCols then row[|row| - IdCols..] else [])
  }

  /** The ID cells of a list of boxes: sort by y, group, sort rows by x, take the last eight. */
  function IdCells(boxes: seq<Box>): seq<Box> {
    LastEights(SortRows(Rows(SortBy(boxes, YKey))))
  }

  lemma {:induction false} LastEightsLength(rows: seq<seq<Box>>)
    ensures |LastEights(rows)| == IdCols * LongRows(rows)
  {
    if rows != [] {
      LastEightsLength(rows[..|rows| - 1]);
    }
  }

  lemma {:induction false} LongRowsSorted(rows: seq<seq<Box>>)
    ensures LongRows(SortRows(rows)) == LongRows(rows)
  {
    if rows != [] {
      var init := rows[..|rows| - 1];
      LongRowsSorted(init);
      assert SortRows(rows)[..|rows| - 1] == SortRows(init);
    }
  }

  /** Each chosen group is the last eight of the sorted row: no box is chosen twice. */
  lemma {:induction false} LastEightsSub(rows: seq<seq<Box>>)
    ensures multiset(LastEights(rows)) <= multiset(Flatten(rows))
  {
    if rows != [] {
      var init, row := rows[..|rows| - 1], rows[|rows| - 1];
      LastEightsSub(init);
      if |row| >= IdCols {
        assert row == row[..|row| - IdCols] + row[|row| - IdCols..];
        assert multiset(row[|row| - IdCols..]) <= multiset(row);
      }
    }
  }

  lemma {:induction false} FlattenSortRows(rows: seq<seq<Box>>)
    ensures multiset(Flatten(SortRows(rows))) == multiset(Flatten(rows))
  {
    if rows != [] {
      var init := rows[..|rows| - 1];
      FlattenSortRows(init);
      assert SortRows(rows)[..|rows| - 1] == SortRows(init);
      SortByPerm(rows[|rows| - 1], XKey);
    }
  }

  /**
   * `id_cells` holds eight boxes for every row of at least eight boxes, and
   * every one of them is a distinct box of the input.
   */
  lemma IdCellsShape(boxes: seq<Box>)
    ensures |IdCells(boxes)| == IdCols * LongRows(Rows(SortBy(boxes, YKey)))
    ensures multiset(IdCells(boxes)) <= multiset(boxes)
  {
    var rows := Rows(SortBy(boxes, YKey));
    LastEightsLength(SortRows(rows));
    LongRowsSorted(rows);
    LastEightsSub(SortRows(rows));
    FlattenSortRows(rows);
    RowsFlatten(SortBy(boxes, YKey));
    SortByPerm(boxes, YKey);
  }

  /** Eight boxes on one line, already in order both ways, are exactly the ID cells. */
  lemma IdCellsOfOneRow(boxes: seq<Box>)
    requires |boxes| == IdCols
    requires SortedBy(boxes, YKey) && SortedBy(boxes, XKey)
    requires forall i :: 0 < i < |boxes| ==> Near(boxes[i - 1], boxes[i])
    ensures IdCells(boxes) == boxes
  {
    SortBySortedInput(boxes, YKey);
    RowsOfChain(boxes);
    SortBySortedInput(boxes, XKey);
    assert SortRows([boxes]) == [boxes];
    assert LastEights([boxes]) == LastEights([]) + boxes[0..];
  }

  /** Inside every row the boxes run left to right; the rows run top to bottom. */
  lemma SortedRowsOrdered(boxes: seq<Box>)
    ensures SortedBy(Flatten(Rows(SortBy(boxes, YKey))), YKey)
    ensures forall k :: 0 <= k < |SortRows(Rows(SortBy(boxes, YKey)))| ==>
              SortedBy(SortRows(Rows(SortBy(boxes, YKey)))[k], XKey)
  {
    RowsFlatten(SortBy(boxes, YKey));
    SortBySorted(boxes, YKey);
    var rows := Rows(SortBy(boxes, YKey));
    forall k | 0 <= k < |rows| ensures SortedBy(SortRows(rows)[k], XKey) {
      SortBySorted(rows[k], XKey);
    }
  }

  // -------------------------------------------------------------- markers

  datatype Point = Point(x: int, y: int)

  /** A detected marker: its four corners in the detector's order. */
  datatype Marker = Marker(c0: Point, c1: Point, c2: Point, c3: Point)

  /** The sheet corners the perspective transform starts from. */
  datatype Quad = Quad(topLeft: Point, topRight: Point, bottomRight: Point, bottomLeft: Point)

  /**
   * The centre `(cy, cx)` of a marker scaled by four: the sum of its
   * corners orders markers exactly as their mean does.
   */
  function CentreKey(m: Marker): Key {
    (m.c0.y + m.c1.y + m.c2.y + m.c3.y, m.c0.x + m.c1.x + m.c2.x + m.c3.x)
  }

  function CentreXKey(m: Marker): Key {
    (m.c0.x + m.c1.x + m.c2.x + m.c3.x, 0)
  }

  /** `top_two`: the first two markers by centre `(cy, cx)`, sorted by `cx`. */
  function TopPair(ms: seq<Marker>): (r: seq<Marker>)
    requires |ms| >= 2
    ensures |r| == 2
  {
    SortBy(SortBy(ms, CentreKey)[..2], CentreXKey)
  }

  /** `bottom_two`: every other marker, sorted by `cx`. */
  function BottomGroup(ms: seq<Marker>): (r: seq<Marker>)
    requires |ms| >= 2
    ensures |r| == |ms| - 2
  {
    SortBy(SortBy(ms, CentreKey)[2..], CentreXKey)
  }

  /**
   * extract_cells.py:51-58 and detect_arucoImage.py:33-40: corner 0 of the
   * left top marker, corner 1 of the right top marker, corner 2 of the
   * second bottom marker and corner 3 of the first bottom marker. Only
   * called once at least four markers were found.
   */
  function OrderCorners(ms: seq<Marker>): Quad
    requires |ms| >= 4
  {
    var top, bottom := TopPair(ms), BottomGroup(ms);
    Quad(top[0].c0, top[1].c1, bottom[1].c2, bottom[0].c3)
  }

  /**
   * The top pair and the bottom group split the markers; no bottom marker
   * comes before a top marker by centre; both groups run left to right;
   * and the corners are taken from them as the sheet layout says.
   */
  lemma MarkerOrder(ms: seq<Marker>)
    requires |ms| >= 4
    ensures multiset(TopPair(ms) + BottomGroup(ms)) == multiset(ms)
    ensures forall t, b :: t in TopPair(ms) && b in BottomGroup(ms) ==> KeyLe(CentreKey(t), CentreKey(b))
    ensures SortedBy(TopPair(ms), CentreXKey) && SortedBy(BottomGroup(ms), CentreXKey)
    ensures OrderCorners(ms).topLeft == TopPair(ms)[0].c0
    ensures OrderCorners(ms).topRight == TopPair(ms)[1].c1
    ensures OrderCorners(ms).bottomRight == BottomGroup(ms)[1].c2
    ensures OrderCorners(ms).bottomLeft == BottomGroup(ms)[0].c3
  {
    var sorted := SortBy(ms, CentreKey);
    SortByPerm(ms, CentreKey);
    SortBySorted(ms, CentreKey);
    SortedPrefixFirst(sorted, CentreKey, 2);
    TopBottomSplit(sorted);
    SortBySorted(sorted[..2], CentreXKey);
    SortBySorted(sorted[2..], CentreXKey);
    forall t, b | t in TopPair(ms) && b in BottomGroup(ms) ensures KeyLe(CentreKey(t), CentreKey(b)) {
      InSortBy(t, sorted[..2], CentreXKey);
      InSortBy(b, sorted[2..], CentreXKey);
    }
  }

  /** Sorting each part of a split keeps the markers of the whole. */
  lemma TopBottomSplit(sorted: seq<Marker>)
    requires |sorted| >= 2
    ensures multiset(SortBy(sorted[..2], CentreXKey) + SortBy(sorted[2..], CentreXKey)) == multiset(sorted)
  {
    SortByPerm(sorted[..2], CentreXKey);
    SortByPerm(sorted[2..], CentreXKey);
    assert sorted == sorted[..2] + sorted[2..];
  }

  lemma InSortBy<T>(x: T, s: seq<T>, key: T -> Key)
    ensures x in SortBy(s, key) <==> x in s
  {
    SortByPerm(s, key);
    assert x in SortBy(s, key) <==> x in multiset(SortBy(s, key));
  }

  /** In a sorted sequence every element before index `k` precedes every element from `k` on. */
  lemma SortedPrefixFirst<T>(s: seq<T>, key: T -> Key, k: nat)
    requires SortedBy(s, key) && k <= |s|
    ensures forall a, b :: a in s[..k] && b in s[k..] ==> KeyLe(key(a), key(b))
  {
    forall a, b | a in s[..k] && b in s[k..] ensures KeyLe(key(a), key(b)) {
      var i :| 0 <= i < k && s[..k][i] == a;
      var j :| 0 <= j < |s| - k && s[k..][j] == b;
      assert s[i] == a && s[k + j] == b;
    }
  }
}
