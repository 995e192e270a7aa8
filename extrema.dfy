/** The per-field minimum/maximum scan of DiagnosticScalar::compute: a
    triple loop (z outermost, x innermost) over the scan box of a field,
    keeping a running minimum and maximum that start at the field's first
    value.  As written, the branch that raises the maximum records the cell
    index in the MINIMUM's index, so the maximum's index never moves. */
module Extrema {

  /** `val_index`: a value and the linear cell index it was found at. */
  datatype ValIndex = ValIndex(val: real, index: int)

  /** The running minimum and maximum. */
  datatype Extremes = Extremes(minVal: ValIndex, maxVal: ValIndex)

  /** `iFieldStart`, `iFieldEnd` and `iFieldGlobalSize`, one entry per axis. */
  datatype ScanBox = ScanBox(start: seq<nat>, end: seq<nat>, size: seq<nat>)

  predicate WellFormed(b: ScanBox) {
    |b.start| == 3 && |b.end| == 3 && |b.size| == 3 && forall a :: 0 <= a < 3 ==> b.start[a] <= b.end[a]
  }

  /** What ScanBounds needs of its inputs: at most three axes, and a start
      and a buffer size for each axis's staggering. */
  predicate BoundsDefined(isDual: seq<nat>, istart: seq<seq<nat>>, bufsize: seq<seq<nat>>, dims: seq<nat>) {
    && |isDual| <= 3 && |istart| >= |isDual| && |bufsize| >= |isDual| && |dims| >= |isDual|
    && forall a :: 0 <= a < |isDual| ==> isDual[a] < |istart[a]| && isDual[a] < |bufsize[a]|
  }

  /** The scan box ScanBounds builds, axis by axis. */
  function Bounds(isDual: seq<nat>, istart: seq<seq<nat>>, bufsize: seq<seq<nat>>, dims: seq<nat>): (b: ScanBox)
    requires BoundsDefined(isDual, istart, bufsize, dims)
    ensures WellFormed(b)
  {
    ScanBox(seq(3, a requires 0 <= a < 3 => if a < |isDual| then istart[a][isDual[a]] else 0),
            seq(3, a requires 0 <= a < 3 => if a < |isDual| then istart[a][isDual[a]] + bufsize[a][isDual[a]] else 1),
            seq(3, a requires 0 <= a < 3 => if a < |isDual| then dims[a] else 1))
  }

  /** The scan box of a field with `|isDual|` axes: on each of its axes it
      starts at the patch's `istart` for the field's staggering and spans
      `bufsize` cells of a `dims`-long axis; the axes it lacks keep start 0,
      end 1 and size 1, so a 1-D or 2-D field is scanned as a box one cell
      thick along them. */
  method ScanBounds(isDual: seq<nat>, istart: seq<seq<nat>>, bufsize: seq<seq<nat>>, dims: seq<nat>) returns (b: ScanBox)
    requires BoundsDefined(isDual, istart, bufsize, dims)
    ensures WellFormed(b)
    ensures forall a :: 0 <= a < |isDual| ==>
      && b.start[a] == istart[a][isDual[a]]
      && b.end[a] == istart[a][isDual[a]] + bufsize[a][isDual[a]]
      && b.size[a] == dims[a]
    ensures forall a :: |isDual| <= a < 3 ==> b.start[a] == 0 && b.end[a] == 1 && b.size[a] == 1
    ensures b == Bounds(isDual, istart, bufsize, dims)
  {
    var start, end, size := [0, 0, 0], [1, 1, 1], [1, 1, 1];
    for i := 0 to |isDual|
      invariant |start| == 3 && |end| == 3 && |size| == 3
      invariant forall a :: 0 <= a < i ==>
        start[a] == istart[a][isDual[a]] && end[a] == istart[a][isDual[a]] + bufsize[a][isDual[a]] && size[a] == dims[a]
      invariant forall a :: i <= a < 3 ==> start[a] == 0 && end[a] == 1 && size[a] == 1
    {
      start := start[i := istart[i][isDual[i]]];
      end := end[i := start[i] + bufsize[i][isDual[i]]];
      size := size[i := dims[i]];
    }
    b := ScanBox(start, end, size);
  }

  /** Linear index `k + j*nz + i*ny*nz` of cell (i, j, k). */
  function Linear(b: ScanBox, i: int, j: int, k: int): int
    requires WellFormed(b)
  {
    k + j * b.size[2] + i * b.size[1] * b.size[2]
  }

  predicate InScan(b: ScanBox, i: int, j: int, k: int)
    requires WellFormed(b)
  {
    b.start[0] <= i < b.end[0] && b.start[1] <= j < b.end[1] && b.start[2] <= k < b.end[2]
  }

  /** Every cell of the box is a valid index of the field. */
  ghost predicate InField(f: seq<real>, b: ScanBox)
    requires WellFormed(b)
  {
    forall i, j, k :: InScan(b, i, j, k) ==> 0 <= Linear(b, i, j, k) < |f|
  }

  // ---------------------------------------------------------------------
  // Visit order

  /** Cells (i, j, k) with start[0] <= i < iEnd, in loop order. */
  function Row(b: ScanBox, k: int, j: int, iEnd: int): seq<int>
    requires WellFormed(b)
    decreases iEnd - b.start[0]
  {
    if iEnd <= b.start[0] then [] else Row(b, k, j, iEnd - 1) + [Linear(b, iEnd - 1, j, k)]
  }

  /** Full rows j with start[1] <= j < jEnd of plane k, in loop order. */
  function Plane(b: ScanBox, k: int, jEnd: int): seq<int>
    requires WellFormed(b)
    decreases jEnd - b.start[1]
  {
    if jEnd <= b.start[1] then [] else Plane(b, k, jEnd - 1) + Row(b, k, jEnd - 1, b.end[0])
  }

  /** Full planes k with start[2] <= k < kEnd, in loop order. */
  function Planes(b: ScanBox, kEnd: int): seq<int>
    requires WellFormed(b)
    decreases kEnd - b.start[2]
  {
    if kEnd <= b.start[2] then [] else Planes(b, kEnd - 1) + Plane(b, kEnd - 1, b.end[1])
  }

  /** Every index the scan visits, in the order it visits them. */
  function Visited(b: ScanBox): seq<int>
    requires WellFormed(b)
  {
    Planes(b, b.end[2])
  }

  lemma {:induction false} RowCells(b: ScanBox, k: int, j: int, iEnd: int, x: int)
    requires WellFormed(b)
    ensures x in Row(b, k, j, iEnd) <==> exists i :: b.start[0] <= i < iEnd && x == Linear(b, i, j, k)
    decreases iEnd - b.start[0]
  {
    if iEnd > b.start[0] {
      RowCells(b, k, j, iEnd - 1, x);
    }
  }

  lemma {:induction false} PlaneCells(b: ScanBox, k: int, jEnd: int, x: int)
    requires WellFormed(b)
    ensures x in Plane(b, k, jEnd) <==>
      exists i, j :: b.start[0] <= i < b.end[0] && b.start[1] <= j < jEnd && x == Linear(b, i, j, k)
    decreases jEnd - b.start[1]
  {
    if jEnd > b.start[1] {
      PlaneCells(b, k, jEnd - 1, x);
      RowCells(b, k, jEnd - 1, b.end[0], x);
    }
  }

  lemma {:induction false} PlanesCells(b: ScanBox, kEnd: int, x: int)
    requires WellFormed(b)
    ensures x in Planes(b, kEnd) <==>
      exists i, j, k :: b.start[0] <= i < b.end[0] && b.start[1] <= j < b.end[1] && b.start[2] <= k < kEnd
                        && x == Linear(b, i, j, k)
    decreases kEnd - b.start[2]
  {
    if kEnd > b.start[2] {
      PlanesCells(b, kEnd - 1, x);
      PlaneCells(b, kEnd - 1, b.end[1], x);
    }
  }

  /** The scan visits exactly the linear indices of the cells of its box. */
  lemma VisitedCells(b: ScanBox, x: int)
    requires WellFormed(b)
    ensures x in Visited(b) <==> exists i, j, k :: InScan(b, i, j, k) && x == Linear(b, i, j, k)
  {
    PlanesCells(b, b.end[2], x);
  }

  // ---------------------------------------------------------------------
  // The scan as a fold

  /** Before the loops: both extremes hold the field's first value, index 0. */
  function Initial(f: seq<real>): Extremes
    requires |f| > 0
  {
    Extremes(ValIndex(f[0], 0), ValIndex(f[0], 0))
  }

  /** One loop body, at cell index ii holding value v: a strictly smaller
      value becomes the minimum with index ii; a strictly larger value
      becomes the maximum's value, and ii becomes the MINIMUM's index. */
  function Step(e: Extremes, v: real, ii: int): Extremes {
    var mn := if e.minVal.val > v then ValIndex(v, ii) else e.minVal;
    if e.maxVal.val < v then Extremes(mn.(index := ii), e.maxVal.(val := v))
    else Extremes(mn, e.maxVal)
  }

  /** The field value at linear index x.  A scan whose box lies in the
      field (ScanField's precondition) only reads valid indices, so the
      0.0 for an index outside the field never enters its result. */
  function Value(f: seq<real>, x: int): real {
    if 0 <= x < |f| then f[x] else 0.0
  }

  /** The extremes after the loop bodies for `cells`, in order. */
  function Scan(f: seq<real>, cells: seq<int>): Extremes
    requires |f| > 0
  {
    if |cells| == 0 then Initial(f)
    else
      var n := |cells| - 1;
      Step(Scan(f, cells[..n]), Value(f, cells[n]), cells[n])
  }

  /** Cell t of the visit changes the running extremes: its value is
      strictly below the running minimum or strictly above the running
      maximum. */
  predicate Changes(f: seq<real>, cells: seq<int>, t: int)
    requires |f| > 0 && 0 <= t < |cells|
  {
    var e := Scan(f, cells[..t]);
    Value(f, cells[t]) < e.minVal.val || Value(f, cells[t]) > e.maxVal.val
  }

  /** A cell that changes nothing leaves both extremes as they were. */
  lemma StepKeeps(e: Extremes, v: real, ii: int)
    requires !(v < e.minVal.val || v > e.maxVal.val)
    ensures Step(e, v, ii) == e
  {
  }

  /** MINIMUM AND MAXIMUM.  The scan ends with the least and the greatest of
      the first value and every visited value, each attained. */
  lemma {:induction false} ScanExtremes(f: seq<real>, cells: seq<int>)
    requires |f| > 0
    ensures Scan(f, cells).minVal.val <= f[0] <= Scan(f, cells).maxVal.val
    ensures forall t :: 0 <= t < |cells| ==> Scan(f, cells).minVal.val <= Value(f, cells[t]) <= Scan(f, cells).maxVal.val
    ensures Scan(f, cells).minVal.val == f[0] || exists t :: 0 <= t < |cells| && Scan(f, cells).minVal.val == Value(f, cells[t])
    ensures Scan(f, cells).maxVal.val == f[0] || exists t :: 0 <= t < |cells| && Scan(f, cells).maxVal.val == Value(f, cells[t])
  {
    if |cells| > 0 {
      var n := |cells| - 1;
      var p := cells[..n];
      ScanExtremes(f, p);
      var e, r := Scan(f, p), Scan(f, cells);
      assert r == Step(e, Value(f, cells[n]), cells[n]);
      assert forall t :: 0 <= t < n ==> p[t] == cells[t];
      if r.minVal.val != f[0] && r.minVal.val != Value(f, cells[n]) {
        var t :| 0 <= t < n && e.minVal.val == Value(f, p[t]);
        assert r.minVal.val == Value(f, cells[t]);
      }
      if r.maxVal.val != f[0] && r.maxVal.val != Value(f, cells[n]) {
        var t :| 0 <= t < n && e.maxVal.val == Value(f, p[t]);
        assert r.maxVal.val == Value(f, cells[t]);
      }
    }
  }

  /** The maximum's index is never written: it stays 0. */
  lemma {:induction false} MaxIndexStaysZero(f: seq<real>, cells: seq<int>)
    requires |f| > 0
    ensures Scan(f, cells).maxVal.index == 0
  {
    if |cells| > 0 {
      MaxIndexStaysZero(f, cells[..|cells| - 1]);
    }
  }

  /** THE MINIMUM'S INDEX.  It is the index of the last visited cell that
      lowered the running minimum or raised the running maximum, and 0 when
      no cell did (ties change nothing). */
  lemma {:induction false} MinIndexIsLastChange(f: seq<real>, cells: seq<int>)
    requires |f| > 0
    ensures (forall t :: 0 <= t < |cells| ==> !Changes(f, cells, t)) ==> Scan(f, cells).minVal.index == 0
    ensures forall t :: 0 <= t < |cells| && Changes(f, cells, t) && (forall u :: t < u < |cells| ==> !Changes(f, cells, u))
                        ==> Scan(f, cells).minVal.index == cells[t]
  {
    if |cells| > 0 {
      var n := |cells| - 1;
      var p := cells[..n];
      assert cells[..n] == p;
      if Changes(f, cells, n) {
        assert Scan(f, cells).minVal.index == cells[n];
      } else {
        StepKeeps(Scan(f, p), Value(f, cells[n]), cells[n]);
        assert Scan(f, cells) == Scan(f, p);
        MinIndexIsLastChange(f, p);
        forall t | 0 <= t < n
          ensures Changes(f, cells, t) == Changes(f, p, t)
        {
          assert cells[..t] == p[..t];
        }
      }
    }
  }

  // ---------------------------------------------------------------------
  // The loops

  /** The scan of one field over its box, as the triple loop runs it. */
  method ScanField(f: seq<real>, b: ScanBox) returns (minVal: ValIndex, maxVal: ValIndex)
    requires |f| > 0 && WellFormed(b) && InField(f, b)
    ensures Extremes(minVal, maxVal) == Scan(f, Visited(b))
    ensures minVal.val <= f[0] <= maxVal.val
    ensures forall i, j, k :: InScan(b, i, j, k) ==> minVal.val <= f[Linear(b, i, j, k)] <= maxVal.val
    ensures maxVal.index == 0
  {
    minVal, maxVal := ValIndex(f[0], 0), ValIndex(f[0], 0);
    ghost var seen: seq<int> := [];
    var k := b.start[2];
    while k < b.end[2]
      invariant b.start[2] <= k <= b.end[2]
      invariant seen == Planes(b, k)
      invariant Extremes(minVal, maxVal) == Scan(f, seen)
    {
      minVal, maxVal := ScanPlane(f, b, k, seen, minVal, maxVal);
      PlanesNext(b, k);
      seen := seen + Plane(b, k, b.end[1]);
      k := k + 1;
    }
    BoxExtremes(f, b);
  }

  /** The middle loop of the scan: the rows of plane k, y ascending. */
  method ScanPlane(f: seq<real>, b: ScanBox, k: int, ghost pre: seq<int>, mn: ValIndex, mx: ValIndex)
    returns (minVal: ValIndex, maxVal: ValIndex)
    requires |f| > 0 && WellFormed(b) && InField(f, b) && b.start[2] <= k < b.end[2]
    requires Extremes(mn, mx) == Scan(f, pre)
    ensures Extremes(minVal, maxVal) == Scan(f, pre + Plane(b, k, b.end[1]))
  {
    minVal, maxVal := mn, mx;
    var j := b.start[1];
    assert pre + Plane(b, k, j) == pre;
    while j < b.end[1]
      invariant b.start[1] <= j <= b.end[1]
      invariant Extremes(minVal, maxVal) == Scan(f, pre + Plane(b, k, j))
    {
      minVal, maxVal := ScanRow(f, b, k, j, pre + Plane(b, k, j), minVal, maxVal);
      PlaneExtend(pre, b, k, j);
      j := j + 1;
    }
  }

  /** The innermost loop of the scan: the cells of row (j, k), x ascending,
      each compared with the running minimum and maximum. */
  method ScanRow(f: seq<real>, b: ScanBox, k: int, j: int, ghost pre: seq<int>, mn: ValIndex, mx: ValIndex)
    returns (minVal: ValIndex, maxVal: ValIndex)
    requires |f| > 0 && WellFormed(b) && InField(f, b)
    requires b.start[1] <= j < b.end[1] && b.start[2] <= k < b.end[2]
    requires Extremes(mn, mx) == Scan(f, pre)
    ensures Extremes(minVal, maxVal) == Scan(f, pre + Row(b, k, j, b.end[0]))
  {
    minVal, maxVal := mn, mx;
    var i := b.start[0];
    assert pre + Row(b, k, j, i) == pre;
    while i < b.end[0]
      invariant b.start[0] <= i <= b.end[0]
      invariant Extremes(minVal, maxVal) == Scan(f, pre + Row(b, k, j, i))
    {
      var ii := k + j * b.size[2] + i * b.size[1] * b.size[2];
      RowCell(f, b, pre, k, j, i);
      ghost var e := Extremes(minVal, maxVal);
      if minVal.val > f[ii] {
        minVal := minVal.(val := f[ii]);
        minVal := minVal.(index := ii);
      }
      if maxVal.val < f[ii] {
        maxVal := maxVal.(val := f[ii]);
        minVal := minVal.(index := ii);
      }
      assert Extremes(minVal, maxVal) == Step(e, f[ii], ii);
      i := i + 1;
    }
  }

  /** Cell i of row (j, k): a valid index of the field, and the next
      element of the visit, so the scan takes one more Step. */
  lemma RowCell(f: seq<real>, b: ScanBox, pre: seq<int>, k: int, j: int, i: int)
    requires |f| > 0 && WellFormed(b) && InField(f, b)
    requires b.start[0] <= i < b.end[0] && b.start[1] <= j < b.end[1] && b.start[2] <= k < b.end[2]
    ensures Linear(b, i, j, k) == k + j * b.size[2] + i * b.size[1] * b.size[2]
    ensures 0 <= Linear(b, i, j, k) < |f|
    ensures pre + Row(b, k, j, i) + [Linear(b, i, j, k)] == pre + Row(b, k, j, i + 1)
    ensures Scan(f, pre + Row(b, k, j, i) + [Linear(b, i, j, k)])
            == Step(Scan(f, pre + Row(b, k, j, i)), f[Linear(b, i, j, k)], Linear(b, i, j, k))
  {
    assert InScan(b, i, j, k);
    ScanAppend(f, pre + Row(b, k, j, i), Linear(b, i, j, k));
    RowExtend(pre, b, k, j, i);
  }

  lemma RowExtend(pre: seq<int>, b: ScanBox, k: int, j: int, i: int)
    requires WellFormed(b) && b.start[0] <= i
    ensures pre + Row(b, k, j, i) + [Linear(b, i, j, k)] == pre + Row(b, k, j, i + 1)
  {
    RowNext(b, k, j, i);
  }

  lemma PlaneExtend(pre: seq<int>, b: ScanBox, k: int, j: int)
    requires WellFormed(b) && b.start[1] <= j
    ensures pre + Plane(b, k, j) + Row(b, k, j, b.end[0]) == pre + Plane(b, k, j + 1)
  {
    PlaneNext(b, k, j);
  }

  /** The scan over a box in the field ends with the least and the greatest
      of the first value and the values of the box, and the maximum's index
      still 0. */
  lemma BoxExtremes(f: seq<real>, b: ScanBox)
    requires |f| > 0 && WellFormed(b) && InField(f, b)
    ensures Scan(f, Visited(b)).minVal.val <= f[0] <= Scan(f, Visited(b)).maxVal.val
    ensures forall i, j, k :: InScan(b, i, j, k) ==>
      Scan(f, Visited(b)).minVal.val <= f[Linear(b, i, j, k)] <= Scan(f, Visited(b)).maxVal.val
    ensures Scan(f, Visited(b)).maxVal.index == 0
  {
    var e := Scan(f, Visited(b));
    ScanExtremes(f, Visited(b));
    MaxIndexStaysZero(f, Visited(b));
    forall i, j, k | InScan(b, i, j, k)
      ensures e.minVal.val <= f[Linear(b, i, j, k)] <= e.maxVal.val
    {
      var x := Linear(b, i, j, k);
      VisitedCells(b, x);
      var t :| 0 <= t < |Visited(b)| && Visited(b)[t] == x;
    }
  }

  /** One more loop body extends the scan by one cell. */
  lemma ScanAppend(f: seq<real>, cells: seq<int>, ii: int)
    requires |f| > 0 && 0 <= ii < |f|
    ensures Scan(f, cells + [ii]) == Step(Scan(f, cells), f[ii], ii)
  {
    assert (cells + [ii])[..|cells|] == cells;
  }

  lemma RowNext(b: ScanBox, k: int, j: int, i: int)
    requires WellFormed(b) && i >= b.start[0]
    ensures Row(b, k, j, i + 1) == Row(b, k, j, i) + [Linear(b, i, j, k)]
  {
  }

  lemma PlaneNext(b: ScanBox, k: int, j: int)
    requires WellFormed(b) && j >= b.start[1]
    ensures Plane(b, k, j + 1) == Plane(b, k, j) + Row(b, k, j, b.end[0])
  {
  }

  lemma PlanesNext(b: ScanBox, k: int)
    requires WellFormed(b) && k >= b.start[2]
    ensures Planes(b, k + 1) == Planes(b, k) + Plane(b, k, b.end[1])
  {
  }
}
