/**
 * Two-dimensional views over a row-major matrix origin, as the view tests
 * compose them: `sub<0>(b, e, v)` restricts the rows and `sub<1>(b, e, v)`
 * the columns, each by one one-dimensional range over that axis's index set.
 */
module NViews {
  import opened IndexSets

  datatype NView = NView(rows: IndexSet, cols: IndexSet)

  /** The origin matrix: one Identity index set per axis. */
  function Matrix(p: Pattern, nrows: nat, ncols: nat): (v: NView)
    ensures RangeView(v) && Extents(v) == (nrows, ncols) && Offsets(v) == (0, 0)
  {
    NView(Identity(p, nrows), Identity(p, ncols))
  }

  /** Both axes are chains of in-bounds ranges over the origin. */
  predicate RangeView(v: NView)
  {
    Bounded(v.rows) && RangeChain(v.rows) && Bounded(v.cols) && RangeChain(v.cols)
  }

  function Extent(v: NView, axis: nat): int
    requires axis < 2
  {
    if axis == 0 then Size(v.rows) else Size(v.cols)
  }

  function Extents(v: NView): (int, int)
  {
    (Size(v.rows), Size(v.cols))
  }

  function Offsets(v: NView): (int, int)
    requires RangeChain(v.rows) && RangeChain(v.cols)
  {
    (Offset(v.rows), Offset(v.cols))
  }

  /** `dash::sub<axis>(b, e, v)`: a range on one axis; the other axis and
      its index set are untouched. */
  function SubAxis(axis: nat, b: int, e: int, v: NView): (r: NView)
    requires axis < 2
    ensures axis == 0 ==> r.cols == v.cols
    ensures axis == 1 ==> r.rows == v.rows
    ensures RangeView(v) && 0 <= b <= e <= Extent(v, axis) ==>
              && RangeView(r)
              && Extent(r, axis) == e - b
              && Extent(r, 1 - axis) == Extent(v, 1 - axis)
              && (axis == 0 ==> Offsets(r) == (Offsets(v).0 + b, Offsets(v).1))
              && (axis == 1 ==> Offsets(r) == (Offsets(v).0, Offsets(v).1 + b))
  {
    if axis == 0 then NView(Sub(v.rows, b, e), v.cols)
    else NView(v.rows, Sub(v.cols, b, e))
  }

  /** Ranges on different axes commute. */
  lemma SubAxesCommute(b0: int, e0: int, b1: int, e1: int, v: NView)
    ensures SubAxis(1, b1, e1, SubAxis(0, b0, e0, v)) == SubAxis(0, b0, e0, SubAxis(1, b1, e1, v))
  {
  }

  /** The global index of the element at view coordinates `(r, c)`, with
      the origin's elements laid out row by row. */
  function GlobalAt(v: NView, r: int, c: int): int
    requires Bounded(v.rows) && Bounded(v.cols)
    requires 0 <= r < Size(v.rows) && 0 <= c < Size(v.cols)
  {
    Resolve(v.rows, r) * Origin(v.cols).domainSize + Resolve(v.cols, c)
  }

  /** A range view selects the rectangle at its offsets with its extents:
      element `(r, c)` is the origin's element `(offset0 + r, offset1 + c)`,
      which lies inside the origin. */
  lemma RangeViewSelectsRegion(v: NView, r: int, c: int)
    requires RangeView(v)
    requires 0 <= r < Size(v.rows) && 0 <= c < Size(v.cols)
    ensures GlobalAt(v, r, c) == (Offsets(v).0 + r) * Origin(v.cols).domainSize + Offsets(v).1 + c
    ensures 0 <= Offsets(v).0 + r < Origin(v.rows).domainSize
    ensures 0 <= Offsets(v).1 + c < Origin(v.cols).domainSize
  {
    ResolveRangeChain(v.rows, r);
    ResolveRangeChain(v.cols, c);
    ResolveInOrigin(v.rows, r);
    ResolveInOrigin(v.cols, c);
  }

  /** `sub<0>(1, 3, mat)`: two rows, all columns, starting at row 1. */
  lemma SubRowsOfMatrix(p: Pattern, nrows: nat, ncols: nat, r: int, c: int)
    requires 3 <= nrows
    requires 0 <= r < 2 && 0 <= c < ncols
    ensures RangeView(SubAxis(0, 1, 3, Matrix(p, nrows, ncols)))
    ensures Extents(SubAxis(0, 1, 3, Matrix(p, nrows, ncols))) == (2, ncols)
    ensures GlobalAt(SubAxis(0, 1, 3, Matrix(p, nrows, ncols)), r, c) == (1 + r) * ncols + c
  {
    RangeViewSelectsRegion(SubAxis(0, 1, 3, Matrix(p, nrows, ncols)), r, c);
  }

  /** `sub<1>(2, 7, mat)`: all rows, five columns, starting at column 2. */
  lemma SubColsOfMatrix(p: Pattern, nrows: nat, ncols: nat, r: int, c: int)
    requires 7 <= ncols
    requires 0 <= r < nrows && 0 <= c < 5
    ensures RangeView(SubAxis(1, 2, 7, Matrix(p, nrows, ncols)))
    ensures Extents(SubAxis(1, 2, 7, Matrix(p, nrows, ncols))) == (nrows, 5)
    ensures GlobalAt(SubAxis(1, 2, 7, Matrix(p, nrows, ncols)), r, c) == r * ncols + 2 + c
  {
    RangeViewSelectsRegion(SubAxis(1, 2, 7, Matrix(p, nrows, ncols)), r, c);
  }

  /** `sub<1>(2, 7, sub<0>(1, 3, mat))` and `sub<0>(1, 3, sub<1>(2, 7, mat))`
      have the same offsets (1, 2) and extents (2, 5), and both hold the
      matrix region of that origin and extent. */
  lemma ChainedSubsSelectSameRegion(p: Pattern, nrows: nat, ncols: nat, r: int, c: int)
    requires 3 <= nrows && 7 <= ncols
    requires 0 <= r < 2 && 0 <= c < 5
    ensures
      var m := Matrix(p, nrows, ncols);
      var cr := SubAxis(1, 2, 7, SubAxis(0, 1, 3, m));
      var rc := SubAxis(0, 1, 3, SubAxis(1, 2, 7, m));
      && RangeView(cr) && RangeView(rc)
      && Extents(cr) == Extents(rc) == (2, 5)
      && Offsets(cr) == Offsets(rc) == (1, 2)
      && GlobalAt(cr, r, c) == GlobalAt(rc, r, c) == (1 + r) * ncols + 2 + c
  {
    var m := Matrix(p, nrows, ncols);
    var cr := SubAxis(1, 2, 7, SubAxis(0, 1, 3, m));
    var rc := SubAxis(0, 1, 3, SubAxis(1, 2, 7, m));
    SubAxesCommute(1, 3, 2, 7, m);
    RangeViewSelectsRegion(cr, r, c);
  }

  /** `sub<0>(1, nrows - 1, sub<1>(1, ncols - 1, mat))`: the matrix without
      its border, extents `(nrows - 2, ncols - 2)` from offset (1, 1). */
  lemma SubSectionOfMatrix(p: Pattern, nrows: nat, ncols: nat, r: int, c: int)
    requires 2 <= nrows && 2 <= ncols
    requires 0 <= r < nrows - 2 && 0 <= c < ncols - 2
    ensures
      var v := SubAxis(0, 1, nrows - 1, SubAxis(1, 1, ncols - 1, Matrix(p, nrows, ncols)));
      && RangeView(v)
      && Extents(v) == (nrows - 2, ncols - 2)
      && Offsets(v) == (1, 1)
      && GlobalAt(v, r, c) == (1 + r) * ncols + 1 + c
  {
    var v := SubAxis(0, 1, nrows - 1, SubAxis(1, 1, ncols - 1, Matrix(p, nrows, ncols)));
    RangeViewSelectsRegion(v, r, c);
  }
}
