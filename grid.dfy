/** Row-major 3-D index arithmetic shared by the halo code and the scalar
    diagnostics.  A field of shape (nx, ny, nz) is stored flat with x the
    slowest axis and z the fastest: cell (i, j, k) lives at i*ny*nz + j*nz + k.
 */
module Grid {

  /** A cell coordinate, an origin or an extent along the three axes. */
  datatype Idx3 = Idx3(i: int, j: int, k: int)

  function Add(a: Idx3, b: Idx3): Idx3 { Idx3(a.i + b.i, a.j + b.j, a.k + b.k) }
  function Sub(a: Idx3, b: Idx3): Idx3 { Idx3(a.i - b.i, a.j - b.j, a.k - b.k) }

  /** Component `axis` of a triple. */
  function Get(c: Idx3, axis: nat): int
    requires axis < 3
  {
    if axis == 0 then c.i else if axis == 1 then c.j else c.k
  }

  /** The triple with component `axis` equal to `v` and the others zero:
      the `(idx[0]*istart, idx[1]*istart, idx[2]*istart)` of
      Patch3D::initExchange and Patch3D::initSumField. */
  function AxisPoint(axis: nat, v: int): Idx3
    requires axis < 3
  {
    Idx3(if axis == 0 then v else 0, if axis == 1 then v else 0, if axis == 2 then v else 0)
  }

  /** Number of cells of an extent. */
  function Volume(e: Idx3): int { e.i * e.j * e.k }

  predicate NonNeg(c: Idx3) { c.i >= 0 && c.j >= 0 && c.k >= 0 }

  /** A rectangular region: the cells origin + [0, extent) on each axis. */
  datatype Box = Box(origin: Idx3, extent: Idx3)

  predicate InBox(c: Idx3, b: Box) {
    && b.origin.i <= c.i < b.origin.i + b.extent.i
    && b.origin.j <= c.j < b.origin.j + b.extent.j
    && b.origin.k <= c.k < b.origin.k + b.extent.k
  }

  /** The box lies inside a field of shape `n`. */
  predicate BoxWithin(b: Box, n: Idx3) {
    NonNeg(b.origin) && NonNeg(b.extent) &&
    b.origin.i + b.extent.i <= n.i && b.origin.j + b.extent.j <= n.j && b.origin.k + b.extent.k <= n.k
  }

  /** Linear (row-major, x slowest) position of cell c in a field whose
      last two extents are ny and nz. */
  function Flat(c: Idx3, ny: int, nz: int): int { c.i * ny * nz + c.j * nz + c.k }

  /** The cell at linear position p: the inverse of Flat. */
  function Unflat(p: int, ny: int, nz: int): Idx3
    requires ny > 0 && nz > 0
  {
    Idx3(p / (ny * nz), (p / nz) % ny, p % nz)
  }

  /** Position of cell c inside box b, counted row-major over the box. */
  function BoxLinear(c: Idx3, b: Box): int { Flat(Sub(c, b.origin), b.extent.j, b.extent.k) }

  lemma MulAtLeast(x: int, d: int)
    requires x >= 1 && d > 0
    ensures x * d >= d
  {
    assert x * d == (x - 1) * d + d;
    assert (x - 1) * d >= 0;
  }

  /** Quotient and remainder are unique: the basis of every decoding below. */
  lemma DivModUnique(p: int, d: int, a: int, r: int)
    requires d > 0 && 0 <= r < d && p == a * d + r
    ensures p / d == a && p % d == r
  {
    var a', r' := p / d, p % d;
    assert p == a' * d + r';
    if a' < a {
      MulAtLeast(a - a', d);
      assert false;
    } else if a' > a {
      MulAtLeast(a' - a, d);
      assert false;
    }
  }

  lemma MulMono(x: int, y: int, m: int)
    requires x >= y && m >= 0
    ensures x * m >= y * m
  {
    assert x * m - y * m == (x - y) * m;
  }

  /** Two row-major digits stay below the product of their ranges. */
  lemma DigitsBelow(mid: int, lo: int, b: int, c: int)
    requires 0 <= mid < b && 0 <= lo < c
    ensures 0 <= mid * c + lo < b * c
  {
    MulMono(b - 1, mid, c);
    MulMono(mid, 0, c);
    assert (b - 1) * c == b * c - c;
  }

  /** Splitting a linear position into three row-major digits. */
  lemma SplitThree(q: int, b: int, c: int)
    requires q >= 0 && b > 0 && c > 0
    ensures q / (b * c) == (q / c) / b
    ensures q % (b * c) == ((q / c) % b) * c + q % c
    ensures q == (q / (b * c)) * b * c + ((q / c) % b) * c + q % c
  {
    var hi, mid, lo := (q / c) / b, (q / c) % b, q % c;
    var t := q / c;
    assert t == hi * b + mid;
    assert q == t * c + lo;
    assert t * c == hi * (b * c) + mid * c by {
      assert t * c == (hi * b + mid) * c;
      assert (hi * b + mid) * c == (hi * b) * c + mid * c;
      assert (hi * b) * c == hi * (b * c);
    }
    DigitsBelow(mid, lo, b, c);
    DivModUnique(q, b * c, hi, mid * c + lo);
    assert hi * b * c == hi * (b * c);
  }

  /** A box of non-negative extent has a non-negative number of cells, and
      a positive number when every extent is positive. */
  lemma VolumeSign(e: Idx3)
    requires NonNeg(e)
    ensures Volume(e) >= 0
    ensures e.i > 0 && e.j > 0 && e.k > 0 ==> Volume(e) > 0
  {
    MulMono(e.i, 0, e.j);
    MulMono(e.i * e.j, 0, e.k);
    if e.i > 0 && e.j > 0 && e.k > 0 {
      MulAtLeast(e.i, e.j);
      MulAtLeast(e.i * e.j, e.k);
    }
  }

  /** A cell inside a box of extent (ni, nj, nk) sits below the box volume. */
  lemma FlatBounds(c: Idx3, e: Idx3)
    requires 0 <= c.i < e.i && 0 <= c.j < e.j && 0 <= c.k < e.k
    ensures 0 <= Flat(c, e.j, e.k) < Volume(e)
  {
    var jk := e.j * e.k;
    MulMono(e.j - 1, c.j, e.k);
    assert c.j * e.k + c.k < jk;
    MulMono(e.i - 1, c.i, jk);
    assert c.i * jk + jk <= e.i * jk;
    MulMono(c.i, 0, jk);
    MulMono(c.j, 0, e.k);
    assert c.i * e.j * e.k == c.i * jk;
    assert Volume(e) == e.i * jk;
  }

  /** Decoding a flat position of an in-range cell gives the cell back. */
  lemma UnflatFlat(c: Idx3, ny: int, nz: int)
    requires c.i >= 0 && 0 <= c.j < ny && 0 <= c.k < nz
    ensures Unflat(Flat(c, ny, nz), ny, nz) == c
  {
    var p := Flat(c, ny, nz);
    DivModUnique(p, nz, c.i * ny + c.j, c.k);
    DivModUnique(c.i * ny + c.j, ny, c.i, c.j);
    SplitThree(p, ny, nz);
  }

  /** Encoding a decoded position gives the position back. */
  lemma FlatUnflat(p: int, ny: int, nz: int)
    requires p >= 0 && ny > 0 && nz > 0
    ensures Flat(Unflat(p, ny, nz), ny, nz) == p
    ensures NonNeg(Unflat(p, ny, nz)) && Unflat(p, ny, nz).j < ny && Unflat(p, ny, nz).k < nz
  {
    SplitThree(p, ny, nz);
  }

  /** Distinct in-range cells have distinct flat positions. */
  lemma FlatInjective(a: Idx3, b: Idx3, ny: int, nz: int)
    requires a.i >= 0 && 0 <= a.j < ny && 0 <= a.k < nz
    requires b.i >= 0 && 0 <= b.j < ny && 0 <= b.k < nz
    requires Flat(a, ny, nz) == Flat(b, ny, nz)
    ensures a == b
  {
    UnflatFlat(a, ny, nz);
    UnflatFlat(b, ny, nz);
  }

  /** Positions below the volume decode to cells of the extent. */
  lemma UnflatBounds(p: int, e: Idx3)
    requires e.j > 0 && e.k > 0 && 0 <= p < Volume(e)
    ensures 0 <= Unflat(p, e.j, e.k).i < e.i
    ensures 0 <= Unflat(p, e.j, e.k).j < e.j && 0 <= Unflat(p, e.j, e.k).k < e.k
  {
    SplitThree(p, e.j, e.k);
    var c := Unflat(p, e.j, e.k);
    MulMono(c.j, 0, e.k);
    if c.i >= e.i {
      MulMono(c.i, e.i, e.j * e.k);
      assert false;
    }
  }
}
