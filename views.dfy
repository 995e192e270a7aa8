/** Strided views of a flat field buffer.  An MPI derived datatype built over
    MPI_DOUBLE is modelled as the value that describes it; posting a transfer
    of one such view at a start address moves the elements at
    start + Offset(v, 0), start + Offset(v, 1), ... in that order.
 */
module Views {
  import opened Grid

  /** `MPI_Type_contiguous(count, MPI_DOUBLE)` or
      `MPI_Type_vector(count, blocklen, stride, MPI_DOUBLE)`. */
  datatype View = Contiguous(count: nat) | Vector(count: nat, blocklen: nat, stride: nat)

  /** An `MPI_Datatype` handle: `MPI_DATATYPE_NULL` or a committed view. */
  datatype Handle = Null | Committed(view: View)

  /** Number of doubles one instance of the view transfers. */
  function Size(v: View): nat {
    match v
    case Contiguous(c) => c
    case Vector(c, b, _) => c * b
  }

  /** Displacement, in elements from the start address, of the q-th element
      the view transfers: blocks of `blocklen` consecutive elements, the
      blocks `stride` elements apart. */
  function Offset(v: View, q: int): int
    requires 0 <= q < Size(v)
  {
    match v
    case Contiguous(_) => q
    case Vector(c, b, s) =>
      assert b != 0;
      (q / b) * s + q % b
  }

  /** A field shape: every extent at least one cell. */
  predicate Positive(n: Idx3) { n.i > 0 && n.j > 0 && n.k > 0 }

  /** Extent of a slab of thickness t along `axis` that spans every other
      axis of a field of shape n in full. */
  function SlabExtent(n: Idx3, axis: nat, t: nat): Idx3
    requires axis < 3
  {
    Idx3(if axis == 0 then t else n.i, if axis == 1 then t else n.j, if axis == 2 then t else n.k)
  }

  /** The slab [s, s + t) along `axis`. */
  function SlabBox(n: Idx3, axis: nat, s: int, t: nat): Box
    requires axis < 3
  {
    Box(AxisPoint(axis, s), SlabExtent(n, axis, t))
  }

  /** The q-th cell of the slab, slab cells counted row-major (x slowest). */
  function SlabCoord(n: Idx3, axis: nat, s: int, t: nat, q: int): Idx3
    requires axis < 3 && Positive(n) && t > 0
  {
    var e := SlabExtent(n, axis, t);
    Add(AxisPoint(axis, s), Unflat(q, e.j, e.k))
  }

  /** The view `createType` commits for a slab of thickness t along `axis` of
      a field of shape n: contiguous along x, one block per x-plane along y,
      one block per (x, y) row along z. */
  function SlabView(axis: nat, t: nat, n: Idx3): View
    requires axis < 3 && Positive(n)
  {
    if axis == 0 then Contiguous(t * n.j * n.k)
    else if axis == 1 then Vector(n.i, t * n.k, n.j * n.k)
    else Vector(n.i * n.j, t, n.k)
  }

  /** A view over a slab transfers exactly as many doubles as the slab has cells. */
  lemma SlabViewSize(axis: nat, t: nat, n: Idx3)
    requires axis < 3 && Positive(n)
    ensures Size(SlabView(axis, t, n)) == Volume(SlabExtent(n, axis, t))
  {
    if axis == 1 {
      assert n.i * (t * n.k) == n.i * t * n.k;
    } else if axis == 2 {
      assert (n.i * n.j) * t == n.i * n.j * t;
    }
  }

  /** Decoded slab positions are cells of the slab, and of the field when
      the slab lies inside it. */
  lemma SlabCoordInSlab(n: Idx3, axis: nat, s: int, t: nat, q: int)
    requires axis < 3 && Positive(n) && t > 0
    requires 0 <= q < Volume(SlabExtent(n, axis, t))
    ensures InBox(SlabCoord(n, axis, s, t, q), SlabBox(n, axis, s, t))
    ensures 0 <= s && s + t <= Get(n, axis) ==> InBox(SlabCoord(n, axis, s, t, q), Box(Idx3(0, 0, 0), n))
  {
    UnflatBounds(q, SlabExtent(n, axis, t));
  }

  /** Every slab cell is decoded from exactly its own row-major slab position. */
  lemma SlabCoordOnto(n: Idx3, axis: nat, s: int, t: nat, c: Idx3)
    requires axis < 3 && Positive(n) && t > 0
    requires InBox(c, SlabBox(n, axis, s, t))
    ensures 0 <= BoxLinear(c, SlabBox(n, axis, s, t)) < Volume(SlabExtent(n, axis, t))
    ensures SlabCoord(n, axis, s, t, BoxLinear(c, SlabBox(n, axis, s, t))) == c
  {
    var b := SlabBox(n, axis, s, t);
    FlatBounds(Sub(c, b.origin), b.extent);
    UnflatFlat(Sub(c, b.origin), b.extent.j, b.extent.k);
  }

  // The three shapes of the coverage theorem, one per axis.

  lemma CoversAlongX(n: Idx3, s: int, t: nat, q: int)
    requires Positive(n) && t > 0 && 0 <= q < t * n.j * n.k
    ensures Flat(AxisPoint(0, s), n.j, n.k) + q == Flat(SlabCoord(n, 0, s, t, q), n.j, n.k)
  {
    // contiguous: the slab is t whole x-planes
    SplitThree(q, n.j, n.k);
    var c := SlabCoord(n, 0, s, t, q);
    assert c == Idx3(s + q / (n.j * n.k), (q / n.k) % n.j, q % n.k);
    assert Flat(c, n.j, n.k) == s * n.j * n.k + (q / (n.j * n.k)) * n.j * n.k + ((q / n.k) % n.j) * n.k + q % n.k;
  }

  lemma CoversAlongY(n: Idx3, s: int, t: nat, q: int)
    requires Positive(n) && t > 0 && 0 <= q < n.i * (t * n.k)
    ensures Flat(AxisPoint(1, s), n.j, n.k) + Offset(Vector(n.i, t * n.k, n.j * n.k), q)
            == Flat(SlabCoord(n, 1, s, t, q), n.j, n.k)
  {
    // one block of t*nz per x-plane, planes ny*nz apart
    SplitThree(q, t, n.k);
    var hi, mid, lo := q / (t * n.k), (q / n.k) % t, q % n.k;
    assert Offset(Vector(n.i, t * n.k, n.j * n.k), q) == hi * (n.j * n.k) + mid * n.k + lo;
    var c := SlabCoord(n, 1, s, t, q);
    assert c == Idx3(hi, s + mid, lo);
    assert Flat(c, n.j, n.k) == hi * n.j * n.k + (s + mid) * n.k + lo;
    assert (s + mid) * n.k == s * n.k + mid * n.k;
    assert hi * n.j * n.k == hi * (n.j * n.k);
  }

  lemma CoversAlongZ(n: Idx3, s: int, t: nat, q: int)
    requires Positive(n) && t > 0 && 0 <= q < (n.i * n.j) * t
    ensures Flat(AxisPoint(2, s), n.j, n.k) + Offset(Vector(n.i * n.j, t, n.k), q)
            == Flat(SlabCoord(n, 2, s, t, q), n.j, n.k)
  {
    // one block of t per (x, y) row, rows nz apart
    var r := q / t;
    SplitThree(q, n.j, t);
    assert r == (r / n.j) * n.j + r % n.j;
    var c := SlabCoord(n, 2, s, t, q);
    assert c == Idx3(r / n.j, r % n.j, s + q % t);
    assert Offset(Vector(n.i * n.j, t, n.k), q) == r * n.k + q % t;
    assert r * n.k == (r / n.j) * n.j * n.k + (r % n.j) * n.k by {
      assert r * n.k == ((r / n.j) * n.j + r % n.j) * n.k;
    }
  }

  /** THE COVERAGE THEOREM.  Posted at the address of the slab's first cell,
      the view of a slab reaches, as its q-th element, the flat position of
      the q-th slab cell: it covers the slab exactly, in row-major order. */
  lemma SlabViewCoversSlab(n: Idx3, axis: nat, s: int, t: nat, q: int)
    requires axis < 3 && Positive(n) && t > 0
    requires 0 <= q < Size(SlabView(axis, t, n))
    ensures Size(SlabView(axis, t, n)) == Volume(SlabExtent(n, axis, t))
    ensures Flat(AxisPoint(axis, s), n.j, n.k) + Offset(SlabView(axis, t, n), q)
            == Flat(SlabCoord(n, axis, s, t, q), n.j, n.k)
  {
    SlabViewSize(axis, t, n);
    if axis == 0 {
      CoversAlongX(n, s, t, q);
    } else if axis == 1 {
      CoversAlongY(n, s, t, q);
    } else {
      CoversAlongZ(n, s, t, q);
    }
  }

  /** The doubles a send of view v posted at `base` reads from field s. */
  function Gather(s: seq<real>, v: View, base: int): (r: seq<real>)
    requires forall q :: 0 <= q < Size(v) ==> 0 <= base + Offset(v, q) < |s|
    ensures |r| == Size(v)
  {
    seq(Size(v), q requires 0 <= q < Size(v) => s[base + Offset(v, q)])
  }

  /** A completed receive into the slab `b` of a field of shape n: the slab
      now holds `payload` in row-major order, every other cell is untouched. */
  function ReceiveIntoSlab(s: seq<real>, n: Idx3, b: Box, payload: seq<real>): (r: seq<real>)
    requires Positive(n) && |payload| >= Volume(b.extent)
    ensures |r| == |s|
  {
    seq(|s|, p requires 0 <= p < |s| =>
      var c := Unflat(p, n.j, n.k);
      if InBox(c, b) then
        FlatBounds(Sub(c, b.origin), b.extent);
        payload[BoxLinear(c, b)]
      else s[p])
  }

  /** A field of shape n holds nx*ny*nz doubles. */
  predicate Shaped(s: seq<real>, n: Idx3) { |s| == Volume(n) }

  /** A slab view posted at its slab's first cell stays inside the field. */
  lemma SlabViewInField(s: seq<real>, n: Idx3, axis: nat, st: int, t: nat)
    requires axis < 3 && Positive(n) && t > 0 && Shaped(s, n)
    requires 0 <= st && st + t <= Get(n, axis)
    ensures forall q :: 0 <= q < Size(SlabView(axis, t, n)) ==>
      0 <= Flat(AxisPoint(axis, st), n.j, n.k) + Offset(SlabView(axis, t, n), q) < |s|
  {
    forall q | 0 <= q < Size(SlabView(axis, t, n))
      ensures 0 <= Flat(AxisPoint(axis, st), n.j, n.k) + Offset(SlabView(axis, t, n), q) < |s|
    {
      SlabViewCoversSlab(n, axis, st, t, q);
      SlabViewSize(axis, t, n);
      SlabCoordInSlab(n, axis, st, t, q);
      FlatBounds(SlabCoord(n, axis, st, t, q), n);
    }
  }

  /** Gathering a slab view reads the slab cells in row-major order. */
  lemma GatherSlab(s: seq<real>, n: Idx3, axis: nat, st: int, t: nat, q: int)
    requires axis < 3 && Positive(n) && t > 0 && Shaped(s, n)
    requires 0 <= st && st + t <= Get(n, axis)
    requires 0 <= q < Volume(SlabExtent(n, axis, t))
    ensures InBox(SlabCoord(n, axis, st, t, q), Box(Idx3(0, 0, 0), n))
    ensures SendSlab(s, n, axis, st, t)[q] == CellValue(s, n, SlabCoord(n, axis, st, t, q))
  {
    SlabViewInField(s, n, axis, st, t);
    SlabViewSize(axis, t, n);
    SlabViewCoversSlab(n, axis, st, t, q);
    SlabCoordInSlab(n, axis, st, t, q);
  }

  /** A receive through the view: the q-th double of a completed slab
      receive lands at the receive start plus the view's q-th displacement,
      the address `MPI_Irecv` with that view writes it to. */
  lemma ReceiveThroughView(r: seq<real>, n: Idx3, axis: nat, rs: int, t: nat, payload: seq<real>, q: int)
    requires axis < 3 && Positive(n) && t > 0 && Shaped(r, n)
    requires 0 <= rs && rs + t <= Get(n, axis)
    requires |payload| >= Volume(SlabExtent(n, axis, t))
    requires 0 <= q < Size(SlabView(axis, t, n))
    ensures 0 <= Flat(AxisPoint(axis, rs), n.j, n.k) + Offset(SlabView(axis, t, n), q) < |r|
    ensures ReceiveIntoSlab(r, n, SlabBox(n, axis, rs, t), payload)
              [Flat(AxisPoint(axis, rs), n.j, n.k) + Offset(SlabView(axis, t, n), q)] == payload[q]
  {
    SlabViewCoversSlab(n, axis, rs, t, q);
    var c := SlabCoord(n, axis, rs, t, q);
    var e := SlabExtent(n, axis, t);
    SlabCoordInSlab(n, axis, rs, t, q);
    FlatBounds(c, n);
    UnflatFlat(c, n.j, n.k);
    assert Sub(c, AxisPoint(axis, rs)) == Unflat(q, e.j, e.k);
    FlatUnflat(q, e.j, e.k);
  }

  /** The value of cell c of a field of shape n stored flat in s. */
  function CellValue(s: seq<real>, n: Idx3, c: Idx3): real
    requires Shaped(s, n) && InBox(c, Box(Idx3(0, 0, 0), n))
  {
    FlatBounds(c, n);
    s[Flat(c, n.j, n.k)]
  }

  /** The cell `d` cells further along `axis`. */
  function Shift(c: Idx3, axis: nat, d: int): Idx3
    requires axis < 3
  {
    Add(c, AxisPoint(axis, d))
  }

  /** The doubles a slab view posted at the slab [st, st + t) sends. */
  function SendSlab(a: seq<real>, n: Idx3, axis: nat, st: int, t: nat): (r: seq<real>)
    requires axis < 3 && Positive(n) && t > 0 && Shaped(a, n)
    requires 0 <= st && st + t <= Get(n, axis)
    ensures |r| == Volume(SlabExtent(n, axis, t))
  {
    SlabViewInField(a, n, axis, st, t);
    SlabViewSize(axis, t, n);
    Gather(a, SlabView(axis, t, n), Flat(AxisPoint(axis, st), n.j, n.k))
  }

  /** GHOST-FILL ROUND TRIP.  The receiver posts a receive of the slab view
      at [rs, rs + t) along `axis` of its field r; the sender posts a send of
      the same view at [ss, ss + t) of its field a.  Once the transfer
      completes, each cell of the receiver's slab holds the sender's value at
      the same position shifted by ss - rs along `axis`, and every other cell
      of r is untouched. */
  lemma ExchangeRoundTrip(a: seq<real>, r: seq<real>, n: Idx3, axis: nat, ss: int, rs: int, t: nat, c: Idx3)
    requires axis < 3 && Positive(n) && t > 0 && Shaped(a, n) && Shaped(r, n)
    requires 0 <= ss && ss + t <= Get(n, axis) && 0 <= rs && rs + t <= Get(n, axis)
    requires InBox(c, Box(Idx3(0, 0, 0), n))
    ensures Shaped(ReceiveIntoSlab(r, n, SlabBox(n, axis, rs, t), SendSlab(a, n, axis, ss, t)), n)
    ensures InBox(c, SlabBox(n, axis, rs, t)) ==>
              InBox(Shift(c, axis, ss - rs), SlabBox(n, axis, ss, t)) &&
              CellValue(ReceiveIntoSlab(r, n, SlabBox(n, axis, rs, t), SendSlab(a, n, axis, ss, t)), n, c)
              == CellValue(a, n, Shift(c, axis, ss - rs))
    ensures !InBox(c, SlabBox(n, axis, rs, t)) ==>
              CellValue(ReceiveIntoSlab(r, n, SlabBox(n, axis, rs, t), SendSlab(a, n, axis, ss, t)), n, c)
              == CellValue(r, n, c)
  {
    FlatBounds(c, n);
    UnflatFlat(c, n.j, n.k);
    if InBox(c, SlabBox(n, axis, rs, t)) {
      var q := BoxLinear(c, SlabBox(n, axis, rs, t));
      SlabCoordOnto(n, axis, rs, t, c);
      GatherSlab(a, n, axis, ss, t, q);
      assert SlabCoord(n, axis, ss, t, q) == Shift(c, axis, ss - rs);
    }
  }
}
