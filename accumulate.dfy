/** The in-place reduction of finalizeSumField: a scratch buffer received
    from a neighbour is added, element by element, into a rectangular box of
    the field.  The loop walks the box row-major (x slowest), so after the
    first m steps exactly the box cells of row-major position below m have
    received their buffer element. */
module Accumulate {
  import opened Grid
  import opened Views

  /** What buffer element, if any, the first m steps of the accumulation
      have added at flat position p of a field of shape n. */
  function Contribution(n: Idx3, b: Box, buf: seq<real>, m: int, p: int): real
    requires Positive(n) && NonNeg(b.extent) && |buf| >= Volume(b.extent)
  {
    var c := Unflat(p, n.j, n.k);
    if InBox(c, b) && BoxLinear(c, b) < m then
      FlatBounds(Sub(c, b.origin), b.extent);
      buf[BoxLinear(c, b)]
    else 0.0
  }

  /** The field after the first m steps of the accumulation. */
  function Partial(s: seq<real>, n: Idx3, b: Box, buf: seq<real>, m: int): (r: seq<real>)
    requires Positive(n) && NonNeg(b.extent) && |buf| >= Volume(b.extent)
    ensures |r| == |s|
  {
    seq(|s|, p requires 0 <= p < |s| => s[p] + Contribution(n, b, buf, m, p))
  }

  /** The field after the whole box has been accumulated. */
  function AddBox(s: seq<real>, n: Idx3, b: Box, buf: seq<real>): (r: seq<real>)
    requires Positive(n) && NonNeg(b.extent) && |buf| >= Volume(b.extent)
    ensures |r| == |s|
  {
    Partial(s, n, b, buf, Volume(b.extent))
  }

  /** Before the first step nothing has been added. */
  lemma PartialZero(s: seq<real>, n: Idx3, b: Box, buf: seq<real>)
    requires Positive(n) && NonNeg(b.extent) && |buf| >= Volume(b.extent)
    ensures Partial(s, n, b, buf, 0) == s
  {
    forall p | 0 <= p < |s| ensures Partial(s, n, b, buf, 0)[p] == s[p] {
      var c := Unflat(p, n.j, n.k);
      if InBox(c, b) {
        FlatBounds(Sub(c, b.origin), b.extent);
      }
    }
  }

  /** One step of the loop: adding the buffer element of row-major position
      m = BoxLinear(c, b) to the cell c of the box extends the first m steps
      to the first m + 1, and touches no other cell. */
  lemma AccumulateStep(s: seq<real>, f: seq<real>, n: Idx3, b: Box, buf: seq<real>, c: Idx3)
    requires Positive(n) && Shaped(s, n) && BoxWithin(b, n) && |buf| >= Volume(b.extent)
    requires InBox(c, b)
    requires f == Partial(s, n, b, buf, BoxLinear(c, b))
    ensures 0 <= BoxLinear(c, b) < Volume(b.extent)
    ensures 0 <= Flat(c, n.j, n.k) < |f|
    ensures f[Flat(c, n.j, n.k) := f[Flat(c, n.j, n.k)] + buf[BoxLinear(c, b)]]
            == Partial(s, n, b, buf, BoxLinear(c, b) + 1)
  {
    var m := BoxLinear(c, b);
    var p0 := Flat(c, n.j, n.k);
    FlatBounds(Sub(c, b.origin), b.extent);
    FlatBounds(c, n);
    UnflatFlat(c, n.j, n.k);
    var g := f[p0 := f[p0] + buf[m]];
    forall p | 0 <= p < |s| ensures g[p] == Partial(s, n, b, buf, m + 1)[p] {
      if p != p0 {
        var d := Unflat(p, n.j, n.k);
        FlatUnflat(p, n.j, n.k);
        if InBox(d, b) && BoxLinear(d, b) == m {
          FlatInjective(Sub(d, b.origin), Sub(c, b.origin), b.extent.j, b.extent.k);
          assert false;
        }
      }
    }
  }

  /** finalizeSumField's triple loop over the box b (origin (ix0, iy0, iz0),
      extent tmp): cell (ix0+ix, iy0+iy, iz0+iz) of the field gets
      buf[ix*tmp1*tmp2 + iy*tmp2 + iz] added. */
  method AccumulateBox(f: array<real>, n: Idx3, b: Box, buf: seq<real>)
    requires Positive(n) && Shaped(f[..], n) && BoxWithin(b, n) && |buf| >= Volume(b.extent)
    modifies f
    ensures f[..] == AddBox(old(f[..]), n, b, buf)
  {
    ghost var s := f[..];
    var o, e := b.origin, b.extent;
    PartialZero(s, n, b, buf);
    ghost var m := 0;
    var ix := 0;
    while ix < e.i
      invariant 0 <= ix <= e.i
      invariant m == Flat(Idx3(ix, 0, 0), e.j, e.k)
      invariant f[..] == Partial(s, n, b, buf, m)
    {
      var iy := 0;
      while iy < e.j
        invariant 0 <= iy <= e.j
        invariant m == Flat(Idx3(ix, iy, 0), e.j, e.k)
        invariant f[..] == Partial(s, n, b, buf, m)
      {
        var iz := 0;
        while iz < e.k
          invariant 0 <= iz <= e.k
          invariant m == Flat(Idx3(ix, iy, iz), e.j, e.k)
          invariant f[..] == Partial(s, n, b, buf, m)
        {
          var c := Idx3(o.i + ix, o.j + iy, o.k + iz);
          assert Sub(c, o) == Idx3(ix, iy, iz);
          AccumulateStep(s, f[..], n, b, buf, c);
          var p := c.i * n.j * n.k + c.j * n.k + c.k;
          f[p] := f[p] + buf[ix * e.j * e.k + iy * e.k + iz];
          m := m + 1;
          iz := iz + 1;
        }
        NextRow(ix, iy, e.j, e.k);
        iy := iy + 1;
      }
      NextPlane(ix, e.j, e.k);
      ix := ix + 1;
    }
    assert m == Volume(e);
  }

  lemma NextRow(ix: int, iy: int, ny: int, nz: int)
    ensures Flat(Idx3(ix, iy, nz), ny, nz) == Flat(Idx3(ix, iy + 1, 0), ny, nz)
  {
    assert (iy + 1) * nz == iy * nz + nz;
  }

  lemma NextPlane(ix: int, ny: int, nz: int)
    ensures Flat(Idx3(ix, ny, 0), ny, nz) == Flat(Idx3(ix + 1, 0, 0), ny, nz)
  {
    assert (ix + 1) * ny * nz == ix * ny * nz + ny * nz;
  }

  /** Every cell of the box gets exactly its own buffer element added. */
  lemma AddBoxInside(s: seq<real>, n: Idx3, b: Box, buf: seq<real>, c: Idx3)
    requires Positive(n) && Shaped(s, n) && BoxWithin(b, n) && |buf| >= Volume(b.extent)
    requires InBox(c, b)
    ensures InBox(c, Box(Idx3(0, 0, 0), n))
    ensures 0 <= BoxLinear(c, b) < |buf|
    ensures CellValue(AddBox(s, n, b, buf), n, c) == CellValue(s, n, c) + buf[BoxLinear(c, b)]
  {
    FlatBounds(c, n);
    FlatBounds(Sub(c, b.origin), b.extent);
    UnflatFlat(c, n.j, n.k);
  }

  /** Cells outside the box are untouched. */
  lemma AddBoxOutside(s: seq<real>, n: Idx3, b: Box, buf: seq<real>, c: Idx3)
    requires Positive(n) && Shaped(s, n) && BoxWithin(b, n) && |buf| >= Volume(b.extent)
    requires InBox(c, Box(Idx3(0, 0, 0), n)) && !InBox(c, b)
    ensures CellValue(AddBox(s, n, b, buf), n, c) == CellValue(s, n, c)
  {
    FlatBounds(c, n);
    UnflatFlat(c, n.j, n.k);
  }

  /** EACH BUFFER ELEMENT EXACTLY ONCE.  Element q of the buffer belongs to
      one cell of the box, the q-th in row-major order, and to no other. */
  lemma EachBufferElementOnce(b: Box, q: int, c: Idx3)
    requires NonNeg(b.extent) && 0 <= q < Volume(b.extent)
    ensures b.extent.j > 0 && b.extent.k > 0
    ensures InBox(Add(b.origin, Unflat(q, b.extent.j, b.extent.k)), b)
    ensures BoxLinear(Add(b.origin, Unflat(q, b.extent.j, b.extent.k)), b) == q
    ensures InBox(c, b) && BoxLinear(c, b) == q ==> c == Add(b.origin, Unflat(q, b.extent.j, b.extent.k))
  {
    var e := b.extent;
    if e.j == 0 || e.k == 0 {
      assert false;
    }
    UnflatBounds(q, e);
    var d := Add(b.origin, Unflat(q, e.j, e.k));
    FlatUnflat(q, e.j, e.k);
    assert Sub(d, b.origin) == Unflat(q, e.j, e.k);
    if InBox(c, b) && BoxLinear(c, b) == q {
      FlatInjective(Sub(c, b.origin), Sub(d, b.origin), e.j, e.k);
    }
  }
}
