/** The state a 3-D patch keeps for its halo protocols: the neighbour table
    and the 3 x 2 x 2 x 2 tables of datatype handles (axis, then the
    staggering of x, y and z), and, per field, the scratch buffers, the
    request tables and the tag code.  The transfers a protocol step starts
    are returned as a list of posts (see Halo); a completed reduction is
    applied to the field with Accumulate. */
module Patch {
  import opened Grid
  import opened Views
  import opened Halo
  import opened Accumulate
  import Topology

  datatype Option<T> = None | Some(value: T)

  /** A table of handles indexed [axis][ix_isPrim][iy_isPrim][iz_isPrim]. */
  predicate TableShape(t: array4<Handle>) {
    t.Length0 == 3 && t.Length1 == 2 && t.Length2 == 2 && t.Length3 == 2
  }

  predicate AllNull(t: array4<Handle>)
    requires TableShape(t)
    reads t
  {
    forall a, x, y, z :: 0 <= a < 3 && 0 <= x < 2 && 0 <= y < 2 && 0 <= z < 2 ==> t[a, x, y, z] == Null
  }

  /** Shape of a field staggered (x, y, z) on a patch whose primal shape is n0. */
  function Staggered(n0: Idx3, x: int, y: int, z: int): Idx3 {
    Idx3(n0.i + x, n0.j + y, n0.k + z)
  }

  /** The exchange view createType commits along axis a at staggering
      (x, y, z): a slab of thickness oversize of the staggered shape. */
  function ExchangeHandle(n0: Idx3, os: seq<nat>, a: nat, x: nat, y: nat, z: nat): Handle
    requires Positive(n0) && |os| == 3 && a < 3
  {
    Committed(SlabView(a, os[a], Staggered(n0, x, y, z)))
  }

  /** The reduction view along axis a at staggering (x, y, z): a slab of
      thickness 2*oversize + 1 + isDual, isDual being the staggering on a. */
  function SumHandle(n0: Idx3, os: seq<nat>, a: nat, x: nat, y: nat, z: nat): Handle
    requires Positive(n0) && |os| == 3 && a < 3
  {
    Committed(SlabView(a, Oversize2(os[a], Get(Idx3(x, y, z), a)), Staggered(n0, x, y, z)))
  }

  /** Both tables hold the views of a patch of primal shape n0. */
  predicate Built(t: array4<Handle>, ts: array4<Handle>, n0: Idx3, os: seq<nat>)
    requires TableShape(t) && TableShape(ts) && |os| == 3 && Positive(n0)
    reads t, ts
  {
    forall a, x, y, z :: 0 <= a < 3 && 0 <= x < 2 && 0 <= y < 2 && 0 <= z < 2 ==>
      t[a, x, y, z] == ExchangeHandle(n0, os, a, x, y, z) && ts[a, x, y, z] == SumHandle(n0, os, a, x, y, z)
  }

  /** The reduction widths on all three axes, as a triple. */
  function Widths(os: seq<nat>, isDual: seq<nat>): (w: Idx3)
    requires |os| == 3 && |isDual| == 3
    ensures NonNeg(w)
    ensures w == Idx3(SumWidthsFinal(os, isDual)[0], SumWidthsFinal(os, isDual)[1], SumWidthsFinal(os, isDual)[2])
  {
    Idx3(Oversize2(os[0], isDual[0]), Oversize2(os[1], isDual[1]), Oversize2(os[2], isDual[2]))
  }

  /** Number of doubles of the accumulation box along axis a. */
  function ScratchSize(n: Idx3, os: seq<nat>, isDual: seq<nat>, a: nat): (r: nat)
    requires Positive(n) && |os| == 3 && |isDual| == 3 && a < 3
    ensures r == Volume(SumExtent(n, Widths(os, isDual), a))
  {
    var e := SumExtent(n, Widths(os, isDual), a);
    VolumeSign(e);
    Volume(e)
  }

  /** The scratch buffers `buf[axis][neighbor]` set up on the first
      reduction: zeros, one accumulation box each. */
  function ScratchBuffers(n: Idx3, os: seq<nat>, isDual: seq<nat>): (r: seq<seq<seq<real>>>)
    requires Positive(n) && |os| == 3 && |isDual| == 3
    ensures |r| == 3
    ensures forall a :: 0 <= a < 3 ==> |r[a]| == 2 && |r[a][0]| == |r[a][1]| == ScratchSize(n, os, isDual, a)
  {
    [ScratchPair(n, os, isDual, 0), ScratchPair(n, os, isDual, 1), ScratchPair(n, os, isDual, 2)]
  }

  /** The two scratch buffers of axis a, one per neighbour. */
  function ScratchPair(n: Idx3, os: seq<nat>, isDual: seq<nat>, a: nat): (r: seq<seq<real>>)
    requires Positive(n) && |os| == 3 && |isDual| == 3 && a < 3
    ensures |r| == 2 && |r[0]| == |r[1]| == ScratchSize(n, os, isDual, a)
  {
    var z := Zeros(ScratchSize(n, os, isDual, a));
    [z, z]
  }

  /** k zeros. */
  function Zeros(k: nat): (r: seq<real>)
    ensures |r| == k && forall i :: 0 <= i < k ==> r[i] == 0.0
  {
    if k == 0 then [] else Zeros(k - 1) + [0.0]
  }

  /** Every scratch buffer holds one accumulation box of its axis: the state
      the first initSumField of a field leaves behind. */
  predicate ScratchSized(buf: seq<seq<seq<real>>>, n: Idx3, os: seq<nat>, isDual: seq<nat>)
    requires Positive(n) && |os| == 3 && |isDual| == 3
  {
    |buf| == 3 && forall a :: 0 <= a < 3 ==>
      |buf[a]| == 2 && |buf[a][0]| == ScratchSize(n, os, isDual, a) && |buf[a][1]| == ScratchSize(n, os, isDual, a)
  }

  /** Scratch buffers of the set-up size meet finalizeSumField's demand on
      every axis, whichever neighbours are on another process. */
  lemma ScratchSizedFitsReduction(buf: seq<seq<seq<real>>>, n: Idx3, os: seq<nat>, isDual: seq<nat>, iDim: nat, nb: seq<bool>)
    requires Positive(n) && |os| == 3 && |isDual| == 3 && iDim < 3 && |nb| == 2
    requires ScratchSized(buf, n, os, isDual)
    ensures forall d :: 0 <= d < 2 && nb[d] ==> |buf[iDim][d]| >= Volume(SumExtent(n, Widths(os, isDual), iDim))
  {
  }

  /** THE EXCHANGE END TO END.  With the tables built for the primal shape
      n0, the handle initExchange posts for a field staggered isDual is the
      slab view of thickness oversize of the field's own shape; this patch
      posts the receive from neighbour dir into its ghost slab exactly when
      that neighbour is on another process; and once the neighbour's send
      towards this patch (its direction 1 - dir) has landed, every ghost cell
      holds the neighbour's value shifted along iDim and every other cell is
      unchanged. */
  lemma ExchangePostedViewsCoverSlabs(ntype: array4<Handle>, ntypeSum: array4<Handle>, n0: Idx3, os: seq<nat>,
                                      isDual: seq<nat>, iDim: nat, nb: seq<bool>, dir: nat,
                                      a: seq<real>, r: seq<real>, c: Idx3)
    requires TableShape(ntype) && TableShape(ntypeSum) && |os| == 3 && Positive(n0) && Built(ntype, ntypeSum, n0, os)
    requires |isDual| == 3 && isDual[0] < 2 && isDual[1] < 2 && isDual[2] < 2
    requires iDim < 3 && |nb| == 2 && dir < 2 && os[iDim] > 0
    requires Get(Staggered(n0, isDual[0], isDual[1], isDual[2]), iDim) >= Oversize2(os[iDim], isDual[iDim])
    requires Shaped(a, Staggered(n0, isDual[0], isDual[1], isDual[2]))
    requires Shaped(r, Staggered(n0, isDual[0], isDual[1], isDual[2]))
    requires InBox(c, Box(Idx3(0, 0, 0), Staggered(n0, isDual[0], isDual[1], isDual[2])))
    ensures ntype[iDim, isDual[0], isDual[1], isDual[2]]
            == Committed(SlabView(iDim, os[iDim], Staggered(n0, isDual[0], isDual[1], isDual[2])))
    ensures var n := Staggered(n0, isDual[0], isDual[1], isDual[2]);
            var h := ntype[iDim, isDual[0], isDual[1], isDual[2]];
            var ps := ExchangePosts(iDim, n, os[iDim], isDual[iDim], nb, h);
            (exists k :: 0 <= k < |ps| &&
               ps[k] == IrecvSlab(dir, h, AxisPoint(iDim, ExchangeRecvFrom(dir, Get(n, iDim), os[iDim])), RecvTag(iDim, 1 - dir)))
            <==> nb[dir]
    ensures var n := Staggered(n0, isDual[0], isDual[1], isDual[2]);
            var t := os[iDim];
            var ss := ExchangeSendStart(1 - dir, Get(n, iDim), t, isDual[iDim]);
            var rs := ExchangeRecvFrom(dir, Get(n, iDim), t);
            && 0 <= ss && ss + t <= Get(n, iDim) && 0 <= rs && rs + t <= Get(n, iDim)
            && var filled := ReceiveIntoSlab(r, n, SlabBox(n, iDim, rs, t), SendSlab(a, n, iDim, ss, t));
               && Shaped(filled, n)
               && (InBox(c, SlabBox(n, iDim, rs, t)) ==> CellValue(filled, n, c) == CellValue(a, n, Shift(c, iDim, ss - rs)))
               && (!InBox(c, SlabBox(n, iDim, rs, t)) ==> CellValue(filled, n, c) == CellValue(r, n, c))
  {
    var n := Staggered(n0, isDual[0], isDual[1], isDual[2]);
    var t := os[iDim];
    var h := ntype[iDim, isDual[0], isDual[1], isDual[2]];
    assert h == ExchangeHandle(n0, os, iDim, isDual[0], isDual[1], isDual[2]);
    ExchangePostsCorrect(iDim, n, t, isDual[iDim], nb, h, dir);
    ExchangeSlabsFit(Get(n, iDim), t, isDual[iDim], dir);
    ExchangeSlabsFit(Get(n, iDim), t, isDual[iDim], 1 - dir);
    var ss := ExchangeSendStart(1 - dir, Get(n, iDim), t, isDual[iDim]);
    var rs := ExchangeRecvFrom(dir, Get(n, iDim), t);
    ExchangeRoundTrip(a, r, n, iDim, ss, rs, t, c);
  }

  /** The field after the first k iterations of finalizeSumField along
      iDim: iteration i adds the buffer from neighbour (i + 1) % 2 into the
      box starting at SumAccumulateStart(i), when that neighbour is on
      another process (the upper neighbour's buffer first, then the
      lower's). */
  function Reduced(s: seq<real>, n: Idx3, w: Idx3, iDim: nat, nb: seq<bool>, bufs: seq<seq<real>>, k: nat): (r: seq<real>)
    requires Positive(n) && NonNeg(w) && iDim < 3 && Get(n, iDim) >= Get(w, iDim) && k <= 2
    requires |nb| == 2 && |bufs| == 2
    requires forall d :: 0 <= d < 2 && nb[d] ==> |bufs[d]| >= Volume(SumExtent(n, w, iDim))
    ensures |r| == |s|
  {
    if k == 0 then s
    else
      var prev := Reduced(s, n, w, iDim, nb, bufs, k - 1);
      var d := Partner(k - 1);
      SumBoxWithin(n, w, iDim, k - 1);
      if nb[d] then AddBox(prev, n, SumBox(n, w, iDim, k - 1), bufs[d]) else prev
  }

  /** The slab of reduction width along iDim that initSumField sends to
      neighbour dir. */
  function SumSlab(n: Idx3, w: Idx3, iDim: nat, dir: int): Box
    requires iDim < 3 && Get(w, iDim) >= 0
  {
    SlabBox(n, iDim, SumSendStart(dir, Get(n, iDim), Get(w, iDim)), Get(w, iDim))
  }

  /** What the reduction adds at cell c from the scratch buffer of
      neighbour dir: the element at the cell's row-major position in the
      slab sent to dir, when dir is on another process and c lies in that
      slab; nothing otherwise. */
  function Received(n: Idx3, w: Idx3, iDim: nat, nb: seq<bool>, bufs: seq<seq<real>>, dir: int, c: Idx3): real
    requires Positive(n) && NonNeg(w) && iDim < 3 && (dir == 0 || dir == 1)
    requires |nb| == 2 && |bufs| == 2
    requires nb[dir] ==> |bufs[dir]| >= Volume(SumExtent(n, w, iDim))
  {
    var b := SumSlab(n, w, iDim, dir);
    if nb[dir] && InBox(c, b) then
      assert b.extent == SumExtent(n, w, iDim);
      FlatBounds(Sub(c, b.origin), b.extent);
      bufs[dir][BoxLinear(c, b)]
    else 0.0
  }

  /** REDUCTION.  After finalizeSumField along iDim every cell holds its old
      value plus, for each neighbour on another process, that neighbour's
      contribution for the cell: overlapping slabs add up, and cells in
      neither slab keep their value. */
  lemma {:induction false} ReducedCell(s: seq<real>, n: Idx3, w: Idx3, iDim: nat, nb: seq<bool>, bufs: seq<seq<real>>, c: Idx3)
    requires Positive(n) && NonNeg(w) && iDim < 3 && Get(n, iDim) >= Get(w, iDim)
    requires |nb| == 2 && |bufs| == 2
    requires forall d :: 0 <= d < 2 && nb[d] ==> |bufs[d]| >= Volume(SumExtent(n, w, iDim))
    requires Shaped(s, n) && InBox(c, Box(Idx3(0, 0, 0), n))
    ensures Shaped(Reduced(s, n, w, iDim, nb, bufs, 2), n)
    ensures CellValue(Reduced(s, n, w, iDim, nb, bufs, 2), n, c)
            == CellValue(s, n, c) + Received(n, w, iDim, nb, bufs, 1, c) + Received(n, w, iDim, nb, bufs, 0, c)
  {
    SumRegionsMatch(n, w, iDim, 0);
    SumRegionsMatch(n, w, iDim, 1);
    SumBoxWithin(n, w, iDim, 0);
    SumBoxWithin(n, w, iDim, 1);
    var b0, b1 := SumBox(n, w, iDim, 0), SumBox(n, w, iDim, 1);
    var r1 := Reduced(s, n, w, iDim, nb, bufs, 1);
    ReducedStep(s, n, w, iDim, nb, bufs, 1);
    StepCell(s, n, b0, bufs[1], nb[1], c);
    assert CellValue(r1, n, c) == CellValue(s, n, c) + Received(n, w, iDim, nb, bufs, 1, c);
    var r2 := Reduced(s, n, w, iDim, nb, bufs, 2);
    ReducedStep(s, n, w, iDim, nb, bufs, 2);
    StepCell(r1, n, b1, bufs[0], nb[0], c);
    assert CellValue(r2, n, c) == CellValue(r1, n, c) + Received(n, w, iDim, nb, bufs, 0, c);
  }

  /** Iteration k - 1 of the accumulation adds the buffer of neighbour
      Partner(k - 1), if that neighbour is on another process, into box
      SumBox(k - 1). */
  lemma ReducedStep(s: seq<real>, n: Idx3, w: Idx3, iDim: nat, nb: seq<bool>, bufs: seq<seq<real>>, k: nat)
    requires Positive(n) && NonNeg(w) && iDim < 3 && Get(n, iDim) >= Get(w, iDim) && 1 <= k <= 2
    requires |nb| == 2 && |bufs| == 2
    requires forall d :: 0 <= d < 2 && nb[d] ==> |bufs[d]| >= Volume(SumExtent(n, w, iDim))
    ensures Partner(k - 1) == 2 - k
    ensures BoxWithin(SumBox(n, w, iDim, k - 1), n)
    ensures Reduced(s, n, w, iDim, nb, bufs, k)
            == if nb[2 - k] then AddBox(Reduced(s, n, w, iDim, nb, bufs, k - 1), n, SumBox(n, w, iDim, k - 1), bufs[2 - k])
               else Reduced(s, n, w, iDim, nb, bufs, k - 1)
  {
    SumBoxWithin(n, w, iDim, k - 1);
  }

  /** One iteration of the accumulation, taken or skipped, at one cell. */
  lemma StepCell(r: seq<real>, n: Idx3, b: Box, buf: seq<real>, take: bool, c: Idx3)
    requires Positive(n) && Shaped(r, n) && BoxWithin(b, n) && (take ==> |buf| >= Volume(b.extent))
    requires InBox(c, Box(Idx3(0, 0, 0), n))
    ensures take ==> Shaped(AddBox(r, n, b, buf), n)
    ensures take && InBox(c, b) ==> 0 <= BoxLinear(c, b) < |buf|
    ensures take && InBox(c, b) ==> CellValue(AddBox(r, n, b, buf), n, c) == CellValue(r, n, c) + buf[BoxLinear(c, b)]
    ensures take && !InBox(c, b) ==> CellValue(AddBox(r, n, b, buf), n, c) == CellValue(r, n, c)
  {
    if take {
      if InBox(c, b) { AddBoxInside(r, n, b, buf, c); } else { AddBoxOutside(r, n, b, buf, c); }
    }
  }

  /** The reduction view committed for a field's staggering carries exactly
      as many doubles as that field's scratch buffer holds, on every axis:
      what one patch sends fills the neighbour's receive. */
  lemma SumMessageFitsScratch(n0: Idx3, os: seq<nat>, isDual: seq<nat>, a: nat)
    requires Positive(n0) && |os| == 3 && |isDual| == 3 && a < 3
    ensures Size(SumHandle(n0, os, a, isDual[0], isDual[1], isDual[2]).view)
            == ScratchSize(Staggered(n0, isDual[0], isDual[1], isDual[2]), os, isDual, a)
  {
    var n := Staggered(n0, isDual[0], isDual[1], isDual[2]);
    var t := Oversize2(os[a], Get(Idx3(isDual[0], isDual[1], isDual[2]), a));
    SlabViewSize(a, t, n);
    assert t == Get(Widths(os, isDual), a);
    assert SlabExtent(n, a, t) == SumExtent(n, Widths(os, isDual), a);
  }

  /** The posting loop of initExchange(field, iDim): per iteration, a send
      to neighbour iNeighbor from the inner slab and a receive from the
      other neighbour into the ghost slab, each when that neighbour is on
      another process. */
  method ExchangeRequests(iDim: nat, n: Idx3, oversize: nat, dual: nat, nb: seq<bool>, h: Handle) returns (posts: seq<Post>)
    requires iDim < 3 && |nb| == 2
    ensures posts == ExchangePosts(iDim, n, oversize, dual, nb, h)
  {
    var os: int := oversize;
    posts := [];
    for iNeighbor := 0 to 2
      invariant iNeighbor == 0 ==> posts == []
      invariant iNeighbor == 1 ==> posts == ExchangeStep(iDim, n, os, dual, nb, h, 0)
      invariant iNeighbor == 2 ==> posts == ExchangePosts(iDim, n, os, dual, nb, h)
    {
      var step := [];
      if iNeighbor == 0 { assert (iNeighbor + 1) % 2 == 1; } else { assert (iNeighbor + 1) % 2 == 0; }
      assert (iNeighbor + 1) % 2 == Partner(iNeighbor);
      if nb[iNeighbor] {
        var istart := iNeighbor * (Get(n, iDim) - (2 * os + 1 + dual)) + (1 - iNeighbor) * (os + 1 + dual);
        step := step + [Isend(iNeighbor, h, AxisPoint(iDim, istart), SendTag(iDim, iNeighbor))];
      }
      var other := (iNeighbor + 1) % 2;
      if nb[other] {
        var istart := other * (Get(n, iDim) - 1 - (os - 1)) + (1 - other) * 0;
        step := step + [IrecvSlab(other, h, AxisPoint(iDim, istart), RecvTag(iDim, iNeighbor))];
      }
      assert step == ExchangeStep(iDim, n, os, dual, nb, h, iNeighbor);
      posts := posts + step;
    }
  }

  /** The posting loop of initSumField: per iteration, a reduction send to
      neighbour iNeighbor from the boundary slab and a receive of the whole
      scratch buffer (`bufLen[d]` doubles) of the other neighbour, each when
      that neighbour is on another process. */
  method SumRequests(iDim: nat, n: Idx3, w: nat, nb: seq<bool>, h: Handle, bufLen: seq<nat>) returns (posts: seq<Post>)
    requires iDim < 3 && |nb| == 2 && |bufLen| == 2
    ensures posts == SumPosts(iDim, n, w, nb, h, bufLen)
  {
    posts := [];
    for iNeighbor := 0 to 2
      invariant iNeighbor == 0 ==> posts == []
      invariant iNeighbor == 1 ==> posts == SumStep(iDim, n, w, nb, h, bufLen, 0)
      invariant iNeighbor == 2 ==> posts == SumPosts(iDim, n, w, nb, h, bufLen)
    {
      var step := [];
      if iNeighbor == 0 { assert (iNeighbor + 1) % 2 == 1; } else { assert (iNeighbor + 1) % 2 == 0; }
      assert (iNeighbor + 1) % 2 == Partner(iNeighbor);
      if nb[iNeighbor] {
        var istart := iNeighbor * (Get(n, iDim) - w) + (1 - iNeighbor) * 0;
        step := step + [Isend(iNeighbor, h, AxisPoint(iDim, istart), SendTag(iDim, iNeighbor))];
      }
      var other := (iNeighbor + 1) % 2;
      if nb[other] {
        var tmpElem := bufLen[other];
        step := step + [IrecvScratch(other, iDim, other, tmpElem, RecvTag(iDim, iNeighbor))];
      }
      assert step == SumStep(iDim, n, w, nb, h, bufLen, iNeighbor);
      posts := posts + step;
    }
  }

  /** The accumulation loop of finalizeSumField along iDim: iteration
      iNeighbor adds the scratch buffer of neighbour (iNeighbor + 1) % 2, when
      that neighbour is on another process, into the box starting at the
      accumulation start. */
  method ReduceAxis(data: array<real>, n: Idx3, oversize2: Idx3, iDim: nat, nb: seq<bool>, bufs: seq<seq<real>>)
    requires Positive(n) && NonNeg(oversize2) && iDim < 3 && Get(n, iDim) >= Get(oversize2, iDim)
    requires Shaped(data[..], n) && |nb| == 2 && |bufs| == 2
    requires forall d :: 0 <= d < 2 && nb[d] ==> |bufs[d]| >= Volume(SumExtent(n, oversize2, iDim))
    modifies data
    ensures data[..] == Reduced(old(data[..]), n, oversize2, iDim, nb, bufs, 2)
  {
    var tmp := SumExtent(n, oversize2, iDim);
    ghost var s := data[..];
    for iNeighbor := 0 to 2
      invariant data[..] == Reduced(s, n, oversize2, iDim, nb, bufs, iNeighbor)
    {
      var istart := SumAccumulateStart(iNeighbor, Get(n, iDim), Get(oversize2, iDim));
      var box := Box(AxisPoint(iDim, istart), tmp);
      assert box == SumBox(n, oversize2, iDim, iNeighbor);
      SumBoxWithin(n, oversize2, iDim, iNeighbor);
      if iNeighbor == 0 { assert (iNeighbor + 1) % 2 == 1; } else { assert (iNeighbor + 1) % 2 == 0; }
      var other := (iNeighbor + 1) % 2;
      if nb[other] {
        AccumulateBox(data, n, box, bufs[other]);
      }
    }
  }

  /** A field: its shape, staggering, values and communication buffers. */
  class Field3D {
    var name: string
    var dims: Idx3
    var isDual: seq<nat>
    var data: array<real>
    /** `MPIbuff.buf[axis][neighbor]` */
    var buf: seq<seq<seq<real>>>
    /** Number of axes the request tables `MPIbuff.srequest` are sized for. */
    var requestAxes: nat
    /** The code last handed to `MPIbuff.defineTags`. */
    var tagCode: Option<int>

    predicate Valid()
      reads this
    {
      && Positive(dims) && data.Length == Volume(dims)
      && |isDual| == 3 && (forall a :: 0 <= a < 3 ==> isDual[a] < 2)
      && |buf| == 3 && (forall a :: 0 <= a < 3 ==> |buf[a]| == 2)
    }

    constructor(name: string, dims: Idx3, isDual: seq<nat>)
      requires Positive(dims) && |isDual| == 3 && forall a :: 0 <= a < 3 ==> isDual[a] < 2
      ensures Valid() && fresh(data)
      ensures this.name == name && this.dims == dims && this.isDual == isDual
      ensures forall p :: 0 <= p < data.Length ==> data[p] == 0.0
      ensures buf == [[[], []], [[], []], [[], []]] && requestAxes == 0 && tagCode == None
    {
      this.name := name;
      this.dims := dims;
      this.isDual := isDual;
      VolumeSign(dims);
      data := new real[Volume(dims)](_ => 0.0);
      buf := [[[], []], [[], []], [[], []]];
      requestAxes := 0;
      tagCode := None;
    }

    /** `MPIbuff.allocate(3, field, oversize)`: zero scratch buffers of the
        accumulation-box size, and request tables for three axes. */
    method AllocateScratch(os: seq<nat>)
      requires Valid() && |os| == 3
      modifies this
      ensures Valid() && buf == ScratchBuffers(dims, os, isDual) && requestAxes == 3
      ensures name == old(name) && dims == old(dims) && isDual == old(isDual) && data == old(data) && tagCode == old(tagCode)
    {
      buf := ScratchBuffers(dims, os, isDual);
      requestAxes := 3;
    }

    /** `MPIbuff.allocate(3)`: request tables for three axes. */
    method AllocateRequests()
      requires Valid()
      modifies this
      ensures Valid() && requestAxes == 3
      ensures name == old(name) && dims == old(dims) && isDual == old(isDual) && data == old(data)
      ensures buf == old(buf) && tagCode == old(tagCode)
    {
      requestAxes := 3;
    }

    /** `MPIbuff.defineTags(patch, tagp)`: records the tag code. */
    method DefineTags(tagp: int)
      requires Valid()
      modifies this
      ensures Valid() && tagCode == Some(tagp)
      ensures name == old(name) && dims == old(dims) && isDual == old(isDual) && data == old(data)
      ensures buf == old(buf) && requestAxes == old(requestAxes)
    {
      tagCode := Some(tagp);
    }
  }

  class Patch3D {
    var hindex: nat
    var pcoordinates: seq<int>
    /** `neighbor_[axis][dir]`: domain id of the lower (0) and upper (1) neighbour. */
    var neighbor: seq<seq<int>>
    var oversize: seq<nat>
    /** `ntype_`: the exchange views. */
    const ntype: array4<Handle>
    /** `ntypeSum_`: the reduction views. */
    const ntypeSum: array4<Handle>

    predicate Valid()
      reads this
    {
      && TableShape(ntype) && TableShape(ntypeSum) && ntype != ntypeSum
      && |oversize| == 3 && |neighbor| == 3 && (forall a :: 0 <= a < 3 ==> |neighbor[a]| == 2)
    }

    /** The Cartesian branch of Patch3D::Patch3D: its loops, like InitStep2,
        set both handle tables to MPI_DATATYPE_NULL.  The base Patch
        constructor only sizes `neighbor_` and `Pcoordinates`; the zeros
        given here are placeholders until InitStep2 fills them. */
    constructor(hindex: nat, oversize: seq<nat>)
      requires |oversize| == 3
      ensures Valid() && fresh(ntype) && fresh(ntypeSum)
      ensures this.hindex == hindex && this.oversize == oversize
      ensures neighbor == [[0, 0], [0, 0], [0, 0]] && pcoordinates == [0, 0, 0]
      ensures AllNull(ntype) && AllNull(ntypeSum)
    {
      this.hindex := hindex;
      this.oversize := oversize;
      pcoordinates := [0, 0, 0];
      neighbor := [[0, 0], [0, 0], [0, 0]];
      ntype := new Handle[3, 2, 2, 2]((a, x, y, z) => Null);
      ntypeSum := new Handle[3, 2, 2, 2]((a, x, y, z) => Null);
    }

    /** Sets every exchange and reduction handle to MPI_DATATYPE_NULL. */
    method ClearTables()
      requires Valid()
      modifies ntype, ntypeSum
      ensures AllNull(ntype) && AllNull(ntypeSum)
    {
      for x := 0 to 2
        invariant forall a, x', y', z' :: 0 <= a < 3 && 0 <= x' < 2 && 0 <= y' < 2 && 0 <= z' < 2 && 4 * x' + 2 * y' + z' < 4 * x ==>
          ntype[a, x', y', z'] == Null && ntypeSum[a, x', y', z'] == Null
      {
        for y := 0 to 2
          invariant forall a, x', y', z' :: 0 <= a < 3 && 0 <= x' < 2 && 0 <= y' < 2 && 0 <= z' < 2 && 4 * x' + 2 * y' + z' < 4 * x + 2 * y ==>
            ntype[a, x', y', z'] == Null && ntypeSum[a, x', y', z'] == Null
        {
          for z := 0 to 2
            invariant forall a, x', y', z' :: 0 <= a < 3 && 0 <= x' < 2 && 0 <= y' < 2 && 0 <= z' < 2 && 4 * x' + 2 * y' + z' < 4 * x + 2 * y + z ==>
              ntype[a, x', y', z'] == Null && ntypeSum[a, x', y', z'] == Null
          {
            ntype[0, x, y, z] := Null;
            ntype[1, x, y, z] := Null;
            ntype[2, x, y, z] := Null;
            ntypeSum[0, x, y, z] := Null;
            ntypeSum[1, x, y, z] := Null;
            ntypeSum[2, x, y, z] := Null;
          }
        }
      }
    }

    /** initStep2: records the patch coordinates `coords` (what
        getDomainCoordinates returns for hindex), asks `domainId` (the
        decomposition's getDomainId) for the neighbour one step down and one
        step up each axis, wrapping on an axis whose first boundary condition
        is "periodic", and nulls both handle tables. */
    method InitStep2(coords: seq<int>, ndomain: seq<nat>, emBCs: seq<seq<string>>, domainId: seq<int> -> int)
      requires Valid() && |coords| == 3 && |ndomain| == 3
      requires |emBCs| == 3 && forall a :: 0 <= a < 3 ==> |emBCs[a]| > 0
      modifies this, ntype, ntypeSum
      ensures Valid() && hindex == old(hindex) && oversize == old(oversize) && pcoordinates == coords
      ensures forall a, d :: 0 <= a < 3 && 0 <= d < 2 ==>
        neighbor[a][d] == domainId(Topology.NeighborCall(coords, ndomain, [emBCs[0][0], emBCs[1][0], emBCs[2][0]], a, d))
      ensures AllNull(ntype) && AllNull(ntypeSum)
    {
      var bcs := [emBCs[0][0], emBCs[1][0], emBCs[2][0]];
      pcoordinates := coords;
      LookUpNeighbors(0, bcs[0] == Topology.Periodic, ndomain[0], domainId);
      LookUpNeighbors(1, bcs[1] == Topology.Periodic, ndomain[1], domainId);
      LookUpNeighbors(2, bcs[2] == Topology.Periodic, ndomain[2], domainId);
      ClearTables();
    }

    /** One direction block of initStep2: the `xcall` vector is the patch
        coordinates stepped once down (then once up) along `axis`, wrapped
        into [0, n) on a periodic axis; the domain ids it names become
        `neighbor_[axis][0]` and `neighbor_[axis][1]`. */
    method LookUpNeighbors(axis: nat, periodic: bool, n: nat, domainId: seq<int> -> int)
      requires Valid() && axis < 3 && |pcoordinates| == 3
      modifies this
      ensures Valid() && hindex == old(hindex) && oversize == old(oversize) && pcoordinates == old(pcoordinates)
      ensures neighbor == old(neighbor)[axis := [
        domainId(pcoordinates[axis := Topology.NeighborCoordinate(pcoordinates[axis], n, periodic, 0)]),
        domainId(pcoordinates[axis := Topology.NeighborCoordinate(pcoordinates[axis], n, periodic, 1)])]]
    {
      var xcall := pcoordinates;
      xcall := xcall[axis := pcoordinates[axis] - 1];
      if periodic && xcall[axis] < 0 {
        xcall := xcall[axis := xcall[axis] + n];
      }
      assert xcall == pcoordinates[axis := Topology.NeighborCoordinate(pcoordinates[axis], n, periodic, 0)];
      var lower := domainId(xcall);
      xcall := xcall[axis := pcoordinates[axis] + 1];
      if periodic && xcall[axis] >= n {
        xcall := xcall[axis := xcall[axis] - n];
      }
      assert xcall == pcoordinates[axis := Topology.NeighborCoordinate(pcoordinates[axis], n, periodic, 1)];
      neighbor := neighbor[axis := [lower, domainId(xcall)]];
    }

    /** Commits, for every staggering, the exchange and reduction views of a
        patch whose primal shape (with ghost cells) is n0. */
    method FillTables(n0: Idx3, os: seq<nat>)
      requires Valid() && Positive(n0) && |os| == 3
      modifies ntype, ntypeSum
      ensures Built(ntype, ntypeSum, n0, os)
    {
      for x := 0 to 2
        invariant forall a, x', y', z' :: 0 <= a < 3 && 0 <= x' < 2 && 0 <= y' < 2 && 0 <= z' < 2 && 4 * x' + 2 * y' + z' < 4 * x ==>
          ntype[a, x', y', z'] == ExchangeHandle(n0, os, a, x', y', z') && ntypeSum[a, x', y', z'] == SumHandle(n0, os, a, x', y', z')
      {
        for y := 0 to 2
          invariant forall a, x', y', z' :: 0 <= a < 3 && 0 <= x' < 2 && 0 <= y' < 2 && 0 <= z' < 2 && 4 * x' + 2 * y' + z' < 4 * x + 2 * y ==>
            ntype[a, x', y', z'] == ExchangeHandle(n0, os, a, x', y', z') && ntypeSum[a, x', y', z'] == SumHandle(n0, os, a, x', y', z')
        {
          for z := 0 to 2
            invariant forall a, x', y', z' :: 0 <= a < 3 && 0 <= x' < 2 && 0 <= y' < 2 && 0 <= z' < 2 && 4 * x' + 2 * y' + z' < 4 * x + 2 * y + z ==>
              ntype[a, x', y', z'] == ExchangeHandle(n0, os, a, x', y', z') && ntypeSum[a, x', y', z'] == SumHandle(n0, os, a, x', y', z')
          {
            FillEntry(n0, os, x, y, z);
          }
        }
      }
    }

    /** The body of createType's loop at staggering (x, y, z): commits the
        three exchange and three reduction views of the staggered shape. */
    method FillEntry(n0: Idx3, os: seq<nat>, x: nat, y: nat, z: nat)
      requires Valid() && Positive(n0) && |os| == 3 && x < 2 && y < 2 && z < 2
      modifies ntype, ntypeSum
      ensures forall a :: 0 <= a < 3 ==>
        ntype[a, x, y, z] == ExchangeHandle(n0, os, a, x, y, z) && ntypeSum[a, x, y, z] == SumHandle(n0, os, a, x, y, z)
      ensures forall a, x', y', z' :: 0 <= a < 3 && 0 <= x' < 2 && 0 <= y' < 2 && 0 <= z' < 2 && (x' != x || y' != y || z' != z) ==>
        ntype[a, x', y', z'] == old(ntype[a, x', y', z']) && ntypeSum[a, x', y', z'] == old(ntypeSum[a, x', y', z'])
    {
      var nx: nat, ny: nat, nz: nat := n0.i + x, n0.j + y, n0.k + z;
      ntype[0, x, y, z] := Committed(Contiguous(os[0] * ny * nz));
      ntype[1, x, y, z] := Committed(Vector(nx, os[1] * nz, ny * nz));
      ntype[2, x, y, z] := Committed(Vector(nx * ny, os[2], nz));
      var nxSum, nySum, nzSum := 1 + 2 * os[0] + x, 1 + 2 * os[1] + y, 1 + 2 * os[2] + z;
      ntypeSum[0, x, y, z] := Committed(Contiguous(nxSum * ny * nz));
      ntypeSum[1, x, y, z] := Committed(Vector(nx, nySum * nz, ny * nz));
      ntypeSum[2, x, y, z] := Committed(Vector(nx * ny, nzSum, nz));
    }

    /** createType: unless the tables are already built (entry [0][0][0][0]
        non-null), builds them for the patch shape n_space + 1 + 2*oversize. */
    method CreateType(nSpace: seq<nat>, os: seq<nat>)
      requires Valid() && |nSpace| == 3 && |os| == 3
      modifies ntype, ntypeSum
      ensures old(ntype[0, 0, 0, 0]) != Null ==> unchanged(ntype, ntypeSum)
      ensures old(ntype[0, 0, 0, 0]) == Null ==>
        Built(ntype, ntypeSum, Idx3(nSpace[0] + 1 + 2 * os[0], nSpace[1] + 1 + 2 * os[1], nSpace[2] + 1 + 2 * os[2]), os)
      ensures ntype[0, 0, 0, 0] != Null
    {
      if ntype[0, 0, 0, 0] != Null {
        return;
      }
      var n0 := Idx3(nSpace[0] + 1 + 2 * os[0], nSpace[1] + 1 + 2 * os[1], nSpace[2] + 1 + 2 * os[2]);
      FillTables(n0, os);
      assert ntype[0, 0, 0, 0] == ExchangeHandle(n0, os, 0, 0, 0, 0);
    }

    /** createType2: as createType, for the shape
        n_space * global_factor + 1 + 2*oversize. */
    method CreateType2(nSpace: seq<nat>, globalFactor: seq<nat>, os: seq<nat>)
      requires Valid() && |nSpace| == 3 && |globalFactor| == 3 && |os| == 3
      modifies ntype, ntypeSum
      ensures old(ntype[0, 0, 0, 0]) != Null ==> unchanged(ntype, ntypeSum)
      ensures old(ntype[0, 0, 0, 0]) == Null ==>
        Built(ntype, ntypeSum, Idx3(nSpace[0] * globalFactor[0] + 1 + 2 * os[0],
                                    nSpace[1] * globalFactor[1] + 1 + 2 * os[1],
                                    nSpace[2] * globalFactor[2] + 1 + 2 * os[2]), os)
      ensures ntype[0, 0, 0, 0] != Null
    {
      if ntype[0, 0, 0, 0] != Null {
        return;
      }
      MulMono(nSpace[0], 0, globalFactor[0]);
      MulMono(nSpace[1], 0, globalFactor[1]);
      MulMono(nSpace[2], 0, globalFactor[2]);
      var n0 := Idx3(nSpace[0] * globalFactor[0] + 1 + 2 * os[0],
                     nSpace[1] * globalFactor[1] + 1 + 2 * os[1],
                     nSpace[2] * globalFactor[2] + 1 + 2 * os[2]);
      FillTables(n0, os);
      assert ntype[0, 0, 0, 0] == ExchangeHandle(n0, os, 0, 0, 0, 0);
    }

    /** cleanType: unless the tables are already null (entry [0][0][0][0]),
        frees every handle, which leaves it MPI_DATATYPE_NULL. */
    method CleanType()
      requires Valid()
      modifies ntype, ntypeSum
      ensures old(ntype[0, 0, 0, 0]) == Null ==> unchanged(ntype, ntypeSum)
      ensures old(ntype[0, 0, 0, 0]) != Null ==> AllNull(ntype) && AllNull(ntypeSum)
      ensures ntype[0, 0, 0, 0] == Null
    {
      if ntype[0, 0, 0, 0] == Null {
        return;
      }
      ClearTables();
    }

    /** initExchange(field, iDim): on first use sizes the request tables and
        defines the tags (code by field name), then posts, per neighbour on
        another process, one exchange view sent from the inner slab and one
        received into the ghost slab. */
    method InitExchange(field: Field3D, iDim: nat, nb: seq<bool>) returns (posts: seq<Post>)
      requires Valid() && field.Valid() && iDim < 3 && |nb| == 2
      modifies field
      ensures field.Valid()
      ensures field.name == old(field.name) && field.dims == old(field.dims) && field.isDual == old(field.isDual)
      ensures field.data == old(field.data) && field.buf == old(field.buf)
      ensures old(field.requestAxes) == 0 ==> field.requestAxes == 3 && field.tagCode == Some(ExchangeTagCode(field.name))
      ensures old(field.requestAxes) != 0 ==> field.requestAxes == old(field.requestAxes) && field.tagCode == old(field.tagCode)
      ensures posts == ExchangePosts(iDim, field.dims, oversize[iDim], field.isDual[iDim], nb,
                                     ntype[iDim, field.isDual[0], field.isDual[1], field.isDual[2]])
    {
      if field.requestAxes == 0 {
        field.AllocateRequests();
        var tagp := 0;
        if field.name == "Bx" { tagp := 6; }
        if field.name == "By" { tagp := 7; }
        if field.name == "Bz" { tagp := 8; }
        field.DefineTags(tagp);
      }
      var n, isDual := field.dims, field.isDual;
      var h := ntype[iDim, isDual[0], isDual[1], isDual[2]];
      posts := ExchangeRequests(iDim, n, oversize[iDim], isDual[iDim], nb, h);
    }

    /** initSumField(field, iDim): on first use (no scratch buffer yet) sets
        up the scratch buffers and request tables and defines the tags (code
        by field name), then posts, per neighbour on another process, one
        reduction view sent from the boundary slab and one receive of the
        whole scratch buffer of that neighbour. */
    method InitSumField(field: Field3D, iDim: nat, nb: seq<bool>) returns (posts: seq<Post>)
      requires Valid() && field.Valid() && iDim < 3 && |nb| == 2
      modifies field
      ensures field.Valid()
      ensures field.name == old(field.name) && field.dims == old(field.dims) && field.isDual == old(field.isDual)
      ensures field.data == old(field.data)
      ensures |old(field.buf)[0][0]| == 0 ==>
        && field.buf == ScratchBuffers(field.dims, oversize, field.isDual)
        && field.requestAxes == 3 && field.tagCode == Some(SumTagCode(field.name))
      ensures |old(field.buf)[0][0]| != 0 ==>
        field.buf == old(field.buf) && field.requestAxes == old(field.requestAxes) && field.tagCode == old(field.tagCode)
      ensures |old(field.buf)[0][0]| == 0 || ScratchSized(old(field.buf), field.dims, oversize, field.isDual) ==>
        ScratchSized(field.buf, field.dims, oversize, field.isDual)
      ensures posts == SumPosts(iDim, field.dims, Oversize2(oversize[iDim], field.isDual[iDim]), nb,
                                ntypeSum[iDim, field.isDual[0], field.isDual[1], field.isDual[2]],
                                [|field.buf[iDim][0]|, |field.buf[iDim][1]|])
    {
      if |field.buf[0][0]| == 0 {
        field.AllocateScratch(oversize);
        var tagp := 0;
        if field.name == "Jx" { tagp := 1; }
        if field.name == "Jy" { tagp := 2; }
        if field.name == "Jz" { tagp := 3; }
        if field.name == "Rho" { tagp := 4; }
        field.DefineTags(tagp);
      }
      var n, isDual := field.dims, field.isDual;
      var oversize2 := SumWidthsInit(oversize, isDual, 3);
      SumWidthsAgree(oversize, isDual, 3);
      var w := oversize2[iDim];
      var h := ntypeSum[iDim, isDual[0], isDual[1], isDual[2]];
      var bufLen := [|field.buf[iDim][0]|, |field.buf[iDim][1]|];
      posts := SumRequests(iDim, n, w, nb, h, bufLen);
    }

    /** finalizeSumField(field, iDim): for each neighbour on another
        process, adds its scratch buffer into the field box the same
        neighbour was sent from (the waits on the requests are transport). */
    method FinalizeSumField(field: Field3D, iDim: nat, nb: seq<bool>)
      requires Valid() && field.Valid() && iDim < 3 && |nb| == 2
      requires Get(field.dims, iDim) >= Oversize2(oversize[iDim], field.isDual[iDim])
      requires forall d :: 0 <= d < 2 && nb[d] ==>
        |field.buf[iDim][d]| >= Volume(SumExtent(field.dims, Widths(oversize, field.isDual), iDim))
      modifies field.data
      ensures field.data[..] == Reduced(old(field.data[..]), field.dims, Widths(oversize, field.isDual), iDim, nb, field.buf[iDim], 2)
    {
      ReduceAxis(field.data, field.dims, Widths(oversize, field.isDual), iDim, nb, field.buf[iDim]);
    }
  }
}
