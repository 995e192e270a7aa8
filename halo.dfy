/** The index arithmetic of the two halo protocols of Patch3D: where the
    exchange and reduction slabs start along the active axis, how wide the
    reduction region is, which tag code a field gets, and which transfers
    one protocol step posts. */
module Halo {
  import opened Grid
  import opened Views

  // ---------------------------------------------------------------------
  // Reduction width

  /** Width of the reduction region along an axis: the ghost margin on both
      sides of the boundary, the boundary point itself, and one extra cell
      on a dual axis. */
  function Oversize2(os: nat, dual: nat): nat { 2 * os + 1 + dual }

  /** `oversize2` as initSumField computes it for a field with `ndims`
      dimensions: axis 0 always, axes 1 and 2 only when the field has them;
      the other axes keep the plain ghost margin. */
  function SumWidthsInit(os: seq<nat>, isDual: seq<nat>, ndims: nat): seq<nat>
    requires |os| == 3 && |isDual| == 3
  {
    var w0 := os[0 := os[0] * 2 + 1 + isDual[0]];
    if ndims > 1 then
      var w1 := w0[1 := os[1] * 2 + 1 + isDual[1]];
      if ndims > 2 then w1[2 := os[2] * 2 + 1 + isDual[2]] else w1
    else w0
  }

  /** `oversize2` as finalizeSumField computes it: on all three axes. */
  function SumWidthsFinal(os: seq<nat>, isDual: seq<nat>): seq<nat>
    requires |os| == 3 && |isDual| == 3
  {
    [os[0] * 2 + 1 + isDual[0], os[1] * 2 + 1 + isDual[1], os[2] * 2 + 1 + isDual[2]]
  }

  /** Both halves of the reduction compute the width 2*oversize + 1 + isDual
      on every axis the field has; initSumField leaves the axes a lower
      dimensional field lacks at the plain margin. */
  lemma SumWidthsAgree(os: seq<nat>, isDual: seq<nat>, ndims: nat)
    requires |os| == 3 && |isDual| == 3
    ensures |SumWidthsInit(os, isDual, ndims)| == 3 && |SumWidthsFinal(os, isDual)| == 3
    ensures forall d :: 0 <= d < 3 && d < ndims ==>
      SumWidthsInit(os, isDual, ndims)[d] == SumWidthsFinal(os, isDual)[d] == Oversize2(os[d], isDual[d])
    ensures forall d :: 0 < d < 3 && ndims <= d ==> SumWidthsInit(os, isDual, ndims)[d] == os[d]
    ensures ndims >= 3 ==> SumWidthsInit(os, isDual, ndims) == SumWidthsFinal(os, isDual)
  {
  }

  // ---------------------------------------------------------------------
  // Exchange slab starts (initExchange(Field*, int))

  /** `istart` of the send posted towards neighbour iNeighbor. */
  function ExchangeSendStart(iNeighbor: int, n: int, os: nat, dual: nat): int {
    iNeighbor * (n - (2 * os + 1 + dual)) + (1 - iNeighbor) * (os + 1 + dual)
  }

  /** The neighbour `(iNeighbor + 1) % 2` that loop iteration iNeighbor
      (0 or 1) receives from: the other one. */
  function Partner(iNeighbor: int): int {
    if iNeighbor == 0 then 1 else 0
  }

  /** `istart` of the receive posted in loop iteration iNeighbor, which
      receives from neighbour Partner(iNeighbor). */
  function ExchangeRecvStart(iNeighbor: int, n: int, os: nat): int {
    Partner(iNeighbor) * (n - 1 - (os - 1)) + (1 - Partner(iNeighbor)) * 0
  }

  /** Start of the ghost slab filled from neighbour `dir`: that receive is
      posted in iteration 1 - dir. */
  function ExchangeRecvFrom(dir: int, n: int, os: nat): int {
    ExchangeRecvStart(1 - dir, n, os)
  }

  /** The exchange offsets along the active axis: the lower send starts at
      oversize+1+isDual, the upper send at n-(2*oversize+1+isDual); the
      receive from below starts at 0 and the one from above at n-oversize. */
  lemma ExchangeStarts(n: int, os: nat, dual: nat)
    ensures ExchangeSendStart(0, n, os, dual) == os + 1 + dual
    ensures ExchangeSendStart(1, n, os, dual) == n - (2 * os + 1 + dual)
    ensures ExchangeRecvFrom(0, n, os) == 0 && ExchangeRecvStart(1, n, os) == 0
    ensures ExchangeRecvFrom(1, n, os) == n - os && ExchangeRecvStart(0, n, os) == n - os
  {
  }

  /** With room for the reduction width, every exchange slab of thickness
      oversize lies in [0, n), and for each direction the slab sent to that
      neighbour and the slab received from it do not overlap. */
  lemma ExchangeSlabsFit(n: int, os: nat, dual: nat, dir: int)
    requires dir == 0 || dir == 1
    requires n >= 2 * os + 1 + dual
    ensures 0 <= ExchangeSendStart(dir, n, os, dual) && ExchangeSendStart(dir, n, os, dual) + os <= n
    ensures 0 <= ExchangeRecvFrom(dir, n, os) && ExchangeRecvFrom(dir, n, os) + os <= n
    ensures ExchangeSendStart(dir, n, os, dual) + os <= ExchangeRecvFrom(dir, n, os)
         || ExchangeRecvFrom(dir, n, os) + os <= ExchangeSendStart(dir, n, os, dual)
  {
    ExchangeStarts(n, os, dual);
  }

  /** Slabs along the same axis over disjoint intervals have no common cell. */
  lemma DisjointSlabs(n: Idx3, axis: nat, s1: int, s2: int, t: nat, c: Idx3)
    requires axis < 3 && (s1 + t <= s2 || s2 + t <= s1)
    ensures !(InBox(c, SlabBox(n, axis, s1, t)) && InBox(c, SlabBox(n, axis, s2, t)))
  {
  }

  // ---------------------------------------------------------------------
  // Reduction slab starts (initSumField / finalizeSumField)

  /** `istart` of the reduction send towards neighbour iNeighbor. */
  function SumSendStart(iNeighbor: int, n: int, w: int): int {
    iNeighbor * (n - w) + (1 - iNeighbor) * 0
  }

  /** `istart` of the accumulation in iteration iNeighbor of finalizeSumField,
      which adds the buffer received from neighbour Partner(iNeighbor). */
  function SumAccumulateStart(iNeighbor: int, n: int, w: int): int {
    Partner(iNeighbor) * (n - w) + (1 - Partner(iNeighbor)) * 0
  }

  /** `tmp`: extent of the accumulation box, the reduction width `w` along
      the active axis and the full field extent along the others. */
  function SumExtent(n: Idx3, w: Idx3, iDim: nat): Idx3 {
    Idx3(if iDim == 0 then w.i else n.i, if iDim == 1 then w.j else n.j, if iDim == 2 then w.k else n.k)
  }

  /** `sel * a + (1 - sel) * b`: Patch3D::finalizeSumField's way of picking a when the
      selector is 1 and b when it is 0. */
  function Blend(sel: int, a: int, b: int): int {
    sel * a + (1 - sel) * b
  }

  /** Patch3D::finalizeSumField computes `tmp` with the selector vector idx = (1, 1, 1)
      with idx[iDim] = 0, as idx[d] * n[d] + (1 - idx[d]) * oversize2[d];
      that is the extent above. */
  lemma SumExtentAsComputed(n: Idx3, w: Idx3, iDim: nat)
    requires iDim < 3
    ensures var idx := Sub(Idx3(1, 1, 1), AxisPoint(iDim, 1));
            Idx3(Blend(idx.i, n.i, w.i), Blend(idx.j, n.j, w.j), Blend(idx.k, n.k, w.k)) == SumExtent(n, w, iDim)
  {
    var idx := Sub(Idx3(1, 1, 1), AxisPoint(iDim, 1));
    assert Blend(1, n.i, w.i) == n.i && Blend(0, n.i, w.i) == w.i;
    assert Blend(1, n.j, w.j) == n.j && Blend(0, n.j, w.j) == w.j;
    assert Blend(1, n.k, w.k) == n.k && Blend(0, n.k, w.k) == w.k;
  }

  /** The accumulation box of iteration iNeighbor. */
  function SumBox(n: Idx3, w: Idx3, iDim: nat, iNeighbor: int): Box
    requires iDim < 3
  {
    Box(AxisPoint(iDim, SumAccumulateStart(iNeighbor, Get(n, iDim), Get(w, iDim))), SumExtent(n, w, iDim))
  }

  /** SAME OPERATION ON BOTH SIDES.  The buffer received from neighbour `dir`
      is added into exactly the slab this patch sends to that neighbour: the
      lower one starts at 0, the upper one at n - oversize2, both of the
      reduction width, spanning the other axes in full. */
  lemma SumRegionsMatch(n: Idx3, w: Idx3, iDim: nat, dir: int)
    requires iDim < 3 && (dir == 0 || dir == 1) && Get(w, iDim) >= 0
    ensures SumBox(n, w, iDim, 1 - dir) == SlabBox(n, iDim, SumSendStart(dir, Get(n, iDim), Get(w, iDim)), Get(w, iDim))
    ensures SumSendStart(0, Get(n, iDim), Get(w, iDim)) == 0
    ensures SumSendStart(1, Get(n, iDim), Get(w, iDim)) == Get(n, iDim) - Get(w, iDim)
    ensures SumAccumulateStart(1, Get(n, iDim), Get(w, iDim)) == 0
    ensures SumAccumulateStart(0, Get(n, iDim), Get(w, iDim)) == Get(n, iDim) - Get(w, iDim)
  {
    var nn, ww := Get(n, iDim), Get(w, iDim);
    var st := SumSendStart(dir, nn, ww);
    assert SumAccumulateStart(1 - dir, nn, ww) == st by {
      if dir == 0 { assert 1 - dir == 1; } else { assert 1 - dir == 0; }
    }
  }

  /** With room for the width, both reduction slabs lie inside the field. */
  lemma SumSlabsFit(n: int, w: nat, dir: int)
    requires dir == 0 || dir == 1
    requires n >= w
    ensures 0 <= SumSendStart(dir, n, w) && SumSendStart(dir, n, w) + w <= n
  {
  }

  /** With room for the width, each accumulation box of finalizeSumField
      lies inside the field; its extent is the reduction slab's. */
  lemma SumBoxWithin(n: Idx3, w: Idx3, iDim: nat, iNeighbor: int)
    requires iDim < 3 && (iNeighbor == 0 || iNeighbor == 1)
    requires NonNeg(n) && NonNeg(w) && Get(n, iDim) >= Get(w, iDim)
    ensures SumExtent(n, w, iDim) == SlabExtent(n, iDim, Get(w, iDim))
    ensures BoxWithin(SumBox(n, w, iDim, iNeighbor), n)
  {
  }

  // ---------------------------------------------------------------------
  // Tag codes

  /** The code initSumField hands to defineTags: Jx 1, Jy 2, Jz 3, Rho 4,
      any other field 0 (a sequence of independent tests, the last match
      winning). */
  function SumTagCode(name: string): int {
    var t0 := 0;
    var t1 := if name == "Jx" then 1 else t0;
    var t2 := if name == "Jy" then 2 else t1;
    var t3 := if name == "Jz" then 3 else t2;
    if name == "Rho" then 4 else t3
  }

  /** The code initExchange hands to defineTags: Bx 6, By 7, Bz 8, other 0. */
  function ExchangeTagCode(name: string): int {
    var t0 := 0;
    var t1 := if name == "Bx" then 6 else t0;
    var t2 := if name == "By" then 7 else t1;
    if name == "Bz" then 8 else t2
  }

  /** The fields each protocol tags by name. */
  const SumFields: seq<string> := ["Jx", "Jy", "Jz", "Rho"]
  const ExchangeFields: seq<string> := ["Bx", "By", "Bz"]

  /** The codes distinguish the named fields: each named field has its own
      non-zero code, the two protocols never share a non-zero code, and every
      other name gets 0. */
  lemma TagCodesDistinct(a: string, b: string)
    ensures SumTagCode(a) != 0 <==> a in SumFields
    ensures ExchangeTagCode(a) != 0 <==> a in ExchangeFields
    ensures a in SumFields && b in SumFields && a != b ==> SumTagCode(a) != SumTagCode(b)
    ensures a in ExchangeFields && b in ExchangeFields && a != b ==> ExchangeTagCode(a) != ExchangeTagCode(b)
    ensures SumTagCode(a) != 0 ==> SumTagCode(a) != ExchangeTagCode(b)
    ensures SumTagCode(a) == (if a == "Jx" then 1 else if a == "Jy" then 2 else if a == "Jz" then 3 else if a == "Rho" then 4 else 0)
    ensures ExchangeTagCode(a) == (if a == "Bx" then 6 else if a == "By" then 7 else if a == "Bz" then 8 else 0)
  {
  }

  // ---------------------------------------------------------------------
  // Posted transfers

  /** Which entry of the field's tag tables a transfer uses:
      `send_tags_[axis][index]` or `recv_tags_[axis][index]`. */
  datatype TagSlot = SendTag(axis: nat, index: nat) | RecvTag(axis: nat, index: nat)

  /** A non-blocking transfer posted to MPI rank `MPI_neighbor_[axis][neighbor]`:
      one instance of a committed view at a cell of the field, or `count`
      doubles into scratch buffer `buf[axis][buffer]`. */
  datatype Post =
    | Isend(neighbor: nat, view: Handle, start: Idx3, tag: TagSlot)
    | IrecvSlab(neighbor: nat, view: Handle, start: Idx3, tag: TagSlot)
    | IrecvScratch(neighbor: nat, axis: nat, buffer: nat, count: nat, tag: TagSlot)

  /** The posts of one loop iteration of initExchange(Field*, iDim). */
  function ExchangeStep(iDim: nat, n: Idx3, os: nat, dual: nat, nb: seq<bool>, h: Handle, iNeighbor: nat): seq<Post>
    requires iDim < 3 && |nb| == 2 && iNeighbor < 2
  {
    (if nb[iNeighbor] then
       [Isend(iNeighbor, h, AxisPoint(iDim, ExchangeSendStart(iNeighbor, Get(n, iDim), os, dual)), SendTag(iDim, iNeighbor))]
     else [])
    + (if nb[Partner(iNeighbor)] then
       [IrecvSlab(Partner(iNeighbor), h, AxisPoint(iDim, ExchangeRecvStart(iNeighbor, Get(n, iDim), os)), RecvTag(iDim, iNeighbor))]
     else [])
  }

  /** Everything initExchange(Field*, iDim) posts, in order. */
  function ExchangePosts(iDim: nat, n: Idx3, os: nat, dual: nat, nb: seq<bool>, h: Handle): seq<Post>
    requires iDim < 3 && |nb| == 2
  {
    ExchangeStep(iDim, n, os, dual, nb, h, 0) + ExchangeStep(iDim, n, os, dual, nb, h, 1)
  }

  /** The posts of one loop iteration of initSumField; `bufLen[d]` is the
      size of scratch buffer `buf[iDim][d]`. */
  function SumStep(iDim: nat, n: Idx3, w: nat, nb: seq<bool>, h: Handle, bufLen: seq<nat>, iNeighbor: nat): seq<Post>
    requires iDim < 3 && |nb| == 2 && |bufLen| == 2 && iNeighbor < 2
  {
    (if nb[iNeighbor] then
       [Isend(iNeighbor, h, AxisPoint(iDim, SumSendStart(iNeighbor, Get(n, iDim), w)), SendTag(iDim, iNeighbor))]
     else [])
    + (if nb[Partner(iNeighbor)] then
       [IrecvScratch(Partner(iNeighbor), iDim, Partner(iNeighbor), bufLen[Partner(iNeighbor)], RecvTag(iDim, iNeighbor))]
     else [])
  }

  /** Everything initSumField posts, in order. */
  function SumPosts(iDim: nat, n: Idx3, w: nat, nb: seq<bool>, h: Handle, bufLen: seq<nat>): seq<Post>
    requires iDim < 3 && |nb| == 2 && |bufLen| == 2
  {
    SumStep(iDim, n, w, nb, h, bufLen, 0) + SumStep(iDim, n, w, nb, h, bufLen, 1)
  }

  /** Neighbour a post talks to. */
  function Peer(p: Post): nat {
    match p
    case Isend(d, _, _, _) => d
    case IrecvSlab(d, _, _, _) => d
    case IrecvScratch(d, _, _, _, _) => d
  }

  /** BOUNDARY ABSENCE AND TAG PAIRING for the exchange.  A send to a
      direction is posted exactly when that neighbour is on another process,
      and so is a receive from it; sends go out from the slab at the send
      start with the direction's send tag, receives land in the ghost slab of
      that direction and use receive tag 1 - dir, the direction in which the
      neighbour sends to this patch. */
  lemma ExchangePostsCorrect(iDim: nat, n: Idx3, os: nat, dual: nat, nb: seq<bool>, h: Handle, dir: nat)
    requires iDim < 3 && |nb| == 2 && dir < 2
    ensures (exists k :: 0 <= k < |ExchangePosts(iDim, n, os, dual, nb, h)| &&
               ExchangePosts(iDim, n, os, dual, nb, h)[k]
               == Isend(dir, h, AxisPoint(iDim, ExchangeSendStart(dir, Get(n, iDim), os, dual)), SendTag(iDim, dir)))
            <==> nb[dir]
    ensures (exists k :: 0 <= k < |ExchangePosts(iDim, n, os, dual, nb, h)| &&
               ExchangePosts(iDim, n, os, dual, nb, h)[k]
               == IrecvSlab(dir, h, AxisPoint(iDim, ExchangeRecvFrom(dir, Get(n, iDim), os)), RecvTag(iDim, 1 - dir)))
            <==> nb[dir]
    ensures forall k :: 0 <= k < |ExchangePosts(iDim, n, os, dual, nb, h)| ==>
      var p := ExchangePosts(iDim, n, os, dual, nb, h)[k];
      && (p.Isend? || p.IrecvSlab?)
      && nb[Peer(p)] && p.view == h
      && (p.Isend? ==> p == Isend(p.neighbor, h, AxisPoint(iDim, ExchangeSendStart(p.neighbor, Get(n, iDim), os, dual)), SendTag(iDim, p.neighbor)))
      && (p.IrecvSlab? ==> p == IrecvSlab(p.neighbor, h, AxisPoint(iDim, ExchangeRecvFrom(p.neighbor, Get(n, iDim), os)), RecvTag(iDim, 1 - p.neighbor)))
  {
    var ps := ExchangePosts(iDim, n, os, dual, nb, h);
    var s0, s1 := ExchangeStep(iDim, n, os, dual, nb, h, 0), ExchangeStep(iDim, n, os, dual, nb, h, 1);
    assert ps == s0 + s1;
    var send := Isend(dir, h, AxisPoint(iDim, ExchangeSendStart(dir, Get(n, iDim), os, dual)), SendTag(iDim, dir));
    var recv := IrecvSlab(dir, h, AxisPoint(iDim, ExchangeRecvFrom(dir, Get(n, iDim), os)), RecvTag(iDim, 1 - dir));
    assert send in ps <==> nb[dir];
    assert recv in ps <==> nb[dir];
  }

  /** BOUNDARY ABSENCE AND TAG PAIRING for the reduction.  A send to a
      direction is posted exactly when that neighbour is on another process,
      and so is a receive from it; sends go out from the boundary slab at the
      reduction send start with the direction's send tag, receives fill the
      whole scratch buffer of that direction and use receive tag 1 - dir. */
  lemma SumPostsCorrect(iDim: nat, n: Idx3, w: nat, nb: seq<bool>, h: Handle, bufLen: seq<nat>, dir: nat)
    requires iDim < 3 && |nb| == 2 && |bufLen| == 2 && dir < 2
    ensures (exists k :: 0 <= k < |SumPosts(iDim, n, w, nb, h, bufLen)| &&
               SumPosts(iDim, n, w, nb, h, bufLen)[k]
               == Isend(dir, h, AxisPoint(iDim, SumSendStart(dir, Get(n, iDim), w)), SendTag(iDim, dir)))
            <==> nb[dir]
    ensures (exists k :: 0 <= k < |SumPosts(iDim, n, w, nb, h, bufLen)| &&
               SumPosts(iDim, n, w, nb, h, bufLen)[k]
               == IrecvScratch(dir, iDim, dir, bufLen[dir], RecvTag(iDim, 1 - dir)))
            <==> nb[dir]
    ensures forall k :: 0 <= k < |SumPosts(iDim, n, w, nb, h, bufLen)| ==>
      var p := SumPosts(iDim, n, w, nb, h, bufLen)[k];
      && (p.Isend? || p.IrecvScratch?)
      && nb[Peer(p)]
      && (p.Isend? ==> p == Isend(p.neighbor, h, AxisPoint(iDim, SumSendStart(p.neighbor, Get(n, iDim), w)), SendTag(iDim, p.neighbor)))
      && (p.IrecvScratch? ==> p.neighbor < 2 && p == IrecvScratch(p.neighbor, iDim, p.neighbor, bufLen[p.neighbor], RecvTag(iDim, 1 - p.neighbor)))
  {
    var ps := SumPosts(iDim, n, w, nb, h, bufLen);
    var s0, s1 := SumStep(iDim, n, w, nb, h, bufLen, 0), SumStep(iDim, n, w, nb, h, bufLen, 1);
    assert ps == s0 + s1;
    var send := Isend(dir, h, AxisPoint(iDim, SumSendStart(dir, Get(n, iDim), w)), SendTag(iDim, dir));
    var recv := IrecvScratch(dir, iDim, dir, bufLen[dir], RecvTag(iDim, 1 - dir));
    assert send in ps <==> nb[dir];
    assert recv in ps <==> nb[dir];
  }
}
