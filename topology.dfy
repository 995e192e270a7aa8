/** Neighbour coordinates of a patch: one step down or up an axis of the
    patch grid, wrapped once when the boundary condition of that axis is
    "periodic" (Patch3D::initStep2). */
module Topology {
  import Grid

  /** The boundary-condition name that makes an axis wrap around. */
  const Periodic: string := "periodic"

  /** Coordinate handed to the domain-id lookup along the stepped axis for
      direction `dir` (0 = lower, 1 = upper), `n` patches along that axis.
      Outside a periodic axis the out-of-range values -1 and n pass through. */
  function NeighborCoordinate(c: int, n: int, periodic: bool, dir: nat): int
  {
    if dir == 0 then
      var x := c - 1;
      if periodic && x < 0 then x + n else x
    else
      var x := c + 1;
      if periodic && x >= n then x - n else x
  }

  /** The `xcall` vector handed to getDomainId for the neighbour of a patch at
      `coords` along `axis` in direction `dir`; `bcs[a]` is the first
      boundary condition given for axis a. */
  function NeighborCall(coords: seq<int>, ndomain: seq<nat>, bcs: seq<string>, axis: nat, dir: nat): (x: seq<int>)
    requires |coords| == 3 && |ndomain| == 3 && |bcs| == 3 && axis < 3
    ensures |x| == 3
    ensures forall a :: 0 <= a < 3 && a != axis ==> x[a] == coords[a]
    ensures x[axis] == NeighborCoordinate(coords[axis], ndomain[axis], bcs[axis] == Periodic, dir)
  {
    coords[axis := NeighborCoordinate(coords[axis], ndomain[axis], bcs[axis] == Periodic, dir)]
  }

  /** On a periodic axis a neighbour coordinate is the step taken modulo the
      patch count, so it stays in range. */
  lemma PeriodicNeighborWraps(c: int, n: int, dir: nat)
    requires 0 <= c < n && dir < 2
    ensures NeighborCoordinate(c, n, true, dir) == (if dir == 0 then (c - 1) % n else (c + 1) % n)
    ensures 0 <= NeighborCoordinate(c, n, true, dir) < n
  {
    if dir == 0 {
      if c == 0 { Grid.DivModUnique(c - 1, n, -1, n - 1); } else { Grid.DivModUnique(c - 1, n, 0, c - 1); }
    } else {
      if c == n - 1 { Grid.DivModUnique(c + 1, n, 1, 0); } else { Grid.DivModUnique(c + 1, n, 0, c + 1); }
    }
  }

  /** A single patch along a periodic axis is its own neighbour both ways. */
  lemma SinglePatchIsOwnNeighbor(c: int, dir: nat)
    requires c == 0
    ensures NeighborCoordinate(c, 1, true, dir) == c
  {
  }

  /** Off a periodic axis nothing wraps: the step is passed through as is. */
  lemma OpenNeighborPassesThrough(c: int, n: int, dir: nat)
    ensures NeighborCoordinate(c, n, false, dir) == if dir == 0 then c - 1 else c + 1
  {
  }

  /** Stepping up and then down (or down and then up) returns to the start
      coordinate, on a periodic axis for in-range coordinates and on any
      other axis for every coordinate. */
  lemma NeighborStepsInvert(c: int, n: int, periodic: bool, dir: nat)
    requires dir < 2
    requires periodic ==> 0 <= c < n
    ensures NeighborCoordinate(NeighborCoordinate(c, n, periodic, dir), n, periodic, 1 - dir) == c
  {
  }

  /** The coordinate reached from c by m upper-neighbour steps on a periodic axis. */
  function UpperWalk(c: int, n: int, m: nat): int
  {
    if m == 0 then c else NeighborCoordinate(UpperWalk(c, n, m - 1), n, true, 1)
  }

  /** m upper steps on a periodic axis of n patches advance by m modulo n. */
  lemma {:induction false} UpperWalkAdvances(c: int, n: int, m: nat)
    requires 0 <= c < n
    ensures UpperWalk(c, n, m) == (c + m) % n
  {
    if m == 0 {
      Grid.DivModUnique(c, n, 0, c);
    } else {
      UpperWalkAdvances(c, n, m - 1);
      UpperStepMod(c + m - 1, n);
    }
  }

  /** One upper step on a periodic axis from p mod n reaches (p + 1) mod n. */
  lemma UpperStepMod(p: int, n: int)
    requires n > 0
    ensures NeighborCoordinate(p % n, n, true, 1) == (p + 1) % n
  {
    var x, q := p % n, p / n;
    assert p == q * n + x;
    if x + 1 < n {
      Grid.DivModUnique(p + 1, n, q, x + 1);
    } else {
      assert (q + 1) * n == q * n + n;
      Grid.DivModUnique(p + 1, n, q + 1, 0);
    }
  }

  /** PERIODIC CLOSURE.  Following the upper neighbour n times along a
      periodic axis of n patches comes back to the starting patch. */
  lemma PeriodicClosure(c: int, n: int)
    requires 0 <= c < n
    ensures UpperWalk(c, n, n) == c
  {
    UpperWalkAdvances(c, n, n);
    Grid.DivModUnique(c + n, n, 1, c);
  }
}
