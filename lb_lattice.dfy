/**
 * The lattices of the lattice-Boltzmann integrator and the halo exchange
 * over them. A lattice holds, for every site (i, j, k) of the local region
 * including its halo, the populations f_0 .. f_{numVels-1}; it is stored as
 * a 4-dimensional array and described, for specification, by its value.
 *
 * The halo exchange moves one plane of one axis at a time: it packs five
 * populations of every site of a sending plane into a buffer, site after
 * site with the inner coordinate running fastest, and unpacks a buffer into
 * the same five populations of a receiving plane. On a single node the
 * buffer it unpacks is the one it packed; otherwise it is what the
 * neighbour sent.
 */
module LBLattice {
  import opened Wrappers
  import opened LBModel

  /** A lattice as a value: `s[i][j][k][l]` is population `l` at site (i, j, k). */
  type Lattice = seq<seq<seq<seq<real>>>>

  /** The number of sites along x, y and z. */
  type Dims = (int, int, int)

  function DimOf(n: Dims, axis: nat): int
    requires axis < 3
  {
    if axis == 0 then n.0 else if axis == 1 then n.1 else n.2
  }

  /** The coordinate the pack and unpack loops run over fastest: y for the x planes, x otherwise. */
  function InnerAxis(axis: nat): nat
  {
    if axis == 0 then 1 else 0
  }

  /** The coordinate the loops run over slowest: y for the z planes, z otherwise. */
  function OuterAxis(axis: nat): nat
  {
    if axis == 2 then 1 else 2
  }

  function Coord(axis: nat, i: int, j: int, k: int): int
  {
    if axis == 0 then i else if axis == 1 then j else k
  }

  /** The site of a plane of `axis` with inner coordinate `u` and outer coordinate `w`. */
  function Site(axis: nat, plane: int, u: int, w: int): (int, int, int)
  {
    if axis == 0 then (plane, u, w) else if axis == 1 then (u, plane, w) else (u, w, plane)
  }

  /** Where population number `q` (of five) of site `(u, w)` sits in a halo buffer. */
  function Slot(inner: int, u: int, w: int, q: int): int
  {
    5 * (w * inner + u) + q
  }

  /** The length of a halo buffer for the planes of `axis`. */
  function BufferSize(n: Dims, axis: nat): int
    requires axis < 3
  {
    5 * DimOf(n, InnerAxis(axis)) * DimOf(n, OuterAxis(axis))
  }

  /** A site's inner and outer coordinates, with its plane, name the site again. */
  lemma SiteOfCoords(axis: nat, i: int, j: int, k: int)
    requires axis < 3
    ensures Site(axis, Coord(axis, i, j, k), Coord(InnerAxis(axis), i, j, k), Coord(OuterAxis(axis), i, j, k)) == (i, j, k)
  {
  }

  /** Every slot of a site inside the plane lies inside the buffer. */
  lemma SlotInRange(inner: int, outer: int, u: int, w: int, q: int)
    requires 0 <= u < inner && 0 <= w < outer && 0 <= q < 5
    ensures 0 <= Slot(inner, u, w, q) < 5 * inner * outer
  {
    MulLeq(0, w, inner);
    assert w * inner + u < (w + 1) * inner;
    MulLeq(w + 1, outer, inner);
  }

  lemma MulLeq(a: int, b: int, c: int)
    requires 0 <= c && a <= b
    ensures a * c <= b * c
  {
    assert b * c - a * c == (b - a) * c;
  }

  /** The slots of sites the loops visited earlier come before the current site's slots. */
  lemma SlotBefore(inner: int, u: int, w: int, u': int, w': int, q': int)
    requires 0 <= u && 0 <= u' < inner && 0 <= w' && 0 <= q' < 5
    requires w' < w || (w' == w && u' < u)
    ensures Slot(inner, u', w', q') < 5 * (w * inner + u)
  {
    if w' < w {
      assert w' * inner + u' < (w' + 1) * inner;
      MulLeq(w' + 1, w, inner);
    }
  }

  lemma SlotsBefore(inner: int, u: int, w: int)
    requires 0 <= u
    ensures forall u', w', q' ::
              0 <= u' < inner && 0 <= w' && 0 <= q' < 5 && (w' < w || (w' == w && u' < u))
              ==> Slot(inner, u', w', q') < 5 * (w * inner + u)
  {
    forall u', w', q' | 0 <= u' < inner && 0 <= w' && 0 <= q' < 5 && (w' < w || (w' == w && u' < u))
      ensures Slot(inner, u', w', q') < 5 * (w * inner + u)
    {
      SlotBefore(inner, u, w, u', w', q');
    }
  }

  /** The position of a population in a set of five. */
  function IndexOf(pops: seq<nat>, l: nat): (q: nat)
    requires l in pops
    ensures q < |pops| && pops[q] == l
  {
    if pops[0] == l then 0 else 1 + IndexOf(pops[1..], l)
  }

  /** `s` has `n.0 x n.1 x n.2` sites of `v` populations each. */
  predicate Box(s: Lattice, n: Dims, v: int)
  {
    && n.0 >= 0 && n.1 >= 0 && n.2 >= 0 && v >= 0
    && |s| == n.0
    && (forall i :: 0 <= i < n.0 ==> |s[i]| == n.1)
    && (forall i, j :: 0 <= i < n.0 && 0 <= j < n.1 ==> |s[i][j]| == n.2)
    && (forall i, j, k :: 0 <= i < n.0 && 0 <= j < n.1 && 0 <= k < n.2 ==> |s[i][j][k]| == v)
  }

  /** Two lattices of the same shape with the same populations everywhere are equal. */
  lemma LatticeEq(a: Lattice, b: Lattice, n: Dims, v: int)
    requires Box(a, n, v) && Box(b, n, v)
    requires forall i, j, k, l :: 0 <= i < n.0 && 0 <= j < n.1 && 0 <= k < n.2 && 0 <= l < v ==> a[i][j][k][l] == b[i][j][k][l]
    ensures a == b
  {
    forall i | 0 <= i < n.0
      ensures a[i] == b[i]
    {
      forall j | 0 <= j < n.1
        ensures a[i][j] == b[i][j]
      {
        forall k | 0 <= k < n.2
          ensures a[i][j][k] == b[i][j][k]
        {
        }
      }
    }
  }

  function DimsOf(lat: array4<real>): Dims
  {
    (lat.Length0, lat.Length1, lat.Length2)
  }

  /** The value of an array lattice. */
  function Snapshot(lat: array4<real>): (s: Lattice)
    reads lat
    ensures Box(s, DimsOf(lat), lat.Length3)
    ensures forall i, j, k, l ::
              0 <= i < lat.Length0 && 0 <= j < lat.Length1 && 0 <= k < lat.Length2 && 0 <= l < lat.Length3
              ==> s[i][j][k][l] == lat[i, j, k, l]
  {
    seq(lat.Length0, i requires 0 <= i < lat.Length0 reads lat =>
      seq(lat.Length1, j requires 0 <= j < lat.Length1 reads lat =>
        seq(lat.Length2, k requires 0 <= k < lat.Length2 reads lat =>
          seq(lat.Length3, l requires 0 <= l < lat.Length3 reads lat => lat[i, j, k, l]))))
  }

  /** The conditions under which one plane exchange is defined. */
  predicate ExchangeArgs(n: Dims, v: int, axis: nat, send: int, recv: int, pops: seq<nat>, incoming: Option<seq<real>>)
  {
    && axis < 3 && v >= NumVelocities && PopSet(pops)
    && 0 <= send < DimOf(n, axis) && 0 <= recv < DimOf(n, axis)
    && (incoming.Some? ==> |incoming.value| == BufferSize(n, axis))
  }

  /** Population `l` of site (i, j, k) after one plane exchange. */
  function ExchangedValue(s: Lattice, n: Dims, v: int, axis: nat, send: int, recv: int, pops: seq<nat>,
                          incoming: Option<seq<real>>, i: int, j: int, k: int, l: int): real
    requires Box(s, n, v) && ExchangeArgs(n, v, axis, send, recv, pops, incoming)
    requires 0 <= i < n.0 && 0 <= j < n.1 && 0 <= k < n.2 && 0 <= l < v
  {
    if Coord(axis, i, j, k) == recv && l in pops then
      var u, w := Coord(InnerAxis(axis), i, j, k), Coord(OuterAxis(axis), i, j, k);
      match incoming
      case None =>
        var c := Site(axis, send, u, w);
        s[c.0][c.1][c.2][l]
      case Some(buf) =>
        SlotInRange(DimOf(n, InnerAxis(axis)), DimOf(n, OuterAxis(axis)), u, w, IndexOf(pops, l));
        buf[Slot(DimOf(n, InnerAxis(axis)), u, w, IndexOf(pops, l))]
    else s[i][j][k][l]
  }

  /**
   * The lattice after one plane exchange: the `pops` of every site of plane
   * `recv` replaced, on a single node by the same populations of the site at
   * plane `send`, otherwise by the received buffer's values for that site.
   */
  function ExchangeModel(s: Lattice, n: Dims, v: int, axis: nat, send: int, recv: int, pops: seq<nat>,
                         incoming: Option<seq<real>>): (r: Lattice)
    requires Box(s, n, v) && ExchangeArgs(n, v, axis, send, recv, pops, incoming)
    ensures Box(r, n, v)
    ensures forall i, j, k, l ::
              0 <= i < n.0 && 0 <= j < n.1 && 0 <= k < n.2 && 0 <= l < v
              ==> r[i][j][k][l] == ExchangedValue(s, n, v, axis, send, recv, pops, incoming, i, j, k, l)
  {
    seq(n.0, i requires 0 <= i < n.0 =>
      seq(n.1, j requires 0 <= j < n.1 =>
        seq(n.2, k requires 0 <= k < n.2 =>
          seq(v, l requires 0 <= l < v => ExchangedValue(s, n, v, axis, send, recv, pops, incoming, i, j, k, l)))))
  }

  /** A buffer packed from plane `plane` of `s`: population `pops[q]` of site `(u, w)` at slot `5*(w*inner+u)+q`. */
  predicate PackedFrom(buf: seq<real>, s: Lattice, n: Dims, v: int, axis: nat, plane: int, pops: seq<nat>)
    requires Box(s, n, v) && axis < 3 && v >= NumVelocities && PopSet(pops) && 0 <= plane < DimOf(n, axis)
  {
    var inner, outer := DimOf(n, InnerAxis(axis)), DimOf(n, OuterAxis(axis));
    && |buf| == BufferSize(n, axis)
    && forall u, w, q :: 0 <= u < inner && 0 <= w < outer && 0 <= q < 5 ==>
         var c := Site(axis, plane, u, w);
         0 <= Slot(inner, u, w, q) < |buf| && buf[Slot(inner, u, w, q)] == s[c.0][c.1][c.2][pops[q]]
  }

  /**
   * On a single node an exchange copies, for each of the five populations,
   * the sending plane onto the receiving plane at the same inner and outer
   * coordinates, and changes nothing else.
   */
  lemma LocalExchangeCopiesPlane(s: Lattice, n: Dims, v: int, axis: nat, send: int, recv: int, pops: seq<nat>,
                                 u: int, w: int, l: nat)
    requires Box(s, n, v) && ExchangeArgs(n, v, axis, send, recv, pops, None)
    requires 0 <= u < DimOf(n, InnerAxis(axis)) && 0 <= w < DimOf(n, OuterAxis(axis)) && l < v
    ensures var r, c, d := ExchangeModel(s, n, v, axis, send, recv, pops, None), Site(axis, recv, u, w), Site(axis, send, u, w);
      r[c.0][c.1][c.2][l] == (if l in pops then s[d.0][d.1][d.2][l] else s[c.0][c.1][c.2][l])
  {
  }

  /** An exchange only touches its five populations on its receiving plane. */
  lemma ExchangeFrame(s: Lattice, n: Dims, v: int, axis: nat, send: int, recv: int, pops: seq<nat>,
                      incoming: Option<seq<real>>, i: int, j: int, k: int, l: int)
    requires Box(s, n, v) && ExchangeArgs(n, v, axis, send, recv, pops, incoming)
    requires 0 <= i < n.0 && 0 <= j < n.1 && 0 <= k < n.2 && 0 <= l < v
    requires Coord(axis, i, j, k) != recv || l !in pops
    ensures ExchangeModel(s, n, v, axis, send, recv, pops, incoming)[i][j][k][l] == s[i][j][k][l]
  {
  }

  /** Copies the five populations `pops` of site `c` into `buf[idx .. idx+5]`. */
  method PackSite(lat: array4<real>, c: (int, int, int), pops: seq<nat>, buf: array<real>, idx: int)
    requires PopSet(pops) && lat.Length3 >= NumVelocities
    requires 0 <= c.0 < lat.Length0 && 0 <= c.1 < lat.Length1 && 0 <= c.2 < lat.Length2
    requires 0 <= idx && idx + 5 <= buf.Length
    modifies buf
    ensures forall q :: 0 <= q < 5 ==> buf[idx + q] == lat[c.0, c.1, c.2, pops[q]]
    ensures forall m :: 0 <= m < buf.Length && !(idx <= m < idx + 5) ==> buf[m] == old(buf[m])
  {
    buf[idx] := lat[c.0, c.1, c.2, pops[0]];
    buf[idx + 1] := lat[c.0, c.1, c.2, pops[1]];
    buf[idx + 2] := lat[c.0, c.1, c.2, pops[2]];
    buf[idx + 3] := lat[c.0, c.1, c.2, pops[3]];
    buf[idx + 4] := lat[c.0, c.1, c.2, pops[4]];
  }

  /** Packs row `w` of plane `plane` into its slots of `buf`, inner coordinate fastest. */
  method PackRow(lat: array4<real>, axis: nat, plane: int, pops: seq<nat>, buf: array<real>, w: int)
    requires axis < 3 && lat.Length3 >= NumVelocities && PopSet(pops) && 0 <= plane < DimOf(DimsOf(lat), axis)
    requires buf.Length == BufferSize(DimsOf(lat), axis) && 0 <= w < DimOf(DimsOf(lat), OuterAxis(axis))
    modifies buf
    ensures forall u, q {:trigger Slot(DimOf(DimsOf(lat), InnerAxis(axis)), u, w, q)} ::
              0 <= u < DimOf(DimsOf(lat), InnerAxis(axis)) && 0 <= q < 5
              ==> 0 <= Slot(DimOf(DimsOf(lat), InnerAxis(axis)), u, w, q) < buf.Length
                  && buf[Slot(DimOf(DimsOf(lat), InnerAxis(axis)), u, w, q)]
                     == lat[Site(axis, plane, u, w).0, Site(axis, plane, u, w).1, Site(axis, plane, u, w).2, pops[q]]
    ensures forall m :: 0 <= m < buf.Length && m < 5 * (w * DimOf(DimsOf(lat), InnerAxis(axis))) ==> buf[m] == old(buf[m])
  {
    var n := DimsOf(lat);
    var inner, outer := DimOf(n, InnerAxis(axis)), DimOf(n, OuterAxis(axis));
    var idx := 5 * (w * inner);
    var u := 0;
    while u < inner
      invariant 0 <= u <= inner && idx == 5 * (w * inner + u)
      invariant forall u', q' {:trigger Slot(inner, u', w, q')} :: 0 <= u' < u && 0 <= q' < 5 ==>
        0 <= Slot(inner, u', w, q') < buf.Length
        && buf[Slot(inner, u', w, q')] == lat[Site(axis, plane, u', w).0, Site(axis, plane, u', w).1, Site(axis, plane, u', w).2, pops[q']]
      invariant forall m :: 0 <= m < buf.Length && m < 5 * (w * inner) ==> buf[m] == old(buf[m])
    {
      SlotInRange(inner, outer, u, w, 4);
      SlotsBefore(inner, u, w);
      ghost var before := buf[..];
      PackSite(lat, Site(axis, plane, u, w), pops, buf, idx);
      forall u', q' | 0 <= u' <= u && 0 <= q' < 5
        ensures 0 <= Slot(inner, u', w, q') < buf.Length
        ensures buf[Slot(inner, u', w, q')] == lat[Site(axis, plane, u', w).0, Site(axis, plane, u', w).1, Site(axis, plane, u', w).2, pops[q']]
      {
        if u' < u {
          assert Slot(inner, u', w, q') < idx;
          assert buf[Slot(inner, u', w, q')] == before[Slot(inner, u', w, q')];
        } else {
          assert Slot(inner, u', w, q') == idx + q';
        }
      }
      u := u + 1;
      idx := idx + 5;
    }
  }

  /**
   * Packs plane `plane` of `axis`: outer coordinate slowest, inner fastest,
   * the five populations of each site side by side.
   */
  method PackPlane(lat: array4<real>, axis: nat, plane: int, pops: seq<nat>) returns (buf: array<real>)
    requires axis < 3 && lat.Length3 >= NumVelocities && PopSet(pops) && 0 <= plane < DimOf(DimsOf(lat), axis)
    ensures fresh(buf)
    ensures PackedFrom(buf[..], Snapshot(lat), DimsOf(lat), lat.Length3, axis, plane, pops)
  {
    var n := DimsOf(lat);
    var inner, outer := DimOf(n, InnerAxis(axis)), DimOf(n, OuterAxis(axis));
    buf := new real[5 * inner * outer];
    var w := 0;
    while w < outer
      invariant 0 <= w <= outer
      invariant forall u', w', q' {:trigger Slot(inner, u', w', q')} :: 0 <= u' < inner && 0 <= w' < w && 0 <= q' < 5 ==>
        0 <= Slot(inner, u', w', q') < buf.Length
        && buf[Slot(inner, u', w', q')] == lat[Site(axis, plane, u', w').0, Site(axis, plane, u', w').1, Site(axis, plane, u', w').2, pops[q']]
    {
      SlotsBefore(inner, 0, w);
      PackRow(lat, axis, plane, pops, buf, w);
      w := w + 1;
    }
  }

  /** Site `c` lies within the lattice array. */
  predicate OnLattice(lat: array4<real>, c: (int, int, int))
  {
    0 <= c.0 < lat.Length0 && 0 <= c.1 < lat.Length1 && 0 <= c.2 < lat.Length2
  }

  /** Sets the five populations `pops` of site (`u`, `w`) of plane `plane` to `vals`. */
  method UnpackSite(lat: array4<real>, axis: nat, plane: int, u: int, w: int, pops: seq<nat>, vals: seq<real>)
    requires PopSet(pops) && lat.Length3 >= NumVelocities && |vals| == 5
    requires OnLattice(lat, Site(axis, plane, u, w))
    modifies lat
    ensures forall q :: 0 <= q < 5 ==>
              lat[Site(axis, plane, u, w).0, Site(axis, plane, u, w).1, Site(axis, plane, u, w).2, pops[q]] == vals[q]
    ensures forall u', w', q :: (u', w') != (u, w) && 0 <= q < 5 && OnLattice(lat, Site(axis, plane, u', w'))
              ==> lat[Site(axis, plane, u', w').0, Site(axis, plane, u', w').1, Site(axis, plane, u', w').2, pops[q]]
                  == old(lat[Site(axis, plane, u', w').0, Site(axis, plane, u', w').1, Site(axis, plane, u', w').2, pops[q]])
    ensures forall i, j, k, l ::
              0 <= i < lat.Length0 && 0 <= j < lat.Length1 && 0 <= k < lat.Length2 && 0 <= l < lat.Length3
              && !(Coord(axis, i, j, k) == plane && l in pops)
              ==> lat[i, j, k, l] == old(lat[i, j, k, l])
  {
    var c := Site(axis, plane, u, w);
    lat[c.0, c.1, c.2, pops[0]] := vals[0];
    lat[c.0, c.1, c.2, pops[1]] := vals[1];
    lat[c.0, c.1, c.2, pops[2]] := vals[2];
    lat[c.0, c.1, c.2, pops[3]] := vals[3];
    lat[c.0, c.1, c.2, pops[4]] := vals[4];
  }

  /** Unpacks the part of a buffer that belongs to row `w` of plane `plane`. */
  method UnpackRow(lat: array4<real>, axis: nat, plane: int, pops: seq<nat>, buf: seq<real>, w: int)
    requires axis < 3 && lat.Length3 >= NumVelocities && PopSet(pops) && 0 <= plane < DimOf(DimsOf(lat), axis)
    requires |buf| == BufferSize(DimsOf(lat), axis) && 0 <= w < DimOf(DimsOf(lat), OuterAxis(axis))
    modifies lat
    ensures forall u, q {:trigger Slot(DimOf(DimsOf(lat), InnerAxis(axis)), u, w, q)} ::
              0 <= u < DimOf(DimsOf(lat), InnerAxis(axis)) && 0 <= q < 5
              ==> 0 <= Slot(DimOf(DimsOf(lat), InnerAxis(axis)), u, w, q) < |buf|
                  && lat[Site(axis, plane, u, w).0, Site(axis, plane, u, w).1, Site(axis, plane, u, w).2, pops[q]]
                     == buf[Slot(DimOf(DimsOf(lat), InnerAxis(axis)), u, w, q)]
    ensures forall u', w', q :: w' != w && 0 <= q < 5 && OnLattice(lat, Site(axis, plane, u', w'))
              ==> lat[Site(axis, plane, u', w').0, Site(axis, plane, u', w').1, Site(axis, plane, u', w').2, pops[q]]
                  == old(lat[Site(axis, plane, u', w').0, Site(axis, plane, u', w').1, Site(axis, plane, u', w').2, pops[q]])
    ensures forall i, j, k, l ::
              0 <= i < lat.Length0 && 0 <= j < lat.Length1 && 0 <= k < lat.Length2 && 0 <= l < lat.Length3
              && !(Coord(axis, i, j, k) == plane && l in pops)
              ==> lat[i, j, k, l] == old(lat[i, j, k, l])
  {
    var n := DimsOf(lat);
    var inner, outer := DimOf(n, InnerAxis(axis)), DimOf(n, OuterAxis(axis));
    var idx := 5 * (w * inner);
    var u := 0;
    while u < inner
      invariant 0 <= u <= inner && idx == 5 * (w * inner + u)
      invariant forall u', q' {:trigger Slot(inner, u', w, q')} :: 0 <= u' < u && 0 <= q' < 5 ==>
        0 <= Slot(inner, u', w, q') < |buf|
        && lat[Site(axis, plane, u', w).0, Site(axis, plane, u', w).1, Site(axis, plane, u', w).2, pops[q']] == buf[Slot(inner, u', w, q')]
      invariant forall u', w', q :: w' != w && 0 <= q < 5 && OnLattice(lat, Site(axis, plane, u', w'))
                  ==> lat[Site(axis, plane, u', w').0, Site(axis, plane, u', w').1, Site(axis, plane, u', w').2, pops[q]]
                      == old(lat[Site(axis, plane, u', w').0, Site(axis, plane, u', w').1, Site(axis, plane, u', w').2, pops[q]])
      invariant forall i, j, k, l ::
                  0 <= i < lat.Length0 && 0 <= j < lat.Length1 && 0 <= k < lat.Length2 && 0 <= l < lat.Length3
                  && !(Coord(axis, i, j, k) == plane && l in pops)
                  ==> lat[i, j, k, l] == old(lat[i, j, k, l])
    {
      SlotInRange(inner, outer, u, w, 4);
      UnpackSite(lat, axis, plane, u, w, pops, buf[idx..idx + 5]);
      forall u', q' | 0 <= u' <= u && 0 <= q' < 5
        ensures 0 <= Slot(inner, u', w, q') < |buf|
        ensures lat[Site(axis, plane, u', w).0, Site(axis, plane, u', w).1, Site(axis, plane, u', w).2, pops[q']] == buf[Slot(inner, u', w, q')]
      {
        SlotInRange(inner, outer, u', w, q');
        if u' == u {
          assert Slot(inner, u', w, q') == idx + q';
        } else {
          assert (u', w) != (u, w) && OnLattice(lat, Site(axis, plane, u', w));
        }
      }
      u := u + 1;
      idx := idx + 5;
    }
  }

  /** Unpacks a buffer into the five populations of every site of plane `plane`, in packing order. */
  method UnpackPlane(lat: array4<real>, axis: nat, plane: int, pops: seq<nat>, buf: seq<real>)
    requires axis < 3 && lat.Length3 >= NumVelocities && PopSet(pops) && 0 <= plane < DimOf(DimsOf(lat), axis)
    requires |buf| == BufferSize(DimsOf(lat), axis)
    modifies lat
    ensures forall u, w, q {:trigger Slot(DimOf(DimsOf(lat), InnerAxis(axis)), u, w, q)} ::
              0 <= u < DimOf(DimsOf(lat), InnerAxis(axis)) && 0 <= w < DimOf(DimsOf(lat), OuterAxis(axis)) && 0 <= q < 5
              ==> 0 <= Slot(DimOf(DimsOf(lat), InnerAxis(axis)), u, w, q) < |buf|
                  && lat[Site(axis, plane, u, w).0, Site(axis, plane, u, w).1, Site(axis, plane, u, w).2, pops[q]]
                     == buf[Slot(DimOf(DimsOf(lat), InnerAxis(axis)), u, w, q)]
    ensures forall i, j, k, l ::
              0 <= i < lat.Length0 && 0 <= j < lat.Length1 && 0 <= k < lat.Length2 && 0 <= l < lat.Length3
              && !(Coord(axis, i, j, k) == plane && l in pops)
              ==> lat[i, j, k, l] == old(lat[i, j, k, l])
  {
    var n := DimsOf(lat);
    var inner, outer := DimOf(n, InnerAxis(axis)), DimOf(n, OuterAxis(axis));
    var w := 0;
    while w < outer
      invariant 0 <= w <= outer
      invariant forall u', w', q' {:trigger Slot(inner, u', w', q')} :: 0 <= u' < inner && 0 <= w' < w && 0 <= q' < 5 ==>
        0 <= Slot(inner, u', w', q') < |buf|
        && lat[Site(axis, plane, u', w').0, Site(axis, plane, u', w').1, Site(axis, plane, u', w').2, pops[q']] == buf[Slot(inner, u', w', q')]
      invariant forall i, j, k, l ::
                  0 <= i < lat.Length0 && 0 <= j < lat.Length1 && 0 <= k < lat.Length2 && 0 <= l < lat.Length3
                  && !(Coord(axis, i, j, k) == plane && l in pops)
                  ==> lat[i, j, k, l] == old(lat[i, j, k, l])
    {
      UnpackRow(lat, axis, plane, pops, buf, w);
      w := w + 1;
    }
  }

  /** A site of the receiving plane holds, after unpacking, the value the exchange model gives it. */
  lemma ReceivedSite(lat: array4<real>, before: Lattice, axis: nat, send: int, recv: int, pops: seq<nat>,
                     incoming: Option<seq<real>>, buf: seq<real>, i: int, j: int, k: int, l: int)
    requires ExchangeArgs(DimsOf(lat), lat.Length3, axis, send, recv, pops, incoming)
    requires Box(before, DimsOf(lat), lat.Length3) && |buf| == BufferSize(DimsOf(lat), axis)
    requires incoming.Some? ==> buf == incoming.value
    requires incoming.None? ==> PackedFrom(buf, before, DimsOf(lat), lat.Length3, axis, send, pops)
    requires forall u, w, q {:trigger Slot(DimOf(DimsOf(lat), InnerAxis(axis)), u, w, q)} ::
               0 <= u < DimOf(DimsOf(lat), InnerAxis(axis)) && 0 <= w < DimOf(DimsOf(lat), OuterAxis(axis)) && 0 <= q < 5
               ==> 0 <= Slot(DimOf(DimsOf(lat), InnerAxis(axis)), u, w, q) < |buf|
                   && lat[Site(axis, recv, u, w).0, Site(axis, recv, u, w).1, Site(axis, recv, u, w).2, pops[q]]
                      == buf[Slot(DimOf(DimsOf(lat), InnerAxis(axis)), u, w, q)]
    requires 0 <= i < lat.Length0 && 0 <= j < lat.Length1 && 0 <= k < lat.Length2 && 0 <= l < lat.Length3
    requires Coord(axis, i, j, k) == recv && l in pops
    ensures lat[i, j, k, l] == ExchangedValue(before, DimsOf(lat), lat.Length3, axis, send, recv, pops, incoming, i, j, k, l)
  {
    var n := DimsOf(lat);
    var u, w, q := Coord(InnerAxis(axis), i, j, k), Coord(OuterAxis(axis), i, j, k), IndexOf(pops, l);
    SiteOfCoords(axis, i, j, k);
    SlotInRange(DimOf(n, InnerAxis(axis)), DimOf(n, OuterAxis(axis)), u, w, q);
    assert Site(axis, recv, u, w) == (i, j, k);
  }

  /**
   * One direction of the halo exchange: pack plane `send`, take the packed
   * buffer itself on a single node or the neighbour's buffer otherwise, and
   * unpack it into plane `recv`. Returns the packed buffer, which is what is
   * sent to the neighbour.
   */
  method ExchangePlane(lat: array4<real>, axis: nat, send: int, recv: int, pops: seq<nat>, incoming: Option<seq<real>>)
    returns (sent: seq<real>)
    requires ExchangeArgs(DimsOf(lat), lat.Length3, axis, send, recv, pops, incoming)
    modifies lat
    ensures PackedFrom(sent, old(Snapshot(lat)), DimsOf(lat), lat.Length3, axis, send, pops)
    ensures Snapshot(lat) == ExchangeModel(old(Snapshot(lat)), DimsOf(lat), lat.Length3, axis, send, recv, pops, incoming)
  {
    ghost var before := Snapshot(lat);
    var n, v := DimsOf(lat), lat.Length3;
    var bufToSend := PackPlane(lat, axis, send, pops);
    var bufToRecv := if incoming.None? then bufToSend[..] else incoming.value;
    UnpackPlane(lat, axis, recv, pops, bufToRecv);
    sent := bufToSend[..];

    ghost var after := ExchangeModel(before, n, v, axis, send, recv, pops, incoming);
    forall i, j, k, l | 0 <= i < n.0 && 0 <= j < n.1 && 0 <= k < n.2 && 0 <= l < v
      ensures Snapshot(lat)[i][j][k][l] == after[i][j][k][l]
    {
      if Coord(axis, i, j, k) == recv && l in pops {
        ReceivedSite(lat, before, axis, send, recv, pops, incoming, bufToRecv, i, j, k, l);
      } else {
        ExchangeFrame(before, n, v, axis, send, recv, pops, incoming, i, j, k, l);
      }
    }
    LatticeEq(Snapshot(lat), after, n, v);
  }
}
