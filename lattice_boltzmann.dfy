/**
 * The lattice-Boltzmann integrator extension, restricted to its integer and
 * control logic: the set-up of its flags and coupling buffer, the ranks of
 * the six neighbouring nodes, the D3Q19 velocity table, the streaming
 * offsets, the six-stage halo exchange, the swap of the two lattices, the
 * step schedule and the restart-flag handling at the start of coupling.
 *
 * The floating-point physics (collision, fluctuations, coupling forces),
 * the MPI transport and file I/O are not part of this model: the node
 * grid's rank mapping, the per-node site counts and the buffers received
 * from neighbours come in as parameters.
 */
module LBIntegrator {
  import opened Wrappers
  import opened LBModel
  import opened LBLattice

  type Real3 = (real, real, real)

  function ToReal3(c: (int, int, int)): Real3
  {
    (c.0 as real, c.1 as real, c.2 as real)
  }

  /** `p` with coordinate `d` replaced by `x`. */
  function WithCoord(p: Dims, d: nat, x: int): (r: Dims)
    requires d < 3
    ensures DimOf(r, d) == x
    ensures forall e :: 0 <= e < 3 && e != d ==> DimOf(r, e) == DimOf(p, e)
  {
    if d == 0 then (x, p.1, p.2) else if d == 1 then (p.0, x, p.2) else (p.0, p.1, x)
  }

  /** The grid position of the neighbour along `d`, to the right or to the left, with periodic wrap. */
  function NeighbourPos(pos: Dims, grid: Dims, d: nat, right: bool): Dims
    requires d < 3
  {
    WithCoord(pos, d, if right then RightOf(DimOf(pos, d), DimOf(grid, d)) else LeftOf(DimOf(pos, d), DimOf(grid, d)))
  }

  predicate OnGrid(pos: Dims, grid: Dims)
  {
    0 <= pos.0 < grid.0 && 0 <= pos.1 < grid.1 && 0 <= pos.2 < grid.2
  }

  /**
   * Neighbours are mutual: the left neighbour of my right neighbour is me
   * and conversely, every neighbour is on the grid, and along a dimension
   * with a single node both neighbours are the node itself.
   */
  lemma NeighboursAreMutual(pos: Dims, grid: Dims, d: nat, right: bool)
    requires d < 3 && OnGrid(pos, grid)
    ensures OnGrid(NeighbourPos(pos, grid, d, right), grid)
    ensures NeighbourPos(NeighbourPos(pos, grid, d, right), grid, d, !right) == pos
    ensures DimOf(grid, d) == 1 ==> NeighbourPos(pos, grid, d, right) == pos
  {
    NeighbourWrap(DimOf(pos, d), DimOf(grid, d));
  }

  /** The planes of a halo stage: send the plane `offset` inside the edge, receive into the plane next to the other halo. */
  function SendPlane(n: int, offset: int, right: bool): int
  {
    if right then n - offset else 0
  }

  function RecvPlane(n: int, offset: int, right: bool): int
  {
    if right then offset else n - 2 * offset
  }

  /** Stage `st` of the halo exchange runs along axis `st / 2`, sending right when `st` is even. */
  function StageAxis(st: nat): nat
  {
    st / 2
  }

  function StageRight(st: nat): bool
  {
    st % 2 == 0
  }

  /** The buffer a stage unpacks: its own on a single node along the axis, the neighbour's otherwise. */
  function Incoming(grid: Dims, received: seq<seq<real>>, st: nat): Option<seq<real>>
    requires st < 6 && |received| == 6
  {
    if DimOf(grid, StageAxis(st)) > 1 then Some(received[st]) else None
  }

  /** The conditions under which the halo exchange is defined. */
  predicate HaloArgs(n: Dims, v: int, offset: int, grid: Dims, received: seq<seq<real>>)
  {
    && v >= NumVelocities && 1 <= offset
    && 2 * offset <= n.0 && 2 * offset <= n.1 && 2 * offset <= n.2
    && |received| == 6
    && forall st :: 0 <= st < 6 && DimOf(grid, StageAxis(st)) > 1 ==> |received[st]| == BufferSize(n, StageAxis(st))
  }

  lemma StageArgs(n: Dims, v: int, offset: int, grid: Dims, received: seq<seq<real>>, st: nat)
    requires HaloArgs(n, v, offset, grid, received) && st < 6
    ensures var axis, right := StageAxis(st), StageRight(st);
      ExchangeArgs(n, v, axis, SendPlane(DimOf(n, axis), offset, right), RecvPlane(DimOf(n, axis), offset, right),
                   HaloPops(axis, right), Incoming(grid, received, st))
  {
    HaloSetsMatchVelocities(StageAxis(st), StageRight(st));
  }

  /** `buf` is what stage `st` packs from `s`. */
  predicate StagePacked(buf: seq<real>, s: Lattice, n: Dims, v: int, offset: int, st: nat)
    requires Box(s, n, v) && v >= NumVelocities && 1 <= offset && st < 6
    requires 2 * offset <= n.0 && 2 * offset <= n.1 && 2 * offset <= n.2
  {
    var axis, right := StageAxis(st), StageRight(st);
    HaloSetsMatchVelocities(axis, right);
    PackedFrom(buf, s, n, v, axis, SendPlane(DimOf(n, axis), offset, right), HaloPops(axis, right))
  }

  /** Each buffer of `sent` is what its stage packs, starting from `s`. */
  predicate StagesPacked(sent: seq<seq<real>>, s: Lattice, n: Dims, v: int, offset: int, grid: Dims, received: seq<seq<real>>)
    requires Box(s, n, v) && HaloArgs(n, v, offset, grid, received) && |sent| <= 6
  {
    forall t :: 0 <= t < |sent| ==> StagePacked(sent[t], HaloModel(s, n, v, offset, grid, received, t), n, v, offset, t)
  }

  /** A property every element of `xs` has at its index still holds after appending an element that has it. */
  lemma EachAfterAppend<T>(xs: seq<T>, x: T, p: (nat, T) -> bool)
    requires forall t :: 0 <= t < |xs| ==> p(t, xs[t])
    requires p(|xs|, x)
    ensures forall t :: 0 <= t < |xs| + 1 ==> p(t, (xs + [x])[t])
  {
    forall t | 0 <= t < |xs| + 1
      ensures p(t, (xs + [x])[t])
    {
      if t < |xs| {
        assert (xs + [x])[t] == xs[t];
      }
    }
  }

  /** Appending the buffer the next stage packs keeps `StagesPacked`. */
  lemma StagesPackedSnoc(sent: seq<seq<real>>, buf: seq<real>, s: Lattice, n: Dims, v: int, offset: int, grid: Dims,
                         received: seq<seq<real>>)
    requires Box(s, n, v) && HaloArgs(n, v, offset, grid, received) && |sent| < 6
    requires StagesPacked(sent, s, n, v, offset, grid, received)
    requires StagePacked(buf, HaloModel(s, n, v, offset, grid, received, |sent|), n, v, offset, |sent|)
    ensures StagesPacked(sent + [buf], s, n, v, offset, grid, received)
  {
    EachAfterAppend(sent, buf, (t: nat, b: seq<real>) =>
      t < 6 && StagePacked(b, HaloModel(s, n, v, offset, grid, received, t), n, v, offset, t));
  }

  /** The lattice after stage `st` of the halo exchange. */
  function StageModel(s: Lattice, n: Dims, v: int, offset: int, grid: Dims, received: seq<seq<real>>, st: nat): (r: Lattice)
    requires Box(s, n, v) && HaloArgs(n, v, offset, grid, received) && st < 6
    ensures Box(r, n, v)
  {
    var axis, right := StageAxis(st), StageRight(st);
    StageArgs(n, v, offset, grid, received, st);
    ExchangeModel(s, n, v, axis, SendPlane(DimOf(n, axis), offset, right), RecvPlane(DimOf(n, axis), offset, right),
                  HaloPops(axis, right), Incoming(grid, received, st))
  }

  /** The lattice after the first `st` stages: x right, x left, y right, y left, z right, z left. */
  function HaloModel(s: Lattice, n: Dims, v: int, offset: int, grid: Dims, received: seq<seq<real>>, st: nat): (r: Lattice)
    requires Box(s, n, v) && HaloArgs(n, v, offset, grid, received) && st <= 6
    ensures Box(r, n, v)
  {
    if st == 0 then s
    else StageModel(HaloModel(s, n, v, offset, grid, received, st - 1), n, v, offset, grid, received, st - 1)
  }

  /** With one node along x, the first stage is the local copy from plane `n.0 - offset` to plane `offset`. */
  lemma FirstStageOnSingleNode(s: Lattice, n: Dims, v: int, offset: int, grid: Dims, received: seq<seq<real>>)
    requires Box(s, n, v) && HaloArgs(n, v, offset, grid, received) && grid.0 == 1
    ensures ExchangeArgs(n, v, 0, n.0 - offset, offset, XRight, None)
    ensures HaloModel(s, n, v, offset, grid, received, 1) == ExchangeModel(s, n, v, 0, n.0 - offset, offset, XRight, None)
  {
    StageArgs(n, v, offset, grid, received, 0);
    assert HaloModel(s, n, v, offset, grid, received, 0) == s;
    assert Incoming(grid, received, 0) == None;
  }

  /**
   * On a single node, right after the first stage, the populations moving
   * in +x on plane `offset` are those of plane `n.0 - offset`, site by site:
   * the lattice is periodic along x.
   */
  lemma SingleNodeXIsPeriodic(s: Lattice, n: Dims, v: int, offset: int, grid: Dims, received: seq<seq<real>>,
                              j: int, k: int, l: nat)
    requires Box(s, n, v) && HaloArgs(n, v, offset, grid, received) && grid.0 == 1
    requires 0 <= j < n.1 && 0 <= k < n.2 && l in XRight
    ensures HaloModel(s, n, v, offset, grid, received, 1)[offset][j][k][l] == s[n.0 - offset][j][k][l]
  {
    FirstStageOnSingleNode(s, n, v, offset, grid, received);
    LocalExchangeCopiesPlane(s, n, v, 0, n.0 - offset, offset, XRight, j, k, l);
  }

  /**
   * The halo exchange never touches the resting population 0: only
   * populations that move across a plane are packed and unpacked.
   */
  lemma {:induction false} HaloKeepsResting(s: Lattice, n: Dims, v: int, offset: int, grid: Dims, received: seq<seq<real>>,
                                            st: nat, i: int, j: int, k: int)
    requires Box(s, n, v) && HaloArgs(n, v, offset, grid, received) && st <= 6
    requires 0 <= i < n.0 && 0 <= j < n.1 && 0 <= k < n.2
    ensures HaloModel(s, n, v, offset, grid, received, st)[i][j][k][0] == s[i][j][k][0]
  {
    if st > 0 {
      HaloKeepsResting(s, n, v, offset, grid, received, st - 1, i, j, k);
      var prev := HaloModel(s, n, v, offset, grid, received, st - 1);
      var axis, right := StageAxis(st - 1), StageRight(st - 1);
      StageArgs(n, v, offset, grid, received, st - 1);
      HaloSetsMatchVelocities(axis, right);
      ExchangeFrame(prev, n, v, axis, SendPlane(DimOf(n, axis), offset, right), RecvPlane(DimOf(n, axis), offset, right),
                    HaloPops(axis, right), Incoming(grid, received, st - 1), i, j, k, 0);
    }
  }

  /** The velocity table as `initLatticeModel` writes it, in real components. */
  const RealVelocities: seq<Real3> := [
    (0.0, 0.0, 0.0),
    (1.0, 0.0, 0.0), (-1.0, 0.0, 0.0), (0.0, 1.0, 0.0), (0.0, -1.0, 0.0), (0.0, 0.0, 1.0), (0.0, 0.0, -1.0),
    (1.0, 1.0, 0.0), (-1.0, -1.0, 0.0), (1.0, -1.0, 0.0), (-1.0, 1.0, 0.0),
    (1.0, 0.0, 1.0), (-1.0, 0.0, -1.0), (1.0, 0.0, -1.0), (-1.0, 0.0, 1.0),
    (0.0, 1.0, 1.0), (0.0, -1.0, -1.0), (0.0, 1.0, -1.0), (0.0, -1.0, 1.0)]

  /** The real table is the integer velocity table, component by component. */
  lemma RealVelocitiesAreTable()
    ensures |RealVelocities| == NumVelocities
    ensures forall l :: 0 <= l < NumVelocities ==> RealVelocities[l] == ToReal3(CiTable[l])
  {
  }

  /** Where streaming sends population `l` of site (i, j, k): the site one step along c_l. */
  function Dest(i: int, j: int, k: int, l: int): (int, int, int)
    requires 0 <= l < NumVelocities
  {
    (i + CiTable[l].0, j + CiTable[l].1, k + CiTable[l].2)
  }

  class LatticeBoltzmann {
    const nodeGrid: Dims
    const numDims: int
    const numVels: int
    const myPos: Dims
    const haloSkin: int
    const myNi: Dims
    const myNeigh: array<int>
    const ci: array<Real3>

    var lbfluid: array4<real>
    var ghostlat: array4<real>

    var lbTempFlag: int
    var stepNum: int
    var restartFlag: int
    var extForceFlag: int
    var couplForceFlag: int
    var nSteps: int
    var prevDumpStep: int
    var prevPopDumpStep: int
    var profStep: int
    var totNPart: int
    var fricCoeff: real
    var fOnPart: seq<Real3>
    var copyTimestep: real
    var timeColstr: real
    var timeComm: real
    var timeSw: real

    /** Shapes: one neighbour per side of every dimension, one velocity per population, two distinct lattices. */
    ghost predicate Valid()
      reads this
    {
      && 0 <= numDims <= 3 && numVels >= NumVelocities && haloSkin == 1
      && myNeigh.Length == 2 * numDims && ci.Length == numVels
      && lbfluid != ghostlat
      && DimsOf(lbfluid) == myNi && DimsOf(ghostlat) == myNi
      && lbfluid.Length3 == numVels && ghostlat.Length3 == numVels
    }

    /**
     * The constructor: flags and defaults, the coupling buffer with one
     * slot per particle id (ids start at 1), coupling switched on exactly
     * when there are MD particles, then neighbours, lattice sizes and the
     * velocity table. `rankOf` maps a grid position to a node rank,
     * `localSites` is each node's share of the sites along each dimension.
     */
    constructor (nodeGrid: Dims, numDims: int, numVels: int, myPos: Dims, totNPart: nat,
                 rankOf: Dims -> int, localSites: Dims)
      requires 0 <= numDims <= 3 && numVels >= NumVelocities && OnGrid(myPos, nodeGrid)
      requires localSites.0 >= 0 && localSites.1 >= 0 && localSites.2 >= 0
      ensures Valid()
      ensures this.nodeGrid == nodeGrid && this.numDims == numDims && this.numVels == numVels && this.myPos == myPos
      ensures lbTempFlag == 0 && stepNum == 0 && restartFlag == 1 && extForceFlag == 0
      ensures nSteps == 1 && prevDumpStep == 0 && prevPopDumpStep == 0 && profStep == 10000
      ensures this.totNPart == totNPart && fOnPart == seq(totNPart + 1, _ => (0.0, 0.0, 0.0))
      ensures couplForceFlag == (if totNPart != 0 then 1 else 0)
      ensures totNPart != 0 ==> fricCoeff == 5.0
      ensures haloSkin == 1
      ensures forall d :: 0 <= d < 3 ==>
                DimOf(myNi, d) == (if d < numDims then DimOf(localSites, d) + 2 * haloSkin else 0)
      ensures NeighbourRanks(rankOf)
      ensures VelocityTable()
      ensures timeColstr == 0.0 && timeComm == 0.0 && timeSw == 0.0
    {
      this.nodeGrid := nodeGrid;
      this.numDims := numDims;
      this.numVels := numVels;
      this.myPos := myPos;
      ci := new Real3[numVels](_ => (0.0, 0.0, 0.0));
      myNeigh := new int[2 * numDims](_ => 0);
      lbTempFlag := 0;
      stepNum := 0;
      restartFlag := 1;
      extForceFlag := 0;
      couplForceFlag := 0;
      nSteps := 1;
      prevDumpStep := 0;
      prevPopDumpStep := 0;
      profStep := 10000;
      this.totNPart := totNPart;
      fOnPart := seq(totNPart + 1, _ => (0.0, 0.0, 0.0));
      if totNPart != 0 {
        couplForceFlag := 1;
        fricCoeff := 5.0;
      }
      haloSkin := 1;
      var ni := AssignedSites(numDims, localSites, 1);
      myNi := ni;
      lbfluid := new real[ni.0, ni.1, ni.2, numVels];
      ghostlat := new real[ni.0, ni.1, ni.2, numVels];
      timeColstr, timeComm, timeSw := 0.0, 0.0, 0.0;
      new;
      FindMyNeighbours(rankOf);
      InitLatticeModel();
    }

    /** The ranks of the neighbours: `myNeigh[2d]` on the left, `myNeigh[2d+1]` on the right of dimension `d`. */
    ghost predicate NeighbourRanks(rankOf: Dims -> int)
      reads this, myNeigh
      requires Valid()
    {
      forall d :: 0 <= d < numDims ==>
        myNeigh[2 * d] == rankOf(NeighbourPos(myPos, nodeGrid, d, false))
        && myNeigh[2 * d + 1] == rankOf(NeighbourPos(myPos, nodeGrid, d, true))
    }

    /** `findMyNeighbours`: the rank of the wrapped left and right neighbour along every dimension. */
    method FindMyNeighbours(rankOf: Dims -> int)
      requires Valid() && OnGrid(myPos, nodeGrid)
      modifies myNeigh
      ensures NeighbourRanks(rankOf)
    {
      var dim := 0;
      while dim < numDims
        invariant 0 <= dim <= numDims
        invariant forall d :: 0 <= d < dim ==>
                    myNeigh[2 * d] == rankOf(NeighbourPos(myPos, nodeGrid, d, false))
                    && myNeigh[2 * d + 1] == rankOf(NeighbourPos(myPos, nodeGrid, d, true))
      {
        var n, p := DimOf(nodeGrid, dim), DimOf(myPos, dim);
        if n > 1 {
          var left := p - 1;
          if left < 0 {
            left := left + n;
          }
          myNeigh[2 * dim] := rankOf(WithCoord(myPos, dim, left));
          var right := p + 1;
          if right >= n {
            right := right - n;
          }
          myNeigh[2 * dim + 1] := rankOf(WithCoord(myPos, dim, right));
        } else {
          assert WithCoord(myPos, dim, p) == myPos;
          myNeigh[2 * dim] := rankOf(myPos);
          myNeigh[2 * dim + 1] := rankOf(myPos);
        }
        dim := dim + 1;
      }
    }

    /** The velocity table: the D3Q19 vectors for the first 19 populations, zero beyond. */
    ghost predicate VelocityTable()
      reads this, ci
      requires Valid()
    {
      && (forall l :: 0 <= l < NumVelocities ==> ci[l] == ToReal3(CiTable[l]))
      && (forall l :: NumVelocities <= l < numVels ==> ci[l] == (0.0, 0.0, 0.0))
    }

    /** `setCi`: sets the velocity of population `l`. */
    method SetCi(l: int, c: Real3)
      requires 0 <= l < ci.Length
      modifies ci
      ensures ci[..] == old(ci[..])[l := c]
    {
      ci[l] := c;
    }

    /** The first seven `setCi` calls of `initLatticeModel`: the resting velocity and the six axis directions. */
    method SetRestAndAxes()
      requires ci.Length >= NumVelocities
      modifies ci
      ensures ci[..7] == RealVelocities[..7] && ci[7..] == old(ci[7..])
    {
      SetCi(0, (0.0, 0.0, 0.0));
      SetCi(1, (1.0, 0.0, 0.0));   SetCi(2, (-1.0, 0.0, 0.0));
      SetCi(3, (0.0, 1.0, 0.0));   SetCi(4, (0.0, -1.0, 0.0));
      SetCi(5, (0.0, 0.0, 1.0));   SetCi(6, (0.0, 0.0, -1.0));
    }

    /** The remaining twelve `setCi` calls of `initLatticeModel`: the face diagonals. */
    method SetDiagonals()
      requires ci.Length >= NumVelocities
      modifies ci
      ensures ci[..7] == old(ci[..7]) && ci[7..NumVelocities] == RealVelocities[7..]
      ensures ci[NumVelocities..] == old(ci[NumVelocities..])
    {
      SetCi(7, (1.0, 1.0, 0.0));   SetCi(8, (-1.0, -1.0, 0.0));
      SetCi(9, (1.0, -1.0, 0.0));  SetCi(10, (-1.0, 1.0, 0.0));
      SetCi(11, (1.0, 0.0, 1.0));  SetCi(12, (-1.0, 0.0, -1.0));
      SetCi(13, (1.0, 0.0, -1.0)); SetCi(14, (-1.0, 0.0, 1.0));
      SetCi(15, (0.0, 1.0, 1.0));  SetCi(16, (0.0, -1.0, -1.0));
      SetCi(17, (0.0, 1.0, -1.0)); SetCi(18, (0.0, -1.0, 1.0));
    }

    /** `initLatticeModel`, its velocity part: the 19 `setCi` calls. */
    method InitLatticeModel()
      requires Valid() && forall l :: 0 <= l < numVels ==> ci[l] == (0.0, 0.0, 0.0)
      modifies ci
      ensures VelocityTable()
    {
      SetRestAndAxes();
      SetDiagonals();
      RealVelocitiesAreTable();
      forall l | 0 <= l < numVels
        ensures l < NumVelocities ==> ci[l] == ToReal3(CiTable[l])
        ensures NumVelocities <= l ==> ci[l] == (0.0, 0.0, 0.0)
      {
        if l < 7 {
          assert ci[l] == ci[..7][l];
        } else if l < NumVelocities {
          assert ci[l] == ci[7..NumVelocities][l - 7];
        } else {
          assert ci[l] == ci[NumVelocities..][l - NumVelocities];
        }
      }
    }

    /** A site whose 26 neighbours all lie in the lattice, as the sweep of `collideStream` visits. */
    predicate Interior(i: int, j: int, k: int)
      reads this
    {
      1 <= i && i + 1 < myNi.0 && 1 <= j && j + 1 < myNi.1 && 1 <= k && k + 1 < myNi.2
    }

    /**
     * `streaming(i, j, k)`: population `l` of site (i, j, k) of `lbfluid`
     * moves to site (i, j, k) + c_l of `ghostlat`, population 0 staying in
     * place; nothing else of `ghostlat` changes. The writes come in the
     * source's groups: the resting population with the six nearest
     * neighbours, then the twelve next-nearest ones in the xy, xz and yz
     * planes.
     */
    method Streaming(i: int, j: int, k: int)
      requires Valid() && Interior(i, j, k)
      modifies ghostlat
      ensures forall l :: 0 <= l < NumVelocities ==>
                ghostlat[Dest(i, j, k, l).0, Dest(i, j, k, l).1, Dest(i, j, k, l).2, l] == lbfluid[i, j, k, l]
      ensures forall a, b, c, l ::
                0 <= a < myNi.0 && 0 <= b < myNi.1 && 0 <= c < myNi.2 && 0 <= l < numVels
                && !(l < NumVelocities && (a, b, c) == Dest(i, j, k, l))
                ==> ghostlat[a, b, c, l] == old(ghostlat[a, b, c, l])
    {
      StreamResting(i, j, k);
      label nearest:
      StreamNearest(i, j, k);
      label xy:
      StreamDiagonalsXY(i, j, k);
      label xz:
      StreamDiagonalsXZ(i, j, k);
      label yz:
      StreamDiagonalsYZ(i, j, k);
      forall a, b, c, l | 0 <= a < myNi.0 && 0 <= b < myNi.1 && 0 <= c < myNi.2 && 0 <= l < numVels
                          && !(l < NumVelocities && (a, b, c) == Dest(i, j, k, l))
        ensures ghostlat[a, b, c, l] == old(ghostlat[a, b, c, l])
      {
        assert old@nearest(ghostlat[a, b, c, l]) == old(ghostlat[a, b, c, l]);
        assert old@xy(ghostlat[a, b, c, l]) == old@nearest(ghostlat[a, b, c, l]);
        assert old@xz(ghostlat[a, b, c, l]) == old@xy(ghostlat[a, b, c, l]);
        assert old@yz(ghostlat[a, b, c, l]) == old@xz(ghostlat[a, b, c, l]);
      }
    }

    /** Population 0 stays in place. */
    method StreamResting(i: int, j: int, k: int)
      requires Valid() && Interior(i, j, k)
      modifies ghostlat
      ensures ghostlat[i, j, k, 0] == lbfluid[i, j, k, 0]
      ensures forall a, b, c, l ::
                0 <= a < myNi.0 && 0 <= b < myNi.1 && 0 <= c < myNi.2 && 0 <= l < numVels && (a, b, c, l) != (i, j, k, 0)
                ==> ghostlat[a, b, c, l] == old(ghostlat[a, b, c, l])
    {
      ghostlat[i, j, k, 0] := lbfluid[i, j, k, 0];
    }

    /** Populations 1 to 6 move to the six nearest neighbours. */
    method StreamNearest(i: int, j: int, k: int)
      requires Valid() && Interior(i, j, k)
      requires ghostlat[i, j, k, 0] == lbfluid[i, j, k, 0]
      modifies ghostlat
      ensures forall l :: 0 <= l < 7 ==>
                ghostlat[Dest(i, j, k, l).0, Dest(i, j, k, l).1, Dest(i, j, k, l).2, l] == lbfluid[i, j, k, l]
      ensures forall a, b, c, l ::
                0 <= a < myNi.0 && 0 <= b < myNi.1 && 0 <= c < myNi.2 && 0 <= l < numVels
                && !(1 <= l < 7 && (a, b, c) == Dest(i, j, k, l))
                ==> ghostlat[a, b, c, l] == old(ghostlat[a, b, c, l])
    {
      var ip, im := i + 1, i - 1;
      var jp, jm := j + 1, j - 1;
      var kp, km := k + 1, k - 1;
      ghostlat[ip, j, k, 1] := lbfluid[i, j, k, 1];
      ghostlat[im, j, k, 2] := lbfluid[i, j, k, 2];
      ghostlat[i, jp, k, 3] := lbfluid[i, j, k, 3];
      ghostlat[i, jm, k, 4] := lbfluid[i, j, k, 4];
      ghostlat[i, j, kp, 5] := lbfluid[i, j, k, 5];
      ghostlat[i, j, km, 6] := lbfluid[i, j, k, 6];
    }

    /** Populations 7 to 10 move diagonally in the xy plane. */
    method StreamDiagonalsXY(i: int, j: int, k: int)
      requires Valid() && Interior(i, j, k)
      requires forall l :: 0 <= l < 7 ==>
                ghostlat[Dest(i, j, k, l).0, Dest(i, j, k, l).1, Dest(i, j, k, l).2, l] == lbfluid[i, j, k, l]
      modifies ghostlat
      ensures forall l :: 0 <= l < 11 ==>
                ghostlat[Dest(i, j, k, l).0, Dest(i, j, k, l).1, Dest(i, j, k, l).2, l] == lbfluid[i, j, k, l]
      ensures forall a, b, c, l ::
                0 <= a < myNi.0 && 0 <= b < myNi.1 && 0 <= c < myNi.2 && 0 <= l < numVels
                && !(7 <= l < 11 && (a, b, c) == Dest(i, j, k, l))
                ==> ghostlat[a, b, c, l] == old(ghostlat[a, b, c, l])
    {
      var ip, im := i + 1, i - 1;
      var jp, jm := j + 1, j - 1;
      var kp, km := k + 1, k - 1;
      ghostlat[ip, jp, k, 7] := lbfluid[i, j, k, 7];
      ghostlat[im, jm, k, 8] := lbfluid[i, j, k, 8];
      ghostlat[ip, jm, k, 9] := lbfluid[i, j, k, 9];
      ghostlat[im, jp, k, 10] := lbfluid[i, j, k, 10];
    }

    /** Populations 11 to 14 move diagonally in the xz plane. */
    method StreamDiagonalsXZ(i: int, j: int, k: int)
      requires Valid() && Interior(i, j, k)
      requires forall l :: 0 <= l < 11 ==>
                ghostlat[Dest(i, j, k, l).0, Dest(i, j, k, l).1, Dest(i, j, k, l).2, l] == lbfluid[i, j, k, l]
      modifies ghostlat
      ensures forall l :: 0 <= l < 15 ==>
                ghostlat[Dest(i, j, k, l).0, Dest(i, j, k, l).1, Dest(i, j, k, l).2, l] == lbfluid[i, j, k, l]
      ensures forall a, b, c, l ::
                0 <= a < myNi.0 && 0 <= b < myNi.1 && 0 <= c < myNi.2 && 0 <= l < numVels
                && !(11 <= l < 15 && (a, b, c) == Dest(i, j, k, l))
                ==> ghostlat[a, b, c, l] == old(ghostlat[a, b, c, l])
    {
      var ip, im := i + 1, i - 1;
      var jp, jm := j + 1, j - 1;
      var kp, km := k + 1, k - 1;
      ghostlat[ip, j, kp, 11] := lbfluid[i, j, k, 11];
      ghostlat[im, j, km, 12] := lbfluid[i, j, k, 12];
      ghostlat[ip, j, km, 13] := lbfluid[i, j, k, 13];
      ghostlat[im, j, kp, 14] := lbfluid[i, j, k, 14];
    }

    /** Populations 15 to 18 move diagonally in the yz plane. */
    method StreamDiagonalsYZ(i: int, j: int, k: int)
      requires Valid() && Interior(i, j, k)
      requires forall l :: 0 <= l < 15 ==>
                ghostlat[Dest(i, j, k, l).0, Dest(i, j, k, l).1, Dest(i, j, k, l).2, l] == lbfluid[i, j, k, l]
      modifies ghostlat
      ensures forall l :: 0 <= l < NumVelocities ==>
                ghostlat[Dest(i, j, k, l).0, Dest(i, j, k, l).1, Dest(i, j, k, l).2, l] == lbfluid[i, j, k, l]
      ensures forall a, b, c, l ::
                0 <= a < myNi.0 && 0 <= b < myNi.1 && 0 <= c < myNi.2 && 0 <= l < numVels
                && !(15 <= l < 19 && (a, b, c) == Dest(i, j, k, l))
                ==> ghostlat[a, b, c, l] == old(ghostlat[a, b, c, l])
    {
      var ip, im := i + 1, i - 1;
      var jp, jm := j + 1, j - 1;
      var kp, km := k + 1, k - 1;
      ghostlat[i, jp, kp, 15] := lbfluid[i, j, k, 15];
      ghostlat[i, jm, km, 16] := lbfluid[i, j, k, 16];
      ghostlat[i, jp, km, 17] := lbfluid[i, j, k, 17];
      ghostlat[i, jm, kp, 18] := lbfluid[i, j, k, 18];
    }

    /** One stage of `commHalo`, on `ghostlat`; returns the packed buffer. */
    method HaloStage(received: seq<seq<real>>, st: nat) returns (sent: seq<real>)
      requires Valid() && HaloArgs(myNi, numVels, haloSkin, nodeGrid, received) && st < 6
      modifies ghostlat
      ensures Snapshot(ghostlat) == StageModel(old(Snapshot(ghostlat)), myNi, numVels, haloSkin, nodeGrid, received, st)
      ensures StagePacked(sent, old(Snapshot(ghostlat)), myNi, numVels, haloSkin, st)
    {
      var axis, right := StageAxis(st), StageRight(st);
      StageArgs(myNi, numVels, haloSkin, nodeGrid, received, st);
      sent := ExchangePlane(ghostlat, axis, SendPlane(DimOf(myNi, axis), haloSkin, right), RecvPlane(DimOf(myNi, axis), haloSkin, right),
                            HaloPops(axis, right), Incoming(nodeGrid, received, st));
    }

    /**
     * `commHalo`: the six plane exchanges in order, x right, x left, y right,
     * y left, z right, z left. `received[st]` is what the neighbour sent for
     * stage `st`, used only along dimensions with more than one node; the
     * result holds the six buffers this node sends.
     */
    method CommHalo(received: seq<seq<real>>) returns (sent: seq<seq<real>>)
      requires Valid() && HaloArgs(myNi, numVels, haloSkin, nodeGrid, received)
      modifies ghostlat
      ensures Snapshot(ghostlat) == HaloModel(old(Snapshot(ghostlat)), myNi, numVels, haloSkin, nodeGrid, received, 6)
      ensures |sent| == 6
      ensures forall st :: 0 <= st < 6 ==>
                StagePacked(sent[st], HaloModel(old(Snapshot(ghostlat)), myNi, numVels, haloSkin, nodeGrid, received, st),
                            myNi, numVels, haloSkin, st)
    {
      ghost var s0 := Snapshot(ghostlat);
      sent := [];
      var st := 0;
      while st < 6
        invariant 0 <= st <= 6 && |sent| == st
        invariant Snapshot(ghostlat) == HaloModel(s0, myNi, numVels, haloSkin, nodeGrid, received, st)
        invariant StagesPacked(sent, s0, myNi, numVels, haloSkin, nodeGrid, received)
      {
        var buf := HaloStage(received, st);
        StagesPackedSnoc(sent, buf, s0, myNi, numVels, haloSkin, nodeGrid, received);
        sent := sent + [buf];
        st := st + 1;
      }
    }

    /** The pointer swap at the end of `collideStream`: the two lattices trade places. */
    method SwapLattices()
      requires Valid()
      modifies this
      ensures Valid()
      ensures lbfluid == old(ghostlat) && ghostlat == old(lbfluid)
      ensures Unchanged() && timeColstr == old(timeColstr) && timeComm == old(timeComm) && timeSw == old(timeSw)
    {
      var tmp := lbfluid;
      lbfluid := ghostlat;
      ghostlat := tmp;
    }

    /** The settings neither `makeLBStep` nor `collideStream` assigns, as of the previous state. */
    twostate predicate SettingsKept()
      reads this
    {
      && lbTempFlag == old(lbTempFlag) && restartFlag == old(restartFlag) && couplForceFlag == old(couplForceFlag)
      && nSteps == old(nSteps) && prevDumpStep == old(prevDumpStep) && prevPopDumpStep == old(prevPopDumpStep)
      && profStep == old(profStep) && totNPart == old(totNPart) && fricCoeff == old(fricCoeff)
      && copyTimestep == old(copyTimestep)
    }

    /** Every scalar field other than the lattices and the timers, as of the previous state. */
    twostate predicate Unchanged()
      reads this
    {
      SettingsKept() && stepNum == old(stepNum) && extForceFlag == old(extForceFlag) && fOnPart == old(fOnPart)
    }

    /**
     * `collideStream` from the timed sweep on: the sweep's time, then the
     * halo exchange on `ghostlat`, timed, then the swap, timed. `elapsed`
     * are the three clock readings, in that order, the three timers
     * accumulate; the sweep's own updates of the populations are not modelled.
     */
    method CollideStream(received: seq<seq<real>>, elapsed: (real, real, real)) returns (sent: seq<seq<real>>)
      requires Valid() && HaloArgs(myNi, numVels, haloSkin, nodeGrid, received)
      modifies this, ghostlat
      ensures Valid() && Unchanged()
      ensures lbfluid == old(ghostlat) && ghostlat == old(lbfluid)
      ensures Snapshot(lbfluid) == HaloModel(old(Snapshot(ghostlat)), myNi, numVels, haloSkin, nodeGrid, received, 6)
      ensures unchanged(ghostlat)
      ensures timeColstr == old(timeColstr) + elapsed.0 && timeComm == old(timeComm) + elapsed.1
              && timeSw == old(timeSw) + elapsed.2
    {
      sent := CommHalo(received);
      timeColstr, timeComm := timeColstr + elapsed.0, timeComm + elapsed.1;
      SwapLattices();
      timeSw := timeSw + elapsed.2;
    }

    /**
     * The first part of `makeLBStep`: record the step, switch the external
     * force on when coupled, and restart the timers at nonzero multiples of
     * `profStep`.
     */
    method BeginStep(step: int) returns (profiled: bool)
      requires Valid() && profStep != 0
      modifies this
      ensures Valid() && SettingsKept() && lbfluid == old(lbfluid) && ghostlat == old(ghostlat)
      ensures stepNum == step && (old(couplForceFlag) != 1 ==> fOnPart == old(fOnPart))
      ensures extForceFlag == (if old(couplForceFlag) == 1 then 1 else old(extForceFlag))
      ensures profiled <==> ProfileDue(step, profStep)
      ensures profiled ==> timeColstr == 0.0 && timeComm == 0.0 && timeSw == 0.0
      ensures !profiled ==> timeColstr == old(timeColstr) && timeComm == old(timeComm) && timeSw == old(timeSw)
    {
      stepNum := step;
      if couplForceFlag == 1 {
        extForceFlag := 1;
      }
      profiled := ProfileDue(stepNum, profStep);
      if profiled {
        timeColstr, timeComm, timeSw := 0.0, 0.0, 0.0;
      }
    }

    /**
     * `makeLBStep` at MD step `step`: the coupling switches the external
     * force on; at nonzero multiples of `profStep` the timers restart; at
     * multiples of `nSteps` the lattice is collided and streamed.
     */
    method MakeLBStep(step: int, received: seq<seq<real>>, elapsed: (real, real, real)) returns (profiled: bool, collided: bool)
      requires Valid() && nSteps != 0 && profStep != 0
      requires HaloArgs(myNi, numVels, haloSkin, nodeGrid, received)
      modifies this, ghostlat
      ensures Valid() && SettingsKept()
      ensures stepNum == step
      ensures extForceFlag == (if old(couplForceFlag) == 1 then 1 else old(extForceFlag))
      ensures profiled <==> ProfileDue(step, profStep)
      ensures collided <==> CollideDue(step, nSteps)
      ensures collided ==> lbfluid == old(ghostlat) && ghostlat == old(lbfluid)
                           && Snapshot(lbfluid) == HaloModel(old(Snapshot(ghostlat)), myNi, numVels, haloSkin, nodeGrid, received, 6)
      ensures !collided ==> lbfluid == old(lbfluid) && ghostlat == old(ghostlat) && unchanged(ghostlat)
      ensures profiled && collided ==> timeColstr == elapsed.0 && timeComm == elapsed.1 && timeSw == elapsed.2
      ensures profiled && !collided ==> timeColstr == 0.0 && timeComm == 0.0 && timeSw == 0.0
      ensures !profiled && collided ==>
                timeColstr == old(timeColstr) + elapsed.0 && timeComm == old(timeComm) + elapsed.1
                && timeSw == old(timeSw) + elapsed.2
      ensures !profiled && !collided ==> timeColstr == old(timeColstr) && timeComm == old(timeComm) && timeSw == old(timeSw)
      ensures old(couplForceFlag) != 1 ==> fOnPart == old(fOnPart)
    {
      profiled := BeginStep(step);
      collided := CollideDue(stepNum, nSteps);
      if collided {
        var _ := CollideStream(received, elapsed);
      }
    }

    /**
     * `zeroMDCMVel` at MD step `step` with time step `dt`: at step 0 the
     * restart flag is cleared; what the coupling does then follows
     * `ActionAt`, and a restart read from file clears the flag too.
     */
    method ZeroMDCMVel(step: int, dt: real) returns (action: CouplingAction)
      modifies this
      ensures copyTimestep == dt && stepNum == step
      ensures restartFlag == RestartFlagAfter(step, couplForceFlag, old(restartFlag))
      ensures action == ActionAt(step, couplForceFlag, old(restartFlag))
      ensures couplForceFlag == old(couplForceFlag) && extForceFlag == old(extForceFlag)
      ensures lbfluid == old(lbfluid) && ghostlat == old(ghostlat)
      ensures lbTempFlag == old(lbTempFlag) && nSteps == old(nSteps) && profStep == old(profStep)
      ensures prevDumpStep == old(prevDumpStep) && prevPopDumpStep == old(prevPopDumpStep)
      ensures totNPart == old(totNPart) && fricCoeff == old(fricCoeff)
      ensures timeColstr == old(timeColstr) && timeComm == old(timeComm) && timeSw == old(timeSw)
      ensures action != ForcesFromFile ==> fOnPart == old(fOnPart)
      ensures old(Valid()) ==> Valid()
    {
      copyTimestep := dt;
      stepNum := step;
      if stepNum == 0 {
        restartFlag := 0;
      }
      if stepNum == 0 && couplForceFlag != 0 && restartFlag == 0 {
        action := SubtractDrift;
      } else if stepNum != 0 && couplForceFlag != 0 && restartFlag == 1 {
        action := ForcesFromFile;
        restartFlag := 0;
      } else {
        action := ForcesFromBuffer;
      }
    }
  }

  /**
   * `assignMyLattice`, given each node's share of the sites: the share plus
   * a halo of `haloSkin` on both sides along the simulated dimensions, and
   * 0 along the others.
   */
  function AssignedSites(numDims: int, localSites: Dims, haloSkin: int): (r: Dims)
    requires 0 <= numDims <= 3 && haloSkin >= 0
    requires localSites.0 >= 0 && localSites.1 >= 0 && localSites.2 >= 0
    ensures r.0 >= 0 && r.1 >= 0 && r.2 >= 0
    ensures forall d :: 0 <= d < 3 ==>
              DimOf(r, d) == (if d < numDims then DimOf(localSites, d) + 2 * haloSkin else 0)
  {
    (if 0 < numDims then localSites.0 + 2 * haloSkin else 0,
     if 1 < numDims then localSites.1 + 2 * haloSkin else 0,
     if 2 < numDims then localSites.2 + 2 * haloSkin else 0)
  }

  /** Swapping twice gives back the original lattices. */
  method SwapTwice(lb: LatticeBoltzmann)
    requires lb.Valid()
    modifies lb
    ensures lb.lbfluid == old(lb.lbfluid) && lb.ghostlat == old(lb.ghostlat)
  {
    lb.SwapLattices();
    lb.SwapLattices();
  }

  /** `LatticeBoltzmann(...)` throws when the system has no random number generator. */
  method Create(nodeGrid: Dims, numDims: int, numVels: int, myPos: Dims, totNPart: nat,
                rankOf: Dims -> int, localSites: Dims, hasRng: bool) returns (r: Result<LatticeBoltzmann, string>)
    requires 0 <= numDims <= 3 && numVels >= NumVelocities && OnGrid(myPos, nodeGrid)
    requires localSites.0 >= 0 && localSites.1 >= 0 && localSites.2 >= 0
    ensures r.Success? <==> hasRng
    ensures r.Failure? ==> r.error == "system has no RNG"
    ensures r.Success? ==> fresh(r.value) && r.value.Valid() && r.value.restartFlag == 1
  {
    if !hasRng {
      return Failure("system has no RNG");
    }
    var lb := new LatticeBoltzmann(nodeGrid, numDims, numVels, myPos, totNPart, rankOf, localSites);
    r := Success(lb);
  }
}
