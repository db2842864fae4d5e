/**
 * The integer and control logic of the D3Q19 lattice-Boltzmann integrator:
 * the velocity table, the populations the halo exchange moves, the periodic
 * neighbour wrap, the step schedule and the restart state machine.
 */
module LBModel {

  /** The D3Q19 velocity vectors c_0 .. c_18 as integer lattice offsets. */
  const CiTable: seq<(int, int, int)> := [
    (0, 0, 0),
    (1, 0, 0), (-1, 0, 0),
    (0, 1, 0), (0, -1, 0),
    (0, 0, 1), (0, 0, -1),
    (1, 1, 0), (-1, -1, 0),
    (1, -1, 0), (-1, 1, 0),
    (1, 0, 1), (-1, 0, -1),
    (1, 0, -1), (-1, 0, 1),
    (0, 1, 1), (0, -1, -1),
    (0, 1, -1), (0, -1, 1)
  ]

  const NumVelocities: nat := 19

  /** The component of a velocity along axis 0, 1 or 2. */
  function Component(c: (int, int, int), axis: nat): int
    requires axis < 3
  {
    if axis == 0 then c.0 else if axis == 1 then c.1 else c.2
  }

  /** Population 0 rests; every other population moves to one of the 18 nearest or next-nearest sites. */
  lemma VelocitiesAreD3Q19()
    ensures |CiTable| == NumVelocities
    ensures CiTable[0] == (0, 0, 0)
    ensures forall l :: 1 <= l < NumVelocities ==>
      var c := CiTable[l]; -1 <= c.0 <= 1 && -1 <= c.1 <= 1 && -1 <= c.2 <= 1 && c != (0, 0, 0)
    ensures forall l, m :: 0 <= l < m < NumVelocities ==> CiTable[l] != CiTable[m]
  {
  }

  /** Populations come in opposite pairs: c_{2n} = -c_{2n-1}. */
  lemma VelocitiesPairUp()
    ensures forall n :: 1 <= n <= 9 ==>
      var c, d := CiTable[2 * n - 1], CiTable[2 * n]; d == (-c.0, -c.1, -c.2)
  {
  }

  /** The five populations the halo exchange sends towards +x, -x, +y, -y, +z and -z, in buffer order. */
  const XRight: seq<nat> := [1, 7, 9, 11, 13]
  const XLeft: seq<nat> := [2, 8, 10, 12, 14]
  const YRight: seq<nat> := [3, 7, 10, 15, 17]
  const YLeft: seq<nat> := [4, 8, 9, 16, 18]
  const ZRight: seq<nat> := [5, 11, 14, 15, 18]
  const ZLeft: seq<nat> := [6, 12, 13, 16, 17]

  /** The populations sent towards `+axis` (dir 1) or `-axis` (dir -1). */
  function HaloPops(axis: nat, right: bool): seq<nat>
    requires axis < 3
  {
    if axis == 0 then (if right then XRight else XLeft)
    else if axis == 1 then (if right then YRight else YLeft)
    else (if right then ZRight else ZLeft)
  }

  /** Five distinct populations, each a valid index. */
  predicate PopSet(pops: seq<nat>)
  {
    |pops| == 5 && (forall q :: 0 <= q < 5 ==> pops[q] < NumVelocities)
    && (forall q, r :: 0 <= q < r < 5 ==> pops[q] != pops[r])
  }

  /** The x halo sets hold exactly the velocities with x component +1 or -1. */
  lemma {:induction false} XSetsMatch()
    ensures forall l :: 0 <= l < NumVelocities ==>
      (l in XRight <==> CiTable[l].0 == 1) && (l in XLeft <==> CiTable[l].0 == -1)
  {
    forall l | 0 <= l < NumVelocities
      ensures (l in XRight <==> CiTable[l].0 == 1) && (l in XLeft <==> CiTable[l].0 == -1)
    {
      if l < 10 {
        assert l == 0 || l == 1 || l == 2 || l == 3 || l == 4 || l == 5 || l == 6 || l == 7 || l == 8 || l == 9;
      } else {
        assert l == 10 || l == 11 || l == 12 || l == 13 || l == 14 || l == 15 || l == 16 || l == 17 || l == 18;
      }
    }
  }

  /** The y halo sets hold exactly the velocities with y component +1 or -1. */
  lemma {:induction false} YSetsMatch()
    ensures forall l :: 0 <= l < NumVelocities ==>
      (l in YRight <==> CiTable[l].1 == 1) && (l in YLeft <==> CiTable[l].1 == -1)
  {
    forall l | 0 <= l < NumVelocities
      ensures (l in YRight <==> CiTable[l].1 == 1) && (l in YLeft <==> CiTable[l].1 == -1)
    {
      if l < 10 {
        assert l == 0 || l == 1 || l == 2 || l == 3 || l == 4 || l == 5 || l == 6 || l == 7 || l == 8 || l == 9;
      } else {
        assert l == 10 || l == 11 || l == 12 || l == 13 || l == 14 || l == 15 || l == 16 || l == 17 || l == 18;
      }
    }
  }

  /** The z halo sets hold exactly the velocities with z component +1 or -1. */
  lemma {:induction false} ZSetsMatch()
    ensures forall l :: 0 <= l < NumVelocities ==>
      (l in ZRight <==> CiTable[l].2 == 1) && (l in ZLeft <==> CiTable[l].2 == -1)
  {
    forall l | 0 <= l < NumVelocities
      ensures (l in ZRight <==> CiTable[l].2 == 1) && (l in ZLeft <==> CiTable[l].2 == -1)
    {
      if l < 10 {
        assert l == 0 || l == 1 || l == 2 || l == 3 || l == 4 || l == 5 || l == 6 || l == 7 || l == 8 || l == 9;
      } else {
        assert l == 10 || l == 11 || l == 12 || l == 13 || l == 14 || l == 15 || l == 16 || l == 17 || l == 18;
      }
    }
  }

  /** The halo sets of one axis against the velocity components along it. */
  lemma {:induction false} AxisSetsMatch(axis: nat, right: bool)
    requires axis < 3
    ensures forall l :: 0 <= l < NumVelocities ==>
      (l in HaloPops(axis, right) <==> Component(CiTable[l], axis) == (if right then 1 else -1))
  {
    if axis == 0 {
      XSetsMatch();
    } else if axis == 1 {
      YSetsMatch();
    } else {
      ZSetsMatch();
    }
  }

  /**
   * Each halo set holds exactly the populations whose velocity has component
   * +1 (sent right) or -1 (sent left) along the exchange axis.
   */
  lemma {:induction false} HaloSetsMatchVelocities(axis: nat, right: bool)
    requires axis < 3
    ensures PopSet(HaloPops(axis, right))
    ensures forall l :: 0 <= l < NumVelocities ==>
      (l in HaloPops(axis, right) <==> Component(CiTable[l], axis) == (if right then 1 else -1))
  {
    AxisSetsMatch(axis, right);
  }

  /** The left neighbour's grid position: one less, wrapped to the last position below 0. */
  function LeftOf(pos: int, n: int): int
  {
    if pos - 1 < 0 then pos - 1 + n else pos - 1
  }

  /** The right neighbour's grid position: one more, wrapped to 0 at the grid size. */
  function RightOf(pos: int, n: int): int
  {
    if pos + 1 >= n then pos + 1 - n else pos + 1
  }

  /** On a grid of `n` nodes the wrap is periodic: Euclidean `(pos ∓ 1) mod n`, and each undoes the other. */
  lemma NeighbourWrap(pos: int, n: int)
    requires 0 <= pos < n
    ensures LeftOf(pos, n) == (pos - 1) % n && RightOf(pos, n) == (pos + 1) % n
    ensures 0 <= LeftOf(pos, n) < n && 0 <= RightOf(pos, n) < n
    ensures RightOf(LeftOf(pos, n), n) == pos && LeftOf(RightOf(pos, n), n) == pos
  {
    if pos == 0 {
      ModOfShifted(n - 1, n, -1);
    } else {
      ModOfShifted(pos - 1, n, 0);
    }
    if pos == n - 1 {
      ModOfShifted(0, n, 1);
    } else {
      ModOfShifted(pos + 1, n, 0);
    }
  }

  /** A value less than one grid size away from `[0, n)` wraps into it by adding or subtracting `n` once. */
  lemma ModOfShifted(r: int, n: int, m: int)
    requires 0 <= r < n && -1 <= m <= 1
    ensures (r + m * n) % n == r
  {
    var a := r + m * n;
    var d := a / n;
    assert d * n + a % n == a;
    MulOrder(d, m, n);
    MulOrder(m, d, n);
  }

  /** Multiplying by a positive `n` keeps a strict order, with a gap of at least `n`. */
  lemma MulOrder(a: int, b: int, n: int)
    requires 0 < n
    ensures a < b ==> a * n + n <= b * n
  {
    if a < b {
      MulMono(a + 1, b, n);
      assert (a + 1) * n == a * n + n;
    }
  }

  /** Multiplying by a positive number keeps the order. */
  lemma MulMono(a: int, b: int, n: int)
    requires a <= b && 0 < n
    ensures a * n <= b * n
  {
    assert b * n - a * n == (b - a) * n;
  }

  /** C++ `%` on ints: truncates towards zero, so the remainder takes the dividend's sign. */
  function CRem(a: int, b: int): (r: int)
    requires b != 0
    ensures b > 0 && a >= 0 ==> r == a % b
  {
    var m := if b >= 0 then b else -b;
    if a >= 0 then a % m else -((-a) % m)
  }

  /** The truncating and the Euclidean remainder are zero for the same operands. */
  lemma CRemZeroIff(a: int, b: int)
    requires b != 0
    ensures CRem(a, b) == 0 <==> a % b == 0
  {
    var m := if b >= 0 then b else -b;
    if b < 0 {
      DivModUnique(a, m, -(a / b), a % b);
    }
    if a < 0 {
      if a % m == 0 {
        DivModUnique(-a, m, -(a / m), 0);
      }
      if (-a) % m == 0 {
        DivModUnique(a, m, -((-a) / m), 0);
      }
    }
  }

  /** A product of a positive and an at-least-one factor is at least the first factor. */
  lemma MulAtLeast(m: int, k: int)
    requires m > 0 && k >= 1
    ensures m * k >= m
  {
    assert m * k == m * (k - 1) + m;
  }

  /** Euclidean division is unique: a quotient and remainder in range are the ones. */
  lemma DivModUnique(a: int, m: int, q: int, r: int)
    requires m > 0 && 0 <= r < m && a == m * q + r
    ensures a / m == q && a % m == r
  {
    var q', r' := a / m, a % m;
    assert a == m * q' + r';
    assert m * (q - q') == r' - r;
    if q > q' {
      MulAtLeast(m, q - q');
    } else if q < q' {
      MulAtLeast(m, q' - q);
    }
  }

  /** `makeLBStep` runs collide-and-stream when the step is a multiple of `nSteps`. */
  predicate CollideDue(step: int, nSteps: int)
    requires nSteps != 0
  {
    CRem(step, nSteps) == 0
  }

  /** `makeLBStep` reports and resets the profiling timers at nonzero multiples of `profStep`. */
  predicate ProfileDue(step: int, profStep: int)
    requires profStep != 0
  {
    CRem(step, profStep) == 0 && step != 0
  }

  /** A step is due exactly when it is a multiple of `|n|`. */
  lemma DueIffMultiple(a: int, n: int)
    requires n != 0
    ensures var m := if n > 0 then n else -n;
      CollideDue(a, n) <==> a % m == 0
  {
    CRemZeroIff(a, n);
    if n < 0 {
      DivModUnique(a, -n, -(a / n), a % n);
    }
  }

  /** A multiple of `m` shifted by `k * m` is again a multiple. */
  lemma ShiftedMultiple(a: int, m: int, k: int)
    requires m > 0 && a % m == 0
    ensures (a + k * m) % m == 0
  {
    var q := a / m;
    assert a == m * q;
    assert a + k * m == m * (q + k);
    DivModUnique(a + k * m, m, q + k, 0);
  }

  /** Between a multiple of `m` and the next one, no value is a multiple. */
  lemma NoMultipleBetween(a: int, m: int, t: int)
    requires m > 0 && a % m == 0 && a < t < a + m
    ensures t % m != 0
  {
    var q := a / m;
    assert a == m * q;
    DivModUnique(t, m, q, t - a);
  }

  /** Collisions run every `|nSteps|` steps: the next multiple is due, no step in between is. */
  lemma CollisionSpacing(step: int, nSteps: int, t: int)
    requires nSteps != 0 && CollideDue(step, nSteps)
    ensures CollideDue(step + nSteps, nSteps) && CollideDue(step - nSteps, nSteps)
    ensures step < t < step + (if nSteps > 0 then nSteps else -nSteps) ==> !CollideDue(t, nSteps)
  {
    var m := if nSteps > 0 then nSteps else -nSteps;
    var sign := if nSteps > 0 then 1 else -1;
    DueIffMultiple(step, nSteps);
    DueIffMultiple(step + nSteps, nSteps);
    DueIffMultiple(step - nSteps, nSteps);
    DueIffMultiple(t, nSteps);
    assert sign * m == nSteps;
    ShiftedMultiple(step, m, sign);
    ShiftedMultiple(step, m, -sign);
    if step < t < step + m {
      NoMultipleBetween(step, m, t);
    }
  }

  /**
   * The timers restart exactly at the nonzero multiples of `|profStep|`,
   * whatever the sign of either operand.
   */
  lemma ProfileDueIffNonzeroMultiple(step: int, profStep: int)
    requires profStep != 0
    ensures var m := if profStep > 0 then profStep else -profStep;
      ProfileDue(step, profStep) <==> step != 0 && step % m == 0
  {
    DueIffMultiple(step, profStep);
  }

  /** What `zeroMDCMVel` does to the MD side besides the flag. */
  datatype CouplingAction =
    | SubtractDrift      // Galilean transformation removing the MD centre-of-mass velocity
    | ForcesFromBuffer   // readCouplForces(0): add the buffered coupling forces
    | ForcesFromFile     // readCouplForces(1): read the coupling forces of a restart from disk

  /** The restart flag after `zeroMDCMVel` at `step`, with coupling flag `coupl` and the flag before. */
  function RestartFlagAfter(step: int, coupl: int, flag: int): (r: int)
    ensures r == 0 || r == flag
    ensures r != flag <==> flag != 0 && (step == 0 || (coupl != 0 && flag == 1))
  {
    if step == 0 || (coupl != 0 && flag == 1) then 0 else flag
  }

  /** The action `zeroMDCMVel` takes at `step`. */
  function ActionAt(step: int, coupl: int, flag: int): (a: CouplingAction)
    ensures a == SubtractDrift <==> step == 0 && coupl != 0
    ensures a == ForcesFromFile <==> step != 0 && coupl != 0 && flag == 1
  {
    if step == 0 && coupl != 0 then SubtractDrift
    else if step != 0 && coupl != 0 && flag == 1 then ForcesFromFile
    else ForcesFromBuffer
  }

  /** The actions of successive `zeroMDCMVel` calls at the given steps, threading the flag. */
  function Actions(steps: seq<int>, coupl: int, flag: int): seq<CouplingAction>
  {
    if steps == [] then []
    else [ActionAt(steps[0], coupl, flag)] + Actions(steps[1..], coupl, RestartFlagAfter(steps[0], coupl, flag))
  }

  function CountFileReads(actions: seq<CouplingAction>): nat
  {
    if actions == [] then 0 else (if actions[0] == ForcesFromFile then 1 else 0) + CountFileReads(actions[1..])
  }

  /**
   * However the steps go, a run reads the coupling forces from file at most
   * once, and never when the restart flag starts at 0.
   */
  lemma {:induction false} RestartReadsFileAtMostOnce(steps: seq<int>, coupl: int, flag: int)
    ensures CountFileReads(Actions(steps, coupl, flag)) <= 1
    ensures flag == 0 ==> CountFileReads(Actions(steps, coupl, flag)) == 0
  {
    if steps != [] {
      var next := RestartFlagAfter(steps[0], coupl, flag);
      RestartReadsFileAtMostOnce(steps[1..], coupl, next);
      var acts := Actions(steps, coupl, flag);
      assert acts[1..] == Actions(steps[1..], coupl, next);
      if acts[0] == ForcesFromFile {
        assert next == 0;
      }
    }
  }
}
