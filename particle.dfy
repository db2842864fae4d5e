/**
 * The particle record: identity and type, position, momentum and force
 * 3-vectors updated in place, the local bookkeeping that travels with a
 * migrating particle, the archive form written by `serialize`, and the
 * list of particle-pointer pairs used by bonded interactions.
 *
 * Floating-point components are modelled as mathematical reals.
 */
module Particles {
  import opened Wrappers

  /** Componentwise sum of two 3-vectors: the loop body of `+=` and of `copyShifted`. */
  function Plus(a: seq<real>, b: seq<real>): seq<real>
    requires |a| == 3 && |b| == 3
  {
    [a[0] + b[0], a[1] + b[1], a[2] + b[2]]
  }

  /** ParticleProperties: persistent identity and type tag (both `size_t`). */
  datatype ParticleProperties = ParticleProperties(id: nat, ptype: nat)

  /** ParticleLocal: image-cell offsets `i[3]`, the ghost flag and the local bond-index list. */
  datatype ParticleLocal = ParticleLocal(i: seq<int>, ghostFlag: int, bondList: seq<int>)

  /** ParticlePosition: the position `p[3]`. */
  class ParticlePosition {
    const p: array<real>

    predicate Valid() { p.Length == 3 }

    constructor ()
      ensures Valid() && fresh(p)
    {
      p := new real[3];
    }

    /** Writes this position shifted by `shift` into `dst`; `dst` may be this very position. */
    method CopyShifted(dst: ParticlePosition, shift: seq<real>)
      requires Valid() && dst.Valid() && |shift| == 3
      modifies dst.p
      ensures dst.p[..] == Plus(old(p[..]), shift)
      ensures dst.p != p ==> p[..] == old(p[..])
    {
      for i := 0 to 3
        invariant forall k :: 0 <= k < i ==> dst.p[k] == old(p[k]) + shift[k]
        invariant forall k :: i <= k < 3 ==> p[k] == old(p[k])
        invariant dst.p != p ==> p[..] == old(p[..])
      {
        dst.p[i] := p[i] + shift[i];
      }
    }
  }

  /** ParticleMomentum: the velocity `v[3]`. */
  class ParticleMomentum {
    const v: array<real>

    predicate Valid() { v.Length == 3 }

    constructor ()
      ensures Valid() && fresh(v)
    {
      v := new real[3];
    }
  }

  /** ParticleForce: the force accumulator `f[3]`. */
  class ParticleForce {
    const f: array<real>

    predicate Valid() { f.Length == 3 }

    constructor ()
      ensures Valid() && fresh(f)
    {
      f := new real[3];
    }

    /** `operator+=`: adds `g` componentwise; `g` itself is left alone unless it is this very force. */
    method AddAssign(g: ParticleForce)
      requires Valid() && g.Valid()
      modifies f
      ensures f[..] == Plus(old(f[..]), old(g.f[..]))
      ensures g.f != f ==> g.f[..] == old(g.f[..])
    {
      for i := 0 to 3
        invariant forall k :: 0 <= k < i ==> f[k] == old(f[k]) + old(g.f[k])
        invariant forall k :: i <= k < 3 ==> f[k] == old(f[k]) && g.f[k] == old(g.f[k])
        invariant g.f != f ==> g.f[..] == old(g.f[..])
      {
        f[i] := f[i] + g.f[i];
      }
    }
  }

  /** The value of a particle at one moment, as `serialize` sees it. */
  datatype ParticleState = ParticleState(p: ParticleProperties, r: seq<real>, m: seq<real>, f: seq<real>, l: ParticleLocal)

  /** The C++ arrays have three components. */
  predicate WellShaped(s: ParticleState)
  {
    |s.r| == 3 && |s.m| == 3 && |s.f| == 3 && |s.l.i| == 3
  }

  class Particle {
    var p: ParticleProperties
    const r: ParticlePosition
    const m: ParticleMomentum
    const f: ParticleForce
    var l: ParticleLocal

    predicate Valid()
      reads this
    {
      r.Valid() && m.Valid() && f.Valid() && r.p != m.v && m.v != f.f && r.p != f.f && |l.i| == 3
    }

    /** `Particle()` calls `init()`; the id, position, force and local part stay unspecified. */
    constructor ()
      ensures Valid() && fresh(r) && fresh(m) && fresh(f) && fresh(r.p) && fresh(m.v) && fresh(f.f)
      ensures m.v[..] == [0.0, 0.0, 0.0] && p.ptype == 0
    {
      r := new ParticlePosition();
      m := new ParticleMomentum();
      f := new ParticleForce();
      p := ParticleProperties(0, 0);
      l := ParticleLocal([0, 0, 0], 0, []);
      new;
      Init();
    }

    /** `init()`: zero momentum and type 0; nothing else changes. */
    method Init()
      requires Valid()
      modifies this, m.v
      ensures m.v[..] == [0.0, 0.0, 0.0]
      ensures p == old(p).(ptype := 0) && l == old(l)
    {
      m.v[0] := 0.0;
      m.v[1] := 0.0;
      m.v[2] := 0.0;
      p := p.(ptype := 0);
    }

    /** The current value of every field `serialize` covers. */
    function State(): (s: ParticleState)
      reads this, r.p, m.v, f.f
      requires Valid()
      ensures WellShaped(s)
    {
      ParticleState(p, r.p[..], m.v[..], f.f[..], l)
    }
  }

  /**
   * One item of an archive. `serialize` writes `size_t` fields as sizes, `int`
   * fields as ints, `real` fields as reals, and a `std::vector<int>` as its
   * length followed by its elements.
   */
  datatype Token = Size(n: nat) | Int(i: int) | Real(x: real)

  function EncodeReals(v: seq<real>): seq<Token>
  {
    if v == [] then [] else [Real(v[0])] + EncodeReals(v[1..])
  }

  function EncodeInts(v: seq<int>): seq<Token>
  {
    if v == [] then [] else [Int(v[0])] + EncodeInts(v[1..])
  }

  /** `Particle::serialize` when saving: `p & r & m & f & l`, each part field by field. */
  function Encode(s: ParticleState): seq<Token>
  {
    [Size(s.p.id), Size(s.p.ptype)]
    + EncodeReals(s.r) + EncodeReals(s.m) + EncodeReals(s.f)
    + EncodeInts(s.l.i) + [Int(s.l.ghostFlag), Size(|s.l.bondList|)] + EncodeInts(s.l.bondList)
  }

  /** Reads `n` reals off the front of `t`. */
  function DecodeReals(n: nat, t: seq<Token>): Option<(seq<real>, seq<Token>)>
  {
    if n == 0 then Some(([], t))
    else if t == [] || !t[0].Real? then None
    else match DecodeReals(n - 1, t[1..])
      case None => None
      case Some((v, rest)) => Some(([t[0].x] + v, rest))
  }

  /** Reads `n` ints off the front of `t`. */
  function DecodeInts(n: nat, t: seq<Token>): Option<(seq<int>, seq<Token>)>
  {
    if n == 0 then Some(([], t))
    else if t == [] || !t[0].Int? then None
    else match DecodeInts(n - 1, t[1..])
      case None => None
      case Some((v, rest)) => Some(([t[0].i] + v, rest))
  }

  /** `Particle::serialize` when loading: the same fields in the same order; returns what is left. */
  function Decode(t: seq<Token>): Option<(ParticleState, seq<Token>)>
  {
    if |t| < 2 || !t[0].Size? || !t[1].Size? then None
    else
      var props := ParticleProperties(t[0].n, t[1].n);
      match DecodeReals(3, t[2..])
      case None => None
      case Some((r, t1)) =>
        match DecodeReals(3, t1)
        case None => None
        case Some((m, t2)) =>
          match DecodeReals(3, t2)
          case None => None
          case Some((f, t3)) =>
            match DecodeInts(3, t3)
            case None => None
            case Some((i, t4)) =>
              if |t4| < 2 || !t4[0].Int? || !t4[1].Size? then None
              else match DecodeInts(t4[1].n, t4[2..])
                case None => None
                case Some((bonds, rest)) =>
                  Some((ParticleState(props, r, m, f, ParticleLocal(i, t4[0].i, bonds)), rest))
  }

  lemma {:induction false} RealsRoundTrip(v: seq<real>, rest: seq<Token>)
    ensures DecodeReals(|v|, EncodeReals(v) + rest) == Some((v, rest))
  {
    if v != [] {
      assert EncodeReals(v) + rest == [Real(v[0])] + (EncodeReals(v[1..]) + rest);
      RealsRoundTrip(v[1..], rest);
      assert [v[0]] + v[1..] == v;
    } else {
      assert EncodeReals(v) + rest == rest;
    }
  }

  lemma {:induction false} IntsRoundTrip(v: seq<int>, rest: seq<Token>)
    ensures DecodeInts(|v|, EncodeInts(v) + rest) == Some((v, rest))
  {
    if v != [] {
      assert EncodeInts(v) + rest == [Int(v[0])] + (EncodeInts(v[1..]) + rest);
      IntsRoundTrip(v[1..], rest);
      assert [v[0]] + v[1..] == v;
    } else {
      assert EncodeInts(v) + rest == rest;
    }
  }

  /**
   * Loading what was saved gives back the same particle and leaves whatever
   * followed it in the archive: a migrating particle keeps every field,
   * its bond-index list included.
   */
  lemma RoundTrip(s: ParticleState, rest: seq<Token>)
    requires WellShaped(s)
    ensures Decode(Encode(s) + rest) == Some((s, rest))
  {
    var tail := [Int(s.l.ghostFlag), Size(|s.l.bondList|)] + EncodeInts(s.l.bondList) + rest;
    var t3 := EncodeInts(s.l.i) + tail;
    var t2 := EncodeReals(s.f) + t3;
    var t1 := EncodeReals(s.m) + t2;
    var t := Encode(s) + rest;
    assert t == [Size(s.p.id), Size(s.p.ptype)] + (EncodeReals(s.r) + t1);
    assert t[2..] == EncodeReals(s.r) + t1;
    RealsRoundTrip(s.r, t1);
    RealsRoundTrip(s.m, t2);
    RealsRoundTrip(s.f, t3);
    IntsRoundTrip(s.l.i, tail);
    assert tail[2..] == EncodeInts(s.l.bondList) + rest;
    IntsRoundTrip(s.l.bondList, rest);
  }

  /** Migration out and back in preserves the embedded bond-index list. */
  lemma MigrationKeepsBondList(s: ParticleState)
    requires WellShaped(s)
    ensures Decode(Encode(s)).Some? && Decode(Encode(s)).value.0.l.bondList == s.l.bondList
  {
    RoundTrip(s, []);
    assert Encode(s) + [] == Encode(s);
  }

  /** ParticlePair: a pair of particle pointers; the default constructor gives two null pointers. */
  datatype ParticlePair = ParticlePair(first: Particle?, second: Particle?)

  /** PairList: the growable vector of particle-pointer pairs. */
  class PairList {
    var pairs: seq<ParticlePair>

    constructor ()
      ensures pairs == []
    {
      pairs := [];
    }

    /** `add(Particle*, Particle*)`: appends exactly this pair; earlier entries are untouched. */
    method Add(p1: Particle?, p2: Particle?)
      modifies this
      ensures pairs == old(pairs) + [ParticlePair(p1, p2)]
    {
      pairs := pairs + [ParticlePair(p1, p2)];
    }

    /** `add(Particle&, Particle&)`: the same as adding the two addresses. */
    method AddRefs(p1: Particle, p2: Particle)
      modifies this
      ensures pairs == old(pairs) + [ParticlePair(p1, p2)]
    {
      Add(p1, p2);
    }

    /** `clear()` of the underlying vector. */
    method Clear()
      modifies this
      ensures pairs == []
    {
      pairs := [];
    }
  }
}
