/**
 * The particle property store: a columnar table in which every particle is
 * a row and every property a column, addressed by property ids. One column,
 * `particleIDProperty`, holds each particle's permanent id; it may be read
 * but never handed out for writing. Row positions serve as the short-lived
 * references of the store; ids are what survive changes to it.
 *
 * The column container itself is only used here through its interface, so
 * it is modelled as a map from property id to column. The C++ element type
 * `T` of a column is a tag, and values of every type are modelled as
 * integers.
 */
module ParticleStorage {
  import opened Wrappers

  type PropertyId = nat

  /** A permanent particle id: a size_t with explicit conversion only; 0 is the invalid id. */
  datatype ParticleId = ParticleId(v: nat)
  {
    predicate IsValid() { v != 0 }
  }

  /** The default-constructed id. */
  function DefaultId(): (id: ParticleId)
    ensures !id.IsValid()
  {
    ParticleId(0)
  }

  /** `operator size_t`: converting an id back gives the value it was made from. */
  function ToSize(id: ParticleId): (n: nat)
    ensures ParticleId(n) == id
  {
    id.v
  }

  /** A tag standing for the element type `T` a column is created or accessed with. */
  type ElemType = nat

  /** The tag of `ParticleId`, the element type of the id column. */
  const IdElem: ElemType := 0

  /** One property column: its element type, its dimension and one row of `dim` values per particle. */
  datatype Column = Column(elem: ElemType, dim: nat, rows: seq<seq<int>>)

  predicate WellFormed(c: Column)
  {
    forall r :: 0 <= r < |c.rows| ==> |c.rows[r]| == c.dim
  }

  /**
   * A short-lifetime reference to a property column, typed by the element
   * type it was asked for: writable or read-only, scalar or array view.
   */
  datatype Handle = Handle(property: PropertyId, elem: ElemType, writable: bool, arrayView: bool)

  datatype AccessError =
    | OutOfRange(message: string)           // asking for a writable handle to the id column
    | RangeError(given: nat, actual: nat)   // an array view whose dimension differs from the column's
    | NoSuchProperty(property: PropertyId)

  /**
   * The column container's own lookup, which the store delegates to.
   * `arrayDim` is the dimension an array view is asked for, `None` for a
   * scalar view; an array view of another dimension than the column's is a
   * `range_error`.
   */
  function Delegate(particles: map<PropertyId, Column>, id: PropertyId, elem: ElemType, writable: bool,
                    arrayDim: Option<nat>): (r: Result<Handle, AccessError>)
    ensures r.Success? <==> id in particles && (arrayDim.Some? ==> particles[id].dim == arrayDim.value)
    ensures id !in particles ==> r == Failure(NoSuchProperty(id))
    ensures id in particles && arrayDim.Some? && particles[id].dim != arrayDim.value ==>
              r == Failure(RangeError(arrayDim.value, particles[id].dim))
    ensures r.Success? ==> r.value == Handle(id, elem, writable, arrayDim.Some?)
  {
    if id !in particles then Failure(NoSuchProperty(id))
    else if arrayDim.Some? && particles[id].dim != arrayDim.value then Failure(RangeError(arrayDim.value, particles[id].dim))
    else Success(Handle(id, elem, writable, arrayDim.Some?))
  }

  /** The largest key of a finite set of property ids, for choosing an unused one. */
  ghost function MaxKey(keys: set<PropertyId>): (m: nat)
    ensures forall k :: k in keys ==> k <= m
  {
    if keys == {} then 0
    else
      var k :| k in keys;
      var rest := MaxKey(keys - {k});
      assert forall j :: j in keys ==> j == k || j in keys - {k};
      if k > rest then k else rest
  }

  /** Every column extended by one row: the new id in the id column, zeros elsewhere. */
  function WithRow(particles: map<PropertyId, Column>, idProperty: PropertyId, id: nat): map<PropertyId, Column>
  {
    map c | c in particles ::
      Column(particles[c].elem, particles[c].dim, particles[c].rows + [if c == idProperty then [id] else seq(particles[c].dim, _ => 0)])
  }

  class Storage {
    var particles: map<PropertyId, Column>
    var uniqueID: nat
    var particleIDProperty: PropertyId

    /** The number of particles: the length of the id column. */
    function Count(): nat
      reads this
      requires particleIDProperty in particles
    {
      |particles[particleIDProperty].rows|
    }

    /**
     * The store's invariant: an id column of `ParticleId`s of dimension 1, all columns with
     * one row per particle, and ids that are valid, distinct and no larger
     * than the counter that issued them.
     */
    ghost predicate Valid()
      reads this
    {
      && particleIDProperty in particles
      && particles[particleIDProperty].elem == IdElem && particles[particleIDProperty].dim == 1
      && (forall c :: c in particles ==> WellFormed(particles[c]) && |particles[c].rows| == Count())
      && (forall r :: 0 <= r < Count() ==> 0 < particles[particleIDProperty].rows[r][0] <= uniqueID)
      && (forall r, s :: 0 <= r < s < Count() ==>
            particles[particleIDProperty].rows[r][0] != particles[particleIDProperty].rows[s][0])
    }

    /** An empty store holding only the id column; no id issued yet. */
    constructor ()
      ensures Valid() && Count() == 0 && uniqueID == 0
      ensures particles.Keys == {particleIDProperty}
    {
      particles := map[0 := Column(IdElem, 1, [])];
      uniqueID := 0;
      particleIDProperty := 0;
    }

    /** `getParticleID(ref)`: the id stored in the id column at the reference's row. */
    function GetParticleID(ref: nat): (id: ParticleId)
      reads this
      requires Valid() && ref < Count()
      ensures id.IsValid() && id.v <= uniqueID
    {
      ParticleId(particles[particleIDProperty].rows[ref][0])
    }

    /** `getParticleByID(id)`: the row holding `id`, if any. */
    function GetParticleByID(id: ParticleId): (ref: Option<nat>)
      reads this
      requires Valid()
      ensures ref.Some? ==> ref.value < Count() && particles[particleIDProperty].rows[ref.value][0] == id.v
      ensures ref.None? ==> forall r :: 0 <= r < Count() ==> particles[particleIDProperty].rows[r][0] != id.v
    {
      FindRow(particles[particleIDProperty].rows, id.v, 0)
    }

    /** Distinct references carry distinct ids. */
    lemma IdsIdentify(ref1: nat, ref2: nat)
      requires Valid() && ref1 < Count() && ref2 < Count()
      ensures GetParticleID(ref1) == GetParticleID(ref2) <==> ref1 == ref2
    {
      if ref1 < ref2 {
      } else if ref2 < ref1 {
      }
    }

    /** Looking a reference's id up again finds that same reference. */
    lemma LookupFindsReference(ref: nat)
      requires Valid() && ref < Count()
      ensures GetParticleByID(GetParticleID(ref)) == Some(ref)
    {
      var found := GetParticleByID(GetParticleID(ref));
      IdsIdentify(ref, found.value);
    }

    /** The invalid id 0 names no particle. */
    lemma DefaultIdNamesNothing()
      requires Valid()
      ensures GetParticleByID(DefaultId()).None?
    {
    }

    /** Writable access: refused with `out_of_range` for the id column, delegated otherwise. */
    function GetProperty(id: PropertyId, elem: ElemType): (r: Result<Handle, AccessError>)
      reads this
      ensures id == particleIDProperty ==> r == Failure(OutOfRange("id is not writable"))
      ensures id != particleIDProperty ==> r == Delegate(particles, id, elem, true, None)
    {
      if id == particleIDProperty then Failure(OutOfRange("id is not writable"))
      else Delegate(particles, id, elem, true, None)
    }

    /** Read-only access: always delegated, the id column included. */
    function GetPropertyConst(id: PropertyId, elem: ElemType): (r: Result<Handle, AccessError>)
      reads this
      ensures r.Success? <==> id in particles
      ensures r.Success? ==> r.value == Handle(id, elem, false, false)
    {
      Delegate(particles, id, elem, false, None)
    }

    /** Writable array access of dimension `dim`: the same guard on the id column. */
    function GetVarArrayProperty(id: PropertyId, elem: ElemType, dim: nat): (r: Result<Handle, AccessError>)
      reads this
      ensures id == particleIDProperty ==> r == Failure(OutOfRange("id is not writable"))
      ensures id != particleIDProperty ==> r == Delegate(particles, id, elem, true, Some(dim))
    {
      if id == particleIDProperty then Failure(OutOfRange("id is not writable"))
      else Delegate(particles, id, elem, true, Some(dim))
    }

    /**
     * Read-only array access of dimension `dim`: delegated, and a
     * `range_error` when the column has another dimension.
     */
    function GetArrayProperty(id: PropertyId, elem: ElemType, dim: nat): (r: Result<Handle, AccessError>)
      reads this
      ensures r.Success? <==> id in particles && particles[id].dim == dim
      ensures id in particles && particles[id].dim != dim ==> r == Failure(RangeError(dim, particles[id].dim))
      ensures r.Success? ==> r.value == Handle(id, elem, false, true)
    {
      Delegate(particles, id, elem, false, Some(dim))
    }

    /** Read-only access to the id column, as `ParticleId`s. */
    function GetIDProperty(): (r: Result<Handle, AccessError>)
      reads this
      requires Valid()
      ensures r == Success(Handle(particleIDProperty, IdElem, false, false))
    {
      GetPropertyConst(particleIDProperty, IdElem)
    }

    /**
     * Of the existing columns, exactly the id column is refused for writing
     * with `out_of_range`, by either writable accessor; every column can be
     * read, and array views succeed exactly at the column's dimension.
     */
    lemma OnlyIdColumnGuarded(id: PropertyId, elem: ElemType, dim: nat)
      requires Valid() && id in particles
      ensures GetPropertyConst(id, elem).Success?
      ensures GetArrayProperty(id, elem, dim).Success? <==> particles[id].dim == dim
      ensures GetProperty(id, elem).Failure? <==> id == particleIDProperty
      ensures GetVarArrayProperty(id, elem, dim).Success? <==> id != particleIDProperty && particles[id].dim == dim
      ensures (GetVarArrayProperty(id, elem, dim).Failure? && GetVarArrayProperty(id, elem, dim).error.OutOfRange?)
              <==> id == particleIDProperty
    {
    }

    /** `addProperty<T>(dim)`: a new column of type `T`, of dimension 1 unless given, under an unused id. */
    method AddProperty(elem: ElemType, dim: nat := 1) returns (id: PropertyId)
      requires Valid()
      modifies this
      ensures Valid()
      ensures id !in old(particles) && particles.Keys == old(particles).Keys + {id}
      ensures particles[id].elem == elem && particles[id].dim == dim && |particles[id].rows| == Count()
      ensures forall c :: c in old(particles) ==> particles[c] == old(particles)[c]
      ensures uniqueID == old(uniqueID) && particleIDProperty == old(particleIDProperty)
    {
      assert MaxKey(particles.Keys) + 1 !in particles;
      id :| id !in particles;
      particles := particles[id := Column(elem, dim, seq(Count(), _ => seq(dim, _ => 0)))];
    }

    /**
     * `addParticle()`: issues the next id and appends a row to every column;
     * returns the new row's reference. Every particle stored before is
     * still found by its id.
     */
    method AddParticle() returns (ref: nat)
      requires Valid()
      modifies this
      ensures Valid()
      ensures uniqueID == old(uniqueID) + 1 && particleIDProperty == old(particleIDProperty)
      ensures particles == WithRow(old(particles), particleIDProperty, uniqueID)
      ensures ref == old(Count()) && Count() == ref + 1
      ensures GetParticleID(ref) == ParticleId(uniqueID)
      ensures forall r :: 0 <= r < ref ==> GetParticleID(r) == old(GetParticleID(r))
      ensures forall r :: 0 <= r < old(Count()) ==> GetParticleByID(old(GetParticleID(r))) == Some(r)
    {
      ref := Count();
      ghost var ids := particles[particleIDProperty].rows;
      uniqueID := uniqueID + 1;
      particles := WithRow(particles, particleIDProperty, uniqueID);
      assert particles[particleIDProperty].rows == ids + [[uniqueID]];
      forall r | 0 <= r < ref
        ensures GetParticleByID(GetParticleID(r)) == Some(r)
      {
        LookupFindsReference(r);
      }
    }
  }

  /** The first row from `from` on whose first value is `v`. */
  function FindRow(rows: seq<seq<int>>, v: int, from: nat): (r: Option<nat>)
    requires forall k :: 0 <= k < |rows| ==> |rows[k]| >= 1
    requires from <= |rows|
    ensures r.Some? ==> from <= r.value < |rows| && rows[r.value][0] == v
    ensures r.None? ==> forall k :: from <= k < |rows| ==> rows[k][0] != v
    decreases |rows| - from
  {
    if from == |rows| then None
    else if rows[from][0] == v then Some(from)
    else FindRow(rows, v, from + 1)
  }
}
