/**
 * The bonded-pair topology of adaptive-resolution runs.
 *
 * A bond is registered by the permanent ids of its two particles in the
 * global multimap `globalPairs`, stored as `(min id, max id)` and kept in the
 * multimap's key order. The local pair list holds the atomistic particles the
 * storage resolves those ids to; it is a cache that is thrown away and rebuilt
 * from `globalPairs` whenever the storage reports that particles changed.
 *
 * The storage's `lookupAdrATParticle` is passed to each operation as a
 * function from id to an optional particle: what the storage answers at the
 * moment of the call.
 */
module FixedPairListAdress {
  import opened Wrappers
  import opened Particles

  /** The answer of `lookupAdrATParticle` for every id, at one moment. */
  type Lookup = int -> Option<Particle>

  /** One entry of the global multimap: first id (the key) and second id. */
  type Entry = (int, int)

  /** `add` swaps its arguments when the first is larger: pairs are handled as `(min, max)`. */
  function Canonical(pid1: int, pid2: int): Entry
  {
    if pid1 > pid2 then (pid2, pid1) else (pid1, pid2)
  }

  /** Both argument orders give the same entry, smaller id first, holding exactly the two ids. */
  lemma CanonicalIsUnordered(x: int, y: int)
    ensures Canonical(x, y) == Canonical(y, x)
    ensures Canonical(x, y).0 <= Canonical(x, y).1
    ensures {Canonical(x, y).0, Canonical(x, y).1} == {x, y}
  {
  }

  /** The multimap's iteration order: entries sorted by key. */
  predicate KeySorted(g: seq<Entry>)
  {
    forall a, b :: 0 <= a < b < |g| ==> g[a].0 <= g[b].0
  }

  /** Every entry stores its smaller id first. */
  predicate CanonicalEntries(g: seq<Entry>)
  {
    forall k :: 0 <= k < |g| ==> g[k].0 <= g[k].1
  }

  /** `lower_bound(key)`: the first position whose key is not less than `key`. */
  function LowerBound(g: seq<Entry>, key: int): (r: nat)
    ensures r <= |g|
    ensures forall k :: 0 <= k < r ==> g[k].0 < key
    ensures r < |g| ==> g[r].0 >= key
  {
    if g == [] || g[0].0 >= key then 0 else 1 + LowerBound(g[1..], key)
  }

  /** `upper_bound(key)`: the first position whose key is greater than `key`; never before `lower_bound`. */
  function UpperBound(g: seq<Entry>, key: int): (r: nat)
    ensures LowerBound(g, key) <= r <= |g|
    ensures forall k :: 0 <= k < r ==> g[k].0 <= key
    ensures r < |g| ==> g[r].0 > key
  {
    if g == [] || g[0].0 > key then 0 else 1 + UpperBound(g[1..], key)
  }

  function InsertAt(g: seq<Entry>, pos: nat, e: Entry): seq<Entry>
    requires pos <= |g|
  {
    g[..pos] + [e] + g[pos..]
  }

  /**
   * The global multimap after `add` registered `e`: inserting with the hint
   * `lower_bound(key)` places the entry just before the hint, that is, at the
   * front of the entries that share its key.
   */
  function Registered(g: seq<Entry>, e: Entry): seq<Entry>
  {
    InsertAt(g, LowerBound(g, e.0), e)
  }

  /** Registering keeps the multimap in key order. */
  lemma RegisteredKeepsOrder(g: seq<Entry>, e: Entry)
    requires KeySorted(g)
    ensures KeySorted(Registered(g, e))
  {
    var pos := LowerBound(g, e.0);
    var h := Registered(g, e);
    assert |h| == |g| + 1;
    assert forall k :: 0 <= k < pos ==> h[k] == g[k];
    assert h[pos] == e;
    assert forall k :: pos < k < |h| ==> h[k] == g[k - 1];
    forall a, b | 0 <= a < b < |h|
      ensures h[a].0 <= h[b].0
    {
      if b == pos {
      } else if a == pos {
        assert g[b - 1].0 >= g[pos].0;
      } else if a < pos && b > pos {
        assert g[a].0 < e.0 <= g[pos].0 <= g[b - 1].0;
      }
    }
  }

  /** Registering keeps every entry in `(min, max)` form when the new entry is. */
  lemma RegisteredKeepsCanonical(g: seq<Entry>, e: Entry)
    requires CanonicalEntries(g) && e.0 <= e.1
    ensures CanonicalEntries(Registered(g, e))
  {
    var pos := LowerBound(g, e.0);
    var h := Registered(g, e);
    assert forall k :: 0 <= k < pos ==> h[k] == g[k];
    assert forall k :: pos < k < |h| ==> h[k] == g[k - 1];
  }

  /** Registering adds exactly one copy of the entry, whether or not it was already present. */
  lemma RegisteredAddsOne(g: seq<Entry>, e: Entry)
    ensures multiset(Registered(g, e)) == multiset(g) + multiset{e}
  {
    var pos := LowerBound(g, e.0);
    assert g == g[..pos] + g[pos..];
  }

  /** The new entry comes first among the entries with its key. */
  lemma RegisteredFrontOfGroup(g: seq<Entry>, e: Entry)
    requires KeySorted(g)
    ensures var h := Registered(g, e);
      h[LowerBound(g, e.0)] == e && forall k :: 0 <= k < LowerBound(g, e.0) ==> h[k].0 < e.0
  {
  }

  /** `add(3, 7)` followed by `add(7, 3)` leaves two copies of `(3, 7)`: duplicates are not rejected. */
  lemma RepeatedAddDuplicates(g: seq<Entry>, x: int, y: int)
    ensures var e := Canonical(x, y);
      multiset(Registered(Registered(g, Canonical(x, y)), Canonical(y, x)))[e] == multiset(g)[e] + 2
  {
    CanonicalIsUnordered(x, y);
    var e := Canonical(x, y);
    RegisteredAddsOne(g, e);
    RegisteredAddsOne(Registered(g, e), e);
  }

  /** The pointer the rebuild stores for an id: the particle, or null when the lookup fails. */
  function Resolve(lookup: Lookup, id: int): Particle?
  {
    if lookup(id).Some? then lookup(id).value else null
  }

  /**
   * The rebuild loop of `onParticlesChanged` from some entry on, carrying the
   * cached key `lastpid1` and its particle `p1`: the first id is looked up
   * only when it differs from the previous entry's; the pair is appended
   * even when a lookup failed.
   */
  function RebuildFrom(g: seq<Entry>, lookup: Lookup, lastpid1: int, p1: Particle?): (r: seq<ParticlePair>)
    ensures |r| == |g|
  {
    if g == [] then []
    else
      var q1 := if g[0].0 != lastpid1 then Resolve(lookup, g[0].0) else p1;
      [ParticlePair(q1, Resolve(lookup, g[0].1))] + RebuildFrom(g[1..], lookup, g[0].0, q1)
  }

  /** The second particle of every rebuilt pair is looked up afresh, never taken from the cache. */
  lemma {:induction false} RebuildSecondsFresh(g: seq<Entry>, lookup: Lookup, lastpid1: int, p1: Particle?, k: nat)
    requires k < |g|
    ensures RebuildFrom(g, lookup, lastpid1, p1)[k].second == Resolve(lookup, g[k].1)
  {
    if k > 0 {
      var q1 := if g[0].0 != lastpid1 then Resolve(lookup, g[0].0) else p1;
      RebuildSecondsFresh(g[1..], lookup, g[0].0, q1, k - 1);
    }
  }

  /** The reference rebuild without a cache: every entry's two ids looked up. */
  function Rebuilt(g: seq<Entry>, lookup: Lookup): seq<ParticlePair>
  {
    seq(|g|, k requires 0 <= k < |g| => ParticlePair(Resolve(lookup, g[k].0), Resolve(lookup, g[k].1)))
  }

  /** No key of the multimap is the start value `-1` of `lastpid1`. */
  predicate NoSentinelKey(g: seq<Entry>)
  {
    forall k :: 0 <= k < |g| ==> g[k].0 != -1
  }

  /** With a stable lookup the `lastpid1` cache changes nothing: each pair is what looking up both ids gives. */
  lemma {:induction false} CacheIsTransparent(g: seq<Entry>, lookup: Lookup, lastpid1: int, p1: Particle?)
    requires NoSentinelKey(g)
    requires lastpid1 != -1 ==> p1 == Resolve(lookup, lastpid1)
    ensures RebuildFrom(g, lookup, lastpid1, p1) == Rebuilt(g, lookup)
  {
    if g != [] {
      var q1 := if g[0].0 != lastpid1 then Resolve(lookup, g[0].0) else p1;
      assert q1 == Resolve(lookup, g[0].0);
      CacheIsTransparent(g[1..], lookup, g[0].0, q1);
      var r := RebuildFrom(g, lookup, lastpid1, p1);
      var s := Rebuilt(g, lookup);
      assert r[0] == s[0];
      forall k | 1 <= k < |g|
        ensures r[k] == s[k]
      {
        assert r[k] == RebuildFrom(g[1..], lookup, g[0].0, q1)[k - 1];
        assert Rebuilt(g[1..], lookup)[k - 1] == s[k];
      }
    }
  }

  /** A rebuilt entry holds two particles exactly when both of its ids resolve. */
  lemma RebuiltResolvesBoth(g: seq<Entry>, lookup: Lookup, k: nat)
    requires k < |g|
    ensures var q := Rebuilt(g, lookup)[k];
      (q.first != null && q.second != null) <==> (lookup(g[k].0).Some? && lookup(g[k].1).Some?)
  {
  }

  /** The reference rebuild of a concatenation is the concatenation of the rebuilds. */
  lemma RebuiltAppend(x: seq<Entry>, y: seq<Entry>, lookup: Lookup)
    ensures Rebuilt(x + y, lookup) == Rebuilt(x, lookup) + Rebuilt(y, lookup)
  {
  }

  /**
   * With a stable lookup, a successful `add` keeps the local list a
   * reordering of what a rebuild would give: appending the resolved pair
   * locally matches inserting the entry globally.
   */
  lemma AddKeepsCacheConsistent(g: seq<Entry>, local: seq<ParticlePair>, e: Entry, lookup: Lookup)
    requires multiset(local) == multiset(Rebuilt(g, lookup))
    requires lookup(e.0).Some? && lookup(e.1).Some?
    ensures multiset(local + [ParticlePair(lookup(e.0).value, lookup(e.1).value)])
         == multiset(Rebuilt(Registered(g, e), lookup))
  {
    var pos := LowerBound(g, e.0);
    assert g == g[..pos] + g[pos..];
    RebuiltAppend(g[..pos], g[pos..], lookup);
    RebuiltAppend(g[..pos] + [e], g[pos..], lookup);
    RebuiltAppend(g[..pos], [e], lookup);
  }

  /** The first particle a rebuild step stores: looked up anew only when the key changed. */
  function CachedFirst(e: Entry, lookup: Lookup, lastpid1: int, p1: Particle?): Particle?
  {
    if e.0 != lastpid1 then Resolve(lookup, e.0) else p1
  }

  /** What `onParticlesChanged` prints for a failed lookup: which id of the entry it could not find. */
  datatype Missing = FirstMissing(id: int) | SecondMissing(id: int)

  /** The messages the rebuild loop prints from some entry on, with the same `lastpid1` cache. */
  function MissingFrom(g: seq<Entry>, lookup: Lookup, lastpid1: int): seq<Missing>
  {
    if g == [] then [] else MissingAt(g[0], lookup, lastpid1) + MissingFrom(g[1..], lookup, g[0].0)
  }

  /** The messages printed for one entry: the first id only when it was looked up anew. */
  function MissingAt(e: Entry, lookup: Lookup, lastpid1: int): seq<Missing>
  {
    (if e.0 != lastpid1 && lookup(e.0).None? then [FirstMissing(e.0)] else [])
    + (if lookup(e.1).None? then [SecondMissing(e.1)] else [])
  }

  /**
   * The rebuild loop's invariant after `i` entries: what it has appended and
   * printed so far, followed by what the remaining entries contribute from
   * the current cache, is the whole rebuild.
   */
  ghost predicate RebuiltUpTo(g: seq<Entry>, i: nat, lookup: Lookup, lastpid1: int, p1: Particle?,
                              pairs: seq<ParticlePair>, reports: seq<Missing>)
    requires i <= |g|
  {
    && pairs + RebuildFrom(g[i..], lookup, lastpid1, p1) == RebuildFrom(g, lookup, -1, null)
    && reports + MissingFrom(g[i..], lookup, lastpid1) == MissingFrom(g, lookup, -1)
  }

  /** One pass of the rebuild loop keeps its invariant. */
  lemma RebuiltAdvance(g: seq<Entry>, i: nat, lookup: Lookup, lastpid1: int, p1: Particle?,
                       pairs: seq<ParticlePair>, reports: seq<Missing>)
    requires i < |g| && RebuiltUpTo(g, i, lookup, lastpid1, p1, pairs, reports)
    ensures var q1 := CachedFirst(g[i], lookup, lastpid1, p1);
      RebuiltUpTo(g, i + 1, lookup, g[i].0, q1,
                  pairs + [ParticlePair(q1, Resolve(lookup, g[i].1))], reports + MissingAt(g[i], lookup, lastpid1))
  {
    assert g[i..][1..] == g[i + 1..];
  }

  /** The rebuild prints nothing exactly when both ids of every entry resolve. */
  lemma {:induction false} SilentIffAllResolve(g: seq<Entry>, lookup: Lookup, lastpid1: int)
    requires NoSentinelKey(g)
    requires lastpid1 != -1 ==> lookup(lastpid1).Some?
    ensures MissingFrom(g, lookup, lastpid1) == []
        <==> forall k :: 0 <= k < |g| ==> lookup(g[k].0).Some? && lookup(g[k].1).Some?
  {
    if g != [] {
      if lookup(g[0].0).Some? && lookup(g[0].1).Some? {
        SilentIffAllResolve(g[1..], lookup, g[0].0);
        assert MissingFrom(g, lookup, lastpid1) == MissingFrom(g[1..], lookup, g[0].0);
        if forall k :: 1 <= k < |g| ==> lookup(g[k].0).Some? && lookup(g[k].1).Some? {
          assert forall k :: 0 <= k < |g[1..]| ==> lookup(g[1..][k].0).Some? && lookup(g[1..][k].1).Some?;
        } else {
          var k :| 1 <= k < |g| && !(lookup(g[k].0).Some? && lookup(g[k].1).Some?);
          assert g[1..][k - 1] == g[k];
        }
      } else {
        assert |MissingFrom(g, lookup, lastpid1)| > 0;
      }
    }
  }

  /**
   * Entries (1,2), (2,5), (3,4) with id 5 unresolvable: the rebuild keeps all
   * three pairs, the middle one with a null second particle, and prints one
   * message, about id 5.
   */
  lemma UnresolvedPartnerKept(lookup: Lookup)
    requires forall id :: lookup(id).Some? <==> 1 <= id <= 4
    ensures var g := [(1, 2), (2, 5), (3, 4)];
      var r := RebuildFrom(g, lookup, -1, null);
      && |r| == 3
      && r[0] == ParticlePair(lookup(1).value, lookup(2).value)
      && r[1] == ParticlePair(lookup(2).value, null)
      && r[2] == ParticlePair(lookup(3).value, lookup(4).value)
      && MissingFrom(g, lookup, -1) == [SecondMissing(5)]
  {
    var g: seq<Entry> := [(1, 2), (2, 5), (3, 4)];
    assert g[1..] == [(2, 5), (3, 4)] && g[1..][1..] == [(3, 4)] && g[1..][1..][1..] == [];
    assert lookup(1).Some? && lookup(2).Some? && lookup(3).Some? && lookup(4).Some? && lookup(5).None?;
    var p2 := lookup(2).value;
    assert RebuildFrom(g[1..][1..], lookup, 2, p2) == [ParticlePair(lookup(3).value, lookup(4).value)];
  }

  /**
   * The adaptive-resolution fixed pair list: the local pair list (the base
   * `PairList`, held here as a component), the global multimap, and whether
   * the three storage signals are connected.
   */
  class FixedPairListAdress {
    const pairList: PairList
    var globalPairs: seq<Entry>
    var connected: bool

    ghost predicate Valid()
      reads this
    {
      KeySorted(globalPairs) && CanonicalEntries(globalPairs)
    }

    /** Connects to the storage's send, receive and particles-changed signals; no bonds yet. */
    constructor ()
      ensures Valid() && fresh(pairList)
      ensures pairList.pairs == [] && globalPairs == [] && connected
    {
      pairList := new PairList();
      globalPairs := [];
      connected := true;
    }

    /** The destructor: disconnects the three signals. */
    method Disconnect()
      modifies this
      ensures !connected && globalPairs == old(globalPairs)
    {
      connected := false;
    }

    /**
     * `add(pid1, pid2)`: canonicalise, resolve both ids, append the resolved
     * pair locally and register `(min, max)` globally. Fails, changing
     * nothing, when either id does not resolve.
     */
    method Add(pid1: int, pid2: int, lookup: Lookup) returns (added: bool)
      requires Valid()
      modifies this, pairList
      ensures Valid() && connected == old(connected)
      ensures var e := Canonical(pid1, pid2);
        && (added <==> lookup(e.0).Some? && lookup(e.1).Some?)
        && (added ==> pairList.pairs == old(pairList.pairs) + [ParticlePair(lookup(e.0).value, lookup(e.1).value)])
        && (added ==> globalPairs == Registered(old(globalPairs), e))
      ensures !added ==> pairList.pairs == old(pairList.pairs) && globalPairs == old(globalPairs)
    {
      var a, b := pid1, pid2;
      if a > b {
        a, b := b, a;
      }
      var p1 := lookup(a);
      var p2 := lookup(b);
      if p1.None? {
        return false;
      }
      if p2.None? {
        return false;
      }
      pairList.Add(p1.value, p2.value);

      RegisteredKeepsOrder(globalPairs, (a, b));
      RegisteredKeepsCanonical(globalPairs, (a, b));
      var first := LowerBound(globalPairs, a);
      if first == |globalPairs| {
        // no key at or above `a`: a plain insert goes to the end of `a`'s (empty) group
        globalPairs := InsertAt(globalPairs, UpperBound(globalPairs, a), (a, b));
      } else {
        var last := UpperBound(globalPairs, a);
        var it := first;
        while it < last
          invariant first <= it <= last
        {
          if globalPairs[it].1 == b {
            // the pair is already registered: nothing is done about it
          }
          it := it + 1;
        }
        globalPairs := InsertAt(globalPairs, first, (a, b));
      }
      added := true;
    }

    /**
     * `onParticlesChanged()`: clears the local list and appends one pair per
     * global entry, in the multimap's order, looking the first id up once per
     * run of equal keys. Failed lookups are reported and their null pointers
     * appended all the same.
     */
    method OnParticlesChanged(lookup: Lookup) returns (reports: seq<Missing>)
      modifies pairList
      ensures pairList.pairs == RebuildFrom(globalPairs, lookup, -1, null)
      ensures reports == MissingFrom(globalPairs, lookup, -1)
    {
      pairList.Clear();
      reports := [];
      var lastpid1 := -1;
      var p1: Particle? := null;
      var p2: Particle?;
      var it := 0;
      assert globalPairs[0..] == globalPairs;
      while it < |globalPairs|
        invariant 0 <= it <= |globalPairs|
        invariant RebuiltUpTo(globalPairs, it, lookup, lastpid1, p1, pairList.pairs, reports)
      {
        var entry := globalPairs[it];
        RebuiltAdvance(globalPairs, it, lookup, lastpid1, p1, pairList.pairs, reports);
        ghost var pending, cachedKey, cached := reports, lastpid1, p1;
        if entry.0 != lastpid1 {
          p1 := Resolve(lookup, entry.0);
          if p1 == null {
            reports := reports + [FirstMissing(entry.0)];
          }
          lastpid1 := entry.0;
        }
        p2 := Resolve(lookup, entry.1);
        if p2 == null {
          reports := reports + [SecondMissing(entry.1)];
        }
        assert p1 == CachedFirst(entry, lookup, cachedKey, cached);
        assert reports == pending + MissingAt(entry, lookup, cachedKey);
        pairList.Add(p1, p2);
        it := it + 1;
      }
      assert globalPairs[it..] == [];
    }
  }

  /** Two rebuilds in a row with the same lookup give identical local lists. */
  method RebuildTwice(l: FixedPairListAdress, lookup: Lookup) returns (first: seq<ParticlePair>, second: seq<ParticlePair>)
    modifies l.pairList
    ensures first == second
  {
    var _ := l.OnParticlesChanged(lookup);
    first := l.pairList.pairs;
    var _ := l.OnParticlesChanged(lookup);
    second := l.pairList.pairs;
  }
}
