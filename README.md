# espressopp core in Dafny

This project models the parts of ESPResSo++ that are integer and control
logic and proves properties about them.

- **Bonded-pair topology for adaptive-resolution runs** (`FixedPairListAdress`).
  - Bonds are registered by particle id in a global multimap that stores each pair as `(min id, max id)`.
  - The local list holds particle pointers. It is a cache that is cleared and rebuilt from the multimap whenever the storage reports that particles changed.
  - Duplicate bonds are kept.
  - A failed lookup during the rebuild is reported, and its null pointer is appended all the same.
- **Particle record** (`Particles`): the force `+=` and `copyShifted` loops, `init`, the archive layout of `serialize`, and `PairList::add`.
- **Columnar particle store** (`ParticleStorage`): particle ids, the id column, the guard that refuses writable access to that column, `addProperty`, and the id counter behind `addParticle`.
- **Lattice-Boltzmann integrator** (`LBModel`, `LBLattice`, `LBIntegrator`), its integer and control logic only:
  - the D3Q19 velocity table and the streaming offsets;
  - the periodic neighbour-rank wrap;
  - the six-stage halo exchange, with its buffer layout;
  - the pointer swap of the two lattices;
  - the step schedule of `makeLBStep`;
  - the restart-flag state machine of `zeroMDCMVel`;
  - the constructor's flags and coupling buffer.
- **Default logging back end** (`Log4espp`): the compile-time level cascade, the run-time level parsed from `LOG4ESPP`, and the `*_ON` threshold tests.

The code is modelled in the form it has in the source. Classes whose
fields the source updates in place become Dafny classes with `modifies`
clauses, and loops stay loops with invariants. Each such method is proved
against a specification function, for example:

- `RebuildFrom` specifies the rebuild;
- `Registered` specifies the multimap insert;
- `ExchangeModel` and `HaloModel` specify the halo exchange;
- `RestartFlagAfter` and `ActionAt` specify the restart logic;
- `LevelNamed` specifies the level parsing.

The properties the source promises are proved about those functions.

Things the model receives as parameters:

- The storage's `lookupAdrATParticle` is a function from id to an optional particle, passed to each call.
- The node grid's rank mapping is a function `rankOf`.
- Each node's share of lattice sites is a parameter.
- The buffers received from neighbouring nodes in the halo exchange are a parameter.
- Elapsed-time readings are a parameter.
- The value of the `LOG4ESPP` environment variable is a parameter.

Modules, one per file: `Wrappers` (Option, Result), `Particles`,
`ParticleStorage`, `FixedPairListAdress`, `LBModel`, `LBLattice`,
`LBIntegrator`, `Log4espp`.

Where the code and its documentation differ, the model follows the code:

- The rebuild of the pair list appends a null pair for an id it cannot resolve. It does not stop with an integrity error.
- `add` accepts a pair that is already registered. The duplicate scan at src/FixedPairListAdress.cpp:72-76 has an empty body.
- The default logger starts at level 2 (ERROR), although the message printed when `LOG4ESPP` is unset says it takes WARN.
- The TRACE message macro prints the prefix `DEBUG: `.

## Model

| member | source | states |
|---|---|---|
| FixedPairListAdress.CanonicalIsUnordered | src/FixedPairListAdress.cpp:46-47 | both argument orders give the same entry, with the smaller id first and exactly the two ids |
| FixedPairListAdress.LowerBound | src/FixedPairListAdress.cpp:63-65 | the first position whose key is not below the given key |
| FixedPairListAdress.UpperBound | src/FixedPairListAdress.cpp:63-69 | the first position whose key is above the given key, never before the lower bound |
| FixedPairListAdress.RegisteredKeepsOrder | src/FixedPairListAdress.cpp:66-78 | inserting at the hint `lower_bound(min)` keeps the multimap sorted by key |
| FixedPairListAdress.RegisteredKeepsCanonical | src/FixedPairListAdress.cpp:46-47 | after the insert, every entry still stores its smaller id first |
| FixedPairListAdress.RegisteredAddsOne | src/FixedPairListAdress.cpp:63-79 | the multimap gains exactly one copy of the entry, whether or not it was already present |
| FixedPairListAdress.RegisteredFrontOfGroup | src/FixedPairListAdress.cpp:78 | the hinted insert places the new entry first among the entries that share its key |
| FixedPairListAdress.RepeatedAddDuplicates | src/FixedPairListAdress.cpp:72-78 | `add(x,y)` followed by `add(y,x)` leaves two more copies of `(min,max)`: duplicates are not rejected |
| FixedPairListAdress.RebuildFrom | src/FixedPairListAdress.cpp:94-112 | the rebuild gives exactly one pair per multimap entry |
| FixedPairListAdress.RebuildSecondsFresh | src/FixedPairListAdress.cpp:105-108 | the second particle of every rebuilt pair is looked up afresh |
| FixedPairListAdress.CacheIsTransparent | src/FixedPairListAdress.cpp:90-103 | with a stable lookup, the `lastpid1` cache gives the same list as looking up both ids of every entry |
| FixedPairListAdress.RebuiltResolvesBoth | src/FixedPairListAdress.cpp:97-111 | a rebuilt pair holds two particles exactly when both of its ids resolve |
| FixedPairListAdress.RebuiltAppend | src/FixedPairListAdress.cpp:94-112 | the uncached rebuild of a concatenation is the concatenation of the rebuilds |
| FixedPairListAdress.AddKeepsCacheConsistent | src/FixedPairListAdress.cpp:59-78 | a successful add keeps the local list a permutation of what a rebuild would give |
| FixedPairListAdress.RebuiltAdvance | src/FixedPairListAdress.cpp:94-112 | one pass of the rebuild loop keeps the loop invariant |
| FixedPairListAdress.SilentIffAllResolve | src/FixedPairListAdress.cpp:97-108 | the rebuild prints nothing exactly when both ids of every entry resolve |
| FixedPairListAdress.UnresolvedPartnerKept | src/FixedPairListAdress.cpp:99-111 | with one unresolvable id, the rebuild still keeps all three pairs: the null one in place, with a single message about that id |
| FixedPairListAdress.FixedPairListAdress.constructor | src/FixedPairListAdress.cpp:19-32 | empty local list and empty multimap; signals connected |
| FixedPairListAdress.FixedPairListAdress.Disconnect | src/FixedPairListAdress.cpp:34-41 | the signals are disconnected and the multimap is untouched |
| FixedPairListAdress.FixedPairListAdress.Add | src/FixedPairListAdress.cpp:44-82 | succeeds iff both canonical ids resolve; on success appends the resolved pair locally and inserts `(min,max)` at `lower_bound(min)`; on failure changes nothing; keeps the multimap sorted and canonical |
| FixedPairListAdress.FixedPairListAdress.OnParticlesChanged | src/FixedPairListAdress.cpp:85-114 | the local list becomes the cached rebuild of the multimap, and the printed messages are those for the failed lookups |
| FixedPairListAdress.RebuildTwice | src/FixedPairListAdress.cpp:85-114 | two rebuilds with the same lookup give identical lists |
| Particles.ParticlePosition.CopyShifted | src/Particle.hpp:29-33 | `dst.p[i] = p[i] + shift[i]` for all three components; the source is unchanged unless it is `dst` |
| Particles.ParticleForce.AddAssign | src/Particle.hpp:51-56 | adds `g` componentwise; `g` is unchanged unless it is this force |
| Particles.Particle.constructor | src/Particle.hpp:105-110 | momentum is zero and type is 0 |
| Particles.Particle.Init | src/Particle.hpp:107-110 | zero momentum and type 0; id and local data are unchanged |
| Particles.Particle.State | src/Particle.hpp:113-118 | every serialised field, with three-component vectors |
| Particles.RealsRoundTrip | src/Particle.hpp:113-118 | decoding encoded reals gives them back, with the rest of the archive |
| Particles.IntsRoundTrip | src/Particle.hpp:89-95 | decoding encoded ints gives them back, with the rest of the archive |
| Particles.RoundTrip | src/Particle.hpp:89-95 | loading what `serialize` saved (`p, r, m, f, l` in order, `l` with `i`, ghost and bondList) gives back the same particle and the rest of the archive |
| Particles.MigrationKeepsBondList | src/Particle.hpp:89-95 | a migrating particle keeps its bond-index list |
| Particles.PairList.Add | src/Particle.hpp:141-142 | appends exactly `ParticlePair(p1,p2)` and leaves earlier entries unchanged |
| Particles.PairList.AddRefs | src/Particle.hpp:144-145 | the reference overload appends the same pair as the pointer overload |
| ParticleStorage.DefaultId | src/particles/Storage.hpp:49 | the default id is invalid |
| ParticleStorage.ToSize | src/particles/Storage.hpp:51-53 | converting an id back to `size_t` gives the value it was made from |
| ParticleStorage.Delegate | src/particles/Storage.hpp:119-143 | the column container's lookup: `NoSuchProperty` for a missing column, `range_error` for an array view of another dimension than the column's, and otherwise a handle of the requested type and kind |
| ParticleStorage.Storage.constructor | src/particles/Storage.hpp:61 | an empty store holding only the id column; no id issued yet |
| ParticleStorage.Storage.GetParticleID | src/particles/Storage.hpp:84-86 | the id at a reference's row is valid and no larger than the counter |
| ParticleStorage.Storage.GetParticleByID | src/particles/Storage.hpp:88-98 | finds a row holding the id, or reports that no row holds it |
| ParticleStorage.Storage.IdsIdentify | src/particles/Storage.hpp:84-86 | two references carry the same id iff they are the same reference |
| ParticleStorage.Storage.LookupFindsReference | src/particles/Storage.hpp:84-98 | looking a reference's id up again finds that reference |
| ParticleStorage.Storage.DefaultIdNamesNothing | src/particles/Storage.hpp:49 | the invalid id names no particle |
| ParticleStorage.Storage.GetProperty | src/particles/Storage.hpp:113-120 | fails with `out_of_range` for the id column, and otherwise delegates |
| ParticleStorage.Storage.GetPropertyConst | src/particles/Storage.hpp:122-125 | read-only access succeeds iff the column exists, the id column included |
| ParticleStorage.Storage.GetVarArrayProperty | src/particles/Storage.hpp:130-137 | the same id-column guard for writable array access; other columns are delegated with the requested dimension |
| ParticleStorage.Storage.GetArrayProperty | src/particles/Storage.hpp:138-144 | read-only array access succeeds iff the column exists and has the requested dimension; a dimension mismatch is a `range_error` |
| ParticleStorage.Storage.GetIDProperty | src/particles/Storage.hpp:147-149 | always a read-only scalar handle to the id column, typed `ParticleId` |
| ParticleStorage.Storage.OnlyIdColumnGuarded | src/particles/Storage.hpp:113-149 | every column can be read as a scalar; array views succeed iff the dimension matches; of the existing columns, exactly the id column is refused with `out_of_range` by both writable accessors |
| ParticleStorage.Storage.AddProperty | src/particles/Storage.hpp:151-157 | a new column of type `T` under an unused id, with the given dimension (1 by default) and one row per particle; other columns unchanged |
| ParticleStorage.Storage.AddParticle | src/particles/Storage.hpp:68-73 | issues the next id and appends a row to every column; returns the new row; every particle stored before is still found by its id |
| ParticleStorage.FindRow | src/particles/Storage.hpp:88-98 | the first matching row from a start position, or none in the rest |
| LBModel.VelocitiesAreD3Q19 | src/integrator/LatticeBoltzmann.cpp:348-357 | 19 distinct velocities; `c_0` rests and every other one moves one step in each coordinate at most |
| LBModel.VelocitiesPairUp | src/integrator/LatticeBoltzmann.cpp:348-357 | `c_{2n} = -c_{2n-1}` for n = 1..9 |
| LBModel.HaloSetsMatchVelocities | src/integrator/LatticeBoltzmann.cpp:1295-1331 | each halo set of five holds exactly the populations whose velocity is +1 (sent right) or -1 (sent left) along the axis |
| LBModel.NeighbourWrap | src/integrator/LatticeBoltzmann.cpp:1221-1237 | the left and right wraps are `(pos ∓ 1) mod n`, stay on the grid and undo each other |
| LBModel.CRem | src/integrator/LatticeBoltzmann.cpp:463 | C++ `%` truncates towards zero and agrees with the Euclidean remainder for non-negative operands |
| LBModel.CRemZeroIff | src/integrator/LatticeBoltzmann.cpp:463-475 | the truncating and the Euclidean remainder are zero for the same operands |
| LBModel.DivModUnique | src/integrator/LatticeBoltzmann.cpp:463-475 | a quotient and remainder in range are the Euclidean ones |
| LBModel.DueIffMultiple | src/integrator/LatticeBoltzmann.cpp:475 | a collision is due exactly at multiples of `abs(nSteps)` |
| LBModel.ShiftedMultiple | src/integrator/LatticeBoltzmann.cpp:475 | a multiple shifted by a multiple is again a multiple |
| LBModel.NoMultipleBetween | src/integrator/LatticeBoltzmann.cpp:475 | no multiple lies strictly between two consecutive ones |
| LBModel.CollisionSpacing | src/integrator/LatticeBoltzmann.cpp:475-478 | collisions are `abs(nSteps)` steps apart, with none in between |
| LBModel.ProfileDueIffNonzeroMultiple | src/integrator/LatticeBoltzmann.cpp:463 | for every step and every nonzero `profStep`, the timers restart iff the step is a nonzero multiple of `abs(profStep)` |
| LBModel.RestartFlagAfter | src/integrator/LatticeBoltzmann.cpp:799-827 | the flag becomes 0 at step 0, and on a coupled restart with flag 1; otherwise it is unchanged |
| LBModel.ActionAt | src/integrator/LatticeBoltzmann.cpp:801-827 | drift removal iff step 0 with coupling on; a file read iff step ≠ 0, coupling on and flag 1; the buffer otherwise |
| LBModel.RestartReadsFileAtMostOnce | src/integrator/LatticeBoltzmann.cpp:822-824 | over any sequence of steps, the coupling forces are read from file at most once, and never when the flag starts at 0 |
| LBLattice.SiteOfCoords | src/integrator/LatticeBoltzmann.cpp:1295-1331 | a site's plane, inner and outer coordinates name it again |
| LBLattice.SlotInRange | src/integrator/LatticeBoltzmann.cpp:1297-1305 | every buffer index `5*(k*myNi[1]+j)+q` of a plane site lies inside the buffer of `5*myNi[1]*myNi[2]` values |
| LBLattice.SlotBefore | src/integrator/LatticeBoltzmann.cpp:1297-1305 | sites the loops visit earlier have smaller buffer indices |
| LBLattice.IndexOf | src/integrator/LatticeBoltzmann.cpp:1299-1303 | the position of a population within its five-population set |
| LBLattice.LatticeEq | src/integrator/LatticeBoltzmann.cpp:308-334 | two lattices of the same shape that agree on every population are equal |
| LBLattice.Snapshot | src/integrator/LatticeBoltzmann.cpp:308-334 | the lattice value has the array's shape and contents |
| LBLattice.ExchangeModel | src/integrator/LatticeBoltzmann.cpp:1295-1331 | the lattice after one plane exchange: the five populations of the receiving plane replaced, all else as before |
| LBLattice.LocalExchangeCopiesPlane | src/integrator/LatticeBoltzmann.cpp:1316-1331 | on a single node, the exchange copies the sending plane's five populations onto the receiving plane, site by site |
| LBLattice.ExchangeFrame | src/integrator/LatticeBoltzmann.cpp:1320-1331 | an exchange changes only its five populations on its receiving plane |
| LBLattice.PackSite | src/integrator/LatticeBoltzmann.cpp:1299-1303 | writes the five populations of one site into its five buffer slots and nothing else |
| LBLattice.PackRow | src/integrator/LatticeBoltzmann.cpp:1298-1304 | one row of the sending plane is written to its buffer slots, and the slots of earlier rows are unchanged |
| LBLattice.PackPlane | src/integrator/LatticeBoltzmann.cpp:1295-1305 | the buffer holds population `pops[q]` of site `(u,w)` of the sending plane at slot `5*(w*inner+u)+q` |
| LBLattice.UnpackSite | src/integrator/LatticeBoltzmann.cpp:1324-1328 | writes the five populations of one site from the buffer; other sites and populations are unchanged |
| LBLattice.UnpackRow | src/integrator/LatticeBoltzmann.cpp:1323-1329 | one row of the receiving plane is written from the buffer; other rows are unchanged |
| LBLattice.UnpackPlane | src/integrator/LatticeBoltzmann.cpp:1320-1331 | every site of the receiving plane gets its five populations from its buffer slots; nothing else changes |
| LBLattice.ExchangePlane | src/integrator/LatticeBoltzmann.cpp:1295-1331 | the sent buffer is packed from the sending plane, and the new lattice is `ExchangeModel` of the old one |
| LBIntegrator.WithCoord | src/integrator/LatticeBoltzmann.cpp:1224-1230 | the position with one coordinate replaced and the others kept |
| LBIntegrator.NeighboursAreMutual | src/integrator/LatticeBoltzmann.cpp:1221-1237 | neighbour positions are on the grid and mutual, and along a single-node dimension both neighbours are the node itself |
| LBIntegrator.StageArgs | src/integrator/LatticeBoltzmann.cpp:1271-1564 | every one of the six stages exchanges a valid population set between planes inside the lattice |
| LBIntegrator.StageModel | src/integrator/LatticeBoltzmann.cpp:1271-1564 | one stage of the halo exchange keeps the lattice's shape |
| LBIntegrator.HaloModel | src/integrator/LatticeBoltzmann.cpp:1271-1564 | the six stages in order keep the lattice's shape |
| LBIntegrator.FirstStageOnSingleNode | src/integrator/LatticeBoltzmann.cpp:1295-1331 | with one node along x, the first stage is the local copy of plane `n.0 - offset` onto plane `offset` |
| LBIntegrator.SingleNodeXIsPeriodic | src/integrator/LatticeBoltzmann.cpp:1295-1331 | on a single node, after the first stage, plane `offset` holds plane `myNi[0]-offset`'s +x populations |
| LBIntegrator.HaloKeepsResting | src/integrator/LatticeBoltzmann.cpp:1271-1564 | the halo exchange never touches the resting population 0 |
| LBIntegrator.RealVelocitiesAreTable | src/integrator/LatticeBoltzmann.cpp:348-357 | the real `c_i` values written are the integer velocity table |
| LBIntegrator.LatticeBoltzmann.constructor | src/integrator/LatticeBoltzmann.cpp:49-123 | the flags and defaults; `fOnPart` has `totNPart+1` zero entries; coupling is on iff there are particles, with friction 5; halo 1; neighbours, sizes, velocity table; zero timers |
| LBIntegrator.LatticeBoltzmann.FindMyNeighbours | src/integrator/LatticeBoltzmann.cpp:1210-1242 | `myNeigh[2d]` and `myNeigh[2d+1]` are the ranks of the wrapped left and right neighbours along every dimension |
| LBIntegrator.LatticeBoltzmann.SetCi | src/integrator/LatticeBoltzmann.cpp:186 | sets the velocity of one population and leaves the rest |
| LBIntegrator.LatticeBoltzmann.InitLatticeModel | src/integrator/LatticeBoltzmann.cpp:348-357 | the first 19 velocities are the D3Q19 table |
| LBIntegrator.LatticeBoltzmann.Streaming | src/integrator/LatticeBoltzmann.cpp:581-612 | population `l` of site (i,j,k) goes to `ghostlat` at (i,j,k)+c_l, population 0 stays in place, and nothing else of `ghostlat` changes |
| LBIntegrator.LatticeBoltzmann.StreamResting | src/integrator/LatticeBoltzmann.cpp:589 | population 0 stays in place and nothing else changes |
| LBIntegrator.LatticeBoltzmann.StreamNearest | src/integrator/LatticeBoltzmann.cpp:592-597 | populations 1-6 move to the six nearest neighbours |
| LBIntegrator.LatticeBoltzmann.StreamDiagonalsXY | src/integrator/LatticeBoltzmann.cpp:600-603 | populations 7-10 move diagonally in the xy plane |
| LBIntegrator.LatticeBoltzmann.StreamDiagonalsXZ | src/integrator/LatticeBoltzmann.cpp:604-607 | populations 11-14 move diagonally in the xz plane |
| LBIntegrator.LatticeBoltzmann.StreamDiagonalsYZ | src/integrator/LatticeBoltzmann.cpp:608-611 | populations 15-18 move diagonally in the yz plane |
| LBIntegrator.LatticeBoltzmann.HaloStage | src/integrator/LatticeBoltzmann.cpp:1295-1331 | one stage: the lattice follows `StageModel` and the sent buffer is packed from the sending plane |
| LBIntegrator.LatticeBoltzmann.CommHalo | src/integrator/LatticeBoltzmann.cpp:1271-1564 | the lattice after the six stages is `HaloModel`, and every sent buffer is packed from the lattice as it was at its stage |
| LBIntegrator.LatticeBoltzmann.SwapLattices | src/integrator/LatticeBoltzmann.cpp:551-555 | `lbfluid` and `ghostlat` trade places and nothing else changes |
| LBIntegrator.LatticeBoltzmann.CollideStream | src/integrator/LatticeBoltzmann.cpp:532-555 | the sweep's time, the halo exchange, then the swap: the new `lbfluid` holds the exchanged lattice, and each of `time_colstr`, `time_comm` and `time_sw` grows by its own clock reading |
| LBIntegrator.LatticeBoltzmann.BeginStep | src/integrator/LatticeBoltzmann.cpp:452-473 | records the step; coupling turns the external force on; the timers restart to 0 exactly when the step is a nonzero multiple of `profStep`, otherwise they are kept; lattices and settings are unchanged, and `fOnPart` too when coupling is off |
| LBIntegrator.LatticeBoltzmann.MakeLBStep | src/integrator/LatticeBoltzmann.cpp:452-479 | records the step; coupling turns the external force on; timers reset iff the step is a nonzero multiple of `profStep`, before collide-and-stream, which runs iff the step is a multiple of `nSteps` and then adds the sweep, exchange and swap times to the three timers (to 0 after a restart); every other field is unchanged, and `fOnPart` too when coupling is off |
| LBIntegrator.LatticeBoltzmann.ZeroMDCMVel | src/integrator/LatticeBoltzmann.cpp:793-828 | copies the time step and the step; the restart flag and the action follow `RestartFlagAfter` and `ActionAt`; the lattices, timers and other fields are unchanged, and `fOnPart` too unless forces are read from file; the invariant is kept |
| LBIntegrator.AssignedSites | src/integrator/LatticeBoltzmann.cpp:1247-1266 | each simulated dimension gets its share plus a halo on both sides; the others get 0 |
| LBIntegrator.SwapTwice | src/integrator/LatticeBoltzmann.cpp:551-555 | two swaps restore the original lattices |
| LBIntegrator.Create | src/integrator/LatticeBoltzmann.cpp:73-75 | construction fails iff the system has no RNG; otherwise the integrator is valid with restart flag 1 |
| Log4espp.CascadeEnablesMoreSevere | src/cpp/log4espp.hpp:33-94 | the most verbose level macro defined enables exactly that level and the more severe ones |
| Log4espp.NoLevelEnablesAll | src/cpp/log4espp.hpp:96-104 | with no level macro defined, all six levels are enabled |
| Log4espp.LevelNamed | src/cpp/log4espp.hpp:398-404 | the level whose name matches the value's first three letters, regardless of case, if any |
| Log4espp.NamesAreDistinct | src/cpp/log4espp.hpp:398-404 | a value matches at most one of the seven names |
| Log4espp.EachNameSelectsOnlyItsLevel | src/cpp/log4espp.hpp:398-404 | each of the seven comparisons succeeds exactly for the level the value names, so their order does not matter |
| Log4espp.NameSelectsLevel | src/cpp/log4espp.hpp:398-404 | each level's own name, in any case, selects that level |
| Log4espp.LogClass.constructor | src/cpp/log4espp.hpp:391 | the level starts at 2 (ERROR) |
| Log4espp.LogClass.OnIsMonotone | src/cpp/log4espp.hpp:417-422 | if a level is on, every more severe level is on |
| Log4espp.LogClass.Configure | src/cpp/log4espp.hpp:393-407 | a recognised value sets its level's threshold (TRACE 6 … OFF 0); an unset or unrecognised value leaves the level unchanged; prints the lines shown |
| Log4espp.LogClass.Message | src/cpp/log4espp.hpp:428-488 | a message is written iff its macro is compiled in and its level is on, with the level's prefix |
| Log4espp.MessageNeedsBothThresholds | src/cpp/log4espp.hpp:33-104 | a message is written iff its level is no more verbose than both the most verbose level macro defined and the run-time level |
| Log4espp.ConfiguredLevelIsOn | src/cpp/log4espp.hpp:417-422 | at a level's threshold, exactly that level and the more severe ones are on |

## Left out

- `Storage::deleteParticle`, `eraseProperty`, `foreach` and `fillWithLattice`: only declared in src/particles/Storage.hpp; Storage.cpp and `TupleVector` are not part of this model.
- ParticleStorage.Storage.AddParticle: the body of `addParticle` is not in the header. The model issues ids from 1 with the `uniqueID` counter, appends the new row after the others and fills its other columns with zeros. This is a modelling choice. That earlier rows keep their positions is a property of this choice only. The header promises only that ids persist and calls references temporary.
- ParticleStorage.Delegate: the column container is not part of this model, so its treatment of the element type `T` is not shown. The model hands out a handle typed `T` without checking it against the column's type. The dimension an array view asks for, which the container derives from `T`, is a parameter. Values of every type are modelled as integers.
- Particle arithmetic: components are reals, so rounding is not modelled. For this reason no algebraic law of `+=` or `copyShifted` is claimed for the program.
- ParticleStorage.Storage.GetParticleByID: the scan of the id column stands in for the storage's lookup, which is not shown.
- Boost.Serialization mechanics: an archive is modelled as a sequence of tokens in field order, with a `std::vector` written as its length and then its elements.
- Boost.Signals glue: connecting and disconnecting is a `connected` flag.
- FixedPairListAdress.FixedPairListAdress.OnParticlesChanged: `p1` starts as null. In the source it is uninitialised and would be read if a key were the sentinel `-1`. Particle ids are never `-1`, and `CacheIsTransparent` assumes this.
- The floating-point physics of the lattice-Boltzmann integrator is left out, because it is floating point:
  - the population updates of the collision sweep of `collideStream` (lines 533-542; its timing at lines 532 and 543 is modelled) and the coupling-force recomputation after the swap;
  - `calcViscForce`, `calcRandForce`, `initFluctuations` and the `setVisc*` and `setGamma*` setters;
  - equilibrium weights and unit conversions.
- LBIntegrator.LatticeBoltzmann.CollideStream: of the sweep it models only the time it adds to `time_colstr`; the lattice effects it states are those of the halo exchange and the pointer swap. So the halo exchange is stated on `ghostlat` as it was before the sweep, and the old `lbfluid` is stated unchanged, which the program's collision step does not keep (it rewrites `lbfluid` at line 537, and `streaming` writes `ghostlat` at line 539). The same holds for the lattice clauses of `MakeLBStep`.
- LBIntegrator.LatticeBoltzmann.MakeLBStep: `makeDecompose` and the force computation of `coupleLBtoMD` are left out (MPI and floating point). Only `setExtForceFlag(1)` is modelled. The timer printout is left out. When coupling is on, `coupleLBtoMD` rewrites `fOnPart`, so the model states nothing about `fOnPart` in that case.
- LBIntegrator.LatticeBoltzmann.BeginStep: `coupleLBtoMD` (line 460) is not modelled. When coupling is on it rewrites `fOnPart` through `calcRandForce` and `calcViscForce` (lines 642 and 698), so the model states `fOnPart` unchanged only when coupling is off.
- LBIntegrator.LatticeBoltzmann.MakeLBStep: requires `nSteps != 0` and `profStep != 0`. `setNSteps` and `setProfStep` (lines 250 and 292) accept 0, and then the source divides by zero at lines 463 and 475. The model does not represent that undefined behaviour.
- LBIntegrator.LatticeBoltzmann.CommHalo: MPI transport is left out. What a neighbour sends for each stage is a parameter. The even/odd ordering of `send` and `recv`, which only avoids deadlock, is not modelled.
- LBIntegrator.LatticeBoltzmann.ZeroMDCMVel: `findCMVelMD`, `galileanTransf` and `readCouplForces` are returned as an action value, not performed (MPI, floating point and file I/O). `readCouplForces(1)` sets `fOnPart` from the restart file, so the model states nothing about `fOnPart` when the action is `ForcesFromFile`.
- LBIntegrator.HaloArgs: requires every local extent to hold two halos. With fewer than three simulated dimensions the unsimulated extents are 0, so `CommHalo` is not modelled for such runs. In the source, the z stage of `commHalo` then uses plane `myNi[2] - haloSkin = -1` (line 1481).
- LBIntegrator.LatticeBoltzmann.FindMyNeighbours: `esutil::Grid`'s position-to-rank mapping is the parameter `rankOf`. `myPos` is a constructor parameter instead of being derived from the rank.
- LBIntegrator.LatticeBoltzmann.constructor: `assignMyLattice` floors a real box size. The model takes each node's resulting share as `localSites`. The initial populations of the sites are left unspecified.
- The file I/O of `readCouplForces`, `readPops`, `saveCouplForces` and `savePops`.
- The per-field setters of the integrator other than `setCi`: each only assigns one field.
- Timer readings: elapsed times come in as parameters.
- Log4espp.CaseEq3: values are C strings with no NUL inside. A shorter value never matches, because `strncasecmp` stops at its terminator.
- The log4cpp and log4cxx back ends of log4espp.hpp: they wrap external libraries.
- FixedPairListAdress.FixedPairListAdress.OnParticlesChanged: the `LOG4ESPP_INFO` messages of the constructor, the destructor, `add` and `onParticlesChanged` (src/FixedPairListAdress.cpp lines 23, 36, 80, 87 and 113) are not modelled. `Log4espp` models what such a message writes.
- FixedPairListAdress.FixedPairListAdress.OnParticlesChanged: the error lines print a `longint` id with `%d` (lines 100 and 107), whose output C leaves undefined. The model's `Missing` reports carry the exact id.
