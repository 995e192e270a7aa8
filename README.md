# Halo bookkeeping of a 3-D patch and the scalar diagnostic of Smilei

This project models two parts of the particle-in-cell code Smilei in Dafny and
proves properties of the model.

**1. `Patch3D`**, the halo bookkeeping of one 3-D patch of the domain
decomposition:

- the neighbour table `initStep2` builds, one step down and one step up each
  axis, wrapping on a periodic axis (module `Topology`, `Patch.Patch3D.InitStep2`);
- the MPI derived datatypes `createType`/`createType2` commit for every axis and
  staggering, as `(count, blocklen, stride)` values over a flat field stored
  row-major with x slowest (modules `Views`, `Patch`);
- the exchange protocol `initExchange(field, iDim)`, and the two halves of the
  reduction protocol, `initSumField` and `finalizeSumField`
  (modules `Halo`, `Patch`). For each, the model gives:
  - where its slabs start and how wide they are;
  - which tag code the field gets;
  - which sends and receives it posts;
  - for the reduction, the in-place accumulation of the received scratch
    buffers into the field (module `Accumulate`, on an `array`);
- the lifecycle guards: scratch buffers, request tables and tags are set up on
  first use only, and `createType`/`cleanType` cannot run twice.

**2. `DiagnosticScalar`**, the bookkeeping around the scalar diagnostic
(modules `Extrema`, `Scalars`):

- the per-field minimum/maximum scan over the patch's box, as three nested
  loops (z outermost). Line 160 of `DiagnosticScalar.cpp` writes
  `minVal.index` in the branch that updates `maxVal`; the model follows the
  code and proves the consequences:
  - the maximum's index stays 0;
  - the minimum's index is the cell of the last step that changed either
    extreme.
- the construction of `out_list`:
  - it is cleared first;
  - species entries, field energies, extrema and Poynting fluxes are pushed;
  - on the master, six entries are inserted at the front;
- `getScalar`, a first-match lookup that yields 0.0 when no key matches;
- `run`'s scheduling.

`run` stores `getScalar("E_tot")` as `Energy_time_zero`. The list's keys are
`"E_" + species name` and `"Etot"`, so that lookup finds an entry only when a
species is named `tot`. Otherwise the energy reference is 0.0
(`Scalars.EtotOnlyFromTot`).

What the model does not compute is taken as a parameter:
- the MPI transport; a completed receive is modelled as "the slab or buffer now
  holds a given sequence";
- `getDomainId`, `is_a_MPI_neighbor` and the `MPI_MINLOC`/`MPI_MAXLOC`
  reductions;
- the floating-point sums (field energies, charges, Poynting fluxes).

## Model

| member | source | states |
|---|---|---|
| Topology.NeighborCall | src/Patch/Patch3D.cpp:80-113 | the `xcall` vector of a lookup equals the patch coordinates except on the stepped axis, which holds the neighbour coordinate |
| Topology.PeriodicNeighborWraps | src/Patch/Patch3D.cpp:80-113 | on a periodic axis with 0 <= c < n the lower neighbour is (c-1) mod n, the upper (c+1) mod n, and both lie in [0, n) |
| Topology.SinglePatchIsOwnNeighbor | src/Patch/Patch3D.cpp:80-113 | with one patch on a periodic axis both neighbour coordinates equal the patch's own |
| Topology.OpenNeighborPassesThrough | src/Patch/Patch3D.cpp:80-113 | off a periodic axis the out-of-range values c-1 and c+1 (so -1 and n) are passed through unchanged |
| Topology.NeighborStepsInvert | src/Patch/Patch3D.cpp:80-113 | stepping down then up (or up then down) returns to the start coordinate |
| Topology.UpperWalkAdvances | src/Patch/Patch3D.cpp:86-89 | m upper-neighbour steps on a periodic axis advance the coordinate by m modulo n |
| Topology.UpperStepMod | src/Patch/Patch3D.cpp:86-89 | one upper step from p mod n reaches (p+1) mod n |
| Topology.PeriodicClosure | src/Patch/Patch3D.cpp:86-89 | n upper steps along a periodic axis of n patches come back to the starting patch |
| Views.SlabViewSize | src/Patch/Patch3D.cpp:556-590 | each committed view transfers exactly as many doubles as its slab has cells |
| Views.SlabCoordInSlab | src/Patch/Patch3D.cpp:556-590 | the q-th slab position decodes to a cell of the slab, and of the field when the slab fits |
| Views.SlabCoordOnto | src/Patch/Patch3D.cpp:556-590 | every slab cell is decoded from exactly its own row-major slab position |
| Views.CoversAlongX | src/Patch/Patch3D.cpp:558-559 | `contiguous(t*ny*nz)` at the slab's first cell reaches the q-th slab cell of an x-slab as its q-th element |
| Views.CoversAlongY | src/Patch/Patch3D.cpp:563-564 | `vector(nx, t*nz, ny*nz)` reaches the q-th slab cell of a y-slab as its q-th element |
| Views.CoversAlongZ | src/Patch/Patch3D.cpp:568-569 | `vector(nx*ny, t, nz)` reaches the q-th slab cell of a z-slab as its q-th element |
| Views.SlabViewCoversSlab | src/Patch/Patch3D.cpp:556-590 | coverage: the q-th element of a slab view, posted at the slab's first cell, is the flat position of the q-th slab cell in row-major order |
| Views.SlabViewInField | src/Patch/Patch3D.cpp:419-425 | a slab view posted at a slab inside the field reads only positions inside the field |
| Views.GatherSlab | src/Patch/Patch3D.cpp:424-425 | what a send of a slab view transfers is the slab's cell values in row-major order |
| Views.ReceiveThroughView | src/Patch/Patch3D.cpp:429-437 | the q-th double of a completed slab receive lands at the receive start plus the view's q-th displacement, inside the field |
| Views.ExchangeRoundTrip | src/Patch/Patch3D.cpp:415-441 | after a completed exchange each receiver slab cell holds the sender's value shifted along the axis, and every other cell is unchanged |
| Halo.SumWidthsAgree | src/Patch/Patch3D.cpp:170-180 | initSumField and finalizeSumField (lines 234-240) both compute width 2*oversize+1+isDual on every axis the field has; initSumField keeps the plain margin on missing axes |
| Halo.ExchangeStarts | src/Patch/Patch3D.cpp:415-437 | the lower send starts at oversize+1+isDual, the upper at n-(2*oversize+1+isDual); the lower receive at 0 and the upper at n-oversize |
| Halo.ExchangeSlabsFit | src/Patch/Patch3D.cpp:415-437 | with n >= 2*oversize+1+isDual, every exchange slab lies in [0, n), and each direction's send and receive slabs are disjoint |
| Halo.DisjointSlabs | src/Patch/Patch3D.cpp:415-437 | slabs over disjoint intervals of the same axis share no cell |
| Halo.SumExtentAsComputed | src/Patch/Patch3D.cpp:262-267 | `tmp`, computed with the selector vector, is the reduction width along iDim and the field extent along the other axes |
| Halo.SumRegionsMatch | src/Patch/Patch3D.cpp:272-282 | the buffer received from a neighbour is added into exactly the slab this patch sent to it (line 197): at 0 below, at n-oversize2 above; iteration 1 accumulates at 0 and iteration 0 at n-oversize2 (line 274) |
| Halo.SumSlabsFit | src/Patch/Patch3D.cpp:197 | with n >= oversize2 both reduction slabs lie inside [0, n) |
| Halo.SumBoxWithin | src/Patch/Patch3D.cpp:262-282 | each accumulation box lies inside the field and has the extent of the reduction slab |
| Halo.TagCodesDistinct | src/Patch/Patch3D.cpp:151-155 | names map to codes Jx 1, Jy 2, Jz 3, Rho 4 for sums (and Bx 6, By 7, Bz 8 for exchanges, lines 394-397), every other name to 0; named fields get distinct codes, and the two protocols share no non-zero code |
| Halo.ExchangePostsCorrect | src/Patch/Patch3D.cpp:415-441 | a send to a direction and a receive from it are posted exactly when that neighbour is on another process, each at its slab start with the matching send or receive tag, and nothing else is posted |
| Halo.SumPostsCorrect | src/Patch/Patch3D.cpp:194-213 | a reduction send to a direction, and a receive of that neighbour's whole scratch buffer, are posted exactly when it is on another process, with the matching tags, and nothing else is posted |
| Accumulate.AccumulateBox | src/Patch/Patch3D.cpp:279-284 | the in-place triple loop leaves the field equal to the old field plus the buffer added over the box |
| Accumulate.AccumulateStep | src/Patch/Patch3D.cpp:282 | one `+=` at box cell c adds buffer element BoxLinear(c) at the cell's flat position and extends the partial sum by one step |
| Accumulate.AddBoxInside | src/Patch/Patch3D.cpp:279-284 | every cell of the box gets exactly its own buffer element `buf[ix*tmp1*tmp2 + iy*tmp2 + iz]` added |
| Accumulate.AddBoxOutside | src/Patch/Patch3D.cpp:279-284 | cells outside the box are unchanged |
| Accumulate.EachBufferElementOnce | src/Patch/Patch3D.cpp:282 | each buffer element belongs to exactly one cell of the box, the one of its row-major position |
| Patch.Widths | src/Patch/Patch3D.cpp:234-240 | the three reduction widths are finalizeSumField's `oversize2` |
| Patch.ReducedCell | src/Patch/Patch3D.cpp:262-287 | after finalizeSumField every cell holds its old value plus the contribution of each neighbour on another process; cells in neither slab keep their value |
| Patch.ReducedStep | src/Patch/Patch3D.cpp:272-287 | iteration k-1 adds the buffer of neighbour (k mod 2) into its box when that neighbour is on another process, and otherwise changes nothing |
| Patch.StepCell | src/Patch/Patch3D.cpp:278-285 | one iteration, taken or skipped, at one cell: its buffer element when it is in the box, no change otherwise |
| Patch.SumMessageFitsScratch | src/Patch/Patch3D.cpp:511-528 | the reduction view committed for a staggering carries exactly as many doubles as that field's scratch buffer holds |
| Patch.ExchangeRequests | src/Patch/Patch3D.cpp:415-441 | the posting loop of initExchange posts exactly the exchange posts |
| Patch.SumRequests | src/Patch/Patch3D.cpp:194-213 | the posting loop of initSumField posts exactly the reduction posts |
| Patch.ReduceAxis | src/Patch/Patch3D.cpp:262-287 | the accumulation loop leaves the field equal to the reduced field |
| Patch.ExchangePostedViewsCoverSlabs | src/Patch/Patch3D.cpp:415-441 | with the tables built, the posted exchange handle is the oversize slab view of the field's shape; the receive from a neighbour is posted iff it is on another process; the neighbour's send fills exactly the ghost slab, with its values shifted along the axis, and leaves every other cell alone |
| Patch.ScratchSizedFitsReduction | src/Patch/Patch3D.cpp:148-149 | scratch buffers of the size initSumField allocates satisfy the buffer-size demand of finalizeSumField on every axis |
| Patch.Field3D.AllocateScratch | src/Patch/Patch3D.cpp:149 | `allocate(3, field, oversize)` gives zero scratch buffers of the accumulation-box size and request tables for three axes, leaving the rest of the field alone |
| Patch.Field3D.AllocateRequests | src/Patch/Patch3D.cpp:392 | `allocate(3)` gives request tables for three axes, leaving the rest of the field alone |
| Patch.Field3D.DefineTags | src/Patch/Patch3D.cpp:157 | `defineTags` records the tag code, leaving the rest of the field alone |
| Patch.Patch3D.constructor | src/Patch/Patch3D.cpp:27-41 | the Cartesian branch's loops leave both handle tables null, as InitStep2 does |
| Patch.Patch3D.ClearTables | src/Patch/Patch3D.cpp:115-127 | every exchange and reduction handle becomes MPI_DATATYPE_NULL |
| Patch.Patch3D.InitStep2 | src/Patch/Patch3D.cpp:64-129 | records the coordinates; each `neighbor_[a][d]` is the domain id of the neighbour lookup vector for axis a, direction d; both tables null |
| Patch.Patch3D.LookUpNeighbors | src/Patch/Patch3D.cpp:79-89 | one direction block sets `neighbor_[axis]` to the ids of the coordinates stepped down and up, and changes no other axis |
| Patch.Patch3D.FillTables | src/Patch/Patch3D.cpp:549-594 | after the staggering loops both tables hold the views of the patch shape |
| Patch.Patch3D.FillEntry | src/Patch/Patch3D.cpp:553-591 | the loop body commits the three exchange and three reduction views of one staggering and no other entry changes |
| Patch.Patch3D.CreateType | src/Patch/Patch3D.cpp:536-596 | when the tables are already built nothing changes; otherwise both tables hold the views of shape n_space+1+2*oversize; afterwards entry [0][0][0][0] is non-null, so a second call is a no-op |
| Patch.Patch3D.CreateType2 | src/Patch/Patch3D.cpp:475-534 | as CreateType, for shape n_space*global_factor+1+2*oversize |
| Patch.Patch3D.CleanType | src/Patch/Patch3D.cpp:598-615 | a no-op when entry [0][0][0][0] is null; otherwise every handle is freed to null |
| Patch.Patch3D.InitExchange | src/Patch/Patch3D.cpp:389-444 | request tables and tag (Bx 6, By 7, Bz 8, else 0) set up on first use only; the posts are the exchange posts for the field's staggering |
| Patch.Patch3D.InitSumField | src/Patch/Patch3D.cpp:146-215 | scratch buffers, request tables and tag (Jx 1 … Rho 4, else 0) set up only when the buffer is empty, and sized to the accumulation box whenever it was empty or already of that size; the posts are the reduction posts with width oversize2 |
| Patch.Patch3D.FinalizeSumField | src/Patch/Patch3D.cpp:223-289 | the field becomes the reduced field: each neighbour's scratch buffer is added into the box it was sent from |
| Extrema.ScanBounds | src/DiagnosticScalar.cpp:144-149 | on an axis the field has, the box starts at `istart` and spans `bufsize` cells of a `dims`-long axis, chosen by its staggering; a missing axis gets start 0, end 1, size 1 |
| Extrema.VisitedCells | src/DiagnosticScalar.cpp:150-153 | the cells the loops visit are exactly the linear indices `k + j*nz + i*ny*nz` of the cells in the box |
| Extrema.PlanesCells | src/DiagnosticScalar.cpp:150-153 | the first planes of the visit hold exactly the box cells with k below the plane bound |
| Extrema.StepKeeps | src/DiagnosticScalar.cpp:154-161 | comparisons are strict: a value equal to either extreme changes nothing, so ties keep the earlier value |
| Extrema.ScanExtremes | src/DiagnosticScalar.cpp:141-163 | the running minimum is <= field(0) and every visited value, and equals one of them; likewise for the maximum |
| Extrema.MaxIndexStaysZero | src/DiagnosticScalar.cpp:141-161 | as written, the maximum's index is never updated and stays 0 |
| Extrema.MinIndexIsLastChange | src/DiagnosticScalar.cpp:153-161 | as written, the minimum's index is that of the last cell that strictly lowered the minimum or strictly raised the maximum, or 0 if none did |
| Extrema.ScanField | src/DiagnosticScalar.cpp:139-164 | the triple loop computes the scan of the visited cells; the minimum and maximum bound field(0) and every cell of the box; the maximum's index is 0 |
| Extrema.ScanPlane | src/DiagnosticScalar.cpp:151-163 | the two inner loops extend the scan by one z-plane |
| Extrema.ScanRow | src/DiagnosticScalar.cpp:152-162 | the innermost loop extends the scan by one row |
| Extrema.RowCell | src/DiagnosticScalar.cpp:153 | the linear index of a box cell is `k + j*nz + i*ny*nz`, lies in the field, and the loop body is one scan step |
| Extrema.BoxExtremes | src/DiagnosticScalar.cpp:141-163 | over the box: the minimum and maximum bound field(0) and every box cell, and the maximum's index is 0 |
| Scalars.LookupFirstMatch | src/DiagnosticScalar.cpp:252-260 | the lookup yields the value of the first entry with the key, and 0.0 when no entry has it |
| Scalars.LookupAppend | src/DiagnosticScalar.cpp:252-260 | a key is in a concatenation iff it is in one part; the lookup reads the second part only when the first lacks the key |
| Scalars.EnergyEntries | src/DiagnosticScalar.cpp:121-124 | one `<name>_U` entry per electromagnetic field, in field order |
| Scalars.PoyEntries | src/DiagnosticScalar.cpp:197-201 | one `Poy_<inf/sup>_<x/y/z>` entry per Poynting component, in order |
| Scalars.LocalExtrema | src/DiagnosticScalar.cpp:137-167 | one (min, max) pair per field, in field order, each the scan of that field |
| Scalars.FrontInserts | src/DiagnosticScalar.cpp:215-220 | six insertions at the front leave the last one inserted first |
| Scalars.ComputedList | src/DiagnosticScalar.cpp:49-224 | off the master the list is empty |
| Scalars.ComputedOnMaster | src/DiagnosticScalar.cpp:208-221 | on the master the list is the six header entries followed by the pushed entries |
| Scalars.HeaderFirst | src/DiagnosticScalar.cpp:210-220 | on the master the first six keys are Ebal_norm, Ebalance, Etot, Eparticles, EFields, Poynting, with the balance, total, particle, field and Poynting energies as values |
| Scalars.SpeciesTriple | src/DiagnosticScalar.cpp:75-77 | a species' Z_/E_/N_ entries hold key E_tot iff the species is named tot, with its energy |
| Scalars.SpeciesEtot | src/DiagnosticScalar.cpp:56-80 | the species entries hold E_tot iff some species is named tot; the lookup then finds the first such species' energy |
| Scalars.ExtremaNoEtot | src/DiagnosticScalar.cpp:177-181 | no Min/MinCell/Max/MaxCell key is E_tot |
| Scalars.PoyNoEtot | src/DiagnosticScalar.cpp:199-200 | no Poynting key is E_tot |
| Scalars.EnergyNoEtot | src/DiagnosticScalar.cpp:122 | no `_U` key is E_tot |
| Scalars.NoKeyTail | src/DiagnosticScalar.cpp:252-260 | appending entries without the key leaves the lookup unchanged |
| Scalars.BodyEtot | src/DiagnosticScalar.cpp:55-207 | the pushed entries hold E_tot, and its value, exactly as the species entries do |
| Scalars.EtotOnlyFromTot | src/DiagnosticScalar.cpp:37-40 | the list holds E_tot iff on the master some species is named tot; otherwise the energy reference `getScalar("E_tot")` is 0.0 |
| Scalars.DiagnosticScalar.constructor | src/DiagnosticScalar.cpp:14-26 | records isMaster and every; empty list and log |
| Scalars.DiagnosticScalar.GetScalar | src/DiagnosticScalar.cpp:252-260 | the linear search returns the value of the first entry with the name, and 0.0 when none has it |
| Scalars.DiagnosticScalar.Compute | src/DiagnosticScalar.cpp:49-224 | the list is rebuilt from scratch (no entry of an earlier call survives) as the computed list of the snapshot and the reduced extrema |
| Scalars.DiagnosticScalar.PushSpecies | src/DiagnosticScalar.cpp:55-80 | on the master appends the Z_/E_/N_ entries of each species and returns the particle energy; elsewhere nothing |
| Scalars.DiagnosticScalar.PushEnergies | src/DiagnosticScalar.cpp:96-125 | on the master appends the `_U` entries and returns their total; elsewhere nothing |
| Scalars.DiagnosticScalar.PushExtrema | src/DiagnosticScalar.cpp:173-183 | appends Min, MinCell, Max, MaxCell of each field in order |
| Scalars.DiagnosticScalar.PushFace | src/DiagnosticScalar.cpp:190-206 | on the master appends one face's Poynting entries and adds their total |
| Scalars.DiagnosticScalar.Write | src/DiagnosticScalar.cpp:226-250 | on the master the column names are recorded on the first write and each write appends one line of the time and the values; elsewhere nothing |
| Scalars.DiagnosticScalar.Run | src/DiagnosticScalar.cpp:35-45 | at timestep 0 computes and stores the E_tot lookup (0.0 unless a species is named tot); computes and writes only when every != 0 and timestep % every == 0, with C's truncating remainder |

## Left out

- MPI transport (`MPI_Isend`, `MPI_Irecv`, `MPI_Wait`, `MPI_Reduce`, `MPI_Type_commit`/`MPI_Type_free`, `MPI_COMM_WORLD`): a post is a value naming its peer, view or buffer, start and tag; a completed receive is a given sequence; `MPI_MINLOC`/`MPI_MAXLOC` are the function parameters `minloc`/`maxloc`.
- `getDomainCoordinates`, `getDomainId` and `is_a_MPI_neighbor` are parameters (coordinates, a function, a pair of booleans), because their bodies are not part of this model.
- `MPIbuff.allocate` and `defineTags` are modelled by their effect on the field (buffer sizes, request tables, tag code) because their bodies are not part of this model; `buildtag` and the tag values themselves are left out for the same reason.
- Patch.Field3D.AllocateScratch: `allocate(3, field, oversize)` is taken to size the request tables as well as the scratch buffers, because `Patch3D::initSumField` posts into `srequest`/`rrequest` (Patch3D.cpp lines 194-213) without calling `allocate(3)`. One consequence is visible in the model: a later `initExchange` on the same field finds the request tables non-empty, skips `defineTags` and keeps the reduction tag code (`Patch.Patch3D.InitExchange`, case `old(field.requestAxes) != 0`).
- Field3D's own source (indexing, constructor) is not part of this model; a field is its flat `array<real>` with shape and staggering.
- Patch.Patch3D.constructor: models the Cartesian branch of `Patch3D::Patch3D` (lines 27-41), which nulls both handle tables. The other branch (lines 22-25) and the cloning constructor (lines 51-57) run `initStep2` (modelled as InitStep2, which nulls them too) and then `initStep3` and `finishCreation`/`finishCloning`; these are not part of this model, so the state of the tables when those constructors return is not stated.
- The `_DEBUG` printing is output only.
- Patch.Patch3D.FinalizeSumField: requires the field to be at least oversize2 deep along iDim and each scratch buffer of an MPI neighbour to hold one accumulation box. Both hold for every field the program reduces: its depth is `n_space + 1 + 2*oversize + isDual`, so `n_elem[iDim] - oversize2[iDim]` is `n_space >= 0`, and the buffers are of that size after InitSumField (Patch.ScratchSizedFitsReduction). The excluded case is the unsigned wrap of `n_elem[iDim] - oversize2[iDim]` at Patch3D.cpp line 274, which would index outside the field.
- The all-axes `initExchange(Field*)` and `finalizeExchange(Field*)` (Patch3D.cpp lines 301-382) are left out: the code itself marks them as never reached, and their offsets repeat the per-axis variant's.
- The `finalizeExchange(field, iDim)` waits are transport only.
- The numerics of `compute` (`pow`, the `cell_volume` factors, the particle loops for charge and energy, the Poynting sums): per-species charge sums, energies and counts, the field energies and the Poynting components are inputs of the snapshot.
- `computePoynting` (DiagnosticScalar.cpp line 36) is a numerical routine of the field solver, left out.
- `write`'s formatting (precision, widths, `itime/res_time`) and the file I/O of the constructor and `close`: the log is a sequence of lines of the raw timestep and the values.
- Scalars.ComputedList: Ebal_norm is modelled as 0.0 when the total energy is 0, where IEEE division gives infinity or NaN; the model uses real arithmetic, not doubles.
- Scalars.DiagnosticScalar.constructor: `DiagnosticScalar::DiagnosticScalar` leaves `Energy_time_zero` uninitialised; the model takes its initial value as the parameter `e0`.
- Extrema.ScanField: the 32-bit unsigned wrap-around of `ii` (and of `iFieldStart`/`iFieldEnd`) is not modelled; the precondition requires the box to lie inside the field, where no index wraps.
- Extrema.Value: returns 0.0 for an index outside the field; ScanField only reads indices inside it.
- Extrema.ScanField: the triple loop is split into the methods ScanField, ScanPlane and ScanRow, one per loop level; the order of visits is that of the loops in `DiagnosticScalar::compute`.
- The precision of doubles: field values are `real`.
