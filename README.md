# BackendEstimatorV2 bookkeeping, modelled in Dafny

This project models the classical bookkeeping of Qiskit's `BackendEstimatorV2`
(`qiskit/primitives/backend_estimator_v2.py`), which estimates expectation values of Pauli observables.
It covers these steps:

- A pub's observables are turned into measurement circuits, one per qubit-wise commuting group,
  each with its basis-change gates and a fresh classical register.
- The circuits of all pubs that share a shot count are sent to a backend, in chunks of at most
  `max_circuits`.
- Each measured histogram becomes an expectation value and a variance per Pauli, by parity of the
  masked outcome.
- These are filed in a map keyed by (bindings index, Pauli label).
- The map is folded back into per-pub `evs` and `stds`.

The model uses these representations:

- A Pauli is kept in symplectic form: `z` and `x` bit columns plus a phase.
- The diagonal masks of `_paulis2inds` are unbounded naturals, with bit `i` meaning qubit `i`.
- A counts histogram is the sequence of its dictionary items, in iteration order.
- Expectation values, variances and coefficients are `real`.
- The pieces the module calls but does not define are function parameters, and the properties the
  proofs rely on are stated as hypotheses about those parameters:
  - `group_commuting` is `grouper`;
  - `backend.run(...).result()` is `execute`;
  - `np.sqrt` is `sqrt`;
  - `_run_pubs`, as called from `_run`, is `runPubs`.

There is one module per file:

| File | Module | Contents |
|---|---|---|
| `errors.dfy` | `Errors` | the raised errors, `Result` and `Option` |
| `collections.dfy` | `Collections` | concatenation, first-occurrence keys, dictionary update |
| `bitmasks.dfy` | `BitMasks` | bits, `bin().count("1")`, `int(s, 2)`, little-endian bit packing |
| `paulis.dfy` | `Paulis` | Paulis, labels, `_paulis2inds`, union basis, column restriction |
| `sorting.dfy` | `Sorting` | `sorted` on a set of labels |
| `circuits.dfy` | `Circuits` | what the estimator sees of a circuit |
| `estimator.dfy` | `Estimator` | `_pauli_expval_with_variance` |
| `measurement.dfy` | `Measurement` | `_measurement_circuit` and `_create_measurement_circuits` |
| `pubs.dfy` | `Pubs` | `_preprocess_pub` and `_bind_and_add_measurements` |
| `aggregation.dfy` | `Aggregation` | `_calc_expval_map` and `_postprocess_pub` |
| `dispatch.dfy` | `Dispatch` | `_run_circuits`, `_prepare_counts` and slicing by pub |
| `batching.dfy` | `Batching` | `_validate_pubs` and `_run` |
| `pipeline.dfy` | `Pipeline` | `_run_pubs` end to end |

A histogram whose total count is zero is not given a value. Line 108 divides by `denom` even when the
total is 0. Every count is then 0, so every slot is 0/0, and numpy gives NaN with a runtime warning.
The model makes a positive total a precondition of the division, because reals cannot represent NaN
(see "Left out").

## Model

| member | source | states |
|---|---|---|
| BitMasks.ParityIsPopCountMod2 | qiskit/primitives/backend_estimator_v2.py:131-133 | counting the '1' characters of `bin(n)` and reducing mod 2 gives the population count of `n` mod 2, which is always 0 or 1 |
| BitMasks.CountOnesOfBin | qiskit/primitives/backend_estimator_v2.py:133 | the number of '1' characters in `bin(n)` (with its `0b` prefix) equals the number of set bits of `n` |
| BitMasks.ParseBinary | qiskit/primitives/backend_estimator_v2.py:101 | `int(s, 2)` succeeds exactly when `s` is a non-empty string of '0'/'1'; otherwise it fails with InvalidOutcome naming `s` |
| BitMasks.ParseBinDigits | qiskit/primitives/backend_estimator_v2.py:101 | parsing the binary digits of `n` gives back `n` (round trip of the outcome key format) |
| BitMasks.ParseLeadingZero | qiskit/primitives/backend_estimator_v2.py:101 | leading zeros in an outcome key do not change the parsed outcome |
| BitMasks.PackBitsBit | qiskit/primitives/backend_estimator_v2.py:123-127 | little-endian packing puts flag `i` at bit `i` and sets no bit beyond the last flag |
| BitMasks.AndBit | qiskit/primitives/backend_estimator_v2.py:104 | bit `i` of `a & b` is set exactly when bit `i` is set in both |
| Paulis.PaulisToIndsBit | qiskit/primitives/backend_estimator_v2.py:115-128 | bit `i` of Pauli `k`'s diagonal index is set exactly when qubit `i` exists and Pauli `k` is non-identity there, `z | x` (Z, X and Y alike); the non-identity column NonIdentity is read through this lemma and UnionBasisSupport |
| Paulis.PaulisToInds | qiskit/primitives/backend_estimator_v2.py:115-128 | one index per Pauli, each below 2^(number of qubits) |
| Paulis.LabelOfFromLabel | qiskit/primitives/backend_estimator_v2.py:406 | reading a label into a Pauli (FromLabel) and printing it back gives the same label, so `PauliList(sorted(...))` measures exactly the requested strings |
| Paulis.FromLabelOfLabel | qiskit/primitives/backend_estimator_v2.py:437 | a phase-0 Pauli printed with `to_label` and read back by FromLabel is the same Pauli |
| Paulis.LabelInjective | qiskit/primitives/backend_estimator_v2.py:437 | two phase-0 Paulis with the same label are equal, so the map keys of `_calc_expval_map` identify Paulis |
| Paulis.LetterRoundTrip | qiskit/primitives/backend_estimator_v2.py:406 | each (z, x) pair has one letter, and the letter gives back the pair |
| Paulis.OrReduceAt | qiskit/primitives/backend_estimator_v2.py:460 | the OR-reduction of a column set is true at `i` exactly when some row is true at `i` |
| Paulis.UnionBasisAt | qiskit/primitives/backend_estimator_v2.py:460 | the group's basis has z (x) at qubit `i` exactly when some member has z (x) there |
| Paulis.UnionBasisSupport | qiskit/primitives/backend_estimator_v2.py:460 | the basis is non-identity at a qubit exactly when some member of the group is |
| Paulis.UnionBasisAgreesWithMembers | qiskit/primitives/backend_estimator_v2.py:459-460 | in a qubit-wise commuting group, the basis applies at each qubit the very letter of every member that is non-identity there |
| Paulis.UnionBasis | qiskit/primitives/backend_estimator_v2.py:460 | the basis has the group's width and phase 0 |
| Sorting.SortLabels | qiskit/primitives/backend_estimator_v2.py:406 | `sorted` of a label set is strictly increasing in code-point order and holds exactly the set's labels, once each |
| Sorting.SortedUnique | qiskit/primitives/backend_estimator_v2.py:405-406 | two strictly sorted lists with the same elements are equal, so the measured order is deterministic |
| Sorting.LexTotal | qiskit/primitives/backend_estimator_v2.py:406 | the string order is total on distinct labels |
| Sorting.LexTransitive | qiskit/primitives/backend_estimator_v2.py:406 | the string order is transitive |
| Estimator.FirstWord | qiskit/primitives/backend_estimator_v2.py:100 | the outcome key's first space-free word is a prefix of the key, followed by a space or the end |
| Estimator.ParseOutcomeFirstRegister | qiskit/primitives/backend_estimator_v2.py:100-101 | a key `"<digits of n> <other registers>"` or `"<digits of n>"` parses to `n`: only the first register is read |
| Estimator.SumOutcomes | qiskit/primitives/backend_estimator_v2.py:97-106 | the accumulation loop succeeds exactly when every key parses; it fails with the first failing key's error; it returns the total count and leaves in slot `k` the signed sum of the counts, with sign (-1)^parity(mask_k & outcome) |
| Estimator.AddOutcome | qiskit/primitives/backend_estimator_v2.py:103-105 | one outcome adds `freq` times its sign to every slot and changes nothing else |
| Estimator.DivideAll | qiskit/primitives/backend_estimator_v2.py:108 | every slot is divided by the total |
| Estimator.VariancesOf | qiskit/primitives/backend_estimator_v2.py:111 | each variance is one minus the square of its expectation value |
| Estimator.PauliExpvalWithVariance | qiskit/primitives/backend_estimator_v2.py:87-112 | the result is Ok exactly when every outcome key parses; an error is the first failing key's; otherwise value `k` is the signed-count average for Pauli `k`'s mask and variance `k` is 1 - value² |
| Estimator.SignIsZProduct | qiskit/primitives/backend_estimator_v2.py:104 | (-1)^parity(mask & outcome) is the product over the mask's qubits of the Z eigenvalue (+1 for outcome bit 0, -1 for 1) |
| Estimator.SignIsUnit | qiskit/primitives/backend_estimator_v2.py:104 | every sign coefficient is +1 or -1 |
| Estimator.MinusOnePowParity | qiskit/primitives/backend_estimator_v2.py:104 | (-1)^parity is +1 for an even number of set bits and -1 for an odd number |
| Estimator.SignedSumBound | qiskit/primitives/backend_estimator_v2.py:99-105 | the signed count sum lies between minus and plus the total count |
| Estimator.ExpvalBounds | qiskit/primitives/backend_estimator_v2.py:108 | every estimated expectation value lies in [-1, 1] |
| Estimator.VarianceBounds | qiskit/primitives/backend_estimator_v2.py:110-111 | every estimated variance lies in [0, 1] |
| Estimator.SingleQubitExample | qiskit/primitives/backend_estimator_v2.py:87-112 | the histogram {"0": 700, "1": 300} gives expectation 0.4 and variance 0.84 for Z |
| Measurement.IndicesSpec | qiskit/primitives/backend_estimator_v2.py:518 | the selected qubit indices are exactly the marked qubits, in increasing order |
| Measurement.MeasuredQubitsSpec | qiskit/primitives/backend_estimator_v2.py:518-520 | at least one qubit is measured, in increasing order; an all-identity basis measures qubit 0 only; otherwise exactly the non-identity qubits are measured |
| Measurement.BasisChangeGates | qiskit/primitives/backend_estimator_v2.py:524-529 | qubit `q` is measured into clbit `c` exactly when it is the `c`-th measured qubit; it gets an Sdg exactly when measured with both x and z (Y), and an H exactly when measured with x (X or Y) |
| Measurement.BasisChangeSnoc | qiskit/primitives/backend_estimator_v2.py:524-529 | each loop step appends that qubit's gates after those of earlier qubits |
| Measurement.MeasurementCircuit | qiskit/primitives/backend_estimator_v2.py:513-530 | the loop builds the measurement plan (register `__c_<label>` sized by the measured qubits, the gates above, the indices), and fails exactly when a measured qubit is beyond the circuit's width |
| Measurement.GroupBasis | qiskit/primitives/backend_estimator_v2.py:458-476 | the basis a group is measured in has the observable's width |
| Measurement.BuildMeasCircuits | qiskit/primitives/backend_estimator_v2.py:457-487 | one measurement circuit per group, in order, each carrying the group, its restriction to the measured qubits and the bindings index as metadata; it fails exactly when some basis measures a missing qubit |
| Measurement.CombineCircuits | qiskit/primitives/backend_estimator_v2.py:493-510 | it succeeds exactly when no measurement register's name is already a register of the circuit, and raises RegisterConflict otherwise; each result is the circuit with the register added, the measurement composed and its metadata |
| Measurement.CreateMeasurementCircuits | qiskit/primitives/backend_estimator_v2.py:440-510 | it succeeds exactly when every group's basis fits the circuit and names a fresh register; variant `j` is the circuit with group `j`'s measurement circuit composed onto it (MeasEntryParts), where the groups (MeasurementGroups) are the oracle's with grouping and one singleton per Pauli without; the only errors are QubitOutOfRange and RegisterConflict |
| Measurement.GroupBasisCovers | qiskit/primitives/backend_estimator_v2.py:458-487 | a qubit-wise commuting group (or a singleton) is measured in a basis that agrees with each member wherever the member is non-identity |
| Measurement.VariantMeasuresMembers | qiskit/primitives/backend_estimator_v2.py:460-471 | for each member of a group, its measured Pauli (the member restricted by Restrict/RestrictAll to the measured columns) keeps the phase; its classical bit `c` is in the mask exactly when the member acts on the `c`-th measured qubit; every qubit it acts on is measured, rotated by Sdg exactly for Y and by H exactly for X or Y |
| Pubs.LabelsAtSpec | qiskit/primitives/backend_estimator_v2.py:337-340 | a label is required at a bindings index exactly when some cell with that index has a term with that label; with KeysSpec over the cells' indices (ParamsOf), the dictionary's keys are exactly the cells' indices, once each |
| Pubs.ParamObsMap | qiskit/primitives/backend_estimator_v2.py:337-340 | the dictionary's keys are the bindings indices in order of first appearance, and each maps to the union of its cells' labels |
| Pubs.AddLabels | qiskit/primitives/backend_estimator_v2.py:339-340 | one cell adds its index at the end if new and unions its labels into that index's set |
| Pubs.ObsMapStep | qiskit/primitives/backend_estimator_v2.py:338-340 | each `defaultdict(set)` update adds exactly that cell's labels under its index |
| Pubs.LabelsValid | qiskit/primitives/backend_estimator_v2.py:337-340 | every label collected from a well-formed pub is a Pauli string as wide as the circuit |
| Pubs.PaulisOf | qiskit/primitives/backend_estimator_v2.py:406 | reading sorted labels gives Paulis of the circuit's width with the same labels, in the same order |
| Pubs.AddBinding | qiskit/primitives/backend_estimator_v2.py:403-410 | binding one index and measuring its sorted labels succeeds exactly when that binding's measurement circuits can be built; the result is exactly those variants; the only errors are QubitOutOfRange and RegisterConflict |
| Pubs.BindAndAddMeasurements | qiskit/primitives/backend_estimator_v2.py:382-411 | it succeeds exactly when every binding succeeds; the flat list is the concatenation, in dictionary order, of each binding's variants |
| Pubs.AllVariantsStep | qiskit/primitives/backend_estimator_v2.py:403-410 | each loop iteration extends the flat list by exactly that binding's variants |
| Pubs.PreprocessPub | qiskit/primitives/backend_estimator_v2.py:314-343 | preprocessing succeeds exactly when all the pub's bindings can be measured; the circuits are the pub's variants; the only errors are QubitOutOfRange and RegisterConflict |
| Pubs.BindingVariantMeta | qiskit/primitives/backend_estimator_v2.py:467-486 | variant `j` of a binding carries measurement metadata: the original group `j`, as many measured Paulis, and the binding's index |
| Pubs.PubVariantsMeasureCells | qiskit/primitives/backend_estimator_v2.py:337-410 | with a sound grouper, every term of every cell is measured by some variant under that cell's bindings index |
| Pubs.AllVariantsMeasured | qiskit/primitives/backend_estimator_v2.py:467-471 | every preprocessed circuit carries measurement metadata |
| Aggregation.EstimateVariant | qiskit/primitives/backend_estimator_v2.py:432-435 | one histogram with its metadata yields, when every key parses, exactly the (index, label) ↦ (expval, variance) entries of its original Paulis; a parse failure is InvalidOutcome |
| Aggregation.AddVariant | qiskit/primitives/backend_estimator_v2.py:431-437 | one variant succeeds exactly when it has measurement metadata and parseable counts, and then writes its entries over the map; otherwise it raises MissingMetadata or InvalidOutcome |
| Aggregation.AddEntries | qiskit/primitives/backend_estimator_v2.py:436-437 | the inner loop performs the dictionary assignments in order, later ones overriding earlier ones |
| Aggregation.CalcExpvalMap | qiskit/primitives/backend_estimator_v2.py:413-438 | it succeeds exactly when every zipped (counts, metadata) pair is usable; the map is the assignments of all variants in order; an error is the first failing pair's |
| Aggregation.ExpvalMapKeys | qiskit/primitives/backend_estimator_v2.py:430-437 | an (index, label) key is in the map exactly when some variant measured that label under that index |
| Aggregation.ExpvalMapEstimates | qiskit/primitives/backend_estimator_v2.py:430-437 | every map entry is an estimate: an expectation value in [-1, 1] paired with the variance 1 - expval², which lies in [0, 1] |
| Aggregation.ExpvalMapInRange | qiskit/primitives/backend_estimator_v2.py:430-437 | every expectation value in the map lies in [-1, 1] |
| Aggregation.AccumulateCell | qiskit/primitives/backend_estimator_v2.py:366-370 | one cell succeeds exactly when each of its terms has an estimate; its evs slot gains Σ expval·coeff and its spread slot Σ |coeff|·sqrt(variance); no other slot changes; a missing term raises MissingEstimate naming it |
| Aggregation.CellStep | qiskit/primitives/backend_estimator_v2.py:368-370 | each term adds expval·coeff to the cell's value and |coeff|·sqrt(variance) to its spread |
| Aggregation.PostprocessPub | qiskit/primitives/backend_estimator_v2.py:345-371 | it succeeds exactly when every cell's terms are in the map, with MissingEstimate naming a missing term otherwise; `evs[i]` is cell `i`'s coefficient-weighted sum and `stds[i]` its spread divided by sqrt(shots) |
| Aggregation.CellEvBound | qiskit/primitives/backend_estimator_v2.py:369 | with expectation values in [-1, 1], a cell's value is bounded by the sum of its coefficients' magnitudes |
| Aggregation.CellSpreadNonNegative | qiskit/primitives/backend_estimator_v2.py:370 | a cell's spread is non-negative when the square roots are |
| Dispatch.CollectMetadata | qiskit/primitives/backend_estimator_v2.py:57-61 | the metadata list is every circuit's own metadata, in order; the circuits sent on are cleared exactly when `clear_metadata` is set |
| Dispatch.RunCircuits | qiskit/primitives/backend_estimator_v2.py:39-74 | the metadata is taken before clearing; one backend job runs per chunk of at most `max_circuits` (one job for all when unset), in order |
| Dispatch.ChunksConcat | qiskit/primitives/backend_estimator_v2.py:66-70 | the chunks `circuits[pos:pos+max_circuits]` together are the circuit list, in order |
| Dispatch.ChunksBounded | qiskit/primitives/backend_estimator_v2.py:66-70 | every chunk is non-empty and holds at most `max_circuits` circuits |
| Dispatch.BatchesConcat | qiskit/primitives/backend_estimator_v2.py:66-73 | with or without `max_circuits`, the jobs together submit every circuit exactly once, in order |
| Dispatch.PrepareCounts | qiskit/primitives/backend_estimator_v2.py:77-84 | the counts list is the concatenation of each result's histograms, a lone histogram counting as a list of one |
| Dispatch.CountsLineUp | qiskit/primitives/backend_estimator_v2.py:66-84 | when each job returns one histogram per circuit, the flattened counts are the circuits' histograms in submission order |
| Dispatch.SliceByPub | qiskit/primitives/backend_estimator_v2.py:305-310 | the `counts[start:end]` slicing loop yields its slices of the flat list |
| Dispatch.SlicesPartition | qiskit/primitives/backend_estimator_v2.py:305-310 | when the sizes add up to the list's length, slice `k` has size `sizes[k]` and the slices together are the whole list, in order |
| Dispatch.SliceAt | qiskit/primitives/backend_estimator_v2.py:308-309 | element `i` of slice `k` is element `start_k + i` of the flat list |
| Batching.ValidatePubs | qiskit/primitives/backend_estimator_v2.py:267-273 | validation passes exactly when every precision is positive; otherwise it names the first pub whose precision is at most 0 |
| Batching.Shots | qiskit/primitives/backend_estimator_v2.py:279 | the shot count is the least integer at least 1/precision², and it is at least 1 |
| Batching.DefaultPrecisionShots | qiskit/primitives/backend_estimator_v2.py:279 | the default precision 0.015625 gives 4096 shots, and precision 0.5 gives 4 |
| Batching.GroupByShots | qiskit/primitives/backend_estimator_v2.py:276-280 | the keys are the distinct shot counts in order of first appearance; each maps to the increasing list of pub positions with that shot count |
| Batching.IndicesWithSpec | qiskit/primitives/backend_estimator_v2.py:278-280 | the positions filed under a shot count are exactly the pubs with it, increasing |
| Batching.Scatter | qiskit/primitives/backend_estimator_v2.py:287-288 | the zip loop writes result `k` to position `lst[k]`, for as many results as both lists hold, and leaves every other position as it was |
| Batching.RunBatch | qiskit/primitives/backend_estimator_v2.py:283-288 | one shot group runs its pubs once and puts each pub's answer at its own position; an error is that run's error |
| Batching.RunGrouped | qiskit/primitives/backend_estimator_v2.py:282-288 | it succeeds exactly when every shot group's run succeeds; position `i` then holds pub `i`'s answer from its own group's run, where the group's pubs are `[pubs[i] for i in lst]` (Select) in increasing position order |
| Batching.Run | qiskit/primitives/backend_estimator_v2.py:275-289 | as RunGrouped, with the shot counts computed from the precisions; an error is some group's error |
| Batching.ScatterRestoresOrder | qiskit/primitives/backend_estimator_v2.py:282-288 | if `_run_pubs` answers each pub on its own, then every pub gets back exactly its own answer at its own shot count |
| Pipeline.PreprocessAll | qiskit/primitives/backend_estimator_v2.py:293-298 | it succeeds exactly when every pub preprocesses; each pub's circuits are its variants, and the flat list is their concatenation |
| Pipeline.EstimatePub | qiskit/primitives/backend_estimator_v2.py:309-311 | a pub's estimate succeeds exactly when its slice's histograms are usable and cover every term; each `evs` entry is bounded by its coefficients' magnitude sum; MissingMetadata only for a slice circuit without metadata |
| Pipeline.EstimateAll | qiskit/primitives/backend_estimator_v2.py:305-311 | the per-pub loop succeeds exactly when every pub's slice is estimable (every histogram parses under measurement metadata and the map covers every pub term, Estimable); an InvalidOutcome or MissingMetadata comes from some pub's slice, and no other error occurs; on success, pub `k`'s slice is usable, its map covers every term, and each `evs` entry is that cell's coefficient-weighted sum and each `stds` entry its spread over sqrt(shots) (PubEstimates), bounded by its coefficients' magnitude sum; a MissingEstimate comes from a usable but incomplete map |
| Pipeline.PubSliceMeasured | qiskit/primitives/backend_estimator_v2.py:305-309 | every circuit in a pub's metadata slice is one of that pub's measured variants |
| Pipeline.PubEstimatesPresent | qiskit/primitives/backend_estimator_v2.py:309-311 | with a sound grouper, the map built from a pub's own variants has an estimate for every term of every cell |
| Pipeline.RunPubs | qiskit/primitives/backend_estimator_v2.py:291-312 | it succeeds exactly when every pub preprocesses and every pub's slice of the backend's histograms and metadata (PubInputs) is estimable; a QubitOutOfRange or RegisterConflict occurs exactly when some pub fails to preprocess, and an InvalidOutcome names a pub whose slice has an unparsable outcome key; on success every pub preprocessed, and pub `k`'s `evs` and `stds` are exactly what `_postprocess_pub` computes from the histograms and metadata of pub `k`'s own circuits after flattening, chunked submission to `execute` and slicing (PubInputs), each value bounded by its coefficients' magnitude sum; it never raises MissingMetadata; with a sound grouper and one histogram per circuit it never raises MissingEstimate |
| Collections.OverrideLastWins | qiskit/primitives/backend_estimator_v2.py:437 | a key is in the built dictionary exactly when some assignment writes it, and its value is the last such assignment's |
| Collections.KeysSpec | qiskit/primitives/backend_estimator_v2.py:276-283 | dictionary keys in insertion order are distinct and are exactly the inserted keys |

## Left out

- `backend.run`, `.result()` and `PrimitiveJob` are the `execute` parameter, which maps one chunk of circuits to a result. The simulator, the shots and `seed_simulator` run options are folded into it.
- The `BackendV2` check and its `RuntimeError` (lines 62-65) are not modelled. Every backend is assumed to be a `BackendV2`; `max_circuits` becomes a natural number, with 0 standing for `None`.
- Circuits are abstracted to their width, their classical registers, the bindings index applied, the instructions appended and their metadata. Gates of the caller's circuit, `compose` wiring and parameter binding are recorded, not executed.
- `_passmanager.run` (line 490) is not modelled: unrolling basis gates changes no metadata, register or measured qubit.
- `group_commuting(qubit_wise=True)` is the `grouper` parameter. Its partition property (`GrouperSound`) and its width preservation (`GrouperKeepsWidth`) are hypotheses, not proved.
- The numpy broadcasting of `_preprocess_pub` (lines 333-335) is not modelled. A pub carries its broadcast (bindings index, observable) cells as a flat sequence in `np.ndindex` order, and `evs` and `stds` are flat sequences of the same shape.
- `np.packbits` with the uint8 byte products (lines 125-127) is modelled directly as Σ bit_i·2^i. The two agree on every width.
- Floating point is modelled as exact `real` arithmetic: no rounding, no NaN, no infinity.
- `np.sqrt` and `variance**0.5` are a `sqrt` parameter, because Dafny has no real square root. `stds` requires `sqrt(shots) != 0`.
- Estimator.PauliExpvalWithVariance: requires a positive total count, because the code's division by a zero `denom` yields NaN, which reals cannot represent. Pipeline.RunPubs and the functions behind it carry the matching hypothesis on `execute` (`NonEmptyCounts`).
- Batching.Shots: computes `ceil(1 / precision**2)` exactly over the reals, not in double precision.
- Python `int(s, 2)` also accepts a `0b` prefix, underscores, surrounding whitespace and a sign. BitMasks.ParseBinary rejects these, and backend outcome keys never contain them.
- Observable coefficients are real; `np.abs` is Abs. Complex coefficients are not modelled.
- `_run_circuits` clears `circ.metadata` in place on the caller's circuits (line 61). Dispatch.Cleared returns cleared copies instead, so the aliasing is not captured.
- Pipeline.RunPubs: requires that `execute` never returns an empty histogram (`NonEmptyCounts`), so that every division of line 108 is defined. Its freedom from MissingEstimate holds only for a sound grouper and one histogram per submitted circuit (`OnePerCircuit`).
- Pubs.WellFormed: every term label is assumed to be a string of the letters I, X, Y and Z as wide as the circuit. Labels with other letters, on which `PauliList(sorted(...))` (line 406) would raise, are not modelled, so the InvalidLabel error of Paulis.FromLabel is never reached from a pub.
- The public `run` (lines 256-265), `EstimatorPub.coerce`, `Options`, `DataBin` and the `PubResult` and `PrimitiveResult` metadata are not modelled: they are containers and job plumbing around `_run`.
- `_measurement_circuit`'s test `not np.any(qubit_indices)` is also true for the index list `[0]`. Measurement.MeasuredQubits models the test literally, and replacing `[0]` by `[0]` changes nothing; Measurement.MeasuredQubitsSpec proves that the result is `[0]` when no qubit is marked and exactly the marked qubits otherwise.
- Batching.ScatterRestoresOrder: its hypothesis that `runPubs` answers each pub on its own is not established for the modelled `_run_pubs` (Pipeline.RunPubs): the pubs of one shot group share backend jobs, and a backend with a shared `seed_simulator` need not answer each circuit independently of the others in its job.
