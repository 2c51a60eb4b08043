# Offer reconciliation of the GPU marketplace exporter

This project models, in Dafny, the offer pipeline of `src/vastai_api_offers_raw.go`.
The exporter fetches two listings of GPU rental offers from the marketplace: verified
hosts and unverified hosts. An offer is a schema-less record (`map[string]interface{}`)
for one chunk of GPUs on one machine. The pipeline has four stages:

1. `mergeRawOffers` joins the two listings. It tags each offer with its provenance
   (`verified`) and deletes ten fields that are of no use downstream.
2. `validate` keeps the offers whose five required fields have the right dynamic type.
   It also warns about machines that have offers without a numeric `gpu_frac`.
3. `groupByMachineId` partitions the offers by integer machine id.
4. `filterWholeMachines` treats each machine's offers as chunks of one whole machine.
   It finds the smallest and largest chunk sizes. The machine is accepted when exactly
   one offer has the largest size and the offers of the smallest size add up to it.
   For an accepted machine it emits one record: the whole-machine offer with four
   fields removed and two fields added, the minimum chunk size and the number of
   occupied GPUs.

Modules and files:

- `Offers` (`offers.dfy`): the dynamic values and the typed accessors. Go's
  `float64`-to-`int` conversion is modelled as truncation toward zero. The unchecked
  type assertions of the accessors become preconditions.
- `Filtering` (`filter.dfy`): `filter2` and `filter`. They are specified by
  `Filtered` and proved to select exactly the kept offers, in order.
- `Merge` (`merge.dfy`): `mergeRawOffers`.
- `Grouping` (`grouping.dfy`): `groupByMachineId`. It is specified by `Grouped` and
  proved to be a partition.
- `Validate` (`validate.dfy`): `validate`, both as written and as corrected (see
  Findings).
- `WholeMachines` (`whole_machines.dfy`): `filterWholeMachines`.
  - `Reconcile` gives the outcome for one machine's offers.
  - `Reconciliation` gives the records of all machines, keyed by machine id.
  - Lemmas state what the running bounds, sums and checks mean.
  - The method `FilterWholeMachines` and its loops are proved against `Reconcile`. The
    loop body over one machine's offers is split into one method per pass.
- `Scenarios` (`scenarios.dfy`): worked examples of machines that are accepted and
  rejected.

Values of the two fields the reconciler creates (`num_gpus_rented`, `min_chunk`) are Go
`int`s, not JSON numbers. The model keeps them apart as `Int` versus `Num`, as the type
assertion in `numGpusRented` does.

The specification and the code disagree on the `gpu_frac` diagnostic in `validate`:
- The specification groups the surviving offers.
- The code groups its unfiltered receiver.

The as-written member follows the code. The corrected member follows the specification.
See Findings.

The code keeps a minimum-chunk sentinel of 10000. So a machine offered only as one chunk
succeeds exactly when its size lies between 0 and 10000 (`SingleOffer`), not always.

## Model

| member | source | states |
|---|---|---|
| Offers.Trunc | src/vastai_api_offers_raw.go:186-200 | the Go conversion of a float to int discards the fraction toward zero, and never turns a non-negative number negative |
| Offers.NumGpus | src/vastai_api_offers_raw.go:186-188 | the chunk size is the truncation of the numeric `num_gpus` field |
| Offers.NumGpusRented | src/vastai_api_offers_raw.go:190-192 | reads the machine-integer `num_gpus_rented` field |
| Offers.MachineId | src/vastai_api_offers_raw.go:198-200 | the machine id is the truncation of the numeric `machine_id` field |
| Offers.GpuName | src/vastai_api_offers_raw.go:202-204 | reads the string `gpu_name` field |
| Offers.Verified | src/vastai_api_offers_raw.go:206-208 | reads the boolean `verified` field |
| Offers.Rentable | src/vastai_api_offers_raw.go:210-212 | reads the boolean `rentable` field |
| Filtering.FilteredIsSubsequence | src/vastai_api_offers_raw.go:63-75 | the result is the subsequence of the input at strictly increasing positions: position i is kept iff its offer satisfies the predicate, and each kept offer is post-processed when a post-processing function is given |
| Filtering.FilteredMembers | src/vastai_api_offers_raw.go:63-75 | without post-processing, an offer is in the result iff it is in the input and satisfies the predicate |
| Filtering.Filter2 | src/vastai_api_offers_raw.go:63-75 | the loop computes exactly the filtered, post-processed subsequence |
| Filtering.Filter | src/vastai_api_offers_raw.go:59-61 | `filter` is `filter2` with no post-processing, and keeps exactly the input offers that satisfy the predicate |
| Merge.Tagged | src/vastai_api_offers_raw.go:35-42 | the tagged offer has the old keys plus `verified` with the given provenance, and every other field unchanged |
| Merge.Stripped | src/vastai_api_offers_raw.go:43-55 | the stripped offer has the old keys minus the ten denylisted ones, with values unchanged |
| Merge.MergeRawOffers | src/vastai_api_offers_raw.go:33-57 | the result has length equal to the sum of the input lengths; it holds all verified offers then all unverified ones, each in its original order, tagged and stripped; `verified` is true exactly at the positions from the first list; no offer keeps a denylisted key |
| Grouping.GroupIsFilter | src/vastai_api_offers_raw.go:108-115 | each machine's group is its offers in input order; a machine has no group iff it has no offers |
| Grouping.GroupedMembers | src/vastai_api_offers_raw.go:108-115 | every offer is in the group of its own machine id; no group is empty; every group member is an input offer with that group's machine id |
| Grouping.IdsAreKeys | src/vastai_api_offers_raw.go:108-115 | the machine ids in order of first appearance are distinct and are exactly the keys of the grouping |
| Grouping.GroupsPartition | src/vastai_api_offers_raw.go:108-115 | the group sizes, over each machine id once, add up to the number of input offers |
| Grouping.GroupByMachineId | src/vastai_api_offers_raw.go:108-115 | the loop computes the grouping; groups are nonempty and hold only input offers of their own machine |
| Validate.WarningsMeaning | src/vastai_api_offers_raw.go:93-103 | a machine is warned about iff one of its offers lacks a numeric `gpu_frac` |
| Validate.ValidateAsWritten | src/vastai_api_offers_raw.go:77-106 | the code as written fails (a panic) exactly when some input offer lacks a numeric machine id; otherwise it returns the offers with all required fields, in order |
| Validate.AsWrittenFailsOnDroppedOffer | src/vastai_api_offers_raw.go:93 | an offer without a machine id, which the filter drops, makes the code as written fail instead of returning an empty list |
| Validate.AsWrittenWarnsAboutDroppedMachine | src/vastai_api_offers_raw.go:93-103 | a machine whose only offer is dropped is still warned about by the code as written |
| Validate.GpuFracDiagnostic | src/vastai_api_offers_raw.go:93-103 | the diagnostic loop, over machines in any order, warns about exactly the machines that have an offer without a numeric `gpu_frac` |
| Validate.Validate | src/vastai_api_offers_raw.go:77-106 | the result is exactly the input offers with a numeric machine id, string GPU name, numeric chunk size, numeric price and boolean rentable flag, in input order; the diagnostic does not change it and warns about the surviving machines |
| WholeMachines.MinChunk | src/vastai_api_offers_raw.go:123-133 | the running minimum is at most 10000, at most every chunk size, and is either 10000 or an attained chunk size |
| WholeMachines.MaxChunk | src/vastai_api_offers_raw.go:123-133 | the running maximum is at least 0, at least every chunk size, and is either 0 or an attained chunk size |
| WholeMachines.TotalsAreMultiples | src/vastai_api_offers_raw.go:135-146 | the total at size m is m times the number of offers of size m; the occupied total is m times the number of non-rentable ones; those are among the former |
| WholeMachines.WholeOffersAtChunk | src/vastai_api_offers_raw.go:148-154 | the whole-machine candidates are exactly the offers of size m, as many as there are |
| WholeMachines.WholeMachineRecord | src/vastai_api_offers_raw.go:170-179 | the record has the whole offer's keys minus the four dropped ones, plus the two computed keys; the copied fields are unchanged; the computed values stand unless the whole offer carries fields of those names |
| WholeMachines.TilingIff | src/vastai_api_offers_raw.go:123-157 | when the chunk sizes lie between 0 and 10000, the running bounds are the true extremes, and a record is emitted iff one offer has the largest size and the smallest chunks, times their number, make up that size |
| WholeMachines.ReconcileSucceeded | src/vastai_api_offers_raw.go:156-157 | a record means exactly one offer has the maximal size, the smallest chunks sum to that size, and the record is built from that offer |
| WholeMachines.TilingProduct | src/vastai_api_offers_raw.go:156-157 | a record means the smallest chunk size times the number of smallest chunks equals the largest chunk size |
| WholeMachines.EmittedMachineTiles | src/vastai_api_offers_raw.go:123-157 | a record means both running bounds are attained chunk sizes, 0 <= min <= max, the max occurs once, and the smallest chunks tile it |
| WholeMachines.UsedWithinTotal | src/vastai_api_offers_raw.go:135-146 | for a size of at least 0, the occupied GPUs are between 0 and all GPUs of that size |
| WholeMachines.RecordShape | src/vastai_api_offers_raw.go:170-179 | an emitted record has every field of the unique largest-chunk offer except the dropped four, unchanged, and the computed `min_chunk` and `num_gpus_rented` unless that offer carries such fields |
| WholeMachines.UniqueWhole | src/vastai_api_offers_raw.go:148-157 | the single whole-machine candidate is the offer of the largest size |
| WholeMachines.RecordOccupancy | src/vastai_api_offers_raw.go:135-174 | for an emitted record, 0 <= occupied GPUs <= the record's GPU count |
| WholeMachines.TilingAccepted | src/vastai_api_offers_raw.go:123-174 | a machine with chunk sizes between 0 and 10000, one offer of the largest size and smallest chunks that tile it gets a record whose `min_chunk` is the smallest size and whose `num_gpus_rented` is the occupied smallest chunks |
| WholeMachines.SingleOffer | src/vastai_api_offers_raw.go:123-174 | a machine listed as one offer is reconciled iff its chunk size is between 0 and 10000; its `min_chunk` is its size and its `num_gpus_rented` is 0 or its size by rentability |
| WholeMachines.RecordOfMachine | src/vastai_api_offers_raw.go:175-179 | the record copies the machine id of the machine it is built for |
| WholeMachines.ReconciliationAt | src/vastai_api_offers_raw.go:120-181 | a machine has a record iff it has a group that reconciles, and the record is that group's |
| WholeMachines.ReconciledMachine | src/vastai_api_offers_raw.go:120-181 | a machine has a record iff it has offers and they reconcile in input order; the record is computed from those offers and carries the machine's id |
| WholeMachines.MachinesIndependent | src/vastai_api_offers_raw.go:120-168 | a machine's outcome depends on its own offers only, so a failing machine does not affect another |
| WholeMachines.ChunkBounds | src/vastai_api_offers_raw.go:123-133 | the first loop computes the running minimum and maximum |
| WholeMachines.ChunkTotals | src/vastai_api_offers_raw.go:135-146 | the second loop computes the total and occupied GPUs of the smallest chunks |
| WholeMachines.CollectWhole | src/vastai_api_offers_raw.go:148-154 | the third loop collects the offers of the largest size, in order |
| WholeMachines.BuildRecord | src/vastai_api_offers_raw.go:170-179 | the copy loop, over fields in any order, builds the reconciled record |
| WholeMachines.ReconcileMachine | src/vastai_api_offers_raw.go:121-180 | one machine's loop body yields a record exactly as `Reconcile` specifies |
| WholeMachines.VisitMachine | src/vastai_api_offers_raw.go:120-181 | visiting one more machine, and appending its record when it has one, keeps the collected records exact |
| WholeMachines.ReconcileAll | src/vastai_api_offers_raw.go:118-183 | the loop over machines, in any order, collects each machine's record once and nothing else |
| WholeMachines.FilterWholeMachines | src/vastai_api_offers_raw.go:117-184 | the result holds each record of the reconciliation, once, with its machine id, and nothing else |
| Scenarios.ScenarioA | src/vastai_api_offers_raw.go:117-184 | three free single-GPU chunks and an occupied three-GPU whole: a record with `min_chunk` 1 and `num_gpus_rented` 0 |
| Scenarios.ScenarioB | src/vastai_api_offers_raw.go:117-184 | two occupied two-GPU chunks and a free four-GPU whole: a record with `min_chunk` 2 and `num_gpus_rented` 4 |
| Scenarios.ScenarioC | src/vastai_api_offers_raw.go:156-168 | two single-GPU chunks and a four-GPU whole do not tile: no record |
| Scenarios.ScenarioD | src/vastai_api_offers_raw.go:117-184 | a single free eight-GPU offer: a record with `min_chunk` 8 and `num_gpus_rented` 0 |
| Scenarios.ScenarioE | src/vastai_api_offers_raw.go:78-90 | an offer whose chunk size is a string is dropped by validation and is in no group of the validated offers |

## Left out

- `getRawOffersFromApi` (src/vastai_api_offers_raw.go:14-31) and `vastApiCall` are not part of this model. They are network calls and JSON decoding.
- Logging is not modelled:
  - the warning about malformed offers (line 88);
  - the `gpu_frac` warning (line 101), which is modelled only as the set of machines warned about;
  - the chunk-split warning (line 165), and the sorted chunk list built only for it (lines 159-163).
- `pricePerGpu` (lines 194-196) is not modelled: it is floating-point division.
- Floating point is modelled as exact reals:
  - rounding of JSON numbers into `float64` is not modelled;
  - `float64`-to-`int` conversions of out-of-range values are not modelled;
  - the sums in `filterWholeMachines` are unbounded integers, so 64-bit overflow is not modelled.
- Merge.MergeRawOffers: records are values. The Go code mutates the caller's maps in place. An offer map shared by both lists, or shared with the caller, is not modelled.
- Go map iteration order is unspecified. So `FilterWholeMachines`, `ReconcileAll`, `GpuFracDiagnostic` and `BuildRecord` pick the next key arbitrarily, and their results are stated independently of that order.
- Runtime panics of the unchecked type assertions become preconditions.
- WholeMachines.FilterWholeMachines: `requires` a boolean `rentable` on every offer. The Go code reads it only for offers of the smallest chunk size. All offers that pass `validate` meet the stronger condition.
- src/machinesCollector.go, src/vastCollector.go, src/machineEarningsCollector.go and src/main.go are not part of this model. They are HTTP fetching, metric wiring, flag parsing and server startup.

## Findings

| source | as written | input that shows it | evidently intended | confidence | as-written member | corrected member |
|---|---|---|---|---|---|---|
| src/vastai_api_offers_raw.go:93 | the `gpu_frac` diagnostic groups the unfiltered receiver `offers` | an offer without a numeric `machine_id`, e.g. `{"gpu_name": "RTX 3090"}`: `machineId()` panics on it, although the filter just dropped it; and a machine whose only offer `{"machine_id": 7}` was dropped is still warned about | group the validated `result`, so malformed offers are dropped and never reach the grouping | not executed | Validate.ValidateAsWritten, Validate.AsWrittenFailsOnDroppedOffer, Validate.AsWrittenWarnsAboutDroppedMachine | Validate.Validate |
