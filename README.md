# candleburn region fan-out, modelled in Dafny

candleburn reads an inventory of EC2 instances (ID and region) and asks AWS
for each instance's current state. The engine in `myec2/main.go` works in
four steps:

1. It partitions the inventory by region (`instancesByRegion`).
2. It builds one query batch per region (`generateInstanceSlice`). A batch
   holds the region's members unchanged and their instance IDs sorted
   ascending.
3. It starts one worker per batch (`CheckRegionInstanceState`). A worker
   issues a single "describe instances" call and sends one enriched record
   per returned instance. The record's name is taken from the first `Name`
   tag.
4. It collects every record the workers send (`GetInstancesState`).

This project models those four steps and proves what they promise.

- `string_order.dfy` (module `StringOrder`): Go's `<` on strings, sortedness,
  a functional `Sort`, and the in-place insertion sort that stands for
  `sort.Slice`.
- `instances.dfy` (module `Instances`): the `Instance` and `RegionInstances`
  records, the region filter `ByRegion`, `InstancesByRegion` and
  `GenerateInstanceSlice`.
- `region_query.dfy` (module `RegionQuery`): the describe call's answer, the
  `Name` tag lookup, and one worker's output.
- `aggregate.dfy` (module `Aggregate`): the fan-out and the drain loop of
  `GetInstancesState`.
- `scenarios.dfy` (module `Scenarios`): the three-host inventory of the
  package's tests, and a run in which one region's describe call fails.

Modelling choices:

- **Map iteration order.** Go leaves the iteration order of a map
  unspecified. `GenerateInstanceSlice` takes any key not yet visited, and a
  ghost `order` records the order it took. Every property holds for every
  order.
- **Goroutines and the channel.** These are replaced by two sequential loops.
  `StartWorkers` computes what each worker sends. `Drain` then repeatedly
  receives the next record of any worker that still has one, so every
  interleaving the channel can deliver is a possible run.
- **What the report promises.** Because the interleaving is open,
  `GetInstancesState` states its result in two order-free ways:
  - per region: the records of region `r` are exactly that region's worker
    output, in sending order;
  - as a multiset: the report equals the concatenation of the per-region
    outputs, taken in any order that lists each region once.
- **The AWS call.** "Describe instances" is a parameter of type
  `Describer`, a function from the region and the ID list to
  `Ok(reservations)` or `Err(message)`.
- **String order.** Go compares strings byte by byte. On valid UTF-8 this
  is code-point order, so the model compares `char`s one by one (strings
  that are not valid UTF-8 are listed under "Left out").

## Model

| member | source | states |
|---|---|---|
| StringOrder.Less | myec2/main.go:141 | defines Go's `<` on strings: lexicographic by character, a proper prefix first; its order properties are the lemmas below |
| StringOrder.LessIrreflexive | myec2/main.go:140-142 | no ID sorts strictly before itself |
| StringOrder.LessAsymmetric | myec2/main.go:140-142 | `a < b` excludes `b < a` |
| StringOrder.LessTransitive | myec2/main.go:140-142 | the comparison used by the sort is transitive |
| StringOrder.LessTotal | myec2/main.go:140-142 | any two IDs are equal or ordered one way or the other, so the sort's comparison is a strict total order |
| StringOrder.LessAt | myec2/main.go:140-142 | strings that agree up to position `k` and differ first there are ordered by their characters at `k` |
| StringOrder.NotLessIsLessEq | myec2/main.go:140-142 | `!(b < a)` is the same as `a <= b` |
| StringOrder.Insert | myec2/main.go:140-142 | inserting into an ascending list adds exactly one copy of the element and keeps the list ascending |
| StringOrder.Sort | myec2/main.go:140-142 | the reference arrangement is ascending and a permutation of its input |
| StringOrder.SortedUnique | myec2/main.go:140-142 | two ascending permutations of the same IDs are equal, so the sorted ID list does not depend on how the sort ran |
| StringOrder.Swap | myec2/main.go:140-142 | one exchange step of the in-place sort: the two cells trade values, every other cell is unchanged, the contents stay a permutation |
| StringOrder.InsertLast | myec2/main.go:140-142 | one insertion step makes the prefix up to `i` ascending, permutes the array, and leaves later cells alone |
| StringOrder.SortInPlace | myec2/main.go:140-142 | after the in-place sort the array is ascending, a permutation of its old contents, and equal to `Sort` of them |
| Instances.ByRegion | myec2/main.go:57-63 | defines the content of the map entry for region `r`: the input's records of region `r`, in input order; characterised by `ByRegionCount`, `ByRegionMembers` and `ByRegionNonEmpty` |
| Instances.ByRegionAppend | myec2/main.go:59-60 | filtering by region distributes over concatenation, so appending in input order builds each group |
| Instances.ByRegionCount | myec2/main.go:57-63 | the group of `r` holds every input record of region `r` as often as the input does, and nothing else |
| Instances.ByRegionMembers | myec2/main.go:57-63 | a record is in the group of `r` exactly when it is in the input and its region is `r` |
| Instances.ByRegionNonEmpty | myec2/main.go:57-63 | the group of `r` is non-empty exactly when `r` occurs in the input |
| Instances.InstancesByRegion | myec2/main.go:57-63 | the keys are exactly the input's regions; each group is the input filtered by its key, in input order; no group is empty; every member of a group has the group's region |
| Instances.GatherPartition | myec2/main.go:57-63 | the groups, concatenated in any order that lists each region once, are a permutation of the input, so the group sizes add up to the input length |
| Instances.Batch | myec2/main.go:133-146 | defines the batch built for one key: the group unchanged, the group's IDs in ascending order, the key as region; `BatchIds` proves its properties |
| Instances.BatchIds | myec2/main.go:133-146 | a batch keeps its region and members unchanged; its ID list is ascending, a permutation of the members' IDs, and of the same length |
| Instances.SortedHostIds | myec2/main.go:133-142 | the collected IDs end up ascending, a permutation of the group's IDs, and equal to their `Sort` |
| Instances.BatchesOfAppend | myec2/main.go:147 | appending the batch of one more key extends the batch list by exactly that batch |
| Instances.BatchesOfRegions | myec2/main.go:132-148 | along a key enumeration, batch `i` has region `order[i]`, no region occurs twice, and every key has a batch |
| Instances.BatchesOfContents | myec2/main.go:135-146 | batch `i` carries `groups[order[i]]` unchanged and an ascending permutation of that group's IDs |
| Instances.SliceShape | myec2/main.go:129-151 | the batches along a key enumeration satisfy `OneBatchPerRegion`: one batch per key, no region twice, each batch carrying its key's group unchanged and an ascending permutation of that group's IDs |
| Instances.IdsPermutation | myec2/main.go:136-138 | records that are a permutation of each other have ID lists that are a permutation of each other |
| Instances.AllIdsGather | myec2/main.go:132-147 | along any key list, the batches' ID lists together hold, as a multiset, the IDs of the groups gathered along the same keys |
| Instances.PartitionIds | myec2/main.go:129-151 | for the groups built by `instancesByRegion` and the batches built from them in any key order, all batches' ID lists together are a permutation of the inventory's IDs and as long as the inventory: every ID is requested exactly as often as it occurs |
| Instances.BuildBatch | myec2/main.go:133-146 | the loop body for one key builds exactly that key's `Batch` |
| Instances.GenerateInstanceSlice | myec2/main.go:129-151 | for whatever key order the map yields: the batches of the keys in that order, batch `i` for key `i`; and `OneBatchPerRegion`: one batch per key, distinct regions, each batch's members the key's group unchanged, its IDs ascending and a permutation of the members' IDs |
| RegionQuery.ToRecord | myec2/main.go:117-123 | defines the record built for one returned instance: its ID, the first `Name` tag, the worker's region, its state and its type; `EnrichAt` states it per position |
| RegionQuery.Flatten | myec2/main.go:108-109 | defines the returned instances in reservation-then-instance order |
| RegionQuery.Enrich | myec2/main.go:109-125 | defines the records for a list of returned instances, in the same order; `EnrichAt`, `EnrichAppend` and `EnrichInRegion` state its properties |
| RegionQuery.WorkerOutput | myec2/main.go:101-126 | defines what one worker sends: nothing when the describe call fails, otherwise the records of all returned instances; `WorkerOutputShape` states its properties |
| RegionQuery.NameTag | myec2/main.go:110-116 | the name is the value of the first tag keyed `Name`, or `""` when there is none |
| RegionQuery.LookupName | myec2/main.go:110-116 | the scan that stops at the first `Name` tag returns exactly `NameTag` |
| RegionQuery.EnrichAt | myec2/main.go:117-123 | one record per returned instance, at the same position, with the worker's region, the first `Name` tag, and the reported ID, state and type |
| RegionQuery.EnrichAppend | myec2/main.go:108-126 | the records of a later reservation follow those of the earlier ones |
| RegionQuery.EnrichInRegion | myec2/main.go:117-124 | every record a worker builds carries the worker's region |
| RegionQuery.WorkerOutputShape | myec2/main.go:101-126 | a worker sends only records of its region; on a describe error it sends nothing; on success it sends one record per instance across all reservations |
| RegionQuery.SendReservation | myec2/main.go:109-125 | the inner loop sends one enriched record per instance of a reservation, in order |
| RegionQuery.CheckRegionInstanceState | myec2/main.go:101-126 | the nested reservation and instance loops send exactly `WorkerOutput`: nothing on error, otherwise one enriched record per instance in reservation-then-instance order |
| Aggregate.Expected | myec2/main.go:70-85 | defines what region `r` contributes to the report: the output of the worker for `r`'s batch, or nothing when no inventory record lies in `r` |
| Aggregate.ReceiveOwn | myec2/main.go:83-85 | receiving the head of a worker's pending records moves it to that region's received part |
| Aggregate.ReceiveStep | myec2/main.go:83-85 | receiving the next record of any worker keeps every region's received part a prefix of its worker's output |
| Aggregate.Drain | myec2/main.go:83-85 | whatever the interleaving, the drained report holds, for each worker, exactly its output in sending order, and no record of any other region |
| Aggregate.OutputsAt | myec2/main.go:73-76 | output `w` of the batch list is the worker output of batch `w` |
| Aggregate.StartWorkers | myec2/main.go:73-76 | one worker per batch; stream `w` is what the worker for batch `w` sends |
| Aggregate.StreamsInRegion | myec2/main.go:73-76 | worker `w` sends only records of the region of batch `w` |
| Aggregate.ReportPerRegion | myec2/main.go:65-88 | each region's records in the report are its expected contribution; the report's regions are inventory regions; as a multiset it is the contributions in any enumeration; empty inventory gives an empty report |
| Aggregate.CollectedIsGather | myec2/main.go:83-85 | the contributions listed along `keys` equal the report's region groups along `keys` |
| Aggregate.ResultsMultiset | myec2/main.go:65-88 | a report whose every region holds exactly that region's contribution is, as a multiset, the concatenation of the contributions in any order listing each region once |
| Aggregate.GetInstancesState | myec2/main.go:65-88 | the error result is always nil; each region's records are its worker's output (none when its describe call failed); only inventory regions occur; as a multiset the report is the union of the per-region outputs in any region order; an empty inventory gives an empty report |
| Scenarios.ByRegionThree | myec2/main.go:59-60 | filtering three records keeps each matching one, in input order |
| Scenarios.PartitionExample | myec2/myec2_test.go:110-189 | partitioning the test inventory gives us-east-1 its two hosts in input order and us-west-1 its one host |
| Scenarios.EastBatchExample | myec2/myec2_test.go:224-227 | the us-east-1 batch asks for `i-east1eeefffggg` then `i-east1hhhiiijjj` (through the steps `IdsPair` and `SortPair`) |
| Scenarios.WestContribution | myec2/main.go:108-124 | a successful describe of us-west-1 yields the one enriched record, named from its `Name` tag |
| Scenarios.CollectedPair | myec2/main.go:83-85 | the contributions along two keys are the first key's followed by the second's |
| Scenarios.OneRecordReport | myec2/main.go:65-88 | a report over two regions, one contributing one record and the other none, is that record alone |
| Scenarios.PartialFailureExample | myec2/main.go:101-105 | with us-east-1's call failing, the report of the test inventory is exactly the us-west-1 record (through the steps `HostsRegions`, the inventory's two regions, and `EastContribution`, nothing from the failed region) |

## Left out

- Goroutines, `sync.WaitGroup`, the channel and the goroutine that closes it
  (myec2/main.go:66-85). They are replaced by sequential loops. The drain
  loop's free choice of worker stands for the channel's interleavings.
- Loading the AWS configuration and building the client
  (myec2/main.go:95-99). These are foreign SDK calls. The `panic` when the
  configuration cannot be loaded aborts the process and is not modelled.
- The `DescribeInstances` call itself (myec2/main.go:101). It is an input
  function; retries, paging and network behaviour are not modelled.
- The error log line on a failed describe (myec2/main.go:103). Logging has
  no effect on the result.
- Nil pointers in the answer (`*tag.Key`, `*tag.Value`,
  `*instance.InstanceId`, and `instance.State`, whose `Name` is read through
  a pointer; myec2/main.go:112-121). In Go a nil there panics the process.
  The model's answer always carries these fields.
- Strings that are not valid UTF-8. A Go string may hold any bytes, a
  Dafny `string` only characters; the model assumes every ID and region is
  valid UTF-8, where byte order and code-point order agree.
- `LoadInstancesFromYAML` and `checkFileExists` (file I/O and YAML
  decoding), and `ExportInstancesQuery` (JSON encoding and file or stdout
  output).
- The command-line program in main.go, the HTTP server in web/web.go and
  the logger in logging/logger.go. None of them is part of this model.
- The batch order that `TestContainerSlice` expects, us-west-1 before
  us-east-1 (myec2/myec2_test.go:193-230). It depends on Go's map iteration
  order, which the code does not fix. The model proves every property for
  every order instead.
- Go's `sort.Slice` is not stable, and the model sorts by insertion. The two
  give the same result: equal strings cannot be told apart, and
  `SortedUnique` shows the ascending permutation is unique.
