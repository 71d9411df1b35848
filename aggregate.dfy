/** `GetInstancesState` (myec2/main.go:65-88): partition the inventory, start
    one worker per region batch, and collect everything the workers send on
    the shared channel until the last worker is done.

    The goroutines, the wait group and the channel are replaced by two
    sequential loops: the workers' outputs are computed batch by batch, and
    the drain loop then receives the next record of ANY worker that still has
    one, so every interleaving the channel may deliver is a possible run. What
    is promised is therefore stated per region (deterministic) and as a
    multiset (order-free). */
module Aggregate {
  import opened Instances
  import opened RegionQuery

  datatype Option<T> = None | Some(value: T)

  /** What region `r` contributes to the report: its worker's output, or
      nothing when no inventory instance lies in `r` (no worker runs). */
  ghost function Expected(instances: seq<Instance>, describe: Describer, r: string): seq<Instance> {
    if r in Regions(instances) then WorkerOutput(Batch(r, ByRegion(instances, r)), describe) else []
  }

  /** The contributions of the regions of `keys`, one after another: the
      report of a run in which the workers finish in the order of `keys`. */
  ghost function Collected(instances: seq<Instance>, describe: Describer, keys: seq<string>): seq<Instance> {
    if keys == [] then []
    else Expected(instances, describe, keys[0]) + Collected(instances, describe, keys[1..])
  }

  /** Number of records still to be received. */
  function TotalLength(streams: seq<seq<Instance>>): nat {
    if streams == [] then 0 else |streams[0]| + TotalLength(streams[1..])
  }

  lemma {:induction false} TotalLengthTake(streams: seq<seq<Instance>>, w: nat)
    requires w < |streams| && streams[w] != []
    ensures TotalLength(streams[w := streams[w][1..]]) == TotalLength(streams) - 1
  {
    var next := streams[w := streams[w][1..]];
    if w > 0 {
      assert next[1..] == streams[1..][w - 1 := streams[w][1..]];
      TotalLengthTake(streams[1..], w - 1);
    } else {
      assert next[1..] == streams[1..];
    }
  }

  /** Each worker `w` has sent `streams[w]`; `pending[w]` is what of it is
      still in flight, and everything received so far of region
      `regions[w]` is the part already delivered. */
  ghost predicate InFlight(received: seq<Instance>, pending: seq<seq<Instance>>,
                           streams: seq<seq<Instance>>, regions: seq<string>) {
    && |pending| == |streams| == |regions|
    && (forall w :: 0 <= w < |streams| ==> ByRegion(received, regions[w]) + pending[w] == streams[w])
    && (forall x :: x in received ==> x.region in regions)
  }

  /** Receiving the head of a worker's pending records moves it from
      "pending" to "received" in that worker's region. */
  lemma ReceiveOwn(received: seq<Instance>, pending: seq<Instance>, stream: seq<Instance>, r: string)
    requires ByRegion(received, r) + pending == stream
    requires pending != [] && pending[0].region == r
    ensures ByRegion(received + [pending[0]], r) + pending[1..] == stream
  {
    ByRegionAppend1(received, pending[0], r);
    assert [pending[0]] + pending[1..] == pending;
  }

  /** Receiving the next record of worker `w` keeps `InFlight`. */
  lemma ReceiveStep(received: seq<Instance>, pending: seq<seq<Instance>>,
                    streams: seq<seq<Instance>>, regions: seq<string>, w: nat)
    requires InFlight(received, pending, streams, regions)
    requires forall v, u :: 0 <= v < u < |regions| ==> regions[v] != regions[u]
    requires forall u, x :: 0 <= u < |streams| && x in streams[u] ==> x.region == regions[u]
    requires w < |pending| && pending[w] != []
    ensures InFlight(received + [pending[w][0]], pending[w := pending[w][1..]], streams, regions)
  {
    var inst := pending[w][0];
    var received' := received + [inst];
    var pending' := pending[w := pending[w][1..]];
    assert inst.region == regions[w] by {
      assert inst == streams[w][|ByRegion(received, regions[w])|];
    }
    forall v | 0 <= v < |streams| ensures ByRegion(received', regions[v]) + pending'[v] == streams[v] {
      if v == w {
        ReceiveOwn(received, pending[w], streams[w], regions[w]);
      } else {
        ByRegionAppend1(received, inst, regions[v]);
      }
    }
    forall x | x in received' ensures x.region in regions {
      if x != inst { assert x in received; }
    }
  }

  /** The drain loop `for inst := range instChannel` (myec2/main.go:83-85):
      each step receives the next record of some worker that still has one.
      Since worker `w` only sends records of region `regions[w]` and the
      regions differ, whatever the interleaving, the records of each region
      arrive exactly as that worker sent them. */
  method Drain(streams: seq<seq<Instance>>, ghost regions: seq<string>) returns (received: seq<Instance>)
    requires |streams| == |regions|
    requires forall v, w :: 0 <= v < w < |regions| ==> regions[v] != regions[w]
    requires forall w, x :: 0 <= w < |streams| && x in streams[w] ==> x.region == regions[w]
    ensures forall w :: 0 <= w < |streams| ==> ByRegion(received, regions[w]) == streams[w]
    ensures forall x :: x in received ==> x.region in regions
  {
    received := [];
    var pending := streams;
    while exists w :: 0 <= w < |pending| && pending[w] != []
      invariant InFlight(received, pending, streams, regions)
      decreases TotalLength(pending)
    {
      var w :| 0 <= w < |pending| && pending[w] != [];
      ReceiveStep(received, pending, streams, regions, w);
      TotalLengthTake(pending, w);
      received := received + [pending[w][0]];
      pending := pending[w := pending[w][1..]];
    }
    forall w | 0 <= w < |streams| ensures ByRegion(received, regions[w]) == streams[w] {
      assert pending[w] == [];
    }
  }

  /** The workers' outputs for `batches`, in order. */
  ghost function Outputs(batches: seq<RegionInstances>, describe: Describer): (outs: seq<seq<Instance>>)
    ensures |outs| == |batches|
  {
    if batches == [] then []
    else Outputs(batches[..|batches| - 1], describe) + [WorkerOutput(batches[|batches| - 1], describe)]
  }

  lemma {:induction false} OutputsAt(batches: seq<RegionInstances>, describe: Describer)
    ensures forall w :: 0 <= w < |batches| ==> Outputs(batches, describe)[w] == WorkerOutput(batches[w], describe)
  {
    if batches != [] {
      var front := batches[..|batches| - 1];
      OutputsAt(front, describe);
      assert forall w :: 0 <= w < |front| ==> batches[w] == front[w];
    }
  }

  /** The fan-out loop (myec2/main.go:73-76): one worker per batch, in the
      order of `batches`; `streams[w]` is what worker `w` sends. */
  method StartWorkers(batches: seq<RegionInstances>, describe: Describer) returns (streams: seq<seq<Instance>>)
    ensures |streams| == |batches|
    ensures forall w :: 0 <= w < |batches| ==> streams[w] == WorkerOutput(batches[w], describe)
  {
    streams := [];
    for w := 0 to |batches|
      invariant streams == Outputs(batches[..w], describe)
    {
      var emitted := CheckRegionInstanceState(batches[w], describe);
      assert batches[..w + 1][..w] == batches[..w];
      streams := streams + [emitted];
    }
    assert batches[..|batches|] == batches;
    OutputsAt(batches, describe);
  }

  /** `GetInstancesState` (myec2/main.go:65-88). Each region's records in
      the report are exactly its worker's output; a region whose describe call
      failed contributes nothing; as a multiset the report is the union of the
      per-region outputs, whatever order the regions are taken in; the error
      result is always nil. */
  method GetInstancesState(instances: seq<Instance>, describe: Describer)
      returns (results: seq<Instance>, err: Option<string>)
    ensures err == None
    ensures forall r :: ByRegion(results, r) == Expected(instances, describe, r)
    ensures forall x :: x in results ==> x.region in Regions(instances)
    ensures forall keys :: Enumerates(keys, Regions(instances)) ==>
              multiset(results) == multiset(Collected(instances, describe, keys))
    ensures instances == [] ==> results == []
  {
    var groups := InstancesByRegion(instances);
    var batches;
    ghost var order;
    batches, order := GenerateInstanceSlice(groups);
    var streams := StartWorkers(batches, describe);
    StreamsInRegion(batches, order, streams, describe);
    results := Drain(streams, order);
    err := None;
    ReportPerRegion(instances, describe, groups, order, batches, streams, results);
  }

  /** Worker `w` sends only records of region `order[w]`. */
  lemma StreamsInRegion(batches: seq<RegionInstances>, order: seq<string>,
                        streams: seq<seq<Instance>>, describe: Describer)
    requires |order| == |batches| == |streams|
    requires forall w :: 0 <= w < |batches| ==> batches[w].region == order[w]
    requires forall w :: 0 <= w < |batches| ==> streams[w] == WorkerOutput(batches[w], describe)
    ensures forall w, x :: 0 <= w < |streams| && x in streams[w] ==> x.region == order[w]
  {
    forall w, x | 0 <= w < |streams| && x in streams[w] ensures x.region == order[w] {
      WorkerOutputShape(batches[w], describe);
    }
  }

  /** Links what the drain delivers for each batch to `Expected`, and from
      there to the multiset of contributions. */
  lemma ReportPerRegion(instances: seq<Instance>, describe: Describer, groups: map<string, seq<Instance>>,
                        order: seq<string>, batches: seq<RegionInstances>,
                        streams: seq<seq<Instance>>, results: seq<Instance>)
    requires groups.Keys == Regions(instances)
    requires forall r :: r in groups ==> groups[r] == ByRegion(instances, r)
    requires Enumerates(order, groups.Keys)
    requires batches == BatchesOf(groups, order)
    requires |streams| == |batches|
    requires forall w :: 0 <= w < |batches| ==> streams[w] == WorkerOutput(batches[w], describe)
    requires forall w :: 0 <= w < |batches| ==> ByRegion(results, order[w]) == streams[w]
    requires forall x :: x in results ==> x.region in order
    ensures forall r :: ByRegion(results, r) == Expected(instances, describe, r)
    ensures forall x :: x in results ==> x.region in Regions(instances)
    ensures forall keys :: Enumerates(keys, Regions(instances)) ==>
              multiset(results) == multiset(Collected(instances, describe, keys))
    ensures instances == [] ==> results == []
  {
    forall r ensures ByRegion(results, r) == Expected(instances, describe, r) {
      if r in Regions(instances) {
        var w :| 0 <= w < |order| && order[w] == r;
        assert batches[w] == Batch(r, ByRegion(instances, r));
      } else {
        ByRegionNonEmpty(results, r);
      }
    }
    forall keys | Enumerates(keys, Regions(instances))
      ensures multiset(results) == multiset(Collected(instances, describe, keys))
    {
      ResultsMultiset(instances, describe, results, keys);
    }
  }

  lemma {:induction false} CollectedIsGather(instances: seq<Instance>, describe: Describer,
                                             results: seq<Instance>, keys: seq<string>)
    requires forall r :: ByRegion(results, r) == Expected(instances, describe, r)
    ensures Collected(instances, describe, keys) == Gather(results, keys)
  {
    if keys != [] {
      CollectedIsGather(instances, describe, results, keys[1..]);
    }
  }

  /** A report whose every region holds exactly that region's contribution
      is, as a multiset, the concatenation of the contributions in any
      order that lists each inventory region once. */
  lemma ResultsMultiset(instances: seq<Instance>, describe: Describer, results: seq<Instance>, keys: seq<string>)
    requires forall r :: ByRegion(results, r) == Expected(instances, describe, r)
    requires Enumerates(keys, Regions(instances))
    ensures multiset(results) == multiset(Collected(instances, describe, keys))
  {
    CollectedIsGather(instances, describe, results, keys);
    forall r | r in Regions(results) ensures r in keys {
      ByRegionNonEmpty(results, r);
    }
    GatherPartition(results, keys);
  }
}
