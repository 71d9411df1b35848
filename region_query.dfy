/** One region's worker, `CheckRegionInstanceState` (myec2/main.go:90-127),
    from the moment the remote describe call has answered: the answer is
    turned into one enriched `Instance` per returned instance. The call itself
    is a parameter: a function from the region and the requested IDs to the
    answer, `Ok` with the reservations or `Err`. */
module RegionQuery {
  import opened Instances

  /** A key/value tag on a remote instance. */
  datatype Tag = Tag(key: string, value: string)

  /** What the describe call reports about one instance. */
  datatype RemoteInstance = RemoteInstance(
    instanceId: string,
    state: string,
    instanceType: string,
    tags: seq<Tag>)

  datatype Reservation = Reservation(instances: seq<RemoteInstance>)

  /** The describe call's answer: the reservations, or an API/network error. */
  datatype DescribeResult = Ok(reservations: seq<Reservation>) | Err(message: string)

  /** The remote "describe instances" capability, scoped to a region and a
      list of instance IDs. */
  type Describer = (string, seq<string>) -> DescribeResult

  /** No tag before position `i` has the key "Name". */
  ghost predicate NoNameBefore(tags: seq<Tag>, i: nat) {
    forall j :: 0 <= j < i && j < |tags| ==> tags[j].key != "Name"
  }

  /** The value of the first tag whose key is "Name", or "" if there is none. */
  function NameTag(tags: seq<Tag>): (name: string)
    ensures (forall i :: 0 <= i < |tags| ==> tags[i].key != "Name") ==> name == ""
    ensures forall i :: 0 <= i < |tags| && tags[i].key == "Name" && NoNameBefore(tags, i) ==>
              name == tags[i].value
  {
    if tags == [] then ""
    else if tags[0].key == "Name" then tags[0].value
    else
      var rest := NameTag(tags[1..]);
      assert forall i :: 1 <= i < |tags| ==> tags[i] == tags[1..][i - 1];
      rest
  }

  /** The tag scan of myec2/main.go:110-116: stops at the first "Name" tag. */
  method LookupName(tags: seq<Tag>) returns (instanceName: string)
    ensures instanceName == NameTag(tags)
  {
    instanceName := "";
    for k := 0 to |tags|
      invariant forall j :: 0 <= j < k ==> tags[j].key != "Name"
    {
      if tags[k].key == "Name" {
        instanceName := tags[k].value;
        return;
      }
    }
  }

  /** The record built for one returned instance (myec2/main.go:117-123). */
  function ToRecord(region: string, inst: RemoteInstance): Instance {
    Instance(inst.instanceId, NameTag(inst.tags), region, inst.state, inst.instanceType)
  }

  /** All instances of all reservations, reservation by reservation. */
  function Flatten(rs: seq<Reservation>): seq<RemoteInstance> {
    if rs == [] then [] else Flatten(rs[..|rs| - 1]) + rs[|rs| - 1].instances
  }

  /** The records for `xs`, in the same order. */
  function Enrich(region: string, xs: seq<RemoteInstance>): seq<Instance> {
    if xs == [] then [] else Enrich(region, xs[..|xs| - 1]) + [ToRecord(region, xs[|xs| - 1])]
  }

  /** One record per instance, at the same position, carrying the worker's
      region, the first "Name" tag and the reported ID, state and type. */
  lemma {:induction false} EnrichAt(region: string, xs: seq<RemoteInstance>)
    ensures |Enrich(region, xs)| == |xs|
    ensures forall k :: 0 <= k < |xs| ==>
              Enrich(region, xs)[k] == Instance(xs[k].instanceId, NameTag(xs[k].tags), region,
                                                xs[k].state, xs[k].instanceType)
  {
    if xs != [] {
      var xs' := xs[..|xs| - 1];
      EnrichAt(region, xs');
      assert forall k :: 0 <= k < |xs'| ==> xs[k] == xs'[k];
    }
  }

  lemma {:induction false} EnrichAppend(region: string, xs: seq<RemoteInstance>, ys: seq<RemoteInstance>)
    ensures Enrich(region, xs + ys) == Enrich(region, xs) + Enrich(region, ys)
  {
    if ys == [] {
      assert xs + ys == xs;
    } else {
      var ys' := ys[..|ys| - 1];
      assert ys == ys' + [ys[|ys| - 1]];
      assert xs + ys == (xs + ys') + [ys[|ys| - 1]];
      assert (xs + ys)[..|xs + ys| - 1] == xs + ys';
      EnrichAppend(region, xs, ys');
    }
  }

  /** Every record of a region's output belongs to that region. */
  lemma {:induction false} EnrichInRegion(region: string, xs: seq<RemoteInstance>)
    ensures forall x :: x in Enrich(region, xs) ==> x.region == region
  {
    EnrichAt(region, xs);
  }

  /** What the worker for `batch` sends: nothing when the describe call
      fails, otherwise one record per returned instance. */
  function WorkerOutput(batch: RegionInstances, describe: Describer): seq<Instance> {
    match describe(batch.region, batch.instanceIds)
    case Err(_) => []
    case Ok(rs) => Enrich(batch.region, Flatten(rs))
  }

  /** The worker's output lies in its own region, and is empty on a failed
      describe call: a failing region contributes nothing. */
  lemma WorkerOutputShape(batch: RegionInstances, describe: Describer)
    ensures forall x :: x in WorkerOutput(batch, describe) ==> x.region == batch.region
    ensures describe(batch.region, batch.instanceIds).Err? ==> WorkerOutput(batch, describe) == []
    ensures describe(batch.region, batch.instanceIds).Ok? ==>
              |WorkerOutput(batch, describe)| == |Flatten(describe(batch.region, batch.instanceIds).reservations)|
  {
    match describe(batch.region, batch.instanceIds)
    case Err(_) =>
    case Ok(rs) =>
      EnrichInRegion(batch.region, Flatten(rs));
      EnrichAt(batch.region, Flatten(rs));
  }

  /** The inner loop over one reservation's instances (myec2/main.go:109-125):
      one record per instance, sent in the reservation's order. */
  method SendReservation(region: string, instances: seq<RemoteInstance>) returns (sent: seq<Instance>)
    ensures sent == Enrich(region, instances)
  {
    sent := [];
    for j := 0 to |instances|
      invariant sent == Enrich(region, instances[..j])
    {
      var instance := instances[j];
      var instanceName := LookupName(instance.tags);
      var record := Instance(instance.instanceId, instanceName, region,
                             instance.state, instance.instanceType);
      assert instances[..j + 1][..j] == instances[..j];
      sent := sent + [record];
    }
    assert instances[..|instances|] == instances;
  }

  /** `CheckRegionInstanceState` after the client is built
      (myec2/main.go:101-126): on error it logs and returns having sent
      nothing; otherwise it walks reservations, then instances, and sends
      one record each. `emitted` is what it sends, in sending order. */
  method CheckRegionInstanceState(batch: RegionInstances, describe: Describer) returns (emitted: seq<Instance>)
    ensures emitted == WorkerOutput(batch, describe)
  {
    emitted := [];
    var resp := describe(batch.region, batch.instanceIds);
    if resp.Err? {
      return;
    }
    var reservations := resp.reservations;
    for i := 0 to |reservations|
      invariant emitted == Enrich(batch.region, Flatten(reservations[..i]))
    {
      var sent := SendReservation(batch.region, reservations[i].instances);
      assert reservations[..i + 1][..i] == reservations[..i];
      EnrichAppend(batch.region, Flatten(reservations[..i]), reservations[i].instances);
      emitted := emitted + sent;
    }
    assert reservations[..|reservations|] == reservations;
  }
}
