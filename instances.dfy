/** The instance records of myec2/main.go and the two sequential steps that
    turn the flat inventory into one query batch per region:
    `instancesByRegion` (myec2/main.go:57-63) and `generateInstanceSlice`
    (myec2/main.go:129-151). */
module Instances {
  import opened StringOrder

  /** `Instance` (myec2/main.go:24-30). Inventory records carry only the ID
      and the region; query results fill in name, state and type. */
  datatype Instance = Instance(
    instanceId: string,
    name: string,
    region: string,
    state: string,
    instanceType: string)

  /** `RegionInstances` (myec2/main.go:18-22): one region's query batch. */
  datatype RegionInstances = RegionInstances(
    instanceList: seq<Instance>,
    instanceIds: seq<string>,
    region: string)

  /** The regions that occur in `s`. */
  ghost function Regions(s: seq<Instance>): set<string> {
    set x | x in s :: x.region
  }

  /** The members of `s` in region `r`, in the order of `s`. */
  function ByRegion(s: seq<Instance>, r: string): seq<Instance> {
    if s == [] then []
    else ByRegion(s[..|s| - 1], r) + (if s[|s| - 1].region == r then [s[|s| - 1]] else [])
  }

  /** The instance IDs of `s`, position by position. */
  function Ids(s: seq<Instance>): (ids: seq<string>)
    ensures |ids| == |s|
  {
    seq(|s|, k requires 0 <= k < |s| => s[k].instanceId)
  }

  lemma ByRegionAppend1(s: seq<Instance>, x: Instance, r: string)
    ensures ByRegion(s + [x], r) == ByRegion(s, r) + (if x.region == r then [x] else [])
  {
    assert (s + [x])[..|s|] == s;
  }

  /** Filtering distributes over concatenation. */
  lemma {:induction false} ByRegionAppend(s: seq<Instance>, t: seq<Instance>, r: string)
    ensures ByRegion(s + t, r) == ByRegion(s, r) + ByRegion(t, r)
  {
    if t != [] {
      var t' := t[..|t| - 1];
      var x := t[|t| - 1];
      assert t == t' + [x];
      assert s + t == (s + t') + [x];
      ByRegionAppend(s, t', r);
      ByRegionAppend1(s + t', x, r);
      ByRegionAppend1(t', x, r);
    } else {
      assert s + t == s;
    }
  }

  /** The group of `r` holds exactly the members of `s` whose region is `r`,
      each as often as in `s`: every member has region `r` and none is lost. */
  lemma {:induction false} ByRegionCount(s: seq<Instance>, r: string, x: Instance)
    ensures multiset(ByRegion(s, r))[x] == if x.region == r then multiset(s)[x] else 0
  {
    if s != [] {
      var s' := s[..|s| - 1];
      assert s == s' + [s[|s| - 1]];
      ByRegionCount(s', r, x);
    }
  }

  lemma ByRegionMembers(s: seq<Instance>, r: string)
    ensures forall x :: x in ByRegion(s, r) <==> x in s && x.region == r
  {
    forall x ensures x in ByRegion(s, r) <==> x in s && x.region == r {
      ByRegionCount(s, r, x);
    }
  }

  /** A group is non-empty exactly when its region occurs in the input. */
  lemma {:induction false} ByRegionNonEmpty(s: seq<Instance>, r: string)
    ensures ByRegion(s, r) != [] <==> r in Regions(s)
  {
    if s != [] {
      var s' := s[..|s| - 1];
      var x := s[|s| - 1];
      assert s == s' + [x];
      ByRegionNonEmpty(s', r);
      assert Regions(s) == Regions(s') + {x.region};
    }
  }

  /** `instancesByRegion` (myec2/main.go:57-63): appends each instance to
      the group of its region. The keys are exactly the regions of the input,
      and each group is the input filtered by that region, in input order. */
  method InstancesByRegion(instances: seq<Instance>) returns (groups: map<string, seq<Instance>>)
    ensures groups.Keys == Regions(instances)
    ensures forall r :: r in groups ==> groups[r] == ByRegion(instances, r)
    ensures forall r :: r in groups ==> groups[r] != []
    ensures forall r, x :: r in groups && x in groups[r] ==> x.region == r
  {
    groups := map[];
    for i := 0 to |instances|
      invariant groups.Keys == Regions(instances[..i])
      invariant forall r :: r in groups ==> groups[r] == ByRegion(instances[..i], r)
    {
      var inst := instances[i];
      assert instances[..i + 1] == instances[..i] + [inst];
      assert Regions(instances[..i + 1]) == Regions(instances[..i]) + {inst.region};
      forall r ensures ByRegion(instances[..i + 1], r)
                       == ByRegion(instances[..i], r) + (if inst.region == r then [inst] else []) {
        ByRegionAppend1(instances[..i], inst, r);
      }
      if inst.region !in groups {
        ByRegionNonEmpty(instances[..i], inst.region);
      }
      var group := if inst.region in groups then groups[inst.region] else [];
      groups := groups[inst.region := group + [inst]];
    }
    assert instances[..|instances|] == instances;
    forall r | r in groups ensures groups[r] != [] {
      ByRegionNonEmpty(instances, r);
    }
    forall r, x | r in groups && x in groups[r] ensures x.region == r {
      ByRegionMembers(instances, r);
    }
  }

  /** The groups of `keys`, one after another. */
  function Gather(s: seq<Instance>, keys: seq<string>): seq<Instance> {
    if keys == [] then [] else ByRegion(s, keys[0]) + Gather(s, keys[1..])
  }

  /** `keys` lists every region of `regions` exactly once: the shape of one
      Go map iteration over a map with those keys. */
  ghost predicate Enumerates(keys: seq<string>, regions: set<string>) {
    && (forall i, j :: 0 <= i < j < |keys| ==> keys[i] != keys[j])
    && (forall k :: k in keys <==> k in regions)
  }

  lemma {:induction false} GatherCount(s: seq<Instance>, keys: seq<string>, x: Instance)
    requires forall i, j :: 0 <= i < j < |keys| ==> keys[i] != keys[j]
    ensures multiset(Gather(s, keys))[x] == if x.region in keys then multiset(s)[x] else 0
  {
    if keys != [] {
      GatherCount(s, keys[1..], x);
      ByRegionCount(s, keys[0], x);
      assert x.region in keys <==> x.region == keys[0] || x.region in keys[1..] by {
        assert keys == [keys[0]] + keys[1..];
      }
    }
  }

  /** The groups, taken in any order that visits each region once, are a
      permutation of the input; in particular their sizes add up to its length. */
  lemma GatherPartition(s: seq<Instance>, keys: seq<string>)
    requires forall i, j :: 0 <= i < j < |keys| ==> keys[i] != keys[j]
    requires Regions(s) <= set k | k in keys
    ensures multiset(Gather(s, keys)) == multiset(s)
    ensures |Gather(s, keys)| == |s|
  {
    forall x ensures multiset(Gather(s, keys))[x] == multiset(s)[x] {
      GatherCount(s, keys, x);
      if x in s {
        assert x.region in Regions(s);
      }
    }
    assert multiset(Gather(s, keys)) == multiset(s);
    assert |multiset(Gather(s, keys))| == |multiset(s)|;
  }

  /** The batch `generateInstanceSlice` builds for `region` from its group:
      the unchanged members and their IDs in ascending order. */
  function Batch(region: string, members: seq<Instance>): RegionInstances {
    RegionInstances(members, Sort(Ids(members)), region)
  }

  /** A batch's ID list is ascending and is a permutation of its members' IDs. */
  lemma BatchIds(region: string, members: seq<Instance>)
    ensures Batch(region, members).region == region
    ensures Batch(region, members).instanceList == members
    ensures Sorted(Batch(region, members).instanceIds)
    ensures multiset(Batch(region, members).instanceIds) == multiset(Ids(members))
    ensures |Batch(region, members).instanceIds| == |members|
  {
    var ids := Sort(Ids(members));
    assert |multiset(ids)| == |multiset(Ids(members))|;
  }

  /** Collects the IDs of one group and sorts them in place
      (myec2/main.go:133-142). */
  method SortedHostIds(instances: seq<Instance>) returns (hostIds: seq<string>)
    ensures Sorted(hostIds)
    ensures multiset(hostIds) == multiset(Ids(instances))
    ensures hostIds == Sort(Ids(instances))
  {
    var buffer := new string[|instances|];
    for k := 0 to |instances|
      invariant forall m :: 0 <= m < k ==> buffer[m] == instances[m].instanceId
    {
      buffer[k] := instances[k].instanceId;
    }
    assert buffer[..] == Ids(instances);
    SortInPlace(buffer);
    hostIds := buffer[..];
  }

  /** The body of the map iteration for one key (myec2/main.go:133-146):
      collect and sort the group's IDs and assemble the batch. */
  method BuildBatch(region: string, instances: seq<Instance>) returns (ri: RegionInstances)
    ensures ri == Batch(region, instances)
  {
    var hostIds := SortedHostIds(instances);
    ri := RegionInstances(instances, hostIds, region);
  }

  /** The batches of the regions in `order`, in that order. */
  function BatchesOf(groups: map<string, seq<Instance>>, order: seq<string>): (bs: seq<RegionInstances>)
    requires forall k :: k in order ==> k in groups
    ensures |bs| == |order|
  {
    seq(|order|, i requires 0 <= i < |order| => Batch(order[i], groups[order[i]]))
  }

  lemma BatchesOfAppend(groups: map<string, seq<Instance>>, order: seq<string>, region: string)
    requires forall k :: k in order ==> k in groups
    requires region in groups
    ensures BatchesOf(groups, order + [region]) == BatchesOf(groups, order) + [Batch(region, groups[region])]
  {
    var bs := BatchesOf(groups, order + [region]);
    var bs' := BatchesOf(groups, order) + [Batch(region, groups[region])];
    forall i | 0 <= i < |bs| ensures bs[i] == bs'[i] {
      if i < |order| { assert (order + [region])[i] == order[i]; }
    }
  }

  /** Batches built along a key enumeration: one per key, region equal to
      its key, no region twice, every key covered. */
  lemma BatchesOfRegions(groups: map<string, seq<Instance>>, order: seq<string>)
    requires Enumerates(order, groups.Keys)
    ensures forall i :: 0 <= i < |order| ==> BatchesOf(groups, order)[i].region == order[i]
    ensures forall i, j :: 0 <= i < j < |order| ==>
              BatchesOf(groups, order)[i].region != BatchesOf(groups, order)[j].region
    ensures forall r :: r in groups <==>
              exists i :: 0 <= i < |order| && BatchesOf(groups, order)[i].region == r
  {
    var bs := BatchesOf(groups, order);
    forall r | r in groups ensures exists i :: 0 <= i < |order| && bs[i].region == r {
      var i :| 0 <= i < |order| && order[i] == r;
      assert bs[i].region == r;
    }
  }

  /** Each batch built from the groups carries its region's group unchanged
      and an ascending permutation of that group's IDs. */
  lemma BatchesOfContents(groups: map<string, seq<Instance>>, order: seq<string>)
    requires forall k :: k in order ==> k in groups
    ensures forall i :: 0 <= i < |order| ==>
              var b := BatchesOf(groups, order)[i];
              b.region in groups && b.instanceList == groups[b.region]
    ensures forall i :: 0 <= i < |order| ==> Sorted(BatchesOf(groups, order)[i].instanceIds)
    ensures forall i :: 0 <= i < |order| ==>
              var b := BatchesOf(groups, order)[i];
              multiset(b.instanceIds) == multiset(Ids(b.instanceList))
  {
    forall i | 0 <= i < |order|
      ensures Sorted(BatchesOf(groups, order)[i].instanceIds)
      ensures multiset(BatchesOf(groups, order)[i].instanceIds) == multiset(Ids(groups[order[i]]))
    {
      BatchIds(order[i], groups[order[i]]);
    }
  }

  lemma IdsAppend(a: seq<Instance>, b: seq<Instance>)
    ensures Ids(a + b) == Ids(a) + Ids(b)
  {
  }

  /** Taking out the record at `k` takes out one copy of it. */
  lemma RemoveAt(b: seq<Instance>, k: nat)
    requires k < |b|
    ensures multiset(b[..k] + b[k + 1..]) == multiset(b) - multiset{b[k]}
  {
    assert b == b[..k] + [b[k]] + b[k + 1..];
    assert multiset(b) == multiset(b[..k] + b[k + 1..]) + multiset{b[k]};
  }

  /** ... and one copy of its ID. */
  lemma RemoveIdAt(b: seq<Instance>, k: nat)
    requires k < |b|
    ensures multiset(Ids(b)) == multiset(Ids(b[..k] + b[k + 1..])) + multiset{b[k].instanceId}
  {
    assert b == b[..k] + [b[k]] + b[k + 1..];
    IdsAppend(b[..k], [b[k]]);
    IdsAppend(b[..k] + [b[k]], b[k + 1..]);
    IdsAppend(b[..k], b[k + 1..]);
  }

  /** Records that are a permutation of each other have IDs that are a
      permutation of each other. */
  lemma {:induction false} IdsPermutation(a: seq<Instance>, b: seq<Instance>)
    requires multiset(a) == multiset(b)
    ensures multiset(Ids(a)) == multiset(Ids(b))
    decreases |a|
  {
    if a != [] {
      assert a[0] in b by {
        assert a[0] in multiset(b);
      }
      var k :| 0 <= k < |b| && b[k] == a[0];
      var a', b' := a[1..], b[..k] + b[k + 1..];
      assert multiset(a') == multiset(b') by {
        TailMultiset(a);
        RemoveAt(b, k);
      }
      IdsPermutation(a', b');
      IdsConsStep(a, b, k);
    }
  }

  lemma IdsCons(a: seq<Instance>)
    requires a != []
    ensures multiset(Ids(a)) == multiset(Ids(a[1..])) + multiset{a[0].instanceId}
  {
    assert a == [a[0]] + a[1..];
    IdsAppend([a[0]], a[1..]);
  }

  lemma IdsConsStep(a: seq<Instance>, b: seq<Instance>, k: nat)
    requires a != [] && k < |b| && b[k] == a[0]
    requires multiset(Ids(a[1..])) == multiset(Ids(b[..k] + b[k + 1..]))
    ensures multiset(Ids(a)) == multiset(Ids(b))
  {
    IdsCons(a);
    RemoveIdAt(b, k);
  }

  /** The requested ID lists of the batches, one after another. */
  function AllIds(bs: seq<RegionInstances>): seq<string> {
    if bs == [] then [] else bs[0].instanceIds + AllIds(bs[1..])
  }

  /** Along a key list, the batches request, as a multiset, the IDs of the
      groups gathered along the same keys. */
  lemma {:induction false} AllIdsGather(instances: seq<Instance>, groups: map<string, seq<Instance>>,
                                        order: seq<string>)
    requires forall k :: k in order ==> k in groups
    requires forall r :: r in groups ==> groups[r] == ByRegion(instances, r)
    ensures multiset(AllIds(BatchesOf(groups, order))) == multiset(Ids(Gather(instances, order)))
  {
    if order != [] {
      var bs := BatchesOf(groups, order);
      assert bs[1..] == BatchesOf(groups, order[1..]);
      AllIdsGather(instances, groups, order[1..]);
      BatchIds(order[0], groups[order[0]]);
      IdsAppend(ByRegion(instances, order[0]), Gather(instances, order[1..]));
    }
  }

  /** The partition of the inventory into batches, stated on instance IDs:
      for the groups `instancesByRegion` builds and the batches
      `generateInstanceSlice` builds from them in any key order, the ID lists
      of all batches together are a permutation of the inventory's IDs. Every
      ID is requested exactly as often as it occurs, and by no two batches
      unless it occurs twice. */
  lemma PartitionIds(instances: seq<Instance>, groups: map<string, seq<Instance>>, order: seq<string>)
    requires groups.Keys == Regions(instances)
    requires forall r :: r in groups ==> groups[r] == ByRegion(instances, r)
    requires Enumerates(order, groups.Keys)
    ensures multiset(AllIds(BatchesOf(groups, order))) == multiset(Ids(instances))
    ensures |AllIds(BatchesOf(groups, order))| == |instances|
  {
    AllIdsGather(instances, groups, order);
    GatherPartition(instances, order);
    IdsPermutation(Gather(instances, order), instances);
    var all := AllIds(BatchesOf(groups, order));
    assert |multiset(all)| == |multiset(Ids(instances))|;
  }

  /** What `generateInstanceSlice` promises of its result: one batch per
      key and no region twice; each batch carries its key's group unchanged
      and an ascending permutation of that group's IDs. */
  ghost predicate OneBatchPerRegion(groups: map<string, seq<Instance>>, containers: seq<RegionInstances>) {
    && |containers| == |groups|
    && (forall i, j :: 0 <= i < j < |containers| ==> containers[i].region != containers[j].region)
    && (forall r :: r in groups <==> exists i :: 0 <= i < |containers| && containers[i].region == r)
    && (forall i :: 0 <= i < |containers| ==>
          containers[i].region in groups && containers[i].instanceList == groups[containers[i].region])
    && (forall i :: 0 <= i < |containers| ==> Sorted(containers[i].instanceIds))
    && (forall i :: 0 <= i < |containers| ==>
          multiset(containers[i].instanceIds) == multiset(Ids(containers[i].instanceList)))
  }

  /** The batches built along a key enumeration form a slice with one batch
      per region. */
  lemma SliceShape(groups: map<string, seq<Instance>>, order: seq<string>)
    requires Enumerates(order, groups.Keys) && |order| == |groups|
    ensures OneBatchPerRegion(groups, BatchesOf(groups, order))
  {
    var bs := BatchesOf(groups, order);
    BatchesOfRegions(groups, order);
    BatchesOfContents(groups, order);
    assert forall i :: 0 <= i < |bs| ==> bs[i].region in groups && bs[i].instanceList == groups[bs[i].region];
    assert forall i :: 0 <= i < |bs| ==> Sorted(bs[i].instanceIds);
    assert forall i :: 0 <= i < |bs| ==> multiset(bs[i].instanceIds) == multiset(Ids(bs[i].instanceList));
  }

  /** Part way through a map iteration over `keys`: `order` lists the keys
      already visited, once each, and `unvisited` holds the rest. */
  ghost predicate Visiting(keys: set<string>, order: seq<string>, visited: set<string>, unvisited: set<string>) {
    && visited !! unvisited && visited + unvisited == keys
    && |order| == |visited|
    && (forall i, j :: 0 <= i < j < |order| ==> order[i] != order[j])
    && (forall k :: k in order <==> k in visited)
  }

  /** Visiting one more key keeps `Visiting`. */
  lemma VisitStep(keys: set<string>, order: seq<string>, visited: set<string>, unvisited: set<string>, key: string)
    requires Visiting(keys, order, visited, unvisited) && key in unvisited
    ensures Visiting(keys, order + [key], visited + {key}, unvisited - {key})
  {
    assert key !in visited;
  }

  /** When no key is left, `order` enumerates all keys. */
  lemma VisitDone(keys: set<string>, order: seq<string>, visited: set<string>)
    requires Visiting(keys, order, visited, {})
    ensures Enumerates(order, keys)
    ensures |order| == |keys|
  {
  }

  /** `generateInstanceSlice` (myec2/main.go:129-151). Go visits the map's
      keys in an unspecified order; here each step takes any key not yet
      visited, and `order` records the order taken. The result is the batch
      of every key, each key once, in that order; every ensures below holds
      whatever the order. */
  method GenerateInstanceSlice(groups: map<string, seq<Instance>>)
      returns (containers: seq<RegionInstances>, ghost order: seq<string>)
    ensures Enumerates(order, groups.Keys)
    ensures containers == BatchesOf(groups, order)
    ensures forall i :: 0 <= i < |containers| ==> containers[i].region == order[i]
    ensures OneBatchPerRegion(groups, containers)
  {
    containers, order := [], [];
    var unvisited := groups.Keys;
    ghost var visited: set<string> := {};
    while unvisited != {}
      invariant Visiting(groups.Keys, order, visited, unvisited)
      invariant containers == BatchesOf(groups, order)
      decreases unvisited
    {
      var region :| region in unvisited;
      var ri := BuildBatch(region, groups[region]);
      BatchesOfAppend(groups, order, region);
      VisitStep(groups.Keys, order, visited, unvisited, region);
      containers, order := containers + [ri], order + [region];
      unvisited := unvisited - {region};
      visited := visited + {region};
    }
    VisitDone(groups.Keys, order, visited);
    BatchesOfRegions(groups, order);
    SliceShape(groups, order);
  }
}
