/** The concrete inventory of myec2/myec2_test.go (three hosts in two
    regions) and what the model says about it: the partition expected by
    `TestInstancesByRegion`, the ascending ID lists expected by
    `TestContainerSlice`, and a run in which one region's describe call fails. */
module Scenarios {
  import opened StringOrder
  import opened Instances
  import opened RegionQuery
  import opened Aggregate

  const West := Instance("i-west1aabbbccc", "myhost1", "us-west-1", "", "")
  const East1 := Instance("i-east1eeefffggg", "myhost2", "us-east-1", "", "")
  const East2 := Instance("i-east1hhhiiijjj", "myhost3", "us-east-1", "", "")

  const Hosts := [West, East1, East2]

  lemma HostsRegions()
    ensures Regions(Hosts) == {"us-west-1", "us-east-1"}
  {
    assert West in Hosts && East1 in Hosts;
  }

  /** Filtering a three-record inventory keeps each record in place when its
      region matches. */
  lemma ByRegionThree(a: Instance, b: Instance, c: Instance, r: string)
    ensures ByRegion([a, b, c], r) == (if a.region == r then [a] else [])
                                      + (if b.region == r then [b] else [])
                                      + (if c.region == r then [c] else [])
  {
    assert ByRegion([a], r) == if a.region == r then [a] else [] by {
      assert [a][..0] == [];
    }
    assert ByRegion([a, b], r) == ByRegion([a], r) + if b.region == r then [b] else [] by {
      assert [a, b][..1] == [a];
    }
    assert [a, b, c][..2] == [a, b];
  }

  /** `instancesByRegion` on the test inventory: us-east-1 holds the two
      east hosts in input order, us-west-1 the west host. */
  lemma PartitionExample()
    ensures ByRegion(Hosts, "us-east-1") == [East1, East2]
    ensures ByRegion(Hosts, "us-west-1") == [West]
    ensures Regions(Hosts) == {"us-west-1", "us-east-1"}
  {
    HostsRegions();
    ByRegionThree(West, East1, East2, "us-east-1");
    ByRegionThree(West, East1, East2, "us-west-1");
  }

  lemma IdsPair(x: Instance, y: Instance)
    ensures Ids([x, y]) == [x.instanceId, y.instanceId]
  {
  }

  lemma SortPair(a: string, b: string)
    requires Less(a, b)
    ensures Sort([a, b]) == [a, b]
  {
    assert [b][1..] == [] && [a, b][1..] == [b];
  }

  /** The east batch asks for its two IDs in ascending order. */
  lemma EastBatchExample()
    ensures Batch("us-east-1", [East1, East2]).instanceIds == ["i-east1eeefffggg", "i-east1hhhiiijjj"]
  {
    LessAt(East1.instanceId, East2.instanceId, 7);
    IdsPair(East1, East2);
    SortPair(East1.instanceId, East2.instanceId);
  }

  const WestRecord := Instance("i-west1aabbbccc", "myhost1", "us-west-1", "running", "t3.micro")

  /** us-west-1 answers with its one instance; us-east-1 fails. */
  function WestOnly(region: string, ids: seq<string>): DescribeResult {
    if region == "us-west-1" then
      Ok([Reservation([RemoteInstance("i-west1aabbbccc", "running", "t3.micro",
                                      [Tag("env", "dev"), Tag("Name", "myhost1")])])])
    else
      Err("RequestError: send request failed")
  }

  lemma WestContribution()
    ensures Expected(Hosts, WestOnly, "us-west-1") == [WestRecord]
  {
    PartitionExample();
    var batch := Batch("us-west-1", [West]);
    var tags := [Tag("env", "dev"), Tag("Name", "myhost1")];
    assert NameTag(tags) == "myhost1" by {
      assert tags[1].key == "Name" && NoNameBefore(tags, 1);
    }
    var rs := WestOnly(batch.region, batch.instanceIds).reservations;
    assert Flatten(rs) == rs[0].instances by {
      assert rs[..0] == [];
    }
    var xs := rs[0].instances;
    assert Enrich("us-west-1", xs) == [WestRecord] by {
      assert xs[..0] == [];
    }
  }

  lemma EastContribution()
    ensures Expected(Hosts, WestOnly, "us-east-1") == []
  {
    PartitionExample();
  }

  lemma CollectedPair(instances: seq<Instance>, describe: Describer, k1: string, k2: string)
    ensures Collected(instances, describe, [k1, k2])
            == Expected(instances, describe, k1) + Expected(instances, describe, k2)
  {
    assert [k1, k2][1..] == [k2] && [k2][1..] == [];
    assert Collected(instances, describe, [k2]) == Expected(instances, describe, k2) + [];
  }

  /** A report over two regions, one of which contributes a single record
      and the other nothing, is that record alone. */
  lemma OneRecordReport(instances: seq<Instance>, describe: Describer, results: seq<Instance>,
                        k1: string, k2: string, x: Instance)
    requires forall r :: ByRegion(results, r) == Expected(instances, describe, r)
    requires Enumerates([k1, k2], Regions(instances))
    requires Expected(instances, describe, k1) == [x]
    requires Expected(instances, describe, k2) == []
    ensures results == [x]
  {
    ResultsMultiset(instances, describe, results, [k1, k2]);
    CollectedPair(instances, describe, k1, k2);
    assert multiset(results) == multiset{x};
    assert |results| == 1;
    assert results[0] in multiset(results);
  }

  lemma EnumeratesPair(a: string, b: string, regions: set<string>)
    requires a != b && regions == {a, b}
    ensures Enumerates([a, b], regions)
  {
  }

  /** A report of the test inventory in which us-east-1's describe call
      failed holds exactly the us-west-1 record: the failure costs that
      region's records and nothing else. */
  lemma PartialFailureExample(results: seq<Instance>)
    requires forall r :: ByRegion(results, r) == Expected(Hosts, WestOnly, r)
    ensures results == [WestRecord]
  {
    PartitionExample();
    WestContribution();
    EastContribution();
    EnumeratesPair("us-west-1", "us-east-1", Regions(Hosts));
    OneRecordReport(Hosts, WestOnly, results, "us-west-1", "us-east-1", WestRecord);
  }
}
