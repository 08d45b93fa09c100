/**
 * Shard planning done by `_get_container` (ci/ray_ci/tester.py): from the
 * number of workers, this worker's index and the parallelism per worker it
 * derives the total shard count and the contiguous block of shard ids this
 * worker runs, and the build name the test container is created with.
 * The source checks none of its integer inputs, so neither does the model;
 * the partition properties are stated for the inputs the command line
 * intends (at least one worker, an index below the worker count, a positive
 * parallelism).
 */
module ShardPlanner {
  import opened Options

  /** The arguments `_get_container` hands to the test container. */
  datatype ContainerSpec = ContainerSpec(buildName: string, shardCount: int, shardIds: seq<int>)

  /** Python's `list(range(lo, hi))`: the integers from `lo` up to, not including, `hi`. */
  function Range(lo: int, hi: int): (r: seq<int>)
    ensures |r| == if lo < hi then hi - lo else 0
    ensures forall k :: 0 <= k < |r| ==> r[k] == lo + k
    ensures forall x :: x in r <==> lo <= x < hi
    decreases hi - lo
  {
    if lo < hi then [lo] + Range(lo + 1, hi) else []
  }

  /**
   * `build_name or f"{team}build"`: the container always gets a non-empty
   * build name; a non-empty given one is kept.
   */
  function BuildName(team: string, buildName: Option<string>): (name: string)
    ensures name != ""
    ensures buildName.Some? && buildName.value != "" ==> name == buildName.value
  {
    if buildName.Some? && buildName.value != "" then buildName.value else team + "build"
  }

  /** Python's `or` treats an empty build name as no build name: both fall back to the team's. */
  lemma EmptyBuildNameIsAbsent(team: string)
    ensures BuildName(team, Some("")) == BuildName(team, None) == team + "build"
  {
  }

  /**
   * What `_get_container` computes for one worker: a non-empty build name,
   * `workers * parallelism` shards in all, and as this worker's block the
   * `parallelism` consecutive ids from `workerId * parallelism` (none when the
   * parallelism is not positive), so it owns exactly the ids in
   * `[workerId * parallelism, (workerId + 1) * parallelism)`.
   */
  function PlanShard(team: string, workers: int, workerId: int, parallelism: int, buildName: Option<string>): (plan: ContainerSpec)
    ensures plan.buildName != ""
    ensures plan.shardCount == workers * parallelism
    ensures |plan.shardIds| == (if parallelism > 0 then parallelism else 0)
    ensures forall k :: 0 <= k < |plan.shardIds| ==> plan.shardIds[k] == workerId * parallelism + k
    ensures forall s :: s in plan.shardIds <==> workerId * parallelism <= s < (workerId + 1) * parallelism
  {
    assert (workerId + 1) * parallelism == workerId * parallelism + parallelism;
    ContainerSpec(
      BuildName(team, buildName),
      workers * parallelism,
      Range(workerId * parallelism, (workerId + 1) * parallelism))
  }

  /** The shard ids a given worker owns (independent of team and build name). */
  function ShardIds(workers: int, workerId: int, parallelism: int): seq<int>
  {
    PlanShard("", workers, workerId, parallelism, None).shardIds
  }

  /** `s` is in `Range(lo, hi)` exactly when `lo <= s < hi`, and then exactly once. */
  lemma {:induction false} RangeCount(lo: int, hi: int, s: int)
    ensures multiset(Range(lo, hi))[s] == if lo <= s < hi then 1 else 0
    decreases hi - lo
  {
    if lo < hi {
      RangeCount(lo + 1, hi, s);
      assert Range(lo, hi) == [lo] + Range(lo + 1, hi);
    }
  }

  /** Adjacent ranges concatenate. */
  lemma {:induction false} RangeSplit(lo: int, mid: int, hi: int)
    requires lo <= mid <= hi
    ensures Range(lo, mid) + Range(mid, hi) == Range(lo, hi)
    decreases mid - lo
  {
    if lo < mid {
      RangeSplit(lo + 1, mid, hi);
      assert Range(lo, mid) + Range(mid, hi) == [lo] + (Range(lo + 1, mid) + Range(mid, hi));
    }
  }

  lemma MulMono(a: int, b: int, p: int)
    requires a <= b && p >= 0
    ensures a * p <= b * p
  {
  }

  /**
   * Every shard id a valid worker owns lies in `[0, shard count)`.
   */
  lemma ShardIdsInRange(workers: int, workerId: int, parallelism: int, s: int)
    requires 0 <= workerId < workers && parallelism >= 1
    requires s in ShardIds(workers, workerId, parallelism)
    ensures 0 <= s < workers * parallelism
  {
    MulMono(0, workerId, parallelism);
    MulMono(workerId + 1, workers, parallelism);
  }

  /** Two different workers never share a shard. */
  lemma ShardsDisjoint(workers: int, w1: int, w2: int, parallelism: int)
    requires parallelism >= 1 && w1 != w2
    ensures forall s :: s in ShardIds(workers, w1, parallelism) ==> s !in ShardIds(workers, w2, parallelism)
  {
    forall s | s in ShardIds(workers, w1, parallelism)
      ensures s !in ShardIds(workers, w2, parallelism)
    {
      if w1 < w2 {
        MulMono(w1 + 1, w2, parallelism);
      } else {
        MulMono(w2 + 1, w1, parallelism);
      }
    }
  }

  /** The shard ids of workers `0 .. n-1`, in worker order. */
  function AllShardIds(workers: int, n: nat, parallelism: int): seq<int>
  {
    if n == 0 then [] else AllShardIds(workers, n - 1, parallelism) + ShardIds(workers, n - 1, parallelism)
  }

  /**
   * Laid end to end in worker order, the blocks of workers `0 .. n-1` are
   * exactly the ids `0 .. n * parallelism - 1`.
   */
  lemma {:induction false} AllShardIdsAreRange(workers: int, n: nat, parallelism: int)
    requires parallelism >= 1
    ensures AllShardIds(workers, n, parallelism) == Range(0, n * parallelism)
  {
    if n > 0 {
      AllShardIdsAreRange(workers, n - 1, parallelism);
      assert (n - 1) * parallelism + parallelism == n * parallelism;
      RangeSplit(0, (n - 1) * parallelism, n * parallelism);
    }
  }

  /**
   * The partition property: over all worker ids in `[0, workers)`, every shard
   * id in `[0, workers * parallelism)` is owned exactly once and no other id is
   * owned at all.
   */
  lemma ShardsPartition(workers: nat, parallelism: int, s: int)
    requires workers >= 1 && parallelism >= 1
    ensures multiset(AllShardIds(workers, workers, parallelism))[s]
      == if 0 <= s < workers * parallelism then 1 else 0
  {
    AllShardIdsAreRange(workers, workers, parallelism);
    RangeCount(0, workers * parallelism, s);
  }

  /** Three workers with two shards each: worker 1 owns shards 2 and 3 of 6. */
  lemma ExampleThreeWorkers()
    ensures PlanShard("core", 3, 1, 2, None) == ContainerSpec("corebuild", 6, [2, 3])
  {
    assert Range(2, 4) == [2] + Range(3, 4);
  }

  /** One worker with parallelism one owns the whole shard space `[0]`. */
  lemma ExampleSingleWorker()
    ensures PlanShard("core", 1, 0, 1, Some("nightly")) == ContainerSpec("nightly", 1, [0])
  {
  }
}
