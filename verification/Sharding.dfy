/** Longest-processing-time allocation onto CI shards. */
module Sharding {
  import opened Wrappers
  import opened Sorting

  const MAX_SAFE_INTEGER := 9007199254740991

  /** A JavaScript number: a value, or one of NaN and the infinities. */
  datatype Number = Finite(value: real) | NotFinite

  /** The own properties of a durations object, in insertion order. */
  type TestDurations = d: seq<(string, Number)>
    | forall i, j :: 0 <= i < j < |d| ==> d[i].0 != d[j].0
    witness []

  datatype ShardingError = InvalidShardCount | DuplicateTestFile | InvalidDurations

  datatype Shard = Shard(files: seq<string>, load: real)

  // ----- durations -----

  predicate ValidDurations(durations: TestDurations) {
    forall i :: 0 <= i < |durations| ==> durations[i].1.Finite? && durations[i].1.value > 0.0
  }

  function Values(durations: TestDurations): seq<real>
    requires ValidDurations(durations)
  {
    seq(|durations|, i requires 0 <= i < |durations| => durations[i].1.value)
  }

  const NumericOrder: (real, real) -> bool := (a, b) => a < b

  function Median(values: seq<real>): Option<real> {
    if values == [] then None else
      SortKeepsElements(NumericOrder, values);
      var sorted := Sort(NumericOrder, values);
      var middle := |sorted| / 2;
      Some(if |sorted| % 2 == 1 then sorted[middle] else (sorted[middle - 1] + sorted[middle]) / 2.0)
  }

  /** What a file without a recorded duration counts for. */
  function Fallback(durations: TestDurations): real
    requires ValidDurations(durations)
  {
    if durations == [] then 1.0 else Median(Values(durations)).value
  }

  predicate Recorded(durations: TestDurations, file: string) {
    exists i :: 0 <= i < |durations| && durations[i].0 == file
  }

  function Duration(durations: TestDurations, file: string): real
    requires ValidDurations(durations)
  {
    if Recorded(durations, file) then
      var i :| 0 <= i < |durations| && durations[i].0 == file;
      durations[i].1.value
    else Fallback(durations)
  }

  /** Longest first, then by path. */
  function Order(durations: TestDurations): (string, string) -> bool
    requires ValidDurations(durations)
  {
    (a: string, b: string) =>
      Duration(durations, a) > Duration(durations, b)
      || (Duration(durations, a) == Duration(durations, b) && LexLess(a, b))
  }

  function SortByDuration(files: seq<string>, durations: TestDurations): Result<seq<string>, ShardingError> {
    if !ValidDurations(durations) then Failure(InvalidDurations)
    else Success(Sort(Order(durations), files))
  }

  // ----- allocation -----

  /** The first of the first `n` shards that none of them is lighter than. */
  function LightestOf(shards: seq<Shard>, n: nat): (best: nat)
    requires 0 < n <= |shards|
    ensures best < n
  {
    if n == 1 then 0 else
      var rest := LightestOf(shards, n - 1);
      if shards[n - 1].load < shards[rest].load then n - 1 else rest
  }

  lemma {:induction false} LightestIsMinimal(shards: seq<Shard>, n: nat)
    requires 0 < n <= |shards|
    ensures forall k :: 0 <= k < n ==> shards[LightestOf(shards, n)].load <= shards[k].load
    ensures forall k :: 0 <= k < LightestOf(shards, n) ==> shards[LightestOf(shards, n)].load < shards[k].load
  {
    if n > 1 {
      LightestIsMinimal(shards, n - 1);
    }
  }

  function Lightest(shards: seq<Shard>): nat
    requires shards != []
  {
    LightestOf(shards, |shards|)
  }

  function Place(shards: seq<Shard>, file: string, ms: real): seq<Shard>
    requires shards != []
  {
    var at := Lightest(shards);
    shards[at := Shard(shards[at].files + [file], shards[at].load + ms)]
  }

  function NoFiles(count: nat): (shards: seq<Shard>)
    ensures |shards| == count
    ensures forall i :: 0 <= i < count ==> shards[i] == Shard([], 0.0)
  {
    if count == 0 then [] else NoFiles(count - 1) + [Shard([], 0.0)]
  }

  /** The first `k` files, each in turn given to the lightest of `count` shards. */
  function Greedy(files: seq<string>, k: nat, p: string -> real, count: nat): (shards: seq<Shard>)
    requires k <= |files| && count > 0
    ensures |shards| == count
  {
    if k == 0 then NoFiles(count)
    else Place(Greedy(files, k - 1, p, count), files[k - 1], p(files[k - 1]))
  }

  function FilesOf(shards: seq<Shard>): (files: seq<seq<string>>)
    ensures |files| == |shards|
    ensures forall i :: 0 <= i < |shards| ==> files[i] == shards[i].files
  {
    if shards == [] then [] else FilesOf(shards[..|shards| - 1]) + [shards[|shards| - 1].files]
  }

  predicate HasDuplicates(files: seq<string>) {
    exists i, j :: 0 <= i < j < |files| && files[i] == files[j]
  }

  function Weights(durations: TestDurations): string -> real
    requires ValidDurations(durations)
  {
    (file: string) => Duration(durations, file)
  }

  function Allocation(files: seq<string>, durations: TestDurations, count: int)
    : Result<seq<seq<string>>, ShardingError>
  {
    if count < 1 || count > MAX_SAFE_INTEGER then Failure(InvalidShardCount)
    else if HasDuplicates(files) then Failure(DuplicateTestFile)
    else
      match SortByDuration(files, durations)
      case Failure(e) => Failure(e)
      case Success(sorted) => Success(FilesOf(Greedy(sorted, |sorted|, Weights(durations), count)))
  }

  method FindLightest(shards: array<Shard>) returns (best: nat)
    requires shards.Length > 0
    ensures best == Lightest(shards[..])
  {
    best := 0;
    for b := 1 to shards.Length
      invariant best < b
      invariant best == LightestOf(shards[..], b)
    {
      if shards[b].load < shards[best].load {
        best := b;
      }
    }
  }

  method AllocateShards(files: seq<string>, durations: TestDurations, count: int)
    returns (result: Result<seq<seq<string>>, ShardingError>)
    ensures result == Allocation(files, durations, count)
  {
    if count < 1 || count > MAX_SAFE_INTEGER {
      return Failure(InvalidShardCount);
    }
    if HasDuplicates(files) {
      return Failure(DuplicateTestFile);
    }
    var sortedFiles := SortByDuration(files, durations);
    if sortedFiles.Failure? {
      return Failure(sortedFiles.error);
    }
    var shards := AllocateSorted(sortedFiles.value, Weights(durations), count);
    result := Success(FilesOf(shards));
  }

  /** The loop over the sorted files. */
  method AllocateSorted(sorted: seq<string>, p: string -> real, count: nat) returns (result: seq<Shard>)
    requires count > 0
    ensures result == Greedy(sorted, |sorted|, p, count)
  {
    var shards := new Shard[count](_ => Shard([], 0.0));
    assert shards[..] == Greedy(sorted, 0, p, count);
    for k := 0 to |sorted|
      invariant shards[..] == Greedy(sorted, k, p, count)
    {
      var file := sorted[k];
      var lightest := FindLightest(shards);
      shards[lightest] := Shard(shards[lightest].files + [file], shards[lightest].load + p(file));
    }
    result := shards[..];
  }
}
