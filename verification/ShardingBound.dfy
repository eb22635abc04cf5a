/** Sharding partitions the files, within Graham's bound. */
module ShardingBound {
  import opened Sorting
  import opened Sharding

  function Sum(p: string -> real, files: seq<string>): real {
    if files == [] then 0.0 else Sum(p, files[..|files| - 1]) + p(files[|files| - 1])
  }

  function Flatten(shards: seq<seq<string>>): seq<string> {
    if shards == [] then [] else Flatten(shards[..|shards| - 1]) + shards[|shards| - 1]
  }

  /** The load of the heaviest shard. */
  function MaxLoad(p: string -> real, shards: seq<seq<string>>): (max: real)
    requires shards != []
    ensures forall s :: s in shards ==> Sum(p, s) <= max
    ensures exists s :: s in shards && Sum(p, s) == max
  {
    var last := Sum(p, shards[|shards| - 1]);
    if |shards| == 1 then
      assert shards[0] in shards;
      last
    else
      var rest := MaxLoad(p, shards[..|shards| - 1]);
      assert shards[|shards| - 1] in shards;
      if last > rest then last else rest
  }

  /** The files as a multiset, each in exactly one of `count` shards. */
  predicate Splits(shards: seq<seq<string>>, files: seq<string>, count: int) {
    |shards| == count && multiset(Flatten(shards)) == multiset(files)
  }

  predicate AllPositive(p: string -> real, files: seq<string>) {
    forall g :: g in files ==> p(g) > 0.0
  }

  predicate AtMost(p: string -> real, shards: seq<seq<string>>, v: real) {
    forall s :: s in shards ==> Sum(p, s) <= v
  }

  predicate AtLeast(p: string -> real, shards: seq<seq<string>>, low: real) {
    forall s :: s in shards ==> low <= Sum(p, s)
  }

  // ----- sums and flattening -----

  lemma {:induction false} SumAppend(p: string -> real, a: seq<string>, b: seq<string>)
    ensures Sum(p, a + b) == Sum(p, a) + Sum(p, b)
  {
    if b == [] {
      assert a + b == a;
    } else {
      assert (a + b)[..|a + b| - 1] == a + b[..|b| - 1];
      SumAppend(p, a, b[..|b| - 1]);
    }
  }

  lemma {:induction false} SumIgnoresOrder(p: string -> real, a: seq<string>, b: seq<string>)
    requires multiset(a) == multiset(b)
    ensures Sum(p, a) == Sum(p, b)
  {
    if a == [] {
      assert |multiset(b)| == |b|;
    } else {
      var n := |a| - 1;
      var k := SameElement(a, n, b);
      assert RemoveAt(a, n) == a[..n];
      SumIgnoresOrder(p, a[..n], RemoveAt(b, k));
      SumAppend(p, b[..k], b[k + 1..]);
      assert b == b[..k] + [b[k]] + b[k + 1..];
      SumAppend(p, b[..k] + [b[k]], b[k + 1..]);
      assert (b[..k] + [b[k]])[..k] == b[..k];
    }
  }

  /** `count` times `x`. */
  function Times(count: nat, x: real): real {
    if count == 0 then 0.0 else Times(count - 1, x) + x
  }

  lemma {:induction false} TimesIsProduct(count: nat, x: real)
    ensures Times(count, x) == count as real * x
  {
    if count > 0 {
      TimesIsProduct(count - 1, x);
      var less := (count - 1) as real;
      assert (less + 1.0) * x == less * x + x;
    }
  }

  lemma {:induction false} TimesAdds(count: nat, x: real, y: real)
    ensures Times(count, x + y) == Times(count, x) + Times(count, y)
  {
    if count > 0 {
      TimesAdds(count - 1, x, y);
    }
  }

  lemma {:induction false} TimesThirds(count: nat, third: real, x: real)
    requires 3.0 * third <= x
    ensures 3.0 * Times(count, third) <= Times(count, x)
  {
    if count > 0 {
      TimesThirds(count - 1, third, x);
    }
  }

  /** Bounds on every shard add up. */
  lemma {:induction false} TotalAtMost(p: string -> real, shards: seq<seq<string>>, files: seq<string>, high: real)
    requires multiset(Flatten(shards)) == multiset(files)
    requires forall s :: s in shards ==> Sum(p, s) <= high
    ensures Sum(p, files) <= Times(|shards|, high)
  {
    SumIgnoresOrder(p, Flatten(shards), files);
    if shards != [] {
      var n := |shards| - 1;
      TotalAtMost(p, shards[..n], Flatten(shards[..n]), high);
      SumAppend(p, Flatten(shards[..n]), shards[n]);
      assert shards[n] in shards;
    }
  }

  lemma {:induction false} TotalAtLeast(p: string -> real, shards: seq<seq<string>>, files: seq<string>, low: real)
    requires multiset(Flatten(shards)) == multiset(files)
    requires AtLeast(p, shards, low)
    ensures Times(|shards|, low) <= Sum(p, files)
  {
    SumIgnoresOrder(p, Flatten(shards), files);
    if shards != [] {
      var n := |shards| - 1;
      TotalAtLeast(p, shards[..n], Flatten(shards[..n]), low);
      SumAppend(p, Flatten(shards[..n]), shards[n]);
      assert shards[n] in shards;
    }
  }

  lemma {:induction false} LoadsAreSums(files: seq<string>, k: nat, p: string -> real, count: nat)
    requires k <= |files| && count > 0
    ensures forall s :: s in Greedy(files, k, p, count) ==> s.load == Sum(p, s.files)
  {
    if k > 0 {
      var before := Greedy(files, k - 1, p, count);
      LoadsAreSums(files, k - 1, p, count);
      assert before[Lightest(before)] in before;
    }
  }

  lemma {:induction false} EmptyShards(count: nat)
    ensures Flatten(seq(count, _ => [])) == []
  {
    if count > 0 {
      EmptyShards(count - 1);
      assert seq<seq<string>>(count, _ => [])[..count - 1] == seq<seq<string>>(count - 1, _ => []);
    }
  }

  /** The files in the first `n` shards together. */
  function Held(shards: seq<Shard>, n: nat): multiset<string>
    requires n <= |shards|
  {
    if n == 0 then multiset{} else Held(shards, n - 1) + multiset(shards[n - 1].files)
  }

  lemma {:induction false} HeldIsFlattened(shards: seq<Shard>, n: nat)
    requires n <= |shards|
    ensures Held(shards, n) == multiset(Flatten(FilesOf(shards)[..n]))
  {
    if n > 0 {
      HeldIsFlattened(shards, n - 1);
      var files := FilesOf(shards);
      assert files[..n][..n - 1] == files[..n - 1];
      assert files[n - 1] == shards[n - 1].files;
    }
  }

  lemma {:induction false} HeldAddsFile(shards: seq<Shard>, after: seq<Shard>, at: nat, file: string, n: nat)
    requires n <= |shards| && at < |shards| == |after|
    requires after[at].files == shards[at].files + [file]
    requires forall i :: 0 <= i < |shards| && i != at ==> after[i] == shards[i]
    ensures Held(after, n) == Held(shards, n) + (if at < n then multiset{file} else multiset{})
  {
    if n > 0 {
      HeldAddsFile(shards, after, at, file, n - 1);
    }
  }

  lemma {:induction false} EmptyHolds(shards: seq<Shard>, n: nat)
    requires n <= |shards| && forall i :: 0 <= i < n ==> shards[i].files == []
    ensures Held(shards, n) == multiset{}
  {
    if n > 0 {
      EmptyHolds(shards, n - 1);
    }
  }

  lemma {:induction false} HeldStep(shards: seq<Shard>, after: seq<Shard>, ms: real, files: seq<string>, k: nat, n: nat)
    requires 0 < k <= |files| && shards != [] && |shards| == n
    requires after == Place(shards, files[k - 1], ms)
    requires Held(shards, n) == multiset(files[..k - 1])
    ensures |after| == n && Held(after, n) == multiset(files[..k])
  {
    HeldAddsFile(shards, after, Lightest(shards), files[k - 1], n);
    assert files[..k] == files[..k - 1] + [files[k - 1]];
  }

  lemma {:induction false} GreedyHolds(files: seq<string>, k: nat, p: string -> real, count: nat)
    requires k <= |files| && count > 0
    ensures Held(Greedy(files, k, p, count), count) == multiset(files[..k])
  {
    if k == 0 {
      EmptyHolds(Greedy(files, 0, p, count), count);
    } else {
      GreedyHolds(files, k - 1, p, count);
      HeldStep(Greedy(files, k - 1, p, count), Greedy(files, k, p, count), p(files[k - 1]), files, k, count);
    }
  }

  /** The shards hold exactly the files placed so far. */
  lemma {:induction false} GreedySplits(files: seq<string>, k: nat, p: string -> real, count: nat)
    requires k <= |files| && count > 0
    ensures Splits(FilesOf(Greedy(files, k, p, count)), files[..k], count)
  {
    var shards := Greedy(files, k, p, count);
    GreedyHolds(files, k, p, count);
    HeldIsFlattened(shards, count);
    assert FilesOf(shards)[..count] == FilesOf(shards);
  }

  // ----- one greedy step against any other split -----

  /** Files up to the one being placed weigh 1, or 2 when too long to share a shard with it within `v`. */
  function SlotWeight(p: string -> real, placed: seq<string>, file: string, v: real): string -> real {
    (g: string) =>
      if g !in placed + [file] then 0.0
      else if p(g) + p(file) > v then 2.0
      else 1.0
  }

  /** A shard of the other split has room for weight 2 only. */
  lemma {:induction false} OtherShardWeight(p: string -> real, placed: seq<string>, file: string, v: real,
                                            s: seq<string>)
    requires 3.0 * p(file) > v
    requires NoneShorter(p, placed, p(file))
    requires AllPositive(p, s)
    ensures var w := Sum(SlotWeight(p, placed, file, v), s);
            && (w == 0.0 || w == 1.0 || w >= 2.0)
            && Sum(p, s) >= 0.0
            && (w == 1.0 ==> Sum(p, s) >= p(file))
            && (w >= 2.0 ==> Sum(p, s) > v - p(file))
            && (w > 2.0 ==> Sum(p, s) > v)
  {
    if s != [] {
      OtherShardWeight(p, placed, file, v, s[..|s| - 1]);
      assert s[|s| - 1] in s;
    }
  }

  /** A shard too full to take `file` within `v` already holds weight 2. */
  lemma {:induction false} GreedyShardWeight(p: string -> real, placed: seq<string>, file: string, v: real,
                                             s: seq<string>)
    requires p(file) <= v
    requires forall g :: g in s ==> g in placed
    ensures var w := Sum(SlotWeight(p, placed, file, v), s);
            && (w == 0.0 || w == 1.0 || w >= 2.0)
            && (w == 0.0 ==> Sum(p, s) == 0.0)
            && (w <= 1.0 ==> Sum(p, s) <= v - p(file))
  {
    if s != [] {
      GreedyShardWeight(p, placed, file, v, s[..|s| - 1]);
    }
  }

  /** When three of the files cannot share a shard within `v`, some shard takes `file` within `v`. */
  lemma {:induction false} LongFilesFit(p: string -> real, shards: seq<seq<string>>, placed: seq<string>, file: string,
                     rest: seq<string>, other: seq<seq<string>>, v: real)
    requires |shards| > 0 && |shards| == |other|
    requires multiset(Flatten(shards)) == multiset(placed)
    requires multiset(Flatten(other)) == multiset(placed + [file] + rest)
    requires NoneShorter(p, placed, p(file))
    requires AllPositive(p, placed + [file] + rest)
    requires AtMost(p, other, v)
    requires 3.0 * p(file) > v
    ensures exists s :: s in shards && Sum(p, s) + p(file) <= v
  {
    EveryFileFits(p, file, placed + [file] + rest, other, v);
    OtherWeighsAtMost(p, placed, file, rest, other, v);
    if forall s :: s in shards ==> Sum(p, s) > v - p(file) {
      GreedyWeighsAtLeast(p, shards, placed, file, v);
      var w := SlotWeight(p, placed, file, v);
      SumAppend(w, placed + [file], rest);
      SumAppend(w, placed, [file]);
      assert Sum(w, [file]) == Sum(w, []) + w(file);
      WeightNonnegative(p, placed, file, v, rest);
      assert false;
    }
  }

  lemma {:induction false} OtherWeighsAtMost(p: string -> real, placed: seq<string>, file: string,
                          rest: seq<string>, other: seq<seq<string>>, v: real)
    requires multiset(Flatten(other)) == multiset(placed + [file] + rest)
    requires NoneShorter(p, placed, p(file))
    requires AllPositive(p, placed + [file] + rest)
    requires AtMost(p, other, v)
    requires 3.0 * p(file) > v
    ensures Sum(SlotWeight(p, placed, file, v), placed + [file] + rest) <= Times(|other|, 2.0)
  {
    var all := placed + [file] + rest;
    var w := SlotWeight(p, placed, file, v);
    forall s | s in other ensures Sum(w, s) <= 2.0 {
      FlattenHas(other, s, all);
      OtherShardWeight(p, placed, file, v, s);
    }
    TotalAtMost(w, other, all, 2.0);
  }

  lemma {:induction false} GreedyWeighsAtLeast(p: string -> real, shards: seq<seq<string>>, placed: seq<string>,
                                               file: string, v: real)
    requires shards != [] && multiset(Flatten(shards)) == multiset(placed)
    requires p(file) <= v
    requires forall s :: s in shards ==> Sum(p, s) > v - p(file)
    ensures Sum(SlotWeight(p, placed, file, v), placed) >= Times(|shards|, 2.0)
  {
    var w := SlotWeight(p, placed, file, v);
    forall s | s in shards ensures 2.0 <= Sum(w, s) {
      FlattenHas(shards, s, placed);
      GreedyShardWeight(p, placed, file, v, s);
    }
    TotalAtLeast(w, shards, placed, 2.0);
  }

  lemma {:induction false} WeightNonnegative(p: string -> real, placed: seq<string>, file: string, v: real,
                                             s: seq<string>)
    ensures Sum(SlotWeight(p, placed, file, v), s) >= 0.0
  {
    if s != [] {
      WeightNonnegative(p, placed, file, v, s[..|s| - 1]);
    }
  }

  lemma {:induction false} FlattenHas(shards: seq<seq<string>>, s: seq<string>, files: seq<string>)
    requires s in shards && multiset(Flatten(shards)) == multiset(files)
    ensures forall g :: g in s ==> g in files
  {
    forall g | g in s ensures g in files {
      FlattenMember(shards, s, g);
      assert g in multiset(files);
    }
  }

  lemma {:induction false} FlattenMember(shards: seq<seq<string>>, s: seq<string>, g: string)
    requires s in shards && g in s
    ensures g in Flatten(shards)
  {
    var n := |shards| - 1;
    if s != shards[n] {
      FlattenMember(shards[..n], s, g);
    }
  }

  /** No file takes longer than the heaviest shard. */
  lemma {:induction false} EveryFileFits(p: string -> real, file: string, all: seq<string>, other: seq<seq<string>>,
                                         v: real)
    requires multiset(Flatten(other)) == multiset(all) && file in all
    requires AllPositive(p, all)
    requires AtMost(p, other, v)
    ensures p(file) <= v
  {
    assert file in multiset(Flatten(other));
    FlattenShard(other, file);
    var s :| s in other && file in s;
    FlattenHas(other, s, all);
    SumHasEach(p, s, file);
  }

  lemma {:induction false} SumHasEach(p: string -> real, s: seq<string>, file: string)
    requires AllPositive(p, s)
    ensures Sum(p, s) >= 0.0
    ensures file in s ==> Sum(p, s) >= p(file)
  {
    if s != [] {
      assert s[|s| - 1] in s;
      SumHasEach(p, s[..|s| - 1], file);
    }
  }

  lemma {:induction false} FlattenShard(shards: seq<seq<string>>, g: string)
    requires g in Flatten(shards)
    ensures exists s :: s in shards && g in s
  {
    var n := |shards| - 1;
    assert shards[n] in shards;
    if g !in shards[n] {
      FlattenShard(shards[..n], g);
    }
  }

  // ----- Graham's bound -----

  /** Averaging: the lightest shard is at most the mean of any other split. */
  lemma {:induction false} LightestIsBelowMean(p: string -> real, shards: seq<seq<string>>, placed: seq<string>,
                                               file: string, rest: seq<string>,
                                               other: seq<seq<string>>, low: real, v: real)
    requires multiset(Flatten(shards)) == multiset(placed)
    requires multiset(Flatten(other)) == multiset(placed + [file] + rest)
    requires AllPositive(p, placed + [file] + rest)
    requires AtLeast(p, shards, low)
    requires AtMost(p, other, v)
    ensures Times(|shards|, low) + p(file) <= Times(|other|, v)
  {
    TotalAtLeast(p, shards, placed, low);
    TotalAtMost(p, other, placed + [file] + rest, v);
    SumAppend(p, placed + [file], rest);
    SumAppend(p, placed, [file]);
    assert Sum(p, [file]) == Sum(p, []) + p(file);
    SumHasEach(p, rest, file);
  }

  /** `3 count x <= (4 count - 1) v`, the form of the bound. */
  predicate WithinBound(count: nat, x: real, v: real) {
    3.0 * Times(count, x) <= 4.0 * Times(count, v) - v
  }

  lemma ShortFileLinear(placed: real, low: real, ms: real, msLess: real, total: real, totalLess: real, t: real, v: real)
    requires low + t <= total && placed == low + ms && ms == msLess + t && total == totalLess + v
    requires 3.0 * msLess <= totalLess
    ensures 3.0 * placed <= 4.0 * total - v
  {
  }

  lemma {:induction false} ShortFileArithmetic(count: nat, low: real, ms: real, v: real)
    requires count > 0 && 3.0 * ms <= v && Times(count, low) + ms <= Times(count, v)
    ensures WithinBound(count, low + ms, v)
  {
    TimesAdds(count, low, ms);
    TimesThirds(count - 1, ms, v);
    ShortFileLinear(Times(count, low + ms), Times(count, low), Times(count, ms), Times(count - 1, ms),
                    Times(count, v), Times(count - 1, v), ms, v);
  }

  lemma {:induction false} LongFileArithmetic(count: nat, x: real, v: real)
    requires count > 0 && x <= v && v >= 0.0
    ensures WithinBound(count, x, v)
    ensures Times(count, v) >= v
  {
    if count > 1 {
      LongFileArithmetic(count - 1, x, v);
    }
    assert Times(count, x) == Times(count - 1, x) + x;
    assert Times(count, v) == Times(count - 1, v) + v;
  }

  /** The shard that takes the next file stays within the bound. */
  lemma {:induction false} StepWithinBound(p: string -> real, shards: seq<seq<string>>, placed: seq<string>,
                                           file: string, rest: seq<string>,
                                           other: seq<seq<string>>, low: real, v: real)
    requires |shards| > 0 && |shards| == |other| && v >= 0.0
    requires multiset(Flatten(shards)) == multiset(placed)
    requires multiset(Flatten(other)) == multiset(placed + [file] + rest)
    requires NoneShorter(p, placed, p(file))
    requires AllPositive(p, placed + [file] + rest)
    requires AtLeast(p, shards, low)
    requires AtMost(p, other, v)
    ensures WithinBound(|shards|, low + p(file), v)
  {
    if 3.0 * p(file) > v {
      LongFilesFit(p, shards, placed, file, rest, other, v);
      LongFileArithmetic(|shards|, low + p(file), v);
    } else {
      LightestIsBelowMean(p, shards, placed, file, rest, other, low, v);
      ShortFileArithmetic(|shards|, low, p(file), v);
    }
  }

  lemma LightestLoad(p: string -> real, shards: seq<Shard>) returns (low: real)
    requires shards != []
    requires forall s :: s in shards ==> s.load == Sum(p, s.files)
    ensures low == shards[Lightest(shards)].load
    ensures AtLeast(p, FilesOf(shards), low)
  {
    low := shards[Lightest(shards)].load;
    LightestIsMinimal(shards, |shards|);
    forall s | s in FilesOf(shards) ensures low <= Sum(p, s) {
      var k :| 0 <= k < |shards| && shards[k].files == s;
      assert shards[k] in shards;
    }
  }

  predicate NoneShorter(p: string -> real, files: seq<string>, ms: real) {
    forall g :: g in files ==> p(g) >= ms
  }

  /** Longest first, all positive. */
  ghost predicate LongestFirst(p: string -> real, sorted: seq<string>) {
    && (forall k :: 0 <= k < |sorted| ==> NoneShorter(p, sorted[..k], p(sorted[k])))
    && AllPositive(p, sorted)
  }

  /** The load of the shard that takes file `k`, once it has it. */
  function StepLoad(p: string -> real, sorted: seq<string>, k: nat, count: nat): real
    requires k < |sorted| && count > 0
  {
    var before := Greedy(sorted, k, p, count);
    before[Lightest(before)].load + p(sorted[k])
  }

  lemma SplitAround(files: seq<string>, k: nat)
    requires k < |files|
    ensures files[..k] + [files[k]] + files[k + 1..] == files
  {
  }

  lemma LongestFirstAt(p: string -> real, sorted: seq<string>, k: nat)
    requires k < |sorted| && LongestFirst(p, sorted)
    ensures NoneShorter(p, sorted[..k], p(sorted[k]))
  {
  }

  /** The shards before file `k`, as lists of files, and the least of their loads. */
  lemma StepStart(p: string -> real, sorted: seq<string>, k: nat, count: nat)
    returns (shards: seq<seq<string>>, low: real)
    requires k < |sorted| && count > 0
    ensures |shards| == count && Splits(shards, sorted[..k], count)
    ensures AtLeast(p, shards, low) && StepLoad(p, sorted, k, count) == low + p(sorted[k])
  {
    GreedySplits(sorted, k, p, count);
    LoadsAreSums(sorted, k, p, count);
    shards := FilesOf(Greedy(sorted, k, p, count));
    low := LightestLoad(p, Greedy(sorted, k, p, count));
  }

  lemma SortedStep(p: string -> real, sorted: seq<string>, k: nat, count: nat, other: seq<seq<string>>, v: real)
    requires k < |sorted| && count > 0 && LongestFirst(p, sorted) && Splits(other, sorted, count)
    requires v >= 0.0 && AtMost(p, other, v)
    ensures WithinBound(count, StepLoad(p, sorted, k, count), v)
  {
    var shards, low := StepStart(p, sorted, k, count);
    LongestFirstAt(p, sorted, k);
    SplitAround(sorted, k);
    StepWithinBound(p, shards, sorted[..k], sorted[k], sorted[k + 1..], other, low, v);
  }

  /** What holds of 0 and of every new load holds of every load. */
  lemma {:induction false} GreedyLoads(p: string -> real, sorted: seq<string>, k: nat, count: nat, ok: real -> bool)
    requires k <= |sorted| && count > 0 && ok(0.0)
    requires forall j :: 0 <= j < k ==> ok(StepLoad(p, sorted, j, count))
    ensures forall s :: s in Greedy(sorted, k, p, count) ==> ok(s.load)
  {
    if k > 0 {
      GreedyLoads(p, sorted, k - 1, count, ok);
      assert ok(StepLoad(p, sorted, k - 1, count));
    }
  }

  lemma {:induction false} GreedyWithinBound(p: string -> real, sorted: seq<string>, count: nat,
                                             other: seq<seq<string>>, v: real)
    requires count > 0 && LongestFirst(p, sorted) && Splits(other, sorted, count)
    requires v >= 0.0 && AtMost(p, other, v)
    ensures forall s :: s in Greedy(sorted, |sorted|, p, count) ==> WithinBound(count, s.load, v)
  {
    var ok := (x: real) => WithinBound(count, x, v);
    forall j | 0 <= j < |sorted| ensures ok(StepLoad(p, sorted, j, count)) {
      SortedStep(p, sorted, j, count, other, v);
    }
    LongFileArithmetic(count, 0.0, v);
    GreedyLoads(p, sorted, |sorted|, count, ok);
  }

  // ----- AllocateShards -----

  lemma DurationsPositive(durations: TestDurations, file: string)
    requires ValidDurations(durations)
    ensures Duration(durations, file) > 0.0
  {
    if durations != [] {
      var values := Values(durations);
      SortKeepsElements(NumericOrder, values);
      var sorted := Sort(NumericOrder, values);
      forall k | 0 <= k < |sorted| ensures sorted[k] > 0.0 {
        assert sorted[k] in multiset(values);
      }
    }
  }

  lemma OrderIsStrictTotal(durations: TestDurations)
    requires ValidDurations(durations)
    ensures StrictWeakOrder(Order(durations)) && Total(Order(durations))
  {
    LexStrictTotal();
  }

  lemma {:induction false} SortedByDuration(files: seq<string>, durations: TestDurations)
    requires ValidDurations(durations)
    ensures var sorted := Sort(Order(durations), files);
            && multiset(sorted) == multiset(files)
            && forall k :: 0 <= k < |sorted| ==>
                   NoneShorter(Weights(durations), sorted[..k], Duration(durations, sorted[k]))
  {
    OrderIsStrictTotal(durations);
    SortKeepsElements(Order(durations), files);
    SortSorts(Order(durations), files);
  }

  /** Every file lands in exactly one of exactly `count` shards. */
  lemma AllocationPartitions(files: seq<string>, durations: TestDurations, count: int)
    requires Allocation(files, durations, count).Success?
    ensures Splits(Allocation(files, durations, count).value, files, count)
  {
    SortedByDuration(files, durations);
    var sorted := Sort(Order(durations), files);
    GreedySplits(sorted, |sorted|, Weights(durations), count);
    assert sorted[..|sorted|] == sorted;
  }

  /** `load` is at most `4/3 - 1/(3 count)` times `best`. */
  predicate GrahamRatio(count: nat, load: real, best: real) {
    3.0 * count as real * load <= (4.0 * count as real - 1.0) * best
  }

  /** Graham's bound for longest-processing-time scheduling (1969), against any other split of the files. */
  lemma {:induction false} GrahamBound(files: seq<string>, durations: TestDurations, count: int,
                                       other: seq<seq<string>>)
    requires Allocation(files, durations, count).Success?
    requires Splits(other, files, count)
    ensures var shards, p := Allocation(files, durations, count).value, Weights(durations);
            |shards| == count && GrahamRatio(count, MaxLoad(p, shards), MaxLoad(p, other))
  {
    var p := Weights(durations);
    var sorted := Sort(Order(durations), files);
    SortedByDuration(files, durations);
    forall g ensures p(g) > 0.0 {
      DurationsPositive(durations, g);
    }
    GreedyBound(p, sorted, count, other);
    BoundAsProduct(count, MaxLoad(p, FilesOf(Greedy(sorted, |sorted|, p, count))), MaxLoad(p, other));
  }

  lemma {:induction false} GreedyBound(p: string -> real, sorted: seq<string>, count: nat, other: seq<seq<string>>)
    requires count > 0 && Splits(other, sorted, count)
    requires LongestFirst(p, sorted)
    ensures WithinBound(count, MaxLoad(p, FilesOf(Greedy(sorted, |sorted|, p, count))), MaxLoad(p, other))
  {
    var shards := Greedy(sorted, |sorted|, p, count);
    var v := MaxLoad(p, other);
    assert other[0] in other;
    FlattenHas(other, other[0], sorted);
    SumHasEach(p, other[0], "");
    GreedyWithinBound(p, sorted, count, other, v);
    LoadsAreSums(sorted, |sorted|, p, count);
    var kept := FilesOf(shards);
    var heaviest :| heaviest in kept && Sum(p, heaviest) == MaxLoad(p, kept);
    var k :| 0 <= k < |kept| && kept[k] == heaviest;
    assert shards[k] in shards;
  }

  lemma BoundAsProduct(count: nat, x: real, v: real)
    requires WithinBound(count, x, v)
    ensures GrahamRatio(count, x, v)
  {
    TimesIsProduct(count, x);
    TimesIsProduct(count, v);
    var m := count as real;
    assert 3.0 * m * x == 3.0 * (m * x);
    assert (4.0 * m - 1.0) * v == 4.0 * (m * v) - v;
  }

  // ----- input order -----

  lemma SameEntries(durations: TestDurations, again: TestDurations)
    requires multiset(durations) == multiset(again)
    requires ValidDurations(durations)
    ensures ValidDurations(again)
    ensures forall file :: Duration(durations, file) == Duration(again, file)
  {
    forall i | 0 <= i < |again| ensures again[i].1.Finite? && again[i].1.value > 0.0 {
      assert again[i] in multiset(durations);
    }
    SameFallback(durations, again);
    forall j | 0 <= j < |again| ensures Recorded(durations, again[j].0) {
      assert again[j] in multiset(durations);
    }
    forall file ensures Duration(durations, file) == Duration(again, file) {
      if Recorded(durations, file) {
        var i :| 0 <= i < |durations| && durations[i].0 == file;
        assert durations[i] in multiset(again);
        var j :| 0 <= j < |again| && again[j] == durations[i];
      }
    }
  }

  function EntryValue(e: (string, Number)): real {
    if e.1.Finite? then e.1.value else 0.0
  }

  lemma ValuesAreMapped(durations: TestDurations)
    requires ValidDurations(durations)
    ensures Values(durations) == Map(EntryValue, durations)
  {
    var values, mapped := Values(durations), Map(EntryValue, durations);
    assert |values| == |mapped| == |durations|;
    forall i | 0 <= i < |durations| ensures values[i] == mapped[i] {
      assert mapped[i] == EntryValue(durations[i]);
    }
  }

  lemma SameFallback(durations: TestDurations, again: TestDurations)
    requires multiset(durations) == multiset(again)
    requires ValidDurations(durations) && ValidDurations(again)
    ensures Fallback(durations) == Fallback(again)
  {
    assert |multiset(durations)| == |durations| && |multiset(again)| == |again|;
    MapKeepsElements(EntryValue, durations, again);
    ValuesAreMapped(durations);
    ValuesAreMapped(again);
    SortIgnoresInputOrder(NumericOrder, Values(durations), Values(again));
  }

  /** Neither the order of the files nor that of the durations table can change the shards. */
  lemma InputOrderIrrelevant(files: seq<string>, durations: TestDurations, count: int, filesAgain: seq<string>,
                             durationsAgain: TestDurations)
    requires multiset(files) == multiset(filesAgain)
    requires multiset(durations) == multiset(durationsAgain)
    ensures Allocation(files, durations, count) == Allocation(filesAgain, durationsAgain, count)
  {
    if HasDuplicates(files) {
      SameDuplicates(files, filesAgain);
    } else if HasDuplicates(filesAgain) {
      SameDuplicates(filesAgain, files);
    }
    if ValidDurations(durations) {
      SameEntries(durations, durationsAgain);
      OrderIsStrictTotal(durations);
      SortIgnoresInputOrder(Order(durations), files, filesAgain);
      SortAgrees(Order(durations), Order(durationsAgain), filesAgain);
      var sorted := Sort(Order(durations), files);
      GreedyAgrees(sorted, |sorted|, Weights(durations), Weights(durationsAgain), count);
    } else if ValidDurations(durationsAgain) {
      SameEntries(durationsAgain, durations);
    }
  }

  lemma SameDuplicates(files: seq<string>, again: seq<string>)
    requires multiset(files) == multiset(again) && HasDuplicates(files)
    ensures HasDuplicates(again)
  {
    var i, j :| 0 <= i < j < |files| && files[i] == files[j];
    assert files == files[..i] + [files[i]] + files[i + 1..j] + [files[j]] + files[j + 1..];
    assert multiset(files)[files[i]] >= 2;
    if !HasDuplicates(again) {
      NoDuplicatesOnce(again, files[i]);
    }
  }

  lemma {:induction false} NoDuplicatesOnce(files: seq<string>, f: string)
    requires !HasDuplicates(files)
    ensures multiset(files)[f] <= 1
  {
    if files != [] {
      var n := |files| - 1;
      assert files == files[..n] + [files[n]];
      if f == files[n] {
        assert f !in files[..n];
      } else {
        NoDuplicatesOnce(files[..n], f);
      }
    }
  }

  lemma {:induction false} InsertAgrees(before: (string, string) -> bool, again: (string, string) -> bool, x: string,
                                        s: seq<string>)
    requires forall a, b :: before(a, b) == again(a, b)
    ensures Insert(before, x, s) == Insert(again, x, s)
  {
    if s != [] {
      InsertAgrees(before, again, x, s[1..]);
    }
  }

  lemma {:induction false} SortAgrees(before: (string, string) -> bool, again: (string, string) -> bool, s: seq<string>)
    requires forall a, b :: before(a, b) == again(a, b)
    ensures Sort(before, s) == Sort(again, s)
  {
    if s != [] {
      SortAgrees(before, again, s[1..]);
      InsertAgrees(before, again, s[0], Sort(before, s[1..]));
    }
  }

  lemma {:induction false} GreedyAgrees(files: seq<string>, k: nat, p: string -> real, again: string -> real,
                                        count: int)
    requires k <= |files| && forall f :: p(f) == again(f)
    ensures count > 0 ==> Greedy(files, k, p, count) == Greedy(files, k, again, count)
  {
    if k > 0 {
      GreedyAgrees(files, k - 1, p, again, count);
    }
  }
}
