/** For every number of shards, files that the allocation splits exactly as badly as Graham's bound allows. */
module ShardingTight {
  import opened Wrappers
  import opened Sorting
  import opened Sharding
  import opened ShardingBound

  // ----- the files -----

  /** Names in ascending order. */
  function Name(k: nat): (name: string)
    ensures |name| == k + 1
  {
    seq(k + 1, _ => 'a')
  }

  lemma {:induction false} LongerIsLater(a: string, b: string)
    requires a <= b && |a| < |b|
    ensures LexLess(a, b) && !LexLess(b, a)
  {
    LexTrichotomy(a, b);
    if a != [] {
      LongerIsLater(a[1..], b[1..]);
    }
  }

  lemma NamesAscend(j: nat, k: nat)
    requires j < k
    ensures LexLess(Name(j), Name(k)) && !LexLess(Name(k), Name(j))
  {
    LongerIsLater(Name(j), Name(k));
  }

  /** For `m` shards: two files of each length from 2m-1 down to m+1, and three of length m. */
  function Size(m: nat, k: nat): int {
    if k < 2 * m then 2 * m - 1 - k / 2 else m
  }

  function Family(m: nat): (files: seq<string>)
    ensures |files| == 2 * m + 1 && forall k :: 0 <= k <= 2 * m ==> files[k] == Name(k)
  {
    seq(2 * m + 1, k requires 0 <= k => Name(k))
  }

  function Recordings(m: nat): (durations: TestDurations)
    ensures |durations| == 2 * m + 1
    ensures forall k :: 0 <= k <= 2 * m ==> durations[k] == (Name(k), Finite(Size(m, k) as real))
  {
    var entries := seq(2 * m + 1, k requires 0 <= k => (Name(k), Finite(Size(m, k) as real)));
    assert forall i, j :: 0 <= i < j < |entries| ==> |entries[i].0| != |entries[j].0|;
    entries
  }

  predicate Weighs(p: string -> real, m: nat) {
    forall k :: 0 <= k <= 2 * m ==> p(Name(k)) == Size(m, k) as real
  }

  lemma SizesAreValid(m: nat)
    requires m > 0
    ensures ValidDurations(Recordings(m))
  {
    forall k | 0 <= k <= 2 * m ensures Size(m, k) > 0 {
    }
  }

  lemma FamilyWeighs(m: nat)
    requires m > 0
    ensures ValidDurations(Recordings(m)) && Weighs(Weights(Recordings(m)), m)
  {
    SizesAreValid(m);
    var durations := Recordings(m);
    forall k | 0 <= k <= 2 * m ensures Duration(durations, Name(k)) == Size(m, k) as real {
      assert durations[k].0 == Name(k);
      assert forall i :: 0 <= i < |durations| && durations[i].0 == Name(k) ==> |Name(i)| == |Name(k)|;
    }
  }

  lemma FamilyIsSorted(m: nat)
    requires m > 0 && ValidDurations(Recordings(m)) && Weighs(Weights(Recordings(m)), m)
    ensures Sort(Order(Recordings(m)), Family(m)) == Family(m)
  {
    var before, files := Order(Recordings(m)), Family(m);
    forall i, j | 0 <= i < j < |files| ensures !before(files[j], files[i]) {
      NamesAscend(i, j);
      assert Weights(Recordings(m))(files[i]) == Size(m, i) as real;
      assert Weights(Recordings(m))(files[j]) == Size(m, j) as real;
      assert Size(m, i) >= Size(m, j);
    }
    OrderIsStrictTotal(Recordings(m));
    SortKeepsElements(before, files);
    SortSorts(before, files);
    SortedUnique(before, Sort(before, files), files);
  }

  // ----- what the allocation does with them -----

  /** Whether shard `j` still holds one file, when `u` do. */
  predicate Single(m: nat, u: nat, j: nat) {
    u == m || (if u % 2 == 0 then j < u else j + 1 < u || j == u)
  }

  /** The load of shard `j` once the first `k` files are placed. */
  function Load(m: nat, k: nat, j: nat): int
    requires k <= 2 * m
  {
    if k < m then (if j < k then 2 * m - 1 - j / 2 else 0)
    else if Single(m, 2 * m - k, j) then 2 * m - 1 - j / 2
    else 3 * m - 1
  }

  /** The shard that gets file `k`. */
  function Target(m: nat, k: nat): int
    requires k <= 2 * m
  {
    var u := 2 * m - k;
    if k < m then k
    else if u == 0 then 0
    else if u % 2 == 0 then u - 2
    else if u == m then m - 1
    else u
  }

  lemma TargetIsLightest(m: nat, k: nat, j: nat)
    requires m > 0 && k <= 2 * m && j < m
    ensures var t := Target(m, k);
            && 0 <= t < m && Load(m, k, t) <= Load(m, k, j) && (j < t ==> Load(m, k, t) < Load(m, k, j))
  {
    var t, u := Target(m, k), 2 * m - k;
    if m <= k && u > 0 {
      assert Single(m, u, t);
    }
  }

  lemma NextLoad(m: nat, k: nat, j: nat)
    requires m > 0 && k < 2 * m && j < m
    ensures Load(m, k + 1, j) == if j == Target(m, k) then Load(m, k, j) + Size(m, k) else Load(m, k, j)
  {
    var t, u := Target(m, k), 2 * m - k;
    if m <= k {
      assert Single(m, u, t) && !Single(m, u - 1, t);
      assert 2 * m - 1 - t / 2 + Size(m, k) == 3 * m - 1;
      assert j != t ==> (Single(m, u - 1, j) <==> Single(m, u, j));
    } else if k + 1 == m {
      assert Single(m, m, j);
    }
  }

  ghost predicate LoadsAre(shards: seq<Shard>, m: nat, k: nat)
    requires k <= 2 * m
  {
    |shards| == m && forall j :: 0 <= j < m ==> shards[j].load == Load(m, k, j) as real
  }

  lemma LightestIsTarget(shards: seq<Shard>, m: nat, k: nat)
    requires m > 0 && k <= 2 * m && LoadsAre(shards, m, k)
    ensures Lightest(shards) == Target(m, k)
  {
    LightestIsMinimal(shards, m);
    TargetIsLightest(m, k, Lightest(shards));
    TargetIsLightest(m, k, Target(m, k));
  }

  lemma PlacedLoads(shards: seq<Shard>, m: nat, k: nat, file: string, ms: real)
    requires m > 0 && k < 2 * m && LoadsAre(shards, m, k) && ms == Size(m, k) as real
    ensures LoadsAre(Place(shards, file, ms), m, k + 1)
  {
    LightestIsTarget(shards, m, k);
    forall j | 0 <= j < m ensures Place(shards, file, ms)[j].load == Load(m, k + 1, j) as real {
      NextLoad(m, k, j);
    }
  }

  lemma {:induction false} LoadsAfter(m: nat, k: nat, p: string -> real)
    requires m > 0 && k <= 2 * m && Weighs(p, m)
    ensures LoadsAre(Greedy(Family(m), k, p, m), m, k)
  {
    if k > 0 {
      LoadsAfter(m, k - 1, p);
      PlacedLoads(Greedy(Family(m), k - 1, p, m), m, k - 1, Name(k - 1), p(Name(k - 1)));
    }
  }

  /** The last file meets shards that are all full. */
  lemma {:induction false} LastLoads(m: nat, p: string -> real)
    requires m > 0 && Weighs(p, m)
    ensures var shards := Greedy(Family(m), 2 * m + 1, p, m);
            && shards[0].load == (4 * m - 1) as real
            && forall j :: 0 < j < m ==> shards[j].load == (3 * m - 1) as real
  {
    LoadsAfter(m, 2 * m, p);
    var before := Greedy(Family(m), 2 * m, p, m);
    LightestIsTarget(before, m, 2 * m);
    forall j | 0 <= j < m ensures before[j].load == (3 * m - 1) as real {
      assert !Single(m, 0, j);
    }
    assert Family(m)[2 * m] == Name(2 * m) && Size(m, 2 * m) == m;
  }

  /** The files of each shard. */
  function Allotted(files: seq<string>, n: nat, p: string -> real, count: nat): (shards: seq<seq<string>>)
    requires n <= |files| && count > 0
    ensures |shards| == count
  {
    FilesOf(Greedy(files, n, p, count))
  }

  lemma {:induction false} MaxIs(p: string -> real, shards: seq<seq<string>>, at: nat, v: real)
    requires at < |shards| && Sum(p, shards[at]) == v && AtMost(p, shards, v)
    ensures MaxLoad(p, shards) == v
  {
    assert shards[at] in shards;
  }

  lemma {:induction false} SumOfShard(m: nat, p: string -> real, j: nat)
    requires m > 0 && j < m
    ensures var shards := Greedy(Family(m), 2 * m + 1, p, m);
            Sum(p, FilesOf(shards)[j]) == shards[j].load
  {
    LoadsAreSums(Family(m), 2 * m + 1, p, m);
    var shards := Greedy(Family(m), 2 * m + 1, p, m);
    assert shards[j] in shards;
  }

  lemma HeaviestShard(m: nat, p: string -> real)
    requires m > 0 && Weighs(p, m)
    ensures MaxLoad(p, Allotted(Family(m), 2 * m + 1, p, m)) == (4 * m - 1) as real
  {
    var shards := FilesOf(Greedy(Family(m), 2 * m + 1, p, m));
    LastLoads(m, p);
    forall s | s in shards ensures Sum(p, s) <= (4 * m - 1) as real {
      var j :| 0 <= j < m && shards[j] == s;
      SumOfShard(m, p, j);
    }
    SumOfShard(m, p, 0);
    MaxIs(p, shards, 0, (4 * m - 1) as real);
  }

  // ----- a better split -----

  lemma PairSum(p: string -> real, a: string, b: string)
    ensures Sum(p, [a, b]) == p(a) + p(b)
  {
    assert [a, b][..1] == [a] && [a][..0] == [];
    assert Sum(p, [a]) == Sum(p, []) + p(a);
  }

  lemma TripleSum(p: string -> real, a: string, b: string, c: string)
    ensures Sum(p, [a, b, c]) == p(a) + p(b) + p(c)
  {
    assert [a, b, c][..2] == [a, b];
    PairSum(p, a, b);
  }

  /** Pairs of files that add up to 3m: the longest with the shortest that are longer than m. */
  function Pairs(m: nat, n: nat): (pairs: seq<seq<string>>)
    requires n < m
    ensures |pairs| == n
    ensures forall k :: 0 <= k < n ==> pairs[k] == [Name(k), Name(2 * m - 3 - k)]
  {
    if n == 0 then [] else Pairs(m, n - 1) + [[Name(n - 1), Name(2 * m - 2 - n)]]
  }

  /** The three shortest files together, and the others in pairs. */
  function Balanced(m: nat): seq<seq<string>>
    requires m > 0
  {
    Pairs(m, m - 1) + [[Name(2 * m - 2), Name(2 * m - 1), Name(2 * m)]]
  }

  lemma PairSize(m: nat, k: nat)
    requires k + 1 < m
    ensures Size(m, k) + Size(m, 2 * m - 3 - k) == 3 * m
  {
    assert k % 2 == 0 ==> (2 * m - 3 - k) / 2 == m - 2 - k / 2;
    assert k % 2 == 1 ==> (2 * m - 3 - k) / 2 == m - 2 - k / 2;
  }

  lemma BalancedShards(m: nat, p: string -> real)
    requires m > 0 && Weighs(p, m)
    ensures forall s :: s in Balanced(m) ==> Sum(p, s) == (3 * m) as real
  {
    forall s | s in Balanced(m) ensures Sum(p, s) == (3 * m) as real {
      var k :| 0 <= k < m && Balanced(m)[k] == s;
      if k < m - 1 {
        assert s == Pairs(m, m - 1)[k];
        PairSum(p, Name(k), Name(2 * m - 3 - k));
        PairSize(m, k);
      } else {
        TripleSum(p, Name(2 * m - 2), Name(2 * m - 1), Name(2 * m));
        assert Size(m, 2 * m - 2) == m && Size(m, 2 * m - 1) == m && Size(m, 2 * m) == m;
      }
    }
  }

  function Front(files: seq<string>, n: nat): multiset<string>
    requires n <= |files|
  {
    if n == 0 then multiset{} else Front(files, n - 1) + multiset{files[n - 1]}
  }

  function Back(files: seq<string>, low: nat, end: nat): multiset<string>
    requires low <= end <= |files|
    decreases end - low
  {
    if low == end then multiset{} else multiset{files[low]} + Back(files, low + 1, end)
  }

  lemma {:induction false} FrontIsPrefix(files: seq<string>, n: nat)
    requires n <= |files|
    ensures Front(files, n) == multiset(files[..n])
  {
    if n > 0 {
      FrontIsPrefix(files, n - 1);
      assert files[..n] == files[..n - 1] + [files[n - 1]];
    }
  }

  lemma {:induction false} BackIsSlice(files: seq<string>, low: nat, end: nat)
    requires low <= end <= |files|
    ensures Back(files, low, end) == multiset(files[low..end])
    decreases end - low
  {
    if low < end {
      BackIsSlice(files, low + 1, end);
      assert files[low..end] == [files[low]] + files[low + 1..end];
    }
  }

  lemma OneEach(before: seq<string>, x: string, y: string, a: multiset<string>, b: multiset<string>)
    requires multiset(before) == a + b
    ensures multiset(before + [x, y]) == (a + multiset{x}) + (multiset{y} + b)
  {
    assert before + [x, y] == (before + [x]) + [y];
  }

  /** One file from the front and one from the back, `n` times. */
  ghost predicate Folded(held: seq<string>, files: seq<string>, n: nat, end: nat)
    requires 2 * n <= end <= |files|
  {
    |held| == 2 * n && forall i :: 0 <= i < n ==> held[2 * i] == files[i] && held[2 * i + 1] == files[end - 1 - i]
  }

  lemma Unfold(held: seq<string>, files: seq<string>, n: nat, low: nat, end: nat)
    returns (before: seq<string>)
    requires 0 < n && 2 * n <= end <= |files| && low + n == end && Folded(held, files, n, end)
    ensures Folded(before, files, n - 1, end) && held == before + [files[n - 1], files[low]]
  {
    before := held[..2 * n - 2];
    assert held == before + [held[2 * n - 2], held[2 * n - 1]];
    assert held[2 * (n - 1)] == files[n - 1];
  }

  lemma {:induction false} FoldedHolds(held: seq<string>, files: seq<string>, n: nat, low: nat, end: nat)
    requires 2 * n <= end <= |files| && low + n == end && Folded(held, files, n, end)
    ensures multiset(held) == Front(files, n) + Back(files, low, end)
    decreases n
  {
    if n > 0 {
      var before := Unfold(held, files, n, low, end);
      FoldedHolds(before, files, n - 1, low + 1, end);
      OneEach(before, files[n - 1], files[low], Front(files, n - 1), Back(files, low + 1, end));
    }
  }

  lemma FoldOn(before: seq<string>, files: seq<string>, n: nat, low: nat, end: nat)
    requires 2 * n + 2 <= end <= |files| && low + n + 1 == end && Folded(before, files, n, end)
    ensures Folded(before + [files[n], files[low]], files, n + 1, end)
  {
  }

  lemma {:induction false} FlattenLast(shards: seq<seq<string>>, s: seq<string>)
    ensures Flatten(shards + [s]) == Flatten(shards) + s
  {
    assert (shards + [s])[..|shards|] == shards;
  }

  lemma NextPair(m: nat, n: nat, low: nat)
    requires n + 1 < m && low == 2 * m - 3 - n
    ensures Flatten(Pairs(m, n + 1)) == Flatten(Pairs(m, n)) + [Family(m)[n], Family(m)[low]]
  {
    FlattenLast(Pairs(m, n), [Name(n), Name(low)]);
    assert Pairs(m, n + 1) == Pairs(m, n) + [[Name(n), Name(low)]];
  }

  lemma {:induction false} PairsFold(m: nat, n: nat)
    requires n < m
    ensures Folded(Flatten(Pairs(m, n)), Family(m), n, 2 * m - 2)
  {
    if n > 0 {
      PairsFold(m, n - 1);
      NextPair(m, n - 1, 2 * m - 2 - n);
      FoldOn(Flatten(Pairs(m, n - 1)), Family(m), n - 1, 2 * m - 2 - n, 2 * m - 2);
    }
  }

  lemma {:induction false} WithRest(files: seq<string>, middle: nat, end: nat, held: seq<string>)
    requires middle <= end <= |files| && multiset(held) == Front(files, middle) + Back(files, middle, end)
    ensures multiset(held + files[end..]) == multiset(files)
  {
    FrontIsPrefix(files, middle);
    BackIsSlice(files, middle, end);
    assert files == files[..middle] + files[middle..end] + files[end..];
  }

  lemma LastThree(m: nat)
    requires m > 0
    ensures Family(m)[2 * m - 2..] == [Name(2 * m - 2), Name(2 * m - 1), Name(2 * m)]
  {
  }

  lemma {:induction false} BalancedFlat(m: nat)
    requires m > 0
    ensures Flatten(Balanced(m)) == Flatten(Pairs(m, m - 1)) + Family(m)[2 * m - 2..]
  {
    LastThree(m);
    FlattenLast(Pairs(m, m - 1), Family(m)[2 * m - 2..]);
  }

  lemma BalancedSplits(m: nat)
    requires m > 0
    ensures Splits(Balanced(m), Family(m), m)
  {
    var pairs, end := Flatten(Pairs(m, m - 1)), 2 * m - 2;
    PairsFold(m, m - 1);
    FoldedHolds(pairs, Family(m), m - 1, m - 1, end);
    WithRest(Family(m), m - 1, end, pairs);
    BalancedFlat(m);
  }

  // ----- tightness -----

  lemma {:induction false} AllocationOf(files: seq<string>, durations: TestDurations, count: int)
    requires 1 <= count <= MAX_SAFE_INTEGER && !HasDuplicates(files) && ValidDurations(durations)
    ensures var sorted := Sort(Order(durations), files);
            Allocation(files, durations, count) == Success(FilesOf(Greedy(sorted, |sorted|, Weights(durations), count)))
  {
  }

  lemma NamesDiffer(m: nat)
    ensures !HasDuplicates(Family(m))
  {
    var files := Family(m);
    forall i, j | 0 <= i < j < |files| ensures files[i] != files[j] {
      assert |files[i]| == i + 1 && |files[j]| == j + 1;
    }
  }

  lemma {:induction false} SortedAllocation(files: seq<string>, n: nat, durations: TestDurations, count: int)
    requires 1 <= count <= MAX_SAFE_INTEGER && !HasDuplicates(files) && ValidDurations(durations)
    requires Sort(Order(durations), files) == files && n == |files|
    ensures Allocation(files, durations, count) == Success(Allotted(files, n, Weights(durations), count))
  {
    AllocationOf(files, durations, count);
  }

  lemma FamilyAllocated(m: nat)
    requires 0 < m <= MAX_SAFE_INTEGER && ValidDurations(Recordings(m)) && !HasDuplicates(Family(m))
    requires Sort(Order(Recordings(m)), Family(m)) == Family(m)
    ensures Allocation(Family(m), Recordings(m), m)
            == Success(Allotted(Family(m), 2 * m + 1, Weights(Recordings(m)), m))
  {
    SortedAllocation(Family(m), 2 * m + 1, Recordings(m), m);
  }

  lemma BalancedLoad(m: nat, p: string -> real)
    requires m > 0 && Weighs(p, m)
    ensures MaxLoad(p, Balanced(m)) == (3 * m) as real
  {
    BalancedShards(m, p);
    assert Balanced(m)[0] in Balanced(m);
    MaxIs(p, Balanced(m), 0, (3 * m) as real);
  }

  /** `load` is exactly `4/3 - 1/(3 count)` times `best`. */
  predicate ExactRatio(count: real, load: real, best: real) {
    3.0 * count * load == (4.0 * count - 1.0) * best
  }

  /** The allocation is worse than another split by exactly the ratio of Graham's bound. */
  ghost predicate AttainsBound(files: seq<string>, durations: TestDurations, count: nat, other: seq<seq<string>>) {
    && ValidDurations(durations) && Allocation(files, durations, count).Success? && Splits(other, files, count)
    && var p, shards := Weights(durations), Allocation(files, durations, count).value;
    && shards != [] && other != [] && MaxLoad(p, other) > 0.0
    && ExactRatio(count as real, MaxLoad(p, shards), MaxLoad(p, other))
  }

  lemma {:induction false} Attained(files: seq<string>, durations: TestDurations, m: nat, shards: seq<seq<string>>,
                                    other: seq<seq<string>>)
    requires m > 0 && ValidDurations(durations) && Allocation(files, durations, m) == Success(shards)
    requires Splits(other, files, m) && shards != [] && other != []
    requires MaxLoad(Weights(durations), shards) == 4.0 * m as real - 1.0
    requires MaxLoad(Weights(durations), other) == 3.0 * m as real
    ensures AttainsBound(files, durations, m, other)
  {
    TightRatio(m as real, MaxLoad(Weights(durations), shards), MaxLoad(Weights(durations), other));
  }

  lemma TightRatio(m: real, load: real, best: real)
    requires load == 4.0 * m - 1.0 && best == 3.0 * m
    ensures ExactRatio(m, load, best)
  {
  }

  /** For every number of shards, some files are allocated with exactly the ratio of the bound: 4m-1 against 3m. */
  lemma BoundIsTight(m: nat)
    requires 0 < m <= MAX_SAFE_INTEGER
    ensures AttainsBound(Family(m), Recordings(m), m, Balanced(m))
  {
    FamilyWeighs(m);
    var p := Weights(Recordings(m));
    FamilyIsSorted(m);
    NamesDiffer(m);
    FamilyAllocated(m);
    HeaviestShard(m, p);
    BalancedSplits(m);
    BalancedLoad(m, p);
    Attained(Family(m), Recordings(m), m, Allotted(Family(m), 2 * m + 1, p, m), Balanced(m));
  }
}
