/** The bounded pool of concurrent workers. */
module WorkerPool {

  // ----- one pool, as interleaved worker steps -----

  /** A worker is about to look for work, runs the operation of one index, or has returned. */
  datatype Worker = Looking | Running(index: nat) | Returned

  /**
   * `next` and `failures` are the shared variables; a failure is the index whose operation threw.
   * `started` and `settled` record the order in which operations began and ended.
   */
  datatype Pool = Pool(next: nat, failures: seq<nat>, workers: seq<Worker>, started: seq<nat>, settled: seq<nat>)

  function AddFailure(failures: seq<nat>, index: nat, fails: nat -> bool): seq<nat> {
    if fails(index) then failures + [index] else failures
  }

  /**
   * Worker `w` runs until it next waits: it takes an index or returns, or its operation ends.
   * Taking an index checks the shared variables and advances `next` without giving way in between.
   */
  function Advance(pool: Pool, w: nat, n: nat, fails: nat -> bool): Pool
    requires CanAdvance(pool, w)
  {
    match pool.workers[w]
    case Looking =>
      if pool.failures == [] && pool.next < n then
        pool.(workers := pool.workers[w := Running(pool.next)], next := pool.next + 1,
              started := pool.started + [pool.next])
      else pool.(workers := pool.workers[w := Returned])
    case Running(index) =>
      pool.(workers := pool.workers[w := Looking], settled := pool.settled + [index],
            failures := AddFailure(pool.failures, index, fails))
  }

  predicate CanAdvance(pool: Pool, w: nat) {
    w < |pool.workers| && !pool.workers[w].Returned?
  }

  function Start(count: nat): Pool {
    Pool(0, [], seq(count, i => Looking), [], [])
  }

  /** `after` is the pool once the workers named by `schedule` have advanced in that order. */
  predicate Runs(pool: Pool, schedule: seq<nat>, after: Pool, n: nat, fails: nat -> bool)
    decreases |schedule|
  {
    if schedule == [] then after == pool
    else CanAdvance(pool, schedule[0]) && Runs(Advance(pool, schedule[0], n, fails), schedule[1..], after, n, fails)
  }

  // ----- what every interleaving keeps -----

  /** How many workers run the operation of index `i`. */
  function ActiveAt(workers: seq<Worker>, i: nat): nat {
    if workers == [] then 0
    else ActiveAt(workers[..|workers| - 1], i) + (if workers[|workers| - 1] == Running(i) then 1 else 0)
  }

  /** How many operations are active. */
  function Active(workers: seq<Worker>): nat {
    if workers == [] then 0
    else Active(workers[..|workers| - 1]) + (if workers[|workers| - 1].Running? then 1 else 0)
  }

  function Failed(indices: seq<nat>, fails: nat -> bool): seq<nat> {
    if indices == [] then []
    else AddFailure(Failed(indices[..|indices| - 1], fails), indices[|indices| - 1], fails)
  }

  function UpTo(n: nat): (indices: seq<nat>) {
    seq(n, i => i)
  }

  /** Index `i` is being worked on or settled, once, if it is below `next`; otherwise neither. */
  ghost predicate OnceAt(pool: Pool, i: nat) {
    multiset(pool.settled)[i] + ActiveAt(pool.workers, i) == if i < pool.next then 1 else 0
  }

  /** Started indices are the first `next`, and each of them is either being worked on or settled, once. */
  ghost predicate OnceEach(pool: Pool) {
    && pool.started == UpTo(pool.next)
    && forall i: nat :: OnceAt(pool, i)
  }

  ghost predicate Sound(pool: Pool, count: nat, n: nat, fails: nat -> bool) {
    && |pool.workers| == count
    && pool.next <= n
    && OnceEach(pool)
    && pool.failures == Failed(pool.settled, fails)
    && (Returned in pool.workers ==> pool.failures != [] || pool.next == n)
  }

  lemma {:induction false} ActiveReplaced(workers: seq<Worker>, w: nat, worker: Worker, i: nat)
    requires w < |workers|
    ensures ActiveAt(workers[w := worker], i)
            == ActiveAt(workers, i)
                + (if worker == Running(i) then 1 else 0) - (if workers[w] == Running(i) then 1 else 0)
  {
    var n := |workers| - 1;
    if w == n {
      assert workers[w := worker][..n] == workers[..n];
    } else {
      assert workers[w := worker][..n] == workers[..n][w := worker];
      ActiveReplaced(workers[..n], w, worker, i);
    }
  }

  lemma StartIsSound(count: nat, n: nat, fails: nat -> bool)
    ensures Sound(Start(count), count, n, fails)
  {
    forall i: nat ensures OnceAt(Start(count), i) {
      NothingActive(Start(count).workers, i);
    }
    assert UpTo(0) == [];
  }

  lemma {:induction false} NothingActive(workers: seq<Worker>, i: nat)
    requires forall w :: w in workers ==> !w.Running?
    ensures ActiveAt(workers, i) == 0
  {
    if workers != [] {
      NothingActive(workers[..|workers| - 1], i);
    }
  }

  lemma StepKeepsOnceAt(pool: Pool, w: nat, n: nat, fails: nat -> bool, i: nat)
    requires OnceAt(pool, i) && CanAdvance(pool, w)
    ensures OnceAt(Advance(pool, w, n, fails), i)
  {
    var after := Advance(pool, w, n, fails);
    ActiveReplaced(pool.workers, w, after.workers[w], i);
    if pool.workers[w].Running? {
      assert multiset(after.settled) == multiset(pool.settled) + multiset{pool.workers[w].index};
    }
  }

  lemma StepKeepsOnce(pool: Pool, w: nat, n: nat, fails: nat -> bool)
    requires OnceEach(pool) && CanAdvance(pool, w)
    ensures OnceEach(Advance(pool, w, n, fails))
  {
    assert UpTo(pool.next + 1) == UpTo(pool.next) + [pool.next];
    forall i: nat ensures OnceAt(Advance(pool, w, n, fails), i) {
      assert OnceAt(pool, i);
      StepKeepsOnceAt(pool, w, n, fails, i);
    }
  }

  lemma ReturnedAfter(workers: seq<Worker>, w: nat, worker: Worker)
    requires w < |workers|
    ensures Returned in workers[w := worker] ==> Returned in workers || worker == Returned
  {
  }

  lemma StepKeepsSound(pool: Pool, w: nat, count: nat, n: nat, fails: nat -> bool)
    requires Sound(pool, count, n, fails) && CanAdvance(pool, w)
    ensures Sound(Advance(pool, w, n, fails), count, n, fails)
  {
    var after := Advance(pool, w, n, fails);
    StepKeepsOnce(pool, w, n, fails);
    ReturnedAfter(pool.workers, w, after.workers[w]);
    if pool.workers[w].Running? {
      var settled := pool.settled + [pool.workers[w].index];
      assert settled[..|settled| - 1] == pool.settled;
    }
  }

  lemma {:induction false} RunKeepsSound(pool: Pool, schedule: seq<nat>, after: Pool, count: nat, n: nat,
                                         fails: nat -> bool)
    requires Sound(pool, count, n, fails) && Runs(pool, schedule, after, n, fails)
    ensures Sound(after, count, n, fails)
    decreases |schedule|
  {
    if schedule != [] {
      StepKeepsSound(pool, schedule[0], count, n, fails);
      RunKeepsSound(Advance(pool, schedule[0], n, fails), schedule[1..], after, count, n, fails);
    }
  }

  lemma {:induction false} ActiveSize(workers: seq<Worker>)
    ensures Active(workers) <= |workers|
  {
    if workers != [] {
      ActiveSize(workers[..|workers| - 1]);
    }
  }

  function Workers(limit: nat, n: nat): nat {
    if limit < n then limit else n
  }

  /** `pool` is reached from a fresh pool by some interleaving of its workers. */
  ghost predicate Reached(pool: Pool, schedule: seq<nat>, limit: nat, n: nat, fails: nat -> bool) {
    Runs(Start(Workers(limit, n)), schedule, pool, n, fails)
  }

  lemma ReachedIsSound(pool: Pool, schedule: seq<nat>, limit: nat, n: nat, fails: nat -> bool)
    requires Reached(pool, schedule, limit, n, fails)
    ensures Sound(pool, Workers(limit, n), n, fails)
  {
    StartIsSound(Workers(limit, n), n, fails);
    RunKeepsSound(Start(Workers(limit, n)), schedule, pool, Workers(limit, n), n, fails);
  }

  /**
   * In every interleaving the started indices are the first `next`, each started once; each is either still
   * active or settled, never both and never twice; and no more are active than the limit or the work allows.
   */
  lemma StartedOnce(pool: Pool, schedule: seq<nat>, limit: nat, n: nat, fails: nat -> bool)
    requires Reached(pool, schedule, limit, n, fails)
    ensures pool.next <= n && |pool.started| == pool.next && forall i :: 0 <= i < pool.next ==> pool.started[i] == i
    ensures forall i: nat :: OnceAt(pool, i)
    ensures Active(pool.workers) <= limit && Active(pool.workers) <= n
    ensures forall i :: i in pool.failures <==> i in pool.settled && fails(i)
  {
    ReachedIsSound(pool, schedule, limit, n, fails);
    ActiveSize(pool.workers);
    FailedMembers(pool.settled, fails);
  }

  lemma {:induction false} FailedMembers(indices: seq<nat>, fails: nat -> bool)
    ensures forall i :: i in Failed(indices, fails) <==> i in indices && fails(i)
  {
    if indices != [] {
      FailedMembers(indices[..|indices| - 1], fails);
      assert indices == indices[..|indices| - 1] + [indices[|indices| - 1]];
    }
  }

  /** Once a failure is recorded nothing more starts, whoever advances. */
  lemma {:induction false} NothingStartsAfterFailure(pool: Pool, schedule: seq<nat>, after: Pool, n: nat,
                                                     fails: nat -> bool)
    requires pool.failures != [] && Runs(pool, schedule, after, n, fails)
    ensures after.started == pool.started && after.next == pool.next && pool.failures <= after.failures
    decreases |schedule|
  {
    if schedule != [] {
      NothingStartsAfterFailure(Advance(pool, schedule[0], n, fails), schedule[1..], after, n, fails);
    }
  }

  // ----- termination -----

  function Cost(worker: Worker): nat {
    match worker
    case Returned => 0
    case Looking => 1
    case Running(_) => 2
  }

  function Costs(workers: seq<Worker>): nat {
    if workers == [] then 0 else Costs(workers[..|workers| - 1]) + Cost(workers[|workers| - 1])
  }

  /** How many steps are left at most. */
  function StepsLeft(pool: Pool, n: nat): nat
    requires pool.next <= n
  {
    2 * (n - pool.next) + Costs(pool.workers)
  }

  lemma {:induction false} CostsReplaced(workers: seq<Worker>, w: nat, worker: Worker)
    requires w < |workers|
    ensures Costs(workers[w := worker]) + Cost(workers[w]) == Costs(workers) + Cost(worker)
  {
    var n := |workers| - 1;
    if w == n {
      assert workers[w := worker][..n] == workers[..n];
    } else {
      assert workers[w := worker][..n] == workers[..n][w := worker];
      CostsReplaced(workers[..n], w, worker);
    }
  }

  lemma StepCosts(pool: Pool, w: nat, n: nat, fails: nat -> bool)
    requires pool.next <= n && CanAdvance(pool, w)
    ensures Advance(pool, w, n, fails).next <= n
    ensures StepsLeft(Advance(pool, w, n, fails), n) < StepsLeft(pool, n)
  {
    CostsReplaced(pool.workers, w, Advance(pool, w, n, fails).workers[w]);
  }

  lemma {:induction false} StartCosts(count: nat)
    ensures Costs(Start(count).workers) == count
  {
    if count > 0 {
      assert Start(count).workers[..count - 1] == Start(count - 1).workers;
      StartCosts(count - 1);
    }
  }

  lemma {:induction false} RunCosts(pool: Pool, schedule: seq<nat>, after: Pool, n: nat, fails: nat -> bool)
    requires pool.next <= n && Runs(pool, schedule, after, n, fails)
    ensures after.next <= n && |schedule| + StepsLeft(after, n) <= StepsLeft(pool, n)
    decreases |schedule|
  {
    if schedule != [] {
      StepCosts(pool, schedule[0], n, fails);
      RunCosts(Advance(pool, schedule[0], n, fails), schedule[1..], after, n, fails);
    }
  }

  predicate AllReturned(pool: Pool) {
    forall w :: w in pool.workers ==> w.Returned?
  }

  /** No run is longer than two steps an operation and one a worker, and only a drained pool is stuck. */
  lemma RunsEnd(pool: Pool, schedule: seq<nat>, limit: nat, n: nat, fails: nat -> bool)
    requires Reached(pool, schedule, limit, n, fails)
    ensures |schedule| <= 2 * n + Workers(limit, n)
    ensures AllReturned(pool) <==> !exists w: nat :: CanAdvance(pool, w)
  {
    StartCosts(Workers(limit, n));
    RunCosts(Start(Workers(limit, n)), schedule, pool, n, fails);
    if !AllReturned(pool) {
      var worker :| worker in pool.workers && !worker.Returned?;
      var w :| 0 <= w < |pool.workers| && pool.workers[w] == worker;
      assert CanAdvance(pool, w);
    }
  }

  // ----- the result -----

  datatype Outcome = Completed | Threw(index: nat) | InvalidLimit

  function Result(pool: Pool): Outcome {
    if pool.failures == [] then Completed else Threw(pool.failures[0])
  }

  /**
   * When every worker has returned, everything started has settled, and the pool succeeds exactly when
   * no operation fails; then all of them ran. Otherwise it throws the failure recorded first.
   */
  lemma DrainedResult(pool: Pool, schedule: seq<nat>, limit: nat, n: nat, fails: nat -> bool)
    requires limit >= 1 && Reached(pool, schedule, limit, n, fails) && AllReturned(pool)
    ensures forall i: nat :: multiset(pool.settled)[i] == if i < pool.next then 1 else 0
    ensures Result(pool) == Completed <==> forall i :: 0 <= i < n ==> !fails(i)
    ensures Result(pool) == Completed ==> pool.next == n
    ensures Result(pool).Threw? ==> Result(pool).index < n && fails(Result(pool).index)
  {
    ReachedIsSound(pool, schedule, limit, n, fails);
    forall i: nat ensures multiset(pool.settled)[i] == if i < pool.next then 1 else 0 {
      NothingActive(pool.workers, i);
      assert OnceAt(pool, i);
    }
    DrainedFailures(pool, Workers(limit, n), n, fails);
  }

  lemma DrainedFailures(pool: Pool, count: nat, n: nat, fails: nat -> bool)
    requires Sound(pool, count, n, fails) && AllReturned(pool) && (count == 0 ==> n == 0)
    requires forall i: nat :: multiset(pool.settled)[i] == if i < pool.next then 1 else 0
    ensures pool.failures == [] ==> pool.next == n
    ensures pool.failures == [] <==> forall i :: 0 <= i < n ==> !fails(i)
    ensures pool.failures != [] ==> pool.failures[0] < n && fails(pool.failures[0])
  {
    FailedMembers(pool.settled, fails);
    if count > 0 {
      assert pool.workers[0] in pool.workers;
    }
    forall i: nat ensures i in pool.settled <==> i < pool.next {
      assert i in multiset(pool.settled) <==> i in pool.settled;
    }
    if pool.failures != [] {
      assert pool.failures[0] in pool.failures;
    } else {
      forall i | 0 <= i < n ensures !fails(i) {
        assert i in pool.settled;
      }
    }
  }

  // ----- the pool itself -----

  const MAX_SAFE_INTEGER: int := 9_007_199_254_740_991

  predicate ValidLimit(limit: int) {
    1 <= limit <= MAX_SAFE_INTEGER
  }

  lemma {:induction false} RunExtends(pool: Pool, schedule: seq<nat>, mid: Pool, w: nat, n: nat, fails: nat -> bool)
    requires Runs(pool, schedule, mid, n, fails) && CanAdvance(mid, w)
    ensures Runs(pool, schedule + [w], Advance(mid, w, n, fails), n, fails)
    decreases |schedule|
  {
    if schedule == [] {
      assert ([] + [w])[1..] == [];
    } else {
      RunExtends(Advance(pool, schedule[0], n, fails), schedule[1..], mid, w, n, fails);
      assert (schedule + [w])[1..] == schedule[1..] + [w];
    }
  }

  /** The variables the workers share, and where each worker is. */
  class Coordinator {
    var next: nat
    var failures: seq<nat>
    var workers: seq<Worker>
    ghost var started: seq<nat>
    ghost var settled: seq<nat>

    ghost function State(): Pool
      reads this
    {
      Pool(next, failures, workers, started, settled)
    }

    constructor (count: nat)
      ensures State() == Start(count)
    {
      next, failures, workers := 0, [], seq(count, i => Looking);
      started, settled := [], [];
    }

    /** The loop head: take the next index, or return. */
    method Look(w: nat, n: nat)
      requires w < |workers| && workers[w].Looking?
      modifies this
      ensures forall fails: nat -> bool :: State() == Advance(old(State()), w, n, fails)
    {
      if failures == [] && next < n {
        var index := next;
        next := next + 1;
        started := started + [index];
        workers := workers[w := Running(index)];
      } else {
        workers := workers[w := Returned];
      }
    }

    /** The operation of the worker's index ends, throwing or not. */
    method Settle(w: nat, n: nat, fails: nat -> bool)
      requires w < |workers| && workers[w].Running?
      modifies this
      ensures State() == Advance(old(State()), w, n, fails)
    {
      var index := workers[w].index;
      settled := settled + [index];
      if fails(index) {
        failures := failures + [index];
      }
      workers := workers[w := Looking];
    }
  }

  /** The workers advance in an arbitrary order until all have returned. */
  method ReleasePool(n: nat, limit: int, fails: nat -> bool)
    returns (outcome: Outcome, ghost pool: Pool, ghost schedule: seq<nat>)
    ensures outcome == InvalidLimit <==> !ValidLimit(limit)
    ensures ValidLimit(limit) ==>
              Reached(pool, schedule, limit, n, fails) && AllReturned(pool) && outcome == Result(pool)
    ensures ValidLimit(limit) ==> (outcome == Completed <==> forall i :: 0 <= i < n ==> !fails(i))
  {
    pool, schedule := Start(0), [];
    if !ValidLimit(limit) {
      return InvalidLimit, pool, schedule;
    }
    var shared := new Coordinator(Workers(limit, n));
    while exists w :: 0 <= w < |shared.workers| && !shared.workers[w].Returned?
      invariant Reached(shared.State(), schedule, limit, n, fails) && shared.next <= n
      decreases StepsLeft(shared.State(), n)
    {
      var w: nat :| w < |shared.workers| && !shared.workers[w].Returned?;
      ghost var before := shared.State();
      StepCosts(before, w, n, fails);
      RunExtends(Start(Workers(limit, n)), schedule, before, w, n, fails);
      if shared.workers[w].Looking? {
        shared.Look(w, n);
      } else {
        shared.Settle(w, n, fails);
      }
      assert shared.State() == Advance(before, w, n, fails);
      schedule := schedule + [w];
    }
    pool := shared.State();
    assert AllReturned(pool);
    DrainedResult(pool, schedule, limit, n, fails);
    outcome := if shared.failures == [] then Completed else Threw(shared.failures[0]);
  }
}
