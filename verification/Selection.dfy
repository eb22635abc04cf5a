/** Which commit is released, and its gate. */
module Selection {
  import opened Wrappers
  import opened Sorting
  import opened ReleaseIntent
  import opened PendingRequests

  datatype Conclusion = Succeeded | Broke | TimedOut | OtherConclusion

  datatype Run = Run(id: int, headSha: string, number: int, attempt: int, completed: bool, conclusion: Conclusion,
                     trusted: bool)

  /** What Git and the CI records say about a commit; `ci` is the run that meets its required jobs, if there is one. */
  datatype World = World(acceptanceOnly: string -> bool, ci: string -> Option<Run>)

  // ----- the latest run of a commit -----

  predicate Newer(a: Run, b: Run) {
    a.number > b.number || (a.number == b.number && (a.id > b.id || (a.id == b.id && a.attempt > b.attempt)))
  }

  function FirstFor(runs: seq<Run>, sha: string): Option<Run> {
    if runs == [] then None else if runs[0].headSha == sha then Some(runs[0]) else FirstFor(runs[1..], sha)
  }

  function LatestRun(records: seq<Run>, sha: string): Option<Run> {
    FirstFor(Sort(Newer, records), sha)
  }

  lemma NewerIsOrder()
    ensures StrictWeakOrder(Newer)
  {
  }

  lemma {:induction false} FirstIsNewest(runs: seq<Run>, sha: string)
    requires Sorted(Newer, runs)
    ensures FirstFor(runs, sha).None? <==> forall r :: r in runs ==> r.headSha != sha
    ensures (FirstFor(runs, sha).Some? ==>
               && FirstFor(runs, sha).value in runs && FirstFor(runs, sha).value.headSha == sha
               && forall r :: r in runs && r.headSha == sha ==> !Newer(r, FirstFor(runs, sha).value))
  {
    if runs != [] && runs[0].headSha != sha {
      FirstIsNewest(runs[1..], sha);
    } else if runs != [] {
      forall r | r in runs ensures !Newer(r, runs[0]) {
        var k :| 0 <= k < |runs| && runs[k] == r;
        if k == 0 {
          NewerIsOrder();
        }
      }
    }
  }

  /**
   * The latest run of a commit is one of its runs, and none of them has a higher number, ID and attempt, in this order.
   */
  lemma LatestIsNewest(records: seq<Run>, sha: string)
    ensures LatestRun(records, sha).None? <==> forall r :: r in records ==> r.headSha != sha
    ensures (LatestRun(records, sha).Some? ==>
               && LatestRun(records, sha).value in records && LatestRun(records, sha).value.headSha == sha
               && forall r :: r in records && r.headSha == sha ==> !Newer(r, LatestRun(records, sha).value))
  {
    var sorted := Sort(Newer, records);
    NewerIsOrder();
    SortSorts(Newer, records);
    SortKeepsElements(Newer, records);
    forall r ensures r in sorted <==> r in records {
      assert r in multiset(sorted) <==> r in multiset(records);
    }
    FirstIsNewest(sorted, sha);
  }

  method LatestRuns(records: seq<Run>) returns (latest: map<string, Run>)
    ensures forall sha :: sha in latest <==> LatestRun(records, sha).Some?
    ensures forall sha :: sha in latest ==> LatestRun(records, sha) == Some(latest[sha])
  {
    latest := map[];
    var sorted := Sort(Newer, records);
    for k := 0 to |sorted|
      invariant forall sha :: sha in latest <==> FirstFor(sorted[..k], sha).Some?
      invariant forall sha :: sha in latest ==> FirstFor(sorted[..k], sha) == Some(latest[sha])
    {
      FirstOfMore(sorted[..k], sorted[k]);
      assert sorted[..k + 1] == sorted[..k] + [sorted[k]];
      if sorted[k].headSha !in latest {
        latest := latest[sorted[k].headSha := sorted[k]];
      }
    }
    assert sorted[..|sorted|] == sorted;
  }

  lemma {:induction false} FirstOfMore(runs: seq<Run>, r: Run)
    ensures forall sha :: FirstFor(runs + [r], sha) ==
                          if FirstFor(runs, sha).Some? then FirstFor(runs, sha) else if r.headSha == sha then Some(r)
                              else None
  {
    if runs != [] {
      FirstOfMore(runs[1..], r);
      assert (runs + [r])[1..] == runs[1..] + [r];
    } else {
      assert [r][1..] == [];
      assert runs + [r] == [r];
    }
  }

  // ----- the source of a release -----

  function IndexOf(history: seq<string>, sha: string): (k: int)
    ensures -1 <= k < |history|
    ensures k >= 0 ==> history[k] == sha
    ensures k < 0 ==> sha !in history
  {
    if history == [] then -1
    else if history[0] == sha then 0
    else
      var k := IndexOf(history[1..], sha);
      if k < 0 then -1 else k + 1
  }

  function Trusted(records: seq<Run>): seq<Run> {
    if records == [] then []
    else Trusted(records[..|records| - 1]) + (if records[|records| - 1].trusted then [records[|records| - 1]] else [])
  }

  predicate InRange(history: seq<string>, sha: string, boundary: int) {
    IndexOf(history, sha) >= (if boundary > 0 then boundary else 0)
  }

  /** The latest trusted run passed, and the commit is no mere acceptance. */
  predicate Green(records: seq<Run>, sha: string, w: World) {
    var run := LatestRun(Trusted(records), sha);
    run.Some? && run.value.completed && run.value.conclusion == Succeeded && !w.acceptanceOnly(sha)
  }

  predicate Qualifies(history: seq<string>, records: seq<Run>, sha: string, boundary: int, w: World) {
    InRange(history, sha, boundary) && Green(records, sha, w) && w.ci(sha).Some?
  }

  datatype Reason = StableRequested(requestId: string) | NewestPassing

  datatype Source = Source(sourceSha: string, reason: Reason, ci: Run)

  /** The newest qualifying commit is at position `k`. */
  ghost predicate NewestAt(history: seq<string>, records: seq<Run>, boundary: int, w: World, k: int) {
    && 0 <= k < |history| && Qualifies(history, records, history[k], boundary, w)
    && forall j :: k < j < |history| ==> !Qualifies(history, records, history[j], boundary, w)
  }

  /** History runs from the oldest commit to the newest; a pending stable request is the only candidate. */
  method QualifiedSource(history: seq<string>, records: seq<Run>, pending: seq<StableRequest>, boundary: int, w: World)
    returns (selected: Option<Source>)
    ensures pending == [] ==>
              (selected.None? <==> forall k :: 0 <= k < |history| ==>
                    !Qualifies(history, records, history[k], boundary, w))
    ensures (pending == [] && selected.Some? ==>
               exists k :: NewestAt(history, records, boundary, w, k)
                           && selected == Some(Source(history[k], NewestPassing, w.ci(history[k]).value)))
    ensures (pending != [] ==>
               selected == if InRange(history, pending[0].sourceSha, boundary) && w.ci(pending[0].sourceSha).Some?
                           then Some(Source(pending[0].sourceSha, StableRequested(pending[0].requestId),
                               w.ci(pending[0].sourceSha).value))
                           else None)
  {
    var latest := LatestRuns(Trusted(records));
    if pending != [] {
      var sha := pending[0].sourceSha;
      if IndexOf(history, sha) < (if boundary > 0 then boundary else 0) || w.ci(sha).None? {
        return None;
      }
      return Some(Source(sha, StableRequested(pending[0].requestId), w.ci(sha).value));
    }
    var k := |history|;
    while k > 0
      invariant 0 <= k <= |history|
      invariant forall j :: k <= j < |history| ==> !Qualifies(history, records, history[j], boundary, w)
    {
      k := k - 1;
      var sha := history[k];
      var order := IndexOf(history, sha);
      if order >= (if boundary > 0 then boundary else 0)
         && sha in latest && latest[sha].completed && latest[sha].conclusion == Succeeded && !w.acceptanceOnly(sha)
         && w.ci(sha).Some? {
        assert NewestAt(history, records, boundary, w, k);
        return Some(Source(sha, NewestPassing, w.ci(sha).value));
      }
    }
    return None;
  }

  // ----- the gate -----

  datatype GateError =
    | CiMissing
    | HistoryInvalid(error: PendingError)
    | StableHoldsPublication
    | NoLongerRequested
    | BaselinesChanged
    | NotOnMain
    | NewerPassing(sha: string)

  function Reversed(s: seq<string>): (r: seq<string>)
    ensures |r| == |s| && forall k :: 0 <= k < |s| ==> r[k] == s[|s| - 1 - k]
  {
    if s == [] then [] else [s[|s| - 1]] + Reversed(s[..|s| - 1])
  }

  /** The commits of main after the candidate, oldest first; `main` runs from the newest commit to the oldest. */
  function After(main: seq<string>, sha: string): seq<string>
    requires sha in main
  {
    Reversed(main[..IndexOf(main, sha)])
  }

  /** No commit after the candidate qualifies. */
  ghost predicate NoneNewer(main: seq<string>, records: seq<Run>, sha: string, w: World)
    requires sha in main
  {
    var newer := After(main, sha);
    forall k :: 0 <= k < |newer| ==> !Qualifies(newer, records, newer[k], -1, w)
  }

  /** What the gate demands of the pending requests and of the newer commits, for a stable or a beta candidate. */
  ghost predicate StillSelected(sha: string, stable: bool, pending: seq<StableRequest>, main: seq<string>,
                                records: seq<Run>,
                                sameBaselines: bool, w: World) {
    && (forall r :: r in pending ==> r.sourceSha == sha)
    && (stable ==> pending != [])
    && sameBaselines
    && (!stable ==> sha in main && NoneNewer(main, records, sha, w))
  }

  method CheckSelected(sha: string, stable: bool, pending: seq<StableRequest>, main: seq<string>, records: seq<Run>,
                       sameBaselines: bool, w: World)
    returns (problem: Option<GateError>)
    requires |pending| <= 1
    ensures problem.None? <==> StillSelected(sha, stable, pending, main, records, sameBaselines, w)
  {
    assert pending != [] ==> pending[0] in pending;
    if pending != [] && pending[0].sourceSha != sha {
      return Some(StableHoldsPublication);
    }
    if stable && !exists r :: r in pending && r.sourceSha == sha {
      return Some(NoLongerRequested);
    }
    if !sameBaselines {
      return Some(BaselinesChanged);
    }
    if !stable {
      var index := IndexOf(main, sha);
      if index < 0 {
        return Some(NotOnMain);
      }
      var newer := QualifiedSource(Reversed(main[..index]), records, [], -1, w);
      if newer.Some? {
        ghost var k :| NewestAt(After(main, sha), records, -1, w, k);
        return Some(NewerPassing(newer.value.sourceSha));
      }
    }
    return None;
  }

  /**
   * The gate before publication, evaluated again after every download and upload: it opens exactly when the candidate
   * passed its CI, no other stable request is pending, a stable candidate is the pending one, the upgrade baselines are
   * those that were tested, and no commit of main after a beta qualifies.
   */
  method PublicationGate(sha: string, stable: bool, requests: seq<StableRequest>, published: map<string, string>,
                         main: seq<string>,
                         records: seq<Run>, sameBaselines: bool, w: World)
    returns (problem: Option<GateError>)
    ensures problem.None? <==>
            && w.ci(sha).Some? && Pending(requests, published).Success?
            && StillSelected(sha, stable, Pending(requests, published).value, main, records, sameBaselines, w)
  {
    if w.ci(sha).None? {
      return Some(CiMissing);
    }
    var pending := PendingStableRequests(requests, published);
    if pending.Failure? {
      return Some(HistoryInvalid(pending.error));
    }
    PendingIsOneOfThem(requests, published);
    problem := CheckSelected(sha, stable, pending.value, main, records, sameBaselines, w);
  }

  /** What passes the gate is held by no other stable request; a stable candidate is itself the pending one. */
  lemma GateRespectsRequests(sha: string, stable: bool, requests: seq<StableRequest>, published: map<string, string>,
                             main: seq<string>, records: seq<Run>, sameBaselines: bool, w: World)
    requires Pending(requests, published).Success?
    requires StillSelected(sha, stable, Pending(requests, published).value, main, records, sameBaselines, w)
    ensures forall i :: 0 <= i < |requests| && StillPending(requests, i, published) ==> requests[i].sourceSha == sha
    ensures stable ==>
              exists i :: 0 <= i < |requests| && StillPending(requests, i, published) && requests[i].sourceSha == sha
  {
    var pending := Pending(requests, published).value;
    PendingIsOneOfThem(requests, published);
    if pending != [] {
      assert pending == [pending[0]] && pending[0] in requests;
      var i :| 0 <= i < |requests| && requests[i] == pending[0];
      assert StillPending(requests, i, published);
    }
  }
}
