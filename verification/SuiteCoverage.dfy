/** What a suite's results cover, and which scenarios may run. */
module SuiteCoverage {
  import opened Wrappers
  import opened SuiteRecords

  /** One scenario of the catalog, for one provider where it has one. */
  datatype Scenario = Scenario(key: string, id: string, group: string, provider: Option<string>, operator: bool)

  /** A result as it is held in memory. */
  datatype Entry = Entry(id: Id, outcome: Outcome)

  datatype Reason =
    | UnknownGroup
    | AlreadyAdmitted
    | IdentityChanged
    | InterruptedAdmission
    | InvalidResult
    | DuplicateAttempt
    | AlreadyExists
    | SelectionAndRetry
    | UnknownScenario
    | NothingToRetry
    | OperatorNotReady
    | TooManyResults

  function KeysOf(scenarios: seq<Scenario>): set<string> {
    set s | s in scenarios :: s.key
  }

  /** The catalog names every scenario once. */
  ghost predicate UniqueKeys(scenarios: seq<Scenario>) {
    forall i, j :: 0 <= i < j < |scenarios| ==> scenarios[i].key != scenarios[j].key
  }

  ghost predicate Distinct(entries: seq<Entry>) {
    forall i, j :: 0 <= i < j < |entries| ==> entries[i].id != entries[j].id
  }

  predicate Ran(entries: seq<Entry>, key: string) {
    exists e :: e in entries && e.id.scenario == key
  }

  ghost predicate IsLatest(entries: seq<Entry>, e: Entry) {
    e in entries && forall f :: f in entries && f.id.scenario == e.id.scenario ==> f.id.attempt <= e.id.attempt
  }

  ghost predicate LatestOf(entries: seq<Entry>, latest: map<string, Entry>) {
    && (forall e :: e in entries ==> e.id.scenario in latest)
    && (forall k :: k in latest ==> latest[k].id.scenario == k && IsLatest(entries, latest[k]))
  }

  lemma LatestOn(entries: seq<Entry>, latest: map<string, Entry>, e: Entry)
    requires LatestOf(entries, latest)
    ensures var key := e.id.scenario;
            var newer := key !in latest || latest[key].id.attempt < e.id.attempt;
            LatestOf(entries + [e], if newer then latest[key := e] else latest)
  {
    var key := e.id.scenario;
    var next := if key !in latest || latest[key].id.attempt < e.id.attempt then latest[key := e] else latest;
    assert forall f :: f in entries + [e] <==> f in entries || f == e;
    forall k | k in next ensures IsLatest(entries + [e], next[k]) {
      if k == key {
        assert key in latest ==> IsLatest(entries, latest[key]);
      } else {
        assert IsLatest(entries, latest[k]);
      }
    }
  }

  /** Succeeds exactly when every result is one of this suite's and no attempt occurs twice. */
  method Coverage(entries: seq<Entry>, keys: set<string>) returns (covered: Result<map<string, Entry>, Reason>)
    ensures covered.Success? <==> (forall e :: e in entries ==> Recordable(e.id, keys)) && Distinct(entries)
    ensures covered.Failure? ==>
              covered.error == InvalidResult || (covered.error == DuplicateAttempt && !Distinct(entries))
    ensures covered.Success? ==> LatestOf(entries, covered.value)
  {
    var latest: map<string, Entry> := map[];
    var attempts: set<Id> := {};
    for i := 0 to |entries|
      invariant attempts == set e | e in entries[..i] :: e.id
      invariant Distinct(entries[..i])
      invariant forall e :: e in entries[..i] ==> Recordable(e.id, keys)
      invariant LatestOf(entries[..i], latest)
    {
      var e := entries[i];
      assert e in entries;
      if !Recordable(e.id, keys) {
        return Failure(InvalidResult);
      }
      if e.id in attempts {
        Repeated(entries, i);
        return Failure(DuplicateAttempt);
      }
      attempts := attempts + {e.id};
      assert entries[..i + 1] == entries[..i] + [e];
      LatestOn(entries[..i], latest, e);
      StillDistinct(entries, i);
      var key := e.id.scenario;
      if key !in latest || latest[key].id.attempt < e.id.attempt {
        latest := latest[key := e];
      }
    }
    assert entries[..|entries|] == entries;
    return Success(latest);
  }

  lemma Repeated(entries: seq<Entry>, i: nat)
    requires i < |entries| && exists e :: e in entries[..i] && e.id == entries[i].id
    ensures !Distinct(entries)
  {
    var e :| e in entries[..i] && e.id == entries[i].id;
    var j :| 0 <= j < i && entries[j] == e;
  }

  lemma StillDistinct(entries: seq<Entry>, i: nat)
    requires i < |entries| && Distinct(entries[..i]) && forall e :: e in entries[..i] ==> e.id != entries[i].id
    ensures Distinct(entries[..i + 1])
  {
    var before, all := entries[..i], entries[..i + 1];
    assert all == before + [entries[i]];
    forall j, k | 0 <= j < k < |all| ensures all[j].id != all[k].id {
      assert all[j] == before[j] && all[j] in before;
    }
  }

  ghost predicate LatestPassed(entries: seq<Entry>, key: string) {
    exists e :: IsLatest(entries, e) && e.id.scenario == key && e.outcome.state == Passed
  }

  /** Which scenarios a run selects; an empty `retry` or `chosen` means none was given. */
  ghost predicate MayRun(s: Scenario, entries: seq<Entry>, group: string, retry: string, chosen: string) {
    && s.group == group
    && (chosen == "" || s.key == chosen)
    && (if retry != "" then s.key == retry && !LatestPassed(entries, s.key) else !Ran(entries, s.key))
  }

  lemma OneLatest(entries: seq<Entry>, e: Entry, f: Entry)
    requires Distinct(entries) && IsLatest(entries, e) && IsLatest(entries, f) && e.id.scenario == f.id.scenario
    ensures e == f
  {
    var i :| 0 <= i < |entries| && entries[i] == e;
    var j :| 0 <= j < |entries| && entries[j] == f;
    assert e.id.attempt == f.id.attempt;
  }

  lemma LatestDecides(entries: seq<Entry>, latest: map<string, Entry>, key: string)
    requires Distinct(entries) && LatestOf(entries, latest)
    ensures LatestPassed(entries, key) <==> key in latest && latest[key].outcome.state == Passed
    ensures Ran(entries, key) <==> key in latest
  {
    if LatestPassed(entries, key) {
      var e :| IsLatest(entries, e) && e.id.scenario == key && e.outcome.state == Passed;
      OneLatest(entries, e, latest[key]);
    }
  }

  /** The scenarios to run, in catalog order. */
  method Pending(scenarios: seq<Scenario>, entries: seq<Entry>, group: string, retry: string, chosen: string)
    returns (selected: Result<seq<Scenario>, Reason>)
    requires UniqueKeys(scenarios)
    ensures selected.Failure? ==>
              selected.error in {SelectionAndRetry, UnknownScenario, InvalidResult, DuplicateAttempt}
    ensures selected == Failure(DuplicateAttempt) ==> !Distinct(entries)
    ensures selected.Success? ==> UniqueKeys(selected.value)
    ensures selected.Success? ==>
              forall s :: s in selected.value <==> s in scenarios && MayRun(s, entries, group, retry, chosen)
    ensures selected.Success? ==> Distinct(entries)
  {
    if chosen != "" && retry != "" {
      return Failure(SelectionAndRetry);
    }
    if chosen != "" && !exists s :: s in scenarios && s.group == group && s.key == chosen {
      return Failure(UnknownScenario);
    }
    var covered := Coverage(entries, KeysOf(scenarios));
    if covered.Failure? {
      return Failure(covered.error);
    }
    var latest := covered.value;
    var kept: seq<Scenario> := [];
    for i := 0 to |scenarios|
      invariant UniqueKeys(kept)
      invariant forall s :: s in kept <==> s in scenarios[..i] && MayRun(s, entries, group, retry, chosen)
    {
      var s := scenarios[i];
      LatestDecides(entries, latest, s.key);
      assert scenarios[..i + 1] == scenarios[..i] + [s];
      NewKey(scenarios, i);
      if s.group == group && (chosen == "" || s.key == chosen)
         && (if retry != "" then s.key == retry && !(s.key in latest && latest[s.key].outcome.state == Passed)
             else s.key !in latest) {
        kept := kept + [s];
      }
    }
    assert scenarios[..|scenarios|] == scenarios;
    return Success(kept);
  }

  lemma NewKey(scenarios: seq<Scenario>, i: nat)
    requires UniqueKeys(scenarios) && i < |scenarios|
    ensures forall s :: s in scenarios[..i] ==> s.key != scenarios[i].key
  {
    forall s | s in scenarios[..i] ensures s.key != scenarios[i].key {
      var j :| 0 <= j < i && scenarios[j] == s;
    }
  }

  lemma SameScenario(scenarios: seq<Scenario>, s: Scenario, t: Scenario)
    requires UniqueKeys(scenarios) && s in scenarios && t in scenarios && s.key == t.key
    ensures s == t
  {
    var i :| 0 <= i < |scenarios| && scenarios[i] == s;
    var j :| 0 <= j < |scenarios| && scenarios[j] == t;
  }
}
