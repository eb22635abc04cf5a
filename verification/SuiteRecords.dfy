/** What every history of a certification suite keeps. */
module SuiteRecords {
  import opened JsText
  import opened Decimals

  datatype Id = Id(scenario: string, attempt: nat)

  datatype State = Passed | Failed | Blocked | NotRun

  datatype Outcome = Outcome(state: State, reason: string)

  const OUTCOME_UNKNOWN: Outcome := Outcome(Failed, "outcome-unknown")

  // ----- file names -----

  /** At least three digits. */
  function Padded(n: nat): string {
    var digits := Decimal(n);
    if |digits| == 1 then "00" + digits else if |digits| == 2 then "0" + digits else digits
  }

  function AttemptName(id: Id): string {
    id.scenario + "." + Padded(id.attempt)
  }

  lemma PaddedReadsBack(n: nat)
    ensures AllDigits(Padded(n)) && ParseDigits(Padded(n)) == n
  {
    var digits := Decimal(n);
    ParseUndoesDecimal(n);
    LeadingZero(digits);
    LeadingZero("0" + digits);
    assert "0" + ("0" + digits) == "00" + digits;
  }

  lemma {:induction false} LeadingZero(digits: string)
    requires AllDigits(digits)
    ensures AllDigits("0" + digits) && ParseDigits("0" + digits) == ParseDigits(digits)
  {
    var padded := "0" + digits;
    assert forall c :: c in padded ==> c == '0' || c in digits;
    if digits == [] {
      assert padded[..0] == [];
    } else {
      var n := |digits| - 1;
      assert padded[..n + 1] == "0" + digits[..n];
      LeadingZero(digits[..n]);
    }
  }

  lemma DotIsNotAfter(a: string, x: string, k: nat)
    requires '.' !in x
    ensures |a| < k < |a + "." + x| ==> (a + "." + x)[k] != '.'
  {
    if |a| < k < |a + "." + x| {
      assert (a + "." + x)[k] in x;
    }
  }

  /** The part after the last dot holds no dot, so it is the same in equal names. */
  lemma LastDot(a: string, x: string, b: string, y: string)
    requires '.' !in x && '.' !in y && a + "." + x == b + "." + y
    ensures a == b && x == y
  {
    var s, t := a + "." + x, b + "." + y;
    assert s[|a|] == '.' && t[|b|] == '.';
    DotIsNotAfter(a, x, |b|);
    DotIsNotAfter(b, y, |a|);
    assert s[..|a|] == a && t[..|b|] == b;
    assert s[|a| + 1..] == x && t[|b| + 1..] == y;
  }

  /** Distinct attempts have distinct files, so an attempt can be told by its name. */
  lemma AttemptNamesDiffer(a: Id, b: Id)
    requires AttemptName(a) == AttemptName(b)
    ensures a == b
  {
    PaddedReadsBack(a.attempt);
    PaddedReadsBack(b.attempt);
    LastDot(a.scenario, Padded(a.attempt), b.scenario, Padded(b.attempt));
  }

  // ----- the history of a suite -----

  /** What a suite does for good: an exclusive reservation, the start of an execution, a result. */
  datatype Event = Reserved(id: Id) | Executed(id: Id) | Recorded(id: Id, outcome: Outcome)

  /** Every result of the scenario so far is of an earlier attempt that did not pass. */
  predicate Fresh(log: seq<Event>, id: Id) {
    forall e :: e in log && e.Recorded? && e.id.scenario == id.scenario ==>
      e.id.attempt < id.attempt && e.outcome.state != Passed
  }

  predicate Allowed(before: seq<Event>, e: Event) {
    && Fresh(before, e.id)
    && (e.Reserved? ==> e !in before)
    && (e.Executed? ==> e !in before && Reserved(e.id) in before)
  }

  predicate Legal(log: seq<Event>) {
    log == [] || (Legal(log[..|log| - 1]) && Allowed(log[..|log| - 1], log[|log| - 1]))
  }

  lemma {:induction false} LegalAt(log: seq<Event>, k: nat)
    requires Legal(log) && k < |log|
    ensures Allowed(log[..k], log[k])
  {
    var n := |log| - 1;
    if k < n {
      LegalAt(log[..n], k);
      assert log[..n][..k] == log[..k];
    }
  }

  /** No attempt is executed twice. */
  lemma {:induction false} ExecutedAtMostOnce(log: seq<Event>, i: nat, j: nat)
    requires Legal(log) && i < j < |log| && log[i].Executed? && log[j].Executed?
    ensures log[i].id != log[j].id
  {
    LegalAt(log, j);
    assert log[i] in log[..j];
  }

  /** Every execution follows the one reservation of its attempt, and precedes its result. */
  lemma ExecutedAfterReserved(log: seq<Event>, j: nat) returns (i: nat)
    requires Legal(log) && j < |log| && log[j].Executed?
    ensures i < j && log[i] == Reserved(log[j].id)
    ensures forall k :: 0 <= k < |log| && log[k] == Reserved(log[j].id) ==> k == i
    ensures forall k :: 0 <= k < j && log[k].Recorded? ==> log[k].id != log[j].id
  {
    LegalAt(log, j);
    i :| 0 <= i < j && log[i] == Reserved(log[j].id);
    forall k | 0 <= k < |log| && k != i ensures log[k] != log[i] {
      if k < i {
        ReservedOnce(log, k, i);
      } else {
        ReservedOnce(log, i, k);
      }
    }
    forall k | 0 <= k < j && log[k].Recorded? ensures log[k].id != log[j].id {
      assert log[k] in log[..j];
    }
  }

  lemma {:induction false} ReservedOnce(log: seq<Event>, i: nat, j: nat)
    requires Legal(log) && i < j < |log|
    ensures log[j].Reserved? ==> log[i] != log[j]
  {
    LegalAt(log, j);
    assert log[i] in log[..j];
  }

  /** Once a scenario has passed, it is never reserved, executed or recorded again. */
  lemma {:induction false} PassedIsFinal(log: seq<Event>, i: nat, j: nat)
    requires Legal(log) && i < j < |log| && log[i].Recorded? && log[i].outcome.state == Passed
    ensures log[j].id.scenario != log[i].id.scenario
  {
    LegalAt(log, j);
    assert log[i] in log[..j];
  }

  /** Results of a scenario are recorded in the order of its attempts, so no attempt has two. */
  lemma {:induction false} AttemptsIncrease(log: seq<Event>, i: nat, j: nat)
    requires Legal(log) && i < j < |log| && log[i].Recorded? && log[j].Recorded?
    requires log[i].id.scenario == log[j].id.scenario
    ensures log[i].id.attempt < log[j].id.attempt
  {
    LegalAt(log, j);
    assert log[i] in log[..j];
  }

  // ----- what is on disk -----

  const MAX_ATTEMPT: nat := 999

  /** What a clock shows, in milliseconds; a clock may be set back at any time. */
  type Instant = int

  /** The durable files, reservations with the time at which they were made, and the history that led to them. */
  datatype Disk = Disk(started: map<Id, Instant>, results: map<Id, Outcome>, log: seq<Event>)

  /** Reservations without a result. */
  function Unfinished(d: Disk): set<Id> {
    d.started.Keys - d.results.Keys
  }

  predicate Recordable(id: Id, keys: set<string>) {
    id.scenario in keys && 1 <= id.attempt <= MAX_ATTEMPT
  }

  ghost predicate ReservedOnDisk(d: Disk) {
    forall id :: id in d.started <==> Reserved(id) in d.log
  }

  ghost predicate RecordedOnDisk(d: Disk) {
    && (forall id :: id in d.results ==> Recorded(id, d.results[id]) in d.log)
    && (forall e :: e in d.log && e.Recorded? ==> e.id in d.results && d.results[e.id] == e.outcome)
  }

  ghost predicate UnfinishedAreFresh(d: Disk) {
    && (forall id :: id in Unfinished(d) ==> Fresh(d.log, id))
    && (forall x, y :: x in Unfinished(d) && y in Unfinished(d) && x.scenario == y.scenario ==> x == y)
  }

  ghost predicate Sound(d: Disk, keys: set<string>) {
    && Legal(d.log) && ReservedOnDisk(d) && RecordedOnDisk(d) && UnfinishedAreFresh(d)
    && (forall id :: id in d.results ==> Recordable(id, keys))
    && (forall id :: id in d.started ==> id.scenario in keys && id.attempt >= 1)
  }

  function Reserve(d: Disk, id: Id, start: Instant): Disk {
    d.(started := d.started[id := start], log := d.log + [Reserved(id)])
  }

  function Execute(d: Disk, id: Id): Disk {
    d.(log := d.log + [Executed(id)])
  }

  function Record(d: Disk, id: Id, outcome: Outcome): Disk {
    d.(results := d.results[id := outcome], log := d.log + [Recorded(id, outcome)])
  }

  lemma {:induction false} LegalOn(log: seq<Event>, e: Event)
    requires Legal(log) && Allowed(log, e)
    ensures Legal(log + [e])
  {
    assert (log + [e])[..|log|] == log;
  }

  lemma FreshOn(log: seq<Event>, e: Event, id: Id)
    ensures Fresh(log + [e], id) <==>
            && Fresh(log, id)
            && (e.Recorded? && e.id.scenario == id.scenario ==>
                  e.id.attempt < id.attempt && e.outcome.state != Passed)
  {
    assert forall f :: f in log + [e] <==> f in log || f == e;
  }

  /** An exclusive reservation of a new attempt, while no other of the scenario is unfinished. */
  lemma ReserveKeepsSound(d: Disk, id: Id, start: Instant, keys: set<string>)
    requires Sound(d, keys) && id !in d.started && Fresh(d.log, id) && id.scenario in keys && id.attempt >= 1
    requires forall x :: x in Unfinished(d) ==> x.scenario != id.scenario
    ensures Sound(Reserve(d, id, start), keys)
    ensures Unfinished(Reserve(d, id, start)) == Unfinished(d) + {id}
  {
    var next, e := Reserve(d, id, start), Reserved(id);
    LegalOn(d.log, e);
    assert id !in d.results;
    assert Unfinished(next) == Unfinished(d) + {id};
    forall x | x in Unfinished(next) ensures Fresh(next.log, x) {
      FreshOn(d.log, e, x);
    }
  }

  lemma ExecuteKeepsSound(d: Disk, id: Id, keys: set<string>)
    requires Sound(d, keys) && id in Unfinished(d) && Executed(id) !in d.log
    ensures Sound(Execute(d, id), keys)
    ensures Unfinished(Execute(d, id)) == Unfinished(d)
  {
    var next, e := Execute(d, id), Executed(id);
    LegalOn(d.log, e);
    forall x | x in Unfinished(next) ensures Fresh(next.log, x) {
      FreshOn(d.log, e, x);
    }
  }

  lemma RecordKeepsSound(d: Disk, id: Id, outcome: Outcome, keys: set<string>)
    requires Sound(d, keys) && Fresh(d.log, id) && Recordable(id, keys)
    requires forall x :: x in Unfinished(d) && x.scenario == id.scenario ==> x == id
    ensures Sound(Record(d, id, outcome), keys)
    ensures Unfinished(Record(d, id, outcome)) == Unfinished(d) - {id}
  {
    var next, e := Record(d, id, outcome), Recorded(id, outcome);
    LegalOn(d.log, e);
    assert Unfinished(next) == Unfinished(d) - {id};
    assert id !in d.results;
    forall x | x in Unfinished(next) ensures Fresh(next.log, x) {
      FreshOn(d.log, e, x);
    }
  }

  /** On a sound disk an attempt above all recorded ones, of a scenario that has not passed, is fresh. */
  lemma AboveIsFresh(d: Disk, id: Id, keys: set<string>)
    requires Sound(d, keys)
    requires forall x :: x in d.results && x.scenario == id.scenario ==>
              x.attempt < id.attempt && d.results[x].state != Passed
    ensures Fresh(d.log, id)
  {
  }

  /** A passed result is the latest of its scenario. */
  lemma PassedIsLatest(d: Disk, id: Id, other: Id, keys: set<string>)
    requires Sound(d, keys) && id in d.results && d.results[id].state == Passed
    requires other in d.results && other.scenario == id.scenario
    ensures other.attempt <= id.attempt
  {
    var passed, recorded := Recorded(id, d.results[id]), Recorded(other, d.results[other]);
    var i :| 0 <= i < |d.log| && d.log[i] == passed;
    var j :| 0 <= j < |d.log| && d.log[j] == recorded;
    if j < i {
      AttemptsIncrease(d.log, j, i);
    } else if i < j {
      PassedIsFinal(d.log, i, j);
    }
  }
}
