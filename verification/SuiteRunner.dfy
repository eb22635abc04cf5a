/**
 * runSuite, file by file, in a process that may die between any two durable operations: what one run records,
 * recovers and refuses, and what holds over every history of runs, resumes and deaths.
 */
module SuiteRunner {
  import opened Wrappers
  import opened SuiteRecords
  import opened SuiteCoverage

  datatype Step = Ok | Died | Threw(reason: Reason)

  /** `proof` is whether a passed result carries the evidence that saving it demands. */
  datatype Verdict = Verdict(state: State, reason: string, proof: bool)

  datatype SecondPhase = Incomplete | Unreadable | Summarized(verdict: Verdict)

  /** What running the commands of a scenario leads to. */
  datatype Execution = Execution(
    failed: bool,
    interrupted: bool,
    proof: bool,
    summary: Option<Verdict>,
    second: SecondPhase,
    identityChanged: bool)

  datatype Answer = NoTerminal | Ready | Stop

  datatype Options = Options(group: string, resume: bool, retry: string, chosen: string, operatorReady: bool)

  /**
   * What the machine decides during one run. `startedAt` and `finishedAt` are what the clock shows when an attempt
   * begins and when its result is made; `steps` is how many durable operations happen before the process dies.
   */
  datatype Environment = Environment(
    sameIdentity: bool,
    darwin: bool,
    blocker: (Scenario, bool) -> Option<string>,
    answer: Answer,
    execution: Id -> Execution,
    startedAt: Id -> Instant,
    finishedAt: Id -> Instant,
    steps: Option<nat>)

  const GROUPS: set<string> := {"automated", "workflows", "protection", "recovery", "builtin", "chrome"}

  // ----- the suite's directory -----

  class Directory {
    var started: map<Id, Instant>
    var results: map<Id, Outcome>
    var locked: bool
    var steps: Option<nat>
    ghost var log: seq<Event>

    ghost function Contents(): Disk
      reads this
    {
      Disk(started, results, log)
    }

    constructor ()
      ensures Contents() == Disk(map[], map[], []) && !locked
    {
      started, results, locked, steps, log := map[], map[], false, None, [];
    }

    /** One durable operation, unless the process dies before it. */
    method Spend() returns (alive: bool)
      modifies this`steps
      ensures alive == (old(steps) != Some(0))
      ensures old(steps).None? ==> steps.None?
    {
      alive := steps != Some(0);
      if steps.Some? && steps.value > 0 {
        steps := Some(steps.value - 1);
      }
    }

    /** Writes a reservation; an existing one is never replaced. */
    method WriteStarted(id: Id, start: Instant) returns (step: Step)
      modifies this`started, this`log, this`steps
      ensures step == if old(steps) == Some(0) then Died else if id in old(started) then Threw(AlreadyExists) else Ok
      ensures Contents() == if step.Ok? then Reserve(old(Contents()), id, start) else old(Contents())
      ensures old(steps).None? ==> steps.None?
    {
      var alive := Spend();
      if !alive {
        return Died;
      }
      if id in started {
        return Threw(AlreadyExists);
      }
      started := started[id := start];
      log := log + [Reserved(id)];
      return Ok;
    }

    /** Runs the commands of an attempt. */
    method Spawn(id: Id) returns (step: Step)
      modifies this`log, this`steps
      ensures step == if old(steps) == Some(0) then Died else Ok
      ensures Contents() == if step.Ok? then Execute(old(Contents()), id) else old(Contents())
      ensures old(steps).None? ==> steps.None?
    {
      var alive := Spend();
      if !alive {
        return Died;
      }
      log := log + [Executed(id)];
      return Ok;
    }

    /** Writes a result; an existing one is never replaced. */
    method WriteResult(id: Id, outcome: Outcome) returns (step: Step)
      modifies this`results, this`log, this`steps
      ensures step == if old(steps) == Some(0) then Died else if id in old(results) then Threw(AlreadyExists) else Ok
      ensures Contents() == if step.Ok? then Record(old(Contents()), id, outcome) else old(Contents())
      ensures old(steps).None? ==> steps.None?
    {
      var alive := Spend();
      if !alive {
        return Died;
      }
      if id in results {
        return Threw(AlreadyExists);
      }
      results := results[id := outcome];
      log := log + [Recorded(id, outcome)];
      return Ok;
    }
  }

  function Decided(v: Verdict): Outcome {
    Outcome(v.state, v.reason)
  }

  /**
   * What a result must satisfy to be written: a known scenario, a number, an end not before its start, and its proof.
   */
  predicate Savable(id: Id, start: Instant, finish: Instant, v: Verdict, keys: set<string>) {
    Recordable(id, keys) && start <= finish && (v.state == Passed ==> v.proof)
  }

  /** A result is checked before it is written. */
  method SaveResult(dir: Directory, keys: set<string>, id: Id, start: Instant, finish: Instant, v: Verdict)
    returns (step: Step)
    modifies dir`results, dir`log, dir`steps
    ensures step == if !Savable(id, start, finish, v, keys) then Threw(InvalidResult)
                    else if old(dir.steps) == Some(0) then Died
                    else if id in old(dir.results) then Threw(AlreadyExists) else Ok
    ensures dir.Contents() == if step.Ok? then Record(old(dir.Contents()), id, Decided(v)) else old(dir.Contents())
    ensures old(dir.steps).None? ==> dir.steps.None?
  {
    if !Savable(id, start, finish, v, keys) {
      return Threw(InvalidResult);
    }
    step := dir.WriteResult(id, Decided(v));
  }

  // ----- results in memory -----

  /** The results in memory are the ones on disk, each once. */
  ghost predicate Matches(mem: seq<Entry>, results: map<Id, Outcome>) {
    && Distinct(mem)
    && (forall e :: e in mem ==> e.id in results && results[e.id] == e.outcome)
    && (forall id :: id in results ==> Entry(id, results[id]) in mem)
  }

  lemma MatchesOn(mem: seq<Entry>, results: map<Id, Outcome>, id: Id, outcome: Outcome)
    requires Matches(mem, results) && id !in results
    ensures Matches(mem + [Entry(id, outcome)], results[id := outcome])
  {
    var next := mem + [Entry(id, outcome)];
    forall i, j | 0 <= i < j < |next| ensures next[i].id != next[j].id {
      assert next[i] in mem;
    }
  }

  /** Reads every result, in an order that does not matter. */
  method LoadResults(dir: Directory) returns (mem: seq<Entry>)
    ensures Matches(mem, dir.results)
  {
    mem := [];
    var rest := dir.results.Keys;
    ghost var loaded: map<Id, Outcome> := map[];
    while rest != {}
      invariant rest <= dir.results.Keys
      invariant loaded == map id | id in dir.results && id !in rest :: dir.results[id]
      invariant Matches(mem, loaded)
    {
      var id :| id in rest;
      MatchesOn(mem, loaded, id, dir.results[id]);
      mem := mem + [Entry(id, dir.results[id])];
      loaded := loaded[id := dir.results[id]];
      rest := rest - {id};
    }
    assert loaded == dir.results;
  }

  /** One more than the highest attempt of the scenario. */
  function NextAttempt(mem: seq<Entry>, key: string): (attempt: nat)
    ensures attempt >= 1
    ensures forall e :: e in mem && e.id.scenario == key ==> e.id.attempt < attempt
  {
    if mem == [] then 1
    else
      var before := NextAttempt(mem[..|mem| - 1], key);
      var e := mem[|mem| - 1];
      assert mem == mem[..|mem| - 1] + [e];
      if e.id.scenario == key && e.id.attempt >= before then e.id.attempt + 1 else before
  }

  // ----- recovery -----

  /** The results that were there, and unknown outcomes for reservations that the clock `now` is not behind. */
  ghost predicate ResultsRecovered(before: Disk, results: map<Id, Outcome>, now: Id -> Instant) {
    && (forall id :: id in before.results ==> id in results && results[id] == before.results[id])
    && (forall id :: id in results && id !in before.results ==>
          id in Unfinished(before) && results[id] == OUTCOME_UNKNOWN && before.started[id] <= now(id))
  }

  ghost predicate NothingExecuted(before: seq<Event>, after: seq<Event>) {
    before <= after && forall id :: Executed(id) in after ==> Executed(id) in before
  }

  /** Results are only added, and nothing is reserved or executed. */
  ghost predicate OnlyRecovers(before: Disk, after: Disk, now: Id -> Instant) {
    && after.started == before.started && ResultsRecovered(before, after.results, now)
    && NothingExecuted(before.log, after.log)
  }

  lemma OnlyRecoversOn(before: Disk, d: Disk, id: Id, now: Id -> Instant)
    requires OnlyRecovers(before, d, now) && id in Unfinished(d) && d.started[id] <= now(id)
    ensures OnlyRecovers(before, Record(d, id, OUTCOME_UNKNOWN), now)
  {
    var e := Recorded(id, OUTCOME_UNKNOWN);
    assert forall f :: f in d.log + [e] <==> f in d.log || f == e;
  }

  predicate Loaded(mem: seq<Entry>, id: Id) {
    exists e :: e in mem && e.id == id
  }

  lemma InMemory(mem: seq<Entry>, results: map<Id, Outcome>, id: Id)
    requires Matches(mem, results)
    ensures id in results <==> Loaded(mem, id)
  {
    if id in results {
      assert Entry(id, results[id]) in mem;
    }
  }

  lemma TooManyAttempts(d: Disk, id: Id, keys: set<string>)
    requires Sound(d, keys) && id in d.started && !Recordable(id, keys)
    ensures id.attempt > MAX_ATTEMPT
  {
  }

  lemma RecoverOne(before: Disk, d: Disk, mem: seq<Entry>, id: Id, keys: set<string>, now: Id -> Instant)
    requires Sound(d, keys) && OnlyRecovers(before, d, now) && Matches(mem, d.results)
    requires id in d.started && Recordable(id, keys) && !Loaded(mem, id) && d.started[id] <= now(id)
    ensures Sound(Record(d, id, OUTCOME_UNKNOWN), keys) && OnlyRecovers(before, Record(d, id, OUTCOME_UNKNOWN), now)
    ensures Matches(mem + [Entry(id, OUTCOME_UNKNOWN)], Record(d, id, OUTCOME_UNKNOWN).results)
    ensures id !in d.results
  {
    InMemory(mem, d.results, id);
    RecordKeepsSound(d, id, OUTCOME_UNKNOWN, keys);
    OnlyRecoversOn(before, d, id, now);
    MatchesOn(mem, d.results, id, OUTCOME_UNKNOWN);
  }

  /** A reservation that cannot be recovered: its number is too high, or the clock shows a time before it was made. */
  predicate Unrecoverable(d: Disk, id: Id, now: Id -> Instant) {
    id in Unfinished(d) && (id.attempt > MAX_ATTEMPT || now(id) < d.started[id])
  }

  lemma StaysUnrecoverable(before: Disk, d: Disk, id: Id, keys: set<string>, now: Id -> Instant)
    requires Sound(d, keys) && OnlyRecovers(before, d, now) && id in d.started
    requires id.attempt > MAX_ATTEMPT || (id !in d.results && now(id) < d.started[id])
    ensures Unrecoverable(before, id, now)
  {
  }

  /** Gives one reservation a result, unless it has one. */
  method RecoverName(dir: Directory, keys: set<string>, loaded: seq<Entry>, id: Id, now: Id -> Instant,
                     ghost before: Disk)
    returns (step: Step, mem: seq<Entry>)
    requires Sound(dir.Contents(), keys) && OnlyRecovers(before, dir.Contents(), now) && Matches(loaded, dir.results)
    requires id in dir.started
    modifies dir`results, dir`log, dir`steps
    ensures Sound(dir.Contents(), keys) && OnlyRecovers(before, dir.Contents(), now) && Matches(mem, dir.results)
    ensures old(dir.results).Keys <= dir.results.Keys
    ensures step.Ok? ==> id in dir.results
    ensures step.Threw? ==> step.reason == InvalidResult && Unrecoverable(before, id, now)
    ensures old(dir.steps).None? ==> dir.steps.None? && !step.Died?
  {
    mem := loaded;
    if !Recordable(id, keys) {
      TooManyAttempts(dir.Contents(), id, keys);
      StaysUnrecoverable(before, dir.Contents(), id, keys, now);
      return Threw(InvalidResult), mem;
    }
    InMemory(mem, dir.results, id);
    if Loaded(mem, id) {
      return Ok, mem;
    }
    if dir.started[id] <= now(id) {
      RecoverOne(before, dir.Contents(), mem, id, keys, now);
    } else {
      StaysUnrecoverable(before, dir.Contents(), id, keys, now);
    }
    step := SaveResult(dir, keys, id, dir.started[id], now(id), Verdict(Failed, "outcome-unknown", false));
    if step.Ok? {
      mem := mem + [Entry(id, OUTCOME_UNKNOWN)];
    }
  }

  lemma RecoversNothing(d: Disk, now: Id -> Instant)
    ensures OnlyRecovers(d, d, now)
  {
  }

  /** Every reservation outside `names` has a result. */
  ghost predicate RecoveredBut(d: Disk, names: set<Id>) {
    forall id :: id in d.started && id !in names ==> id in d.results
  }

  lemma RecoveredNext(before: Disk, after: Disk, names: set<Id>, id: Id)
    requires RecoveredBut(before, names) && before.started == after.started && before.results.Keys <= after.results.Keys
    requires id in after.results
    ensures RecoveredBut(after, names - {id})
  {
  }

  lemma RecoveredAll(d: Disk)
    requires RecoveredBut(d, {})
    ensures Unfinished(d) == {}
  {
  }

  /** What was recovered in full could be: recovery stopped for nothing. */
  lemma RecoveredWereRecoverable(before: Disk, after: Disk, keys: set<string>, now: Id -> Instant)
    requires Sound(after, keys) && OnlyRecovers(before, after, now) && Unfinished(after) == {}
    ensures forall id :: !Unrecoverable(before, id, now)
  {
    forall id ensures !Unrecoverable(before, id, now) {
      assert id in before.started ==> id !in Unfinished(after) && id in after.results;
    }
  }

  /** Every reservation without a result gets exactly one, "outcome-unknown"; the others are left alone. */
  method RecoverInterrupted(dir: Directory, keys: set<string>, loaded: seq<Entry>, now: Id -> Instant)
    returns (step: Step, mem: seq<Entry>)
    requires Sound(dir.Contents(), keys) && Matches(loaded, dir.results)
    modifies dir`results, dir`log, dir`steps
    ensures Sound(dir.Contents(), keys) && OnlyRecovers(old(dir.Contents()), dir.Contents(), now)
    ensures step.Ok? ==> Matches(mem, dir.results) && Unfinished(dir.Contents()) == {}
    ensures step.Ok? ==> forall id :: !Unrecoverable(old(dir.Contents()), id, now)
    ensures step.Threw? ==> step.reason == InvalidResult && exists id :: Unrecoverable(old(dir.Contents()), id, now)
    ensures old(dir.steps).None? ==> dir.steps.None? && !step.Died?
  {
    mem := loaded;
    ghost var before := dir.Contents();
    var names := dir.started.Keys;
    RecoversNothing(before, now);
    while names != {}
      invariant names <= dir.started.Keys
      invariant Sound(dir.Contents(), keys) && OnlyRecovers(before, dir.Contents(), now) && Matches(mem, dir.results)
      invariant RecoveredBut(dir.Contents(), names)
      invariant old(dir.steps).None? ==> dir.steps.None?
    {
      var id :| id in names;
      ghost var d := dir.Contents();
      step, mem := RecoverName(dir, keys, mem, id, now, before);
      if !step.Ok? {
        return;
      }
      RecoveredNext(d, dir.Contents(), names, id);
      names := names - {id};
    }
    RecoveredAll(dir.Contents());
    RecoveredWereRecoverable(before, dir.Contents(), keys, now);
    step := Ok;
  }

  // ----- one scenario -----

  /** Between two scenarios: nothing is unfinished, and memory agrees with the disk. */
  ghost predicate Idle(d: Disk, mem: seq<Entry>, keys: set<string>) {
    Sound(d, keys) && Unfinished(d) == {} && Matches(mem, d.results)
  }

  ghost predicate NotPassed(results: map<Id, Outcome>, key: string) {
    forall id :: id in results && id.scenario == key ==> results[id].state != Passed
  }

  /** Files are only added. */
  ghost predicate Grows(before: Disk, after: Disk) {
    && before.log <= after.log
    && (forall id :: id in before.started ==> id in after.started && after.started[id] == before.started[id])
    && (forall id :: id in before.results ==> id in after.results && after.results[id] == before.results[id])
  }

  /** The real-apps scenario that the fixture workflow runs along with itself, if it was selected and has not run. */
  function Companion(scenarios: seq<Scenario>, selected: seq<Scenario>, mem: seq<Entry>,
                     s: Scenario): (companion: Option<Scenario>)
    ensures companion.Some? ==>
              companion.value in scenarios && companion.value.id == "real-apps" && !Ran(mem, companion.value.key)
  {
    if scenarios == [] then None
    else
      var t := scenarios[0];
      if t.id == "real-apps" && t.provider == s.provider && (exists c :: c in selected && c.key == t.key)
          && !Ran(mem, t.key)
      then Some(t)
      else Companion(scenarios[1..], selected, mem, s)
  }

  function FirstVerdict(s: Scenario, paired: bool, x: Execution): Verdict {
    if x.identityChanged then Verdict(Failed, "identity-changed", false)
    else if s.group == "automated" then
      if x.failed then Verdict(Failed, "command-failed", false) else Verdict(Passed, "", x.proof)
    else if x.summary.None? then
      Verdict(Failed, if x.interrupted then "outcome-unknown" else "invalid-or-missing-receipt", false)
    else if x.failed && (!paired || x.interrupted || x.summary.value.state != Passed) then
      Verdict(Failed, if x.interrupted then "outcome-unknown" else "command-failed", false)
    else x.summary.value
  }

  function SecondVerdict(x: Execution): Verdict {
    match x.second
    case Incomplete => Verdict(NotRun, "prior-phase-incomplete", false)
    case Unreadable => Verdict(Failed, "invalid-or-missing-receipt", false)
    case Summarized(v) => if x.interrupted || x.identityChanged then Verdict(Failed, "outcome-unknown", false) else v
  }

  /** The attempts one execution covers. */
  function Covers(id: Id, second: Option<Id>): set<Id> {
    {id} + if second.Some? then {second.value} else {}
  }

  lemma ExecutedIsStarted(d: Disk, id: Id, keys: set<string>)
    requires Sound(d, keys)
    ensures Executed(id) in d.log ==> id in d.started
  {
    if Executed(id) in d.log {
      var j :| 0 <= j < |d.log| && d.log[j] == Executed(id);
      var i := ExecutedAfterReserved(d.log, j);
      assert d.log[i] in d.log;
    }
  }

  /** A new attempt of a scenario that has not passed. */
  ghost predicate NewAttempt(d: Disk, id: Id, keys: set<string>) {
    && id.scenario in keys && id.attempt >= 1
    && forall x :: x in d.results && x.scenario == id.scenario ==>
           x.attempt < id.attempt && d.results[x].state != Passed
  }

  lemma NewAttemptIsNew(d: Disk, id: Id, keys: set<string>)
    requires Sound(d, keys) && NewAttempt(d, id, keys) && forall x :: x in Unfinished(d) ==> x.scenario != id.scenario
    ensures Fresh(d.log, id) && id !in d.results && id !in d.started && Executed(id) !in d.log
  {
    AboveIsFresh(d, id, keys);
    ExecutedIsStarted(d, id, keys);
    assert id in d.started ==> id in Unfinished(d);
  }

  lemma ReserveNew(d: Disk, id: Id, start: Instant, keys: set<string>)
    requires Sound(d, keys) && NewAttempt(d, id, keys) && forall x :: x in Unfinished(d) ==> x.scenario != id.scenario
    ensures id !in d.started && Executed(id) !in Reserve(d, id, start).log
    ensures Sound(Reserve(d, id, start), keys) && Unfinished(Reserve(d, id, start)) == Unfinished(d) + {id}
  {
    NewAttemptIsNew(d, id, keys);
    ReserveKeepsSound(d, id, start, keys);
  }

  /** The disk on the way through one admission: reserved, companion reserved, executed, companion executed. */
  datatype Way = Way(first: Disk, both: Disk, executed: Disk, done: Disk)

  function AdmissionWay(d: Disk, id: Id, second: Option<Id>, start: Instant): Way {
    var first := Reserve(d, id, start);
    var both := if second.Some? then Reserve(first, second.value, start) else first;
    var executed := Execute(both, id);
    Way(first, both, executed, if second.Some? then Execute(executed, second.value) else executed)
  }

  ghost predicate Admissible(d: Disk, id: Id, second: Option<Id>, keys: set<string>) {
    && NewAttempt(d, id, keys)
    && (second.Some? ==> NewAttempt(d, second.value, keys) && second.value.scenario != id.scenario)
  }

  lemma ReserveSecond(d: Disk, id: Id, second: Id, start: Instant, keys: set<string>)
    requires Sound(d, keys) && Unfinished(d) == {id} && Executed(id) !in d.log
    requires NewAttempt(d, second, keys) && second.scenario != id.scenario
    ensures second !in d.started && Sound(Reserve(d, second, start), keys)
    ensures Unfinished(Reserve(d, second, start)) == {id} + {second}
    ensures Executed(id) !in Reserve(d, second, start).log && Executed(second) !in Reserve(d, second, start).log
  {
    ReserveNew(d, second, start, keys);
  }

  lemma NewAfterReserve(d: Disk, id: Id, second: Id, start: Instant, keys: set<string>)
    requires NewAttempt(d, second, keys)
    ensures NewAttempt(Reserve(d, id, start), second, keys)
  {
  }

  lemma ReservedBoth(d: Disk, id: Id, second: Option<Id>, start: Instant, keys: set<string>)
    requires Sound(d, keys) && Unfinished(d) == {} && Admissible(d, id, second, keys)
    ensures var way := AdmissionWay(d, id, second, start);
            && id !in d.started && (second.Some? ==> second.value !in way.first.started)
            && Sound(way.first, keys) && Sound(way.both, keys)
            && Unfinished(way.both) == Covers(id, second)
            && Executed(id) !in way.both.log && (second.Some? ==> Executed(second.value) !in way.both.log)
  {
    ReserveNew(d, id, start, keys);
    assert Unfinished(Reserve(d, id, start)) == {id};
    if second.Some? {
      NewAfterReserve(d, id, second.value, start, keys);
      ReserveSecond(Reserve(d, id, start), id, second.value, start, keys);
    }
  }

  lemma ExecutedBoth(d: Disk, id: Id, second: Option<Id>, start: Instant, keys: set<string>)
    requires Sound(d, keys) && Unfinished(d) == {} && Admissible(d, id, second, keys)
    ensures var way := AdmissionWay(d, id, second, start);
            Sound(way.executed, keys) && Sound(way.done, keys) && Unfinished(way.done) == Covers(id, second)
  {
    var way := AdmissionWay(d, id, second, start);
    ReservedBoth(d, id, second, start, keys);
    ExecuteKeepsSound(way.both, id, keys);
    if second.Some? {
      ExecuteKeepsSound(way.executed, second.value, keys);
    }
  }

  /**
   * Reserves an attempt, and its companion's with it, then executes them; the reservations never meet existing ones.
   */
  method Admit(dir: Directory, keys: set<string>, id: Id, second: Option<Id>, start: Instant) returns (step: Step)
    requires Sound(dir.Contents(), keys) && Unfinished(dir.Contents()) == {}
    requires Admissible(dir.Contents(), id, second, keys)
    modifies dir`started, dir`log, dir`steps
    ensures Sound(dir.Contents(), keys) && !step.Threw?
    ensures var way := AdmissionWay(old(dir.Contents()), id, second, start);
            && dir.Contents() in {old(dir.Contents()), way.first, way.both, way.executed, way.done}
            && (step.Ok? ==> dir.Contents() == way.done)
    ensures old(dir.steps).None? ==> dir.steps.None? && step.Ok?
  {
    ghost var way := AdmissionWay(dir.Contents(), id, second, start);
    ReservedBoth(dir.Contents(), id, second, start, keys);
    ExecutedBoth(dir.Contents(), id, second, start, keys);
    step := dir.WriteStarted(id, start);
    if step.Ok? && second.Some? {
      step := dir.WriteStarted(second.value, start);
    }
    if step.Ok? {
      step := dir.Spawn(id);
    }
    if step.Ok? && second.Some? {
      step := dir.Spawn(second.value);
    }
  }

  /** A result may be recorded for an attempt: fresh, and the only unfinished one of its scenario if there is one. */
  ghost predicate Recording(d: Disk, id: Id) {
    Fresh(d.log, id) && id !in d.results && forall x :: x in Unfinished(d) && x.scenario == id.scenario ==> x == id
  }

  lemma SaveKeeps(d: Disk, mem: seq<Entry>, id: Id, outcome: Outcome, keys: set<string>)
    requires Sound(d, keys) && Matches(mem, d.results) && Recording(d, id) && Recordable(id, keys)
    ensures Sound(Record(d, id, outcome), keys) && Matches(mem + [Entry(id, outcome)], Record(d, id, outcome).results)
    ensures Unfinished(Record(d, id, outcome)) == Unfinished(d) - {id}
  {
    RecordKeepsSound(d, id, outcome, keys);
    MatchesOn(mem, d.results, id, outcome);
  }

  /** Saves a result on disk, then remembers it. */
  method SaveAttempt(dir: Directory, keys: set<string>, before: seq<Entry>, id: Id, start: Instant, finish: Instant,
                     v: Verdict)
    returns (step: Step, mem: seq<Entry>)
    requires Sound(dir.Contents(), keys) && Matches(before, dir.results) && Recording(dir.Contents(), id)
    modifies dir`results, dir`log, dir`steps
    ensures Sound(dir.Contents(), keys) && Matches(mem, dir.results)
    ensures dir.Contents() == if step.Ok? then Record(old(dir.Contents()), id, Decided(v)) else old(dir.Contents())
    ensures Unfinished(dir.Contents()) == if step.Ok? then old(Unfinished(dir.Contents())) - {id}
        else old(Unfinished(dir.Contents()))
    ensures step.Ok? ==> Savable(id, start, finish, v, keys)
    ensures step.Threw? ==> step.reason == InvalidResult && !Savable(id, start, finish, v, keys)
    ensures old(dir.steps).None? ==> dir.steps.None? && !step.Died?
  {
    mem := before;
    if Savable(id, start, finish, v, keys) {
      SaveKeeps(dir.Contents(), before, id, Decided(v), keys);
    }
    step := SaveResult(dir, keys, id, start, finish, v);
    if step.Ok? {
      mem := before + [Entry(id, Decided(v))];
    }
  }

  lemma WayGrows(d: Disk, id: Id, second: Option<Id>, start: Instant)
    requires id !in d.started && (second.Some? ==> second.value !in d.started)
    ensures var way := AdmissionWay(d, id, second, start);
            && Grows(d, way.first) && Grows(d, way.both) && Grows(d, way.executed) && Grows(d, way.done)
            && way.done.results == d.results && way.both.results == d.results
  {
  }

  lemma RecordGrows(before: Disk, d: Disk, id: Id, outcome: Outcome)
    requires Grows(before, d) && id !in d.results
    ensures Grows(before, Record(d, id, outcome))
  {
  }

  lemma UnfinishedRecording(d: Disk, id: Id, keys: set<string>)
    requires Sound(d, keys) && id in Unfinished(d)
    ensures Recording(d, id)
  {
  }

  /** The results of an attempt and of its companion, both begun at `start`, pass the checks made before saving. */
  predicate AllSavable(id: Id, v: Verdict, second: Option<Id>, w: Verdict, start: Instant, finishedAt: Id -> Instant,
                       keys: set<string>) {
    && Savable(id, start, finishedAt(id), v, keys)
    && (second.Some? ==> Savable(second.value, start, finishedAt(second.value), w, keys))
  }

  /** Saves what the execution of an attempt, and of its companion, came to. */
  method Conclude(dir: Directory, keys: set<string>, before: seq<Entry>, id: Id, v: Verdict, second: Option<Id>,
                  w: Verdict, start: Instant, finishedAt: Id -> Instant)
    returns (step: Step, mem: seq<Entry>)
    requires Sound(dir.Contents(), keys) && Matches(before, dir.results)
        && Unfinished(dir.Contents()) == Covers(id, second)
    requires second != Some(id)
    modifies dir`results, dir`log, dir`steps
    ensures Sound(dir.Contents(), keys) && Matches(mem, dir.results)
    ensures step.Ok? ==> Unfinished(dir.Contents()) == {}
    ensures step.Ok? ==> dir.Contents() == Concluded(old(dir.Contents()), id, Decided(v), second, Decided(w))
    ensures !step.Ok? ==> dir.Contents() in {old(dir.Contents()), Record(old(dir.Contents()), id, Decided(v))}
    ensures step.Ok? ==> AllSavable(id, v, second, w, start, finishedAt, keys)
    ensures step.Threw? ==> step.reason == InvalidResult && !AllSavable(id, v, second, w, start, finishedAt, keys)
    ensures old(dir.steps).None? ==> dir.steps.None? && !step.Died?
  {
    UnfinishedRecording(dir.Contents(), id, keys);
    step, mem := SaveAttempt(dir, keys, before, id, start, finishedAt(id), v);
    if step.Ok? && second.Some? {
      UnfinishedRecording(dir.Contents(), second.value, keys);
      step, mem := SaveAttempt(dir, keys, mem, second.value, start, finishedAt(second.value), w);
    }
  }

  function Concluded(d: Disk, id: Id, outcome: Outcome, second: Option<Id>, other: Outcome): Disk {
    var first := Record(d, id, outcome);
    if second.Some? then Record(first, second.value, other) else first
  }

  lemma {:induction false} NextIsNew(d: Disk, mem: seq<Entry>, key: string, keys: set<string>)
    requires Matches(mem, d.results) && NotPassed(d.results, key) && key in keys
    ensures NewAttempt(d, Id(key, NextAttempt(mem, key)), keys)
  {
    forall x | x in d.results && x.scenario == key ensures x.attempt < NextAttempt(mem, key) {
      assert Entry(x, d.results[x]) in mem;
    }
  }

  lemma FirstIsNew(d: Disk, mem: seq<Entry>, key: string, keys: set<string>)
    requires Matches(mem, d.results) && !Ran(mem, key) && key in keys
    ensures NewAttempt(d, Id(key, 1), keys)
  {
    forall x | x in d.results ensures x.scenario != key {
      assert Entry(x, d.results[x]) in mem;
    }
  }

  lemma CompanionDiffers(scenarios: seq<Scenario>, s: Scenario, t: Scenario)
    requires UniqueKeys(scenarios) && s in scenarios && t in scenarios && s.id == "fixture-workflow"
        && t.id == "real-apps"
    ensures s.key != t.key
  {
    assert s.id[0] != t.id[0];
    if s.key == t.key {
      SameScenario(scenarios, s, t);
    }
  }

  /** New results are of the scenario or its companion; if the run goes on, they passed or were blocked. */
  ghost predicate Added(before: map<Id, Outcome>, after: map<Id, Outcome>, key: string, second: Option<string>,
                        stop: bool) {
    forall x :: x in after && x !in before ==>
      (x.scenario == key || second == Some(x.scenario))
          && (stop || after[x].state == Passed || after[x].state == Blocked)
  }

  predicate HasResult(results: map<Id, Outcome>, key: string) {
    exists id :: id in results && id.scenario == key
  }

  /** An attempt of this run that was reserved, and whose result is no pass or whose commands failed. */
  ghost predicate Failing(env: Environment, before: Disk, after: Disk, x: Id) {
    && x in after.started && x in after.results && x !in before.results
    && (after.results[x].state != Passed || env.execution(x).failed)
  }

  /** Why a run may stop before its last scenario. */
  ghost predicate StopCause(env: Environment, before: Disk, after: Disk) {
    env.answer.Stop? || exists x :: Failing(env, before, after, x)
  }

  /** The disk once an execution is concluded. */
  function AfterCommands(d: Disk, s: Scenario, id: Id, second: Option<Id>, start: Instant, x: Execution): Disk {
    var v, w := FirstVerdict(s, second.Some?, x), SecondVerdict(x);
    Concluded(AdmissionWay(d, id, second, start).done, id, Decided(v), second, Decided(w))
  }

  function CompanionOf(scenarios: seq<Scenario>, selected: seq<Scenario>, mem: seq<Entry>, s: Scenario,
                       env: Environment): (second: Option<Scenario>)
    ensures second.Some? ==> second.value in scenarios && second.value.id == "real-apps" && !Ran(mem, second.value.key)
  {
    if env.darwin && s.id == "fixture-workflow" then Companion(scenarios, selected, mem, s) else None
  }

  function FirstAttempt(companion: Option<Scenario>): Option<Id> {
    if companion.Some? then Some(Id(companion.value.key, 1)) else None
  }

  /** The disk once a scenario is blocked, declined or run. */
  function AfterScenario(d: Disk, scenarios: seq<Scenario>, selected: seq<Scenario>, mem: seq<Entry>, s: Scenario,
                         ready: bool, env: Environment): Disk {
    var id := Id(s.key, NextAttempt(mem, s.key));
    var companion := CompanionOf(scenarios, selected, mem, s, env);
    var blocker := env.blocker(s, companion.Some?);
    if blocker.Some? then Record(d, id, Outcome(Blocked, blocker.value))
    else if s.operator && !ready && !env.answer.Ready? then d
    else AfterCommands(d, s, id, FirstAttempt(companion), env.startedAt(id), env.execution(id))
  }

  lemma BlockedAdds(d: Disk, id: Id, outcome: Outcome)
    requires id !in d.results && outcome.state == Blocked
    ensures HasResult(Record(d, id, outcome).results, id.scenario)
    ensures Grows(d, Record(d, id, outcome))
        && Added(d.results, Record(d, id, outcome).results, id.scenario, None, false)
  {
  }

  function KeyOf(second: Option<Id>): Option<string> {
    if second.Some? then Some(second.value.scenario) else None
  }

  /** The group stops at a failure, of the scenario, of its companion, or of a command. */
  predicate Stops(s: Scenario, second: Option<Id>, x: Execution) {
    FirstVerdict(s, second.Some?, x).state != Passed || x.failed || (second.Some? && SecondVerdict(x).state != Passed)
  }

  /** An attempt and its companion, neither reserved nor recorded. */
  predicate NewOnDisk(d: Disk, id: Id, second: Option<Id>) {
    && id !in d.started && id !in d.results && second != Some(id)
    && (second.Some? ==> second.value !in d.started && second.value !in d.results)
  }

  /** What the disk has gained once an execution is concluded, or cut short while being concluded. */
  lemma ConcludedAdds(d: Disk, id: Id, outcome: Outcome, second: Option<Id>, other: Outcome, start: Instant, stop: bool)
    requires NewOnDisk(d, id, second)
    requires !stop ==> outcome.state == Passed && (second.Some? ==> other.state == Passed)
    ensures var way := AdmissionWay(d, id, second, start);
            var done := Concluded(way.done, id, outcome, second, other);
            && Grows(d, way.done) && Grows(d, Record(way.done, id, outcome)) && Grows(d, done)
            && Added(d.results, done.results, id.scenario, KeyOf(second), stop)
  {
    var way := AdmissionWay(d, id, second, start);
    WayGrows(d, id, second, start);
    RecordGrows(d, way.done, id, outcome);
    if second.Some? {
      RecordGrows(d, Record(way.done, id, outcome), second.value, other);
    }
  }

  lemma AdmittedFacts(d: Disk, id: Id, second: Option<Id>, start: Instant, keys: set<string>)
    requires Sound(d, keys) && Unfinished(d) == {} && Admissible(d, id, second, keys)
    ensures NewOnDisk(d, id, second)
    ensures Unfinished(AdmissionWay(d, id, second, start).done) == Covers(id, second)
  {
    NewAttemptIsNew(d, id, keys);
    if second.Some? {
      NewAttemptIsNew(d, second.value, keys);
    }
    ExecutedBoth(d, id, second, start, keys);
  }

  /** The scenario and its companion have results; a stop has its cause in them. */
  ghost predicate Conclusive(d: Disk, after: Disk, id: Id, second: Option<Id>, x: Execution, stop: bool) {
    && id in after.results && id !in d.results && id in after.started
    && (second.Some? ==> second.value in after.results && second.value !in d.results && second.value in after.started)
    && (stop ==>
          || x.failed || after.results[id].state != Passed
          || (second.Some? && after.results[second.value].state != Passed))
  }

  lemma ConcludedStops(d: Disk, s: Scenario, id: Id, second: Option<Id>, start: Instant, x: Execution)
    requires NewOnDisk(d, id, second)
    ensures Conclusive(d, AfterCommands(d, s, id, second, start, x), id, second, x, Stops(s, second, x))
  {
  }

  /** What an execution came to passes the checks made before saving. */
  predicate CommandsSavable(s: Scenario, id: Id, second: Option<Id>, x: Execution, start: Instant,
                            finishedAt: Id -> Instant, keys: set<string>) {
    AllSavable(id, FirstVerdict(s, second.Some?, x), second, SecondVerdict(x), start, finishedAt, keys)
  }

  /** Saving the results of an execution, in full or cut short: nothing saved, the first result, or all of them. */
  predicate Saving(d: Disk, after: Disk, s: Scenario, id: Id, second: Option<Id>, start: Instant, x: Execution) {
    var done := AdmissionWay(d, id, second, start).done;
    || after == done
    || after == Record(done, id, Decided(FirstVerdict(s, second.Some?, x)))
    || after == AfterCommands(d, s, id, second, start, x)
  }

  lemma SavingAdds(d: Disk, after: Disk, s: Scenario, id: Id, second: Option<Id>, start: Instant, x: Execution,
                   stop: bool)
    requires NewOnDisk(d, id, second) && stop == Stops(s, second, x) && Saving(d, after, s, id, second, start, x)
    ensures Grows(d, after)
    ensures (after == AfterCommands(d, s, id, second, start, x) ==>
               Conclusive(d, after, id, second, x, stop)
                   && Added(d.results, after.results, id.scenario, KeyOf(second), stop))
  {
    var v, w := FirstVerdict(s, second.Some?, x), SecondVerdict(x);
    ConcludedAdds(d, id, Decided(v), second, Decided(w), start, stop);
    ConcludedStops(d, s, id, second, start, x);
  }

  /** Saves what an admitted scenario and its companion came to; `d` is the disk before their admission. */
  method Finish(dir: Directory, keys: set<string>, before: seq<Entry>, s: Scenario, id: Id, second: Option<Id>,
                x: Execution, start: Instant, finishedAt: Id -> Instant, ghost d: Disk)
    returns (step: Step, mem: seq<Entry>, stop: bool)
    requires dir.Contents() == AdmissionWay(d, id, second, start).done && Sound(dir.Contents(), keys)
        && Matches(before, dir.results)
    requires Unfinished(dir.Contents()) == Covers(id, second) && NewOnDisk(d, id, second)
    modifies dir`results, dir`log, dir`steps
    ensures Sound(dir.Contents(), keys) && Grows(d, dir.Contents())
    ensures step.Ok? ==> Idle(dir.Contents(), mem, keys)
    ensures step.Ok? ==> Added(d.results, dir.results, id.scenario, KeyOf(second), stop)
    ensures step.Ok? ==> dir.Contents() == AfterCommands(d, s, id, second, start, x)
    ensures step.Ok? ==> Conclusive(d, dir.Contents(), id, second, x, stop)
    ensures step.Ok? ==> CommandsSavable(s, id, second, x, start, finishedAt, keys)
    ensures step.Threw? ==> step.reason == InvalidResult && !CommandsSavable(s, id, second, x, start, finishedAt, keys)
    ensures old(dir.steps).None? ==> dir.steps.None? && !step.Died?
  {
    mem, stop := before, Stops(s, second, x);
    if x.identityChanged {
      var alive := dir.Spend();
      if !alive {
        SavingAdds(d, dir.Contents(), s, id, second, start, x, stop);
        return Died, mem, stop;
      }
    }
    var v, w := FirstVerdict(s, second.Some?, x), SecondVerdict(x);
    step, mem := Conclude(dir, keys, before, id, v, second, w, start, finishedAt);
    SavingAdds(d, dir.Contents(), s, id, second, start, x, stop);
  }

  /** Admits a scenario and its companion, runs them, and saves what they came to. */
  method RunCommands(dir: Directory, keys: set<string>, before: seq<Entry>, s: Scenario, id: Id, second: Option<Id>,
                     env: Environment)
    returns (step: Step, mem: seq<Entry>, stop: bool)
    requires Idle(dir.Contents(), before, keys) && Admissible(dir.Contents(), id, second, keys)
    modifies dir`started, dir`results, dir`log, dir`steps
    ensures Sound(dir.Contents(), keys) && Grows(old(dir.Contents()), dir.Contents())
    ensures step.Ok? ==> Idle(dir.Contents(), mem, keys)
    ensures step.Ok? ==> Added(old(dir.results), dir.results, id.scenario, KeyOf(second), stop)
    ensures (step.Ok? ==>
               && dir.Contents()
                    == AfterCommands(old(dir.Contents()), s, id, second, env.startedAt(id), env.execution(id))
               && Conclusive(old(dir.Contents()), dir.Contents(), id, second, env.execution(id), stop))
    ensures step.Threw? ==> step.reason == InvalidResult
    ensures old(dir.steps).None? ==> dir.steps.None? && !step.Died?
  {
    mem, stop := before, true;
    ghost var d := dir.Contents();
    var start := env.startedAt(id);
    AdmittedFacts(d, id, second, start, keys);
    WayGrows(d, id, second, start);
    step := Admit(dir, keys, id, second, start);
    if step.Ok? {
      step, mem, stop := Finish(dir, keys, before, s, id, second, env.execution(id), start, env.finishedAt, d);
    }
  }

  /** Runs one selected scenario, unless something it needs is missing. */
  method RunScenario(dir: Directory, scenarios: seq<Scenario>, selected: seq<Scenario>, before: seq<Entry>, s: Scenario,
                     readyBefore: bool, env: Environment)
    returns (step: Step, mem: seq<Entry>, ready: bool, stop: bool, second: Option<string>)
    requires UniqueKeys(scenarios) && s in scenarios
    requires Idle(dir.Contents(), before, KeysOf(scenarios)) && NotPassed(dir.results, s.key)
    modifies dir`started, dir`results, dir`log, dir`steps
    ensures Sound(dir.Contents(), KeysOf(scenarios)) && Grows(old(dir.Contents()), dir.Contents())
    ensures step.Ok? ==> Idle(dir.Contents(), mem, KeysOf(scenarios))
    ensures step.Ok? ==> Added(old(dir.results), dir.results, s.key, second, stop)
    ensures step.Ok? ==>
              dir.Contents() == AfterScenario(old(dir.Contents()), scenarios, selected, before, s, readyBefore, env)
    ensures step.Ok? && !stop ==>
              HasResult(dir.results, s.key) && (second.Some? ==> HasResult(dir.results, second.value))
    ensures step.Ok? && stop ==> StopCause(env, old(dir.Contents()), dir.Contents())
    ensures step.Threw? ==> step.reason in {InvalidResult, OperatorNotReady}
    ensures old(dir.steps).None? ==> dir.steps.None? && !step.Died?
  {
    mem, ready, stop, second := before, readyBefore, false, None;
    ghost var d := dir.Contents();
    var keys := KeysOf(scenarios);
    var id := Id(s.key, NextAttempt(mem, s.key));
    NextIsNew(d, mem, s.key, keys);
    NewAttemptIsNew(d, id, keys);
    var companion := CompanionOf(scenarios, selected, mem, s, env);
    var blocker := env.blocker(s, companion.Some?);
    if blocker.Some? {
      BlockedAdds(d, id, Outcome(Blocked, blocker.value));
      var start := env.startedAt(id);
      step, mem := SaveAttempt(dir, keys, mem, id, start, start, Verdict(Blocked, blocker.value, false));
      return;
    }
    if s.operator && !ready {
      if env.answer.NoTerminal? {
        return Threw(OperatorNotReady), mem, ready, stop, second;
      }
      ready := env.answer.Ready?;
      if !ready {
        return Ok, mem, ready, true, second;
      }
    }
    var other: Option<Id> := None;
    if companion.Some? {
      CompanionDiffers(scenarios, s, companion.value);
      FirstIsNew(d, mem, companion.value.key, keys);
      other, second := Some(Id(companion.value.key, 1)), Some(companion.value.key);
    }
    step, mem, stop := RunCommands(dir, keys, mem, s, id, other, env);
    if step.Ok? {
      ConclusionMeans(env, d, dir.Contents(), id, other, stop);
    }
  }

  lemma ConclusionMeans(env: Environment, d: Disk, after: Disk, id: Id, second: Option<Id>, stop: bool)
    requires Conclusive(d, after, id, second, env.execution(id), stop)
    ensures HasResult(after.results, id.scenario) && (second.Some? ==> HasResult(after.results, second.value.scenario))
    ensures stop ==> StopCause(env, d, after)
  {
    if stop {
      assert Failing(env, d, after, id) || (second.Some? && Failing(env, d, after, second.value));
    }
  }

  // ----- one run -----

  datatype RunOutcome = Covered(latest: map<string, Entry>) | Aborted(reason: Reason) | Killed

  function Ended(step: Step): RunOutcome
    requires !step.Ok?
  {
    if step.Died? then Killed else Aborted(step.reason)
  }

  /** The selected scenarios from `i` on that have not run meanwhile have not passed. */
  ghost predicate StillPending(selected: seq<Scenario>, i: nat, newly: set<string>, results: map<Id, Outcome>) {
    forall k :: i <= k < |selected| && selected[k].key !in newly ==> NotPassed(results, selected[k].key)
  }

  lemma StillPendingOn(selected: seq<Scenario>, i: nat, newly: set<string>, before: map<Id, Outcome>,
                       after: map<Id, Outcome>, second: Option<string>, stop: bool)
    requires UniqueKeys(selected) && i < |selected| && StillPending(selected, i, newly, before)
    requires Added(before, after, selected[i].key, second, stop)
    requires forall x :: x in before ==> x in after && after[x] == before[x]
    ensures StillPending(selected, i + 1, newly + if second.Some? then {second.value} else {}, after)
  {
  }

  lemma GrowsOn(a: Disk, b: Disk, c: Disk)
    requires Grows(a, b) && Grows(b, c)
    ensures Grows(a, c)
  {
  }

  lemma CauseStays(env: Environment, first: Disk, before: Disk, after: Disk)
    requires StopCause(env, before, after) && Grows(first, before)
    ensures StopCause(env, first, after)
  {
    if !env.answer.Stop? {
      var x :| Failing(env, before, after, x);
      assert Failing(env, first, after, x);
    }
  }

  /** The scenarios before `i`, and the companions run with them, have results. */
  ghost predicate HaveRun(selected: seq<Scenario>, i: nat, newly: set<string>, results: map<Id, Outcome>) {
    && (forall k :: 0 <= k < i && k < |selected| ==> HasResult(results, selected[k].key))
    && (forall key :: key in newly ==> HasResult(results, key))
  }

  lemma HaveRunOn(selected: seq<Scenario>, i: nat, newly: set<string>, before: map<Id, Outcome>,
                  after: map<Id, Outcome>, second: Option<string>)
    requires i < |selected| && HaveRun(selected, i, newly, before) && before.Keys <= after.Keys
    requires HasResult(after, selected[i].key) && (second.Some? ==> HasResult(after, second.value))
    ensures HaveRun(selected, i + 1, newly + if second.Some? then {second.value} else {}, after)
  {
    ResultsStay(before, after);
  }

  lemma ResultsStay(before: map<Id, Outcome>, after: map<Id, Outcome>)
    requires before.Keys <= after.Keys
    ensures forall key :: HasResult(before, key) ==> HasResult(after, key)
  {
  }

  /** How far a run has come at its `i`-th scenario. */
  ghost predicate Progress(first: Disk, d: Disk, selected: seq<Scenario>, i: nat, newly: set<string>) {
    Grows(first, d) && StillPending(selected, i, newly, d.results) && HaveRun(selected, i, newly, d.results)
  }

  function WithCompanion(newly: set<string>, second: Option<string>): set<string> {
    newly + if second.Some? then {second.value} else {}
  }

  lemma ProgressOn(first: Disk, d: Disk, after: Disk, selected: seq<Scenario>, i: nat, newly: set<string>,
                   second: Option<string>)
    requires UniqueKeys(selected) && i < |selected| && Progress(first, d, selected, i, newly) && Grows(d, after)
    requires Added(d.results, after.results, selected[i].key, second, false)
    requires HasResult(after.results, selected[i].key) && (second.Some? ==> HasResult(after.results, second.value))
    ensures Progress(first, after, selected, i + 1, WithCompanion(newly, second))
  {
    GrowsOn(first, d, after);
    StillPendingOn(selected, i, newly, d.results, after.results, second, false);
    HaveRunOn(selected, i, newly, d.results, after.results, second);
  }

  lemma ProgressPast(first: Disk, d: Disk, selected: seq<Scenario>, i: nat, newly: set<string>)
    requires i < |selected| && Progress(first, d, selected, i, newly) && selected[i].key in newly
    ensures Progress(first, d, selected, i + 1, newly)
  {
  }

  /** Runs the selected scenarios in order, until one fails. */
  method RunSelected(dir: Directory, scenarios: seq<Scenario>, selected: seq<Scenario>, loaded: seq<Entry>,
                     readyBefore: bool, env: Environment)
    returns (step: Step, mem: seq<Entry>, stopped: bool)
    requires UniqueKeys(scenarios) && UniqueKeys(selected) && forall s :: s in selected ==> s in scenarios
    requires Idle(dir.Contents(), loaded, KeysOf(scenarios)) && StillPending(selected, 0, {}, dir.results)
    modifies dir`started, dir`results, dir`log, dir`steps
    ensures Sound(dir.Contents(), KeysOf(scenarios)) && Grows(old(dir.Contents()), dir.Contents())
    ensures step.Ok? ==> Idle(dir.Contents(), mem, KeysOf(scenarios))
    ensures step.Ok? && !stopped ==> forall s :: s in selected ==> HasResult(dir.results, s.key)
    ensures step.Ok? && stopped ==> StopCause(env, old(dir.Contents()), dir.Contents())
    ensures step.Threw? ==> step.reason in {InvalidResult, OperatorNotReady}
    ensures old(dir.steps).None? ==> dir.steps.None? && !step.Died?
  {
    mem, stopped := loaded, false;
    var ready := readyBefore;
    var newly: set<string> := {};
    ghost var first := dir.Contents();
    for i := 0 to |selected|
      invariant Idle(dir.Contents(), mem, KeysOf(scenarios)) && Progress(first, dir.Contents(), selected, i, newly)
      invariant old(dir.steps).None? ==> dir.steps.None?
    {
      ghost var d := dir.Contents();
      if selected[i].key in newly {
        ProgressPast(first, d, selected, i, newly);
      } else {
        var stop, second;
        step, mem, ready, stop, second := RunScenario(dir, scenarios, selected, mem, selected[i], ready, env);
        GrowsOn(first, d, dir.Contents());
        if !step.Ok? {
          return;
        }
        if stop {
          CauseStays(env, first, d, dir.Contents());
          return Ok, mem, true;
        }
        ProgressOn(first, d, dir.Contents(), selected, i, newly, second);
        newly := WithCompanion(newly, second);
      }
    }
    step := Ok;
  }

  lemma PassedShows(d: Disk, mem: seq<Entry>, key: string, keys: set<string>)
    requires Idle(d, mem, keys) && !NotPassed(d.results, key)
    ensures LatestPassed(mem, key) && Ran(mem, key)
  {
    var id :| id in d.results && id.scenario == key && d.results[id].state == Passed;
    var e := Entry(id, d.results[id]);
    assert e in mem;
    forall f | f in mem && f.id.scenario == key ensures f.id.attempt <= id.attempt {
      PassedIsLatest(d, id, f.id, keys);
    }
    assert IsLatest(mem, e);
  }

  /** What is selected has not passed: scenarios without a result, or one to retry whose latest result is not a pass. */
  lemma SelectedIsPending(d: Disk, mem: seq<Entry>, scenarios: seq<Scenario>, selected: seq<Scenario>, o: Options)
    requires Idle(d, mem, KeysOf(scenarios))
    requires forall s :: s in selected ==> MayRun(s, mem, o.group, o.retry, o.chosen)
    ensures StillPending(selected, 0, {}, d.results)
  {
    forall k | 0 <= k < |selected| ensures NotPassed(d.results, selected[k].key) {
      assert selected[k] in selected;
      if !NotPassed(d.results, selected[k].key) {
        PassedShows(d, mem, selected[k].key, KeysOf(scenarios));
      }
    }
  }

  const MAX_RESULTS: nat := 10000

  /** Coverage names the latest result of every scenario that has one. */
  ghost predicate LatestOnDisk(latest: map<string, Entry>, results: map<Id, Outcome>) {
    && (forall id :: id in results ==> id.scenario in latest && id.attempt <= latest[id.scenario].id.attempt)
    && (forall k :: k in latest ==>
           latest[k].id.scenario == k && latest[k].id in results && results[latest[k].id] == latest[k].outcome)
  }

  lemma LatestInMemory(mem: seq<Entry>, results: map<Id, Outcome>, latest: map<string, Entry>)
    requires Matches(mem, results) && LatestOf(mem, latest)
    ensures LatestOnDisk(latest, results)
  {
    forall id | id in results ensures id.scenario in latest && id.attempt <= latest[id.scenario].id.attempt {
      assert Entry(id, results[id]) in mem;
    }
  }

  lemma IdleIsCoverable(d: Disk, mem: seq<Entry>, keys: set<string>)
    requires Idle(d, mem, keys)
    ensures Distinct(mem) && forall e :: e in mem ==> Recordable(e.id, keys)
  {
  }

  lemma NothingInterrupted(d: Disk, mem: seq<Entry>)
    requires Matches(mem, d.results)
    ensures Unfinished(d) == {} <==> forall id :: id in d.started ==> Loaded(mem, id)
  {
    forall id | id in d.started ensures id in d.results <==> Loaded(mem, id) {
      InMemory(mem, d.results, id);
    }
    assert forall id :: id in Unfinished(d) <==> id in d.started && !Loaded(mem, id);
  }

  /** A disk that resuming can recover: not too many results, and nothing unfinished that is beyond recovery. */
  ghost predicate Recoverable(d: Disk, now: Id -> Instant) {
    |d.results| <= MAX_RESULTS && forall id :: !Unrecoverable(d, id, now)
  }

  /** What recovery owes to a disk: one unknown outcome for each unfinished reservation. */
  ghost predicate Settled(before: Disk, results: map<Id, Outcome>) {
    forall id :: id in Unfinished(before) ==> id in results && results[id] == OUTCOME_UNKNOWN
  }

  lemma RecoverySettles(before: Disk, after: Disk, now: Id -> Instant)
    requires OnlyRecovers(before, after, now) && Unfinished(after) == {}
    ensures Settled(before, after.results) && Grows(before, after)
  {
    forall id | id in Unfinished(before) ensures id in after.results {
      assert id !in Unfinished(after);
    }
  }

  lemma StuckIsUnsettled(before: Disk, after: Disk, keys: set<string>, now: Id -> Instant)
    requires Sound(after, keys) && OnlyRecovers(before, after, now) && exists id :: Unrecoverable(before, id, now)
    ensures !Settled(before, after.results)
  {
    var id :| Unrecoverable(before, id, now);
    assert id !in after.results;
  }

  lemma RecoveryGrows(before: Disk, after: Disk, now: Id -> Instant)
    requires OnlyRecovers(before, after, now)
    ensures Grows(before, after)
  {
  }

  lemma SettledOn(before: Disk, middle: Disk, after: Disk)
    requires Settled(before, middle.results) && Grows(middle, after)
    ensures Settled(before, after.results)
  {
  }

  /** Loads the results, and recovers or refuses an interrupted suite. */
  method Open(dir: Directory, keys: set<string>, resume: bool, now: Id -> Instant) returns (step: Step, mem: seq<Entry>)
    requires Sound(dir.Contents(), keys)
    modifies dir`results, dir`log, dir`steps
    ensures Sound(dir.Contents(), keys) && Grows(old(dir.Contents()), dir.Contents())
    ensures step.Ok? ==> Idle(dir.Contents(), mem, keys) && Settled(old(dir.Contents()), dir.results)
    ensures !resume ==> dir.Contents() == old(dir.Contents()) && (step.Ok? ==> Unfinished(old(dir.Contents())) == {})
    ensures step.Threw? ==> step.reason in {InvalidResult, InterruptedAdmission}
    ensures step.Ok? ==> forall id :: !Unrecoverable(old(dir.Contents()), id, now)
    ensures step.Threw? && resume ==> exists id :: Unrecoverable(old(dir.Contents()), id, now)
    ensures step.Threw? && resume ==> !Settled(old(dir.Contents()), dir.results)
    ensures old(dir.steps).None? ==> dir.steps.None? && !step.Died?
  {
    mem := LoadResults(dir);
    ghost var before := dir.Contents();
    if resume {
      step, mem := RecoverInterrupted(dir, keys, mem, now);
      RecoveryGrows(before, dir.Contents(), now);
      if step.Ok? {
        RecoverySettles(before, dir.Contents(), now);
      } else if step.Threw? {
        StuckIsUnsettled(before, dir.Contents(), keys, now);
      }
    } else {
      NothingInterrupted(before, mem);
      step := if forall id :: id in dir.started ==> Loaded(mem, id) then Ok else Threw(InterruptedAdmission);
    }
  }

  /** Every scenario of the group, or the chosen one, has a result. */
  ghost predicate GroupHasRun(scenarios: seq<Scenario>, o: Options, results: map<Id, Outcome>) {
    forall s :: s in scenarios && s.group == o.group && (o.chosen == "" || s.key == o.chosen) ==>
          HasResult(results, s.key)
  }

  lemma SelectedWasAll(scenarios: seq<Scenario>, selected: seq<Scenario>, mem: seq<Entry>, o: Options,
                       before: map<Id, Outcome>, after: map<Id, Outcome>)
    requires o.retry == "" && Matches(mem, before) && before.Keys <= after.Keys
    requires forall s :: s in scenarios && MayRun(s, mem, o.group, o.retry, o.chosen) ==> s in selected
    requires forall s :: s in selected ==> HasResult(after, s.key)
    ensures GroupHasRun(scenarios, o, after)
  {
    forall s | s in scenarios && s.group == o.group && (o.chosen == "" || s.key == o.chosen)
      ensures HasResult(after, s.key)
    {
      if Ran(mem, s.key) {
        var e :| e in mem && e.id.scenario == s.key;
        assert e.id in after;
      }
    }
  }

  /** Selects scenarios, runs them, and reports the coverage. */
  method RunOpened(dir: Directory, scenarios: seq<Scenario>, o: Options, env: Environment, loaded: seq<Entry>)
    returns (outcome: RunOutcome)
    requires UniqueKeys(scenarios) && Idle(dir.Contents(), loaded, KeysOf(scenarios))
    modifies dir`started, dir`results, dir`log, dir`steps
    ensures Sound(dir.Contents(), KeysOf(scenarios)) && Grows(old(dir.Contents()), dir.Contents())
    ensures outcome.Covered? ==> Unfinished(dir.Contents()) == {} && LatestOnDisk(outcome.latest, dir.results)
    ensures outcome.Covered? && o.retry == "" ==>
              GroupHasRun(scenarios, o, dir.results) || StopCause(env, old(dir.Contents()), dir.Contents())
    ensures outcome.Aborted? ==> outcome.reason !in {DuplicateAttempt, AlreadyExists, AlreadyAdmitted, UnknownGroup}
    ensures old(dir.steps).None? ==> dir.steps.None? && !outcome.Killed?
  {
    IdleIsCoverable(dir.Contents(), loaded, KeysOf(scenarios));
    var selected := Pending(scenarios, loaded, o.group, o.retry, o.chosen);
    if selected.Failure? {
      return Aborted(selected.error);
    }
    if o.retry != "" && selected.value == [] {
      return Aborted(NothingToRetry);
    }
    SelectedIsPending(dir.Contents(), loaded, scenarios, selected.value, o);
    ghost var before := dir.results;
    var step, mem, stopped := RunSelected(dir, scenarios, selected.value, loaded, o.operatorReady, env);
    if !step.Ok? {
      return Ended(step);
    }
    if !stopped && o.retry == "" {
      SelectedWasAll(scenarios, selected.value, loaded, o, before, dir.results);
    }
    IdleIsCoverable(dir.Contents(), mem, KeysOf(scenarios));
    var covered := Coverage(mem, KeysOf(scenarios));
    LatestInMemory(mem, dir.results, covered.value);
    return Covered(covered.value);
  }

  /** The run once it holds the lock. */
  method RunAdmitted(dir: Directory, scenarios: seq<Scenario>, o: Options, env: Environment)
    returns (outcome: RunOutcome)
    requires UniqueKeys(scenarios) && Sound(dir.Contents(), KeysOf(scenarios))
    modifies dir`started, dir`results, dir`log, dir`steps
    ensures Sound(dir.Contents(), KeysOf(scenarios)) && Grows(old(dir.Contents()), dir.Contents())
    ensures outcome.Covered? ==> Unfinished(dir.Contents()) == {} && LatestOnDisk(outcome.latest, dir.results)
    ensures outcome.Covered? && o.retry == "" ==>
              GroupHasRun(scenarios, o, dir.results) || StopCause(env, old(dir.Contents()), dir.Contents())
    ensures outcome.Aborted? ==> outcome.reason !in {DuplicateAttempt, AlreadyExists, AlreadyAdmitted, UnknownGroup}
    ensures !o.resume && old(Unfinished(dir.Contents())) != {} ==>
              dir.Contents() == old(dir.Contents()) && !outcome.Covered?
    ensures (o.resume && old(dir.steps).None? && env.sameIdentity ==>
               (Settled(old(dir.Contents()), dir.results)
                <==> old(Unfinished(dir.Contents())) == {} || Recoverable(old(dir.Contents()), env.finishedAt)))
    ensures old(dir.steps).None? ==> dir.steps.None? && !outcome.Killed?
  {
    if !env.sameIdentity {
      return Aborted(IdentityChanged);
    }
    if |dir.results| > MAX_RESULTS {
      return Aborted(TooManyResults);
    }
    ghost var before := dir.Contents();
    var step, mem := Open(dir, KeysOf(scenarios), o.resume, env.finishedAt);
    if !step.Ok? {
      return Ended(step);
    }
    ghost var middle := dir.Contents();
    outcome := RunOpened(dir, scenarios, o, env, mem);
    GrowsOn(before, middle, dir.Contents());
    SettledOn(before, middle, dir.Contents());
    if StopCause(env, middle, dir.Contents()) {
      CauseStays(env, before, middle, dir.Contents());
    }
  }

  /** One run of the suite, from the lock to its release; a process that dies keeps the lock. */
  method RunSuite(dir: Directory, scenarios: seq<Scenario>, o: Options, env: Environment) returns (outcome: RunOutcome)
    requires UniqueKeys(scenarios) && Sound(dir.Contents(), KeysOf(scenarios))
    modifies dir
    ensures Sound(dir.Contents(), KeysOf(scenarios)) && Grows(old(dir.Contents()), dir.Contents())
    ensures outcome.Covered? ==> Unfinished(dir.Contents()) == {} && LatestOnDisk(outcome.latest, dir.results)
    ensures outcome.Covered? && o.retry == "" ==>
              GroupHasRun(scenarios, o, dir.results) || StopCause(env, old(dir.Contents()), dir.Contents())
    ensures outcome.Aborted? ==> outcome.reason != DuplicateAttempt && outcome.reason != AlreadyExists
    ensures outcome == Aborted(AlreadyAdmitted) <==>
              o.group in GROUPS && old(dir.locked) && !o.resume && env.steps != Some(0)
    ensures !outcome.Killed? && o.group in GROUPS && outcome != Aborted(AlreadyAdmitted) ==> !dir.locked
    ensures !o.resume && old(Unfinished(dir.Contents())) != {} ==>
              dir.Contents() == old(dir.Contents()) && !outcome.Covered?
    ensures (o.resume && env.steps.None? && o.group in GROUPS && env.sameIdentity ==>
               (Settled(old(dir.Contents()), dir.results)
                <==> old(Unfinished(dir.Contents())) == {} || Recoverable(old(dir.Contents()), env.finishedAt)))
    ensures env.steps.None? ==> !outcome.Killed?
  {
    dir.steps := env.steps;
    if o.group !in GROUPS {
      return Aborted(UnknownGroup);
    }
    var alive := dir.Spend();
    if !alive {
      return Killed;
    }
    if dir.locked && !o.resume {
      return Aborted(AlreadyAdmitted);
    }
    dir.locked := true;
    outcome := RunAdmitted(dir, scenarios, o, env);
    if !outcome.Killed? {
      alive := dir.Spend();
      if alive {
        dir.locked := false;
      } else {
        outcome := Killed;
      }
    }
  }

  /**
   * A process that dies once it has executed an attempt: the next run can recover exactly up to attempt 999, and only
   * while its clock is not behind the time at which the attempt was reserved.
   */
  lemma ResumableIff(d: Disk, id: Id, start: Instant, now: Id -> Instant, keys: set<string>)
    requires Sound(d, keys) && Unfinished(d) == {} && NewAttempt(d, id, keys)
    ensures var done := AdmissionWay(d, id, None, start).done;
            && Sound(done, keys) && Executed(id) in done.log
            && (Recoverable(done, now) <==> |d.results| <= MAX_RESULTS && id.attempt <= MAX_ATTEMPT && start <= now(id))
  {
    ExecutedBoth(d, id, None, start, keys);
    var done := AdmissionWay(d, id, None, start).done;
    assert Unfinished(done) == {id};
    assert Unrecoverable(done, id, now) <==> id.attempt > MAX_ATTEMPT || now(id) < start;
  }

  /** Attempt 1000 is admitted and executed like any other, but no result of it can be saved. */
  lemma PastLastAttempt(d: Disk, id: Id, start: Instant, finish: Instant, v: Verdict, keys: set<string>)
    requires Sound(d, keys) && Unfinished(d) == {} && NewAttempt(d, id, keys)
    ensures var done := AdmissionWay(d, id, None, start).done;
            && Sound(done, keys) && Executed(id) in done.log
            && (Savable(id, start, finish, v, keys)
                <==> id.attempt <= MAX_ATTEMPT && start <= finish && (v.state == Passed ==> v.proof))
  {
    ExecutedBoth(d, id, None, start, keys);
  }

  /**
   * The first attempt of the first run, reserved at 5 and interrupted, cannot be recovered at 4 on a clock set back.
   */
  lemma ClockSetBack(key: string)
    ensures var id := Id(key, 1);
            var done := AdmissionWay(Disk(map[], map[], []), id, None, 5).done;
            && Sound(done, {key}) && Unfinished(done) == {id} && !Recoverable(done, _ => 4) && Recoverable(done, _ => 5)
  {
    EmptyIsSound({key});
    ResumableIff(Disk(map[], map[], []), Id(key, 1), 5, _ => 4, {key});
    ResumableIff(Disk(map[], map[], []), Id(key, 1), 5, _ => 5, {key});
    ExecutedBoth(Disk(map[], map[], []), Id(key, 1), None, 5, {key});
  }

  // ----- every history -----

  datatype Plan = Plan(options: Options, environment: Environment)

  /**
   * Any number of runs, one after another, each resumed or not, each dying anywhere: no attempt is executed twice,
   * every execution follows its reservation, and nothing happens to a scenario after it passed.
   */
  method RunHistory(scenarios: seq<Scenario>, plans: seq<Plan>) returns (dir: Directory)
    requires UniqueKeys(scenarios)
    ensures fresh(dir) && Sound(dir.Contents(), KeysOf(scenarios))
    ensures forall i, j :: 0 <= i < j < |dir.log| && dir.log[i].Executed? ==> dir.log[i] != dir.log[j]
    ensures forall j :: 0 <= j < |dir.log| && dir.log[j].Executed? ==> Reserved(dir.log[j].id) in dir.log[..j]
    ensures forall i, j :: 0 <= i < j < |dir.log| && dir.log[i].Recorded? && dir.log[i].outcome.state == Passed ==>
              dir.log[j].id.scenario != dir.log[i].id.scenario
  {
    dir := new Directory();
    EmptyIsSound(KeysOf(scenarios));
    for k := 0 to |plans|
      invariant fresh(dir) && Sound(dir.Contents(), KeysOf(scenarios))
    {
      var outcome := RunSuite(dir, scenarios, plans[k].options, plans[k].environment);
    }
    LegalHistory(dir.log);
  }

  lemma EmptyIsSound(keys: set<string>)
    ensures Sound(Disk(map[], map[], []), keys)
  {
  }

  lemma {:induction false} LegalHistory(log: seq<Event>)
    requires Legal(log)
    ensures forall i, j :: 0 <= i < j < |log| && log[i].Executed? ==> log[i] != log[j]
    ensures forall j :: 0 <= j < |log| && log[j].Executed? ==> Reserved(log[j].id) in log[..j]
    ensures forall i, j :: 0 <= i < j < |log| && log[i].Recorded? && log[i].outcome.state == Passed ==>
              log[j].id.scenario != log[i].id.scenario
  {
    forall i, j | 0 <= i < j < |log| && log[i].Executed? ensures log[i] != log[j] {
      if log[j].Executed? {
        ExecutedAtMostOnce(log, i, j);
      }
    }
    forall j | 0 <= j < |log| && log[j].Executed? ensures Reserved(log[j].id) in log[..j] {
      var i := ExecutedAfterReserved(log, j);
      assert log[..j][i] == Reserved(log[j].id);
    }
    forall i, j | 0 <= i < j < |log| && log[i].Recorded? && log[i].outcome.state == Passed
      ensures log[j].id.scenario != log[i].id.scenario
    {
      PassedIsFinal(log, i, j);
    }
  }
}
