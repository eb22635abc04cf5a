/**
 * The resumable migration of the upstream ledger: what every crash leaves on disk, and what a further run makes of it.
 */
module Migration {
  import opened Wrappers

  type Text = string

  /** `f5.json`: not a JSON object, or one with or without a valid upstream block and with other fields. */
  datatype Project = Broken | Project(upstream: bool, rest: Text)

  /** The files the migration reads and writes. */
  datatype Disk = Disk(oldLedger: Option<Text>, archive: Option<Text>, rules: Option<Text>, policy: Option<Text>,
                       project: Option<Project>)

  /** What Git and the validators say; main's copy of the old ledger is absent once main is migrated. */
  datatype World = World(
    remote: bool,
    main: Option<Text>,
    seedRules: Text,
    seedPolicy: Text,
    validArchive: Text -> bool,
    validLedger: (Text, Text, Text) -> bool,
    legacy: Text -> nat)

  datatype Reason =
    | NoRemote
    | NothingToMigrate
    | ConflictingArchive
    | InvalidArchive
    | StaleArchive
    | ProjectNotObject
    | InvalidDestination

  datatype Outcome = Migrated(remaining: nat) | AlreadyMigrated(remaining: nat) | Refused(reason: Reason) | Died

  // ----- the migration as it is meant -----

  /** Why the ledger cannot be archived, or nothing. */
  function ArchiveProblem(d: Disk, w: World): Option<Reason> {
    if !w.remote then Some(NoRemote)
    else if d.oldLedger.Some? then
      if d.archive.Some? then (if d.archive != d.oldLedger then Some(ConflictingArchive) else None)
      else if !w.validArchive(d.oldLedger.value) then Some(InvalidArchive) else None
    else if d.archive.None? then Some(NothingToMigrate)
    else if w.main.Some? && w.main != d.archive then Some(StaleArchive)
    else None
  }

  function Archived(d: Disk): Disk {
    if d.archive.None? then d.(archive := d.oldLedger) else d
  }

  function WithRules(d: Disk, w: World): Disk {
    if d.rules.None? then d.(rules := Some(w.seedRules)) else d
  }

  function WithPolicy(d: Disk, w: World): Disk {
    if d.policy.None? then d.(policy := Some(w.seedPolicy)) else d
  }

  function WithProject(d: Disk): Disk {
    match d.project
    case None => d.(project := Some(Project(true, "")))
    case Some(Project(false, rest)) => d.(project := Some(Project(true, rest)))
    case _ => d
  }

  predicate Verified(d: Disk, w: World) {
    && d.archive.Some? && d.rules.Some? && d.policy.Some?
    && w.validArchive(d.archive.value) && w.validLedger(d.archive.value, d.rules.value, d.policy.value)
    && d.project.Some? && d.project.value.Project? && d.project.value.upstream
  }

  /** Everything but the removal of the old file. */
  function Seeded(d: Disk, w: World): Disk {
    WithProject(WithPolicy(WithRules(Archived(d), w), w))
  }

  /** The disk and the outcome of an uninterrupted migration. */
  function Complete(d: Disk, w: World): (Disk, Outcome) {
    if ArchiveProblem(d, w).Some? then (d, Refused(ArchiveProblem(d, w).value))
    else if d.project == Some(Broken) then (WithPolicy(WithRules(Archived(d), w), w), Refused(ProjectNotObject))
    else
      var seeded := Seeded(d, w);
      if !Verified(seeded, w) then (seeded, Refused(InvalidDestination))
      else if d.oldLedger.Some? then (seeded.(oldLedger := None), Migrated(w.legacy(seeded.archive.value)))
      else (seeded, AlreadyMigrated(w.legacy(seeded.archive.value)))
  }

  /** The disk after each durable step; a migration that dies leaves one of these. */
  function Way(d: Disk, w: World): set<Disk> {
    if ArchiveProblem(d, w).Some? then {d}
    else
      var seeds := {d, Archived(d), WithRules(Archived(d), w), WithPolicy(WithRules(Archived(d), w), w)};
      if d.project == Some(Broken) then seeds else seeds + {Seeded(d, w), Complete(d, w).0}
  }

  // ----- what every crash point keeps -----

  /** The old ledger's bytes are in one of its two places, and nothing that was there before is overwritten. */
  ghost predicate Preserves(d: Disk, s: Disk) {
    && (d.oldLedger.Some? ==> s.oldLedger == d.oldLedger || s.archive == d.oldLedger)
    && (d.oldLedger.None? ==> s.oldLedger.None?)
    && (d.archive.Some? ==> s.archive == d.archive)
    && (d.rules.Some? ==> s.rules == d.rules)
    && (d.policy.Some? ==> s.policy == d.policy)
    && (d.project.Some? && d.project.value.Project? ==>
          s.project.Some? && s.project.value.Project? && s.project.value.rest == d.project.value.rest
          && (d.project.value.upstream ==> s.project == d.project))
    && (d.project == Some(Broken) ==> s.project == d.project)
  }

  /** The old file goes only once the archive equals it and the destination is verified. */
  ghost predicate RemovedSafely(d: Disk, s: Disk, w: World) {
    d.oldLedger.Some? && s.oldLedger.None? ==> s.archive == d.oldLedger && Verified(s, w)
  }

  lemma EveryCrashPointPreserves(d: Disk, w: World, s: Disk)
    requires s in Way(d, w)
    ensures Preserves(d, s) && RemovedSafely(d, s, w)
  {
  }

  /** The same success, whether or not the old file was already gone. */
  predicate SameOutcome(a: Outcome, b: Outcome) {
    a == b || (a.Migrated? && b == AlreadyMigrated(a.remaining))
  }

  /** The old ledger, if it is there, is main's, if main still has one. */
  predicate MainAgrees(d: Disk, w: World) {
    d.oldLedger.None? || w.main.None? || w.main == d.oldLedger
  }

  lemma SeedsAgain(d: Disk, w: World, s: Disk)
    requires ArchiveProblem(d, w).None? && d.project != Some(Broken)
    requires s in {d, Archived(d), WithRules(Archived(d), w), WithPolicy(WithRules(Archived(d), w), w), Seeded(d, w)}
    ensures ArchiveProblem(s, w).None? && s.project != Some(Broken) && Seeded(s, w) == Seeded(d, w)
        && s.oldLedger == d.oldLedger
  {
  }

  /**
   * From every crash point one more run ends as the uninterrupted migration does, with the same disk; except that
   * after the removal of the old file it refuses the archive exactly when main still holds a different ledger.
   */
  lemma RerunReachesTheEnd(d: Disk, w: World, s: Disk)
    requires s in Way(d, w)
    ensures s.oldLedger == d.oldLedger || MainAgrees(d, w) ==>
              Complete(s, w).0 == Complete(d, w).0 && SameOutcome(Complete(d, w).1, Complete(s, w).1)
    ensures s.oldLedger != d.oldLedger && !MainAgrees(d, w) ==>
              Complete(s, w) == (s, Refused(StaleArchive)) && s == Complete(d, w).0
  {
    if ArchiveProblem(d, w).None? && d.project != Some(Broken) {
      if s.oldLedger == d.oldLedger {
        SeedsAgain(d, w, s);
      }
    }
  }

  /** A migrated disk stays as it is. */
  lemma MigratedIsFinal(d: Disk, w: World)
    requires Complete(d, w).1.Migrated? && MainAgrees(d, w)
    ensures Complete(Complete(d, w).0, w) == (Complete(d, w).0, AlreadyMigrated(Complete(d, w).1.remaining))
  {
    RerunReachesTheEnd(d, w, Complete(d, w).0);
  }

  // ----- the migration step by step -----

  class Root {
    var oldLedger: Option<Text>
    var archive: Option<Text>
    var rules: Option<Text>
    var policy: Option<Text>
    var project: Option<Project>
    var steps: Option<nat>

    function Contents(): Disk
      reads this
    {
      Disk(oldLedger, archive, rules, policy, project)
    }

    constructor (d: Disk)
      ensures Contents() == d
    {
      oldLedger, archive, rules, policy, project, steps := d.oldLedger, d.archive, d.rules, d.policy, d.project, None;
    }

    /** One atomic write or removal, unless the process dies before it. */
    method Spend() returns (alive: bool)
      modifies this`steps
      ensures alive == (old(steps) != Some(0))
      ensures old(steps).None? ==> steps.None?
    {
      alive := steps != Some(0);
      if steps.Some? && steps.value > 0 {
        steps := Some(steps.value - 1);
      }
    }

    method WriteArchive(text: Text) returns (alive: bool)
      modifies this`archive, this`steps
      ensures alive == (old(steps) != Some(0)) && (old(steps).None? ==> steps.None?)
      ensures Contents() == if alive then old(Contents()).(archive := Some(text)) else old(Contents())
    {
      alive := Spend();
      if alive {
        archive := Some(text);
      }
    }

    method WriteRules(text: Text) returns (alive: bool)
      modifies this`rules, this`steps
      ensures alive == (old(steps) != Some(0)) && (old(steps).None? ==> steps.None?)
      ensures Contents() == if alive then old(Contents()).(rules := Some(text)) else old(Contents())
    {
      alive := Spend();
      if alive {
        rules := Some(text);
      }
    }

    method WritePolicy(text: Text) returns (alive: bool)
      modifies this`policy, this`steps
      ensures alive == (old(steps) != Some(0)) && (old(steps).None? ==> steps.None?)
      ensures Contents() == if alive then old(Contents()).(policy := Some(text)) else old(Contents())
    {
      alive := Spend();
      if alive {
        policy := Some(text);
      }
    }

    method WriteProject(merged: Project) returns (alive: bool)
      modifies this`project, this`steps
      ensures alive == (old(steps) != Some(0)) && (old(steps).None? ==> steps.None?)
      ensures Contents() == if alive then old(Contents()).(project := Some(merged)) else old(Contents())
    {
      alive := Spend();
      if alive {
        project := Some(merged);
      }
    }

    method RemoveOld() returns (alive: bool)
      modifies this`oldLedger, this`steps
      ensures alive == (old(steps) != Some(0)) && (old(steps).None? ==> steps.None?)
      ensures Contents() == if alive then old(Contents()).(oldLedger := None) else old(Contents())
    {
      alive := Spend();
      if alive {
        oldLedger := None;
      }
    }
  }

  /** The project file to write: None when it already has the block. */
  function MergedProject(existing: Option<Project>): Result<Option<Project>, Reason> {
    match existing
    case None => Success(Some(Project(true, "")))
    case Some(Broken) => Failure(ProjectNotObject)
    case Some(Project(upstream, rest)) => Success(if upstream then None else Some(Project(true, rest)))
  }

  /** Writes the seeds that are missing, and completes the project file. */
  method WriteSeeds(root: Root, w: World) returns (problem: Option<Outcome>)
    modifies root`rules, root`policy, root`project, root`steps
    ensures var d := old(root.Contents());
            && (problem.None? ==>
                   d.project != Some(Broken) && root.Contents() == WithProject(WithPolicy(WithRules(d, w), w)))
            && (problem.Some? && problem.value.Died? ==>
                  root.Contents() in {d, WithRules(d, w), WithPolicy(WithRules(d, w), w)})
            && (problem.Some? && !problem.value.Died? ==>
                  d.project == Some(Broken) && problem.value == Refused(ProjectNotObject)
                      && root.Contents() == WithPolicy(WithRules(d, w), w))
    ensures old(root.steps).None? ==> root.steps.None? && problem != Some(Died)
  {
    if root.rules.None? {
      var alive := root.WriteRules(w.seedRules);
      if !alive {
        return Some(Died);
      }
    }
    if root.policy.None? {
      var alive := root.WritePolicy(w.seedPolicy);
      if !alive {
        return Some(Died);
      }
    }
    var merged := MergedProject(root.project);
    if merged.Failure? {
      return Some(Refused(merged.error));
    }
    if merged.value.Some? {
      var alive := root.WriteProject(merged.value.value);
      if !alive {
        return Some(Died);
      }
    }
    return None;
  }

  method MigrateUpstreamLedger(root: Root, w: World) returns (outcome: Outcome)
    modifies root
    ensures root.Contents() in Way(old(root.Contents()), w)
    ensures Preserves(old(root.Contents()), root.Contents()) && RemovedSafely(old(root.Contents()), root.Contents(), w)
    ensures !outcome.Died? ==> (root.Contents(), outcome) == Complete(old(root.Contents()), w)
    ensures old(root.steps).None? ==> root.steps.None? && !outcome.Died?
  {
    ghost var d := root.Contents();
    forall s | s in Way(d, w) ensures Preserves(d, s) && RemovedSafely(d, s, w) {
      EveryCrashPointPreserves(d, w, s);
    }
    var hasOld := root.oldLedger.Some?;
    var problem := ArchiveProblem(root.Contents(), w);
    if problem.Some? {
      return Refused(problem.value);
    }
    if hasOld && root.archive.None? {
      var alive := root.WriteArchive(root.oldLedger.value);
      if !alive {
        return Died;
      }
    }
    var stop := WriteSeeds(root, w);
    if stop.Some? {
      return stop.value;
    }
    if !Verified(root.Contents(), w) {
      return Refused(InvalidDestination);
    }
    var remaining := w.legacy(root.archive.value);
    if hasOld {
      var alive := root.RemoveOld();
      return if alive then Migrated(remaining) else Died;
    }
    return AlreadyMigrated(remaining);
  }

  /** Any number of interrupted runs, then one that is not: the disk ends as if nothing had been interrupted. */
  method MigrateThroughCrashes(root: Root, w: World, deaths: seq<nat>) returns (outcome: Outcome)
    requires MainAgrees(root.Contents(), w)
    modifies root
    ensures root.Contents() == Complete(old(root.Contents()), w).0
    ensures SameOutcome(Complete(old(root.Contents()), w).1, outcome)
    ensures Preserves(old(root.Contents()), root.Contents())
  {
    ghost var d := root.Contents();
    for k := 0 to |deaths|
      invariant Complete(root.Contents(), w).0 == Complete(d, w).0
      invariant SameOutcome(Complete(d, w).1, Complete(root.Contents(), w).1)
      invariant MainAgrees(root.Contents(), w) && Preserves(d, root.Contents())
    {
      ghost var before := root.Contents();
      root.steps := Some(deaths[k]);
      var _ := MigrateUpstreamLedger(root, w);
      RerunReachesTheEnd(before, w, root.Contents());
    }
    root.steps := None;
    outcome := MigrateUpstreamLedger(root, w);
  }
}
