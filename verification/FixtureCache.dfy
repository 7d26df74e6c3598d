/** N processes materialising the same fixture into one cached repository.

    The only shared state is the lock file (created with O_EXCL) and the repository directory. Each
    process runs `MaterializeFixture` one system call or git command at a time; every action may be
    interleaved with those of any other process, may fail, and a process may crash anywhere. In
    particular a git query may fail although the repository has its commit, for example because
    the caller's context was cancelled: `baselineSHA` then reports "no commit". */
module FixtureCache {
  import opened Options

  type Path = string
  type Tree = map<Path, string>

  datatype Entry = Entry(path: Path, content: string)

  datatype Repo = Repo(hasGit: bool, files: Tree, index: Tree, head: Option<Tree>)
  const Absent := Repo(false, map[], map[], None)

  datatype Point =
    | FastStat
    | FastParse
    | WantLock
    | ReStat
    | ReParse
    | Clearing
    | Initialising
    | Writing(count: nat)
    | Committing
    | ReadingHead
    | Releasing(result: Option<Tree>)
    | Done(baseline: Option<Tree>)
    | Crashed(holding: bool)

  datatype Action =
    | StatFound | StatMissed
    | ParseFound | ParseMissed
    | Acquire | AcquireFail
    | ClearSome(left: Repo) | ClearAll | ClearFail
    | InitOk | InitFail(git: bool)
    | WriteOk | WriteFail(junk: string)
    | AddOk | AddFail
    | CommitOk | CommitFail | CommitUnreported
    | HeadRead | HeadFail
    | Release
    | ReleaseFail        // the lock file cannot be removed, which nobody reports
    | Crash

  datatype Step = Step(proc: nat, action: Action)
  datatype State = State(lock: bool, repo: Repo, procs: seq<Point>)
  datatype Effect = Effect(lock: bool, repo: Repo, at: Point)

  function Initial(n: nat): State {
    State(false, Absent, seq(n, i => FastStat))
  }

  /** The tree that writing the entries in order leaves in an empty directory. */
  function TreeOf(fixture: seq<Entry>): Tree {
    if fixture == [] then map[]
    else TreeOf(fixture[..|fixture| - 1])[fixture[|fixture| - 1].path := fixture[|fixture| - 1].content]
  }

  /** Between creating the lock file and the attempt to remove it; a crash leaves the file behind. */
  predicate Holds(at: Point) {
    match at
    case FastStat | FastParse | WantLock | Done(_) => false
    case Crashed(holding) => holding
    case _ => true
  }

  /** What removing part of the directory may leave. */
  predicate PartOf(left: Repo, repo: Repo) {
    && left.files.Keys <= repo.files.Keys
    && (left.hasGit ==> repo.hasGit)
    && (left.head == None || left.head == repo.head)
  }

  predicate CanAct(fixture: seq<Entry>, lock: bool, repo: Repo, at: Point, a: Action) {
    match a
    case StatFound => (at.FastStat? || at.ReStat?) && repo.hasGit
    case StatMissed => at.FastStat? || at.ReStat?
    case ParseFound => (at.FastParse? || at.ReParse?) && repo.head.Some?
    case ParseMissed => at.FastParse? || at.ReParse?
    case Acquire => at.WantLock? && !lock
    case AcquireFail => at.WantLock?
    case ClearSome(left) => at.Clearing? && PartOf(left, repo)
    case ClearAll => at.Clearing?
    case ClearFail => at.Clearing?
    case InitOk => at.Initialising?
    case InitFail(_) => at.Initialising?
    case WriteOk => at.Writing? && at.count < |fixture|
    case WriteFail(_) => at.Writing? && at.count < |fixture|
    case AddOk => at.Writing? && at.count == |fixture|
    case AddFail => at.Writing? && at.count == |fixture|
    case CommitOk => at.Committing? && repo.index != map[]
    case CommitFail => at.Committing?
    case CommitUnreported => at.Committing? && repo.index != map[]
    case HeadRead => at.ReadingHead? && repo.head.Some?
    case HeadFail => at.ReadingHead?
    case Release => at.Releasing?
    case ReleaseFail => at.Releasing?
    case Crash => !at.Done? && !at.Crashed?
  }

  function Act(fixture: seq<Entry>, lock: bool, repo: Repo, at: Point, a: Action): Effect
    requires CanAct(fixture, lock, repo, at, a)
  {
    match a
    case StatFound => Effect(lock, repo, if at.FastStat? then FastParse else ReParse)
    case StatMissed => Effect(lock, repo, if at.FastStat? then WantLock else Clearing)
    case ParseFound => Effect(lock, repo, if at.FastParse? then Done(repo.head) else Releasing(repo.head))
    case ParseMissed => Effect(lock, repo, if at.FastParse? then WantLock else Clearing)
    case Acquire => Effect(true, repo, ReStat)
    case AcquireFail => Effect(lock, repo, Done(None))
    case ClearSome(left) => Effect(lock, left, at)
    case ClearAll => Effect(lock, Absent, Initialising)
    case ClearFail => Effect(lock, repo, Releasing(None))
    case InitOk => Effect(lock, repo.(hasGit := true), Writing(0))
    case InitFail(git) => Effect(lock, repo.(hasGit := git), Releasing(None))
    case WriteOk =>
      var e := fixture[at.count];
      Effect(lock, repo.(files := repo.files[e.path := e.content]), Writing(at.count + 1))
    case WriteFail(junk) =>
      Effect(lock, repo.(files := repo.files[fixture[at.count].path := junk]), Releasing(None))
    case AddOk => Effect(lock, repo.(index := repo.files), Committing)
    case AddFail => Effect(lock, repo, Releasing(None))
    case CommitOk => Effect(lock, repo.(head := Some(repo.index)), ReadingHead)
    case CommitFail => Effect(lock, repo, Releasing(None))
    case CommitUnreported => Effect(lock, repo.(head := Some(repo.index)), Releasing(None))
    case HeadRead => Effect(lock, repo, Releasing(repo.head))
    case HeadFail => Effect(lock, repo, Releasing(None))
    case Release => Effect(false, repo, Done(at.result))
    case ReleaseFail => Effect(lock, repo, Done(at.result))
    case Crash => Effect(lock, repo, Crashed(Holds(at)))
  }

  predicate Enabled(fixture: seq<Entry>, s: State, step: Step) {
    step.proc < |s.procs| && CanAct(fixture, s.lock, s.repo, s.procs[step.proc], step.action)
  }

  function Apply(fixture: seq<Entry>, s: State, step: Step): State
    requires Enabled(fixture, s, step)
  {
    var e := Act(fixture, s.lock, s.repo, s.procs[step.proc], step.action);
    State(e.lock, e.repo, s.procs[step.proc := e.at])
  }

  predicate Valid(fixture: seq<Entry>, s: State, steps: seq<Step>)
    decreases |steps|
  {
    steps == [] || (Enabled(fixture, s, steps[0]) && Valid(fixture, Apply(fixture, s, steps[0]), steps[1..]))
  }

  function Exec(fixture: seq<Entry>, s: State, steps: seq<Step>): State
    requires Valid(fixture, s, steps)
    decreases |steps|
  {
    if steps == [] then s else Exec(fixture, Apply(fixture, s, steps[0]), steps[1..])
  }

  // ---------------------------------------------------------------- the invariant

  predicate RepoInv(fixture: seq<Entry>, repo: Repo) {
    repo.head.Some? ==> repo.head.value == TreeOf(fixture)
  }

  predicate ResultInv(fixture: seq<Entry>, result: Option<Tree>) {
    result.Some? ==> result.value == TreeOf(fixture)
  }

  predicate PointInv(fixture: seq<Entry>, repo: Repo, at: Point) {
    match at
    case Initialising => repo == Absent
    case Writing(count) =>
      count <= |fixture| && repo.hasGit && repo.files == TreeOf(fixture[..count]) && repo.head == None
    case Committing => repo.index == TreeOf(fixture) && repo.head == None
    case ReadingHead => repo.head == Some(TreeOf(fixture))
    case Releasing(result) => ResultInv(fixture, result)
    case Done(result) => ResultInv(fixture, result)
    case _ => true
  }

  ghost predicate OneHolder(s: State) {
    && (forall i :: 0 <= i < |s.procs| && Holds(s.procs[i]) ==> s.lock)
    && (forall i, j :: 0 <= i < j < |s.procs| ==> !(Holds(s.procs[i]) && Holds(s.procs[j])))
  }

  ghost predicate Inv(fixture: seq<Entry>, s: State) {
    && OneHolder(s)
    && RepoInv(fixture, s.repo)
    && (forall i :: 0 <= i < |s.procs| ==> PointInv(fixture, s.repo, s.procs[i]))
  }

  lemma ActKeepsInv(fixture: seq<Entry>, lock: bool, repo: Repo, at: Point, a: Action)
    requires RepoInv(fixture, repo) && PointInv(fixture, repo, at) && CanAct(fixture, lock, repo, at, a)
    ensures var e := Act(fixture, lock, repo, at, a); RepoInv(fixture, e.repo) && PointInv(fixture, e.repo, e.at)
  {
    if a.WriteOk? {
      var next := fixture[..at.count + 1];
      assert next[..|next| - 1] == fixture[..at.count];
    } else if a.AddOk? {
      assert fixture[..at.count] == fixture;
    }
  }

  /** Only the holder of the lock touches the repository, the lock file only changes hands through
      Acquire and Release, and what a non-holder knows does not depend on the repository. */
  lemma ActRespectsLock(fixture: seq<Entry>, lock: bool, repo: Repo, at: Point, a: Action)
    requires CanAct(fixture, lock, repo, at, a) && (Holds(at) ==> lock)
    ensures var e := Act(fixture, lock, repo, at, a);
            && (!Holds(at) ==> e.repo == repo)
            && (Holds(e.at) ==> e.lock)
            && (Holds(e.at) && !Holds(at) ==> !lock)
            && (!Holds(at) && lock ==> e.lock)
  {
  }

  lemma StepKeepsInv(fixture: seq<Entry>, s: State, step: Step)
    requires Inv(fixture, s) && Enabled(fixture, s, step)
    ensures Inv(fixture, Apply(fixture, s, step))
  {
    var at := s.procs[step.proc];
    ActKeepsInv(fixture, s.lock, s.repo, at, step.action);
    ActRespectsLock(fixture, s.lock, s.repo, at, step.action);
    hide Act, CanAct, TreeOf;
    var t := Apply(fixture, s, step);
    forall i | 0 <= i < |t.procs| && i != step.proc
      ensures PointInv(fixture, t.repo, t.procs[i]) && (Holds(t.procs[i]) ==> t.lock)
      ensures !(Holds(t.procs[i]) && Holds(t.procs[step.proc]))
    {
      assert t.procs[i] == s.procs[i];
      assert Holds(s.procs[i]) ==> s.lock && !Holds(at);
    }
  }

  lemma {:induction false} RunKeepsInv(fixture: seq<Entry>, s: State, steps: seq<Step>)
    requires Inv(fixture, s) && Valid(fixture, s, steps)
    ensures Inv(fixture, Exec(fixture, s, steps))
    decreases |steps|
  {
    hide Inv, Apply, Enabled;
    if steps != [] {
      StepKeepsInv(fixture, s, steps[0]);
      RunKeepsInv(fixture, Apply(fixture, s, steps[0]), steps[1..]);
    }
  }

  // ---------------------------------------------------------------- whole-run guarantees

  /** However many processes interleave, fail and crash, at most one is between lock and unlock. */
  lemma AtMostOneInside(fixture: seq<Entry>, n: nat, steps: seq<Step>, i: nat, j: nat)
    requires Valid(fixture, Initial(n), steps)
    requires i < |Exec(fixture, Initial(n), steps).procs| && j < |Exec(fixture, Initial(n), steps).procs|
    requires Holds(Exec(fixture, Initial(n), steps).procs[i]) && Holds(Exec(fixture, Initial(n), steps).procs[j])
    ensures i == j && Exec(fixture, Initial(n), steps).lock
  {
    RunKeepsInv(fixture, Initial(n), steps);
  }

  /** Every baseline any process returns, through the lock or through the unlocked fast path, is
      the commit of the complete fixture: never of a partial or a polluted tree. */
  lemma BaselinesAreComplete(fixture: seq<Entry>, n: nat, steps: seq<Step>, i: nat)
    requires Valid(fixture, Initial(n), steps) && i < |Exec(fixture, Initial(n), steps).procs|
    requires Exec(fixture, Initial(n), steps).procs[i].Done?
    ensures var result := Exec(fixture, Initial(n), steps).procs[i].baseline;
            result == None || result == Some(TreeOf(fixture))
  {
    RunKeepsInv(fixture, Initial(n), steps);
  }

  /** Git refuses a commit with nothing staged. */
  lemma NothingIsCommitted(s: State, step: Step)
    requires Inv([], s) && s.repo.head == None && Enabled([], s, step)
    ensures Apply([], s, step).repo.head == None
  {
  }

  lemma {:induction false} StaysUncommitted(s: State, steps: seq<Step>)
    requires Inv([], s) && s.repo.head == None && Valid([], s, steps)
    ensures Exec([], s, steps).repo.head == None
    decreases |steps|
  {
    hide Inv, Apply, Enabled;
    if steps != [] {
      NothingIsCommitted(s, steps[0]);
      StepKeepsInv([], s, steps[0]);
      StaysUncommitted(Apply([], s, steps[0]), steps[1..]);
    }
  }

  /** A fixture without files never gets a commit, in any run. */
  lemma EmptyFixtureIsNeverCommitted(n: nat, steps: seq<Step>)
    requires Valid([], Initial(n), steps)
    ensures Exec([], Initial(n), steps).repo.head == None
  {
    StaysUncommitted(Initial(n), steps);
  }

  // ---------------------------------------------------------------- keeping the commit

  predicate Committed(s: State) {
    s.repo.head.Some?
  }

  /** A re-check under the lock that overlooks an existing commit. */
  predicate Blind(s: State, step: Step) {
    && step.proc < |s.procs| && Committed(s)
    && ((s.procs[step.proc].ReStat? && step.action.StatMissed?) ||
        (s.procs[step.proc].ReParse? && step.action.ParseMissed?))
  }

  /** Some process is about to clear a repository that has its commit. */
  ghost predicate AtRisk(s: State) {
    Committed(s) && exists i :: 0 <= i < |s.procs| && s.procs[i].Clearing?
  }

  ghost predicate BlindFree(fixture: seq<Entry>, s: State, steps: seq<Step>)
    requires Valid(fixture, s, steps)
    decreases |steps|
  {
    steps == [] || (!Blind(s, steps[0]) && BlindFree(fixture, Apply(fixture, s, steps[0]), steps[1..]))
  }

  ghost predicate NeverAtRisk(fixture: seq<Entry>, s: State, steps: seq<Step>)
    requires Valid(fixture, s, steps)
    decreases |steps|
  {
    !AtRisk(s) && (steps == [] || NeverAtRisk(fixture, Apply(fixture, s, steps[0]), steps[1..]))
  }

  lemma ActKeepsCommit(fixture: seq<Entry>, lock: bool, repo: Repo, at: Point, a: Action)
    requires PointInv(fixture, repo, at) && CanAct(fixture, lock, repo, at, a)
    ensures var e := Act(fixture, lock, repo, at, a);
            && (repo.head.Some? && !at.Clearing? ==> e.repo == repo)
            && (repo.head.Some? && e.at.Clearing? && !at.Clearing? ==>
                  (at.ReStat? && a.StatMissed?) || (at.ReParse? && a.ParseMissed?))
            && (repo.head == None && e.repo.head.Some? ==> at.Committing?)
  {
  }

  /** One step: outside a blind re-check nothing starts to threaten a commit, and a commit that is
      not under threat survives with its whole repository untouched. */
  lemma StepKeepsCommit(fixture: seq<Entry>, s: State, step: Step)
    requires Inv(fixture, s) && Enabled(fixture, s, step) && !AtRisk(s)
    ensures var t := Apply(fixture, s, step);
            && (Committed(s) ==> t.repo == s.repo)
            && (AtRisk(t) <==> Blind(s, step))
  {
    var t := Apply(fixture, s, step);
    var at := s.procs[step.proc];
    ActKeepsCommit(fixture, s.lock, s.repo, at, step.action);
    if Blind(s, step) {
      assert t.procs[step.proc].Clearing?;
    }
    if !Committed(s) && Committed(t) {
      // the committing process holds the lock, so nobody else can be clearing
      forall i | 0 <= i < |t.procs| ensures !t.procs[i].Clearing? {
        if i != step.proc {
          assert t.procs[i] == s.procs[i] && Holds(at);
        }
      }
    }
  }

  /** The promise that a repository which has its commit is never cleared holds of a run exactly
      when no re-check under the lock overlooked a commit; `baselineSHA` does so whenever its git
      query fails, so the condition is that the query succeeds. */
  lemma {:induction false} SafeIffNeverBlind(fixture: seq<Entry>, s: State, steps: seq<Step>)
    requires Inv(fixture, s) && !AtRisk(s) && Valid(fixture, s, steps)
    ensures NeverAtRisk(fixture, s, steps) <==> BlindFree(fixture, s, steps)
    decreases |steps|
  {
    hide Inv, AtRisk, Apply, Enabled, Blind;
    if steps != [] {
      var t := Apply(fixture, s, steps[0]);
      StepKeepsInv(fixture, s, steps[0]);
      StepKeepsCommit(fixture, s, steps[0]);
      if AtRisk(t) {
        assert !NeverAtRisk(fixture, t, steps[1..]);
      } else {
        SafeIffNeverBlind(fixture, t, steps[1..]);
      }
    }
  }

  /** Under that condition a committed repository never changes again, in any continuation. */
  lemma {:induction false} CommitIsForever(fixture: seq<Entry>, s: State, steps: seq<Step>)
    requires Inv(fixture, s) && Committed(s) && !AtRisk(s)
    requires Valid(fixture, s, steps) && BlindFree(fixture, s, steps)
    ensures Exec(fixture, s, steps).repo == s.repo
    decreases |steps|
  {
    hide Inv, AtRisk, Apply, Enabled, Blind;
    if steps != [] {
      StepKeepsInv(fixture, s, steps[0]);
      StepKeepsCommit(fixture, s, steps[0]);
      CommitIsForever(fixture, Apply(fixture, s, steps[0]), steps[1..]);
    }
  }

  /** At risk means what it says: the very next step can erase the commit. */
  lemma AtRiskCanLose(fixture: seq<Entry>, s: State) returns (step: Step)
    requires AtRisk(s)
    ensures Enabled(fixture, s, step) && Apply(fixture, s, step).repo == Absent
  {
    var i: nat :| i < |s.procs| && s.procs[i].Clearing?;
    step := Step(i, ClearAll);
  }

  lemma {:induction false} Extend(fixture: seq<Entry>, s: State, steps: seq<Step>, step: Step)
    requires Valid(fixture, s, steps) && Enabled(fixture, Exec(fixture, s, steps), step)
    ensures Valid(fixture, s, steps + [step])
    ensures Exec(fixture, s, steps + [step]) == Apply(fixture, Exec(fixture, s, steps), step)
    decreases |steps|
  {
    hide Apply, Enabled;
    if steps == [] {
      assert steps + [step] == [step];
    } else {
      assert (steps + [step])[1..] == steps[1..] + [step];
      Extend(fixture, Apply(fixture, s, steps[0]), steps[1..], step);
    }
  }

  lemma Then(fixture: seq<Entry>, steps: seq<Step>, i: nat, a: Action) returns (longer: seq<Step>)
    requires Valid(fixture, Initial(2), steps) && Enabled(fixture, Exec(fixture, Initial(2), steps), Step(i, a))
    ensures Valid(fixture, Initial(2), longer)
    ensures Exec(fixture, Initial(2), longer) == Apply(fixture, Exec(fixture, Initial(2), steps), Step(i, a))
  {
    Extend(fixture, Initial(2), steps, Step(i, a));
    longer := steps + [Step(i, a)];
  }

  const SmallFixture := [Entry("main.go", "package main")]
  const SmallTree: Tree := map["main.go" := "package main"]
  const SmallRepo := Repo(true, SmallTree, SmallTree, Some(SmallTree))

  lemma FirstProcessClears() returns (steps: seq<Step>)
    ensures Valid(SmallFixture, Initial(2), steps)
    ensures Exec(SmallFixture, Initial(2), steps) == State(true, Absent, [Initialising, FastStat])
  {
    steps := [];
    steps := Then(SmallFixture, steps, 0, StatMissed);
    steps := Then(SmallFixture, steps, 0, Acquire);
    steps := Then(SmallFixture, steps, 0, StatMissed);
    steps := Then(SmallFixture, steps, 0, ClearAll);
  }

  lemma FirstProcessStages() returns (steps: seq<Step>)
    ensures Valid(SmallFixture, Initial(2), steps)
    ensures Exec(SmallFixture, Initial(2), steps) ==
            State(true, Repo(true, SmallTree, SmallTree, None), [Committing, FastStat])
  {
    steps := FirstProcessClears();
    steps := Then(SmallFixture, steps, 0, InitOk);
    steps := Then(SmallFixture, steps, 0, WriteOk);
    steps := Then(SmallFixture, steps, 0, AddOk);
  }

  lemma FirstProcessCommits() returns (steps: seq<Step>)
    ensures Valid(SmallFixture, Initial(2), steps)
    ensures Exec(SmallFixture, Initial(2), steps) == State(false, SmallRepo, [Done(Some(SmallTree)), FastStat])
  {
    steps := FirstProcessStages();
    assert "main.go" in SmallTree;
    steps := Then(SmallFixture, steps, 0, CommitOk);
    steps := Then(SmallFixture, steps, 0, HeadRead);
    steps := Then(SmallFixture, steps, 0, Release);
  }

  /** Without that condition the promise fails: one process has returned the baseline, a second one
      whose git query fails, first unlocked and then under the lock, erases the repository. */
  lemma BlindRecheckErasesCommit() returns (steps: seq<Step>)
    ensures Valid(SmallFixture, Initial(2), steps)
    ensures var s := Exec(SmallFixture, Initial(2), steps);
            |s.procs| == 2 && s.procs[0] == Done(Some(TreeOf(SmallFixture))) && s.repo == Absent
  {
    steps := FirstProcessCommits();
    steps := Then(SmallFixture, steps, 1, StatFound);
    steps := Then(SmallFixture, steps, 1, ParseMissed);
    steps := Then(SmallFixture, steps, 1, Acquire);
    steps := Then(SmallFixture, steps, 1, StatFound);
    steps := Then(SmallFixture, steps, 1, ParseMissed);
    steps := Then(SmallFixture, steps, 1, ClearAll);
    assert SmallFixture[..0] == [];
  }

  // ---------------------------------------------------------------- stale locks

  /** The lock file is there and nobody is going to remove it. */
  ghost predicate Stale(s: State) {
    s.lock && forall i :: 0 <= i < |s.procs| && Holds(s.procs[i]) ==> s.procs[i].Crashed?
  }

  /** What a process that is not inside may still do when the lock is stale: it ends, without a baseline
      unless the commit has landed. */
  lemma StuckAct(fixture: seq<Entry>, lock: bool, repo: Repo, at: Point, a: Action)
    requires CanAct(fixture, lock, repo, at, a) && lock && (Holds(at) ==> at.Crashed?)
    ensures var e := Act(fixture, lock, repo, at, a);
            && e.lock && e.repo == repo && !Holds(e.at) && !at.Done? && !at.Crashed?
            && (repo.head == None && e.at.Done? ==> e.at.baseline == None)
  {
  }

  /** A stale lock stays for good: in every continuation nobody gets in, the repository stays as it was left,
      and no process returns a new baseline unless the commit had already landed. */
  lemma {:induction false} StaleLockBlocksForEver(fixture: seq<Entry>, s: State, steps: seq<Step>, i: nat)
    requires Stale(s) && Valid(fixture, s, steps) && i < |s.procs|
    ensures var t := Exec(fixture, s, steps);
            && |t.procs| == |s.procs| && Stale(t) && t.repo == s.repo
            && (Holds(t.procs[i]) <==> Holds(s.procs[i]))
            && (s.procs[i].Done? || s.procs[i].Crashed? ==> t.procs[i] == s.procs[i])
            && (!Committed(s) && t.procs[i].Done? && t.procs[i].baseline.Some? ==> t.procs[i] == s.procs[i])
    decreases |steps|
  {
    if steps != [] {
      StuckAct(fixture, s.lock, s.repo, s.procs[steps[0].proc], steps[0].action);
      hide Act, CanAct, Holds;
      StaleLockBlocksForEver(fixture, Apply(fixture, s, steps[0]), steps[1..], i);
    }
  }

  /** The lock file changes hands in two ways only: `Acquire` creates it where there is none, and `Release`
      removes it. No failure and no crash removes it. */
  lemma OnlyReleaseFreesTheLock(fixture: seq<Entry>, s: State, step: Step)
    requires Inv(fixture, s) && Enabled(fixture, s, step)
    ensures s.lock && !Apply(fixture, s, step).lock <==> step.action.Release?
    ensures !s.lock && Apply(fixture, s, step).lock <==> step.action.Acquire?
  {
    assert step.action.Release? ==> Holds(s.procs[step.proc]);
  }

  /** A crash between lock and unlock is remembered as one, with the lock file and the repository left as
      they are. */
  lemma CrashInside(fixture: seq<Entry>, s: State, step: Step)
    requires Inv(fixture, s) && Enabled(fixture, s, step) && step.action.Crash? && Holds(s.procs[step.proc])
    ensures var t := Apply(fixture, s, step);
            t.procs[step.proc] == Crashed(true) && t.lock && Stale(t) && t.repo == s.repo
  {
    var t := Apply(fixture, s, step);
    StepKeepsInv(fixture, s, step);
    CrashLeavesStaleLock(fixture, t, step.proc);
  }

  /** A crash outside leaves everything as it is, and nobody waits for it. */
  lemma CrashOutside(fixture: seq<Entry>, s: State, step: Step)
    requires Inv(fixture, s) && Enabled(fixture, s, step) && step.action.Crash? && !Holds(s.procs[step.proc])
    ensures var t := Apply(fixture, s, step);
            && t.procs[step.proc].Crashed? && !Holds(t.procs[step.proc]) && t.lock == s.lock && t.repo == s.repo
            && (Stale(t) <==> Stale(s))
  {
    var t := Apply(fixture, s, step);
    assert forall i :: 0 <= i < |s.procs| && i != step.proc ==> t.procs[i] == s.procs[i];
    if Stale(t) {
      forall i | 0 <= i < |s.procs| && Holds(s.procs[i]) ensures s.procs[i].Crashed? {
        assert t.procs[i] == s.procs[i];
      }
    }
  }

  /** A process that has crashed inside leaves the lock stale. */
  lemma CrashLeavesStaleLock(fixture: seq<Entry>, s: State, dead: nat)
    requires Inv(fixture, s) && dead < |s.procs| && s.procs[dead] == Crashed(true)
    ensures Stale(s) && forall i :: 0 <= i < |s.procs| && Holds(s.procs[i]) ==> i == dead
  {
    assert Holds(s.procs[dead]);
  }

  /** So does one that cannot remove it: nobody is inside, and the lock file is there. */
  lemma FailedReleaseLeavesStaleLock(fixture: seq<Entry>, s: State, step: Step)
    requires Inv(fixture, s) && Enabled(fixture, s, step) && step.action.ReleaseFail?
    ensures Stale(Apply(fixture, s, step)) && forall p :: p in Apply(fixture, s, step).procs ==> !Holds(p)
  {
    var t := Apply(fixture, s, step);
    assert Holds(s.procs[step.proc]);
    forall i | 0 <= i < |t.procs| ensures !Holds(t.procs[i]) {
    }
  }

  /** In every continuation of a run in which a process crashed inside, nobody else gets in, the repository
      stays as it was left, and no process returns a new baseline unless the commit had already landed. */
  lemma CrashInsideBlocksForEver(fixture: seq<Entry>, s: State, steps: seq<Step>, dead: nat, i: nat)
    requires Inv(fixture, s) && Valid(fixture, s, steps)
    requires dead < |s.procs| && i < |s.procs| && i != dead && s.procs[dead] == Crashed(true)
    ensures var t := Exec(fixture, s, steps);
            && |t.procs| == |s.procs| && t.procs[dead] == Crashed(true) && t.lock && t.repo == s.repo
            && !Holds(t.procs[i])
            && (!Committed(s) && t.procs[i].Done? && t.procs[i].baseline.Some? ==> s.procs[i] == t.procs[i])
  {
    hide Inv, Enabled, Apply;
    CrashLeavesStaleLock(fixture, s, dead);
    StaleLockBlocksForEver(fixture, s, steps, dead);
    StaleLockBlocksForEver(fixture, s, steps, i);
  }

  lemma {:induction false} SplitRun(fixture: seq<Entry>, s: State, first: seq<Step>, rest: seq<Step>)
    requires Valid(fixture, s, first + rest)
    ensures Valid(fixture, s, first) && Valid(fixture, Exec(fixture, s, first), rest)
    ensures Exec(fixture, s, first + rest) == Exec(fixture, Exec(fixture, s, first), rest)
    decreases |first|
  {
    hide Enabled, Apply;
    if first == [] {
      assert first + rest == rest;
    } else {
      assert (first + rest)[1..] == first[1..] + rest;
      SplitRun(fixture, Apply(fixture, s, first[0]), first[1..], rest);
    }
  }

  /** Of every run in which a process crashes between lock and unlock: from then on nobody else is inside,
      the lock file stays, the repository is as the crash left it, and no process returns a new baseline
      unless the commit had already landed. */
  lemma CrashedRunBlocksForEver(fixture: seq<Entry>, n: nat, before: seq<Step>, dead: nat, after: seq<Step>, i: nat)
    requires Valid(fixture, Initial(n), before + ([Step(dead, Crash)] + after))
    requires Valid(fixture, Initial(n), before)
    requires var s := Exec(fixture, Initial(n), before);
             dead < |s.procs| && i < |s.procs| && i != dead && Holds(s.procs[dead])
    ensures var s, t := Exec(fixture, Initial(n), before), Exec(fixture, Initial(n), before + ([Step(dead, Crash)] + after));
            && |t.procs| == |s.procs| && t.procs[dead] == Crashed(true) && t.lock && t.repo == s.repo
            && !Holds(t.procs[i])
            && (!Committed(s) && t.procs[i].Done? && t.procs[i].baseline.Some? ==> s.procs[i] == t.procs[i])
  {
    hide Inv, Enabled, Apply, Holds;
    StartIsSound(fixture, n);
    SplitRun(fixture, Initial(n), before, [Step(dead, Crash)] + after);
    RunKeepsInv(fixture, Initial(n), before);
    var s := Exec(fixture, Initial(n), before);
    assert ([Step(dead, Crash)] + after)[1..] == after;
    CrashInside(fixture, s, Step(dead, Crash));
    StepKeepsInv(fixture, s, Step(dead, Crash));
    CrashChangesOne(fixture, s, dead);
    CrashInsideBlocksForEver(fixture, Apply(fixture, s, Step(dead, Crash)), after, dead, i);
  }

  lemma StartIsSound(fixture: seq<Entry>, n: nat)
    ensures Inv(fixture, Initial(n))
  {
  }

  lemma CrashChangesOne(fixture: seq<Entry>, s: State, dead: nat)
    requires Enabled(fixture, s, Step(dead, Crash))
    ensures var t := Apply(fixture, s, Step(dead, Crash));
            |t.procs| == |s.procs| && forall i :: 0 <= i < |s.procs| && i != dead ==> t.procs[i] == s.procs[i]
  {
  }

  // ---------------------------------------------------------------- recovery

  lemma {:induction false} TreeIsEmptyOnlyForNothing(fixture: seq<Entry>)
    requires fixture != []
    ensures fixture[|fixture| - 1].path in TreeOf(fixture)
  {
  }

  lemma Prepend(fixture: seq<Entry>, s: State, step: Step, rest: seq<Step>)
    requires Enabled(fixture, s, step) && Valid(fixture, Apply(fixture, s, step), rest)
    ensures Valid(fixture, s, [step] + rest)
    ensures Exec(fixture, s, [step] + rest) == Exec(fixture, Apply(fixture, s, step), rest)
  {
    assert ([step] + rest)[1..] == rest;
  }

  /** The action with which a process succeeds at its program point, observing the repository as
      it is. */
  function Honest(fixture: seq<Entry>, repo: Repo, at: Point): Action {
    match at
    case FastStat | ReStat => if repo.hasGit then StatFound else StatMissed
    case FastParse | ReParse => if repo.head.Some? then ParseFound else ParseMissed
    case WantLock => Acquire
    case Clearing => ClearAll
    case Initialising => InitOk
    case Writing(count) => if count < |fixture| then WriteOk else AddOk
    case Committing => CommitOk
    case ReadingHead => HeadRead
    case _ => Release
  }

  function Remaining(fixture: seq<Entry>, at: Point): nat {
    match at
    case FastStat => |fixture| + 12
    case FastParse => |fixture| + 11
    case WantLock => |fixture| + 10
    case ReStat => |fixture| + 9
    case ReParse => |fixture| + 8
    case Clearing => |fixture| + 7
    case Initialising => |fixture| + 6
    case Writing(count) => if count <= |fixture| then |fixture| - count + 4 else 4
    case Committing => 3
    case ReadingHead => 2
    case Releasing(_) => 1
    case _ => 0
  }

  predicate Succeeding(at: Point) {
    !at.Crashed? && (at.Done? ==> at.baseline.Some?) && (at.Releasing? ==> at.result.Some?)
  }

  lemma HonestActSucceeds(fixture: seq<Entry>, lock: bool, repo: Repo, at: Point)
    requires fixture != [] && PointInv(fixture, repo, at) && Succeeding(at) && !at.Done?
    requires at.WantLock? ==> !lock
    ensures var a := Honest(fixture, repo, at);
            && CanAct(fixture, lock, repo, at, a)
            && Succeeding(Act(fixture, lock, repo, at, a).at)
            && Remaining(fixture, Act(fixture, lock, repo, at, a).at) < Remaining(fixture, at)
            && (!Holds(at) && !lock && !Act(fixture, lock, repo, at, a).at.ReStat? ==>
                  !Act(fixture, lock, repo, at, a).lock)
  {
    TreeIsEmptyOnlyForNothing(fixture);
  }

  /** A repository with its commit is reused: a process that sees it needs neither the lock nor any change, and
      it does not matter whether the lock is free, held or stale. */
  lemma FastPathNeedsNoLock(fixture: seq<Entry>, s: State, i: nat)
    requires i < |s.procs| && s.procs[i].FastStat? && s.repo.hasGit && Committed(s)
    ensures var steps := [Step(i, StatFound), Step(i, ParseFound)];
            Valid(fixture, s, steps) && Exec(fixture, s, steps) == s.(procs := s.procs[i := Done(s.repo.head)])
  {
    var found, parsed := Step(i, StatFound), Step(i, ParseFound);
    var t := Apply(fixture, s, found);
    Prepend(fixture, t, parsed, []);
    assert [parsed] + [] == [parsed] && [found] + [parsed] == [found, parsed];
    Prepend(fixture, s, found, [parsed]);
    assert s.procs[i := FastParse][i := Done(s.repo.head)] == s.procs[i := Done(s.repo.head)];
  }

  /** A commit that landed although git reported a failure is not lost: the process fails, and the next one finds
      a committed repository. */
  lemma UnreportedCommitIsThere(fixture: seq<Entry>, s: State, step: Step)
    requires Inv(fixture, s) && Enabled(fixture, s, step) && step.action.CommitUnreported?
    ensures var t := Apply(fixture, s, step);
            t.procs[step.proc] == Releasing(None) && t.repo.hasGit == s.repo.hasGit && t.repo.head == Some(TreeOf(fixture))
  {
    hide TreeOf;
  }

  lemma HonestKeepsCommit(fixture: seq<Entry>, lock: bool, repo: Repo, at: Point)
    requires PointInv(fixture, repo, at) && repo.hasGit && repo.head.Some? && !at.Clearing?
    requires CanAct(fixture, lock, repo, at, Honest(fixture, repo, at))
    ensures var e := Act(fixture, lock, repo, at, Honest(fixture, repo, at)); e.repo == repo && !e.at.Clearing?
  {
  }

  /** Whatever crashed or failed before, and whatever it left behind: while the lock is free (or
      held by the process itself) a process left alone, whose commands succeed, ends with the
      complete fixture's commit. A repository that has its commit is left as it is. */
  lemma {:induction false} LoneProcessRecovers(fixture: seq<Entry>, s: State, i: nat) returns (steps: seq<Step>)
    requires fixture != [] && Inv(fixture, s) && i < |s.procs| && Succeeding(s.procs[i])
    requires !s.lock || Holds(s.procs[i])
    ensures Valid(fixture, s, steps) && forall k :: 0 <= k < |steps| ==> steps[k].proc == i
    ensures i < |Exec(fixture, s, steps).procs|
    ensures Exec(fixture, s, steps).procs[i] == Done(Some(TreeOf(fixture)))
    ensures s.repo.hasGit && Committed(s) && !s.procs[i].Clearing? ==> Exec(fixture, s, steps).repo == s.repo
    decreases Remaining(fixture, s.procs[i])
  {
    var at := s.procs[i];
    if at.Done? {
      steps := [];
    } else {
      var step := Step(i, Honest(fixture, s.repo, at));
      HonestActSucceeds(fixture, s.lock, s.repo, at);
      if s.repo.hasGit && Committed(s) && !at.Clearing? {
        HonestKeepsCommit(fixture, s.lock, s.repo, at);
      }
      ActRespectsLock(fixture, s.lock, s.repo, at, step.action);
      StepKeepsInv(fixture, s, step);
      var rest := LoneProcessRecovers(fixture, Apply(fixture, s, step), i);
      Prepend(fixture, s, step, rest);
      steps := [step] + rest;
    }
  }
}
