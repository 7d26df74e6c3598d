/** How a run's outcome is decided while the child, its session's context, a deadline timer, a cancellation
    watcher, the event drain, Wait and the validators interleave. Every `Step` is one atomic action of one
    of them. */
module RunOutcome {
  import opened Options

  datatype ValidatorStatus = Passed | Failed | Errored | TimedOut | Skipped
  datatype RunStatus = RunPassed | RunFailed | RunError | RunTimeout

  /** Why a context ended. */
  datatype Cause = Canceled | DeadlineExceeded
  datatype WaitError = NoError | Ended(cause: Cause) | OtherError

  /** A callback of the timer or of the watcher: it loads `drainDone`, stores its flag, and kills. */
  datatype Callback = Idle | Loading | Storing | Killing | Over

  /** A callback with the flag it puts up. */
  datatype Alarm = Alarm(at: Callback, up: bool)

  /** The program points of `Run` from the drain to the choice of a status, those of Wait among them. */
  datatype Point =
    | Draining | StoringDone | StoppingWatcher
    | Selecting | KillingInWait | AwaitingReap
    | StoppingTimer | ReadingCancelled
    | Capturing | Rechecking | NextValidator | RunningValidator | LastRecheck | Choosing
    | Decided(status: RunStatus)
    | Aborted

  datatype ExitResult = Exit(code: int) | WaitFailed

  /** An ended child remembers whether no signal had been sent to it (`own`) and whether the task's deadline
      had not passed yet (`early`). */
  datatype Child = Alive | Gone(result: ExitResult, own: bool, early: bool)

  /** What lies outside `Run`: the child and its reaper, the clock, the request's context and the session's
      own, which ends with the request's or at the task's deadline. */
  datatype Session = Session(child: Child, reaped: bool, signalled: bool, deadline: bool, request: Option<Cause>,
                             context: Option<Cause>)

  /** What `Run` itself has decided so far. `doneAtRecheck` records whether the request's context had ended
      when the last re-check looked. */
  datatype Main = Main(at: Point, exitCode: int, waitErr: WaitError, cancelledRun: bool, results: seq<ValidatorStatus>,
                       started: set<nat>, doneAtRecheck: bool)

  datatype State = State(ses: Session, drainDone: bool, timer: Alarm, watcher: Alarm, main: Main)

  /** The task: how many validators it has, and whether a requirement of theirs is missing. */
  datatype Task = Task(validators: nat, missing: bool)

  const INITIAL := State(Session(Alive, false, false, false, None, None), false, Alarm(Idle, false), Alarm(Idle, false),
                         Main(Draining, 0, NoError, false, [], {}, false))

  datatype SessionStep = ChildEnds(result: ExitResult) | Reap | DeadlinePasses | RequestEnds(cause: Cause) | ContextExpires
  datatype AlarmStep = Fire | Load | Store | Kill
  datatype MainStep =
    | DrainEnds
    | DrainEndsUnopened   // the tailer could not open its file: Events closes although the child may run
    | StoreDone | StopWatcher
    | SelectReaped | SelectContext | WaitKills | WaitReaped
    | StopTimer | ReadCancelled
    | CaptureEnds | Recheck | SkipValidator | StartValidator | ValidatorEnds(status: ValidatorStatus) | ValidatorsEnd
    | RecheckLast | Choose
    | IoFails             // any error that makes the whole run return without a result
  datatype Step = World(w: SessionStep) | Timer(a: AlarmStep) | Watcher(a: AlarmStep) | Run(m: MainStep)

  /** `validatorsFailed`'s notion of a status that blocks a pass. */
  predicate Blocks(s: ValidatorStatus) {
    s == Failed || s == Errored || s == TimedOut
  }

  predicate AnyBlocks(results: seq<ValidatorStatus>) {
    exists i :: 0 <= i < |results| && Blocks(results[i])
  }

  /** The switch at the end of `Run`. */
  function StatusOf(timedOut: bool, cancelledRun: bool, waitErr: WaitError, exitCode: int, results: seq<ValidatorStatus>): RunStatus {
    if timedOut || waitErr == Ended(DeadlineExceeded) then RunTimeout
    else if cancelledRun then RunError
    else if waitErr != NoError then RunError
    else if exitCode != 0 then RunError
    else if AnyBlocks(results) then RunFailed
    else RunPassed
  }

  predicate SessionEnabled(e: Session, step: SessionStep) {
    match step
    case ChildEnds(_) => e.child.Alive?
    case Reap => e.child.Gone? && !e.reaped
    case DeadlinePasses => !e.deadline
    case RequestEnds(_) => e.request.None?
    case ContextExpires => e.deadline && e.context.None?
  }

  function SessionApply(e: Session, step: SessionStep): Session {
    match step
    case ChildEnds(result) => e.(child := Gone(result, !e.signalled, !e.deadline))
    case Reap => e.(reaped := true)
    case DeadlinePasses => e.(deadline := true)
    case RequestEnds(cause) => e.(request := Some(cause), context := if e.context.None? then Some(cause) else e.context)
    case ContextExpires => e.(context := Some(DeadlineExceeded))
  }

  /** `Kill`: once the child has been reaped nothing is signalled any more. */
  function Signal(e: Session): Session {
    if e.reaped then e else e.(signalled := true)
  }

  predicate AlarmEnabled(a: Alarm, step: AlarmStep, due: bool) {
    match step
    case Fire => a.at == Idle && due
    case Load => a.at == Loading
    case Store => a.at == Storing
    case Kill => a.at == Killing
  }

  function AlarmApply(a: Alarm, step: AlarmStep, drainDone: bool): Alarm {
    match step
    case Fire => a.(at := Loading)
    case Load => a.(at := if drainDone then Over else Storing)
    case Store => Alarm(Killing, true)
    case Kill => a.(at := Over)
  }

  /** Stopping keeps a callback from firing; one that has fired goes on. */
  function Stopped(a: Alarm): Alarm {
    if a.at == Idle then a.(at := Over) else a
  }

  predicate MainEnabled(task: Task, m: Main, step: MainStep, e: Session) {
    match step
    case DrainEnds => m.at == Draining && e.reaped
    case DrainEndsUnopened => m.at == Draining
    case StoreDone => m.at == StoringDone
    case StopWatcher => m.at == StoppingWatcher
    case SelectReaped => m.at == Selecting && e.reaped && e.child.Gone?
    case SelectContext => m.at == Selecting && e.context.Some?
    case WaitKills => m.at == KillingInWait
    case WaitReaped => m.at == AwaitingReap && e.reaped
    case StopTimer => m.at == StoppingTimer
    case ReadCancelled => m.at == ReadingCancelled
    case CaptureEnds => m.at == Capturing
    case Recheck => m.at == Rechecking
    case SkipValidator => m.at == NextValidator && |m.results| < task.validators && (task.missing || e.request.Some?)
    case StartValidator => m.at == NextValidator && |m.results| < task.validators && !task.missing && e.request.None?
    case ValidatorEnds(status) => m.at == RunningValidator && status != Skipped
    case ValidatorsEnd => m.at == NextValidator && |m.results| == task.validators
    case RecheckLast => m.at == LastRecheck
    case Choose => m.at == Choosing
    case IoFails => !m.at.Decided? && !m.at.Aborted?
  }

  /** What Wait makes of the reaped child. */
  function Reaped(m: Main, result: ExitResult): Main {
    match result
    case Exit(code) => m.(exitCode := code, waitErr := NoError, at := StoppingTimer)
    case WaitFailed => m.(exitCode := -1, waitErr := OtherError, at := StoppingTimer)
  }

  function MainApply(task: Task, m: Main, step: MainStep, e: Session, timedOut: bool, cancelled: bool): Main
    requires MainEnabled(task, m, step, e)
  {
    var done := e.request.Some?;
    match step
    case DrainEnds | DrainEndsUnopened => m.(at := StoringDone)
    case StoreDone => m.(at := StoppingWatcher)
    case StopWatcher => m.(at := Selecting)
    case SelectReaped => Reaped(m, e.child.result)
    case SelectContext => m.(exitCode := -1, waitErr := Ended(e.context.value), at := KillingInWait)
    case WaitKills => m.(at := AwaitingReap)
    case WaitReaped => m.(at := StoppingTimer)
    case StopTimer => m.(at := ReadingCancelled)
    case ReadCancelled => m.(cancelledRun := cancelled || m.waitErr == Ended(Canceled), at := Capturing)
    case CaptureEnds => m.(at := Rechecking)
    case Recheck => m.(cancelledRun := m.cancelledRun || done, at := if m.cancelledRun || done then LastRecheck else NextValidator)
    case SkipValidator => m.(results := m.results + [Skipped])
    case StartValidator => m.(started := m.started + {|m.results|}, at := RunningValidator)
    case ValidatorEnds(status) => m.(results := m.results + [status], at := NextValidator)
    case ValidatorsEnd => m.(at := LastRecheck)
    case RecheckLast => m.(cancelledRun := m.cancelledRun || done, doneAtRecheck := done, at := Choosing)
    case Choose => m.(at := Decided(StatusOf(timedOut, m.cancelledRun, m.waitErr, m.exitCode, m.results)))
    case IoFails => m.(at := Aborted)
  }

  predicate Enabled(task: Task, s: State, step: Step) {
    match step
    case World(w) => SessionEnabled(s.ses, w)
    case Timer(a) => AlarmEnabled(s.timer, a, s.ses.deadline)
    case Watcher(a) => AlarmEnabled(s.watcher, a, s.ses.request.Some?)
    case Run(m) => MainEnabled(task, s.main, m, s.ses)
  }

  function Apply(task: Task, s: State, step: Step): State
    requires Enabled(task, s, step)
  {
    match step
    case World(w) => s.(ses := SessionApply(s.ses, w))
    case Timer(a) => s.(timer := AlarmApply(s.timer, a, s.drainDone), ses := if a == Kill then Signal(s.ses) else s.ses)
    case Watcher(a) => s.(watcher := AlarmApply(s.watcher, a, s.drainDone), ses := if a == Kill then Signal(s.ses) else s.ses)
    case Run(m) =>
      State(if m == WaitKills then Signal(s.ses) else s.ses, s.drainDone || m == StoreDone,
            if m == StopTimer then Stopped(s.timer) else s.timer,
            if m == StopWatcher then Stopped(s.watcher) else s.watcher,
            MainApply(task, s.main, m, s.ses, s.timer.up, s.watcher.up))
  }

  // ---------------------------------------------------------------- runs

  ghost predicate CanRun(task: Task, s: State, steps: seq<Step>)
    decreases |steps|
  {
    steps == [] || (Enabled(task, s, steps[0]) && CanRun(task, Apply(task, s, steps[0]), steps[1..]))
  }

  ghost function After(task: Task, s: State, steps: seq<Step>): State
    requires CanRun(task, s, steps)
    decreases |steps|
  {
    if steps == [] then s else After(task, Apply(task, s, steps[0]), steps[1..])
  }

  ghost predicate Reachable(task: Task, s: State) {
    exists steps :: CanRun(task, INITIAL, steps) && After(task, INITIAL, steps) == s
  }

  // ---------------------------------------------------------------- what every step keeps

  /** The last re-check is not forgotten, and a decided status is the switch's, on a timeout flag that was
      up no later than now. */
  ghost predicate OutcomeKept(m: Main, timedOut: bool) {
    && (m.doneAtRecheck ==> m.cancelledRun && (m.at.Choosing? || m.at.Decided? || m.at.Aborted?))
    && (m.at.Decided? ==>
          exists seen :: (seen ==> timedOut) && m.at.status == StatusOf(seen, m.cancelledRun, m.waitErr, m.exitCode, m.results))
  }

  /** A validator has a result of its own exactly if it was started; the others are skipped. */
  ghost predicate ResultsKept(task: Task, m: Main) {
    && |m.results| <= task.validators
    && (m.at.RunningValidator? ==> |m.results| < task.validators && |m.results| in m.started)
    && (forall i :: i in m.started ==> i < |m.results| || (i == |m.results| && (m.at.RunningValidator? || m.at.Aborted?)))
    && (forall i :: 0 <= i < |m.results| ==> (m.results[i] == Skipped <==> i !in m.started))
  }

  predicate AnySkipped(results: seq<ValidatorStatus>) {
    exists i :: 0 <= i < |results| && results[i] == Skipped
  }

  /** Only a missing requirement or the end of the request's context skips a validator, and an uncancelled
      run that is past its validators has a result for each. */
  ghost predicate SkipsKept(task: Task, m: Main, requestEnded: bool) {
    && (AnySkipped(m.results) ==> task.missing || requestEnded)
    && (m.at.LastRecheck? || m.at.Choosing? || m.at.Decided? ==> m.cancelledRun || |m.results| == task.validators)
    && (m.at.Choosing? || m.at.Decided? ==> m.cancelledRun || task.missing || !AnySkipped(m.results))
  }

  ghost predicate Inv(task: Task, s: State) {
    && OutcomeKept(s.main, s.timer.up) && ResultsKept(task, s.main)
    && SkipsKept(task, s.main, s.ses.request.Some?)
  }

  lemma OutcomeStep(task: Task, m: Main, step: MainStep, e: Session, timedOut: bool, cancelled: bool)
    requires OutcomeKept(m, timedOut) && MainEnabled(task, m, step, e)
    ensures OutcomeKept(MainApply(task, m, step, e, timedOut, cancelled), timedOut)
  {
    hide StatusOf;
  }

  lemma ResultsStep(task: Task, m: Main, step: MainStep, e: Session, timedOut: bool, cancelled: bool)
    requires ResultsKept(task, m) && MainEnabled(task, m, step, e)
    ensures ResultsKept(task, MainApply(task, m, step, e, timedOut, cancelled))
  {
    hide StatusOf;
  }

  lemma SkipsStep(task: Task, m: Main, step: MainStep, e: Session, timedOut: bool, cancelled: bool)
    requires SkipsKept(task, m, e.request.Some?) && MainEnabled(task, m, step, e)
    ensures SkipsKept(task, MainApply(task, m, step, e, timedOut, cancelled), e.request.Some?)
  {
    hide StatusOf, AnySkipped;
    OneMoreResult(m.results, Skipped);
    if step.ValidatorEnds? {
      OneMoreResult(m.results, step.status);
    }
  }

  lemma OneMoreResult(results: seq<ValidatorStatus>, status: ValidatorStatus)
    ensures AnySkipped(results + [status]) <==> AnySkipped(results) || status == Skipped
  {
    var more := results + [status];
    assert more[|results|] == status;
    if i :| 0 <= i < |results| && results[i] == Skipped {
      assert more[i] == Skipped;
    }
  }

  lemma StepKeepsInv(task: Task, s: State, step: Step)
    requires Inv(task, s) && Enabled(task, s, step)
    ensures Inv(task, Apply(task, s, step))
  {
    hide MainEnabled, MainApply, ResultsKept, StatusOf, AnySkipped;
    match step
    case Run(m) =>
      OutcomeStep(task, s.main, m, s.ses, s.timer.up, s.watcher.up);
      ResultsStep(task, s.main, m, s.ses, s.timer.up, s.watcher.up);
      SkipsStep(task, s.main, m, s.ses, s.timer.up, s.watcher.up);
      hide OutcomeKept, SkipsKept;
    case _ =>
  }

  lemma {:induction false} RunKeepsInv(task: Task, s: State, steps: seq<Step>)
    requires Inv(task, s) && CanRun(task, s, steps)
    ensures Inv(task, After(task, s, steps))
    decreases |steps|
  {
    hide Inv, Enabled, Apply;
    if steps != [] {
      StepKeepsInv(task, s, steps[0]);
      RunKeepsInv(task, Apply(task, s, steps[0]), steps[1..]);
    }
  }

  lemma ReachableInv(task: Task, s: State)
    requires Reachable(task, s)
    ensures Inv(task, s)
  {
    hide Enabled, Apply;
    var steps :| CanRun(task, INITIAL, steps) && After(task, INITIAL, steps) == s;
    RunKeepsInv(task, INITIAL, steps);
  }

  // ---------------------------------------------------------------- cutting and extending runs

  lemma {:induction false} SplitRun(task: Task, s: State, first: seq<Step>, rest: seq<Step>)
    requires CanRun(task, s, first + rest)
    ensures CanRun(task, s, first) && CanRun(task, After(task, s, first), rest)
    ensures After(task, s, first + rest) == After(task, After(task, s, first), rest)
    decreases |first|
  {
    hide Enabled, Apply;
    if first == [] {
      assert first + rest == rest;
    } else {
      assert (first + rest)[1..] == first[1..] + rest;
      SplitRun(task, Apply(task, s, first[0]), first[1..], rest);
    }
  }

  lemma {:induction false} ExtendRun(task: Task, s: State, steps: seq<Step>, step: Step)
    requires CanRun(task, s, steps) && Enabled(task, After(task, s, steps), step)
    ensures CanRun(task, s, steps + [step])
    ensures After(task, s, steps + [step]) == Apply(task, After(task, s, steps), step)
    decreases |steps|
  {
    hide Enabled, Apply;
    if steps == [] {
      assert [step][1..] == [];
    } else {
      ExtendRun(task, Apply(task, s, steps[0]), steps[1..], step);
      assert (steps + [step])[1..] == steps[1..] + [step];
    }
  }

  /** A run and its last step. */
  lemma LastStep(task: Task, s: State, steps: seq<Step>, step: Step)
    requires CanRun(task, s, steps + [step])
    ensures CanRun(task, s, steps) && Enabled(task, After(task, s, steps), step)
    ensures After(task, s, steps + [step]) == Apply(task, After(task, s, steps), step)
  {
    hide Enabled, Apply;
    SplitRun(task, s, steps, [step]);
    ExtendRun(task, s, steps, step);
  }

  // ---------------------------------------------------------------- cancellation

  lemma RecheckIsRemembered(task: Task, s: State, step: Step)
    requires Inv(task, s) && s.main.doneAtRecheck && Enabled(task, s, step)
    ensures Apply(task, s, step).main.doneAtRecheck
  {
    hide StatusOf, ResultsKept, SkipsKept, AlarmApply, AlarmEnabled, SessionApply, SessionEnabled;
  }

  lemma {:induction false} RecheckStaysRemembered(task: Task, s: State, steps: seq<Step>)
    requires Inv(task, s) && s.main.doneAtRecheck && CanRun(task, s, steps)
    ensures After(task, s, steps).main.doneAtRecheck && Inv(task, After(task, s, steps))
    decreases |steps|
  {
    hide Inv, Enabled, Apply;
    if steps != [] {
      RecheckIsRemembered(task, s, steps[0]);
      StepKeepsInv(task, s, steps[0]);
      RecheckStaysRemembered(task, Apply(task, s, steps[0]), steps[1..]);
    }
  }

  /** However a run interleaves: if the request's context has ended when the last re-check looks, the run is
      never recorded as passed or failed, only as an error or a timeout. */
  lemma CancelledRunIsErrorOrTimeout(task: Task, before: seq<Step>, after: seq<Step>)
    requires CanRun(task, INITIAL, before + ([Run(RecheckLast)] + after))
    requires CanRun(task, INITIAL, before) && After(task, INITIAL, before).ses.request.Some?
    ensures var m := After(task, INITIAL, before + ([Run(RecheckLast)] + after)).main;
            m.at.Decided? ==> m.at.status == RunError || m.at.status == RunTimeout
  {
    hide Apply, Enabled;
    SplitRun(task, INITIAL, before, [Run(RecheckLast)] + after);
    var s := After(task, INITIAL, before);
    RunKeepsInv(task, INITIAL, before);
    var rest := [Run(RecheckLast)] + after;
    assert rest[1..] == after;
    var t := Apply(task, s, Run(RecheckLast));
    StepKeepsInv(task, s, Run(RecheckLast));
    assert t.main.doneAtRecheck by {
      LastRecheckLooks(task, s);
    }
    RecheckStaysRemembered(task, t, after);
  }

  lemma LastRecheckLooks(task: Task, s: State)
    requires Enabled(task, s, Run(RecheckLast))
    ensures Apply(task, s, Run(RecheckLast)).main.doneAtRecheck == s.ses.request.Some?
  {
  }

  lemma RequestStaysEnded(task: Task, s: State, step: Step)
    requires s.ses.request.Some? && Enabled(task, s, step)
    ensures var t := Apply(task, s, step);
            t.ses.request.Some? && t.main.started == s.main.started && s.main.results <= t.main.results
  {
    hide StatusOf, AlarmApply, AlarmEnabled;
  }

  lemma {:induction false} StartedStays(task: Task, s: State, steps: seq<Step>)
    requires s.ses.request.Some? && CanRun(task, s, steps)
    ensures After(task, s, steps).main.started == s.main.started
    ensures s.main.results <= After(task, s, steps).main.results
    decreases |steps|
  {
    hide Enabled, Apply;
    if steps != [] {
      RequestStaysEnded(task, s, steps[0]);
      StartedStays(task, Apply(task, s, steps[0]), steps[1..]);
    }
  }

  /** Once the request's context has ended no further validator is started: whatever happens next, the
      validators recorded after it are skips, but for the one that was already running. */
  lemma NoLaterValidator(task: Task, s: State, steps: seq<Step>)
    requires Reachable(task, s) && s.ses.request.Some? && CanRun(task, s, steps)
    ensures var m := After(task, s, steps).main;
            && m.started == s.main.started && s.main.results <= m.results
            && forall i :: |s.main.results| <= i < |m.results| ==>
                 m.results[i] == Skipped || (i == |s.main.results| && s.main.at.RunningValidator?)
  {
    hide Enabled, Apply, OutcomeKept, SkipsKept;
    ReachableInv(task, s);
    RunKeepsInv(task, s, steps);
    StartedStays(task, s, steps);
    if s.main.at.Aborted? {
      AbortedStays(task, s, steps);
    }
  }

  lemma AbortedStep(task: Task, s: State, step: Step)
    requires Enabled(task, s, step) && s.main.at.Aborted?
    ensures Apply(task, s, step).main == s.main
  {
    hide SessionApply, SessionEnabled, AlarmApply, AlarmEnabled, StatusOf;
  }

  lemma {:induction false} AbortedStays(task: Task, s: State, steps: seq<Step>)
    requires CanRun(task, s, steps) && s.main.at.Aborted?
    ensures After(task, s, steps).main == s.main
    decreases |steps|
  {
    hide Enabled, Apply;
    if steps != [] {
      AbortedStep(task, s, steps[0]);
      AbortedStays(task, Apply(task, s, steps[0]), steps[1..]);
    }
  }

  // ---------------------------------------------------------------- a pass

  /** Passed means: exit code 0, no error from Wait, not cancelled, and every validator of the task has a
      result of its own that says passed, unless a missing requirement skipped it. */
  lemma PassedMeansClean(task: Task, s: State)
    requires Reachable(task, s) && s.main.at == Decided(RunPassed)
    ensures var m := s.main;
            m.exitCode == 0 && m.waitErr == NoError && !m.cancelledRun && !m.doneAtRecheck && !AnyBlocks(m.results)
    ensures |s.main.results| == task.validators
    ensures forall i :: 0 <= i < task.validators ==>
              s.main.results[i] == Passed || (s.main.results[i] == Skipped && task.missing)
  {
    ReachableInv(task, s);
    forall i | 0 <= i < |s.main.results|
      ensures s.main.results[i] == Passed || (s.main.results[i] == Skipped && task.missing)
    {
      assert !Blocks(s.main.results[i]);
      assert s.main.results[i] == Skipped ==> AnySkipped(s.main.results);
    }
  }
}
