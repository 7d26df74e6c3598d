/** When a run is recorded as timed out. A deadline that passes while a session is ending can be noticed in
    two places, by Wait's select and by the timer's callback, and neither looks at whether the child has
    ended by itself. */
module RunTimeout {
  import opened Options
  import opened RunOutcome

  /** Wait has not chosen between the reaped child and the ended context yet. */
  predicate BeforeSelect(at: Point) {
    BeforeStore(at) || at.StoppingWatcher? || at.Selecting?
  }

  /** The end of the drain has not been noted yet. */
  predicate BeforeStore(at: Point) {
    at.Draining? || at.StoringDone?
  }

  // ---------------------------------------------------------------- what every step keeps

  /** The timer fires only after the deadline, kills only with its flag up, and is stopped only after Wait. */
  ghost predicate TimerKept(s: State) {
    && (s.timer.at.Loading? || s.timer.at.Storing? || s.timer.at.Killing? || s.timer.up ==> s.ses.deadline)
    && (s.timer.at.Killing? ==> s.timer.up)
    && (BeforeSelect(s.main.at) && !s.ses.deadline ==> s.timer.at.Idle?)
    && (BeforeStore(s.main.at) ==> !s.drainDone)
    && (!BeforeStore(s.main.at) && !s.main.at.Aborted? ==> s.drainDone)
  }

  /** An expired context has its reason, and Wait reports it only after having seen it. */
  ghost predicate ContextKept(s: State) {
    && (s.ses.context == Some(DeadlineExceeded) ==> s.ses.deadline || s.ses.request == Some(DeadlineExceeded))
    && (s.main.waitErr == Ended(DeadlineExceeded) ==> s.ses.context == Some(DeadlineExceeded))
    && (BeforeSelect(s.main.at) ==> s.main.waitErr == NoError)
    && (s.ses.reaped ==> s.ses.child.Gone?)
  }

  ghost predicate Kept(task: Task, s: State) {
    Inv(task, s) && TimerKept(s) && ContextKept(s)
  }

  lemma TimerStep(task: Task, s: State, step: Step)
    requires TimerKept(s) && Enabled(task, s, step)
    ensures TimerKept(Apply(task, s, step))
  {
    hide StatusOf, SkipsKept, ResultsKept, OutcomeKept;
  }

  lemma ContextStep(task: Task, s: State, step: Step)
    requires ContextKept(s) && Enabled(task, s, step)
    ensures ContextKept(Apply(task, s, step))
  {
    hide StatusOf, AlarmApply, AlarmEnabled;
  }

  lemma StepKeeps(task: Task, s: State, step: Step)
    requires Kept(task, s) && Enabled(task, s, step)
    ensures Kept(task, Apply(task, s, step))
  {
    hide Enabled, Apply, Inv, TimerKept, ContextKept;
    StepKeepsInv(task, s, step);
    TimerStep(task, s, step);
    ContextStep(task, s, step);
  }

  lemma {:induction false} RunKeeps(task: Task, s: State, steps: seq<Step>)
    requires Kept(task, s) && CanRun(task, s, steps)
    ensures Kept(task, After(task, s, steps))
    decreases |steps|
  {
    hide Kept, Enabled, Apply;
    if steps != [] {
      StepKeeps(task, s, steps[0]);
      RunKeeps(task, Apply(task, s, steps[0]), steps[1..]);
    }
  }

  lemma StartIsKept(task: Task)
    ensures Kept(task, INITIAL)
  {
  }

  lemma ReachableKept(task: Task, s: State)
    requires Reachable(task, s)
    ensures Kept(task, s)
  {
    hide Enabled, Apply, Kept;
    StartIsKept(task);
    var steps :| CanRun(task, INITIAL, steps) && After(task, INITIAL, steps) == s;
    RunKeeps(task, INITIAL, steps);
  }

  // ---------------------------------------------------------------- which runs are recorded as timed out

  /** Wait's select took the context's end when the context had ended at a deadline. */
  ghost predicate TakesExpired(task: Task, steps: seq<Step>) {
    exists i :: 0 <= i < |steps| && steps[i] == Run(SelectContext) && ExpiredAfter(task, steps[..i])
  }

  ghost predicate ExpiredAfter(task: Task, steps: seq<Step>) {
    CanRun(task, INITIAL, steps) && After(task, INITIAL, steps).ses.context == Some(DeadlineExceeded)
  }

  /** Step `i` is the timer's load of `drainDone`, before the run has stored it. */
  ghost predicate LoadsEarly(steps: seq<Step>, i: int) {
    0 <= i < |steps| && steps[i] == Timer(Load) && forall h :: 0 <= h < i ==> steps[h] != Run(StoreDone)
  }

  /** Within the first `k` steps the timer has stored its flag after such a load. */
  ghost predicate StoresBefore(steps: seq<Step>, k: int) {
    exists i, j :: LoadsEarly(steps, i) && 0 <= i < j < k && j < |steps| && steps[j] == Timer(Store)
  }

  /** The timer loaded before the run stored `drainDone` and stored before the run chose its status. */
  ghost predicate StoresInTime(steps: seq<Step>) {
    exists k :: 0 <= k < |steps| && steps[k] == Run(Choose) && StoresBefore(steps, k)
  }

  lemma FlagsStep(task: Task, s: State, step: Step)
    requires Enabled(task, s, step)
    ensures var t := Apply(task, s, step);
            && (t.drainDone <==> s.drainDone || step == Run(StoreDone))
            && (t.timer.up <==> s.timer.up || step == Timer(Store))
            && (step == Timer(Store) ==> s.timer.at.Storing?)
            && (t.timer.at.Storing? ==> s.timer.at.Storing? || (step == Timer(Load) && !s.drainDone))
  {
    hide MainEnabled, MainApply, SessionApply, SessionEnabled, Signal;
  }

  lemma WaitErrorStep(task: Task, s: State, step: Step)
    requires ContextKept(s) && Enabled(task, s, step)
    ensures Apply(task, s, step).main.waitErr == Ended(DeadlineExceeded) <==>
            s.main.waitErr == Ended(DeadlineExceeded) || (step == Run(SelectContext) && s.ses.context == Some(DeadlineExceeded))
  {
    hide StatusOf, SessionApply, SessionEnabled, AlarmApply, AlarmEnabled, Signal;
  }

  lemma ChooseStep(task: Task, s: State, step: Step)
    requires Enabled(task, s, step)
    ensures var m := Apply(task, s, step).main;
            && (m.at.Decided? <==> s.main.at.Decided? || step == Run(Choose))
            && (s.main.at.Decided? ==> m == s.main && step != Run(Choose))
            && (step == Run(Choose) ==>
                  (m.at.status == RunTimeout <==> s.timer.up || s.main.waitErr == Ended(DeadlineExceeded)))
  {
    hide SessionApply, SessionEnabled, AlarmApply, AlarmEnabled, Signal;
  }

  /** What the steps so far say about the state they lead to. */
  ghost predicate History(task: Task, steps: seq<Step>, s: State) {
    && (s.drainDone <==> Run(StoreDone) in steps)
    && (s.timer.at.Storing? ==> exists i :: LoadsEarly(steps, i))
    && (s.timer.up <==> StoresBefore(steps, |steps|))
    && (s.main.waitErr == Ended(DeadlineExceeded) <==> TakesExpired(task, steps))
    && (s.main.at.Decided? <==> Run(Choose) in steps)
    && (s.main.at.Decided? ==> forall k :: 0 <= k < |steps| && steps[k] == Run(Choose) ==>
          (s.main.at.status == RunTimeout <==> StoresBefore(steps, k) || s.main.waitErr == Ended(DeadlineExceeded)))
  }

  lemma OneMoreLoad(steps: seq<Step>, step: Step, i: int)
    ensures LoadsEarly(steps + [step], i) <==>
            LoadsEarly(steps, i) || (i == |steps| && step == Timer(Load) && Run(StoreDone) !in steps)
  {
    var more := steps + [step];
    forall h | 0 <= h < |steps| ensures more[h] == steps[h] && steps[h] in steps {
    }
  }

  lemma EarlierStores(steps: seq<Step>, step: Step, k: int)
    requires k <= |steps|
    ensures StoresBefore(steps + [step], k) <==> StoresBefore(steps, k)
  {
    hide LoadsEarly;
    var more := steps + [step];
    if i, j :| LoadsEarly(steps, i) && 0 <= i < j < k && j < |steps| && steps[j] == Timer(Store) {
      OneMoreLoad(steps, step, i);
      LoadIsAStep(steps, i);
      assert more[j] == Timer(Store);
    }
    if i, j :| LoadsEarly(more, i) && 0 <= i < j < k && j < |more| && more[j] == Timer(Store) {
      OneMoreLoad(steps, step, i);
      LoadIsAStep(more, i);
      assert steps[j] == Timer(Store);
    }
  }

  lemma OneMoreStore(steps: seq<Step>, step: Step)
    ensures StoresBefore(steps + [step], |steps| + 1) <==>
            StoresBefore(steps, |steps|) || (step == Timer(Store) && exists i :: LoadsEarly(steps, i))
  {
    hide LoadsEarly;
    var more, n := steps + [step], |steps|;
    EarlierStores(steps, step, n);
    if i, j :| LoadsEarly(more, i) && 0 <= i < j < n + 1 && j < |more| && more[j] == Timer(Store) {
      OneMoreLoad(steps, step, i);
      LoadIsAStep(more, i);
      if j < n {
        assert StoresBefore(more, n);
      }
    }
    if i :| step == Timer(Store) && LoadsEarly(steps, i) {
      OneMoreLoad(steps, step, i);
      LoadIsAStep(steps, i);
      assert more[n] == Timer(Store);
    }
  }

  lemma LoadIsAStep(steps: seq<Step>, i: int)
    ensures LoadsEarly(steps, i) ==> 0 <= i < |steps|
  {
  }

  lemma OneMoreTake(task: Task, steps: seq<Step>, step: Step)
    ensures TakesExpired(task, steps + [step]) <==>
            TakesExpired(task, steps) || (step == Run(SelectContext) && ExpiredAfter(task, steps))
  {
    hide ExpiredAfter;
    var more := steps + [step];
    assert more[..|steps|] == steps;
    forall i | 0 <= i < |steps|
      ensures more[..i] == steps[..i] && more[i] == steps[i]
    {
    }
    if i :| 0 <= i < |steps| && steps[i] == Run(SelectContext) && ExpiredAfter(task, steps[..i]) {
      assert more[i] == Run(SelectContext) && ExpiredAfter(task, more[..i]);
    }
    if step == Run(SelectContext) && ExpiredAfter(task, steps) {
      assert more[|steps|] == Run(SelectContext) && ExpiredAfter(task, more[..|steps|]);
    }
  }

  lemma HistoryGrows(task: Task, steps: seq<Step>, s: State, step: Step)
    requires CanRun(task, INITIAL, steps) && After(task, INITIAL, steps) == s
    requires Kept(task, s) && History(task, steps, s) && Enabled(task, s, step)
    ensures History(task, steps + [step], Apply(task, s, step))
  {
    hide Enabled, Apply, Inv, TimerKept, ContextKept, CanRun, After, StoresBefore, LoadsEarly, TakesExpired;
    var more := steps + [step];
    FlagsStep(task, s, step);
    WaitErrorStep(task, s, step);
    ChooseStep(task, s, step);
    OneMoreStore(steps, step);
    OneMoreTake(task, steps, step);
    forall i ensures LoadsEarly(steps, i) ==> LoadsEarly(more, i) {
      OneMoreLoad(steps, step, i);
    }
    OneMoreLoad(steps, step, |steps|);
    forall k | 0 <= k <= |steps|
      ensures StoresBefore(more, k) <==> StoresBefore(steps, k)
    {
      EarlierStores(steps, step, k);
    }
  }

  lemma {:induction false} RunHasHistory(task: Task, steps: seq<Step>)
    requires CanRun(task, INITIAL, steps)
    ensures History(task, steps, After(task, INITIAL, steps)) && Kept(task, After(task, INITIAL, steps))
    decreases |steps|
  {
    hide Kept, Enabled, Apply, History;
    if steps == [] {
      StartIsKept(task);
      EmptyHistory(task);
    } else {
      var front, step := steps[..|steps| - 1], steps[|steps| - 1];
      assert front + [step] == steps;
      LastStep(task, INITIAL, front, step);
      RunHasHistory(task, front);
      HistoryGrows(task, front, After(task, INITIAL, front), step);
      StepKeeps(task, After(task, INITIAL, front), step);
    }
  }

  lemma EmptyHistory(task: Task)
    ensures History(task, [], INITIAL)
  {
    assert !TakesExpired(task, []);
  }

  /** However a run interleaves with its child, timer and clock: a run with a status is recorded as timed
      out if and only if Wait's select took a context that a deadline had ended, or the timer loaded
      `drainDone` before it was stored and stored its own flag before the status was chosen. Whether the
      child had ended by itself, and how, is no part of the condition. */
  lemma TimeoutIff(task: Task, steps: seq<Step>)
    requires CanRun(task, INITIAL, steps) && After(task, INITIAL, steps).main.at.Decided?
    ensures After(task, INITIAL, steps).main.at.status == RunTimeout <==> TakesExpired(task, steps) || StoresInTime(steps)
  {
    hide Kept, Enabled, Apply, StoresBefore, TakesExpired, CanRun, After;
    RunHasHistory(task, steps);
    var k :| 0 <= k < |steps| && steps[k] == Run(Choose);
  }

  // ---------------------------------------------------------------- when a timeout can still be recorded

  ghost predicate CanTimeOut(task: Task, s: State) {
    exists steps :: TimesOut(task, s, steps)
  }

  ghost predicate TimesOut(task: Task, s: State, steps: seq<Step>) {
    CanRun(task, s, steps) && After(task, s, steps).main.at == Decided(RunTimeout)
  }

  /** Wait has the deadline error or can still get it, or the timer's flag is up or can still go up. */
  predicate TimeoutOpen(s: State) {
    if s.main.at.Decided? then s.main.at.status == RunTimeout
    else
      && !s.main.at.Aborted?
      && (|| s.main.waitErr == Ended(DeadlineExceeded)
          || (BeforeSelect(s.main.at) && s.ses.context != Some(Canceled))
          || s.timer.up || s.timer.at.Storing?
          || (BeforeStore(s.main.at) && (s.timer.at.Idle? || s.timer.at.Loading?)))
  }

  /** The run's point, the context's reason and the timer only move on. */
  lemma PointStep(task: Task, s: State, step: Step)
    requires Enabled(task, s, step)
    ensures var m, n := s.main, Apply(task, s, step).main;
            && (m.at.Aborted? ==> n.at.Aborted?)
            && (BeforeSelect(n.at) ==> BeforeSelect(m.at))
            && (BeforeStore(n.at) ==> BeforeStore(m.at))
            && (step == Run(SelectContext) ==> BeforeSelect(m.at))
  {
    hide StatusOf, SessionApply, SessionEnabled, AlarmApply, AlarmEnabled, Signal;
  }

  lemma TimerPointStep(task: Task, s: State, step: Step)
    requires Enabled(task, s, step)
    ensures var t := Apply(task, s, step);
            && (t.timer.at.Idle? || t.timer.at.Loading? ==> s.timer.at.Idle? || s.timer.at.Loading?)
            && (s.ses.context.Some? ==> t.ses.context == s.ses.context)
            && (step == Timer(Load) ==> s.timer.at.Loading?)
  {
    hide MainEnabled, MainApply;
  }

  lemma ClosedStep(task: Task, s: State, step: Step)
    requires TimerKept(s) && ContextKept(s) && Enabled(task, s, step) && !TimeoutOpen(s)
    ensures !TimeoutOpen(Apply(task, s, step))
  {
    hide Enabled, Apply, BeforeSelect, BeforeStore;
    FlagsStep(task, s, step);
    WaitErrorStep(task, s, step);
    ChooseStep(task, s, step);
    PointStep(task, s, step);
    TimerPointStep(task, s, step);
  }

  lemma {:induction false} ClosedStays(task: Task, s: State, steps: seq<Step>)
    requires Kept(task, s) && !TimeoutOpen(s) && CanRun(task, s, steps)
    ensures After(task, s, steps).main.at != Decided(RunTimeout)
    decreases |steps|
  {
    hide Inv, TimerKept, ContextKept, Enabled, Apply;
    if steps != [] {
      ClosedStep(task, s, steps[0]);
      StepKeeps(task, s, steps[0]);
      ClosedStays(task, Apply(task, s, steps[0]), steps[1..]);
    }
  }

  /** A step towards a timeout: the child ends, the deadline passes, the timer and the context notice, and
      only then the run goes on. */
  function NextStep(task: Task, s: State): Step {
    if s.ses.child.Alive? then World(ChildEnds(Exit(0)))
    else if !s.ses.reaped then World(Reap)
    else if !s.ses.deadline then World(DeadlinePasses)
    else if s.timer.at.Storing? then Timer(Store)
    else if BeforeStore(s.main.at) && s.timer.at.Loading? then Timer(Load)
    else if BeforeStore(s.main.at) && s.timer.at.Idle? then Timer(Fire)
    else if s.ses.context.None? then World(ContextExpires)
    else Run(NextInRun(task, s.main, s.ses))
  }

  function NextInRun(task: Task, m: Main, e: Session): MainStep {
    match m.at
    case Draining => DrainEnds
    case StoringDone => StoreDone
    case StoppingWatcher => StopWatcher
    case Selecting => if e.context == Some(DeadlineExceeded) then SelectContext else SelectReaped
    case KillingInWait => WaitKills
    case AwaitingReap => WaitReaped
    case StoppingTimer => StopTimer
    case ReadingCancelled => ReadCancelled
    case Capturing => CaptureEnds
    case Rechecking => Recheck
    case NextValidator =>
      if |m.results| >= task.validators then ValidatorsEnd
      else if task.missing || e.request.Some? then SkipValidator
      else StartValidator
    case RunningValidator => ValidatorEnds(Passed)
    case LastRecheck => RecheckLast
    case _ => Choose
  }

  function PointRank(at: Point): nat {
    match at
    case Draining => 16
    case StoringDone => 15
    case StoppingWatcher => 14
    case Selecting => 13
    case KillingInWait => 12
    case AwaitingReap => 11
    case StoppingTimer => 10
    case ReadingCancelled => 9
    case Capturing => 8
    case Rechecking => 7
    case NextValidator => 6
    case RunningValidator => 5
    case LastRecheck => 4
    case Choosing => 3
    case _ => 0
  }

  function MainRank(task: Task, m: Main): int {
    PointRank(m.at) + 2 * (task.validators - |m.results|)
  }

  function OutsideRank(e: Session, timer: Alarm): nat {
    (if e.child.Alive? then 1 else 0) + (if e.reaped then 0 else 1) + (if e.deadline then 0 else 1)
    + (if e.context.None? then 1 else 0)
    + (match timer.at case Idle => 4 case Loading => 3 case Storing => 2 case Killing => 1 case Over => 0)
  }

  function Rank(task: Task, s: State): int {
    MainRank(task, s.main) + OutsideRank(s.ses, s.timer)
  }

  lemma NextInRunLowers(task: Task, m: Main, e: Session, timedOut: bool, cancelled: bool)
    requires |m.results| <= task.validators && !m.at.Decided? && !m.at.Aborted?
    requires e.reaped && e.child.Gone?
    ensures var step := NextInRun(task, m, e);
            && MainEnabled(task, m, step, e)
            && MainRank(task, MainApply(task, m, step, e, timedOut, cancelled)) < MainRank(task, m)
  {
    hide StatusOf;
  }

  lemma NextStepLowers(task: Task, s: State)
    requires Kept(task, s) && !s.main.at.Decided? && !s.main.at.Aborted?
    ensures Enabled(task, s, NextStep(task, s))
    ensures Rank(task, Apply(task, s, NextStep(task, s))) < Rank(task, s)
  {
    hide MainEnabled, MainApply, MainRank, NextInRun, OutcomeKept, SkipsKept;
    if NextStep(task, s).Run? {
      NextInRunLowers(task, s.main, s.ses, s.timer.up, s.watcher.up);
    }
  }

  lemma EndsForOneReason(context: Option<Cause>)
    ensures context == None || context == Some(Canceled) || context == Some(DeadlineExceeded)
  {
    if context.Some? && !context.value.Canceled? {
      assert context.value == DeadlineExceeded;
    }
  }

  /** Nothing is left to wait for outside the run: what can still be recorded shows in Wait's error, in the
      timer's flag or in the context that Wait is about to see. */
  lemma OpenStaysInRun(task: Task, s: State, step: MainStep)
    requires TimerKept(s) && ContextKept(s) && TimeoutOpen(s) && Enabled(task, s, Run(step))
    requires NextStep(task, s) == Run(step)
    ensures TimeoutOpen(Apply(task, s, Run(step)))
  {
    hide Enabled, Apply, SessionEnabled, AlarmEnabled;
    FlagsStep(task, s, Run(step));
    WaitErrorStep(task, s, Run(step));
    ChooseStep(task, s, Run(step));
    PointAfter(task, s, step);
    EndsForOneReason(s.ses.context);
  }

  lemma PointAfter(task: Task, s: State, step: MainStep)
    requires !s.main.at.Decided? && !s.main.at.Aborted?
    requires step == NextInRun(task, s.main, s.ses) && Enabled(task, s, Run(step))
    ensures var t := Apply(task, s, Run(step));
            && !t.main.at.Aborted? && t.ses.context == s.ses.context
            && (BeforeSelect(t.main.at) <==> BeforeSelect(s.main.at) && !s.main.at.Selecting?)
            && (BeforeSelect(s.main.at) ==> step != Choose)
            && (s.main.at.Selecting? && s.ses.context == Some(DeadlineExceeded) ==> step == SelectContext)
  {
    hide StatusOf;
  }

  lemma OpenStays(task: Task, s: State)
    requires TimerKept(s) && ContextKept(s) && TimeoutOpen(s) && !s.main.at.Decided?
    requires Enabled(task, s, NextStep(task, s))
    ensures TimeoutOpen(Apply(task, s, NextStep(task, s)))
  {
    hide MainEnabled, MainApply, NextInRun;
    match NextStep(task, s)
    case Run(m) => OpenStaysInRun(task, s, m);
    case _ =>
  }

  lemma {:induction false} OpenTimesOut(task: Task, s: State) returns (steps: seq<Step>)
    requires Kept(task, s) && TimeoutOpen(s)
    ensures TimesOut(task, s, steps) && |steps| <= Rank(task, s)
    decreases Rank(task, s)
  {
    hide TimerKept, ContextKept, Enabled, Apply, NextStep, OutcomeKept, SkipsKept, Rank;
    RankIsNatural(task, s);
    if s.main.at.Decided? {
      steps := [];
    } else {
      var step := NextStep(task, s);
      NextStepLowers(task, s);
      OpenStays(task, s);
      StepKeeps(task, s, step);
      var rest := OpenTimesOut(task, Apply(task, s, step));
      steps := [step] + rest;
      assert steps[1..] == rest;
    }
  }

  lemma RankIsNatural(task: Task, s: State)
    requires Kept(task, s)
    ensures Rank(task, s) >= 0
  {
  }

  /** In every state a run can be in: a timeout can still be recorded if and only if one is recorded already,
      or the run is undecided and `TimeoutOpen` finds a way to one in the state. */
  lemma TimeoutPossibleIff(task: Task, s: State)
    requires Reachable(task, s)
    ensures CanTimeOut(task, s) <==> TimeoutOpen(s)
  {
    hide Kept, TimeoutOpen, Enabled, Apply, Reachable;
    ReachableKept(task, s);
    if TimeoutOpen(s) {
      var steps := OpenTimesOut(task, s);
    } else {
      forall steps ensures !TimesOut(task, s, steps) {
        if CanRun(task, s, steps) {
          ClosedStays(task, s, steps);
        }
      }
    }
  }

  lemma NoTimeoutYet(task: Task, s: State)
    requires Kept(task, s) && !s.ses.deadline && s.ses.request != Some(DeadlineExceeded)
    ensures s.main.at != Decided(RunTimeout) && s.main.waitErr != Ended(DeadlineExceeded) && !s.timer.up
    ensures s.ses.context == None || s.ses.context == Some(Canceled)
  {
    assert s.ses.context != Some(DeadlineExceeded);
    EndsForOneReason(s.ses.context);
  }

  /** While no deadline has passed, a timeout can still be recorded exactly as long as Wait has not made its
      choice, unless by then the request's cancellation has ended the session's context and the end of the
      drain has been noted. A child that has ended by itself is no exception: for it, that is a misreading. */
  lemma MisreadingPossibleIff(task: Task, s: State)
    requires Reachable(task, s)
    requires !s.ses.deadline && s.ses.request != Some(DeadlineExceeded)
    ensures CanTimeOut(task, s) <==>
            BeforeSelect(s.main.at) && (s.ses.context.None? || BeforeStore(s.main.at))
  {
    hide Reachable, CanTimeOut, Inv;
    ReachableKept(task, s);
    TimeoutPossibleIff(task, s);
    NoTimeoutYet(task, s);
  }

  lemma FlagStaysDown(task: Task, s: State, step: Step)
    requires s.drainDone && !s.timer.up && !s.timer.at.Storing? && Enabled(task, s, step)
    ensures var t := Apply(task, s, step); t.drainDone && !t.timer.up && !t.timer.at.Storing?
  {
    hide Enabled, Apply;
    FlagsStep(task, s, step);
  }

  lemma {:induction false} FlagIsDown(task: Task, s: State, steps: seq<Step>)
    requires s.drainDone && !s.timer.up && !s.timer.at.Storing? && CanRun(task, s, steps)
    ensures !After(task, s, steps).timer.up
    decreases |steps|
  {
    hide Enabled, Apply;
    if steps != [] {
      FlagStaysDown(task, s, steps[0]);
      FlagIsDown(task, Apply(task, s, steps[0]), steps[1..]);
    }
  }

  ghost predicate FlagGoesUp(task: Task, s: State, steps: seq<Step>) {
    CanRun(task, s, steps) && After(task, s, steps).timer.up
  }

  /** The timer alone: once the end of the drain is noted, its flag is up later on if and only if it is up
      already or the timer is between its load and its store. */
  lemma TimeoutAfterDrainIff(task: Task, s: State)
    requires s.drainDone
    ensures (exists steps :: FlagGoesUp(task, s, steps)) <==> s.timer.up || s.timer.at.Storing?
  {
    if s.timer.up {
      assert FlagGoesUp(task, s, []);
    } else if s.timer.at.Storing? {
      assert [Timer(Store)][1..] == [];
      assert FlagGoesUp(task, s, [Timer(Store)]);
    } else {
      forall steps ensures !FlagGoesUp(task, s, steps) {
        if CanRun(task, s, steps) {
          FlagIsDown(task, s, steps);
        }
      }
    }
  }

  // ---------------------------------------------------------------- three schedules that misread a clean exit

  const TASK := Task(0, false)

  /** The child has ended by itself, with exit code 0 and before the deadline. */
  const ENDED := Session(Gone(Exit(0), true, true), false, false, false, None, None)
  const REAPED := ENDED.(reaped := true)

  ghost predicate RunsTo(steps: seq<Step>, s: State) {
    CanRun(TASK, INITIAL, steps) && After(TASK, INITIAL, steps) == s
  }

  lemma Then(steps: seq<Step>, s: State, step: Step) returns (longer: seq<Step>, t: State)
    requires RunsTo(steps, s) && Enabled(TASK, s, step)
    ensures t == Apply(TASK, s, step) && RunsTo(longer, t)
  {
    hide Enabled, Apply;
    ExtendRun(TASK, INITIAL, steps, step);
    longer, t := steps + [step], Apply(TASK, s, step);
  }

  lemma ChildEndsByItself() returns (steps: seq<Step>)
    ensures RunsTo(steps, INITIAL.(ses := ENDED))
  {
    hide CanRun, After, RunsTo;
    Nothing();
    var s;
    steps, s := Then([], INITIAL, World(ChildEnds(Exit(0))));
  }

  lemma Nothing()
    ensures RunsTo([], INITIAL)
  {
  }

  /** From the reaped child to Wait's select, whatever the timer has done so far. */
  lemma DrainIsNoted(steps: seq<Step>, s: State) returns (longer: seq<Step>, t: State)
    requires RunsTo(steps, s) && s.ses.reaped && s.main == INITIAL.main && s.watcher == INITIAL.watcher
    ensures RunsTo(longer, t)
    ensures t == State(s.ses, true, s.timer, Alarm(Over, false), INITIAL.main.(at := Selecting))
  {
    hide CanRun, After, RunsTo;
    longer, t := Then(steps, s, Run(DrainEnds));
    longer, t := Then(longer, t, Run(StoreDone));
    longer, t := Then(longer, t, Run(StopWatcher));
  }

  lemma CancellationIsRead(steps: seq<Step>, s: State) returns (longer: seq<Step>, t: State)
    requires RunsTo(steps, s) && s.main.at == StoppingTimer && !s.main.cancelledRun
    requires !s.watcher.up && s.main.waitErr != Ended(Canceled)
    ensures RunsTo(longer, t)
    ensures t == s.(timer := Stopped(s.timer), main := s.main.(at := Rechecking))
  {
    hide CanRun, After, RunsTo, Stopped;
    longer, t := Then(steps, s, Run(StopTimer));
    longer, t := Then(longer, t, Run(ReadCancelled));
    longer, t := Then(longer, t, Run(CaptureEnds));
  }

  /** From Wait's return to the last step before the status is chosen, of an uncancelled run. */
  lemma RunGoesOn(steps: seq<Step>, s: State) returns (longer: seq<Step>, t: State)
    requires RunsTo(steps, s) && s.main.at == StoppingTimer && s.main.results == [] && !s.main.cancelledRun
    requires !s.watcher.up && s.ses.request.None? && s.main.waitErr != Ended(Canceled) && !s.main.doneAtRecheck
    ensures RunsTo(longer, t)
    ensures t == s.(timer := Stopped(s.timer), main := s.main.(at := Choosing))
  {
    hide CanRun, After, RunsTo, StatusOf, Stopped;
    longer, t := CancellationIsRead(steps, s);
    longer, t := Then(longer, t, Run(Recheck));
    longer, t := Then(longer, t, Run(ValidatorsEnd));
    longer, t := Then(longer, t, Run(RecheckLast));
  }

  /** A run of a child that ended by itself before the deadline, never signalled, recorded as timed out. */
  ghost predicate Misread(steps: seq<Step>, s: State) {
    RunsTo(steps, s) && s.main.at == Decided(RunTimeout) && s.ses.child == ENDED.child && !s.ses.signalled
  }

  lemma LoadsBeforeTheNote() returns (steps: seq<Step>, s: State)
    ensures RunsTo(steps, s)
    ensures s == State(REAPED.(deadline := true), true, Alarm(Storing, false), Alarm(Over, false), INITIAL.main.(at := Selecting))
  {
    hide CanRun, After, RunsTo;
    steps := ChildEndsByItself();
    steps, s := Then(steps, INITIAL.(ses := ENDED), World(DeadlinePasses));
    steps, s := Then(steps, s, Timer(Fire));
    steps, s := Then(steps, s, Timer(Load));
    steps, s := Then(steps, s, World(Reap));
    steps, s := DrainIsNoted(steps, s);
  }

  /** The timer loads just before the end of the drain is noted and stores just before the status is chosen:
      Wait has reported a clean exit, and the run is recorded as timed out. */
  lemma LateStoreMisreadsACleanRun() returns (steps: seq<Step>, s: State)
    ensures Misread(steps, s) && s.main.exitCode == 0 && s.main.waitErr == NoError
    ensures StoresInTime(steps) && !TakesExpired(TASK, steps)
  {
    hide CanRun, After, RunsTo, TakesExpired, StoresInTime;
    steps, s := LoadsBeforeTheNote();
    steps, s := Then(steps, s, Run(SelectReaped));
    steps, s := RunGoesOn(steps, s);
    steps, s := Then(steps, s, Timer(Store));
    steps, s := Then(steps, s, Run(Choose));
    CauseOf(steps, s);
  }

  lemma CauseOf(steps: seq<Step>, s: State)
    requires Misread(steps, s)
    ensures TakesExpired(TASK, steps) <==> s.main.waitErr == Ended(DeadlineExceeded)
    ensures TakesExpired(TASK, steps) || StoresInTime(steps)
    ensures StoresInTime(steps) ==> s.timer.up
  {
    hide Kept, Enabled, Apply, LoadsEarly, TakesExpired;
    RunHasHistory(TASK, steps);
    TimeoutIff(TASK, steps);
  }

  lemma ExpiresBeforeSelect() returns (steps: seq<Step>, s: State)
    ensures RunsTo(steps, s)
    ensures s == State(REAPED.(deadline := true, context := Some(DeadlineExceeded)), true, Alarm(Idle, false), Alarm(Over, false),
                       INITIAL.main.(at := Selecting))
  {
    hide CanRun, After, RunsTo;
    steps := ChildEndsByItself();
    steps, s := Then(steps, INITIAL.(ses := ENDED), World(Reap));
    steps, s := DrainIsNoted(steps, s);
    steps, s := Then(steps, s, World(DeadlinePasses));
    steps, s := Then(steps, s, World(ContextExpires));
  }

  /** The child has been reaped and its output drained, and the deadline passes before Wait's select: the
      select may take the expired context although the reaped child is ready as well. The timer's flag stays
      down. */
  lemma SelectMisreadsACleanRun() returns (steps: seq<Step>, s: State)
    ensures Misread(steps, s) && s.main.exitCode == -1 && !s.timer.up
    ensures TakesExpired(TASK, steps) && !StoresInTime(steps)
  {
    hide CanRun, After, RunsTo, TakesExpired, StoresInTime;
    steps, s := ExpiresBeforeSelect();
    steps, s := Then(steps, s, Run(SelectContext));
    steps, s := Then(steps, s, Run(WaitKills));
    steps, s := Then(steps, s, Run(WaitReaped));
    steps, s := RunGoesOn(steps, s);
    steps, s := Then(steps, s, Run(Choose));
    CauseOf(steps, s);
  }

  /** The child has been reaped while its last lines are still queued: the timer loads, stores and calls Kill,
      which signals nothing, all before the drain ends, and Wait reports a clean exit. */
  lemma QueuedLinesMisreadACleanRun() returns (steps: seq<Step>, s: State)
    ensures Misread(steps, s) && s.main.exitCode == 0 && s.main.waitErr == NoError
    ensures StoresInTime(steps) && !TakesExpired(TASK, steps) && s.timer == Alarm(Over, true)
  {
    hide CanRun, After, RunsTo, TakesExpired, StoresInTime;
    steps := ChildEndsByItself();
    steps, s := Then(steps, INITIAL.(ses := ENDED), World(Reap));
    steps, s := Then(steps, s, World(DeadlinePasses));
    steps, s := Then(steps, s, Timer(Fire));
    steps, s := Then(steps, s, Timer(Load));
    steps, s := Then(steps, s, Timer(Store));
    steps, s := Then(steps, s, Timer(Kill));
    steps, s := DrainIsNoted(steps, s);
    steps, s := Then(steps, s, Run(SelectReaped));
    steps, s := RunGoesOn(steps, s);
    steps, s := Then(steps, s, Run(Choose));
    CauseOf(steps, s);
  }
}
