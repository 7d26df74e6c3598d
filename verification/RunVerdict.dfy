/** Which status a run is recorded with, read off its steps: what the child ended with, what the validators
    reported, and where the run looked for a cancellation. */
module RunVerdict {
  import opened Options
  import opened RunOutcome
  import opened RunTimeout

  /** The switch at the end of `Run`, on what the run has found out: an undisturbed run is failed exactly if its
      child exited with 0 and a validator blocks, and an error exactly if it was cancelled, Wait failed or
      the exit code is not 0. */
  lemma DecidedStatusIff(task: Task, s: State)
    requires Reachable(task, s) && s.main.at.Decided? && s.main.at.status != RunTimeout
    ensures var m := s.main;
            && (m.at.status == RunError <==> m.cancelledRun || m.waitErr != NoError || m.exitCode != 0)
            && (m.at.status == RunFailed <==>
                  !m.cancelledRun && m.waitErr == NoError && m.exitCode == 0 && AnyBlocks(m.results))
            && (m.at.status == RunPassed <==>
                  !m.cancelledRun && m.waitErr == NoError && m.exitCode == 0 && !AnyBlocks(m.results))
  {
    hide Reachable, ResultsKept, SkipsKept, AnyBlocks;
    ReachableInv(task, s);
  }

  // ---------------------------------------------------------------- what Wait found

  predicate PastWait(at: Point) {
    !BeforeSelect(at) && !at.KillingInWait? && !at.AwaitingReap? && !at.Aborted?
  }

  /** Before it looks for a cancellation the run has found none. */
  predicate BeforeLook(at: Point) {
    BeforeSelect(at) || at.KillingInWait? || at.AwaitingReap? || at.StoppingTimer? || at.ReadingCancelled?
  }

  /** Without a context's error Wait reports what the child ended with, and it returns only after the reap. */
  ghost predicate WaitKept(m: Main, e: Session) {
    && (e.reaped ==> e.child.Gone?)
    && (PastWait(m.at) ==> e.reaped)
    && (BeforeSelect(m.at) ==> m.waitErr == NoError)
    && (!BeforeSelect(m.at) && !m.at.Aborted? && m.waitErr == NoError ==>
          e.child.Gone? && e.child.result == Exit(m.exitCode))
    && (m.waitErr == OtherError ==> e.child.Gone? && e.child.result == WaitFailed && m.exitCode == -1)
    && (m.waitErr.Ended? ==> m.exitCode == -1)
    && (BeforeLook(m.at) ==> !m.cancelledRun)
  }

  lemma WaitKeptByRun(task: Task, m: Main, step: MainStep, e: Session, timedOut: bool, cancelled: bool)
    requires WaitKept(m, e) && MainEnabled(task, m, step, e)
    ensures WaitKept(MainApply(task, m, step, e, timedOut, cancelled), e)
  {
    hide StatusOf;
  }

  lemma WaitKeptBySession(m: Main, e: Session, step: SessionStep)
    requires WaitKept(m, e) && SessionEnabled(e, step)
    ensures WaitKept(m, SessionApply(e, step))
  {
  }

  lemma WaitKeptBySignal(m: Main, e: Session)
    requires WaitKept(m, e)
    ensures WaitKept(m, Signal(e))
  {
  }

  lemma WaitStep(task: Task, s: State, step: Step)
    requires WaitKept(s.main, s.ses) && Enabled(task, s, step)
    ensures var t := Apply(task, s, step); WaitKept(t.main, t.ses)
  {
    hide WaitKept, MainApply, MainEnabled, SessionApply, SessionEnabled, Signal, AlarmApply, AlarmEnabled;
    WaitKeptBySignal(s.main, s.ses);
    match step
    case World(w) => WaitKeptBySession(s.main, s.ses, w);
    case Run(m) =>
      WaitKeptByRun(task, s.main, m, s.ses, s.timer.up, s.watcher.up);
      WaitKeptBySignal(MainApply(task, s.main, m, s.ses, s.timer.up, s.watcher.up), s.ses);
    case _ =>
  }

  // ---------------------------------------------------------------- what the steps say

  /** The results the validators report, in order: their own, or a skip. */
  function Reported(steps: seq<Step>): seq<ValidatorStatus> {
    if steps == [] then []
    else
      Reported(steps[..|steps| - 1]) +
      (match steps[|steps| - 1]
       case Run(SkipValidator) => [Skipped]
       case Run(ValidatorEnds(status)) => [status]
       case _ => [])
  }

  /** Step i is one of the three looks for a cancellation, and it sees one: the watcher's flag or Wait's error
      when the run reads them, or the request's context when it is re-checked. */
  ghost predicate LookSees(task: Task, steps: seq<Step>, i: int) {
    && 0 <= i < |steps| && CanRun(task, INITIAL, steps[..i])
    && Sees(After(task, INITIAL, steps[..i]), steps[i])
  }

  predicate Sees(s: State, step: Step) {
    || (step == Run(ReadCancelled) && (s.watcher.up || s.main.waitErr == Ended(Canceled)))
    || ((step == Run(Recheck) || step == Run(RecheckLast)) && s.ses.request.Some?)
  }

  ghost predicate IsCancelled(task: Task, steps: seq<Step>) {
    exists i :: LookSees(task, steps, i)
  }

  lemma CancelledStep(task: Task, s: State, step: Step)
    requires WaitKept(s.main, s.ses) && Enabled(task, s, step)
    ensures Apply(task, s, step).main.cancelledRun <==> s.main.cancelledRun || Sees(s, step)
  {
    hide StatusOf, SessionApply, SessionEnabled, AlarmApply, AlarmEnabled, Signal;
  }

  lemma ResultsStep(task: Task, s: State, step: Step)
    requires Enabled(task, s, step)
    ensures Apply(task, s, step).main.results == s.main.results + Reported([step])
  {
    hide StatusOf, SessionApply, SessionEnabled, AlarmApply, AlarmEnabled, Signal;
    assert [step][..0] == [];
    if step.Run? {
      MainResults(task, s.main, step.m, s.ses, s.timer.up, s.watcher.up);
    }
  }

  lemma MainResults(task: Task, m: Main, step: MainStep, e: Session, timedOut: bool, cancelled: bool)
    requires MainEnabled(task, m, step, e)
    ensures MainApply(task, m, step, e, timedOut, cancelled).results ==
            m.results + (match step case SkipValidator => [Skipped] case ValidatorEnds(status) => [status] case _ => [])
  {
    hide StatusOf;
  }

  lemma OneMoreReport(steps: seq<Step>, step: Step)
    ensures Reported(steps + [step]) == Reported(steps) + Reported([step])
  {
    assert (steps + [step])[..|steps|] == steps && [step][..0] == [];
  }

  lemma OneMoreLook(task: Task, steps: seq<Step>, step: Step)
    requires CanRun(task, INITIAL, steps)
    ensures IsCancelled(task, steps + [step]) <==> IsCancelled(task, steps) || Sees(After(task, INITIAL, steps), step)
  {
    hide Sees, CanRun, After;
    var more := steps + [step];
    assert more[..|steps|] == steps;
    forall i | 0 <= i < |steps|
      ensures more[..i] == steps[..i] && more[i] == steps[i]
    {
    }
    if i :| LookSees(task, steps, i) {
      assert LookSees(task, more, i);
    }
    if i :| LookSees(task, more, i) {
      assert i < |steps| ==> LookSees(task, steps, i);
    }
    if Sees(After(task, INITIAL, steps), step) {
      assert LookSees(task, more, |steps|);
    }
  }

  ghost predicate Told(task: Task, steps: seq<Step>, s: State) {
    && WaitKept(s.main, s.ses)
    && s.main.results == Reported(steps)
    && (s.main.cancelledRun <==> IsCancelled(task, steps))
    && (s.watcher.up <==> Watcher(Store) in steps)
    && (s.main.at.Aborted? <==> Run(IoFails) in steps)
  }

  lemma AbortStep(task: Task, s: State, step: Step)
    requires Enabled(task, s, step)
    ensures Apply(task, s, step).main.at.Aborted? <==> s.main.at.Aborted? || step == Run(IoFails)
  {
    hide StatusOf, SessionApply, SessionEnabled, AlarmApply, AlarmEnabled, Signal;
  }

  lemma WatcherStep(task: Task, s: State, step: Step)
    requires Enabled(task, s, step)
    ensures Apply(task, s, step).watcher.up <==> s.watcher.up || step == Watcher(Store)
  {
    hide MainEnabled, MainApply, SessionApply, SessionEnabled, Signal;
  }

  lemma {:induction false} RunTells(task: Task, steps: seq<Step>)
    requires CanRun(task, INITIAL, steps)
    ensures Told(task, steps, After(task, INITIAL, steps))
    decreases |steps|
  {
    hide Enabled, Apply, WaitKept, Reported, IsCancelled, Sees;
    if steps == [] {
      NothingIsTold(task);
    } else {
      var front, step := steps[..|steps| - 1], steps[|steps| - 1];
      assert front + [step] == steps;
      LastStep(task, INITIAL, front, step);
      RunTells(task, front);
      var s := After(task, INITIAL, front);
      WaitStep(task, s, step);
      CancelledStep(task, s, step);
      ResultsStep(task, s, step);
      WatcherStep(task, s, step);
      AbortStep(task, s, step);
      OneMoreReport(front, step);
      OneMoreLook(task, front, step);
    }
  }

  lemma NothingIsTold(task: Task)
    ensures Told(task, [], INITIAL)
  {
  }

  // ---------------------------------------------------------------- cancelled before the validators

  /** The first two looks, which come before the validators. */
  ghost predicate EarlyLookSees(task: Task, steps: seq<Step>, i: int) {
    LookSees(task, steps, i) && steps[i] != Run(RecheckLast)
  }

  predicate BeforeValidators(at: Point) {
    BeforeLook(at) || at.Capturing? || at.Rechecking?
  }

  /** No validator has been asked yet, or a cancellation seen before them keeps it so. */
  ghost predicate QuietKept(m: Main, early: bool) {
    && (BeforeValidators(m.at) || early ==> m.results == [] && m.started == {})
    && (early ==> m.cancelledRun && !m.at.NextValidator? && !m.at.RunningValidator? && !BeforeLook(m.at))
  }

  lemma QuietStepOfRun(task: Task, m: Main, step: MainStep, e: Session, timedOut: bool, cancelled: bool, early: bool)
    requires QuietKept(m, early) && MainEnabled(task, m, step, e)
    ensures var sees := (step == ReadCancelled && (cancelled || m.waitErr == Ended(Canceled))) || (step == Recheck && e.request.Some?);
            QuietKept(MainApply(task, m, step, e, timedOut, cancelled), early || sees)
  {
    hide StatusOf;
  }

  lemma QuietStep(task: Task, s: State, step: Step, early: bool)
    requires QuietKept(s.main, early) && Enabled(task, s, step)
    ensures QuietKept(Apply(task, s, step).main, early || (Sees(s, step) && step != Run(RecheckLast)))
  {
    hide StatusOf, SessionApply, SessionEnabled, AlarmApply, AlarmEnabled, Signal, MainApply, MainEnabled, QuietKept;
    if step.Run? {
      QuietStepOfRun(task, s.main, step.m, s.ses, s.timer.up, s.watcher.up, early);
    }
  }

  lemma OneMoreEarlyLook(task: Task, steps: seq<Step>, step: Step)
    requires CanRun(task, INITIAL, steps)
    ensures (exists i :: EarlyLookSees(task, steps + [step], i)) <==>
            (exists i :: EarlyLookSees(task, steps, i)) || (Sees(After(task, INITIAL, steps), step) && step != Run(RecheckLast))
  {
    hide Sees, CanRun, After;
    var more := steps + [step];
    assert more[..|steps|] == steps;
    forall i | 0 <= i < |steps|
      ensures more[..i] == steps[..i] && more[i] == steps[i]
    {
    }
    if i :| EarlyLookSees(task, steps, i) {
      assert EarlyLookSees(task, more, i);
    }
    if i :| EarlyLookSees(task, more, i) {
      assert i < |steps| ==> EarlyLookSees(task, steps, i);
    }
    if Sees(After(task, INITIAL, steps), step) && step != Run(RecheckLast) {
      assert EarlyLookSees(task, more, |steps|);
    }
  }

  lemma {:induction false} RunStaysQuiet(task: Task, steps: seq<Step>)
    requires CanRun(task, INITIAL, steps)
    ensures QuietKept(After(task, INITIAL, steps).main, exists i :: EarlyLookSees(task, steps, i))
    decreases |steps|
  {
    hide Enabled, Apply, QuietKept, EarlyLookSees, Sees;
    if steps == [] {
      QuietStart(task);
    } else {
      var front, step := steps[..|steps| - 1], steps[|steps| - 1];
      assert front + [step] == steps;
      LastStep(task, INITIAL, front, step);
      RunStaysQuiet(task, front);
      OneMoreEarlyLook(task, front, step);
      QuietStep(task, After(task, INITIAL, front), step, exists i :: EarlyLookSees(task, front, i));
    }
  }

  lemma QuietStart(task: Task)
    ensures QuietKept(INITIAL.main, exists i :: EarlyLookSees(task, [], i))
  {
  }

  /** A run that has seen its cancellation before the validators asks none of them, and records no result. */
  lemma EarlyCancelAsksNobody(task: Task, steps: seq<Step>, i: int)
    requires CanRun(task, INITIAL, steps) && EarlyLookSees(task, steps, i)
    ensures var m := After(task, INITIAL, steps).main; m.results == [] && m.started == {}
  {
    hide CanRun, After, EarlyLookSees;
    RunStaysQuiet(task, steps);
  }

  // ---------------------------------------------------------------- what lies outside the run

  /** The three places that call Kill. */
  predicate Kills(step: Step) {
    step == Timer(Kill) || step == Watcher(Kill) || step == Run(WaitKills)
  }

  predicate AnyKills(steps: seq<Step>) {
    exists i :: 0 <= i < |steps| && Kills(steps[i])
  }

  /** The child's own entries, read off the steps: how it ended, whether a kill came first, and whether the
      deadline did. The session's context ends with the request's, or at the deadline; the drain ends with the
      reap, unless the tailer could not open its file; the watcher acts only once the request's context has
      ended, and no validator is started for a task that misses a requirement. */
  ghost predicate Outside(task: Task, steps: seq<Step>, s: State) {
    && (s.ses.child.Alive? ==> !s.ses.reaped && (s.ses.signalled <==> AnyKills(steps)))
    && (s.ses.deadline <==> World(DeadlinePasses) in steps)
    && (s.ses.child.Gone? ==> exists k :: EndsAt(steps, k, s.ses.child))
    && (s.ses.request.Some? ==> s.ses.context.Some?)
    && (s.ses.context.Some? ==> s.ses.context == s.ses.request || (s.ses.context == Some(DeadlineExceeded) && s.ses.deadline))
    && (s.drainDone && Run(DrainEndsUnopened) !in steps ==> s.ses.reaped)
    && (s.main.at.StoringDone? && Run(DrainEndsUnopened) !in steps ==> s.ses.reaped)
    && (BeforeStore(s.main.at) ==> !s.drainDone)
    && (s.watcher.up || s.watcher.at.Loading? || s.watcher.at.Storing? || s.watcher.at.Killing? ==> s.ses.request.Some?)
    && (task.missing ==> s.main.started == {})
  }

  /** Step k is the end of the child. */
  ghost predicate EndsAt(steps: seq<Step>, k: int, child: Child)
    requires child.Gone?
  {
    && 0 <= k < |steps| && steps[k] == World(ChildEnds(child.result))
    && (child.own <==> !AnyKills(steps[..k]))
    && (child.early <==> World(DeadlinePasses) !in steps[..k])
  }

  lemma OneMoreKill(steps: seq<Step>, step: Step)
    ensures AnyKills(steps + [step]) <==> AnyKills(steps) || Kills(step)
  {
    var more := steps + [step];
    assert more[|steps|] == step;
    if i :| 0 <= i < |steps| && Kills(steps[i]) {
      assert Kills(more[i]);
    }
  }

  lemma EndIsKept(steps: seq<Step>, step: Step, k: int, child: Child)
    requires child.Gone? && EndsAt(steps, k, child)
    ensures EndsAt(steps + [step], k, child)
  {
    assert (steps + [step])[..k] == steps[..k];
  }

  lemma ChildStep(task: Task, s: State, step: Step)
    requires Enabled(task, s, step)
    ensures var t := Apply(task, s, step);
            && (s.ses.child.Gone? ==> t.ses.child == s.ses.child)
            && (s.ses.child.Alive? && !s.ses.reaped ==>
                  && !t.ses.reaped
                  && (t.ses.signalled <==> s.ses.signalled || Kills(step))
                  && (t.ses.child.Gone? ==>
                        && step == World(ChildEnds(t.ses.child.result))
                        && t.ses.child == Gone(t.ses.child.result, !s.ses.signalled, !s.ses.deadline)))
            && (t.ses.deadline <==> s.ses.deadline || step == World(DeadlinePasses))
            && (s.ses.reaped ==> t.ses.reaped)
  {
    hide MainApply;
  }

  lemma ContextsStep(task: Task, s: State, step: Step)
    requires Enabled(task, s, step)
    requires s.ses.request.Some? ==> s.ses.context.Some?
    requires s.ses.context.Some? ==> s.ses.context == s.ses.request || (s.ses.context == Some(DeadlineExceeded) && s.ses.deadline)
    ensures var t := Apply(task, s, step);
            && (t.ses.request.Some? ==> t.ses.context.Some?)
            && (t.ses.context.Some? ==>
                  t.ses.context == t.ses.request || (t.ses.context == Some(DeadlineExceeded) && t.ses.deadline))
  {
    hide MainApply, MainEnabled;
  }

  lemma DrainStep(task: Task, s: State, step: Step)
    requires Enabled(task, s, step) && (BeforeStore(s.main.at) ==> !s.drainDone)
    ensures var t := Apply(task, s, step);
            && (t.drainDone && !s.drainDone ==> s.main.at.StoringDone?)
            && (t.main.at.StoringDone? && !s.main.at.StoringDone? ==> s.ses.reaped || step == Run(DrainEndsUnopened))
            && (BeforeStore(t.main.at) ==> !t.drainDone)
  {
    hide StatusOf, SessionApply, SessionEnabled, AlarmApply, AlarmEnabled;
  }

  lemma WatcherFires(task: Task, s: State, step: Step)
    requires Enabled(task, s, step)
    requires s.watcher.up || s.watcher.at.Loading? || s.watcher.at.Storing? || s.watcher.at.Killing? ==> s.ses.request.Some?
    ensures var t := Apply(task, s, step);
            t.watcher.up || t.watcher.at.Loading? || t.watcher.at.Storing? || t.watcher.at.Killing? ==> t.ses.request.Some?
  {
    hide MainApply, MainEnabled;
  }

  lemma NoneStarted(task: Task, s: State, step: Step)
    requires Enabled(task, s, step) && task.missing && s.main.started == {}
    ensures Apply(task, s, step).main.started == {}
  {
    hide StatusOf, SessionApply, SessionEnabled, AlarmApply, AlarmEnabled, Signal;
  }

  lemma {:induction false} RunFromOutside(task: Task, steps: seq<Step>)
    requires CanRun(task, INITIAL, steps)
    ensures Outside(task, steps, After(task, INITIAL, steps))
    decreases |steps|
  {
    hide Enabled, Apply, EndsAt, AnyKills, Kills;
    if steps == [] {
      assert !AnyKills([]) by {
        NoKills();
      }
    } else {
      var front, step := steps[..|steps| - 1], steps[|steps| - 1];
      assert front + [step] == steps;
      LastStep(task, INITIAL, front, step);
      RunFromOutside(task, front);
      var s := After(task, INITIAL, front);
      var t := Apply(task, s, step);
      ChildStep(task, s, step);
      ContextsStep(task, s, step);
      DrainStep(task, s, step);
      WatcherFires(task, s, step);
      if task.missing {
        NoneStarted(task, s, step);
      }
      OneMoreKill(front, step);
      if s.ses.child.Gone? {
        var k :| EndsAt(front, k, s.ses.child);
        EndIsKept(front, step, k, s.ses.child);
      } else if t.ses.child.Gone? {
        EndsNow(front, s, t.ses.child);
      }
    }
  }

  lemma EndsNow(steps: seq<Step>, s: State, child: Child)
    requires child.Gone? && child == Gone(child.result, !s.ses.signalled, !s.ses.deadline)
    requires (s.ses.signalled <==> AnyKills(steps)) && (s.ses.deadline <==> World(DeadlinePasses) in steps)
    ensures EndsAt(steps + [World(ChildEnds(child.result))], |steps|, child)
  {
    assert (steps + [World(ChildEnds(child.result))])[..|steps|] == steps;
  }

  lemma NoKills()
    ensures !AnyKills([])
  {
  }

  // ---------------------------------------------------------------- the verdict

  /** Every run with a status, read off its steps. It is a timeout exactly under the condition of `TimeoutIff`.
      Otherwise it is an error exactly if one of the three looks saw a cancellation or the child did not end
      with exit code 0; without either it is failed exactly if a reported result blocks, and passed exactly
      if none does. */
  lemma VerdictIff(task: Task, steps: seq<Step>)
    requires CanRun(task, INITIAL, steps) && After(task, INITIAL, steps).main.at.Decided?
    ensures var s := After(task, INITIAL, steps); var status := s.main.at.status;
            && s.ses.child.Gone?
            && (status == RunTimeout <==> TakesExpired(task, steps) || StoresInTime(steps))
            && (status != RunTimeout ==>
                  var clean := !IsCancelled(task, steps) && s.ses.child.result == Exit(0);
                  && (status == RunError <==> !clean)
                  && (status == RunFailed <==> clean && AnyBlocks(Reported(steps)))
                  && (status == RunPassed <==> clean && !AnyBlocks(Reported(steps))))
  {
    hide Enabled, Apply, CanRun, After, TakesExpired, StoresInTime, IsCancelled, Reported, AnyBlocks, Inv;
    var s := After(task, INITIAL, steps);
    assert Reachable(task, s) by {
      ItIsReached(task, steps);
    }
    TimeoutIff(task, steps);
    RunTells(task, steps);
    CancelIsSeen(task, steps);
    if s.main.at.status != RunTimeout {
      DecidedStatusIff(task, s);
      NotCancelledMeansChild(s.main, s.ses);
    }
  }

  lemma NotCancelledMeansChild(m: Main, e: Session)
    requires WaitKept(m, e) && ErrorIsSeen(m) && m.at.Decided? && m.at.status != RunTimeout
    ensures m.cancelledRun || m.waitErr != NoError || m.exitCode != 0 <==>
            m.cancelledRun || e.child.result != Exit(0)
  {
    match m.waitErr
    case Ended(Canceled) =>
    case Ended(DeadlineExceeded) =>
    case _ =>
  }

  lemma ItIsReached(task: Task, steps: seq<Step>)
    requires CanRun(task, INITIAL, steps)
    ensures Reachable(task, After(task, INITIAL, steps))
  {
  }

  /** A decided run in which Wait reported a cancellation was cancelled, and one in which it reported an expired
      deadline is a timeout. */
  ghost predicate ErrorIsSeen(m: Main) {
    && (m.waitErr == Ended(Canceled) && !BeforeLook(m.at) && !m.at.Aborted? ==> m.cancelledRun)
    && (m.waitErr == Ended(DeadlineExceeded) && m.at.Decided? ==> m.at.status == RunTimeout)
  }

  lemma ErrorIsSeenStep(task: Task, m: Main, step: MainStep, e: Session, timedOut: bool, cancelled: bool)
    requires ErrorIsSeen(m) && MainEnabled(task, m, step, e)
    ensures ErrorIsSeen(MainApply(task, m, step, e, timedOut, cancelled))
  {
  }

  lemma {:induction false} CancelIsSeen(task: Task, steps: seq<Step>)
    requires CanRun(task, INITIAL, steps)
    ensures ErrorIsSeen(After(task, INITIAL, steps).main)
    decreases |steps|
  {
    hide ErrorIsSeen, MainEnabled, MainApply;
    if steps == [] {
      assert ErrorIsSeen(INITIAL.main) by {
        NoErrorYet();
      }
    } else {
      var front, step := steps[..|steps| - 1], steps[|steps| - 1];
      assert front + [step] == steps;
      LastStep(task, INITIAL, front, step);
      CancelIsSeen(task, front);
      var s := After(task, INITIAL, front);
      if step.Run? {
        ErrorIsSeenStep(task, s.main, step.m, s.ses, s.timer.up, s.watcher.up);
      }
    }
  }

  lemma NoErrorYet()
    ensures ErrorIsSeen(INITIAL.main)
  {
  }
}
