/** What every run of the streaming session guarantees: the drained log is the child's output,
    Wait always gets there, and its result is fixed. */
module SessionGuarantees {
  import opened Options
  import opened SessionStream

  lemma ReachableInv(steps: seq<Step>)
    requires Valid(InitialState, steps)
    ensures Inv(Exec(InitialState, steps))
  {
    RunKeepsInv(InitialState, steps);
  }

  // ---------------------------------------------------------------- the log

  /** In any run at all, a consumer that saw Events close has logged exactly the child's output,
      newline-terminated, if and only if the tailer never took its discard branch. */
  lemma DrainedLogLosesOnlyDrops(steps: seq<Step>)
    requires Valid(InitialState, steps) && Exec(InitialState, steps).out.consumer.Finished?
    ensures var s := Exec(InitialState, steps);
            && (s.tail.openFailed ==> s.out.log == [])
            && (!s.tail.openFailed ==>
                  && s.proc.procDone
                  && |s.out.log| + s.out.dropped == |Terminated(s.proc.stdout)|
                  && (s.out.log == Terminated(s.proc.stdout) <==> s.out.dropped == 0))
  {
    ReachableInv(steps);
    var s := Exec(InitialState, steps);
    assert Accounted(s.tail, s.out) == s.out.log;
  }

  /** The runner's discipline: Wait is called only once the drain of Events has ended. */
  predicate Disciplined(s: State, steps: seq<Step>)
    requires Valid(s, steps)
    decreases |steps|
  {
    steps == [] ||
    ((steps[0] == Ctl(CallWait) ==> !s.out.consumer.Draining?) && Disciplined(Apply(s, steps[0]), steps[1..]))
  }

  predicate Undropped(s: State) {
    && (s.out.consumer.Draining? ==> s.ctl.waiter.NotCalled?)
    && (!s.out.consumer.Abandoned? ==> s.out.dropped == 0)
  }

  lemma DropNeedsDiscard(p: Process, t: Tailer, d: Delivery, discard: bool, step: TailStep)
    requires DeliveryInv(t, d) && TailEnabled(p, t, d, discard, step)
    ensures TailApply(p, t, d, discard, step).1.consumer == d.consumer
    ensures !discard || d.consumer.Finished? ==> TailApply(p, t, d, discard, step).1.dropped == d.dropped
  {
  }

  lemma StepKeepsUndropped(s: State, step: Step)
    requires Inv(s) && Undropped(s) && Enabled(s, step)
    requires step == Ctl(CallWait) ==> !s.out.consumer.Draining?
    ensures Undropped(Apply(s, step))
  {
    hide DataInv, TailApply, TailEnabled;
    if step.Tail? {
      DropNeedsDiscard(s.proc, s.tail, s.out, s.ctl.discard, step.t);
    }
  }

  lemma {:induction false} DisciplineKeepsUndropped(s: State, steps: seq<Step>)
    requires Inv(s) && Undropped(s) && Valid(s, steps) && Disciplined(s, steps)
    ensures Undropped(Exec(s, steps))
    decreases |steps|
  {
    hide Inv, Apply, Enabled, Undropped;
    if steps != [] {
      StepKeepsInv(s, steps[0]);
      StepKeepsUndropped(s, steps[0]);
      DisciplineKeepsUndropped(Apply(s, steps[0]), steps[1..]);
    }
  }

  /** Whatever the interleaving of child writes, reaper, tailer polls, kills, context ends and
      consumer, draining Events to close before calling Wait leaves a log byte-equal to the
      child's output, one newline added only where the last line lacks it. The one way to lose
      output is a tailer that could not open the file. */
  lemma DrainedLogIsOutput(steps: seq<Step>)
    requires Valid(InitialState, steps) && Disciplined(InitialState, steps)
    requires Exec(InitialState, steps).out.consumer.Finished?
    ensures var s := Exec(InitialState, steps);
            && (!s.tail.openFailed ==> s.out.log == Terminated(s.proc.stdout))
            && (s.out.log == Terminated(s.proc.stdout) <==> !s.tail.openFailed || s.proc.stdout == [])
  {
    DrainedLogLosesOnlyDrops(steps);
    DisciplineKeepsUndropped(InitialState, steps);
  }

  lemma LogWithinOutput(p: Process, t: Tailer, d: Delivery)
    requires t.offset <= |p.stdout| && DataInv(p, t, d) && d.dropped == 0 && !t.openFailed
    ensures d.log <= Terminated(p.stdout)
  {
    assert d.log <= Accounted(t, d);
    assert Expected(p, t) <= Terminated(p.stdout);
  }

  /** Before the end, what is logged is always a prefix of that final text. */
  lemma LogIsPrefix(steps: seq<Step>)
    requires Valid(InitialState, steps) && Disciplined(InitialState, steps)
    requires Exec(InitialState, steps).out.consumer.Draining?
    ensures var s := Exec(InitialState, steps); s.out.log <= Terminated(s.proc.stdout)
  {
    ReachableInv(steps);
    DisciplineKeepsUndropped(InitialState, steps);
    hide DataInv;
    var s := Exec(InitialState, steps);
    if !s.tail.openFailed {
      LogWithinOutput(s.proc, s.tail, s.out);
    }
  }

  lemma {:induction false} Extend(s: State, steps: seq<Step>, step: Step)
    requires Valid(s, steps) && Enabled(Exec(s, steps), step)
    ensures Valid(s, steps + [step]) && Exec(s, steps + [step]) == Apply(Exec(s, steps), step)
    decreases |steps|
  {
    if steps == [] {
      assert steps + [step] == [step];
    } else {
      assert (steps + [step])[1..] == steps[1..] + [step];
      Extend(Apply(s, steps[0]), steps[1..], step);
    }
  }

  lemma Then(steps: seq<Step>, step: Step) returns (longer: seq<Step>)
    requires Valid(InitialState, steps) && Enabled(Exec(InitialState, steps), step)
    ensures Valid(InitialState, longer)
    ensures Exec(InitialState, longer) == Apply(Exec(InitialState, steps), step)
  {
    Extend(InitialState, steps, step);
    longer := steps + [step];
  }

  const ReapedProcess := Process([NEWLINE], Exited(ExitZero), Some(ExitZero), true)
  const WaitingControl := Control(JoiningTail, None, None, true, KillIdle, NotStarted)

  lemma WaitBeforeAnyRead() returns (steps: seq<Step>)
    ensures Valid(InitialState, steps)
    ensures Exec(InitialState, steps) == InitialState.(proc := ReapedProcess, ctl := WaitingControl)
  {
    steps := [];
    steps := Then(steps, Proc(ChildWrite([NEWLINE])));
    steps := Then(steps, Proc(ChildExit(ExitZero)));
    steps := Then(steps, Proc(ReapRecord));
    steps := Then(steps, Proc(ReapSignal));
    steps := Then(steps, Ctl(CallWait));
    steps := Then(steps, Ctl(SelectProc));
    steps := Then(steps, Ctl(CloseDiscard));
  }

  lemma ReadThenDrop() returns (steps: seq<Step>)
    ensures Valid(InitialState, steps)
    ensures Exec(InitialState, steps) ==
            State(ReapedProcess, Tailer(Splitting(false), 1, [], false, false),
                  Delivery([], 0, 1, Draining, []), WaitingControl)
  {
    steps := WaitBeforeAnyRead();
    steps := Then(steps, Tail(OpenOk));
    steps := Then(steps, Tail(ReadSome(1)));
    steps := Then(steps, Tail(ReadEof));
    steps := Then(steps, Tail(SplitLine));
    steps := Then(steps, Tail(Drop));
  }

  /** Without the discipline a line can be lost: Wait closes the discard signal while a line is
      pending, and the tailer may take that branch although the channel has room. */
  lemma WaitBeforeDrainCanLoseALine() returns (steps: seq<Step>)
    ensures Valid(InitialState, steps)
    ensures var s := Exec(InitialState, steps);
            s.out.consumer.Finished? && !s.tail.openFailed && s.proc.stdout == [NEWLINE] && s.out.log == []
  {
    steps := ReadThenDrop();
    steps := Then(steps, Tail(SplitDone));
    steps := Then(steps, Tail(Check));
    steps := Then(steps, Tail(ReadEof));
    steps := Then(steps, Tail(SplitDone));
    steps := Then(steps, Tail(Flush));
    steps := Then(steps, Tail(CloseEvents));
    steps := Then(steps, Consume(SeeClosed));
  }

  lemma {:induction false} ExtendDisciplined(s: State, steps: seq<Step>, step: Step)
    requires Valid(s, steps) && Enabled(Exec(s, steps), step) && Disciplined(s, steps)
    requires step == Ctl(CallWait) ==> !Exec(s, steps).out.consumer.Draining?
    ensures Valid(s, steps + [step]) && Disciplined(s, steps + [step])
    decreases |steps|
  {
    hide Enabled, Apply;
    Extend(s, steps, step);
    if steps == [] {
      assert steps + [step] == [step] && [step][1..] == [];
    } else {
      assert (steps + [step])[1..] == steps[1..] + [step];
      ExtendDisciplined(Apply(s, steps[0]), steps[1..], step);
    }
  }

  ghost predicate DisciplinedTo(steps: seq<Step>, s: State) {
    Valid(InitialState, steps) && Disciplined(InitialState, steps) && Exec(InitialState, steps) == s
  }

  lemma ThenTo(steps: seq<Step>, s: State, step: Step) returns (longer: seq<Step>, t: State)
    requires DisciplinedTo(steps, s) && Enabled(s, step)
    requires step == Ctl(CallWait) ==> !s.out.consumer.Draining?
    ensures t == Apply(s, step) && DisciplinedTo(longer, t)
  {
    hide Enabled, Apply;
    Extend(InitialState, steps, step);
    ExtendDisciplined(InitialState, steps, step);
    longer, t := steps + [step], Apply(s, step);
  }

  const SilentExit := Process([], Exited(ExitZero), Some(ExitZero), true)
  const EndedTail := Tailer(TailEnded, 0, [], false, true)

  lemma SilentChildIsReaped() returns (steps: seq<Step>)
    ensures DisciplinedTo(steps, InitialState.(proc := SilentExit))
  {
    hide Valid, Exec, Disciplined;
    assert DisciplinedTo([], InitialState) by {
      NothingDone();
    }
    var s;
    hide DisciplinedTo;
    steps, s := ThenTo([], InitialState, Proc(ChildExit(ExitZero)));
    steps, s := ThenTo(steps, s, Proc(ReapRecord));
    steps, s := ThenTo(steps, s, Proc(ReapSignal));
  }

  lemma NothingDone()
    ensures DisciplinedTo([], InitialState)
  {
  }

  lemma SilentChildIsTailed() returns (steps: seq<Step>, s: State)
    ensures DisciplinedTo(steps, s)
    ensures s == State(SilentExit, Tailer(ClosingEvents, 0, [], false, false), InitialState.out, InitialState.ctl)
  {
    hide DisciplinedTo;
    steps := SilentChildIsReaped();
    steps, s := ThenTo(steps, InitialState.(proc := SilentExit), Tail(OpenOk));
    steps, s := ThenTo(steps, s, Tail(ReadEof));
    steps, s := ThenTo(steps, s, Tail(SplitDone));
    steps, s := ThenTo(steps, s, Tail(Check));
    steps, s := ThenTo(steps, s, Tail(ReadEof));
    steps, s := ThenTo(steps, s, Tail(SplitDone));
    steps, s := ThenTo(steps, s, Tail(Flush));
  }

  lemma SilentChildIsDrained() returns (steps: seq<Step>, s: State)
    ensures DisciplinedTo(steps, s)
    ensures s == State(SilentExit, EndedTail, Delivery([], 1, 0, Finished, []), InitialState.ctl)
  {
    hide DisciplinedTo;
    steps, s := SilentChildIsTailed();
    steps, s := ThenTo(steps, s, Tail(CloseEvents));
    steps, s := ThenTo(steps, s, Tail(CloseTail));
    steps, s := ThenTo(steps, s, Consume(SeeClosed));
  }

  lemma WaitSelectsTheContext() returns (steps: seq<Step>, s: State)
    ensures DisciplinedTo(steps, s)
    ensures s == State(SilentExit, EndedTail, Delivery([], 1, 0, Finished, []),
                       Control(AwaitingProc, Some(DeadlineExceeded), Some(DeadlineExceeded), false, KillIdle, NotStarted))
  {
    hide DisciplinedTo;
    steps, s := SilentChildIsDrained();
    steps, s := ThenTo(steps, s, Ctl(ContextEnds(DeadlineExceeded)));
    steps, s := ThenTo(steps, s, Ctl(CallWait));
    steps, s := ThenTo(steps, s, Ctl(SelectContext));
    steps, s := ThenTo(steps, s, Ctl(WaitKillCheck));
  }

  /** The select of Wait prefers nothing: of a child that exited with 0 by itself, was reaped and has its
      Events drained to the end, Wait reports the expired context's error when the deadline passes before
      the select. Nobody has signalled the child: no grace period was started. */
  lemma ExpiredContextHidesACleanExit() returns (steps: seq<Step>, s: State)
    ensures DisciplinedTo(steps, s)
    ensures s.proc.child == Exited(ExitZero) && s.out.consumer.Finished? && s.ctl.grace.NotStarted?
    ensures s.ctl.waiter == Returned(-1, Context(DeadlineExceeded))
  {
    hide DisciplinedTo;
    steps, s := WaitSelectsTheContext();
    steps, s := ThenTo(steps, s, Ctl(WaitProc));
    steps, s := ThenTo(steps, s, Ctl(CloseDiscard));
    steps, s := ThenTo(steps, s, Ctl(JoinTail));
    steps, s := ThenTo(steps, s, Ctl(JoinKill));
    steps, s := ThenTo(steps, s, Ctl(CleanUp));
  }

  // ---------------------------------------------------------------- progress of Wait

  predicate Environment(step: Step) {
    step.Proc? || (step.Ctl? && (step.k.ContextEnds? || step.k.CallKill? || step.k.CallWait?))
  }

  function TailRank(at: TailPoint): nat {
    match at
    case Opening => 20
    case Ticking => 19
    case Reading(final) => if final then 12 else 18
    case Emitting(final, _) => if final then 11 else 17
    case Splitting(final) => if final then 9 else 15
    case Checking => 14
    case Flushing => 8
    case EmittingLast(_) => 7
    case ClosingEvents => 4
    case ClosingTail => 3
    case TailEnded => 0
  }

  function WaitRank(w: WaitPoint): nat {
    match w
    case NotCalled => 13
    case Selecting => 12
    case KillCheck => 11
    case KillSignal => 10
    case AwaitingProc => 7
    case ClosingDiscard => 6
    case JoiningTail => 5
    case JoiningKill => 4
    case AwaitingGrace => 3
    case CleaningUp => 2
    case Returned(_, _) => 0
  }

  function ControlRank(c: Control): nat {
    WaitRank(c.waiter)
    + (if c.killer.KillChecked? then 3 else 0)
    + (if c.grace.InGrace? then 2 else if c.grace.GraceEnding? then 1 else 0)
  }

  /** Unread bytes, buffered bytes, queued lines and program points, weighted so that every step
      of the session's own actors makes the sum smaller once the child has been reaped. */
  function Measure(s: State): nat
    requires s.tail.offset <= |s.proc.stdout|
  {
    TailMeasure(s.proc, s.tail, s.out) + ControlRank(s.ctl) + (if s.out.consumer.Draining? then 1 else 0)
  }

  function TailMeasure(p: Process, t: Tailer, d: Delivery): nat
    requires t.offset <= |p.stdout|
  {
    4 * (|p.stdout| - t.offset) + 3 * |t.buf| + |d.events| + TailRank(t.at)
  }

  lemma TailStepLowers(p: Process, t: Tailer, d: Delivery, discard: bool, step: TailStep)
    requires t.offset <= |p.stdout| && p.procDone && TailEnabled(p, t, d, discard, step)
    ensures var (u, e) := TailApply(p, t, d, discard, step);
            u.offset <= |p.stdout| && TailMeasure(p, u, e) < TailMeasure(p, t, d) && e.consumer == d.consumer
  {
  }

  lemma ControlStepLowers(tailDone: bool, waitResult: Option<ChildResult>, c: Control, step: ControlStep)
    requires ControlEnabled(true, tailDone, c, step)
    ensures ControlRank(ControlApply(true, tailDone, waitResult, c, step))
            + (if Environment(Ctl(step)) then 0 else 1) <= ControlRank(c)
    ensures !c.waiter.NotCalled? ==> !ControlApply(true, tailDone, waitResult, c, step).waiter.NotCalled?
    ensures c.waiter.Returned? ==> ControlApply(true, tailDone, waitResult, c, step).waiter == c.waiter
  {
  }

  lemma TakeLowers(p: Process, t: Tailer, d: Delivery, step: ConsumerStep)
    requires t.offset <= |p.stdout| && ConsumerEnabled(d, step)
    ensures var e := ConsumerApply(d, step);
            TailMeasure(p, t, e) + (if e.consumer.Draining? then 1 else 0) < TailMeasure(p, t, d) + 1
  {
  }

  lemma StepLowersMeasure(s: State, step: Step)
    requires Inv(s) && s.proc.procDone && Enabled(s, step)
    ensures Inv(Apply(s, step)) && Apply(s, step).proc == s.proc
    ensures Measure(Apply(s, step)) + (if Environment(step) then 0 else 1) <= Measure(s)
    ensures !s.ctl.waiter.NotCalled? ==> !Apply(s, step).ctl.waiter.NotCalled?
  {
    StepKeepsInv(s, step);
    hide TailApply, TailEnabled, ControlApply, TailMeasure, ControlRank, DataInv, DeliveryInv, BufInv;
    match step
    case Consume(c) => TakeLowers(s.proc, s.tail, s.out, c);
    case Tail(t) => TailStepLowers(s.proc, s.tail, s.out, s.ctl.discard, t);
    case Ctl(k) => ControlStepLowers(s.tail.done, s.proc.waitResult, s.ctl, k);
    case _ =>
  }

  function SystemSteps(steps: seq<Step>): nat {
    if steps == [] then 0 else (if Environment(steps[0]) then 0 else 1) + SystemSteps(steps[1..])
  }

  /** Once the child has been reaped, every continuation spends its measure: the session's own
      actors can take no more steps than the measure allows, whatever the environment does. */
  lemma {:induction false} SystemStepsAreBounded(s: State, steps: seq<Step>)
    requires Inv(s) && s.proc.procDone && Valid(s, steps)
    ensures Inv(Exec(s, steps))
    ensures SystemSteps(steps) + Measure(Exec(s, steps)) <= Measure(s)
    decreases |steps|
  {
    hide Inv, Apply, Enabled, Measure;
    if steps != [] {
      StepLowersMeasure(s, steps[0]);
      SystemStepsAreBounded(Apply(s, steps[0]), steps[1..]);
    }
  }

  /** A step of the tailer that needs no consumer, once Wait has closed the discard signal. */
  function TailerMove(p: Process, t: Tailer, d: Delivery): (step: TailStep)
    requires !t.at.TailEnded? && t.offset <= |p.stdout|
    ensures TailEnabled(p, t, d, true, step)
  {
    match t.at
    case Opening => OpenOk
    case Reading(_) => if t.offset < |p.stdout| then ReadSome(1) else ReadEof
    case Splitting(_) => if NewlineIndex(t.buf) < |t.buf| then SplitLine else SplitDone
    case Emitting(_, _) => Drop
    case EmittingLast(_) => Drop
    case Checking => Check
    case Ticking => Tick
    case Flushing => Flush
    case ClosingEvents => CloseEvents
    case _ => CloseTail
  }

  /** With the child reaped and Wait called, some actor other than the consumer can always move
      until Wait has returned, so a consumer that never reads again blocks nothing. */
  function NextMove(s: State): (step: Step)
    requires Inv(s) && s.proc.procDone && !s.ctl.waiter.NotCalled? && !s.ctl.waiter.Returned?
    ensures Enabled(s, step) && !Environment(step) && !step.Consume?
  {
    match s.ctl.waiter
    case Selecting => Ctl(SelectProc)
    case KillCheck => Ctl(WaitKillCheck)
    case KillSignal => Ctl(WaitKillSignal)
    case AwaitingProc => Ctl(WaitProc)
    case ClosingDiscard => Ctl(CloseDiscard)
    case JoiningTail => if s.tail.done then Ctl(JoinTail) else Tail(TailerMove(s.proc, s.tail, s.out))
    case JoiningKill => Ctl(JoinKill)
    case AwaitingGrace =>
      Ctl(if s.ctl.grace.GraceEnded? then JoinGrace else if s.ctl.grace.InGrace? then GraceSeesExit else GraceClose)
    case _ => Ctl(CleanUp)
  }

  /** A run in which the session's actors can do nothing more has returned from Wait. */
  lemma QuiescentMeansReturned(steps: seq<Step>)
    requires Valid(InitialState, steps)
    requires var s := Exec(InitialState, steps);
             && s.proc.procDone && !s.ctl.waiter.NotCalled?
             && forall step :: Enabled(s, step) ==> Environment(step) || step.Consume?
    ensures Exec(InitialState, steps).ctl.waiter.Returned?
  {
    ReachableInv(steps);
    var s := Exec(InitialState, steps);
    if !s.ctl.waiter.Returned? {
      var step := NextMove(s);
      assert false;
    }
  }

  /** From any state with the child reaped and Wait called there is a way to Wait's return that
      never involves the consumer, no longer than the measure. */
  lemma {:induction false} WaitCanReturn(s: State) returns (steps: seq<Step>)
    requires Inv(s) && s.proc.procDone && !s.ctl.waiter.NotCalled?
    ensures Valid(s, steps) && |steps| <= Measure(s)
    ensures forall i :: 0 <= i < |steps| ==> !steps[i].Consume? && !Environment(steps[i])
    ensures Exec(s, steps).ctl.waiter.Returned?
    decreases Measure(s)
  {
    hide DataInv, TailInv, DeliveryInv, Apply, Enabled;
    if s.ctl.waiter.Returned? {
      steps := [];
    } else {
      var step := NextMove(s);
      StepLowersMeasure(s, step);
      var rest := WaitCanReturn(Apply(s, step));
      steps := [step] + rest;
      assert steps[1..] == rest;
    }
  }

  // ---------------------------------------------------------------- progress of the drain

  /** A step of the tailer that drops nothing, while the channel has room. */
  function SendingMove(p: Process, t: Tailer, d: Delivery, discard: bool): (step: TailStep)
    requires !t.at.ClosingTail? && !t.at.TailEnded? && t.offset <= |p.stdout| && d.events == []
    ensures TailEnabled(p, t, d, discard, step) && step != Drop
  {
    if EmitPending(t.at) then Send else TailerMove(p, t, d)
  }

  /** A draining consumer takes what is queued, sees Events closed, or waits for the tailer. */
  function DrainMove(s: State): (step: Step)
    requires Inv(s) && s.out.consumer.Draining?
    ensures Enabled(s, step) && Drains(step)
    ensures step.Consume? ==> step.c.Take? || step.c.SeeClosed?
  {
    if s.out.events != [] then Consume(Take)
    else if s.out.closes > 0 then Consume(SeeClosed)
    else Tail(SendingMove(s.proc, s.tail, s.out, s.ctl.discard))
  }

  /** The tailer's own steps without its discard branch, and the consumer's without giving up. */
  predicate Drains(step: Step) {
    (step.Tail? && !step.t.Drop?) || (step.Consume? && !step.c.GiveUp?)
  }

  lemma DrainGoesOn(s: State, step: Step)
    requires s.out.consumer.Draining? && Enabled(s, step) && Drains(step)
    ensures var d := Apply(s, step).out; d.consumer.Draining? || d.consumer.Finished?
  {
  }

  /** The drain ends: once the child has been reaped, the tailer and a consumer that goes on reading reach
      the close of Events within the measure, with nothing dropped on the way and no step of Wait. */
  lemma {:induction false} DrainCanFinish(s: State) returns (steps: seq<Step>)
    requires Inv(s) && s.proc.procDone && s.out.consumer.Draining?
    ensures Valid(s, steps) && |steps| <= Measure(s)
    ensures forall i :: 0 <= i < |steps| ==> Drains(steps[i])
    ensures Exec(s, steps).out.consumer.Finished?
    decreases Measure(s)
  {
    hide DataInv, TailInv, DeliveryInv, Apply, Enabled, Measure, Drains;
    var step := DrainMove(s);
    DrainGoesOn(s, step);
    DrainIsNoEnvironment(step);
    StepLowersMeasure(s, step);
    var next, rest := Apply(s, step), [];
    if next.out.consumer.Draining? {
      rest := DrainCanFinish(next);
    }
    steps := [step] + rest;
    assert steps[1..] == rest;
  }

  lemma DrainIsNoEnvironment(step: Step)
    ensures Drains(step) ==> !Environment(step)
  {
  }

  // ---------------------------------------------------------------- progress of a killed session

  /** Wait has seen the context's end, and the child has not been reaped for it yet. */
  predicate Stopping(w: WaitPoint) {
    w.KillCheck? || w.KillSignal? || w.AwaitingProc?
  }

  /** A grace period that is over leaves no child running; Wait waits only for a child that has been
      signalled or reaped, and remembers the context's error meanwhile. */
  predicate GraceInv(s: State) {
    && (s.ctl.grace.GraceEnding? || s.ctl.grace.GraceEnded? ==> s.proc.child.Exited?)
    && (s.ctl.waiter.AwaitingProc? && !s.proc.procDone ==> !s.ctl.grace.NotStarted?)
    && (Stopping(s.ctl.waiter) ==> s.ctl.ctxErr.Some?)
  }

  lemma StepKeepsGrace(s: State, step: Step)
    requires ProcInv(s.proc) && GraceInv(s) && Enabled(s, step)
    ensures GraceInv(Apply(s, step))
  {
    hide TailApply, TailEnabled, ConsumerApply, ConsumerEnabled;
  }

  lemma {:induction false} RunKeepsGrace(s: State, steps: seq<Step>)
    requires Inv(s) && GraceInv(s) && Valid(s, steps)
    ensures GraceInv(Exec(s, steps))
    decreases |steps|
  {
    hide GraceInv, DataInv, TailInv, DeliveryInv, ControlInv, Apply, Enabled;
    if steps != [] {
      StepKeepsInv(s, steps[0]);
      StepKeepsGrace(s, steps[0]);
      RunKeepsGrace(Apply(s, steps[0]), steps[1..]);
    }
  }

  lemma StartIsSound()
    ensures Inv(InitialState) && GraceInv(InitialState)
  {
  }

  /** The steps left when the child does not end by itself: Wait's, the grace goroutine's, the tailer's and
      the reaper's. */
  predicate WithoutTheChild(step: Step) {
    !step.Consume? && (Environment(step) ==> step == Proc(ReapRecord) || step == Proc(ReapSignal))
  }

  /** Wait signals, the grace period runs out, and the killed child is reaped. */
  function KillMove(s: State): (step: Step)
    requires ProcInv(s.proc) && GraceInv(s) && Stopping(s.ctl.waiter) && !s.proc.procDone
    ensures Enabled(s, step) && WithoutTheChild(step)
  {
    match s.ctl.waiter
    case KillCheck => Ctl(WaitKillCheck)
    case KillSignal => Ctl(WaitKillSignal)
    case _ =>
      if s.proc.child.Running? then Ctl(GraceTimeout)
      else if s.proc.waitResult.None? then Proc(ReapRecord)
      else Proc(ReapSignal)
  }

  function KillRank(s: State): nat {
    WaitRank(s.ctl.waiter) + (if s.proc.child.Running? then 1 else 0) + (if s.proc.waitResult.None? then 1 else 0)
    + (if s.proc.procDone then 0 else 1)
  }

  lemma KillMoveLowers(s: State)
    requires ProcInv(s.proc) && GraceInv(s) && Stopping(s.ctl.waiter) && !s.proc.procDone
    ensures var t := Apply(s, KillMove(s));
            && KillRank(t) < KillRank(s) && Stopping(t.ctl.waiter) && t.ctl.ctxErr == s.ctl.ctxErr
  {
  }

  lemma ContextErrorStays(s: State, step: Step)
    requires Enabled(s, step) && !s.ctl.waiter.NotCalled? && !s.ctl.waiter.Selecting?
    ensures var c := Apply(s, step).ctl;
            c.ctxErr == s.ctl.ctxErr && !c.waiter.NotCalled? && !c.waiter.Selecting?
  {
    hide TailApply, TailEnabled, ConsumerApply, ConsumerEnabled, ProcApply, ProcEnabled;
  }

  lemma {:induction false} ContextErrorIsFinal(s: State, steps: seq<Step>)
    requires Valid(s, steps) && !s.ctl.waiter.NotCalled? && !s.ctl.waiter.Selecting?
    ensures Exec(s, steps).ctl.ctxErr == s.ctl.ctxErr
    decreases |steps|
  {
    hide Apply, Enabled;
    if steps != [] {
      ContextErrorStays(s, steps[0]);
      ContextErrorIsFinal(Apply(s, steps[0]), steps[1..]);
    }
  }

  lemma {:induction false} KilledWaitReturns(s: State) returns (steps: seq<Step>)
    requires Inv(s) && GraceInv(s) && Stopping(s.ctl.waiter)
    ensures Valid(s, steps) && forall i :: 0 <= i < |steps| ==> WithoutTheChild(steps[i])
    ensures Exec(s, steps).ctl.waiter.Returned? && Inv(Exec(s, steps))
    decreases KillRank(s)
  {
    hide GraceInv, DataInv, TailInv, DeliveryInv, ControlInv, Apply, Enabled, KillRank;
    if s.proc.procDone {
      steps := WaitCanReturn(s);
      RunKeepsInv(s, steps);
    } else {
      var step := KillMove(s);
      KillMoveLowers(s);
      StepKeepsInv(s, step);
      StepKeepsGrace(s, step);
      var rest := KilledWaitReturns(Apply(s, step));
      steps := [step] + rest;
      assert steps[1..] == rest;
    }
  }

  /** In every run, once Wait has seen the context's end it can return without the child's help: neither
      the child ending by itself nor the consumer takes part, and the result is the context's error. */
  lemma EndedContextCanReturn(before: seq<Step>) returns (steps: seq<Step>)
    requires Valid(InitialState, before) && Stopping(Exec(InitialState, before).ctl.waiter)
    ensures var s := Exec(InitialState, before);
            && Valid(s, steps) && (forall i :: 0 <= i < |steps| ==> WithoutTheChild(steps[i]))
            && s.ctl.ctx.Some?
            && Exec(s, steps).ctl.waiter == Returned(-1, Context(s.ctl.ctx.value))
  {
    hide DataInv, TailInv, DeliveryInv, Apply, Enabled;
    ReachableInv(before);
    StartIsSound();
    RunKeepsGrace(InitialState, before);
    var s := Exec(InitialState, before);
    steps := KilledWaitReturns(s);
    ContextErrorIsFinal(s, steps);
  }

  // ---------------------------------------------------------------- what Kill does

  /** The steps that signal the process group: Kill's, called by anyone, and that of Wait's own kill. */
  predicate Signals(step: Step) {
    step == Ctl(KillOnce) || step == Ctl(WaitKillSignal)
  }

  lemma SignalStep(s: State, step: Step)
    requires Enabled(s, step)
    ensures !Apply(s, step).ctl.grace.NotStarted? <==> !s.ctl.grace.NotStarted? || Signals(step)
  {
    hide TailApply, TailEnabled, ConsumerApply, ConsumerEnabled, ProcApply, ProcEnabled;
  }

  lemma {:induction false} SignalRun(s: State, steps: seq<Step>)
    requires Valid(s, steps)
    ensures !Exec(s, steps).ctl.grace.NotStarted? <==>
            !s.ctl.grace.NotStarted? || exists i :: 0 <= i < |steps| && Signals(steps[i])
    decreases |steps|
  {
    hide Apply, Enabled, Signals;
    if steps != [] {
      SignalStep(s, steps[0]);
      SignalRun(Apply(s, steps[0]), steps[1..]);
      assert forall i :: 0 < i < |steps| ==> steps[i] == steps[1..][i - 1];
      assert forall i :: 0 <= i < |steps| - 1 ==> steps[1..][i] == steps[i + 1];
    }
  }

  /** In every run the grace period has begun exactly if some kill has signalled the group. */
  lemma GraceIffSignalled(steps: seq<Step>)
    requires Valid(InitialState, steps)
    ensures !Exec(InitialState, steps).ctl.grace.NotStarted? <==> exists i :: 0 <= i < |steps| && Signals(steps[i])
  {
    hide Signals;
    SignalRun(InitialState, steps);
  }

  /** The steps of a killed session that is drained: a call of Kill, the grace goroutine's SIGKILL, the
      reaper, the tailer without its discard branch and a consumer that goes on reading. */
  predicate KillsAndDrains(step: Step) {
    || step == Ctl(CallKill) || step == Ctl(KillOnce) || step == Ctl(GraceTimeout)
    || step == Proc(ReapRecord) || step == Proc(ReapSignal) || Drains(step)
  }

  /** A running child whose grace period runs is killed and reaped. */
  lemma GraceKills(s: State) returns (steps: seq<Step>)
    requires Inv(s) && s.proc.child.Running? && s.ctl.grace.InGrace?
    ensures steps == [Ctl(GraceTimeout), Proc(ReapRecord), Proc(ReapSignal)] && Valid(s, steps)
    ensures Exec(s, steps) ==
            s.(proc := Process(s.proc.stdout, Exited(ExitError(-1)), Some(ExitError(-1)), true),
               ctl := s.ctl.(grace := GraceEnding))
  {
    steps := [Ctl(GraceTimeout), Proc(ReapRecord), Proc(ReapSignal)];
    var a := Apply(s, steps[0]);
    var b := Apply(a, steps[1]);
    assert steps[1..] == [Proc(ReapRecord), Proc(ReapSignal)] && steps[1..][1..] == [Proc(ReapSignal)];
    assert [Proc(ReapSignal)][1..] == [];
    assert Valid(b, [Proc(ReapSignal)]);
    assert Valid(a, steps[1..]);
  }

  lemma KillStartsGrace(s: State) returns (steps: seq<Step>)
    requires Inv(s) && GraceInv(s) && s.proc.child.Running? && s.ctl.killer.KillIdle?
    ensures steps == [Ctl(CallKill), Ctl(KillOnce)] && Valid(s, steps)
    ensures Exec(s, steps) == s.(ctl := s.ctl.(grace := InGrace))
  {
    steps := [Ctl(CallKill), Ctl(KillOnce)];
    assert steps[1..] == [Ctl(KillOnce)] && [Ctl(KillOnce)][1..] == [];
    assert Valid(Apply(s, steps[0]), [Ctl(KillOnce)]);
  }

  lemma {:induction false} Chain(s: State, first: seq<Step>, rest: seq<Step>)
    requires Valid(s, first) && Valid(Exec(s, first), rest)
    ensures Valid(s, first + rest) && Exec(s, first + rest) == Exec(Exec(s, first), rest)
    decreases |first|
  {
    hide Apply, Enabled;
    if first == [] {
      assert first + rest == rest;
    } else {
      assert (first + rest)[1..] == first[1..] + rest;
      Chain(Apply(s, first[0]), first[1..], rest);
    }
  }

  lemma DrainLeavesTheChild(s: State, step: Step)
    requires Enabled(s, step) && Drains(step)
    ensures Apply(s, step).proc == s.proc
  {
    hide TailApply, TailEnabled, ConsumerApply, ConsumerEnabled;
  }

  lemma {:induction false} DrainingLeavesTheChild(s: State, steps: seq<Step>)
    requires Valid(s, steps) && forall i :: 0 <= i < |steps| ==> Drains(steps[i])
    ensures Exec(s, steps).proc == s.proc
    decreases |steps|
  {
    hide Apply, Enabled, Drains;
    if steps != [] {
      DrainLeavesTheChild(s, steps[0]);
      DrainingLeavesTheChild(Apply(s, steps[0]), steps[1..]);
    }
  }

  /** What the watchdog relies on: in every run in which the child still runs and the consumer drains, one call
      of Kill is enough for the drain to end. The child neither writes nor exits by itself, Wait takes no
      part, nothing is dropped, and what the child had written is what has been drained. */
  lemma KilledDrainFinishes(before: seq<Step>) returns (steps: seq<Step>)
    requires Valid(InitialState, before)
    requires var s := Exec(InitialState, before);
             s.proc.child.Running? && s.out.consumer.Draining? && s.ctl.killer.KillIdle?
    ensures var s := Exec(InitialState, before);
            && Valid(s, steps) && [Ctl(CallKill), Ctl(KillOnce)] <= steps
            && (forall i :: 0 <= i < |steps| ==> KillsAndDrains(steps[i]))
            && Exec(s, steps).out.consumer.Finished?
            && Exec(s, steps).proc == Process(s.proc.stdout, Exited(ExitError(-1)), Some(ExitError(-1)), true)
  {
    hide Inv, GraceInv, Apply, Enabled, Drains, KillsAndDrains;
    StartIsSound();
    ReachableInv(before);
    RunKeepsGrace(InitialState, before);
    var s := Exec(InitialState, before);
    var signal := KillStartsGrace(s);
    var t := Exec(s, signal);
    RunKeepsInv(s, signal);
    var kill := GraceKills(t);
    RunKeepsInv(t, kill);
    var drain := DrainCanFinish(Exec(t, kill));
    DrainingLeavesTheChild(Exec(t, kill), drain);
    Chain(t, kill, drain);
    Chain(s, signal, kill + drain);
    steps := signal + (kill + drain);
    KillStepsKill(signal, kill, drain);
  }

  lemma KillStepsKill(signal: seq<Step>, kill: seq<Step>, drain: seq<Step>)
    requires signal == [Ctl(CallKill), Ctl(KillOnce)]
    requires kill == [Ctl(GraceTimeout), Proc(ReapRecord), Proc(ReapSignal)]
    requires forall i :: 0 <= i < |drain| ==> Drains(drain[i])
    ensures signal <= signal + (kill + drain)
    ensures forall i :: 0 <= i < |signal + (kill + drain)| ==> KillsAndDrains((signal + (kill + drain))[i])
  {
    hide Drains;
    var all := signal + (kill + drain);
    forall i | 0 <= i < |all| ensures KillsAndDrains(all[i]) {
      if i >= 5 {
        assert all[i] == drain[i - 5];
      }
    }
  }

  /** The step sends the group a signal: the first kill to get there its SIGTERM, the grace goroutine its
      SIGKILL. */
  predicate Sends(s: State, step: Step) {
    (Signals(step) && s.ctl.grace.NotStarted?) || step == Ctl(GraceTimeout)
  }

  /** Someone is on the way to a signal: the grace goroutine waits, or nobody has signalled yet and a caller of
      Kill, Wait among them, has seen the child unreaped. */
  predicate MaySignal(c: Control) {
    c.grace.InGrace? || (c.grace.NotStarted? && (c.killer.KillChecked? || c.waiter.KillSignal?))
  }

  lemma NobodySignals(s: State, step: Step)
    requires s.proc.procDone && !MaySignal(s.ctl) && Enabled(s, step)
    ensures !Sends(s, step) && !MaySignal(Apply(s, step).ctl) && Apply(s, step).proc.procDone
  {
    hide TailApply, TailEnabled, ConsumerApply, ConsumerEnabled;
  }

  lemma {:induction false} NobodyEverSignals(s: State, steps: seq<Step>)
    requires s.proc.procDone && !MaySignal(s.ctl) && Valid(s, steps)
    ensures Exec(s, steps).proc.procDone && !MaySignal(Exec(s, steps).ctl)
    decreases |steps|
  {
    hide Apply, Enabled, MaySignal;
    if steps != [] {
      NobodySignals(s, steps[0]);
      NobodyEverSignals(Apply(s, steps[0]), steps[1..]);
    }
  }

  ghost predicate SendsAfter(s: State, steps: seq<Step>, step: Step) {
    Valid(s, steps) && Enabled(Exec(s, steps), step) && Sends(Exec(s, steps), step)
  }

  /** "Never signal a reaped group" holds of a state exactly if nobody is on the way to a signal: Kill's look at
      the reap and its signal are two steps, and so are the end of the grace period and its SIGKILL. */
  lemma LateSignalIff(s: State)
    requires s.proc.procDone
    ensures (exists steps, step :: SendsAfter(s, steps, step)) <==> MaySignal(s.ctl)
  {
    if s.ctl.grace.InGrace? {
      assert SendsAfter(s, [], Ctl(GraceTimeout));
    } else if s.ctl.grace.NotStarted? && s.ctl.killer.KillChecked? {
      assert SendsAfter(s, [], Ctl(KillOnce));
    } else if s.ctl.grace.NotStarted? && s.ctl.waiter.KillSignal? {
      assert SendsAfter(s, [], Ctl(WaitKillSignal));
    } else {
      forall steps, step ensures !SendsAfter(s, steps, step) {
        if Valid(s, steps) && Enabled(Exec(s, steps), step) {
          NobodyEverSignals(s, steps);
          NobodySignals(Exec(s, steps), step);
        }
      }
    }
  }

  // ---------------------------------------------------------------- the result of Wait

  lemma QueueStep(s: State, step: Step)
    requires Enabled(s, step) && |s.out.events| <= 256
    ensures |Apply(s, step).out.events| <= 256
  {
    hide ProcApply, ProcEnabled, ControlApply, ControlEnabled;
  }

  /** No more than 256 lines are ever queued: the tailer waits, or takes its discard branch. */
  lemma {:induction false} QueueIsBounded(s: State, steps: seq<Step>)
    requires Valid(s, steps) && |s.out.events| <= 256
    ensures |Exec(s, steps).out.events| <= 256
    decreases |steps|
  {
    hide Apply, Enabled;
    if steps != [] {
      QueueStep(s, steps[0]);
      QueueIsBounded(Apply(s, steps[0]), steps[1..]);
    }
  }

  /** Events is closed at most once in every run, and before Wait returns; no tailer survives it. */
  lemma EventsCloseOnceBeforeReturn(steps: seq<Step>)
    requires Valid(InitialState, steps)
    ensures var s := Exec(InitialState, steps);
            && s.out.closes <= 1
            && (s.ctl.waiter.Returned? ==> s.out.closes == 1 && s.tail.at.TailEnded? && s.proc.procDone)
  {
    ReachableInv(steps);
  }

  /** Wait reports the context's error exactly when it observed one, and otherwise the child's
      own result; a non-zero exit alone is no error. */
  lemma WaitReportsChild(steps: seq<Step>)
    requires Valid(InitialState, steps) && Exec(InitialState, steps).ctl.waiter.Returned?
    ensures var s := Exec(InitialState, steps); var w := s.ctl.waiter;
            && s.proc.child.Exited?
            && (w.err.Context? ==> s.ctl.ctx == Some(w.err.cause) && w.exitCode == -1)
            && (!w.err.Context? ==>
                  && (w.err.NoError? <==> !s.proc.child.result.WaitFailed?)
                  && (s.proc.child.result.WaitFailed? ==> w.exitCode == -1)
                  && (s.proc.child.result.ExitZero? ==> w.exitCode == 0)
                  && (s.proc.child.result.ExitError? ==> w.exitCode == s.proc.child.result.code))
  {
    ReachableInv(steps);
  }

  lemma ContextErrorStep(s: State, step: Step)
    requires Enabled(s, step)
    ensures Apply(s, step).ctl.ctxErr ==
            if step == Ctl(SelectContext) then s.ctl.ctx else s.ctl.ctxErr
  {
    hide TailApply, TailEnabled, ConsumerApply, ConsumerEnabled, ProcApply, ProcEnabled;
  }

  lemma {:induction false} ContextErrorRun(s: State, steps: seq<Step>)
    requires Valid(s, steps)
    ensures Exec(s, steps).ctl.ctxErr.Some? <==> s.ctl.ctxErr.Some? || Ctl(SelectContext) in steps
    decreases |steps|
  {
    hide Apply;
    if steps != [] {
      ContextErrorStep(s, steps[0]);
      ContextErrorRun(Apply(s, steps[0]), steps[1..]);
      assert steps == [steps[0]] + steps[1..];
    }
  }

  /** Which of the two it reports is settled by the select alone: the context's error exactly in the runs in
      which the select took the context. */
  lemma WaitReportsItsChoice(steps: seq<Step>)
    requires Valid(InitialState, steps) && Exec(InitialState, steps).ctl.waiter.Returned?
    ensures Exec(InitialState, steps).ctl.waiter.err.Context? <==> Ctl(SelectContext) in steps
  {
    hide DataInv, TailInv, DeliveryInv, Apply, Enabled;
    ReachableInv(steps);
    ContextErrorRun(InitialState, steps);
  }

  lemma ReturnSurvivesStep(s: State, step: Step)
    requires Inv(s) && s.ctl.waiter.Returned? && Enabled(s, step)
    ensures var t := Apply(s, step);
            Inv(t) && t.ctl.waiter == s.ctl.waiter && t.proc == s.proc && t.tail == s.tail
  {
    StepLowersMeasure(s, step);
    hide DataInv, DeliveryInv, TailApply, TailEnabled, ControlApply, Measure;
    match step
    case Tail(t) => TailStepOnlyAddsDone(s.proc, s.tail, s.out, s.ctl.discard, t);
    case Ctl(k) => ControlStepLowers(s.tail.done, s.proc.waitResult, s.ctl, k);
    case _ =>
  }

  /** After Wait has returned, nothing that happens later changes its result or the captured
      output, so repeated and concurrent calls agree. */
  lemma {:induction false} ReturnIsFinal(s: State, steps: seq<Step>)
    requires Inv(s) && s.ctl.waiter.Returned? && Valid(s, steps)
    ensures Exec(s, steps).ctl.waiter == s.ctl.waiter && Exec(s, steps).proc == s.proc
    ensures Exec(s, steps).tail == s.tail
    decreases |steps|
  {
    hide Inv, Apply, Enabled;
    if steps != [] {
      ReturnSurvivesStep(s, steps[0]);
      ReturnIsFinal(Apply(s, steps[0]), steps[1..]);
    }
  }
}
