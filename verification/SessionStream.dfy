/** The streaming session as a labelled transition system.

    A child process appends to a regular file while a reaper, a polling tailer, a consumer on a
    bounded channel, callers of Kill and a caller of Wait run concurrently. The shared variables
    and channels are grouped by the actor that writes them; every `Step` is one atomic action of
    one actor, and a run is any sequence of enabled steps, so no scheduling, chunk size or timing
    is assumed. Two history fields, `dropped` and `closes`, are only ever counted up. */
module SessionStream {
  import opened Options

  type Byte = b: int | 0 <= b < 256
  type Bytes = seq<Byte>

  const NEWLINE: Byte := 10
  const EVENT_BUFFER := 256

  datatype ContextError = Canceled | DeadlineExceeded
  datatype ChildResult = ExitZero | ExitError(code: int) | WaitFailed
  datatype Child = Running | Exited(result: ChildResult)
  datatype WaitError = NoError | Context(cause: ContextError) | Reaping

  /** Program points of `tail`; `final` marks the second, draining call of `readAvailable`. */
  datatype TailPoint =
    | Opening
    | Reading(final: bool)
    | Splitting(final: bool)
    | Emitting(final: bool, line: Bytes)
    | Checking
    | Ticking
    | Flushing
    | EmittingLast(last: Bytes)
    | ClosingEvents
    | ClosingTail
    | TailEnded

  datatype ConsumerPoint = Draining | Finished | Abandoned

  datatype WaitPoint =
    | NotCalled
    | Selecting
    | KillCheck
    | KillSignal
    | AwaitingProc
    | ClosingDiscard
    | JoiningTail
    | JoiningKill
    | AwaitingGrace
    | CleaningUp
    | Returned(exitCode: int, err: WaitError)

  datatype KillPoint = KillIdle | KillChecked
  datatype GracePoint = NotStarted | InGrace | GraceEnding | GraceEnded

  datatype Process = Process(stdout: Bytes, child: Child, waitResult: Option<ChildResult>, procDone: bool)
  datatype Tailer = Tailer(at: TailPoint, offset: nat, buf: Bytes, openFailed: bool, done: bool)
  datatype Delivery = Delivery(events: seq<Bytes>, closes: nat, dropped: nat, consumer: ConsumerPoint, log: Bytes)
  datatype Control = Control(
    waiter: WaitPoint,
    ctx: Option<ContextError>,
    ctxErr: Option<ContextError>,
    discard: bool,
    killer: KillPoint,
    grace: GracePoint)
  datatype State = State(proc: Process, tail: Tailer, out: Delivery, ctl: Control)

  const InitialState := State(
    Process([], Running, None, false),
    Tailer(Opening, 0, [], false, false),
    Delivery([], 0, 0, Draining, []),
    Control(NotCalled, None, None, false, KillIdle, NotStarted))

  datatype ProcStep =
    | ChildWrite(bytes: Bytes)
    | ChildExit(result: ChildResult)
    | GroupKilled        // delivered by the grace goroutine's SIGKILL
    | ReapRecord
    | ReapSignal
  datatype TailStep =
    | OpenOk | OpenFail | ReadSome(count: nat) | ReadEof | SplitLine | SplitDone
    | Send | Drop | Check | Tick | Flush | CloseEvents | CloseTail
  datatype ConsumerStep = Take | SeeClosed | GiveUp
  datatype ControlStep =
    | ContextEnds(cause: ContextError)
    | CallKill | KillOnce
    | GraceSeesExit | GraceTimeout | GraceClose
    | CallWait
    | SelectProc | SelectContext | WaitKillCheck | WaitKillSignal | WaitProc
    | CloseDiscard | JoinTail | JoinKill | JoinGrace | CleanUp
  datatype Step = Proc(p: ProcStep) | Tail(t: TailStep) | Consume(c: ConsumerStep) | Ctl(k: ControlStep)

  /** `bytes.IndexByte(buf, '\n')`, with the buffer length standing for "none". */
  function NewlineIndex(buf: Bytes): (i: nat)
    ensures i <= |buf| && (i < |buf| ==> buf[i] == NEWLINE)
    ensures NEWLINE !in buf[..i]
  {
    if buf == [] || buf[0] == NEWLINE then 0
    else
      var i := 1 + NewlineIndex(buf[1..]);
      assert buf[..i] == [buf[0]] + buf[1..][..i - 1];
      i
  }

  /** What the consumer writes for a list of lines: each one newline-terminated. */
  function Join(lines: seq<Bytes>): Bytes {
    if lines == [] then [] else lines[0] + [NEWLINE] + Join(lines[1..])
  }

  predicate Terminates(out: Bytes) {
    out == [] || out[|out| - 1] == NEWLINE
  }

  /** The child's output with a final newline supplied when the last line lacks one. */
  function Terminated(out: Bytes): Bytes {
    if Terminates(out) then out else out + [NEWLINE]
  }

  function WaitOutcome(ctxErr: Option<ContextError>, waitResult: Option<ChildResult>): WaitPoint {
    if ctxErr.Some? then Returned(-1, Context(ctxErr.value))
    else match waitResult
      case Some(ExitError(code)) => Returned(code, NoError)
      case Some(WaitFailed) => Returned(-1, Reaping)
      case _ => Returned(0, NoError)
  }

  // ---------------------------------------------------------------- steps

  predicate ProcEnabled(p: Process, step: ProcStep) {
    match step
    case ChildWrite(_) => p.child.Running?
    case ChildExit(_) => p.child.Running?
    case GroupKilled => true
    case ReapRecord => p.child.Exited? && p.waitResult.None?
    case ReapSignal => p.waitResult.Some? && !p.procDone
  }

  function ProcApply(p: Process, step: ProcStep): Process
    requires ProcEnabled(p, step)
  {
    match step
    case ChildWrite(bytes) => p.(stdout := p.stdout + bytes)
    case ChildExit(result) => p.(child := Exited(result))
    case GroupKilled => if p.child.Running? then p.(child := Exited(ExitError(-1))) else p
    case ReapRecord => p.(waitResult := Some(p.child.result))
    case ReapSignal => p.(procDone := true)
  }

  predicate EmitPending(at: TailPoint) {
    at.Emitting? || at.EmittingLast?
  }

  function EmitLine(at: TailPoint): Bytes
    requires EmitPending(at)
  {
    if at.Emitting? then at.line else at.last
  }

  /** The tailer's program point once `emit` has returned. */
  function AfterEmit(at: TailPoint): TailPoint
    requires EmitPending(at)
  {
    if at.Emitting? then Splitting(at.final) else ClosingEvents
  }

  predicate TailEnabled(p: Process, t: Tailer, d: Delivery, discard: bool, step: TailStep) {
    match step
    case OpenOk => t.at.Opening?
    case OpenFail => t.at.Opening?
    case ReadSome(count) => t.at.Reading? && 0 < count && t.offset + count <= |p.stdout|
    case ReadEof => t.at.Reading? && t.offset >= |p.stdout|
    case SplitLine => t.at.Splitting? && NewlineIndex(t.buf) < |t.buf|
    case SplitDone => t.at.Splitting? && NewlineIndex(t.buf) == |t.buf|
    case Send => EmitPending(t.at) && |d.events| < EVENT_BUFFER
    case Drop => EmitPending(t.at) && discard
    case Check => t.at.Checking?
    case Tick => t.at.Ticking?
    case Flush => t.at.Flushing?
    case CloseEvents => t.at.ClosingEvents?
    case CloseTail => t.at.ClosingTail?
  }

  function TailApply(p: Process, t: Tailer, d: Delivery, discard: bool, step: TailStep): (r: (Tailer, Delivery))
    requires TailEnabled(p, t, d, discard, step)
  {
    match step
    case OpenOk => (t.(at := Reading(false)), d)
    case OpenFail => (t.(at := ClosingEvents, openFailed := true), d)
    case ReadSome(count) =>
      (t.(buf := t.buf + p.stdout[t.offset..t.offset + count], offset := t.offset + count), d)
    case ReadEof => (t.(at := Splitting(t.at.final)), d)
    case SplitLine =>
      var i := NewlineIndex(t.buf);
      (t.(at := Emitting(t.at.final, t.buf[..i]), buf := t.buf[i + 1..]), d)
    case SplitDone => (t.(at := if t.at.final then Flushing else Checking), d)
    case Send => (t.(at := AfterEmit(t.at)), d.(events := d.events + [EmitLine(t.at)]))
    case Drop => (t.(at := AfterEmit(t.at)), d.(dropped := d.dropped + |EmitLine(t.at)| + 1))
    case Check => (t.(at := if p.procDone then Reading(true) else Ticking), d)
    case Tick => (t.(at := Reading(false)), d)
    case Flush => (t.(at := if t.buf == [] then ClosingEvents else EmittingLast(t.buf)), d)
    case CloseEvents => (t.(at := ClosingTail), d.(closes := d.closes + 1))
    case CloseTail => (t.(at := TailEnded, done := true), d)
  }

  predicate ConsumerEnabled(d: Delivery, step: ConsumerStep) {
    d.consumer.Draining? &&
    match step
    case Take => d.events != []
    case SeeClosed => d.events == [] && d.closes > 0
    case GiveUp => true
  }

  function ConsumerApply(d: Delivery, step: ConsumerStep): Delivery
    requires ConsumerEnabled(d, step)
  {
    match step
    case Take => d.(log := d.log + d.events[0] + [NEWLINE], events := d.events[1..])
    case SeeClosed => d.(consumer := Finished)
    case GiveUp => d.(consumer := Abandoned)
  }

  predicate ControlEnabled(procDone: bool, tailDone: bool, c: Control, step: ControlStep) {
    match step
    case ContextEnds(_) => c.ctx.None?
    case CallKill => c.killer.KillIdle?
    case KillOnce => c.killer.KillChecked?
    case GraceSeesExit => c.grace.InGrace? && procDone
    case GraceTimeout => c.grace.InGrace?
    case GraceClose => c.grace.GraceEnding?
    case CallWait => c.waiter.NotCalled?
    case SelectProc => c.waiter.Selecting? && procDone
    case SelectContext => c.waiter.Selecting? && c.ctx.Some?
    case WaitKillCheck => c.waiter.KillCheck?
    case WaitKillSignal => c.waiter.KillSignal?
    case WaitProc => c.waiter.AwaitingProc? && procDone
    case CloseDiscard => c.waiter.ClosingDiscard?
    case JoinTail => c.waiter.JoiningTail? && tailDone
    case JoinKill => c.waiter.JoiningKill?
    case JoinGrace => c.waiter.AwaitingGrace? && c.grace.GraceEnded?
    case CleanUp => c.waiter.CleaningUp?
  }

  /** `killOnce.Do`: the first caller starts the grace goroutine, later callers change nothing. */
  function StartGrace(g: GracePoint): GracePoint {
    if g.NotStarted? then InGrace else g
  }

  function ControlApply(procDone: bool, tailDone: bool, waitResult: Option<ChildResult>, c: Control, step: ControlStep): Control
    requires ControlEnabled(procDone, tailDone, c, step)
  {
    match step
    case ContextEnds(cause) => c.(ctx := Some(cause))
    case CallKill => if procDone then c else c.(killer := KillChecked)
    case KillOnce => c.(killer := KillIdle, grace := StartGrace(c.grace))
    case GraceSeesExit => c.(grace := GraceEnding)
    case GraceTimeout => c.(grace := GraceEnding)
    case GraceClose => c.(grace := GraceEnded)
    case CallWait => c.(waiter := Selecting)
    case SelectProc => c.(waiter := ClosingDiscard)
    case SelectContext => c.(ctxErr := c.ctx, waiter := KillCheck)
    case WaitKillCheck => c.(waiter := if procDone then AwaitingProc else KillSignal)
    case WaitKillSignal => c.(waiter := AwaitingProc, grace := StartGrace(c.grace))
    case WaitProc => c.(waiter := ClosingDiscard)
    case CloseDiscard => c.(discard := true, waiter := JoiningTail)
    case JoinTail => c.(waiter := JoiningKill)
    case JoinKill => c.(waiter := if c.grace.NotStarted? then CleaningUp else AwaitingGrace)
    case JoinGrace => c.(waiter := CleaningUp)
    case CleanUp => c.(waiter := WaitOutcome(c.ctxErr, waitResult))
  }

  predicate Enabled(s: State, step: Step) {
    match step
    case Proc(p) => !p.GroupKilled? && ProcEnabled(s.proc, p)
    case Tail(t) => TailEnabled(s.proc, s.tail, s.out, s.ctl.discard, t)
    case Consume(c) => ConsumerEnabled(s.out, c)
    case Ctl(k) => ControlEnabled(s.proc.procDone, s.tail.done, s.ctl, k)
  }

  function Apply(s: State, step: Step): State
    requires Enabled(s, step)
  {
    match step
    case Proc(p) => s.(proc := ProcApply(s.proc, p))
    case Tail(t) =>
      var (tail, out) := TailApply(s.proc, s.tail, s.out, s.ctl.discard, t);
      s.(tail := tail, out := out)
    case Consume(c) => s.(out := ConsumerApply(s.out, c))
    case Ctl(k) =>
      s.(ctl := ControlApply(s.proc.procDone, s.tail.done, s.proc.waitResult, s.ctl, k),
         proc := if k.GraceTimeout? then ProcApply(s.proc, GroupKilled) else s.proc)
  }

  predicate Valid(s: State, steps: seq<Step>)
    decreases |steps|
  {
    steps == [] || (Enabled(s, steps[0]) && Valid(Apply(s, steps[0]), steps[1..]))
  }

  function Exec(s: State, steps: seq<Step>): State
    requires Valid(s, steps)
    decreases |steps|
  {
    if steps == [] then s else Exec(Apply(s, steps[0]), steps[1..])
  }

  // ---------------------------------------------------------------- invariants

  predicate ProcInv(p: Process) {
    && (p.procDone ==> p.waitResult.Some?)
    && (p.waitResult.Some? ==> p.child.Exited? && p.waitResult.value == p.child.result)
  }

  /** How the process side may move under any other actor: output only grows, and once the
      reaper has signalled nothing changes any more. */
  predicate Evolves(p: Process, q: Process) {
    && p.stdout <= q.stdout
    && (p.procDone ==> q == p)
  }

  predicate FinalPhase(at: TailPoint) {
    match at
    case Reading(final) => final
    case Splitting(final) => final
    case Emitting(final, _) => final
    case Flushing | EmittingLast(_) => true
    case _ => false
  }

  predicate Closing(at: TailPoint) {
    at.ClosingEvents? || at.ClosingTail? || at.TailEnded?
  }

  /** The unsplit remainder is the end of what was read and starts at a line boundary. */
  predicate BufInv(stdout: Bytes, offset: nat, buf: Bytes) {
    && |buf| <= offset <= |stdout|
    && buf == stdout[offset - |buf|..offset]
    && Terminates(stdout[..offset - |buf|])
  }

  predicate TailInv(p: Process, t: Tailer) {
    BufInv(p.stdout, t.offset, t.buf) && PhaseInv(p, t)
  }

  /** What the tailer's program point says about its position and the reap. */
  predicate PhaseInv(p: Process, t: Tailer) {
    && t.offset <= |p.stdout|
    && (t.at.Opening? ==> t.offset == 0)
    && (t.openFailed ==> Closing(t.at))
    && (FinalPhase(t.at) || (Closing(t.at) && !t.openFailed) ==>
          p.procDone && (t.at.Reading? || t.offset == |p.stdout|))
    && (t.at.Checking? || t.at.Ticking? || t.at.Flushing? ==> NEWLINE !in t.buf)
    && (t.at.EmittingLast? ==> t.at.last == t.buf != [] && NEWLINE !in t.buf)
    && t.done == t.at.TailEnded?
  }

  predicate DeliveryInv(t: Tailer, d: Delivery) {
    && d.closes == (if t.at.ClosingTail? || t.at.TailEnded? then 1 else 0)
    && (d.consumer.Finished? ==> d.closes == 1 && d.events == [])
    && (t.at.Opening? || t.openFailed ==> d.log == [] && d.events == [] && d.dropped == 0)
    && Terminates(d.log)
  }

  /** Bytes read from the file that have reached neither the log nor the channel. */
  function Pending(t: Tailer): Bytes {
    match t.at
    case Emitting(_, line) => line + [NEWLINE] + t.buf
    case EmittingLast(line) => line + [NEWLINE]
    case _ => if Closing(t.at) then [] else t.buf
  }

  function Accounted(t: Tailer, d: Delivery): Bytes {
    d.log + Join(d.events) + Pending(t)
  }

  /** The bytes that must be accounted for at the tailer's position. */
  function Expected(p: Process, t: Tailer): Bytes
    requires t.offset <= |p.stdout|
  {
    if t.at.EmittingLast? || Closing(t.at) then Terminated(p.stdout) else p.stdout[..t.offset]
  }

  /** Conservation of bytes: what is logged, queued, pending and dropped adds up to what was
      read, and without drops it is the file itself. */
  predicate DataInv(p: Process, t: Tailer, d: Delivery)
    requires t.offset <= |p.stdout|
  {
    !t.openFailed ==>
      && |Accounted(t, d)| + d.dropped == |Expected(p, t)|
      && (d.dropped == 0 ==> Accounted(t, d) == Expected(p, t))
  }

  predicate Conserves(p: Process, r: (Tailer, Delivery)) {
    r.0.offset <= |p.stdout| && DataInv(p, r.0, r.1)
  }

  predicate PastDiscard(w: WaitPoint) {
    w.JoiningTail? || PastTail(w)
  }

  predicate PastTail(w: WaitPoint) {
    w.JoiningKill? || w.AwaitingGrace? || w.CleaningUp? || w.Returned?
  }

  predicate ControlInv(p: Process, t: Tailer, c: Control) {
    && (c.waiter.ClosingDiscard? || PastDiscard(c.waiter) ==> p.procDone)
    && c.discard == PastDiscard(c.waiter)
    && (PastTail(c.waiter) ==> t.done)
    && (c.waiter.AwaitingGrace? ==> !c.grace.NotStarted?)
    && (c.ctxErr.Some? ==> c.ctx == c.ctxErr)
    && (c.waiter.Returned? ==> c.waiter == WaitOutcome(c.ctxErr, p.waitResult))
  }

  predicate Inv(s: State) {
    && ProcInv(s.proc)
    && TailInv(s.proc, s.tail)
    && DeliveryInv(s.tail, s.out)
    && DataInv(s.proc, s.tail, s.out)
    && ControlInv(s.proc, s.tail, s.ctl)
  }

  lemma {:induction false} JoinAppend(lines: seq<Bytes>, line: Bytes)
    ensures Join(lines + [line]) == Join(lines) + line + [NEWLINE]
  {
    if lines == [] {
      assert lines + [line] == [line];
    } else {
      assert (lines + [line])[1..] == lines[1..] + [line];
      JoinAppend(lines[1..], line);
    }
  }

  lemma ProcStepEvolves(p: Process, step: ProcStep)
    requires ProcInv(p) && ProcEnabled(p, step)
    ensures ProcInv(ProcApply(p, step)) && Evolves(p, ProcApply(p, step))
  {
  }

  lemma EvolveKeeps(p: Process, q: Process, t: Tailer, d: Delivery, c: Control)
    requires TailInv(p, t) && DataInv(p, t, d) && ControlInv(p, t, c) && Evolves(p, q)
    ensures TailInv(q, t) && DataInv(q, t, d) && ControlInv(q, t, c)
  {
    hide Accounted, Pending;
    if !p.procDone {
      var k := t.offset - |t.buf|;
      assert q.stdout[k..t.offset] == p.stdout[k..t.offset];
      assert q.stdout[..k] == p.stdout[..k];
      assert q.stdout[..t.offset] == p.stdout[..t.offset];
    }
  }

  lemma ReadKeepsBuf(stdout: Bytes, offset: nat, buf: Bytes, count: nat)
    requires BufInv(stdout, offset, buf) && offset + count <= |stdout|
    ensures BufInv(stdout, offset + count, buf + stdout[offset..offset + count])
  {
    var k := offset - |buf|;
    assert stdout[k..offset + count] == stdout[k..offset] + stdout[offset..offset + count];
  }

  lemma SplitKeepsBuf(stdout: Bytes, offset: nat, buf: Bytes, i: nat)
    requires BufInv(stdout, offset, buf) && i < |buf| && buf[i] == NEWLINE
    ensures BufInv(stdout, offset, buf[i + 1..])
  {
    var k := offset - |buf|;
    assert stdout[k + i] == buf[i];
    assert stdout[k..offset][i + 1..] == stdout[k + i + 1..offset];
  }

  /** The steps that move the tailer within its polling loop without touching a byte. */
  predicate Polls(step: TailStep) {
    step.OpenOk? || step.ReadEof? || step.SplitDone? || step.Check? || step.Tick?
  }

  lemma PollKeepsPhase(p: Process, t: Tailer, d: Delivery, discard: bool, step: TailStep)
    requires PhaseInv(p, t) && TailEnabled(p, t, d, discard, step) && Polls(step)
    ensures var u := TailApply(p, t, d, discard, step).0; PhaseInv(p, u) && u.buf == t.buf && u.offset == t.offset
  {
  }

  lemma HandOffKeepsPhase(p: Process, t: Tailer, d: Delivery, discard: bool, step: TailStep)
    requires PhaseInv(p, t) && TailEnabled(p, t, d, discard, step)
    requires !Polls(step) && !step.ReadSome? && !step.SplitLine?
    ensures var u := TailApply(p, t, d, discard, step).0; PhaseInv(p, u) && u.buf == t.buf && u.offset == t.offset
  {
  }

  lemma FillKeepsPhase(p: Process, t: Tailer, d: Delivery, discard: bool, step: TailStep)
    requires PhaseInv(p, t) && TailEnabled(p, t, d, discard, step) && (step.ReadSome? || step.SplitLine?)
    ensures PhaseInv(p, TailApply(p, t, d, discard, step).0)
  {
  }

  lemma TailStepKeepsTail(p: Process, t: Tailer, d: Delivery, discard: bool, step: TailStep)
    requires TailInv(p, t) && TailEnabled(p, t, d, discard, step)
    ensures TailInv(p, TailApply(p, t, d, discard, step).0)
  {
    hide BufInv, PhaseInv;
    if step.ReadSome? {
      FillKeepsPhase(p, t, d, discard, step);
      ReadKeepsBuf(p.stdout, t.offset, t.buf, step.count);
    } else if step.SplitLine? {
      FillKeepsPhase(p, t, d, discard, step);
      SplitKeepsBuf(p.stdout, t.offset, t.buf, NewlineIndex(t.buf));
    } else if Polls(step) {
      PollKeepsPhase(p, t, d, discard, step);
    } else {
      HandOffKeepsPhase(p, t, d, discard, step);
    }
  }

  lemma TailStepKeepsDelivery(p: Process, t: Tailer, d: Delivery, discard: bool, step: TailStep)
    requires TailInv(p, t) && DeliveryInv(t, d) && TailEnabled(p, t, d, discard, step)
    ensures var (u, e) := TailApply(p, t, d, discard, step); DeliveryInv(u, e)
  {
  }

  lemma Regroup(a: Bytes, b: Bytes, c: Bytes, d: Bytes, e: Bytes)
    ensures a + b + (c + d + e) == a + (b + c + d) + e
  {
  }

  lemma EmitKeepsData(p: Process, t: Tailer, d: Delivery)
    requires t.offset <= |p.stdout| && DataInv(p, t, d) && EmitPending(t.at) && !t.openFailed
    ensures var u := t.(at := AfterEmit(t.at));
            && Conserves(p, (u, d.(events := d.events + [EmitLine(t.at)])))
            && Conserves(p, (u, d.(dropped := d.dropped + |EmitLine(t.at)| + 1)))
  {
    var u := t.(at := AfterEmit(t.at));
    var line := EmitLine(t.at);
    assert Expected(p, u) == Expected(p, t);
    assert Pending(t) == line + [NEWLINE] + Pending(u);
    var sent := d.(events := d.events + [line]);
    JoinAppend(d.events, line);
    assert Accounted(u, sent) == Accounted(t, d) by {
      Regroup(d.log, Join(d.events), line, [NEWLINE], Pending(u));
    }
    assert |Accounted(u, d)| + |line| + 1 == |Accounted(t, d)|;
  }

  lemma FlushKeepsData(p: Process, t: Tailer, d: Delivery)
    requires TailInv(p, t) && DataInv(p, t, d) && t.at.Flushing?
    ensures Conserves(p, (t.(at := if t.buf == [] then ClosingEvents else EmittingLast(t.buf)), d))
  {
    assert p.stdout[..t.offset] == p.stdout;
    LastLine(p.stdout, t.buf);
    hide Join, BufInv, Terminates, Terminated;
    if t.buf != [] {
      AppendRead(d.log + Join(d.events), t.buf, [NEWLINE]);
    }
  }

  /** Whether the text lacks its last newline shows in the remainder. */
  lemma LastLine(text: Bytes, rest: Bytes)
    requires BufInv(text, |text|, rest) && NEWLINE !in rest
    ensures Terminated(text) == if rest == [] then text else text + [NEWLINE]
  {
    if rest == [] {
      assert text[..|text|] == text;
    } else {
      assert text[|text| - 1] == rest[|rest| - 1];
    }
  }

  lemma ReadKeepsData(p: Process, t: Tailer, d: Delivery, count: nat)
    requires t.offset <= |p.stdout| && DataInv(p, t, d) && t.at.Reading? && t.offset + count <= |p.stdout|
    ensures Conserves(p, (t.(buf := t.buf + p.stdout[t.offset..t.offset + count], offset := t.offset + count), d))
  {
    hide Join;
    var read := p.stdout[t.offset..t.offset + count];
    var u := t.(buf := t.buf + read, offset := t.offset + count);
    assert Accounted(u, d) == Accounted(t, d) + read by {
      AppendRead(d.log + Join(d.events), t.buf, read);
    }
    assert Expected(p, u) == Expected(p, t) + read by {
      PrefixGrows(p.stdout, t.offset, t.offset + count);
    }
  }

  lemma AppendRead(a: Bytes, b: Bytes, read: Bytes)
    ensures a + (b + read) == (a + b) + read
  {
  }

  lemma PrefixGrows(s: Bytes, i: nat, j: nat)
    requires i <= j <= |s|
    ensures s[..j] == s[..i] + s[i..j]
  {
  }

  lemma SplitKeepsData(p: Process, t: Tailer, d: Delivery, i: nat)
    requires t.offset <= |p.stdout| && DataInv(p, t, d) && t.at.Splitting? && i < |t.buf| && t.buf[i] == NEWLINE
    ensures Conserves(p, (t.(at := Emitting(t.at.final, t.buf[..i]), buf := t.buf[i + 1..]), d))
  {
    var u := t.(at := Emitting(t.at.final, t.buf[..i]), buf := t.buf[i + 1..]);
    assert Pending(u) == Pending(t);
    assert Accounted(u, d) == Accounted(t, d);
  }

  lemma FailedOpenKeepsData(p: Process, t: Tailer, d: Delivery)
    requires t.offset <= |p.stdout|
    ensures Conserves(p, (t.(at := ClosingEvents, openFailed := true), d))
  {
  }

  /** A step that neither reads, emits nor enters the closing phase keeps every byte in place. */
  lemma MoveKeepsData(p: Process, t: Tailer, d: Delivery, at: TailPoint, closes: nat, done: bool)
    requires t.offset <= |p.stdout| && DataInv(p, t, d) && Closing(t.at) == Closing(at) && !EmitPending(t.at) && !EmitPending(at)
    ensures Conserves(p, (t.(at := at, done := done), d.(closes := closes)))
  {
    var u, e := t.(at := at, done := done), d.(closes := closes);
    assert Pending(u) == Pending(t);
    assert Accounted(u, e) == Accounted(t, d);
  }

  lemma TailStepKeepsData(p: Process, t: Tailer, d: Delivery, discard: bool, step: TailStep)
    requires TailInv(p, t) && DataInv(p, t, d) && TailEnabled(p, t, d, discard, step)
    ensures Conserves(p, TailApply(p, t, d, discard, step))
  {
    hide DataInv, BufInv, Conserves;
    var r := TailApply(p, t, d, discard, step);
    match step
    case ReadSome(count) => ReadKeepsData(p, t, d, count);
    case SplitLine => SplitKeepsData(p, t, d, NewlineIndex(t.buf));
    case Send => EmitKeepsData(p, t, d);
    case Drop => EmitKeepsData(p, t, d);
    case Flush => FlushKeepsData(p, t, d);
    case OpenFail => FailedOpenKeepsData(p, t, d);
    case _ =>
      MoveKeepsData(p, t, d, r.0.at, r.1.closes, r.0.done);
      assert r == (t.(at := r.0.at, done := r.0.done), d.(closes := r.1.closes));
  }

  lemma ConsumerStepKeeps(p: Process, t: Tailer, d: Delivery, step: ConsumerStep)
    requires t.offset <= |p.stdout| && DeliveryInv(t, d) && DataInv(p, t, d) && ConsumerEnabled(d, step)
    ensures DeliveryInv(t, ConsumerApply(d, step)) && DataInv(p, t, ConsumerApply(d, step))
  {
    assert Accounted(t, ConsumerApply(d, step)) == Accounted(t, d);
  }

  lemma ControlStepKeeps(p: Process, t: Tailer, c: Control, step: ControlStep)
    requires ControlInv(p, t, c) && ControlEnabled(p.procDone, t.done, c, step)
    ensures ControlInv(p, t, ControlApply(p.procDone, t.done, p.waitResult, c, step))
  {
  }

  lemma TailStepKeepsControl(p: Process, t: Tailer, d: Delivery, c: Control, step: TailStep)
    requires ControlInv(p, t, c) && TailEnabled(p, t, d, c.discard, step)
    ensures ControlInv(p, TailApply(p, t, d, c.discard, step).0, c)
  {
    TailStepOnlyAddsDone(p, t, d, c.discard, step);
    hide TailApply, TailEnabled;
  }

  lemma TailStepOnlyAddsDone(p: Process, t: Tailer, d: Delivery, discard: bool, step: TailStep)
    requires TailEnabled(p, t, d, discard, step)
    ensures t.done ==> TailApply(p, t, d, discard, step).0.done
    ensures !t.at.TailEnded?
  {
  }

  /** Every step of every actor keeps the invariant. */
  lemma StepKeepsInv(s: State, step: Step)
    requires Inv(s) && Enabled(s, step)
    ensures Inv(Apply(s, step)) && Evolves(s.proc, Apply(s, step).proc)
  {
    hide Accounted, Expected, Pending, TailApply, TailEnabled, ControlApply, ProcApply, ConsumerApply;
    match step
    case Proc(p) =>
      ProcStepEvolves(s.proc, p);
      EvolveKeeps(s.proc, ProcApply(s.proc, p), s.tail, s.out, s.ctl);
    case Tail(t) =>
      TailStepKeepsTail(s.proc, s.tail, s.out, s.ctl.discard, t);
      TailStepKeepsDelivery(s.proc, s.tail, s.out, s.ctl.discard, t);
      TailStepKeepsData(s.proc, s.tail, s.out, s.ctl.discard, t);
      TailStepKeepsControl(s.proc, s.tail, s.out, s.ctl, t);
    case Consume(c) => ConsumerStepKeeps(s.proc, s.tail, s.out, c);
    case Ctl(k) =>
      ControlStepKeeps(s.proc, s.tail, s.ctl, k);
      if k.GraceTimeout? {
        ProcStepEvolves(s.proc, GroupKilled);
        EvolveKeeps(s.proc, ProcApply(s.proc, GroupKilled), s.tail, s.out,
          ControlApply(s.proc.procDone, s.tail.done, s.proc.waitResult, s.ctl, k));
      }
  }

  lemma {:induction false} RunKeepsInv(s: State, steps: seq<Step>)
    requires Inv(s) && Valid(s, steps)
    ensures Inv(Exec(s, steps))
    decreases |steps|
  {
    hide Inv, Apply, Enabled;
    if steps != [] {
      StepKeepsInv(s, steps[0]);
      RunKeepsInv(Apply(s, steps[0]), steps[1..]);
    }
  }
}
