/** The per-step timeline built from the same event stream as the metrics, and how the two agree. */
module TraceTimeline {
  import opened Options
  import opened Sorting
  import opened EventMetrics

  datatype ToolSpan = ToolSpan(tool: string, child: Option<string>)
  datatype Step = Step(tokens: Tokens, cost: real, duration: int, retries: int, compactions: int, tools: seq<ToolSpan>)

  /** The first and the last timestamp seen for a step. */
  datatype Times = Times(first: int, last: int)

  const EMPTY_STEP := Step(NO_TOKENS, 0.0, 0, 0, 0, [])

  /** `toSessionTokens`: an omitted total is recomputed. */
  function ShownTokens(tokens: Option<Tokens>): Tokens {
    if tokens.None? then NO_TOKENS
    else if tokens.value.total == 0 then
      tokens.value.(total := tokens.value.input + tokens.value.output + tokens.value.reasoning + tokens.value.cacheRead)
    else tokens.value
  }

  // ---------------------------------------------------------------- sums over the steps

  function ToolSpans(steps: seq<Step>): seq<ToolSpan> {
    if steps == [] then [] else ToolSpans(steps[..|steps| - 1]) + steps[|steps| - 1].tools
  }

  function Retries(steps: seq<Step>): int {
    if steps == [] then 0 else Retries(steps[..|steps| - 1]) + steps[|steps| - 1].retries
  }

  function Compactions(steps: seq<Step>): int {
    if steps == [] then 0 else Compactions(steps[..|steps| - 1]) + steps[|steps| - 1].compactions
  }

  function StepTokens(steps: seq<Step>): int {
    if steps == [] then 0 else StepTokens(steps[..|steps| - 1]) + steps[|steps| - 1].tokens.total
  }

  function StepCost(steps: seq<Step>): real {
    if steps == [] then 0.0 else StepCost(steps[..|steps| - 1]) + steps[|steps| - 1].cost
  }

  // ---------------------------------------------------------------- what the events say

  /** The envelopes that carry a step's own business; a retry or compaction riding on one of them is
      counted by the metrics but not by the trace. */
  predicate IsStepEnvelope(e: Event) {
    e.kind == StepStart || e.kind == ToolUse || e.kind == StepFinish
  }

  predicate IsRidingRetry(e: Event) { IsRetry(e) && IsStepEnvelope(e) }
  predicate IsRidingCompaction(e: Event) { IsCompaction(e) && IsStepEnvelope(e) }

  /** The events that need a step to be open. */
  predicate NeedsStep(e: Event) {
    IsTool(e) || IsStepFinish(e) || (!IsStepEnvelope(e) && (IsRetry(e) || IsCompaction(e)))
  }

  /** Something needs a step before the first step_start. */
  ghost predicate StartsEarly(events: seq<Event>) {
    exists i :: 0 <= i < |events| && NeedsStep(events[i]) && forall j :: 0 <= j < i ==> !IsStepStart(events[j])
  }

  /** The tokens and cost the open step shows after the events. */
  function OpenTokens(events: seq<Event>): int {
    if events == [] then 0
    else
      var e := events[|events| - 1];
      if IsStepStart(e) then 0
      else if IsStepFinish(e) then ShownTokens(e.part.value.tokens).total
      else OpenTokens(events[..|events| - 1])
  }

  function OpenCost(events: seq<Event>): real {
    if events == [] then 0.0
    else
      var e := events[|events| - 1];
      if IsStepStart(e) then 0.0
      else if IsStepFinish(e) && e.part.value.cost.Some? then e.part.value.cost.value
      else OpenCost(events[..|events| - 1])
  }

  /** What a later step_finish of the same step overwrote. */
  function OverwrittenTokens(events: seq<Event>): int {
    if events == [] then 0
    else
      var init, e := events[..|events| - 1], events[|events| - 1];
      OverwrittenTokens(init) + (if IsStepFinish(e) then OpenTokens(init) else 0)
  }

  function OverwrittenCost(events: seq<Event>): real {
    if events == [] then 0.0
    else
      var init, e := events[..|events| - 1], events[|events| - 1];
      OverwrittenCost(init) + (if IsStepFinish(e) && e.part.value.cost.Some? then OpenCost(init) else 0.0)
  }

  /** Totals the trace makes up for step_finish events that carry none. */
  function RecomputedTokens(events: seq<Event>): int {
    if events == [] then 0
    else
      var e := events[|events| - 1];
      RecomputedTokens(events[..|events| - 1])
      + (if IsStepFinish(e) && e.part.value.tokens.Some? && e.part.value.tokens.value.total == 0
         then ShownTokens(e.part.value.tokens).total else 0)
  }

  /** The span of one tool call: a task names its child session, if its state does. */
  function SpanOf(p: Part): ToolSpan {
    ToolSpan(p.tool, if p.tool == "task" && p.childId.Some? && p.childId.value != "" then p.childId else None)
  }

  function SpansOf(events: seq<Event>): seq<ToolSpan> {
    if events == [] then []
    else
      var e := events[|events| - 1];
      SpansOf(events[..|events| - 1]) + (if IsTool(e) then [SpanOf(e.part.value)] else [])
  }

  /** One span for every tool call. */
  lemma {:induction false} SpanPerCall(events: seq<Event>)
    ensures |SpansOf(events)| == Count(events, IsTool)
  {
    if events != [] {
      SpanPerCall(events[..|events| - 1]);
    }
  }

  /** The captured child sessions, in the order their first task names them. */
  function ChildrenOf(events: seq<Event>, captured: set<string>): seq<string> {
    if events == [] then []
    else
      var e := events[|events| - 1];
      var earlier := ChildrenOf(events[..|events| - 1], captured);
      if IsTool(e) then WithChild(earlier, SpanOf(e.part.value), captured) else earlier
  }

  function WithChild(children: seq<string>, span: ToolSpan, captured: set<string>): seq<string> {
    if span.child.Some? && span.child.value in captured && span.child.value !in children then children + [span.child.value]
    else children
  }

  /** Every captured session some task names, once. */
  lemma {:induction false} ChildrenAreTheNamed(events: seq<Event>, captured: set<string>)
    ensures NoRepeats(ChildrenOf(events, captured))
    ensures forall id :: id in ChildrenOf(events, captured) <==>
              id in captured && exists i :: 0 <= i < |events| && IsTool(events[i]) && SpanOf(events[i].part.value).child == Some(id)
  {
    hide IsTool, SpanOf;
    if events != [] {
      var n := |events| - 1;
      ChildrenAreTheNamed(events[..n], captured);
      assert forall i :: 0 <= i < n ==> events[..n][i] == events[i];
    }
  }

  // ---------------------------------------------------------------- the events of each step

  /** The events of each step: a step_start opens the next step, and so does the first event that needs a step
      when none is open; everything up to the next step_start belongs to the step opened last. */
  function Slices(events: seq<Event>): (r: seq<seq<Event>>)
    ensures forall k :: 0 <= k < |r| ==> r[k] != []
  {
    if events == [] then []
    else
      var before, e := Slices(events[..|events| - 1]), events[|events| - 1];
      if IsStepStart(e) || (before == [] && NeedsStep(e)) then before + [[e]]
      else if before == [] then []
      else before[..|before| - 1] + [before[|before| - 1] + [e]]
  }

  function Joined(slices: seq<seq<Event>>): seq<Event> {
    if slices == [] then [] else Joined(slices[..|slices| - 1]) + slices[|slices| - 1]
  }

  /** What makes a list of slices the steps of an event list from position k on. */
  ghost predicate AreSteps(slices: seq<seq<Event>>, events: seq<Event>, k: nat) {
    && k <= |events| && Untouched(events[..k]) && Joined(slices) == events[k..]
    && (forall i :: 0 <= i < |slices| ==> slices[i] != [])
    && (forall i :: 0 < i < |slices| ==> IsStepStart(slices[i][0]))
    && (slices != [] ==> IsStepStart(slices[0][0]) || NeedsStep(slices[0][0]))
    && (forall i, j :: 0 <= i < |slices| && 0 < j < |slices[i]| ==> !IsStepStart(slices[i][j]))
  }

  lemma StepsSkip(events: seq<Event>, k: nat, e: Event)
    requires AreSteps([], events, k) && k == |events| && !IsStepStart(e) && !NeedsStep(e)
    ensures AreSteps([], events + [e], k + 1)
  {
    hide IsStepStart, NeedsStep;
    assert events[..k] == events && (events + [e])[..k + 1] == events + [e];
  }

  lemma StepsOpen(slices: seq<seq<Event>>, events: seq<Event>, k: nat, e: Event)
    requires AreSteps(slices, events, k) && (IsStepStart(e) || (slices == [] && NeedsStep(e)))
    ensures AreSteps(slices + [[e]], events + [e], k)
  {
    hide IsStepStart, NeedsStep;
    var more := slices + [[e]];
    assert more[..|more| - 1] == slices;
    assert (events + [e])[..k] == events[..k] && (events + [e])[k..] == events[k..] + [e];
  }

  lemma StepsGrow(slices: seq<seq<Event>>, events: seq<Event>, k: nat, e: Event)
    requires AreSteps(slices, events, k) && slices != [] && !IsStepStart(e)
    ensures AreSteps(slices[..|slices| - 1] + [slices[|slices| - 1] + [e]], events + [e], k)
  {
    hide IsStepStart, NeedsStep;
    var n := |slices| - 1;
    var more := slices[..n] + [slices[n] + [e]];
    assert more[..n] == slices[..n];
    assert (events + [e])[..k] == events[..k] && (events + [e])[k..] == events[k..] + [e];
    assert Joined(slices[..n]) + (slices[n] + [e]) == (Joined(slices[..n]) + slices[n]) + [e];
  }

  /** Before the first step nothing needs one; from there on the slices put together are the events, each one
      but perhaps the first begins with a step_start, and none holds another. */
  lemma {:induction false} SlicesAreTheSteps(events: seq<Event>) returns (k: nat)
    ensures AreSteps(Slices(events), events, k)
    ensures Slices(events) == [] ==> k == |events|
  {
    if events == [] {
      k := 0;
    } else {
      var n := |events| - 1;
      k := SlicesAreTheSteps(events[..n]);
      var before, e := Slices(events[..n]), events[n];
      assert events == events[..n] + [e];
      hide AreSteps, IsStepStart, NeedsStep;
      if IsStepStart(e) || (before == [] && NeedsStep(e)) {
        StepsOpen(before, events[..n], k, e);
      } else if before == [] {
        StepsSkip(events[..n], k, e);
        k := k + 1;
      } else {
        StepsGrow(before, events[..n], k, e);
      }
    }
  }

  predicate IsPlainRetry(e: Event) { IsRetry(e) && !IsStepEnvelope(e) }
  predicate IsPlainCompaction(e: Event) { IsCompaction(e) && !IsStepEnvelope(e) }

  /** The tokens of the last step_finish. */
  function LastTokens(slice: seq<Event>): Tokens {
    if slice == [] then NO_TOKENS
    else
      var e := slice[|slice| - 1];
      if IsStepFinish(e) then ShownTokens(e.part.value.tokens) else LastTokens(slice[..|slice| - 1])
  }

  /** The cost of the last step_finish that carries one. */
  function LastCost(slice: seq<Event>): real {
    if slice == [] then 0.0
    else
      var e := slice[|slice| - 1];
      if IsStepFinish(e) && e.part.value.cost.Some? then e.part.value.cost.value else LastCost(slice[..|slice| - 1])
  }

  /** The events whose timestamps count for a step. */
  predicate Marks(e: Event) {
    IsStepStart(e) || NeedsStep(e)
  }

  /** The times of a slice, that of its first event among them. */
  function TimesOf(slice: seq<Event>): Times
    requires slice != []
  {
    var e := slice[|slice| - 1];
    if |slice| == 1 then Times(e.timestamp, e.timestamp)
    else
      var earlier := TimesOf(slice[..|slice| - 1]);
      if Marks(e) then Widened(earlier, e.timestamp) else earlier
  }

  function Widened(t: Times, timestamp: int): Times {
    Times(if timestamp < t.first then timestamp else t.first, if timestamp > t.last then timestamp else t.last)
  }

  ghost predicate MarkedAt(slice: seq<Event>, timestamp: int) {
    exists i :: 0 <= i < |slice| && Marks(slice[i]) && slice[i].timestamp == timestamp
  }

  /** The times of a step are the least and the greatest timestamp of its marking events. */
  lemma {:induction false} TimesAreExtremes(slice: seq<Event>)
    requires slice != [] && Marks(slice[0])
    ensures var t := TimesOf(slice);
            && MarkedAt(slice, t.first) && MarkedAt(slice, t.last)
            && forall i :: 0 <= i < |slice| && Marks(slice[i]) ==> t.first <= slice[i].timestamp <= t.last
  {
    hide Marks;
    var n := |slice| - 1;
    assert Marks(slice[n]) ==> MarkedAt(slice, slice[n].timestamp);
    if n > 0 {
      TimesAreExtremes(slice[..n]);
      var t := TimesOf(slice[..n]);
      assert forall i :: 0 <= i < n ==> slice[..n][i] == slice[i];
      assert MarkedAt(slice, t.first) && MarkedAt(slice, t.last);
    }
  }

  /** The step of a slice, before its duration is filled in. */
  function OpenStep(slice: seq<Event>): Step {
    Step(LastTokens(slice), LastCost(slice), 0, Count(slice, IsPlainRetry), Count(slice, IsPlainCompaction), SpansOf(slice))
  }

  function StepOf(slice: seq<Event>): Step
    requires slice != []
  {
    OpenStep(slice).(duration := TimesOf(slice).last - TimesOf(slice).first)
  }

  function OpenSteps(slices: seq<seq<Event>>): seq<Step> {
    seq(|slices|, k requires 0 <= k < |slices| => OpenStep(slices[k]))
  }

  function AllTimes(slices: seq<seq<Event>>): seq<Times>
    requires forall k :: 0 <= k < |slices| ==> slices[k] != []
  {
    seq(|slices|, k requires 0 <= k < |slices| => TimesOf(slices[k]))
  }

  /** The timeline of an event list: one step for each slice, made of that slice alone. */
  function StepsOf(events: seq<Event>): seq<Step> {
    var slices := Slices(events);
    seq(|slices|, k requires 0 <= k < |slices| => StepOf(slices[k]))
  }

  // ---------------------------------------------------------------- sums over all steps

  /** The steps built from some events. The open step is the last one, once there is any. */
  ghost predicate Built(steps: seq<Step>, events: seq<Event>) {
    BuiltShape(steps, events) && BuiltCounts(steps, events) && BuiltTotals(steps, events)
  }

  ghost predicate BuiltShape(steps: seq<Step>, events: seq<Event>) {
    && (steps == [] <==> Untouched(events))
    && |steps| == Count(events, IsStepStart) + (if StartsEarly(events) then 1 else 0)
    && ToolSpans(steps) == SpansOf(events)
  }

  ghost predicate BuiltCounts(steps: seq<Step>, events: seq<Event>) {
    && Retries(steps) == Count(events, IsRetry) - Count(events, IsRidingRetry)
    && Compactions(steps) == Count(events, IsCompaction) - Count(events, IsRidingCompaction)
  }

  ghost predicate BuiltTotals(steps: seq<Step>, events: seq<Event>) {
    && (steps == [] ==> OpenTokens(events) == 0 && OpenCost(events) == 0.0)
    && (steps != [] ==> steps[|steps| - 1].tokens.total == OpenTokens(events) && steps[|steps| - 1].cost == OpenCost(events))
    && StepTokens(steps) + OverwrittenTokens(events) == TokenSum(events).total + RecomputedTokens(events)
    && StepCost(steps) + OverwrittenCost(events) == CostSum(events)
  }

  /** `ensure`: the steps with one open. */
  function Opened(steps: seq<Step>): (r: seq<Step>)
    ensures r != []
  {
    if steps == [] then [EMPTY_STEP] else steps
  }

  function ChangeLast(steps: seq<Step>, last: Step): seq<Step>
    requires steps != []
  {
    steps[..|steps| - 1] + [last]
  }

  /** Changing only the open step moves each sum by the change. */
  lemma SumsOfChanged(steps: seq<Step>, last: Step)
    requires steps != []
    ensures var was, now := steps[|steps| - 1], ChangeLast(steps, last);
            && Retries(now) == Retries(steps) - was.retries + last.retries
            && Compactions(now) == Compactions(steps) - was.compactions + last.compactions
            && StepTokens(now) == StepTokens(steps) - was.tokens.total + last.tokens.total
            && StepCost(now) == StepCost(steps) - was.cost + last.cost
    ensures var was, now := steps[|steps| - 1], ChangeLast(steps, last);
            forall more :: last.tools == was.tools + more ==> ToolSpans(now) == ToolSpans(steps) + more
  {
    var was, now := steps[|steps| - 1], ChangeLast(steps, last);
    assert now[..|now| - 1] == steps[..|steps| - 1];
    forall more | last.tools == was.tools + more ensures ToolSpans(now) == ToolSpans(steps) + more {
      assert ToolSpans(steps[..|steps| - 1]) + (was.tools + more) == (ToolSpans(steps[..|steps| - 1]) + was.tools) + more;
    }
  }

  lemma SumsOfAppended(steps: seq<Step>)
    ensures var now := steps + [EMPTY_STEP];
            && ToolSpans(now) == ToolSpans(steps) && Retries(now) == Retries(steps)
            && Compactions(now) == Compactions(steps) && StepTokens(now) == StepTokens(steps)
            && StepCost(now) == StepCost(steps)
  {
    var now := steps + [EMPTY_STEP];
    assert now[..|now| - 1] == steps;
  }

  lemma SumsOfOpened(steps: seq<Step>)
    ensures ToolSpans(Opened(steps)) == ToolSpans(steps) && Retries(Opened(steps)) == Retries(steps)
    ensures Compactions(Opened(steps)) == Compactions(steps) && StepTokens(Opened(steps)) == StepTokens(steps)
    ensures StepCost(Opened(steps)) == StepCost(steps)
  {
    if steps == [] {
      SumsOfAppended(steps);
      assert steps + [EMPTY_STEP] == Opened(steps);
    }
  }

  /** One more event read. */
  lemma EventsStep(events: seq<Event>, e: Event)
    ensures SpansOf(events + [e]) == SpansOf(events) + (if IsTool(e) then [SpanOf(e.part.value)] else [])
    ensures var more := events + [e];
            && OpenTokens(more) == (if IsStepStart(e) then 0
                                    else if IsStepFinish(e) then ShownTokens(e.part.value.tokens).total else OpenTokens(events))
            && OpenCost(more) == (if IsStepStart(e) then 0.0
                                  else if IsStepFinish(e) && e.part.value.cost.Some? then e.part.value.cost.value
                                  else OpenCost(events))
            && OverwrittenTokens(more) == OverwrittenTokens(events) + (if IsStepFinish(e) then OpenTokens(events) else 0)
            && OverwrittenCost(more) ==
               OverwrittenCost(events) + (if IsStepFinish(e) && e.part.value.cost.Some? then OpenCost(events) else 0.0)
            && RecomputedTokens(more) == RecomputedTokens(events)
               + (if IsStepFinish(e) && e.part.value.tokens.Some? && e.part.value.tokens.value.total == 0
                  then ShownTokens(e.part.value.tokens).total else 0)
  {
    assert (events + [e])[..|events|] == events;
  }

  lemma RidingStep(events: seq<Event>, e: Event)
    ensures Count(events + [e], IsRidingRetry) == Count(events, IsRidingRetry) + (if IsRidingRetry(e) then 1 else 0)
    ensures Count(events + [e], IsRidingCompaction) == Count(events, IsRidingCompaction) + (if IsRidingCompaction(e) then 1 else 0)
  {
    CountStep(events, e, IsRidingRetry);
    CountStep(events, e, IsRidingCompaction);
  }

  ghost predicate Untouched(events: seq<Event>) {
    forall i :: 0 <= i < |events| ==> !IsStepStart(events[i]) && !NeedsStep(events[i])
  }

  lemma UntouchedStep(events: seq<Event>, e: Event)
    ensures Untouched(events + [e]) <==> Untouched(events) && !IsStepStart(e) && !NeedsStep(e)
    ensures StartsEarly(events + [e]) <==> StartsEarly(events) || (Untouched(events) && NeedsStep(e))
  {
    hide IsStepStart, NeedsStep;
    var more := events + [e];
    assert forall i :: 0 <= i < |events| ==> more[i] == events[i];
    assert more[|events|] == e;
    if Untouched(more) {
      assert forall i :: 0 <= i < |events| ==> !IsStepStart(more[i]) && !NeedsStep(more[i]);
    }
    if StartsEarly(events) {
      var i :| 0 <= i < |events| && NeedsStep(events[i]) && forall j :: 0 <= j < i ==> !IsStepStart(events[j]);
      assert NeedsStep(more[i]) && forall j :: 0 <= j < i ==> !IsStepStart(more[j]);
    }
    if Untouched(events) && NeedsStep(e) {
      assert NeedsStep(more[|events|]) && forall j :: 0 <= j < |events| ==> !IsStepStart(more[j]);
    }
    if StartsEarly(more) {
      var i :| 0 <= i < |more| && NeedsStep(more[i]) && forall j :: 0 <= j < i ==> !IsStepStart(more[j]);
      if i < |events| {
        assert NeedsStep(events[i]) && forall j :: 0 <= j < i ==> !IsStepStart(events[j]);
      } else if !StartsEarly(events) {
        NeverNeeded(events);
      }
    }
  }

  /** If nothing came early and no step was started, nothing needed one. */
  lemma NeverNeeded(events: seq<Event>)
    requires !StartsEarly(events) && forall j :: 0 <= j < |events| ==> !IsStepStart(events[j])
    ensures Untouched(events)
  {
  }

  // ---------------------------------------------------------------- one event, case by case

  lemma BuiltNothing()
    ensures Built([], [])
  {
  }

  lemma BuiltSkip(steps: seq<Step>, events: seq<Event>, e: Event)
    requires Built(steps, events) && !IsStepStart(e) && !NeedsStep(e)
    ensures Built(steps, events + [e])
  {
    hide Count, Untouched, StartsEarly, ToolSpans, Retries, Compactions, StepTokens, StepCost;
    hide OpenTokens, OpenCost, OverwrittenTokens, OverwrittenCost, RecomputedTokens, TokenSum, CostSum, SpansOf, SpanOf;
    CountsStep(events, e);
    RidingStep(events, e);
    EventsStep(events, e);
    SumsStep(events, e);
    UntouchedStep(events, e);
    assert SpansOf(events) + [] == SpansOf(events);
  }

  lemma BuiltStart(steps: seq<Step>, events: seq<Event>, e: Event)
    requires Built(steps, events) && IsStepStart(e)
    ensures Built(steps + [EMPTY_STEP], events + [e])
  {
    hide Count, Untouched, StartsEarly, ToolSpans, Retries, Compactions, StepTokens, StepCost;
    hide OpenTokens, OpenCost, OverwrittenTokens, OverwrittenCost, RecomputedTokens, TokenSum, CostSum, SpansOf, SpanOf;
    CountsStep(events, e);
    RidingStep(events, e);
    EventsStep(events, e);
    SumsStep(events, e);
    UntouchedStep(events, e);
    SumsOfAppended(steps);
    assert SpansOf(events) + [] == SpansOf(events);
  }

  /** What the open step becomes on an event that needs one. */
  function Touched(last: Step, e: Event): Step
    requires NeedsStep(e)
  {
    var p := e.part.value;
    if IsTool(e) then last.(tools := last.tools + [SpanOf(p)])
    else if IsStepFinish(e) then last.(tokens := ShownTokens(p.tokens), cost := if p.cost.Some? then p.cost.value else last.cost)
    else if IsRetry(e) then last.(retries := last.retries + 1)
    else last.(compactions := last.compactions + 1)
  }

  lemma TouchSpans(steps: seq<Step>, e: Event)
    requires NeedsStep(e)
    ensures var open := Opened(steps);
            ToolSpans(ChangeLast(open, Touched(open[|open| - 1], e))) ==
            ToolSpans(steps) + (if IsTool(e) then [SpanOf(e.part.value)] else [])
  {
    hide ToolSpans, SpanOf, ShownTokens, ChangeLast;
    var open := Opened(steps);
    var last := Touched(open[|open| - 1], e);
    SumsOfOpened(steps);
    SumsOfChanged(open, last);
    var more := if IsTool(e) then [SpanOf(e.part.value)] else [];
    assert last.tools == open[|open| - 1].tools + more;
  }

  lemma TouchShape(steps: seq<Step>, events: seq<Event>, e: Event)
    requires BuiltShape(steps, events) && NeedsStep(e)
    ensures var open := Opened(steps); BuiltShape(ChangeLast(open, Touched(open[|open| - 1], e)), events + [e])
  {
    hide Count, Untouched, StartsEarly, ToolSpans, SpansOf, SpanOf, ShownTokens, Touched;
    CountsStep(events, e);
    EventsStep(events, e);
    UntouchedStep(events, e);
    TouchSpans(steps, e);
  }

  lemma TouchCounts(steps: seq<Step>, events: seq<Event>, e: Event)
    requires BuiltCounts(steps, events) && NeedsStep(e)
    ensures var open := Opened(steps); BuiltCounts(ChangeLast(open, Touched(open[|open| - 1], e)), events + [e])
  {
    hide Count, Retries, Compactions, SpanOf, ShownTokens, ToolSpans, StepTokens, StepCost, ChangeLast;
    var open := Opened(steps);
    CountsStep(events, e);
    RidingStep(events, e);
    SumsOfOpened(steps);
    SumsOfChanged(open, Touched(open[|open| - 1], e));
  }

  /** The tokens one step_finish shows are those it meters, or recomputed ones. */
  lemma ShownIsMetered(sum: Tokens, p: Part)
    ensures AddTokens(sum, MeteredTokens(p)).total
            + (if p.tokens.Some? && p.tokens.value.total == 0 then ShownTokens(p.tokens).total else 0) ==
            sum.total + ShownTokens(p.tokens).total
  {
  }

  lemma TouchTotals(steps: seq<Step>, events: seq<Event>, e: Event)
    requires BuiltTotals(steps, events) && NeedsStep(e)
    ensures var open := Opened(steps); BuiltTotals(ChangeLast(open, Touched(open[|open| - 1], e)), events + [e])
  {
    hide StepTokens, StepCost, OpenTokens, OpenCost, OverwrittenTokens, OverwrittenCost, RecomputedTokens, TokenSum, CostSum;
    hide SpanOf, ShownTokens, MeteredTokens, AddTokens, ToolSpans, Retries, Compactions, SpansOf, FirstEdit, CallsBeforeEdit, TextsOf;
    var open := Opened(steps);
    ShownIsMetered(TokenSum(events), e.part.value);
    EventsStep(events, e);
    SumsStep(events, e);
    SumsOfOpened(steps);
    SumsOfChanged(open, Touched(open[|open| - 1], e));
  }

  lemma BuiltTouch(steps: seq<Step>, events: seq<Event>, e: Event)
    requires Built(steps, events) && NeedsStep(e)
    ensures var open := Opened(steps); Built(ChangeLast(open, Touched(open[|open| - 1], e)), events + [e])
  {
    hide BuiltShape, BuiltCounts, BuiltTotals, Opened, Touched, ChangeLast;
    TouchShape(steps, events, e);
    TouchCounts(steps, events, e);
    TouchTotals(steps, events, e);
  }

  /** `buildTool`: the span, and the captured child noted the first time it is named. */
  method BuildTool(p: Part, captured: set<string>, seen: set<string>, subagents: seq<string>)
    returns (span: ToolSpan, seenNow: set<string>, subagentsNow: seq<string>)
    requires forall id :: id in seen <==> id in subagents
    ensures span == SpanOf(p) && subagentsNow == WithChild(subagents, span, captured)
    ensures forall id :: id in seenNow <==> id in subagentsNow
  {
    span, seenNow, subagentsNow := ToolSpan(p.tool, None), seen, subagents;
    if p.tool != "task" || p.childId.None? || p.childId.value == "" {
      return;
    }
    var id := p.childId.value;
    if id in captured {
      if id !in seenNow {
        seenNow := seenNow + {id};
        subagentsNow := subagentsNow + [id];
      }
    }
    span := ToolSpan(p.tool, Some(id));
  }

  // ---------------------------------------------------------------- one event more

  lemma OneMoreInSlice(slice: seq<Event>, e: Event)
    ensures OpenStep(slice + [e]) == if NeedsStep(e) then Touched(OpenStep(slice), e) else OpenStep(slice)
    ensures slice != [] ==> TimesOf(slice + [e]) == if Marks(e) then Widened(TimesOf(slice), e.timestamp) else TimesOf(slice)
  {
    assert (slice + [e])[..|slice|] == slice;
    CountStep(slice, e, IsPlainRetry);
    CountStep(slice, e, IsPlainCompaction);
    hide Count, SpanOf, ShownTokens;
    assert SpansOf(slice) + [] == SpansOf(slice);
  }

  lemma FirstInSlice(e: Event)
    ensures OpenStep([e]) == if NeedsStep(e) then Touched(EMPTY_STEP, e) else EMPTY_STEP
    ensures TimesOf([e]) == Times(e.timestamp, e.timestamp)
  {
    OneMoreInSlice([], e);
    assert [] + [e] == [e];
  }

  lemma OneMoreEvent(events: seq<Event>, e: Event)
    ensures var before := Slices(events);
            Slices(events + [e]) ==
            if IsStepStart(e) || (before == [] && NeedsStep(e)) then before + [[e]]
            else if before == [] then []
            else before[..|before| - 1] + [before[|before| - 1] + [e]]
  {
    assert (events + [e])[..|events|] == events;
  }

  lemma MapsAppend(slices: seq<seq<Event>>, slice: seq<Event>)
    requires slice != [] && forall k :: 0 <= k < |slices| ==> slices[k] != []
    ensures OpenSteps(slices + [slice]) == OpenSteps(slices) + [OpenStep(slice)]
    ensures AllTimes(slices + [slice]) == AllTimes(slices) + [TimesOf(slice)]
  {
    hide OpenStep, TimesOf;
  }

  lemma MapsChange(slices: seq<seq<Event>>, slice: seq<Event>)
    requires slice != [] && slices != [] && forall k :: 0 <= k < |slices| ==> slices[k] != []
    ensures var n := |slices| - 1;
            && OpenSteps(slices[..n] + [slice]) == OpenSteps(slices)[..n] + [OpenStep(slice)]
            && AllTimes(slices[..n] + [slice]) == AllTimes(slices)[..n] + [TimesOf(slice)]
            && OpenSteps(slices)[n] == OpenStep(slices[n]) && AllTimes(slices)[n] == TimesOf(slices[n])
  {
    hide OpenStep, TimesOf;
  }

  /** The loop's state: the steps so far, without durations, and their times. */
  ghost predicate Follows(steps: seq<Step>, times: seq<Times>, events: seq<Event>) {
    steps == OpenSteps(Slices(events)) && times == AllTimes(Slices(events))
  }

  lemma SkipFollows(steps: seq<Step>, times: seq<Times>, events: seq<Event>, e: Event)
    requires Follows(steps, times, events) && !IsStepStart(e) && !NeedsStep(e)
    ensures Follows(steps, times, events + [e])
  {
    assert !Marks(e);
    hide IsStepStart, NeedsStep, Slices, OpenStep, TimesOf, Marks;
    OneMoreEvent(events, e);
    var before := Slices(events);
    if before != [] {
      var last := before[|before| - 1];
      OneMoreInSlice(last, e);
      MapsChange(before, last + [e]);
      hide OpenSteps, AllTimes;
      LastPutBack(steps);
      LastPutBack(times);
    }
  }

  lemma LastPutBack<T>(s: seq<T>)
    ensures s != [] ==> s[..|s| - 1] + [s[|s| - 1]] == s
  {
  }

  lemma StartFollows(steps: seq<Step>, times: seq<Times>, events: seq<Event>, e: Event)
    requires Follows(steps, times, events) && IsStepStart(e)
    ensures Follows(steps + [EMPTY_STEP], times + [Times(e.timestamp, e.timestamp)], events + [e])
  {
    assert !NeedsStep(e);
    hide IsStepStart, NeedsStep, Slices, OpenStep, TimesOf, OpenSteps, AllTimes;
    OneMoreEvent(events, e);
    FirstInSlice(e);
    MapsAppend(Slices(events), [e]);
  }

  /** `ensure` and `mark`: a step is open, and its times hold the event's. */
  function OpenedTimes(times: seq<Times>, timestamp: int): (r: seq<Times>)
    ensures r != []
  {
    if times == [] then [Times(timestamp, timestamp)]
    else times[..|times| - 1] + [Widened(times[|times| - 1], timestamp)]
  }

  lemma TouchFollows(steps: seq<Step>, times: seq<Times>, events: seq<Event>, e: Event)
    requires Follows(steps, times, events) && NeedsStep(e)
    ensures var open := Opened(steps);
            Follows(ChangeLast(open, Touched(open[|open| - 1], e)), OpenedTimes(times, e.timestamp), events + [e])
  {
    assert !IsStepStart(e) && Marks(e);
    hide IsStepStart, NeedsStep, Slices, OpenStep, TimesOf, Touched, Marks, Widened, OpenSteps, AllTimes;
    OneMoreEvent(events, e);
    var before := Slices(events);
    LengthsMatch(before);
    if before == [] {
      FirstInSlice(e);
      MapsAppend([], [e]);
      assert [] + [[e]] == [[e]];
    } else {
      OneMoreInSlice(before[|before| - 1], e);
      MapsChange(before, before[|before| - 1] + [e]);
    }
  }

  lemma LengthsMatch(slices: seq<seq<Event>>)
    requires forall k :: 0 <= k < |slices| ==> slices[k] != []
    ensures |OpenSteps(slices)| == |slices| && |AllTimes(slices)| == |slices|
  {
  }

  /** `ensure` and `mark`: opens a step unless one is open, and lets the open step's times hold the timestamp;
      cur is the open step's index, or -1. */
  method Ensure(steps: seq<Step>, times: seq<Times>, cur: int, timestamp: int)
    returns (stepsNow: seq<Step>, timesNow: seq<Times>, curNow: int)
    requires cur == |steps| - 1 && |times| == |steps|
    ensures stepsNow == Opened(steps) && timesNow == OpenedTimes(times, timestamp) && curNow == |stepsNow| - 1
  {
    stepsNow, timesNow, curNow := steps, times, cur;
    if cur == -1 {
      stepsNow := stepsNow + [EMPTY_STEP];
      timesNow := timesNow + [Times(timestamp, timestamp)];
      curNow := |stepsNow| - 1;
    }
    var i := |stepsNow| - 1;
    if timestamp < timesNow[i].first {
      timesNow := timesNow[i := timesNow[i].(first := timestamp)];
    }
    if timestamp > timesNow[i].last {
      timesNow := timesNow[i := timesNow[i].(last := timestamp)];
    }
  }

  /** `Build`: each step of the timeline is made of the events of that step, and of no others. */
  method Build(events: seq<Event>, captured: set<string>) returns (steps: seq<Step>, subagents: seq<string>)
    ensures steps == StepsOf(events)
    ensures subagents == ChildrenOf(events, captured)
  {
    hide Follows, SpanOf, WithChild, ShownTokens, Opened, OpenedTimes, StepsOf;
    steps, subagents := [], [];
    var times: seq<Times> := [];
    var seen: set<string> := {};
    var cur := -1;
    NothingFollows();
    for i := 0 to |events|
      invariant Follows(steps, times, events[..i]) && cur == |steps| - 1 && |times| == |steps|
      invariant subagents == ChildrenOf(events[..i], captured)
      invariant forall id :: id in seen <==> id in subagents
    {
      var e := events[i];
      assert events[..i + 1] == events[..i] + [e] && events[..i + 1][..i] == events[..i];
      if e.part.None? {
        SkipFollows(steps, times, events[..i], e);
        continue;
      }
      var p := e.part.value;
      if NeedsStep(e) {
        TouchFollows(steps, times, events[..i], e);
      }
      match e.kind {
      case StepStart =>
        StartFollows(steps, times, events[..i], e);
        steps, times := steps + [EMPTY_STEP], times + [Times(e.timestamp, e.timestamp)];
        cur := |steps| - 1;
      case ToolUse =>
        steps, times, cur := Ensure(steps, times, cur, e.timestamp);
        var span;
        span, seen, subagents := BuildTool(p, captured, seen, subagents);
        var last := steps[cur];
        steps := ChangeLast(steps, last.(tools := last.tools + [span]));
      case StepFinish =>
        steps, times, cur := Ensure(steps, times, cur, e.timestamp);
        var last := steps[cur];
        last := last.(tokens := ShownTokens(p.tokens));
        if p.cost.Some? {
          last := last.(cost := p.cost.value);
        }
        steps := ChangeLast(steps, last);
      case Text =>
        steps, times, cur := CountInterruption(steps, times, cur, events[..i], e);
      case OtherEvent(_) =>
        steps, times, cur := CountInterruption(steps, times, cur, events[..i], e);
      }
      FollowersMatch(steps, times, events[..i + 1]);
    }
    assert events[..|events|] == events;
    steps := FillIn(steps, times, events);
  }

  lemma NothingFollows()
    ensures Follows([], [], [])
  {
  }

  lemma FollowersMatch(steps: seq<Step>, times: seq<Times>, events: seq<Event>)
    requires Follows(steps, times, events)
    ensures |times| == |steps|
  {
  }

  /** The last loop: the durations. */
  method FillIn(open: seq<Step>, times: seq<Times>, ghost events: seq<Event>) returns (steps: seq<Step>)
    requires Follows(open, times, events)
    ensures steps == StepsOf(events)
  {
    ghost var slices := Slices(events);
    hide Slices, OpenStep, TimesOf;
    steps := open;
    for i := 0 to |steps|
      invariant |steps| == |slices|
      invariant forall k :: 0 <= k < i ==> steps[k] == StepOf(slices[k])
      invariant forall k :: i <= k < |steps| ==> steps[k] == OpenStep(slices[k])
    {
      TimesAreOrdered(slices[i]);
      OpenHasNoDuration(slices[i]);
      if times[i].last > times[i].first {
        steps := steps[i := steps[i].(duration := times[i].last - times[i].first)];
      }
    }
  }

  lemma OpenHasNoDuration(slice: seq<Event>)
    ensures OpenStep(slice).duration == 0
  {
  }

  lemma {:induction false} TimesAreOrdered(slice: seq<Event>)
    requires slice != []
    ensures TimesOf(slice).first <= TimesOf(slice).last
  {
    if |slice| > 1 {
      TimesAreOrdered(slice[..|slice| - 1]);
    }
  }

  /** The default branch: a retry or compaction lands on the open step. */
  method CountInterruption(steps: seq<Step>, times: seq<Times>, cur: int, ghost events: seq<Event>, e: Event)
    returns (stepsNow: seq<Step>, timesNow: seq<Times>, curNow: int)
    requires Follows(steps, times, events) && cur == |steps| - 1 && |times| == |steps|
    requires e.part.Some? && !IsStepEnvelope(e)
    ensures Follows(stepsNow, timesNow, events + [e]) && curNow == |stepsNow| - 1
  {
    hide Follows, OpenedTimes;
    stepsNow, timesNow, curNow := steps, times, cur;
    match e.part.value.kind {
    case Retry =>
      TouchFollows(steps, times, events, e);
      stepsNow, timesNow, curNow := Ensure(steps, times, cur, e.timestamp);
      stepsNow := ChangeLast(stepsNow, stepsNow[curNow].(retries := stepsNow[curNow].retries + 1));
    case Compaction =>
      TouchFollows(steps, times, events, e);
      stepsNow, timesNow, curNow := Ensure(steps, times, cur, e.timestamp);
      stepsNow := ChangeLast(stepsNow, stepsNow[curNow].(compactions := stepsNow[curNow].compactions + 1));
    case OtherPart(_) =>
      SkipFollows(steps, times, events, e);
    }
  }

  // ---------------------------------------------------------------- the sums of the timeline

  /** Step lists that differ in nothing but durations. */
  ghost predicate SameButDurations(a: seq<Step>, b: seq<Step>) {
    |a| == |b| && forall i :: 0 <= i < |a| ==> a[i].(duration := 0) == b[i].(duration := 0)
  }

  lemma {:induction false} SumsIgnoreDurations(a: seq<Step>, b: seq<Step>)
    requires SameButDurations(a, b)
    ensures ToolSpans(a) == ToolSpans(b) && Retries(a) == Retries(b) && Compactions(a) == Compactions(b)
    ensures StepTokens(a) == StepTokens(b) && StepCost(a) == StepCost(b)
  {
    if a != [] {
      var n := |a| - 1;
      assert a[n].(duration := 0) == b[n].(duration := 0);
      SumsIgnoreDurations(a[..n], b[..n]);
    }
  }

  lemma {:induction false} OpenStepsAreBuilt(events: seq<Event>)
    ensures Built(OpenSteps(Slices(events)), events)
  {
    hide Built, Follows, IsStepStart, NeedsStep, Opened, ChangeLast, Touched, OpenedTimes;
    if events == [] {
      BuiltNothing();
      NothingFollows();
    } else {
      var n := |events| - 1;
      var init, e := events[..n], events[n];
      assert events == init + [e];
      var steps, times := OpenSteps(Slices(init)), AllTimes(Slices(init));
      ItFollows(init);
      OpenStepsAreBuilt(init);
      if IsStepStart(e) {
        BuiltStart(steps, init, e);
        StartFollows(steps, times, init, e);
        TheFollower(steps + [EMPTY_STEP], times + [Times(e.timestamp, e.timestamp)], events);
      } else if NeedsStep(e) {
        var open := Opened(steps);
        BuiltTouch(steps, init, e);
        TouchFollows(steps, times, init, e);
        TheFollower(ChangeLast(open, Touched(open[|open| - 1], e)), OpenedTimes(times, e.timestamp), events);
      } else {
        BuiltSkip(steps, init, e);
        SkipFollows(steps, times, init, e);
        TheFollower(steps, times, events);
      }
    }
  }

  lemma ItFollows(events: seq<Event>)
    ensures Follows(OpenSteps(Slices(events)), AllTimes(Slices(events)), events)
  {
  }

  lemma TheFollower(steps: seq<Step>, times: seq<Times>, events: seq<Event>)
    requires Follows(steps, times, events)
    ensures steps == OpenSteps(Slices(events))
  {
  }

  /** What the steps of a timeline add up to. */
  lemma StepsAreBuilt(events: seq<Event>)
    ensures Built(StepsOf(events), events)
  {
    OpenStepsAreBuilt(events);
    var a, b := OpenSteps(Slices(events)), StepsOf(events);
    OnlyDurationsDiffer(events);
    SumsIgnoreDurations(a, b);
    assert a != [] ==> a[|a| - 1].(duration := 0) == b[|b| - 1].(duration := 0);
    hide Slices, StepsOf, OpenSteps, Untouched, Count, StartsEarly, ToolSpans, SpansOf, Retries, Compactions, StepTokens, StepCost;
    hide OpenTokens, OpenCost, OverwrittenTokens, OverwrittenCost, RecomputedTokens, TokenSum, CostSum;
  }

  lemma OnlyDurationsDiffer(events: seq<Event>)
    ensures SameButDurations(OpenSteps(Slices(events)), StepsOf(events))
  {
    hide Slices;
  }

  // ---------------------------------------------------------------- trace and metrics together

  lemma {:induction false} CountIsZero(events: seq<Event>, counted: Event -> bool)
    ensures Count(events, counted) == 0 <==> forall i :: 0 <= i < |events| ==> !counted(events[i])
  {
    if events != [] {
      var n := |events| - 1;
      CountIsZero(events[..n], counted);
      assert forall i :: 0 <= i < n ==> events[..n][i] == events[i];
    }
  }

  /** Over any event list, the timeline has a span for each tool call of the metrics and a step for each
      step, one more exactly when something needed a step before the first started. Retries agree exactly
      when none rides on a step's own envelope, and likewise compactions. */
  lemma TraceAgreesWithMetrics(steps: seq<Step>, events: seq<Event>, c: Counters)
    requires steps == StepsOf(events) && Counted(c, events)
    ensures |ToolSpans(steps)| == c.toolCalls
    ensures |steps| == c.steps + (if StartsEarly(events) then 1 else 0)
    ensures Retries(steps) == c.retries <==>
            forall i :: 0 <= i < |events| && IsRetry(events[i]) ==> !IsStepEnvelope(events[i])
    ensures Compactions(steps) == c.compactions <==>
            forall i :: 0 <= i < |events| && IsCompaction(events[i]) ==> !IsStepEnvelope(events[i])
  {
    hide Count, StartsEarly, IsRetry, IsCompaction, IsStepEnvelope, StepsOf;
    StepsAreBuilt(events);
    SpanPerCall(events);
    CountIsZero(events, IsRidingRetry);
    CountIsZero(events, IsRidingCompaction);
  }

  /** A tool call whose part is a retry. */
  const RIDING_RETRY := Event(ToolUse, 0, Some(Part(Retry, "bash", "", None, None, None, None)))

  /** The stream of that one event: the metrics count a retry and the timeline shows none. */
  lemma RidingRetryIsNotShown(steps: seq<Step>, c: Counters)
    requires steps == StepsOf([RIDING_RETRY]) && Counted(c, [RIDING_RETRY])
    ensures c.retries == 1 && |steps| == 1 && steps[0].retries == 0
  {
    assert [RIDING_RETRY][..0] == [];
    assert Slices([]) == [];
    assert Slices([RIDING_RETRY]) == [[RIDING_RETRY]];
    assert Count([RIDING_RETRY], IsPlainRetry) == 0;
    assert Count([RIDING_RETRY], IsRetry) == 1 && Count([RIDING_RETRY], IsRidingRetry) == 1;
  }

  /** What the timeline's totals lack, and add, against the metrics: a later step_finish of a step
      overwrites what the earlier one showed, and a missing total is recomputed. */
  lemma TotalsDifferByOverwrites(steps: seq<Step>, events: seq<Event>, t: Totals)
    requires steps == StepsOf(events) && Totalled(t, events)
    ensures StepTokens(steps) - t.tokens.total == RecomputedTokens(events) - OverwrittenTokens(events)
    ensures t.cost - StepCost(steps) == OverwrittenCost(events)
  {
    hide StepTokens, StepCost, RecomputedTokens, OverwrittenTokens, OverwrittenCost, TokenSum, CostSum, StepsOf;
    StepsAreBuilt(events);
  }

  /** Every cost the stream reports is at least zero. */
  ghost predicate CostsAreNatural(events: seq<Event>) {
    forall i :: 0 <= i < |events| && IsStepFinish(events[i]) && events[i].part.value.cost.Some? ==>
      events[i].part.value.cost.value >= 0.0
  }

  /** Event i reports the cost of a step that shows one already. */
  predicate ReportsCostAgain(events: seq<Event>, i: int)
    requires 0 <= i < |events|
  {
    IsStepFinish(events[i]) && events[i].part.value.cost.Some? && OpenCost(events[..i]) != 0.0
  }

  lemma {:induction false} OverwrittenCostIsNatural(events: seq<Event>)
    requires CostsAreNatural(events)
    ensures OpenCost(events) >= 0.0 && OverwrittenCost(events) >= 0.0
    ensures OverwrittenCost(events) == 0.0 <==> forall i :: 0 <= i < |events| ==> !ReportsCostAgain(events, i)
  {
    if events != [] {
      var n := |events| - 1;
      assert forall i :: 0 <= i < n ==> events[..n][i] == events[i] && events[..n][..i] == events[..i];
      OverwrittenCostIsNatural(events[..n]);
      assert forall i :: 0 <= i < n ==> (ReportsCostAgain(events, i) <==> ReportsCostAgain(events[..n], i));
      assert OverwrittenCost(events) == OverwrittenCost(events[..n]) + (if ReportsCostAgain(events, n) then OpenCost(events[..n]) else 0.0);
    }
  }

  /** With costs that are not negative, the timeline's cost is the metrics' cost exactly when no step that
      shows a cost reports another one. */
  lemma CostsAgreeIff(steps: seq<Step>, events: seq<Event>, t: Totals)
    requires steps == StepsOf(events) && Totalled(t, events) && CostsAreNatural(events)
    ensures StepCost(steps) == t.cost <==> forall i :: 0 <= i < |events| ==> !ReportsCostAgain(events, i)
  {
    hide StepsOf, Totalled, CostsAreNatural, ReportsCostAgain, StepCost, OverwrittenCost;
    OverwrittenCostIsNatural(events);
    TotalsDifferByOverwrites(steps, events, t);
  }

  /** The open step has already seen a step_finish. */
  predicate Finished(events: seq<Event>) {
    events != [] && (IsStepFinish(events[|events| - 1]) || (!IsStepStart(events[|events| - 1]) && Finished(events[..|events| - 1])))
  }

  /** No step is finished twice, and every step_finish with tokens carries a total. */
  ghost predicate FinishesOnce(events: seq<Event>) {
    forall i :: 0 <= i < |events| && IsStepFinish(events[i]) ==>
      && !Finished(events[..i])
      && (events[i].part.value.tokens.Some? ==> events[i].part.value.tokens.value.total != 0)
  }

  lemma {:induction false} OpenUntilFinished(events: seq<Event>)
    requires !Finished(events)
    ensures OpenTokens(events) == 0 && OpenCost(events) == 0.0
  {
    if events != [] && !IsStepStart(events[|events| - 1]) {
      OpenUntilFinished(events[..|events| - 1]);
    }
  }

  lemma {:induction false} NothingOverwritten(events: seq<Event>)
    requires FinishesOnce(events)
    ensures OverwrittenTokens(events) == 0 && OverwrittenCost(events) == 0.0 && RecomputedTokens(events) == 0
  {
    hide OpenTokens, OpenCost, ShownTokens, Finished;
    if events != [] {
      var n := |events| - 1;
      assert forall i :: 0 <= i < n ==> events[..n][i] == events[i] && events[..n][..i] == events[..i];
      NothingOverwritten(events[..n]);
      if IsStepFinish(events[n]) {
        OpenUntilFinished(events[..n]);
      }
    }
  }

  /** On a stream that finishes each step at most once and always with a total, tokens and cost agree too. */
  lemma TotalsAgreeWhenFinishedOnce(steps: seq<Step>, events: seq<Event>, t: Totals)
    requires steps == StepsOf(events) && Totalled(t, events) && FinishesOnce(events)
    ensures StepTokens(steps) == t.tokens.total && StepCost(steps) == t.cost
  {
    hide StepsOf, Totalled, FinishesOnce, StepTokens, StepCost;
    NothingOverwritten(events);
    TotalsDifferByOverwrites(steps, events, t);
  }
}
