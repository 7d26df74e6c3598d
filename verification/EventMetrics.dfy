/** The counters kept over a run's event stream, updated one event at a time. */
module EventMetrics {
  import opened Options

  datatype Tokens = Tokens(input: int, output: int, reasoning: int, cacheRead: int, cacheWrite: int, total: int)

  /** A tool part's state as the metrics decode it. */
  datatype ToolState = ToolState(status: string, command: string, filePath: string)

  /** A decoded part. `state` is missing when the part has none or it does not decode; `childId` is the
      session a task's state names, as the trace decodes it. */
  datatype PartKind = Retry | Compaction | OtherPart(name: string)
  datatype Part = Part(kind: PartKind, tool: string, text: string, state: Option<ToolState>, childId: Option<string>,
                       cost: Option<real>, tokens: Option<Tokens>)

  /** An event; its part is missing when it is present but does not decode. */
  datatype Envelope = StepStart | ToolUse | StepFinish | Text | OtherEvent(name: string)
  datatype Event = Event(kind: Envelope, timestamp: int, part: Option<Part>)

  /** Stands for a stored line that is no event at all. */
  const MALFORMED := Event(OtherEvent(""), 0, None)

  const NO_TOKENS := Tokens(0, 0, 0, 0, 0, 0)

  function AddTokens(a: Tokens, b: Tokens): Tokens {
    Tokens(a.input + b.input, a.output + b.output, a.reasoning + b.reasoning, a.cacheRead + b.cacheRead,
           a.cacheWrite + b.cacheWrite, a.total + b.total)
  }

  // ---------------------------------------------------------------- reading a list of events

  predicate Undecodable(e: Event) { e.part.None? }
  predicate IsStepStart(e: Event) { e.part.Some? && e.kind == StepStart }
  predicate IsTool(e: Event) { e.part.Some? && e.kind == ToolUse }
  predicate IsStepFinish(e: Event) { e.part.Some? && e.kind == StepFinish }
  predicate IsText(e: Event) { e.part.Some? && e.kind == Text }
  predicate IsRetry(e: Event) { e.part.Some? && e.part.value.kind == Retry }
  predicate IsCompaction(e: Event) { e.part.Some? && e.part.value.kind == Compaction }
  predicate IsTask(e: Event) { IsTool(e) && IsTaskTool(e.part.value.tool) }
  predicate IsSkill(e: Event) { IsTool(e) && IsSkillTool(e.part.value.tool) }
  predicate IsFailedTool(e: Event) { IsTool(e) && HasFailed(e.part.value.state) }
  predicate IsTaskTool(tool: string) { tool == "task" }
  predicate IsSkillTool(tool: string) { tool == "skill" }
  predicate HasFailed(state: Option<ToolState>) { state.Some? && state.value.status == "error" }
  predicate IsEditTool(tool: string) { tool == "edit" || tool == "write" || tool == "patch" }

  const EDIT_TOOLS: set<string> := {"edit", "write", "patch"}

  /** The file a read call names, if it names one. */
  function ReadPath(p: Part): Option<string> {
    if p.tool == "read" && p.state.Some? && p.state.value.filePath != "" then Some(p.state.value.filePath) else None
  }

  predicate IsRead(e: Event) { IsTool(e) && ReadPath(e.part.value).Some? }

  /** The command a shell call runs, if it runs one. */
  function ShellCommand(p: Part): Option<string> {
    if (p.tool == "bash" || p.tool == "shell") && p.state.Some? && p.state.value.command != "" then Some(p.state.value.command)
    else None
  }

  function Count(events: seq<Event>, counted: Event -> bool): nat {
    if events == [] then 0
    else Count(events[..|events| - 1], counted) + (if counted(events[|events| - 1]) then 1 else 0)
  }

  function NamedCount(events: seq<Event>, tool: string): nat {
    if events == [] then 0
    else
      var e := events[|events| - 1];
      NamedCount(events[..|events| - 1], tool) + (if IsTool(e) && e.part.value.tool == tool then 1 else 0)
  }

  /** The first configured server whose name and an underscore start the tool's name. */
  function ServerOf(servers: seq<string>, tool: string): Option<string> {
    if servers == [] then None
    else if servers[0] + "_" <= tool then Some(servers[0])
    else ServerOf(servers[1..], tool)
  }

  function ServerCount(events: seq<Event>, servers: seq<string>, server: string): nat {
    if events == [] then 0
    else
      var e := events[|events| - 1];
      ServerCount(events[..|events| - 1], servers, server)
      + (if IsTool(e) && ServerOf(servers, e.part.value.tool) == Some(server) then 1 else 0)
  }

  function McpCount(events: seq<Event>, servers: seq<string>): nat {
    if events == [] then 0
    else
      var e := events[|events| - 1];
      McpCount(events[..|events| - 1], servers) + (if IsTool(e) && ServerOf(servers, e.part.value.tool).Some? then 1 else 0)
  }

  function VerificationCount(events: seq<Event>, verifies: string -> bool): nat {
    if events == [] then 0
    else
      var e := events[|events| - 1];
      VerificationCount(events[..|events| - 1], verifies)
      + (if IsTool(e) && ShellCommand(e.part.value).Some? && verifies(ShellCommand(e.part.value).value) then 1 else 0)
  }

  function PathsRead(events: seq<Event>): set<string> {
    if events == [] then {}
    else
      var e := events[|events| - 1];
      PathsRead(events[..|events| - 1]) + (if IsRead(e) then {ReadPath(e.part.value).value} else {})
  }

  /** Tokens a step_finish adds to the metrics: none when it carries no total. */
  function MeteredTokens(p: Part): Tokens {
    if p.tokens.None? || p.tokens.value.total == 0 then NO_TOKENS else p.tokens.value
  }

  function TokenSum(events: seq<Event>): Tokens {
    if events == [] then NO_TOKENS
    else
      var e := events[|events| - 1];
      var sum := TokenSum(events[..|events| - 1]);
      if IsStepFinish(e) then AddTokens(sum, MeteredTokens(e.part.value)) else sum
  }

  function CostSum(events: seq<Event>): real {
    if events == [] then 0.0
    else
      var e := events[|events| - 1];
      CostSum(events[..|events| - 1]) + (if IsStepFinish(e) && e.part.value.cost.Some? then e.part.value.cost.value else 0.0)
  }

  function TextsOf(events: seq<Event>): seq<string> {
    if events == [] then []
    else
      var e := events[|events| - 1];
      TextsOf(events[..|events| - 1]) + (if IsText(e) then [e.part.value.text] else [])
  }

  /** When the first edit happened: the first non-zero timestamp of an editing call. */
  function FirstEdit(events: seq<Event>): int {
    if events == [] then 0
    else
      var e := events[|events| - 1];
      var earlier := FirstEdit(events[..|events| - 1]);
      if earlier == 0 && IsTool(e) && IsEditTool(e.part.value.tool) then e.timestamp else earlier
  }

  function CallsBeforeEdit(events: seq<Event>): nat {
    if events == [] then 0
    else
      var e := events[|events| - 1];
      var init := events[..|events| - 1];
      CallsBeforeEdit(init) + (if FirstEdit(init) == 0 && IsTool(e) && !IsEditTool(e.part.value.tool) then 1 else 0)
  }

  // ---------------------------------------------------------------- sums over a counter map

  ghost function SumOf(m: map<string, int>): int
    decreases |m|
  {
    if m == map[] then 0
    else
      var k :| k in m;
      m[k] + SumOf(m - {k})
  }

  lemma {:induction false} SumWithout(m: map<string, int>, k: string)
    requires k in m
    ensures SumOf(m) == m[k] + SumOf(m - {k})
    decreases |m|
  {
    var j :| j in m && SumOf(m) == m[j] + SumOf(m - {j});
    if j != k {
      SumWithout(m - {j}, k);
      SumWithout(m - {k}, j);
      assert m - {j} - {k} == m - {k} - {j};
    }
  }

  /** Raising one counter raises the sum by as much. */
  lemma SumAfter(m: map<string, int>, k: string, v: int)
    ensures SumOf(m[k := v]) == SumOf(m) + v - (if k in m then m[k] else 0)
  {
    var after := m[k := v];
    SumWithout(after, k);
    if k in m {
      SumWithout(m, k);
      assert after - {k} == m - {k};
    } else {
      assert after - {k} == m;
    }
  }

  // ---------------------------------------------------------------- one more event

  lemma CountStep(events: seq<Event>, e: Event, counted: Event -> bool)
    ensures Count(events + [e], counted) == Count(events, counted) + (if counted(e) then 1 else 0)
  {
    assert (events + [e])[..|events|] == events;
  }

  lemma CountsStep(events: seq<Event>, e: Event)
    ensures Count(events + [e], IsStepStart) == Count(events, IsStepStart) + (if IsStepStart(e) then 1 else 0)
    ensures Count(events + [e], IsTool) == Count(events, IsTool) + (if IsTool(e) then 1 else 0)
    ensures Count(events + [e], IsFailedTool) == Count(events, IsFailedTool) + (if IsFailedTool(e) then 1 else 0)
    ensures Count(events + [e], IsTask) == Count(events, IsTask) + (if IsTask(e) then 1 else 0)
    ensures Count(events + [e], IsSkill) == Count(events, IsSkill) + (if IsSkill(e) then 1 else 0)
    ensures Count(events + [e], IsRetry) == Count(events, IsRetry) + (if IsRetry(e) then 1 else 0)
    ensures Count(events + [e], IsCompaction) == Count(events, IsCompaction) + (if IsCompaction(e) then 1 else 0)
    ensures Count(events + [e], Undecodable) == Count(events, Undecodable) + (if Undecodable(e) then 1 else 0)
  {
    CountStep(events, e, IsStepStart);
    CountStep(events, e, IsTool);
    CountStep(events, e, IsFailedTool);
    CountStep(events, e, IsTask);
    CountStep(events, e, IsSkill);
    CountStep(events, e, IsRetry);
    CountStep(events, e, IsCompaction);
    CountStep(events, e, Undecodable);
  }

  lemma SumsStep(events: seq<Event>, e: Event)
    ensures TokenSum(events + [e]) ==
            if IsStepFinish(e) then AddTokens(TokenSum(events), MeteredTokens(e.part.value)) else TokenSum(events)
    ensures CostSum(events + [e]) ==
            CostSum(events) + (if IsStepFinish(e) && e.part.value.cost.Some? then e.part.value.cost.value else 0.0)
    ensures TextsOf(events + [e]) == TextsOf(events) + (if IsText(e) then [e.part.value.text] else [])
    ensures FirstEdit(events + [e]) ==
            if FirstEdit(events) == 0 && IsTool(e) && IsEditTool(e.part.value.tool) then e.timestamp else FirstEdit(events)
    ensures CallsBeforeEdit(events + [e]) == CallsBeforeEdit(events) +
            (if FirstEdit(events) == 0 && IsTool(e) && !IsEditTool(e.part.value.tool) then 1 else 0)
  {
    assert (events + [e])[..|events|] == events;
  }

  lemma KeyedStep(events: seq<Event>, e: Event, servers: seq<string>)
    ensures forall t :: NamedCount(events + [e], t) ==
              NamedCount(events, t) + (if IsTool(e) && e.part.value.tool == t then 1 else 0)
    ensures forall s :: ServerCount(events + [e], servers, s) ==
              ServerCount(events, servers, s) + (if IsTool(e) && ServerOf(servers, e.part.value.tool) == Some(s) then 1 else 0)
    ensures McpCount(events + [e], servers) ==
            McpCount(events, servers) + (if IsTool(e) && ServerOf(servers, e.part.value.tool).Some? then 1 else 0)
  {
    assert (events + [e])[..|events|] == events;
  }

  lemma ReadsStep(events: seq<Event>, e: Event, verifies: string -> bool)
    ensures PathsRead(events + [e]) == PathsRead(events) + (if IsRead(e) then {ReadPath(e.part.value).value} else {})
    ensures Count(events + [e], IsRead) == Count(events, IsRead) + (if IsRead(e) then 1 else 0)
    ensures VerificationCount(events + [e], verifies) == VerificationCount(events, verifies) +
            (if IsTool(e) && ShellCommand(e.part.value).Some? && verifies(ShellCommand(e.part.value).value) then 1 else 0)
  {
    assert (events + [e])[..|events|] == events;
    CountStep(events, e, IsRead);
  }

  lemma {:induction false} ServerIsConfigured(servers: seq<string>, tool: string)
    ensures ServerOf(servers, tool).Some? ==> ServerOf(servers, tool).value in servers
  {
    if servers != [] && !(servers[0] + "_" <= tool) {
      ServerIsConfigured(servers[1..], tool);
    }
  }

  // ---------------------------------------------------------------- the counters as values

  datatype Counters = Counters(steps: int, toolCalls: int, toolCallsFailed: int, subagentCalls: int, skillLoads: int,
                               retries: int, compactions: int, parseErrors: int)
  datatype Keyed = Keyed(toolCalls: int, mcpCalls: int, byName: map<string, int>, byServer: map<string, int>)
  datatype Reads = Reads(seen: set<string>, redundant: int, verifications: int)
  datatype Totals = Totals(tokens: Tokens, cost: real, texts: seq<string>, finalAnswer: string, firstEditMS: int,
                           callsBeforeEdit: int)

  function One(b: bool): int {
    if b then 1 else 0
  }

  function Raise(m: map<string, int>, k: string): map<string, int> {
    m[k := 1 + if k in m then m[k] else 0]
  }

  function ToolCounted(c: Counters, p: Part): Counters {
    c.(toolCalls := c.toolCalls + 1, toolCallsFailed := c.toolCallsFailed + One(HasFailed(p.state)),
       subagentCalls := c.subagentCalls + One(IsTaskTool(p.tool)), skillLoads := c.skillLoads + One(IsSkillTool(p.tool)))
  }

  /** The plain counters after the envelope of one more event, and after its part's own kind. */
  function EnvelopeCounted(c: Counters, e: Event): Counters {
    if IsStepStart(e) then c.(steps := c.steps + 1) else if IsTool(e) then ToolCounted(c, e.part.value) else c
  }

  function CountersAfter(c: Counters, e: Event): Counters {
    if e.part.None? then c.(parseErrors := c.parseErrors + 1)
    else
      Interrupted(EnvelopeCounted(c, e), e.part.value.kind)
  }

  function Interrupted(c: Counters, kind: PartKind): Counters {
    c.(retries := c.retries + One(kind == Retry), compactions := c.compactions + One(kind == Compaction))
  }

  /** The per-tool and per-server counters after one more tool call, and after one more event. */
  function ToolKeyed(k: Keyed, p: Part, servers: seq<string>): Keyed {
    var server := ServerOf(servers, p.tool);
    Keyed(k.toolCalls + 1, k.mcpCalls + One(server.Some?), Raise(k.byName, p.tool),
          if server.Some? then Raise(k.byServer, server.value) else k.byServer)
  }

  function KeyedAfter(k: Keyed, e: Event, servers: seq<string>): Keyed {
    if IsTool(e) then ToolKeyed(k, e.part.value, servers) else k
  }

  function ToolReads(r: Reads, p: Part, verifies: string -> bool): Reads {
    var path, command := ReadPath(p), ShellCommand(p);
    Reads(r.seen + (if path.Some? then {path.value} else {}),
          r.redundant + One(path.Some? && path.value in r.seen),
          r.verifications + One(command.Some? && verifies(command.value)))
  }

  function ReadsAfter(r: Reads, e: Event, verifies: string -> bool): Reads {
    if IsTool(e) then ToolReads(r, e.part.value, verifies) else r
  }

  function ToolTotals(t: Totals, p: Part, timestamp: int): Totals {
    t.(firstEditMS := if t.firstEditMS == 0 && IsEditTool(p.tool) then timestamp else t.firstEditMS,
       callsBeforeEdit := t.callsBeforeEdit + One(t.firstEditMS == 0 && !IsEditTool(p.tool)))
  }

  function FinishTotals(t: Totals, p: Part): Totals {
    t.(tokens := AddTokens(t.tokens, MeteredTokens(p)), cost := t.cost + (if p.cost.Some? then p.cost.value else 0.0))
  }

  function TotalsAfter(t: Totals, e: Event): Totals {
    if IsTool(e) then ToolTotals(t, e.part.value, e.timestamp)
    else if IsStepFinish(e) then FinishTotals(t, e.part.value)
    else if IsText(e) then t.(texts := t.texts + [e.part.value.text], finalAnswer := e.part.value.text)
    else t
  }

  /** The plain counters are those of the events. */
  ghost predicate Counted(c: Counters, events: seq<Event>) {
    && c.steps == Count(events, IsStepStart) && c.toolCalls == Count(events, IsTool)
    && c.toolCallsFailed == Count(events, IsFailedTool) && c.subagentCalls == Count(events, IsTask)
    && c.skillLoads == Count(events, IsSkill) && c.retries == Count(events, IsRetry)
    && c.compactions == Count(events, IsCompaction) && c.parseErrors == Count(events, Undecodable)
  }

  /** The per-tool and per-server counters are those of the events, and sum to the plain ones. */
  ghost predicate CountedByKey(k: Keyed, events: seq<Event>, servers: seq<string>) {
    && (forall t :: t in k.byName ==> k.byName[t] == NamedCount(events, t))
    && (forall t :: t !in k.byName ==> NamedCount(events, t) == 0)
    && (forall s :: s in servers ==> s in k.byServer)
    && (forall s :: s in k.byServer ==> k.byServer[s] == ServerCount(events, servers, s))
    && k.mcpCalls == McpCount(events, servers)
    && SumOf(k.byName) == k.toolCalls && SumOf(k.byServer) == k.mcpCalls
  }

  /** Files read: the first read of each is not redundant, every later one is. */
  ghost predicate CountedReads(r: Reads, events: seq<Event>, verifies: string -> bool) {
    && r.seen == PathsRead(events)
    && r.redundant + |r.seen| == Count(events, IsRead)
    && r.verifications == VerificationCount(events, verifies)
  }

  ghost predicate Totalled(t: Totals, events: seq<Event>) {
    && t.tokens == TokenSum(events) && t.cost == CostSum(events)
    && t.texts == TextsOf(events) && t.finalAnswer == (if t.texts == [] then "" else t.texts[|t.texts| - 1])
    && t.firstEditMS == FirstEdit(events) && t.callsBeforeEdit == CallsBeforeEdit(events)
  }

  lemma CountedAfter(c: Counters, events: seq<Event>, e: Event)
    requires Counted(c, events)
    ensures Counted(CountersAfter(c, e), events + [e])
  {
    hide Count;
    CountsStep(events, e);
  }

  /** Whatever the event, the counters by tool keep summing to the tool calls, and those by server to the
      MCP calls. */
  lemma CountedByKeyAfter(k: Keyed, events: seq<Event>, e: Event, servers: seq<string>)
    requires CountedByKey(k, events, servers)
    ensures CountedByKey(KeyedAfter(k, e, servers), events + [e], servers)
  {
    hide NamedCount, ServerCount, McpCount, SumOf, ServerOf;
    KeyedStep(events, e, servers);
    if IsTool(e) {
      var tool := e.part.value.tool;
      SumAfter(k.byName, tool, 1 + if tool in k.byName then k.byName[tool] else 0);
      ServerIsConfigured(servers, tool);
      if ServerOf(servers, tool).Some? {
        var s := ServerOf(servers, tool).value;
        SumAfter(k.byServer, s, 1 + k.byServer[s]);
      }
    }
  }

  /** Redundant reads and distinct files together stay the number of reads that name a file. */
  lemma CountedReadsAfter(r: Reads, events: seq<Event>, e: Event, verifies: string -> bool)
    requires CountedReads(r, events, verifies)
    ensures CountedReads(ReadsAfter(r, e, verifies), events + [e], verifies)
  {
    hide Count, PathsRead, VerificationCount, ReadPath, ShellCommand;
    ReadsStep(events, e, verifies);
    assert r.seen + {} == r.seen;
    if IsRead(e) {
      var path := ReadPath(e.part.value).value;
      assert |r.seen + {path}| == |r.seen| + One(path !in r.seen) by {
        if path in r.seen {
          assert r.seen + {path} == r.seen;
        }
      }
    }
  }

  lemma TotalledAfter(t: Totals, events: seq<Event>, e: Event)
    requires Totalled(t, events)
    ensures Totalled(TotalsAfter(t, e), events + [e])
  {
    hide TokenSum, CostSum, TextsOf, FirstEdit, CallsBeforeEdit, AddTokens, MeteredTokens, IsEditTool;
    SumsStep(events, e);
    assert TextsOf(events) + [] == TextsOf(events);
  }

  // ---------------------------------------------------------------- the metrics

  class Metrics {
    var steps: int
    var toolCalls: int
    var toolCallsFailed: int
    var subagentCalls: int
    var skillLoads: int
    var mcpCalls: int
    var retries: int
    var compactions: int
    var parseErrors: int
    var toolCallsByName: map<string, int>
    var mcpCallsByServer: map<string, int>
    var tokens: Tokens
    var cost: real
    var texts: seq<string>
    var finalAnswer: string
    var firstEditMS: int
    var toolCallsBeforeFirstEdit: int
    var redundantReads: int
    var verificationCommands: int
    var mcpServers: seq<string>
    var readsSeen: set<string>
    var lastTimestamp: int

    function CounterValues(): Counters
      reads `steps, `toolCalls, `toolCallsFailed, `subagentCalls, `skillLoads, `retries, `compactions, `parseErrors
    {
      Counters(steps, toolCalls, toolCallsFailed, subagentCalls, skillLoads, retries, compactions, parseErrors)
    }

    function KeyedValues(): Keyed
      reads `toolCalls, `mcpCalls, `toolCallsByName, `mcpCallsByServer
    {
      Keyed(toolCalls, mcpCalls, toolCallsByName, mcpCallsByServer)
    }

    function ReadValues(): Reads
      reads `readsSeen, `redundantReads, `verificationCommands
    {
      Reads(readsSeen, redundantReads, verificationCommands)
    }

    function TotalValues(): Totals
      reads `tokens, `cost, `texts, `finalAnswer, `firstEditMS, `toolCallsBeforeFirstEdit
    {
      Totals(tokens, cost, texts, finalAnswer, firstEditMS, toolCallsBeforeFirstEdit)
    }

    /** The metrics are those of the events observed so far. */
    ghost predicate Represents(events: seq<Event>, verifies: string -> bool)
      reads this
    {
      && Counted(CounterValues(), events) && CountedByKey(KeyedValues(), events, mcpServers)
      && CountedReads(ReadValues(), events, verifies) && Totalled(TotalValues(), events)
    }

    /** `NewMetrics`. */
    constructor (servers: seq<string>)
      ensures forall verifies :: Represents([], verifies)
      ensures mcpServers == servers
    {
      steps, toolCalls, toolCallsFailed, subagentCalls, skillLoads, mcpCalls := 0, 0, 0, 0, 0, 0;
      retries, compactions, parseErrors := 0, 0, 0;
      toolCallsByName, mcpCallsByServer := map[], map[];
      tokens, cost, texts, finalAnswer := NO_TOKENS, 0.0, [], "";
      firstEditMS, toolCallsBeforeFirstEdit, redundantReads, verificationCommands := 0, 0, 0, 0;
      mcpServers, readsSeen, lastTimestamp := servers, {}, 0;
      new;
      for i := 0 to |servers|
        invariant forall k :: 0 <= k < i ==> servers[k] in mcpCallsByServer
        invariant forall s :: s in mcpCallsByServer ==> mcpCallsByServer[s] == 0
        invariant SumOf(mcpCallsByServer) == 0
        modifies `mcpCallsByServer
      {
        SumAfter(mcpCallsByServer, servers[i], 0);
        mcpCallsByServer := mcpCallsByServer[servers[i] := 0];
      }
    }

    /** `observeTool`, field by field. */
    method ObserveCall(p: Part, verifies: string -> bool)
      modifies `toolCalls, `toolCallsByName, `firstEditMS, `toolCallsBeforeFirstEdit, `readsSeen, `redundantReads
      modifies `verificationCommands, `toolCallsFailed, `subagentCalls, `skillLoads, `mcpCalls, `mcpCallsByServer
      ensures toolCalls == old(toolCalls) + 1 && toolCallsByName == Raise(old(toolCallsByName), p.tool)
      ensures firstEditMS == if old(firstEditMS) == 0 && IsEditTool(p.tool) then lastTimestamp else old(firstEditMS)
      ensures toolCallsBeforeFirstEdit == old(toolCallsBeforeFirstEdit) + One(old(firstEditMS) == 0 && !IsEditTool(p.tool))
      ensures readsSeen == old(readsSeen) + (if ReadPath(p).Some? then {ReadPath(p).value} else {})
      ensures redundantReads == old(redundantReads) + One(ReadPath(p).Some? && ReadPath(p).value in old(readsSeen))
      ensures verificationCommands == old(verificationCommands) + One(ShellCommand(p).Some? && verifies(ShellCommand(p).value))
      ensures toolCallsFailed == old(toolCallsFailed) + One(HasFailed(p.state))
      ensures subagentCalls == old(subagentCalls) + One(IsTaskTool(p.tool)) && skillLoads == old(skillLoads) + One(IsSkillTool(p.tool))
      ensures mcpCalls == old(mcpCalls) + One(ServerOf(mcpServers, p.tool).Some?)
      ensures mcpCallsByServer == if ServerOf(mcpServers, p.tool).None? then old(mcpCallsByServer)
                                  else Raise(old(mcpCallsByServer), ServerOf(mcpServers, p.tool).value)
    {
      hide ReadPath, ShellCommand, ServerOf, Raise, IsEditTool, IsTaskTool, IsSkillTool, HasFailed, One;
      CountCall(p.tool);
      TimeFirstEdit(p.tool);
      ObserveState(p, verifies);
      CountDelegation(p.tool);
      CountServer(p.tool);
    }

    /** `observeTool`. */
    method ObserveTool(p: Part, verifies: string -> bool)
      modifies `toolCalls, `toolCallsByName, `firstEditMS, `toolCallsBeforeFirstEdit, `readsSeen, `redundantReads
      modifies `verificationCommands, `toolCallsFailed, `subagentCalls, `skillLoads, `mcpCalls, `mcpCallsByServer
      ensures CounterValues() == ToolCounted(old(CounterValues()), p)
      ensures KeyedValues() == ToolKeyed(old(KeyedValues()), p, mcpServers)
      ensures ReadValues() == ToolReads(old(ReadValues()), p, verifies)
      ensures TotalValues() == ToolTotals(old(TotalValues()), p, lastTimestamp)
    {
      hide ReadPath, ShellCommand, ServerOf, Raise, IsEditTool, IsTaskTool, IsSkillTool, HasFailed, One;
      ObserveCall(p, verifies);
    }

    /** The parts of `observeTool`, in its order: the calls by tool, the first edit, the tool's state, tasks and skills, and the
        loop over the configured servers. */
    method CountCall(tool: string)
      modifies `toolCalls, `toolCallsByName
      ensures toolCalls == old(toolCalls) + 1 && toolCallsByName == Raise(old(toolCallsByName), tool)
    {
      toolCalls := toolCalls + 1;
      toolCallsByName := toolCallsByName[tool := (if tool in toolCallsByName then toolCallsByName[tool] else 0) + 1];
    }

    method TimeFirstEdit(tool: string)
      modifies `firstEditMS, `toolCallsBeforeFirstEdit
      ensures firstEditMS == if old(firstEditMS) == 0 && IsEditTool(tool) then lastTimestamp else old(firstEditMS)
      ensures toolCallsBeforeFirstEdit == old(toolCallsBeforeFirstEdit) + One(old(firstEditMS) == 0 && !IsEditTool(tool))
    {
      if firstEditMS == 0 {
        if tool in EDIT_TOOLS {
          firstEditMS := lastTimestamp;
        } else {
          toolCallsBeforeFirstEdit := toolCallsBeforeFirstEdit + 1;
        }
      }
    }

    method CountDelegation(tool: string)
      modifies `subagentCalls, `skillLoads
      ensures subagentCalls == old(subagentCalls) + One(IsTaskTool(tool)) && skillLoads == old(skillLoads) + One(IsSkillTool(tool))
    {
      if tool == "task" {
        subagentCalls := subagentCalls + 1;
      } else if tool == "skill" {
        skillLoads := skillLoads + 1;
      }
    }

    method ObserveState(p: Part, verifies: string -> bool)
      modifies `readsSeen, `redundantReads, `verificationCommands, `toolCallsFailed
      ensures readsSeen == old(readsSeen) + (if ReadPath(p).Some? then {ReadPath(p).value} else {})
      ensures redundantReads == old(redundantReads) + One(ReadPath(p).Some? && ReadPath(p).value in old(readsSeen))
      ensures verificationCommands == old(verificationCommands) + One(ShellCommand(p).Some? && verifies(ShellCommand(p).value))
      ensures toolCallsFailed == old(toolCallsFailed) + One(HasFailed(p.state))
    {
      if p.tool == "read" {
        if p.state.Some? && p.state.value.filePath != "" {
          if p.state.value.filePath in readsSeen {
            redundantReads := redundantReads + 1;
          }
          readsSeen := readsSeen + {p.state.value.filePath};
        }
      }
      if p.tool == "bash" || p.tool == "shell" {
        if p.state.Some? && p.state.value.command != "" && verifies(p.state.value.command) {
          verificationCommands := verificationCommands + 1;
        }
      }
      if p.state.Some? && p.state.value.status == "error" {
        toolCallsFailed := toolCallsFailed + 1;
      }
    }

    method CountServer(tool: string)
      modifies `mcpCalls, `mcpCallsByServer
      ensures mcpCalls == old(mcpCalls) + One(ServerOf(mcpServers, tool).Some?)
      ensures mcpCallsByServer == if ServerOf(mcpServers, tool).None? then old(mcpCallsByServer)
                                  else Raise(old(mcpCallsByServer), ServerOf(mcpServers, tool).value)
    {
      for i := 0 to |mcpServers|
        invariant ServerOf(mcpServers[i..], tool) == ServerOf(mcpServers, tool)
        invariant mcpCalls == old(mcpCalls) && mcpCallsByServer == old(mcpCallsByServer)
      {
        var server := mcpServers[i];
        assert mcpServers[i..][1..] == mcpServers[i + 1..];
        if server + "_" <= tool {
          mcpCalls := mcpCalls + 1;
          mcpCallsByServer := mcpCallsByServer[server := (if server in mcpCallsByServer then mcpCallsByServer[server] else 0) + 1];
          return;
        }
      }
    }

    /** `observeStepFinish`. */
    method ObserveStepFinish(p: Part)
      modifies `tokens, `cost
      ensures TotalValues() == FinishTotals(old(TotalValues()), p)
    {
      if p.cost.Some? {
        cost := cost + p.cost.value;
      }
      if p.tokens.None? || p.tokens.value.total == 0 {
        return;
      }
      var t := p.tokens.value;
      tokens := Tokens(tokens.input + t.input, tokens.output + t.output, tokens.reasoning + t.reasoning,
                       tokens.cacheRead + t.cacheRead, tokens.cacheWrite + t.cacheWrite, tokens.total + t.total);
    }

    /** The switch on the envelope. */
    method ObserveEnvelope(e: Event, verifies: string -> bool)
      requires e.part.Some? && lastTimestamp == e.timestamp
      modifies `steps, `toolCalls, `toolCallsByName, `firstEditMS, `toolCallsBeforeFirstEdit, `readsSeen, `redundantReads
      modifies `verificationCommands, `toolCallsFailed, `subagentCalls, `skillLoads, `mcpCalls, `mcpCallsByServer
      modifies `tokens, `cost, `texts, `finalAnswer
      ensures CounterValues() == EnvelopeCounted(old(CounterValues()), e)
      ensures KeyedValues() == KeyedAfter(old(KeyedValues()), e, mcpServers)
      ensures ReadValues() == ReadsAfter(old(ReadValues()), e, verifies)
      ensures TotalValues() == TotalsAfter(old(TotalValues()), e)
    {
      hide ToolCounted, ToolKeyed, ToolReads, ToolTotals, FinishTotals;
      var p := e.part.value;
      match e.kind {
      case StepStart =>
        steps := steps + 1;
      case ToolUse =>
        ObserveTool(p, verifies);
      case StepFinish =>
        ObserveStepFinish(p);
      case Text =>
        texts := texts + [p.text];
        finalAnswer := p.text;
      case OtherEvent(_) =>
      }
    }

    /** The switch on the part's own kind. */
    method CountInterruption(kind: PartKind)
      modifies `retries, `compactions
      ensures CounterValues() == Interrupted(old(CounterValues()), kind)
    {
      if kind == Retry {
        retries := retries + 1;
      } else if kind == Compaction {
        compactions := compactions + 1;
      }
    }

    /** One part that does not decode, or one line that is no event. */
    method CountParseError()
      modifies `parseErrors
      ensures CounterValues() == old(CounterValues()).(parseErrors := old(CounterValues()).parseErrors + 1)
    {
      parseErrors := parseErrors + 1;
    }

    /** `Observe`. */
    method Observe(e: Event, verifies: string -> bool, ghost events: seq<Event>)
      requires Represents(events, verifies)
      modifies this
      ensures Represents(events + [e], verifies) && mcpServers == old(mcpServers)
    {
      hide Counted, CountedByKey, CountedReads, Totalled, EnvelopeCounted, Interrupted, KeyedAfter, ReadsAfter, TotalsAfter;
      hide Metrics.CounterValues, Metrics.KeyedValues, Metrics.ReadValues, Metrics.TotalValues, One;
      CountedAfter(CounterValues(), events, e);
      CountedByKeyAfter(KeyedValues(), events, e, mcpServers);
      CountedReadsAfter(ReadValues(), events, e, verifies);
      TotalledAfter(TotalValues(), events, e);
      lastTimestamp := e.timestamp;
      if e.part.None? {
        NothingElse(KeyedValues(), ReadValues(), TotalValues(), e, mcpServers, verifies);
        CountParseError();
        return;
      }
      ObserveEnvelope(e, verifies);
      CountInterruption(e.part.value.kind);
    }

    /** `ObserveLine`: a line that is no event counts like an event whose part does not decode. */
    method ObserveLine(line: Option<Event>, verifies: string -> bool, ghost events: seq<Event>)
      requires Represents(events, verifies)
      modifies this
      ensures Represents(events + [if line.Some? then line.value else MALFORMED], verifies) && mcpServers == old(mcpServers)
    {
      hide Counted, CountedByKey, CountedReads, Totalled, EnvelopeCounted, KeyedAfter, ReadsAfter, TotalsAfter;
      if line.None? {
        CountedAfter(CounterValues(), events, MALFORMED);
        CountedByKeyAfter(KeyedValues(), events, MALFORMED, mcpServers);
        CountedReadsAfter(ReadValues(), events, MALFORMED, verifies);
        TotalledAfter(TotalValues(), events, MALFORMED);
        NothingElse(KeyedValues(), ReadValues(), TotalValues(), MALFORMED, mcpServers, verifies);
        CountParseError();
        return;
      }
      Observe(line.value, verifies, events);
    }
  }

  /** Fresh metrics fed a whole stream. */
  method MetricsOf(events: seq<Event>, servers: seq<string>, verifies: string -> bool) returns (m: Metrics)
    ensures fresh(m) && m.Represents(events, verifies) && m.mcpServers == servers
  {
    hide Counted, CountedByKey, CountedReads, Totalled;
    m := new Metrics(servers);
    for i := 0 to |events|
      invariant m.Represents(events[..i], verifies) && m.mcpServers == servers
    {
      m.Observe(events[i], verifies, events[..i]);
      assert events[..i + 1] == events[..i] + [events[i]];
    }
    assert events[..|events|] == events;
  }

  lemma NothingElse(k: Keyed, r: Reads, t: Totals, e: Event, servers: seq<string>, verifies: string -> bool)
    requires e.part.None?
    ensures KeyedAfter(k, e, servers) == k && ReadsAfter(r, e, verifies) == r && TotalsAfter(t, e) == t
  {
  }
}
