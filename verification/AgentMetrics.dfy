/** Per-agent usage: rolled up over all messages of the captured sessions, merged by metric-safe name
    and written as `agent.<name>.<metric>` entries. */
module AgentMetrics {
  import opened Options
  import opened Sorting

  datatype Tokens = Tokens(input: int, output: int, reasoning: int, cacheRead: int, cacheWrite: int, total: int)
  datatype Message = Message(agent: string, cost: real, tokens: Tokens, tools: seq<string>)
  datatype Session = Session(messages: seq<Message>, tokensTotal: int, cost: real)
  datatype Usage = Usage(messages: int, cost: real, tokens: Tokens, toolCalls: int, failed: int)
  datatype AgentRollup = AgentRollup(agent: string, usage: Usage)

  const NOTHING := Usage(0, 0.0, Tokens(0, 0, 0, 0, 0, 0), 0, 0)

  function AddTokens(a: Tokens, b: Tokens): Tokens {
    Tokens(a.input + b.input, a.output + b.output, a.reasoning + b.reasoning, a.cacheRead + b.cacheRead,
           a.cacheWrite + b.cacheWrite, a.total + b.total)
  }

  function Add(a: Usage, b: Usage): Usage {
    Usage(a.messages + b.messages, a.cost + b.cost, AddTokens(a.tokens, b.tokens), a.toolCalls + b.toolCalls,
          a.failed + b.failed)
  }

  function Failures(tools: seq<string>): nat {
    if tools == [] then 0 else Failures(tools[..|tools| - 1]) + (if tools[|tools| - 1] == "error" then 1 else 0)
  }

  function UsageOf(m: Message): Usage {
    Usage(1, m.cost, m.tokens, |m.tools|, Failures(m.tools))
  }

  /** Every message of every session that could be parsed, in order. */
  function AllMessages(sessions: seq<Option<Session>>): seq<Message> {
    if sessions == [] then []
    else
      var n := |sessions| - 1;
      AllMessages(sessions[..n]) + (if sessions[n].Some? then sessions[n].value.messages else [])
  }

  function Agents(msgs: seq<Message>): set<string> {
    set i | 0 <= i < |msgs| :: msgs[i].agent
  }

  /** Usage summed over the messages of a set of agents. */
  function Total(msgs: seq<Message>, agents: set<string>): Usage {
    if msgs == [] then NOTHING
    else
      var n := |msgs| - 1;
      if msgs[n].agent in agents then Add(Total(msgs[..n], agents), UsageOf(msgs[n])) else Total(msgs[..n], agents)
  }

  lemma {:induction false} TotalOfNobody(msgs: seq<Message>, agents: set<string>)
    requires agents !! Agents(msgs)
    ensures Total(msgs, agents) == NOTHING
  {
    if msgs != [] {
      var n := |msgs| - 1;
      assert msgs[n].agent in Agents(msgs);
      forall a | a in Agents(msgs[..n]) ensures a in Agents(msgs) {
        var i :| 0 <= i < n && msgs[..n][i].agent == a;
        assert msgs[i].agent == a;
      }
      TotalOfNobody(msgs[..n], agents);
    }
  }

  lemma AddRegroups(x: Usage, y: Usage, m: Usage)
    ensures Add(Add(x, m), y) == Add(Add(x, y), m)
    ensures Add(x, Add(y, m)) == Add(Add(x, y), m)
    ensures Add(NOTHING, NOTHING) == NOTHING
  {
  }

  lemma {:induction false} TotalOfDisjoint(msgs: seq<Message>, a: set<string>, b: set<string>)
    requires a !! b
    ensures Total(msgs, a + b) == Add(Total(msgs, a), Total(msgs, b))
  {
    hide Add, UsageOf;
    if msgs != [] {
      var init, m := msgs[..|msgs| - 1], msgs[|msgs| - 1];
      TotalOfDisjoint(init, a, b);
      AddRegroups(Total(init, a), Total(init, b), UsageOf(m));
    } else {
      AddRegroups(NOTHING, NOTHING, NOTHING);
    }
  }

  // ---------------------------------------------------------------- roll-up per raw agent

  /** The map holds exactly the agents seen so far, each with its usage so far. */
  ghost predicate Tallies(byAgent: map<string, Usage>, msgs: seq<Message>) {
    && byAgent.Keys == Agents(msgs)
    && forall a :: a in byAgent ==> byAgent[a] == Total(msgs, {a})
  }

  lemma AgentsStep(msgs: seq<Message>, m: Message)
    ensures Agents(msgs + [m]) == Agents(msgs) + {m.agent}
  {
    var longer := msgs + [m];
    forall a | a in Agents(msgs) ensures a in Agents(longer) {
      var i :| 0 <= i < |msgs| && msgs[i].agent == a;
      assert longer[i].agent == a;
    }
    assert longer[|msgs|].agent == m.agent;
  }

  lemma TalliesStep(byAgent: map<string, Usage>, msgs: seq<Message>, m: Message)
    requires Tallies(byAgent, msgs)
    ensures var prev := if m.agent in byAgent then byAgent[m.agent] else NOTHING;
            Tallies(byAgent[m.agent := Add(prev, UsageOf(m))], msgs + [m])
  {
    AgentsStep(msgs, m);
    assert (msgs + [m])[..|msgs|] == msgs;
    if m.agent !in byAgent {
      TotalOfNobody(msgs, {m.agent});
    }
  }

  /** One message added to a tally, its tool calls counted one at a time. */
  method AddMessage(r: Usage, m: Message) returns (sum: Usage)
    ensures sum == Add(r, UsageOf(m))
  {
    var t, u := r.tokens, m.tokens;
    sum := r.(messages := r.messages + 1, cost := r.cost + m.cost,
              tokens := Tokens(t.input + u.input, t.output + u.output, t.reasoning + u.reasoning,
                               t.cacheRead + u.cacheRead, t.cacheWrite + u.cacheWrite, t.total + u.total));
    for i := 0 to |m.tools|
      invariant sum == Usage(r.messages + 1, r.cost + m.cost, AddTokens(r.tokens, m.tokens),
                             r.toolCalls + i, r.failed + Failures(m.tools[..i]))
    {
      assert m.tools[..i + 1][..i] == m.tools[..i];
      sum := sum.(toolCalls := sum.toolCalls + 1);
      if m.tools[i] == "error" {
        sum := sum.(failed := sum.failed + 1);
      }
    }
    assert m.tools[..|m.tools|] == m.tools;
  }

  /** The list is the map: each agent once, with its usage. */
  ghost predicate Lists(out: seq<AgentRollup>, byAgent: map<string, Usage>) {
    && NoRepeats(out)
    && (forall r :: r in out ==> r.agent in byAgent && byAgent[r.agent] == r.usage)
    && (forall a :: a in byAgent ==> AgentRollup(a, byAgent[a]) in out)
  }

  predicate ByName(a: AgentRollup, b: AgentRollup) {
    StrLe(a.agent, b.agent)
  }

  /** What a roll-up over some messages must be: one entry per agent that sent any, in name order, with
      the sum of that agent's messages. */
  ghost predicate RolledUp(out: seq<AgentRollup>, msgs: seq<Message>) {
    && (forall i, j :: 0 <= i < j < |out| ==> StrLe(out[i].agent, out[j].agent) && out[i].agent != out[j].agent)
    && (forall a :: a in Agents(msgs) <==> exists i :: 0 <= i < |out| && out[i].agent == a)
    && (forall i :: 0 <= i < |out| ==> out[i].usage == Total(msgs, {out[i].agent}))
  }

  lemma ByNameIsPreorder()
    ensures TotalPreorder(ByName)
  {
    StrLeIsOrder();
  }

  lemma SortedStillLists(out: seq<AgentRollup>, byAgent: map<string, Usage>)
    requires Lists(out, byAgent)
    ensures Lists(Sort(out, ByName), byAgent) && SortedBy(Sort(out, ByName), ByName)
  {
    hide ByName, Sort;
    var sorted := Sort(out, ByName);
    ByNameIsPreorder();
    SortKeeps(out, ByName);
    SortSorted(out, ByName);
    PermutationKeepsNoRepeats(out, sorted);
    forall r ensures r in sorted <==> r in out {
      assert r in multiset(sorted) <==> r in multiset(out);
    }
  }

  lemma SortedListIsRolledUp(out: seq<AgentRollup>, byAgent: map<string, Usage>, msgs: seq<Message>)
    requires Lists(out, byAgent) && SortedBy(out, ByName) && Tallies(byAgent, msgs)
    ensures RolledUp(out, msgs)
  {
    hide Total, Agents, StrLe;
    forall i | 0 <= i < |out| ensures out[i].agent in byAgent && out[i] == AgentRollup(out[i].agent, byAgent[out[i].agent]) {
      assert out[i] in out;
    }
    forall i, j | 0 <= i < j < |out| ensures StrLe(out[i].agent, out[j].agent) && out[i].agent != out[j].agent {
      assert ByName(out[i], out[j]);
    }
    forall a ensures a in Agents(msgs) <==> exists i :: 0 <= i < |out| && out[i].agent == a {
      if a in byAgent {
        assert AgentRollup(a, byAgent[a]) in out;
      }
    }
  }

  /** `Rollup`. */
  method Rollup(sessions: seq<Option<Session>>) returns (out: seq<AgentRollup>)
    ensures RolledUp(out, AllMessages(sessions))
  {
    hide Tallies, Add, UsageOf, Lists, RolledUp;
    var byAgent: map<string, Usage> := map[];
    ghost var msgs: seq<Message> := [];
    assert Tallies(byAgent, []) by {
      TalliesNothing();
    }
    for i := 0 to |sessions|
      invariant msgs == AllMessages(sessions[..i]) && Tallies(byAgent, msgs)
    {
      assert sessions[..i + 1][..i] == sessions[..i];
      if sessions[i].None? {
        assert msgs + [] == msgs;
        continue;
      }
      var ms := sessions[i].value.messages;
      for j := 0 to |ms|
        invariant Tallies(byAgent, msgs + ms[..j])
      {
        var prev := if ms[j].agent in byAgent then byAgent[ms[j].agent] else NOTHING;
        var sum := AddMessage(prev, ms[j]);
        TalliesStep(byAgent, msgs + ms[..j], ms[j]);
        assert msgs + ms[..j + 1] == (msgs + ms[..j]) + [ms[j]];
        byAgent := byAgent[ms[j].agent := sum];
      }
      assert ms[..|ms|] == ms;
      msgs := msgs + ms;
    }
    assert sessions[..|sessions|] == sessions;
    var list := ListOf(byAgent);
    out := Sort(list, ByName);
    SortedStillLists(list, byAgent);
    SortedListIsRolledUp(out, byAgent, msgs);
  }

  lemma TalliesNothing()
    ensures Tallies(map[], [])
  {
    assert Agents([]) == {};
  }

  /** The entries of a map, in no particular order. */
  method ListOf(byAgent: map<string, Usage>) returns (out: seq<AgentRollup>)
    ensures Lists(out, byAgent)
  {
    out := [];
    var todo := byAgent.Keys;
    while todo != {}
      invariant todo <= byAgent.Keys && NoRepeats(out)
      invariant forall r :: r in out ==> r.agent in byAgent && r.agent !in todo && byAgent[r.agent] == r.usage
      invariant forall a :: a in byAgent && a !in todo ==> AgentRollup(a, byAgent[a]) in out
      decreases |todo|
    {
      var a :| a in todo;
      assert forall r :: r in out ==> r.agent != a;
      out := out + [AgentRollup(a, byAgent[a])];
      todo := todo - {a};
    }
  }

  // ---------------------------------------------------------------- merging by metric-safe name

  /** `sanitize`; `alnum` stands for Unicode's letters and digits. */
  function Sanitize(name: string, alnum: char -> bool): (s: string)
    ensures |s| == |name|
    ensures forall i :: 0 <= i < |s| ==> s[i] == (if alnum(name[i]) then name[i] else '_')
  {
    seq(|name|, i requires 0 <= i < |name| => if alnum(name[i]) then name[i] else '_')
  }

  /** The name an agent's metrics are written under. */
  function Shown(agent: string, alnum: char -> bool): (s: string)
    ensures s != ""
  {
    var name := Sanitize(agent, alnum);
    if name == "" then "unknown" else name
  }

  function ShownNames(msgs: seq<Message>, alnum: char -> bool): set<string> {
    set a | a in Agents(msgs) :: Shown(a, alnum)
  }

  /** Usage summed over the messages whose agent is shown under a name. */
  function TotalShown(msgs: seq<Message>, name: string, alnum: char -> bool): Usage {
    if msgs == [] then NOTHING
    else
      var n := |msgs| - 1;
      if Shown(msgs[n].agent, alnum) == name then Add(TotalShown(msgs[..n], name, alnum), UsageOf(msgs[n]))
      else TotalShown(msgs[..n], name, alnum)
  }

  lemma {:induction false} TotalShownIsTotal(msgs: seq<Message>, name: string, alnum: char -> bool, agents: set<string>)
    requires forall i :: 0 <= i < |msgs| ==> (msgs[i].agent in agents <==> Shown(msgs[i].agent, alnum) == name)
    ensures TotalShown(msgs, name, alnum) == Total(msgs, agents)
  {
    if msgs != [] {
      TotalShownIsTotal(msgs[..|msgs| - 1], name, alnum, agents);
    }
  }

  /** The agents among the first k entries that are shown under a name. */
  function SharingName(rolled: seq<AgentRollup>, k: nat, name: string, alnum: char -> bool): set<string>
    requires k <= |rolled|
  {
    set i | 0 <= i < k && Shown(rolled[i].agent, alnum) == name :: rolled[i].agent
  }

  lemma SharingNameStep(rolled: seq<AgentRollup>, k: nat, name: string, alnum: char -> bool)
    requires k < |rolled|
    ensures SharingName(rolled, k + 1, name, alnum) ==
            SharingName(rolled, k, name, alnum) + (if Shown(rolled[k].agent, alnum) == name then {rolled[k].agent} else {})
  {
  }

  function NamesOf(rolled: seq<AgentRollup>, k: nat, alnum: char -> bool): set<string>
    requires k <= |rolled|
  {
    set i | 0 <= i < k :: Shown(rolled[i].agent, alnum)
  }

  /** The merge loop's map after k entries. */
  ghost predicate Merged(merged: map<string, Usage>, rolled: seq<AgentRollup>, k: nat, msgs: seq<Message>, alnum: char -> bool)
    requires k <= |rolled|
  {
    && merged.Keys == NamesOf(rolled, k, alnum)
    && forall name :: name in merged ==> merged[name] == Total(msgs, SharingName(rolled, k, name, alnum))
  }

  /** What one more entry does to the usage under one name. */
  lemma MergedOne(rolled: seq<AgentRollup>, k: nat, msgs: seq<Message>, alnum: char -> bool, name: string)
    requires k < |rolled| && RolledUp(rolled, msgs)
    ensures var before, after := SharingName(rolled, k, name, alnum), SharingName(rolled, k + 1, name, alnum);
            if Shown(rolled[k].agent, alnum) != name then after == before
            else if name in NamesOf(rolled, k, alnum) then
              Total(msgs, after) == Add(Total(msgs, before), rolled[k].usage)
            else Total(msgs, after) == rolled[k].usage
  {
    hide Total, Shown, StrLe, Agents, Add;
    SharingNameStep(rolled, k, name, alnum);
    var before, agent := SharingName(rolled, k, name, alnum), rolled[k].agent;
    if Shown(agent, alnum) != name {
      assert before + {} == before;
    } else if name in NamesOf(rolled, k, alnum) {
      assert before !! {agent};
      TotalOfDisjoint(msgs, before, {agent});
    } else {
      assert before == {};
      assert before + {agent} == {agent};
    }
  }

  lemma MergedStep(merged: map<string, Usage>, rolled: seq<AgentRollup>, k: nat, msgs: seq<Message>, alnum: char -> bool)
    requires k < |rolled| && RolledUp(rolled, msgs) && Merged(merged, rolled, k, msgs, alnum)
    ensures var r := rolled[k];
            var name := Shown(r.agent, alnum);
            Merged(merged[name := if name in merged then Add(merged[name], r.usage) else r.usage], rolled, k + 1, msgs, alnum)
  {
    hide Total, Shown, StrLe, Agents, Add, SharingName, RolledUp;
    assert NamesOf(rolled, k + 1, alnum) == NamesOf(rolled, k, alnum) + {Shown(rolled[k].agent, alnum)};
    forall name ensures var before, after := SharingName(rolled, k, name, alnum), SharingName(rolled, k + 1, name, alnum);
                        if Shown(rolled[k].agent, alnum) != name then after == before
                        else if name in merged then Total(msgs, after) == Add(Total(msgs, before), rolled[k].usage)
                        else Total(msgs, after) == rolled[k].usage {
      MergedOne(rolled, k, msgs, alnum, name);
    }
  }

  /** The merged map a roll-up leads to: one entry per shown name, with the sum over every message whose
      agent is shown under it. */
  ghost predicate MergedUsage(merged: map<string, Usage>, msgs: seq<Message>, alnum: char -> bool) {
    && merged.Keys == ShownNames(msgs, alnum)
    && forall name :: name in merged ==> merged[name] == TotalShown(msgs, name, alnum)
  }

  lemma MergedIsUsage(merged: map<string, Usage>, rolled: seq<AgentRollup>, msgs: seq<Message>, alnum: char -> bool)
    requires RolledUp(rolled, msgs) && Merged(merged, rolled, |rolled|, msgs, alnum)
    ensures MergedUsage(merged, msgs, alnum) && |rolled| == |Agents(msgs)| && |merged| == |ShownNames(msgs, alnum)|
  {
    hide Total, TotalShown, Shown, StrLe;
    forall name | name in merged ensures merged[name] == TotalShown(msgs, name, alnum) {
      var sharing := SharingName(rolled, |rolled|, name, alnum);
      forall i | 0 <= i < |msgs| ensures msgs[i].agent in sharing <==> Shown(msgs[i].agent, alnum) == name {
        assert msgs[i].agent in Agents(msgs);
      }
      TotalShownIsTotal(msgs, name, alnum, sharing);
    }
    RolledUpCount(rolled, |rolled|);
    assert Agents(msgs) == (set i | 0 <= i < |rolled| :: rolled[i].agent);
  }

  lemma {:induction false} RolledUpCount(rolled: seq<AgentRollup>, k: nat)
    requires k <= |rolled| && forall i, j :: 0 <= i < j < |rolled| ==> rolled[i].agent != rolled[j].agent
    ensures |set i | 0 <= i < k :: rolled[i].agent| == k
  {
    if k > 0 {
      RolledUpCount(rolled, k - 1);
      var fewer := set i | 0 <= i < k - 1 :: rolled[i].agent;
      assert (set i | 0 <= i < k :: rolled[i].agent) == fewer + {rolled[k - 1].agent};
    }
  }

  // ---------------------------------------------------------------- the metrics written

  datatype Metric = Messages | Cost | Input | Output | Reasoning | CacheRead | CacheWrite | TokensTotal | ToolCalls | ToolCallsFailed

  const METRICS: seq<Metric> :=
    [Messages, Cost, Input, Output, Reasoning, CacheRead, CacheWrite, TokensTotal, ToolCalls, ToolCallsFailed]

  function MetricName(m: Metric): string {
    match m
    case Messages => "messages"
    case Cost => "cost"
    case Input => "tokens_input"
    case Output => "tokens_output"
    case Reasoning => "tokens_reasoning"
    case CacheRead => "tokens_cache_read"
    case CacheWrite => "tokens_cache_write"
    case TokensTotal => "tokens_total"
    case ToolCalls => "tool_calls"
    case ToolCallsFailed => "tool_calls_failed"
  }

  function MetricValue(u: Usage, m: Metric): real {
    match m
    case Messages => u.messages as real
    case Cost => u.cost
    case Input => u.tokens.input as real
    case Output => u.tokens.output as real
    case Reasoning => u.tokens.reasoning as real
    case CacheRead => u.tokens.cacheRead as real
    case CacheWrite => u.tokens.cacheWrite as real
    case TokensTotal => u.tokens.total as real
    case ToolCalls => u.toolCalls as real
    case ToolCallsFailed => u.failed as real
  }

  const PREFIX := "agent."

  function Key(name: string, metric: string): string {
    PREFIX + name + "." + metric
  }

  predicate IsAgentKey(key: string) {
    PREFIX <= key
  }

  /** The last dot, or -1. */
  function LastDot(s: string): (dot: int)
    ensures -1 <= dot < |s|
  {
    if s == "" then -1 else if s[|s| - 1] == '.' then |s| - 1 else LastDot(s[..|s| - 1])
  }

  lemma {:induction false} LastDotBefore(name: string, metric: string)
    requires '.' !in metric
    ensures LastDot(name + "." + metric) == |name|
  {
    var s := name + "." + metric;
    if metric == "" {
      assert s == name + ".";
    } else {
      var n := |metric| - 1;
      LastDotBefore(name, metric[..n]);
      assert s[..|s| - 1] == name + "." + metric[..n];
      assert s[|s| - 1] == metric[n];
    }
  }

  /** No dot in the metric's name, so the key splits in only one way, whatever dots the agent's name has. */
  lemma KeySplits(name: string, metric: string)
    requires '.' !in metric
    ensures var rest := Key(name, metric)[|PREFIX|..];
            IsAgentKey(Key(name, metric)) && LastDot(rest) == |name| && rest[..|name|] == name && rest[|name| + 1..] == metric
  {
    var key := Key(name, metric);
    assert key == PREFIX + (name + "." + metric);
    assert key[|PREFIX|..] == name + "." + metric;
    LastDotBefore(name, metric);
  }

  lemma MetricNamesDiffer(a: Metric, b: Metric)
    ensures '.' !in MetricName(a)
    ensures MetricName(a) == MetricName(b) ==> a == b
  {
  }

  lemma KeyIsInjective(name: string, m: Metric, other: string, o: Metric)
    requires Key(name, MetricName(m)) == Key(other, MetricName(o))
    ensures name == other && m == o
  {
    hide MetricName, Key, LastDot;
    MetricNamesDiffer(m, o);
    MetricNamesDiffer(o, m);
    KeySplits(name, MetricName(m));
    KeySplits(other, MetricName(o));
  }

  /** The `agent.` entries of a metrics map are exactly those of some shown names, each with the usage of
      every message shown under it. */
  ghost predicate Written(metrics: map<string, real>, names: set<string>, msgs: seq<Message>, alnum: char -> bool) {
    && (forall key :: key in metrics && IsAgentKey(key) ==>
          exists name, m :: name in names && key == Key(name, MetricName(m)))
    && (forall name, m :: name in names ==>
          && Key(name, MetricName(m)) in metrics
          && metrics[Key(name, MetricName(m))] == MetricValue(TotalShown(msgs, name, alnum), m))
  }

  /** Ten entries for one agent, and nothing else. */
  ghost predicate Wrote(before: map<string, real>, after: map<string, real>, name: string, u: Usage, count: nat) {
    && count <= |METRICS|
    && (forall key :: key in after <==>
          key in before || exists i :: 0 <= i < count && key == Key(name, MetricName(METRICS[i])))
    && (forall i :: 0 <= i < count ==>
          && Key(name, MetricName(METRICS[i])) in after
          && after[Key(name, MetricName(METRICS[i]))] == MetricValue(u, METRICS[i]))
    && (forall key :: key in before && (forall i :: 0 <= i < count ==> key != Key(name, MetricName(METRICS[i]))) ==>
          key in after && after[key] == before[key])
  }

  lemma TenKeys(name: string, prefix: string)
    requires prefix == "agent." + name + "."
    ensures |METRICS| == 10
    ensures prefix + "messages" == Key(name, MetricName(METRICS[0])) && prefix + "cost" == Key(name, MetricName(METRICS[1]))
    ensures prefix + "tokens_input" == Key(name, MetricName(METRICS[2]))
    ensures prefix + "tokens_output" == Key(name, MetricName(METRICS[3]))
    ensures prefix + "tokens_reasoning" == Key(name, MetricName(METRICS[4]))
    ensures prefix + "tokens_cache_read" == Key(name, MetricName(METRICS[5]))
    ensures prefix + "tokens_cache_write" == Key(name, MetricName(METRICS[6]))
    ensures prefix + "tokens_total" == Key(name, MetricName(METRICS[7]))
    ensures prefix + "tool_calls" == Key(name, MetricName(METRICS[8]))
    ensures prefix + "tool_calls_failed" == Key(name, MetricName(METRICS[9]))
  {
  }

  lemma TenValues(u: Usage)
    ensures |METRICS| == 10
    ensures MetricValue(u, METRICS[0]) == u.messages as real && MetricValue(u, METRICS[1]) == u.cost
    ensures MetricValue(u, METRICS[2]) == u.tokens.input as real && MetricValue(u, METRICS[3]) == u.tokens.output as real
    ensures MetricValue(u, METRICS[4]) == u.tokens.reasoning as real
    ensures MetricValue(u, METRICS[5]) == u.tokens.cacheRead as real
    ensures MetricValue(u, METRICS[6]) == u.tokens.cacheWrite as real
    ensures MetricValue(u, METRICS[7]) == u.tokens.total as real
    ensures MetricValue(u, METRICS[8]) == u.toolCalls as real && MetricValue(u, METRICS[9]) == u.failed as real
  {
  }

  /** The ten assignments for one agent. */
  method WriteAgent(metrics: map<string, real>, name: string, u: Usage) returns (out: map<string, real>)
    ensures Wrote(metrics, out, name, u, |METRICS|)
  {
    hide Wrote, Key, MetricName, MetricValue, METRICS;
    var prefix := "agent." + name + ".";
    TenKeys(name, prefix);
    TenValues(u);
    WroteNothing(metrics, name, u);
    out := Put(metrics, prefix + "messages", u.messages as real, metrics, name, u, 0);
    out := Put(out, prefix + "cost", u.cost, metrics, name, u, 1);
    out := Put(out, prefix + "tokens_input", u.tokens.input as real, metrics, name, u, 2);
    out := Put(out, prefix + "tokens_output", u.tokens.output as real, metrics, name, u, 3);
    out := Put(out, prefix + "tokens_reasoning", u.tokens.reasoning as real, metrics, name, u, 4);
    out := Put(out, prefix + "tokens_cache_read", u.tokens.cacheRead as real, metrics, name, u, 5);
    out := Put(out, prefix + "tokens_cache_write", u.tokens.cacheWrite as real, metrics, name, u, 6);
    out := Put(out, prefix + "tokens_total", u.tokens.total as real, metrics, name, u, 7);
    out := Put(out, prefix + "tool_calls", u.toolCalls as real, metrics, name, u, 8);
    out := Put(out, prefix + "tool_calls_failed", u.failed as real, metrics, name, u, 9);
  }

  lemma WroteNothing(metrics: map<string, real>, name: string, u: Usage)
    ensures Wrote(metrics, metrics, name, u, 0)
  {
  }

  lemma WroteOneMore(before: map<string, real>, after: map<string, real>, name: string, u: Usage, j: nat)
    requires j < |METRICS| && Wrote(before, after, name, u, j)
    ensures Wrote(before, after[Key(name, MetricName(METRICS[j])) := MetricValue(u, METRICS[j])], name, u, j + 1)
  {
    hide MetricName, MetricValue, Key, METRICS;
    forall i | 0 <= i < j ensures Key(name, MetricName(METRICS[i])) != Key(name, MetricName(METRICS[j])) {
      if Key(name, MetricName(METRICS[i])) == Key(name, MetricName(METRICS[j])) {
        KeyIsInjective(name, METRICS[i], name, METRICS[j]);
        MetricsDiffer(i, j);
      }
    }
  }

  /** One of the ten assignments, to the key and value of the j-th metric. */
  method Put(out: map<string, real>, key: string, value: real, ghost before: map<string, real>, ghost name: string, ghost u: Usage,
             ghost j: nat)
    returns (next: map<string, real>)
    requires j < |METRICS| && Wrote(before, out, name, u, j)
    requires key == Key(name, MetricName(METRICS[j])) && value == MetricValue(u, METRICS[j])
    ensures Wrote(before, next, name, u, j + 1)
  {
    hide Wrote, Key, MetricName, MetricValue;
    WroteOneMore(before, out, name, u, j);
    next := out[key := value];
  }

  lemma MetricsDiffer(i: int, j: int)
    requires 0 <= i < j < |METRICS|
    ensures METRICS[i] != METRICS[j]
  {
  }

  lemma AllMetricsListed(m: Metric)
    ensures exists i :: 0 <= i < |METRICS| && METRICS[i] == m
  {
    assert METRICS[0] == Messages && METRICS[1] == Cost && METRICS[2] == Input && METRICS[3] == Output
        && METRICS[4] == Reasoning && METRICS[5] == CacheRead && METRICS[6] == CacheWrite
        && METRICS[7] == TokensTotal && METRICS[8] == ToolCalls && METRICS[9] == ToolCallsFailed;
  }

  lemma KeyIsAgentKey(name: string, metric: string)
    ensures IsAgentKey(Key(name, metric))
  {
    assert Key(name, metric) == PREFIX + (name + "." + metric);
  }

  /** The entries that belong to no agent are the same. */
  ghost predicate OthersKept(before: map<string, real>, after: map<string, real>) {
    forall key :: !IsAgentKey(key) ==> (key in before <==> key in after) && (key in before ==> before[key] == after[key])
  }

  lemma OthersKeptTwice(a: map<string, real>, b: map<string, real>, c: map<string, real>)
    requires OthersKept(a, b) && OthersKept(b, c)
    ensures OthersKept(a, c)
  {
    hide IsAgentKey;
  }

  /** One more name written. */
  lemma WrittenStep(before: map<string, real>, after: map<string, real>, names: set<string>, name: string, u: Usage,
                    msgs: seq<Message>, alnum: char -> bool)
    requires Written(before, names, msgs, alnum) && name !in names
    requires Wrote(before, after, name, u, |METRICS|) && u == TotalShown(msgs, name, alnum)
    ensures Written(after, names + {name}, msgs, alnum)
    ensures OthersKept(before, after)
  {
    hide MetricName, MetricValue, Key, METRICS, TotalShown, IsAgentKey;
    forall other, m | other in names + {name}
      ensures Key(other, MetricName(m)) in after
      ensures after[Key(other, MetricName(m))] == MetricValue(TotalShown(msgs, other, alnum), m)
    {
      if other == name {
        AllMetricsListed(m);
      } else {
        forall i | 0 <= i < |METRICS| ensures Key(other, MetricName(m)) != Key(name, MetricName(METRICS[i])) {
          if Key(other, MetricName(m)) == Key(name, MetricName(METRICS[i])) {
            KeyIsInjective(other, m, name, METRICS[i]);
          }
        }
      }
    }
    forall key | !IsAgentKey(key)
      ensures (key in before <==> key in after) && (key in before ==> before[key] == after[key])
    {
      forall i | 0 <= i < |METRICS| ensures key != Key(name, MetricName(METRICS[i])) {
        KeyIsAgentKey(name, MetricName(METRICS[i]));
      }
    }
  }

  lemma MergedNothing(rolled: seq<AgentRollup>, msgs: seq<Message>, alnum: char -> bool)
    ensures Merged(map[], rolled, 0, msgs, alnum)
  {
  }

  lemma SizeAfter(merged: map<string, Usage>, name: string, u: Usage)
    ensures |merged[name := u]| == |merged| + (if name in merged then 0 else 1)
  {
    assert merged[name := u].Keys == merged.Keys + {name};
  }

  lemma ShownIs(agent: string, alnum: char -> bool)
    ensures Shown(agent, alnum) == if Sanitize(agent, alnum) == "" then "unknown" else Sanitize(agent, alnum)
  {
  }

  lemma AddIsByField(a: Usage, b: Usage)
    ensures Add(a, b) ==
            Usage(a.messages + b.messages, a.cost + b.cost,
                  Tokens(a.tokens.input + b.tokens.input, a.tokens.output + b.tokens.output,
                         a.tokens.reasoning + b.tokens.reasoning, a.tokens.cacheRead + b.tokens.cacheRead,
                         a.tokens.cacheWrite + b.tokens.cacheWrite, a.tokens.total + b.tokens.total),
                  a.toolCalls + b.toolCalls, a.failed + b.failed)
  {
  }

  /** The merge loop of `sessionMetrics`. */
  method Merge(rolled: seq<AgentRollup>, alnum: char -> bool, ghost msgs: seq<Message>)
    returns (merged: map<string, Usage>, collisions: int)
    requires RolledUp(rolled, msgs)
    ensures MergedUsage(merged, msgs, alnum)
    ensures collisions == |Agents(msgs)| - |ShownNames(msgs, alnum)|
  {
    hide Shown, RolledUp, Add, Agents, ShownNames, Merged, MergedUsage;
    merged, collisions := map[], 0;
    MergedNothing(rolled, msgs, alnum);
    for i := 0 to |rolled|
      invariant Merged(merged, rolled, i, msgs, alnum) && collisions == i - |merged|
    {
      MergedStep(merged, rolled, i, msgs, alnum);
      var r := rolled[i];
      var name := Sanitize(r.agent, alnum);
      if name == "" {
        name := "unknown";
      }
      assert name == Shown(r.agent, alnum) by {
        ShownIs(r.agent, alnum);
      }
      if name in merged {
        var prev := merged[name];
        SizeAfter(merged, name, Add(prev, r.usage));
        AddIsByField(prev, r.usage);
        prev := prev.(messages := prev.messages + r.usage.messages, cost := prev.cost + r.usage.cost,
                      tokens := Tokens(prev.tokens.input + r.usage.tokens.input, prev.tokens.output + r.usage.tokens.output,
                                       prev.tokens.reasoning + r.usage.tokens.reasoning,
                                       prev.tokens.cacheRead + r.usage.tokens.cacheRead,
                                       prev.tokens.cacheWrite + r.usage.tokens.cacheWrite,
                                       prev.tokens.total + r.usage.tokens.total),
                      toolCalls := prev.toolCalls + r.usage.toolCalls, failed := prev.failed + r.usage.failed);
        merged := merged[name := prev];
        collisions := collisions + 1;
        continue;
      }
      SizeAfter(merged, name, r.usage);
      merged := merged[name := r.usage];
    }
    MergedIsUsage(merged, rolled, msgs, alnum);
  }

  lemma WrittenNone(metrics: map<string, real>, msgs: seq<Message>, alnum: char -> bool)
    requires forall key :: key in metrics ==> !IsAgentKey(key)
    ensures Written(metrics, {}, msgs, alnum) && OthersKept(metrics, metrics)
  {
  }

  lemma MergedEntry(merged: map<string, Usage>, name: string, msgs: seq<Message>, alnum: char -> bool)
    requires MergedUsage(merged, msgs, alnum) && name in merged
    ensures merged[name] == TotalShown(msgs, name, alnum)
  {
  }

  lemma MergedNames(merged: map<string, Usage>, msgs: seq<Message>, alnum: char -> bool)
    requires MergedUsage(merged, msgs, alnum)
    ensures merged.Keys == ShownNames(msgs, alnum)
  {
  }

  /** The ten entries of every merged agent, in map order, which is any order. */
  method WriteAgents(metrics: map<string, real>, merged: map<string, Usage>, alnum: char -> bool, ghost msgs: seq<Message>)
    returns (out: map<string, real>)
    requires MergedUsage(merged, msgs, alnum)
    requires forall key :: key in metrics ==> !IsAgentKey(key)
    ensures Written(out, ShownNames(msgs, alnum), msgs, alnum)
    ensures OthersKept(metrics, out)
  {
    hide *;
    out := metrics;
    var todo := merged.Keys;
    assert merged.Keys - todo == {};
    WrittenNone(metrics, msgs, alnum);
    while todo != {}
      invariant todo <= merged.Keys
      invariant Written(out, merged.Keys - todo, msgs, alnum)
      invariant OthersKept(metrics, out)
      decreases |todo|
    {
      var name :| name in todo;
      var next := WriteAgent(out, name, merged[name]);
      MergedEntry(merged, name, msgs, alnum);
      WrittenStep(out, next, merged.Keys - todo, name, merged[name], msgs, alnum);
      OthersKeptTwice(metrics, out, next);
      assert merged.Keys - (todo - {name}) == (merged.Keys - todo) + {name};
      out := next;
      todo := todo - {name};
    }
    assert merged.Keys - todo == merged.Keys;
    MergedNames(merged, msgs, alnum);
  }

  /** What the runner captured: the primary session's export if it parsed, the delegated children, and how
      many exports failed. */
  datatype SessionCapture = SessionCapture(primary: Option<Session>, children: seq<Option<Session>>, failures: int)

  function Sessions(c: SessionCapture): seq<Option<Session>> {
    (if c.primary.Some? then [c.primary] else []) + c.children
  }

  function ChildTokens(children: seq<Option<Session>>): int {
    if children == [] then 0
    else
      var n := |children| - 1;
      ChildTokens(children[..n]) + (if children[n].Some? then children[n].value.tokensTotal else 0)
  }

  function ChildCost(children: seq<Option<Session>>): real {
    if children == [] then 0.0
    else
      var n := |children| - 1;
      ChildCost(children[..n]) + (if children[n].Some? then children[n].value.cost else 0.0)
  }

  function Abs(x: real): real {
    if x < 0.0 then 0.0 - x else x
  }

  const SUBAGENT_SESSIONS := "subagent_sessions"
  const SUBAGENT_FAILURES := "subagent_export_failures"
  const NAME_COLLISIONS := "agent_name_collisions"
  const SUBAGENT_TOKENS := "subagent_tokens_total"
  const SUBAGENT_COST := "subagent_cost"
  const CROSSCHECK_DELTA := "session_crosscheck_tokens_delta"

  /** The entries that are not per agent. */
  ghost predicate CaptureEntries(out: map<string, real>, c: SessionCapture, eventTokensTotal: real, collisions: int) {
    && SUBAGENT_SESSIONS in out && out[SUBAGENT_SESSIONS] == |c.children| as real
    && SUBAGENT_FAILURES in out && out[SUBAGENT_FAILURES] == c.failures as real
    && (NAME_COLLISIONS in out <==> collisions > 0)
    && (collisions > 0 ==> out[NAME_COLLISIONS] == collisions as real)
    && (SUBAGENT_TOKENS in out <==> c.children != []) && (SUBAGENT_COST in out <==> c.children != [])
    && (c.children != [] ==> out[SUBAGENT_TOKENS] == ChildTokens(c.children) as real
                             && out[SUBAGENT_COST] == ChildCost(c.children))
    && (CROSSCHECK_DELTA in out <==> c.primary.Some?)
    && (c.primary.Some? ==>
          out[CROSSCHECK_DELTA] == Abs(eventTokensTotal - c.primary.value.tokensTotal as real))
  }

  method SumChildren(children: seq<Option<Session>>) returns (tokens: int, cost: real)
    ensures tokens == ChildTokens(children) && cost == ChildCost(children)
  {
    tokens, cost := 0, 0.0;
    for i := 0 to |children|
      invariant tokens == ChildTokens(children[..i]) && cost == ChildCost(children[..i])
    {
      assert children[..i + 1][..i] == children[..i];
      if children[i].None? {
        continue;
      }
      tokens := tokens + children[i].value.tokensTotal;
      cost := cost + children[i].value.cost;
    }
    assert children[..|children|] == children;
  }

  lemma DistinctFixedKeys()
    ensures SUBAGENT_SESSIONS == "subagent_sessions" && SUBAGENT_FAILURES == "subagent_export_failures"
    ensures NAME_COLLISIONS == "agent_name_collisions" && SUBAGENT_TOKENS == "subagent_tokens_total"
    ensures SUBAGENT_COST == "subagent_cost" && CROSSCHECK_DELTA == "session_crosscheck_tokens_delta"
    ensures !IsAgentKey(SUBAGENT_SESSIONS) && !IsAgentKey(SUBAGENT_FAILURES) && !IsAgentKey(NAME_COLLISIONS)
    ensures !IsAgentKey(SUBAGENT_TOKENS) && !IsAgentKey(SUBAGENT_COST) && !IsAgentKey(CROSSCHECK_DELTA)
    ensures SUBAGENT_SESSIONS != SUBAGENT_FAILURES
    ensures NAME_COLLISIONS !in [SUBAGENT_SESSIONS, SUBAGENT_FAILURES]
    ensures SUBAGENT_TOKENS !in [SUBAGENT_SESSIONS, SUBAGENT_FAILURES, NAME_COLLISIONS]
    ensures SUBAGENT_COST !in [SUBAGENT_SESSIONS, SUBAGENT_FAILURES, NAME_COLLISIONS, SUBAGENT_TOKENS]
    ensures CROSSCHECK_DELTA !in [SUBAGENT_SESSIONS, SUBAGENT_FAILURES, NAME_COLLISIONS, SUBAGENT_TOKENS, SUBAGENT_COST]
  {
    assert SUBAGENT_SESSIONS[0] != NAME_COLLISIONS[0] && SUBAGENT_SESSIONS[1] != CROSSCHECK_DELTA[1];
    assert SUBAGENT_SESSIONS[9] == 's' && SUBAGENT_FAILURES[9] == 'e' && SUBAGENT_TOKENS[9] == 't' && SUBAGENT_COST[9] == 'c';
    assert NAME_COLLISIONS[5] != PREFIX[5];
    assert SUBAGENT_FAILURES[1] == SUBAGENT_TOKENS[1] == SUBAGENT_COST[1] == 'u' && CROSSCHECK_DELTA[1] == 'e';
    assert SUBAGENT_FAILURES[0] == SUBAGENT_TOKENS[0] == SUBAGENT_COST[0] == 's' == CROSSCHECK_DELTA[0];
  }

  lemma WrittenIgnoresOthers(metrics: map<string, real>, key: string, value: real, names: set<string>, msgs: seq<Message>,
                             alnum: char -> bool)
    requires Written(metrics, names, msgs, alnum) && !IsAgentKey(key)
    ensures Written(metrics[key := value], names, msgs, alnum)
  {
    hide MetricName, MetricValue, Key, TotalShown, IsAgentKey;
    forall name, m | name in names ensures Key(name, MetricName(m)) != key {
      KeyIsAgentKey(name, MetricName(m));
    }
  }

  /** The delegated children's totals and the cross-check of the primary session. */
  method AddSessionTotals(metrics: map<string, real>, c: SessionCapture, eventTokensTotal: real, ghost names: set<string>,
                          alnum: char -> bool, ghost msgs: seq<Message>)
    returns (out: map<string, real>)
    requires Written(metrics, names, msgs, alnum)
    requires SUBAGENT_TOKENS !in metrics && SUBAGENT_COST !in metrics
    requires CROSSCHECK_DELTA !in metrics
    ensures Written(out, names, msgs, alnum)
    ensures out == metrics
                   + (if c.children == [] then map[]
                      else map[SUBAGENT_TOKENS := ChildTokens(c.children) as real,
                               SUBAGENT_COST := ChildCost(c.children)])
                   + (if c.primary.None? then map[]
                      else map[CROSSCHECK_DELTA :=
                                 Abs(eventTokensTotal - c.primary.value.tokensTotal as real)])
  {
    hide Written, IsAgentKey, ChildTokens, ChildCost;
    hide SUBAGENT_SESSIONS, SUBAGENT_FAILURES, NAME_COLLISIONS, SUBAGENT_TOKENS, SUBAGENT_COST, CROSSCHECK_DELTA;
    DistinctFixedKeys();
    out := metrics;
    if |c.children| > 0 {
      var tokens, cost := SumChildren(c.children);
      WrittenIgnoresOthers(out, SUBAGENT_TOKENS, tokens as real, names, msgs, alnum);
      out := out[SUBAGENT_TOKENS := tokens as real];
      WrittenIgnoresOthers(out, SUBAGENT_COST, cost, names, msgs, alnum);
      out := out[SUBAGENT_COST := cost];
    }
    if c.primary.Some? {
      var delta := eventTokensTotal - c.primary.value.tokensTotal as real;
      if delta < 0.0 {
        delta := 0.0 - delta;
      }
      WrittenIgnoresOthers(out, CROSSCHECK_DELTA, delta, names, msgs, alnum);
      out := out[CROSSCHECK_DELTA := delta];
    }
  }

  method ListSessions(c: SessionCapture) returns (sessions: seq<Option<Session>>)
    ensures sessions == Sessions(c)
  {
    sessions := [];
    if c.primary.Some? {
      sessions := sessions + [c.primary];
    }
    sessions := sessions + c.children;
  }

  /** `sessionMetrics`. */
  method SessionMetrics(c: SessionCapture, eventTokensTotal: real, alnum: char -> bool) returns (out: map<string, real>)
    ensures var msgs := AllMessages(Sessions(c));
            && Written(out, ShownNames(msgs, alnum), msgs, alnum)
            && CaptureEntries(out, c, eventTokensTotal, |Agents(msgs)| - |ShownNames(msgs, alnum)|)
  {
    hide Written, IsAgentKey, RolledUp, MergedUsage, Agents, ShownNames, ChildTokens, ChildCost, AllMessages;
    hide SUBAGENT_SESSIONS, SUBAGENT_FAILURES, NAME_COLLISIONS, SUBAGENT_TOKENS, SUBAGENT_COST, CROSSCHECK_DELTA;
    DistinctFixedKeys();
    out := map[SUBAGENT_SESSIONS := |c.children| as real, SUBAGENT_FAILURES := c.failures as real];
    ghost var msgs := AllMessages(Sessions(c));
    var sessions := ListSessions(c);
    var rolled := Rollup(sessions);
    var merged, collisions := Merge(rolled, alnum, msgs);
    out := WriteAgents(out, merged, alnum, msgs);
    ghost var names := ShownNames(msgs, alnum);
    if collisions > 0 {
      WrittenIgnoresOthers(out, NAME_COLLISIONS, collisions as real, names, msgs, alnum);
      out := out[NAME_COLLISIONS := collisions as real];
    }
    out := AddSessionTotals(out, c, eventTokensTotal, names, alnum, msgs);
  }
}
