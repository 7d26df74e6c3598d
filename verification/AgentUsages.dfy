/** Per-agent usage read back from a run's metrics by splitting the keys, in another package than the one
    that wrote them. */
module AgentUsages {
  import opened Options
  import opened Sorting
  import opened AgentMetrics

  datatype Reading = Reading(messages: int, toolCalls: int, tokens: real, cost: real)
  datatype AgentUsage = AgentUsage(name: string, reading: Reading)

  const NO_READING := Reading(0, 0, 0.0, 0.0)

  /** Go's conversion of a floating-point number to an integer. */
  function Truncate(x: real): int {
    if x >= 0.0 then x.Floor else -((0.0 - x).Floor)
  }

  lemma TruncateIsTowardsZero(x: real)
    ensures x >= 0.0 ==> Truncate(x) as real <= x < Truncate(x) as real + 1.0
    ensures x <= 0.0 ==> Truncate(x) as real - 1.0 < x <= Truncate(x) as real
  {
  }

  /** The agent and the metric of a key, split at its last dot. */
  function Parse(key: string): (p: Option<(string, string)>)
    ensures p.Some? ==> p.value.0 != "" && key == Key(p.value.0, p.value.1)
  {
    if !IsAgentKey(key) then None
    else
      var rest := key[|PREFIX|..];
      var dot := LastDot(rest);
      if dot <= 0 then None
      else
        DotAtLast(rest);
        assert key == PREFIX + rest && rest == rest[..dot] + "." + rest[dot + 1..];
        Some((rest[..dot], rest[dot + 1..]))
  }

  lemma {:induction false} DotAtLast(s: string)
    ensures LastDot(s) >= 0 ==> s[LastDot(s)] == '.'
  {
    if s != "" && s[|s| - 1] != '.' {
      DotAtLast(s[..|s| - 1]);
    }
  }

  lemma ParseOfKey(name: string, metric: string)
    requires name != "" && '.' !in metric
    ensures Parse(Key(name, metric)) == Some((name, metric))
  {
    KeySplits(name, metric);
  }

  function AgentsIn(keys: set<string>): set<string> {
    set k | k in keys && Parse(k).Some? :: Parse(k).value.0
  }

  /** An agent's reading from the keys seen so far: zero where there is none. */
  function ReadFrom(metrics: map<string, real>, seen: set<string>, name: string): Reading
    requires seen <= metrics.Keys
  {
    Reading(if Key(name, "messages") in seen then Truncate(metrics[Key(name, "messages")]) else 0,
            if Key(name, "tool_calls") in seen then Truncate(metrics[Key(name, "tool_calls")]) else 0,
            if Key(name, "tokens_total") in seen then metrics[Key(name, "tokens_total")] else 0.0,
            if Key(name, "cost") in seen then metrics[Key(name, "cost")] else 0.0)
  }

  /** The switch on the metric's name. */
  function Update(r: Reading, metric: string, value: real): Reading {
    if metric == "messages" then r.(messages := Truncate(value))
    else if metric == "tool_calls" then r.(toolCalls := Truncate(value))
    else if metric == "tokens_total" then r.(tokens := value)
    else if metric == "cost" then r.(cost := value)
    else r
  }

  ghost predicate ReadSoFar(byName: map<string, Reading>, metrics: map<string, real>, seen: set<string>)
    requires seen <= metrics.Keys
  {
    && byName.Keys == AgentsIn(seen)
    && forall a :: a in byName ==> byName[a] == ReadFrom(metrics, seen, a)
  }

  lemma KeysParse(name: string)
    requires name != ""
    ensures Parse(Key(name, "messages")) == Some((name, "messages"))
    ensures Parse(Key(name, "tool_calls")) == Some((name, "tool_calls"))
    ensures Parse(Key(name, "tokens_total")) == Some((name, "tokens_total"))
    ensures Parse(Key(name, "cost")) == Some((name, "cost"))
  {
    ParseOfKey(name, "messages");
    ParseOfKey(name, "tool_calls");
    ParseOfKey(name, "tokens_total");
    ParseOfKey(name, "cost");
  }

  lemma ReadNothing(metrics: map<string, real>, seen: set<string>, name: string)
    requires seen <= metrics.Keys && name != "" && name !in AgentsIn(seen)
    ensures ReadFrom(metrics, seen, name) == NO_READING
  {
    hide Parse, Key;
    KeysParse(name);
  }

  /** One more key changes at most its own agent's reading, as the switch does. */
  lemma ReadOneMore(metrics: map<string, real>, seen: set<string>, key: string, name: string)
    requires seen <= metrics.Keys && key in metrics.Keys && name != ""
    ensures ReadFrom(metrics, seen + {key}, name) ==
            if Parse(key).Some? && Parse(key).value.0 == name
            then Update(ReadFrom(metrics, seen, name), Parse(key).value.1, metrics[key])
            else ReadFrom(metrics, seen, name)
  {
    hide Parse, Key, Truncate;
    KeysParse(name);
  }

  lemma ReadStep(byName: map<string, Reading>, metrics: map<string, real>, seen: set<string>, key: string)
    requires seen <= metrics.Keys && key in metrics.Keys && ReadSoFar(byName, metrics, seen)
    ensures if Parse(key).None? then ReadSoFar(byName, metrics, seen + {key})
            else
              var (agent, metric) := Parse(key).value;
              var usage := if agent in byName then byName[agent] else NO_READING;
              ReadSoFar(byName[agent := Update(usage, metric, metrics[key])], metrics, seen + {key})
  {
    hide Parse, Key, Truncate, Update, ReadFrom;
    forall a | a in AgentsIn(seen + {key}) ensures a != "" {
      var k :| k in seen + {key} && Parse(k).Some? && Parse(k).value.0 == a;
    }
    forall a | a != ""
      ensures ReadFrom(metrics, seen + {key}, a) ==
              if Parse(key).Some? && Parse(key).value.0 == a
              then Update(ReadFrom(metrics, seen, a), Parse(key).value.1, metrics[key])
              else ReadFrom(metrics, seen, a)
    {
      ReadOneMore(metrics, seen, key, a);
    }
    AgentsInStep(seen, key);
    if Parse(key).Some? {
      var agent := Parse(key).value.0;
      if agent !in byName {
        ReadNothing(metrics, seen, agent);
      }
    } else {
      assert AgentsIn(seen) + {} == AgentsIn(seen);
    }
  }

  lemma AgentsInStep(seen: set<string>, key: string)
    ensures AgentsIn(seen + {key}) == AgentsIn(seen) + (if Parse(key).Some? then {Parse(key).value.0} else {})
  {
    hide Parse;
    if Parse(key).Some? {
      assert key in seen + {key};
    }
  }

  predicate Heavier(a: AgentUsage, b: AgentUsage) {
    a.reading.tokens > b.reading.tokens || (a.reading.tokens == b.reading.tokens && StrLe(a.name, b.name))
  }

  /** What the extraction must be: one entry per agent named by a key, heaviest first, ties by name, with
      the values found under that agent's keys. */
  ghost predicate UsagesRead(out: seq<AgentUsage>, metrics: map<string, real>) {
    && (forall i, j :: 0 <= i < j < |out| ==> Heavier(out[i], out[j]) && out[i].name != out[j].name)
    && (forall name :: name in AgentsIn(metrics.Keys) <==> exists i :: 0 <= i < |out| && out[i].name == name)
    && (forall i :: 0 <= i < |out| ==> out[i].reading == ReadFrom(metrics, metrics.Keys, out[i].name))
  }

  /** The heaviest agent reads first, and agents of equal weight by name. */
  lemma HeaviestFirst(out: seq<AgentUsage>, metrics: map<string, real>, i: int, j: int)
    requires UsagesRead(out, metrics) && 0 <= i < j < |out|
    ensures out[i].reading.tokens >= out[j].reading.tokens
    ensures out[i].reading.tokens == out[j].reading.tokens ==> StrLe(out[i].name, out[j].name)
  {
    hide AgentsIn, ReadFrom, StrLe;
    assert Heavier(out[i], out[j]);
  }

  /** The list is the map: each agent once, with its reading. */
  ghost predicate Lists(out: seq<AgentUsage>, byName: map<string, Reading>) {
    && NoRepeats(out)
    && (forall u :: u in out ==> u.name in byName && byName[u.name] == u.reading)
    && (forall a :: a in byName ==> AgentUsage(a, byName[a]) in out)
  }

  method ListOf(byName: map<string, Reading>) returns (out: seq<AgentUsage>)
    ensures Lists(out, byName)
  {
    out := [];
    var todo := byName.Keys;
    while todo != {}
      invariant todo <= byName.Keys && NoRepeats(out)
      invariant forall u :: u in out ==> u.name in byName && u.name !in todo && byName[u.name] == u.reading
      invariant forall a :: a in byName && a !in todo ==> AgentUsage(a, byName[a]) in out
      decreases |todo|
    {
      var a :| a in todo;
      assert forall u :: u in out ==> u.name != a;
      out := out + [AgentUsage(a, byName[a])];
      todo := todo - {a};
    }
  }

  lemma HeavierIsPreorder()
    ensures TotalPreorder(Heavier)
  {
    StrLeIsOrder();
  }

  lemma SortedStillLists(out: seq<AgentUsage>, byName: map<string, Reading>)
    requires Lists(out, byName)
    ensures Lists(Sort(out, Heavier), byName) && SortedBy(Sort(out, Heavier), Heavier)
  {
    hide Heavier, Sort;
    var sorted := Sort(out, Heavier);
    HeavierIsPreorder();
    SortKeeps(out, Heavier);
    SortSorted(out, Heavier);
    PermutationKeepsNoRepeats(out, sorted);
    forall u ensures u in sorted <==> u in out {
      assert u in multiset(sorted) <==> u in multiset(out);
    }
  }

  lemma SortedListIsRead(out: seq<AgentUsage>, byName: map<string, Reading>, metrics: map<string, real>)
    requires Lists(out, byName) && SortedBy(out, Heavier) && ReadSoFar(byName, metrics, metrics.Keys)
    ensures UsagesRead(out, metrics)
  {
    hide AgentsIn, ReadFrom, Heavier;
    forall i | 0 <= i < |out| ensures out[i].name in byName && out[i] == AgentUsage(out[i].name, byName[out[i].name]) {
      assert out[i] in out;
    }
    forall a ensures a in AgentsIn(metrics.Keys) <==> exists i :: 0 <= i < |out| && out[i].name == a {
      if a in byName {
        assert AgentUsage(a, byName[a]) in out;
      }
    }
  }

  /** `AgentUsages`; the keys come in map order, which is any order. */
  method ReadUsages(metrics: map<string, real>) returns (out: seq<AgentUsage>)
    ensures UsagesRead(out, metrics)
  {
    hide ReadSoFar, Lists, UsagesRead, Update, Key, Heavier;
    var byName: map<string, Reading> := map[];
    var todo := metrics.Keys;
    ReadNone(metrics);
    assert metrics.Keys - todo == {};
    while todo != {}
      invariant todo <= metrics.Keys && ReadSoFar(byName, metrics, metrics.Keys - todo)
      decreases |todo|
    {
      var name :| name in todo;
      ReadStep(byName, metrics, metrics.Keys - todo, name);
      assert metrics.Keys - (todo - {name}) == (metrics.Keys - todo) + {name};
      todo := todo - {name};
      if !IsAgentKey(name) {
        continue;
      }
      var rest := name[|PREFIX|..];
      var dot := LastDot(rest);
      if dot <= 0 {
        continue;
      }
      var agent, metric := rest[..dot], rest[dot + 1..];
      var usage := if agent in byName then byName[agent] else NO_READING;
      byName := byName[agent := Update(usage, metric, metrics[name])];
    }
    assert metrics.Keys - todo == metrics.Keys;
    var list := ListOf(byName);
    out := Sort(list, Heavier);
    SortedStillLists(list, byName);
    SortedListIsRead(out, byName, metrics);
  }

  lemma ReadNone(metrics: map<string, real>)
    ensures ReadSoFar(map[], metrics, {})
  {
    assert AgentsIn({}) == {};
  }

  // ---------------------------------------------------------------- writer and reader together

  function ReadingOf(u: Usage): Reading {
    Reading(u.messages, u.toolCalls, u.tokens.total as real, u.cost)
  }

  /** Reading what the runner wrote gives exactly the shown names, each with the usage of every message
      whose agent is shown under it, whatever other metrics the run has. */
  lemma ReadBack(metrics: map<string, real>, out: seq<AgentUsage>, msgs: seq<Message>, alnum: char -> bool)
    requires Written(metrics, ShownNames(msgs, alnum), msgs, alnum) && UsagesRead(out, metrics)
    ensures forall name :: name in ShownNames(msgs, alnum) <==> exists i :: 0 <= i < |out| && out[i].name == name
    ensures forall i :: 0 <= i < |out| ==> out[i].reading == ReadingOf(TotalShown(msgs, out[i].name, alnum))
  {
    hide Key, Parse, TotalShown, Heavier, ShownNames;
    var names := ShownNames(msgs, alnum);
    AgentsAreShown(metrics, msgs, alnum);
    forall i | 0 <= i < |out| ensures out[i].reading == ReadingOf(TotalShown(msgs, out[i].name, alnum)) {
      assert out[i].name in names;
      ReadOne(metrics, msgs, alnum, out[i].name);
    }
  }

  lemma NamesAreNotEmpty(msgs: seq<Message>, alnum: char -> bool)
    ensures "" !in ShownNames(msgs, alnum)
  {
  }

  lemma AgentsAreShown(metrics: map<string, real>, msgs: seq<Message>, alnum: char -> bool)
    requires Written(metrics, ShownNames(msgs, alnum), msgs, alnum)
    ensures AgentsIn(metrics.Keys) == ShownNames(msgs, alnum)
  {
    hide Key, MetricName, MetricValue, TotalShown, Parse, IsAgentKey, ShownNames;
    var names := ShownNames(msgs, alnum);
    NamesAreNotEmpty(msgs, alnum);
    forall a | a in names ensures a in AgentsIn(metrics.Keys) {
      MetricNamesDiffer(Messages, Messages);
      ParseOfKey(a, MetricName(Messages));
      assert Key(a, MetricName(Messages)) in metrics.Keys;
    }
    forall a | a in AgentsIn(metrics.Keys) ensures a in names {
      var k :| k in metrics.Keys && Parse(k).Some? && Parse(k).value.0 == a;
      KeyIsAgentKey(a, Parse(k).value.1);
      var name, m :| name in names && k == Key(name, MetricName(m));
      MetricNamesDiffer(m, m);
      ParseOfKey(name, MetricName(m));
    }
  }

  lemma ReadOne(metrics: map<string, real>, msgs: seq<Message>, alnum: char -> bool, name: string)
    requires Written(metrics, ShownNames(msgs, alnum), msgs, alnum) && name in ShownNames(msgs, alnum)
    ensures ReadFrom(metrics, metrics.Keys, name) == ReadingOf(TotalShown(msgs, name, alnum))
  {
    hide Key, TotalShown, ShownNames;
    assert MetricName(Messages) == "messages" && MetricName(ToolCalls) == "tool_calls";
    assert MetricName(TokensTotal) == "tokens_total" && MetricName(Cost) == "cost";
  }

  function SumOf(out: seq<AgentUsage>): Reading {
    if out == [] then NO_READING
    else
      var n := |out| - 1;
      AddReadings(SumOf(out[..n]), out[n].reading)
  }

  function AddReadings(a: Reading, b: Reading): Reading {
    Reading(a.messages + b.messages, a.toolCalls + b.toolCalls, a.tokens + b.tokens, a.cost + b.cost)
  }

  /** Usage summed over every message there is. */
  function GrandTotal(msgs: seq<Message>): Usage {
    if msgs == [] then NOTHING else Add(GrandTotal(msgs[..|msgs| - 1]), UsageOf(msgs[|msgs| - 1]))
  }

  lemma {:induction false} GrandTotalIsTotal(msgs: seq<Message>, agents: set<string>)
    requires Agents(msgs) <= agents
    ensures Total(msgs, agents) == GrandTotal(msgs) && GrandTotal(msgs).messages == |msgs|
  {
    hide Agents;
    if msgs != [] {
      var n := |msgs| - 1;
      AgentsStep(msgs[..n], msgs[n]);
      assert msgs == msgs[..n] + [msgs[n]];
      GrandTotalIsTotal(msgs[..n], agents);
    }
  }

  /** The agents shown under one of some names. */
  function Under(msgs: seq<Message>, names: seq<string>, alnum: char -> bool): set<string> {
    set a | a in Agents(msgs) && Shown(a, alnum) in names
  }

  function UnderName(msgs: seq<Message>, name: string, alnum: char -> bool): set<string> {
    set a | a in Agents(msgs) && Shown(a, alnum) == name
  }

  /** The usages shown under some names, added up. */
  function SumShown(msgs: seq<Message>, names: seq<string>, alnum: char -> bool): Usage {
    if names == [] then NOTHING
    else Add(SumShown(msgs, names[..|names| - 1], alnum), TotalShown(msgs, names[|names| - 1], alnum))
  }

  lemma {:induction false} SumShownIsTotal(msgs: seq<Message>, names: seq<string>, alnum: char -> bool)
    requires NoRepeats(names)
    ensures SumShown(msgs, names, alnum) == Total(msgs, Under(msgs, names, alnum))
  {
    hide Total, TotalShown, Agents, Shown, Add;
    if names == [] {
      TotalOfNobody(msgs, {});
      assert Under(msgs, [], alnum) == {};
    } else {
      var n := |names| - 1;
      var init, name := names[..n], names[n];
      var before, here := Under(msgs, init, alnum), UnderName(msgs, name, alnum);
      SumShownIsTotal(msgs, init, alnum);
      assert names == init + [name];
      assert name !in init;
      assert Under(msgs, names, alnum) == before + here;
      assert before !! here;
      TotalOfDisjoint(msgs, before, here);
      TotalUnderName(msgs, name, alnum);
    }
  }

  lemma TotalUnderName(msgs: seq<Message>, name: string, alnum: char -> bool)
    ensures TotalShown(msgs, name, alnum) == Total(msgs, UnderName(msgs, name, alnum))
  {
    hide Total, TotalShown, Shown;
    forall i | 0 <= i < |msgs| ensures msgs[i].agent in UnderName(msgs, name, alnum) <==> Shown(msgs[i].agent, alnum) == name {
      assert msgs[i].agent in Agents(msgs);
    }
    TotalShownIsTotal(msgs, name, alnum, UnderName(msgs, name, alnum));
  }

  /** Summed over all shown names, usage is that of every message there is. */
  lemma AllNamesAreEverything(msgs: seq<Message>, names: seq<string>, alnum: char -> bool)
    requires NoRepeats(names) && forall name :: name in names <==> name in ShownNames(msgs, alnum)
    ensures SumShown(msgs, names, alnum) == GrandTotal(msgs) && GrandTotal(msgs).messages == |msgs|
  {
    hide Total, Agents, Shown, GrandTotal, SumShown;
    SumShownIsTotal(msgs, names, alnum);
    assert Under(msgs, names, alnum) == Agents(msgs) by {
      forall a | a in Agents(msgs) ensures a in Under(msgs, names, alnum) {
        assert Shown(a, alnum) in ShownNames(msgs, alnum);
      }
    }
    GrandTotalIsTotal(msgs, Agents(msgs));
  }

  /** A metric summed over the messages themselves. */
  function SumMetric(msgs: seq<Message>, m: Metric): real {
    if msgs == [] then 0.0 else SumMetric(msgs[..|msgs| - 1], m) + MetricValue(UsageOf(msgs[|msgs| - 1]), m)
  }

  /** A metric summed over the entries written for some names. */
  function SumWritten(metrics: map<string, real>, names: seq<string>, m: Metric): real {
    if names == [] then 0.0
    else
      var key := Key(names[|names| - 1], MetricName(m));
      SumWritten(metrics, names[..|names| - 1], m) + (if key in metrics then metrics[key] else 0.0)
  }

  lemma MetricOfSum(a: Usage, b: Usage, m: Metric)
    ensures MetricValue(Add(a, b), m) == MetricValue(a, m) + MetricValue(b, m)
    ensures MetricValue(NOTHING, m) == 0.0
  {
  }

  lemma {:induction false} SumMetricIsGrandTotal(msgs: seq<Message>, m: Metric)
    ensures SumMetric(msgs, m) == MetricValue(GrandTotal(msgs), m)
  {
    hide MetricValue, Add, UsageOf;
    MetricOfSum(NOTHING, NOTHING, m);
    if msgs != [] {
      SumMetricIsGrandTotal(msgs[..|msgs| - 1], m);
      MetricOfSum(GrandTotal(msgs[..|msgs| - 1]), UsageOf(msgs[|msgs| - 1]), m);
    }
  }

  lemma {:induction false} SumWrittenIsShown(metrics: map<string, real>, names: seq<string>, msgs: seq<Message>,
                                             alnum: char -> bool, m: Metric)
    requires Written(metrics, ShownNames(msgs, alnum), msgs, alnum)
    requires forall name :: name in names ==> name in ShownNames(msgs, alnum)
    ensures SumWritten(metrics, names, m) == MetricValue(SumShown(msgs, names, alnum), m)
  {
    hide MetricValue, MetricName, Key, Add, TotalShown, ShownNames;
    MetricOfSum(NOTHING, NOTHING, m);
    if names != [] {
      var init, name := names[..|names| - 1], names[|names| - 1];
      assert name in names;
      SumWrittenIsShown(metrics, init, msgs, alnum, m);
      MetricOfSum(SumShown(msgs, init, alnum), TotalShown(msgs, name, alnum), m);
      assert metrics[Key(name, MetricName(m))] == MetricValue(TotalShown(msgs, name, alnum), m);
    }
  }

  /** Each of the ten metrics, summed over the entries written for the shown names, is its sum over all
      messages of all captured sessions, however many raw names were merged. */
  lemma EveryMetricIsConserved(metrics: map<string, real>, names: seq<string>, msgs: seq<Message>, alnum: char -> bool, m: Metric)
    requires Written(metrics, ShownNames(msgs, alnum), msgs, alnum)
    requires NoRepeats(names) && forall name :: name in names <==> name in ShownNames(msgs, alnum)
    ensures SumWritten(metrics, names, m) == SumMetric(msgs, m)
  {
    hide Written, ShownNames, SumWritten, SumMetric, SumShown, MetricValue;
    SumWrittenIsShown(metrics, names, msgs, alnum, m);
    AllNamesAreEverything(msgs, names, alnum);
    SumMetricIsGrandTotal(msgs, m);
  }

  function NamesOf(out: seq<AgentUsage>): (names: seq<string>)
    ensures |names| == |out| && forall i :: 0 <= i < |out| ==> names[i] == out[i].name
  {
    seq(|out|, i requires 0 <= i < |out| => out[i].name)
  }

  lemma {:induction false} SumOfIsShown(out: seq<AgentUsage>, msgs: seq<Message>, alnum: char -> bool)
    requires forall i :: 0 <= i < |out| ==> out[i].reading == ReadingOf(TotalShown(msgs, out[i].name, alnum))
    ensures SumOf(out) == ReadingOf(SumShown(msgs, NamesOf(out), alnum))
  {
    hide TotalShown;
    if out != [] {
      var n := |out| - 1;
      SumOfIsShown(out[..n], msgs, alnum);
      assert NamesOf(out)[..n] == NamesOf(out[..n]);
    }
  }

  /** Nothing is lost or counted twice on the way through the keys: summed over the agents read back,
      messages, tool calls, tokens and cost are those of all messages of all captured sessions. */
  lemma UsageIsConserved(metrics: map<string, real>, out: seq<AgentUsage>, msgs: seq<Message>, alnum: char -> bool)
    requires Written(metrics, ShownNames(msgs, alnum), msgs, alnum) && UsagesRead(out, metrics)
    ensures SumOf(out) == ReadingOf(GrandTotal(msgs)) && SumOf(out).messages == |msgs|
  {
    hide Written, TotalShown, ShownNames, GrandTotal, Heavier, AgentsIn, ReadFrom, SumOf, SumShown;
    ReadBack(metrics, out, msgs, alnum);
    SumOfIsShown(out, msgs, alnum);
    var names := NamesOf(out);
    forall name ensures name in names <==> name in ShownNames(msgs, alnum) {
      if i :| 0 <= i < |out| && out[i].name == name {
        assert names[i] == name;
      }
    }
    AllNamesAreEverything(msgs, names, alnum);
  }
}
