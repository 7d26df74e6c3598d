/** An experiment's runs, grouped by arm and task, and what the counters of a group say about its runs. */
module RunGroups {
  import opened Options
  import opened Sorting

  datatype Metric = Metric(key: string, value: Option<real>)
  datatype Drift = Drift(model: string, agent: string, variant: string, version: string, suiteHash: string,
                         taskVersion: string, fixtureSha: string)
  datatype Run = Run(armId: Option<string>, dryRun: bool, taskId: string, status: string, drift: Drift,
                     metrics: seq<Metric>, validations: seq<string>)
  datatype Arm = Arm(id: string, name: string)

  // ---------------------------------------------------------------- one run

  /** The first recorded number under a name. */
  function MetricOf(metrics: seq<Metric>, key: string): Option<real> {
    if metrics == [] then None
    else if metrics[0].key == key && metrics[0].value.Some? then metrics[0].value
    else MetricOf(metrics[1..], key)
  }

  /** `metricValue`. */
  method MetricValue(metrics: seq<Metric>, key: string) returns (r: Option<real>)
    ensures r == MetricOf(metrics, key)
  {
    for i := 0 to |metrics|
      invariant MetricOf(metrics, key) == MetricOf(metrics[i..], key)
    {
      if metrics[i].key == key && metrics[i].value.Some? {
        return metrics[i].value;
      }
    }
    return None;
  }

  predicate Vetoes(status: string) {
    status == "failed" || status == "error" || status == "timeout"
  }

  /** A run solved its task: no validation vetoes it, and its recorded success, or failing that its
      status, says so. */
  predicate Succeeded(run: Run) {
    && (forall i :: 0 <= i < |run.validations| ==> !Vetoes(run.validations[i]))
    && match MetricOf(run.metrics, "success")
       case Some(v) => v >= 0.5
       case None => run.status == "passed"
  }

  /** `runSucceeded`. */
  method RunSucceeded(run: Run) returns (r: bool)
    ensures r == Succeeded(run)
  {
    for i := 0 to |run.validations|
      invariant forall k :: 0 <= k < i ==> !Vetoes(run.validations[k])
    {
      var status := run.validations[i];
      if status == "failed" || status == "error" || status == "timeout" {
        return false;
      }
    }
    var success := MetricValue(run.metrics, "success");
    return match success case Some(v) => v >= 0.5 case None => run.status == "passed";
  }

  // ---------------------------------------------------------------- runs by arm and task

  function LabelOf(arms: seq<Arm>, id: string): Option<string> {
    if arms == [] then None
    else if arms[|arms| - 1].id == id then Some(arms[|arms| - 1].name)
    else LabelOf(arms[..|arms| - 1], id)
  }

  /** The arm a run counts for: none for a dry run or a run of no known arm. */
  function ArmLabel(arms: seq<Arm>, run: Run): Option<string> {
    if run.armId.None? || run.dryRun then None else LabelOf(arms, run.armId.value)
  }

  function Of(runs: seq<Run>, arms: seq<Arm>, name: string, task: string): seq<Run> {
    if runs == [] then []
    else
      var n := |runs| - 1;
      Of(runs[..n], arms, name, task)
      + (if ArmLabel(arms, runs[n]) == Some(name) && runs[n].taskId == task then [runs[n]] else [])
  }

  function OfTask(runs: seq<Run>, arms: seq<Arm>, task: string): seq<Run> {
    if runs == [] then []
    else
      var n := |runs| - 1;
      OfTask(runs[..n], arms, task) + (if ArmLabel(arms, runs[n]).Some? && runs[n].taskId == task then [runs[n]] else [])
  }

  datatype Agg = Agg(executions: nat, successes: nat, costSum: real, costed: nat)

  const NO_RUNS := Agg(0, 0, 0.0, 0)

  function AddRun(agg: Agg, run: Run): Agg {
    var cost := MetricOf(run.metrics, "cost");
    Agg(agg.executions + 1, agg.successes + (if Succeeded(run) then 1 else 0),
        agg.costSum + (if cost.Some? then cost.value else 0.0), agg.costed + (if cost.Some? then 1 else 0))
  }

  function AggOf(runs: seq<Run>): Agg {
    if runs == [] then NO_RUNS else AddRun(AggOf(runs[..|runs| - 1]), runs[|runs| - 1])
  }

  ghost predicate AllSucceed(runs: seq<Run>) {
    forall i :: 0 <= i < |runs| ==> Succeeded(runs[i])
  }

  ghost predicate SomeSucceeds(runs: seq<Run>) {
    exists i :: 0 <= i < |runs| && Succeeded(runs[i])
  }

  ghost predicate AllCosted(runs: seq<Run>) {
    forall i :: 0 <= i < |runs| ==> MetricOf(runs[i].metrics, "cost").Some?
  }

  /** The recorded costs of some runs together, and how many of the runs solved their task. */
  function TotalCost(runs: seq<Run>): real {
    if runs == [] then 0.0
    else
      var cost := MetricOf(runs[|runs| - 1].metrics, "cost");
      TotalCost(runs[..|runs| - 1]) + (match cost case Some(c) => c case None => 0.0)
  }

  function SolvedCount(runs: seq<Run>): nat {
    if runs == [] then 0 else SolvedCount(runs[..|runs| - 1]) + (if Succeeded(runs[|runs| - 1]) then 1 else 0)
  }

  lemma OneMoreRun(runs: seq<Run>, run: Run)
    ensures AllSucceed(runs + [run]) <==> AllSucceed(runs) && Succeeded(run)
    ensures SomeSucceeds(runs + [run]) <==> SomeSucceeds(runs) || Succeeded(run)
    ensures AllCosted(runs + [run]) <==> AllCosted(runs) && MetricOf(run.metrics, "cost").Some?
  {
    hide Succeeded, MetricOf;
    var more := runs + [run];
    assert more[|runs|] == run && forall i :: 0 <= i < |runs| ==> more[i] == runs[i];
    if AllSucceed(more) {
      assert forall i :: 0 <= i < |runs| ==> Succeeded(more[i]);
    }
    if SomeSucceeds(runs) {
      var i :| 0 <= i < |runs| && Succeeded(runs[i]);
      assert Succeeded(more[i]);
    }
    if AllCosted(more) {
      assert forall i :: 0 <= i < |runs| ==> MetricOf(more[i].metrics, "cost").Some?;
    }
  }

  /** What the counters of a group say about its runs. */
  lemma {:induction false} AggCounts(runs: seq<Run>)
    ensures var agg := AggOf(runs);
            && agg.executions == |runs| && agg.successes <= |runs| && agg.costed <= |runs|
            && (agg.successes == |runs| <==> AllSucceed(runs))
            && (agg.successes > 0 <==> SomeSucceeds(runs))
            && (agg.costed == |runs| <==> AllCosted(runs))
  {
    if runs != [] {
      hide Succeeded, MetricOf, AllSucceed, SomeSucceeds, AllCosted;
      var n := |runs| - 1;
      AggCounts(runs[..n]);
      OneMoreRun(runs[..n], runs[n]);
      assert runs == runs[..n] + [runs[n]];
    }
  }

  lemma {:induction false} AggSums(runs: seq<Run>)
    ensures AggOf(runs).successes == SolvedCount(runs) && AggOf(runs).costSum == TotalCost(runs)
  {
    hide Succeeded, MetricOf;
    if runs != [] {
      AggSums(runs[..|runs| - 1]);
    }
  }

  /** The two maps the grouping loop fills. */
  ghost predicate Grouped(grouped: map<(string, string), Agg>, runs: seq<Run>, arms: seq<Arm>) {
    && (forall l, t :: (l, t) in grouped <==> Of(runs, arms, l, t) != [])
    && (forall l, t :: (l, t) in grouped ==> grouped[(l, t)] == AggOf(Of(runs, arms, l, t)))
  }

  ghost predicate ByTask(taskRuns: map<string, seq<Run>>, runs: seq<Run>, arms: seq<Arm>) {
    && (forall t :: t in taskRuns <==> OfTask(runs, arms, t) != [])
    && (forall t :: t in taskRuns ==> taskRuns[t] == OfTask(runs, arms, t))
  }

  lemma OfStep(runs: seq<Run>, arms: seq<Arm>, run: Run, l: string, t: string)
    ensures Of(runs + [run], arms, l, t) ==
            if ArmLabel(arms, run) == Some(l) && run.taskId == t then Of(runs, arms, l, t) + [run] else Of(runs, arms, l, t)
    ensures OfTask(runs + [run], arms, t) ==
            if ArmLabel(arms, run).Some? && run.taskId == t then OfTask(runs, arms, t) + [run] else OfTask(runs, arms, t)
  {
    assert (runs + [run])[..|runs|] == runs;
  }

  lemma AggStep(runs: seq<Run>, run: Run)
    ensures AggOf(runs + [run]) == AddRun(AggOf(runs), run)
  {
    assert (runs + [run])[..|runs|] == runs;
  }

  lemma SkipStep(grouped: map<(string, string), Agg>, taskRuns: map<string, seq<Run>>, runs: seq<Run>, arms: seq<Arm>, run: Run)
    requires Grouped(grouped, runs, arms) && ByTask(taskRuns, runs, arms) && ArmLabel(arms, run).None?
    ensures Grouped(grouped, runs + [run], arms) && ByTask(taskRuns, runs + [run], arms)
  {
    hide Of, OfTask, AggOf, ArmLabel;
    forall l, t ensures Of(runs + [run], arms, l, t) == Of(runs, arms, l, t) {
      OfStep(runs, arms, run, l, t);
    }
    forall t ensures OfTask(runs + [run], arms, t) == OfTask(runs, arms, t) {
      OfStep(runs, arms, run, "", t);
    }
  }

  lemma GroupStep(grouped: map<(string, string), Agg>, runs: seq<Run>, arms: seq<Arm>, run: Run)
    requires Grouped(grouped, runs, arms) && ArmLabel(arms, run).Some?
    ensures var k := (ArmLabel(arms, run).value, run.taskId);
            var agg := if k in grouped then grouped[k] else NO_RUNS;
            Grouped(grouped[k := AddRun(agg, run)], runs + [run], arms)
  {
    hide Of, AggOf, ArmLabel, AddRun;
    var name := ArmLabel(arms, run).value;
    forall l, t ensures Of(runs + [run], arms, l, t) ==
                        if name == l && run.taskId == t then Of(runs, arms, l, t) + [run] else Of(runs, arms, l, t) {
      OfStep(runs, arms, run, l, t);
    }
    AggStep(Of(runs, arms, name, run.taskId), run);
    AggOfNothing();
  }

  lemma ByTaskStep(taskRuns: map<string, seq<Run>>, runs: seq<Run>, arms: seq<Arm>, run: Run)
    requires ByTask(taskRuns, runs, arms) && ArmLabel(arms, run).Some?
    ensures var earlier := if run.taskId in taskRuns then taskRuns[run.taskId] else [];
            ByTask(taskRuns[run.taskId := earlier + [run]], runs + [run], arms)
  {
    hide OfTask, ArmLabel;
    forall t ensures OfTask(runs + [run], arms, t) ==
                     if run.taskId == t then OfTask(runs, arms, t) + [run] else OfTask(runs, arms, t) {
      OfStep(runs, arms, run, "", t);
    }
  }

  lemma AggOfNothing()
    ensures AggOf([]) == NO_RUNS
  {
  }

  method LabelByArm(arms: seq<Arm>) returns (byArm: map<string, string>)
    ensures forall id :: id in byArm <==> LabelOf(arms, id).Some?
    ensures forall id :: id in byArm ==> LabelOf(arms, id) == Some(byArm[id])
  {
    byArm := map[];
    for i := 0 to |arms|
      invariant forall id :: id in byArm <==> LabelOf(arms[..i], id).Some?
      invariant forall id :: id in byArm ==> LabelOf(arms[..i], id) == Some(byArm[id])
    {
      assert arms[..i + 1][..i] == arms[..i];
      byArm := byArm[arms[i].id := arms[i].name];
    }
    assert arms[..|arms|] == arms;
  }

  /** The grouping loop of `Summarize`. */
  method Group(runs: seq<Run>, arms: seq<Arm>)
    returns (grouped: map<(string, string), Agg>, taskRuns: map<string, seq<Run>>)
    ensures Grouped(grouped, runs, arms) && ByTask(taskRuns, runs, arms)
  {
    hide Grouped, ByTask, LabelOf, Succeeded, MetricOf;
    var labelByArm := LabelByArm(arms);
    grouped, taskRuns := map[], map[];
    GroupedNothing(arms);
    for i := 0 to |runs|
      invariant Grouped(grouped, runs[..i], arms) && ByTask(taskRuns, runs[..i], arms)
    {
      var run := runs[i];
      assert runs[..i + 1] == runs[..i] + [run];
      if run.armId.None? || run.dryRun {
        SkipStep(grouped, taskRuns, runs[..i], arms, run);
        continue;
      }
      if run.armId.value !in labelByArm {
        SkipStep(grouped, taskRuns, runs[..i], arms, run);
        continue;
      }
      GroupStep(grouped, runs[..i], arms, run);
      ByTaskStep(taskRuns, runs[..i], arms, run);
      var k := (labelByArm[run.armId.value], run.taskId);
      var agg := if k in grouped then grouped[k] else NO_RUNS;
      var solved := RunSucceeded(run);
      var cost := MetricValue(run.metrics, "cost");
      agg := agg.(executions := agg.executions + 1);
      if solved {
        agg := agg.(successes := agg.successes + 1);
      }
      if cost.Some? {
        agg := agg.(costSum := agg.costSum + cost.value, costed := agg.costed + 1);
      }
      grouped := grouped[k := agg];
      var earlier := if run.taskId in taskRuns then taskRuns[run.taskId] else [];
      taskRuns := taskRuns[run.taskId := earlier + [run]];
    }
    assert runs[..|runs|] == runs;
  }

  lemma GroupedNothing(arms: seq<Arm>)
    ensures Grouped(map[], [], arms) && ByTask(map[], [], arms)
  {
  }
}
