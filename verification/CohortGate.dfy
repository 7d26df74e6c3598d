/** When an experiment may rank its configurations by cost: drift and repeat guards, cost figures, the
    eligibility of each arm and the gate, against a reading of the raw runs alone. */
module CohortGate {
  import opened Medians
  import opened Options
  import opened Sorting
  import opened RunGroups

  const RANKABLE_REPEATS := 3

  // ---------------------------------------------------------------- what the raw runs say

  /** Some run counts for the task. */
  ghost predicate Observed(runs: seq<Run>, arms: seq<Arm>, t: string) {
    OfTask(runs, arms, t) != []
  }

  ghost predicate IsTaskList(taskIds: seq<string>, runs: seq<Run>, arms: seq<Arm>) {
    NoRepeats(taskIds) && forall t :: t in taskIds <==> Observed(runs, arms, t)
  }

  /** The declared tasks if any is named, else every observed one. */
  ghost predicate Chosen(declared: seq<string>, runs: seq<Run>, arms: seq<Arm>, t: string) {
    if exists i :: 0 <= i < |declared| && declared[i] != "" then t in declared && t != ""
    else Observed(runs, arms, t)
  }

  /** All runs agree on the seven fields a comparison depends on. */
  ghost predicate Agree(runs: seq<Run>) {
    forall i, j :: 0 <= i < |runs| && 0 <= j < |runs| ==> runs[i].drift == runs[j].drift
  }

  /** Some task of the arm was solved and has a cost for each of its runs. */
  ghost predicate HasCost(runs: seq<Run>, arms: seq<Arm>, l: string) {
    exists t :: SolvedAndCosted(Of(runs, arms, l, t))
  }

  ghost predicate SolvedAndCosted(runs: seq<Run>) {
    SomeSucceeds(runs) && AllCosted(runs)
  }

  datatype Gate = NeedTwoArms | NoRuns | MissingTask | Incompatible | TooFewRuns | NoCost | NotAllPassed | Rankable

  /** The reason for not ranking, or that there is none, read off the raw runs. */
  ghost function RawGate(arms: seq<Arm>, runs: seq<Run>, declared: seq<string>): Gate {
    if |arms| < 2 then NeedTwoArms
    else if forall t :: !Observed(runs, arms, t) then NoRuns
    else if exists t :: Chosen(declared, runs, arms, t) && !Observed(runs, arms, t) then MissingTask
    else if exists t :: Observed(runs, arms, t) && !Agree(OfTask(runs, arms, t)) then Incompatible
    else if exists t, i :: 0 <= i < |arms| && Observed(runs, arms, t)
                           && |Of(runs, arms, arms[i].name, t)| < RANKABLE_REPEATS then TooFewRuns
    else if exists i :: 0 <= i < |arms| && !HasCost(runs, arms, arms[i].name) then NoCost
    else if exists t, i :: 0 <= i < |arms| && Chosen(declared, runs, arms, t)
                           && !AllSucceed(Of(runs, arms, arms[i].name, t)) then NotAllPassed
    else Rankable
  }

  lemma {:induction false} OfIsOfTask(runs: seq<Run>, arms: seq<Arm>, l: string, t: string)
    ensures Of(runs, arms, l, t) != [] ==> Observed(runs, arms, t)
  {
    if runs != [] {
      OfIsOfTask(runs[..|runs| - 1], arms, l, t);
    }
  }

  // ---------------------------------------------------------------- drift

  const DRIFT_FIELDS := 7

  function FieldOf(d: Drift, k: int): string
    requires 0 <= k < DRIFT_FIELDS
  {
    if k == 0 then d.model
    else if k == 1 then d.agent
    else if k == 2 then d.variant
    else if k == 3 then d.version
    else if k == 4 then d.suiteHash
    else if k == 5 then d.taskVersion
    else d.fixtureSha
  }

  ghost predicate AgreeOn(runs: seq<Run>, k: int)
    requires 0 <= k < DRIFT_FIELDS
  {
    forall i, j :: 0 <= i < |runs| && 0 <= j < |runs| ==> FieldOf(runs[i].drift, k) == FieldOf(runs[j].drift, k)
  }

  /** Which field each of the seven positions compares. */
  lemma FieldsCompared(a: Drift, b: Drift)
    ensures FieldOf(a, 0) == FieldOf(b, 0) <==> a.model == b.model
    ensures FieldOf(a, 1) == FieldOf(b, 1) <==> a.agent == b.agent
    ensures FieldOf(a, 2) == FieldOf(b, 2) <==> a.variant == b.variant
    ensures FieldOf(a, 3) == FieldOf(b, 3) <==> a.version == b.version
    ensures FieldOf(a, 4) == FieldOf(b, 4) <==> a.suiteHash == b.suiteHash
    ensures FieldOf(a, 5) == FieldOf(b, 5) <==> a.taskVersion == b.taskVersion
    ensures FieldOf(a, 6) == FieldOf(b, 6) <==> a.fixtureSha == b.fixtureSha
  {
  }

  lemma AgreeIsOnEveryField(runs: seq<Run>)
    ensures Agree(runs) <==> forall k :: 0 <= k < DRIFT_FIELDS ==> AgreeOn(runs, k)
  {
    if forall k :: 0 <= k < DRIFT_FIELDS ==> AgreeOn(runs, k) {
      forall i, j | 0 <= i < |runs| && 0 <= j < |runs| ensures runs[i].drift == runs[j].drift {
        SameFields(runs[i].drift, runs[j].drift, runs, i, j);
      }
    }
  }

  lemma SameFields(a: Drift, b: Drift, runs: seq<Run>, i: int, j: int)
    requires 0 <= i < |runs| && 0 <= j < |runs| && a == runs[i].drift && b == runs[j].drift
    requires forall k :: 0 <= k < DRIFT_FIELDS ==> AgreeOn(runs, k)
    ensures a == b
  {
    assert AgreeOn(runs, 0) && AgreeOn(runs, 1) && AgreeOn(runs, 2) && AgreeOn(runs, 3);
    assert AgreeOn(runs, 4) && AgreeOn(runs, 5) && AgreeOn(runs, 6);
  }

  function Values(runs: seq<Run>, k: int): set<string>
    requires 0 <= k < DRIFT_FIELDS
  {
    set i | 0 <= i < |runs| :: FieldOf(runs[i].drift, k)
  }

  lemma FewValuesAgree(runs: seq<Run>, k: int)
    requires 0 <= k < DRIFT_FIELDS
    ensures |Values(runs, k)| < 2 <==> AgreeOn(runs, k)
  {
    hide FieldOf;
    var values := Values(runs, k);
    if AgreeOn(runs, k) {
      if runs != [] {
        assert values == {FieldOf(runs[0].drift, k)};
      } else {
        assert values == {};
      }
    } else {
      var i, j :| 0 <= i < |runs| && 0 <= j < |runs| && FieldOf(runs[i].drift, k) != FieldOf(runs[j].drift, k);
      var pair := {FieldOf(runs[i].drift, k), FieldOf(runs[j].drift, k)};
      assert pair <= values;
      assert values == pair + (values - pair);
      assert |values| == |pair| + |values - pair|;
    }
  }

  method ValuesSeen(runs: seq<Run>, k: int) returns (seen: set<string>)
    requires 0 <= k < DRIFT_FIELDS
    ensures seen == Values(runs, k)
  {
    seen := {};
    for i := 0 to |runs|
      invariant seen == Values(runs[..i], k)
    {
      assert runs[..i + 1] == runs[..i] + [runs[i]];
      assert Values(runs[..i + 1], k) == Values(runs[..i], k) + {FieldOf(runs[i].drift, k)} by {
        ValuesStep(runs[..i], runs[i], k);
      }
      seen := seen + {FieldOf(runs[i].drift, k)};
    }
    assert runs[..|runs|] == runs;
  }

  lemma ValuesStep(runs: seq<Run>, run: Run, k: int)
    requires 0 <= k < DRIFT_FIELDS
    ensures Values(runs + [run], k) == Values(runs, k) + {FieldOf(run.drift, k)}
  {
    hide FieldOf;
    var more := runs + [run];
    assert more[|runs|] == run;
    forall v | v in Values(runs, k) ensures v in Values(more, k) {
      var i :| 0 <= i < |runs| && FieldOf(runs[i].drift, k) == v;
      assert more[i] == runs[i];
    }
  }

  /** `driftWarnings`: the task and field of each warning, and whether there is any. */
  method DriftWarnings(taskIds: seq<string>, taskRuns: map<string, seq<Run>>)
    returns (warnings: seq<(string, int)>, suppressed: bool)
    requires forall t :: t in taskIds ==> t in taskRuns
    ensures suppressed <==> exists i :: 0 <= i < |taskIds| && !Agree(taskRuns[taskIds[i]])
    ensures forall w :: w in warnings ==> w.0 in taskIds && 0 <= w.1 < DRIFT_FIELDS && !AgreeOn(taskRuns[w.0], w.1)
    ensures forall i, k :: 0 <= i < |taskIds| && 0 <= k < DRIFT_FIELDS && !AgreeOn(taskRuns[taskIds[i]], k) ==>
              (taskIds[i], k) in warnings
  {
    hide AgreeOn, Agree, Values;
    warnings := [];
    for i := 0 to |taskIds|
      invariant forall w :: w in warnings ==> w.0 in taskIds[..i] && 0 <= w.1 < DRIFT_FIELDS && !AgreeOn(taskRuns[w.0], w.1)
      invariant forall h, k :: 0 <= h < i && 0 <= k < DRIFT_FIELDS && !AgreeOn(taskRuns[taskIds[h]], k) ==>
                  (taskIds[h], k) in warnings
    {
      for k := 0 to DRIFT_FIELDS
        invariant forall w :: w in warnings ==>
                    w.0 in taskIds[..i + 1] && 0 <= w.1 < DRIFT_FIELDS && !AgreeOn(taskRuns[w.0], w.1)
        invariant forall h, j :: 0 <= h < i && 0 <= j < DRIFT_FIELDS && !AgreeOn(taskRuns[taskIds[h]], j) ==>
                    (taskIds[h], j) in warnings
        invariant forall j :: 0 <= j < k && !AgreeOn(taskRuns[taskIds[i]], j) ==> (taskIds[i], j) in warnings
      {
        var seen := ValuesSeen(taskRuns[taskIds[i]], k);
        FewValuesAgree(taskRuns[taskIds[i]], k);
        if |seen| < 2 {
          continue;
        }
        warnings := warnings + [(taskIds[i], k)];
      }
    }
    suppressed := |warnings| > 0;
    forall i | 0 <= i < |taskIds| ensures Agree(taskRuns[taskIds[i]]) <==> forall k :: 0 <= k < DRIFT_FIELDS ==> AgreeOn(taskRuns[taskIds[i]], k) {
      AgreeIsOnEveryField(taskRuns[taskIds[i]]);
    }
    if suppressed {
      var w := warnings[0];
      assert w in warnings;
    }
  }

  // ---------------------------------------------------------------- cost per solved task

  /** Total cost over successes, for a group that solved its task and recorded all its costs. */
  function SolvedCost(agg: Agg): Option<real> {
    if agg.successes == 0 || agg.costed != agg.executions then None
    else Some(agg.costSum / agg.successes as real)
  }

  /** The arm's costs over the tasks that have one. */
  function Costs(taskIds: seq<string>, runs: seq<Run>, arms: seq<Arm>, l: string): seq<real> {
    if taskIds == [] then []
    else
      var n := |taskIds| - 1;
      var cost := SolvedCost(AggOf(Of(runs, arms, l, taskIds[n])));
      Costs(taskIds[..n], runs, arms, l) + (if cost.Some? then [cost.value] else [])
  }

  function CostFigure(taskIds: seq<string>, runs: seq<Run>, arms: seq<Arm>, l: string): Option<real> {
    var costs := Costs(taskIds, runs, arms, l);
    if costs == [] then None else Some(Median(costs))
  }

  lemma SolvedCostIff(runs: seq<Run>)
    ensures SolvedCost(AggOf(runs)).Some? <==> SolvedAndCosted(runs)
  {
    AggCounts(runs);
  }

  /** What a solved and fully costed task costs per solution. */
  lemma SolvedCostIs(runs: seq<Run>)
    requires SolvedAndCosted(runs)
    ensures SolvedCount(runs) > 0 && SolvedCost(AggOf(runs)) == Some(TotalCost(runs) / SolvedCount(runs) as real)
  {
    hide AggOf, SolvedAndCosted, SolvedCount, TotalCost;
    AggSums(runs);
    SolvedCostIff(runs);
  }

  lemma {:induction false} SomeCost(taskIds: seq<string>, runs: seq<Run>, arms: seq<Arm>, l: string)
    ensures Costs(taskIds, runs, arms, l) != [] <==>
            exists i :: 0 <= i < |taskIds| && SolvedAndCosted(Of(runs, arms, l, taskIds[i]))
  {
    hide Of, SolvedCost, SolvedAndCosted;
    if taskIds != [] {
      var n := |taskIds| - 1;
      SomeCost(taskIds[..n], runs, arms, l);
      SolvedCostIff(Of(runs, arms, l, taskIds[n]));
      if i :| 0 <= i < n && SolvedAndCosted(Of(runs, arms, l, taskIds[..n][i])) {
        assert taskIds[i] == taskIds[..n][i];
      }
      if i :| 0 <= i < n && SolvedAndCosted(Of(runs, arms, l, taskIds[i])) {
        assert taskIds[i] == taskIds[..n][i];
      }
    }
  }

  /** The arm has a cost figure exactly when some task of it was solved with all its costs recorded: one
      task is enough, the others need not have any. */
  lemma CostFigureIff(taskIds: seq<string>, runs: seq<Run>, arms: seq<Arm>, l: string)
    requires IsTaskList(taskIds, runs, arms)
    ensures CostFigure(taskIds, runs, arms, l).Some? <==> HasCost(runs, arms, l)
  {
    hide Of, Median, Costs;
    SomeCost(taskIds, runs, arms, l);
    if HasCost(runs, arms, l) {
      var t :| SolvedAndCosted(Of(runs, arms, l, t));
      OfIsOfTask(runs, arms, l, t);
      assert t in taskIds;
    }
  }

  // ---------------------------------------------------------------- the summary

  datatype Summary = Summary(taskIds: seq<string>, grouped: map<(string, string), Agg>, costPerSolved: map<string, real>,
                             suppressed: bool, insufficient: bool)

  ghost predicate CostsKnown(costPerSolved: map<string, real>, taskIds: seq<string>, runs: seq<Run>, arms: seq<Arm>) {
    forall i :: 0 <= i < |arms| ==>
      var l := arms[i].name;
      && (l in costPerSolved <==> CostFigure(taskIds, runs, arms, l).Some?)
      && (l in costPerSolved ==> costPerSolved[l] == CostFigure(taskIds, runs, arms, l).value)
  }

  ghost predicate Summarizes(s: Summary, runs: seq<Run>, arms: seq<Arm>) {
    && IsTaskList(s.taskIds, runs, arms) && Grouped(s.grouped, runs, arms)
    && CostsKnown(s.costPerSolved, s.taskIds, runs, arms)
    && (s.suppressed <==> exists t :: Observed(runs, arms, t) && !Agree(OfTask(runs, arms, t)))
    && (s.insufficient <==>
          || (arms != [] && s.taskIds == [])
          || exists t, i :: 0 <= i < |arms| && Observed(runs, arms, t)
                            && |Of(runs, arms, arms[i].name, t)| < RANKABLE_REPEATS)
  }

  method KeysOf(taskRuns: map<string, seq<Run>>) returns (keys: seq<string>)
    ensures NoRepeats(keys) && forall t :: t in keys <==> t in taskRuns
  {
    keys := [];
    var todo := taskRuns.Keys;
    while todo != {}
      invariant todo <= taskRuns.Keys && NoRepeats(keys)
      invariant forall t :: t in keys <==> t in taskRuns && t !in todo
      decreases |todo|
    {
      var t :| t in todo;
      keys := keys + [t];
      todo := todo - {t};
    }
  }

  method CostsPerSolved(arms: seq<Arm>, taskIds: seq<string>, grouped: map<(string, string), Agg>, ghost runs: seq<Run>)
    returns (costPerSolved: map<string, real>)
    requires Grouped(grouped, runs, arms)
    ensures CostsKnown(costPerSolved, taskIds, runs, arms)
  {
    hide Of, Median, AggOf;
    costPerSolved := map[];
    for i := 0 to |arms|
      invariant forall k :: 0 <= k < i ==>
                  var l := arms[k].name;
                  && (l in costPerSolved <==> CostFigure(taskIds, runs, arms, l).Some?)
                  && (l in costPerSolved ==> costPerSolved[l] == CostFigure(taskIds, runs, arms, l).value)
      invariant forall l :: l in costPerSolved ==> CostFigure(taskIds, runs, arms, l) == Some(costPerSolved[l])
    {
      var l := arms[i].name;
      var vals: seq<real> := [];
      for j := 0 to |taskIds|
        invariant vals == Costs(taskIds[..j], runs, arms, l)
      {
        assert taskIds[..j + 1][..j] == taskIds[..j];
        assert AggOf([]) == NO_RUNS by {
          AggOfNothing();
        }
        assert vals + [] == vals;
        if (l, taskIds[j]) !in grouped {
          continue;
        }
        var agg := grouped[(l, taskIds[j])];
        assert agg == AggOf(Of(runs, arms, l, taskIds[j]));
        if agg.successes == 0 || agg.costed != agg.executions {
          continue;
        }
        vals := vals + [agg.costSum / agg.successes as real];
      }
      assert taskIds[..|taskIds|] == taskIds;
      if |vals| > 0 {
        costPerSolved := costPerSolved[l := Median(vals)];
      }
    }
  }

  /** `insufficientData`. */
  method InsufficientData(arms: seq<Arm>, taskIds: seq<string>, grouped: map<(string, string), Agg>, ghost runs: seq<Run>)
    returns (r: bool)
    requires Grouped(grouped, runs, arms)
    ensures r <==> || (arms != [] && taskIds == [])
                   || exists j, i :: 0 <= i < |arms| && 0 <= j < |taskIds|
                                     && |Of(runs, arms, arms[i].name, taskIds[j])| < RANKABLE_REPEATS
  {
    hide Of, AggOf;
    if |arms| > 0 && |taskIds| == 0 {
      return true;
    }
    for j := 0 to |taskIds|
      invariant forall h, i :: 0 <= i < |arms| && 0 <= h < j ==>
                  |Of(runs, arms, arms[i].name, taskIds[h])| >= RANKABLE_REPEATS
    {
      for i := 0 to |arms|
        invariant forall k :: 0 <= k < i ==> |Of(runs, arms, arms[k].name, taskIds[j])| >= RANKABLE_REPEATS
      {
        var k := (arms[i].name, taskIds[j]);
        var executions := if k in grouped then grouped[k].executions else 0;
        AggCounts(Of(runs, arms, arms[i].name, taskIds[j]));
        if executions < 3 {
          return true;
        }
      }
    }
    return false;
  }

  lemma TasksListed(taskIds: seq<string>, taskRuns: map<string, seq<Run>>, runs: seq<Run>, arms: seq<Arm>)
    requires NoRepeats(taskIds) && ByTask(taskRuns, runs, arms)
    requires forall t :: t in taskIds <==> t in taskRuns
    ensures IsTaskList(taskIds, runs, arms)
    ensures (exists i :: 0 <= i < |taskIds| && !Agree(taskRuns[taskIds[i]])) <==>
            (exists t :: Observed(runs, arms, t) && !Agree(OfTask(runs, arms, t)))
  {
    hide OfTask, Agree;
    if i :| 0 <= i < |taskIds| && !Agree(taskRuns[taskIds[i]]) {
      assert Observed(runs, arms, taskIds[i]);
    }
    if t :| Observed(runs, arms, t) && !Agree(OfTask(runs, arms, t)) {
      assert t in taskIds;
    }
  }

  lemma PairsListed(taskIds: seq<string>, runs: seq<Run>, arms: seq<Arm>)
    requires IsTaskList(taskIds, runs, arms)
    ensures (exists j, i :: 0 <= i < |arms| && 0 <= j < |taskIds|
                            && |Of(runs, arms, arms[i].name, taskIds[j])| < RANKABLE_REPEATS) <==>
            (exists t, i :: 0 <= i < |arms| && Observed(runs, arms, t)
                            && |Of(runs, arms, arms[i].name, t)| < RANKABLE_REPEATS)
  {
    hide Of, Observed;
    if j, i :| 0 <= i < |arms| && 0 <= j < |taskIds| && |Of(runs, arms, arms[i].name, taskIds[j])| < RANKABLE_REPEATS {
      assert Observed(runs, arms, taskIds[j]);
    }
    if t, i :| 0 <= i < |arms| && Observed(runs, arms, t) && |Of(runs, arms, arms[i].name, t)| < RANKABLE_REPEATS {
      assert t in taskIds;
    }
  }

  /** `Summarize`, as far as the gate reads it. */
  method Summarize(arms: seq<Arm>, runs: seq<Run>) returns (s: Summary)
    ensures Summarizes(s, runs, arms)
  {
    hide Of, OfTask, Grouped, CostsKnown, Agree, AgreeOn, IsTaskList, Observed;
    var grouped, taskRuns := Group(runs, arms);
    var keys := KeysOf(taskRuns);
    var taskIds := Sort(keys, StrLe);
    SortKeeps(keys, StrLe);
    PermutationKeepsNoRepeats(keys, taskIds);
    forall t ensures t in taskIds <==> t in taskRuns {
      assert t in taskIds <==> t in multiset(taskIds);
      assert t in keys <==> t in multiset(keys);
    }
    TasksListed(taskIds, taskRuns, runs, arms);
    PairsListed(taskIds, runs, arms);
    var costPerSolved := CostsPerSolved(arms, taskIds, grouped, runs);
    var warnings, suppressed := DriftWarnings(taskIds, taskRuns);
    var insufficient := InsufficientData(arms, taskIds, grouped, runs);
    s := Summary(taskIds, grouped, costPerSolved, suppressed, insufficient);
  }

  // ---------------------------------------------------------------- the cohort

  /** `cohortTaskIDs`: the declared tasks without empty names and repetitions, else the observed ones. */
  method CohortTaskIds(declared: seq<string>, taskIds: seq<string>, runs: seq<Run>, arms: seq<Arm>) returns (out: seq<string>)
    requires IsTaskList(taskIds, runs, arms)
    ensures NoRepeats(out) && forall t :: t in out <==> Chosen(declared, runs, arms, t)
  {
    hide Observed;
    out := [];
    if |declared| > 0 {
      for i := 0 to |declared|
        invariant NoRepeats(out)
        invariant forall t :: t in out <==> t != "" && t in declared[..i]
      {
        assert declared[..i + 1] == declared[..i] + [declared[i]];
        if declared[i] != "" && declared[i] !in out {
          out := out + [declared[i]];
        }
      }
      assert declared[..|declared|] == declared;
      if |out| > 0 {
        assert out[0] in out;
        return;
      }
      assert forall i :: 0 <= i < |declared| && declared[i] != "" ==> declared[i] in out;
    }
    out := taskIds;
  }

  datatype CohortArm = CohortArm(name: string, taskCount: int, runs: int, minRepeats: int, cost: Option<real>, eligible: bool)

  /** How many of the tasks the arm ran, and how often in all. */
  function Present(tasks: seq<string>, runs: seq<Run>, arms: seq<Arm>, l: string): nat {
    if tasks == [] then 0
    else
      var n := |tasks| - 1;
      Present(tasks[..n], runs, arms, l) + (if Of(runs, arms, l, tasks[n]) != [] then 1 else 0)
  }

  function RunCount(tasks: seq<string>, runs: seq<Run>, arms: seq<Arm>, l: string): nat {
    if tasks == [] then 0
    else
      var n := |tasks| - 1;
      RunCount(tasks[..n], runs, arms, l) + |Of(runs, arms, l, tasks[n])|
  }

  lemma {:induction false} PresentBound(tasks: seq<string>, runs: seq<Run>, arms: seq<Arm>, l: string)
    ensures Present(tasks, runs, arms, l) <= |tasks|
    ensures Present(tasks, runs, arms, l) == |tasks| <==> forall k :: 0 <= k < |tasks| ==> Of(runs, arms, l, tasks[k]) != []
    ensures Present(tasks, runs, arms, l) == 0 <==> forall k :: 0 <= k < |tasks| ==> Of(runs, arms, l, tasks[k]) == []
  {
    hide Of;
    if tasks != [] {
      var n := |tasks| - 1;
      PresentBound(tasks[..n], runs, arms, l);
      assert forall k :: 0 <= k < n ==> tasks[..n][k] == tasks[k];
    }
  }

  /** The arm may be ranked: every chosen task run at least three times, every run a success, and a cost. */
  ghost predicate EligibleArm(tasks: seq<string>, runs: seq<Run>, arms: seq<Arm>, l: string) {
    && tasks != [] && HasCost(runs, arms, l)
    && forall k :: 0 <= k < |tasks| ==>
         |Of(runs, arms, l, tasks[k])| >= RANKABLE_REPEATS && AllSucceed(Of(runs, arms, l, tasks[k]))
  }

  /** What the cohort reports of an arm. */
  ghost predicate Describes(item: CohortArm, l: string, tasks: seq<string>, taskIds: seq<string>, runs: seq<Run>, arms: seq<Arm>) {
    && item.name == l
    && item.taskCount == Present(tasks, runs, arms, l)
    && item.runs == RunCount(tasks, runs, arms, l)
    && IsLeastRepeats(item.minRepeats, tasks, runs, arms, l)
    && item.cost == CostFigure(taskIds, runs, arms, l)
    && (item.eligible <==> EligibleArm(tasks, runs, arms, l))
  }

  /** The least number of runs of any task the arm ran, or 0. */
  ghost predicate IsLeastRepeats(m: int, tasks: seq<string>, runs: seq<Run>, arms: seq<Arm>, l: string) {
    && (forall k :: 0 <= k < |tasks| && Of(runs, arms, l, tasks[k]) != [] ==> m <= |Of(runs, arms, l, tasks[k])|)
    && if Present(tasks, runs, arms, l) == 0 then m == 0
       else exists k :: 0 <= k < |tasks| && Of(runs, arms, l, tasks[k]) != [] && m == |Of(runs, arms, l, tasks[k])|
  }

  lemma LeastRepeatsStep(m: int, tasks: seq<string>, i: nat, runs: seq<Run>, arms: seq<Arm>, l: string)
    requires i < |tasks| && IsLeastRepeats(m, tasks[..i], runs, arms, l)
    ensures var n := |Of(runs, arms, l, tasks[i])|;
            var first := Present(tasks[..i], runs, arms, l) == 0;
            IsLeastRepeats(if n == 0 then m else if first || n < m then n else m, tasks[..i + 1], runs, arms, l)
  {
    hide Of;
    var before, after := tasks[..i], tasks[..i + 1];
    assert after[..i] == before && after[i] == tasks[i];
    assert forall k :: 0 <= k < i ==> after[k] == before[k];
    PresentBound(before, runs, arms, l);
    var n := |Of(runs, arms, l, tasks[i])|;
    if n > 0 {
      assert Of(runs, arms, l, after[i]) != [];
    }
    if Present(before, runs, arms, l) > 0 {
      var k :| 0 <= k < |before| && Of(runs, arms, l, before[k]) != [] && m == |Of(runs, arms, l, before[k])|;
      assert Of(runs, arms, l, after[k]) != [] && m == |Of(runs, arms, l, after[k])|;
    }
  }

  method ArmItem(l: string, tasks: seq<string>, s: Summary, ghost runs: seq<Run>, ghost arms: seq<Arm>) returns (item: CohortArm)
    requires Summarizes(s, runs, arms) && exists i :: 0 <= i < |arms| && arms[i].name == l
    ensures Describes(item, l, tasks, s.taskIds, runs, arms)
  {
    hide Of, AggOf, CostFigure, IsLeastRepeats, AllSucceed, IsTaskList, HasCost, Agree;
    var taskCount, count, minRepeats, allPassed := 0, 0, 0, true;
    LeastOfNone(runs, arms, l);
    for i := 0 to |tasks|
      invariant taskCount == Present(tasks[..i], runs, arms, l)
      invariant count == RunCount(tasks[..i], runs, arms, l)
      invariant IsLeastRepeats(minRepeats, tasks[..i], runs, arms, l)
      invariant allPassed <==> forall k :: 0 <= k < i ==>
                  Of(runs, arms, l, tasks[k]) != [] && AllSucceed(Of(runs, arms, l, tasks[k]))
    {
      assert tasks[..i + 1][..i] == tasks[..i];
      ghost var group := Of(runs, arms, l, tasks[i]);
      LeastRepeatsStep(minRepeats, tasks, i, runs, arms, l);
      AggCounts(group);
      if tasks[i] !in s.taskIds {
        NotObserved(s.taskIds, runs, arms, l, tasks[i]);
        allPassed := false;
        continue;
      }
      if (l, tasks[i]) !in s.grouped {
        allPassed := false;
        continue;
      }
      var stats := s.grouped[(l, tasks[i])];
      taskCount := taskCount + 1;
      count := count + stats.executions;
      if taskCount == 1 || stats.executions < minRepeats {
        minRepeats := stats.executions;
      }
      if stats.executions == 0 || stats.successes != stats.executions {
        allPassed := false;
      }
    }
    assert tasks[..|tasks|] == tasks;
    var cost := if l in s.costPerSolved then Some(s.costPerSolved[l]) else None;
    item := CohortArm(l, taskCount, count, minRepeats, cost,
                      taskCount == |tasks| && minRepeats >= RANKABLE_REPEATS && allPassed && cost.Some?);
    CostFigureIff(s.taskIds, runs, arms, l);
    ItemEligible(item.taskCount, item.minRepeats, tasks, runs, arms, l);
  }

  lemma LeastOfNone(runs: seq<Run>, arms: seq<Arm>, l: string)
    ensures IsLeastRepeats(0, [], runs, arms, l)
  {
  }

  lemma NotObserved(taskIds: seq<string>, runs: seq<Run>, arms: seq<Arm>, l: string, t: string)
    requires IsTaskList(taskIds, runs, arms) && t !in taskIds
    ensures Of(runs, arms, l, t) == []
  {
    OfIsOfTask(runs, arms, l, t);
  }

  /** The two counters together say that every chosen task was run often enough. */
  lemma ItemEligible(taskCount: int, minRepeats: int, tasks: seq<string>, runs: seq<Run>, arms: seq<Arm>, l: string)
    requires taskCount == Present(tasks, runs, arms, l) && IsLeastRepeats(minRepeats, tasks, runs, arms, l)
    ensures taskCount == |tasks| && minRepeats >= RANKABLE_REPEATS <==>
            tasks != [] && forall k :: 0 <= k < |tasks| ==> |Of(runs, arms, l, tasks[k])| >= RANKABLE_REPEATS
  {
    hide Of, Present;
    PresentBound(tasks, runs, arms, l);
  }

  /** The cohort's order: eligible arms first and by cost, the others by name. */
  predicate Precedes(a: CohortArm, b: CohortArm) {
    if a.eligible != b.eligible then a.eligible
    else if a.eligible && CostOf(a) != CostOf(b) then CostOf(a) < CostOf(b)
    else StrLe(a.name, b.name)
  }

  /** A missing cost reads as zero, as the field does. */
  function CostOf(a: CohortArm): real {
    if a.cost.Some? then a.cost.value else 0.0
  }

  lemma PrecedesIsPreorder()
    ensures TotalPreorder(Precedes)
  {
    StrLeIsOrder();
  }

  ghost predicate Described(items: seq<CohortArm>, tasks: seq<string>, taskIds: seq<string>, runs: seq<Run>, arms: seq<Arm>) {
    |items| == |arms| && forall k :: 0 <= k < |arms| ==> Describes(items[k], arms[k].name, tasks, taskIds, runs, arms)
  }

  ghost predicate ChosenList(tasks: seq<string>, declared: seq<string>, runs: seq<Run>, arms: seq<Arm>) {
    forall t :: t in tasks <==> Chosen(declared, runs, arms, t)
  }

  lemma MissingIsRaw(arms: seq<Arm>, runs: seq<Run>, declared: seq<string>, taskIds: seq<string>, tasks: seq<string>)
    requires IsTaskList(taskIds, runs, arms) && ChosenList(tasks, declared, runs, arms)
    ensures taskIds == [] <==> forall t :: !Observed(runs, arms, t)
    ensures (exists k :: 0 <= k < |tasks| && tasks[k] !in taskIds) <==>
            exists t :: Chosen(declared, runs, arms, t) && !Observed(runs, arms, t)
    ensures taskIds != [] ==> tasks != []
  {
    hide Observed;
    if taskIds != [] {
      assert taskIds[0] in taskIds;
      if i :| 0 <= i < |declared| && declared[i] != "" {
        assert declared[i] in tasks;
      } else {
        assert taskIds[0] in tasks;
      }
    }
    if k :| 0 <= k < |tasks| && tasks[k] !in taskIds {
      assert tasks[k] in tasks;
      assert Chosen(declared, runs, arms, tasks[k]) && !Observed(runs, arms, tasks[k]);
    }
    if t :| Chosen(declared, runs, arms, t) && !Observed(runs, arms, t) {
      assert t in tasks;
    }
  }

  lemma CostMissingIsRaw(arms: seq<Arm>, runs: seq<Run>, taskIds: seq<string>, tasks: seq<string>, items: seq<CohortArm>)
    requires IsTaskList(taskIds, runs, arms) && Described(items, tasks, taskIds, runs, arms)
    ensures (exists k :: 0 <= k < |items| && items[k].cost.None?) <==>
            exists i :: 0 <= i < |arms| && !HasCost(runs, arms, arms[i].name)
  {
    hide IsTaskList, HasCost, CostFigure, EligibleArm;
    forall k | 0 <= k < |arms| ensures items[k].cost.Some? <==> HasCost(runs, arms, arms[k].name) {
      CostFigureIff(taskIds, runs, arms, arms[k].name);
    }
  }

  /** Once enough runs and all costs are there, only failed runs stand in the way. */
  lemma EligibleIsRaw(arms: seq<Arm>, runs: seq<Run>, declared: seq<string>, taskIds: seq<string>, tasks: seq<string>, items: seq<CohortArm>)
    requires ChosenList(tasks, declared, runs, arms) && Described(items, tasks, taskIds, runs, arms) && tasks != []
    requires forall t :: Chosen(declared, runs, arms, t) ==> Observed(runs, arms, t)
    requires forall t, i :: 0 <= i < |arms| && Observed(runs, arms, t) ==> |Of(runs, arms, arms[i].name, t)| >= RANKABLE_REPEATS
    requires forall i :: 0 <= i < |arms| ==> HasCost(runs, arms, arms[i].name)
    ensures (forall k :: 0 <= k < |items| ==> items[k].eligible) <==>
            !exists t, i :: 0 <= i < |arms| && Chosen(declared, runs, arms, t)
                            && !AllSucceed(Of(runs, arms, arms[i].name, t))
  {
    hide Of, AllSucceed, Chosen, Observed, HasCost, CostFigure, IsLeastRepeats;
    forall i | 0 <= i < |arms|
      ensures items[i].eligible <==>
              forall t :: Chosen(declared, runs, arms, t) ==> AllSucceed(Of(runs, arms, arms[i].name, t))
    {
      assert Describes(items[i], arms[i].name, tasks, taskIds, runs, arms);
      forall k | 0 <= k < |tasks| ensures Chosen(declared, runs, arms, tasks[k]) {
        assert tasks[k] in tasks;
      }
      if items[i].eligible {
        forall t | Chosen(declared, runs, arms, t) ensures AllSucceed(Of(runs, arms, arms[i].name, t)) {
          assert t in tasks;
        }
      }
    }
  }

  /** The switch, on the flags the loops computed. */
  function SwitchGate(arms: nat, s: Summary, missingSelectedTask: bool, costMissing: bool, allEligible: bool): Gate {
    if arms < 2 then NeedTwoArms
    else if |s.taskIds| == 0 then NoRuns
    else if missingSelectedTask then MissingTask
    else if s.suppressed then Incompatible
    else if s.insufficient then TooFewRuns
    else if costMissing then NoCost
    else if !allEligible then NotAllPassed
    else Rankable
  }

  lemma SwitchIsRaw(arms: seq<Arm>, runs: seq<Run>, declared: seq<string>, s: Summary, tasks: seq<string>, items: seq<CohortArm>,
                    missingSelectedTask: bool, costMissing: bool, allEligible: bool)
    requires Summarizes(s, runs, arms) && ChosenList(tasks, declared, runs, arms)
    requires Described(items, tasks, s.taskIds, runs, arms)
    requires missingSelectedTask <==> exists k :: 0 <= k < |tasks| && tasks[k] !in s.taskIds
    requires costMissing <==> exists k :: 0 <= k < |items| && items[k].cost.None?
    requires allEligible <==> |arms| >= 2 && forall k :: 0 <= k < |items| ==> items[k].eligible
    ensures SwitchGate(|arms|, s, missingSelectedTask, costMissing, allEligible) == RawGate(arms, runs, declared)
  {
    hide Of, OfTask, IsTaskList, Chosen, Observed, HasCost, Agree, AllSucceed, Described, ChosenList, Grouped, CostsKnown;
    MissingIsRaw(arms, runs, declared, s.taskIds, tasks);
    CostMissingIsRaw(arms, runs, s.taskIds, tasks, items);
    if |arms| >= 2 && s.taskIds != [] && !missingSelectedTask && !s.suppressed && !s.insufficient && !costMissing {
      EligibleIsRaw(arms, runs, declared, s.taskIds, tasks, items);
    }
  }

  /** `SummarizeCohort`. `declared` is the task list of the experiment's spec, empty if it has none. */
  method SummarizeCohort(arms: seq<Arm>, runs: seq<Run>, declared: seq<string>)
    returns (out: seq<CohortArm>, ranked: bool, gate: Gate, ghost tasks: seq<string>, ghost taskIds: seq<string>)
    ensures gate == RawGate(arms, runs, declared) && (ranked <==> gate == Rankable)
    ensures IsTaskList(taskIds, runs, arms)
    ensures ChosenList(tasks, declared, runs, arms)
    ensures Reports(out, tasks, taskIds, runs, arms)
  {
    hide Of, OfTask, IsTaskList, Describes, Chosen, Observed, EligibleArm, HasCost, CostFigure, Agree, Precedes;
    var s := Summarize(arms, runs);
    var taskIdsChosen := CohortTaskIds(declared, s.taskIds, runs, arms);
    tasks, taskIds := taskIdsChosen, s.taskIds;
    var missingSelectedTask := false;
    for i := 0 to |taskIdsChosen|
      invariant missingSelectedTask <==> exists k :: 0 <= k < i && taskIdsChosen[k] !in s.taskIds
    {
      if taskIdsChosen[i] !in s.taskIds {
        missingSelectedTask := true;
      }
    }
    var items: seq<CohortArm> := [];
    var allEligible := |arms| >= 2;
    var costMissing := false;
    for i := 0 to |arms|
      invariant |items| == i
      invariant forall k :: 0 <= k < i ==> Describes(items[k], arms[k].name, tasks, taskIds, runs, arms)
      invariant allEligible <==> |arms| >= 2 && forall k :: 0 <= k < i ==> items[k].eligible
      invariant costMissing <==> exists k :: 0 <= k < i && items[k].cost.None?
    {
      var item := ArmItem(arms[i].name, taskIdsChosen, s, runs, arms);
      if !item.eligible {
        allEligible := false;
      }
      if item.cost.None? {
        costMissing := true;
      }
      items := items + [item];
    }
    gate := SwitchGate(|arms|, s, missingSelectedTask, costMissing, allEligible);
    ranked := gate == Rankable;
    SwitchIsRaw(arms, runs, declared, s, tasks, items, missingSelectedTask, costMissing, allEligible);
    out := Sort(items, Precedes);
    PrecedesIsPreorder();
    SortSorted(items, Precedes);
    SortKeeps(items, Precedes);
    assert Reports(out, tasks, taskIds, runs, arms) by {
      assert multiset(out) == multiset(items);
    }
  }

  /** One line per arm, in the cohort's order. */
  ghost predicate Reports(out: seq<CohortArm>, tasks: seq<string>, taskIds: seq<string>, runs: seq<Run>, arms: seq<Arm>) {
    && SortedBy(out, Precedes)
    && exists items: seq<CohortArm> ::
         multiset(out) == multiset(items) && Described(items, tasks, taskIds, runs, arms)
  }

  // ---------------------------------------------------------------- what a ranking stands for

  /** A cohort is ranked exactly when: two arms or more; some run counts; every chosen task was observed;
      the runs of each observed task agree on all seven drift fields; every arm ran every observed task,
      chosen or not, at least three times; every run of a chosen task succeeded; and every arm solved
      some task with all its costs recorded. */
  lemma RankableIff(arms: seq<Arm>, runs: seq<Run>, declared: seq<string>)
    ensures RawGate(arms, runs, declared) == Rankable <==>
            && |arms| >= 2
            && (exists t :: Observed(runs, arms, t))
            && (forall t :: Chosen(declared, runs, arms, t) ==> Observed(runs, arms, t))
            && (forall t :: Observed(runs, arms, t) ==> Agree(OfTask(runs, arms, t)))
            && (forall t, i :: 0 <= i < |arms| && Observed(runs, arms, t) ==>
                  |Of(runs, arms, arms[i].name, t)| >= RANKABLE_REPEATS)
            && (forall t, i :: 0 <= i < |arms| && Chosen(declared, runs, arms, t) ==>
                  AllSucceed(Of(runs, arms, arms[i].name, t)))
            && (forall i :: 0 <= i < |arms| ==> HasCost(runs, arms, arms[i].name))
  {
    hide Of, OfTask, Agree, AllSucceed, HasCost, Chosen, Observed;
  }

  lemma ItemsOfReport(out: seq<CohortArm>, tasks: seq<string>, taskIds: seq<string>, runs: seq<Run>, arms: seq<Arm>, item: CohortArm)
    requires Reports(out, tasks, taskIds, runs, arms) && item in out
    ensures exists k :: 0 <= k < |arms| && Describes(item, arms[k].name, tasks, taskIds, runs, arms)
  {
    hide Describes, Precedes;
    var items: seq<CohortArm> :| multiset(out) == multiset(items) && Described(items, tasks, taskIds, runs, arms);
    assert item in multiset(out);
    assert item in items;
    var k :| 0 <= k < |items| && items[k] == item;
    assert Describes(items[k], arms[k].name, tasks, taskIds, runs, arms);
  }

  /** In a ranked cohort every arm is eligible and has its cost figure, and the arms are listed in
      non-decreasing order of cost. */
  lemma RankedIsByCost(arms: seq<Arm>, runs: seq<Run>, declared: seq<string>, out: seq<CohortArm>, tasks: seq<string>, taskIds: seq<string>)
    requires RawGate(arms, runs, declared) == Rankable
    requires IsTaskList(taskIds, runs, arms) && ChosenList(tasks, declared, runs, arms) && Reports(out, tasks, taskIds, runs, arms)
    ensures forall i :: 0 <= i < |out| ==> out[i].eligible && out[i].cost.Some?
    ensures forall i, j :: 0 <= i < j < |out| ==> out[i].cost.value <= out[j].cost.value
  {
    hide Of, OfTask, Agree, HasCost, Chosen, Observed, IsTaskList, Reports, AllSucceed, ChosenList, RawGate, Precedes, StrLe;
    RankableIff(arms, runs, declared);
    TasksAreChosen(arms, runs, declared, tasks, taskIds);
    forall i | 0 <= i < |out| ensures out[i].eligible && out[i].cost.Some? {
      ItemsOfReport(out, tasks, taskIds, runs, arms, out[i]);
      var k :| 0 <= k < |arms| && Describes(out[i], arms[k].name, tasks, taskIds, runs, arms);
      CostFigureIff(taskIds, runs, arms, arms[k].name);
    }
    forall i, j | 0 <= i < j < |out| ensures out[i].cost.value <= out[j].cost.value {
      ReportsSorted(out, tasks, taskIds, runs, arms, i, j);
      EligibleByCost(out[i], out[j]);
    }
  }

  lemma TasksAreChosen(arms: seq<Arm>, runs: seq<Run>, declared: seq<string>, tasks: seq<string>, taskIds: seq<string>)
    requires IsTaskList(taskIds, runs, arms) && ChosenList(tasks, declared, runs, arms)
    requires exists t :: Observed(runs, arms, t)
    ensures tasks != [] && forall k :: 0 <= k < |tasks| ==> Chosen(declared, runs, arms, tasks[k])
  {
    hide Observed, Chosen;
    MissingIsRaw(arms, runs, declared, taskIds, tasks);
    assert forall k :: 0 <= k < |tasks| ==> tasks[k] in tasks;
  }

  lemma ReportsSorted(out: seq<CohortArm>, tasks: seq<string>, taskIds: seq<string>, runs: seq<Run>, arms: seq<Arm>, i: int, j: int)
    requires Reports(out, tasks, taskIds, runs, arms) && 0 <= i < j < |out|
    ensures Precedes(out[i], out[j])
  {
  }

  /** The list of any cohort, ranked or not: eligible arms come first, by cost, a missing figure counting as 0;
      the others, and those of equal cost, come by name. */
  lemma CohortOrder(out: seq<CohortArm>, tasks: seq<string>, taskIds: seq<string>, runs: seq<Run>, arms: seq<Arm>, i: int, j: int)
    requires Reports(out, tasks, taskIds, runs, arms) && 0 <= i < j < |out|
    ensures out[j].eligible ==> out[i].eligible
    ensures out[j].eligible ==>
              (match out[i].cost case Some(c) => c case None => 0.0) <= (match out[j].cost case Some(c) => c case None => 0.0)
    ensures !out[i].eligible || (out[j].eligible && out[i].cost == out[j].cost) ==> StrLe(out[i].name, out[j].name)
  {
    ReportsSorted(out, tasks, taskIds, runs, arms, i, j);
    hide Reports, StrLe;
  }

  lemma EligibleByCost(a: CohortArm, b: CohortArm)
    requires Precedes(a, b) && a.eligible && b.eligible && a.cost.Some? && b.cost.Some?
    ensures a.cost.value <= b.cost.value
  {
  }
}
