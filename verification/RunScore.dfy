/** The metrics derived from a run's outcome and validators, and what the experiment aggregate later
    makes of the stored row. */
module RunScore {
  import opened Options
  import opened RunOutcome
  import opened RunTimeout
  import opened RunVerdict
  import RunGroups

  datatype Validation = Validation(status: ValidatorStatus, weight: real)

  function Weight(v: Validation): (w: real)
    ensures w > 0.0
  {
    if v.weight <= 0.0 then 1.0 else v.weight
  }

  /** The weight of the validators that were not skipped, and of those that passed. */
  function ScoredWeight(vs: seq<Validation>): real {
    if vs == [] then 0.0
    else
      var v := vs[|vs| - 1];
      ScoredWeight(vs[..|vs| - 1]) + (if v.status == Skipped then 0.0 else Weight(v))
  }

  function PassedWeight(vs: seq<Validation>): real {
    if vs == [] then 0.0
    else
      var v := vs[|vs| - 1];
      PassedWeight(vs[..|vs| - 1]) + (if v.status == Passed then Weight(v) else 0.0)
  }

  function Score(vs: seq<Validation>): Option<real> {
    if ScoredWeight(vs) == 0.0 then None else Some(PassedWeight(vs) / ScoredWeight(vs))
  }

  /** `scoreOf`. */
  method ScoreOf(vs: seq<Validation>) returns (score: Option<real>)
    ensures score == Score(vs)
  {
    var passed, total := 0.0, 0.0;
    for i := 0 to |vs|
      invariant total == ScoredWeight(vs[..i]) && passed == PassedWeight(vs[..i])
    {
      assert vs[..i + 1][..i] == vs[..i];
      var v := vs[i];
      if v.status == Skipped {
        continue;
      }
      var w := v.weight;
      if w <= 0.0 {
        w := 1.0;
      }
      total := total + w;
      if v.status == Passed {
        passed := passed + w;
      }
    }
    assert vs[..|vs|] == vs;
    return if total == 0.0 then None else Some(passed / total);
  }

  ghost predicate SomeScored(vs: seq<Validation>) {
    exists i :: 0 <= i < |vs| && vs[i].status != Skipped
  }

  function Statuses(vs: seq<Validation>): seq<ValidatorStatus> {
    seq(|vs|, i requires 0 <= i < |vs| => vs[i].status)
  }

  lemma {:induction false} WeightsOrdered(vs: seq<Validation>)
    ensures 0.0 <= PassedWeight(vs) <= ScoredWeight(vs)
    ensures ScoredWeight(vs) > 0.0 <==> SomeScored(vs)
    ensures PassedWeight(vs) == ScoredWeight(vs) <==> !AnyBlocks(Statuses(vs))
  {
    if vs != [] {
      hide Weight;
      var n := |vs| - 1;
      var init, v := vs[..n], vs[n];
      WeightsOrdered(init);
      assert vs == init + [v];
      assert SomeScored(vs) <==> SomeScored(init) || v.status != Skipped by {
        if i :| 0 <= i < n && init[i].status != Skipped {
          assert vs[i].status != Skipped;
        }
      }
      assert Statuses(vs) == Statuses(init) + [v.status];
      BlocksOneMore(Statuses(init), v.status);
    }
  }

  lemma BlocksOneMore(results: seq<ValidatorStatus>, status: ValidatorStatus)
    ensures AnyBlocks(results + [status]) <==> AnyBlocks(results) || Blocks(status)
  {
    var more := results + [status];
    assert more[|results|] == status;
    if i :| 0 <= i < |results| && Blocks(results[i]) {
      assert Blocks(more[i]);
    }
  }

  /** There is a score exactly when some validator was not skipped; it lies in [0, 1], and it is 1
      exactly when no validator blocks a pass. */
  lemma ScoreIsOneIff(vs: seq<Validation>)
    ensures Score(vs).Some? <==> SomeScored(vs)
    ensures Score(vs).Some? ==> 0.0 <= Score(vs).value <= 1.0
    ensures Score(vs).Some? ==> (Score(vs).value == 1.0 <==> !AnyBlocks(Statuses(vs)))
  {
    WeightsOrdered(vs);
    if ScoredWeight(vs) > 0.0 {
      Quotient(PassedWeight(vs), ScoredWeight(vs));
    }
  }

  lemma Quotient(p: real, t: real)
    requires 0.0 <= p <= t && t > 0.0
    ensures 0.0 <= p / t <= 1.0 && (p / t == 1.0 <==> p == t)
  {
    var q := p / t;
    assert t * q == p && t * (1.0 - q) == t - p;
    SignOf(t, q);
    SignOf(t, 1.0 - q);
  }

  lemma SignOf(t: real, x: real)
    requires t > 0.0
    ensures t * x >= 0.0 <==> x >= 0.0
    ensures t * x == 0.0 <==> x == 0.0
  {
  }

  lemma {:induction false} WeightsAfterFlip(vs: seq<Validation>, i: nat)
    requires i < |vs| && Blocks(vs[i].status)
    ensures var ws := vs[i := vs[i].(status := Passed)];
            && ScoredWeight(ws) == ScoredWeight(vs)
            && PassedWeight(ws) == PassedWeight(vs) + (if vs[i].weight <= 0.0 then 1.0 else vs[i].weight)
  {
    var n := |vs| - 1;
    var ws := vs[i := vs[i].(status := Passed)];
    if i < n {
      WeightsAfterFlip(vs[..n], i);
      assert ws[..n] == vs[..n][i := vs[..n][i].(status := Passed)];
    } else {
      assert ws[..n] == vs[..n];
    }
  }

  /** A validator counts by its own weight, and by 1 if it has none: had a blocking one passed, the score would
      be higher by exactly its share of the scored weight. */
  lemma ScoreAfterFlip(vs: seq<Validation>, i: nat)
    requires i < |vs| && Blocks(vs[i].status)
    ensures var ws := vs[i := vs[i].(status := Passed)];
            && Score(vs).Some? && Score(ws).Some?
            && Score(ws).value == Score(vs).value + (if vs[i].weight <= 0.0 then 1.0 else vs[i].weight) / ScoredWeight(vs)
  {
    hide ScoredWeight, PassedWeight, Weight;
    WeightsOrdered(vs);
    assert SomeScored(vs);
    WeightsAfterFlip(vs, i);
    SumOfShares(PassedWeight(vs), if vs[i].weight <= 0.0 then 1.0 else vs[i].weight, ScoredWeight(vs));
  }

  lemma SumOfShares(p: real, w: real, t: real)
    requires t > 0.0
    ensures (p + w) / t == p / t + w / t
  {
  }

  // ---------------------------------------------------------------- derived metrics

  /** `validatorsFailed`. */
  method ValidatorsFailed(results: seq<ValidatorStatus>) returns (r: bool)
    ensures r == AnyBlocks(results)
  {
    for i := 0 to |results|
      invariant !AnyBlocks(results[..i])
    {
      assert results[..i + 1] == results[..i] + [results[i]];
      BlocksOneMore(results[..i], results[i]);
      match results[i] {
      case Failed | Errored | TimedOut => return true;
      case Passed | Skipped =>
      }
    }
    assert results[..|results|] == results;
    return false;
  }

  datatype Derived = Derived(failures: nat, success: real, firstShot: real, score: Option<real>)

  function Blocking(results: seq<ValidatorStatus>): nat {
    if results == [] then 0
    else Blocking(results[..|results| - 1]) + (if Blocks(results[|results| - 1]) then 1 else 0)
  }

  lemma {:induction false} BlockingIsZero(results: seq<ValidatorStatus>)
    ensures Blocking(results) == 0 <==> !AnyBlocks(results)
  {
    if results != [] {
      var n := |results| - 1;
      BlockingIsZero(results[..n]);
      BlocksOneMore(results[..n], results[n]);
      assert results == results[..n] + [results[n]];
    }
  }

  /** The outcome part of `derivedMetrics`. */
  method DerivedMetrics(status: RunStatus, vs: seq<Validation>) returns (d: Derived)
    ensures d.failures == Blocking(Statuses(vs)) && d.score == Score(vs)
    ensures d.success == (if status == RunPassed then 1.0 else 0.0)
    ensures d.firstShot == (if status == RunPassed && !AnyBlocks(Statuses(vs)) then 1.0 else 0.0)
  {
    var failures := 0;
    for i := 0 to |vs|
      invariant failures == Blocking(Statuses(vs)[..i])
    {
      assert Statuses(vs)[..i + 1][..i] == Statuses(vs)[..i];
      match vs[i].status {
      case Failed | Errored | TimedOut => failures := failures + 1;
      case Passed | Skipped =>
      }
    }
    assert Statuses(vs)[..|vs|] == Statuses(vs);
    BlockingIsZero(Statuses(vs));
    var score := ScoreOf(vs);
    d := Derived(failures, if status == RunPassed then 1.0 else 0.0,
                 if failures == 0 && status == RunPassed then 1.0 else 0.0, score);
  }

  /** In every reachable decided state the derived metrics agree: the first shot succeeds exactly when the
      run does, and a run that passed has score 1 unless every validator was skipped. */
  lemma PassedRunScoresOne(task: Task, s: State, vs: seq<Validation>, d: Derived)
    requires Reachable(task, s) && s.main.at.Decided? && Statuses(vs) == s.main.results
    requires d.score == Score(vs) && d.success == (if s.main.at.status == RunPassed then 1.0 else 0.0)
    requires d.firstShot == (if s.main.at.status == RunPassed && !AnyBlocks(Statuses(vs)) then 1.0 else 0.0)
    ensures d.firstShot == d.success
    ensures d.success == 1.0 && SomeScored(vs) ==> d.score == Some(1.0)
  {
    hide Reachable;
    ScoreIsOneIff(vs);
    if s.main.at.status == RunPassed {
      PassedMeansClean(task, s);
    }
  }

  // ---------------------------------------------------------------- read back by the aggregate

  function StatusText(status: RunStatus): string {
    match status
    case RunPassed => "passed"
    case RunFailed => "failed"
    case RunError => "error"
    case RunTimeout => "timeout"
  }

  function ValidationText(status: ValidatorStatus): string {
    match status
    case Passed => "passed"
    case Failed => "failed"
    case Errored => "error"
    case TimedOut => "timeout"
    case Skipped => "skipped"
  }

  /** The row counts as solved in the experiment aggregate exactly when the runner said passed, whether or
      not the success metric was recorded with it. */
  lemma AggregateAgrees(task: Task, s: State, row: RunGroups.Run)
    requires Reachable(task, s) && s.main.at.Decided? && row.status == StatusText(s.main.at.status)
    requires |row.validations| == |s.main.results|
    requires forall i :: 0 <= i < |row.validations| ==> row.validations[i] == ValidationText(s.main.results[i])
    requires var success := RunGroups.MetricOf(row.metrics, "success");
             success.None? || success.value == (if s.main.at.status == RunPassed then 1.0 else 0.0)
    ensures RunGroups.Succeeded(row) <==> s.main.at.status == RunPassed
  {
    hide Reachable;
    forall i | 0 <= i < |row.validations| ensures RunGroups.Vetoes(row.validations[i]) <==> Blocks(s.main.results[i]) {
      VetoesIsBlocks(s.main.results[i]);
    }
    if s.main.at.status == RunPassed {
      PassedMeansClean(task, s);
    }
  }

  lemma VetoesIsBlocks(status: ValidatorStatus)
    ensures RunGroups.Vetoes(ValidationText(status)) <==> Blocks(status)
  {
    assert "passed"[0] == 'p' && "skipped"[0] == 's';
  }

  /** The row of a run as it is stored, read off the run's steps: its status says timeout, error, failed or
      passed under the conditions of `VerdictIff`, and each validation says what its validator reported. */
  lemma StoredRowIff(task: Task, steps: seq<Step>, row: RunGroups.Run)
    requires CanRun(task, INITIAL, steps) && After(task, INITIAL, steps).main.at.Decided?
    requires row.status == StatusText(After(task, INITIAL, steps).main.at.status)
    requires |row.validations| == |Reported(steps)|
    requires forall i :: 0 <= i < |row.validations| ==> row.validations[i] == ValidationText(Reported(steps)[i])
    ensures row.status == "timeout" <==> TakesExpired(task, steps) || StoresInTime(steps)
    ensures After(task, INITIAL, steps).ses.child.Gone?
    ensures row.status != "timeout" ==>
              var clean := !IsCancelled(task, steps) && After(task, INITIAL, steps).ses.child.result == Exit(0);
              && (row.status == "error" <==> !clean)
              && (row.status == "failed" <==> clean && AnyBlocks(Reported(steps)))
              && (row.status == "passed" <==> clean && !AnyBlocks(Reported(steps)))
    ensures forall i :: 0 <= i < |row.validations| ==>
              && (row.validations[i] == "passed" <==> Reported(steps)[i] == Passed)
              && (row.validations[i] == "failed" <==> Reported(steps)[i] == Failed)
              && (row.validations[i] == "error" <==> Reported(steps)[i] == Errored)
              && (row.validations[i] == "timeout" <==> Reported(steps)[i] == TimedOut)
              && (row.validations[i] == "skipped" <==> Reported(steps)[i] == Skipped)
  {
    hide CanRun, After, TakesExpired, StoresInTime, IsCancelled, Reported, AnyBlocks, StatusText, ValidationText;
    VerdictIff(task, steps);
    StatusTextIs(After(task, INITIAL, steps).main.at.status);
    forall status: ValidatorStatus
      ensures ValidationText(status) == "passed" <==> status == Passed
      ensures ValidationText(status) == "failed" <==> status == Failed
      ensures ValidationText(status) == "error" <==> status == Errored
      ensures ValidationText(status) == "timeout" <==> status == TimedOut
      ensures ValidationText(status) == "skipped" <==> status == Skipped
    {
      ValidationTextIs(status);
    }
  }

  lemma StatusTextIs(status: RunStatus)
    ensures StatusText(status) == "timeout" <==> status == RunTimeout
    ensures StatusText(status) == "error" <==> status == RunError
    ensures StatusText(status) == "failed" <==> status == RunFailed
    ensures StatusText(status) == "passed" <==> status == RunPassed
  {
    assert "passed"[0] == 'p' && "failed"[0] == 'f' && "error"[0] == 'e' && "timeout"[0] == 't';
  }

  lemma ValidationTextIs(status: ValidatorStatus)
    ensures ValidationText(status) == "passed" <==> status == Passed
    ensures ValidationText(status) == "failed" <==> status == Failed
    ensures ValidationText(status) == "error" <==> status == Errored
    ensures ValidationText(status) == "timeout" <==> status == TimedOut
    ensures ValidationText(status) == "skipped" <==> status == Skipped
  {
    assert "passed"[0] == 'p' && "failed"[0] == 'f' && "error"[0] == 'e' && "timeout"[0] == 't' && "skipped"[0] == 's';
  }
}
