/**
 Edge-triggered health alerts (app/scheduler/jobs.py, `check_system_health`): a voice alert when a check
 starts failing, a log entry when a fully passing run finds one that was failing.
 */
module Health {
  import opened Text
  import Activity

  datatype Check = Check(name: string, ok: bool, detail: string)

  datatype Report =
    | Recovered(name: string, detail: string)
    | Failed(name: string, detail: string)
    | Alert(name: string, message: string)

  function AlertMessage(r: Check): string {
    "I detected a problem with " + r.name + ". " + r.detail
  }

  predicate Passing(results: seq<Check>) {
    forall i | 0 <= i < |results| :: results[i].ok
  }

  predicate WasFailing(last: map<string, bool>, name: string) {
    name in last && !last[name]
  }

  // What one result reports, given the statuses before it and whether its run passes.
  function ReportOf(last: map<string, bool>, r: Check, passing: bool): seq<Report> {
    if passing then (if WasFailing(last, r.name) then [Recovered(r.name, r.detail)] else [])
    else if r.ok then []
    else [Failed(r.name, r.detail)] + (if WasFailing(last, r.name) then [] else [Alert(r.name, AlertMessage(r))])
  }

  function Reports(last: map<string, bool>, results: seq<Check>, passing: bool): seq<Report>
    decreases results
  {
    if results == [] then []
    else ReportOf(last, results[0], passing) + Reports(last[results[0].name := results[0].ok], results[1..], passing)
  }

  function Statuses(last: map<string, bool>, results: seq<Check>): map<string, bool>
    decreases results
  {
    if results == [] then last else Statuses(last[results[0].name := results[0].ok], results[1..])
  }

  lemma {:induction false} Regroup(a: seq<Report>, b: seq<Report>, c: seq<Report>)
    ensures a + (b + c) == a + b + c
  {
  }

  class HealthMonitor {
    var last: map<string, bool>
    var log: seq<Report>

    constructor ()
      ensures last == map[] && log == []
    {
      last, log := map[], [];
    }

    method Failing(results: seq<Check>) returns (failing: seq<Check>)
      ensures failing == [] <==> Passing(results)
    {
      failing := [];
      for i := 0 to |results|
        invariant failing == [] <==> Passing(results[..i])
      {
        assert results[..i + 1] == results[..i] + [results[i]];
        if !results[i].ok {
          failing := failing + [results[i]];
        }
      }
      assert results[..|results|] == results;
    }

    method RecordPassingRun(results: seq<Check>)
      requires Passing(results)
      modifies this
      ensures last == Statuses(old(last), results)
      ensures log == old(log) + Reports(old(last), results, true)
    {
      for i := 0 to |results|
        invariant Statuses(last, results[i..]) == Statuses(old(last), results)
        invariant log + Reports(last, results[i..], true) == old(log) + Reports(old(last), results, true)
      {
        var r := results[i];
        var previous := WasFailing(last, r.name);
        last := last[r.name := true];
        if previous {
          log := log + [Recovered(r.name, r.detail)];
        }
      }
    }

    method RecordFailingRun(results: seq<Check>)
      modifies this
      ensures last == Statuses(old(last), results)
      ensures log == old(log) + Reports(old(last), results, false)
    {
      for i := 0 to |results|
        invariant Statuses(last, results[i..]) == Statuses(old(last), results)
        invariant log + Reports(last, results[i..], false) == old(log) + Reports(old(last), results, false)
      {
        var r := results[i];
        ghost var before, log0 := last, log;
        var previous := WasFailing(last, r.name);
        last := last[r.name := r.ok];
        if !r.ok {
          log := log + [Failed(r.name, r.detail)];
          if !previous {
            log := log + [Alert(r.name, AlertMessage(r))];
          }
        }
        assert log == log0 + ReportOf(before, r, false);
        Regroup(log0, ReportOf(before, r, false), Reports(last, results[i + 1..], false));
      }
    }

    method CheckSystemHealth(results: seq<Check>)
      modifies this
      ensures last == Statuses(old(last), results)
      ensures log == old(log) + Reports(old(last), results, Passing(results))
    {
      var failing := Failing(results);
      if failing == [] {
        RecordPassingRun(results);
      } else {
        RecordFailingRun(results);
      }
    }
  }

  const ALERT_LEAD := "I detected a problem with "

  // An alert names its check and ends with what the check found.
  lemma AlertNamesCheck(r: Check)
    ensures StartsWith(AlertMessage(r), ALERT_LEAD + r.name)
    ensures |AlertMessage(r)| > |r.detail| && AlertMessage(r)[|AlertMessage(r)| - |r.detail|..] == r.detail
  {
    var front := ALERT_LEAD + r.name;
    assert AlertMessage(r) == front + (". " + r.detail);
    assert AlertMessage(r)[..|front|] == front;
  }

  // What a report says about a result of a run that passes or fails.
  predicate Tells(x: Report, r: Check, passing: bool) {
    match x
    case Recovered(name, detail) => passing && name == r.name && detail == r.detail
    case Failed(name, detail) => !passing && !r.ok && name == r.name && detail == r.detail
    case Alert(name, message) => !passing && !r.ok && name == r.name && message == AlertMessage(r)
  }

  /** Each report tells of a result of its run, and a failing run reports each failure with its detail. */
  lemma {:induction false} ReportsTell(last: map<string, bool>, results: seq<Check>, passing: bool)
    ensures forall x | x in Reports(last, results, passing) :: exists r :: r in results && Tells(x, r, passing)
    ensures !passing ==>
              forall r | r in results && !r.ok :: Failed(r.name, r.detail) in Reports(last, results, passing)
    decreases results
  {
    if results != [] {
      var rest := Reports(last[results[0].name := results[0].ok], results[1..], passing);
      ReportsTell(last[results[0].name := results[0].ok], results[1..], passing);
      assert results == [results[0]] + results[1..];
      forall x | x in Reports(last, results, passing)
        ensures exists r :: r in results && Tells(x, r, passing)
      {
        if x in rest {
          var r :| r in results[1..] && Tells(x, r, passing);
          assert r in results;
        } else {
          assert results[0] in results && Tells(x, results[0], passing);
        }
      }
    }
  }

  // ----- Whole histories -----

  function LogAfter(last: map<string, bool>, runs: seq<seq<Check>>): seq<Report>
    decreases runs
  {
    if runs == [] then []
    else Reports(last, runs[0], Passing(runs[0])) + LogAfter(Statuses(last, runs[0]), runs[1..])
  }

  // The outcomes of one check, in order.
  function Outcomes(results: seq<Check>, name: string): seq<bool> {
    if results == [] then []
    else (if results[0].name == name then [results[0].ok] else []) + Outcomes(results[1..], name)
  }

  function History(runs: seq<seq<Check>>, name: string): seq<bool> {
    if runs == [] then [] else Outcomes(runs[0], name) + History(runs[1..], name)
  }

  // How many maximal blocks of failures there are, after an outcome that was, or was not, a failure.
  function FailingBlocks(outcomes: seq<bool>, failing: bool): nat {
    if outcomes == [] then 0
    else (if !outcomes[0] && !failing then 1 else 0) + FailingBlocks(outcomes[1..], !outcomes[0])
  }

  function EndsFailing(outcomes: seq<bool>, failing: bool): bool {
    if outcomes == [] then failing else !outcomes[|outcomes| - 1]
  }

  function Alerts(log: seq<Report>, name: string): nat {
    if log == [] then 0
    else (if log[0].Alert? && log[0].name == name then 1 else 0) + Alerts(log[1..], name)
  }

  lemma {:induction false} AlertsConcat(a: seq<Report>, b: seq<Report>, name: string)
    ensures Alerts(a + b, name) == Alerts(a, name) + Alerts(b, name)
  {
    if a == [] {
      assert a + b == b;
    } else {
      assert (a + b)[1..] == a[1..] + b;
      AlertsConcat(a[1..], b, name);
    }
  }

  lemma {:induction false} BlocksConcat(a: seq<bool>, b: seq<bool>, failing: bool)
    ensures FailingBlocks(a + b, failing) == FailingBlocks(a, failing) + FailingBlocks(b, EndsFailing(a, failing))
  {
    if a == [] {
      assert a + b == b;
    } else {
      assert (a + b)[1..] == a[1..] + b;
      BlocksConcat(a[1..], b, !a[0]);
      assert EndsFailing(a, failing) == EndsFailing(a[1..], !a[0]);
    }
  }

  lemma {:induction false} BlocksCons(r: Check, rest: seq<Check>, failing: bool, name: string)
    ensures var h, t := Outcomes([r] + rest, name), Outcomes(rest, name);
            if r.name == name then
              && FailingBlocks(h, failing) == (if !r.ok && !failing then 1 else 0) + FailingBlocks(t, !r.ok)
              && EndsFailing(h, failing) == EndsFailing(t, !r.ok)
            else h == t
  {
    assert ([r] + rest)[1..] == rest;
    var t := Outcomes(rest, name);
    assert ([r.ok] + t)[1..] == t;
  }

  lemma {:induction false} OneAlert(r: Report, name: string)
    ensures Alerts([r], name) == if r.Alert? && r.name == name then 1 else 0
  {
    assert Alerts([r][1..], name) == 0;
  }

  lemma {:induction false} AlertOfOne(last: map<string, bool>, r: Check, passing: bool, name: string)
    requires passing ==> r.ok
    ensures Alerts(ReportOf(last, r, passing), name)
         == if r.name == name && !r.ok && !WasFailing(last, name) then 1 else 0
  {
    var a, b := Failed(r.name, r.detail), Alert(r.name, AlertMessage(r));
    OneAlert(a, name);
    OneAlert(b, name);
    OneAlert(Recovered(r.name, r.detail), name);
    AlertsConcat([a], [b], name);
    assert [a] + [b] == [a, b] && [a] + [] == [a];
  }

  // The status recorded in a run is the check's last outcome.
  lemma {:induction false} RunStatus(last: map<string, bool>, results: seq<Check>, name: string)
    ensures WasFailing(Statuses(last, results), name) == EndsFailing(Outcomes(results, name), WasFailing(last, name))
    decreases results
  {
    if results != [] {
      var r := results[0];
      RunStatus(last[r.name := r.ok], results[1..], name);
      assert results == [r] + results[1..];
      BlocksCons(r, results[1..], WasFailing(last, name), name);
    }
  }

  // Within a run, alerts are the starts of failing blocks.
  lemma {:induction false} RunAlerts(last: map<string, bool>, results: seq<Check>, passing: bool, name: string)
    requires passing ==> Passing(results)
    ensures Alerts(Reports(last, results, passing), name)
         == FailingBlocks(Outcomes(results, name), WasFailing(last, name))
    decreases results
  {
    if results != [] {
      var r, rest := results[0], results[1..];
      var last' := last[r.name := r.ok];
      RunAlerts(last', rest, passing, name);
      AlertsConcat(ReportOf(last, r, passing), Reports(last', rest, passing), name);
      AlertOfOne(last, r, passing, name);
      assert results == [r] + rest;
      BlocksCons(r, rest, WasFailing(last, name), name);
    }
  }

  /**
   Over any sequence of health runs the number of voice alerts raised for a check is the number of maximal
   failing blocks in its history.
   */
  lemma {:induction false} OneAlertPerBlock(last: map<string, bool>, runs: seq<seq<Check>>, name: string)
    ensures Alerts(LogAfter(last, runs), name) == FailingBlocks(History(runs, name), WasFailing(last, name))
    decreases runs
  {
    if runs != [] {
      var last' := Statuses(last, runs[0]);
      RunAlerts(last, runs[0], Passing(runs[0]), name);
      RunStatus(last, runs[0], name);
      OneAlertPerBlock(last', runs[1..], name);
      AlertsConcat(Reports(last, runs[0], Passing(runs[0])), LogAfter(last', runs[1..]), name);
      BlocksConcat(Outcomes(runs[0], name), History(runs[1..], name), WasFailing(last, name));
    }
  }

  ghost predicate DistinctNames(results: seq<Check>) {
    forall i, j | 0 <= i < j < |results| :: results[i].name != results[j].name
  }

  /**
   A recovery is logged exactly on a run that passes entirely, for the checks last recorded as failing.
   */
  lemma {:induction false} RecoveryLogged(last: map<string, bool>, results: seq<Check>, passing: bool,
                                          name: string, detail: string)
    requires DistinctNames(results) && (passing ==> Passing(results))
    ensures Recovered(name, detail) in Reports(last, results, passing) <==>
              passing && WasFailing(last, name)
              && exists i :: 0 <= i < |results| && results[i].name == name && results[i].detail == detail
    decreases results
  {
    if results != [] {
      var r := results[0];
      var rest := results[1..];
      var last' := last[r.name := r.ok];
      RecoveryLogged(last', rest, passing, name, detail);
      assert forall i | 0 <= i < |rest| :: rest[i] == results[i + 1] && rest[i].name != r.name;
      if exists i :: 0 <= i < |rest| && rest[i].name == name && rest[i].detail == detail {
        var i :| 0 <= i < |rest| && rest[i].name == name && rest[i].detail == detail;
        assert results[i + 1].name == name && results[i + 1].detail == detail;
      }
      if exists i :: 0 <= i < |results| && results[i].name == name && results[i].detail == detail {
        var i :| 0 <= i < |results| && results[i].name == name && results[i].detail == detail;
        assert i > 0 ==> rest[i - 1].name == name && rest[i - 1].detail == detail;
      }
    }
  }

  lemma {:induction false} StatusStays(last: map<string, bool>, results: seq<Check>, name: string)
    requires forall j | 0 <= j < |results| :: results[j].name != name
    ensures WasFailing(Statuses(last, results), name) == WasFailing(last, name)
    decreases results
  {
    if results != [] {
      StatusStays(last[results[0].name := results[0].ok], results[1..], name);
    }
  }

  lemma {:induction false} StatusOf(last: map<string, bool>, results: seq<Check>, i: nat)
    requires DistinctNames(results) && i < |results|
    ensures WasFailing(Statuses(last, results), results[i].name) <==> !results[i].ok
    decreases results
  {
    var last' := last[results[0].name := results[0].ok];
    if i > 0 {
      StatusOf(last', results[1..], i - 1);
    } else {
      StatusStays(last', results[1..], results[0].name);
    }
  }

  /** A check that recovers while another still fails is recorded as passing, and no recovery is logged. */
  lemma RecoveryLost(last: map<string, bool>, results: seq<Check>, i: nat)
    requires DistinctNames(results) && !Passing(results)
    requires i < |results| && results[i].ok && WasFailing(last, results[i].name)
    ensures !WasFailing(Statuses(last, results), results[i].name)
    ensures forall detail :: Recovered(results[i].name, detail) !in Reports(last, results, false)
  {
    StatusOf(last, results, i);
    forall detail
      ensures Recovered(results[i].name, detail) !in Reports(last, results, false)
    {
      RecoveryLogged(last, results, false, results[i].name, detail);
    }
  }

  // What the alerts of a log say.
  function AlertMessages(log: seq<Report>): seq<string> {
    if log == [] then []
    else (if log[0].Alert? then [log[0].message] else []) + AlertMessages(log[1..])
  }

  // A run of the one check r, after which the log is the given one.
  lemma {:induction false} RunOfOne(last: map<string, bool>, r: Check, rest: seq<seq<Check>>)
    ensures var last' := last[r.name := r.ok];
            LogAfter(last, [[r]] + rest) == ReportOf(last, r, r.ok) + LogAfter(last', rest)
  {
    assert ([[r]] + rest)[1..] == rest && [r][1..] == [];
    assert Reports(last[r.name := r.ok], [], r.ok) == [];
    assert Statuses(last[r.name := r.ok], []) == last[r.name := r.ok];
    assert Passing([r]) == r.ok by {
      assert [r][0] == r;
    }
  }

  lemma {:induction false} MessagesConcat(a: seq<Report>, b: seq<Report>)
    ensures AlertMessages(a + b) == AlertMessages(a) + AlertMessages(b)
  {
    if a == [] {
      assert a + b == b;
    } else {
      assert (a + b)[1..] == a[1..] + b;
      MessagesConcat(a[1..], b);
    }
  }

  lemma {:induction false} MessagesStep(last: map<string, bool>, r: Check, rest: seq<seq<Check>>)
    ensures AlertMessages(LogAfter(last, [[r]] + rest)) ==
              (if !r.ok && !WasFailing(last, r.name) then [AlertMessage(r)] else [])
              + AlertMessages(LogAfter(last[r.name := r.ok], rest))
  {
    RunOfOne(last, r, rest);
    MessagesConcat(ReportOf(last, r, r.ok), LogAfter(last[r.name := r.ok], rest));
  }

  // A check that fails, recovers and fails again with the same detail raises two alerts with one message.
  lemma {:induction false} FlappingCheckAlerts(r: Check)
    requires !r.ok
    ensures AlertMessages(LogAfter(map[], [[r], [r.(ok := true)], [r]])) == [AlertMessage(r), AlertMessage(r)]
  {
    var good := r.(ok := true);
    var failed := map[r.name := false];
    var passed := failed[r.name := true];
    assert map[][r.name := false] == failed && passed[r.name := false] == failed;
    MessagesStep(map[], r, [[good], [r]]);
    MessagesStep(failed, good, [[r]]);
    MessagesStep(passed, r, []);
    assert [[r]] + [[good], [r]] == [[r], [good], [r]] && [[good]] + [[r]] == [[good], [r]] && [[r]] + [] == [[r]];
  }

  /**
   An alert that is raised is not always heard: of the two alerts of a check that fails, recovers and fails
   again with the same detail, the voice drops the second unless another line came between.
   */
  lemma FlappingCheckHeardOnce(r: Check)
    requires !r.ok && Activity.SpokenLine(AlertMessage(r)).Some?
    ensures var log := LogAfter(map[], [[r], [r.(ok := true)], [r]]);
            && |AlertMessages(log)| == 2
            && Activity.Heard(AlertMessages(log), None) == [Activity.SpokenLine(AlertMessage(r)).value]
  {
    FlappingCheckAlerts(r);
    Activity.RepeatIsSilent(AlertMessage(r), 2, None);
    assert [AlertMessage(r), AlertMessage(r)] == seq(2, _ => AlertMessage(r));
  }
}
