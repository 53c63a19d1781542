/**
 The timer service step by step: app/timers/operations.py, app/scheduler/jobs.py and the timer table of
 app/memory/repository.py.  Each method is proved to do what `TimerModel` says it does.  Queries hand in
 the rows they select, in whatever order the database returns them.
 */
module TimerService {
  import opened Text
  import opened TimerModel

  datatype Outcome =
    | Done(count: nat)
    | NothingActive
    | NoMatch

  lemma NextElement(ids: seq<int>, i: nat)
    requires i < |ids|
    ensures Elements(ids[..i + 1]) == Elements(ids[..i]) + {ids[i]}
  {
    assert ids[..i + 1] == ids[..i] + [ids[i]];
  }

  lemma RemoveNone(w: World)
    ensures RemoveCountdowns(w, {}) == w
  {
    assert w.rows - {} == w.rows && w.jobs - {} == w.jobs && w.born - {} == w.born;
  }

  lemma RemoveOneMore(w: World, ids: seq<int>, i: nat)
    requires i < |ids| && ids[i] !in ids[..i]
    ensures RemoveCountdowns(RemoveCountdowns(w, Elements(ids[..i])), {ids[i]})
         == RemoveCountdowns(w, Elements(ids[..i + 1]))
  {
    var a, b := Elements(ids[..i]), Elements(ids[..i + 1]);
    NextElement(ids, i);
    assert w.rows - a - {ids[i]} == w.rows - b;
    assert w.jobs - a - {ids[i]} == w.jobs - b;
    assert w.born - a - {ids[i]} == w.born - b;
    assert Serials(w, a) + Serials(RemoveCountdowns(w, a), {ids[i]}) == Serials(w, b);
  }

  lemma {:induction false} DistinctSize(ids: seq<int>)
    requires forall i, j | 0 <= i < j < |ids| :: ids[i] != ids[j]
    ensures |Elements(ids)| == |ids|
  {
    if ids != [] {
      var front, last := ids[..|ids| - 1], ids[|ids| - 1];
      DistinctSize(front);
      assert ids == front + [last];
      assert Elements(ids) == Elements(front) + {last};
      assert last !in front;
    }
  }

  class TimerService {
    var rows: map<int, Row>
    var jobs: map<int, int>
    var log: seq<Notice>
    ghost var serials: seq<nat>
    ghost var born: map<int, nat>
    ghost var made: seq<Birth>
    ghost var removed: set<nat>
    var now: int
    ghost var lastPoll: int

    ghost function State(): World
      reads this
    {
      World(rows, jobs, log, serials, born, made, removed, now, lastPoll)
    }

    constructor (clock: int)
      ensures IsStart(State()) && now == clock
    {
      rows, jobs, log := map[], map[], [];
      serials, born, made, removed := [], map[], [], {};
      now, lastPoll := clock, clock;
    }

    // The clock is read once per handler call.
    method ReadClock(t: int)
      modifies this`now
      ensures State() == At(old(State()), t)
    {
      now := t;
    }

    // ----- app/memory/repository.py -----

    method DeleteTimer(id: int) returns (found: bool)
      modifies this`rows
      ensures State() == old(State()).(rows := old(rows) - {id})
      ensures found <==> id in old(rows)
    {
      if id !in rows {
        assert rows - {id} == rows;
        return false;
      }
      rows := rows - {id};
      return true;
    }

    method WipeDatabase(all: seq<int>)
      requires Lists(all, State(), (w: World, id: int) => id in w.rows)
      modifies this
      ensures State() == Wipe(old(State()))
    {
      ghost var start := State();
      for i := 0 to |all|
        invariant State() == start.(rows := rows)
        invariant rows == start.rows - Elements(all[..i])
      {
        var _ := DeleteTimer(all[i]);
        NextElement(all, i);
      }
      assert all[..|all|] == all;
      assert forall id :: id in start.rows ==> id in all;
      assert rows == map[];
      removed := removed + Serials(State(), born.Keys);
      born := map[];
    }

    // ----- app/scheduler/jobs.py -----

    method UnscheduleTimer(id: int)
      modifies this`jobs
      ensures State() == Unschedule(old(State()), id)
    {
      jobs := jobs - {id};
    }

    method ScheduleTimer(id: int, dueAt: Option<int>)
      modifies this`jobs
      ensures State() == Schedule(old(State()), id, dueAt)
    {
      if dueAt.None? {
        UnscheduleTimer(id);
        return;
      }
      var runAt := Max(dueAt.value, now);
      jobs := jobs[id := runAt];
    }

    method CompleteTimer(id: int)
      modifies this
      ensures State() == Complete(old(State()), id)
    {
      if id !in rows {
        UnscheduleTimer(id);
        return;
      }
      var timer := rows[id];
      if timer.kind != Countdown || timer.dueAt.None? {
        UnscheduleTimer(id);
        return;
      }
      var dueAt := timer.dueAt.value;
      if dueAt > now {
        ScheduleTimer(id, Some(dueAt));
        return;
      }
      var name := if Strip(timer.name) == "" then "Timer" else Strip(timer.name);
      log := log + [Notice(name, NoticeSeconds(timer, dueAt), now)];
      serials := serials + (if id in born then [born[id]] else []);
      born := born - {id};
      var _ := DeleteTimer(id);
      UnscheduleTimer(id);
    }

    // The scheduler drops a one-shot job and runs its handler, or drops it as misfired.
    method RunJob(id: int, misfired: bool)
      modifies this
      ensures State() == if misfired then Unschedule(old(State()), id) else Fire(old(State()), id)
    {
      UnscheduleTimer(id);
      if !misfired {
        CompleteTimer(id);
      }
    }

    method CheckDueTimers(due: seq<int>)
      requires Lists(due, State(), IsDue)
      modifies this
      ensures State() == Poll(old(State()), due)
    {
      ghost var start := State();
      for i := 0 to |due|
        invariant CompleteAll(State(), due[i..]) == CompleteAll(start, due)
        invariant now == start.now
      {
        CompleteTimer(due[i]);
        assert due[i..][1..] == due[i + 1..];
      }
      lastPoll := now;
    }

    method SyncTimerSchedules(countdowns: seq<int>)
      requires Lists(countdowns, State(), IsCountdown)
      modifies this`jobs
      ensures State() == old(State()).(jobs := old(jobs) + Restart(old(State())).jobs)
    {
      ghost var goal := Restart(State()).jobs;
      for i := 0 to |countdowns|
        invariant rows == old(rows) && now == old(now)
        invariant forall id | id in jobs :: id in old(jobs) || id in goal
        invariant forall id | id in goal && id in countdowns[..i] :: id in jobs && jobs[id] == goal[id]
        invariant forall id | id in old(jobs) && !(id in goal && id in countdowns[..i]) ::
                    id in jobs && jobs[id] == old(jobs[id])
      {
        var id := countdowns[i];
        assert id in countdowns;
        if rows[id].dueAt.Some? {
          assert id in goal;
          ScheduleTimer(id, rows[id].dueAt);
        }
      }
      assert countdowns[..|countdowns|] == countdowns;
      assert forall id | id in goal :: IsCountdown(old(State()), id) && id in countdowns;
      forall id | id in jobs
        ensures jobs[id] == (old(jobs) + goal)[id]
      {
        if id in goal {
          assert id in countdowns[..|countdowns|];
        }
      }
      forall id | id in goal || id in old(jobs)
        ensures id in jobs
      {
        assert id in goal ==> id in countdowns[..|countdowns|];
      }
      ghost var u := old(jobs) + goal;
      assert forall id | id in jobs :: id in u;
      assert forall id | id in u :: id in old(jobs) || id in goal;
      assert forall id | id in u :: id in jobs;
      assert jobs == u;
    }

    // The process starts again with the database it left: `register_jobs` rebuilds the jobs.
    method RestartProcess(countdowns: seq<int>)
      requires Lists(countdowns, State(), IsCountdown)
      modifies this`jobs
      ensures State() == Restart(old(State()))
    {
      jobs := map[];
      SyncTimerSchedules(countdowns);
      assert map[] + Restart(old(State())).jobs == Restart(old(State())).jobs;
    }

    // ----- app/timers/operations.py -----

    method CreateCountdownTimer(id: int, name: string, duration: int, startedAt: Option<int>)
      returns (error: Option<CreateError>)
      requires id !in rows
      modifies this
      ensures State() == CreateCountdown(old(State()), id, name, duration, startedAt)
      ensures error == CountdownBirth(old(State()), duration, startedAt).1
    {
      if duration <= 0 {
        return Some(DurationRequired);
      }
      var startTime := if startedAt.Some? then startedAt.value else now;
      var dueAt := startTime + duration;
      var createdAt := ResolveStart(Some(startTime), now);
      if createdAt.None? {
        return Some(ClockNotSet);
      }
      rows := rows[id := Row(Countdown, OrDefault(name, "Timer"), Some(dueAt), Some(duration), createdAt.value)];
      born := born[id := |made|];
      made := made + [Birth(startTime, dueAt, duration, createdAt.value, now)];
      ScheduleTimer(id, Some(dueAt));
      return None;
    }

    method StartStopwatch(id: int, name: string, startedAt: Option<int>) returns (error: Option<CreateError>)
      requires id !in rows
      modifies this
      ensures State() == CreateStopwatch(old(State()), id, name, startedAt)
      ensures error == if ResolveStart(startedAt, now).None? then Some(ClockNotSet) else None
    {
      var createdAt := ResolveStart(startedAt, now);
      if createdAt.None? {
        return Some(ClockNotSet);
      }
      rows := rows[id := Row(Stopwatch, OrDefault(name, "Stopwatch"), None, None, createdAt.value)];
      return None;
    }

    method RemoveCountdownTimer(id: int) returns (found: bool)
      modifies this
      ensures found <==> IsCountdown(old(State()), id)
      ensures State() == if found then RemoveCountdowns(old(State()), {id}) else old(State())
    {
      if id !in rows || rows[id].kind != Countdown {
        return false;
      }
      UnscheduleTimer(id);
      removed := removed + Serials(State(), {id});
      born := born - {id};
      found := DeleteTimer(id);
    }

    method RemoveStopwatch(id: int) returns (found: bool)
      modifies this
      ensures found <==> IsStopwatch(old(State()), id)
      ensures State() == if found then RemoveStopwatches(old(State()), {id}) else old(State())
    {
      if id !in rows || rows[id].kind != Stopwatch {
        return false;
      }
      found := DeleteTimer(id);
    }

    // The list comprehension that keeps the rows a request matches.
    method Select(ids: seq<int>, kind: Kind, request: Request) returns (selected: seq<int>)
      requires forall i, j | 0 <= i < j < |ids| :: ids[i] != ids[j]
      requires forall id :: id in ids <==> id in rows && rows[id].kind == kind
      ensures Elements(selected) == Selected(State(), kind, request)
      ensures |selected| == |Selected(State(), kind, request)|
      ensures forall i | 0 <= i < |selected| :: selected[i] in rows && rows[selected[i]].kind == kind
      ensures forall i, j | 0 <= i < j < |selected| :: selected[i] != selected[j]
    {
      selected := [];
      for i := 0 to |ids|
        invariant forall id :: id in selected <==> id in ids[..i] && Matches(id, rows[id].name, request)
        invariant forall k, j | 0 <= k < j < |selected| :: selected[k] != selected[j]
      {
        if Matches(ids[i], rows[ids[i]].name, request) {
          selected := selected + [ids[i]];
        }
      }
      assert ids[..|ids|] == ids;
      assert forall i | 0 <= i < |selected| :: selected[i] in selected;
      forall id
        ensures id in selected <==> id in Selected(State(), kind, request)
      {
        assert id in ids <==> id in rows && rows[id].kind == kind;
      }
      assert Elements(selected) == Selected(State(), kind, request);
      DistinctSize(selected);
    }

    // The loop that removes the selected countdowns one by one.
    method RemoveEachCountdown(selected: seq<int>)
      requires forall i | 0 <= i < |selected| :: IsCountdown(State(), selected[i])
      requires forall i, j | 0 <= i < j < |selected| :: selected[i] != selected[j]
      modifies this
      ensures State() == RemoveCountdowns(old(State()), Elements(selected))
    {
      ghost var start := State();
      RemoveNone(start);
      for i := 0 to |selected|
        invariant State() == RemoveCountdowns(start, Elements(selected[..i]))
      {
        assert IsCountdown(start, selected[i]);
        assert selected[i] !in selected[..i];
        var _ := RemoveCountdownTimer(selected[i]);
        RemoveOneMore(start, selected, i);
      }
      assert selected[..|selected|] == selected;
    }

    method RemoveEachStopwatch(selected: seq<int>)
      requires forall i | 0 <= i < |selected| :: IsStopwatch(State(), selected[i])
      requires forall i, j | 0 <= i < j < |selected| :: selected[i] != selected[j]
      modifies this
      ensures State() == RemoveStopwatches(old(State()), Elements(selected))
    {
      ghost var start := State();
      assert start.rows - {} == start.rows;
      for i := 0 to |selected|
        invariant State() == RemoveStopwatches(start, Elements(selected[..i]))
      {
        assert IsStopwatch(start, selected[i]);
        assert selected[i] !in selected[..i];
        var _ := RemoveStopwatch(selected[i]);
        NextElement(selected, i);
        assert rows == start.rows - Elements(selected[..i + 1]);
      }
      assert selected[..|selected|] == selected;
    }

    method CancelTimers(request: Request, countdowns: seq<int>) returns (outcome: Outcome)
      requires Lists(countdowns, State(), IsCountdown)
      modifies this
      ensures State() == Step(old(State()), TimerModel.CancelTimers(request), now) && now == old(now)
      ensures outcome.Done? <==> Selected(old(State()), Countdown, request) != {}
      ensures outcome.Done? ==> outcome.count == |Selected(old(State()), Countdown, request)|
      ensures outcome.NoMatch? <==>
                Selected(old(State()), Countdown, request) == {} && (!request.id.NoId? || Strip(request.name) != "")
    {
      assert At(State(), now) == State();
      var selected := Select(countdowns, Countdown, request);
      if selected == [] {
        RemoveNone(State());
        return if !request.id.NoId? || Strip(request.name) != "" then NoMatch else NothingActive;
      }
      RemoveEachCountdown(selected);
      assert selected[0] in selected;
      return Done(|selected|);
    }

    method StopStopwatches(request: Request, stopwatches: seq<int>) returns (outcome: Outcome)
      requires Lists(stopwatches, State(), IsStopwatch)
      modifies this
      ensures State() == Step(old(State()), TimerModel.StopStopwatches(request), now) && now == old(now)
      ensures outcome.Done? <==> Selected(old(State()), Stopwatch, request) != {}
      ensures outcome.Done? ==> outcome.count == |Selected(old(State()), Stopwatch, request)|
      ensures outcome.NoMatch? <==>
                Selected(old(State()), Stopwatch, request) == {} && (!request.id.NoId? || Strip(request.name) != "")
    {
      assert At(State(), now) == State();
      var selected := Select(stopwatches, Stopwatch, request);
      if selected == [] {
        assert rows - {} == rows;
        return if !request.id.NoId? || Strip(request.name) != "" then NoMatch else NothingActive;
      }
      RemoveEachStopwatch(selected);
      assert selected[0] in selected;
      return Done(|selected|);
    }

    method ClearAllTimers(countdowns: seq<int>, stopwatches: seq<int>)
      requires Lists(countdowns, State(), IsCountdown)
      requires Lists(stopwatches, State(), IsStopwatch)
      modifies this
      ensures State() == Step(old(State()), ClearAll, now) && now == old(now)
    {
      ghost var start := State();
      RemoveEachCountdown(countdowns);
      ghost var middle := State();
      assert Elements(countdowns) == Selected(start, Countdown, Request(NoId, ""));
      assert forall id :: IsStopwatch(middle, id) <==> IsStopwatch(start, id);
      RemoveEachStopwatch(stopwatches);
      assert Elements(stopwatches) == Selected(middle, Stopwatch, Request(NoId, ""));
      assert At(start, start.now) == start;
    }

    method UpdateTimerLabel(id: int, name: string) returns (found: bool)
      modifies this`rows
      ensures State() == Relabel(old(State()), id, name)
      ensures found <==> id in old(rows)
    {
      if id !in rows {
        return false;
      }
      rows := rows[id := rows[id].(name := name)];
      return true;
    }
  }
}
