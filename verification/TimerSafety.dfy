/** What every run of the timer service keeps, over any interleaving of its steps. */
module TimerSafety {
  import opened Text
  import opened TimerModel

  ghost predicate Live(w: World, u: nat) {
    exists id :: id in w.born && w.born[id] == u
  }

  function Times(serials: seq<nat>, u: nat): nat {
    if serials == [] then 0
    else Times(serials[..|serials| - 1], u) + if serials[|serials| - 1] == u then 1 else 0
  }

  // How many of the three fates countdown u has met, counting each announcement.
  ghost function Fates(w: World, u: nat): nat {
    (if Live(w, u) then 1 else 0) + Times(w.serials, u) + (if u in w.removed then 1 else 0)
  }

  predicate RowOf(r: Row, b: Birth) {
    r.kind == Countdown && r.dueAt == Some(b.due) && r.duration == Some(b.duration) && r.createdAt == b.createdAt
  }

  // The countdown rows are exactly the live countdowns, and hold what was recorded at their birth.
  ghost predicate RowsRecorded(w: World) {
    && (forall id :: id in w.born <==> IsCountdown(w, id))
    && (forall id | id in w.born :: w.born[id] < |w.made| && RowOf(w.rows[id], w.made[w.born[id]]))
    && (forall id | IsStopwatch(w, id) :: w.rows[id].dueAt.None?)
    && (forall i, j | i in w.born && j in w.born && w.born[i] == w.born[j] :: i == j)
  }

  predicate BirthGood(b: Birth, now: int) {
    && b.duration > 0 && b.due == b.start + b.duration && b.wall <= now
    && (b.start >= MIN_VALID_START ==> b.createdAt == b.start)
    && (b.start < MIN_VALID_START ==> b.createdAt == b.wall >= MIN_VALID_START)
  }

  ghost predicate BirthsGood(w: World) {
    forall u | 0 <= u < |w.made| :: BirthGood(w.made[u], w.now)
  }

  // Each countdown ever created has met exactly one fate.
  ghost predicate OneFate(w: World) {
    && (forall u | u in w.serials :: u < |w.made|)
    && (forall u | u in w.removed :: u < |w.made|)
    && (forall u: nat | u < |w.made| :: Fates(w, u) == 1)
  }

  // Notices are never early, nor earlier than the countdown's creation, and speak of the countdown's own duration.
  ghost predicate NoticesGood(w: World) {
    && |w.log| == |w.serials|
    && (forall i | 0 <= i < |w.log| ::
          w.serials[i] < |w.made|
          && Max(w.made[w.serials[i]].due, w.made[w.serials[i]].wall) <= w.log[i].at <= w.now
          && w.log[i].seconds == w.made[w.serials[i]].duration)
  }

  predicate CoveredRow(w: World, id: int) {
    id in w.rows && w.rows[id].dueAt.Some? &&
    (w.rows[id].dueAt.value <= w.now || (id in w.jobs && w.jobs[id] == w.rows[id].dueAt.value))
  }

  // Every countdown row is due already or has a job set for its due time.
  ghost predicate Covered(w: World) {
    forall id | id in w.born :: CoveredRow(w, id)
  }

  ghost predicate Inv(w: World) {
    RowsRecorded(w) && BirthsGood(w) && OneFate(w) && NoticesGood(w) && Covered(w)
  }

  // ----- Each step keeps the invariant -----

  lemma AtKeeps(w: World, t: int)
    requires Inv(w) && t >= w.now
    ensures Inv(At(w, t))
  {
    var v := At(w, t);
    assert forall u: nat | u < |v.made| :: Fates(w, u) == 1 && Fates(v, u) == Fates(w, u);
    assert forall id | id in v.born :: CoveredRow(w, id);
  }

  // The world after a countdown was inserted and scheduled.
  function Added(w: World, id: int, name: string, b: Birth): World {
    w.(rows := w.rows[id := Row(Countdown, name, Some(b.due), Some(b.duration), b.createdAt)],
       born := w.born[id := |w.made|],
       made := w.made + [b],
       jobs := w.jobs[id := Max(b.due, w.now)])
  }

  lemma AddedCountdownRow(w: World, id: int, name: string, b: Birth)
    requires Inv(w) && id !in w.rows && BirthGood(b, w.now)
    ensures RowsRecorded(Added(w, id, name, b)) && BirthsGood(Added(w, id, name, b))
    ensures NoticesGood(Added(w, id, name, b)) && Covered(Added(w, id, name, b))
  {
    var v := Added(w, id, name, b);
    assert id !in w.born;
    forall k | k in v.born
      ensures v.born[k] < |v.made| && RowOf(v.rows[k], v.made[v.born[k]]) && CoveredRow(v, k)
    {
      if k != id {
        assert k in w.born && CoveredRow(w, k) && RowOf(w.rows[k], w.made[w.born[k]]);
      }
    }
    forall k
      ensures k in v.born <==> IsCountdown(v, k)
    {
      assert k in w.born <==> IsCountdown(w, k);
    }
    assert forall k | IsStopwatch(v, k) :: IsStopwatch(w, k);
  }

  lemma {:induction false} TimesAbsent(serials: seq<nat>, u: nat)
    ensures u !in serials <==> Times(serials, u) == 0
  {
    if serials != [] {
      TimesAbsent(serials[..|serials| - 1], u);
      assert serials == serials[..|serials| - 1] + [serials[|serials| - 1]];
    }
  }

  lemma AddedCountdownFate(w: World, id: int, name: string, b: Birth)
    requires Inv(w) && id !in w.rows
    ensures OneFate(Added(w, id, name, b))
  {
    var v := Added(w, id, name, b);
    var n := |w.made|;
    assert id !in w.born;
    assert v.born[id] == n;
    TimesAbsent(w.serials, n);
    forall u: nat | u < |v.made|
      ensures Fates(v, u) == 1
    {
      if u == n {
        assert Live(v, n);
      } else {
        assert Fates(w, u) == 1;
        if Live(w, u) {
          var k :| k in w.born && w.born[k] == u;
          assert k in v.born && v.born[k] == u;
        }
      }
    }
  }

  lemma CreateKeeps(w: World, id: int, name: string, duration: int, startedAt: Option<int>)
    requires Inv(w) && id !in w.rows
    ensures Inv(CreateCountdown(w, id, name, duration, startedAt))
  {
    var b := CountdownBirth(w, duration, startedAt).0;
    if b.Some? {
      AddedCountdownRow(w, id, OrDefault(name, "Timer"), b.value);
      AddedCountdownFate(w, id, OrDefault(name, "Timer"), b.value);
    }
  }

  lemma StopwatchFate(w: World, id: int, name: string, startedAt: Option<int>)
    requires OneFate(w)
    ensures OneFate(CreateStopwatch(w, id, name, startedAt))
  {
    var v := CreateStopwatch(w, id, name, startedAt);
    assert forall u: nat | u < |v.made| :: Fates(w, u) == 1 && Fates(v, u) == Fates(w, u);
  }

  lemma StopwatchKeeps(w: World, id: int, name: string, startedAt: Option<int>)
    requires Inv(w) && id !in w.rows
    ensures Inv(CreateStopwatch(w, id, name, startedAt))
  {
    StopwatchFate(w, id, name, startedAt);
    var v := CreateStopwatch(w, id, name, startedAt);
    assert id !in w.born;
    assert forall k | k in v.born :: CoveredRow(w, k);
  }

  // What removing rows does to who is live.
  lemma LiveAfter(w: World, v: World, ids: set<int>, u: nat)
    requires RowsRecorded(w) && v.born == w.born - ids
    ensures Live(v, u) <==> Live(w, u) && u !in Serials(w, ids)
  {
    if Live(v, u) {
      var k :| k in v.born && v.born[k] == u;
      assert k in w.born && w.born[k] == u;
    }
    if Live(w, u) && u !in Serials(w, ids) {
      var k :| k in w.born && w.born[k] == u;
      assert k in v.born && v.born[k] == u;
    }
  }

  lemma RemoveKeeps(w: World, ids: set<int>)
    requires Inv(w)
    ensures Inv(RemoveCountdowns(w, ids))
  {
    var v := RemoveCountdowns(w, ids);
    forall u: nat | u < |v.made|
      ensures Fates(v, u) == 1
    {
      LiveAfter(w, v, ids, u);
      assert Fates(w, u) == 1;
      if u in Serials(w, ids) {
        var id :| id in ids && id in w.born && w.born[id] == u;
        assert Live(w, u);
      }
    }
    assert forall k | k in v.born :: k in w.born && CoveredRow(w, k);
  }

  lemma RemoveStopwatchesKeeps(w: World, ids: set<int>)
    requires Inv(w) && forall id | id in ids :: !IsCountdown(w, id)
    ensures Inv(RemoveStopwatches(w, ids))
  {
    var v := RemoveStopwatches(w, ids);
    assert forall id :: IsCountdown(v, id) <==> IsCountdown(w, id);
    assert forall u: nat | u < |v.made| :: Fates(w, u) == 1 && Fates(v, u) == Fates(w, u);
    assert forall k | k in v.born :: CoveredRow(w, k);
  }

  lemma RelabelKeeps(w: World, id: int, name: string)
    requires Inv(w)
    ensures Inv(Relabel(w, id, name))
  {
    var v := Relabel(w, id, name);
    assert forall k :: IsCountdown(v, k) <==> IsCountdown(w, k);
    assert forall u: nat | u < |v.made| :: Fates(w, u) == 1 && Fates(v, u) == Fates(w, u);
    assert forall k | k in v.born :: CoveredRow(w, k);
  }

  lemma WipeKeeps(w: World)
    requires Inv(w)
    ensures Inv(Wipe(w))
  {
    var v := Wipe(w);
    assert w.born - w.born.Keys == map[];
    forall u: nat | u < |v.made|
      ensures Fates(v, u) == 1
    {
      LiveAfter(w, v, w.born.Keys, u);
      assert Fates(w, u) == 1;
      if Live(w, u) {
        var id :| id in w.born && w.born[id] == u;
        assert u in Serials(w, w.born.Keys);
      }
    }
  }

  // Losing a job is harmless to a row that is due, and to any id without a countdown row.
  lemma UnscheduleKeeps(w: World, id: int)
    requires Inv(w)
    requires IsCountdown(w, id) ==> w.rows[id].dueAt.Some? && w.rows[id].dueAt.value <= w.now
    ensures Inv(Unschedule(w, id))
  {
    var v := Unschedule(w, id);
    assert forall k :: IsCountdown(v, k) <==> IsCountdown(w, k);
    assert forall u: nat | u < |v.made| :: Fates(w, u) == 1 && Fates(v, u) == Fates(w, u);
    assert forall k | k in v.born :: CoveredRow(w, k);
  }

  lemma AnnounceKeeps(w: World, id: int)
    requires Inv(w) && IsDue(w, id)
    ensures Inv(Complete(w, id))
  {
    var v := Complete(w, id);
    var n := w.born[id];
    assert v.serials == w.serials + [n];
    assert v.serials[..|v.serials| - 1] == w.serials;
    assert v.born == w.born - {id};
    assert RowsRecorded(v);
    forall u: nat | u < |v.made|
      ensures Fates(v, u) == 1
    {
      LiveAfter(w, v, {id}, u);
      assert Fates(w, u) == 1;
      assert u == n ==> Live(w, u);
      assert u in Serials(w, {id}) <==> u == n;
    }
    assert NoticesGood(v);
    assert forall k | k in v.born :: CoveredRow(w, k);
  }

  lemma CompleteKeeps(w: World, id: int)
    requires Inv(w)
    ensures Inv(Complete(w, id))
  {
    var v := Complete(w, id);
    if !IsCountdown(w, id) {
      UnscheduleKeeps(w, id);
    } else if w.rows[id].dueAt.value > w.now {
      assert forall u: nat | u < |v.made| :: Fates(w, u) == 1 && Fates(v, u) == Fates(w, u);
      assert forall k | k in v.born :: CoveredRow(w, k);
    } else {
      AnnounceKeeps(w, id);
    }
  }

  lemma {:induction false} CompleteAllKeeps(w: World, ids: seq<int>)
    requires Inv(w)
    ensures Inv(CompleteAll(w, ids))
    ensures CompleteAll(w, ids).now == w.now && CompleteAll(w, ids).lastPoll == w.lastPoll
    decreases ids
  {
    if ids != [] {
      CompleteKeeps(w, ids[0]);
      CompleteAllKeeps(Complete(w, ids[0]), ids[1..]);
    }
  }

  lemma LastPollIsHistory(w: World, t: int)
    requires Inv(w)
    ensures Inv(w.(lastPoll := t))
  {
    var v := w.(lastPoll := t);
    assert forall u: nat | u < |v.made| :: Fates(w, u) == 1 && Fates(v, u) == Fates(w, u);
    assert forall k | k in v.born :: CoveredRow(w, k);
  }

  lemma RestartKeeps(w: World)
    requires Inv(w)
    ensures Inv(Restart(w))
  {
    var v := Restart(w);
    assert forall u: nat | u < |v.made| :: Fates(w, u) == 1 && Fates(v, u) == Fates(w, u);
    assert forall k | k in v.born :: CoveredRow(w, k);
  }

  lemma StepKeeps(w: World, e: Event, t: int)
    requires Inv(w) && Possible(w, e, t)
    ensures Inv(Step(w, e, t))
    ensures Step(w, e, t).now == t
  {
    AtKeeps(w, t);
    var v := At(w, t);
    match e
    case NewCountdown(id, name, duration, startedAt) => CreateKeeps(v, id, name, duration, startedAt);
    case NewStopwatch(id, name, startedAt) => StopwatchKeeps(v, id, name, startedAt);
    case CancelTimers(q) => RemoveKeeps(v, Selected(v, Countdown, q));
    case StopStopwatches(q) => RemoveStopwatchesKeeps(v, Selected(v, Stopwatch, q));
    case ClearAll =>
      RemoveKeeps(v, Selected(v, Countdown, Request(NoId, "")));
      RemoveStopwatchesKeeps(RemoveCountdowns(v, Selected(v, Countdown, Request(NoId, ""))),
                             Selected(v, Stopwatch, Request(NoId, "")));
    case Rename(id, name) => RelabelKeeps(v, id, name);
    case WipeAll => WipeKeeps(v);
    case JobFires(id) =>
      assert IsCountdown(v, id) ==> CoveredRow(w, id);
      UnscheduleKeeps(v, id);
      CompleteKeeps(Unschedule(v, id), id);
    case JobMisfires(id) =>
      assert IsCountdown(v, id) ==> CoveredRow(w, id);
      UnscheduleKeeps(v, id);
    case PollDue(due) =>
      CompleteAllKeeps(v, due);
      LastPollIsHistory(CompleteAll(v, due), v.now);
    case RestartProcess => RestartKeeps(v);
  }

  lemma {:induction false} RunKeeps(w: World, run: seq<Timed>)
    requires Inv(w) && PossibleRun(w, run)
    ensures Inv(After(w, run))
    decreases run
  {
    if run != [] {
      StepKeeps(w, run[0].event, run[0].at);
      RunKeeps(Step(w, run[0].event, run[0].at), run[1..]);
    }
  }
}
