/** The promises of the timer service, for every run from an empty database. */
module TimerTheorems {
  import opened Text
  import opened TimerModel
  import opened TimerSafety

  // ----- Exactly one fate -----

  /**
   On every run each countdown ever created is exactly one of live, announced (once), or removed by the
   user; a live one has exactly one row, which still holds the due time it was created with.
   */
  lemma EveryCountdownHasOneFate(w: World, run: seq<Timed>, u: nat)
    requires IsStart(w) && PossibleRun(w, run) && u < |After(w, run).made|
    ensures var v := After(w, run);
            Fates(v, u) == 1 && Times(v.serials, u) <= 1
    ensures var v := After(w, run);
            forall i, j | i in v.born && j in v.born && v.born[i] == v.born[j] == u ::
              i == j && i in v.rows && RowOf(v.rows[i], v.made[u])
  {
    RunKeeps(w, run);
  }

  /**
   A countdown row's due time is its requested start plus its duration, always.  It is its stored start
   plus its duration exactly when the requested start is plausible (2020 or later): otherwise the stored
   start is replaced by the clock's reading, and the due time is not.
   */
  lemma DueIsStartPlusDuration(w: World, run: seq<Timed>, id: int)
    requires IsStart(w) && PossibleRun(w, run) && IsCountdown(After(w, run), id)
    ensures var v := After(w, run);
            && id in v.born && v.born[id] < |v.made|
            && var r, b := v.rows[id], v.made[v.born[id]];
               && r.duration.Some? && r.dueAt == Some(b.start + r.duration.value)
               && (r.dueAt.value == r.createdAt + r.duration.value <==> b.start >= MIN_VALID_START)
  {
    RunKeeps(w, run);
    var v := After(w, run);
    assert BirthGood(v.made[v.born[id]], v.now);
  }

  // A countdown asked to start in 1970 on a machine whose clock is right is due in 1970.  The function accepts
  // such a start; its present callers do not pass one.
  lemma ImplausibleStartIsDueAtOnce(w: World, id: int, now: int)
    requires IsStart(w) && now >= w.now && now >= MIN_VALID_START
    ensures var v := Step(w, NewCountdown(id, "Tea", 300, Some(0)), now);
            v.rows[id].createdAt == now && v.rows[id].dueAt == Some(300) && IsDue(v, id)
  {
  }

  /** What a due countdown is announced as: its name without blanks, or "Timer", and its full duration. */
  lemma DueCountdownIsAnnounced(w: World, id: int)
    requires Inv(w) && IsDue(w, id)
    ensures var r, v := w.rows[id], Complete(w, id);
            && r.duration.Some?
            && v.log == w.log + [Notice(if Strip(r.name) == "" then "Timer" else Strip(r.name),
                                        r.duration.value, w.now)]
            && v.rows == w.rows - {id} && id !in v.jobs
  {
    assert RowOf(w.rows[id], w.made[w.born[id]]) && BirthGood(w.made[w.born[id]], w.now);
  }

  /** Completing leaves a job exactly for a countdown that is still to come, at its time, and touches no other job. */
  lemma CompletingLeavesJobExactly(w: World, id: int)
    ensures var v := Complete(w, id);
            && (id in v.jobs <==> IsCountdown(w, id) && w.rows[id].dueAt.Some? && w.rows[id].dueAt.value > w.now)
            && (id in v.jobs ==> v.jobs[id] == w.rows[id].dueAt.value)
            && (forall k | k != id :: (k in v.jobs <==> k in w.jobs) && (k in v.jobs ==> v.jobs[k] == w.jobs[k]))
  {
  }

  /** A job that fires announces its countdown if that is due; a stale one announces nothing. */
  lemma JobAnnounces(w: World, t: int, id: int)
    requires Inv(w) && Possible(w, JobFires(id), t)
    ensures var v := Step(w, JobFires(id), t);
            if IsDue(At(w, t), id)
            then |v.log| == |w.log| + 1 && v.log[|w.log|].at == t && v.rows == w.rows - {id} && id !in v.jobs
            else v.log == w.log && v.rows == w.rows
  {
  }

  /** After a restart exactly the countdowns have a job, for their due time or at once. */
  lemma RestartSchedulesExactly(w: World, t: int, id: int)
    ensures var v := Step(w, RestartProcess, t);
            && (id in v.jobs <==> IsCountdown(w, id) && w.rows[id].dueAt.Some?)
            && (id in v.jobs ==>
                  v.jobs[id] == if w.rows[id].dueAt.value > t then w.rows[id].dueAt.value else t)
  {
  }

  // ----- What a request creates -----

  /**
   A countdown is created exactly when its duration is positive and its start, or else the clock, is plausible;
   the row has the given name, or "Timer", and is due its duration after the start asked for.  Nothing happens
   otherwise, and the error tells the two reasons apart.
   */
  lemma CountdownCreatedExactly(w: World, t: int, id: int, name: string, duration: int, startedAt: Option<int>)
    requires id !in w.rows
    ensures var v := Step(w, NewCountdown(id, name, duration, startedAt), t);
            var plausible := (startedAt.Some? && startedAt.value >= MIN_VALID_START) || t >= MIN_VALID_START;
            var start := if startedAt.Some? then startedAt.value else t;
            var (birth, error) := CountdownBirth(At(w, t), duration, startedAt);
            && (id in v.rows <==> duration > 0 && plausible)
            && (error == Some(DurationRequired) <==> duration <= 0)
            && (error == Some(ClockNotSet) <==> duration > 0 && !plausible)
            && (if id in v.rows then
                  && v.rows == w.rows[id := v.rows[id]] && v.rows[id].kind == Countdown
                  && v.rows[id].name == (if name == "" then "Timer" else name)
                  && v.rows[id].duration == Some(duration) && v.rows[id].dueAt == Some(start + duration)
                  && v.rows[id].createdAt == if start >= MIN_VALID_START then start else t
                else v == At(w, t))
  {
  }

  lemma StopwatchCreatedExactly(w: World, t: int, id: int, name: string, startedAt: Option<int>)
    requires id !in w.rows
    ensures var v := Step(w, NewStopwatch(id, name, startedAt), t);
            var plausible := startedAt.Some? && startedAt.value >= MIN_VALID_START;
            && (id in v.rows <==> plausible || t >= MIN_VALID_START)
            && (if id in v.rows then
                  v.rows == w.rows[id := Row(Stopwatch, if name == "" then "Stopwatch" else name, None, None,
                                             if plausible then startedAt.value else t)]
                else v == At(w, t))
  {
  }

  /** Renaming changes the name of its row and nothing else; a wipe leaves the jobs, a misfire drops just its job. */
  lemma SmallStepsExactly(w: World, t: int, id: int, name: string)
    ensures var v := Step(w, Rename(id, name), t);
            v == At(w, t).(rows := v.rows) && v.rows.Keys == w.rows.Keys
            && (forall k | k in w.rows :: v.rows[k] == if k == id then w.rows[k].(name := name) else w.rows[k])
    ensures Step(w, WipeAll, t).rows == map[] && Step(w, WipeAll, t).jobs == w.jobs && Step(w, WipeAll, t).log == w.log
    ensures Step(w, JobMisfires(id), t) == At(w, t).(jobs := w.jobs - {id})
  {
  }

  // ----- What a cancel or stop request takes -----

  predicate SameLabel(given: string, name: string) {
    Strip(name) != "" && Lower(given) == Lower(Strip(name))
  }

  /**
   Cancelling a number takes that countdown and no other; a name takes the countdowns with that label, in any
   case; both together take either; neither takes them all; an id that is no number takes none.
   */
  lemma CancelTakesExactly(w: World, t: int, id: int, n: int, name: string)
    requires IsCountdown(w, id)
    ensures id in Step(w, CancelTimers(Request(IdNumber(n), "")), t).rows <==> id != n
    ensures Strip(name) != "" ==>
              (id in Step(w, CancelTimers(Request(NoId, name)), t).rows <==>
                Lower(w.rows[id].name) != Lower(Strip(name)))
    ensures id in Step(w, CancelTimers(Request(IdNumber(n), name)), t).rows <==>
              id != n && !SameLabel(w.rows[id].name, name)
    ensures Strip(name) == "" ==> id !in Step(w, CancelTimers(Request(NoId, name)), t).rows
    ensures id in Step(w, CancelTimers(Request(BadId, name)), t).rows
  {
  }

  lemma StopTakesExactly(w: World, t: int, id: int, n: int, name: string)
    requires IsStopwatch(w, id)
    ensures id in Step(w, StopStopwatches(Request(IdNumber(n), "")), t).rows <==> id != n
    ensures Strip(name) != "" ==>
              (id in Step(w, StopStopwatches(Request(NoId, name)), t).rows <==>
                Lower(w.rows[id].name) != Lower(Strip(name)))
    ensures id in Step(w, StopStopwatches(Request(IdNumber(n), name)), t).rows <==>
              id != n && !SameLabel(w.rows[id].name, name)
    ensures Strip(name) == "" ==> id !in Step(w, StopStopwatches(Request(NoId, name)), t).rows
    ensures id in Step(w, StopStopwatches(Request(BadId, name)), t).rows
  {
  }

  /** Cancelling changes no other row, and removes the job of each countdown it takes and no other. */
  lemma CancelChangesNothingElse(w: World, q: Request, t: int)
    ensures var v := Step(w, CancelTimers(q), t);
            && (forall id | id in v.rows :: id in w.rows && v.rows[id] == w.rows[id])
            && (forall id | IsStopwatch(w, id) :: IsStopwatch(v, id))
            && (forall id :: id in v.jobs <==> id in w.jobs && !(IsCountdown(w, id) && id !in v.rows))
            && v.log == w.log
  {
  }

  lemma StopChangesNothingElse(w: World, q: Request, t: int)
    ensures var v := Step(w, StopStopwatches(q), t);
            && (forall id | id in v.rows :: id in w.rows && v.rows[id] == w.rows[id])
            && (forall id | IsCountdown(w, id) :: IsCountdown(v, id))
            && v.jobs == w.jobs && v.log == w.log
  {
  }

  lemma ClearTakesAll(w: World, t: int)
    ensures Step(w, ClearAll, t).rows == map[] && Step(w, ClearAll, t).log == w.log
  {
    forall id
      ensures id !in Step(w, ClearAll, t).rows
    {
      assert id in w.rows ==> IsCountdown(w, id) || IsStopwatch(w, id);
    }
  }

  // ----- Never early, and stale jobs are harmless -----

  /** No run announces a countdown before its due time, whatever stale jobs it meets. */
  lemma NeverEarly(w: World, run: seq<Timed>, i: nat)
    requires IsStart(w) && PossibleRun(w, run) && i < |After(w, run).log|
    ensures var v := After(w, run);
            |v.serials| == |v.log| && v.serials[i] < |v.made| && v.log[i].at >= v.made[v.serials[i]].due
  {
    RunKeeps(w, run);
  }

  predicate ByUser(e: Event) {
    e.StopStopwatches? || e.ClearAll? || e.WipeAll?
  }

  lemma {:induction false} OthersSurvivePoll(w: World, ids: seq<int>, id: int)
    requires id in w.rows && (w.rows[id].kind == Stopwatch || id !in ids)
    ensures id in CompleteAll(w, ids).rows && CompleteAll(w, ids).rows[id] == w.rows[id]
    decreases ids
  {
    if ids != [] {
      OthersSurvivePoll(Complete(w, ids[0]), ids[1..], id);
    }
  }

  /** No job, poll, restart or countdown command removes or changes a stopwatch, other than its name. */
  lemma StopwatchesSurvive(w: World, e: Event, t: int, id: int)
    requires Inv(w) && Possible(w, e, t) && !ByUser(e) && IsStopwatch(w, id)
    ensures var v := Step(w, e, t);
            IsStopwatch(v, id) && v.rows[id].createdAt == w.rows[id].createdAt
    ensures !(e.Rename? && e.id == id) ==> Step(w, e, t).rows[id] == w.rows[id]
  {
    if e.PollDue? {
      assert forall d :: d in e.due ==> IsCountdown(w, d);
      OthersSurvivePoll(At(w, t), e.due, id);
    }
  }

  /** A job left over from a wipe does nothing to a stopwatch that took over its id. */
  lemma StaleJobSparesStopwatch(w: World, id: int)
    requires IsStopwatch(w, id)
    ensures Fire(w, id) == Unschedule(w, id)
  {
    assert w.jobs - {id} - {id} == w.jobs - {id};
  }

  // ----- Coverage and polling -----

  /** In every reachable state each countdown is due or has a job set for its due time. */
  lemma EveryCountdownIsCovered(w: World, run: seq<Timed>, id: int)
    requires IsStart(w) && PossibleRun(w, run) && IsCountdown(After(w, run), id)
    ensures CoveredRow(After(w, run), id)
  {
    RunKeeps(w, run);
  }

  ghost predicate AllDue(w: World, ids: seq<int>) {
    && (forall i, j | 0 <= i < j < |ids| :: ids[i] != ids[j])
    && (forall i | 0 <= i < |ids| :: IsDue(w, ids[i]) && ids[i] in w.born)
  }

  ghost function SerialsOf(w: World, ids: seq<int>): seq<nat>
    requires AllDue(w, ids)
  {
    seq(|ids|, i requires 0 <= i < |ids| => w.born[ids[i]])
  }

  lemma AllDueAfterFirst(w: World, ids: seq<int>)
    requires Inv(w) && AllDue(w, ids) && ids != []
    ensures var v := Complete(w, ids[0]);
            && AllDue(v, ids[1..])
            && v.rows == w.rows - {ids[0]}
            && v.serials == w.serials + [w.born[ids[0]]]
            && SerialsOf(v, ids[1..]) == SerialsOf(w, ids)[1..]
  {
    var v := Complete(w, ids[0]);
    forall i | 0 <= i < |ids[1..]|
      ensures IsDue(v, ids[1..][i]) && ids[1..][i] in v.born && v.born[ids[1..][i]] == w.born[ids[i + 1]]
    {
      assert IsDue(w, ids[i + 1]) && ids[0] != ids[i + 1];
    }
  }

  // Completing distinct due rows removes each from the table...
  lemma {:induction false} CompleteAllRemoves(w: World, ids: seq<int>)
    requires Inv(w) && AllDue(w, ids)
    ensures CompleteAll(w, ids).rows == w.rows - Elements(ids)
    decreases ids
  {
    if ids == [] {
      assert w.rows - {} == w.rows;
    } else {
      CompleteKeeps(w, ids[0]);
      AllDueAfterFirst(w, ids);
      CompleteAllRemoves(Complete(w, ids[0]), ids[1..]);
    }
  }

  // ... and announces it, in order.
  lemma {:induction false} CompleteAllAnnounces(w: World, ids: seq<int>)
    requires Inv(w) && AllDue(w, ids)
    ensures CompleteAll(w, ids).serials == w.serials + SerialsOf(w, ids)
    decreases ids
  {
    if ids != [] {
      CompleteKeeps(w, ids[0]);
      AllDueAfterFirst(w, ids);
      CompleteAllAnnounces(Complete(w, ids[0]), ids[1..]);
      assert SerialsOf(w, ids) == [w.born[ids[0]]] + SerialsOf(w, ids)[1..];
    }
  }

  /** A poll announces exactly the due countdowns, once each, and leaves none due. */
  lemma PollAnnouncesTheDue(w: World, due: seq<int>)
    requires Inv(w) && Lists(due, w, IsDue)
    ensures AllDue(w, due)
    ensures Poll(w, due).rows == w.rows - Elements(due)
    ensures Poll(w, due).serials == w.serials + SerialsOf(w, due)
    ensures forall id :: !IsDue(Poll(w, due), id)
  {
    assert forall i | 0 <= i < |due| :: due[i] in due;
    CompleteAllRemoves(w, due);
    CompleteAllAnnounces(w, due);
    CompleteAllKeeps(w, due);
    forall id
      ensures !IsDue(Poll(w, due), id)
    {
      assert id in due <==> IsDue(w, id);
    }
  }

  // ----- Promptness -----

  // When a countdown could first be announced.
  function Earliest(b: Birth): int {
    Max(b.due, b.wall)
  }

  // At most `period` has passed since the last poll, nothing live was due then, and no notice is later
  // than `period` after it could first be given.
  ghost predicate Prompt(w: World, period: nat) {
    && w.lastPoll <= w.now <= w.lastPoll + period
    && (forall id | id in w.born :: w.born[id] < |w.made| && Earliest(w.made[w.born[id]]) >= w.lastPoll)
    && |w.log| == |w.serials|
    && (forall i | 0 <= i < |w.log| ::
          w.serials[i] < |w.made| && w.log[i].at <= Earliest(w.made[w.serials[i]]) + period)
  }

  // Every step comes at most `period` after the last poll: the poll is never later than that.
  ghost predicate PolledEvery(w: World, run: seq<Timed>, period: nat)
    decreases run
  {
    run != [] ==>
      && run[0].at <= w.lastPoll + period
      && PolledEvery(Step(w, run[0].event, run[0].at), run[1..], period)
  }

  lemma {:induction false} CompleteAllIsPrompt(w: World, ids: seq<int>, period: nat)
    requires Inv(w) && Prompt(w, period)
    ensures Prompt(CompleteAll(w, ids), period)
    decreases ids
  {
    if ids != [] {
      CompleteKeeps(w, ids[0]);
      CompleteAllIsPrompt(Complete(w, ids[0]), ids[1..], period);
    }
  }

  lemma CreateIsPrompt(w: World, id: int, name: string, duration: int, startedAt: Option<int>, period: nat)
    requires Prompt(w, period) && id !in w.rows
    ensures Prompt(CreateCountdown(w, id, name, duration, startedAt), period)
  {
  }

  lemma PollIsPrompt(w: World, due: seq<int>, period: nat)
    requires Inv(w) && Prompt(w, period) && Lists(due, w, IsDue)
    ensures Prompt(Poll(w, due), period)
  {
    CompleteAllIsPrompt(w, due, period);
    CompleteAllKeeps(w, due);
    PollAnnouncesTheDue(w, due);
    var u, v := CompleteAll(w, due), Poll(w, due);
    forall id | id in v.born
      ensures Earliest(v.made[v.born[id]]) >= v.lastPoll
    {
      assert IsCountdown(u, id) && !IsDue(v, id);
    }
  }

  lemma StepIsPrompt(w: World, e: Event, t: int, period: nat)
    requires Inv(w) && Prompt(w, period) && Possible(w, e, t) && t <= w.lastPoll + period
    ensures Prompt(Step(w, e, t), period)
  {
    var v := At(w, t);
    AtKeeps(w, t);
    match e
    case NewCountdown(id, name, duration, startedAt) =>
      CreateIsPrompt(v, id, name, duration, startedAt, period);
    case JobFires(id) =>
      assert IsCountdown(v, id) ==> CoveredRow(w, id);
      UnscheduleKeeps(v, id);
    case PollDue(due) =>
      PollIsPrompt(v, due, period);
    case _ =>
  }

  lemma {:induction false} RunIsPrompt(w: World, run: seq<Timed>, period: nat)
    requires Inv(w) && Prompt(w, period) && PossibleRun(w, run) && PolledEvery(w, run, period)
    ensures Inv(After(w, run)) && Prompt(After(w, run), period)
    decreases run
  {
    if run != [] {
      StepKeeps(w, run[0].event, run[0].at);
      StepIsPrompt(w, run[0].event, run[0].at, period);
      RunIsPrompt(Step(w, run[0].event, run[0].at), run[1..], period);
    }
  }

  /**
   If polls are never more than `period` apart, every countdown is announced no earlier than its due time
   and its creation, and at most `period` after the later of the two, unless the user removed it first:
   past that moment it is no longer live.  Jobs may misfire, be lost to a restart or be left over.
   */
  lemma AnnouncedWithinPeriod(w: World, run: seq<Timed>, period: nat, u: nat)
    requires IsStart(w) && PossibleRun(w, run) && PolledEvery(w, run, period)
    requires u < |After(w, run).made|
    ensures var v := After(w, run);
            var b := v.made[u];
            && (v.now > Earliest(b) + period ==> Times(v.serials, u) + (if u in v.removed then 1 else 0) == 1)
            && |v.log| == |v.serials|
            && (forall i | 0 <= i < |v.log| && v.serials[i] == u :: Earliest(b) <= v.log[i].at <= Earliest(b) + period)
  {
    RunIsPrompt(w, run, period);
    var v := After(w, run);
    assert Fates(v, u) == 1;
  }

  // A run in which each announcement of countdown u comes between its due time and `period` after it.
  ghost predicate KeepsWindow(w: World, run: seq<Timed>, period: nat, u: nat) {
    var v := After(w, run);
    u < |v.made| && |v.log| == |v.serials|
    && forall i | 0 <= i < |v.log| && v.serials[i] == u :: v.made[u].due <= v.log[i].at <= v.made[u].due + period
  }

  ghost predicate PolledRun(w: World, run: seq<Timed>, period: nat) {
    PossibleRun(w, run) && PolledEvery(w, run, period)
  }

  lemma {:induction false} CompleteAllMakesNone(w: World, ids: seq<int>)
    ensures CompleteAll(w, ids).made == w.made
    decreases ids
  {
    if ids != [] {
      CompleteAllMakesNone(Complete(w, ids[0]), ids[1..]);
    }
  }

  lemma StepMadeGrows(w: World, e: Event, t: int)
    ensures w.made <= Step(w, e, t).made
  {
    if e.PollDue? {
      CompleteAllMakesNone(At(w, t), e.due);
    }
  }

  lemma {:induction false} MadeGrows(w: World, run: seq<Timed>)
    ensures w.made <= After(w, run).made
    decreases run
  {
    if run != [] {
      StepMadeGrows(w, run[0].event, run[0].at);
      MadeGrows(Step(w, run[0].event, run[0].at), run[1..]);
    }
  }

  // The first countdown of a run keeps its number and its birth.
  lemma FirstCountdown(w: World, e: Event, rest: seq<Timed>)
    requires IsStart(w) && e.NewCountdown? && CountdownBirth(w, e.duration, e.startedAt).0.Some?
    ensures var v := After(w, [Timed(e, w.now)] + rest);
            v.made != [] && v.made[0] == CountdownBirth(w, e.duration, e.startedAt).0.value
  {
    var v := Step(w, e, w.now);
    assert ([Timed(e, w.now)] + rest)[1..] == rest;
    assert At(w, w.now) == w;
    assert v.made == [CountdownBirth(w, e.duration, e.startedAt).0.value];
    MadeGrows(v, rest);
  }

  lemma {:induction false} RunOfOne(w: World, a: Timed, period: nat)
    ensures After(w, [a]) == Step(w, a.event, a.at)
    ensures PossibleRun(w, [a]) <==> Possible(w, a.event, a.at)
    ensures PolledEvery(w, [a], period) <==> a.at <= w.lastPoll + period
  {
    var v := Step(w, a.event, a.at);
    assert [a][1..] == [];
    assert After(v, []) == v && PossibleRun(v, []) && PolledEvery(v, [], period);
  }

  lemma {:induction false} RunOfTwo(w: World, a: Timed, b: Timed, period: nat)
    ensures var u := Step(w, a.event, a.at);
            && After(w, [a] + [b]) == Step(u, b.event, b.at)
            && (PossibleRun(w, [a] + [b]) <==> Possible(w, a.event, a.at) && Possible(u, b.event, b.at))
            && (PolledEvery(w, [a] + [b], period) <==> a.at <= w.lastPoll + period && b.at <= u.lastPoll + period)
  {
    var u := Step(w, a.event, a.at);
    RunOfOne(u, b, period);
    assert ([a] + [b])[1..] == [b];
  }

  lemma {:induction false} PollOfOne(w: World, id: int)
    ensures Poll(w, [id]) == Complete(w, id).(lastPoll := w.now)
  {
    assert [id][1..] == [];
    assert CompleteAll(Complete(w, id), []) == Complete(w, id);
  }

  // Created overdue, its job dropped, and found by a poll `period` after its creation.
  lemma OverdueMayBeLate(w: World, e: Event, period: nat)
    requires IsStart(w) && e.NewCountdown? && CountdownBirth(w, e.duration, e.startedAt).0.Some?
    requires CountdownBirth(w, e.duration, e.startedAt).0.value.due < w.now
    ensures var run := [Timed(e, w.now)] + [Timed(PollDue([e.id]), w.now + period)];
            PolledRun(w, run, period) && !KeepsWindow(w, run, period, 0)
  {
    var first, poll := Timed(e, w.now), Timed(PollDue([e.id]), w.now + period);
    RunOfTwo(w, first, poll, period);
    var u := At(Step(w, e, w.now), w.now + period);
    assert forall id :: IsDue(u, id) <==> id == e.id;
    PollOfOne(u, e.id);
    FirstCountdown(w, e, [poll]);
    var v := After(w, [first] + [poll]);
    assert v == Complete(u, e.id).(lastPoll := u.now);
    assert v.serials == [0] && v.log[0].at == w.now + period;
  }

  /**
   The window from the due time to `period` after it is guaranteed exactly to countdowns that are not
   overdue when they are created.
   */
  lemma WindowGuaranteedExactly(w: World, e: Event, period: nat)
    requires IsStart(w) && e.NewCountdown? && CountdownBirth(w, e.duration, e.startedAt).0.Some?
    ensures (forall rest :: PolledRun(w, [Timed(e, w.now)] + rest, period)
                            ==> KeepsWindow(w, [Timed(e, w.now)] + rest, period, 0))
            <==> CountdownBirth(w, e.duration, e.startedAt).0.value.due >= w.now
  {
    var b := CountdownBirth(w, e.duration, e.startedAt).0.value;
    if b.due >= w.now {
      forall rest | PolledRun(w, [Timed(e, w.now)] + rest, period)
        ensures KeepsWindow(w, [Timed(e, w.now)] + rest, period, 0)
      {
        FirstCountdown(w, e, rest);
        AnnouncedWithinPeriod(w, [Timed(e, w.now)] + rest, period, 0);
      }
    } else {
      OverdueMayBeLate(w, e, period);
    }
  }

  /** A countdown created more than `period` after its due time always misses that window. */
  lemma LongOverdueIsLate(w: World, run: seq<Timed>, period: nat, i: nat)
    requires IsStart(w) && PossibleRun(w, run) && i < |After(w, run).log|
    ensures var v := After(w, run);
            && |v.serials| == |v.log| && v.serials[i] < |v.made|
            && var b := v.made[v.serials[i]]; b.wall > b.due + period ==> v.log[i].at > b.due + period
  {
    RunKeeps(w, run);
  }
}
