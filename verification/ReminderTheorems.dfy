/** The promises of the reminder service, for every run from an empty database. */
module ReminderTheorems {
  import opened Text
  import opened ReminderModel
  import opened ReminderSafety

  /** On every run reminders are unique per key, and remind `lead` minutes before the start. */
  lemma RemindersAreUnique(w: World, run: seq<Timed>, i: string, j: string)
    requires IsStart(w) && PossibleRun(w, run)
    requires i in After(w, run).rows && j in After(w, run).rows
    ensures var v := After(w, run);
            && (v.rows[i].key == v.rows[j].key ==> i == j)
            && v.rows[i].remindAt == v.rows[i].key.start - v.rows[i].lead * 60
            && v.rows[i].lead in {15, 30, 60}
  {
    assert Inv(w);
    RunKeeps(w, run);
    var v := After(w, run);
    assert RowGood(v.rows[i], v.latest[i], v.asked);
  }

  /**
   On every run each announcement answers the last upsert of its key that was accepted before it, with that
   upsert's summary and lead, and comes no earlier than the reminder's time, `lead` minutes before the start.
   */
  lemma EveryAnnouncementAnswersAnUpsert(w: World, run: seq<Timed>, i: nat)
    requires IsStart(w) && PossibleRun(w, run) && i < |After(w, run).log|
    ensures var v := After(w, run);
            && |v.fired| == |v.log| && v.fired[i].ask < v.fired[i].asksBefore <= |v.asked|
            && (forall s | v.fired[i].ask < s < v.fired[i].asksBefore :: v.asked[s].key != v.log[i].key)
            && var a := v.asked[v.fired[i].ask];
               && a.key == v.log[i].key && a.remindAt == v.log[i].key.start - v.log[i].lead * 60
               && a.remindAt <= v.log[i].at && a.at <= v.log[i].at
               && a.lead == v.log[i].lead
               && v.log[i].summary == if Strip(a.summary) == "" then "Meeting" else Strip(a.summary)
  {
    assert Inv(w);
    RunKeeps(w, run);
    var v := After(w, run);
    assert AlertGood(v.log[i], v.fired[i], v.asked, v.now);
  }

  /**
   On every run an announcement of a key is not early, and between two announcements of the same key the
   key was upserted again: the second one answers an upsert accepted after the first was made.
   */
  lemma AnnouncedOncePerUpsert(w: World, run: seq<Timed>, i: nat, j: nat)
    requires IsStart(w) && PossibleRun(w, run) && i < j < |After(w, run).log|
    requires After(w, run).log[i].key == After(w, run).log[j].key
    ensures var v := After(w, run);
            && |v.fired| == |v.log|
            && v.fired[i].ask < v.fired[i].asksBefore <= v.fired[j].ask < |v.asked|
            && v.asked[v.fired[j].ask].key == v.log[j].key
            && v.log[i].at >= v.asked[v.fired[i].ask].remindAt
            && v.log[j].at >= v.asked[v.fired[j].ask].remindAt
  {
    assert Inv(w);
    RunKeeps(w, run);
    var v := After(w, run);
    assert AlertGood(v.log[i], v.fired[i], v.asked, v.now) && AlertGood(v.log[j], v.fired[j], v.asked, v.now);
  }

  // The row that an upsert asks for.
  function RowAskedFor(e: Event): Reminder
    requires e.DoUpsert?
  {
    Reminder(e.key, e.end, e.summary, e.lead, e.key.start - e.lead * 60, None)
  }

  // The job is set for the reminder's time, or for now if that has passed.
  predicate JobInTime(at: int, r: Reminder, now: int) {
    at == if r.remindAt > now then r.remindAt else now
  }

  lemma UpsertStores(w: World, newId: string, e: Event)
    requires e.DoUpsert? && Validate(w.now, e.key, e.allDay, e.lead).None?
    requires forall i, j | i in w.rows && j in w.rows && w.rows[i].key == w.rows[j].key :: i == j
    ensures var v := Upsert(w, newId, e.key, e.end, e.summary, e.allDay, e.lead);
            && v.asked == w.asked + [Ask(e.key, e.end, e.summary, e.lead, e.key.start - e.lead * 60, w.now)]
            && (exists id | id in v.rows ::
                  v.rows[id] == RowAskedFor(e) && id in v.jobs && JobInTime(v.jobs[id], RowAskedFor(e), w.now))
            && (newId !in w.rows ==>
                  forall id | id in w.rows && w.rows[id].key != e.key :: id in v.rows && v.rows[id] == w.rows[id])
  {
    var v := Upsert(w, newId, e.key, e.end, e.summary, e.allDay, e.lead);
    var id := if ByKey(w, e.key).Some? then ByKey(w, e.key).value else newId;
    assert ByKey(w, e.key).Some? ==> HasKey(w, id, e.key);
    assert id in v.rows && v.rows[id] == RowAskedFor(e) && id in v.jobs;
  }

  /** An upsert is accepted exactly when it is valid; the key then has a row with just what was asked for. */
  lemma AcceptedUpsertIsStored(w: World, e: Event, t: int)
    requires Inv(w) && e.DoUpsert? && Possible(w, e, t)
    ensures var v := Step(w, e, t);
            if !e.allDay && e.lead in {15, 30, 60} && e.key.start > t
            then && v.asked == w.asked + [Ask(e.key, e.end, e.summary, e.lead, e.key.start - e.lead * 60, t)]
                 && (exists id | id in v.rows ::
                       v.rows[id] == RowAskedFor(e) && id in v.jobs && JobInTime(v.jobs[id], RowAskedFor(e), t))
                 && (forall id | id in w.rows && w.rows[id].key != e.key :: id in v.rows && v.rows[id] == w.rows[id])
            else v == At(w, t)
  {
    if Validate(t, e.key, e.allDay, e.lead).None? {
      UpsertStores(At(w, t), e.newId, e);
    }
  }

  /** Why an upsert is refused: the first of all-day, wrong lead and begun that applies. */
  lemma RefusedExactly(now: int, key: Key, allDay: bool, lead: int)
    ensures Validate(now, key, allDay, lead) == Some(AllDay) <==> allDay
    ensures Validate(now, key, allDay, lead) == Some(BadLead) <==> !allDay && lead !in {15, 30, 60}
    ensures Validate(now, key, allDay, lead) == Some(NotInFuture) <==>
              !allDay && lead in {15, 30, 60} && key.start <= now
  {
  }

  /** Listing removes exactly the rows of meetings that have begun, and deleting exactly the row of its key. */
  lemma RemovedExactly(w: World, key: Key, t: int, id: string)
    requires Inv(w) && id in w.rows
    ensures id in Step(w, DoList, t).rows <==> w.rows[id].key.start > t
    ensures id in Step(w, DoDelete(key), t).rows <==> w.rows[id].key != key
    ensures id in Step(w, DoDelete(key), t).jobs ==> w.rows[id].key != key
  {
    var v := At(w, t);
    assert HasKey(v, id, w.rows[id].key);
    assert ByKey(v, key).Some? ==> HasKey(v, ByKey(v, key).value, key);
  }

  // A misfire drops just its job.
  lemma MisfireDropsJob(w: World, t: int, id: string)
    ensures Step(w, JobMisfires(id), t) == At(w, t).(jobs := w.jobs - {id})
  {
  }

  /** After a restart exactly the reminders still to come have a job, for their time. */
  lemma RestartSchedulesExactly(w: World, t: int, id: string)
    ensures var v := Step(w, RestartProcess, t);
            && (id in v.jobs <==> id in w.rows && w.rows[id].firedAt.None? && w.rows[id].remindAt > t)
            && (id in v.jobs ==> v.jobs[id] == w.rows[id].remindAt)
  {
  }

  /** Firing leaves a job exactly for a reminder that is still to come, at its time, and touches no other job. */
  lemma FiringLeavesJobExactly(w: World, id: string)
    ensures var v := Complete(w, id);
            && (id in v.jobs <==> id in w.rows && w.rows[id].firedAt.None? && w.rows[id].remindAt > w.now)
            && (id in v.jobs ==> v.jobs[id] == w.rows[id].remindAt)
            && (forall k | k != id :: (k in v.jobs <==> k in w.jobs) && (k in v.jobs ==> v.jobs[k] == w.jobs[k]))
  {
  }

  /** A job that fires announces its reminder, marks it and is gone; one that has nothing to announce only goes. */
  lemma JobAnnounces(w: World, t: int, id: string)
    requires Inv(w) && Possible(w, JobFires(id), t)
    ensures var v := Step(w, JobFires(id), t);
            if id in w.rows && w.rows[id].firedAt.None? then
              && v.log == w.log + [Alert(w.rows[id].key, SpokenSummary(w.rows[id].summary), w.rows[id].lead, t)]
              && v.rows == w.rows[id := w.rows[id].(firedAt := Some(t))] && v.jobs == w.jobs - {id}
            else v.log == w.log && v.rows == w.rows && v.jobs == w.jobs - {id}
  {
    assert id in w.rows ==> CoveredRow(w, id, w.rows[id]);
    assert w.jobs - {id} - {id} == w.jobs - {id};
  }

  lemma {:induction false} CompletingDropsNothing(w: World, ids: seq<string>)
    ensures CompleteAll(w, ids).rows.Keys == w.rows.Keys
    decreases ids
  {
    if ids != [] {
      CompletingDropsNothing(Complete(w, ids[0]), ids[1..]);
    }
  }

  /** A row whose reminder is still to come disappears only when it is deleted or its meeting has begun. */
  lemma UnfiredRowsStay(w: World, e: Event, t: int, id: string)
    requires id in w.rows && w.rows[id].firedAt.None?
    ensures id !in Step(w, e, t).rows ==>
              (e == DoDelete(w.rows[id].key)) || (e.DoList? && w.rows[id].key.start <= t)
  {
    var v := At(w, t);
    if e.DoDelete? {
    } else if e.PollDue? {
      CompletingDropsNothing(v, e.due);
    }
  }

  lemma {:induction false} CompletingKeepsFired(w: World, ids: seq<string>, id: string)
    requires id in w.rows && w.rows[id].firedAt.Some?
    ensures id in CompleteAll(w, ids).rows && CompleteAll(w, ids).rows[id] == w.rows[id]
    decreases ids
  {
    if ids != [] {
      CompletingKeepsFired(Complete(w, ids[0]), ids[1..], id);
    }
  }

  /** A row that has fired stays silent until its key is upserted again. */
  lemma FiredRowsStayFired(w: World, e: Event, t: int, id: string)
    requires Possible(w, e, t)
    requires id in w.rows && w.rows[id].firedAt.Some? && id in Step(w, e, t).rows
    ensures (e.DoUpsert? && e.key == w.rows[id].key) || Step(w, e, t).rows[id] == w.rows[id]
  {
    var v := At(w, t);
    if e.DoUpsert? {
    } else if e.PollDue? {
      CompletingKeepsFired(v, e.due, id);
    }
  }

  /** A poll leaves no reminder due: each due one was announced at the poll's instant. */
  lemma {:induction false} PollFiresTheDue(w: World, ids: seq<string>, id: string)
    requires Inv(w)
    ensures IsDue(CompleteAll(w, ids), id) <==> IsDue(w, id) && id !in ids
    ensures IsDue(w, id) && id in ids ==>
              id in CompleteAll(w, ids).rows && CompleteAll(w, ids).rows[id].firedAt == Some(w.now)
    decreases ids
  {
    if ids != [] {
      var v := Complete(w, ids[0]);
      CompleteKeeps(w, ids[0]);
      PollFiresTheDue(v, ids[1..], id);
      assert ids == [ids[0]] + ids[1..];
      if ids[0] == id && IsDue(w, id) {
        CompletingKeepsFired(v, ids[1..], id);
      }
    }
  }

  // ----- What becomes of an upsert -----

  ghost predicate Pending(w: World, u: nat) {
    exists id :: id in w.latest && w.latest[id] == u && id in w.rows && w.rows[id].firedAt.None?
  }

  ghost predicate Announced(w: World, u: nat) {
    exists i :: 0 <= i < |w.fired| && w.fired[i].ask == u
  }

  // The same key was upserted again.
  ghost predicate Superseded(w: World, u: nat)
    requires u < |w.asked|
  {
    exists s :: u < s < |w.asked| && w.asked[s].key == w.asked[u].key
  }

  // Its row was deleted, or pruned after the meeting began.
  predicate Withdrawn(w: World, u: nat)
    requires u < |w.asked|
  {
    u in w.deleted || (u in w.pruned && w.asked[u].key.start <= w.now)
  }

  ghost predicate HasFate(w: World, u: nat)
    requires u < |w.asked|
  {
    Pending(w, u) || Announced(w, u) || Superseded(w, u) || Withdrawn(w, u)
  }

  ghost predicate AllHaveFates(w: World) {
    forall u: nat | u < |w.asked| :: HasFate(w, u)
  }

  lemma PutKeepsFate(w: World, id: string, key: Key, end: int, summary: string, lead: int, u: nat)
    requires Inv(w) && u < |w.asked| && HasFate(w, u)
    requires id in w.rows ==> w.rows[id].key == key
    ensures HasFate(Put(w, id, key, end, summary, lead), u)
  {
    var v := Put(w, id, key, end, summary, lead);
    if Pending(w, u) {
      var k :| k in w.latest && w.latest[k] == u && k in w.rows && w.rows[k].firedAt.None?;
      assert RowGood(w.rows[k], w.latest[k], w.asked);
      if k == id {
        assert v.asked[|w.asked|].key == v.asked[u].key;
      } else {
        assert v.latest[k] == u;
      }
    } else if Superseded(w, u) {
      var s :| u < s < |w.asked| && w.asked[s].key == w.asked[u].key;
      assert v.asked[s].key == v.asked[u].key;
    }
  }

  lemma PutKeepsFates(w: World, id: string, key: Key, end: int, summary: string, lead: int)
    requires Inv(w) && AllHaveFates(w)
    requires id in w.rows ==> w.rows[id].key == key
    ensures AllHaveFates(Put(w, id, key, end, summary, lead))
  {
    var v := Put(w, id, key, end, summary, lead);
    forall u: nat | u < |v.asked|
      ensures HasFate(v, u)
    {
      if u == |w.asked| {
        assert v.latest[id] == u && Pending(v, u);
      } else {
        PutKeepsFate(w, id, key, end, summary, lead, u);
      }
    }
  }

  // Deleting or pruning rows withdraws their last upserts.
  lemma DropKeepsFates(w: World, ids: set<string>, v: World)
    requires Inv(w) && AllHaveFates(w)
    requires v.rows == w.rows - ids && v.latest == w.latest - ids && v.asked == w.asked && v.fired == w.fired
    requires w.deleted <= v.deleted && w.pruned <= v.pruned && v.now == w.now
    requires forall u: nat | u < |w.asked| && u in LastAsks(w, ids) :: Withdrawn(v, u)
    ensures AllHaveFates(v)
  {
    forall u: nat | u < |v.asked|
      ensures HasFate(v, u)
    {
      assert HasFate(w, u);
      if Pending(w, u) {
        var k :| k in w.latest && w.latest[k] == u && k in w.rows && w.rows[k].firedAt.None?;
        assert k in ids ==> u in LastAsks(w, ids);
        assert k !in ids ==> k in v.latest && v.latest[k] == u;
      } else if Superseded(w, u) {
        assert Superseded(v, u);
      }
    }
  }

  lemma DeleteKeepsFates(w: World, key: Key)
    requires Inv(w) && AllHaveFates(w)
    ensures AllHaveFates(Delete(w, key))
  {
    if ByKey(w, key).Some? {
      DropKeepsFates(w, {ByKey(w, key).value}, Delete(w, key));
    }
  }

  lemma PruneKeepsFates(w: World)
    requires Inv(w) && AllHaveFates(w)
    ensures AllHaveFates(Prune(w))
  {
    var ids := Expired(w.rows, w.now);
    forall u: nat | u < |w.asked| && u in LastAsks(w, ids)
      ensures Withdrawn(Prune(w), u)
    {
      var k :| k in ids && k in w.latest && w.latest[k] == u;
      assert RowGood(w.rows[k], w.latest[k], w.asked);
    }
    DropKeepsFates(w, ids, Prune(w));
  }

  lemma AnnounceKeepsFate(w: World, id: string, u: nat)
    requires RowsRecorded(w) && IsDue(w, id) && u < |w.asked| && HasFate(w, u)
    ensures HasFate(Complete(w, id), u)
  {
    var v := Complete(w, id);
    assert v.fired == w.fired + [Fired(w.latest[id], |w.asked|)];
    assert v.fired[|w.fired|].ask == w.latest[id];
    if Pending(w, u) {
      var k :| k in w.latest && w.latest[k] == u && k in w.rows && w.rows[k].firedAt.None?;
      assert k != id ==> v.latest[k] == u && v.rows[k] == w.rows[k];
    } else if Announced(w, u) {
      var i :| 0 <= i < |w.fired| && w.fired[i].ask == u;
      assert v.fired[i].ask == u;
    } else if Superseded(w, u) {
      assert Superseded(v, u);
    }
  }

  // Time passing, and changes to the jobs only.
  lemma SameRowsSameFates(w: World, v: World)
    requires AllHaveFates(w) && v.now >= w.now
    requires v.rows == w.rows && v.latest == w.latest && v.asked == w.asked && v.fired == w.fired
    requires v.deleted == w.deleted && v.pruned == w.pruned
    ensures AllHaveFates(v)
  {
    forall u: nat | u < |v.asked|
      ensures HasFate(v, u)
    {
      assert HasFate(w, u);
      assert Pending(w, u) ==> Pending(v, u);
      assert Announced(w, u) ==> Announced(v, u);
      assert Superseded(w, u) ==> Superseded(v, u);
    }
  }

  lemma CompleteKeepsFates(w: World, id: string)
    requires Inv(w) && AllHaveFates(w)
    ensures AllHaveFates(Complete(w, id))
  {
    if IsDue(w, id) {
      forall u: nat | u < |Complete(w, id).asked|
        ensures HasFate(Complete(w, id), u)
      {
        AnnounceKeepsFate(w, id, u);
      }
    } else {
      SameRowsSameFates(w, Complete(w, id));
    }
  }

  lemma {:induction false} CompleteAllKeepsFates(w: World, ids: seq<string>)
    requires Inv(w) && AllHaveFates(w)
    ensures AllHaveFates(CompleteAll(w, ids))
    decreases ids
  {
    if ids != [] {
      CompleteKeeps(w, ids[0]);
      CompleteKeepsFates(w, ids[0]);
      CompleteAllKeepsFates(Complete(w, ids[0]), ids[1..]);
    }
  }

  lemma StepKeepsFates(w: World, e: Event, t: int)
    requires Inv(w) && AllHaveFates(w) && Possible(w, e, t)
    ensures AllHaveFates(Step(w, e, t))
  {
    var v := At(w, t);
    AtKeeps(w, t);
    SameRowsSameFates(w, v);
    match e
    case DoUpsert(newId, key, end, summary, allDay, lead) =>
      PutKeepsFates(v, if ByKey(v, key).Some? then ByKey(v, key).value else newId, key, end, summary, lead);
    case DoDelete(key) => DeleteKeepsFates(v, key);
    case DoList => PruneKeepsFates(v);
    case JobFires(id) =>
      JobKeeps(v, id);
      SameRowsSameFates(v, Unschedule(v, id));
      CompleteKeepsFates(Unschedule(v, id), id);
    case JobMisfires(id) => SameRowsSameFates(v, Unschedule(v, id));
    case PollDue(due) =>
      CompleteAllKeepsFates(v, due);
      PollKeeps(v, due);
      SameRowsSameFates(CompleteAll(v, due), Poll(v, due));
    case RestartProcess => SameRowsSameFates(v, Restart(v));
  }

  // ----- Promptness -----

  // The last instant, in whole seconds, at which a poll may leave an upsert unannounced.
  function LastQuiet(a: Ask): int {
    if a.remindAt > a.at then a.remindAt - 1 else a.at
  }

  predicate RowIsRecent(w: World, id: string) {
    id in w.latest && w.latest[id] < |w.asked| && LastQuiet(w.asked[w.latest[id]]) >= w.lastPoll
  }

  // At most `period` has passed since the last poll, which was allowed to leave each row that is still to
  // fire unannounced, and no announcement is later than `period` after the last such poll.
  ghost predicate Prompt(w: World, period: nat) {
    && w.lastPoll <= w.now <= w.lastPoll + period
    && (forall id | id in w.rows && w.rows[id].firedAt.None? :: RowIsRecent(w, id))
    && |w.log| == |w.fired|
    && (forall i | 0 <= i < |w.log| ::
          w.fired[i].ask < |w.asked| && w.log[i].at <= LastQuiet(w.asked[w.fired[i].ask]) + period)
  }

  // Every step comes at most `period` after the last poll: the poll is never later than that.
  ghost predicate PolledEvery(w: World, run: seq<Timed>, period: nat)
    decreases run
  {
    run != [] ==>
      && run[0].at <= w.lastPoll + period
      && PolledEvery(Step(w, run[0].event, run[0].at), run[1..], period)
  }

  lemma PutIsPrompt(w: World, id: string, key: Key, end: int, summary: string, lead: int, period: nat)
    requires Prompt(w, period)
    ensures Prompt(Put(w, id, key, end, summary, lead), period)
  {
    var v := Put(w, id, key, end, summary, lead);
    assert forall k | k in v.rows && k != id && v.rows[k].firedAt.None? :: RowIsRecent(w, k);
  }

  lemma DropIsPrompt(w: World, ids: set<string>, v: World, period: nat)
    requires Prompt(w, period)
    requires v.rows == w.rows - ids && v.latest == w.latest - ids && v.asked == w.asked && v.fired == w.fired
    requires v.log == w.log && v.now == w.now && v.lastPoll == w.lastPoll
    ensures Prompt(v, period)
  {
    assert forall k | k in v.rows && v.rows[k].firedAt.None? :: RowIsRecent(w, k);
  }

  lemma SameRowsArePrompt(w: World, v: World, period: nat)
    requires Prompt(w, period) && v == w.(jobs := v.jobs)
    ensures Prompt(v, period)
  {
    assert forall k | k in v.rows && v.rows[k].firedAt.None? :: RowIsRecent(w, k);
  }

  lemma CompleteIsPrompt(w: World, id: string, period: nat)
    requires Inv(w) && Prompt(w, period)
    ensures Prompt(Complete(w, id), period)
  {
    if IsDue(w, id) {
    } else {
      SameRowsArePrompt(w, Complete(w, id), period);
    }
  }

  lemma {:induction false} CompleteAllIsPrompt(w: World, ids: seq<string>, period: nat)
    requires Inv(w) && Prompt(w, period)
    ensures Prompt(CompleteAll(w, ids), period)
    decreases ids
  {
    if ids != [] {
      CompleteKeeps(w, ids[0]);
      CompleteIsPrompt(w, ids[0], period);
      CompleteAllIsPrompt(Complete(w, ids[0]), ids[1..], period);
    }
  }

  lemma PollIsPrompt(w: World, due: seq<string>, period: nat)
    requires Inv(w) && Prompt(w, period) && Lists(due, w, IsDue)
    ensures Prompt(Poll(w, due), period)
  {
    CompleteAllIsPrompt(w, due, period);
    CompleteAllKeeps(w, due);
    var u, v := CompleteAll(w, due), Poll(w, due);
    forall id | id in v.rows && v.rows[id].firedAt.None?
      ensures RowIsRecent(v, id)
    {
      PollFiresTheDue(w, due, id);
      assert id in due <==> IsDue(w, id);
      assert !IsDue(u, id) && RowIsRecent(u, id) && RowGood(u.rows[id], u.latest[id], u.asked);
    }
  }

  lemma AtIsPrompt(w: World, t: int, period: nat)
    requires Prompt(w, period) && w.now <= t <= w.lastPoll + period
    ensures Prompt(At(w, t), period)
  {
    var v := At(w, t);
    assert forall k | k in v.rows && v.rows[k].firedAt.None? :: RowIsRecent(w, k);
  }

  lemma StepIsPrompt(w: World, e: Event, t: int, period: nat)
    requires Inv(w) && Prompt(w, period) && Possible(w, e, t) && t <= w.lastPoll + period
    ensures Prompt(Step(w, e, t), period)
  {
    var v := At(w, t);
    AtKeeps(w, t);
    AtIsPrompt(w, t, period);
    match e
    case DoUpsert(newId, key, end, summary, allDay, lead) =>
      PutIsPrompt(v, if ByKey(v, key).Some? then ByKey(v, key).value else newId, key, end, summary, lead, period);
    case DoDelete(key) =>
      if ByKey(v, key).Some? {
        DropIsPrompt(v, {ByKey(v, key).value}, Delete(v, key), period);
      }
    case DoList => DropIsPrompt(v, Expired(v.rows, v.now), Prune(v), period);
    case JobFires(id) =>
      JobKeeps(v, id);
      SameRowsArePrompt(v, Unschedule(v, id), period);
      CompleteIsPrompt(Unschedule(v, id), id, period);
    case JobMisfires(id) => SameRowsArePrompt(v, Unschedule(v, id), period);
    case PollDue(due) => PollIsPrompt(v, due, period);
    case RestartProcess => SameRowsArePrompt(v, Restart(v), period);
  }

  lemma {:induction false} RunIsPrompt(w: World, run: seq<Timed>, period: nat)
    requires Inv(w) && AllHaveFates(w) && Prompt(w, period) && PossibleRun(w, run) && PolledEvery(w, run, period)
    ensures var v := After(w, run);
            Inv(v) && AllHaveFates(v) && Prompt(v, period)
    decreases run
  {
    if run != [] {
      StepKeeps(w, run[0].event, run[0].at);
      StepKeepsFates(w, run[0].event, run[0].at);
      StepIsPrompt(w, run[0].event, run[0].at, period);
      RunIsPrompt(Step(w, run[0].event, run[0].at), run[1..], period);
    }
  }

  /**
   If polls are never more than `period` apart, every accepted upsert is announced at most `period` after
   the later of its reminder's time and its acceptance, unless by then its key was upserted again, or its
   row was deleted, or pruned after the meeting began.  Jobs may misfire, be lost to a restart or be left
   over.
   */
  lemma AnnouncedWithinPeriod(w: World, run: seq<Timed>, period: nat, u: nat)
    requires IsStart(w) && PossibleRun(w, run) && PolledEvery(w, run, period)
    requires u < |After(w, run).asked|
    ensures var v := After(w, run);
            var a := v.asked[u];
            && LastQuiet(a) <= Earliest(a) == Max(a.remindAt, a.at)
            && (v.now > LastQuiet(a) + period ==> Announced(v, u) || Superseded(v, u) || Withdrawn(v, u))
            && |v.log| == |v.fired|
            && (forall i | 0 <= i < |v.log| && v.fired[i].ask == u ::
                  Earliest(a) <= v.log[i].at <= LastQuiet(a) + period)
  {
    assert Inv(w);
    RunIsPrompt(w, run, period);
    var v := After(w, run);
    assert HasFate(v, u);
    if Pending(v, u) {
      var k :| k in v.latest && v.latest[k] == u && k in v.rows && v.rows[k].firedAt.None?;
      assert RowIsRecent(v, k);
    }
    assert forall i | 0 <= i < |v.log| :: AlertGood(v.log[i], v.fired[i], v.asked, v.now);
  }

  // ----- Announcements and the start of the meeting -----

  ghost predicate PolledRun(w: World, run: seq<Timed>, period: nat) {
    PossibleRun(w, run) && PolledEvery(w, run, period)
  }

  // No announcement of upsert u comes after its meeting has started.
  ghost predicate NotAfterStart(w: World, run: seq<Timed>, u: nat) {
    var v := After(w, run);
    u < |v.asked| && |v.log| == |v.fired|
    && forall i | 0 <= i < |v.log| && v.fired[i].ask == u :: v.log[i].at <= v.asked[u].key.start
  }

  // What an accepted upsert asks for.
  function AskOf(e: Event, now: int): Ask
    requires e.DoUpsert?
  {
    Ask(e.key, e.end, e.summary, e.lead, RemindAt(e.key.start, e.lead), now)
  }

  predicate Accepted(w: World, e: Event) {
    e.DoUpsert? && Validate(w.now, e.key, e.allDay, e.lead).None?
  }

  lemma {:induction false} CompleteAllAsksNothing(w: World, ids: seq<string>)
    ensures CompleteAll(w, ids).asked == w.asked
    decreases ids
  {
    if ids != [] {
      CompleteAllAsksNothing(Complete(w, ids[0]), ids[1..]);
    }
  }

  lemma StepAskedGrows(w: World, e: Event, t: int)
    ensures w.asked <= Step(w, e, t).asked
  {
    if e.PollDue? {
      CompleteAllAsksNothing(At(w, t), e.due);
    }
  }

  lemma {:induction false} AskedGrows(w: World, run: seq<Timed>)
    ensures w.asked <= After(w, run).asked
    decreases run
  {
    if run != [] {
      StepAskedGrows(w, run[0].event, run[0].at);
      AskedGrows(Step(w, run[0].event, run[0].at), run[1..]);
    }
  }

  // The world after the first upsert of all.
  lemma FirstUpsert(w: World, e: Event)
    requires IsStart(w) && Accepted(w, e)
    ensures var v := Step(w, e, w.now);
            && v.rows == map[e.newId := Reminder(e.key, e.end, e.summary, e.lead, AskOf(e, w.now).remindAt, None)]
            && v.latest == map[e.newId := 0] && v.asked == [AskOf(e, w.now)]
            && v.log == [] && v.fired == [] && v.now == v.lastPoll == w.now
  {
    assert At(w, w.now) == w;
  }

  lemma FirstAsk(w: World, e: Event, rest: seq<Timed>)
    requires IsStart(w) && Accepted(w, e)
    ensures var v := After(w, [Timed(e, w.now)] + rest);
            v.asked != [] && v.asked[0] == AskOf(e, w.now)
  {
    assert ([Timed(e, w.now)] + rest)[1..] == rest;
    FirstUpsert(w, e);
    AskedGrows(Step(w, e, w.now), rest);
  }

  function Next(start: int, until: int, period: nat): (next: int)
    requires period > 0 && start < until
    ensures start < next <= until && next <= start + period
  {
    if until - start <= period then until else start + period
  }

  // Polls that find nothing, at most `period` apart, the last of them at `until`.
  ghost function Idle(start: int, until: int, period: nat): seq<Timed>
    requires period > 0 && start <= until
    decreases until - start
  {
    if start == until then []
    else
      var next := Next(start, until, period);
      [Timed(PollDue([]), next)] + Idle(next, until, period)
  }

  lemma {:induction false} EmptyPoll(w: World, t: int)
    requires forall id | id in w.rows && w.rows[id].firedAt.None? :: w.rows[id].remindAt > t
    ensures Possible(w, PollDue([]), t) <==> t >= w.now
    ensures Step(w, PollDue([]), t) == w.(now := t, lastPoll := t)
  {
    assert forall id :: !IsDue(At(w, t), id);
  }

  lemma {:induction false} RunCons(w: World, a: Timed, rest: seq<Timed>, period: nat)
    ensures var v := Step(w, a.event, a.at);
            && After(w, [a] + rest) == After(v, rest)
            && (PolledRun(w, [a] + rest, period) <==>
                  Possible(w, a.event, a.at) && a.at <= w.lastPoll + period && PolledRun(v, rest, period))
  {
    assert ([a] + rest)[1..] == rest;
  }

  // They change nothing but the clock.
  lemma {:induction false} IdleRun(w: World, until: int, period: nat, rest: seq<Timed>)
    requires period > 0 && w.now == w.lastPoll <= until
    requires w.now < until ==> forall id | id in w.rows && w.rows[id].firedAt.None? :: w.rows[id].remindAt > until
    ensures var v := w.(now := until, lastPoll := until);
            After(w, Idle(w.now, until, period) + rest) == After(v, rest)
    ensures PolledRun(w, Idle(w.now, until, period) + rest, period)
            <==> PolledRun(w.(now := until, lastPoll := until), rest, period)
    decreases until - w.now
  {
    if w.now == until {
      assert Idle(w.now, until, period) + rest == rest;
    } else {
      var next := Next(w.now, until, period);
      var a, later := Timed(PollDue([]), next), Idle(next, until, period);
      var v := w.(now := next, lastPoll := next);
      EmptyPoll(w, next);
      RunCons(w, a, later + rest, period);
      IdleRun(v, until, period, rest);
      assert [a] + later + rest == [a] + (later + rest);
      assert v.(now := until, lastPoll := until) == w.(now := until, lastPoll := until);
    }
  }

  // Polls that find nothing until an upsert has to be announced, and one `period` later.
  ghost function LateRest(a: Ask, id: string, period: nat): seq<Timed>
    requires period > 0
  {
    Idle(a.at, LastQuiet(a), period) + [Timed(PollDue([id]), LastQuiet(a) + period)]
  }

  // The run that is as late as it can be.
  ghost function LateRun(w: World, e: Event, period: nat): seq<Timed>
    requires IsStart(w) && Accepted(w, e) && period > 0
  {
    [Timed(e, w.now)] + LateRest(AskOf(e, w.now), e.newId, period)
  }

  lemma {:induction false} PollOfOne(w: World, id: string, t: int)
    requires id in w.rows && id in w.latest && w.rows.Keys == {id}
    requires w.rows[id].firedAt.None? && w.rows[id].remindAt <= t && w.now <= t && w.log == [] && w.fired == []
    ensures Possible(w, PollDue([id]), t)
    ensures var v := Step(w, PollDue([id]), t);
            && |v.log| == |v.fired| == 1 && v.log[0].at == t && v.fired[0].ask == w.latest[id] && v.asked == w.asked
  {
    var u := At(w, t);
    assert forall k :: IsDue(u, k) <==> k == id;
    assert [id][1..] == [];
    assert CompleteAll(Complete(u, id), []) == Complete(u, id);
  }

  // A row to fire that polls leave alone until `quiet`, and one more poll.
  lemma {:induction false} IdleThenPoll(w: World, id: string, quiet: int, period: nat)
    requires period > 0 && w.now == w.lastPoll <= quiet && w.log == [] && w.fired == []
    requires id in w.rows && id in w.latest && w.rows.Keys == {id} && w.rows[id].firedAt.None?
    requires w.rows[id].remindAt <= quiet + 1 && (w.now < quiet ==> w.rows[id].remindAt > quiet)
    ensures var run := Idle(w.now, quiet, period) + [Timed(PollDue([id]), quiet + period)];
            var v := After(w, run);
            && PolledRun(w, run, period) && v.asked == w.asked
            && |v.log| == |v.fired| == 1 && v.log[0].at == quiet + period && v.fired[0].ask == w.latest[id]
  {
    var poll := Timed(PollDue([id]), quiet + period);
    var u := w.(now := quiet, lastPoll := quiet);
    IdleRun(w, quiet, period, [poll]);
    PollOfOne(u, id, quiet + period);
    RunCons(u, poll, [], period);
    assert [poll] + [] == [poll];
  }

  lemma {:induction false} LateRestIsLate(v: World, a: Ask, id: string, r: Reminder, period: nat)
    requires period > 0 && v.now == v.lastPoll == a.at && v.log == [] && v.fired == []
    requires v.rows == map[id := r] && v.latest == map[id := 0] && r.firedAt.None? && r.remindAt == a.remindAt
    ensures var u := After(v, LateRest(a, id, period));
            && PolledRun(v, LateRest(a, id, period), period) && u.asked == v.asked
            && |u.log| == |u.fired| == 1 && u.log[0].at == LastQuiet(a) + period && u.fired[0].ask == 0
  {
    assert v.rows.Keys == {id};
    IdleThenPoll(v, id, LastQuiet(a), period);
  }

  lemma LateRunIsLate(w: World, e: Event, period: nat)
    requires IsStart(w) && Accepted(w, e) && period > 0
    ensures PolledRun(w, LateRun(w, e, period), period)
    ensures var v := After(w, LateRun(w, e, period));
            && |v.log| == |v.fired| == 1 && v.fired[0].ask == 0 && v.asked == [AskOf(e, w.now)]
            && v.log[0].at == LastQuiet(AskOf(e, w.now)) + period
  {
    var a := AskOf(e, w.now);
    FirstUpsert(w, e);
    LateRestIsLate(Step(w, e, w.now), a, e.newId,
                   Reminder(e.key, e.end, e.summary, e.lead, a.remindAt, None), period);
    RunCons(w, Timed(e, w.now), LateRest(a, e.newId, period), period);
  }

  /**
   With polls at most `period` apart an upsert is never announced after its meeting has started exactly when
   even the latest poll that may announce it comes before that: `period` after its acceptance, or `period`
   less a second after its reminder's time if that is later.
   */
  lemma NeverAfterStartExactly(w: World, e: Event, period: nat)
    requires IsStart(w) && Accepted(w, e)
    ensures (forall rest :: PolledRun(w, [Timed(e, w.now)] + rest, period)
                            ==> NotAfterStart(w, [Timed(e, w.now)] + rest, 0))
            <==> LastQuiet(AskOf(e, w.now)) + period <= e.key.start
  {
    if LastQuiet(AskOf(e, w.now)) + period <= e.key.start {
      forall rest | PolledRun(w, [Timed(e, w.now)] + rest, period)
        ensures NotAfterStart(w, [Timed(e, w.now)] + rest, 0)
      {
        FirstAsk(w, e, rest);
        AnnouncedWithinPeriod(w, [Timed(e, w.now)] + rest, period, 0);
      }
    } else {
      LateRunIsLate(w, e, period);
      assert !NotAfterStart(w, LateRun(w, e, period), 0);
    }
  }
}
