/** What every run of the reminder service keeps. */
module ReminderSafety {
  import opened ReminderModel

  ghost predicate UniqueKeys(w: World) {
    forall i, j | i in w.rows && j in w.rows && w.rows[i].key == w.rows[j].key :: i == j
  }

  ghost predicate RowGood(r: Reminder, ask: nat, asked: seq<Ask>) {
    && r.lead in {15, 30, 60} && r.remindAt == RemindAt(r.key.start, r.lead)
    && ask < |asked| && asked[ask].key == r.key && asked[ask].remindAt == r.remindAt
    && asked[ask].end == r.end && asked[ask].summary == r.summary && asked[ask].lead == r.lead
    && (forall s | ask < s < |asked| :: asked[s].key != r.key)
  }

  // Each row holds what its key's last upsert asked for.
  ghost predicate RowsRecorded(w: World) {
    && w.latest.Keys == w.rows.Keys
    && (forall id | id in w.rows :: RowGood(w.rows[id], w.latest[id], w.asked))
  }

  // When an upsert could first be announced.
  function Earliest(a: Ask): int {
    Max(a.remindAt, a.at)
  }

  // An announcement is of the last upsert of its key that came before it, and is not early.
  predicate AlertGood(a: Alert, f: Fired, asked: seq<Ask>, now: int) {
    && f.ask < f.asksBefore <= |asked|
    && asked[f.ask].key == a.key && asked[f.ask].remindAt == RemindAt(a.key.start, a.lead)
    && asked[f.ask].lead == a.lead && a.summary == SpokenSummary(asked[f.ask].summary)
    && Earliest(asked[f.ask]) <= a.at <= now
    && (forall s | f.ask < s < f.asksBefore :: asked[s].key != a.key)
  }

  ghost predicate AlertsGood(w: World) {
    && |w.log| == |w.fired|
    && (forall i | 0 <= i < |w.log| :: AlertGood(w.log[i], w.fired[i], w.asked, w.now))
  }

  ghost predicate AsksPast(w: World) {
    forall u | 0 <= u < |w.asked| :: w.asked[u].at <= w.now
  }

  // Between two announcements of a key there is an upsert of it, which the second one answers; and an
  // unfired row's last upsert is later than every announcement of its key.
  ghost predicate OncePerUpsert(w: World)
    requires |w.log| == |w.fired|
  {
    && (forall i, j | 0 <= i < j < |w.log| && w.log[i].key == w.log[j].key ::
          w.fired[i].asksBefore <= w.fired[j].ask)
    && (forall id, i | id in w.rows && w.rows[id].firedAt.None? && 0 <= i < |w.log| && w.log[i].key == w.rows[id].key ::
          id in w.latest && w.fired[i].asksBefore <= w.latest[id])
  }

  predicate CoveredRow(w: World, id: string, r: Reminder) {
    r.firedAt.Some? || r.remindAt <= w.now || (id in w.jobs && w.jobs[id] == r.remindAt)
  }

  ghost predicate Covered(w: World) {
    forall id | id in w.rows :: CoveredRow(w, id, w.rows[id])
  }

  ghost predicate Inv(w: World) {
    UniqueKeys(w) && RowsRecorded(w) && AsksPast(w) && AlertsGood(w) && OncePerUpsert(w) && Covered(w)
  }

  // ----- Each step keeps the invariant -----

  lemma AtKeeps(w: World, t: int)
    requires Inv(w) && t >= w.now
    ensures Inv(At(w, t))
  {
    var v := At(w, t);
    assert forall id | id in v.rows :: CoveredRow(w, id, w.rows[id]);
  }

  // The row of a key is the only one with that key.
  ghost predicate OnlyRow(w: World, id: string, key: Key) {
    forall k | k in w.rows && k != id :: w.rows[k].key != key
  }

  lemma PutKeepsRecorded(w: World, id: string, key: Key, end: int, summary: string, lead: int)
    requires RowsRecorded(w) && OnlyRow(w, id, key) && lead in {15, 30, 60}
    ensures RowsRecorded(Put(w, id, key, end, summary, lead))
  {
    var v := Put(w, id, key, end, summary, lead);
    assert forall k | k in v.rows :: RowGood(v.rows[k], v.latest[k], v.asked);
  }

  lemma PutKeepsRows(w: World, id: string, key: Key, end: int, summary: string, lead: int)
    requires Inv(w) && lead in {15, 30, 60}
    requires forall k :: HasKey(w, k, key) ==> k == id
    ensures var v := Put(w, id, key, end, summary, lead);
            UniqueKeys(v) && RowsRecorded(v) && Covered(v)
  {
    var v := Put(w, id, key, end, summary, lead);
    forall k | k in w.rows && k != id
      ensures w.rows[k].key != key
    {
      assert !HasKey(w, k, key);
    }
    assert OnlyRow(w, id, key);
    PutKeepsRecorded(w, id, key, end, summary, lead);
  }

  lemma PutKeepsAlerts(w: World, id: string, key: Key, end: int, summary: string, lead: int)
    requires AsksPast(w) && AlertsGood(w)
    ensures AsksPast(Put(w, id, key, end, summary, lead)) && AlertsGood(Put(w, id, key, end, summary, lead))
  {
    var v := Put(w, id, key, end, summary, lead);
    forall i | 0 <= i < |v.log|
      ensures AlertGood(v.log[i], v.fired[i], v.asked, v.now)
    {
      assert AlertGood(w.log[i], w.fired[i], w.asked, w.now);
    }
  }

  lemma PutKeeps(w: World, id: string, key: Key, end: int, summary: string, lead: int)
    requires Inv(w) && lead in {15, 30, 60}
    requires forall k :: HasKey(w, k, key) ==> k == id
    requires id in w.rows ==> w.rows[id].key == key
    ensures Inv(Put(w, id, key, end, summary, lead))
  {
    PutKeepsRows(w, id, key, end, summary, lead);
    PutKeepsAlerts(w, id, key, end, summary, lead);
  }

  lemma UnscheduleKeeps(w: World, id: string)
    requires Inv(w)
    requires id in w.rows ==> w.rows[id].firedAt.Some? || w.rows[id].remindAt <= w.now
    ensures Inv(Unschedule(w, id))
  {
    var v := Unschedule(w, id);
    assert forall k | k in v.rows :: CoveredRow(w, k, w.rows[k]);
  }

  lemma AnnounceKeepsCover(w: World, id: string)
    requires Covered(w) && IsDue(w, id)
    ensures Covered(Complete(w, id))
  {
    var v := Complete(w, id);
    assert forall k | k in v.rows && k != id :: v.rows[k] == w.rows[k] && CoveredRow(w, k, w.rows[k]);
  }

  lemma AnnounceKeepsAlerts(w: World, id: string)
    requires Inv(w) && IsDue(w, id)
    ensures AsksPast(Complete(w, id)) && AlertsGood(Complete(w, id))
  {
    var v := Complete(w, id);
    assert RowGood(w.rows[id], w.latest[id], w.asked);
    assert v.fired == w.fired + [Fired(w.latest[id], |w.asked|)];
    forall i | 0 <= i < |v.log|
      ensures AlertGood(v.log[i], v.fired[i], v.asked, v.now)
    {
      assert i < |w.log| ==> AlertGood(w.log[i], w.fired[i], w.asked, w.now);
    }
  }

  lemma AnnounceKeepsOnce(w: World, id: string)
    requires Inv(w) && IsDue(w, id) && |Complete(w, id).log| == |Complete(w, id).fired|
    ensures OncePerUpsert(Complete(w, id))
  {
    var v := Complete(w, id);
    assert v.fired == w.fired + [Fired(w.latest[id], |w.asked|)];
    assert v.log[..|w.log|] == w.log && v.log[|w.log|].key == w.rows[id].key;
    assert forall i | 0 <= i < |w.log| :: AlertGood(w.log[i], w.fired[i], w.asked, w.now);
  }

  lemma CompleteKeeps(w: World, id: string)
    requires Inv(w)
    ensures Inv(Complete(w, id))
    ensures Complete(w, id).now == w.now
  {
    if id !in w.rows || w.rows[id].firedAt.Some? {
      UnscheduleKeeps(w, id);
    } else if w.rows[id].remindAt > w.now {
      var v := Complete(w, id);
      assert forall k | k in v.rows :: CoveredRow(w, k, w.rows[k]);
    } else {
      AnnounceKeepsCover(w, id);
      AnnounceKeepsAlerts(w, id);
      AnnounceKeepsOnce(w, id);
    }
  }

  lemma {:induction false} CompleteAllKeeps(w: World, ids: seq<string>)
    requires Inv(w)
    ensures Inv(CompleteAll(w, ids)) && CompleteAll(w, ids).now == w.now
    decreases ids
  {
    if ids != [] {
      CompleteKeeps(w, ids[0]);
      CompleteAllKeeps(Complete(w, ids[0]), ids[1..]);
    }
  }

  lemma RestartKeeps(w: World)
    requires Inv(w)
    ensures Inv(Restart(w))
  {
    assert Covered(Restart(w));
  }

  lemma HistoryKeeps(w: World, deleted: set<nat>, pruned: set<nat>, lastPoll: int)
    requires Inv(w)
    ensures Inv(w.(deleted := deleted, pruned := pruned, lastPoll := lastPoll))
  {
    var v := w.(deleted := deleted, pruned := pruned, lastPoll := lastPoll);
    assert forall id | id in v.rows :: RowGood(w.rows[id], w.latest[id], w.asked) && CoveredRow(w, id, w.rows[id]);
    assert forall i | 0 <= i < |v.log| :: AlertGood(w.log[i], w.fired[i], w.asked, w.now);
  }

  lemma UpsertKeeps(w: World, newId: string, key: Key, end: int, summary: string, allDay: bool, lead: int)
    requires Inv(w) && newId !in w.rows
    ensures Inv(Upsert(w, newId, key, end, summary, allDay, lead))
  {
    if Validate(w.now, key, allDay, lead).None? {
      PutKeeps(w, if ByKey(w, key).Some? then ByKey(w, key).value else newId, key, end, summary, lead);
    }
  }

  lemma DropKeeps(w: World, ids: set<string>)
    requires Inv(w)
    ensures Inv(Drop(w, ids))
  {
    var v := Drop(w, ids);
    assert forall id | id in v.rows :: RowGood(w.rows[id], w.latest[id], w.asked) && CoveredRow(w, id, w.rows[id]);
    assert forall i | 0 <= i < |v.log| :: AlertGood(w.log[i], w.fired[i], w.asked, w.now);
  }

  lemma DeleteKeeps(w: World, key: Key)
    requires Inv(w)
    ensures Inv(Delete(w, key))
  {
    if ByKey(w, key).Some? {
      var id := ByKey(w, key).value;
      DropKeeps(w, {id});
      UnscheduleKeeps(Drop(w, {id}), id);
      HistoryKeeps(Unschedule(Drop(w, {id}), id), w.deleted + LastAsks(w, {id}), w.pruned, w.lastPoll);
    }
  }

  lemma PruneKeeps(w: World)
    requires Inv(w)
    ensures Inv(Prune(w))
  {
    var ids := Expired(w.rows, w.now);
    DropKeeps(w, ids);
    HistoryKeeps(Drop(w, ids), w.deleted, w.pruned + LastAsks(w, ids), w.lastPoll);
  }

  lemma PollKeeps(w: World, due: seq<string>)
    requires Inv(w)
    ensures Inv(Poll(w, due)) && Poll(w, due).now == w.now
  {
    CompleteAllKeeps(w, due);
    var v := CompleteAll(w, due);
    HistoryKeeps(v, v.deleted, v.pruned, w.now);
  }

  lemma JobKeeps(w: World, id: string)
    requires Inv(w) && id in w.jobs && w.jobs[id] <= w.now
    ensures Inv(Unschedule(w, id)) && Inv(Complete(Unschedule(w, id), id))
  {
    assert id in w.rows ==> CoveredRow(w, id, w.rows[id]);
    UnscheduleKeeps(w, id);
    CompleteKeeps(Unschedule(w, id), id);
  }

  lemma StepKeeps(w: World, e: Event, t: int)
    requires Inv(w) && Possible(w, e, t)
    ensures Inv(Step(w, e, t)) && Step(w, e, t).now == t
  {
    AtKeeps(w, t);
    var v := At(w, t);
    match e
    case DoUpsert(newId, key, end, summary, allDay, lead) => UpsertKeeps(v, newId, key, end, summary, allDay, lead);
    case DoDelete(key) => DeleteKeeps(v, key);
    case DoList => PruneKeeps(v);
    case JobFires(id) => JobKeeps(v, id);
    case JobMisfires(id) => JobKeeps(v, id);
    case PollDue(due) => PollKeeps(v, due);
    case RestartProcess => RestartKeeps(v);
  }

  lemma {:induction false} RunKeeps(w: World, run: seq<Timed>)
    requires Inv(w) && PossibleRun(w, run)
    ensures Inv(After(w, run))
    decreases run
  {
    if run != [] {
      StepKeeps(w, run[0].event, run[0].at);
      RunKeeps(Step(w, run[0].event, run[0].at), run[1..]);
    }
  }
}
