/**
 Meeting reminders: rows keyed by calendar, event and start, their one-shot jobs, and the announcements
 made (app/memory/meeting_reminders.py, app/meeting_reminders/service.py).  Instants are integer UTC
 seconds, and a handler call is one atomic step.
 */
module ReminderModel {
  import opened Text

  datatype Key = Key(calendar: string, event: string, start: int)

  datatype Reminder = Reminder(key: Key, end: int, summary: string, lead: int, remindAt: int, firedAt: Option<int>)

  // What `fire_reminder` logs and speaks.
  datatype Alert = Alert(key: Key, summary: string, lead: int, at: int)

  // One accepted upsert, and one announcement: of which upsert, and how many upserts came before it.
  datatype Ask = Ask(key: Key, end: int, summary: string, lead: int, remindAt: int, at: int)

  datatype Fired = Fired(ask: nat, asksBefore: nat)

  /**
   `rows`, `jobs` and `log` are the program's state; the rest is history.  `asked` lists the accepted
   upserts, `latest` gives each row's last one, `fired` says which upsert each announcement answers, and
   `deleted` and `pruned` hold the last upserts of the rows that were deleted or pruned.
   */
  datatype World = World(
    rows: map<string, Reminder>,
    jobs: map<string, int>,
    log: seq<Alert>,
    asked: seq<Ask>,
    latest: map<string, nat>,
    fired: seq<Fired>,
    deleted: set<nat>,
    pruned: set<nat>,
    now: int,
    lastPoll: int)

  function Max(a: int, b: int): (m: int)
    ensures m >= a && m >= b && (m == a || m == b)
  {
    if a >= b then a else b
  }

  function At(w: World, t: int): World {
    w.(now := t)
  }

  function Unschedule(w: World, id: string): World {
    w.(jobs := w.jobs - {id})
  }

  function Schedule(w: World, id: string, remindAt: int): World {
    w.(jobs := w.jobs[id := Max(remindAt, w.now)])
  }

  // ----- Upsert, delete, list -----

  datatype UpsertError = AllDay | BadLead | NotInFuture

  /** `validate_upsert` */
  function Validate(now: int, key: Key, allDay: bool, lead: int): Option<UpsertError> {
    if allDay then Some(AllDay)
    else if lead !in {15, 30, 60} then Some(BadLead)
    else if key.start <= now then Some(NotInFuture)
    else None
  }

  function RemindAt(start: int, leadMinutes: int): int {
    start - leadMinutes * 60
  }

  ghost predicate HasKey(w: World, id: string, key: Key) {
    id in w.rows && w.rows[id].key == key
  }

  /** `get_reminder_by_key` */
  ghost function ByKey(w: World, key: Key): Option<string> {
    if exists id :: HasKey(w, id, key) then
      var id :| HasKey(w, id, key);
      Some(id)
    else None
  }

  // The row the upsert writes: the existing one, or a new one under newId.
  function Put(w: World, id: string, key: Key, end: int, summary: string, lead: int): World {
    var remindAt := RemindAt(key.start, lead);
    Schedule(w.(rows := w.rows[id := Reminder(key, end, summary, lead, remindAt, None)],
                latest := w.latest[id := |w.asked|],
                asked := w.asked + [Ask(key, end, summary, lead, remindAt, w.now)]),
             id, remindAt)
  }

  ghost function Upsert(w: World, newId: string, key: Key, end: int, summary: string, allDay: bool, lead: int): World {
    if Validate(w.now, key, allDay, lead).Some? then w
    else match ByKey(w, key)
      case Some(id) => Put(w, id, key, end, summary, lead)
      case None => Put(w, newId, key, end, summary, lead)
  }

  function Drop(w: World, ids: set<string>): World {
    w.(rows := w.rows - ids, latest := w.latest - ids)
  }

  function LastAsks(w: World, ids: set<string>): set<nat> {
    set id | id in ids && id in w.latest :: w.latest[id]
  }

  ghost function Delete(w: World, key: Key): World {
    match ByKey(w, key)
    case Some(id) => Unschedule(Drop(w, {id}), id).(deleted := w.deleted + LastAsks(w, {id}))
    case None => w
  }

  function Expired(rows: map<string, Reminder>, now: int): set<string> {
    set id | id in rows && rows[id].key.start <= now
  }

  // Listing prunes the expired rows and leaves their jobs behind.
  function Prune(w: World): World {
    Drop(w, Expired(w.rows, w.now)).(pruned := w.pruned + LastAsks(w, Expired(w.rows, w.now)))
  }

  // ----- Firing -----

  predicate IsDue(w: World, id: string) {
    id in w.rows && w.rows[id].firedAt.None? && w.rows[id].remindAt <= w.now
  }

  function SpokenSummary(summary: string): string {
    if Strip(summary) == "" then "Meeting" else Strip(summary)
  }

  /** `fire_reminder` */
  function Complete(w: World, id: string): World {
    if id !in w.rows || w.rows[id].firedAt.Some? then Unschedule(w, id)
    else
      var r := w.rows[id];
      if r.remindAt > w.now then Schedule(w, id, r.remindAt)
      else
        Unschedule(
          w.(log := w.log + [Alert(r.key, SpokenSummary(r.summary), r.lead, w.now)],
             fired := w.fired + (if id in w.latest then [Fired(w.latest[id], |w.asked|)] else []),
             rows := w.rows[id := r.(firedAt := Some(w.now))]),
          id)
  }

  function CompleteAll(w: World, ids: seq<string>): World
    decreases ids
  {
    if ids == [] then w else CompleteAll(Complete(w, ids[0]), ids[1..])
  }

  // ids is the result of a query that selects exactly the rows that satisfy p.
  ghost predicate Lists(ids: seq<string>, w: World, p: (World, string) -> bool) {
    && (forall i, j | 0 <= i < j < |ids| :: ids[i] != ids[j])
    && (forall id :: id in ids <==> p(w, id))
  }

  /** `check_due_reminders`, with the query's result in the order it is returned. */
  function Poll(w: World, due: seq<string>): World {
    CompleteAll(w, due).(lastPoll := w.now)
  }

  predicate IsSchedulable(w: World, id: string) {
    id in w.rows && w.rows[id].firedAt.None? && w.rows[id].remindAt > w.now
  }

  function Restart(w: World): World {
    w.(jobs := map id | id in w.rows && IsSchedulable(w, id) :: Max(w.rows[id].remindAt, w.now))
  }

  // ----- Runs -----

  datatype Event =
    | DoUpsert(newId: string, key: Key, end: int, summary: string, allDay: bool, lead: int)
    | DoDelete(key: Key)
    | DoList
    | JobFires(id: string)
    | JobMisfires(id: string)
    | PollDue(due: seq<string>)
    | RestartProcess

  ghost predicate Possible(w: World, e: Event, t: int) {
    && t >= w.now
    && match e
       case DoUpsert(newId, _, _, _, _, _) => newId !in w.rows
       case JobFires(id) => id in w.jobs && w.jobs[id] <= t
       case JobMisfires(id) => id in w.jobs && w.jobs[id] <= t
       case PollDue(due) => Lists(due, At(w, t), IsDue)
       case _ => true
  }

  ghost function Step(w: World, e: Event, t: int): World {
    var w := At(w, t);
    match e
    case DoUpsert(newId, key, end, summary, allDay, lead) => Upsert(w, newId, key, end, summary, allDay, lead)
    case DoDelete(key) => Delete(w, key)
    case DoList => Prune(w)
    case JobFires(id) => Complete(Unschedule(w, id), id)
    case JobMisfires(id) => Unschedule(w, id)
    case PollDue(due) => Poll(w, due)
    case RestartProcess => Restart(w)
  }

  datatype Timed = Timed(event: Event, at: int)

  ghost predicate PossibleRun(w: World, run: seq<Timed>)
    decreases run
  {
    run != [] ==>
      && Possible(w, run[0].event, run[0].at)
      && PossibleRun(Step(w, run[0].event, run[0].at), run[1..])
  }

  ghost function After(w: World, run: seq<Timed>): World
    decreases run
  {
    if run == [] then w else After(Step(w, run[0].event, run[0].at), run[1..])
  }

  predicate IsStart(w: World) {
    w == World(map[], map[], [], [], map[], [], {}, {}, w.now, w.now)
  }
}
