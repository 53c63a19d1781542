/**
 Timers and stopwatches: the rows of the timer table, the one-shot jobs that index them, and the
 announcements made.  This file says what each operation does to that state; `TimerService` does it
 step by step and is proved against it.

 Instants are integers (seconds, UTC).  A handler call is one atomic step at one instant.
 */
module TimerModel {
  import opened Text

  datatype Kind = Countdown | Stopwatch

  // app/memory/models.py, class Timer; the map key is the row id.
  datatype Row = Row(kind: Kind, name: string, dueAt: Option<int>, duration: Option<int>, createdAt: int)

  // What `complete_timer` logs and speaks.
  datatype Notice = Notice(name: string, seconds: int, at: int)

  // The moment a countdown was created: the start asked for, and the clock's reading.
  datatype Birth = Birth(start: int, due: int, duration: int, createdAt: int, wall: int)

  /**
   `rows`, `jobs` and `log` are the program's state.  The rest is history: countdowns are numbered in
   order of creation (`made`), `born` numbers the live rows, `serials` numbers the notices, and
   `removed` holds the countdowns that a user cancelled, cleared or wiped.
   */
  datatype World = World(
    rows: map<int, Row>,
    jobs: map<int, int>,
    log: seq<Notice>,
    serials: seq<nat>,
    born: map<int, nat>,
    made: seq<Birth>,
    removed: set<nat>,
    now: int,
    lastPoll: int)

  // 2020-01-01T00:00:00Z.
  const MIN_VALID_START: int := 1577836800

  function Max(a: int, b: int): (m: int)
    ensures m >= a && m >= b && (m == a || m == b)
  {
    if a >= b then a else b
  }

  function OrDefault(name: string, default: string): string {
    if name == "" then default else name
  }

  /** `resolve_timer_start_time`; None is its ValueError. */
  function ResolveStart(startedAt: Option<int>, now: int): Option<int> {
    if startedAt.Some? && startedAt.value >= MIN_VALID_START then startedAt
    else if now >= MIN_VALID_START then Some(now)
    else None
  }

  predicate IsCountdown(w: World, id: int) {
    id in w.rows && w.rows[id].kind == Countdown
  }

  predicate IsStopwatch(w: World, id: int) {
    id in w.rows && w.rows[id].kind == Stopwatch
  }

  predicate IsDue(w: World, id: int) {
    IsCountdown(w, id) && w.rows[id].dueAt.Some? && w.rows[id].dueAt.value <= w.now
  }

  // ----- Operations -----

  function At(w: World, t: int): World {
    w.(now := t)
  }

  function Unschedule(w: World, id: int): World {
    w.(jobs := w.jobs - {id})
  }

  function Schedule(w: World, id: int, dueAt: Option<int>): World {
    match dueAt
    case None => Unschedule(w, id)
    case Some(due) => w.(jobs := w.jobs[id := Max(due, w.now)])
  }

  datatype CreateError = DurationRequired | ClockNotSet

  // Whether a countdown can be created, and the row and history it would get.
  function CountdownBirth(w: World, duration: int, startedAt: Option<int>): (Option<Birth>, Option<CreateError>) {
    var start := if startedAt.Some? then startedAt.value else w.now;
    if duration <= 0 then (None, Some(DurationRequired))
    else match ResolveStart(Some(start), w.now)
      case None => (None, Some(ClockNotSet))
      case Some(created) => (Some(Birth(start, start + duration, duration, created, w.now)), None)
  }

  function CreateCountdown(w: World, id: int, name: string, duration: int, startedAt: Option<int>): World {
    match CountdownBirth(w, duration, startedAt).0
    case None => w
    case Some(b) =>
      Schedule(
        w.(rows := w.rows[id := Row(Countdown, OrDefault(name, "Timer"), Some(b.due), Some(duration), b.createdAt)],
           born := w.born[id := |w.made|],
           made := w.made + [b]),
        id, Some(b.due))
  }

  function CreateStopwatch(w: World, id: int, name: string, startedAt: Option<int>): World {
    match ResolveStart(startedAt, w.now)
    case None => w
    case Some(created) =>
      w.(rows := w.rows[id := Row(Stopwatch, OrDefault(name, "Stopwatch"), None, None, created)])
  }

  function Serials(w: World, ids: set<int>): set<nat> {
    set id | id in ids && id in w.born :: w.born[id]
  }

  // Rows deleted by the user; only countdowns have a job to remove.
  function RemoveCountdowns(w: World, ids: set<int>): World {
    w.(rows := w.rows - ids, jobs := w.jobs - ids, born := w.born - ids, removed := w.removed + Serials(w, ids))
  }

  function RemoveStopwatches(w: World, ids: set<int>): World {
    w.(rows := w.rows - ids)
  }

  function Relabel(w: World, id: int, name: string): World {
    if id in w.rows then w.(rows := w.rows[id := w.rows[id].(name := name)]) else w
  }

  // Deletes every row and leaves the jobs behind.
  function Wipe(w: World): World {
    w.(rows := map[], born := map[], removed := w.removed + Serials(w, w.born.Keys))
  }

  // The duration `format_due_timer` speaks of.
  function NoticeSeconds(r: Row, due: int): int {
    if r.duration.Some? && r.duration.value > 0 then r.duration.value else Max(1, due - r.createdAt)
  }

  /** `complete_timer` */
  function Complete(w: World, id: int): World {
    if id !in w.rows then Unschedule(w, id)
    else
      var r := w.rows[id];
      if r.kind != Countdown || r.dueAt.None? then Unschedule(w, id)
      else if r.dueAt.value > w.now then Schedule(w, id, r.dueAt)
      else
        var name := if Strip(r.name) == "" then "Timer" else Strip(r.name);
        w.(log := w.log + [Notice(name, NoticeSeconds(r, r.dueAt.value), w.now)],
           serials := w.serials + (if id in w.born then [w.born[id]] else []),
           rows := w.rows - {id},
           born := w.born - {id},
           jobs := w.jobs - {id})
  }

  // A one-shot job leaves the job store before its handler runs.
  function Fire(w: World, id: int): World {
    Complete(Unschedule(w, id), id)
  }

  function CompleteAll(w: World, ids: seq<int>): World
    decreases ids
  {
    if ids == [] then w else CompleteAll(Complete(w, ids[0]), ids[1..])
  }

  function Elements(ids: seq<int>): set<int> {
    set id | id in ids
  }

  // ids is the result of a query that selects exactly the rows that satisfy p.
  ghost predicate Lists(ids: seq<int>, w: World, p: (World, int) -> bool) {
    && (forall i, j | 0 <= i < j < |ids| :: ids[i] != ids[j])
    && (forall id :: id in ids <==> p(w, id))
  }

  /** `check_due_timers`, with the query's result in the order it is returned. */
  function Poll(w: World, due: seq<int>): World {
    CompleteAll(w, due).(lastPoll := w.now)
  }

  // A restart loses the jobs, which are kept in memory, and schedules every countdown row again.
  function Restart(w: World): World {
    w.(jobs := map id | id in w.rows && w.rows[id].kind == Countdown && w.rows[id].dueAt.Some? ::
         Max(w.rows[id].dueAt.value, w.now))
  }

  // ----- Which rows a cancel or stop request selects (app/timers/labels.py) -----

  datatype IdArg = NoId | IdNumber(n: int) | BadId

  datatype Request = Request(id: IdArg, name: string)

  /** `timer_matches_cancel_request` */
  predicate Matches(id: int, name: string, q: Request) {
    var wanted := Lower(Strip(q.name));
    if q.id.NoId? && wanted == "" then true
    else if q.id.IdNumber? && q.id.n == id then true
    else if q.id.BadId? then false
    else wanted != "" && Lower(name) == wanted
  }

  function Selected(w: World, kind: Kind, q: Request): set<int> {
    set id | id in w.rows && w.rows[id].kind == kind && Matches(id, w.rows[id].name, q)
  }

  // ----- Runs -----

  datatype Event =
    | NewCountdown(id: int, name: string, duration: int, startedAt: Option<int>)
    | NewStopwatch(id: int, name: string, startedAt: Option<int>)
    | CancelTimers(request: Request)
    | StopStopwatches(request: Request)
    | ClearAll
    | Rename(id: int, name: string)
    | WipeAll
    | JobFires(id: int)
    | JobMisfires(id: int)
    | PollDue(due: seq<int>)
    | RestartProcess

  // Time does not go back, a new row gets an unused id, a job runs no earlier than it is set for, and
  // a query returns the rows it asks for.
  ghost predicate Possible(w: World, e: Event, t: int) {
    && t >= w.now
    && match e
       case NewCountdown(id, _, _, _) => id !in w.rows
       case NewStopwatch(id, _, _) => id !in w.rows
       case JobFires(id) => id in w.jobs && w.jobs[id] <= t
       case JobMisfires(id) => id in w.jobs && w.jobs[id] <= t
       case PollDue(due) => Lists(due, At(w, t), IsDue)
       case _ => true
  }

  function Step(w: World, e: Event, t: int): World {
    var w := At(w, t);
    match e
    case NewCountdown(id, name, duration, startedAt) => CreateCountdown(w, id, name, duration, startedAt)
    case NewStopwatch(id, name, startedAt) => CreateStopwatch(w, id, name, startedAt)
    case CancelTimers(q) => RemoveCountdowns(w, Selected(w, Countdown, q))
    case StopStopwatches(q) => RemoveStopwatches(w, Selected(w, Stopwatch, q))
    case ClearAll =>
      RemoveStopwatches(RemoveCountdowns(w, Selected(w, Countdown, Request(NoId, ""))),
                        Selected(w, Stopwatch, Request(NoId, "")))
    case Rename(id, name) => Relabel(w, id, name)
    case WipeAll => Wipe(w)
    case JobFires(id) => Fire(w, id)
    case JobMisfires(id) => Unschedule(w, id)
    case PollDue(due) => Poll(w, due)
    case RestartProcess => Restart(w)
  }

  datatype Timed = Timed(event: Event, at: int)

  ghost predicate PossibleRun(w: World, run: seq<Timed>)
    decreases run
  {
    run != [] ==>
      && Possible(w, run[0].event, run[0].at)
      && PossibleRun(Step(w, run[0].event, run[0].at), run[1..])
  }

  function After(w: World, run: seq<Timed>): World
    decreases run
  {
    if run == [] then w else After(Step(w, run[0].event, run[0].at), run[1..])
  }

  // A database and a process that are both new.
  predicate IsStart(w: World) {
    w == World(map[], map[], [], [], map[], [], {}, w.now, w.now)
  }
}
