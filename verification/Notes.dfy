/**
 Nano's follow-up notes and their backoff (app/memory/internal_note_service.py,
 app/memory/internal_notes.py).
 */
module Notes {
  import opened Text

  datatype Status = Pending | Delivered | Dismissed

  datatype Note = Note(status: Status, attempts: nat, nextAttemptAt: int)

  // The settings, with the bounds that app/config.py puts on them.
  datatype Config = Config(retryInterval: nat, maxInterval: nat, maxAttempts: nat)

  predicate GoodConfig(c: Config) {
    c.retryInterval >= 60 && c.maxInterval >= 300 && c.maxAttempts >= 1
  }

  function Power2(k: nat): nat {
    if k == 0 then 1 else 2 * Power2(k - 1)
  }

  function Min(a: nat, b: nat): (m: nat)
    ensures m <= a && m <= b && (m == a || m == b)
  {
    if a <= b then a else b
  }

  function Delay(c: Config, attempts: nat): nat {
    Min(c.retryInterval * Power2(attempts), c.maxInterval)
  }

  /** `_reschedule_existing` */
  function Defer(c: Config, n: Note, now: int): Note {
    if n.attempts + 1 >= c.maxAttempts then n.(status := Dismissed)
    else n.(attempts := n.attempts + 1, nextAttemptAt := now + Delay(c, n.attempts))
  }

  // A new note, due at the given moment or after the retry interval.
  function Fresh(c: Config, now: int, at: Option<int>): Note {
    Note(Pending, 0, if at.Some? then at.value else now + c.retryInterval)
  }

  predicate IsDue(n: Note, now: int) {
    n.status == Pending && n.nextAttemptAt <= now
  }

  // ----- The note table and the service -----

  // The rows by id.  History: `born` numbers the notes in order of creation, `made` counts them; ids can be
  // used again after a wipe, numbers are not.
  datatype Table = Table(notes: map<nat, Note>, born: map<nat, nat>, made: nat)

  datatype Op =
    | Record(id: nat, at: Option<int>)
    | DeferOffer(note: Option<nat>, newId: nat)
    | Attempted(id: nat)
    | Deliver(id: nat)
    | Wipe

  function Add(t: Table, id: nat, n: Note): Table {
    Table(t.notes[id := n], t.born[id := t.made], t.made + 1)
  }

  function Change(t: Table, id: nat, n: Note): Table {
    t.(notes := t.notes[id := n])
  }

  function Step(c: Config, t: Table, op: Op, now: int): Table {
    match op
    case Record(id, at) => Add(t, id, Fresh(c, now, at))
    case DeferOffer(note, newId) =>
      if note.Some? && note.value in t.notes then Change(t, note.value, Defer(c, t.notes[note.value], now))
      else Add(t, newId, Fresh(c, now, None))
    case Attempted(id) =>
      if id in t.notes then Change(t, id, t.notes[id].(attempts := t.notes[id].attempts + 1)) else t
    case Deliver(id) => if id in t.notes then Change(t, id, t.notes[id].(status := Delivered)) else t
    case Wipe => t.(notes := map[], born := map[])
  }

  // New rows get unused ids.
  predicate Possible(t: Table, op: Op) {
    (op.Record? ==> op.id !in t.notes) && (op.DeferOffer? ==> op.newId !in t.notes)
  }

  class NoteService {
    const config: Config
    var notes: map<nat, Note>
    ghost var born: map<nat, nat>
    ghost var made: nat

    ghost function State(): Table
      reads this
    {
      Table(notes, born, made)
    }

    constructor (config: Config)
      ensures this.config == config && State() == Table(map[], map[], 0)
    {
      this.config := config;
      notes, born, made := map[], map[], 0;
    }

    method AddNote(id: nat, nextAttemptAt: int)
      requires id !in notes
      modifies this
      ensures State() == Add(old(State()), id, Note(Pending, 0, nextAttemptAt))
    {
      notes := notes[id := Note(Pending, 0, nextAttemptAt)];
      born, made := born[id := made], made + 1;
    }

    method MarkAttempted(id: nat)
      modifies this
      ensures State() == Step(config, old(State()), Attempted(id), 0)
    {
      if id !in notes {
        return;
      }
      notes := notes[id := notes[id].(attempts := notes[id].attempts + 1)];
    }

    method Reschedule(id: nat, nextAttemptAt: int)
      modifies this
      ensures State() == if id in old(notes)
                         then Change(old(State()), id, old(notes)[id].(nextAttemptAt := nextAttemptAt))
                         else old(State())
    {
      if id !in notes {
        return;
      }
      notes := notes[id := notes[id].(nextAttemptAt := nextAttemptAt)];
    }

    method MarkDelivered(id: nat)
      modifies this
      ensures State() == Step(config, old(State()), Deliver(id), 0)
    {
      if id !in notes {
        return;
      }
      notes := notes[id := notes[id].(status := Delivered)];
    }

    method Dismiss(id: nat) returns (found: bool)
      modifies this
      ensures found <==> id in old(notes)
      ensures State() == if id in old(notes)
                         then Change(old(State()), id, old(notes)[id].(status := Dismissed)) else old(State())
    {
      if id !in notes {
        return false;
      }
      notes := notes[id := notes[id].(status := Dismissed)];
      return true;
    }

    // The notes' part of `wipe_database`.
    method WipeDatabase()
      modifies this
      ensures State() == Step(config, old(State()), Wipe, 0)
    {
      notes, born := map[], map[];
    }

    method RecordFromOffer(id: nat, at: Option<int>, now: int)
      requires id !in notes
      modifies this
      ensures State() == Step(config, old(State()), Record(id, at), now)
    {
      var scheduledAt := if at.Some? then at.value else now + config.retryInterval;
      AddNote(id, scheduledAt);
    }

    method RescheduleExisting(id: nat, now: int)
      requires id in notes
      modifies this
      ensures State() == Change(old(State()), id, Defer(config, old(notes)[id], now))
    {
      var note := notes[id];
      var nextCount := note.attempts + 1;
      if nextCount >= config.maxAttempts {
        var _ := Dismiss(id);
        return;
      }
      var delay := Min(config.retryInterval * Power2(note.attempts), config.maxInterval);
      Reschedule(id, now + delay);
      MarkAttempted(id);
    }

    method RecordDeferredOffer(note: Option<nat>, newId: nat, now: int)
      requires newId !in notes
      modifies this
      ensures State() == Step(config, old(State()), DeferOffer(note, newId), now)
    {
      if note.Some? && note.value in notes {
        RescheduleExisting(note.value, now);
        return;
      }
      RecordFromOffer(newId, None, now);
    }
  }

  // ----- A note that is only deferred -----

  // The note after being deferred at each of the given moments.
  function Deferred(c: Config, n: Note, moments: seq<int>): Note {
    if moments == [] then n
    else Defer(c, Deferred(c, n, moments[..|moments| - 1]), moments[|moments| - 1])
  }

  /**
   A new note that is only ever deferred is dismissed by exactly the maxAttempts-th deferral; until then it
   is pending, and its next attempt is the doubled and capped delay after the last deferral.
   */
  lemma {:induction false} DismissedOnTheLastDeferral(c: Config, start: int, at: Option<int>, moments: seq<int>)
    requires GoodConfig(c)
    ensures var n := Deferred(c, Fresh(c, start, at), moments);
            && (n.status == Dismissed <==> |moments| >= c.maxAttempts)
            && (|moments| < c.maxAttempts ==> n.status == Pending && n.attempts == |moments|)
            && (|moments| >= c.maxAttempts ==> n.attempts == c.maxAttempts - 1)
            && (moments == [] ==> n.nextAttemptAt == if at.Some? then at.value else start + c.retryInterval)
            && (0 < |moments| < c.maxAttempts ==>
                  n.nextAttemptAt == moments[|moments| - 1] + Delay(c, |moments| - 1))
  {
    if moments != [] {
      DismissedOnTheLastDeferral(c, start, at, moments[..|moments| - 1]);
    }
  }

  lemma {:induction false} PowerGrows(j: nat, k: nat)
    requires j <= k
    ensures 1 <= Power2(j) <= Power2(k)
  {
    if j > 0 {
      PowerGrows(j - 1, k - 1);
    } else if k > 0 {
      PowerGrows(0, k - 1);
    }
  }

  lemma {:induction false} MultiplyMonotone(a: nat, x: nat, y: nat)
    requires x <= y
    ensures a * x <= a * y
  {
  }

  /** The backoff: the first delay is the retry interval, every later one twice the one before; the cap bounds all. */
  lemma DelaysDouble(c: Config, k: nat)
    ensures Delay(c, 0) == Min(c.retryInterval, c.maxInterval)
    ensures Delay(c, k + 1) == Min(2 * Delay(c, k), c.maxInterval)
  {
    assert c.retryInterval * (2 * Power2(k)) == 2 * (c.retryInterval * Power2(k));
  }

  /** Delays never shrink, never exceed the cap, and never fall below the smaller of interval and cap. */
  lemma DelaysGrow(c: Config, j: nat, k: nat)
    requires GoodConfig(c) && j <= k
    ensures Delay(c, j) <= Delay(c, k) <= c.maxInterval
    ensures Delay(c, j) >= Min(c.retryInterval, c.maxInterval)
  {
    PowerGrows(j, k);
    PowerGrows(0, j);
    MultiplyMonotone(c.retryInterval, Power2(j), Power2(k));
    MultiplyMonotone(c.retryInterval, 1, Power2(j));
  }

  function TotalDelay(c: Config, deferrals: nat): nat {
    if deferrals == 0 then 0 else TotalDelay(c, deferrals - 1) + Delay(c, deferrals - 1)
  }

  lemma {:induction false} MultiplyNext(a: nat, n: nat)
    requires n > 0
    ensures a * n == a * (n - 1) + a
  {
  }

  /** All the delays together are at most (maxAttempts - 1) times the cap: the last deferral adds none. */
  lemma {:induction false} TotalDelayBounded(c: Config, deferrals: nat)
    requires GoodConfig(c) && deferrals < c.maxAttempts
    ensures TotalDelay(c, deferrals) <= c.maxInterval * deferrals <= c.maxInterval * (c.maxAttempts - 1)
  {
    MultiplyMonotone(c.maxInterval, deferrals, c.maxAttempts - 1);
    if deferrals > 0 {
      TotalDelayBounded(c, deferrals - 1);
      DelaysGrow(c, deferrals - 1, deferrals - 1);
      MultiplyNext(c.maxInterval, deferrals);
    }
  }

  // The table after a list of operations at given moments.
  ghost predicate PossibleRun(c: Config, t: Table, ops: seq<(Op, int)>)
    decreases ops
  {
    ops != [] ==> Possible(t, ops[0].0) && PossibleRun(c, Step(c, t, ops[0].0, ops[0].1), ops[1..])
  }

  function After(c: Config, t: Table, ops: seq<(Op, int)>): Table
    decreases ops
  {
    if ops == [] then t else After(c, Step(c, t, ops[0].0, ops[0].1), ops[1..])
  }

  // Note u was made, and if it is still there it is not pending.
  ghost predicate Closed(t: Table, u: nat) {
    u < t.made && forall id | id in t.born && t.born[id] == u :: id in t.notes && t.notes[id].status != Pending
  }

  /**
   No run of operations, wipes included, returns a note to pending: one that was dismissed or delivered is
   never due again, even if a later note gets its id.
   */
  lemma {:induction false} NeverPendingAgain(c: Config, t: Table, ops: seq<(Op, int)>, u: nat, now: int)
    requires PossibleRun(c, t, ops) && Closed(t, u)
    ensures var after := After(c, t, ops);
            Closed(after, u) && forall id | id in after.born && after.born[id] == u :: !IsDue(after.notes[id], now)
    decreases ops
  {
    if ops != [] {
      NeverPendingAgain(c, Step(c, t, ops[0].0, ops[0].1), ops[1..], u, now);
    }
  }

  /** A note that is closed stays in the table until a wipe. */
  lemma {:induction false} ClosedNotesStay(c: Config, t: Table, ops: seq<(Op, int)>, id: nat)
    requires PossibleRun(c, t, ops) && id in t.notes && id in t.born && t.notes[id].status != Pending
    requires forall k | 0 <= k < |ops| :: !ops[k].0.Wipe?
    ensures var after := After(c, t, ops);
            && id in after.notes && id in after.born && after.born[id] == t.born[id]
            && after.notes[id].status != Pending
    decreases ops
  {
    if ops != [] {
      assert !ops[0].0.Wipe?;
      ClosedNotesStay(c, Step(c, t, ops[0].0, ops[0].1), ops[1..], id);
    }
  }

  // ----- A note that is only deferred, among others -----

  predicate Defers(op: Op, id: nat) {
    op.DeferOffer? && op.note == Some(id)
  }

  // The moments at which the operations defer note id.
  function Moments(ops: seq<(Op, int)>, id: nat): seq<int> {
    if ops == [] then []
    else (if Defers(ops[0].0, id) then [ops[0].1] else []) + Moments(ops[1..], id)
  }

  predicate LeavesAlone(op: Op, id: nat) {
    op != Attempted(id) && op != Deliver(id) && !op.Wipe?
  }

  lemma {:induction false} DeferredFromFront(c: Config, n: Note, moments: seq<int>)
    requires moments != []
    ensures Deferred(c, n, moments) == Deferred(c, Defer(c, n, moments[0]), moments[1..])
  {
    var front, rest := moments[..|moments| - 1], moments[1..];
    if front == [] {
      assert Deferred(c, n, front) == n && Deferred(c, Defer(c, n, moments[0]), rest) == Defer(c, n, moments[0]);
    } else {
      DeferredFromFront(c, n, front);
      assert front[1..] == rest[..|rest| - 1];
    }
  }

  // What the other notes go through does not matter to it.
  lemma {:induction false} DeferredAmongOthers(c: Config, t: Table, ops: seq<(Op, int)>, id: nat)
    requires PossibleRun(c, t, ops) && id in t.notes && forall k | 0 <= k < |ops| :: LeavesAlone(ops[k].0, id)
    ensures var after := After(c, t, ops);
            id in after.notes && after.notes[id] == Deferred(c, t.notes[id], Moments(ops, id))
    decreases ops
  {
    if ops != [] {
      var v := Step(c, t, ops[0].0, ops[0].1);
      assert LeavesAlone(ops[0].0, id);
      DeferredAmongOthers(c, v, ops[1..], id);
      if Defers(ops[0].0, id) {
        DeferredFromFront(c, t.notes[id], Moments(ops, id));
        assert Moments(ops, id)[1..] == Moments(ops[1..], id);
      } else {
        assert Moments(ops, id) == Moments(ops[1..], id);
      }
    }
  }

  /**
   On every run of the table that starts by recording a note and then does nothing to it but defer it, the
   note is dismissed by exactly the maxAttempts-th deferral, whatever happens to other notes in between.
   */
  lemma DismissedOnTheLastDeferralOfRun(c: Config, t: Table, id: nat, at: Option<int>, now: int, ops: seq<(Op, int)>)
    requires GoodConfig(c) && id !in t.notes
    requires PossibleRun(c, Step(c, t, Record(id, at), now), ops)
    requires forall k | 0 <= k < |ops| :: LeavesAlone(ops[k].0, id)
    ensures var after := After(c, Step(c, t, Record(id, at), now), ops);
            var deferrals := |Moments(ops, id)|;
            && id in after.notes
            && (after.notes[id].status == Dismissed <==> deferrals >= c.maxAttempts)
            && (deferrals < c.maxAttempts ==>
                  after.notes[id].status == Pending && after.notes[id].attempts == deferrals)
            && (deferrals == 0 ==>
                  after.notes[id].nextAttemptAt == if at.Some? then at.value else now + c.retryInterval)
            && (0 < deferrals < c.maxAttempts ==>
                  after.notes[id].nextAttemptAt == Moments(ops, id)[deferrals - 1] + Delay(c, deferrals - 1))
  {
    DeferredAmongOthers(c, Step(c, t, Record(id, at), now), ops, id);
    DismissedOnTheLastDeferral(c, now, at, Moments(ops, id));
  }

  // How long after its last deferral the note is due.
  function Wait(c: Config, t: Table, ops: seq<(Op, int)>, id: nat): int
    requires Moments(ops, id) != [] && id in After(c, t, ops).notes
  {
    After(c, t, ops).notes[id].nextAttemptAt - Moments(ops, id)[|Moments(ops, id)| - 1]
  }

  lemma {:induction false} PossiblePrefix(c: Config, t: Table, ops: seq<(Op, int)>, k: nat)
    requires PossibleRun(c, t, ops) && k <= |ops|
    ensures PossibleRun(c, t, ops[..k])
    decreases ops
  {
    if k > 0 {
      PossiblePrefix(c, Step(c, t, ops[0].0, ops[0].1), ops[1..], k - 1);
      assert ops[..k][1..] == ops[1..][..k - 1];
    }
  }

  // The waits of a note are the delays in order.
  lemma {:induction false} WaitIsDelay(c: Config, t: Table, id: nat, at: Option<int>, now: int, ops: seq<(Op, int)>)
    requires GoodConfig(c) && id !in t.notes
    requires PossibleRun(c, Step(c, t, Record(id, at), now), ops)
    requires forall k | 0 <= k < |ops| :: LeavesAlone(ops[k].0, id)
    requires 0 < |Moments(ops, id)| < c.maxAttempts
    ensures var start := Step(c, t, Record(id, at), now);
            id in After(c, start, ops).notes && Wait(c, start, ops, id) == Delay(c, |Moments(ops, id)| - 1)
  {
    DismissedOnTheLastDeferralOfRun(c, t, id, at, now, ops);
  }

  /**
   On every such run the note's first deferral makes it due the retry interval later, and each later one twice
   as long later as the one before it, or the cap if that is less.
   */
  lemma {:induction false} WaitsDouble(c: Config, t: Table, id: nat, at: Option<int>, now: int,
                                       ops: seq<(Op, int)>, k: nat)
    requires GoodConfig(c) && id !in t.notes && k <= |ops|
    requires PossibleRun(c, Step(c, t, Record(id, at), now), ops)
    requires forall j | 0 <= j < |ops| :: LeavesAlone(ops[j].0, id)
    requires 0 < |Moments(ops, id)| == |Moments(ops[..k], id)| + 1 < c.maxAttempts
    ensures var start := Step(c, t, Record(id, at), now);
            && id in After(c, start, ops).notes && id in After(c, start, ops[..k]).notes
            && (if Moments(ops[..k], id) == [] then Wait(c, start, ops, id) == Min(c.retryInterval, c.maxInterval)
                else 0 <= Wait(c, start, ops[..k], id)
                     && Wait(c, start, ops, id) == Min(2 * Wait(c, start, ops[..k], id), c.maxInterval))
  {
    var start := Step(c, t, Record(id, at), now);
    PossiblePrefix(c, start, ops, k);
    assert forall j | 0 <= j < k :: LeavesAlone(ops[..k][j].0, id) by {
      assert forall j | 0 <= j < k :: ops[..k][j] == ops[j];
    }
    WaitIsDelay(c, t, id, at, now, ops);
    if Moments(ops[..k], id) == [] {
      DeferredAmongOthers(c, start, ops[..k], id);
      DelaysDouble(c, 0);
    } else {
      WaitIsDelay(c, t, id, at, now, ops[..k]);
      DelaysDouble(c, |Moments(ops[..k], id)| - 1);
    }
  }

  // ----- Every operation on a note -----

  predicate Touches(op: Op, id: nat) {
    Defers(op, id) || op == Attempted(id)
  }

  function TouchCount(ops: seq<(Op, int)>, id: nat): nat {
    if ops == [] then 0 else (if Touches(ops[0].0, id) then 1 else 0) + TouchCount(ops[1..], id)
  }

  predicate Closing(c: Config, n: Note, op: Op, id: nat) {
    Defers(op, id) && n.attempts + 1 >= c.maxAttempts
  }

  /** What decides a note's status: delivery, and the deferral or attempt at which it has had its attempts. */
  lemma StatusExactly(c: Config, t: Table, op: Op, now: int, id: nat)
    requires id in t.notes && Possible(t, op) && !op.Wipe?
    ensures var n, v := t.notes[id], Step(c, t, op, now);
            && id in v.notes
            && (v.notes[id].status == Dismissed <==>
                  Closing(c, n, op, id) || (n.status == Dismissed && op != Deliver(id)))
            && (v.notes[id].status == Delivered <==>
                  op == Deliver(id) || (n.status == Delivered && !Closing(c, n, op, id)))
            && v.notes[id].attempts == n.attempts + (if Touches(op, id) && !Closing(c, n, op, id) then 1 else 0)
            && (!Defers(op, id) ==> v.notes[id].nextAttemptAt == n.nextAttemptAt)
  {
  }

  // A wipe leaves no note.
  lemma WipeLeavesNone(c: Config, t: Table, now: int)
    ensures Step(c, t, Wipe, now).notes == map[] && Step(c, t, Wipe, now).born == map[]
  {
  }

  /** On every run a note that is still pending has been attempted as often as it was deferred or attempted. */
  lemma {:induction false} AttemptsAreCounted(c: Config, t: Table, ops: seq<(Op, int)>, id: nat)
    requires PossibleRun(c, t, ops) && id in t.notes && forall k | 0 <= k < |ops| :: !ops[k].0.Wipe?
    ensures var after := After(c, t, ops);
            && id in after.notes
            && (after.notes[id].status == Pending ==>
                  && t.notes[id].status == Pending
                  && after.notes[id].attempts == t.notes[id].attempts + TouchCount(ops, id))
    decreases ops
  {
    if ops != [] {
      assert !ops[0].0.Wipe?;
      StatusExactly(c, t, ops[0].0, ops[0].1, id);
      AttemptsAreCounted(c, Step(c, t, ops[0].0, ops[0].1), ops[1..], id);
    }
  }
}
