/**
 The reminder service step by step (app/meeting_reminders/service.py, the reminder table of
 app/memory/meeting_reminders.py, the reminder jobs of app/scheduler/jobs.py), proved against
 `ReminderModel`.  Queries hand in the rows they select.
 */
module ReminderService {
  import opened Text
  import opened ReminderModel

  class ReminderService {
    var rows: map<string, Reminder>
    var jobs: map<string, int>
    var log: seq<Alert>
    ghost var asked: seq<Ask>
    ghost var latest: map<string, nat>
    ghost var fired: seq<Fired>
    ghost var deleted: set<nat>
    ghost var pruned: set<nat>
    var now: int
    ghost var lastPoll: int

    ghost function State(): World
      reads this
    {
      World(rows, jobs, log, asked, latest, fired, deleted, pruned, now, lastPoll)
    }

    constructor (clock: int)
      ensures IsStart(State()) && now == clock
    {
      rows, jobs, log := map[], map[], [];
      asked, latest, fired, deleted, pruned := [], map[], [], {}, {};
      now, lastPoll := clock, clock;
    }

    method ReadClock(t: int)
      modifies this`now
      ensures State() == At(old(State()), t)
    {
      now := t;
    }

    method UnscheduleReminder(id: string)
      modifies this`jobs
      ensures State() == Unschedule(old(State()), id)
    {
      jobs := jobs - {id};
    }

    method ScheduleReminder(id: string, remindAt: int)
      modifies this`jobs
      ensures State() == Schedule(old(State()), id, remindAt)
    {
      var runAt := Max(remindAt, now);
      jobs := jobs[id := runAt];
    }

    /** `upsert_meeting_reminder`; existing is the row its key query finds. */
    method UpsertMeetingReminder(newId: string, existing: Option<string>, key: Key, end: int, summary: string,
                                 allDay: bool, lead: int)
      returns (error: Option<UpsertError>)
      requires newId !in rows && existing == ByKey(State(), key)
      modifies this
      ensures State() == Upsert(old(State()), newId, key, end, summary, allDay, lead)
      ensures error == Validate(old(now), key, allDay, lead)
    {
      error := Validate(now, key, allDay, lead);
      if error.Some? {
        return;
      }
      var remindAt := RemindAt(key.start, lead);
      var id := newId;
      if existing.Some? {
        id := existing.value;
        rows := rows[id := rows[id].(end := end, summary := summary, lead := lead,
                                     remindAt := remindAt, firedAt := None)];
      } else {
        rows := rows[id := Reminder(key, end, summary, lead, remindAt, None)];
      }
      latest := latest[id := |asked|];
      asked := asked + [Ask(key, end, summary, lead, remindAt, now)];
      ScheduleReminder(id, remindAt);
    }

    /** `delete_meeting_reminder` */
    method DeleteMeetingReminder(existing: Option<string>, key: Key)
      requires existing == ByKey(State(), key)
      modifies this
      ensures State() == Delete(old(State()), key)
    {
      if existing.Some? {
        deleted := deleted + LastAsks(State(), {existing.value});
        rows := rows - {existing.value};
        latest := latest - {existing.value};
        UnscheduleReminder(existing.value);
      }
    }

    /** `list_meeting_reminders`: prune, then the reminders still to come. */
    method ListMeetingReminders() returns (active: map<string, Reminder>)
      modifies this
      ensures State() == Prune(old(State()))
      ensures forall id :: id in active <==>
                id in old(rows) && old(rows)[id].firedAt.None? && old(rows)[id].key.start > now
      ensures forall id | id in active :: active[id] == old(rows)[id]
    {
      var expired := Expired(rows, now);
      pruned := pruned + LastAsks(State(), expired);
      rows := rows - expired;
      latest := latest - expired;
      active := map id | id in rows && rows[id].firedAt.None? && rows[id].key.start > now :: rows[id];
    }

    /** `fire_reminder` */
    method FireReminder(id: string)
      modifies this
      ensures State() == Complete(old(State()), id)
    {
      if id !in rows {
        UnscheduleReminder(id);
        return;
      }
      var reminder := rows[id];
      if reminder.firedAt.Some? {
        UnscheduleReminder(id);
        return;
      }
      if reminder.remindAt > now {
        ScheduleReminder(id, reminder.remindAt);
        return;
      }
      log := log + [Alert(reminder.key, SpokenSummary(reminder.summary), reminder.lead, now)];
      fired := fired + (if id in latest then [Fired(latest[id], |asked|)] else []);
      rows := rows[id := reminder.(firedAt := Some(now))];
      UnscheduleReminder(id);
    }

    // The scheduler drops a one-shot job and runs its handler, or drops it as misfired.
    method RunJob(id: string, misfired: bool)
      modifies this
      ensures State() == if misfired then Unschedule(old(State()), id)
                         else Complete(Unschedule(old(State()), id), id)
    {
      UnscheduleReminder(id);
      if !misfired {
        FireReminder(id);
      }
    }

    method CheckDueReminders(due: seq<string>)
      requires Lists(due, State(), IsDue)
      modifies this
      ensures State() == Poll(old(State()), due)
    {
      ghost var start := State();
      for i := 0 to |due|
        invariant now == start.now && CompleteAll(State(), due[i..]) == CompleteAll(start, due)
      {
        FireReminder(due[i]);
        assert due[i..][1..] == due[i + 1..];
      }
      lastPoll := now;
    }

    // The process starts again: only reminders still to come get a job, the rest is left to the poll.
    method RestartProcess(schedulable: seq<string>)
      requires Lists(schedulable, State(), IsSchedulable)
      modifies this`jobs
      ensures State() == Restart(old(State()))
    {
      jobs := map[];
      ghost var goal := Restart(State()).jobs;
      for i := 0 to |schedulable|
        invariant rows == old(rows) && now == old(now)
        invariant forall id :: id in jobs <==> id in schedulable[..i]
        invariant forall id | id in jobs :: id in goal && jobs[id] == goal[id]
      {
        var id := schedulable[i];
        assert id in schedulable && IsSchedulable(old(State()), id);
        assert IsSchedulable(State(), id);
        ScheduleReminder(id, rows[id].remindAt);
      }
      assert schedulable[..|schedulable|] == schedulable;
      assert forall id | id in goal :: IsSchedulable(old(State()), id);
      assert jobs == goal;
    }
  }
}
