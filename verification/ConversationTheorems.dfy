/** What every run of the conversation protocol promises: consent for each action, and update offers. */
module ConversationTheorems {
  import opened Text
  import opened ConversationModel
  import opened ConversationSafety

  // ----- Consent -----

  predicate IsConfirmationKind(kind: PendingKind) {
    || kind == WipeConfirmation || kind == RebootConfirmation
    || kind == ServiceRestartConfirmation || kind == UpdateConfirmation
  }

  // From w to v requests were only added, during this event, and an entry is an old one or one of those.
  ghost predicate Continues(w: World, v: World) {
    && v.clock == w.clock && w.requests <= v.requests
    && (forall n | |w.requests| <= n < |v.requests| :: v.requests[n].at == w.clock)
    && (forall c | c in v.tickets :: |w.requests| <= v.tickets[c] || (c in w.tickets && v.tickets[c] == w.tickets[c]))
  }

  lemma ServeContinues(w: World, route: Route, c: string, m: Message, env: Env)
    ensures Continues(w, Serve(w, route, c, m, env).0)
  {
  }

  lemma HandleContinues(w: World, c: string, m: Message, env: Env)
    requires c in w.items && c in w.tickets
    ensures Continues(w, HandlePending(w, c, m, env).0)
  {
  }

  lemma ContinuesOn(w: World, u: World, v: World)
    requires Continues(w, u) && Continues(u, v)
    ensures Continues(w, v)
  {
  }

  lemma RespondContinues(w: World, c: string, m: Message, env: Env)
    requires w.tickets.Keys == w.items.Keys
    ensures Continues(w, Respond(w, c, m, env).0)
  {
    var (decided, route) := Decide(w, c, m, env);
    if route != ResumePending {
      ServeContinues(decided, route, c, m, env);
      ContinuesOn(w, decided, Serve(decided, route, c, m, env).0);
    } else {
      HandleContinues(w, c, m, env);
      var (handled, reply) := HandlePending(w, c, m, env);
      if reply.None? {
        var cleared := Clear(handled, c);
        ServeContinues(cleared, FreshRoute(m), c, m, env);
        ContinuesOn(w, cleared, Serve(cleared, FreshRoute(m), c, m, env).0);
      }
    }
  }

  lemma StepContinues(w: World, e: Event)
    requires w.tickets.Keys == w.items.Keys
    ensures Continues(w, Step(w, e).(clock := w.clock)) && Step(w, e).clock == w.clock + 1
  {
    match e
    case Says(c, m, env) => RespondContinues(w, c, m, env);
    case Checks(_) =>
  }

  // An event carries out at most one action: on the pending entry of the conversation it speaks in.
  ghost predicate ActsAtMostOnce(w: World, v: World, e: Event) {
    || (v.effects == w.effects && v.consumed == w.consumed)
    || (e.Says? && e.conversation in w.tickets
        && |v.effects| == |w.effects| + 1 && v.effects[..|w.effects|] == w.effects
        && v.effects[|w.effects|].conversation == e.conversation
        && v.effects[|w.effects|].at == w.clock && v.effects[|w.effects|].message == e.message
        && v.consumed == w.consumed + [w.tickets[e.conversation]])
  }

  lemma ServeDoesNotAct(w: World, route: Route, c: string, m: Message, env: Env)
    ensures var v := Serve(w, route, c, m, env).0;
            v.effects == w.effects && v.consumed == w.consumed
  {
  }

  lemma HandleActsAtMostOnce(w: World, c: string, m: Message, env: Env)
    requires c in w.items && c in w.tickets
    ensures ActsAtMostOnce(w, HandlePending(w, c, m, env).0, Says(c, m, env))
    ensures HandlePending(w, c, m, env).1.None? ==> HandlePending(w, c, m, env).0 == Clear(w, c)
  {
  }

  lemma StepActsAtMostOnce(w: World, e: Event)
    requires w.tickets.Keys == w.items.Keys
    ensures ActsAtMostOnce(w, Step(w, e), e)
  {
    match e
    case Checks(_) =>
    case Says(c, m, env) =>
      var (decided, route) := Decide(w, c, m, env);
      if route != ResumePending {
        ServeDoesNotAct(decided, route, c, m, env);
      } else {
        HandleActsAtMostOnce(w, c, m, env);
        var (handled, reply) := HandlePending(w, c, m, env);
        if reply.None? {
          ServeDoesNotAct(Clear(handled, c), FreshRoute(m), c, m, env);
        }
      }
  }

  lemma KeptEntryWasNotSettled(w: World, c: string, m: Message, env: Env)
    requires Inv(w) && c in w.items && IsConfirmationKind(w.items[c].kind)
    requires var v := Respond(w, c, m, env).0; c in v.tickets && v.tickets[c] == w.tickets[c]
    ensures !m.confirms && !m.rejects && !IsTimerCommand(m)
  {
  }

  // A confirmation that a message in its conversation leaves pending was not settled by it.
  ghost predicate KeepsUnsettled(w: World, v: World, e: Event) {
    e.Says? && e.conversation in w.tickets && e.conversation in v.tickets
    && w.tickets[e.conversation] == v.tickets[e.conversation] < |w.requests|
    && IsConfirmationKind(w.requests[w.tickets[e.conversation]].kind)
    ==> !e.message.confirms && !e.message.rejects && !IsTimerCommand(e.message)
  }

  ghost predicate EntriesMatch(w: World) {
    forall c | c in w.tickets ::
      w.tickets[c] < |w.requests| && w.requests[w.tickets[c]].conversation == c
  }

  // What one event does to the state, as far as consent goes.
  ghost predicate Link(w: World, e: Event, v: World) {
    && EntriesMatch(w) && v.clock == w.clock + 1 && Continues(w, v.(clock := w.clock))
    && |w.consumed| == |w.effects| && ActsAtMostOnce(w, v, e) && KeepsUnsettled(w, v, e)
  }

  lemma StepLinks(w: World, e: Event)
    requires Inv(w)
    ensures Link(w, e, Step(w, e))
  {
    StepContinues(w, e);
    StepActsAtMostOnce(w, e);
    assert forall c | c in w.items :: Ticketed(w.items[c], w.tickets[c], c, w.requests);
    var v := Step(w, e);
    if e.Says? && e.conversation in w.tickets && e.conversation in v.tickets
       && w.tickets[e.conversation] == v.tickets[e.conversation]
       && IsConfirmationKind(w.items[e.conversation].kind) {
      KeptEntryWasNotSettled(w, e.conversation, e.message, e.env);
    }
  }

  // The states of a run, one event apart.
  ghost predicate Linked(ws: seq<World>, run: seq<Event>) {
    && |ws| == |run| + 1 && ws[0].clock == 0 && ws[0].tickets == map[] && ws[0].effects == []
    && forall m | 0 <= m < |run| :: Link(ws[m], run[m], ws[m + 1])
  }

  lemma {:induction false} ClockCounts(ws: seq<World>, run: seq<Event>, m: nat)
    requires Linked(ws, run) && m <= |run|
    ensures ws[m].clock == m
  {
    if m > 0 {
      ClockCounts(ws, run, m - 1);
      assert Link(ws[m - 1], run[m - 1], ws[m]);
    }
  }

  lemma {:induction false} RequestsGrow(ws: seq<World>, run: seq<Event>, k: nat, m: nat)
    requires Linked(ws, run) && k <= m <= |run|
    ensures ws[k].requests <= ws[m].requests
  {
    if k < m {
      RequestsGrow(ws, run, k, m - 1);
      assert Link(ws[m - 1], run[m - 1], ws[m]);
    }
  }

  // Request n is the pending entry of conversation c.
  ghost predicate Open(w: World, c: string, n: nat) {
    c in w.tickets && w.tickets[c] == n
  }

  /** A pending entry has been the conversation's entry ever since the event that asked. */
  lemma {:induction false} PendingSinceAsked(ws: seq<World>, run: seq<Event>, k: nat, m: nat, c: string, n: nat)
    requires Linked(ws, run) && m <= |run| && Open(ws[m], c, n)
    requires n < |ws[m].requests| && ws[m].requests[n].at < k <= m
    ensures Open(ws[k], c, n)
  {
    if k < m {
      ClockCounts(ws, run, m - 1);
      assert Link(ws[m - 1], run[m - 1], ws[m]);
      PendingSinceAsked(ws, run, k, m - 1, c, n);
    }
  }

  // Action i was carried out by its own event, on an entry that had been pending since it was made.
  ghost predicate OpenUntilUsed(ws: seq<World>, run: seq<Event>, m: nat, i: nat)
    requires |ws| == |run| + 1 && m <= |run| && i < |ws[m].effects|
  {
    var v := ws[m];
    var e := v.effects[i];
    && i < |v.consumed| && v.consumed[i] < |v.requests| && e.at < m
    && run[e.at].Says? && run[e.at].conversation == e.conversation && run[e.at].message == e.message
    && (forall k | v.requests[v.consumed[i]].at < k <= e.at :: Open(ws[k], e.conversation, v.consumed[i]))
  }

  lemma {:induction false} ActionsUseOpenEntries(ws: seq<World>, run: seq<Event>, m: nat, i: nat)
    requires Linked(ws, run) && m <= |run| && i < |ws[m].effects|
    ensures OpenUntilUsed(ws, run, m, i)
    decreases m
  {
    var w, v := ws[m - 1], ws[m];
    assert Link(w, run[m - 1], v);
    if i < |w.effects| {
      ActionsUseOpenEntries(ws, run, m - 1, i);
    } else {
      var c := run[m - 1].conversation;
      ClockCounts(ws, run, m - 1);
      forall k | w.requests[w.tickets[c]].at < k <= m - 1
        ensures Open(ws[k], c, w.tickets[c])
      {
        PendingSinceAsked(ws, run, k, m - 1, c, w.tickets[c]);
      }
    }
  }

  lemma {:induction false} UnsettledBetween(ws: seq<World>, run: seq<Event>, k: nat, c: string, n: nat)
    requires Linked(ws, run) && k < |run| && Open(ws[k], c, n) && Open(ws[k + 1], c, n)
    requires run[k].Says? && run[k].conversation == c
    requires n < |ws[|run|].requests| && IsConfirmationKind(ws[|run|].requests[n].kind)
    ensures !run[k].message.confirms && !run[k].message.rejects && !IsTimerCommand(run[k].message)
  {
    assert Link(ws[k], run[k], ws[k + 1]);
    RequestsGrow(ws, run, k, |run|);
  }

  // The states that a run goes through, from the first to the last.
  ghost function States(baseline: Option<string>, run: seq<Event>): (ws: seq<World>)
    ensures |ws| == |run| + 1
  {
    seq(|run| + 1, k requires 0 <= k <= |run| => Reached(baseline, run[..k]))
  }

  lemma {:induction false} StatesAreLinked(baseline: Option<string>, run: seq<Event>)
    ensures var ws := States(baseline, run);
            Linked(ws, run) && ws[|run|] == Reached(baseline, run)
  {
    var ws := States(baseline, run);
    assert run[..|run|] == run && run[..0] == [];
    forall m | 0 <= m < |run|
      ensures Link(ws[m], run[m], ws[m + 1])
    {
      assert run[..m] + [run[m]] == run[..m + 1];
      ReachedKeeps(baseline, run[..m]);
      StepLinks(Reached(baseline, run[..m]), run[m]);
    }
  }

  // ----- What was asked for -----

  // The event asks for what a pending entry of that kind is about, in conversation c.
  predicate AsksFor(e: Event, c: string, kind: PendingKind) {
    match e
    case Checks(result) =>
      kind == UpdateConfirmation && c == UPDATE_CONVERSATION && result.Some? && result.value.behind
    case Says(d, m, env) =>
      && c == d && !IsTimerCommand(m) && !m.stopwatchStart
      && match kind
         case TimerDuration => m.needsDuration || m.timerStart
         case WipeConfirmation => m.wipe
         case RebootConfirmation => m.reboot
         case ServiceRestartConfirmation => m.serviceRestart
         case UpdateConfirmation => m.update && env.check.behind
         case PresenceCheck => false
  }

  ghost predicate OnlyWhatWasAsked(w: World, v: World, e: Event) {
    w.requests <= v.requests
    && forall n | |w.requests| <= n < |v.requests| :: AsksFor(e, v.requests[n].conversation, v.requests[n].kind)
  }

  lemma ServeAsks(w: World, c: string, m: Message, env: Env)
    requires !IsTimerCommand(m)
    ensures OnlyWhatWasAsked(w, Serve(w, FreshRoute(m), c, m, env).0, Says(c, m, env))
    ensures var (v, reply) := Serve(w, FreshRoute(m), c, m, env);
            reply.Confirmation? && c !in w.items ==> c in v.items && v.items[c].kind == reply.kind
  {
  }

  lemma HandleAsks(w: World, c: string, m: Message, env: Env)
    requires c in w.items && c in w.tickets
    ensures var (v, reply) := HandlePending(w, c, m, env);
            && v.requests == w.requests && !(reply.Some? && reply.value.Confirmation?)
            && (reply.None? ==> v == Clear(w, c))
  {
  }

  /**
   A message leaves no request in the store but one for what it asked for, and the confirmation it is answered
   with names the entry that now waits for a yes.
   */
  lemma RespondAsks(w: World, c: string, m: Message, env: Env)
    requires w.tickets.Keys == w.items.Keys
    ensures OnlyWhatWasAsked(w, Respond(w, c, m, env).0, Says(c, m, env))
    ensures var (v, reply) := Respond(w, c, m, env);
            reply.Confirmation? ==> c in v.items && v.items[c].kind == reply.kind
  {
    if IsTimerCommand(m) {
    } else if c in w.items {
      HandleAsks(w, c, m, env);
      ServeAsks(Clear(w, c), c, m, env);
      assert Clear(Clear(w, c), c).items == Clear(w, c).items && Clear(Clear(w, c), c).tickets == Clear(w, c).tickets;
    } else {
      ServeAsks(w, c, m, env);
    }
  }

  lemma StepAsks(w: World, e: Event)
    requires w.tickets.Keys == w.items.Keys
    ensures OnlyWhatWasAsked(w, Step(w, e), e)
  {
    if e.Says? {
      RespondAsks(w, e.conversation, e.message, e.env);
    }
  }

  lemma {:induction false} ReachedClock(baseline: Option<string>, run: seq<Event>)
    ensures Reached(baseline, run).clock == |run|
  {
    if run != [] {
      ReachedClock(baseline, run[..|run| - 1]);
      StepContinues(Reached(baseline, run[..|run| - 1]), run[|run| - 1]);
    }
  }

  /** On every run each request was made by the event of its time, which asked for just that. */
  lemma {:induction false} RequestsWereAsked(baseline: Option<string>, run: seq<Event>, n: nat)
    requires n < |Reached(baseline, run).requests|
    ensures var r := Reached(baseline, run).requests[n];
            r.at < |run| && AsksFor(run[r.at], r.conversation, r.kind)
  {
    var last := |run| - 1;
    var w := Reached(baseline, run[..last]);
    StepAsks(w, run[last]);
    StepContinues(w, run[last]);
    ReachedClock(baseline, run[..last]);
    if n < |w.requests| {
      RequestsWereAsked(baseline, run[..last], n);
    }
  }

  /**
   On every run each wipe, reboot or restart answers a request of the matching kind (a restart may also
   answer an update) made in the same conversation during an earlier event, by the message of its own event,
   which confirms, does not reject and is no timer command; the request was that conversation's pending
   entry in every state in between; and no request is answered by two actions.
   */
  lemma EveryActionWasConfirmed(baseline: Option<string>, run: seq<Event>, i: nat)
    requires i < |Reached(baseline, run).effects|
    ensures States(baseline, run)[|run|] == Reached(baseline, run)
    ensures OpenUntilUsed(States(baseline, run), run, |run|, i)
    ensures var v := Reached(baseline, run);
            && |v.consumed| == |v.effects| && v.consumed[i] < |v.requests|
            && Justified(v.effects[i], v.requests[v.consumed[i]])
            && forall j | 0 <= j < |v.effects| && j != i :: v.consumed[j] != v.consumed[i]
  {
    StatesAreLinked(baseline, run);
    ActionsUseOpenEntries(States(baseline, run), run, |run|, i);
    ReachedKeeps(baseline, run);
    var v := Reached(baseline, run);
    assert EffectsJustified(v) && ConsumedOnce(v);
  }

  // What an event has to ask for to lead to an action in conversation c.
  predicate AsksForAction(e: Event, c: string, action: Action) {
    match action
    case Wipe => e.Says? && e.conversation == c && e.message.wipe
    case Reboot => e.Says? && e.conversation == c && e.message.reboot
    case Restart =>
      || (e.Says? && e.conversation == c && (e.message.serviceRestart || e.message.update))
      || (e.Checks? && c == UPDATE_CONVERSATION && e.result.Some? && e.result.value.behind)
  }

  /**
   So every wipe, reboot or restart goes back to an earlier message of its conversation, or for an update to a
   check that found one, which asked for exactly that.
   */
  lemma EveryActionWasAskedFor(baseline: Option<string>, run: seq<Event>, i: nat)
    requires i < |Reached(baseline, run).effects|
    ensures var v := Reached(baseline, run);
            && i < |v.consumed| && v.consumed[i] < |v.requests|
            && var r := v.requests[v.consumed[i]];
               r.at < v.effects[i].at && r.at < |run|
               && AsksForAction(run[r.at], v.effects[i].conversation, v.effects[i].action)
  {
    EveryActionWasConfirmed(baseline, run, i);
    RequestsWereAsked(baseline, run, Reached(baseline, run).consumed[i]);
  }

  /**
   Nothing that was said in the conversation between a request and the action it led to settled it: no
   message there confirmed, rejected or was a timer command.
   */
  lemma NothingSettledBetween(baseline: Option<string>, run: seq<Event>, i: nat, k: nat)
    requires i < |Reached(baseline, run).effects|
    requires var v := Reached(baseline, run);
             i < |v.consumed| && v.consumed[i] < |v.requests| && v.requests[v.consumed[i]].at < k < v.effects[i].at
    requires k < |run| && run[k].Says? && run[k].conversation == Reached(baseline, run).effects[i].conversation
    ensures !run[k].message.confirms && !run[k].message.rejects && !IsTimerCommand(run[k].message)
  {
    var ws, v := States(baseline, run), Reached(baseline, run);
    var n, c := v.consumed[i], v.effects[i].conversation;
    EveryActionWasConfirmed(baseline, run, i);
    StatesAreLinked(baseline, run);
    assert Open(ws[k], c, n) && Open(ws[k + 1], c, n);
    UnsettledBetween(ws, run, k, c, n);
  }

  // What a confirmed entry of each kind leads to, and whether the world outside lets it happen.
  function ActionOf(kind: PendingKind): Action
    requires IsConfirmationKind(kind)
  {
    match kind
    case WipeConfirmation => Wipe
    case RebootConfirmation => Reboot
    case ServiceRestartConfirmation => Restart
    case UpdateConfirmation => Restart
  }

  predicate Allowed(kind: PendingKind, env: Env) {
    match kind
    case WipeConfirmation => true
    case RebootConfirmation => env.rebootScheduled
    case ServiceRestartConfirmation => env.restartScheduled
    case UpdateConfirmation => env.pulled && env.restartScheduled
    case _ => false
  }

  // The message says yes to a pending confirmation of conversation c.
  predicate Consents(w: World, c: string, m: Message) {
    c in w.items && IsConfirmationKind(w.items[c].kind) && m.confirms && !m.rejects && !IsTimerCommand(m)
  }

  /**
   Consent is not only needed but enough: a yes to a confirmation uses up the entry, and carries out its
   action, once, exactly when the world outside lets it happen.
   */
  lemma ConsentIsCarriedOut(w: World, c: string, m: Message, env: Env)
    requires w.tickets.Keys == w.items.Keys && Consents(w, c, m)
    ensures var (v, reply) := Respond(w, c, m, env);
            var kind := w.items[c].kind;
            && c !in v.items
            && (if Allowed(kind, env)
                then v.effects == w.effects + [Effect(ActionOf(kind), c, w.clock, m)]
                     && v.consumed == w.consumed + [w.tickets[c]] && reply == Executed(kind)
                else v.effects == w.effects && v.consumed == w.consumed && reply == Refused(kind))
  {
  }

  /** A message acts exactly when it consents and the world outside lets the action happen. */
  lemma ActsExactly(w: World, c: string, m: Message, env: Env)
    requires w.tickets.Keys == w.items.Keys
    ensures Respond(w, c, m, env).0.effects != w.effects <==> Consents(w, c, m) && Allowed(w.items[c].kind, env)
  {
    if Consents(w, c, m) {
      ConsentIsCarriedOut(w, c, m, env);
    }
  }

  /** A message that the router takes for one of the flows leaves that flow's entry, where the flow is switched on. */
  lemma AskingStartsExactly(w: World, c: string, m: Message, env: Env)
    requires w.tickets.Keys == w.items.Keys && c !in w.items && !IsTimerCommand(m)
    requires !m.stopwatchStart && !m.needsDuration && !m.timerStart
    ensures m.wipe ==> Respond(w, c, m, env).0.items == w.items[c := Pending(WipeConfirmation, "")]
    ensures !m.wipe && m.serviceRestart ==>
              var (v, reply) := Respond(w, c, m, env);
              if env.restartEnabled then v.items == w.items[c := Pending(ServiceRestartConfirmation, "")]
              else v == w && reply == Refused(ServiceRestartConfirmation)
    ensures !m.wipe && !m.serviceRestart && !m.update && m.reboot ==>
              var (v, reply) := Respond(w, c, m, env);
              if env.rebootEnabled then v.items == w.items[c := Pending(RebootConfirmation, "")]
              else v == w && reply == Refused(RebootConfirmation)
    ensures !m.wipe && !m.serviceRestart && m.update && !env.check.behind ==> Respond(w, c, m, env) == (w, UpToDate)
  {
  }

  /** A timer starts at once exactly when the message gives its duration and the router did not miss one. */
  lemma TimerAskedForExactly(w: World, c: string, m: Message, env: Env)
    requires w.tickets.Keys == w.items.Keys && c !in w.items && !IsTimerCommand(m)
    requires !m.stopwatchStart && (m.needsDuration || m.timerStart)
    ensures var (v, reply) := Respond(w, c, m, env);
            if m.duration && !m.needsDuration then v.items == w.items && reply == TimerRan(env.timerStarted)
            else v.items == w.items[c := Pending(TimerDuration, "")] && reply == FollowUp(TimerDuration)
  {
    assert w.items - {c} == w.items;
  }

  /** A reply to "how long?" starts the timer if it has a duration or bare minutes, and is asked again if not. */
  lemma DurationReplyExactly(w: World, c: string, m: Message, env: Env)
    requires w.tickets.Keys == w.items.Keys && c in w.items && w.items[c].kind == TimerDuration
    requires !IsTimerCommand(m) && !m.rejects
    ensures Respond(w, c, m, env)
         == if m.duration || m.bareMinutes then (Clear(w, c), TimerRan(env.timerStarted))
            else (w, FollowUp(TimerDuration))
  {
  }

  /**
   A no drops the entry and does nothing else, except that for an update it is remembered which one was
   dismissed, and the offer stands no longer.
   */
  lemma RejectionExactly(w: World, c: string, m: Message, env: Env)
    requires w.tickets.Keys == w.items.Keys && c in w.items && w.items[c].kind != PresenceCheck
    requires !IsTimerCommand(m) && m.rejects
    ensures var (v, reply) := Respond(w, c, m, env);
            var p := w.items[c];
            && v.items == w.items - {c} && v.effects == w.effects && reply == Cancelled(p.kind)
            && (if p.kind == UpdateConfirmation && p.remoteSha != ""
                then v.slots == Slots(w.slots.baseline, Some(p.remoteSha), None)
                     && v.prompts == w.prompts + [Dismissed(p.remoteSha)]
                else v.slots == w.slots && v.prompts == w.prompts)
  {
  }

  /** An update is dismissed only by a no to an offer of it. */
  lemma DismissedOnlyByNo(w: World, e: Event)
    requires w.tickets.Keys == w.items.Keys && Step(w, e).slots.dismissed != w.slots.dismissed
    ensures e.Says? && e.message.rejects && !IsTimerCommand(e.message)
    ensures e.conversation in w.items && w.items[e.conversation].kind == UpdateConfirmation
    ensures Step(w, e).slots.dismissed == Some(w.items[e.conversation].remoteSha)
  {
  }

  /** A reply to a confirmation that is neither yes, no nor a timer command changes nothing at all. */
  lemma UnclearReplyChangesNothing(w: World, c: string, m: Message, env: Env)
    requires Inv(w) && c in w.items && IsConfirmationKind(w.items[c].kind)
    requires !m.confirms && !m.rejects && !IsTimerCommand(m)
    ensures Respond(w, c, m, env) == (w, FollowUp(w.items[c].kind))
  {
  }

  /** An action needs a pending entry in the conversation where the message arrives; others never act. */
  lemma NoEntryNoAction(w: World, c: string, m: Message, env: Env)
    requires Inv(w) && c !in w.items
    ensures Respond(w, c, m, env).0.effects == w.effects
  {
  }

  ghost predicate SameEntry(v: World, w: World, d: string) {
    (d in v.items <==> d in w.items) && (d in w.items ==> v.items[d] == w.items[d])
  }

  lemma HandleTouchesOne(w: World, c: string, d: string, m: Message, env: Env)
    requires c != d && c in w.items && c in w.tickets
    ensures var (v, reply) := HandlePending(w, c, m, env);
            || SameEntry(v, w, d)
            || (reply.Some? && v.effects == w.effects + [Effect(Wipe, c, w.clock, m)] && v.items == map[])
    ensures HandlePending(w, c, m, env).1.None? ==> HandlePending(w, c, m, env).0 == Clear(w, c)
  {
  }

  lemma ServeTouchesOne(w: World, route: Route, c: string, d: string, m: Message, env: Env)
    requires c != d
    ensures SameEntry(Serve(w, route, c, m, env).0, w, d)
  {
  }

  /** A message in one conversation leaves the entries of the others alone, except that a wipe drops all. */
  lemma OtherConversationsUntouched(w: World, c: string, d: string, m: Message, env: Env)
    requires Inv(w) && c != d
    ensures var v := Respond(w, c, m, env).0;
            SameEntry(v, w, d) || (v.effects == w.effects + [Effect(Wipe, c, w.clock, m)] && v.items == map[])
  {
    var (decided, route) := Decide(w, c, m, env);
    if route != ResumePending {
      ServeTouchesOne(decided, route, c, d, m, env);
    } else {
      HandleTouchesOne(w, c, d, m, env);
      var (handled, reply) := HandlePending(w, c, m, env);
      if reply.None? {
        ServeTouchesOne(Clear(handled, c), FreshRoute(m), c, d, m, env);
      }
    }
  }

  // What happens right before a repeated offer concerns a different sha.
  lemma OffersAlternate(ps: seq<Prompt>, baseline: Option<string>, i: nat, j: nat)
    requires OffersGood(ps, baseline) && i < j < |ps| && ps[i].Offered? && ps[j] == ps[i]
    ensures i < j - 1 && ps[j - 1].sha != ps[i].sha
  {
    var last := ps[..j];
    assert last[|last| - 1] == ps[j - 1];
    assert StandingOffer(last) != Some(ps[j].sha) && LastDismissed(last) != Some(ps[j].sha);
  }

  /** Between two offers of the same remote sha there is an offer or a dismissal of a different one. */
  lemma OfferNotRepeated(baseline: Option<string>, run: seq<Event>, i: nat, j: nat)
    requires i < j < |Reached(baseline, run).prompts|
    requires var ps := Reached(baseline, run).prompts; ps[i].Offered? && ps[j] == ps[i]
    ensures i < j - 1 && Reached(baseline, run).prompts[j - 1].sha != Reached(baseline, run).prompts[i].sha
  {
    ReachedKeeps(baseline, run);
    OffersAlternate(Reached(baseline, run).prompts, baseline, i, j);
  }

  /** No offer is ever made for the session's baseline, and none with an empty sha. */
  lemma BaselineNeverOffered(baseline: Option<string>, run: seq<Event>, j: nat)
    requires j < |Reached(baseline, run).prompts| && Reached(baseline, run).prompts[j].Offered?
    ensures var sha := Reached(baseline, run).prompts[j].sha;
            sha != "" && baseline != Some(sha)
  {
    ReachedKeeps(baseline, run);
    assert OffersGood(Reached(baseline, run).prompts, baseline);
  }

  /**
   A background check never overwrites a pending interaction; an offer that one blocks is not recorded,
   so the same update can still be offered later.
   */
  lemma OfferNeverOverwrites(w: World, check: Option<UpdateCheck>)
    ensures var v := BackgroundCheck(w, check);
            forall c | c in w.items :: c in v.items && v.items[c] == w.items[c]
    ensures UPDATE_CONVERSATION in w.items ==> BackgroundCheck(w, check) == w
    ensures BackgroundCheck(w, check).prompts != w.prompts ==>
              UPDATE_CONVERSATION !in w.items
              && BackgroundCheck(w, check).items[UPDATE_CONVERSATION]
                 == Pending(UpdateConfirmation, check.value.remoteSha)
  {
  }

  // The router sends the message to the update flow, and the check finds an update.
  predicate AsksForUpdate(w: World, c: string, m: Message, env: Env) {
    Decide(w, c, m, env).1 == Start(UpdateFlow) && env.check.behind
  }

  /**
   Asking for an available update leaves something to confirm exactly when an offer of it is allowed.
   Otherwise the prompt's text is shown all the same, but nothing changes and no yes can act on it.
   */
  lemma AskingOffersExactly(w: World, c: string, m: Message, env: Env)
    requires w.tickets.Keys == w.items.Keys && AsksForUpdate(w, c, m, env)
    ensures c in Respond(w, c, m, env).0.items <==> ShouldPrompt(w.slots, env.check.remoteSha)
    ensures ShouldPrompt(w.slots, env.check.remoteSha) ==>
              Respond(w, c, m, env).0.items[c] == Pending(UpdateConfirmation, env.check.remoteSha)
    ensures !ShouldPrompt(w.slots, env.check.remoteSha) ==> Respond(w, c, m, env) == (w, UpdateKnown)
  {
  }

  /**
   On every run that is the case exactly when the update's sha is known, is not the session's baseline, was
   not the last to be dismissed, and is not offered already, in whichever conversation, since then.
   */
  lemma UpdateCanBeConfirmedExactly(baseline: Option<string>, run: seq<Event>, c: string, m: Message, env: Env)
    requires AsksForUpdate(Reached(baseline, run), c, m, env)
    ensures var w, sha := Reached(baseline, run), env.check.remoteSha;
            c in Respond(w, c, m, env).0.items <==>
              && sha != "" && baseline != Some(sha)
              && LastDismissed(w.prompts) != Some(sha) && StandingOffer(w.prompts) != Some(sha)
  {
    ReachedKeeps(baseline, run);
    AskingOffersExactly(Reached(baseline, run), c, m, env);
  }

  // The first background check that finds an update makes an offer of it.
  lemma AfterFirstOffer(check: UpdateCheck)
    requires check.behind && check.remoteSha != ""
    ensures var w := Reached(None, [Checks(Some(check))]);
            && UPDATE_CONVERSATION in w.items && w.items.Keys == {UPDATE_CONVERSATION}
            && w.prompts == [Offered(check.remoteSha)] && w.slots.offered == Some(check.remoteSha)
  {
    assert [] + [Checks(Some(check))] == [Checks(Some(check))];
  }

  /**
   Nothing need ever be dismissed for a prompt to be beyond confirming.  A timer command drops the entry that
   an offer made, and the offer still stands: asking again leaves nothing to confirm.
   */
  lemma DroppedOfferCannotBeConfirmed(sha: string, command: Message, ask: Message, env: Env)
    requires sha != "" && env.check == UpdateCheck(true, sha)
    requires IsTimerCommand(command) && !IsTimerCommand(ask) && FreshRoute(ask) == Start(UpdateFlow)
    ensures var w := Reached(None, [Checks(Some(env.check)), Says(UPDATE_CONVERSATION, command, env)]);
            && (forall p | p in w.prompts :: !p.Dismissed?)
            && Respond(w, UPDATE_CONVERSATION, ask, env) == (w, UpdateKnown) && UPDATE_CONVERSATION !in w.items
  {
    var check, said := Checks(Some(env.check)), Says(UPDATE_CONVERSATION, command, env);
    AfterFirstOffer(env.check);
    assert [check] + [said] == [check, said];
    AskingOffersExactly(Reached(None, [check, said]), UPDATE_CONVERSATION, ask, env);
  }

  // Nor does asking in another conversation than the one the offer was made in leave anything to confirm.
  lemma OfferElsewhereCannotBeConfirmed(sha: string, c: string, ask: Message, env: Env)
    requires sha != "" && env.check == UpdateCheck(true, sha) && c != UPDATE_CONVERSATION
    requires !IsTimerCommand(ask) && FreshRoute(ask) == Start(UpdateFlow)
    ensures var w := Reached(None, [Checks(Some(env.check))]);
            UPDATE_CONVERSATION in w.items && Respond(w, c, ask, env) == (w, UpdateKnown) && c !in w.items
  {
    AfterFirstOffer(env.check);
    AskingOffersExactly(Reached(None, [Checks(Some(env.check))]), c, ask, env);
  }

  // After an update was dismissed, a yes that follows the prompt's text is not taken as consent.
  lemma DismissedUpdateCannotBeConfirmed(w: World, c: string, m: Message, env: Env, yes: Message)
    requires Inv(w) && c !in w.items && !IsTimerCommand(m) && !IsTimerCommand(yes)
    requires FreshRoute(m) == Start(UpdateFlow) && env.check.behind
    requires w.slots.dismissed == Some(env.check.remoteSha)
    ensures Respond(w, c, m, env) == (w, UpdateKnown)
    ensures Respond(w, c, yes, env).0.effects == w.effects
  {
  }
}
