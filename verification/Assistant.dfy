/**
 The conversation protocol step by step, proved against `ConversationModel`: the stores' methods, the
 router's decision chain with its clearing of pending state, one handler per flow, the dispatcher's loop
 over the handlers, and the orchestrator's single re-route.
 */
module Assistant {
  import opened Text
  import opened ConversationModel
  import ConversationSafety

  // The order in which the dispatcher asks its handlers (app/assistant/dispatch/interactions.py).
  const HANDLERS: seq<Interaction> := [TimerFlow, WipeFlow, ServiceRestartFlow, RebootFlow, UpdateFlow]

  function KindOf(i: Interaction): PendingKind {
    match i
    case TimerFlow => TimerDuration
    case WipeFlow => WipeConfirmation
    case RebootFlow => RebootConfirmation
    case ServiceRestartFlow => ServiceRestartConfirmation
    case UpdateFlow => UpdateConfirmation
  }

  class Assistant {
    var items: map<string, Pending>
    var slots: Slots
    ghost var effects: seq<Effect>
    ghost var tickets: map<string, nat>
    ghost var requests: seq<Request>
    ghost var consumed: seq<nat>
    ghost var prompts: seq<Prompt>
    ghost var clock: nat

    ghost function State(): World
      reads this
    {
      World(items, slots, effects, tickets, requests, consumed, prompts, clock)
    }

    ghost predicate Valid()
      reads this
    {
      tickets.Keys == items.Keys
    }

    constructor (baseline: Option<string>)
      ensures State() == StartOf(baseline)
    {
      items, slots, effects := map[], Slots(baseline, None, None), [];
      tickets, requests, consumed, prompts := map[], [], [], [];
      clock := 0;
    }

    // ----- PendingInteractionStore -----

    method SetPending(c: string, kind: PendingKind, remoteSha: string)
      modifies this
      ensures State() == Set(old(State()), c, kind, remoteSha)
    {
      items := items[c := Pending(kind, remoteSha)];
      tickets := tickets[c := |requests|];
      requests := requests + [Request(c, kind, clock)];
    }

    method ClearPending(c: string)
      modifies this
      ensures State() == Clear(old(State()), c)
    {
      items := items - {c};
      tickets := tickets - {c};
    }

    method ResetPending()
      modifies this
      ensures State() == Reset(old(State()))
    {
      items := map[];
      tickets := map[];
    }

    // ----- UpdateStore -----

    method DismissUpdate(sha: string)
      modifies this
      ensures State() == Dismiss(old(State()), sha)
    {
      slots := slots.(dismissed := Some(sha), offered := None);
      prompts := prompts + [Dismissed(sha)];
    }

    method MarkPromptOffered(sha: string)
      modifies this
      ensures State() == MarkOffered(old(State()), sha)
    {
      slots := slots.(offered := Some(sha));
      prompts := prompts + [Offered(sha)];
    }

    method ShouldPromptFor(sha: string) returns (prompt: bool)
      ensures prompt == ShouldPrompt(slots, sha)
    {
      if sha == "" {
        return false;
      }
      if slots.dismissed == Some(sha) {
        return false;
      }
      if slots.offered == Some(sha) {
        return false;
      }
      return slots.baseline.None? || slots.baseline.value != sha;
    }

    // ----- AgentRouter -----

    method DecideRoute(c: string, m: Message, env: Env) returns (route: Route)
      modifies this
      ensures (State(), route) == Decide(old(State()), c, m, env)
    {
      if m.timerStatus {
        ClearPending(c);
        return Tool("list_timers");
      }
      if m.clearAllTimers {
        ClearPending(c);
        return Tool("clear_all_timers");
      }
      if m.stopwatchRename {
        ClearPending(c);
        return Tool("rename_stopwatch");
      }
      if m.timerRename {
        ClearPending(c);
        return Tool("rename_timer");
      }
      if m.stopwatchStopById {
        ClearPending(c);
        return Tool("stop_stopwatches");
      }
      if m.stopwatchStop {
        ClearPending(c);
        if m.ambiguousStop && env.manyStopwatches {
          return Direct;
        }
        return Tool("stop_stopwatches");
      }
      if m.timerCancelById {
        ClearPending(c);
        return Tool("cancel_timers");
      }
      if m.timerCancel {
        ClearPending(c);
        if m.ambiguousCancel && env.manyTimers {
          return Direct;
        }
        return Tool("cancel_timers");
      }
      if c in items {
        return ResumePending;
      }
      return FreshRoute(m);
    }

    // ----- The flows -----

    method OfferUpdateTo(c: string, check: UpdateCheck)
      modifies this
      ensures State() == OfferUpdate(old(State()), c, check)
    {
      if !check.behind || check.remoteSha == "" {
        return;
      }
      if c in items {
        return;
      }
      MarkPromptOffered(check.remoteSha);
      SetPending(c, UpdateConfirmation, check.remoteSha);
    }

    method StartInteraction(i: Interaction, c: string, m: Message, env: Env) returns (reply: Reply)
      modifies this
      ensures (State(), reply) == StartFlow(old(State()), i, c, m, env)
    {
      match i {
        case TimerFlow =>
          if m.needsDuration || !m.duration {
            SetPending(c, TimerDuration, "");
            return FollowUp(TimerDuration);
          }
          ClearPending(c);
          return TimerRan(env.timerStarted);
        case WipeFlow =>
          SetPending(c, WipeConfirmation, "");
          return Confirmation(WipeConfirmation);
        case RebootFlow =>
          if !env.rebootEnabled {
            return Refused(RebootConfirmation);
          }
          SetPending(c, RebootConfirmation, "");
          return Confirmation(RebootConfirmation);
        case ServiceRestartFlow =>
          if !env.restartEnabled {
            return Refused(ServiceRestartConfirmation);
          }
          SetPending(c, ServiceRestartConfirmation, "");
          return Confirmation(ServiceRestartConfirmation);
        case UpdateFlow =>
          if !env.check.behind {
            return UpToDate;
          }
          var prompt := ShouldPromptFor(env.check.remoteSha);
          if !prompt {
            return UpdateKnown;
          }
          OfferUpdateTo(c, env.check);
          return Confirmation(UpdateConfirmation);
      }
    }

    // Where the program calls out to wipe, reboot or restart.
    ghost method Record(action: Action, c: string, m: Message, ticket: nat)
      modifies this
      ensures State() == Act(old(State()), action, c, m, ticket)
    {
      effects := effects + [Effect(action, c, clock, m)];
      consumed := consumed + [ticket];
    }

    // One handler's answer to the pending entry; None when the entry is not of its kind.
    method AskHandler(i: Interaction, p: Pending, c: string, m: Message, env: Env) returns (reply: Option<Reply>)
      requires Valid() && c in items && items[c] == p
      modifies this
      ensures p.kind != KindOf(i) ==> reply.None? && State() == old(State())
      ensures p.kind == KindOf(i) ==>
                reply.Some? && (State(), reply) == HandlePending(old(State()), c, m, env)
    {
      if p.kind != KindOf(i) {
        return None;
      }
      ghost var ticket := tickets[c];
      if m.rejects {
        ClearPending(c);
        if i == UpdateFlow && p.remoteSha != "" {
          DismissUpdate(p.remoteSha);
        }
        return Some(Cancelled(p.kind));
      }
      match i {
        case TimerFlow =>
          if !m.duration && !m.bareMinutes {
            return Some(FollowUp(p.kind));
          }
          ClearPending(c);
          return Some(TimerRan(env.timerStarted));
        case WipeFlow =>
          if !m.confirms {
            return Some(FollowUp(p.kind));
          }
          Record(Wipe, c, m, ticket);
          ResetPending();
          return Some(Executed(p.kind));
        case RebootFlow =>
          if !m.confirms {
            return Some(FollowUp(p.kind));
          }
          ClearPending(c);
          if !env.rebootScheduled {
            return Some(Refused(p.kind));
          }
          Record(Reboot, c, m, ticket);
          return Some(Executed(p.kind));
        case ServiceRestartFlow =>
          if !m.confirms {
            return Some(FollowUp(p.kind));
          }
          ClearPending(c);
          if !env.restartScheduled {
            return Some(Refused(p.kind));
          }
          Record(Restart, c, m, ticket);
          return Some(Executed(p.kind));
        case UpdateFlow =>
          if !m.confirms {
            return Some(FollowUp(p.kind));
          }
          ClearPending(c);
          if !env.pulled {
            return Some(Refused(p.kind));
          }
          if !env.restartScheduled {
            return Some(Refused(p.kind));
          }
          Record(Restart, c, m, ticket);
          return Some(Executed(p.kind));
      }
    }

    /** `InteractionDispatcher.handle_pending` */
    method ResumePendingInteraction(c: string, m: Message, env: Env) returns (reply: Option<Reply>)
      requires Valid() && c in items
      modifies this
      ensures (State(), reply) == HandlePending(old(State()), c, m, env)
    {
      var p := items[c];
      for k := 0 to |HANDLERS|
        invariant State() == old(State())
        invariant forall j | 0 <= j < k :: p.kind != KindOf(HANDLERS[j])
      {
        reply := AskHandler(HANDLERS[k], p, c, m, env);
        if reply.Some? {
          return;
        }
      }
      assert p.kind == PresenceCheck by {
        assert forall j | 0 <= j < 5 :: p.kind != KindOf(HANDLERS[j]);
        assert HANDLERS[0] == TimerFlow && HANDLERS[1] == WipeFlow && HANDLERS[2] == ServiceRestartFlow;
        assert HANDLERS[3] == RebootFlow && HANDLERS[4] == UpdateFlow;
      }
      ClearPending(c);
      return None;
    }

    method ServeRoute(route: Route, c: string, m: Message, env: Env) returns (reply: Reply)
      modifies this
      ensures (State(), reply) == Serve(old(State()), route, c, m, env)
    {
      if route.Start? {
        reply := StartInteraction(route.interaction, c, m, env);
      } else {
        reply := Routed(route);
      }
    }

    method ResolveSource(c: string, m: Message, env: Env) returns (reply: Reply)
      requires Valid()
      modifies this
      ensures (State(), reply) == Respond(old(State()), c, m, env)
    {
      var route := DecideRoute(c, m, env);
      if route == ResumePending {
        var resumed := ResumePendingInteraction(c, m, env);
        if resumed.Some? {
          return resumed.value;
        }
        ClearPending(c);
        route := DecideRoute(c, m, env);
      }
      reply := ServeRoute(route, c, m, env);
    }

    /** `AgentOrchestrator._resolve_source` and `_dispatch` */
    method HandleMessage(c: string, m: Message, env: Env) returns (reply: Reply)
      requires Valid()
      modifies this
      ensures Valid() && State() == Step(old(State()), Says(c, m, env))
      ensures reply == Respond(old(State()), c, m, env).1
    {
      ConversationSafety.StepKeepsTickets(State(), Says(c, m, env));
      reply := ResolveSource(c, m, env);
      clock := clock + 1;
    }

    /** `check_for_available_updates` */
    method CheckForAvailableUpdates(check: Option<UpdateCheck>)
      requires Valid()
      modifies this
      ensures Valid() && State() == Step(old(State()), Checks(check))
    {
      ConversationSafety.StepKeepsTickets(State(), Checks(check));
      if check.Some? && check.value.behind {
        var prompt := ShouldPromptFor(check.value.remoteSha);
        if prompt {
          OfferUpdateTo(UPDATE_CONVERSATION, check.value);
        }
      }
      clock := clock + 1;
    }
  }
}
