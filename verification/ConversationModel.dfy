/**
 The conversation protocol: the router, the store of pending interactions, the confirmation flows and
 the update prompts (app/assistant/agent_router.py, orchestrator.py, dispatch/interactions.py,
 pending.py, flows/, app/deploy/update_state.py).

 What the intent classifiers say about a message is part of the message, so every statement holds for
 every classifier.
 */
module ConversationModel {
  import opened Text

  datatype PendingKind =
    | TimerDuration
    | WipeConfirmation
    | PresenceCheck
    | RebootConfirmation
    | ServiceRestartConfirmation
    | UpdateConfirmation

  datatype Pending = Pending(kind: PendingKind, remoteSha: string)

  // The classifiers' verdicts on one message, in the order the router asks for them.
  datatype Message = Message(
    timerStatus: bool, clearAllTimers: bool, stopwatchRename: bool, timerRename: bool,
    stopwatchStopById: bool, stopwatchStop: bool, ambiguousStop: bool,
    timerCancelById: bool, timerCancel: bool, ambiguousCancel: bool,
    stopwatchStart: bool, needsDuration: bool, timerStart: bool,
    wipe: bool, serviceRestart: bool, update: bool, reboot: bool,
    health: bool, analysis: bool, notes: bool, capability: bool, identity: bool,
    plainAnswer: bool, toolKeywords: bool,
    confirms: bool, rejects: bool, duration: bool, bareMinutes: bool)

  datatype UpdateCheck = UpdateCheck(behind: bool, remoteSha: string)

  // What the world outside answers while a message is handled.
  datatype Env = Env(
    manyStopwatches: bool, manyTimers: bool, timerStarted: bool,
    rebootEnabled: bool, rebootScheduled: bool,
    restartEnabled: bool, restartScheduled: bool,
    pulled: bool, check: UpdateCheck)

  datatype Interaction = TimerFlow | WipeFlow | RebootFlow | ServiceRestartFlow | UpdateFlow

  datatype Route =
    | Tool(name: string)
    | Direct
    | ResumePending
    | Start(interaction: Interaction)
    | Capabilities
    | Identity
    | Answer
    | Planner
    | Confused

  datatype Reply =
    | Routed(route: Route)
    | FollowUp(kind: PendingKind)
    | Confirmation(kind: PendingKind)
    | Cancelled(kind: PendingKind)
    | Executed(kind: PendingKind)
    | Refused(kind: PendingKind)
    | TimerRan(ok: bool)
    | UpToDate
    | UpdateKnown

  datatype Action = Wipe | Reboot | Restart

  // An action the program carried out, for which conversation, during which event, on which message.
  datatype Effect = Effect(action: Action, conversation: string, at: nat, message: Message)

  // One entry ever put in the pending store.
  datatype Request = Request(conversation: string, kind: PendingKind, at: nat)

  datatype Prompt = Offered(sha: string) | Dismissed(sha: string)

  // app/deploy/update_state.py, class UpdateStore
  datatype Slots = Slots(baseline: Option<string>, dismissed: Option<string>, offered: Option<string>)

  /**
   `items`, `slots` and `effects` are the program's state.  History: `requests` numbers the pending
   entries ever made, `tickets` gives the numbers of the live ones, `consumed` those that the effects
   used up, `prompts` the update offers and dismissals, `clock` the events so far.
   */
  datatype World = World(
    items: map<string, Pending>,
    slots: Slots,
    effects: seq<Effect>,
    tickets: map<string, nat>,
    requests: seq<Request>,
    consumed: seq<nat>,
    prompts: seq<Prompt>,
    clock: nat)

  // ----- PendingInteractionStore -----

  function Set(w: World, c: string, kind: PendingKind, remoteSha: string): World {
    w.(items := w.items[c := Pending(kind, remoteSha)],
       tickets := w.tickets[c := |w.requests|],
       requests := w.requests + [Request(c, kind, w.clock)])
  }

  function Clear(w: World, c: string): World {
    w.(items := w.items - {c}, tickets := w.tickets - {c})
  }

  function Reset(w: World): World {
    w.(items := map[], tickets := map[])
  }

  // Carrying out an action on behalf of ticket n.
  function Act(w: World, action: Action, c: string, m: Message, n: nat): World {
    w.(effects := w.effects + [Effect(action, c, w.clock, m)], consumed := w.consumed + [n])
  }

  // ----- UpdateStore -----

  predicate ShouldPrompt(s: Slots, sha: string) {
    sha != "" && s.dismissed != Some(sha) && s.offered != Some(sha) && s.baseline != Some(sha)
  }

  function MarkOffered(w: World, sha: string): World {
    w.(slots := w.slots.(offered := Some(sha)), prompts := w.prompts + [Offered(sha)])
  }

  function Dismiss(w: World, sha: string): World {
    w.(slots := w.slots.(dismissed := Some(sha), offered := None), prompts := w.prompts + [Dismissed(sha)])
  }

  function OfferUpdate(w: World, c: string, check: UpdateCheck): World {
    if !check.behind || check.remoteSha == "" || c in w.items then w
    else Set(MarkOffered(w, check.remoteSha), c, UpdateConfirmation, check.remoteSha)
  }

  // ----- AgentRouter.decide -----

  // A command to a timer or stopwatch, which the router serves before any pending interaction.
  predicate IsTimerCommand(m: Message) {
    || m.timerStatus || m.clearAllTimers || m.stopwatchRename || m.timerRename
    || m.stopwatchStopById || m.stopwatchStop || m.timerCancelById || m.timerCancel
  }

  function CommandRoute(m: Message, env: Env): Route {
    if m.timerStatus then Tool("list_timers")
    else if m.clearAllTimers then Tool("clear_all_timers")
    else if m.stopwatchRename then Tool("rename_stopwatch")
    else if m.timerRename then Tool("rename_timer")
    else if m.stopwatchStopById then Tool("stop_stopwatches")
    else if m.stopwatchStop then
      if m.ambiguousStop && env.manyStopwatches then Direct else Tool("stop_stopwatches")
    else if m.timerCancelById then Tool("cancel_timers")
    else if m.ambiguousCancel && env.manyTimers then Direct else Tool("cancel_timers")
  }

  function FreshRoute(m: Message): Route {
    if m.stopwatchStart then Tool("start_stopwatch")
    else if m.needsDuration || m.timerStart then Start(TimerFlow)
    else if m.wipe then Start(WipeFlow)
    else if m.serviceRestart then Start(ServiceRestartFlow)
    else if m.update then Start(UpdateFlow)
    else if m.reboot then Start(RebootFlow)
    else if m.health then Tool("check_health")
    else if m.analysis then Tool("analyze_system")
    else if m.notes then Tool("list_internal_notes")
    else if m.capability then Capabilities
    else if m.identity then Identity
    else if m.plainAnswer then Answer
    else if m.toolKeywords then Planner
    else Confused
  }

  function Decide(w: World, c: string, m: Message, env: Env): (World, Route) {
    if IsTimerCommand(m) then (Clear(w, c), CommandRoute(m, env))
    else if c in w.items then (w, ResumePending)
    else (w, FreshRoute(m))
  }

  // ----- The flows -----

  function StartFlow(w: World, i: Interaction, c: string, m: Message, env: Env): (World, Reply) {
    match i
    case TimerFlow =>
      if !m.needsDuration && m.duration then (Clear(w, c), TimerRan(env.timerStarted))
      else (Set(w, c, TimerDuration, ""), FollowUp(TimerDuration))
    case WipeFlow =>
      (Set(w, c, WipeConfirmation, ""), Confirmation(WipeConfirmation))
    case RebootFlow =>
      if env.rebootEnabled then (Set(w, c, RebootConfirmation, ""), Confirmation(RebootConfirmation))
      else (w, Refused(RebootConfirmation))
    case ServiceRestartFlow =>
      if env.restartEnabled then (Set(w, c, ServiceRestartConfirmation, ""), Confirmation(ServiceRestartConfirmation))
      else (w, Refused(ServiceRestartConfirmation))
    case UpdateFlow =>
      if !env.check.behind then (w, UpToDate)
      else if !ShouldPrompt(w.slots, env.check.remoteSha) then (w, UpdateKnown)
      else (OfferUpdate(w, c, env.check), Confirmation(UpdateConfirmation))
  }

  // A reply to the pending entry of conversation c; None when no flow takes it.
  function HandlePending(w: World, c: string, m: Message, env: Env): (World, Option<Reply>)
    requires c in w.items && c in w.tickets
  {
    var p, n := w.items[c], w.tickets[c];
    if p.kind == PresenceCheck then (Clear(w, c), None)
    else if m.rejects then
      var cleared := Clear(w, c);
      if p.kind == UpdateConfirmation && p.remoteSha != "" then (Dismiss(cleared, p.remoteSha), Some(Cancelled(p.kind)))
      else (cleared, Some(Cancelled(p.kind)))
    else if p.kind == TimerDuration then
      if m.duration || m.bareMinutes then (Clear(w, c), Some(TimerRan(env.timerStarted)))
      else (w, Some(FollowUp(p.kind)))
    else if !m.confirms then (w, Some(FollowUp(p.kind)))
    else match p.kind
      case WipeConfirmation => (Reset(Act(w, Wipe, c, m, n)), Some(Executed(p.kind)))
      case RebootConfirmation =>
        if env.rebootScheduled then (Act(Clear(w, c), Reboot, c, m, n), Some(Executed(p.kind)))
        else (Clear(w, c), Some(Refused(p.kind)))
      case ServiceRestartConfirmation =>
        if env.restartScheduled then (Act(Clear(w, c), Restart, c, m, n), Some(Executed(p.kind)))
        else (Clear(w, c), Some(Refused(p.kind)))
      case UpdateConfirmation =>
        if env.pulled && env.restartScheduled then (Act(Clear(w, c), Restart, c, m, n), Some(Executed(p.kind)))
        else (Clear(w, c), Some(Refused(p.kind)))
  }

  // ----- AgentOrchestrator -----

  function Serve(w: World, route: Route, c: string, m: Message, env: Env): (World, Reply) {
    if route.Start? then StartFlow(w, route.interaction, c, m, env) else (w, Routed(route))
  }

  /** `_resolve_source` and `_dispatch`: decide, resume a pending interaction, and re-route once. */
  function Respond(w: World, c: string, m: Message, env: Env): (World, Reply)
    requires w.tickets.Keys == w.items.Keys
  {
    var (decided, route) := Decide(w, c, m, env);
    if route != ResumePending then Serve(decided, route, c, m, env)
    else
      var (handled, reply) := HandlePending(decided, c, m, env);
      match reply
      case Some(r) => (handled, r)
      case None =>
        var (again, route') := Decide(Clear(handled, c), c, m, env);
        Serve(again, route', c, m, env)
  }

  const UPDATE_CONVERSATION := "default"

  /** `check_for_available_updates`, with the result of its check; None when checks are disabled. */
  function BackgroundCheck(w: World, check: Option<UpdateCheck>): World {
    if check.None? || !check.value.behind || !ShouldPrompt(w.slots, check.value.remoteSha) then w
    else OfferUpdate(w, UPDATE_CONVERSATION, check.value)
  }

  // ----- Runs -----

  datatype Event =
    | Says(conversation: string, message: Message, env: Env)
    | Checks(result: Option<UpdateCheck>)

  function Step(w: World, e: Event): World
    requires w.tickets.Keys == w.items.Keys
  {
    var v := match e
      case Says(c, m, env) => Respond(w, c, m, env).0
      case Checks(result) => BackgroundCheck(w, result);
    v.(clock := v.clock + 1)
  }

  // A new process, whose session baseline was recorded on startup.
  function StartOf(baseline: Option<string>): World {
    World(map[], Slots(baseline, None, None), [], map[], [], [], [], 0)
  }
}
