/** The router's priorities (app/assistant/agent_router.py) as a table. */
module RouterTheorems {
  import opened ConversationModel

  // A row of the table: what the message has to be, and where it then goes.
  datatype Rule = Rule(fits: bool, route: Route)

  function Commands(m: Message, env: Env): seq<Rule> {
    [ Rule(m.timerStatus, Tool("list_timers")),
      Rule(m.clearAllTimers, Tool("clear_all_timers")),
      Rule(m.stopwatchRename, Tool("rename_stopwatch")),
      Rule(m.timerRename, Tool("rename_timer")),
      Rule(m.stopwatchStopById, Tool("stop_stopwatches")),
      Rule(m.stopwatchStop && m.ambiguousStop && env.manyStopwatches, Direct),
      Rule(m.stopwatchStop, Tool("stop_stopwatches")),
      Rule(m.timerCancelById, Tool("cancel_timers")),
      Rule(m.timerCancel && m.ambiguousCancel && env.manyTimers, Direct),
      Rule(m.timerCancel, Tool("cancel_timers")) ]
  }

  function Requests(m: Message): seq<Rule> {
    [ Rule(m.stopwatchStart, Tool("start_stopwatch")),
      Rule(m.needsDuration || m.timerStart, Start(TimerFlow)),
      Rule(m.wipe, Start(WipeFlow)),
      Rule(m.serviceRestart, Start(ServiceRestartFlow)),
      Rule(m.update, Start(UpdateFlow)),
      Rule(m.reboot, Start(RebootFlow)),
      Rule(m.health, Tool("check_health")),
      Rule(m.analysis, Tool("analyze_system")),
      Rule(m.notes, Tool("list_internal_notes")),
      Rule(m.capability, Capabilities),
      Rule(m.identity, Identity),
      Rule(m.plainAnswer, Answer),
      Rule(m.toolKeywords, Planner),
      Rule(true, Confused) ]
  }

  // The rule at k is the first that fits.
  predicate FirstFit(rules: seq<Rule>, k: nat) {
    k < |rules| && rules[k].fits && forall j | 0 <= j < k :: !rules[j].fits
  }

  predicate NoneFits(rules: seq<Rule>) {
    forall j | 0 <= j < |rules| :: !rules[j].fits
  }

  /** A command is served first of all, whatever is pending, and drops what is pending. */
  lemma CommandsComeFirst(w: World, c: string, m: Message, env: Env, k: nat)
    requires FirstFit(Commands(m, env), k)
    ensures Decide(w, c, m, env) == (Clear(w, c), Commands(m, env)[k].route)
  {
    var rules := Commands(m, env);
    assert rules[0].fits == m.timerStatus && rules[1].fits == m.clearAllTimers;
    assert rules[2].fits == m.stopwatchRename && rules[3].fits == m.timerRename;
    assert rules[4].fits == m.stopwatchStopById && rules[6].fits == m.stopwatchStop;
    assert rules[5].fits == (m.stopwatchStop && m.ambiguousStop && env.manyStopwatches);
    assert rules[7].fits == m.timerCancelById && rules[9].fits == m.timerCancel;
    assert rules[8].fits == (m.timerCancel && m.ambiguousCancel && env.manyTimers);
  }

  lemma NoCommand(m: Message, env: Env)
    requires NoneFits(Commands(m, env))
    ensures !IsTimerCommand(m)
  {
    var commands := Commands(m, env);
    assert !commands[0].fits && !commands[1].fits && !commands[2].fits && !commands[3].fits && !commands[4].fits;
    assert !commands[6].fits && !commands[7].fits && !commands[9].fits;
  }

  lemma RequestsInOrder(m: Message, k: nat)
    requires FirstFit(Requests(m), k)
    ensures FreshRoute(m) == Requests(m)[k].route
  {
    var rules := Requests(m);
    assert rules[0].fits == m.stopwatchStart && rules[1].fits == (m.needsDuration || m.timerStart);
    assert rules[2].fits == m.wipe && rules[3].fits == m.serviceRestart && rules[4].fits == m.update;
    assert rules[5].fits == m.reboot && rules[6].fits == m.health && rules[7].fits == m.analysis;
    assert rules[8].fits == m.notes && rules[9].fits == m.capability && rules[10].fits == m.identity;
    assert rules[11].fits == m.plainAnswer && rules[12].fits == m.toolKeywords;
  }

  /** Then comes what is pending, and only then a new request, in the order of the table. */
  lemma PendingComesNext(w: World, c: string, m: Message, env: Env, k: nat)
    requires NoneFits(Commands(m, env)) && FirstFit(Requests(m), k)
    ensures Decide(w, c, m, env) == (w, if c in w.items then ResumePending else Requests(m)[k].route)
  {
    NoCommand(m, env);
    RequestsInOrder(m, k);
  }

  // The last three answers in the order that the router's description gives them.
  function DescribedRoute(m: Message): Route {
    if m.plainAnswer then Answer
    else if m.capability then Capabilities
    else if m.identity then Identity
    else if m.toolKeywords then Planner
    else Confused
  }

  /**
   The router's own description puts a plain answer before the capability and identity answers, the code after
   them: the two agree on a message that gets that far exactly when it is not both.
   */
  lemma DescriptionAgreesExactly(w: World, c: string, m: Message, env: Env)
    requires NoneFits(Commands(m, env)) && NoneFits(Requests(m)[..9]) && c !in w.items
    ensures Decide(w, c, m, env).1 == DescribedRoute(m) <==> !(m.plainAnswer && (m.capability || m.identity))
  {
    var first := Requests(m)[..9];
    NoCommand(m, env);
    assert !first[0].fits && !first[1].fits && !first[2].fits && !first[3].fits && !first[4].fits;
    assert !first[5].fits && !first[6].fits && !first[7].fits && !first[8].fits;
  }
}
