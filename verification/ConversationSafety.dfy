/** Consent and update prompts: what every run of the conversation protocol keeps. */
module ConversationSafety {
  import opened Text
  import opened ConversationModel

  // Which pending entries may lead to which actions.
  predicate Authorises(kind: PendingKind, action: Action) {
    match action
    case Wipe => kind == WipeConfirmation
    case Reboot => kind == RebootConfirmation
    case Restart => kind == ServiceRestartConfirmation || kind == UpdateConfirmation
  }

  // Effect e was carried out on request r: same conversation, an earlier event, and a clear yes.
  predicate Justified(e: Effect, r: Request) {
    && r.conversation == e.conversation
    && Authorises(r.kind, e.action)
    && r.at < e.at
    && e.message.confirms && !e.message.rejects && !IsTimerCommand(e.message)
  }

  predicate Ticketed(p: Pending, n: nat, c: string, requests: seq<Request>) {
    n < |requests| && requests[n].conversation == c && requests[n].kind == p.kind
  }

  ghost predicate ItemsTicketed(w: World) {
    && w.tickets.Keys == w.items.Keys
    && (forall c | c in w.items :: Ticketed(w.items[c], w.tickets[c], c, w.requests))
  }

  ghost predicate EffectsJustified(w: World) {
    && |w.effects| == |w.consumed|
    && (forall i | 0 <= i < |w.effects| ::
          w.consumed[i] < |w.requests| && Justified(w.effects[i], w.requests[w.consumed[i]]))
  }

  // A request is consumed at most once, and a live one not at all.
  ghost predicate ConsumedOnce(w: World) {
    && (forall i, j | 0 <= i < j < |w.consumed| :: w.consumed[i] != w.consumed[j])
    && (forall c | c in w.tickets :: w.tickets[c] !in w.consumed)
  }

  // ----- Update prompts -----

  function LastDismissed(ps: seq<Prompt>): Option<string> {
    if ps == [] then None
    else if ps[|ps| - 1].Dismissed? then Some(ps[|ps| - 1].sha)
    else LastDismissed(ps[..|ps| - 1])
  }

  // The sha of the offer that was the last thing to happen.
  function StandingOffer(ps: seq<Prompt>): Option<string> {
    if ps != [] && ps[|ps| - 1].Offered? then Some(ps[|ps| - 1].sha) else None
  }

  predicate SlotsMatch(w: World) {
    w.slots.dismissed == LastDismissed(w.prompts) && w.slots.offered == StandingOffer(w.prompts)
  }

  ghost predicate OffersGood(ps: seq<Prompt>, baseline: Option<string>) {
    forall j | 0 <= j < |ps| && ps[j].Offered? ::
      && ps[j].sha != "" && baseline != Some(ps[j].sha)
      && LastDismissed(ps[..j]) != Some(ps[j].sha) && StandingOffer(ps[..j]) != Some(ps[j].sha)
  }

  ghost predicate PromptsGood(w: World) {
    SlotsMatch(w) && OffersGood(w.prompts, w.slots.baseline)
  }

  // Between events every request is from an earlier event.
  ghost predicate Inv(w: World) {
    && ItemsTicketed(w) && EffectsJustified(w) && ConsumedOnce(w) && PromptsGood(w)
    && (forall n | 0 <= n < |w.requests| :: w.requests[n].at < w.clock)
  }

  // During an event the requests may also be from this one.
  ghost predicate MidInv(w: World) {
    && ItemsTicketed(w) && EffectsJustified(w) && ConsumedOnce(w) && PromptsGood(w)
    && (forall n | 0 <= n < |w.requests| :: w.requests[n].at <= w.clock)
  }

  // ----- Each part of an event keeps the invariant -----

  lemma SetKeeps(w: World, c: string, kind: PendingKind, sha: string)
    requires MidInv(w)
    ensures MidInv(Set(w, c, kind, sha))
  {
    var v := Set(w, c, kind, sha);
    forall d | d in v.items
      ensures Ticketed(v.items[d], v.tickets[d], d, v.requests)
    {
      assert d != c ==> Ticketed(w.items[d], w.tickets[d], d, w.requests);
    }
  }

  lemma ClearKeeps(w: World, c: string)
    requires MidInv(w)
    ensures MidInv(Clear(w, c))
  {
    var v := Clear(w, c);
    assert forall d | d in v.items :: Ticketed(w.items[d], w.tickets[d], d, w.requests);
  }

  lemma ActKeeps(w: World, action: Action, c: string, m: Message, n: nat)
    requires MidInv(w)
    requires n < |w.requests| && n !in w.consumed && forall d | d in w.tickets :: w.tickets[d] != n
    requires Justified(Effect(action, c, w.clock, m), w.requests[n])
    ensures MidInv(Act(w, action, c, m, n))
  {
  }

  lemma PrefixesStay(ps: seq<Prompt>, p: Prompt)
    ensures forall j | 0 <= j <= |ps| :: (ps + [p])[..j] == ps[..j]
    ensures (ps + [p])[..|ps + [p]| - 1] == ps
  {
  }

  lemma PromptKeeps(w: World, sha: string)
    requires MidInv(w) && ShouldPrompt(w.slots, sha)
    ensures MidInv(MarkOffered(w, sha))
  {
    var v := MarkOffered(w, sha);
    PrefixesStay(w.prompts, Offered(sha));
    assert v.prompts[..|w.prompts|] == w.prompts;
  }

  lemma DismissKeeps(w: World, sha: string)
    requires MidInv(w)
    ensures MidInv(Dismiss(w, sha))
  {
    PrefixesStay(w.prompts, Dismissed(sha));
  }

  lemma OfferKeeps(w: World, c: string, check: UpdateCheck)
    requires MidInv(w) && ShouldPrompt(w.slots, check.remoteSha)
    ensures MidInv(OfferUpdate(w, c, check))
  {
    PromptKeeps(w, check.remoteSha);
    SetKeeps(MarkOffered(w, check.remoteSha), c, UpdateConfirmation, check.remoteSha);
  }

  lemma ServeKeeps(w: World, route: Route, c: string, m: Message, env: Env)
    requires MidInv(w)
    ensures MidInv(Serve(w, route, c, m, env).0)
  {
    if route.Start? {
      match route.interaction
      case TimerFlow =>
        ClearKeeps(w, c);
        SetKeeps(w, c, TimerDuration, "");
      case WipeFlow => SetKeeps(w, c, WipeConfirmation, "");
      case RebootFlow => SetKeeps(w, c, RebootConfirmation, "");
      case ServiceRestartFlow => SetKeeps(w, c, ServiceRestartConfirmation, "");
      case UpdateFlow =>
        if ShouldPrompt(w.slots, env.check.remoteSha) {
          OfferKeeps(w, c, env.check);
        }
    }
  }

  lemma HandleKeeps(w: World, c: string, m: Message, env: Env)
    requires Inv(w) && c in w.items && !IsTimerCommand(m)
    ensures MidInv(HandlePending(w, c, m, env).0)
  {
    var p, n := w.items[c], w.tickets[c];
    ClearKeeps(w, c);
    assert Ticketed(p, n, c, w.requests);
    assert forall d | d in w.items && d != c :: Ticketed(w.items[d], w.tickets[d], d, w.requests);
    if p.kind == PresenceCheck {
    } else if m.rejects {
      DismissKeeps(Clear(w, c), p.remoteSha);
    } else if p.kind != TimerDuration && m.confirms {
      match p.kind
      case WipeConfirmation =>
        var v := Reset(w);
        assert MidInv(v);
        ActKeeps(v, Wipe, c, m, n);
        assert Reset(Act(w, Wipe, c, m, n)) == Act(v, Wipe, c, m, n);
      case RebootConfirmation => ActKeeps(Clear(w, c), Reboot, c, m, n);
      case ServiceRestartConfirmation => ActKeeps(Clear(w, c), Restart, c, m, n);
      case UpdateConfirmation => ActKeeps(Clear(w, c), Restart, c, m, n);
    }
  }

  lemma RespondKeeps(w: World, c: string, m: Message, env: Env)
    requires Inv(w)
    ensures MidInv(Respond(w, c, m, env).0)
  {
    ClearKeeps(w, c);
    var (decided, route) := Decide(w, c, m, env);
    if route != ResumePending {
      ServeKeeps(decided, route, c, m, env);
    } else {
      HandleKeeps(w, c, m, env);
      var (handled, reply) := HandlePending(w, c, m, env);
      if reply.None? {
        ClearKeeps(handled, c);
        var (again, route') := Decide(Clear(handled, c), c, m, env);
        ServeKeeps(again, route', c, m, env);
      }
    }
  }

  lemma ServeFrame(w: World, route: Route, c: string, m: Message, env: Env)
    ensures Serve(w, route, c, m, env).0.clock == w.clock
    ensures Serve(w, route, c, m, env).0.slots.baseline == w.slots.baseline
  {
  }

  lemma RespondFrame(w: World, c: string, m: Message, env: Env)
    requires w.tickets.Keys == w.items.Keys
    ensures Respond(w, c, m, env).0.clock == w.clock
    ensures Respond(w, c, m, env).0.slots.baseline == w.slots.baseline
  {
    var (decided, route) := Decide(w, c, m, env);
    if route != ResumePending {
      ServeFrame(decided, route, c, m, env);
    } else {
      var (handled, reply) := HandlePending(w, c, m, env);
      if reply.None? {
        var (again, route') := Decide(Clear(handled, c), c, m, env);
        ServeFrame(again, route', c, m, env);
      }
    }
  }

  lemma StepKeeps(w: World, e: Event)
    requires Inv(w)
    ensures Inv(Step(w, e)) && Step(w, e).slots.baseline == w.slots.baseline
  {
    match e
    case Says(c, m, env) =>
      RespondKeeps(w, c, m, env);
      RespondFrame(w, c, m, env);
    case Checks(result) =>
      if result.Some? && ShouldPrompt(w.slots, result.value.remoteSha) {
        OfferKeeps(w, UPDATE_CONVERSATION, result.value);
      }
  }

  // Every live entry has a ticket, and nothing else has.
  lemma StepKeepsTickets(w: World, e: Event)
    requires w.tickets.Keys == w.items.Keys
    ensures Step(w, e).tickets.Keys == Step(w, e).items.Keys
  {
    match e
    case Checks(_) =>
    case Says(c, m, env) =>
      var (decided, route) := Decide(w, c, m, env);
      if route != ResumePending {
      } else {
        var handled := HandlePending(w, c, m, env).0;
      }
  }

  /** The state after a run of messages and update checks. */
  ghost function Reached(baseline: Option<string>, run: seq<Event>): (w: World)
    ensures w.tickets.Keys == w.items.Keys
  {
    if run == [] then StartOf(baseline)
    else
      var before := Reached(baseline, run[..|run| - 1]);
      StepKeepsTickets(before, run[|run| - 1]);
      Step(before, run[|run| - 1])
  }

  /** The invariant holds after every run. */
  lemma {:induction false} ReachedKeeps(baseline: Option<string>, run: seq<Event>)
    ensures Inv(Reached(baseline, run)) && Reached(baseline, run).slots.baseline == baseline
  {
    if run != [] {
      ReachedKeeps(baseline, run[..|run| - 1]);
      StepKeeps(Reached(baseline, run[..|run| - 1]), run[|run| - 1]);
    }
  }
}
