/**
 The tool-planning loop `AgentPlanner.run` (app/assistant/flows/planner.py).  The language model is an
 arbitrary list of replies, the tools an arbitrary result per call.
 */
module Planner {
  import opened Text
  import opened ToolSignature

  datatype ToolResult = ToolResult(ok: bool, tool: string, content: string)

  // A parsed decision of the model, with what the request matcher and the tool would say to it.
  datatype Decision =
    | Answer(content: Option<string>)
    | Invalid
    | Call(tool: string, args: seq<Entry>, matches: bool, result: ToolResult)

  datatype Reply = Reply(raw: string, decision: Decision)

  datatype Message =
    | Assistant(raw: string)
    | InvalidJson
    | Mismatch(tool: string)
    | Repeated(tool: string, content: string)
    | Returned(tool: string, content: string)
    | Earlier(content: string)

  datatype Source =
    | Confused
    | Facts(content: string)
    | ToolFacts(tool: string, content: string)
    | StepLimit

  // A call the tool runner executed, and its entry in `executed_tools`.
  datatype Executed = Executed(tool: string, args: seq<Entry>, result: ToolResult)

  const MAX_STEPS: nat := 8

  ghost predicate GoodReplies(replies: seq<Reply>) {
    && |replies| == MAX_STEPS
    && forall i | 0 <= i < |replies| :: replies[i].decision.Call? ==> Valid(Dict(replies[i].decision.args))
  }

  // ----- What a run should do -----

  ghost predicate SameCall(e: Executed, d: Decision) {
    d.Call? && e.tool == d.tool && Same(Dict(e.args), Dict(d.args))
  }

  ghost predicate AlreadyCalled(calls: seq<Executed>, d: Decision) {
    exists k :: 0 <= k < |calls| && SameCall(calls[k], d)
  }

  // The first occurrence, up to key order of the arguments, of each matching call among n replies.
  ghost function Calls(replies: seq<Reply>, n: nat): seq<Executed>
    requires n <= |replies|
  {
    if n == 0 then [] else
      var before := Calls(replies, n - 1);
      var d := replies[n - 1].decision;
      if d.Call? && d.matches && !AlreadyCalled(before, d)
      then before + [Executed(d.tool, d.args, d.result)]
      else before
  }

  function InvalidCount(replies: seq<Reply>, n: nat): nat
    requires n <= |replies|
  {
    if n == 0 then 0
    else InvalidCount(replies, n - 1) + if replies[n - 1].decision.Invalid? then 1 else 0
  }

  // The run stops at an answer and at the second reply that is not valid JSON.
  predicate Stops(replies: seq<Reply>, i: nat)
    requires i < |replies|
  {
    replies[i].decision.Answer? || (replies[i].decision.Invalid? && InvalidCount(replies, i) >= 1)
  }

  ghost predicate GoesOn(replies: seq<Reply>, n: nat) {
    n <= |replies| && forall i | 0 <= i < n :: !Stops(replies, i)
  }

  ghost predicate StopsAt(replies: seq<Reply>, n: nat) {
    GoesOn(replies, n) && (n < |replies| ==> Stops(replies, n))
  }

  // What the model is told after its n-th reply.
  ghost function Notice(replies: seq<Reply>, n: nat): Message
    requires n < |replies| && !Stops(replies, n)
  {
    var d := replies[n].decision;
    var before := Calls(replies, n);
    if !d.Call? then InvalidJson
    else if !d.matches then Mismatch(d.tool)
    else if AlreadyCalled(before, d) then
      var k :| 0 <= k < |before| && SameCall(before[k], d);
      Repeated(d.tool, before[k].result.content)
    else Returned(d.result.tool, d.result.content)
  }

  ghost function Transcript(replies: seq<Reply>, n: nat): seq<Message>
    requires GoesOn(replies, n)
  {
    if n == 0 then []
    else Transcript(replies, n - 1) + [Assistant(replies[n - 1].raw), Notice(replies, n - 1)]
  }

  function Conclude(calls: seq<Executed>, last: Option<Decision>): Source {
    match last
    case None => if calls == [] then Confused else StepLimit
    case Some(Answer(content)) =>
      if calls == [] then Confused
      else if content.Some? && Strip(content.value) != "" then Facts(content.value)
      else ToolFacts(calls[|calls| - 1].result.tool, calls[|calls| - 1].result.content)
    case Some(_) => Confused
  }

  predicate InvalidBefore(replies: seq<Reply>, n: nat)
    requires n <= |replies|
  {
    exists i :: 0 <= i < n && replies[i].decision.Invalid?
  }

  lemma {:induction false} InvalidCounted(replies: seq<Reply>, n: nat)
    requires n <= |replies|
    ensures InvalidCount(replies, n) >= 1 <==> InvalidBefore(replies, n)
  {
    if n > 0 {
      InvalidCounted(replies, n - 1);
    }
  }

  predicate AnswerOrSecondInvalid(replies: seq<Reply>, i: nat)
    requires i < |replies|
  {
    replies[i].decision.Answer? || (replies[i].decision.Invalid? && InvalidBefore(replies, i))
  }

  /** A run stops at the first answer or second reply that is not valid JSON, or when the replies run out. */
  lemma {:induction false} StopsExactly(replies: seq<Reply>, n: nat)
    requires n <= |replies|
    ensures StopsAt(replies, n) <==>
              && (forall i | 0 <= i < n :: !AnswerOrSecondInvalid(replies, i))
              && (n < |replies| ==> AnswerOrSecondInvalid(replies, n))
  {
    forall i | 0 <= i < |replies|
      ensures Stops(replies, i) <==> AnswerOrSecondInvalid(replies, i)
    {
      InvalidCounted(replies, i);
    }
  }

  // The last tool result among the messages.
  function LastReturned(log: seq<Message>): Option<Message> {
    if log == [] then None
    else if log[|log| - 1].Returned? then Some(log[|log| - 1])
    else LastReturned(log[..|log| - 1])
  }

  lemma {:induction false} LastReturnedAfterStep(log: seq<Message>, raw: string, notice: Message)
    ensures LastReturned(log + [Assistant(raw), notice])
         == if notice.Returned? then Some(notice) else LastReturned(log)
  {
    var grown := log + [Assistant(raw), notice];
    assert grown[..|grown| - 1] == log + [Assistant(raw)];
    assert (log + [Assistant(raw)])[..|log|] == log;
  }

  // The last tool result that the model saw is that of the last executed call.
  lemma {:induction false} LastReturnedIsLastCall(replies: seq<Reply>, n: nat)
    requires GoesOn(replies, n)
    ensures var calls := Calls(replies, n);
            LastReturned(Transcript(replies, n))
              == if calls == [] then None
                 else Some(Returned(calls[|calls| - 1].result.tool, calls[|calls| - 1].result.content))
  {
    if n > 0 {
      LastReturnedIsLastCall(replies, n - 1);
      LastReturnedAfterStep(Transcript(replies, n - 1), replies[n - 1].raw, Notice(replies, n - 1));
    }
  }

  /**
   How the source a run ends with follows from what the model was told: no tool result, no facts; an answer's
   own text if it has one; otherwise the very last tool result in the log.
   */
  ghost predicate SourceFits(source: Source, log: seq<Message>, last: Option<Decision>) {
    match last
    case None => source == if LastReturned(log).None? then Confused else StepLimit
    case Some(Answer(content)) =>
      && (source.Confused? <==> LastReturned(log).None?)
      && (source.Facts? ==> content == Some(source.content) && Strip(source.content) != "")
      && (source.ToolFacts? ==>
            && LastReturned(log) == Some(Returned(source.tool, source.content))
            && (content.None? || Strip(content.value) == ""))
      && !source.StepLimit?
    case Some(_) => source.Confused?
  }

  lemma {:induction false} ConclusionFits(replies: seq<Reply>, n: nat, last: Option<Decision>)
    requires GoesOn(replies, n)
    ensures SourceFits(Conclude(Calls(replies, n), last), Transcript(replies, n), last)
  {
    LastReturnedIsLastCall(replies, n);
  }

  // ----- The run -----

  ghost predicate HoldsResult(executedTools: map<string, ToolResult>, e: Executed) {
    var s := Signature(e.tool, e.args);
    s in executedTools && executedTools[s] == e.result
  }

  // The dictionary holds each executed call's result under its signature, and nothing else.
  ghost predicate Keyed(executedTools: map<string, ToolResult>, calls: seq<Executed>) {
    && (forall k | 0 <= k < |calls| :: Valid(Dict(calls[k].args)) && HoldsResult(executedTools, calls[k]))
    && (forall s | s in executedTools :: exists k :: 0 <= k < |calls| && Signature(calls[k].tool, calls[k].args) == s)
  }

  // Looking up a signature is looking for the same call.
  lemma SignatureFindsCall(executedTools: map<string, ToolResult>, calls: seq<Executed>, d: Decision)
    requires d.Call? && Valid(Dict(d.args)) && Keyed(executedTools, calls)
    ensures Signature(d.tool, d.args) in executedTools <==> AlreadyCalled(calls, d)
  {
    var s := Signature(d.tool, d.args);
    if s in executedTools {
      var k :| 0 <= k < |calls| && Signature(calls[k].tool, calls[k].args) == s;
      SignaturesIdentifyCalls(calls[k].tool, calls[k].args, d.tool, d.args);
      assert SameCall(calls[k], d);
    }
    if AlreadyCalled(calls, d) {
      var k :| 0 <= k < |calls| && SameCall(calls[k], d);
      SignaturesIdentifyCalls(calls[k].tool, calls[k].args, d.tool, d.args);
      assert HoldsResult(executedTools, calls[k]);
    }
  }

  lemma KeyedGrows(executedTools: map<string, ToolResult>, calls: seq<Executed>, d: Decision)
    requires d.Call? && Valid(Dict(d.args)) && Keyed(executedTools, calls)
    requires Signature(d.tool, d.args) !in executedTools
    ensures Keyed(executedTools[Signature(d.tool, d.args) := d.result], calls + [Executed(d.tool, d.args, d.result)])
  {
    var s := Signature(d.tool, d.args);
    var calls' := calls + [Executed(d.tool, d.args, d.result)];
    forall k | 0 <= k < |calls'|
      ensures Valid(Dict(calls'[k].args)) && HoldsResult(executedTools[s := d.result], calls'[k])
    {
      assert k < |calls| ==> HoldsResult(executedTools, calls[k]);
    }
    var grown := executedTools[s := d.result];
    forall t | t in grown
      ensures exists k :: 0 <= k < |calls'| && Signature(calls'[k].tool, calls'[k].args) == t
    {
      if t == s {
        assert Signature(calls'[|calls|].tool, calls'[|calls|].args) == t;
      } else {
        var k :| 0 <= k < |calls| && Signature(calls[k].tool, calls[k].args) == t;
        assert calls'[k] == calls[k];
      }
    }
  }

  /** No run executes a call twice, up to key order of its arguments at any depth. */
  lemma {:induction false} NoRepeats(replies: seq<Reply>, n: nat)
    requires GoodReplies(replies) && n <= |replies|
    ensures forall k | 0 <= k < |Calls(replies, n)| :: Valid(Dict(Calls(replies, n)[k].args))
    ensures forall j, k | 0 <= j < k < |Calls(replies, n)| ::
              !(Calls(replies, n)[j].tool == Calls(replies, n)[k].tool
                && Same(Dict(Calls(replies, n)[j].args), Dict(Calls(replies, n)[k].args)))
  {
    if n > 0 {
      NoRepeats(replies, n - 1);
    }
  }

  // At most one executed call is the same as d, so any that is found is the one in the notice.
  lemma RepeatIsUnique(replies: seq<Reply>, n: nat, d: Decision, k: nat)
    requires GoodReplies(replies) && n < |replies| && !Stops(replies, n)
    requires d == replies[n].decision && d.Call? && d.matches
    requires k < |Calls(replies, n)| && SameCall(Calls(replies, n)[k], d)
    ensures Notice(replies, n) == Repeated(d.tool, Calls(replies, n)[k].result.content)
  {
    var before := Calls(replies, n);
    NoRepeats(replies, n);
    forall j | 0 <= j < |before| && SameCall(before[j], d)
      ensures j == k
    {
      SignaturesIdentifyCalls(before[j].tool, before[j].args, d.tool, d.args);
      SignaturesIdentifyCalls(before[k].tool, before[k].args, d.tool, d.args);
      SignaturesIdentifyCalls(before[j].tool, before[j].args, before[k].tool, before[k].args);
      SignaturesIdentifyCalls(before[k].tool, before[k].args, before[j].tool, before[j].args);
    }
  }

  // One matching tool call: executed and recorded, or answered with the result it already gave.
  method HandleCall(replies: seq<Reply>, step: nat,
                    executedTools: map<string, ToolResult>, calls: seq<Executed>, log: seq<Message>)
    returns (executedTools': map<string, ToolResult>, calls': seq<Executed>, log': seq<Message>)
    requires GoodReplies(replies) && step < |replies| && !Stops(replies, step)
    requires replies[step].decision.Call? && replies[step].decision.matches
    requires calls == Calls(replies, step) && Keyed(executedTools, calls)
    ensures calls' == Calls(replies, step + 1) && Keyed(executedTools', calls')
    ensures log' == log + [Assistant(replies[step].raw), Notice(replies, step)]
  {
    var raw, d := replies[step].raw, replies[step].decision;
    var signature := Signature(d.tool, d.args);
    SignatureFindsCall(executedTools, calls, d);
    if signature in executedTools {
      ghost var k :| 0 <= k < |calls| && SameCall(calls[k], d);
      SignaturesIdentifyCalls(calls[k].tool, calls[k].args, d.tool, d.args);
      assert HoldsResult(executedTools, calls[k]);
      RepeatIsUnique(replies, step, d, k);
      return executedTools, calls, log + [Assistant(raw), Repeated(d.tool, executedTools[signature].content)];
    }
    KeyedGrows(executedTools, calls, d);
    executedTools' := executedTools[signature := d.result];
    calls' := calls + [Executed(d.tool, d.args, d.result)];
    log' := log + [Assistant(raw), Returned(d.result.tool, d.result.content)];
  }

  /** `_build_answer_source` */
  method BuildAnswerSource(content: Option<string>, calls: seq<Executed>) returns (source: Source)
    ensures source == Conclude(calls, Some(Answer(content)))
  {
    if calls == [] {
      return Confused;
    }
    if content.Some? && Strip(content.value) != "" {
      return Facts(content.value);
    }
    var latest := calls[|calls| - 1].result;
    return ToolFacts(latest.tool, latest.content);
  }

  method Run(replies: seq<Reply>, messages: seq<Message>)
    returns (source: Source, log: seq<Message>, calls: seq<Executed>, ghost stop: nat)
    requires GoodReplies(replies)
    ensures StopsAt(replies, stop)
    ensures calls == Calls(replies, stop)
    ensures log == messages + Transcript(replies, stop)
    ensures source == Conclude(calls, if stop < |replies| then Some(replies[stop].decision) else None)
    ensures SourceFits(source, log[|messages|..], if stop < |replies| then Some(replies[stop].decision) else None)
  {
    var invalidJsonAttempts := 0;
    var executedTools: map<string, ToolResult> := map[];
    calls := [];
    log := messages;
    for step := 0 to MAX_STEPS
      invariant GoesOn(replies, step)
      invariant invalidJsonAttempts == InvalidCount(replies, step)
      invariant calls == Calls(replies, step)
      invariant Keyed(executedTools, calls)
      invariant log == messages + Transcript(replies, step)
    {
      stop := step;
      var raw, d := replies[step].raw, replies[step].decision;
      if d.Answer? {
        source := BuildAnswerSource(d.content, calls);
        ConclusionFits(replies, step, Some(d));
        return;
      }
      if d.Invalid? {
        invalidJsonAttempts := invalidJsonAttempts + 1;
        if invalidJsonAttempts >= 2 {
          source := Confused;
          ConclusionFits(replies, step, Some(d));
          return;
        }
        log := log + [Assistant(raw), InvalidJson];
        continue;
      }
      if !d.matches {
        log := log + [Assistant(raw), Mismatch(d.tool)];
        continue;
      }
      executedTools, calls, log := HandleCall(replies, step, executedTools, calls, log);
    }
    stop := MAX_STEPS;
    source := if calls == [] then Confused else StepLimit;
    ConclusionFits(replies, MAX_STEPS, None);
  }

  lemma {:induction false} StaysCalled(replies: seq<Reply>, n: nat, d: Decision)
    requires 0 < n <= |replies| && AlreadyCalled(Calls(replies, n - 1), d)
    ensures AlreadyCalled(Calls(replies, n), d)
  {
    var before, after := Calls(replies, n - 1), Calls(replies, n);
    var k :| 0 <= k < |before| && SameCall(before[k], d);
    assert after[k] == before[k];
  }

  lemma {:induction false} LastIsCalled(replies: seq<Reply>, n: nat)
    requires GoodReplies(replies) && 0 < n <= |replies|
    requires replies[n - 1].decision.Call? && replies[n - 1].decision.matches
    ensures AlreadyCalled(Calls(replies, n), replies[n - 1].decision)
  {
    var d := replies[n - 1].decision;
    var before, after := Calls(replies, n - 1), Calls(replies, n);
    if !AlreadyCalled(before, d) {
      SignaturesIdentifyCalls(d.tool, d.args, d.tool, d.args);
      assert SameCall(after[|before|], d);
    }
  }

  /** No call the model asked for is dropped: each matching one was executed in some key order. */
  lemma {:induction false} NothingDropped(replies: seq<Reply>, n: nat, i: nat)
    requires GoodReplies(replies) && i < n <= |replies|
    requires replies[i].decision.Call? && replies[i].decision.matches
    ensures AlreadyCalled(Calls(replies, n), replies[i].decision)
  {
    if i < n - 1 {
      NothingDropped(replies, n - 1, i);
      StaysCalled(replies, n, replies[i].decision);
    } else {
      LastIsCalled(replies, n);
    }
  }
}
