/**
 The runtime activity log: a bounded ring of events with consecutive ids, the displayed state, voice
 announcements without immediate repeats (app/runtime/activity.py), and the event stream's cursor
 (app/api/runtime.py).  Calls are atomic.
 */
module Activity {
  import opened Text

  datatype EventKind = StateEvent | LogEvent

  datatype ActivityState = Standby | Working | Error

  datatype Event = Event(id: nat, kind: EventKind, state: ActivityState, source: string, title: string,
                         detail: Option<string>)

  const STANDBY_TITLE := "I'm in standby."
  const STANDBY_DETAIL := "Awaiting your input."
  const VOICE_SOURCE := "runtime.voice.announce"

  // The last n elements of s, or all of them.
  function Last<T>(s: seq<T>, n: nat): seq<T> {
    if |s| <= n then s else s[|s| - n..]
  }

  // deque.append with maxlen n: the oldest element makes room.
  function Push<T>(s: seq<T>, x: T, n: nat): seq<T> {
    var t := s + [x];
    if |t| > n then t[|t| - n..] else t
  }

  ghost predicate Numbered(history: seq<Event>) {
    forall i | 0 <= i < |history| :: history[i].id == i + 1
  }

  // ----- Voice lines -----

  predicate IsDot(c: char) {
    c == '.'
  }

  function StripDots(s: string): string {
    RStrip(s, IsDot)
  }

  function JoinWithout(words: seq<string>, skip: set<string>): string {
    if words == [] then []
    else
      var rest := JoinWithout(words[1..], skip);
      if words[0] in skip then rest
      else if rest == [] then words[0]
      else words[0] + " " + rest
  }

  /** `_normalize_voice_announcement` */
  function NormalizeVoice(message: string): string {
    JoinWithout(Split(Lower(StripDots(Strip(message))), []), {"the", "a"})
  }

  // ----- What the normal form keeps -----

  // The words in order, without the articles that the normal form leaves out.
  function Kept(words: seq<string>): seq<string> {
    if words == [] then []
    else (if words[0] == "the" || words[0] == "a" then [] else [words[0]]) + Kept(words[1..])
  }

  // What a line says, whatever its case, blanks, articles and the full stops at its end.
  function SaidWords(message: string): seq<string> {
    Kept(Split(Lower(StripDots(Strip(message))), []))
  }

  ghost predicate AreWords(words: seq<string>) {
    forall i | 0 <= i < |words| :: words[i] != [] && forall k | 0 <= k < |words[i]| :: !IsSpace(words[i][k])
  }

  lemma {:induction false} SplitGivesWords(s: string, word: string)
    requires forall k | 0 <= k < |word| :: !IsSpace(word[k])
    ensures AreWords(Split(s, word))
    decreases s
  {
    if s != [] {
      SplitGivesWords(s[1..], if IsSpace(s[0]) then [] else word + [s[0]]);
    }
  }

  lemma {:induction false} JoinOfKept(words: seq<string>)
    ensures JoinWithout(words, {"the", "a"}) == JoinWithout(Kept(words), {})
  {
    if words != [] {
      JoinOfKept(words[1..]);
      var kept := Kept(words[1..]);
      if words[0] in {"the", "a"} {
        assert Kept(words) == kept;
      } else {
        assert Kept(words) == [words[0]] + kept && ([words[0]] + kept)[1..] == kept;
      }
    }
  }

  lemma {:induction false} SplitOfJoin(words: seq<string>)
    requires AreWords(words)
    ensures Split(JoinWithout(words, {}), []) == words
  {
    if words != [] {
      var w, rest := words[0], JoinWithout(words[1..], {});
      SplitOfJoin(words[1..]);
      SplitWord(w, []);
      assert [] + w == w && words == [w] + words[1..];
      if rest != [] {
        SplitBeforeBlank(w, " " + rest, []);
        assert w + " " + rest == w + (" " + rest) && (" " + rest)[1..] == rest;
      }
    }
  }

  lemma {:induction false} KeptAreWords(words: seq<string>)
    requires AreWords(words)
    ensures AreWords(Kept(words))
  {
    if words != [] {
      KeptAreWords(words[1..]);
    }
  }

  /** The words of the normal form are the line's words in lower case, in order, without the articles. */
  lemma NormalFormKeepsWords(message: string)
    ensures Split(NormalizeVoice(message), []) == SaidWords(message)
  {
    var words := Split(Lower(StripDots(Strip(message))), []);
    SplitGivesWords(Lower(StripDots(Strip(message))), []);
    KeptAreWords(words);
    JoinOfKept(words);
    SplitOfJoin(Kept(words));
  }

  /** So two lines pass for the same exactly when they say the same words. */
  lemma SameFormExactly(m: string, n: string)
    ensures NormalizeVoice(m) == NormalizeVoice(n) <==> SaidWords(m) == SaidWords(n)
  {
    NormalFormKeepsWords(m);
    NormalFormKeepsWords(n);
    JoinOfKept(Split(Lower(StripDots(Strip(m))), []));
    JoinOfKept(Split(Lower(StripDots(Strip(n))), []));
  }

  // ----- What is heard -----

  // The line that a message speaks, if it has one.
  function SpokenLine(message: string): Option<string> {
    var spoken := StripDots(Strip(message));
    if spoken == "" then None else Some(spoken)
  }

  lemma {:induction false} DotsGo(core: string, dots: string)
    requires AllIn(dots, IsDot) && (core != [] ==> !IsDot(core[|core| - 1]))
    ensures StripDots(core + dots) == core
    decreases |dots|
  {
    if dots == [] {
      assert core + dots == core;
    } else {
      assert (core + dots)[..|core + dots| - 1] == core + dots[..|dots| - 1];
      DotsGo(core, dots[..|dots| - 1]);
    }
  }

  /** What a message speaks is what is left without the blanks around it and the full stops at its end. */
  lemma {:induction false} SpokenLineExactly(before: string, core: string, dots: string, after: string)
    requires AllIn(before, IsSpace) && AllIn(after, IsSpace) && AllIn(dots, IsDot)
    requires core != [] ==> !IsSpace(core[0]) && !IsDot(core[|core| - 1])
    requires core != [] && dots == [] ==> !IsSpace(core[|core| - 1])
    ensures SpokenLine(before + (core + dots) + after) == if core == [] then None else Some(core)
  {
    var text := core + dots;
    DotsGo(core, dots);
    LStripBlank(before);
    RStripSplits(after, IsSpace);
    if text == [] {
      assert before + text + after == before + after;
      LStripBlank(before + after);
    } else {
      assert !IsSpace(text[0]) && !IsSpace(text[|text| - 1]);
      StripAround(before, text, after);
      assert [] + text + [] == text;
    }
  }

  // The lines actually spoken for a list of messages, after a last line heard before.
  function Heard(messages: seq<string>, last: Option<string>): seq<string> {
    if messages == [] then []
    else match SpokenLine(messages[0])
      case None => Heard(messages[1..], last)
      case Some(spoken) =>
        var line := NormalizeVoice(spoken);
        if last == Some(line) then Heard(messages[1..], last)
        else [spoken] + Heard(messages[1..], Some(line))
  }

  function NextLine(message: string, last: Option<string>): Option<string> {
    match SpokenLine(message)
    case None => last
    case Some(spoken) => Some(NormalizeVoice(spoken))
  }

  // The normal form of the last line that messages could speak, heard or not.
  function LastLine(messages: seq<string>, last: Option<string>): Option<string> {
    if messages == [] then last
    else NextLine(messages[|messages| - 1], LastLine(messages[..|messages| - 1], last))
  }

  lemma {:induction false} LastLineFromFront(messages: seq<string>, last: Option<string>)
    requires messages != []
    ensures LastLine(messages, last) == LastLine(messages[1..], NextLine(messages[0], last))
  {
    var front, rest := messages[..|messages| - 1], messages[1..];
    if front != [] {
      LastLineFromFront(front, last);
      assert front[1..] == rest[..|rest| - 1];
    }
  }

  /**
   A message is heard exactly when it has a line to speak whose normal form differs from that of the last
   such line before it, whatever was said before.
   */
  lemma {:induction false} HeardExactly(messages: seq<string>, message: string, last: Option<string>)
    ensures var line := SpokenLine(message);
            Heard(messages + [message], last) == Heard(messages, last) +
              (if line.Some? && LastLine(messages, last) != Some(NormalizeVoice(line.value)) then [line.value] else [])
    decreases messages
  {
    if messages == [] {
      assert [] + [message] == [message] && [message][1..] == [];
    } else {
      assert (messages + [message])[1..] == messages[1..] + [message];
      LastLineFromFront(messages, last);
      HeardExactly(messages[1..], message, NextLine(messages[0], last));
    }
  }

  // The last line that messages could speak, heard or not.
  function LastSpoken(messages: seq<string>): Option<string> {
    if messages == [] then None
    else if SpokenLine(messages[|messages| - 1]).Some? then SpokenLine(messages[|messages| - 1])
    else LastSpoken(messages[..|messages| - 1])
  }

  lemma {:induction false} LastLineIsLastSpoken(messages: seq<string>)
    ensures var spoken := LastSpoken(messages);
            LastLine(messages, None) == if spoken.None? then None else Some(NormalizeVoice(spoken.value))
  {
    if messages != [] {
      LastLineIsLastSpoken(messages[..|messages| - 1]);
    }
  }

  /** In words: a line is heard exactly when it is the first or says other words than the last line before it. */
  lemma {:induction false} HeardByWords(messages: seq<string>, message: string)
    ensures var line, before := SpokenLine(message), LastSpoken(messages);
            Heard(messages + [message], None) == Heard(messages, None) +
              (if line.Some? && (before.None? || SaidWords(before.value) != SaidWords(line.value))
               then [line.value] else [])
  {
    HeardExactly(messages, message, None);
    LastLineIsLastSpoken(messages);
    var line, before := SpokenLine(message), LastSpoken(messages);
    if line.Some? && before.Some? {
      SameFormExactly(before.value, line.value);
    }
  }

  /** Of equal messages in a row only the first is heard. */
  lemma {:induction false} RepeatIsSilent(message: string, n: nat, last: Option<string>)
    requires SpokenLine(message).Some?
    ensures var line := NormalizeVoice(SpokenLine(message).value);
            Heard(seq(n, _ => message), last)
              == if n == 0 || last == Some(line) then [] else [SpokenLine(message).value]
  {
    if n > 0 {
      var ms := seq(n, _ => message);
      assert ms[1..] == seq(n - 1, _ => message);
      RepeatIsSilent(message, n - 1, Some(NormalizeVoice(SpokenLine(message).value)));
      if last == Some(NormalizeVoice(SpokenLine(message).value)) {
        RepeatIsSilent(message, n - 1, last);
      }
    }
  }

  // ----- ActivityHub -----

  class ActivityHub {
    const maxEvents: nat
    var events: seq<Event>
    var nextId: nat
    var state: ActivityState
    var headline: string
    var detail: Option<string>
    var workingSource: Option<string>
    var taskTimer: Option<(string, nat)>
    var lastVoice: Option<string>
    ghost var history: seq<Event>

    // The deque is the end of the full history, ids count up from 1, and what is displayed is the last
    // event's.
    ghost predicate Valid()
      reads this
    {
      && Numbered(history) && nextId == |history| + 1
      && events == Last(history, maxEvents)
      && history != []
      && var e := history[|history| - 1];
         && state == e.state && headline == e.title && detail == e.detail
         && workingSource == (if e.state == Working then Some(e.source) else None)
    }

    constructor (maxEvents: nat)
      ensures Valid() && this.maxEvents == maxEvents
      ensures history == [Event(1, StateEvent, Standby, "system", STANDBY_TITLE, Some(STANDBY_DETAIL))]
      ensures taskTimer.None? && lastVoice.None?
    {
      this.maxEvents := maxEvents;
      events, nextId, history := [], 1, [];
      state, headline, detail := Standby, STANDBY_TITLE, Some(STANDBY_DETAIL);
      workingSource, taskTimer, lastVoice := None, None, None;
      new;
      var _ := Append(StateEvent, Standby, "system", STANDBY_TITLE, Some(STANDBY_DETAIL));
    }

    // deque.append
    method Enqueue(e: Event)
      requires Numbered(history) && events == Last(history, maxEvents) && e.id == |history| + 1
      modifies this`events, this`history
      ensures Numbered(history) && events == Last(history, maxEvents)
      ensures history == old(history) + [e]
    {
      events := Push(events, e, maxEvents);
      history := history + [e];
    }

    // `_record`
    method Append(kind: EventKind, newState: ActivityState, source: string, title: string, newDetail: Option<string>)
      returns (e: Event)
      requires Numbered(history) && nextId == |history| + 1 && events == Last(history, maxEvents)
      modifies this
      ensures Valid()
      ensures e == Event(old(nextId), kind, newState, source, title, newDetail)
      ensures history == old(history) + [e]
      ensures taskTimer == old(taskTimer) && lastVoice == old(lastVoice)
    {
      e := Event(nextId, kind, newState, source, title, newDetail);
      nextId := nextId + 1;
      Enqueue(e);
      state := newState;
      headline := title;
      detail := newDetail;
      if newState == Working {
        workingSource := Some(source);
      } else {
        workingSource := None;
      }
    }

    method GoStandby(title: string, newDetail: Option<string>, source: string) returns (e: Event)
      requires Valid()
      modifies this
      ensures Valid() && history == old(history) + [e]
      ensures e == Event(old(nextId), StateEvent, Standby, source, title, newDetail)
      ensures taskTimer.None? && lastVoice == old(lastVoice)
    {
      taskTimer := None;
      e := Append(StateEvent, Standby, source, title, newDetail);
    }

    method GoWorking(title: string, newDetail: Option<string>, source: string) returns (e: Event)
      requires Valid()
      modifies this
      ensures Valid() && history == old(history) + [e]
      ensures e == Event(old(nextId), StateEvent, Working, source, title, newDetail)
      ensures taskTimer == old(taskTimer) && lastVoice == old(lastVoice)
    {
      e := Append(StateEvent, Working, source, title, newDetail);
    }

    method ReportError(title: string, newDetail: Option<string>, source: string) returns (e: Event)
      requires Valid()
      modifies this
      ensures Valid() && history == old(history) + [e]
      ensures e == Event(old(nextId), StateEvent, Error, source, title, newDetail)
      ensures taskTimer.None? && lastVoice == old(lastVoice)
    {
      taskTimer := None;
      e := Append(StateEvent, Error, source, title, newDetail);
    }

    method StartTaskTimer(name: string, expectedSeconds: nat) returns (e: Event)
      requires Valid()
      modifies this
      ensures Valid() && history == old(history) + [e] && state == old(state)
      ensures e == Event(old(nextId), LogEvent, old(state), "runtime.task_timer", name, None)
      ensures taskTimer == Some((name, expectedSeconds)) && lastVoice == old(lastVoice)
    {
      taskTimer := Some((name, expectedSeconds));
      e := Log(name, None, "runtime.task_timer");
    }

    // A log entry keeps the state but takes over the headline, and the source while working.
    method Log(title: string, newDetail: Option<string>, source: string) returns (e: Event)
      requires Valid()
      modifies this
      ensures Valid() && history == old(history) + [e] && state == old(state)
      ensures e == Event(old(nextId), LogEvent, old(state), source, title, newDetail)
      ensures taskTimer == old(taskTimer) && lastVoice == old(lastVoice)
    {
      e := Append(LogEvent, state, source, title, newDetail);
    }

    // `announce_voice`; inBrowser says whether the playback mode includes the browser.
    method AnnounceVoice(message: string, inBrowser: bool) returns (spoken: Option<string>)
      requires Valid()
      modifies this
      ensures Valid() && state == old(state)
      ensures var line := SpokenLine(message);
              spoken == if line.None? || old(lastVoice) == Some(NormalizeVoice(line.value)) then None else line
      ensures lastVoice == if spoken.Some? then Some(NormalizeVoice(spoken.value)) else old(lastVoice)
      ensures Heard([message], old(lastVoice)) == if spoken.Some? then [spoken.value] else []
      ensures history == if spoken.Some? && inBrowser
                         then old(history)
                              + [Event(old(nextId), LogEvent, old(state), VOICE_SOURCE, spoken.value, spoken)]
                         else old(history)
    {
      var text := StripDots(Strip(message));
      if text == "" {
        return None;
      }
      var normalized := NormalizeVoice(text);
      if lastVoice == Some(normalized) {
        return None;
      }
      lastVoice := Some(normalized);
      if inBrowser {
        var _ := Log(text, Some(text), VOICE_SOURCE);
      }
      return Some(text);
    }
  }

  // ----- The event stream -----

  // What one pass over the ring sends to a reader that has seen everything up to lastId.
  function Unseen(events: seq<Event>, lastId: nat): seq<Event> {
    if events == [] then []
    else if events[0].id > lastId then [events[0]] + Unseen(events[1..], events[0].id)
    else Unseen(events[1..], lastId)
  }

  function Cursor(sent: seq<Event>, lastId: nat): nat {
    if sent == [] then lastId else sent[|sent| - 1].id
  }

  method StreamPass(events: seq<Event>, lastId: nat) returns (sent: seq<Event>, cursor: nat)
    ensures sent == Unseen(events, lastId)
    ensures cursor == Cursor(sent, lastId)
  {
    sent, cursor := [], lastId;
    for i := 0 to |events|
      invariant Unseen(events, lastId) == sent + Unseen(events[i..], cursor)
      invariant cursor == Cursor(sent, lastId)
    {
      var e := events[i];
      assert events[i..][1..] == events[i + 1..];
      if e.id > cursor {
        cursor := e.id;
        sent := sent + [e];
      }
    }
  }

  // On a ring of consecutive ids a pass sends the suffix that was not seen.
  lemma {:induction false} UnseenOfRun(events: seq<Event>, first: nat, lastId: nat)
    requires forall i | 0 <= i < |events| :: events[i].id == first + i
    ensures Unseen(events, lastId) ==
              if lastId < first then events
              else if lastId - first + 1 <= |events| then events[lastId - first + 1..]
              else []
  {
    if events != [] {
      assert forall i | 0 <= i < |events[1..]| :: events[1..][i].id == first + 1 + i;
      if events[0].id > lastId {
        UnseenOfRun(events[1..], first + 1, events[0].id);
        assert events == [events[0]] + events[1..];
      } else {
        UnseenOfRun(events[1..], first + 1, lastId);
      }
    }
  }

  // Everything a reader receives when it polls as the history has grown to each of the lengths.
  function Stream(history: seq<Event>, lengths: seq<nat>, max: nat, lastId: nat): seq<Event>
    requires forall k | 0 <= k < |lengths| :: lengths[k] <= |history|
    decreases lengths
  {
    if lengths == [] then []
    else
      var sent := Unseen(Last(history[..lengths[0]], max), lastId);
      sent + Stream(history, lengths[1..], max, Cursor(sent, lastId))
  }

  ghost predicate Growing(history: seq<Event>, lengths: seq<nat>) {
    && Numbered(history)
    && (forall k | 0 <= k < |lengths| :: lengths[k] <= |history|)
    && (forall j, k | 0 <= j < k < |lengths| :: lengths[j] <= lengths[k])
  }

  function Max(a: nat, b: nat): (m: nat)
    ensures m >= a && m >= b && (m == a || m == b)
  {
    if a >= b then a else b
  }

  function Oldest(n: nat, max: nat): nat {
    if n > max then n - max else 0
  }

  // One poll: what is sent is the part of the history after the cursor that the ring still holds.
  lemma PassSendsSuffix(history: seq<Event>, n: nat, max: nat, lastId: nat)
    requires Numbered(history) && n <= |history|
    ensures var sent := Unseen(Last(history[..n], max), lastId);
            var from := Max(lastId, Oldest(n, max));
            && sent == (if from <= n then history[from..n] else [])
            && Cursor(sent, lastId) == Max(lastId, if from < n then n else 0)
  {
    var ring := Last(history[..n], max);
    var oldest := Oldest(n, max);
    assert ring == history[oldest..n];
    UnseenOfRun(ring, oldest + 1, lastId);
  }

  // The poll at which event id was first in the history; |lengths| if there was none.
  function FirstPoll(lengths: seq<nat>, id: nat): nat {
    if lengths == [] || lengths[0] >= id then 0 else 1 + FirstPoll(lengths[1..], id)
  }

  predicate Received(events: seq<Event>, id: nat) {
    exists i :: 0 <= i < |events| && events[i].id == id
  }

  lemma ReceivedConcat(a: seq<Event>, b: seq<Event>, id: nat)
    ensures Received(a + b, id) <==> Received(a, id) || Received(b, id)
  {
    if Received(a, id) {
      var i :| 0 <= i < |a| && a[i].id == id;
      assert (a + b)[i].id == id;
    }
    if Received(b, id) {
      var i :| 0 <= i < |b| && b[i].id == id;
      assert (a + b)[|a| + i].id == id;
    }
  }

  // A list of events of the history, in strictly increasing id order, all after a given id.
  ghost predicate Increasing(events: seq<Event>, history: seq<Event>, after: nat) {
    && (forall i | 0 <= i < |events| :: after < events[i].id <= |history| && events[i] == history[events[i].id - 1])
    && (forall i, j | 0 <= i < j < |events| :: events[i].id < events[j].id)
  }

  lemma IncreasingConcat(a: seq<Event>, b: seq<Event>, history: seq<Event>, after: nat)
    requires Increasing(a, history, after) && Increasing(b, history, Cursor(a, after))
    ensures Increasing(a + b, history, after)
  {
    assert a != [] ==> forall i | 0 <= i < |a| :: a[i].id <= a[|a| - 1].id;
  }

  lemma SliceIncreases(history: seq<Event>, from: nat, n: nat, after: nat)
    requires Numbered(history) && after <= from <= n <= |history|
    ensures Increasing(history[from..n], history, after)
    ensures forall id: nat :: Received(history[from..n], id) <==> from < id <= n
  {
    var part := history[from..n];
    assert forall i | 0 <= i < |part| :: part[i] == history[from + i] && part[i].id == from + i + 1;
    forall id: nat | from < id <= n
      ensures Received(part, id)
    {
      assert part[id - 1 - from].id == id;
    }
  }

  lemma PassIncreases(history: seq<Event>, n: nat, max: nat, lastId: nat)
    requires Numbered(history) && n <= |history|
    ensures Increasing(Unseen(Last(history[..n], max), lastId), history, lastId)
    ensures forall id: nat :: Received(Unseen(Last(history[..n], max), lastId), id) <==>
                              Max(lastId, Oldest(n, max)) < id <= n
  {
    PassSendsSuffix(history, n, max, lastId);
    var from := Max(lastId, Oldest(n, max));
    if from <= n {
      SliceIncreases(history, from, n, lastId);
    }
  }

  /**
   Over any number of polls a reader receives events in strictly increasing id order (so none twice), all
   of them from the history, and all after where it started.
   */
  lemma {:induction false} StreamIncreases(history: seq<Event>, lengths: seq<nat>, max: nat, since: nat)
    requires Growing(history, lengths)
    ensures Increasing(Stream(history, lengths, max, since), history, since)
    decreases lengths
  {
    if lengths != [] {
      var sent := Unseen(Last(history[..lengths[0]], max), since);
      PassIncreases(history, lengths[0], max, since);
      StreamIncreases(history, lengths[1..], max, Cursor(sent, since));
      IncreasingConcat(sent, Stream(history, lengths[1..], max, Cursor(sent, since)), history, since);
    }
  }

  // What a reader receives is what the first pass sends and what comes after.
  lemma {:induction false} FirstPassReceives(history: seq<Event>, lengths: seq<nat>, max: nat, since: nat, id: nat)
    requires Growing(history, lengths) && lengths != [] && since < id <= |history|
    ensures var n := lengths[0];
            var next := Cursor(Unseen(Last(history[..n], max), since), since);
            && (Received(Stream(history, lengths, max, since), id) <==>
                  Oldest(n, max) < id <= n || Received(Stream(history, lengths[1..], max, next), id))
            && (n < id ==> next < id)
  {
    var n := lengths[0];
    var sent := Unseen(Last(history[..n], max), since);
    PassIncreases(history, n, max, since);
    PassSendsSuffix(history, n, max, since);
    ReceivedConcat(sent, Stream(history, lengths[1..], max, Cursor(sent, since)), id);
  }

  // An event that was evicted before a poll is not received at later polls either.
  lemma {:induction false} EvictedForGood(history: seq<Event>, lengths: seq<nat>, max: nat, since: nat, n: nat, id: nat)
    requires Growing(history, lengths) && forall k | 0 <= k < |lengths| :: n <= lengths[k]
    requires id <= Oldest(n, max)
    ensures !Received(Stream(history, lengths, max, since), id)
    decreases lengths
  {
    if lengths != [] {
      var sent := Unseen(Last(history[..lengths[0]], max), since);
      PassIncreases(history, lengths[0], max, since);
      EvictedForGood(history, lengths[1..], max, Cursor(sent, since), n, id);
      ReceivedConcat(sent, Stream(history, lengths[1..], max, Cursor(sent, since)), id);
    }
  }

  /**
   An event after `since` is received exactly when the ring still held it at the first poll after it was
   recorded: a reader misses nothing but evicted events.
   */
  lemma {:induction false} MissedOnlyIfEvicted(history: seq<Event>, lengths: seq<nat>, max: nat, since: nat, id: nat)
    requires Growing(history, lengths) && since < id <= |history|
    ensures var k := FirstPoll(lengths, id);
            Received(Stream(history, lengths, max, since), id) <==> k < |lengths| && id > Oldest(lengths[k], max)
    decreases lengths
  {
    if lengths != [] {
      var n := lengths[0];
      var next := Cursor(Unseen(Last(history[..n], max), since), since);
      FirstPassReceives(history, lengths, max, since, id);
      if n < id {
        MissedOnlyIfEvicted(history, lengths[1..], max, next, id);
      } else if id <= Oldest(n, max) {
        EvictedForGood(history, lengths[1..], max, next, n, id);
      }
    }
  }

  // At most `max` events are recorded between one poll and the next.
  ghost predicate Gapless(lengths: seq<nat>, max: nat) {
    forall k | 0 < k < |lengths| :: lengths[k] <= lengths[k - 1] + max
  }

  lemma {:induction false} PassSendsAll(history: seq<Event>, n: nat, max: nat, since: nat)
    requires Numbered(history) && since <= n <= |history| && n <= since + max
    ensures Unseen(Last(history[..n], max), since) == history[since..n]
    ensures Cursor(Unseen(Last(history[..n], max), since), since) == n
  {
    PassSendsSuffix(history, n, max, since);
  }

  lemma {:induction false} StreamStep(history: seq<Event>, lengths: seq<nat>, max: nat, since: nat)
    requires Growing(history, lengths) && lengths != [] && since <= lengths[0] <= since + max
    ensures Stream(history, lengths, max, since)
         == history[since..lengths[0]] + Stream(history, lengths[1..], max, lengths[0])
  {
    PassSendsAll(history, lengths[0], max, since);
  }

  lemma {:induction false} StreamOnce(history: seq<Event>, lengths: seq<nat>, max: nat, since: nat)
    requires Growing(history, lengths) && |lengths| == 1 && since <= lengths[0] <= since + max
    ensures Stream(history, lengths, max, since) == history[since..lengths[0]]
  {
    StreamStep(history, lengths, max, since);
    assert lengths[1..] == [];
  }

  lemma {:induction false} Adjacent(history: seq<Event>, a: nat, b: nat, c: nat)
    requires a <= b <= c <= |history|
    ensures history[a..b] + history[b..c] == history[a..c]
  {
  }

  lemma {:induction false} StreamJoins(history: seq<Event>, lengths: seq<nat>, max: nat, since: nat, last: nat)
    requires Growing(history, lengths) && lengths != [] && since <= lengths[0] <= since + max
    requires lengths[0] <= last <= |history|
    requires Stream(history, lengths[1..], max, lengths[0]) == history[lengths[0]..last]
    ensures Stream(history, lengths, max, since) == history[since..last]
  {
    StreamStep(history, lengths, max, since);
    Adjacent(history, since, lengths[0], last);
  }

  /**
   If the ring never loses an event between polls, the reader receives the whole history after `since`.
   */
  lemma {:induction false} NothingMissed(history: seq<Event>, lengths: seq<nat>, max: nat, since: nat)
    requires Growing(history, lengths) && lengths != []
    requires since <= lengths[0] <= since + max
    requires Gapless(lengths, max)
    ensures Stream(history, lengths, max, since) == history[since..lengths[|lengths| - 1]]
    decreases lengths
  {
    if |lengths| == 1 {
      StreamOnce(history, lengths, max, since);
    } else {
      NothingMissed(history, lengths[1..], max, lengths[0]);
      StreamJoins(history, lengths, max, since, lengths[|lengths| - 1]);
    }
  }
}
