# nano-core in Dafny

A model of the logic of nano-core, a voice and chat assistant, with proofs of what it promises.  `dafny verify
dfyconfig.toml` checks everything.

| files | what they model |
|---|---|
| `JsonGrammar`, `JsonScanner`, `JsonTexts`, `JsonUnambiguous`, `JsonExtraction` | pulling one JSON object out of free model text: the scanner against the grammar of RFC 8259, fences, truncation |
| `ToolSignature`, `Planner` | the signature of a tool call, and the planning loop that never runs a call twice |
| `TimerModel`, `TimerSafety`, `TimerTheorems`, `TimerAnnouncements`, `TimerService` | timers and stopwatches: database rows, scheduler jobs, polls, restarts, announcements |
| `ReminderModel`, `ReminderSafety`, `ReminderTheorems`, `ReminderService` | meeting reminders, keyed rows and their jobs |
| `ConversationModel`, `ConversationSafety`, `ConversationTheorems`, `RouterTheorems`, `Assistant` | router, pending interactions, confirmation flows, update prompts |
| `Activity` | the bounded event log, the event stream's cursor, voice lines |
| `Calendar`, `Duration`, `DurationTheorems`, `NumberWords`, `Rename`, `Health`, `Notes`, `ContextSizing` | calendar merge, duration text and number words, rename commands, health alerts, note backoff, context sizes |
| `Text` | the Python string operations the above rely on |

The stateful parts come twice.  A class (`TimerService`, `ReminderService`, `Assistant`, `ActivityHub`, ...) follows the
source step by step, with its fields, loops and early returns; each method is proved to take its state to what a
specification function says.  The statements about whole runs are lemmas about those functions.  History that the
program does not keep (which countdown a row belongs to, which request an action answers) is ghost state of the classes.

Assumptions, all of them visible as parameters or preconditions:

- A handler call is one atomic step at one instant; instants are integer UTC seconds and time does not go back.
  At-most-once claims rest on this: the source checks, announces and then deletes or marks without a transaction.
- The scheduler is a map from job id to run time; a job leaves it before its handler runs, and may be dropped instead.
- Database queries return the rows they ask for, in any order; new rows get any unused id, so ids can be reused.
- Language model, intent classifiers, tools, git, process control and model loading are arbitrary inputs.
- A JSON number is identified with its printed text.  Strings are sequences of Unicode scalar values.

Where the code does less than its names or comments suggest, the code is followed, an input is given, and the exact
condition is proved:

- A countdown's due time is its stored start plus its duration exactly if the requested start is plausible
  (`TimerTheorems.DueIsStartPlusDuration`, `ImplausibleStartIsDueAtOnce`).  An implausible start can reach the
  function only: the HTTP route rejects it and the chat tool passes none.
- The window from due time to one polling period later is guaranteed exactly to countdowns that are not overdue when
  they are created (`TimerTheorems.WindowGuaranteedExactly`, `OverdueMayBeLate`).  The HTTP route accepts a start up to
  30 seconds back (app/api/timers.py:57-62), so a ten-second timer can be created overdue.
- "Announced" and "alert raised" mean the log entry and the call.  A line is heard exactly if it differs, in normal
  form, from the last one, that is, if it says other words (`Activity.HeardExactly`, `Activity.HeardByWords`,
  `TimerAnnouncements.SecondNoticeHeardExactly`, `Health.FlappingCheckHeardOnce`).
- The router's description puts a plain answer before the capability and identity answers, the code after them
  (`RouterTheorems.DescriptionAgreesExactly`).
- A recovery is logged exactly on a run that passes entirely (`Health.RecoveryLogged`), so a check that recovers while
  another still fails is never logged as recovered (`RecoveryLost`).
- A truncated object in a fence without a line break is noticed exactly if no line break of its own is left or a brace
  that stays open follows it (`JsonExtraction.TruncatedInlineFence`, `TruncatedFenceWithoutLineBreak`).
- Asking for an available update always shows the prompt, but there is something to confirm exactly if the sha is not
  empty, not the baseline, not the last one dismissed and not the standing offer, in whatever conversation that was made
  (`ConversationTheorems.UpdateCanBeConfirmedExactly`, `DroppedOfferCannotBeConfirmed`,
  `OfferElsewhereCannotBeConfirmed`).
- The first K events of all calendars are found exactly if no calendar's cut drops an event that starts, by its sort
  key, before one it keeps (`Calendar.AnyChoiceExactly`).  A calendar that lists all-day events at local midnight can
  fail that, because the key puts them at midnight UTC (`AllDayEventLost`).
- A meeting can be announced as starting soon after it has begun: that cannot happen exactly if the last poll that may
  announce it comes no later than its start (`ReminderTheorems.NeverAfterStartExactly`, `LateRunIsLate`).
- Every context size that is tried fits, a last resort of 512 aside, exactly if some memory is left beside the model
  and the reserve or the request is below 1024 (`ContextSizing.SizesFitExactly`, `OneByteDecides`).

## Model

| member | source | states |
|---|---|---|
| `JsonScanner.Balanced` | app/common/json_parsing.py:7-33 | the result is the shortest text from the first "{" after which every brace outside strings is closed; there is none exactly when no prefix closes |
| `JsonScanner.BalancedIsUnique` | app/common/json_parsing.py:7-33 | that description determines the result |
| `JsonScanner.FindBalancedJsonObject` | app/common/json_parsing.py:7-33 | the character loop with its three flags finds that text |
| `JsonTexts.ValueIsNeutral` | app/common/json_parsing.py:12-33 | reading any well-formed JSON value (RFC 8259, sections 3 to 7) leaves depth, string and escape state as they were, and never dips below the starting depth |
| `JsonTexts.ObjectCloses` | app/common/json_parsing.py:25-32 | an object text closes at its last character and nowhere before |
| `JsonTexts.ObjectTextsArePrefixFree` | app/common/json_parsing.py:7-33 | no object text is a proper prefix of another |
| `JsonTexts.QuoteParity` | app/common/json_parsing.py:17-26 | two readings that start on opposite sides of a quote end on opposite sides, unless a backslash or escape gives one away |
| `JsonTexts.ObjectTextsAreSuffixFree` | app/assistant/rules/tools.py:59 | no object text is a proper suffix of another |
| `JsonUnambiguous.ValueCancel` | app/assistant/rules/tools.py:59 | equal texts that begin with a delimited value hold the same value and the same rest |
| `JsonUnambiguous.TextDeterminesTree` | app/assistant/rules/tools.py:59 | the JSON grammar is unambiguous: one text, one tree, blanks and escapes included |
| `JsonExtraction.ScannerFindsObject` | app/common/json_parsing.py:7-33 | for every object text, every lead-in without "{" and every tail, the scanner returns exactly the object |
| `JsonExtraction.ScannerFindsNoPrefix` | app/common/json_parsing.py:7-33 | for every non-empty proper prefix of an object text the scanner finds nothing |
| `JsonExtraction.ExtractUnfenced` | app/common/json_parsing.py:62-86 | the decoder is handed exactly the object, whatever unfenced text surrounds it, and it is not reported as truncated |
| `JsonExtraction.ExtractFenced` | app/common/json_parsing.py:36-41 | inside a Markdown fence the decoder is handed exactly the object, for every tag without a line break, closed fence or not, and it is not reported as truncated |
| `JsonExtraction.FallbackSpans` | app/common/json_parsing.py:74-82 | where nothing closes, the decoder gets what stands from the first "{" to the last "}" behind it |
| `JsonExtraction.FallbackWhole` | app/common/json_parsing.py:74-82 | and the whole text where there is no such pair |
| `JsonExtraction.TruncatedUnfenced` | app/common/json_parsing.py:44-59 | an unfenced object cut off anywhere is reported as truncated |
| `JsonExtraction.TruncatedFenced` | app/common/json_parsing.py:36-59 | so is one cut off after the fence's opening line, whatever blanks stand before the fence |
| `JsonExtraction.TruncatedInlineFence` | app/common/json_parsing.py:36-59 | in a fence without a line break of its own a cut-off object is reported exactly when, of what stripping leaves, no line break is left or a brace opens after the first one and nothing closes it |
| `JsonExtraction.TruncatedOnOneLine` | app/common/json_parsing.py:36-59 | so a cut-off object in a fence on one line is always reported |
| `JsonExtraction.TruncatedWithoutBrace` | app/common/json_parsing.py:36-59 | and one that breaks the line with no brace behind it never is |
| `JsonExtraction.TruncatedBeforeNested` | app/common/json_parsing.py:36-59 | and one with a nested object behind the line break is reported exactly when the nested object is itself cut off |
| `JsonExtraction.TruncatedFenceWithoutLineBreak` | app/common/json_parsing.py:36-59 | a cut-off object that is not reported |
| `ToolSignature.DumpGood` | app/assistant/rules/tools.py:59 | what json.dumps prints for a dictionary is an object text of the RFC grammar |
| `ToolSignature.SortIsCanonical` | app/assistant/rules/tools.py:59 | sorting by key gives one list for all insertion orders of a dictionary |
| `ToolSignature.DumpInjective` | app/assistant/rules/tools.py:59 | values with equal dumps are the same JSON value up to key order, at every depth |
| `ToolSignature.SameDump` | app/assistant/rules/tools.py:59 | values that differ only in key order have equal dumps |
| `ToolSignature.NamesAgree` | app/assistant/rules/tools.py:59 | equal signatures split into the same name and the same JSON text, even when names contain ":" or braces |
| `ToolSignature.SignaturesIdentifyCalls` | app/assistant/rules/tools.py:46-59 | two signatures are equal exactly when the names are equal and the arguments are the same JSON value up to key order |
| `Planner.Run` | app/assistant/flows/planner.py:54-176 | executed calls and transcript are those of the first-occurrence specification, and the source fits the transcript: no facts without a tool result, an answer's own text if it has one, otherwise the very last tool result |
| `Planner.StopsExactly` | app/assistant/flows/planner.py:84-115 | a run stops exactly at the first answer or at the second reply that is not valid JSON, or when the replies run out |
| `Planner.LastReturnedIsLastCall` | app/assistant/flows/planner.py:143-158 | the last tool result in the transcript is that of the last executed call, and there is none exactly without calls |
| `Planner.ConclusionFits` | app/assistant/flows/planner.py:178-224 | the source built from the executed calls fits the transcript the model saw |
| `Planner.HandleCall` | app/assistant/flows/planner.py:130-158 | a matching call is executed and recorded, or answered with the result of the same earlier call |
| `Planner.SignatureFindsCall` | app/assistant/flows/planner.py:130-132 | looking up the signature decides whether the same call was made |
| `Planner.NoRepeats` | app/assistant/flows/planner.py:130-145 | no run executes the same call twice, up to key order of arguments |
| `Planner.NothingDropped` | app/assistant/flows/planner.py:117-145 | every matching call the model asked for was executed, in some key order |
| `TimerService.TimerService.CompleteTimer` | app/scheduler/jobs.py:30-66 | announces and removes only a countdown that is due; reschedules one that is early; drops the job of anything else |
| `TimerService.TimerService.CheckDueTimers` | app/scheduler/jobs.py:125-138 | the loop completes the queried rows in order |
| `TimerService.TimerService.SyncTimerSchedules` | app/scheduler/jobs.py:113-122 | afterwards every countdown row has its job, other jobs unchanged |
| `TimerService.TimerService.RestartProcess` | app/scheduler/jobs.py:256-303 | after a restart the jobs are exactly those of the countdown rows |
| `TimerService.TimerService.CreateCountdownTimer` | app/timers/operations.py:37-63 | row, job and error case of a new countdown, including the clock checks |
| `TimerService.TimerService.CancelTimers` | app/timers/operations.py:117-142 | one cancel step of the run model; counts the rows taken, and reports no match exactly when a specific request takes none |
| `TimerService.TimerService.StopStopwatches` | app/timers/operations.py:179-207 | the same for stopwatches |
| `TimerService.TimerService.ClearAllTimers` | app/timers/operations.py:145-176 | removes every countdown with its job and every stopwatch |
| `TimerService.TimerService.Select` | app/timers/operations.py:121-125 | the comprehension keeps exactly the rows the request matches, without repetition |
| `TimerTheorems.CancelTakesExactly` | app/timers/labels.py:45-59 | cancelling a number takes that countdown and no other, a name those with that label in any case, both together either, neither all, and an id that is no number none |
| `TimerTheorems.StopTakesExactly` | app/timers/labels.py:45-59 | the same for stopwatches |
| `TimerTheorems.CancelChangesNothingElse` | app/timers/operations.py:117-142 | cancelling changes no other row and removes the jobs of the rows it takes and no others |
| `TimerTheorems.StopChangesNothingElse` | app/timers/operations.py:179-207 | stopping stopwatches changes no other row and no job |
| `TimerTheorems.ClearTakesAll` | app/timers/operations.py:145-176 | clearing leaves no row |
| `TimerTheorems.CountdownCreatedExactly` | app/timers/operations.py:37-63 | a countdown is created exactly for a positive duration and a plausible start or clock, with its name or "Timer", due its duration after the start asked for; the two errors tell which was missing |
| `TimerTheorems.StopwatchCreatedExactly` | app/memory/repository.py:130-152 | a stopwatch is created exactly for a plausible start or clock |
| `TimerTheorems.DueCountdownIsAnnounced` | app/scheduler/jobs.py:49-64 | a due countdown is announced with its trimmed name, or "Timer", and its full duration |
| `TimerTheorems.JobAnnounces` | app/scheduler/jobs.py:30-66 | a job that fires announces its countdown exactly if that is due; a stale one changes no row |
| `TimerTheorems.CompletingLeavesJobExactly` | app/scheduler/jobs.py:30-66 | completing leaves a job exactly for a countdown still to come, at its due time, and touches no other job |
| `TimerTheorems.RestartSchedulesExactly` | app/scheduler/jobs.py:113-122 | after a restart exactly the countdowns have a job, for their due time or at once |
| `TimerTheorems.SmallStepsExactly` | app/memory/repository.py:274-290 | what a rename, a wipe and a dropped job change, and that nothing else does |
| `TimerSafety.CompleteKeeps` | app/scheduler/jobs.py:30-66 | completing any id, stale or not, keeps the service invariant |
| `TimerSafety.RestartKeeps` | app/scheduler/jobs.py:113-122 | losing all jobs and rescheduling keeps it |
| `TimerSafety.StepKeeps` | app/scheduler/jobs.py:30-138 | every step of the service keeps: rows match births, one fate each, no early notice, every countdown covered |
| `TimerSafety.RunKeeps` | app/scheduler/jobs.py:30-138 | so does every run |
| `TimerTheorems.EveryCountdownHasOneFate` | app/timers/operations.py:22-63 | on every run each countdown ever created is exactly one of live (one row), announced (once) or removed by the user |
| `TimerTheorems.DueIsStartPlusDuration` | app/memory/repository.py:86-127 | a row's due time is its requested start plus its duration; it is the stored start plus the duration exactly when the requested start is plausible |
| `TimerTheorems.ImplausibleStartIsDueAtOnce` | app/timers/clock.py:31-40 | a five-minute countdown that the function is asked to start in 1970 is stored as starting now and is already due |
| `TimerAnnouncements.SecondNoticeHeardExactly` | app/runtime/activity.py:263-270 | of two notices one after the other the second is silent exactly when its duration prints the same and its name has the same words, up to case, blanks, "the" and "a" |
| `TimerAnnouncements.TwinsHeardOnce` | app/scheduler/jobs.py:57-64 | so of countdowns with one name and duration that end one after the other only the first is heard |
| `TimerAnnouncements.SameWordsExactly` | app/scheduler/jobs.py:57-64 | two notices say the same words exactly when duration text and name words agree |
| `TimerAnnouncements.SameHumanWords` | app/common/duration.py:180-202 | a printed duration is determined by its words |
| `TimerTheorems.NeverEarly` | app/scheduler/jobs.py:49-64 | no run announces a countdown before its due time, stale jobs and reused ids included |
| `TimerTheorems.StopwatchesSurvive` | app/scheduler/jobs.py:45-47 | no job, poll, restart or countdown command removes or changes a stopwatch, its name aside |
| `TimerTheorems.StaleJobSparesStopwatch` | app/memory/repository.py:274-290 | a job left behind by a wipe only disappears when it meets a stopwatch under its id |
| `TimerTheorems.EveryCountdownIsCovered` | app/scheduler/jobs.py:69-94 | in every reachable state a countdown is due already or has a job set for exactly its due time |
| `TimerTheorems.PollAnnouncesTheDue` | app/scheduler/jobs.py:125-138 | a poll announces exactly the due countdowns, in query order, once each, and leaves none due |
| `TimerTheorems.StepIsPrompt` | app/scheduler/jobs.py:125-138 | steps within one polling period of the last poll keep every countdown and notice within that period |
| `TimerTheorems.AnnouncedWithinPeriod` | app/scheduler/jobs.py:256-303 | with polls at most P apart, every countdown not removed is announced no earlier than the later of its due time and its creation, and no later than P after that, whatever jobs misfire or are lost |
| `TimerTheorems.WindowGuaranteedExactly` | app/scheduler/jobs.py:256-303 | an announcement between due time and P after it is guaranteed on all such runs exactly to countdowns that are not overdue at creation |
| `TimerTheorems.OverdueMayBeLate` | app/timers/operations.py:37-63 | the run that shows it: an overdue countdown, its job dropped, a poll P after its creation |
| `TimerTheorems.LongOverdueIsLate` | app/timers/operations.py:37-63 | a countdown created more than P overdue misses that window on every run |
| `ReminderService.ReminderService.UpsertMeetingReminder` | app/meeting_reminders/service.py:39-66 | validation order, in-place update or insert, fired mark cleared, job rescheduled |
| `ReminderService.ReminderService.ListMeetingReminders` | app/meeting_reminders/service.py:69-73 | prunes the begun meetings, returns exactly the unfired ones still to come, leaves jobs alone |
| `ReminderService.ReminderService.FireReminder` | app/meeting_reminders/service.py:87-109 | announces and marks only an unfired reminder that is due; reschedules an early one |
| `ReminderService.ReminderService.CheckDueReminders` | app/scheduler/jobs.py:182-185 | the loop fires the queried reminders in order |
| `ReminderService.ReminderService.RestartProcess` | app/scheduler/jobs.py:176-179 | after a restart exactly the unfired future reminders have a job |
| `ReminderSafety.StepKeeps` | app/memory/meeting_reminders.py:35-159 | every step keeps keys unique, rows as last asked, alerts justified, every unfired row covered |
| `ReminderTheorems.RemindersAreUnique` | app/memory/meeting_reminders.py:35-83 | on every run one row per calendar, event and start, reminding 15, 30 or 60 minutes before the start |
| `ReminderTheorems.EveryAnnouncementAnswersAnUpsert` | app/meeting_reminders/service.py:87-109 | every announcement answers the last upsert of its key that was accepted before it, with that upsert's summary and lead, no earlier than the start minus the lead |
| `ReminderTheorems.AcceptedUpsertIsStored` | app/meeting_reminders/service.py:39-66 | an upsert is accepted exactly when valid; its key then has a row with just what was asked for, other keys keep theirs, and a refused one changes nothing |
| `ReminderTheorems.RefusedExactly` | app/meeting_reminders/validation.py:25-37 | why an upsert is refused: the first of all-day, wrong lead and begun that applies |
| `ReminderTheorems.RemovedExactly` | app/memory/meeting_reminders.py:119-159 | listing removes exactly the rows of meetings that have begun, deleting exactly the row and job of its key |
| `ReminderTheorems.RestartSchedulesExactly` | app/scheduler/jobs.py:176-179 | after a restart exactly the unfired reminders still to come have a job, for their time |
| `ReminderTheorems.JobAnnounces` | app/meeting_reminders/service.py:87-109 | a job that fires announces and marks its unfired reminder and is gone; any other job only goes |
| `ReminderTheorems.FiringLeavesJobExactly` | app/meeting_reminders/service.py:87-109 | firing leaves a job exactly for a reminder still to come, at its time, and touches no other job |
| `ReminderTheorems.AnnouncedOncePerUpsert` | app/meeting_reminders/service.py:87-109 | between two announcements of a key the key was upserted again, and the second answers that |
| `ReminderTheorems.StepKeepsFates` | app/meeting_reminders/service.py:39-109 | every step leaves each accepted upsert pending, announced, superseded, deleted, or pruned after its start |
| `ReminderTheorems.AnnouncedWithinPeriod` | app/scheduler/jobs.py:169-185 | with polls at most P apart every accepted upsert is announced within P of the later of its reminder time and its acceptance, unless superseded, deleted, or pruned after the start |
| `ReminderTheorems.NeverAfterStartExactly` | app/meeting_reminders/service.py:87-109 | on such runs no announcement comes after the meeting's start exactly when even the latest poll that may make it does not |
| `ReminderTheorems.LateRunIsLate` | app/memory/meeting_reminders.py:108-116 | the run that is as late as it can be |
| `ReminderTheorems.UnfiredRowsStay` | app/memory/meeting_reminders.py:119-159 | an unfired row disappears only by deleting its key, or by pruning after its start |
| `ReminderTheorems.FiredRowsStayFired` | app/memory/meeting_reminders.py:63-74 | a fired row changes only when its key is upserted again |
| `ReminderTheorems.PollFiresTheDue` | app/memory/meeting_reminders.py:108-116 | a poll leaves no listed reminder due and marks each at the poll's instant |
| `Assistant.Assistant.DecideRoute` | app/assistant/agent_router.py:83-215 | the priority chain and where it clears the pending entry |
| `Assistant.Assistant.AskHandler` | app/assistant/flows/wipe.py:81-142 | a handler ignores entries of other kinds and answers its own: rejection first, then confirmation |
| `Assistant.Assistant.ResumePendingInteraction` | app/assistant/dispatch/interactions.py:83-105 | the loop over the handlers reaches the one handler of the entry's kind |
| `Assistant.Assistant.HandleMessage` | app/assistant/orchestrator.py:181-260 | one message is one step of the run model: decide, resume, and re-route at most once |
| `Assistant.Assistant.CheckForAvailableUpdates` | app/scheduler/jobs.py:236-253 | one background check is one step of the run model: it offers an update under exactly the listed conditions |
| `RouterTheorems.CommandsComeFirst` | app/assistant/agent_router.py:103-171 | the first timer or stopwatch command that fits is served before anything pending, and drops it |
| `RouterTheorems.PendingComesNext` | app/assistant/agent_router.py:173-215 | without a command the pending entry is resumed, and only without one the first request that fits decides the route |
| `RouterTheorems.DescriptionAgreesExactly` | app/assistant/agent_router.py:62-80 | the description's order of the last answers agrees with the code exactly on messages that are not both a plain question and one about capabilities or identity |
| `ConversationSafety.HandleKeeps` | app/assistant/flows/service_restart.py:80-135 | a reply to a pending entry acts only with consent and uses up its request |
| `ConversationSafety.RespondKeeps` | app/assistant/orchestrator.py:214-246 | handling any message keeps the protocol invariant |
| `ConversationSafety.StepKeeps` | app/assistant/orchestrator.py:214-260 | so does every event, and the session baseline never changes |
| `ConversationSafety.ReachedKeeps` | app/assistant/orchestrator.py:214-260 | the protocol invariant holds after every run of messages and update checks |
| `ConversationTheorems.PendingSinceAsked` | app/assistant/pending.py:35-92 | a pending entry has been its conversation's entry ever since the event that made it |
| `ConversationTheorems.EveryActionWasConfirmed` | app/assistant/flows/reboot.py:77-131 | on every run each wipe, reboot or restart answers an earlier request of a matching kind in the same conversation, which was that conversation's pending entry all the time in between, by the confirming, non-rejecting message of its own event that is no timer command; and no request is answered twice |
| `ConversationTheorems.RespondAsks` | app/assistant/flows/reboot.py:57-61 | a message puts no request into the store but one for what it asked for, and a confirmation prompt names the entry that now waits for a yes |
| `ConversationTheorems.RequestsWereAsked` | app/assistant/orchestrator.py:214-260 | on every run each request was made by the event of its time, in its conversation, which asked for just that |
| `ConversationTheorems.EveryActionWasAskedFor` | app/assistant/flows/wipe.py:39-131 | on every run each wipe, reboot or restart goes back to an earlier message of its conversation that asked for exactly that, or for an update to a check that found one |
| `ConversationTheorems.AskingStartsExactly` | app/assistant/flows/service_restart.py:33-78 | a message that asks for a flow leaves exactly that flow's entry where the flow is switched on, and is refused without any change where not |
| `ConversationTheorems.TimerAskedForExactly` | app/assistant/flows/timer.py:53-88 | a timer is started at once exactly when the message gives its duration; otherwise the program asks how long |
| `ConversationTheorems.DurationReplyExactly` | app/assistant/flows/timer.py:90-136 | a reply with a duration or bare minutes starts the timer, any other is asked again |
| `ConversationTheorems.RejectionExactly` | app/assistant/flows/update.py:115-150 | a no drops the entry and acts on nothing; for an update the dismissed sha is remembered and the offer withdrawn |
| `ConversationTheorems.DismissedOnlyByNo` | app/deploy/update_state.py:41-61 | the dismissed sha changes only by a no to an offer of it |
| `ConversationTheorems.NothingSettledBetween` | app/assistant/flows/wipe.py:101-131 | no message in that conversation between request and action confirmed, rejected or was a timer command |
| `ConversationTheorems.ConsentIsCarriedOut` | app/assistant/flows/update.py:123-174 | a yes to a pending confirmation uses it up and carries out its action once, exactly when the world outside lets it happen |
| `ConversationTheorems.ActsExactly` | app/assistant/orchestrator.py:214-246 | a message acts exactly when it is such a yes and the world outside lets the action happen |
| `ConversationTheorems.UnclearReplyChangesNothing` | app/assistant/flows/wipe.py:117-122 | a reply that is neither yes, no nor a timer command leaves the whole state as it is |
| `ConversationTheorems.NoEntryNoAction` | app/assistant/orchestrator.py:223-237 | without a pending entry no message acts |
| `ConversationTheorems.OtherConversationsUntouched` | app/assistant/pending.py:62-92 | other conversations keep their entries, except that a wipe drops all |
| `ConversationTheorems.OffersAlternate` | app/deploy/update_state.py:41-61 | right before a repeated offer of a sha something happened to a different sha |
| `ConversationTheorems.OfferNotRepeated` | app/deploy/update_state.py:41-61 | on every run, between two offers of one sha there is an offer or dismissal of another |
| `ConversationTheorems.BaselineNeverOffered` | app/deploy/update_state.py:56-61 | the session baseline and the empty sha are never offered |
| `ConversationTheorems.OfferNeverOverwrites` | app/assistant/flows/update.py:50-65 | a background offer never replaces a pending entry, and a blocked one is not recorded |
| `ConversationTheorems.AskingOffersExactly` | app/assistant/flows/update.py:78-110 | asking for an available update leaves an entry to confirm exactly when should_prompt allows it; otherwise the prompt is shown and nothing changes |
| `ConversationTheorems.UpdateCanBeConfirmedExactly` | app/deploy/update_state.py:41-61 | on every run that is so exactly when the sha is not empty, not the baseline, not the last dismissed one and not the standing offer |
| `ConversationTheorems.DroppedOfferCannotBeConfirmed` | app/assistant/flows/update.py:93-98 | nothing need be dismissed for that: a timer command drops an offer's entry and the offer still stands |
| `ConversationTheorems.OfferElsewhereCannotBeConfirmed` | app/assistant/flows/update.py:93-98 | nor when the standing offer was made in another conversation |
| `ConversationTheorems.DismissedUpdateCannotBeConfirmed` | app/assistant/flows/update.py:93-98 | a yes after asking for a dismissed update is not taken as consent |
| `Activity.ActivityHub.Append` | app/runtime/activity.py:299-341 | ids are consecutive, the ring is the end of the history, and state, headline, detail and working source are the last event's |
| `Activity.ActivityHub.AnnounceVoice` | app/runtime/activity.py:251-284 | speaks exactly when the line is not empty and differs, in normal form, from the last one spoken |
| `Activity.HeardExactly` | app/runtime/activity.py:251-284 | a message is heard exactly when it has a line whose normal form differs from that of the last line before it |
| `Activity.NormalFormKeepsWords` | app/runtime/activity.py:344-347 | the words of the normal form are the line's words in lower case, in order, without "the" and "a" |
| `Activity.SameFormExactly` | app/runtime/activity.py:344-347 | two lines have one normal form exactly when those word lists are equal |
| `Activity.HeardByWords` | app/runtime/activity.py:251-284 | so a line is heard exactly when it is the first or says other words than the last line before it |
| `Activity.SpokenLineExactly` | app/runtime/activity.py:263-265 | what a message speaks is what is left without the blanks around it and the full stops at its end |
| `Activity.RepeatIsSilent` | app/runtime/activity.py:263-270 | of equal messages in a row only the first is heard |
| `Activity.StreamPass` | app/api/runtime.py:38-43 | one pass sends the unseen events and moves the cursor to the last of them |
| `Activity.PassSendsSuffix` | app/api/runtime.py:35-43 | what a pass sends is the part of the history after the cursor that the ring still holds |
| `Activity.StreamIncreases` | app/api/runtime.py:30-44 | over any polls a reader gets history events in strictly increasing id order, all after its start |
| `Activity.MissedOnlyIfEvicted` | app/api/runtime.py:30-44 | an event is received exactly when the ring still held it at the first poll after it was recorded |
| `Activity.NothingMissed` | app/api/runtime.py:30-44 | if at most maxEvents are recorded between polls the reader gets the whole history after its start |
| `Calendar.StableSortIsStable` | app/integrations/google_calendar/client.py:220 | the sort is ordered by start and keeps the order of events with equal start |
| `Calendar.StableSortIsUnique` | app/integrations/google_calendar/client.py:220 | there is only one such list |
| `Calendar.SortConcat` | app/integrations/google_calendar/client.py:207-220 | sorting a concatenation is merging the sorted parts, left first among equals |
| `Calendar.TakeMerge` | app/integrations/google_calendar/client.py:220-221 | the first k of a merge need only the first k of each side |
| `Calendar.FirstOfEachSuffice` | app/integrations/google_calendar/client.py:194-221 | for any number of calendars, if no event that a calendar's cut drops starts before one it keeps, cutting each to k loses none of the first k overall |
| `Calendar.OneCalendarExactly` | app/integrations/google_calendar/client.py:194-221 | for one calendar nothing is lost exactly under that condition |
| `Calendar.AnyChoiceExactly` | app/integrations/google_calendar/client.py:194-221 | nothing is lost, whichever of some calendars are asked for, exactly when it holds for each of them |
| `Calendar.ListedCutIsSafe` | app/integrations/google_calendar/client.py:62-85 | it holds for a calendar listed by start that keeps UTC, or has only timed or only all-day events |
| `Calendar.AllDayEventLost` | app/integrations/google_calendar/client.py:62-85 | it fails eight hours behind UTC for an evening event listed before the next day's all-day event, whose sort key is earlier |
| `Calendar.ListUpcomingEvents` | app/integrations/google_calendar/client.py:194-221 | the result is sorted, at most k long, each event under its own calendar's id and summary, and under that condition exactly the first k of all events |
| `Calendar.SortKeyIsTheInstant` | app/integrations/google_calendar/client.py:62-85 | the sort key is the instant: an offset is taken off, none means UTC, a date its midnight, an unreadable start the end of time |
| `NumberWords.WordsToNumber` | app/common/duration.py:252-289 | the token loop gives the value of a text: the words but "and", hyphens read as blanks, added up, with "hundred" multiplying what came before |
| `NumberWords.SumOfWords` | app/common/duration.py:273-289 | the words of every number add up to it |
| `NumberWords.SaidNumberIsRead` | app/common/duration.py:252-289 | however a number is said, with any blanks, hyphens and "and" between its words and blanks behind, it is read back |
| `NumberWords.NoValue` | app/common/duration.py:262-289 | a text has no value exactly when it has no number word or has a word that is none |
| `Duration.IterDurationSegments` | app/common/duration.py:205-223 | the two loops collect the digit matches and the number-word matches that overlap nothing found before, in start order |
| `DurationTheorems.NoMatchInside` | app/common/duration.py:6-8 | no digit match starts inside another |
| `DurationTheorems.DigitMatchesComplete` | app/common/duration.py:209-212 | the matches found are exactly the positions where the digit pattern matches, in order and disjoint |
| `DurationTheorems.SegmentsInOrder` | app/common/duration.py:205-223 | the segments of any message are in order, pairwise disjoint, and hold every digit match |
| `DurationTheorems.SegmentsExactly` | app/common/duration.py:205-223 | they are exactly the digit matches and those number-word matches that have a value and overlap no digit match |
| `DurationTheorems.UnitEndsWithPart` | app/common/duration.py:9-14 | in printed text a unit word ends only where a printed part ends, so no number-word match survives |
| `DurationTheorems.ReadParts` | app/common/duration.py:205-223 | the segments of printed text are its parts |
| `DurationTheorems.HumanizeRoundTrip` | app/common/duration.py:86-103 | parsing the printed form of n seconds gives n up to less than a minute, and n itself exactly when hours, minutes and seconds are not all non-zero |
| `DurationTheorems.SpokenDurationIsRead` | app/common/duration.py:86-103 | in a message without digits, number-word matches that say amounts of units in any way are read as their sum |
| `DurationTheorems.BareNumberIsMinutes` | app/common/duration.py:112-115 | a bare number is read as minutes exactly where the caller asks for that |
| `DurationTheorems.LoneUnitIsOne` | app/common/duration.py:105-110 | where no segment is found, the first unit letter that stands alone is read as one of its unit |
| `DurationTheorems.AmountIsRead` | app/common/duration.py:205-223 | a number and a unit word, in any case, with any blanks or none between, is read as that much of the unit |
| `DurationTheorems.UnitWordsExactly` | app/common/duration.py:239-249 | which words mean which unit |
| `DurationTheorems.PluralExactly` | app/common/duration.py:234-236 | the printed unit is singular exactly for one |
| `Rename.NormalizeRenameCommand` | app/timers/parsing.py:222-237 | the trimming loop computes the normalised message |
| `Rename.TrimTail` | app/timers/parsing.py:235-236 | any mix of trailing stops and blanks disappears |
| `Rename.NormalizeIdempotent` | app/timers/parsing.py:222-237 | normalising twice is normalising once |
| `Rename.MatchCommand` | app/timers/parsing.py:68-71 | a command is matched up to its new label with the id's digits captured, and what follows decides |
| `Rename.RenameRoundTrip` | app/timers/parsing.py:240-301 | a rename command with any id, any label in straight or curly quotes, blanks before and any mix of ".", "!" and blanks behind gives back the id and the trimmed label, for timers and stopwatches |
| `Rename.RenameUnquotedRoundTrip` | app/timers/parsing.py:240-301 | the same for a label without quotes that is all that follows |
| `Rename.RenameByLabelRoundTrip` | app/timers/parsing.py:240-301 | a command that names the timer by its label gives back both labels, the present one first |
| `Rename.PatternsMatchExactly` | app/timers/parsing.py:67-90 | the three patterns, matched greedily without backtracking, match exactly what a normalised text can be cut into, with those groups |
| `Health.HealthMonitor.CheckSystemHealth` | app/scheduler/jobs.py:188-233 | statuses and reports of one run, passing or failing |
| `Health.RunStatus` | app/scheduler/jobs.py:200-231 | the status recorded in a run is the check's last outcome |
| `Health.RunAlerts` | app/scheduler/jobs.py:215-231 | within a run alerts are the starts of failing blocks |
| `Health.OneAlertPerBlock` | app/scheduler/jobs.py:188-233 | over any sequence of runs the alerts raised for a check are as many as the maximal failing blocks in its history |
| `Health.RecoveryLogged` | app/scheduler/jobs.py:200-211 | a recovery is logged exactly on a fully passing run, for checks last recorded as failing |
| `Health.ReportsTell` | app/scheduler/jobs.py:215-231 | each report tells of a result of its run, and a failing run reports each failure with its detail |
| `Health.AlertNamesCheck` | app/scheduler/jobs.py:229-231 | an alert names its check and ends with what the check found |
| `Health.RecoveryLost` | app/scheduler/jobs.py:215-221 | a check that recovers while another fails is never logged as recovered |
| `Health.FlappingCheckHeardOnce` | app/scheduler/jobs.py:229-231 | a check that fails, recovers and fails again with one detail raises two alerts, and of the lines its log asks for only one is heard |
| `Notes.NoteService.RescheduleExisting` | app/memory/internal_note_service.py:73-97 | the last allowed deferral dismisses, earlier ones put the note off by its next delay and count |
| `Notes.DismissedOnTheLastDeferral` | app/memory/internal_note_service.py:73-97 | a note that is only deferred is dismissed by exactly the maxAttempts-th deferral and pending before |
| `Notes.DismissedOnTheLastDeferralOfRun` | app/memory/internal_note_service.py:20-97 | so it is on every run of the table, whatever happens to other notes in between, first due time given or not |
| `Notes.DelaysGrow` | app/memory/internal_note_service.py:85-88 | delays never shrink and never exceed the cap |
| `Notes.DelaysDouble` | app/memory/internal_note_service.py:85-88 | the first delay is the retry interval, each later one twice the one before; the cap bounds all |
| `Notes.WaitsDouble` | app/memory/internal_note_service.py:73-97 | on every run a note waits after each deferral twice as long as after the one before, or the cap, and after the first the retry interval, or the cap |
| `Notes.StatusExactly` | app/memory/internal_notes.py:39-104 | what one operation does to a note's status, count and due time |
| `Notes.AttemptsAreCounted` | app/memory/internal_notes.py:62-104 | on every run a pending note's count is the number of its deferrals and attempts |
| `Notes.TotalDelayBounded` | app/memory/internal_note_service.py:73-97 | all delays together are at most (maxAttempts - 1) times the cap |
| `Notes.NeverPendingAgain` | app/memory/internal_notes.py:39-104 | no run of operations, wipes and reused ids included, makes a dismissed or delivered note due again |
| `Notes.ClosedNotesStay` | app/memory/internal_notes.py:62-104 | such a note stays in the table until a wipe |
| `ContextSizing.SizesShape` | app/llm/context_sizing.py:55-71 | the sizes to try are ladder rungs, at least one, strictly decreasing, not above the request |
| `ContextSizing.SizesFit` | app/system/specs/report.py:22-35 | under a memory cap exactly the sizes that fit are tried, or 512 as a last resort |
| `ContextSizing.SizesFitExactly` | app/llm/context_sizing.py:55-71 | every size tried fits, apart from a last resort of 512, exactly when memory is left beside model and reserve or the request is below 1024 |
| `ContextSizing.NoBudgetNoCap` | app/system/specs/report.py:32-35 | without a budget the whole ladder up to the request is tried and none of it fits |
| `ContextSizing.OneByteDecides` | app/system/specs/report.py:32-35 | an input: at no spare byte every rung is tried, at one only 512 |
| `ContextSizing.ModelLoader.LoadLocalModel` | app/llm/context_sizing.py:84-121 | for an arbitrary loader the first size that does not merely fail to load decides: the largest loadable one, or an exception handed on; a notice is stored exactly when the size is below the request |

Class methods without a row (setters of one field, table inserts and deletes, job bookkeeping) are the steps of those
with one; each is proved to change the state as the model's function for it says.

## Left out

- HTTP routes, authentication, CLI, settings loading, database migrations: plumbing.
- Prompts, answer drafting, polishing and the chat mode: they depend on model output.
- The intent classifiers other than the rename parser: their verdicts are part of the modelled message.
- json.loads, number formatting and lone surrogates in strings: texts are compared, not decoded.
- Non-ASCII digits, word characters and case pairs in the regular expressions; `str.lower` outside ASCII.
- Duration.IterDurationSegments: the number-word pattern is represented by the matches it could return: in order, disjoint, each ending in a unit word; which of them occur in a message is left open.
- ContextSizing.ModelLoader.LoadLocalModel: the text of the notices and of the final error is not modelled.
- Calendar.ListUpcomingEvents: a negative result count and the reading of ISO date strings are not modelled.
- TimerService.TimerService.UpdateTimerLabel: finding the timer that a rename request means, and validating its label, are not modelled.
- Assistant.Assistant.HandleMessage: wiping, rebooting and restarting are calls out of the program; the model records that they were made.
- Offsets other than UTC in reminder timestamps, and reminder fields that no rule reads.
- The last check result in the update store and the activity snapshot's timestamps: only displayed.
- `ActivityHub.reset` and `UpdateStore.reset`: used by tests only.
- Threads interleaving inside one call, APScheduler's own timing.
