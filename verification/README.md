# Verified models of the fx agent's terminal monitors, tool batches and byte algorithms

fx is a coding agent written in Rust. This project models, in Dafny, the parts of it whose correctness depends on many
steps fitting together, and proves what those steps promise. The models keep the code's branches, constants, error
conditions and 64-bit limits; loops and objects that the code updates in place are Dafny methods and classes, each
proved equal to a specification function about which the theorems are stated.

## What is modelled

**Terminal monitors.** A monitor watches the output of a terminal session for a literal or wildcard pattern, or waits
for a screen, a quiet period, an exit or a polled condition. `Matcher` is the five-word bit-set automaton over `bv64`
words, `Glob` an independent definition of what a pattern means, and `MatcherCorrect` proves they agree however the
output is chunked. `Schedule` and `Monitor` are the deadline arithmetic and the state machine of one monitor, and
`MonitorRuns` and `MonitorReports` what any sequence of calls on it can make it say. `MonitorSet` specifies the
store's operations on a saved set, `MonitorStore` performs them on a candidate copy mutated in place, and
`SetInvariants`, `StoreTheorems` and `StoreRuns` prove what every reachable set satisfies; `Departures` proves which
monitors match in an evaluation and which leave it, `Operations` exactly when a client operation succeeds and the
whole set it leaves, `Saving` that whatever happens in an evaluation is saved, and `Headroom` that nothing fails while
there is room in the counters and the clock. `RingBuffer` is the output buffer with absolute offsets. `Host`
interleaves the output reader, the worker's three separately locked steps and every client operation; `Detection` and
`Host` prove that detection is exact under every interleaving, `Progress` that a round of the worker catches up with
the stream, and `Announcements`, `Balance` and `HostLedger` that a match is reported exactly once, and none after a
loss.

**The agent loop.** `Conversation` defines a well-formed message history: each assistant tool call is answered right
after its message, in order, by id and name. `Texts`, `Summary`, `Projection` and `ProjectionTheorems` model the
fitting of a history into a token budget, `TightBudgets` what happens when even the last request is too long for it,
`SummaryEnds` how a summary opens and closes, and `SummaryContents` what message stands in for the omitted ones and
where its lines come from. `ToolBatch`, `ToolExecution` and `ScopedContext` model a batch of tool calls with its
parallel prefix of reads, the ordered join under any polling schedule, deferral, reviews and cancellation, and
`Denials` proves that a tool whose call is denied never runs. `AgentLoop` puts them together over any number of turns.

**Byte algorithms and a stream fold.** `Utf8`, `Redaction` and `RedactionTheorems` model the masking of secrets,
`RedactionMeaning` says what is recognised without the scans, `CapturedOutput` the head-and-tail capture of a
command's output, and `VercelFold`, `VercelStream` and `VercelTheorems` the fold of a model provider's event stream
into one response, whose calls `VercelCalls` reads off the events alone.

## Where the code and a natural claim part

- A request can exceed its token budget although 316 tokens are set aside for the summary: the summary can be worth
  608. `ReserveExceeded.ReserveIsTooSmall` gives a history that overflows a budget of 325. When what must stay fits
  beside the reserve, all requests with the same groups left out fit if and only if the summary of those groups is
  worth no more than the reserve: `ProjectionTheorems.ReserveDecides`. When it does not, only the last request is
  kept, and it fits if and only if what must stay and the summary of everything older fit together:
  `TightBudgets.TightBudgetDecides`, with `OneTokenDecides` for two neighbouring budgets that part.
  `ProjectionTheorems.ProjectionCost` and `OvershootIsBounded` give the true bounds.
- A pattern of nothing but `*` occurs in the empty text, but a monitor is never fed an empty chunk.
  `Host.DetectionIsExact` therefore asks for at least one byte of output besides an occurrence.
- Cancelling right after a response leaves its tool calls unanswered. `AgentLoop.RunControlled` shows that such a
  result is well formed exactly when the last response made no calls; every other result and every request is well
  formed.
- The branch of `evaluate_terminal` that drops an observation with a stale start cannot be taken with a single worker:
  `Host.NoObservationIsStale`.
- A summary is limited to 24 lines and 1200 bytes. Only the byte limit can ever bind, and then the closing tag may be
  dropped: `SummaryEnds.ClosedExactlyWhen` says that a summary is closed if and only if the lines before the tag take
  at most 1179 bytes, and `SummaryEnds.SummaryMayStayOpen` gives six messages whose lines take 1181.
- The step count of a due deadline is increased without a check. `Schedule.StepCountFitsExactlyWhen` shows that this
  can overflow for an interval of one millisecond and the greatest distance only, which no validated schedule reaches.

## Model

| member | source | states |
|---|---|---|
| Matcher.CloseInPlace | crates/fx-process/src/monitor.rs:693-702 | the in-place loop over the words computes the closure, one left-to-right pass |
| Matcher.StepInPlace | crates/fx-process/src/monitor.rs:613-632 | one byte replaces the words by their successor |
| Matcher.PatternFeed | crates/fx-process/src/monitor.rs:603-634 | feeding a chunk leaves exactly the words and the verdict of the specification, returns at the first match, and refuses an invalid pattern without touching the words |
| BitWords.SetBitAdds | crates/fx-process/src/monitor.rs:704-710 | setting a bit adds that position to the set the words stand for and no other, across word boundaries |
| MatcherCorrect.OnePassCloses | crates/fx-process/src/monitor.rs:693-702 | a single pass from left to right reaches the whole closure over `*` |
| MatcherCorrect.EpsilonClosureBits | crates/fx-process/src/monitor.rs:693-702 | the closure of the words is exactly the closure of the position set, for literals and wildcards |
| MatcherCorrect.StepTracks | crates/fx-process/src/monitor.rs:613-632 | words that hold exactly the positions live after some text hold exactly those live after one more byte |
| MatcherCorrect.FeedFinds | crates/fx-process/src/monitor.rs:603-634 | a feed reports a match iff the pattern occurs in everything fed so far, and otherwise keeps the automaton right |
| MatcherCorrect.SearchFinds | crates/fx-process/src/monitor.rs:598-601 | for every valid pattern and every text, a search from cleared words succeeds iff some infix matches |
| MatcherCorrect.LiteralSearch | crates/fx-process/src/monitor.rs:598-601 | without wildcards a search is for an equal infix |
| MatcherCorrect.ChunkingIsIrrelevant | crates/fx-process/src/monitor.rs:546-553 | however output is cut, a match is reported iff the whole contains one, and by the first chunk that completes the earliest one |
| Glob.StarIsAnyRun | crates/fx-process/src/monitor.rs:603-634 | a closing `*` stands for any run of bytes |
| Glob.LiteralIsEquality | crates/fx-process/src/monitor.rs:603-634 | a literal matches itself only |
| Glob.ConcatenationSplits | crates/fx-process/src/monitor.rs:603-634 | a concatenated pattern matches a text iff the text splits into matches of the parts |
| Schedule.AdvanceFindsFirstTick | crates/fx-process/src/monitor.rs:665-684 | the next deadline is the first point of current + k*interval after now, and the computation fails iff that point or the interval exceeds an i64, wherever the step count fits |
| Schedule.StepCountFitsExactlyWhen | crates/fx-process/src/monitor.rs:674-677 | the unchecked addition of the last step overflows for an interval of one millisecond and the greatest distance only, so never for a validated schedule |
| Schedule.AdvanceSkipsAnInterval | crates/fx-process/src/monitor.rs:665-684 | advancing a due deadline moves it by at least one interval and past now |
| Monitors.StableIdIsFaithful | crates/fx-process/src/monitor.rs:591-596 | distinct sequence numbers get distinct, valid identifiers |
| Operations.DefinitionAcceptedExactlyWhen | crates/fx-process/src/monitor.rs:153-216 | a definition is accepted iff its parts are in range and it has a check interval iff its condition is polled |
| Operations.NewMonitorIs | crates/fx-process/src/monitor.rs:289-335 | a new monitor is awake, unmatched, of the first generation and due one delay from now; it is refused iff one of its deadlines is not an i64 |
| Operations.ExpiresAfterItsDuration | crates/fx-process/src/monitor.rs:289-335 | a monitor expires when the duration of its lifetime has passed since it was installed, and one without a duration never does |
| Monitors.MonitorCell.Observe | crates/fx-process/src/monitor.rs:337-405 | the in-place update is the specified transition, with the specified decision or error |
| Monitors.MonitorCell.TimerDecision | crates/fx-process/src/monitor.rs:407-436 | likewise for lifetimes and intervals |
| Monitors.MonitorCell.Pause | crates/fx-process/src/monitor.rs:474-483 | likewise for pausing |
| Monitors.MonitorCell.Resume | crates/fx-process/src/monitor.rs:485-503 | likewise for resuming |
| Monitors.MonitorCell.DegradeForRawGap | crates/fx-process/src/monitor.rs:505-517 | likewise for degrading |
| Monitors.MonitorCell.NoteNotification | crates/fx-process/src/monitor.rs:528-544 | likewise for recording an event |
| Monitors.MonitorCell.FeedOutput | crates/fx-process/src/monitor.rs:546-553 | likewise for feeding output to the stored automaton |
| MonitorRuns.MatchReportedAtTheEdge | crates/fx-process/src/monitor.rs:337-405 | a call reports the match iff it is the one that makes the condition true; a match is never lost |
| MonitorRuns.MatchReportedOnce | crates/fx-process/src/monitor.rs:337-436 | over any sequence of calls the match is reported once if the condition became true, and not otherwise |
| MonitorRuns.PauseKeepsTheMatch | crates/fx-process/src/monitor.rs:474-503 | pausing and resuming gives back the state, the match and the automaton |
| MonitorRuns.LossIsFinal | crates/fx-process/src/monitor.rs:337-517 | after a loss, whatever the store calls, a gap-sensitive monitor stays degraded with its match and one more generation, and says nothing but that it expired |
| MonitorRuns.DegradedIsAbsorbing | crates/fx-process/src/monitor.rs:337-517 | under every call the store makes, a degraded monitor stays so and says nothing but that it expired |
| MonitorRuns.InstalledFiresOnTime | crates/fx-process/src/monitor.rs:289-335 | since its installation, an interval monitor has fired at most once per whole interval elapsed |
| MonitorRuns.ResumedFiresOnTime | crates/fx-process/src/monitor.rs:485-503 | the same since it was resumed |
| MonitorRuns.FiringsNeverOutrunTime | crates/fx-process/src/monitor.rs:407-436 | whenever the first announcement is due one interval after some moment, at most one per whole interval since then has been made |
| MonitorRuns.NothingDueAfterFiring | crates/fx-process/src/monitor.rs:407-436 | right after an interval fired, nothing is due |
| MonitorRuns.FiresExactlyWhenDue | crates/fx-process/src/monitor.rs:407-436 | a monitor that is awake announces its interval iff it is due, however much was missed, and the next one is then due later |
| MonitorReports.ChecksAreReported | crates/fx-process/src/monitor.rs:367-402 | over any calls, a monitor that reports every n-th check has reported exactly as many checks as multiples of n were passed |
| MonitorReports.QuietMeansQuiet | crates/fx-process/src/monitor.rs:438-452 | while nothing is lost, quiet is due iff the monitor is awake and nothing has stirred it for the whole duration |
| MonitorReports.QuietSinceInstalled | crates/fx-process/src/monitor.rs:289-335 | the same of any calls since its installation, which counts as the first stir |
| MonitorReports.PollKeepsItsBeat | crates/fx-process/src/monitor.rs:367-402 | an accepted poll puts the next one at the first tick of its interval after now, counted from when this one was due, and no other observation moves it |
| MonitorReports.RemovalIsJustified | crates/fx-process/src/monitor.rs:337-436 | a call asks for removal iff the lifetime is over, the session ended, or the awaited match was just found |
| MonitorReports.LastWords | crates/fx-process/src/terminal_monitor_store.rs:1063-1107 | at the end a listening monitor reports the exit it waited for, or the end of the session once if it asked for that; a paused or degraded one says nothing |
| Departures.DeparturesAreExact | crates/fx-process/src/terminal_monitor_store.rs:489-634 | a monitor leaves in an evaluation iff the evaluation itself sees the session stop, its lifetime is over, or it was installed until its match and its condition comes true then |
| Departures.FoundMeansFinds | crates/fx-process/src/terminal_monitor_store.rs:489-634 | the monitors an evaluation lets match are exactly those that were waiting and whose condition comes true: output completes the pattern, the screen shows it, the quiet period is over, the one check succeeds, or the session ends their way |
| Departures.SurvivorsAreExact | crates/fx-process/src/terminal_monitor_store.rs:489-634 | whoever is there afterwards was there before with the same definition, and is matched iff it was or its condition came true |
| MonitorStores.Candidate.PushEvent | crates/fx-process/src/terminal_monitor_store.rs:141-175 | numbers the event, notes it on its monitor and evicts the oldest beyond 1024 into the gap |
| MonitorStores.Candidate.Decide | crates/fx-process/src/terminal_monitor_store.rs:1045-1061 | logs the decision's notification and removes the monitor if it asks for that |
| MonitorStores.Candidate.ScanOutput | crates/fx-process/src/terminal_monitor_store.rs:499-557 | the scan that deletes while indexing visits every monitor once, in order |
| MonitorStores.Candidate.ScanTimers | crates/fx-process/src/terminal_monitor_store.rs:560-586 | likewise for the second scan |
| MonitorStores.Candidate.EndMonitors | crates/fx-process/src/terminal_monitor_store.rs:1063-1107 | ends monitors from the front until none is left |
| MonitorStores.MonitorStore.EvaluateTerminal | crates/fx-process/src/terminal_monitor_store.rs:468-634 | loads, evaluates and saves as a whole, as specified by the function that `Saving.EvaluationIsSaved` and `Headroom.EvaluationSucceeds` are about; an error leaves the saved set alone |
| MonitorStores.MonitorStore.OperateOn | crates/fx-process/src/terminal_monitor_store.rs:250-364 | each client operation saves the specified set, the one `Operations.OperationTakesEffect` and `AdditionTakesEffect` describe, or changes nothing |
| MonitorStores.MonitorStore.InspectPage | crates/fx-process/src/terminal_monitor_store.rs:366-412 | acknowledges and returns the specified page |
| MonitorStores.MonitorStore.Install | crates/fx-process/src/terminal_monitor_store.rs:219-248 | installs the first monitors of a session once |
| MonitorStores.MonitorStore.End | crates/fx-process/src/terminal_monitor_store.rs:644-661 | ends a session's monitors and saves |
| MonitorStores.MonitorStore.SaveCandidate | crates/fx-process/src/terminal_monitor_store.rs:689-710 | writes a valid candidate whole, or nothing |
| MonitorStores.MonitorStore.BuildInitialMonitors | crates/fx-process/src/terminal_monitor_store.rs:722-746 | builds the initial monitors, numbered from one, or fails as the first bad definition does |
| SetInvariants.SetInvIsValid | crates/fx-process/src/terminal_monitor_store.rs:95-127 | the inductive invariant implies what the store validates, so saving succeeds |
| SetInvariants.EveryIdAccountedFor | crates/fx-process/src/terminal_monitor_store.rs:141-175 | an event id was issued iff it is retained, acknowledged or covered by the reported gap, and retained ones lie above both |
| SetInvariants.EmitKeeps | crates/fx-process/src/terminal_monitor_store.rs:141-175 | logging an event keeps the log contiguous and the monitor consistent; it fails only when a counter is used up |
| StoreTheorems.EvaluateKeeps | crates/fx-process/src/terminal_monitor_store.rs:468-634 | an evaluation keeps the invariant and fails only when a counter or deadline overflows |
| Saving.EvaluationIsSaved | crates/fx-process/src/terminal_monitor_store.rs:468-634 | an evaluation that does not fail has its whole outcome saved with the cursor at the end of what was seen: always when there was output, and otherwise unless nothing happened but quiet checks of which there is nothing to say |
| Headroom.EvaluationSucceeds | crates/fx-process/src/terminal_monitor_store.rs:468-634 | with room in the counters and the clock, an observation that continues the cursor or reports a loss is evaluated without fail, and what comes of it is saved |
| Headroom.OutOfPlaceIsIgnored | crates/fx-process/src/terminal_monitor_store.rs:474-485 | with nobody to hear, or at another place of the stream and without a loss, nothing is evaluated and nothing saved |
| StoreTheorems.EndSessionKeeps | crates/fx-process/src/terminal_monitor_store.rs:644-661 | ending leaves no monitor and issues at most one event for each |
| Headroom.EndingSucceeds | crates/fx-process/src/terminal_monitor_store.rs:644-661 | with room in the counters and the clock, a session that ends leaves no monitor, and that is saved |
| StoreTheorems.OperateKeeps | crates/fx-process/src/terminal_monitor_store.rs:250-364 | client operations keep the invariant and the cursor, and number new monitors in sequence |
| Operations.FoundExactlyWhenThere | crates/fx-process/src/terminal_monitor_store.rs:1109-1116 | a monitor is found by its identifier iff it is there, whatever its place |
| Operations.NotFoundExactlyWhenAbsent | crates/fx-process/src/terminal_monitor_store.rs:250-364 | a valid update, pause, resume or removal is told that there is no such monitor iff there is none |
| Operations.OperationTakesEffect | crates/fx-process/src/terminal_monitor_store.rs:289-364 | on a monitor that is there each of them succeeds iff no counter is used up, its deadlines are representable and a new definition can be put to work; the monitor is then asleep, awake again with its match kept, started afresh or gone, every other monitor is as it was and in its place, and exactly one event is added, of that monitor and with the reason of the operation; one that is already as wanted is left alone |
| Operations.AdditionTakesEffect | crates/fx-process/src/terminal_monitor_store.rs:269-288 | adding succeeds iff there is room, a number left and the definition can be put to work; the new monitor comes last, under the next number, and nothing is logged |
| StoreTheorems.InspectKeeps | crates/fx-process/src/terminal_monitor_store.rs:366-412 | reading and acknowledging events, in any order and repeatedly, keeps the invariant |
| Operations.InspectionTakesEffect | crates/fx-process/src/terminal_monitor_store.rs:366-412 | a page is given iff its size is legal and what it acknowledges was issued; just the events up to there are dropped before it is read |
| Operations.RequestAsksFor | crates/fx-process/src/terminal_monitor_store.rs:443-460 | the worker is to look from the saved cursor on, and at the screen iff a monitor that is awake reads it |
| StoreTheorems.InstallKeeps | crates/fx-process/src/terminal_monitor_store.rs:219-248 | the first set has cursor zero, an empty log and monitors numbered from one |
| Operations.InstallationTakesEffect | crates/fx-process/src/terminal_monitor_store.rs:219-248 | the first monitors are installed together iff there is no set yet, they are not too many and each can be put to work; they are numbered from one, in order |
| StoreRuns.StepKeeps | crates/fx-process/src/terminal_monitor_store.rs:219-661 | every step leaves a set the store accepts, and fails only for the caller's arguments or a used-up counter |
| StoreRuns.ReachableSets | crates/fx-process/src/terminal_monitor_store.rs:95-127 | after any run the saved set validates and its log accounts for every id ever issued |
| StoreRuns.NoIdReissued | crates/fx-process/src/terminal_monitor_store.rs:250-287 | no monitor id is handed out twice in a session, even after its monitor is gone |
| StoreRuns.PageDelivers | crates/fx-process/src/terminal_monitor_store.rs:366-412 | a page continues upwards without repetition; an unseen id is still to come iff it lies above the reported gap |
| StoreRuns.PageFollowsItsCursor | crates/fx-process/src/terminal_monitor_store.rs:366-412 | a page asked for after any event, acknowledged or not, holds the first retained events above it, as many as asked for, and every monitor with its state |
| StoreRuns.SessionDelivers | crates/fx-process/src/terminal_monitor_store.rs:366-412 | beside any other steps, a sole paging client gets strictly increasing ids and misses only what the gap reported to it covers |
| StoreRuns.SweepKeepsOrder | crates/fx-process/src/terminal_monitor_store.rs:501-586 | survivors of a scan keep their order |
| StoreRuns.EvaluationRemovesExpired | crates/fx-process/src/terminal_monitor_store.rs:560-586 | an accepted evaluation leaves no monitor whose lifetime is over |
| RingBuffer.SessionState.AppendBytes | crates/fx-process/src/native_terminal.rs:917-931 | the buffer fields move as specified and go on showing the stream |
| RingBuffer.SessionState.ReadFrom | crates/fx-process/src/native_terminal.rs:331-378 | a read changes the reader offset only |
| RingBuffer.SessionState.ObserveFrom | crates/fx-process/src/native_terminal.rs:694-732 | an observation is the specified one and changes nothing |
| RingBuffer.AppendShows | crates/fx-process/src/native_terminal.rs:917-931 | the buffer is always the last 8 MiB of the stream at their absolute offsets |
| RingBuffer.ReadReturnsStream | crates/fx-process/src/native_terminal.rs:331-378 | a read returns the stream from its offset on, or reports a gap exactly when those bytes are gone or not yet there |
| RingBuffer.GlimpseShowsStream | crates/fx-process/src/native_terminal.rs:694-732 | an observation shows the stream from its cursor on, or from the first retained byte with the gap flagged |
| RingBuffer.ChainedReadsAreContiguous | crates/fx-process/src/native_terminal.rs:331-378 | reads chained at the previous end receive a contiguous stretch, nothing lost or repeated |
| Detection.EvaluationMoves | crates/fx-process/src/terminal_monitor_store.rs:490-586 | every survivor of an evaluation was there before and was fed the new output at most once, or degraded by the gap |
| Detection.FeedingKeepsRight | crates/fx-process/src/monitor.rs:546-553 | a monitor whose state is right for what it was fed is right after one more feed |
| Host.NextKeeps | crates/fx-process/src/terminal_host_server.rs:111-143 | every step of reader, worker and clients keeps the session invariant |
| Host.DetectionIsExact | crates/fx-process/src/terminal_host_server.rs:111-143 | after any interleaving, a present output monitor, never paused while it could hear, has matched iff its pattern occurs in the stream from its installation to the saved cursor or, if output was lost, to its first loss; it is degraded iff output was lost |
| Host.NoObservationIsStale | crates/fx-process/src/terminal_monitor_store.rs:480-485 | the observation in flight always continues at the saved cursor, or flags the gap |
| Announcements.VisitSpeaks | crates/fx-process/src/terminal_monitor_store.rs:501-586 | a visit logs at most one event, of the visited monitor; it reports a match iff the monitor finds it then and is to report matches, and it removes the monitor iff its lifetime is over or it found the match it waited for |
| Balance.SweepBalances | crates/fx-process/src/terminal_monitor_store.rs:501-586 | of every monitor, present or gone afterwards, a scan adds one report if it found its match then and is to report it, else none; exactly those leave that are to |
| Balance.EvaluationBalances | crates/fx-process/src/terminal_monitor_store.rs:489-634 | likewise for a whole evaluation, with at most four events a monitor slot |
| Balance.EndAllBalances | crates/fx-process/src/terminal_monitor_store.rs:1063-1107 | likewise for ending, where exit conditions alone can come true, with at most one event a monitor |
| HostLedger.StepKeepsLedger | crates/fx-process/src/terminal_host_server.rs:111-143 | beside the host, the history of all events stays numbered from one and ends in the log, and every account, open or closed, records when and why its monitor went and agrees with what was reported |
| HostLedger.MatchIsReportedExactlyOnce | crates/fx-process/src/terminal_host_server.rs:111-143 | under every interleaving, every output monitor ever installed to notify on match, present or gone for whatever reason, has one report since its installation if what it was fed contains its pattern, else none; if it was never paused while it could hear, that is what the stream holds from its installation to where it stopped or to its first loss |
| HostLedger.GoneExactlyOnItsMatch | crates/fx-process/src/terminal_host_server.rs:111-143 | under every interleaving, an output monitor installed until its match, never paused while it could hear, not expired, removed by a client or ended with its session, is gone iff its pattern occurs in the stream from its installation to where it stopped or to its first loss, with one report then if it was to report it |
| HostLedger.LossSilencesForGood | crates/fx-process/src/terminal_host_server.rs:111-143 | from any reachable state in which an output monitor has lost output, over any further run in which no client installs it anew, it is fed nothing more, it is degraded while it is there, and no event issued later reports its match |
| HostLedger.NoMatchIsReportedTwice | crates/fx-process/src/terminal_monitor_store.rs:141-175 | no monitor, present or gone, ever has two match reports |
| Progress.JudgeCatchesUp | crates/fx-process/src/terminal_host_server.rs:111-143 | a verdict that does not stop the worker leaves the saved cursor at the end of what was observed |
| Progress.RoundCatchesUp | crates/fx-process/src/terminal_host_server.rs:111-143 | a round of the worker in an open session with monitors, if it does not stop the worker, leaves nothing of the stream unread |
| Progress.RoundDetects | crates/fx-process/src/terminal_host_server.rs:111-143 | after such a round, from any reachable state, a present output monitor, never paused while it could hear, has matched iff its pattern occurs in the whole stream since its installation, or up to its first loss |
| Texts.TextTokensBound | crates/fx-core/src/context.rs:316-320 | an estimate is at most half a token a byte, rounded up |
| Texts.WordsAreCounted | crates/fx-core/src/context.rs:316-320 | every word costs at least one token |
| Conversations.WellFormedAnswersEveryCall | crates/fx-core/src/agent.rs:254-318 | a history is well formed iff every tool call is answered in its place, by id and name, and every tool message answers one |
| Conversations.WellFormedCut | crates/fx-core/src/context.rs:145-159 | cutting before any message but a tool result leaves two well-formed histories |
| Summaries.CompactOneLine | crates/fx-core/src/context.rs:272-284 | the loop yields the specified line |
| Summaries.CompactLineIsCanonical | crates/fx-core/src/context.rs:272-284 | a line fits 160 bytes, has single spaces only, and compacting it again changes nothing |
| Summaries.CompactMessages | crates/fx-core/src/context.rs:161-243 | the loops yield the specified summary message |
| Summaries.SummaryIsBounded | crates/fx-core/src/context.rs:161-243 | a summary has at most 1200 bytes and 600 tokens |
| SummaryEnds.SummaryOpens | crates/fx-core/src/context.rs:161-243 | the tag, the count and the disclaimer open every summary, uncut |
| SummaryEnds.ClosedExactlyWhen | crates/fx-core/src/context.rs:219-243 | the closing tag follows the other lines iff they take at most 1179 bytes |
| SummaryEnds.SummaryMayStayOpen | crates/fx-core/src/context.rs:219-243 | four requests and two replies whose summary stays open |
| SummaryContents.SummaryComesFrom | crates/fx-core/src/context.rs:161-283 | after its opening a summary holds, in order and compacted, those that fit of: the first four requests and the first three replies that say anything, each under the caption of its role, the first four tool calls and results by name, and the closing tag; a line is left out only if all of them together are too long, and the number left out follows if there is room |
| Summaries.SummaryIgnoresFeedback | crates/fx-core/src/context.rs:245-270 | the text of permission feedback never reaches the summary |
| Projections.ConversationGroups | crates/fx-core/src/context.rs:145-159 | the loop cuts the history as specified |
| Projections.GroupsTile | crates/fx-core/src/context.rs:145-159 | the groups tile the history and are cut before user messages only |
| Projections.SelectGroups | crates/fx-core/src/context.rs:93-108 | the backward loop over the marks selects as specified |
| Projections.ProjectMessages | crates/fx-core/src/context.rs:70-142 | the imperative projection is the specified one |
| ProjectionTheorems.SelectionIsGreedy | crates/fx-core/src/context.rs:93-108 | newest first, a group stays iff it fits beside the prefix and the newer kept groups |
| ProjectionTheorems.GroupStaysIfItFits | crates/fx-core/src/context.rs:93-108 | the same of the request actually sent |
| ProjectionTheorems.NewestStartIsLastRequest | crates/fx-core/src/context.rs:145-159 | the group always kept starts at the last user message |
| ProjectionTheorems.CompactedRequest | crates/fx-core/src/context.rs:109-141 | a compacted request is the prefix, one summary of exactly the omitted messages, and the kept ones in order with the newest group whole; the omitted are counted exactly |
| SummaryContents.StandInSpeaksForTheOmitted | crates/fx-core/src/context.rs:93-141 | a request that leaves anything out holds the history's system messages and no other, and one message that was not in the history: a user message without calls or identifiers, not cached, whose text comes from the omitted messages |
| ProjectionTheorems.ProjectionCost | crates/fx-core/src/context.rs:109-141 | a compacted request costs at most 608 more than the larger of its required part and the budget less its reserve |
| ProjectionTheorems.OvershootIsBounded | crates/fx-core/src/context.rs:109-141 | when the required part fits beside the reserve, the budget is exceeded by at most 292 tokens |
| ProjectionTheorems.ReserveDecides | crates/fx-core/src/context.rs:93-141 | of all budgets whose required part fits beside the reserve and that leave out the same groups, every request fits iff the summary of those groups is worth no more than the reserve |
| TightBudgets.TightBudgetDecides | crates/fx-core/src/context.rs:93-141 | when the required part does not fit beside the reserve, the request fits iff there is something older than the last request and its summary fits beside the required part |
| TightBudgets.TightRequest | crates/fx-core/src/context.rs:93-141 | such a request is the prefix, one summary of everything older than the last request, and that request, and costs the required part and the summary |
| TightBudgets.LoneRequest | crates/fx-core/src/context.rs:93-118 | an overflowing history of a single request is sent whole whatever the budget |
| TightBudgets.OneTokenDecides | crates/fx-core/src/context.rs:93-141 | with a summary worth less than the reserve, the least budget that fits and the one below it give the same request, which overflows the latter |
| ProjectionTheorems.ProjectionIsWellFormed | crates/fx-core/src/context.rs:70-142 | projecting a well-formed history gives a well-formed request |
| ReserveExceeded.ReserveIsTooSmall | crates/fx-core/src/context.rs:13 | a history whose required part fits is projected to a request above its budget of 325 |
| ToolBatches.ParallelReadPrefix | crates/fx-core/src/agent.rs:468-483 | the prefix is the longest run of valid, local, read-only calls |
| ToolBatches.PollRound | crates/fx-core/src/agent.rs:673-702 | one round polls every open future once and moves each finished outcome to its own slot |
| ToolBatches.JoinOrdered | crates/fx-core/src/agent.rs:673-702 | the loop over rounds joins as specified under any polling schedule |
| ToolBatches.JoinCompletes | crates/fx-core/src/agent.rs:673-702 | a schedule that polls every future often enough ends the join with an outcome in every slot |
| ToolBatches.JoinOfReads | crates/fx-core/src/agent.rs:673-702 | under every schedule, joining reads leaves the world alone and yields, in call order, the outcomes of running one by one |
| ToolExecution.PhasesAreSerial | crates/fx-core/src/agent.rs:382-402 | admitting all, running all and finishing all reads equals taking them one after another |
| ToolExecution.ExecuteReads | crates/fx-core/src/agent.rs:382-402 | the parallel branch starts, admits, joins and finishes as specified |
| ToolExecution.ExecuteToolBatch | crates/fx-core/src/agent.rs:351-413 | the batch loop is the specified one, for any tools and any executor |
| ToolExecution.BatchAnswersAll | crates/fx-core/src/agent.rs:351-413 | a completed batch has one outcome per call, and outcomes once given stay |
| ToolExecution.BatchMatchesSerial | crates/fx-core/src/agent.rs:351-413 | if reads change nothing, every batch that ends has the outcomes, permissions and world of taking its calls one by one |
| ToolExecution.SomeSchedulerIsGenerous | crates/fx-core/src/agent.rs:673-702 | in every environment some executor sees every batch through |
| ToolExecution.GenerousBatchEnds | crates/fx-core/src/agent.rs:351-413 | under such an executor no batch gets stuck |
| Denials.AdmittedExactlyWhenAllowed | crates/fx-core/src/agent.rs:574-671 | a local call goes to work, on what its tool prepared, iff it is sound, no request of it is denied, the review that its requests need allows it and the run is not cancelled by then; a denied one gets the denial and nothing else |
| Denials.AdmissionMovesNothingUnasked | crates/fx-core/src/agent.rs:605-655 | only a review moves the world or the permissions, and only its consent for the session grants anything |
| Denials.DenialIsReported | crates/fx-core/src/agent.rs:351-413 | an outcome of a completed batch carries permission feedback iff its call was denied, or refused by its review, when it was reached, and is then that denial |
| Denials.DeniedToolsNeverRun | crates/fx-core/src/agent.rs:351-413 | replacing what any tools prepared for calls that are not reached, denied, refused or cancelled by then changes nothing in the batch, whatever the tools do and however reads are scheduled |
| ScopedContext.SelectScopedContext | crates/fx-core/src/agent.rs:415-458 | one question about all targets; on news, exactly the calls with side effects are deferred |
| ScopedContext.SelectionSparesReads | crates/fx-core/src/agent.rs:415-458 | no parallel read is ever deferred |
| ScopedContext.DeferredToolsNeverRun | crates/fx-core/src/agent.rs:371-380 | replacing the tools of deferred calls by any others changes nothing in the batch, harmless reads or not |
| ScopedContext.DeferredOutcome | crates/fx-core/src/agent.rs:371-380 | a deferred call's outcome says so, or that the batch was cancelled before it |
| AgentLoop.InsertIsWellFormed | crates/fx-core/src/agent.rs:460-466 | inserting scoped context behind the system messages keeps a history well formed |
| AgentLoop.TakeTurn | crates/fx-core/src/agent.rs:220-320 | one turn keeps all requests well formed and refines the serial turn |
| AgentLoop.RunControlled | crates/fx-core/src/agent.rs:201-331 | from a well-formed history all requests are well formed, complete and step-limited results too, a cancelled one iff it leaves no open calls; with law-abiding reads the run equals the serial run |
| AgentLoop.TurnSays | crates/fx-core/src/agent.rs:220-331 | a turn that goes on sends the projected conversation and leaves it as it was, with new rules behind its system messages and, at its end, what the model said and an answer to every call with the text and the feedback mark of its outcome |
| AgentLoop.TurnEndsExactlyWhen | crates/fx-core/src/agent.rs:220-331 | a turn is cancelled iff the run is when it begins or once the model has answered, completes iff the model then calls no tool, and passes on any other failure of the gateway |
| AgentLoop.RunSays | crates/fx-core/src/agent.rs:201-331 | a serial run puts out what the model said in it, whole and in order, sends one request for each step and never more than its limit, and stops for the limit only when it is reached |
| Utf8.ValidCut | crates/fx-core/src/redaction.rs:7-27 | well-formed UTF-8 (section 4 of RFC 3629) cut between characters is well formed on both sides |
| Utf8.EncodingIsValid | crates/fx-core/src/redaction.rs:7-27 | encoding any sequence of characters is well formed |
| Utf8.ValidIsEncoded | crates/fx-core/src/redaction.rs:7-27 | well-formed bytes are the encoding of some sequence of characters |
| Redaction.FindBasicAuthUrl | crates/fx-core/src/redaction.rs:36-54 | the scan finds the specified span |
| Redaction.FindSensitiveAssignment | crates/fx-core/src/redaction.rs:74-119 | likewise for assignments to a sensitive key |
| Redaction.FindAssignmentValue | crates/fx-core/src/redaction.rs:121-148 | likewise for the value of an assignment |
| Redaction.FindSecretSpan | crates/fx-core/src/redaction.rs:29-34 | the recognisers are tried in order |
| Redaction.RedactSecrets | crates/fx-core/src/redaction.rs:7-27 | the copying loop yields the specified text |
| Redaction.BasicAuthUrlMeaning | crates/fx-core/src/redaction.rs:36-54 | credentials are recognised iff `https://` is followed by a colon and then, before anything that ends an authority, an `@`; the first such `@` ends the span |
| RedactionMeaning.QuotedEndMeaning | crates/fx-core/src/redaction.rs:121-148 | a quoted value ends at the first quote that does not follow an odd number of backslashes, the first line break, or the end of the text |
| RedactionMeaning.AssignmentMeaning | crates/fx-core/src/redaction.rs:74-148 | an assignment is recognised iff a whole word that is a sensitive key, bare or in matching quotes, is followed by blanks, a delimiter, blanks and a non-empty value, and that value is the span |
| RedactionMeaning.InlineTokenMeaning | crates/fx-core/src/redaction.rs:150-191 | a token is recognised iff it begins a word with a known prefix and its whole run is long enough, the first such prefix deciding |
| RedactionMeaning.AwsAccessKeyMeaning | crates/fx-core/src/redaction.rs:56-72 | an access key is recognised iff twenty upper-case letters and digits begin with one of the six kinds and no byte of a token stands on either side |
| Redaction.SpanIsSound | crates/fx-core/src/redaction.rs:29-191 | a span starts at or after the scan position, is not empty, stays in the text and begins and ends between characters |
| Redaction.SpansAreOrdered | crates/fx-core/src/redaction.rs:7-27 | the spans masked are disjoint and increasing |
| Redaction.NothingIsMissed | crates/fx-core/src/redaction.rs:7-27 | wherever a recogniser fires, the position is masked or consumed by an earlier match |
| RedactionTheorems.RedactionKeepsUtf8 | crates/fx-core/src/redaction.rs:7-27 | redacting well-formed UTF-8 gives well-formed UTF-8, so converting back cannot fail |
| RedactionTheorems.RedactionKeepsTheRest | crates/fx-core/src/redaction.rs:7-27 | text outside the spans is copied unchanged and in order, and each span becomes one mask |
| CapturedOutput.CapturedStream.Append | crates/fx-process/src/lib.rs:432-458 | the fields go on holding the two ends of the stream |
| CapturedOutput.CapturedStream.Render | crates/fx-process/src/lib.rs:460-484 | what is rendered is a function of the whole stream and the budget, for budgets up to the captured limit |
| CapturedOutput.CaptureStream | crates/fx-process/src/lib.rs:487-502 | however output is chunked, exactly the first half of the limit (rounded up) and the last half are held |
| CapturedOutput.FieldsSuffice | crates/fx-process/src/lib.rs:460-484 | the two ends overlap correctly: nothing is shown twice or lost |
| CapturedOutput.RenderingShowsBudget | crates/fx-process/src/lib.rs:460-484 | the stream itself if it fits, else exactly the budget from its two ends and the true number of bytes dropped |
| CapturedOutput.ShowBoth | crates/fx-process/src/lib.rs:533-551 | both streams whole if they fit together, else each under its share of the limit |
| CapturedOutput.BothStayWithinTheLimit | crates/fx-process/src/lib.rs:533-551 | two streams over the limit together show at most the limit, each as much as its share allows, and one of them is cut |
| VercelStream.StreamState.ProcessEvent | crates/fx-provider/src/transport.rs:1119-1233 | the in-place handling of an event is the specified step, with the specified errors |
| VercelStream.StreamState.CaptureToolCall | crates/fx-provider/src/transport.rs:1235-1324 | likewise for a completed tool call, found under its own or a pending id |
| VercelStream.StreamState.CaptureToolResult | crates/fx-provider/src/transport.rs:1334-1358 | likewise for a provider-executed result |
| VercelStream.ConsumeStream | crates/fx-provider/src/transport.rs:1077-1117 | a whole stream of events is folded and concluded as specified, and whether it succeeds or fails, exactly the events of what was accepted are delivered |
| VercelTheorems.ProcessKeeps | crates/fx-provider/src/transport.rs:1119-1233 | after every accepted event, starts emitted are calls finished plus inputs pending, ids are distinct and apart, and the content is what was streamed |
| VercelTheorems.StartsAreCounted | crates/fx-provider/src/transport.rs:1119-1324 | in numbers: starts equal finished calls plus pending inputs |
| VercelTheorems.DeliveredIsConserved | crates/fx-provider/src/transport.rs:1077-1233 | however a stream ends, the starts delivered are the calls finished and the inputs pending, each once, and the text delivered is the content |
| VercelTheorems.ResponseIsBalanced | crates/fx-provider/src/transport.rs:1056-1074 | a response is handed out only with exactly one delivered start per call, distinct ids and the concatenated content |
| VercelCalls.ResponseIsStreamed | crates/fx-provider/src/transport.rs:1119-1358 | the calls of a response are those of the call events up to the finish, in order; each has its event's input for arguments, or else every delta streamed for the input it completes, in order, or else an empty object, and the provenance, integrity and last result the stream gives it; every input started is completed by exactly one call |
| VercelCalls.ResponseIsTold | crates/fx-provider/src/transport.rs:1056-1233 | a stream read up to its first finish event becomes a response iff no event reports an error and no input is left open; its content is the text streamed and the reasoning passed on is the reasoning streamed, in order |
| VercelCalls.CallAcceptedExactlyWhen | crates/fx-provider/src/transport.rs:1235-1283 | a call is accepted iff it is new and has a name that its own input, or the only one it could complete, does not contradict; it takes that input and leaves every other |
| VercelCalls.EventAcceptedExactlyWhen | crates/fx-provider/src/transport.rs:1119-1233 | an event is refused only for a missing field, a repeated identifier, one that nothing was started for, or an unknown finish reason |

## Left out

- Host.DetectionIsExact: one session is modelled, and streams of 2^64 bytes or more are not.
- Host.NextKeeps: the flag that wakes the worker while monitors are present, and its liveness, are not modelled; any step may happen at any time.
- StoreRuns.StepKeeps: reading, writing and encoding the saved file, and its size limit, are not modelled; a save is atomic.
- MonitorStores.MonitorStore.EvaluateTerminal: the result of polling a path, port, URL or command is an input, as is the text of the screen.
- MonitorStores.MonitorStore.OperateOn: whether a definition's effects could be prepared is an input, and the path baseline and its fingerprint are not fields of the model.
- MonitorRuns.FiringsNeverOutrunTime: counts firings between two resumptions; the clock is an input and need not be monotone.
- Schedule.AdvanceFindsFirstTick: leaves aside the one input whose step count overflows, an interval of one millisecond from 0 to the greatest i64.
- MonitorRuns.DegradedIsAbsorbing: covers the calls the store makes; noting output on a degraded monitor directly is not one of them.
- RingBuffer.GlimpseShowsStream: the rendering of the screen is not modelled.
- ProjectionTheorems.ProjectionIsWellFormed: custom context projectors are not modelled, only the deterministic one.
- Projections.ProjectMessages: the budget is a parameter; how it is derived from a model's window is not modelled.
- ToolExecution.ExecuteToolBatch: a future must finish after finitely many polls; awaiting approval is one step of the world, which for reads is assumed to change nothing wherever the batch is compared with the serial one; started and finished notifications are kept as lists of their own rather than interleaved, the cutting of long outputs is an abstract function, and a read that asks for a result stored in the same batch is not modelled.
- AgentLoop.RunControlled: without a step limit a run is followed up to a given number of turns; usage counters are not modelled, and cancellation is part of the world, so reads that change nothing do not flip it.
- CapturedOutput.CapturedStream.Render: shows bytes; the lossy decoding to text and the wording of the truncation note are not modelled.
- RedactionTheorems.RedactionKeepsTheRest: redacting twice need not equal redacting once, so idempotence is not claimed.
- VercelStream.ConsumeStream: begins at parsed events; server-sent-event framing and JSON parsing are inputs, and token usage is not modelled.
- Exit ordering (that the last output is seen before an exit, that every exit is noticed) is not guaranteed by the code and not claimed.
- The Codex stream is not modelled: it does not require pending calls to be finished, so it has no such conservation law.
- Headroom.EvaluationSucceeds: asks for ten more of every count and a day of clock; runs that use up a 64-bit counter fail, and are covered by StoreTheorems.EvaluateKeeps.
- The permission engine and approval handler appear only as state threaded through the admission of tools.
- tmux sessions, PTYs, signals, network transports, credentials, the terminal user interface and configuration are not modelled.
