# onWatch: a verified model

onWatch watches AI subscriptions on a user's machine: it reads the usage logs that coding agents
leave behind, polls the providers for quotas, and stores both. This project models its stateful
parts in Dafny 4.11 and proves what they guarantee over whole runs. `dafny verify dfyconfig.toml`
checks everything.

## The modules

**The usage-log pipeline.** A coding agent appends to a rollout file; the collector parses what was
added, drops events it knows, and appends the rest to a queue file; the ingester tails that file
into the store.

- `Lines` cuts byte strings at newlines; `Text`, `Options` and `UsageEvents` are shared vocabulary.
- `CodexParser` is the incremental parser with its offset, carried partial record, checkpoint and
  folded context. `CodexIncremental` proves that it refines one pass over the file, `CodexContext`
  that the context is what the last records say.
- `Collector` is `CollectOnce` with its rollback; `CodexCollection` joins it with the parser;
  `CodexRounds` proves over whole runs that nothing is written twice, and exactly when nothing is
  lost; `CodexReplay` says when the schedule of reads shows.
- `TailIngester` is `scanFile`; its lemmas hold in every run whatever fails. `TailExactlyOnce` adds
  exactly-once delivery, `TailStaleCursor` the exact condition under which a failed cursor clear
  loses it.
- `Pipeline` composes both ends. `ScanWindow` is the rotating choice of queue files.

**The agents.** `AgentManager` is a transition system with one step per critical section.
`SessionManager` detects sessions poll by poll and refines a segmentation of the whole history.
`AnthropicPoll` and `GeminiPoll` state what one poll does, phase by phase, for arbitrary answers of
its environment; `AnthropicAgents` and `GeminiAgents` are the classes that do it in place;
`AnthropicSafety`, `AnthropicRuns` and `GeminiSafety` prove what every poll and every run keeps.
`Backoff` holds the retry delays.

**Arithmetic.** `Pricing` and `CodexCost` (which price applies, what a request costs),
`AntigravityQuota` and `AntigravityOrder` (grouping of model quotas), `AntigravityDelta` (running
counters to events), `AnthropicSlug` and `AnthropicScoped` (model names as quota keys, and the limits
promoted under them).

## How the source is modelled

- A file is a byte string under an identity. Between two steps its writer may extend it, the
  ingester may delete it, and the writer may create it anew.
- I/O, clocks and providers are arbitrary inputs: every append, insert, cursor write, removal, fetch
  and refresh may succeed or fail. The order of steps is arbitrary too.
- Decoding a line is an arbitrary function, so nothing depends on a particular JSON document.
- A hash is injective: an event key is the tuple of its parts, the checkpoint is the last
  min(offset, 4096) bytes.
- An object whose methods update it is a class with those fields. Each method is proved equal to a
  function of the old state, and the lemmas are about that function.
- `TriggerPoll` is a Stop followed by a Start of the same key, so its steps are among those of the
  transition system.

## Where the code does less than it seems

Each of these is a theorem below, with its exact condition where there is one.

- Usage records other than `token_count` are told apart by time and request in the queue but not
  within one read, so how many of them are collected depends on when the file is read
  (`CodexReplay.TidySchedulesAgreeExactly`, `CodexReplay.BareRepeatsDependOnSchedule`).
- At the first start, files outside the six-hour window are recorded and not read, which is meant.
  But this goes on until a round completes: after the append of another source failed, a file that
  was already read, then grew and left the window, loses what was added
  (`CodexRounds.CodexExactlyOnce`, `CodexRounds.GrownFileIsLost`).
- The checkpoint covers 4096 bytes; an earlier rewrite in place goes unseen, also when the file grows
  (`CodexIncremental.RestartsExactly`, `CodexIncremental.RewriteShows`).
- When clearing the cursor of a deleted file fails, the lines of the new file before the old offset
  are lost if and only if the offset is just after a newline there
  (`TailStaleCursor.StaleCursorExactly`, `TailStaleCursor.LineIsLost`).
- An unfinished line over 512 KiB can be deleted with its file, and its rest is then parsed as a line
  of its own (`TailExactlyOnce.UnfinishedBytesDeletedExactly`, `TailExactlyOnce.OversizedLineIsCut`).
- A refused fetch whose re-read finds no token makes the next poll take the unchanged token for a new
  one, and lift the rate-limit window (`AnthropicRuns.EmptyRereadLiftsExactly`).
- Past 272,000 input tokens a fast gpt-5.6 request loses its speed multiplier, so more input can cost
  less (`CodexCost.CostGrowsExactly`).
- The reset of an Antigravity window depends on the order of its models when a least model has no
  reset and a roomier one has a late one (`AntigravityOrder.ResetOrderFreeExactly`).
- The scoped key of a model is the weekly key of a model named like it after the word "scoped", so
  promoting the latter depends on the order of the limits (`AnthropicScoped.KeysOrderFreeExactly`).

## Model

| member | source | states |
|---|---|---|
| Lines.AppendLines | internal/agentusage/parsers.go:198-201 | Reading on from a carried tail gives the same complete lines and the same new tail as reading everything at once. |
| Lines.JoinLines | internal/agent/api_integrations_ingest_agent.go:302-315 | Cutting loses no byte: the complete lines with their newlines, followed by the tail, are the data. |
| Lines.LinesOfJoin | internal/agent/api_integrations_ingest_agent.go:302-315 | Newline-free lines written one after another are cut back into exactly those lines, with no tail. |
| Lines.SplitCompleteLines | internal/agent/api_integrations_ingest_agent.go:302-315 | The special cases (empty data, data ending in a newline, one part) all return the complete lines and the unfinished tail. |
| CodexParser.ScanRecords | internal/agentusage/parsers.go:195-332 | However the operating system hands over the bytes, the buffered scan loop yields the fold of the complete lines (and of the final record if wanted), refuses a record of 64 MiB, and carries exactly the tail. |
| CodexParser.ParseCodexUsageFile | internal/agentusage/parsers.go:164-344 | The method with its reset, seek, scan and checkpoint steps computes the specified events and next state, or fails where the specification fails. |
| CodexParser.LineTaken | internal/agentusage/parsers.go:346-367 | A newline in the window is one more step of the fold over complete lines. |
| CodexParser.TailReached | internal/agentusage/parsers.go:346-367 | At the end of the file the unfinished tail is carried, or parsed when it is the final record. |
| CodexParser.LongLine | internal/agentusage/parsers.go:198-201 | A window full of one line means that the whole input is refused, wherever the line ends. |
| CodexParser.FoldStops | internal/agentusage/parsers.go:201-210 | A malformed or too long line decides the outcome whatever follows it. |
| CodexIncremental.FoldReads | internal/agentusage/parsers.go:201-329 | The parse succeeds exactly on readable lines, and its events are all events with repeats of model, effort, mode and usage signature dropped. |
| CodexIncremental.ResumeReadsRest | internal/agentusage/parsers.go:164-343 | Resuming from the state that describes a prefix succeeds exactly when the whole file is acceptable, yields exactly the events added since, and ends in the state that describes the file. |
| CodexIncremental.OnePass | internal/agentusage/parsers.go:155-162 | A first read succeeds exactly on acceptable content and yields the repeat-free events of the whole file. |
| CodexIncremental.IncrementalRefinesOnePass | internal/agentusage/parsers.go:160-344 | Main result: for every growing file and every schedule of reads, failed reads included, the saved state describes the last acceptable content (tail, folded context, checkpoint), and the collected events without repeats are those of one pass over it. |
| CodexIncremental.DedupConcat | internal/agentusage/parsers.go:282-288 | Dropping repeats read by read and then overall is the same as dropping them overall. |
| CodexIncremental.FinishedFile | internal/agentusage/parsers.go:155-162 | On a file that ends in a newline the incremental and the whole-file parser give the same events or the same error. |
| CodexIncremental.RestartsExactly | internal/agentusage/parsers.go:175-185 | A saved state is kept exactly for the same file, not shorter than the offset, that agrees in the last 4096 bytes before it; so for a file read up to 4096 bytes, exactly for an extension of what was read. Otherwise parsing starts over. |
| CodexIncremental.EarlierRewriteUnseen | internal/agentusage/parsers.go:369-386 | A rewrite before those bytes goes unseen: however the file grows, the parser goes on as if it had grown from the old bytes. |
| CodexIncremental.RewriteShows | internal/agentusage/parsers.go:369-386 | And it shows: with the first line rewritten to name another model, the resumed parser keeps the old model where a new read gives the new one. |
| CodexContext.SavedContextIsLatest | internal/agentusage/parsers.go:206-281 | After any schedule of reads the saved model, effort, mode and speed are each what the last complete record that names them says, and the carried bytes are those after the last newline. |
| CodexContext.EventIsInContext | internal/agentusage/parsers.go:282-326 | An event carries the context its own record completes, and its input parts are those of the record. |
| Collector.Collector.CollectOnce | internal/agentusage/collector.go:87-155 | The loop over the sources, with its rollback of the seen keys and the three parser-state maps when an append fails, ends in the specified memory and outcome. |
| Collector.Collector.FilterSeen | internal/agentusage/collector.go:118-134 | Keeps the first writable event of every unseen key, remembers exactly the keys it adds, and adds none that was known. |
| Collector.Collector.ForgetKeys | internal/agentusage/collector.go:136-142 | Forgets exactly the given keys. |
| Collector.FreshLinesAreNew | internal/agentusage/collector.go:118-134 | The new lines have distinct unseen keys, and every writable event is covered by a known key or a new line. |
| Collector.SourceKeepsConsistent | internal/agentusage/collector.go:111-150 | Whatever a source answers and whichever append fails, seen is the initial keys plus those of the queue, the queue repeats no key, and it only grows. |
| Collector.EveryKeyWrittenOnce | internal/agentusage/collector.go:87-155 | Main result: over every run of rounds, seen is exactly the initial keys plus the keys of all appended lines, and no key is appended twice. |
| CodexCollection.CollectSource | internal/agentusage/collector.go:372-481 | The loop over the listed paths (vanished, outside the initial window, unchanged, parsed) gathers the specified events and states, or fails as specified. |
| CodexRounds.ReadOne | internal/agentusage/collector.go:412-418 | Reading one file from its saved state, replaced or not, succeeds exactly on acceptable content and adds every event not read before. |
| CodexRounds.PassReads | internal/agentusage/collector.go:372-481 | After a pass each listed file is read, was passed over at the start, or has its recorded stat; the pass fails only at a file that it reads and that is not acceptable. |
| CodexRounds.SourceSettles | internal/agentusage/collector.go:111-150 | A source that lets the round go on has read each of its files as it is, or skipped reading it. |
| CodexRounds.RunKeepsFaithful | internal/agentusage/collector.go:87-155 | Over every run of rounds on files that grow, vanish and are replaced: saved states describe the files as last read, all events of those have known keys, recorded stats are theirs unless skipped, and lines are events of files of the run. |
| CodexRounds.CodexExactlyOnce | internal/agentusage/collector.go:87-155 | Main result: whichever appends failed, no key is written twice; and after a round that succeeds, a listed file that was not skipped was read as it is, and all events of a listed file are known if and only if it was not skipped or its unread part yields no new key. |
| CodexRounds.SkippedWasPassedOver | internal/agentusage/collector.go:398-401 | Reading a file is skipped only if a source listed it, before any round had completed, without history wanted and with no recent change. |
| CodexRounds.WantedFilesComplete | internal/agentusage/collector.go:398-401 | So a file that was never passed over has all its events written or known after a round that succeeds. |
| CodexRounds.OldFileIsLost | internal/agentusage/collector.go:398-401 | A file outside the window at the first start is recorded unread: the round succeeds and none of its events is written. |
| CodexRounds.RecordedStaysUnread | internal/agentusage/collector.go:402-404 | Then it stays unread until its size, time or identity changes. |
| CodexRounds.GrownFileIsLost | internal/agentusage/collector.go:135-145 | A file that was read, then grew and left the window after the append of another source failed, is recorded without its added events, and the round succeeds. |
| CodexReplay.ScheduleBounds | internal/agentusage/parsers.go:282-288 | Any schedule of reads collects at least the keys of one pass and at most the keys of all events. |
| CodexReplay.LineByLine | internal/agentusage/parsers.go:160-344 | Reading after every line keeps every event. |
| CodexReplay.SchedulesAgreeExactly | internal/agentusage/parsers.go:282-288 | For every file, all schedules of reads collect the keys of one pass if and only if every event shares its content key with the first of some repeats. |
| CodexReplay.TidySchedulesAgreeExactly | internal/agentusage/parsers.go:282-288 | On the records: if and only if any two that agree in model, effort, mode and counts are both token_count records, or neither is and they have one time and request. |
| CodexReplay.BareRepeatsDependOnSchedule | internal/agentusage/parsers.go:282-288 | Two equal bare usage records at different times: two schedules that collect different keys. |
| CodexReplay.TaggedSchedulesAgree | internal/agentusage/parsers.go:484-490 | For token_count records every schedule collects exactly the keys of all events. |
| CodexReplay.ReplayAppendsNothing | internal/agentusage/types.go:184-217 | A file that replays the turn contexts and token_count records of a parent, with other times, path and session, appends nothing once the keys of the parent are known. |
| TailIngester.Ingester.ScanFile | internal/agent/api_integrations_ingest_agent.go:123-258 | The scan (stat, resume, bounded read, split, inserts, cursor write, removal, each of which may fail) ends in the specified file, cursor, store and histories. |
| TailIngester.Ingester.InsertAll | internal/agent/api_integrations_ingest_agent.go:221-243 | The insert loop stops at the failing insert, skips duplicates and hands every line that is not blank to the parser. |
| TailIngester.Ingester.RemoveConsumedFile | internal/agent/api_integrations_ingest_agent.go:260-282 | Deletes a queue file only if it is consumed to its end with no partial line, and clears its cursor unless that fails. |
| TailIngester.NothingIsErased | internal/agent/api_integrations_ingest_agent.go:260-282 | Deleting files takes no byte out of everything ever written under the path. |
| TailIngester.ResumesOnLine | internal/agent/api_integrations_ingest_agent.go:154-179 | A scan starts at a line boundary or with the carried start of the line, even from a cursor of a file that is gone. |
| TailIngester.ChunkContinues | internal/agent/api_integrations_ingest_agent.go:181-219 | The lines of a chunk continue the complete lines before it, for every chunk size. |
| TailIngester.ScanKeepsSafe | internal/agent/api_integrations_ingest_agent.go:123-258 | Whichever step fails, a scan parses only whole lines of the present file, stores no fingerprint twice and leaves no valid line of a committed chunk unstored. |
| TailIngester.EveryRunIsSafe | internal/agent/api_integrations_ingest_agent.go:123-315 | Main result: over every interleaving of appends and scans, deletions, re-creations, failed cursor clears and oversized lines included, every parsed string is a whole line of a file, stored fingerprints are distinct and come from lines, and committed lines are stored. |
| TailExactlyOnce.ScanKeepsExact | internal/agent/api_integrations_ingest_agent.go:123-258 | A scan keeps the cursor on the present file and the committed lines exactly those of the deleted files and of the consumed part. |
| TailExactlyOnce.EveryRunIsExact | internal/agent/api_integrations_ingest_agent.go:123-315 | The same over every run in which cursor clears succeed and no line exceeds the limit. |
| TailExactlyOnce.DeliveredOnceInOrder | internal/agent/api_integrations_ingest_agent.go:123-315 | Main result: the delivered lines are the first complete lines of everything ever written, in order and once each; the carried partial line is exactly the unfinished tail; when all is consumed nothing is missing. |
| TailExactlyOnce.ScanAdvances | internal/agent/api_integrations_ingest_agent.go:181-219 | A scan in which nothing fails moves on by a full chunk or to the end of the file. |
| TailStaleCursor.FailedClearLeavesStale | internal/agent/api_integrations_ingest_agent.go:273-280 | A scan that deletes its file and fails to clear the cursor leaves a cursor at the end of a file that is gone. |
| TailStaleCursor.StaleCursorExactly | internal/agent/api_integrations_ingest_agent.go:154-179 | Main result: then, for every re-created content, chunk size and further run, delivery is exact if and only if, at the first scan that saves a cursor, the old offset is not just after a newline of the new file; otherwise exactly the complete lines before it are lost. |
| TailStaleCursor.LineIsLost | internal/agent/api_integrations_ingest_agent.go:154-179 | A run from the start in which a line is never committed, however the run goes on. |
| TailExactlyOnce.UnfinishedBytesDeletedExactly | internal/agent/api_integrations_ingest_agent.go:205-216 | A deleted file held unfinished bytes exactly when they exceed the limit for a partial line. |
| TailExactlyOnce.OversizedLineIsCut | internal/agent/api_integrations_ingest_agent.go:205-216 | Then the rest of that line, written to the new file, is parsed as a line of its own. |
| Pipeline.EveryRunIsLinked | internal/agentusage/collector.go:87-155 | Over every interleaving of collecting and scanning, appends between the stat, the read and the removal of a scan included, the bytes ever written to the queue are exactly the lines of the collector, in order. |
| Pipeline.StoredExactlyOnce | internal/agent/api_integrations_ingest_agent.go:221-258 | Main result, end to end: the stored fingerprints are those of collected events whose lines the event parser accepts, each once; once the queue is read to its end there is exactly one for each of them. |
| ScanWindow.Scanner.SelectPaths | internal/agent/api_integrations_ingest_agent.go:85-107 | The loop picks the specified window and leaves the cursor within the list. |
| ScanWindow.CursorMoves | internal/agent/api_integrations_ingest_agent.go:92-107 | After t scans of one list the cursor is 100 t further, around the end of the list. |
| ScanWindow.SelectionIsDistinct | internal/agent/api_integrations_ingest_agent.go:92-100 | A capped scan picks 100 different paths. |
| ScanWindow.EveryPathIsPicked | internal/agent/api_integrations_ingest_agent.go:92-107 | Main result: from any cursor, ceil(N/100) scans in a row pick every path. |
| AgentManager.StepKeepsInv | internal/agent/manager.go:65-145 | Every critical section of Start, Stop, StopAll and the goroutine keeps the invariant: the table holds unfinished runs of its keys, no unfinished run is lost, and a Stop holds its runs alone. |
| AgentManager.RunsKeepInv | internal/agent/manager.go:65-145 | So does every interleaving of them. |
| AgentManager.OneRunPerKey | internal/agent/manager.go:65-111 | Main result: an unfinished run is registered under its key or held by a Stop in flight, never both, so concurrent Starts of one key leave one run. |
| AgentManager.EpilogueRemovesOwnOnly | internal/agent/manager.go:95-108 | A finishing goroutine removes exactly its own entry. |
| AgentManager.StopReturnsFinished | internal/agent/manager.go:114-145 | When Stop or StopAll returns, every run it took was cancelled and has finished. |
| AgentManager.StopAllTakesEverything | internal/agent/manager.go:129-145 | Right after StopAll empties the table, every unfinished run is in the hands of a Stop. |
| AgentManager.StopCanReturn | internal/agent/manager.go:114-145 | From every reachable state a Stop can return, under a schedule in which runners return only once cancelled. |
| SessionManager.SessionManager.ReportPoll | internal/agent/session_manager.go:42-101 | After every poll the stored rows are those of the segmented poll history, and the result says whether the poll was a change. |
| SessionManager.SessionManager.HasChanged | internal/agent/session_manager.go:112-125 | True exactly when there is an earlier poll and some value or their number differs. |
| SessionManager.SessionManager.IncrementAndUpdate | internal/agent/session_manager.go:138-158 | Counts the poll and raises each maximum of the open session, and touches no other row. |
| SessionManager.SessionManager.CloseSession | internal/agent/session_manager.go:128-135 | Ends the open session at the given time and touches no other row. |
| SessionManager.SessionManager.Close | internal/agent/session_manager.go:104-109 | Shutdown closes the open session and nothing else. |
| SessionManager.SessionsAreSeparate | internal/agent/session_manager.go:42-101 | Sessions never overlap, only the last can be open, each begins at a change and ends at its first unchanged poll more than the idle timeout after its last change. |
| SessionManager.NoChangeMissed | internal/agent/session_manager.go:56-84 | Every change for which a session could be created belongs to a session. |
| SessionManager.MaximaAreMaxima | internal/agent/session_manager.go:138-158 | Each stored maximum bounds every poll of the session and is attained, or is zero. |
| SessionManager.RowsFollow | internal/agent/session_manager.go:42-101 | One poll changes the rows exactly as it changes the segmentation of the history. |
| AnthropicAgents.AnthropicAgent.PollOnce | internal/agent/anthropic_agent.go:600-1055 | The poll, updating its fields in place, keeps the pause exact, makes at most two fetches, none paused or without a token, calls no OAuth beside an owner, and reports one outcome, or none when paused all along; it ends in the specified state. |
| AnthropicSafety.PollIsSafe | internal/agent/anthropic_agent.go:600-1055 | Main result, for all configurations, agents and answers: paused exactly after three failures; at most two fetches, none paused or without a token; no OAuth refresh beside an owner; exactly one outcome unless paused from the start to the check; only success once a snapshot is stored. |
| AnthropicSafety.CheckReadyKeeps | internal/agent/anthropic_agent.go:776-790 | Only a poll that was paused from the start and still is ends without an outcome. |
| AnthropicSafety.FinishKeeps | internal/agent/anthropic_agent.go:600-633 | However a poll ends, it reports once, and as a success if a snapshot is stored. |
| AnthropicSafety.BypassKeeps | internal/agent/anthropic_agent.go:798-973 | Bypassing a rate limit keeps the pause invariant, the fetch budget and the single outcome. |
| AnthropicSafety.RetryAuthKeeps | internal/agent/anthropic_agent.go:980-1026 | So does retrying after an authentication error. |
| AnthropicRuns.RunIsSafe | internal/agent/anthropic_agent.go:600-1055 | The same over every run of polls: at most two fetches and one outcome per poll, and with an owner no OAuth call at all. |
| AnthropicRuns.PausedResumesExactly | internal/agent/anthropic_agent.go:735-784 | Without stored credentials a paused agent fetches again if and only if its token source offers another token than the failed one, and then it uses that token. |
| AnthropicRuns.PausedStaysQuiet | internal/agent/anthropic_agent.go:735-784 | So poll after poll it makes no fetch until such a token appears. |
| AnthropicRuns.OwnerLossNeverSilences | internal/agent/anthropic_agent.go:696-729 | With a fallback token, a failed owner never silences polling: the poll fetches, whatever state the agent was in. |
| AnthropicRuns.OwnerIsSpaced | internal/agent/anthropic_agent.go:285-311 | While the owner keeps failing, any half hour of polls asks it at most three times, and at most once after three failures in a row. |
| AnthropicRuns.BackoffIsRespected | internal/agent/anthropic_agent.go:533-538 | In its rate-limit window the agent never calls the OAuth endpoint, unless another token was offered first. |
| AnthropicRuns.NoRefreshInWindow | internal/agent/anthropic_agent.go:533-538 | However often it polls, an agent in its window makes no OAuth call before the window ends while its token source offers nothing, or keeps offering the token it has. |
| AnthropicRuns.LiftsExactly | internal/agent/anthropic_agent.go:746-773 | In the window, a poll lifts it if and only if it proceeds and is offered another token than it last took. |
| AnthropicRuns.EmptyRereadLiftsExactly | internal/agent/anthropic_agent.go:982-1026 | With a token source that offers one token throughout, the next poll lifts the window although no token changed, if and only if the poll before read the token again and found none. |
| AnthropicRuns.ThrottledOpensWindow | internal/agent/anthropic_agent.go:545-565 | A throttled refresh opens a window: as long as the server asks, or min(5 min * 2^(n-1), 6 h) after the n-th failure. |
| Backoff.RateLimitDoubles | internal/agent/anthropic_agent.go:502-515 | The backoff is min(5 min * 2^(n-1), 6 h) for every n >= 1, despite the capped shift. |
| Backoff.GeminiAuthRetryDelay | internal/agent/gemini_agent.go:85-107 | The doubling loop ends at min(2^(n-1) h, 24 h) and the jittered delay never exceeds 24 h. |
| Backoff.RetriesWaitLonger | internal/agent/gemini_agent.go:85-107 | For equal jitter, more failures never wait less. |
| Backoff.JitterIsBounded | internal/agent/gemini_agent.go:85-107 | Jitter moves a delay by at most a fifth. |
| GeminiAgents.GeminiAgent.PollOnce | internal/agent/gemini_agent.go:210-409 | The poll, updating its fields in place, keeps the retry count equal to the pauses since the last reset, pauses in time, and reports one outcome, or none when it waits; it ends in the specified state. |
| GeminiSafety.PollIsSafe | internal/agent/gemini_agent.go:210-409 | For all agents and answers: the retry count is the pauses since the last reset, every pause is timely, and exactly one outcome is reported, or none when the poll waits. |
| GeminiSafety.PausedWaitsExactly | internal/agent/gemini_agent.go:229-241 | A paused agent uses the network if and only if its deadline has passed or another refresh token appears; otherwise the poll changes nothing. |
| GeminiSafety.RunIsSafe | internal/agent/gemini_agent.go:116-138 | Main result: over every run the retry count is the number of pauses since the last reset, and the n-th waits 2^(n-1) h within a fifth, at most a day. |
| GeminiSafety.PausedStaysQuiet | internal/agent/gemini_agent.go:229-241 | Until the deadline, and without another refresh token, any number of polls does nothing. |
| Pricing.BuildPeriods | internal/agentusage/pricing.go:57-91 | An empty history is refused; otherwise the periods are the history, or the entry itself, stably sorted. |
| Pricing.SortIsStable | internal/agentusage/pricing.go:88-90 | Sorting keeps the periods of one date in their configured order and loses none. |
| Pricing.PickPeriod | internal/agentusage/pricing.go:283-292 | The scan stops at the last period effective by the time, at the first if none is, and at the last for a zero time. |
| Pricing.ScanFindsApplicable | internal/agentusage/pricing.go:67-91 | Main result: for every history and time, any stable sort and the scan find the configured period that applies: the latest effective one, last configured among equal dates; else the earliest; the latest for a zero time. |
| Pricing.OnePeriodApplies | internal/agentusage/pricing.go:283-292 | Only one configured period applies at a time. |
| Pricing.PriceAt | internal/agentusage/pricing.go:275-292 | The price used is that of the one configured period that applies. |
| CodexCost.CostGrows | internal/agentusage/parsers.go:522-534 | More tokens never cost less, across the long-context step and after rounding: at standard speed for every model, at fast speed for every model but gpt-5.6. |
| CodexCost.CostGrowsExactly | internal/agentusage/parsers.go:522-534 | Main result: costs grow with the tokens for all requests if and only if the model is not gpt-5.6 at fast speed, or its output is free. |
| CodexCost.EachInputTokenCostsItsPrice | internal/agentusage/pricing.go:294-309 | Whatever else a request uses, one more token of a kind costs the price of that kind times the multipliers; a one-hour cache write costs its own price, or the creation price if it has none. |
| CodexCost.EachOutputTokenCostsItsPrice | internal/agentusage/pricing.go:310-319 | Output costs the output price, reasoning too where it is billed, and no tokens cost nothing. |
| CodexCost.CostIsRounded | internal/agentusage/pricing.go:322-322 | The cost is the exact one to the nearest multiple of 1e-12. |
| CodexCost.FastDrop | internal/agentusage/parsers.go:530-532 | A fast gpt-5.6 request just within 272,000 input tokens that costs more than one just past it. |
| AntigravityQuota.GroupModels | internal/api/antigravity_types.go:182-343 | The loops over models, groups and window kinds, with their accumulator maps, compute the specified quota of every group. |
| AntigravityQuota.Summarize | internal/api/antigravity_types.go:253-334 | The window loop finds the binding window: the first with the least remaining, a full one only if weekly. |
| AntigravityOrder.UniqueIDsExact | internal/api/antigravity_types.go:355-365 | The IDs of a group are exactly its non-empty IDs, once each, in the order of first appearance. |
| AntigravityOrder.GroupFraction | internal/api/antigravity_types.go:253-303 | The remaining fraction of a group is the least clamped fraction of its models in the three windows, 1 if there are none. |
| AntigravityOrder.GroupBinding | internal/api/antigravity_types.go:262-295 | Kind and reset of a group are those of the first window with the least remaining; if everything remains, those of the weekly window, or none. |
| AntigravityOrder.FoldFraction | internal/api/antigravity_types.go:235-248 | A window keeps the least fraction of its models and is exhausted exactly when one of them is. |
| AntigravityOrder.ResetIs | internal/api/antigravity_types.go:235-247 | The reset of a window: the latest at its least fraction, or possibly a later one left behind when the first model there has none. |
| AntigravityOrder.ResetOrderFreeExactly | internal/api/antigravity_types.go:235-247 | Main result: the reset of a window is the same in every order of its models if and only if all least models have resets or no roomier model has a later one than all of them. |
| AntigravityOrder.OrderShows | internal/api/antigravity_types.go:235-247 | Otherwise two orders with different resets. |
| AntigravityOrder.GroupingIgnoresOrder | internal/api/antigravity_types.go:182-343 | For order-free windows a permutation of the models keeps every fraction, exhaustion, reset, binding window and set of IDs. |
| AntigravityDelta.DeltaReader.DeltaEvent | internal/agentusage/collector.go:520-565 | Remembers the reading of its path only and returns the specified delta. |
| AntigravityDelta.DeltaExactly | internal/agentusage/collector.go:534-553 | A delta is never negative, and there is one exactly when the model is the same, no counter fell and some counter rose. |
| AntigravityDelta.StretchTelescopes | internal/agentusage/collector.go:536-559 | Main result: over a stretch with one model and no falling counter, the five emitted amounts add up to the last reading less the first. |
| AntigravityDelta.BreakSplits | internal/agentusage/collector.go:534-547 | A fallen counter or another model emits nothing and starts anew. |
| AntigravityDelta.PathsAreSeparate | internal/agentusage/collector.go:531-535 | In any interleaving of paths, what is emitted for one is decided by its own readings. |
| AnthropicSlug.AnthropicModelSlug | internal/api/anthropic_types.go:164-180 | The builder loop computes the specified slug. |
| AnthropicSlug.SlugIsClean | internal/api/anthropic_types.go:164-180 | A slug is empty or has no leading, trailing or doubled underscore and nothing but letters and digits between them. |
| AnthropicSlug.WordsJoin | internal/api/anthropic_types.go:196-208 | The words of a slug, joined by underscores, are the slug. |
| AnthropicSlug.WordsHaveNoSeparator | internal/api/anthropic_types.go:196-208 | No word of a slug holds an underscore. |
| AnthropicSlug.LabelExactly | internal/api/anthropic_types.go:196-208 | A text has a label exactly when it is not empty and has no leading, trailing or doubled underscore. |
| AnthropicSlug.SlugRoundTrips | internal/api/anthropic_types.go:164-208 | Main result: every nonempty slug has a label whose slug is the slug again. |
| AnthropicScoped.PromoteScopedWeeklyLimits | internal/api/anthropic_types.go:119-160 | The loop over the limits computes the specified response. |
| AnthropicScoped.WinnersExactly | internal/api/anthropic_types.go:143-159 | Main result: an item is promoted if and only if it is the first usable item of its slug and no earlier winner has that slug without its leading "scoped_"; and the promoted entries are exactly those of the winners. |
| AnthropicScoped.ItemWinsExactly | internal/api/anthropic_types.go:143-159 | So a scoped key ends up with the entry of an item if and only if that item wins, unless another of its slug has the very same entry. |
| AnthropicScoped.KeysOrderFreeExactly | internal/api/anthropic_types.go:143-151 | Which keys are promoted is the same in every order of the items if and only if no usable item has the slug of another after "scoped_". |
| AnthropicScoped.ResponseOrderFreeExactly | internal/api/anthropic_types.go:143-159 | The whole response is the same in every order if and only if, besides, usable items of one slug agree. |
| AnthropicScoped.PromotionKeeps | internal/api/anthropic_types.go:138-159 | Promotion never changes an entry with a utilization, nor any key but the scoped keys of the items. |
| AnthropicScoped.WeeklyEntryWins | internal/api/anthropic_types.go:143-147 | With a utilization in the weekly entry of a model, its items change nothing. |
| AnthropicScoped.ScopedNameDependsOnOrder | internal/api/anthropic_types.go:143-151 | For every slug there are names of it and of that slug after "scoped_", and of two such items the order decides. |

## Left out

- HTTP, OAuth requests, keychains, databases, process detection and notifications: their answers are inputs.
- JSON and timestamps: records are decoded already; trimming and decoding a line are one arbitrary function.
- SHA-256: keys are tuples, so collisions of the hash are not modelled.
- Text is ASCII: Unicode case folding and normalisation are not modelled.
- Amounts are reals: binary floating point is modelled only in the rounding to 1e-12; NaN and overflow are not.
- Times are integers (seconds for Anthropic, nanoseconds for Gemini). One Anthropic poll reads the clock once; the source reads it several times within a poll.
- Appends to the queue are all or nothing; a torn write of several lines is not modelled.
- The seen file: a collector that restarts and cannot read its own keys is not modelled, and neither is the day boundary between queue files.
- The Claude, Gemini and Cursor parsers: sources other than Codex are an arbitrary function from parser states to events.
- The cache of listed source paths, which forgets files that left the list.
- The price of an event is not a field of it: `CodexCost` states it separately.
- The suffix search of `lookup` runs over a map in no fixed order, so its result is not determined by the code; the exact and prefixed keys before it would only add easy members.
- Labels, colours, percentages and time until reset of Antigravity groups: presentation.
- Alerts for invalid lines, retention of stored events and the tracker of quota cycles.
- Sessions: failures of the store when it closes, counts or raises maxima are not modelled; failures to create are.
- Agents other than the two modelled: the Codex agent manager deletes by name without checking identity, so nothing proved of `AgentManager` is claimed for it; the simple pollers are straight-line code.
- AgentManager.StopCanReturn: states that a schedule exists, not that every fair one is finite, because a runner may take any number of its own steps.
- AgentManager.RunsKeepInv: a runner is assumed to come back from its own code; a panic in it is not modelled.
- CodexRounds.CodexExactlyOnce: a changed file has another size, time or identity, and one rewritten in place differs in the checkpointed bytes (what goes unseen otherwise is `CodexIncremental.EarlierRewriteUnseen`); the sources are Codex sources, and a source with a file it cannot parse is not accounted for.
- CodexIncremental.IncrementalRefinesOnePass: the configured speed is fixed during a run; the source reads it anew with each file.
- TailExactlyOnce.EveryRunIsExact: needs cursor clears that succeed and no line over the limit; what happens otherwise is stated by `TailStaleCursor.StaleCursorExactly` and `TailExactlyOnce.OversizedLineIsCut`.
- TailExactlyOnce.ScanAdvances: claims no progress for a line over the limit, whose discarded part can send the next scan back to the start of the file.
- Pipeline.StoredExactlyOnce: needs cursor clears that succeed, lines of at most 512 KiB, and fingerprints that tell apart what the collector tells apart.
- TailStaleCursor.StaleCursorExactly: about one failed clear; clears after it succeed, and no line is over the limit.
- CodexReplay.TidySchedulesAgreeExactly: names carry no spaces around them, as the decoder trims them, and totals are positive; `CodexReplay.SchedulesAgreeExactly` needs neither.
- ScanWindow.EveryPathIsPicked: for a list of paths that does not change between scans.
- Pricing.PriceAt: the sort is a stable insertion sort; the library's own algorithm is not part of this model, and the main lemma holds for every stable sort.
- CodexCost.CostGrows: needs no one-hour cache tokens, which Codex requests do not have.
- SessionManager.MaximaAreMaxima: a session whose polls are all below zero stores zero, as the store starts its maxima there.
- AnthropicRuns.NoRefreshInWindow: a token source that keeps offering one token is also assumed to find it when read again; `AnthropicRuns.EmptyRereadLiftsExactly` says what happens if not.
