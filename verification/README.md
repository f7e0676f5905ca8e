# PinchBot: a verified model of its stateful core

This project models the parts of PinchBot whose correctness depends on state, on loops or on
an order of durable steps, and proves what they promise:

- **Message splitter** (`Split*`, `Splitter`, `Lines`, `Runs`, `Text`): long texts are cut into chunks that
  fit a channel, and code blocks that are cut in two are closed and opened again. `SplitPoints` says
  of every text where it is cut, by its newlines, blanks and fences alone.
- **Session log** (`SessionLog`, `SessionRuns`, `Store`, `Migration`): an append-only file and a
  metadata record with a truncation offset. Every operation is a list of durable writes, and the
  process may stop between any two of them. `budget` is the number of writes it still makes.
- **Histories** (`Messages`, `History`, `HistoryFacts`, `HistoryParts`, `Turns`, `Sanitizer`): the two passes that
  repair the structure of tool calls and tool results before a history is sent.
- **Prompt cache** (`PromptCache`): the cached system prompt against the files it was read from,
  which change between any two of the cache's system calls.
- **Fallback chain** (`Cooldown`, `Backoff`, `Dedupe`, `ModelRefs`, `Layers`, `Traces`, `Fallback`,
  `FallbackFacts`, `FallbackOutcomes`): layered candidates, two tries each, and cooldowns with
  exponential growth and a failure window. The tracker is shared: other runs may mark it at every
  step, and the trace of a run holds its own steps and their marks in one order.
- **Agent loop** (`AgentLoop`): how an iteration loop over the fallback chain ends, how many
  provider calls it makes and what it adds to the session.
- **Cron service** (`CronModel`, `CronDue`, `CronService`): a state machine over every interleaving of checks,
  running jobs, additions, removals, switches and restarts.
- **Official models** (`Aliases`, `OfficialModels`, `OfficialFacts`, `OfficialKinds`,
  `OfficialSettled`, `OfficialSync`): the rewriting of the launcher's model list.
- **Launcher log** (`LogBuffers`, `LogPolling`): the ring of lines, and the web page that polls it.
- **Media index** (`Media`): three maps kept together, against one simple map.

Code that updates state or loops is modelled by classes and methods with loops, each proved equal
to a function on values; the main theorems are lemmas about those functions. Numbers are unbounded;
none of the quantities modelled comes near the width of a 64-bit integer in the program. A text is
the sequence of its runes. What the environment decides (provider answers, error texts, the clock,
tool results, the cron expression library, the order in which a map is walked) is an arbitrary
parameter or an arbitrary choice. `Basics` holds what several modules share.

Where the code does less than its comments or tests suggest, the code is followed:

- The comment at `PinchBot/pkg/memory/jsonl.go:424-428` says that the next Compact or TruncateHistory
  corrects a `Compact` that stopped half way. A second Compact finds nothing to do, so the history is
  the old one only if the skipped lines hold no message (`SessionRuns.TornCompactStays`); a truncation
  corrects it exactly if it keeps no more messages than were visible
  (`SessionRuns.TornCompactTruncated`).
- Running the migration again after a complete run can undo a later file, when a file that could not
  be renamed names the same session. `Migration.RerunExactly` says for whole directories when it does.
- `SplitMessage` does not return on every text. For every text and `maxLen >= 10` it returns if and
  only if no text left after some cuts is stuck: one that opens with a fence whose line leaves less
  than seven runes of a message, that the first cut leaves open, that nothing closes in time, and
  that does not fit (`SplitExact.HaltsExactly`). A bound on the cuts to look at is given too.
- Fences can be left unbalanced when the first cut splits a fence, or when an earlier block is cut by
  the branch that splits before a block. `SplitFences.Balanced` and `SplitFences.BalancedBefore` say
  exactly when.
- Candidates are tried layer by layer, each layer in the order given, exactly if no later copy of a
  key lies in an earlier layer than its first copy (`Layers.OrderedExactly`). Resolved candidates have
  distinct keys, so theirs always are.
- The log page can lose lines for good when the launcher restarts the gateway between the two reads
  of one request (`LogPolling.RestartBetween`).
- A second sync of the official models can change the default again when no official model is
  offered or present (`OfficialSettled.SecondSync`, `OfficialSettled.SampleFallsBack`).
- Releasing one media scope can delete the file of an entry that stays (`Media.BackedAfter`,
  `Media.SharedPathDangles`).

## Model

| member | source | states |
|---|---|---|
| Splitter.SplitMessage | PinchBot/pkg/channels/split.go:13-140 | on every text on which the loop ends, the messages are those of the successive cuts, each of them not empty and at most maxLen runes long; with maxLen <= 0 the text is sent whole |
| Splitter.CutOnce | PinchBot/pkg/channels/split.go:32-137 | one round over buffer and start index sends the message of the cut and leaves the text after it, also where the buffer is rebuilt |
| Splitter.CutInBlock | PinchBot/pkg/channels/split.go:54-121 | the five ways to cut a text whose first cut leaves a block open, as one decision on the text still to be sent |
| Splitter.FindLastUnclosedCodeBlockInRange | PinchBot/pkg/channels/split.go:142-162 | the scan with its two flags finds the last fence of the range if their count is odd, else -1 |
| Splitter.ScanCounts | PinchBot/pkg/channels/split.go:142-162 | the flags of the scan agree with the parity and the last position of the fences from any point on |
| Splitter.FindNextClosingCodeBlockInRange | PinchBot/pkg/channels/split.go:164-174 | the end of the first fence at or after the index |
| Split.NextClosingFirst | PinchBot/pkg/channels/split.go:164-174 | the fence it finds is one, and none starts before it |
| Splitter.FindNewlineFrom | PinchBot/pkg/channels/split.go:176-184 | the first newline at or after the index |
| Splitter.FindLastNewlineInRange | PinchBot/pkg/channels/split.go:186-196 | the last newline of the window, or the index before the start |
| Splitter.FindLastSpaceInRange | PinchBot/pkg/channels/split.go:198-208 | the last space or tab of the window, or the index before the start |
| Split.LastInIsLast | PinchBot/pkg/channels/split.go:186-208 | no later rune of the window is of the kind looked for |
| SplitText.MessageFits | PinchBot/pkg/channels/split.go:32-137 | every message fits maxLen and none is empty, for every maxLen > 0, also below 10 |
| SplitText.RestoreRun | PinchBot/pkg/channels/split.go:32-137 | conservation over a whole run: taking out one closing fence and one fence line per cut in a block gives back exactly the visible runes of the text, and each fence line taken out is the one repeated |
| SplitText.RestoreCut | PinchBot/pkg/channels/split.go:80-136 | one cut neither drops nor adds a visible rune apart from that pair |
| SplitPoints.EveryText | PinchBot/pkg/channels/split.go:25-77 | the first cut of every text that does not fit, by its newlines and blanks alone: maxLen less the reserve is the soft end (half of maxLen, or less: a tenth but at least 50), the cut is at the last newline of the 200 runes before it, else at the last space or tab of the 100 before it, else there; and if that leaves a block open, which fence opens it and where its line ends |
| SplitPoints.OutsideBlocks | PinchBot/pkg/channels/split.go:43-60 | cut outside every block, the message is the text up to that cut, and the rest goes on without the blanks at its start |
| SplitPoints.ClosedInTime | PinchBot/pkg/channels/split.go:60-66 | cut in a block that the next fence closes within maxLen, the message runs through that fence |
| SplitPoints.FarInside | PinchBot/pkg/channels/split.go:67-93 | cut more than 20 runes behind the line of a block that nothing closes in time: the message is closed at the last newline past that line among the 200 runes before maxLen - 5, or there without one, and the block is opened again with its line |
| SplitPoints.BeforeBlock | PinchBot/pkg/channels/split.go:94-108 | cut nearer to that line: the message ends at the break before the block, found in the same way |
| SplitPoints.NoBreakBefore | PinchBot/pkg/channels/split.go:102-121 | and without such a break at the block itself, or, with at most 20 runes before it, inside it at maxLen - 5 |
| SplitFences.Balanced | PinchBot/pkg/channels/split.go:54-120 | for maxLen >= 10, a message that is neither the last nor cut before a block has an even number of fences if and only if the first cut splits no fence that the message then takes in whole; so always when that cut is outside every run of backticks |
| SplitFences.BalancedBefore | PinchBot/pkg/channels/split.go:102-108 | a message cut before a block has an even number of fences if and only if the text between the cut and that block has |
| SplitFences.FencesFrom | PinchBot/pkg/channels/split.go:142-162 | the fences up to any point are those up to an earlier one, the one that this one splits, and those that the scan meets from there |
| SplitFences.InnerCutIsLater | PinchBot/pkg/channels/split.go:74-121 | the cut in a block is never before the first cut, so it stays in the block that was seen to be open |
| SplitFences.TickRunUnbalances | PinchBot/pkg/channels/split.go:54-120 | an instance: a first cut in a run of backticks that leaves three fences in the message |
| SplitFences.EarlierBlockUnbalances | PinchBot/pkg/channels/split.go:102-108 | an instance: a split before a later block that leaves one fence in the message |
| SplitHalts.Shrinks | PinchBot/pkg/channels/split.go:74-121 | with fence lines of at most maxLen - 7 runes every round shortens the text still to be sent |
| SplitHalts.ShortHalts | PinchBot/pkg/channels/split.go:32-137 | then the loop ends, since every rebuilt buffer has such fence lines again |
| SplitStuck.StuckForever | PinchBot/pkg/channels/split.go:112-120 | on a text that is stuck the loop never ends, since what it leaves is stuck again |
| SplitStuck.LongAgain | PinchBot/pkg/channels/split.go:112-120 | what is left of a text with such a fence line fits in a message or is stuck |
| SplitStuck.FourBackticksStuck | PinchBot/pkg/channels/split.go:112-120 | an instance, with a fence of four backticks |
| SplitExact.Lighter | PinchBot/pkg/channels/split.go:54-137 | every other cut lowers the weight of the text, the sum of a power of three for each line: a reopening replaces a line by at most two shorter ones |
| SplitExact.HaltsExactly | PinchBot/pkg/channels/split.go:32-137 | for every text and maxLen >= 10 the loop ends if and only if no text left after some cuts is stuck, and if and only if the one left after a given number of cuts is not |
| SplitOpening.OpeningBlockHaltsExactly | PinchBot/pkg/channels/split.go:32-137 | for a text that opens with a fence line of n runes holding no other fence and whose later fence lines are short: it ends if and only if n <= maxLen - 7, or the text fits, or the block closes within maxLen |
| SplitOpening.LaterBlockHaltsExactly | PinchBot/pkg/channels/split.go:32-137 | the same for any text of which some number of cuts leaves such a text |
| Store.JSONLStore.ReadMessages | PinchBot/pkg/memory/jsonl.go:131-177 | the scan skips the first lines that are not empty and drops later ones that do not decode |
| Store.ScanLines | PinchBot/pkg/memory/jsonl.go:131-177 | the loop of that scan over the lines of a file |
| Store.JSONLStore.CountLines | PinchBot/pkg/memory/jsonl.go:181-199 | the number of lines that are not empty |
| Store.JSONLStore.GetHistory | PinchBot/pkg/memory/jsonl.go:270-289 | the messages of the lines past the offset |
| Store.JSONLStore.AddMsg | PinchBot/pkg/memory/jsonl.go:218-268 | an append, then the record, stopped after any number of writes |
| Store.JSONLStore.AddFullMessage | PinchBot/pkg/memory/jsonl.go:202-268 | when complete, the history has exactly this message more at its end |
| Store.JSONLStore.TruncateHistory | PinchBot/pkg/memory/jsonl.go:327-361 | recounts the lines and moves the offset, in one write |
| Store.JSONLStore.SetHistoryOf | PinchBot/pkg/memory/jsonl.go:363-400 | the record and then the lines; when complete, the history is the argument |
| Store.JSONLStore.CompactSession | PinchBot/pkg/memory/jsonl.go:402-439 | returns at once without offset, else the record and then the lines; when complete, the history is unchanged |
| Store.OtherSessionsUntouched | PinchBot/pkg/memory/jsonl.go:79-99 | sessions whose file names differ do not touch each other |
| Store.SameFileExactly | PinchBot/pkg/memory/jsonl.go:79-99 | two keys share their files if and only if they differ only in colons against underscores |
| SessionRuns.OffsetStaysValid | PinchBot/pkg/memory/jsonl.go:218-439 | no operation, wherever it stops, moves the offset past the end of the file |
| SessionRuns.AddAppends | PinchBot/pkg/memory/jsonl.go:218-268 | an append is visible from its first write on |
| SessionRuns.TruncateExactly | PinchBot/pkg/memory/jsonl.go:327-361 | truncation keeps exactly the last k messages if and only if the lines kept all decode or those dropped hold no message |
| SessionRuns.CompactKeeps | PinchBot/pkg/memory/jsonl.go:402-439 | a completed Compact changes nothing that can be read |
| SessionRuns.TornRewrite | PinchBot/pkg/memory/jsonl.go:384-438 | a rewrite stopped between its writes shows the whole old file, which ends in the old history |
| SessionRuns.TornCompactStays | PinchBot/pkg/memory/jsonl.go:402-439 | a later Compact leaves it as it is, and the history is the old one if and only if the skipped lines hold no message |
| SessionRuns.TornCompactTruncated | PinchBot/pkg/memory/jsonl.go:327-439 | a truncation after it gives what it would have given before, if and only if it asks for no more messages than were visible |
| SessionRuns.NothingIsLost | PinchBot/pkg/memory/jsonl.go:218-439 | over every run with a stop between any two writes the intended history is the end of what is read, and the offset stays in the file |
| SessionRuns.RunIsExact | PinchBot/pkg/memory/jsonl.go:218-439 | over every run in which no rewrite is torn, GetHistory is exactly the intended sequence |
| SessionRuns.SetHistoryRepairs | PinchBot/pkg/memory/jsonl.go:363-400 | after any run a completed SetHistory puts the log back in step with its intent |
| SessionRuns.SummaryStays | PinchBot/pkg/memory/jsonl.go:292-325 | over every run, stopped anywhere, the summary is the last one whose write was made |
| SessionRuns.CountOverRun | PinchBot/pkg/memory/jsonl.go:218-439 | over every run of whole operations the recorded count is the number of lines |
| Migration.MigrateSession | PinchBot/pkg/memory/migration.go:77-104 | the store operations for one file, stopped anywhere, leave a state from which applying the file again reaches the same place |
| Migration.MigrateFromJSON | PinchBot/pkg/memory/migration.go:31-109 | over any directory: a complete run gives the clean store, renames what can be renamed and counts every file; a run stopped anywhere can be completed to the same store if the files that stay in place are harmless; enough writes complete it |
| Migration.MigrateUntilDone | PinchBot/pkg/memory/migration.go:31-109 | after any number of stopped runs a run with enough writes completes, and gives the store of one clean run if those files are harmless |
| Migration.RestartAnywhere | PinchBot/pkg/memory/migration.go:31-109 | the state that a stop leaves, in the middle of any file, leads to the store of a clean run |
| Migration.CleanIs | PinchBot/pkg/memory/migration.go:77-104 | a clean run leaves of each session its last messages and its last summary that is not empty, whatever the directory |
| Migration.CleanReads | PinchBot/pkg/memory/migration.go:77-104 | a clean run gives each session the messages of the last legacy file that names it |
| Migration.LegacyReads | PinchBot/pkg/memory/migration.go:45-104 | a legacy file of this name and content, the last one of its session, is read back from the new store under the key in the file, or under its name without the suffix if there is none, with its messages and its summary |
| Migration.RemainingIs | PinchBot/pkg/memory/migration.go:45-104 | a complete run renames exactly the files that end in ".json", parse and can be renamed, and changes no other |
| Migration.RerunExactly | PinchBot/pkg/memory/migration.go:98-104 | running again after a complete run changes nothing if and only if the files that cannot be renamed say of each session the last messages, and the last summary or none |
| Migration.PairExactly | PinchBot/pkg/memory/migration.go:98-104 | for two files of one session, the first of them in place for good: exactly if they agree on the messages and not on two different summaries |
| Sanitizer.SanitizeHistoryForProvider | PinchBot/pkg/agent/context.go:564-680 | the result is well-formed, a subsequence of the history with every user and plain assistant message, and the history itself exactly if that was well-formed |
| Sanitizer.DropMisplaced | PinchBot/pkg/agent/context.go:564-625 | the first loop, with its walk back over tool messages, is the first pass |
| Sanitizer.DropIncomplete | PinchBot/pkg/agent/context.go:626-680 | the second loop, with its map of expected results, is the second pass |
| History.SanitizedWellFormed | PinchBot/pkg/agent/context.go:564-680 | for every history the result is well-formed |
| History.PassTwoChained | PinchBot/pkg/agent/context.go:626-680 | deleting whole blocks keeps every remaining message where it may stand |
| History.FixedExactly | PinchBot/pkg/agent/context.go:564-680 | a history is left alone if and only if it is well-formed, so sanitizing is idempotent |
| HistoryFacts.WellFormedMeans | PinchBot/pkg/agent/context.go:564-680 | well-formed, message by message: no system message, tool messages in a run headed by a call, calls behind a user or tool message and answered in full |
| HistoryFacts.SanitizedKeeps | PinchBot/pkg/agent/context.go:564-680 | the result is a subsequence, and no plain message is lost |
| HistoryFacts.TruncatedSanitized | PinchBot/pkg/agent/context.go:564-680 | a well-formed history cut at the front sanitizes to its suffix from the next plain message |
| HistoryFacts.CompressedSanitized | PinchBot/pkg/agent/loop.go:2096-2137 | after forceCompression a well-formed history of more than four messages sanitizes to its first message and an exactly given suffix of the second half; a shorter one is left alone |
| HistoryParts.PartsSanitized | PinchBot/pkg/agent/context.go:564-680 | a user or plain assistant message parts any history: each part is sanitized by itself, so a damaged turn costs no other a message |
| HistoryParts.CallSanitized | PinchBot/pkg/agent/context.go:590-680 | within a part a call stays, with all results behind it, if and only if it follows the user and each of its identifiers is answered by one of them; else both go |
| Turns.WrittenFixed | PinchBot/pkg/agent/loop.go:1836-2027 | what the loop writes through completed turns is sent unchanged, and any truncation of it sanitizes to a suffix |
| PromptCache.ContextBuilder.BuildSystemPromptWithCache | PinchBot/pkg/agent/context.go:126-164 | hit or rebuilt, the prompt holds every tracked file that was not created during a build as it was at some moment of the call |
| PromptCache.ContextBuilder.TryCache | PinchBot/pkg/agent/context.go:126-140 | a hit returns the cached prompt, and its texts are those on disk during the check; it is a hit if nothing happened at the tracked paths since the baseline was begun |
| PromptCache.ContextBuilder.BuildCacheBaseline | PinchBot/pkg/agent/context.go:219-264 | existence and times as they were at moments of the walk, and the greatest time, which is one that was seen, or 1 |
| PromptCache.ContextBuilder.FileChangedSince | PinchBot/pkg/agent/context.go:308-324 | reports a change if and only if existence is not as recorded or the time is past the baseline |
| PromptCache.ContextBuilder.SourceFilesChanged | PinchBot/pkg/agent/context.go:273-297 | no change reported: every source file and skill file passed at some moment; a change reported: a tracked path or skill file differed at some moment |
| PromptCache.SourceUnchanged | PinchBot/pkg/agent/context.go:273-331 | for a file that passes the check, cached and present text agree if and only if it was not created between baseline and read |
| PromptCache.SkillUnchanged | PinchBot/pkg/agent/context.go:337-392 | the same for the check on skill files |
| PromptCache.ContextBuilder.IsSkillExactly | PinchBot/pkg/agent/context.go:337-392 | the skill files are the roots and the paths below them |
| PromptCache.CreatedMidBuildGoesStale | PinchBot/pkg/agent/context.go:141-164 | a file created while the prompt is built and removed later stays in the prompt unnoticed |
| Cooldown.StandardCooldownGrows | PinchBot/pkg/providers/cooldown.go:183-191 | 1, 5, 25 minutes, then an hour, never less for more errors |
| Cooldown.BillingCooldownIs | PinchBot/pkg/providers/cooldown.go:198-207 | 5, 10, 20 hours, then a day |
| Cooldown.FailureNeverShortens | PinchBot/pkg/providers/cooldown.go:42-66 | a failure never makes a key available earlier, even across the reset of the window |
| Cooldown.WindowExactly | PinchBot/pkg/providers/cooldown.go:42-66 | for which failure windows that holds: those of at least 19 hours less one nanosecond |
| Cooldown.CooldownBounded | PinchBot/pkg/providers/cooldown.go:86-139 | the remaining time is at most a day, and a standard cooldown ends at most an hour after the failure |
| Cooldown.AvailableMeans | PinchBot/pkg/providers/cooldown.go:86-139 | the two queries agree with each other and with the time the key is available again |
| Cooldown.CooldownTracker.MarkFailure | PinchBot/pkg/providers/cooldown.go:42-66 | the entry of the key is that of one more failure, whose growth Backoff.OutExactly states; all others stay, every entry is sound again and the key in cooldown |
| Backoff.OutExactly | PinchBot/pkg/providers/cooldown.go:42-108 | on a shared tracker, behind failures none of which is more than a day after the one before, of a key that is new, or whose last mark before them is a success or more than a day older: it is available if and only if each of them has waited its time, in minutes by the number of all failures up to it, or in hours by that of those about billing |
| Backoff.StandardExactly | PinchBot/pkg/providers/cooldown.go:42-66 | so with no billing among n failures it is out until exactly 1, 5, 25 or 60 minutes after the n-th |
| Backoff.BillingExactly | PinchBot/pkg/providers/cooldown.go:42-66 | and with nothing but billing until exactly 5, 10, 20 or 24 hours after it |
| Cooldown.CooldownTracker.MarkSuccess | PinchBot/pkg/providers/cooldown.go:69-83 | clears the entry and makes the key available |
| Cooldown.CooldownTracker.IsAvailable | PinchBot/pkg/providers/cooldown.go:86-108 | the availability of the entry |
| Cooldown.CooldownTracker.CooldownRemaining | PinchBot/pkg/providers/cooldown.go:112-139 | between 0 and a day, and 0 exactly when the key is available |
| ModelRefs.KeyTellsLayer | PinchBot/pkg/providers/model_ref.go:36-72 | with provider names without slash the layer is a function of the key |
| ModelRefs.SlashesConfuseLayers | PinchBot/pkg/providers/model_ref.go:70-72 | an instance: with slashes in provider names one key belongs to two layers |
| ModelRefs.ParsedIsPlain | PinchBot/pkg/providers/model_ref.go:14-34 | a parsed reference has a provider without slash, if the default provider has none |
| ModelRefs.ParsesParts | PinchBot/pkg/providers/model_ref.go:14-34 | a reference in two parts is split at its first slash, its provider normalized and its model trimmed; without model it is none |
| ModelRefs.ParsesAgain | PinchBot/pkg/providers/model_ref.go:14-34 | what was parsed parses as the same again, whatever the default provider |
| ModelRefs.NormalizedTwice | PinchBot/pkg/providers/model_ref.go:36-68 | a normal provider name is its own normal form, and none of those that are replaced |
| ModelRefs.KeysAreFamily | PinchBot/pkg/providers/fallback.go:395-408 | two models of a provider that differ in the number behind "__key_" only are of one family, so the second is in the layer of other keys |
| ModelRefs.FamilyOtherwise | PinchBot/pkg/providers/fallback.go:403-408 | any other model name is its own family, apart from case and the spaces around it |
| Layers.BuildLayeredCandidates | PinchBot/pkg/providers/fallback.go:347-393 | one entry per distinct key, the first candidate first and then layer behind layer; each layer in the order of the input if and only if no later copy of a key lies in an earlier layer than its first copy |
| Layers.OrderedExactly | PinchBot/pkg/providers/fallback.go:362-391 | the three passes give that order if and only if that condition holds |
| Layers.DistinctInOrder | PinchBot/pkg/providers/fallback.go:347-393 | it holds for distinct keys, whatever the provider names |
| Layers.PlainInOrder | PinchBot/pkg/providers/fallback.go:347-393 | it holds for provider names without slash, whatever the copies |
| Layers.RepeatedOutOfOrder | PinchBot/pkg/providers/fallback.go:347-393 | an instance: a list that repeats a key in an earlier layer is out of order, and in order the other way round |
| Layers.PassesCover | PinchBot/pkg/providers/fallback.go:347-393 | whatever the names, every key appears exactly once |
| Dedupe.RunPass | PinchBot/pkg/providers/fallback.go:362-391 | the loop of a pass with its set of seen keys |
| Dedupe.PassIsFilter | PinchBot/pkg/providers/fallback.go:362-391 | when passes that share one set of seen keys find what a filter after removal of duplicates finds |
| Dedupe.PassesExactly | PinchBot/pkg/providers/fallback.go:362-391 | three such passes find the distinct elements class by class if and only if no copy overtakes the first of its key |
| Fallback.FallbackChain.TryCandidate | PinchBot/pkg/providers/fallback.go:161-240 | behind a check that found the key available: one or two calls, the first of two a failure that may pass, and the second of them at least 200 ms later behind a timeout, a rate limit or an unknown error; then a success mark and the answer of the last call, a failure mark, or an abort with the outcome that leads to it |
| Fallback.FallbackChain.TryOrSkip | PinchBot/pkg/providers/fallback.go:136-240 | a key in cooldown is skipped without a call or a mark of the run; a request canceled before makes no call, and one canceled meanwhile ends, unless the answer came |
| Fallback.FallbackChain.TryAll | PinchBot/pkg/providers/fallback.go:136-245 | the loop of Execute: a verdict and a piece of trace per key, the result as the last verdict says, the report of all attempts |
| Fallback.FallbackChain.Execute | PinchBot/pkg/providers/fallback.go:122-245 | on a tracker that other runs mark as well: the distinct keys in the order of the layers, the steps for each of one of the shapes of its verdict; an answer is that of the last call and its key is available afterwards; it ends as canceled only for a request that is done, and a canceled one ends so or with an answer, without a call if it was canceled before |
| FallbackOutcomes.OutcomesDecide | PinchBot/pkg/providers/fallback.go:161-245 | a run that is not canceled ends with an answer, with a bad format or with an unclassified error if and only if its last call gave that, else exhausted; every call before failed with a class other than a bad format |
| FallbackOutcomes.TwoFailuresMoveOn | PinchBot/pkg/providers/fallback.go:214-240 | two calls to a key that failed with such a class leave exactly one mark, with the class of the second, and the run goes on to the next key, or is exhausted behind the last |
| FallbackOutcomes.SecondTryRests | PinchBot/pkg/providers/fallback.go:221-237 | the second call to a key comes at least 200 ms after the first if that met a timeout, a rate limit or an unknown error |
| FallbackOutcomes.ReportTells | PinchBot/pkg/providers/fallback.go:142-245 | the report of an exhausted run names each candidate in its layer: once if it was in cooldown, else with both tries and what each failed with |
| FallbackFacts.ExhaustedCools | PinchBot/pkg/providers/fallback.go:122-245 | an exhausted run leaves every key in cooldown at some moment of the run, unless another run marks it as good |
| FallbackFacts.NoCallsInCooldown | PinchBot/pkg/providers/fallback.go:142-159 | while every key stays in cooldown and no other run marks one as good, no provider is called and every key is skipped |
| FallbackFacts.SecondRunQuiet | PinchBot/pkg/providers/fallback.go:122-245 | while no other run marks a key as good: an exhausted run leaves every key a cooldown that ends after the run began, and a second one that is over before the earliest of them ends makes no call |
| FallbackFacts.CallsBounded | PinchBot/pkg/providers/fallback.go:136-240 | no key is called more than twice, and none that is not a candidate, whatever other runs do |
| FallbackFacts.ShapeSteps | PinchBot/pkg/providers/fallback.go:136-240 | the steps for a key begin with its check, all concern it, and hold at most one mark, a failure unless the run ended there |
| FallbackFacts.SettledAlone | PinchBot/pkg/providers/fallback.go:136-240 | on a key that no other run marks a skip changes nothing, two failures count as one mark at a time of the run, an answer clears it |
| FallbackFacts.CallsPermitted | PinchBot/pkg/providers/fallback.go:142-165 | every call to such a key is made while it is available |
| FallbackFacts.CallsAvailable | PinchBot/pkg/providers/fallback.go:142-165 | on a shared tracker every call is made while its key is available, unless another run marked it as failed between the check and the call |
| FallbackFacts.AvailableBehindCheck | PinchBot/pkg/providers/cooldown.go:69-108 | behind a check that found a key available it stays so at every later step while nobody marks it as failed |
| FallbackFacts.AvailableBehindSuccess | PinchBot/pkg/providers/cooldown.go:69-108 | it is available when the last mark before the step is a success |
| FallbackFacts.CooledBehindFailure | PinchBot/pkg/providers/cooldown.go:42-108 | when the last mark before the step is a failure, it is available if and only if the time that this failure leaves has come, and not within its own cooldown |
| Traces.ReplayNeverShortens | PinchBot/pkg/providers/cooldown.go:42-83 | while nobody marks a key as good, no sequence of marks makes it available earlier |
| Fallback.ResolveCandidates | PinchBot/pkg/providers/fallback.go:64-115 | the parsed references, the first of each key, so for every default provider in the order that the layering keeps |
| Fallback.ParsedConcat | PinchBot/pkg/providers/fallback.go:64-115 | the references are looked up and parsed one by one, in order, none depending on another |
| AgentLoop.Agent.RunLLMIteration | PinchBot/pkg/agent/loop.go:1472-2027 | with at least one iteration allowed it ends by an answer, an error or the checkpoint, and by the checkpoint exactly when it gets to the threshold; what it does is a chain of runs of the provider, of which only timeouts (behind 5, then 10 seconds) and overlong contexts (compressed) are repeated, up to twice, and of rounds written behind an answer that names usable tool calls; it ends directly exactly behind an answer that names none, and the session is what the chain leaves or the checkpoint |
| AgentLoop.Agent.CallWithRetries | PinchBot/pkg/agent/loop.go:1600-1678 | one to three runs, each a step of that chain; fewer than three without an answer only for an error of neither repeated class |
| AgentLoop.RoundOfIteration | PinchBot/pkg/agent/loop.go:1771-2027 | the k-th round written is that of iteration k: the text of the answer that the run right before it ended in, all of its usable tool calls in order, and the result of each |
| AgentLoop.RoundHolds | PinchBot/pkg/agent/loop.go:1835-2027 | as messages at the end of the session: the text with the identifiers of all calls, then one result for each, in order |
| AgentLoop.RoundsCounted | PinchBot/pkg/agent/loop.go:1493-2027 | every iteration that is behind has written one round |
| AgentLoop.ProviderCalls | PinchBot/pkg/agent/loop.go:1493-1678 | so at most 6 (T - 1) provider calls per distinct candidate in all, for the threshold T, and none to any other |
| AgentLoop.TurnIsWritten | PinchBot/pkg/agent/loop.go:1310-1345 | a turn run through without compression, with its user message and final text, makes the session again one that is sent unchanged |
| CronModel.EveryRunSpaced | PinchBot/pkg/cron/service.go:173-526 | over every interleaving from any stored list, an "at" job is collected at most once and collections of an "every" job are at least its period apart |
| CronModel.StepSafe | PinchBot/pkg/cron/service.go:173-526 | every single step keeps the invariant behind it |
| CronDue.CollectedOnTime | PinchBot/pkg/cron/service.go:173-337 | over every run of a running service: an enabled "every" job armed at some moment and left alone since is not collected by any check within its period, and by the first check behind it, once |
| CronDue.CollectedAtItsTime | PinchBot/pkg/cron/service.go:173-337 | the same for an "at" job armed ahead of its time |
| CronDue.CheckCollects | PinchBot/pkg/cron/service.go:173-213 | a check collects a job exactly if it is enabled, armed and due, and once; it leaves any other as it is |
| CronDue.StartArms | PinchBot/pkg/cron/service.go:84-109 | starting arms every enabled job from that moment: one period later, at its own time if still ahead, at the next tick, or not at all; other jobs stay |
| CronDue.AddArms | PinchBot/pkg/cron/service.go:408-451 | so is a new job armed, which comes last; it has not run, and is to be deleted behind its run exactly if it is an "at" job |
| CronDue.FinishArms | PinchBot/pkg/cron/service.go:262-302 | so is a job behind its run, but an "at" job is switched off or deleted; the run is recorded, and no other job changes |
| CronDue.SwitchArms | PinchBot/pkg/cron/service.go:499-526 | so is a job switched on, and one switched off is not armed; nothing else changes |
| CronService.CronService.CheckJobs | PinchBot/pkg/cron/service.go:173-213 | collects the due jobs, disarms them and saves, as one step |
| CronService.CronService.FinishJob | PinchBot/pkg/cron/service.go:262-302 | the end of a run re-arms, disables or removes its job, if it still exists |
| CronService.CronService.Start | PinchBot/pkg/cron/service.go:84-109 | reloads the stored list and arms every enabled job anew |
| CronService.CronService.RecomputeNextRuns | PinchBot/pkg/cron/service.go:347-355 | every enabled job is armed from the present time |
| CronService.CronService.Add | PinchBot/pkg/cron/service.go:408-451 | a new job, armed and stored |
| CronService.CronService.RemoveJob | PinchBot/pkg/cron/service.go:470-497 | all jobs of the identifier go, and it says whether there was one |
| CronService.CronService.Enable | PinchBot/pkg/cron/service.go:499-526 | switched on the job is armed from the present time, switched off it is disarmed |
| CronService.CronService.GetNextWake | PinchBot/pkg/cron/service.go:357-367 | the earliest time at which a check finds a job due |
| Aliases.NextAvailableAlias | PinchBot/pkg/launcherui/app_platform.go:704-721 | ends for every set of used names and returns the first free candidate |
| Aliases.FewerLeft | PinchBot/pkg/launcherui/app_platform.go:713-720 | the measure: every candidate found used takes one more used name out of the way |
| Aliases.FirstFreeExact | PinchBot/pkg/launcherui/app_platform.go:704-721 | the candidate found is unused and every earlier one is used |
| OfficialFacts.OneOfficial | PinchBot/pkg/launcherui/app_platform.go:511-628 | with an official model offered or present there is exactly one official entry afterwards, last, under the alias "official"; no other alias equals it ignoring case and space, and no sample is left |
| OfficialFacts.EntriesKept | PinchBot/pkg/launcherui/app_platform.go:529-579 | the user's entries are kept in order with nothing changed but a clashing alias, and no alias given out is shared |
| OfficialFacts.DefaultExists | PinchBot/pkg/launcherui/app_platform.go:735-750 | the new default names an entry |
| OfficialFacts.DefaultStays | PinchBot/pkg/launcherui/app_platform.go:541-628 | a default not called "official" stays exactly if nothing of its name is taken out and the new list has an entry of that name |
| OfficialFacts.DefaultOfAnEntry | PinchBot/pkg/launcherui/app_platform.go:541-628 | so a default that named an entry stays exactly if no entry of its name is official or a sample |
| OfficialFacts.DefaultFollows | PinchBot/pkg/launcherui/app_platform.go:541-579 | a default called "official" goes to the official entry, or follows the first entry renamed, and exactly when |
| OfficialFacts.KindOfSound | PinchBot/pkg/launcherui/app_platform.go:723-798 | neither an alias nor the sync's rewriting changes what kind of entry it is |
| OfficialKinds.FilledInStays | PinchBot/pkg/launcherui/app_platform.go:752-798 | an entry that the user made his own, by a way to log in, a key that does not read like a placeholder, or, without key, a model or address other than the shipped ones, is kept as it is but for a clashing alias |
| OfficialKinds.UntouchedGoes | PinchBot/pkg/launcherui/app_platform.go:752-798 | one without a way to log in that has one of the placeholders as key, or is shipped and has none, is taken out |
| OfficialKinds.OfficialRefExactly | PinchBot/pkg/launcherui/app_platform.go:723-733 | official models are those written "official/" and a name |
| OfficialKinds.ClashesExactly | PinchBot/pkg/launcherui/app_platform.go:541-579 | an alias clashes if and only if it reads "official" in any case, apart from the spaces around it |
| OfficialKinds.OfficialExactly | PinchBot/pkg/launcherui/app_platform.go:511-693 | the new list has an official entry if and only if an enabled one with a name is offered or one was there |
| OfficialKinds.OfficialHolds | PinchBot/pkg/launcherui/app_platform.go:572-685 | it has the address of the platform, no key, proxy or fallbacks, the canonical model if one is offered, and for the rest what the first official entry held before |
| OfficialFacts.PromotesExactly | PinchBot/pkg/launcherui/app_platform.go:735-750 | without samples in the list the round-robin choice among equal names does not matter |
| OfficialSettled.SecondSync | PinchBot/pkg/launcherui/app_platform.go:511-628 | a second sync leaves list and default as they are if and only if the first did not clear the default while the older field still names something |
| OfficialSettled.SampleFallsBack | PinchBot/pkg/launcherui/app_platform.go:609-620 | an instance: one sample that the default names, and the older field set |
| OfficialSettled.ShippedSample | PinchBot/pkg/launcherui/app_platform.go:757-762 | such an entry: the one of the shipped configuration without a key counts as a sample |
| OfficialSync.SyncWith | PinchBot/pkg/launcherui/app_platform.go:511-628 | the two loops compute that list and default; total == old length + added - removed; what is counted as added and updated |
| OfficialSync.SyncOfficialModels | PinchBot/pkg/launcherui/app_platform.go:511-628 | the same for the kinds of entry that the program distinguishes |
| OfficialSync.Scanning | PinchBot/pkg/launcherui/app_platform.go:555-579 | the pass that sorts out the entries, with renames and default in step |
| OfficialSync.ScanCounts | PinchBot/pkg/launcherui/app_platform.go:555-579 | every entry is kept, set aside as official or counted as removed |
| OfficialSync.ShouldPromote | PinchBot/pkg/launcherui/app_platform.go:735-750 | when the default is replaced, with the lookup as the loop that it is |
| LogBuffers.LogBuffer.Append | PinchBot/pkg/launcherui/logbuffer.go:25-36 | adds the line to the log that the ring stands for |
| LogBuffers.LogBuffer.Reset | PinchBot/pkg/launcherui/logbuffer.go:39-46 | empties it and starts a new run |
| LogBuffers.LogBuffer.LinesSince | PinchBot/pkg/launcherui/logbuffer.go:50-83 | for every offset the lines of the whole log from there on, in order, or the last that the ring holds if those are more than its capacity, also across the wrap |
| LogBuffers.SlotIsMod | PinchBot/pkg/launcherui/logbuffer.go:25-83 | the slot of a line, defined by repeated subtraction, is its number modulo the capacity |
| LogPolling.AnsweredExactly | PinchBot/pkg/launcherui/process.go:224-265 | in every reachable state an answer makes the page show the whole run if and only if nothing was missed and the answer reaches back far enough |
| LogPolling.PolledExactly | PinchBot/pkg/launcherui/process.go:224-265 | a request during which lines arrive but no restart happens makes the page show the whole run, also a new one, if and only if it had missed nothing of it and the ring holds what is new to the page |
| LogPolling.NothingMissed | PinchBot/pkg/launcherui/process.go:224-265 | while answers reach back far enough the page shows each line once, in order, over every interleaving |
| LogPolling.MissedForGood | PinchBot/pkg/launcherui/index.html:3038-3089 | a line that was missed stays missed until the next restart |
| LogPolling.RestartBetween | PinchBot/pkg/launcherui/process.go:240-257 | a restart between the two reads of a request costs as many new lines as the old offset counted |
| Media.FileMediaStore.Store | PinchBot/pkg/media/store.go:91-109 | a file that exists is entered in all three maps |
| Media.FileMediaStore.Resolve | PinchBot/pkg/media/store.go:112-135 | resolves exactly the references that the simple map holds |
| Media.FileMediaStore.ReleaseAll | PinchBot/pkg/media/store.go:138-170 | takes exactly the references of the scope out of all three maps and deletes one file per entry |
| Media.FileMediaStore.CleanExpired | PinchBot/pkg/media/store.go:175-220 | takes out exactly the entries older than the limit, and scopes that become empty |
| Media.ResolvesExactly | PinchBot/pkg/media/store.go:91-220 | a reference resolves if and only if it was stored and nothing since released its scope or found it expired |
| Media.LeaveInverse | PinchBot/pkg/media/store.go:190-200 | taking one reference out keeps the scope map the exact inverse, without empty scopes |
| Media.BackedAfter | PinchBot/pkg/media/store.go:158-170 | the entries that stay keep their files if and only if none was stored under the path of one that goes |
| Media.SharedPathDangles | PinchBot/pkg/media/store.go:138-170 | an instance: two references under one path, one of them released |

## Left out

- Splitter.SplitMessage: is called only on texts on which the loop ends, because on the others the program does not return; SplitExact says exactly which those are for maxLen of at least 10; for smaller ones that is not stated.
- SplitFences.Balanced: says nothing about the last chunk, which the program sends as it is.
- SessionRuns.RunIsExact: assumes whole lines, since a line torn in the middle would run into the next append; a garbled line is covered by TruncateExactly and SetHistoryRepairs.
- Store.JSONLStore.GetHistory: does not model I/O errors other than a write that is not made, lines over 10 MB, or the time stamps in the metadata record.
- Migration.MigrateFromJSON: does not model new messages arriving between two runs, nor a legacy directory that is the store's own.
- PromptCache.ContextBuilder.BuildSystemPromptWithCache: the rendering of the prompt is left as a function of the texts read; the daily notes, which the program does not track, are held fixed.
- Fallback.FallbackChain.Execute: each step on the shared tracker is one atomic step; ExecuteImage, the wording of errors and the classification of error texts are not modelled.
- AgentLoop.Agent.RunLLMIteration: what a retry after compression sends is not modelled, since the program resends the messages built before; neither are the fields of messages that the structure does not depend on, nor the branch without a fallback chain, which makes one call.
- CronModel.EveryRunSpaced: does not cover UpdateJob, Load, saves that fail or identifiers that repeat, and is about collections only: that a wake-up arrives is not claimed, since its notification may be dropped.
- OfficialSync.SyncOfficialModels: upper and lower case is that of ASCII; the order in which offered models are sorted is left out because only whether there is one matters; what loading the saved configuration adds from the environment is not part of this model.
- OfficialSettled.SecondSync: takes the configuration as the first sync saved it; loading refuses entries with an empty name and may refill an empty list from the old provider settings, so the half without official models is about the step between load and save.
- LogPolling.NothingMissed: one request at a time, and the display is not cleared by hand.
- Media.FileMediaStore.ReleaseAll: deletes files at once, although the program does so after it has released its lock.
- Summarization of long histories (findNearestUserMessage, summarizeSession).
- Graph memory, whose meaning lies in SQL.
- HTTP handlers, OAuth, the platform client, the tray, the updater, subprocesses and the Node host: I/O over libraries that are not part of this model.
- Shutdown of channels, MCP servers and plugin hosts: the code does not give under full interleaving what its comments suggest.
