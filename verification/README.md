# A verified model of wahabot's chat core

wahabot is a WhatsApp agent. This project models the code that decides which text the model sees and
that keeps each chat's state consistent while many runs interleave, and proves what that code promises.
`dafny verify dfyconfig.toml` checks everything.

| file | what it models |
|---|---|
| `text.dfy`, `sequences.dfy`, `optional.dfy` | strings as Python splits and joins them, subsequences, missing values |
| `records.dfy`, `block_laws.dfy`, `record_blocks.dfy`, `record_round_trip.dfy`, `record_reading.dfy` | the record grammar: printer, parser, when one undoes the other, and what a reader finds |
| `record_cap.dfy`, `record_ledger.dfy`, `ledger_reading.dfy` | the turn cap and its termination; the ledger rewrite and what it says |
| `messages.dfy`, `settling.dfy`, `budget.dfy`, `degrade.dfy`, `json_codec.dfy`, `chat_history.dfy` | repairing, trimming and squeezing a stored history |
| `ordered_dict.dfy`, `async_lock.dfy`, `chat.dfy` | Python's ordered dict, asyncio's FIFO lock with cancellation, the chat key |
| `chat_locks.dfy`, `lock_order.dfy`, `contexts.dfy`, `unsaved_runs.dfy` | the per-chat lock table with eviction; the LRU context table over memory files |
| `serials.dfy`, `serial_lookup.dfy`, `serial_reuse.dfy`, `serial_compaction.dfy` | the serial registry, restarts and compaction |
| `json_line.dfy`, `serial_file.dfy`, `utf8.dfy`, `serial_crash.dfy` | its append-only file: one JSON line, the text, the bytes, a write cut short |
| `json_text.dfy`, `entry_scan.dfy`, `stray_lines.dfy` | what else the JSON decoder accepts, and when a line of an entry is such a text |
| `bursts.dfy`, `recap_merger.dfy`, `recap_batches.dfy`, `recap_forget.dfy` | burst buffers with timers; recap merges, what a batch says, and what forgetting a chat does |
| `ttl_cache.dfy`, `dedup.dfy` | the capped TTL cache and duplicate detection |
| `pinned_state.dfy`, `pinned_content.dfy`, `delivery_guard.dfy`, `speech.dfy` | selection under a budget: pinned block, newer-message refusal, speech chunks |
| `turn_records.dfy` | image slots, record identity and the rendering of a turn |

Loops and objects of the source are methods and classes proved equal to a function of the old state; the
properties are lemmas about those functions. Concurrent code is a step machine: the code between two
awaits is one step, any enabled step may come next, cancellations included, and the main results hold in
every state that a finite run can reach. Tokenizers, the JSON codec of tool calls and results, the
model's answers, the intake store and the clock are parameters about which nothing is assumed beyond what
a lemma states. A record is called plain when its body breaks lines only by line feeds, its flags hold no
pair of colons, and nothing behind its head repeats a head end.

## Where the code and its documentation part

The model follows the code. For each of these the members named give the exact condition under which the
promise holds, or an input at which it fails.

- A record's first body line can shift the parsed serial (`RecordRoundTrip.TurnRoundTripIff`,
  `BodyForgesSerial`): the head pattern is greedy, so a later head end on the same line wins.
- A carriage return in a body breaks its record (`CarriageReturnBreaksRecord`).
- `older[-max(window, 0):]` keeps every older record when the window is 0 or less, so the promise about the
  window needs a positive one, or no older record that only a window could keep (`RecordCap.WindowIsKeptIff`).
- The trimming loop of `cap_turn` ends if and only if the newest live serial is not repeated or the text
  fits in time (`RecordCap.TrimTerminatesIff`, `TwinsRunForever`).
- One pass of `sanitize_chat_history` need not alternate roles (`Settling.SanitizeSettlesIff`,
  `Messages.SanitizeOnceMayNotSettle`), and popping the tail can split a tool group
  (`Settling.SanitizeSplitsIff`, `Messages.SanitizeCanUnbalance`).
- The registry file is written with U+0085, U+2028 and U+2029 unescaped and read with `splitlines()`: an
  entry with one of them in its id, JID or name is lost at the next load (`JsonLine.EntryIsOneLineIff`), and
  an append behind a tail that is not blank is lost as well (`Serials.NextMirrorsIff`). The lost serial is
  then given out again after a restart (`SerialReuse.ConsecutiveIff`, `RestartForgetsIff`).
- Worse, the loader skips only lines that are no JSON at all. When a field holds JSON between two of those
  line ends, say the display name x, U+2028, 5, U+2028, y, every later load of the registry raises
  (`StrayLines.WrittenForeignIff`, `Serials.AppendLoadsIff`, `SerialCrash.PoisonedForGood`).
- A torn tail is not always skipped: a write cut inside a character leaves a file that no load can read,
  though every entry before it is whole (`SerialCrash.CutIsReadableIff`, `CutCost`).
- `SerialStore.assign` raises KeyError for a redelivered message whose line its own compaction drops
  (`Serials.AssignFailsIff`, `SerialCompaction.AssignCanFail`), and compaction forgets ordinals, which can
  then be given to somebody else (`SerialCompaction.OrdinalKeptIff`, `NewOrdinalsAreNewIff`).
- A run that ends before `persist_memory` leaves its changes in the context table only, so they are lost
  when the chat is evicted (`UnsavedRuns.UnsavedChangesAreLost`; `UnsavedRuns.ContextIsLatestIff` says
  exactly when).
- Forgetting a chat neither waits for its recap merges nor clears what is pending, so a recap can come back
  (`RecapForget.ForgetIsFinalIff`).

## Model

| member | source | states |
|---|---|---|
| `Records.RecordSerials` | src/wahabot/ai/records.py:56-62 | Lists the serial of every line that is a record head, in order; ledger lines give none. |
| `Records.SplitBlocks` | src/wahabot/ai/records.py:71-95 | The parser loop yields the blocks of the grammar: a head opens a block with its serial, a ledger line one with its negated serial, continuation and payload lines join the block before. |
| `RecordBlockLaws.OneRound` | src/wahabot/ai/records.py:79-94 | One round of the parser loop adds its line behind all lines before, leaves every block but the last alone, and grows the last one only by a continuation or payload line. |
| `RecordBlockLaws.RecordBlocksLossless` | src/wahabot/ai/records.py:71-95 | For every text: the blocks partition its lines in order, nothing lost or doubled, and each block is an opening line with its tail lines. |
| `RecordBlockLaws.ReparseJoined` | src/wahabot/ai/records.py:71-95 | Joining well-formed blocks and parsing again gives the same blocks, unless the text would end in an empty line. |
| `RecordRoundTrip.TurnRoundTripIff` | src/wahabot/ai/records.py:71-95 | Printing any list of records that carry serials and parsing the turn gives back exactly those records with their serials if and only if each body breaks lines only by line feeds and no later head end shifts the serial. |
| `RecordRoundTrip.KeepsSerialIff` | src/wahabot/ai/records.py:37-40 | Exactly when a printed head line is read with its own serial: the greedy pattern finds no head end behind the label, or one with the same digits. |
| `RecordRoundTrip.HeadLineParses` | src/wahabot/ai/records.py:300-332 | Without a forged head end the parser reads the printed label, digits, kind and rest, for any speaker and flags. |
| `RecordRoundTrip.BodyForgesSerial` | src/wahabot/ai/records.py:287-297 | A first body line that ends in a head end followed by a word takes the serial over, against the promise that it cannot fake an envelope. |
| `RecordRoundTrip.BodyCanForgeSerial` | src/wahabot/ai/records.py:290-294 | A concrete record whose body does so exists. |
| `RecordRoundTrip.CarriageReturnBreaksRecord` | src/wahabot/ai/records.py:295-297 | A carriage return in a body always breaks the record: the escape splits at line feeds, the parser at every line boundary. |
| `RecordRoundTrip.TurnSerials` | src/wahabot/ai/records.py:56-62 | Over a faithful turn the listed serials are exactly those of its records, each once, in order. |
| `RecordRoundTrip.BodyRoundTrip` | src/wahabot/ai/records.py:214-229 | Reading a printed record back recovers its kind and every word of its body, continuation lines included, payload lines excluded. |
| `RecordReading.PrintedLines` | src/wahabot/ai/records.py:287-335 | What stands on each line of a printed record: the head with time, speaker, serial, kind, every flag and the first body line; the other body lines behind `> `; each payload on one line behind its mark. |
| `RecordReading.RecordIsReadBack` | src/wahabot/ai/records.py:37-95 | From the text of a plain record a reader gets back its serial, its time and speaker, its kind, the words of all its flags, the words of its body and all its payloads. |
| `RecordReading.TurnIsReadBack` | src/wahabot/ai/records.py:71-95 | The same for every block of a turn of plain records, in order. |
| `RecordReading.FlagsAreShown` | src/wahabot/ai/records.py:300-332 | The flags a reader finds in the text of such a turn are, word by word, those of its records in order. |
| `RecordCap.SelectBlocksKeeps` | src/wahabot/ai/records.py:130-153 | For every window exactly what selection keeps: a live record of the burst, quoted, last or among the newest window older ones, or any when the window is not positive; a ledger line unless its serial is kept live; every other block. |
| `RecordCap.SelectionIs` | src/wahabot/ai/records.py:98-153 | The same told from the blocks and the text alone: in the burst, the last live record, named behind `quote=#m` or `to: #m` anywhere in the text, or followed by fewer than window live records outside the burst; a ledger line unless its serial is in the burst or a live record of it stays. |
| `RecordCap.ReferencedIff` | src/wahabot/ai/records.py:98-100 | Exactly the serials that stand, with all their digits, behind `quote=#m` or `to: #m` somewhere in the text are quoted. |
| `RecordCap.QuoteIsRead` | src/wahabot/ai/records.py:98-100 | A printed quote or reaction target is read back wherever it stands, unless digits follow. |
| `RecordCap.CapSelects` | src/wahabot/ai/records.py:103-153 | So, told from the text, which blocks cap_turn selects for the serials of the current burst. |
| `RecordCap.WindowIsKeptIff` | src/wahabot/ai/records.py:111-137 | The promise that only the newest window older records are kept holds if and only if the window is positive or every older record is quoted or the last. |
| `RecordCap.OldestCandidateIsOldest` | src/wahabot/ai/records.py:180-186 | The dropped block is the first with the least absolute serial among those that are not the newest live record. |
| `RecordCap.DropOldestStep` | src/wahabot/ai/records.py:171-187 | One drop removes exactly one signed block, never the newest live record, or nothing when only its copies are left. |
| `RecordCap.OldestIsDropped` | src/wahabot/ai/records.py:171-187 | The block that goes is the first with the least absolute serial among the signed ones that are not the newest live record. |
| `RecordCap.DroppedKeeps` | src/wahabot/ai/records.py:171-187 | After any number of drops what is left is a subsequence that still has the newest live record and all unsigned blocks. |
| `RecordCap.TrimBlocks` | src/wahabot/ai/records.py:156-168 | When the loop ends at all, it returns the blocks of the round in which it stops. |
| `RecordCap.TrimTerminatesIff` | src/wahabot/ai/records.py:156-187 | The trimming loop ends if and only if the newest live record occurs once or the text fits before only its copies are left. |
| `RecordCap.TwinsRunForever` | src/wahabot/ai/records.py:103-187 | A turn text that prints one record twice and does not fit keeps cap_turn running for ever, whatever the burst and the window are; for any other text see `RecordCap.TrimTerminatesIff`. |
| `RecordCap.TrimCanRunForever` | src/wahabot/ai/records.py:156-187 | Such a turn text exists. |
| `RecordCap.CapTurn` | src/wahabot/ai/records.py:103-127 | The capped text is the joined blocks left by selection and trimming; a turn without live records is returned unchanged. |
| `RecordCap.CapTurnPromise` | src/wahabot/ai/records.py:103-127 | When it ends: a subsequence of the parsed blocks that keeps the newest selected record, fits the ceiling or has one signed block left, dropped nothing from a text that fitted, and parses to just those blocks. |
| `RecordLedger.LedgerTurn` | src/wahabot/ai/records.py:274-284 | The rewriting loop yields one item for each block that leaves one, joined by line feeds. |
| `RecordLedger.RecordBecomesLedgerLine` | src/wahabot/ai/records.py:190-203 | A record with a well-formed time label becomes one unbroken line that is read as a ledger line of the same serial, whatever its speaker, body and gist are. |
| `RecordLedger.LedgerWordsShape` | src/wahabot/ai/records.py:232-257 | Every gist, mechanical or given, is a non-empty piece of one line. |
| `RecordLedger.LedgerTurnReparses` | src/wahabot/ai/records.py:274-284 | The rewritten turn parses to one ledger line for every live record and every other non-blank block as it was, in order. |
| `RecordLedger.LedgerTurnSerials` | src/wahabot/ai/records.py:65-95 | Each live serial n is parsed back as -n and existing ledger serials stay. |
| `RecordLedger.LedgerTurnIdempotent` | src/wahabot/ai/records.py:274-284 | Rewriting a rewritten turn changes nothing, whatever gist is given the second time. |
| `LedgerReading.LedgerLineSays` | src/wahabot/ai/records.py:190-203 | The ledger line of a plain record is its time, its speaker, the gist and its serial. |
| `LedgerReading.MechanicalGistIs` | src/wahabot/ai/records.py:232-257 | The mechanical gist is the first eight words of the body, with an ellipsis when there are more, within 120 characters; a phrase for a link and for an empty body. |
| `LedgerReading.ReactionGistIs` | src/wahabot/ai/records.py:232-263 | The gist of a reaction says what was reacted with and, when a payload names it, to what. |
| `LedgerReading.LedgerTurnSays` | src/wahabot/ai/records.py:274-284 | A quiet turn of plain records becomes exactly one such line for each, in order; the given gist goes to the newest record alone. |
| `Messages.DeduplicateMessages` | src/wahabot/ai/history/messages.py:79-105 | The merging loop computes the merge of neighbours. |
| `Messages.FusedKeepsKind` | src/wahabot/ai/history/messages.py:108-131 | A merged message keeps its role and its side of the private wrap-up boundary, and never carries tool work. |
| `Messages.FusedKeepsTags` | src/wahabot/ai/history/messages.py:108-145 | It has the text of both and every tag of both, the second's value winning; exactly two plain inbound turns are labelled as merged. |
| `Messages.DeduplicateSettles` | src/wahabot/ai/history/messages.py:79-105 | Afterwards no two neighbours can be merged, and nothing changes exactly when there was no such pair. |
| `Messages.DeduplicateIdempotent` | src/wahabot/ai/history/messages.py:79-105 | Merging twice is merging once. |
| `Messages.DeduplicateKeepsWords` | src/wahabot/ai/history/messages.py:79-131 | No word of any message is lost or reordered. |
| `Messages.DeduplicateKeepsToolWork` | src/wahabot/ai/history/messages.py:79-105 | Tool calls and replies pass through untouched, in order. |
| `Messages.CollectReplies` | src/wahabot/ai/history/messages.py:148-181 | Gathers exactly the run of tool replies that follows. |
| `Messages.ValidateToolGroups` | src/wahabot/ai/history/messages.py:148-181 | The validation loop keeps a calling message with as many replies as calls, and drops incomplete groups and orphans. |
| `Messages.ValidateBalances` | src/wahabot/ai/history/messages.py:148-181 | The result always has balanced tool groups: every call count met by the replies right behind it, no orphan. |
| `Messages.ValidateFixedIffBalanced` | src/wahabot/ai/history/messages.py:148-181 | It changes a history exactly when its tool groups are not balanced. |
| `Messages.ValidateKeepsPlain` | src/wahabot/ai/history/messages.py:148-181 | Only tool work is dropped: every plain message stays, in order. |
| `Messages.TrimHistory` | src/wahabot/ai/history/messages.py:184-214 | The loop pops everything before the first user message and the droppable tail. |
| `Messages.SanitizeChatHistory` | src/wahabot/ai/history/messages.py:232-247 | The repair is merge, validate, then trim both ends. |
| `Messages.SanitizeStartsWithUser` | src/wahabot/ai/history/messages.py:184-247 | A repaired history is empty or opens with a user message. |
| `Messages.SanitizeKeepsMiddle` | src/wahabot/ai/history/messages.py:184-247 | Of the validated messages exactly those from the first user message to the last one that is no scaffolding stay: scaffolding advertises calls or, when asked, is a user turn with none of the three tags of a handled one. |
| `Messages.SanitizeBalancedIff` | src/wahabot/ai/history/messages.py:232-247 | The repair leaves balanced groups exactly when the tail that is popped does not begin with a tool reply. |
| `Settling.SanitizeSplitsIff` | src/wahabot/ai/history/messages.py:184-247 | The same on the merged history, for every one: the repair leaves balanced groups if and only if no tool reply that stays behind the first user message is droppable with every message that stays behind it, while what stays right before it is not. |
| `Messages.SanitizeBalanced` | src/wahabot/ai/history/messages.py:232-247 | In particular it always does when no tool reply itself advertises calls. |
| `Messages.SanitizeCanUnbalance` | src/wahabot/ai/history/messages.py:184-214 | Without that there is a history whose repair leaves a call without its replies. |
| `Messages.SanitizeTwoPasses` | src/wahabot/ai/history/messages.py:232-247 | For every history: the second pass only merges neighbours if and only if the first left balanced groups; then no word is lost, a third pass changes nothing, and the second changed nothing exactly when the first left no pair to merge. |
| `Settling.ValidateKeepsSurvivors` | src/wahabot/ai/history/messages.py:148-181 | Validation keeps exactly the messages that stay: plain ones, calls with enough replies behind them, and the replies such a call is owed. |
| `Settling.SanitizeSettlesIff` | src/wahabot/ai/history/messages.py:232-247 | For every history one pass leaves no two mergeable neighbours if and only if the merged history has no two mergeable messages, inside what both trims keep, with nothing between them but messages that validation drops. |
| `Settling.BalancedSettlesAtOnce` | src/wahabot/ai/history/messages.py:232-247 | One pass is enough for a history with balanced tool groups. |
| `Messages.SanitizeOnceMayNotSettle` | src/wahabot/ai/history/messages.py:237-247 | Without that one pass may leave two mergeable neighbours, against the alternation its documentation promises. |
| `Messages.SanitizeTwiceAlternates` | src/wahabot/ai/history/messages.py:237-247 | After two passes, the first of which left balanced groups, plain neighbours of one role remain only across the private boundary. |
| `Budget.GroupBoundaries` | src/wahabot/ai/history/budget.py:22-36 | The starts of the atomic groups: a message and the replies it owns. |
| `Budget.SplitGroups` | src/wahabot/ai/history/budget.py:39-45 | The groups, whose concatenation is the history. |
| `Budget.NewestWithinBudget` | src/wahabot/ai/history/budget.py:48-65 | The newest suffix of groups found by counting down from the newest. |
| `Budget.FitFromUnique` | src/wahabot/ai/history/budget.py:48-65 | The start it finds is the only one with a fitting suffix that one more group would break. |
| `Budget.LastUserTurn` | src/wahabot/ai/history/budget.py:117-129 | The current query group and the newest groups that fit behind it; that none that fits is lost is `Budget.TrimIsLongest`. |
| `Budget.PopToUser` | src/wahabot/ai/history/budget.py:89-100 | Popping ends at the oldest kept group that a user message leads. |
| `Budget.Trim` | src/wahabot/ai/history/budget.py:68-103 | The whole trim, with its error. |
| `Budget.TrimPromise` | src/wahabot/ai/history/budget.py:68-129 | It fails exactly when the current query with the newest group exceeds the budget; otherwise the result fits, opens with a user message, and holds the last user message and the newest group. |
| `Budget.TrimFailsIff` | src/wahabot/ai/history/budget.py:68-129 | It fails if and only if the newest user-led group together with the newest group is over the budget (or, without any such group, the budget is negative). |
| `Budget.TrimIsLongest` | src/wahabot/ai/history/budget.py:48-129 | What it keeps is the longest user-led suffix of the groups that fits; when none does, the current query and the longest part of what follows it that fits behind it; without a query nothing. |
| `Budget.TrimKeepsWholeGroups` | src/wahabot/ai/history/budget.py:68-103 | The groups of the result are exactly the kept groups of the input, whole and in order. |
| `Budget.TrimKeepsWhatFits` | src/wahabot/ai/history/budget.py:48-103 | A user-led suffix of the groups that fits the budget is kept whole. |
| `Budget.TrimIdempotent` | src/wahabot/ai/history/budget.py:68-129 | Trimming twice with one budget is trimming once. |
| `Budget.TrimMonotone` | src/wahabot/ai/history/budget.py:48-129 | Whenever the smaller budget does not fail, its result is a subsequence of the result for any larger one, also across the switch to the last user turn. |
| `Budget.TrimKeepsBalance` | src/wahabot/ai/history/budget.py:68-103 | A balanced history stays balanced. |
| `Degrade.SqueezeIsFinal` | src/wahabot/ai/history/degrade.py:20-44 | Squeezed call arguments keep every key and are never squeezed again. |
| `Degrade.DegradedBlockIdempotent` | src/wahabot/ai/history/degrade.py:77-107 | Squeezing a call twice is squeezing it once, a repaired call included. |
| `Degrade.DegradedBlockKeepsCall` | src/wahabot/ai/history/degrade.py:47-107 | A call keeps its id, its name and its argument names; one cut down to its reason gets its original arguments back first. |
| `Degrade.CallIsSqueezed` | src/wahabot/ai/history/degrade.py:20-107 | What a call's arguments become: strings of more than 80 characters keep the first 80 and an ellipsis, all else stays, exactly when that makes their JSON at least 32 characters shorter. |
| `Degrade.DegradeMessageIdempotent` | src/wahabot/ai/history/degrade.py:143-198 | Degrading a message twice is degrading it once. |
| `Degrade.DegradeMessageKeepsConversation` | src/wahabot/ai/history/degrade.py:143-173 | Role, tags, call count and, outside tool results, the text stay. |
| `Degrade.ThinkingIsDropped` | src/wahabot/ai/history/degrade.py:143-173 | Of any other message all blocks but the thinking stay, in order, each call squeezed. |
| `Degrade.ToolResultIsCut` | src/wahabot/ai/history/degrade.py:176-198 | A tool result that is a JSON object becomes its seven verdict keys, exactly when that is shorter and not empty; any other stays. |
| `Degrade.VerdictSurvives` | src/wahabot/ai/history/degrade.py:176-198 | A squeezed tool result answers the same for every verdict key. |
| `Degrade.DegradeAt` | src/wahabot/ai/history/degrade.py:110-140 | Message by message: everything from the cutoff on is untouched, everything before is degraded, and the length stays; where the cutoff lies is `Degrade.FreshTurnsStay`. |
| `Degrade.FreshTurnsStay` | src/wahabot/ai/history/degrade.py:110-140 | Counted by user messages: with at most two nothing changes; with more, every message before the second-newest user message is degraded and nothing from it on changes. |
| `Degrade.DegradeCompounds` | src/wahabot/ai/history/degrade.py:110-140 | Degrading what was degraded and then grew equals degrading the grown history at once. |
| `Degrade.DegradeIdempotent` | src/wahabot/ai/history/degrade.py:110-140 | Degrading twice is degrading once. |
| `Degrade.DegradeKeepsOwed` | src/wahabot/ai/history/degrade.py:110-173 | Every prefix owes as many replies as before, so balance is unchanged. |
| `Degrade.DegradeKeepsBoundaries` | src/wahabot/ai/history/degrade.py:110-173 | In a balanced history the atomic groups start where they started. |
| `JsonCodec.LawfulCodecExists` | src/wahabot/ai/history/degrade.py:176-198 | The law asked of the JSON codec, that a dumped verdict loads back, is met by a codec that loads back every value. |
| `ChatHistory.CapLastKeepsBalance` | src/wahabot/ai/history/turn.py:137-176 | Capping the text of a last user turn keeps roles, length and balance. |
| `ChatHistory.CapLastCaps` | src/wahabot/ai/history/turn.py:137-176 | Only the text of a user message at the end is replaced, by its capped form; its tags stay. |
| `ChatHistory.PreparedIsValid` | src/wahabot/ai/workflow/memory_mixin.py:71-116 | For every stored history: preparing a prompt fails exactly when the current query with the newest group exceeds the budget; otherwise the result opens with a user message, fits, is empty only when the repaired history is, and has balanced tool groups when the repaired one has. |
| `AsyncLock.ResumeSound` | src/wahabot/core/runs.py:39-46 | A waiter that runs again, taking the lock or leaving with its cancellation, keeps the queue in order of arrival with at most its first waiter woken and never a free lock whose first waiter sleeps. |
| `AsyncLock.TakenInTurn` | src/wahabot/core/runs.py:71-73 | A woken waiter takes the lock only when nobody holds it, and is the oldest in the queue. |
| `ChatLocks.LockTable.EnterChat` | src/wahabot/core/runs.py:59-72 | Everything up to the first await: pop and reinsert the entry, count the acquisition, evict, take the lock or queue. |
| `ChatLocks.LockTable.EvictIdle` | src/wahabot/core/runs.py:65-70 | The eviction loop over the snapshot of the table. |
| `ChatLocks.LockTable.ResumeWaiter` | src/wahabot/core/runs.py:71-79 | A waiter goes in, or leaves with its cancellation and settles its count. |
| `ChatLocks.LockTable.LeaveChat` | src/wahabot/core/runs.py:71-79 | Release, then the finally clause. |
| `ChatLocks.LockTable.Settle` | src/wahabot/core/runs.py:74-79 | The count goes down by one and no entry stays at zero. |
| `ChatLocks.EvictedKeeps` | src/wahabot/core/runs.py:65-70 | A busy entry survives the loop. |
| `ChatLocks.EvictedBounds` | src/wahabot/core/runs.py:65-70 | The loop ends within the cap or with no idle entry left. |
| `ChatLocks.StepKeepsInv` | src/wahabot/core/runs.py:49-79 | Every step (entering, cancelling, resuming, leaving) keeps the invariant over table, counts, lock objects and acquisitions. |
| `ChatLocks.MutualExclusion` | src/wahabot/core/runs.py:49-79 | In every reachable state at most one acquisition of a chat is inside. |
| `ChatLocks.OneLockPerChat` | src/wahabot/core/runs.py:60-63 | All acquisitions of a chat, waiting or inside, use the lock object its entry names, and different chats never share one. |
| `ChatLocks.PendingIsExact` | src/wahabot/core/runs.py:41-45 | The pending count of a chat is the number of its acquisitions under way. |
| `ChatLocks.NoLostWakeUp` | src/wahabot/core/runs.py:41-45 | A waiting acquisition has somebody inside before it or somebody in its queue that can run. |
| `ChatLocks.WokenInTurn` | src/wahabot/core/runs.py:71-73 | Acquisitions of a chat go inside in order of arrival. |
| `ChatLocks.AtOnceInTurn` | src/wahabot/core/runs.py:71-73 | Taking the lock at once overtakes only cancelled acquisitions. |
| `ChatLocks.LockedHasPending` | src/wahabot/core/runs.py:41-45 | A held lock always has a pending acquisition, so the count alone decides eviction. |
| `ChatLocks.TableBound` | src/wahabot/core/runs.py:53-57 | After every entry the table has at most max(cap, number of busy chats) entries. |
| `LockOrder.EntryOrder` | src/wahabot/core/runs.py:59-70 | The chat that enters moves behind all others and stays; idle entries go oldest first, none while the table is within its cap and no more than the cap asks for; the others keep their order. |
| `LockOrder.AtOnceIff` | src/wahabot/core/runs.py:71-73 | In every reachable state whoever asks gets the lock at once if and only if nobody of the chat is inside and everybody waiting has given up. |
| `LockOrder.CancelledLeaves` | src/wahabot/core/runs.py:71-79 | A cancelled acquisition can run again at once and then leaves with its count settled, never inside. |
| `Contexts.ContextTable.Find` | src/wahabot/core/runs.py:95-100 | On a hit the entry moves to the end and the object is returned; on a miss the file has been read and nothing changed. |
| `Contexts.ContextTable.Add` | src/wahabot/core/runs.py:98-112 | A new object with the memory that was read enters the table, which is brought back within its cap. |
| `Contexts.ContextTable.EvictOldest` | src/wahabot/core/runs.py:109-111 | The oldest entries go until the cap is met. |
| `Contexts.ContextTable.PersistMemory` | src/wahabot/core/runs.py:115-129 | The file gets the context's memory, unless persistence is off, the chat has no file or there is no memory. |
| `Contexts.ContextTable.ForgetChat` | src/wahabot/handlers/registration.py:71-73 | Entry and file are gone. |
| `Contexts.StepKeepsInv` | src/wahabot/core/runs.py:82-129 | Every step of every run keeps: a chat's entry is its own object with its live memory, a run past the lookup owns its object even when evicted, a loading run carries what the file says. |
| `Contexts.LookupIsExact` | src/wahabot/core/runs.py:96-112 | In every reachable state a lookup hands out the live memory on a hit and the file's on a miss. |
| `Contexts.FileChanges` | src/wahabot/core/runs.py:115-129 | Only the end of a run and a forget touch files, and only their chat's: the former writes the run's memory when persistence is on, the chat may have a file and there is a memory. |
| `Contexts.ContextIsLatest` | src/wahabot/core/runs.py:82-129 | With persistence on and every run of the chat ending in persist_memory, any run that has its context sees the last memory written since the last forget. |
| `Contexts.OrderlyKeepsTidy` | src/wahabot/core/runs.py:115-129 | Between such runs the file says what the newest context holds. |
| `Contexts.StepIsPlain` | src/wahabot/handlers/registration.py:71-73 | Only a write and a forget change what a chat remembers; evictions, reloads and other chats do not. |
| `Contexts.HitWithinCap` | src/wahabot/core/runs.py:108-112 | After a hit the table is within its cap with this chat the last to be dropped. |
| `Contexts.MissWithinCap` | src/wahabot/core/runs.py:108-112 | After a miss the table is within its cap with this chat the last to be dropped. |
| `Contexts.NewestEntriesStay` | src/wahabot/core/runs.py:98-112 | A run that gets its context leaves the newest entries, at most as many as the cap, in their order, its own chat's behind all others. |
| `UnsavedRuns.UnsavedChangesAreLost` | src/wahabot/core/runs.py:100-129 | On the failing side: a reachable run whose changes, whatever they were, are lost. It ends before persist_memory, another chat evicts its context, and the next run starts from the file. |
| `UnsavedRuns.StepIsPlainIff` | src/wahabot/core/runs.py:95-129 | Without any such hypothesis: a step departs from a plain map from chats to memories exactly when it enters the table a context read from a file that says something else than the chat's newest one. |
| `UnsavedRuns.ContextIsLatestIff` | src/wahabot/core/runs.py:82-129 | Over any run from any files: a run that has its context sees the last memory written since the last forget if and only if no such step of its chat came after the last write or forget. |
| `OrderedDict.TrimmedKeepsNewest` | src/wahabot/core/runs.py:109-111 | Dropping the oldest keeps exactly the newest entries, in order. |
| `Serials.SerialRegistry.LoadFile` | src/wahabot/ai/serials.py:74-100 | Reads the file once, line by line; fails at the first line that is JSON without being an entry, with the entries before it in memory and the registry not loaded. |
| `Serials.SerialRegistry.AddEntry` | src/wahabot/ai/serials.py:93-106 | Folds one entry into all maps. |
| `Serials.SerialRegistry.NextSerial` | src/wahabot/ai/serials.py:136-159 | The existing serial, or a new one entered in the maps and appended to the file; nothing where the load raises. |
| `Serials.SerialRegistry.OrdinalOf` | src/wahabot/ai/serials.py:108-119 | The sender's ordinal, allocated once; nothing where the load raises. |
| `Serials.SerialRegistry.CompactFile` | src/wahabot/ai/serials.py:204-245 | Rewrites the newest lines and forgets the maps, or does nothing. |
| `Serials.SerialRegistry.ResolveToken` | src/wahabot/ai/serials.py:189-196 | The entry a token names, or none; a failure where the load raises. |
| `Serials.SerialRegistry.SerialOf` | src/wahabot/ai/serials.py:161-168 | The serial by full id, then by short id, then 0; a failure where the load raises. |
| `Serials.SerialRegistry.AssignSerial` | src/wahabot/ai/serials.py:266-282 | assign, with the KeyError and a load that raises as two faults. |
| `Serials.KeyOfEveryShape` | src/wahabot/core/identity.py:66-77 | Every shape of one message's id has the same key. |
| `Serials.NextMirrorsIff` | src/wahabot/ai/serials.py:136-187 | Memory still equals a replay of the file after `next` exactly when nothing was written, because the load raised or the message was known, or the file ended in nothing but white space and no field of the entry holds a character that only the loader takes for a line end. |
| `Serials.NextPromise` | src/wahabot/ai/serials.py:136-159 | A known message keeps its serial and changes nothing; a new one gets the next, unused serial and only its own map entries. |
| `Serials.FreshMessageIsFound` | src/wahabot/ai/serials.py:161-196 | A new message is found by its token, its full id and every id with the same short id; a redelivery gets the same serial. |
| `SerialLookup.FoundByFullIdFirst` | src/wahabot/ai/serials.py:161-168 | Told from the lines of the file: a message is found by the latest line with its full id, failing that by the latest with its short id, and otherwise not at all. |
| `SerialLookup.TokenNamesIff` | src/wahabot/ai/serials.py:189-196 | A token names an entry if and only if it is the mark with the entry's number and the entry has a line. |
| `Serials.SerialsNeverReused` | src/wahabot/ai/serials.py:136-245 | Over any run of ingests without stray line ends, ordinal requests, compactions and restarts serials are consecutive, so never reused, and memory equals a replay of the file. |
| `SerialReuse.ConsecutiveIff` | src/wahabot/ai/serials.py:74-245 | For every run of any messages, ordinal requests, compactions and restarts, from any file: the serials given out go on without a gap from the greatest known one, so none is used again, if and only if no new message comes behind a step that left the registry with a smaller greatest serial. |
| `SerialReuse.StepKnows` | src/wahabot/ai/serials.py:74-245 | Every step gives out just the next serial, and only a restart or a compaction can forget one. |
| `SerialReuse.RestartForgetsIff` | src/wahabot/ai/serials.py:136-187 | A restart behind a new message forgets its serial if and only if the file did not end in white space or a field of the entry holds a stray line end. |
| `SerialReuse.LostSerialIsReused` | src/wahabot/ai/serials.py:136-187 | Then the next new message gets that same serial, when the file ended in white space and still loads. |
| `Serials.RestartReadsTheSame` | src/wahabot/ai/serials.py:74-106 | A restart reads the same entries, indexes and last serial. |
| `Serials.CompactKeepsNewest` | src/wahabot/ai/serials.py:204-221 | Exactly the newest entries stay, unchanged, with the last serial; keep = 0 keeps all. |
| `Serials.OrdinalForKeepsInv` | src/wahabot/ai/serials.py:108-119 | An ordinal request changes no file, and a new ordinal is nobody else's. |
| `Serials.AssignFailsIff` | src/wahabot/ai/serials.py:266-282 | assign fails exactly for a message seen before whose line the compaction it triggers drops: the last serial is a multiple of 500 and 2000 newer lines follow. |
| `SerialLookup.AssignGives` | src/wahabot/ai/serials.py:266-282 | When it does not fail it answers the message's own entry, the one on file or a new one behind the last serial; when the last serial is a multiple of 500 only the newest 2000 lines are left, otherwise all. |
| `SerialCompaction.AssignCanFail` | src/wahabot/ai/serials.py:266-282 | It does so in a reachable state: 2500 messages numbered by `next`, then a redelivery of the first. |
| `JsonLine.DecodesIff` | src/wahabot/ai/serials.py:84-100 | Exactly the texts the writer gives to entries, white space around them aside, are read as entries. |
| `JsonLine.EntryTextsApart` | src/wahabot/ai/serials.py:170-182 | No entry's text begins another entry's text: the writer is injective and a cut text is no entry. |
| `JsonLine.EntryOpensOnce` | src/wahabot/ai/serials.py:170-182 | The head of an entry occurs in its text at the start only, whatever its fields hold. |
| `JsonLine.EntryIsOneLineIff` | src/wahabot/ai/serials.py:80-182 | Of the line ends that splitlines knows only U+0085, U+2028 and U+2029 survive the escape: a written entry is one line exactly when no field holds one of them. |
| `SerialFile.EntryIsWritten` | src/wahabot/ai/serials.py:170-187 | Such an entry makes one line with what the file ends in: it is read back behind a blank tail, and behind any other tail it is not. |
| `SerialFile.StrayEntryIsLost` | src/wahabot/ai/serials.py:170-187 | Any other entry is written as lines of which none is an entry. |
| `Serials.AppendReplays` | src/wahabot/ai/serials.py:74-187 | What a restart that does not raise reads behind a write, for any file and entry; a tail that is not blank is lost with the entry behind it. |
| `EntryScan.CutIsNoJson` | src/wahabot/ai/serials.py:84-91 | No proper beginning of an entry's text is JSON, so a torn entry is skipped and never raises. |
| `EntryScan.EntryBehindIsNoJson` | src/wahabot/ai/serials.py:84-91 | Behind anything that is not white space an entry's text, or a beginning of one, is not JSON either, so a write behind a torn tail never raises. |
| `EntryScan.CrossingIsNoJson` | src/wahabot/ai/serials.py:170-182 | A piece of an entry's text that runs from inside one field into the next key is not JSON. |
| `JsonText.JsonScans` | src/wahabot/ai/serials.py:88-91 | Every text the JSON decoder accepts passes one reading from left to right that tracks open brackets and strings, which the three results above refute. |
| `StrayLines.WrittenForeignIff` | src/wahabot/ai/serials.py:74-187 | For every file and entry: a write adds a line at which the loader raises if and only if some field holds, between two of its stray line ends, a piece that is JSON as written. |
| `StrayLines.ForeignPieceHasNoKey` | src/wahabot/ai/serials.py:84-100 | Such a piece holds no string, so it is never an object with the keys of an entry: the loader always raises at it. |
| `StrayLines.PoisonedName` | src/wahabot/ai/serials.py:84-100 | The display name x, U+2028, 5, U+2028, y is such a field. |
| `Serials.AppendLoadsIff` | src/wahabot/ai/serials.py:74-187 | A load gets through the file after a write if and only if it gets through the terminated lines and the entry is no such one. |
| `Serials.PoisonStays` | src/wahabot/ai/serials.py:74-100 | Whatever is written behind such an entry, every later load raises. |
| `Utf8.CutIsDecodableIff` | src/wahabot/ai/serials.py:80 | A text followed by the beginning of another can be decoded exactly when the cut falls between two characters; nothing written behind a half character mends it. |
| `SerialCrash.CutIsReadableIff` | src/wahabot/ai/serials.py:74-100 | For every cut of a write, at any byte, behind any file: a fresh process can load the file if and only if the cut falls between two characters, the file could be loaded before, and no line of what was written is JSON of another kind. |
| `SerialCrash.HarmlessIff` | src/wahabot/ai/serials.py:74-187 | The last condition always holds for an entry without stray line ends, and for a whole entry exactly when it is not poisonous. |
| `SerialCrash.HalfCharacterStays` | src/wahabot/ai/serials.py:80 | Behind half a character every later load raises, whatever entries are written behind it. |
| `SerialCrash.PoisonedForGood` | src/wahabot/ai/serials.py:74-100 | A poisonous entry leaves bytes that no fresh process can load, whatever is written behind it. |
| `SerialCrash.PoisonedRegistry` | src/wahabot/ai/serials.py:84-100 | In particular one display name does so to any registry. |
| `SerialCrash.CutCost` | src/wahabot/ai/serials.py:74-106 | After a restart that does not raise everything before the write is there, and the entry itself exactly when it is one line and at most its line feed is missing. |
| `SerialCrash.NextWriteReplays` | src/wahabot/ai/serials.py:170-187 | The write after a cut is lost unless nothing or all of the cut entry was written, and an entry that lacks only its line feed is lost with it. |
| `SerialCrash.UnreadableCutExists` | src/wahabot/ai/serials.py:181-185 | One letter beyond ASCII in a name is enough for a cut that makes the file unreadable. |
| `SerialCompaction.OrdinalKeptIff` | src/wahabot/ai/serials.py:204-245 | A member keeps its ordinal over a compaction if and only if the first kept line that carries one for it carries that one. |
| `SerialCompaction.RunKeepsConsistent` | src/wahabot/ai/serials.py:108-159 | Over any run all lines of a member that carry an ordinal carry the same one. |
| `SerialCompaction.NewOrdinalsAreNewIff` | src/wahabot/ai/serials.py:204-245 | After a compaction no new ordinal is one that a known member had if and only if none was handed out before or a kept line carries the greatest one. |
| `SerialCompaction.StrangerGets` | src/wahabot/ai/serials.py:108-119 | The next stranger gets the ordinal one behind the greatest kept one: above every kept one, and one behind some member's when any was kept. |
| `SerialCompaction.OrdinalsMayBeReused` | src/wahabot/ai/serials.py:236-245 | A reachable registry where that is the ordinal of another member. |
| `Bursts.BurstTable.AddMessage` | src/wahabot/ai/bursts.py:53-78 | Buffers the id, replaces the timer, due at the end of the inactivity window or of the hold cap. |
| `Bursts.BurstTable.FlushLater` | src/wahabot/ai/bursts.py:84-102 | A timer that is not the registered one returns; otherwise the buffer is completed. |
| `Bursts.StepKeepsInv` | src/wahabot/ai/bursts.py:53-102 | Every add and every timer keeps: a buffer and its registered timer come and go together, with the exact due time. |
| `Bursts.NothingLostNothingTwice` | src/wahabot/ai/bursts.py:53-102 | For every key the completed buffers and the open one hold exactly the accepted ids, each once, in order of arrival. |
| `Bursts.OpenBufferHasItsTimer` | src/wahabot/ai/bursts.py:63-70 | Every open buffer has one registered timer of its own, due no later than the hold cap or its latest message. |
| `Bursts.OnlyTheRegisteredTimerFlushes` | src/wahabot/ai/bursts.py:84-92 | A superseded timer changes nothing, even if its cancellation comes too late. |
| `Bursts.NoEarlyFlush` | src/wahabot/ai/bursts.py:63-64 | A buffer is completed only after the inactivity window or the hold cap. |
| `RecapMerger.Merger.ScheduleDropped` | src/wahabot/core/learned.py:233-240 | Appends the text to the chat's batch and keeps its last 16000 characters; what that keeps is `RecapBatches.BatchKeepsBoth`. |
| `RecapMerger.Merger.TakeBatch` | src/wahabot/core/learned.py:256-274 | Takes the batch of the chat that came last and takes or queues for its merge lock. |
| `RecapMerger.Merger.ResumeBatch` | src/wahabot/core/learned.py:258-277 | The lock is taken and the recap read, or the cancelled batch is gone. |
| `RecapMerger.Merger.FinishBatch` | src/wahabot/core/learned.py:276-296 | A non-empty answer is saved, anything else drops the batch; the lock is released. |
| `RecapMerger.NewestTextStays` | src/wahabot/core/learned.py:238-240 | A batch is at most 16000 characters and ends with the newest text, which is cut only when it alone is longer. |
| `RecapMerger.StepKeepsInv` | src/wahabot/core/learned.py:233-296 | Every step keeps the invariants of locks, order, reads and batches. |
| `RecapMerger.EveryTextOnce` | src/wahabot/core/learned.py:233-266 | Every scheduled text is in exactly one batch of its chat or pending, in order, and every batch ends exactly once. |
| `RecapBatches.BatchKeepsBoth` | src/wahabot/core/learned.py:233-240 | Scheduling behind a pending text keeps every word of both while they fit the limit together; otherwise the batch is exactly their last 16000 characters. |
| `RecapBatches.EveryWordIsMerged` | src/wahabot/core/learned.py:233-266 | In every reachable state what is pending for a chat, and what a job merges, says the newest words of the texts scheduled for it in order, of the first perhaps only the end, and all of them when they fit the limit. |
| `RecapMerger.LastChatFirst` | src/wahabot/core/learned.py:233-257 | A chat keeps its place among the pending ones when more is scheduled for it, a new one goes behind them, and a worker takes the last with its whole batch. |
| `RecapMerger.RecapChanges` | src/wahabot/core/learned.py:276-296 | Only a merge with a non-empty answer for a chat that may have a file, and a forget, change what is on file, and only for their chat. |
| `RecapMerger.OneAtATimeInOrder` | src/wahabot/core/learned.py:246-266 | Merges of one chat never overlap and go in the order in which their batches were taken. |
| `RecapMerger.MergeReplacesWhatItRead` | src/wahabot/core/learned.py:276-296 | A merge that saves replaces the recap it read, unless the chat was forgotten meanwhile. |
| `RecapForget.ForgetIsFinalIff` | src/wahabot/handlers/registration.py:53-78 | In every reachable state: after a forget the recap stays away in every continuation without new text if and only if the merger held no pending text and no live job of the chat, or never writes for it. |
| `RecapForget.StepKeepsGone` | src/wahabot/handlers/registration.py:71-78 | A chat without recap, pending text and live jobs stays without over every step that schedules nothing for it. |
| `RecapMerger.ForgottenRecapReturns` | src/wahabot/handlers/registration.py:71-74 | In particular a merge under way when its chat is forgotten brings a recap back, against the promise of no resurrection. |
| `TtlCaches.TtlCache.Get` | src/wahabot/core/cache.py:33-42 | The live value, or none with an expired entry dropped. |
| `TtlCaches.TtlCache.Put` | src/wahabot/core/cache.py:44-48 | The oldest entries make room, then the entry is set. |
| `TtlCaches.TtlCache.Drop` | src/wahabot/core/cache.py:50-52 | The entry is gone. |
| `Dedup.CheckSeen` | src/wahabot/handlers/dedup.py:15-25 | Answers whether the id is marked and alive, and marks it otherwise. |
| `Dedup.ForgetSeen` | src/wahabot/handlers/dedup.py:28-30 | The mark is gone. |
| `Dedup.DetectionIsExact` | src/wahabot/handlers/dedup.py:15-30 | It says yes only for an id marked within the time to live and not forgotten, and for every such id after which fewer than cap distinct other ids were marked; the cache never exceeds its cap. |
| `Dedup.PushedOut` | src/wahabot/core/cache.py:44-48 | An entry that makes room for another id has been followed by at least cap distinct ids, that one included. |
| `PinnedState.MergeNotes` | src/wahabot/ai/pinned_state.py:427-436 | The first note of every key, required ones first. |
| `PinnedState.MergedNotes` | src/wahabot/ai/pinned_state.py:427-436 | A subsequence with each key once and no key missing. |
| `PinnedState.RequiredFirst` | src/wahabot/ai/pinned_state.py:427-436 | A required note is never displaced. |
| `PinnedState.SelectFitting` | src/wahabot/ai/pinned_state.py:439-457 | The selection loop over whole notes. |
| `PinnedState.FitNotesFits` | src/wahabot/ai/pinned_state.py:439-457 | The selected notes are a subsequence and fit the budget, for any tokenizer. |
| `PinnedContent.EveryNoteIsTried` | src/wahabot/ai/pinned_state.py:439-457 | Seen from any note: it is kept exactly when it fits behind those kept before it. |
| `PinnedContent.FittingNotesStay` | src/wahabot/ai/pinned_state.py:439-457 | For a monotone tokenizer notes that fit together are all kept. |
| `PinnedState.NotesCannotForge` | src/wahabot/ai/pinned_state.py:410-424 | The notes section is its heading and one bullet line for each note, whatever the notes contain. |
| `PinnedState.RenderFits` | src/wahabot/ai/pinned_state.py:69-190 | A rendered block leaves the prompt within its budget, for any tokenizer. |
| `PinnedState.KeptNotesAreNotes` | src/wahabot/ai/pinned_state.py:150-167 | The kept notes are whole notes of the request in order. |
| `PinnedState.ErrorIsAuthoritative` | src/wahabot/ai/pinned_state.py:69-225 | The error means that the prefix and the undroppable sections are over budget: notes, recap and recall never cause it. |
| `PinnedState.FailsIff` | src/wahabot/ai/pinned_state.py:69-225 | For a monotone tokenizer that is exactly when it fails, unless there is neither such a section nor a note. |
| `PinnedState.RecallGoesFirst` | src/wahabot/ai/pinned_state.py:198-225 | The recap is dropped only after the recall, for a monotone tokenizer. |
| `PinnedContent.RenderedIs` | src/wahabot/ai/pinned_state.py:69-225 | A rendered block is the sections, the notes that fit behind them and the leads; the recap is missing only when the block with it is over the budget, the leads only when the block with them is. For any tokenizer. |
| `PinnedContent.EmptyMeansNothing` | src/wahabot/ai/pinned_state.py:69-130 | Nothing is rendered only when there is neither a note nor an authoritative section. |
| `PinnedContent.UndroppableIsShown` | src/wahabot/ai/pinned_state.py:69-190 | Policies, chat rules, the ticket and the session rules stand whole in every rendered block. |
| `PinnedContent.RecapIsBulleted` | src/wahabot/ai/pinned_state.py:380-408 | A recap has its section exactly when a line of it is not blank, with a bullet for each such line; so have the leads. |
| `DeliveryGuard.GuardSelection` | src/wahabot/ai/tools/runcontext.py:208-219 | The loop from the newest record selects the unique longest suffix within the budget, or the newest alone. |
| `DeliveryGuard.SelectionIsUnique` | src/wahabot/ai/tools/runcontext.py:202-219 | Only one selection fits while one record more would not. |
| `DeliveryGuard.NothingHiddenIff` | src/wahabot/ai/tools/runcontext.py:237-245 | A refusal shows every claimed record in full exactly when it is not a lone record over the budget. |
| `DeliveryGuard.GuardKeepsClaims` | src/wahabot/ai/tools/runcontext.py:222-296 | A check claims only fresh, granted ids that it shows, and nothing while a refusal stands. |
| `DeliveryGuard.GuardRefusesIff` | src/wahabot/ai/tools/runcontext.py:222-296 | A live target without a standing refusal is refused if and only if a claim was granted among the newest pending, addressed, fresh rows that fit 1200 characters; it then shows exactly those granted, leaves the other newer rows, and moves the anchor to the newest shown unless that is older. Otherwise nothing changes. |
| `DeliveryGuard.AllGrantedShowsNewest` | src/wahabot/ai/tools/runcontext.py:202-270 | With every claim granted the newest rows that fit are all shown, the very newest last. |
| `DeliveryGuard.GuardPasses` | src/wahabot/ai/tools/runcontext.py:273-285 | Operator runs, armed runs and turns without intake ids are never refused; behind a refusal every further send of the round is. |
| `DeliveryGuard.ClaimsStayApart` | src/wahabot/ai/tools/runcontext.py:248-296 | Over any run claimed ids stay distinct and apart from the turn's own. |
| `DeliveryGuard.RunTarget.RefuseNewer` | src/wahabot/ai/tools/runcontext.py:248-270 | Claims, latches and anchors. |
| `DeliveryGuard.RunTarget.CheckDelivery` | src/wahabot/ai/tools/runcontext.py:273-296 | The guard with its early exits; what it answers is `DeliveryGuard.GuardRefusesIff`. |
| `Speech.SentencesKeepWords` | src/wahabot/core/tts.py:32-40 | Cutting into sentences keeps every word. |
| `Speech.CutAtEveryEnd` | src/wahabot/core/tts.py:32-40 | A text is cut behind every end mark that white space follows, and nowhere else. |
| `Speech.PackIsPacking` | src/wahabot/core/tts.py:36-73 | A packing keeps the pieces in order, puts several together only within the limit, and starts a chunk only with a piece that would not have fitted the one before. |
| `Speech.PackingIsUnique` | src/wahabot/core/tts.py:36-73 | No other cut does so. |
| `Speech.SplitLongSentence` | src/wahabot/core/tts.py:60-73 | Every word once, in order; a chunk is within the limit or one word; the chunks are the packing of its words. |
| `Speech.SplitForSpeech` | src/wahabot/core/tts.py:36-57 | The same for a whole text, with no chunk exactly for a blank one; the chunks are the packing of its sentences, one over the limit packed word by word. |
| `TurnRecords.Slots.TakeImages` | src/wahabot/ai/turn_records.py:83-87 | Reserves a run of slots and returns its first. |
| `TurnRecords.MediaParts` | src/wahabot/ai/turn_records.py:339-368 | The flags of one entry and the counters after it. |
| `TurnRecords.MediaFlagsName` | src/wahabot/ai/turn_records.py:346-364 | The flags of an entry, read back, name exactly the next slots. |
| `TurnRecords.SlotsAreContiguous` | src/wahabot/ai/turn_records.py:75-97 | Across a turn, albums and omitted images included, the slots named are 1, 2, 3 and so on, each once, in order of arrival. |
| `TurnRecords.SlotsAreShown` | src/wahabot/ai/turn_records.py:75-97 | The image slots that a reader finds in the text of a turn of plain records are 1, 2, 3 and so on, each once, in order of arrival. |
| `TurnRecords.VideoIsFlagged` | src/wahabot/ai/turn_records.py:339-345 | A video has its flag in front of the images, numbered in its own count. |
| `TurnRecords.ResolveIdentity` | src/wahabot/ai/turn_records.py:371-396 | Serial, name and ordinal of a record, with the registry after it; nothing where the registry cannot be loaded. |
| `TurnRecords.SerialIsPositive` | src/wahabot/ai/turn_records.py:371-396 | Every record gets a serial. |
| `TurnRecords.ResolveIsStable` | src/wahabot/ai/turn_records.py:378-396 | Rendering a message again shows the same name, ordinal and serial and changes nothing. |
| `TurnRecords.IdentitySurvivesRestart` | src/wahabot/ai/turn_records.py:378-425 | A message keeps its serial, name and ordinal over a restart. |
| `TurnRecords.NameIs` | src/wahabot/ai/turn_records.py:371-396 | The name of a record is the event's, else the roster's, else the stored one; only a nameless member who is not the operator gets an ordinal, the stored one if there is one. |
| `TurnRecords.RenderEntries` | src/wahabot/ai/turn_records.py:468-487 | The text and the serials of a turn, or nothing where the registry cannot be loaded. |
| `TurnRecords.EntryIsShown` | src/wahabot/ai/turn_records.py:425-487 | Entry by entry the text of a turn of plain records reads as the entry's record: its time, who wrote it, its serial, kind, flags, body and payloads. |
| `TurnRecords.SerialsMatchText` | src/wahabot/ai/turn_records.py:468-487 | The reported serials are the ones a reader finds in the text, when every record is faithful. |

## Left out

- RecordRoundTrip.TurnRoundTripIff: speaks of records with a serial; a record printed with serial 0 has no token to read back.
- RecordRoundTrip.BodyRoundTrip: needs flags without a pair of colons, which no flag the renderer writes contains.
- RecordReading.RecordIsReadBack: for plain records; of the others `RecordRoundTrip.TurnRoundTripIff` says which keep their blocks and serials.
- RecordLedger.LedgerTurnReparses: for records whose labels open with a time as the renderer writes it; any other label makes a line the ledger pattern does not match.
- RecordCap.TrimBlocks: is called only where the loop ends; when it does is `RecordCap.TrimTerminatesIff`.
- ChatHistory.PreparedIsValid: the turn cap is an arbitrary function of the last message (`RecordCap.CapTurn` is the real one), and the pinned block shows only in the budget that is left.
- Messages.SanitizeBalanced: a sufficient condition only; the exact one is `Messages.SanitizeBalancedIff`.
- Messages.ValidateToolGroups: like the source it counts replies and does not pair them with call ids.
- Contexts.ContextIsLatest: a sufficient condition only; the exact one is `UnsavedRuns.ContextIsLatestIff`. Saves and loads of memory files succeed; unreadable, corrupt and wrong-version files are not modelled.
- ChatLocks.LockTable.EnterChat: lock objects are values in a numbered heap rather than objects of a class, so that two acquisitions share one is a statement about numbers.
- Serials.SerialsNeverReused: for messages without stray line ends (`SerialReuse.ConsecutiveIff` is for any); the ordinal passed along is the one the registry gave, as its caller does, and no write is cut short: `SerialCrash.CutIsReadableIff`, `CutCost` and `NextWriteReplays` say what a cut costs.
- JsonLine.DecodesIff: a line is an entry when it is the text the writer gives one; a JSON object laid out otherwise counts as one at which the loader raises, though the source reads it when it has the keys. By `StrayLines.ForeignPieceHasNoKey` no piece of a written entry is such an object.
- JsonText.JsonScans: the decoder's limits on nesting depth and on the digits of an integer are not modelled.
- SerialCrash.CutIsReadableIff: undecodable bytes are not a state of the registry machine, whose files are texts; foreign lines are.
- Degrade.DegradeMessageIdempotent: needs that the verdict of a loaded object, dumped, loads back; `JsonCodec.LawfulCodecExists` shows that this can be met.
- Bursts.NothingLostNothingTwice: `reset` and the branch without a running event loop are not steps of the model.
- RecapMerger.MergeReplacesWhatItRead: the token cap of a stored recap is an arbitrary function; the optional semaphore only delays a merge.
- DeliveryGuard.RunTarget.CheckDelivery: the intake store's listing and its claim call are parameters; binding the intake ids for crash recovery is not modelled.
- TurnRecords.MediaParts: flags and slots only; payload lines and image blocks are not modelled.
- TurnRecords.RenderEntries: document, quote, reaction, mention and transcript parts are given, not computed.
- Dedup.DetectionIsExact: the clock does not run backwards; `is_stale` is a plain comparison.
- `\d` and `str.isdigit` beyond the ten ASCII digits, case folding and Unicode normalisation.
- The order of keys inside JSON objects, and `tool_calls` values that are not arrays.
- `albums.py`, `capped_recap`'s bound, `dedupe_recall`, `SerialStore.find`, narration patterns and prompt wording: they would add members of kinds that are already here.
- HTTP, WAHA, model, speech and image requests, ffmpeg, routes, templates, tracing and cryptography.
- Disk and network failures, and fairness of the event loop: nothing is said about when an enabled step is taken.
