# Hisohiso: a verified model

Hisohiso is an encrypted room chat: a PHP relay over SQLite, a React client, and a CLI daemon that
bridges AI agents into rooms. This project models the parts of it whose correctness is not visible
from one function at a time, and proves what they promise over every input, every run and every
interleaving. `dafny verify dfyconfig.toml` checks it all.

- **Outbox** (`newest_k.dfy`, `outbox.dfy`, `outbox_protocol.dfy`). The relay's catch-up table is aged
  in two stages, capped at 500 rows and pruned whenever a request happens to. The table is proved to
  be a function of everything ever appended, so what a client fetches does not depend on when pruning
  ran. The append/wipe protocol is modelled one SQL statement at a time: turning catch-up off leaves
  nothing behind in any interleaving.
- **Daemon** (`replay_ledger.dfy`, `turn_queue.dfy`, `knock_gate.dfy`, `write_chain.dfy`). The replay
  ledger covers what the outbox can still replay, so no chat reaches the agent twice, restarts after a
  settled save included, under the conditions in the table below. `onChat`, cut at its awaits, runs one
  turn at a time and delivers every accepted chat once and in order. When exactly a room lets in at
  most one device unasked is settled for every run. Overlapping saves never tear `rooms.json`.
- **Agent output** (`texts.dfy`, `json.dfy`, `json_grammar.dfy`, `json_print.dfy`, `scanner.dfy`,
  `scanner_printed.dfy`, `salvage.dfy`, `salvage_patterns.dfy`, `salvage_exact.dfy`). A parser for RFC
  8259 over UTF-16 units, exact against its grammar, and the compact printer, with their round trip;
  then the three brace/string/escape automata, proved exact against them, on complete output and on
  output cut off anywhere after its text.
- **Joining** (`relay_ids.dfy`, `presence.dfy`, `relay.dfy`, `relay_runs.dfy`, `relay_db.dfy`,
  `relay_presence.dfy`, `handshake.dfy`, `join.dfy`). The relay's tables and handlers with their foreign keys,
  who is counted as present after any requests, the approval handshake over
  symbolic cryptography, and the whole join: tabs, approvers, lost and repeated events, reloads,
  cleanups. At most one row per knock ever becomes active.
- **Bounds, codecs and the timeline** (`rate_limit.dfy`, `schedule_time.dfy`, `der.dfy`,
  `timeline.dfy`). The fixed-window limiter against the log of all requests, weekly schedules to UTC
  cron lines and back, DER signatures to raw ones, and the client's merged message timeline.

A class holds the fields the source updates in place. Its `Valid()` is the invariant the runs of the
same module keep, and its methods say what a caller can rely on and which function on values (a table,
a session, a world) they compute. Runs are sequences of such values, and the main results are about
runs. Ids, tokens and texts that are only compared are abstract types.

Where the code and its comments differ, the model follows the code:

- The comment at `app/src/pages/RoomController.tsx:697-699` says a real message that turns up later
  takes over from its tombstone, and never the other way round. A tombstone on screen is kept
  (`Timeline.TombstoneStays`), and since only the screen is looked at, a tombstone does replace stored
  content that is not on screen yet (`Timeline.ExpiryBuriesIff`).
- `delete_participant` in `server/index.php` does not test `pending`; handlers are taken as atomic.
- The outbox's SQL leaves the order of equal timestamps open. `NewestK.IsNewest` and `Outbox.FetchOf`
  are relations that allow any order; distinct timestamps are assumed only where an answer is said to
  be unique.

Conditions under which a promise holds. Where a lemma says "if and only if" the condition is exact.

| promise | condition | lemmas |
|---|---|---|
| the outbox is a function of its history | ids are fresh | needed: `Outbox.ReusedIdIsLost` |
| nothing is stored after "off" | the flag is read again under the lock | needed: `OutboxProtocol.RereadIsNeeded` |
| no chat is dispatched twice, whatever restarts there are | every chat that comes again is still in the ledger | if and only if, for every run: `ReplayLedger.SecondTurnsIff`; what a reload keeps: `ReplayLedger.ReloadedIff`; lost with an unsettled save: `ReplayLedger.UnsettledRestartRepeats` |
| so it is in the ledger | whenever every restart follows a settled save, and every chat that comes again is either in the ledger or replayable: stamped within the last day less the skew margin `d`, first seen no more than `d` before its stamp and after the stored chats older than it, with fewer than 500 chats either stored after it or dispatched since without a row | the last part holds by itself when every later chat has its row: `ReplayLedger.StoredLeaveRoom`; it is needed: `ReplayLedger.UnstoredChatsPushOut` |
| nothing stays queued | `runTurn` never rejects | if and only if: `TurnQueue.RejectionStrandsTheQueue` |
| everyone seen lately is counted | lately means 36 seconds | needed: `Presence.ThirtySevenIsTooLate` |
| a room lets in one device unasked | no knock gets through to an unbound room that another device has entered | if and only if, for every run: `KnockGate.OneDeviceIff` |
| so do two knocks of a fresh room | the first was not passed unheard, or the second failed | if and only if: `KnockGate.TwoKnocksIff`; a run: `KnockGate.UnheardPassAdmitsTwo` |
| so do a restart and another device's knock | the knock failed, or the room on disk is bound or gone | if and only if: `KnockGate.RestartKnockIff`; a run: `KnockGate.UnsavedBindingIsLost` |
| `rooms.json` is never torn | saves wait for each other | needed: `WriteChain.OverlapTears` |
| all records of a message agree, on screen, in storage and on the way | no event takes in a record that contradicts a known one | if and only if, for every run: `Timeline.RunAgreesIff` |
| a shown message keeps its text, and content never gives way to a tombstone | no history that says otherwise is merged, and the page stays open | if and only if: `Timeline.RewritesIff` |
| an expired row does not bury a stored message | the message is on screen already, or storage holds a tombstone | if and only if: `Timeline.ExpiryBuriesIff`; a run from a page opening: `Timeline.ExpiryBuries` |
| a message keeps its direction | no history with the other direction is merged | if and only if: `Timeline.TurnsIff` |
| an own message keeps it through send, write and reload | its echo, if it was faster, was recognised as the device's own | if and only if: `Timeline.SendTurnsIff`; a run: `Timeline.EarlyEchoTurns` |

## Model

| member | source | states |
|---|---|---|
| NewestK.NewestOfNewest | server/outbox.php:97-99 | keeping the newest k of what was kept before plus newcomers is keeping the newest k of everything, however ties are broken |
| NewestK.NewestOfAged | server/outbox.php:94-99 | deleting by age and capping by count commute on the way to the newest k |
| NewestK.KeptIffFewNewer | server/outbox.php:97-99 | with distinct stamps an id is kept exactly when fewer than k are newer |
| NewestK.NewestUnique | server/outbox.php:97-99 | with distinct stamps there is only one selection of the newest k |
| NewestK.NewestIds | server/outbox.php:97-99 | the selection loop returns a set of the newest k ids |
| Outbox.OutboxFile.ExpireAndPrune | server/outbox.php:86-100 | rows over a day old lose content and sender and nothing else does, rows over seven days old go, the newest 500 stay |
| Outbox.OutboxFile.Append | server/outbox.php:119-152 | nothing changes with the flag off; otherwise the row is inserted unless its id is there, and the table pruned |
| Outbox.OutboxFile.Fetch | server/outbox.php:154-181 | prunes, then lists the oldest rows after `since` up to the limit, in order |
| Outbox.OutboxFile.Wipe | server/outbox.php:183-203 | leaves no row |
| Outbox.Select | server/outbox.php:168-176 | the answer is a legitimate result of the SELECT: right rows, right count, ascending |
| Outbox.RunRetains | server/outbox.php:86-152 | after any appends and prunes the table is the newest 500 of the rows of the last seven days of the whole history, aged |
| Outbox.RunSays | server/outbox.php:86-152 | so every row was appended, and has lost its content and sender exactly if it was over a day old at the last prune |
| Outbox.HistoryIff | server/outbox.php:119-152 | the history holds exactly what was appended |
| Outbox.LimitNeverBites | server/outbox.php:154-172 | the fetch limit never drops a retained row |
| Outbox.FetchIsHistoryView | server/outbox.php:86-181 | a fetch returns exactly the rows of the history that are no older than seven days, have fewer than 500 newer ones and are newer than asked for, ascending; over a day old they come without content and sender and marked expired, otherwise as they were appended |
| Outbox.PruneScheduleIrrelevant | server/outbox.php:86-181 | two runs with the same appends and any prune schedules answer a fetch identically |
| Outbox.ReusedIdIsLost | server/outbox.php:134-141 | a reused id is lost or stored depending on when pruning ran |
| OutboxProtocol.InvariantKept | server/outbox.php:102-152 | every SQL step of every handler keeps: one lock holder, rows only in a file, and a wipe still coming whenever something is left over while off |
| OutboxProtocol.OffAndQuietIsEmpty | server/index.php:479-497 | in every interleaving, off or gone with no wipe in flight means no rows and no append that will store any |
| OutboxProtocol.WipeLeavesClean | server/outbox.php:183-203 | the step that completes an "off" leaves nothing, not even an append past its flag check |
| OutboxProtocol.EmptyUntilTurnedOn | server/index.php:451-497 | after an "off" completes no row appears until catch-up is turned on again |
| OutboxProtocol.AppendStores | server/outbox.php:119-152 | nothing waits for good: with the lock free and catch-up on an append can run to its end, and leaves what its prune keeps of the old rows and the new one |
| OutboxProtocol.OffEmpties | server/outbox.php:183-203 | with the lock free an "off" or a disband can run to its end, and no row is left |
| OutboxProtocol.HolderEnds | server/outbox.php:119-152 | whoever holds the lock can go on and give it back: a wipe with no row left, an append with its row stored exactly if the flag was on when read |
| OutboxProtocol.RereadIsNeeded | server/outbox.php:124-132 | without the second read of the flag a reachable run strands a row |
| ReplayLedger.PruneSeenMsgIds | cli/src/daemon/agent-manager.ts:52-59 | keeps the newest 500 entries of the last day with their stamps |
| ReplayLedger.SeenLedger.Admit | cli/src/daemon/agent-manager.ts:816-820 | a chat goes on exactly when its id is new, and is then recorded |
| ReplayLedger.SeenLedger.Persist | cli/src/daemon/agent-manager.ts:1153-1171 | the pruned ledger is what reaches the disk |
| ReplayLedger.SeenLedger.Restart | cli/src/daemon/agent-manager.ts:497 | the ledger in memory is the one on disk, pruned |
| ReplayLedger.ReplayableIsCertain | cli/src/daemon/agent-manager.ts:20-59 | whatever the outbox can still replay with content is within the part of the ledger no pruning drops, as long as newer chats, stored or not, leave it room |
| ReplayLedger.StoredLeaveRoom | cli/src/daemon/agent-manager.ts:20-59 | chats that have their rows always leave that room: fewer than 500 are newer than a retained one |
| ReplayLedger.ReplayIsDropped | cli/src/daemon/agent-manager.ts:816-819 | a replayed chat starts no second turn |
| ReplayLedger.SoundKept | cli/src/daemon/agent-manager.ts:810-825 | appends, fetches, wipes, first and repeated deliveries, saves and restarts keep the outbox, the ledger and the saved ledger in step |
| ReplayLedger.NoSecondTurn | cli/src/daemon/agent-manager.ts:810-825 | in every run with restarts after settled saves no chat is handed to the agent twice |
| ReplayLedger.AnythingCanHappen | cli/src/daemon/agent-manager.ts:497-825 | in every state any new chat can be appended, the outbox fetched or wiped, any chat delivered, and the ledger saved or reloaded |
| ReplayLedger.ReloadedIff | cli/src/daemon/agent-manager.ts:52-59 | a restart keeps exactly the saved entries of the last day that fewer than 500 newer ones follow |
| ReplayLedger.SecondTurnsIff | cli/src/daemon/agent-manager.ts:810-825 | in every run, with any number of restarts before or after their saves settle, no chat is handed over twice if and only if every chat that comes again is still in the ledger |
| ReplayLedger.SecondTurnIff | cli/src/daemon/agent-manager.ts:810-825 | after any restart of such a run a dispatched chat that comes again starts another turn if and only if the reloaded ledger does not hold its id |
| ReplayLedger.UnsettledRestartRepeats | cli/src/daemon/agent-manager.ts:820-823 | a crash before the save settles repeats a turn |
| ReplayLedger.UnstoredChatsPushOut | cli/src/daemon/agent-manager.ts:20-59 | a run in which 500 chats without a row push a stored one out of the ledger while the outbox still replays it |
| TurnQueue.AgentSession.Receive | cli/src/daemon/agent-manager.ts:810-820 | an id passes once |
| TurnQueue.AgentSession.Accept | cli/src/daemon/agent-manager.ts:893-904 | a chat goes to the agent at once exactly when no turn runs, and then nothing is ahead of it; otherwise it is last in line, and no accepted chat is lost or reordered |
| TurnQueue.AgentSession.EndTurn | cli/src/daemon/agent-manager.ts:908-915 | afterwards every accepted chat has been given to the agent, in order; the session goes idle exactly when nothing waited |
| TurnQueue.InvariantKept | cli/src/daemon/agent-manager.ts:801-915 | every step of every interleaving keeps: one turn at a time, idle means nothing queued, turns then queue equal the accepted chats in order, ids once |
| TurnQueue.IdleMeansAllDelivered | cli/src/daemon/agent-manager.ts:893-915 | once idle, the agent has been given every accepted chat once and in decrypt order |
| TurnQueue.ChatIsAnswered | cli/src/daemon/agent-manager.ts:810-915 | from every state a new chat gets through: it becomes the turn of an idle session, which is idle again afterwards, or waits in last place behind the turn that runs |
| TurnQueue.OthersAreDropped | cli/src/daemon/agent-manager.ts:816-885 | a repeated or unreadable chat returns at once and changes nothing else |
| TurnQueue.TurnsEnd | cli/src/daemon/agent-manager.ts:902-915 | from every state the running call gets to idle, with every accepted chat given to the agent |
| TurnQueue.RejectionStrandsTheQueue | cli/src/daemon/agent-manager.ts:902-915 | a rejecting turn keeps the invariant if and only if nothing was queued |
| KnockGate.Gate.OnKnock | cli/src/daemon/agent-manager.ts:740-794 | the gate stays sound; a bound room stays bound to its device; whoever is let in is the bound device or knocked on an unbound room, and any other device is parked for ten minutes, in the place of whoever was parked under the same id; no unexpired request is lost, and no other one changes its device |
| KnockGate.KnockIsServed | cli/src/daemon/agent-manager.ts:740-794 | the same of every knock in every sound state |
| KnockGate.Gate.EvictExpired | cli/src/daemon/agent-manager.ts:756-761 | exactly the parked knocks that have run out are removed |
| KnockGate.Gate.Resolve | cli/src/daemon/agent-manager.ts:1040-1062 | the request is gone whatever the answer, and the parked device is let in exactly on a yes before it ran out, while the room exists, unless nothing got through |
| KnockGate.AnswerIsServed | cli/src/daemon/agent-manager.ts:1040-1062 | the same of every answer in every sound state |
| KnockGate.Gate.ListPending | cli/src/daemon/daemon-main.ts:840-847 | lists exactly the requests that have not run out |
| KnockGate.OneDeviceIff | cli/src/daemon/agent-manager.ts:740-794 | a run of any knocks, answers, saves and restarts lets at most one device into each room unasked if and only if no knock in it gets through to an unbound room that another device had entered |
| KnockGate.OneDeviceUnasked | cli/src/daemon/daemon-main.ts:471-520 | as long as no pass gets through unheard, no restart brings back an older binding and no room id is reused, that holds, and the device is the one the room stays bound to |
| KnockGate.TwoKnocksIff | cli/src/daemon/agent-manager.ts:1016-1033 | two devices that knock on a fresh room are both let in if and only if the first got through unheard and the second got through |
| KnockGate.RestartKnockIff | cli/src/daemon/agent-manager.ts:789-793 | after a restart another device is let in unasked if and only if its handshake gets through and the room on disk is unbound |
| KnockGate.AnsweredOnce | cli/src/daemon/daemon-main.ts:849-859 | a request is answered no more often than it was parked, and a pending one is unanswered |
| KnockGate.NeverAfterExpiry | cli/src/daemon/agent-manager.ts:1048-1051 | no operator admission comes after the parked knock ran out |
| KnockGate.ConfirmedHadKnocked | cli/src/daemon/daemon-main.ts:806-817 | whoever a yes admits had knocked under that id within the last ten minutes |
| KnockGate.OthersSay | cli/src/daemon/daemon-main.ts:471-520 | a restart keeps exactly what was saved and forgets who is parked; saves, openings and closings do no more than that |
| KnockGate.UnsavedBindingIsLost | cli/src/daemon/agent-manager.ts:789-793 | a crash between binding and save lets a second device in unasked |
| KnockGate.UnheardPassAdmitsTwo | cli/src/daemon/agent-manager.ts:1016-1033 | so does a pass that arrives although the handshake reported failure |
| WriteChain.RoomsFile.Save | cli/src/lib/config.ts:189-202 | the call is last in line and no file changes; rooms.json stays the last success |
| WriteChain.RoomsFile.Step | cli/src/lib/config.ts:190-198 | whatever fails, rooms.json is the whole snapshot of the last successful call or what it was at first; only a rename that works changes it, and no other call moves |
| WriteChain.InvariantKept | cli/src/lib/config.ts:181-202 | every step, failure and crash keeps calls in order and rooms.json equal to the last success |
| WriteChain.NoOverlap | cli/src/lib/config.ts:181-202 | no two writes are ever in progress |
| WriteChain.FileIsLastDone | cli/src/lib/config.ts:190-202 | at every moment rooms.json is the whole snapshot of the last successful call in call order |
| WriteChain.NeverStuck | cli/src/lib/config.ts:199-200 | a failed write does not hold up those behind it |
| WriteChain.StepSays | cli/src/lib/config.ts:190-198 | a step that fails ends its call and leaves rooms.json alone, one that works gets it on |
| WriteChain.SaveSucceeds | cli/src/lib/config.ts:190-198 | a call whose steps all work ends with its snapshot in rooms.json |
| WriteChain.OverlapTears | cli/src/lib/config.ts:181-187 | without the chain two saves can tear the file |
| Json.ValueShorter | cli/src/lib/agent-process.ts:271-272 | a value parses the same in the text cut off where it ends |
| JsonGrammar.ParseIff | cli/src/lib/agent-process.ts:289-297 | the parser accepts exactly the texts of the RFC 8259 grammar, each as the value it stands for: whitespace, escapes, numbers, nesting |
| JsonPrinter.ReadsPrinted | cli/src/lib/agent-process.ts:289-297 | the parser reads back any printed value wherever it stands before a delimiter |
| JsonPrinter.ParsePrint | cli/src/lib/agent-process.ts:289-297 | parsing what was printed gives the value |
| EnvelopeScanner.ScanOne | cli/src/lib/agent-process.ts:251-283 | one turn of the scanning loop |
| EnvelopeScanner.FindBlockEnvelopes | cli/src/lib/agent-process.ts:245-287 | the loop reports what the automaton reports |
| EnvelopeScanner.CrossValue | cli/src/lib/agent-process.ts:251-283 | the automaton and the parser agree on where every value ends, strings with escapes included |
| EnvelopeScanner.ScannerExact | cli/src/lib/agent-process.ts:245-287 | on any JSON objects in prose without quotes and braces, exactly those with a string `text` are reported, in order |
| EnvelopeScanner.WholeTextAgrees | cli/src/lib/agent-process.ts:290-297 | when the whole text is one object, the scanner finds exactly what JSON.parse finds |
| EnvelopeScanner.ParseCompleteOutput | cli/src/lib/agent-process.ts:290-319 | the first two stages of parseBlockOutput |
| EnvelopeScanner.EnvelopeIsReadOff | cli/src/lib/agent-process.ts:271-276 | an object is an envelope exactly when its last `text` member is a string; its last `blocks` and `room_name` members decide the rest, of the right type or not at all, an empty list as none, a title without its outer blanks |
| EnvelopeScanner.AnswerIsLast | cli/src/lib/agent-process.ts:299-319 | the answer is the last envelope with blocks, else the last, under its own title or else the latest one; none exactly when there is no envelope |
| PrintedOutput.ScannerFindsPrinted | cli/src/lib/agent-process.ts:223-287 | the same for any sequence of printed objects |
| PrintedOutput.AnswerOfPrinted | cli/src/lib/agent-process.ts:290-319 | the answer, with its title, for any sequence of printed objects |
| Salvage.FindObjectEnd | cli/src/lib/agent-process.ts:197-216 | the loop finds the brace that closes the first one, or the end |
| SalvageExact.ObjectEndIsExact | cli/src/lib/agent-process.ts:197-216 | whatever follows a JSON object, exactly that is cut off |
| Salvage.BlocksOne | cli/src/lib/agent-process.ts:141-173 | one turn of the block loop |
| Salvage.ExtractCompleteBlocks | cli/src/lib/agent-process.ts:130-177 | the loop collects the objects completed at depth zero |
| Salvage.ParseBlockOutput | cli/src/lib/agent-process.ts:290-341 | all three stages |
| SalvagePatterns.EnvelopeStartIff | cli/src/lib/agent-process.ts:188-191 | the salvage starts at the first brace that blanks and the key `text` follow |
| SalvagePatterns.FencedTailIff | cli/src/lib/agent-process.ts:193-194 | everything from the first line break that leads to a fence is cut |
| SalvagePatterns.ClosingFenceIff | cli/src/lib/agent-process.ts:195 | then a fence that ends the text |
| SalvagePatterns.BlocksStartIff | cli/src/lib/agent-process.ts:131-134 | the blocks begin after the first key `blocks` with a bracket |
| SalvagePatterns.TextFieldIff | cli/src/lib/agent-process.ts:327-328 | the text is that of the first key `text` with a string, its escapes kept together |
| SalvageExact.BlocksFound | cli/src/lib/agent-process.ts:131-134 | in a cut envelope the key pattern matches at the real `blocks` key and nowhere inside a string |
| SalvageExact.BlocksRecovered | cli/src/lib/agent-process.ts:134-177 | from a cut array exactly the blocks that end before the cut are recovered |
| SalvageExact.CutContent | cli/src/lib/agent-process.ts:187-219 | stripping preamble, fences and junk keeps the text field and every finished block |
| SalvageExact.SalvageIsExact | cli/src/lib/agent-process.ts:290-341 | a printed envelope cut anywhere after its text and before its last brace yields that text and exactly the blocks whose closing brace is inside |
| SalvageExact.WholeIsExact | cli/src/lib/agent-process.ts:290-341 | the same envelope uncut yields its text, all its blocks (none for an empty list) and its title without outer blanks |
| SalvageExact.FittingIsExact | cli/src/lib/agent-process.ts:130-177 | those blocks are the longest leading run that fits |
| Presence.RecentIsCounted | server/index.php:198-231 | whoever touched presence within 36 seconds, and has not left, is counted |
| Presence.StaleIsNotCounted | server/index.php:102-111 | nobody untouched for more than 45 seconds is counted |
| Presence.ThirtySevenIsTooLate | server/index.php:198-220 | 36 is the best bound |
| Presence.PruningIsInvisible | server/index.php:63-76 | the pruned table counts as one never pruned does, at every later time |
| RelayRuns.SoundKept | server/index.php:143-231 | every handler keeps presence to active participants of the same room, participants and subscriptions to existing rooms, stored messages to rooms with catch-up on |
| RelayRuns.SoundAlways | server/index.php:255-607 | so in every reachable state |
| RelayRuns.DisbandClears | server/index.php:592-607 | after a disband no row mentions the room, and no other room's row changed |
| RelayRuns.StaysGone | server/index.php:592-607 | nor does one appear until the room is opened anew |
| RelayRuns.LeaveRemovesOne | server/index.php:569-590 | exactly one member and its presence go, nothing else changes |
| RelayRuns.OffStoresNothing | server/index.php:479-497 | turning catch-up off leaves no message of the room and touches no other room's |
| RelayRuns.OffUntilOn | server/outbox.php:124-132 | no request stores one until a member turns it on or the room is opened anew |
| RelayRuns.AbandonedAreGone | server/index.php:87-111 | whenever participants are counted no row has been pending for 720 seconds; after a due cleanup none for over 660; active rows stay |
| RelayRuns.ApprovedStays | server/index.php:87-100 | in every run of requests a row that was approved is there for 660 seconds, pending and with its commitment, unless its token is pinged or its room disbanded |
| RelayRuns.PresenceCleanedSays | server/index.php:63-76 | at most every 30 seconds exactly the presence rows over 45 seconds old go |
| RelayRuns.PendingCleanedSays | server/index.php:87-100 | at most every 60 seconds exactly the rows pending for over 660 seconds go |
| RelayPresence.ServedIsCounted | server/index.php:102-607 | over every run of requests: whoever a request has served within 36 seconds and who has not left since is counted, whenever cleanups ran |
| RelayPresence.CountedWasServed | server/index.php:102-607 | and whoever is counted was served within 45 seconds and has not left since |
| RelayPresence.PresenceBefore | server/index.php:198-607 | every presence row was there before a request or written by it for the member it served |
| RelayDatabase.NotedIsPresent | server/index.php:198-231 | a touched member counts as present for the next 36 seconds, and nobody else's row changes |
| RelayDatabase.CleanedIsInvisible | server/index.php:102-111 | the two cleanups change no count from then on, and take no active participant along |
| RelayDatabase.OpenIsServed | server/index.php:255-298 | the first caller becomes the only member of a new room and is present; later callers change no member, room or count |
| RelayDatabase.ApproveIsServed | server/index.php:347-375 | only a member approves; the room gains one row with the commitment that is no member yet, and the approver is present |
| RelayDatabase.PingIsServed | server/index.php:525-567 | a token is a member afterwards if and only if it was one or came with the tag its pending row is committed to; otherwise its pending row is gone |
| RelayDatabase.MessageIsServed | server/index.php:416-463 | a message is stored if and only if a member sends one with an id while catch-up is on |
| RelayDatabase.SwitchIsServed | server/index.php:479-505 | only a member switches; off leaves no message of the room, on brings none, no other room notices |
| RelayDatabase.AttendIsServed | server/index.php:376-414 | a member who fetches a subscriber token, hands over a wrapped one or rejects a knock is present afterwards; nothing else changes |
| RelayDatabase.SubscribeIsServed | server/index.php:625-648 | exactly a member's endpoint is added |
| RelayDatabase.LeaveIsServed | server/index.php:569-590 | exactly one member goes with its presence |
| RelayDatabase.DisbandIsServed | server/index.php:592-607 | only a member disbands; no row mentions the room afterwards, and no other room's row changed |
| RelayDatabase.Database.TouchPresence | server/index.php:198-231 | the member counts as present for the next 36 seconds, whether or not the write is skipped; nobody else's row changes |
| RelayDatabase.Database.PresencePruneStale | server/index.php:63-76 | afterwards presence was cleaned within 30 seconds, and no count from now on differs |
| RelayDatabase.Database.PendingPruneStale | server/index.php:87-100 | afterwards pending rows were collected within a minute, none is left that has been pending for 720 seconds, and no row of the last 660 seconds, no active one and no presence is touched |
| RelayDatabase.Database.ParticipantCount | server/index.php:102-111 | the count is what it would be without the cleanups, which take no active row and none of the last 660 seconds along |
| RelayDatabase.Database.OpenRoom | server/index.php:255-298 | keeps the tables sound and what `OpenIsServed` says; Created exactly for a new room |
| RelayDatabase.Database.Approve | server/index.php:347-375 | keeps the tables sound and what `ApproveIsServed` says; Forbidden exactly for those who are no member |
| RelayDatabase.Database.Ping | server/index.php:525-567 | keeps the tables sound and what `PingIsServed` says; Ok exactly for those who are a member afterwards |
| RelayDatabase.Database.Message | server/index.php:416-463 | keeps the tables sound and what `MessageIsServed` says; Ok exactly for a member |
| RelayDatabase.Database.Settings | server/index.php:479-505 | keeps the tables sound and what `SwitchIsServed` says; Ok exactly for a member |
| RelayDatabase.Database.Attend | server/index.php:376-414 | keeps the tables sound and what `AttendIsServed` says; Ok exactly for a member |
| RelayDatabase.Database.Subscribe | server/index.php:625-648 | keeps the tables sound and what `SubscribeIsServed` says; Ok exactly for a member |
| RelayDatabase.Database.Leave | server/index.php:569-590 | keeps the tables sound and what `LeaveIsServed` says; Ok exactly for a member |
| RelayDatabase.Database.Disband | server/index.php:592-607 | keeps the tables sound and what `DisbandIsServed` says; Ok exactly for a member |
| RelayDatabase.Database.DeleteRoom | server/db.php:58-123 | only the outbox, a file of its own, can still mention the room, and nothing of another room goes along |
| RelayDatabase.Database.Serve | server/index.php:255-648 | every request, served statement by statement, is one step of the runs of `RelayRuns` and keeps the tables sound |
| Handshake.HandshakeAgrees | app/src/lib/crypto.ts:202-300 | the knocker unwraps exactly the token that was wrapped and a tag that meets the commitment |
| Handshake.HandshakeIsExclusive | app/src/lib/crypto.ts:240-300 | the wrap opens for that private key only, and only that knock's id derives the committed tag |
| Join.InvariantKept | app/src/pages/RoomController.tsx:1173-1212 | knocks, approvals, token events, pings, reloads and everything else keep rows, events and tabs accounted for |
| Join.InvariantAlways | app/src/pages/RoomController.tsx:1525-1590 | so in every run |
| Join.ActiveIsEarned | server/index.php:525-563 | a row is active only by opening the room or by a tag that hashes to its commitment |
| Join.OneRowPerKnock | app/src/pages/RoomController.tsx:1173-1204 | of all rows approved for one knock at most one ever becomes active |
| Join.OthersAreCollected | server/index.php:87-100 | the others are gone after the first cleanup past 660 seconds |
| Join.ReceiptHolds | app/src/pages/RoomController.tsx:1173-1204 | a tab that waits for a knock and receives its token event holds that event's token and a tag that hashes to what the token's row is committed to |
| Join.FirstPingActivates | server/index.php:525-567 | in every run whoever waits for a knock, receives the token event of its approval and pings within 660 seconds of the approval becomes a member, unless the token was pinged before, the room disbanded or the page reloaded |
| Join.KnockLeadsIn | app/src/pages/RoomController.tsx:1173-1212 | from every state the way in is open: knock, approval, delivery and ping lead to membership |
| Join.OnlyApprovalSends | server/index.php:347-375 | only a member's approval sends a token event or makes a row for a knock |
| Join.OpeningHolds | server/index.php:255-298 | whoever opens a new room is its only member and holds the token; on an existing room nothing is gained |
| Join.ForgettingSays | app/src/pages/RoomController.tsx:369 | a failed knock forgets the knock, a reload the tag as well; token, room and every other tab stay |
| Join.PingSettles | app/src/pages/RoomController.tsx:1525-1590 | after its ping a member keeps the token and has spent the tag; a refused claim or a room that is gone ends the session; a lost answer changes nothing |
| Join.WrongTagBurns | server/index.php:550-557 | a wrong or missing tag deletes the row and only it |
| RateLimit.Limiter.PruneStale | server/rate_limit.php:77-91 | at most every minute, exactly the rows whose window began over an hour ago go |
| RateLimit.Limiter.HitKey | server/rate_limit.php:97-115 | the count is the number of the key's requests in the current window, this one included; no other key's row changes |
| RateLimit.Limiter.Enforce | server/rate_limit.php:120-129 | refuses exactly when the window has seen more than the limit, with a wait that ends on the first instant of the next window |
| RateLimit.CounterIsLog | server/rate_limit.php:97-115 | the counter equals the number of requests of the key in its window, pruning or not |
| RateLimit.WindowLimitCounted | server/rate_limit.php:117-129 | exactly the first `limit` requests of each window pass |
| RateLimit.SpanLimit | server/rate_limit.php:117-129 | at most 2·limit pass in any span as long as the window |
| RateLimit.WaitIsEnough | server/rate_limit.php:122-127 | whoever comes back when told is the first of a fresh window |
| ScheduleTime.LocalToUtcCron | app/src/lib/schedule-time.ts:33-50 | rejects exactly invalid input, else writes the UTC line of the shifted schedule |
| ScheduleTime.UtcCronToLocal | app/src/lib/schedule-time.ts:54-71 | the shifted schedule of whatever line it can read |
| ScheduleTime.ReadCronIff | app/src/lib/schedule-time.ts:54-60 | exactly the lines of a minute, an hour, two stars and weekdays are read, as the numbers and days they hold |
| ScheduleTime.CronReadsBack | app/src/lib/schedule-time.ts:49-63 | every line written is read back as the same minute, hour and days |
| ScheduleTime.RoundTrip | app/src/lib/schedule-time.ts:16-71 | for every whole-minute offset the sorted day set and the time come back; neither conversion's result depends on its base date |
| ScheduleTime.SameInstants | app/src/lib/schedule-time.ts:16-50 | the stored days name the same instants of the week modulo 10080 minutes, and as many |
| Der.Reader.ReadInt | server/push.php:90-102 | one integer, stripped and padded, moving the offset past it |
| Der.Reader.EcdsaDerToRaw | server/push.php:78-106 | the conversion with its error cases |
| Der.RawIff | server/push.php:78-106 | for any bytes at all: accepted exactly when a sequence holds two integers below 2^256, however padded, and then those in 32 bytes each |
| Der.RawOfSignature | server/push.php:78-106 | for any header and any two integers: both numbers in 32 bytes each, or an error exactly when one needs more, reading the whole signature and no further |
| Der.RawOfEcdsa | server/push.php:74-106 | for every r, s below 2^256 the minimal encoding gives r then s, 32 bytes each |
| Der.RawReadsBack | server/push.php:74-106 | r and s read back off the raw form |
| Timeline.Room.Find | app/src/pages/RoomController.tsx:672 | the message held under an id |
| Timeline.Room.IngestChat | app/src/pages/RoomController.tsx:671-690 | an echo only moves the held message in time; a new one is sorted in |
| Timeline.Room.IngestTombstone | app/src/pages/RoomController.tsx:700-718 | a tombstone is shown only for an id not held |
| Timeline.Room.Send | app/src/pages/RoomController.tsx:1712-1729 | an own message is stored in any case and shown unless its echo was faster |
| Timeline.Room.Reload | app/src/pages/RoomController.tsx:914-928 | the messages of a history read earlier, then those on screen that are not in it |
| Timeline.StepHolds | app/src/pages/RoomController.tsx:671-928 | what exactly is shown under every id after any event, a page opening and the merge of a stale history included; the list stays sorted and unique |
| Timeline.EventKeeps | app/src/lib/room-message.ts:353-360 | as long as no record contradicts another, every event keeps all records in agreement, loses and rewrites nothing in storage, and, unless it opens the page anew, nothing on screen |
| Timeline.RunAgreesIff | app/src/pages/RoomController.tsx:671-928 | in every run from an empty screen over any stored history, through any page openings, all records of every message agree throughout if and only if no event takes in one that contradicts a known one |
| Timeline.NothingIsLost | app/src/pages/RoomController.tsx:671-718 | in every such run without contradictions what is held stays held with its text until the page is opened anew, and no tombstone replaces content |
| Timeline.NothingStoredIsLost | app/src/pages/RoomController.tsx:554-561 | and storage loses and rewrites nothing, across page openings |
| Timeline.StoredIsShown | app/src/pages/RoomController.tsx:913-928 | and whatever was stored when a history was read is shown from its merge on, until the page is opened anew |
| Timeline.ChangesAreWritten | app/src/pages/RoomController.tsx:671-718 | whatever an event newly shows or moves in time is on its way to storage, and so is an own message |
| Timeline.OnlyChangesAreWritten | app/src/pages/RoomController.tsx:671-718 | nothing else is written, no write is forgotten while the page stays open, and only one that lands changes storage |
| Timeline.ShownIsPersisted | app/src/pages/RoomController.tsx:671-718 | in every run whatever is on screen is stored or has a write on its way |
| Timeline.ShownTextIsPersisted | app/src/pages/RoomController.tsx:671-718 | with its text, when no record contradicts another |
| Timeline.ReopenShows | app/src/pages/RoomController.tsx:913-928 | once the writes have landed, what was on screen is there again after the page has been opened anew and its history merged |
| Timeline.SortedAndUnique | app/src/pages/RoomController.tsx:688-690 | in every run, whatever arrives, timestamps ascend and ids are distinct |
| Timeline.EchoTakesClock | app/src/lib/room-message.ts:353-360 | an echo moves the held message to the server's clock and changes nothing else |
| Timeline.TombstoneStays | app/src/lib/room-message.ts:353-360 | a real message does not replace a tombstone on screen |
| Timeline.RewritesIff | app/src/pages/RoomController.tsx:671-928 | an event takes a shown message off the screen if and only if it opens the page, and changes its text if and only if it merges a history that says otherwise |
| Timeline.TurnsIff | app/src/pages/RoomController.tsx:914-928 | an event changes a shown message's direction if and only if it merges a history that has the other one |
| Timeline.SendTurnsIff | app/src/pages/RoomController.tsx:1712-1729 | an own message keeps its direction through send, write and reload if and only if its echo, if that was faster, had been recognised |
| Timeline.EarlyEchoTurns | app/src/pages/RoomController.tsx:1712-1729 | an own echo taken for a peer's is turned around by the next reload |
| Timeline.ExpiryBuriesIff | app/src/pages/RoomController.tsx:700-718 | an expired row leaves the stored text of its message alone, in storage and on the screen of the next reload, if and only if the message was on screen or had no text |
| Timeline.ExpiryBuries | app/src/pages/RoomController.tsx:700-718 | a run from a page opening in which the stored text of a message is gone for good |

## Left out

- SSE, Mercure, fetch, curl, sockets and process spawning: delivery is an event that may be lost, late or repeated.
- AES-GCM, HKDF, HMAC, SHA-256, ECDH and random tokens: symbolic constructors and fresh ids; base64url and hex spellings are not modelled (btoa and atob belong to the platform).
- SQLite busy errors and retries: a granted lock is a blocking step. The interleaving of SQL statements is modelled for the outbox protocol only; elsewhere a handler is one step.
- RelayDatabase.Database.OpenRoom: rate limiting of room creation is modelled on its own in `rate_limit.dfy`, not inside the handler.
- RelayDatabase.Database.Subscribe: the subscription's keys, its foreground marker and unsubscribing are not modelled.
- RateLimit.CounterIsLog: assumes hits reach the table in clock order, windows of at most an hour, as every caller's is, and no cleanup so far ahead of a later hit that it takes the hit's window for past.
- KnockGate.OneDeviceUnasked: knocks are handled one at a time; the await between the test and the assignment of the binding is not cut.
- Join.OneRowPerKnock: token events are handled one at a time; the await inside the handler is not cut.
- ReplayLedger.NoSecondTurn: says nothing of a chat that comes again under the conditions the table above excludes: near the end of its day, out of timestamp order, or after 500 others, some without a row; `ReplayLedger.SecondTurnsIff` covers it.
- Salvage.ParseBlockOutput: block sanitizing (`block-validation.ts`) is not part of this model, so blocks are the parsed values.
- Timeline.Room.IngestChat: the envelope's blocks, replies, handles and secret redaction, and the agents' status bubbles, are not modelled.
- Timeline.Room.Reload: one room; a switch of rooms is a page opening, which empties the screen and drops a read still under way.
- Timeline.NothingIsLost: deleting a message on purpose (`handleDeleteMessage`) and wiping a room locally are not events.
- ScheduleTime.LocalToUtcCron: numbers are integers, and instants are whole minutes under one fixed offset, as the source freezes it.
- The message window (`useMessageWindow.ts`), `parseCodexNdjson`, label formatting and token extractors: index arithmetic and shape checks that would add easy members only.
- Web push fan-out (`notify_room`), JWT minting, the scheduler, the updater and the service files: I/O around one-branch logic.
