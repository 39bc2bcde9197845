# tellm, verified

A Dafny model of the parts of tellm (a Telegram bot that forwards chats to model providers) whose
correctness depends on more than one function: the room conversation protocol, the persistence
transactions, access control and the runtime configuration, the chat workers, the Telegram text
pipeline, the secret store, and the Anthropic continuation loop.

`dafny verify dfyconfig.toml` checks everything. One module per component:

| file | component |
|---|---|
| `Prelude.dfy`, `Text.dfy` | options, searching, splitting, trimming, replacing, decimal numbers |
| `JsonSize.dfy`, `Rooms.dfy` | the byte estimate, and one room with its bounded history |
| `RoomProtocol.dfy` | provider turns in flight against a room, with everything that may interleave |
| `Persistence.dfy`, `AtomicFile.dfy` | the settings transaction and its writer; the atomic file replacement under it |
| `Access.dfy`, `PairingRate.dfy` | who is allowed, pairing, and the numeric bound on compared codes |
| `Configuration.dfy`, `Runtime.dfy` | the configuration and its checks; the commands that change it, memory, disk and live access together |
| `ChatWorkers.dfy` | the workers of one chat, their queue, registry, cancellation and replacement |
| `Chunking.dfy`, `Delivery.dfy` | splitting a message and the rich, HTML, plain delivery chain |
| `Markdown.dfy` | the conversion to HTML: the functions and the scanning loops that compute them |
| `Regexes.dfy`, `HeadingRegex.dfy` | the fence scanner, the backtick pass and the heading scanner against the regular expressions they replace |
| `LinkRegex.dfy` | the link pass as the substitution of the leftmost links |
| `Markup.dfy` | the passes on text whose tags and placeholders are single symbols |
| `Tags.dfy`, `CodeBlocksVerbatim.dfy` | tag balance and safety; code blocks verbatim |
| `Conversion.dfy` | what the whole conversion makes of each kind of markup |
| `RoundTrips.dfy` | undoing the marks of a pass gives its input back |
| `Secrets.dfy` | keychain, credentials file and the precedence marker |
| `AnthropicChat.dfy` | the pause-and-continue exchange and the turn it logs |

Objects the program updates in place are classes whose methods are proved against functions on a
value (`View`); the theorems over whole runs are lemmas about those functions. Protocols whose steps
interleave across tasks (turns, transactions, workers) are state machines, one step per shared access.
Loops over text keep the text still to be read instead of a byte cursor into it.

How the text results fit together: `Markup.SpansRender` shows that running every pass on characters
is running it on symbols, so no pass can look inside a tag or a placeholder. The tag results
(`Tags`), the code block result (`CodeBlocksVerbatim`) and the round trips (`RoundTrips`) are then statements
about symbols, carried back to characters.

One place where the code and the reference it was written from disagree: hashes followed by a single
blank and nothing else are a heading for the scanner and none for the reference expression.
`HeadingRegex.HeadingMatchesRegex` shows that the two differ on exactly these lines.

## Model

| member | source | states |
|---|---|---|
| JsonSize.ApproxIsCappedTruth | src/rooms.rs:225-240 | for every JSON value the estimate, saturating at every nested addition, is the true estimate capped at the machine word |
| JsonSize.BytesOfText | src/rooms.rs:225-240 | the true estimate is the length of the compact JSON text with unescaped strings, plus one for each non-empty array or object, plus one for each `true` and minus one for each `false` |
| Rooms.HistoryBytesCapped | src/rooms.rs:218-223 | the saturating total over a room's turns is the true total, capped |
| Rooms.PruneGuardIsExact | src/rooms.rs:208-209 | the pruning guard on saturated estimates holds exactly when the true 32-turn or 4 MiB limit is exceeded |
| Rooms.TrueTotalIsSum | src/rooms.rs:198-223 | the true total of a room is the sum of the estimates of all its items |
| Rooms.WindowIsLongestFittingSuffix | src/rooms.rs:198-216 | the remembered turns are a suffix of everything logged since the last clear, of at most 32 turns and 4194304 bytes, and no longer suffix keeps to both numbers |
| Rooms.WindowIsIncremental | src/rooms.rs:198-216 | pruning turn by turn remembers the same turns as choosing from the complete log; forgotten turns never matter again |
| Rooms.RoomState.PushTurn | src/rooms.rs:198-216 | the pruning loop leaves history as the flattening of that suffix and the turn sizes as its exact partition |
| Rooms.RoomState.BeginTurn | src/rooms.rs:105-128 | another wire format sets the whole context aside in a token and starts empty in a new generation; the same format changes nothing |
| Rooms.RoomState.AppendTurn | src/rooms.rs:130-145 | a turn is added in chat mode and replaces everything in message mode; a foreign format resets first |
| Rooms.RoomState.AppendTurnIfGeneration | src/rooms.rs:153-164 | commits exactly when the generation is the expected one, else leaves the room alone |
| Rooms.RoomState.RestoreFailedTurn | src/rooms.rs:170-186 | puts back exactly what the token holds, keeps the settings, and starts a new generation, only at the expected generation |
| Rooms.RoomState.ResetHistory | src/rooms.rs:147-191 | empties the history and starts a new generation |
| Rooms.RoomState.BumpGeneration | src/rooms.rs:188-191 | the generation is the number of bumps modulo 2^64 |
| RoomProtocol.PrepareChatRequest | src/model_turn.rs:27-63 | a request carries exactly the room's history in chat mode and nothing in message mode, with the generation and token of the same moment |
| RoomProtocol.RequestsCarryHistory | src/model_turn.rs:51-57 | every begin adds one request: in chat mode with all remembered turns of that wire format, in order, in message mode with nothing |
| RoomProtocol.NoResurrection | src/rooms.rs:105-191 | over every interleaving of begins, commits, failures, settings changes, resets and denials, without any assumption: every history item is at all times from a turn begun after the latest reset, exactly when no turn begun before a reset finds its generation again with something to write |
| RoomProtocol.PunctualTurnsNeverResurrect | src/runtime.rs:733-746 | so nothing older ever comes back if cancelled turns are aborted before they fail and none outlives 2^64 generations |
| RoomProtocol.HistoryNeverMixesFormats | src/rooms.rs:105-186 | in every run whatever, late failures of cancelled turns and wrapped generations included, all items of a history are of the room's own wire format |
| RoomProtocol.RequestsCarryOwnFormat | src/model_turn.rs:27-63 | in every run whatever, every request ever built carries only items produced by its own wire format |
| RoomProtocol.AcceptedCommitKeepsFormat | src/rooms.rs:130-164 | after every run, a commit accepted within 2^64 generations of its turn finds its own wire format: the format-changed branch is not taken |
| RoomProtocol.FailedTurnRestoresRoom | src/runtime.rs:1204-1212 | begin, any settings-only changes, provider failure: the prior format, history and turn boundaries are back, the settings are those of the last change, and the token no longer fits |
| RoomProtocol.RollbackSucceedsOnce | src/rooms.rs:170-186 | a rollback token restores at most once within 2^64 - 1 bumps |
| RoomProtocol.StaleTokenAcceptedExactlyOnWrap | src/rooms.rs:114 | a token of n resets ago is accepted exactly when n is a multiple of 2^64 |
| RoomProtocol.LateFailureHarmsExactly | src/runtime.rs:1204-1212 | the failure of a cancelled turn (its handler does not look at the flag) puts old items into the history exactly when the generations agree and the history its token holds is not empty |
| RoomProtocol.LateFailureOfDeniedTurnResurrects | src/rooms.rs:90-99 | the concrete run behind that condition: a removed room restarts its generations, so only the abort keeps a denied history of up to 4 MiB away |
| Persistence.RoomStore.GetOrDefault | src/rooms.rs:257-261 | looking a room up creates it with defaults and changes no setting |
| Persistence.RoomStore.MutateRoom | src/persistence.rs:49-63 | memory takes the change and one snapshot of all rooms is queued |
| Persistence.RoomStore.ResumeCaller | src/persistence.rs:63-82 | a failed save restores the previous settings, or removes a room that did not exist before |
| Persistence.RoomStore.RemoveRoom | src/persistence.rs:90-102 | memory forgets the room and the snapshot without it is queued |
| Persistence.RoomStore.DropCaller | src/persistence.rs:54-63 | a dropped caller releases the lock and leaves its queued write behind |
| Persistence.RoomStore.Drain | src/persistence.rs:155-168 | the writer takes snapshots in order, each write landing or failing on its own |
| Persistence.DiskFollowsSnapshots | src/persistence.rs:155-168 | over every interleaving, failure and abort, what landed on disk is an in-order subsequence of the snapshots taken, the last of them being on disk |
| Persistence.QuiescentAgreement | src/persistence.rs:49-112 | with nothing outstanding, disk and memory agree on every room's settings, unless a change was lost; the next successful save restores agreement |
| Persistence.QuiescentAgreesExactly | src/persistence.rs:49-112 | in every run, with nothing outstanding, disk and memory agree exactly when the last snapshot not rolled back agrees with the last one that landed |
| Persistence.FailedRemovalDisagreesExactly | src/persistence.rs:85-102 | from any reachable state with the lock free, once the writes queued before it have landed (with none queued: from a state that lost no change), a removal whose save fails disagrees exactly when the room had settings other than the defaults |
| Persistence.AbandonedFailureDisagreesExactly | src/persistence.rs:54-82 | from the same states, a change whose caller is gone when its save fails disagrees exactly when it changed something |
| Persistence.DroppedBeforeRollbackDisagreesExactly | src/persistence.rs:63-82 | from the same states, a change whose caller is dropped between the failed save and its rollback disagrees exactly when it changed something |
| Persistence.RemovalLands | src/persistence.rs:90-102 | whatever happens after a removal has begun (other chats, failures, a dropped remover, shutdown), until the chat is used again memory stays without the room, and the disk is without it whenever the last write to land is the removal's or a later one |
| Persistence.DeniedRoomStaysGone | src/persistence.rs:85-102 | if the remover is told, after any wait, that the removal is saved, nothing later (older writes, failures, rollbacks, dropped callers) brings the room back to memory or disk until the chat is used again |
| AtomicFile.Directory.CreateUniqueTemp | crates/tellm-config/src/lib.rs:330-367 | the temporary file is a name not in use before; any failure leaves the directory as it was |
| AtomicFile.Directory.WriteAtomic | crates/tellm-config/src/lib.rs:291-327 | at every moment, and after any failure or crash, the target is the old file or the complete new one; it succeeds exactly if one of eight names is fresh and opens and write, sync and rename succeed, and then leaves the new file, else the old one |
| Access.AccessControl.constructor | src/access.rs:126-142 | the live allow-list starts as the configured chats and the pinned ones |
| Access.AccessControl.ArmRoom | src/access.rs:157-163 | an unknown room gets its current code, a new one only when missing or expired |
| Access.AccessControl.CheckChat | src/access.rs:165-173 | an unknown chat is hinted once |
| Access.AccessControl.Deny | src/access.rs:186-191 | denial also forgets the chat's code and failures |
| Access.AccessControl.AttemptPair | src/access.rs:205-229 | the order of checks: allowed, locked out, code comparison, then the failure is counted |
| Access.PairsExactly | src/access.rs:205-229 | a submission pairs exactly when the chat is neither allowed nor locked out and the code is its current one, and then admits this chat only |
| Access.AccessControl.LockedUntil | src/access.rs:284-294 | an expired lockout is forgotten together with its count |
| Access.AccessControl.RecordFailedAttempt | src/access.rs:296-322 | the count restarts after a window and locks out at five |
| Access.WrongCodeCounts | src/access.rs:205-323 | a wrong code that is compared is the next failure of the last 300 seconds or the first; the fifth locks out for 300 seconds; a code issued on the way lasts 600 |
| Access.AccessControl.CheckPrivileged | src/access.rs:234-249 | privileged exactly for a registered owner with a message at most 60 seconds old |
| Access.ConstantTimeEq | src/access.rs:353-361 | accumulating every difference decides equality of the two byte strings |
| PairingRate.RateLimit | src/access.rs:205-323 | from any reachable state, at most 5n + 3 codes are compared in n lockout windows without a denial |
| PairingRate.AtMostEightPerWindow | src/access.rs:260-323 | at most 8 submitted codes are compared in any half-open 300 seconds |
| PairingRate.CodeComparedAtMost13Times | src/access.rs:260-323 | over the whole life of one issued code at most 13 submissions are compared with it |
| PairingRate.EightIsAttained | src/access.rs:296-322 | a concrete run reaches 8 |
| PairingRate.ThirteenIsAttained | src/access.rs:260-322 | a concrete run has 13 submissions compared with one code |
| PairingRate.StoppedClockComparesEverything | src/access.rs:26-30 | the bound needs a clock below its last value: there the saturated lockout ends as it starts |
| Configuration.Validate | crates/tellm-config/src/lib.rs:103-212 | reports every problem and nothing else; no problem exactly when the configuration is well formed |
| Configuration.ValidateUrl | crates/tellm-config/src/lib.rs:173-196 | which addresses are refused: embedded credentials, credentials over anything but https, cleartext that is neither keyless loopback nor permitted |
| Configuration.CheckPins | crates/tellm-config/src/lib.rs:198-203 | a chat pinned twice anywhere is found, and only such a chat is reported |
| Configuration.NoProblemsIffWellFormed | crates/tellm-config/src/lib.rs:103-212 | the problem list characterises well-formedness, each chat pinned at most once included |
| Configuration.SoundExactly | crates/tellm-config/src/lib.rs:117-196 | a model has no defect exactly if its key is a non-blank word and its name not blank, it names a usable secret or is a compatible provider, and its address is https without credentials, or plain http of a keyless compatible provider on this machine or with permission |
| Configuration.WellFormedExactly | crates/tellm-config/src/lib.rs:103-212 | a configuration is accepted exactly if the default model is configured, every model is as demanded, and no chat is pinned twice |
| Runtime.Service.HandleAllowChat | src/runtime.rs:1269-1290 | a failed save leaves configuration, disk and live access as they were |
| Runtime.Service.HandleDenyChat | src/runtime.rs:1316-1378 | access is closed by the time the configuration is handed to the writer; a failed save reopens it exactly if it was open; otherwise pins, permission and the room's selection are gone |
| Runtime.Service.HandlePairAttempt | src/runtime.rs:1386-1478 | a matched code that cannot be saved closes access again; a saved one records chat and owner in all copies |
| Runtime.Service.PersistPairedChat | src/runtime.rs:1532-1559 | chat and pairing user enter the configuration, or nothing does |
| Runtime.Service.HandleMembershipChange | src/runtime.rs:432-497 | a chat an owner adds the bot to is allowed; any other gets a pairing code |
| Runtime.Service.PinModel | src/runtime.rs:937-958 | the room ends up pinned to one model only, or nothing changes |
| Runtime.Service.UnpinModel | src/runtime.rs:966-986 | a room allowed only by its pin stays allowed |
| Runtime.Service.AddModel | src/runtime.rs:1006-1032 | a preset is added only if no key equals it ignoring case |
| Runtime.Service.HandleCommand | src/commands.rs:270-329 | the guards of every command: chat still allowed, owner, key configured, room not pinned |
| Runtime.OnlyOwnersCommand | src/commands.rs:443-455 | a message from a chat that is not allowed changes nothing; one that is not a registered owner's of the last 60 seconds changes no configuration, disk or access, and at most the chat's own selection |
| Runtime.AllowAdmits | src/runtime.rs:1269-1290 | an owner's saved /allow puts the chat, and no other, into live access, memory and disk |
| Runtime.DenyExcludes | src/runtime.rs:1316-1378 | an owner's saved /deny takes the chat, and no other, out of live access, memory, disk and pins, and forgets its selection |
| Runtime.PinChooses | src/runtime.rs:937-958 | after an owner's saved pin the room is pinned to that configured model and resolves to it, and nobody's access changes |
| Runtime.UnpinReleases | src/runtime.rs:966-986 | after an owner's saved unpin the room has no pin and stays allowed |
| Runtime.SelectChooses | src/commands.rs:308-322 | a configured model selected in an unpinned room is the one it resolves to; a pinned room ignores the selection |
| Runtime.AddModelAdds | src/runtime.rs:1006-1032 | an owner's saved add brings in the requested preset when no key equals it ignoring case, and loses no model |
| Runtime.PairAdmits | src/runtime.rs:1386-1478 | a saved pairing admits the chat and makes the pairing user an owner in all copies; any other pairing message leaves them as they were |
| Runtime.AddedByOwnerAdmits | src/runtime.rs:432-497 | being added by an owner admits the chat when saved; being added by anybody else leaves it with its current pairing code |
| Runtime.FailedSaveChangesNobody | src/runtime.rs:1269-1363 | an event whose save fails leaves configuration, disk and everybody's access as they were |
| Runtime.RemovePins | src/runtime.rs:2094-2110 | every pin of the chat goes, and whether there was one |
| Runtime.PinThenSelectionThenDefault | src/runtime.rs:2068-2073 | a room resolves to the first model it is pinned to, else to its own selection, else to the default |
| Runtime.RestartChangesNobody | src/access.rs:41-59 | from any valid configuration, whatever the rooms have selected: after any run of commands with any saves failing, the live allowed and owner sets are those rebuilt from memory and from the disk |
| Runtime.ConfigStaysValid | crates/tellm-config/src/lib.rs:103-212 | from the same starts, no run of commands makes the configuration, in memory or on disk, fail its own checks |
| Runtime.UnresolvedExactly | src/runtime.rs:1244-1248 | after any run a room resolves to no configured model exactly when it is not pinned and still has the selection it was loaded with, one configured neither then nor since |
| Runtime.SelectedModelExists | src/runtime.rs:2068-2073 | so a room loaded with no selection or a configured one always resolves to a configured model, whatever other rooms have selected |
| ChatWorkers.AtMostOneRuns | src/runtime.rs:590-728 | across idle reaping, aborts and respawns at most one worker of a chat has not ended |
| ChatWorkers.HandledInOrder | src/runtime.rs:590-728 | messages are handled in arrival order, each at most once |
| ChatWorkers.RunningWorkerIsReached | src/runtime.rs:77-90 | nothing a finishing worker does unregisters its replacement: before shutdown, a worker that has not unregistered itself is registered, and reached by cancelling, at every moment except between its spawn and its insertion into the registry |
| ChatWorkers.OnlyAdmittedIsHandled | src/runtime.rs:660-667 | a message is handled exactly when its worker holds it, is not cancelled, and the chat is allowed at that step |
| ChatWorkers.NothingElseIsLost | src/runtime.rs:590-728 | unless a queue of 32 is full or closes with messages in it, or a worker holding a message is cancelled, refused or aborted, what is handled and what is pending are all messages taken, in order |
| ChatWorkers.WholeQueueIsHandled | src/runtime.rs:654-694 | a worker that is neither cancelled nor refused handles its whole queue in order |
| ChatWorkers.MessageSpawnsWorker | src/runtime.rs:590-601 | with no worker there, a message spawns one that is registered and has the message |
| ChatWorkers.MessageReplacesWorker | src/runtime.rs:626-637 | with the last worker gone, the message goes to a new one |
| ChatWorkers.LoopSteps | src/runtime.rs:748-773 | a worker that is gone is forgotten; shutdown cancels and aborts the current one and takes no more messages; reactivating undoes the cancelling only |
| ChatWorkers.WaysToLeave | src/runtime.rs:646-696 | a worker leaves when cancelled or refused at the top of its loop, idle, or aborted, giving up its own registration first and its queue then |
| ChatWorkers.LeavingIsFinal | src/runtime.rs:646-696 | a worker that leaves never comes back to handle anything |
| Chunking.LastNewline | crates/tellm-telegram/src/lib.rs:623-625 | the backward scan finds the last newline of the window |
| Chunking.ChunkText | crates/tellm-telegram/src/lib.rs:611-635 | the loop cuts by the rule: just after the window's last newline if that is past the first position, else the full window |
| Chunking.EveryChunkIsCut | crates/tellm-telegram/src/lib.rs:621-632 | every part but the last obeys the rule at its place in the text; the last is the rest |
| Chunking.RemainingIsSuffix | crates/tellm-telegram/src/lib.rs:620-632 | that place is right after the parts before it |
| Chunking.ChunksConcatenate | crates/tellm-telegram/src/lib.rs:611-635 | the parts concatenate to the text |
| Chunking.ChunksFit | crates/tellm-telegram/src/lib.rs:609-611 | no part is longer than the size |
| Chunking.ChunkingIsUnique | crates/tellm-telegram/src/lib.rs:609-635 | the rule determines the parts |
| Delivery.Telegram.SendMessage | crates/tellm-telegram/src/lib.rs:199-231 | the requests made for a message, given the server's answers |
| Delivery.Telegram.SendLegacyMessagePart | crates/tellm-telegram/src/lib.rs:377-411 | HTML first, plain text only after a refusal that allows it |
| Delivery.DeliveryIsFaithful | crates/tellm-telegram/src/lib.rs:199-231 | whatever the server answers, after success the accepted parts in order are the text without the white space around it, or "(empty response)" if nothing else is there; after an error they are a beginning of that |
| Delivery.ShortMessagesStayWhole | crates/tellm-telegram/src/lib.rs:207-227 | a message of at most 32000 characters is tried as one rich request, and if that is refused one of at most 3900 as one HTML request |
| Delivery.FallbacksAreEarned | crates/tellm-telegram/src/lib.rs:207-227 | every message starts rich; HTML comes only right after a rich refusal that allows it, starting with the refused text, or after another fallback; plain text only right after the refusal of the same text as HTML; nothing after any other refusal |
| Delivery.DeliveryFits | crates/tellm-telegram/src/lib.rs:207-224 | rich parts stay within 32000 characters, sources of the others within 3900, and nothing empty is sent |
| Markdown.CaptureFencedBlocks | crates/tellm-telegram/src/lib.rs:673-705 | the scanner's output and blocks are those of the text's cut at its fences |
| Markdown.FencedContentStart | crates/tellm-telegram/src/lib.rs:707-718 | the content starts after the first newline not preceded by a backtick |
| Markdown.EscapeHtmlLoop | crates/tellm-telegram/src/lib.rs:720-733 | every special character becomes its entity |
| Markdown.MarkdownHeading | crates/tellm-telegram/src/lib.rs:735-776 | the title of a heading line, or its last blank when nothing follows |
| Markdown.ReplaceLinks | crates/tellm-telegram/src/lib.rs:778-826 | the link pass computes its specification |
| Markdown.ReplaceDelimited | crates/tellm-telegram/src/lib.rs:828-854 | the delimiter pass computes its specification, its cursor always advancing |
| Markdown.ConvertMarkdown | crates/tellm-telegram/src/lib.rs:640-671 | the composition of the passes and the restoration loop |
| Regexes.ScannerMatchesRegex | crates/tellm-telegram/src/lib.rs:673-718 | on every string the fence scanner cuts where the leftmost, lazy, non-overlapping matches of the reference expression lie |
| Regexes.CutIsUnique | crates/tellm-telegram/tests/golden/generate_vectors.py:57 | that cut is the only one |
| Regexes.BacktickPassMatchesRegex | crates/tellm-telegram/tests/golden/generate_vectors.py:76 | on every string the backtick pass is the substitution of the reference expression |
| Regexes.SpanCutIsUnique | crates/tellm-telegram/tests/golden/generate_vectors.py:76 | there is only one way to cut a text along that expression's matches |
| LinkRegex.LinkPassMarksLinks | crates/tellm-telegram/src/lib.rs:778-826 | on every string the link pass turns the leftmost links, without overlap, into anchors and nothing else; a link has a non-empty caption and an http or https address without white space |
| LinkRegex.LinkCutIsUnique | crates/tellm-telegram/src/lib.rs:778-826 | there is only one way to cut a text along such links |
| LinkRegex.FirstBracketBecomesAnchor | crates/tellm-telegram/src/lib.rs:809-822 | a link at the first bracket becomes the anchor with its address and caption |
| HeadingRegex.HeadingMatchesRegex | crates/tellm-telegram/tests/golden/generate_vectors.py:62 | the heading scanner finds the title the reference expression captures, or none when it matches nothing, exactly on the lines that are not bare: hashes and a single blank, where the scanner takes the blank for a title and the expression matches nothing |
| HeadingRegex.OneRegexTitle | crates/tellm-telegram/tests/golden/generate_vectors.py:62 | the expression captures at most one title of a line |
| HeadingRegex.BareHeadingDiffers | crates/tellm-telegram/src/lib.rs:767-775 | a concrete line on which the two differ |
| Text.FindIsFirst | crates/tellm-telegram/src/lib.rs:678 | a search returns the first occurrence or there is none |
| Text.SplitIsFind | crates/tellm-telegram/src/lib.rs:782-790 | cutting a text around a character is cutting where the search ends |
| Text.DecimalInjective | crates/tellm-telegram/src/lib.rs:700 | different placeholder numbers are written differently |
| Text.TrimIsTrimsTo | crates/tellm-telegram/src/lib.rs:200 | trimming removes the longest ends of dropped characters, and nothing else |
| Text.WhitespaceIs | crates/tellm-telegram/src/lib.rs:200 | white space is the 25 code points of the Unicode property |
| Text.IgnoringCaseIs | src/runtime.rs:2126-2133 | two keys are equal ignoring case exactly if they differ only in the case of ASCII letters |
| Markup.SpansRender | crates/tellm-telegram/src/lib.rs:648-663 | running the passes on characters is running them on symbols: no pass looks inside a tag or placeholder |
| Markup.HeadingsRender | crates/tellm-telegram/src/lib.rs:648-659 | the same for the heading pass |
| Markup.LinksRender | crates/tellm-telegram/src/lib.rs:778-826 | the same for the link pass |
| Markup.DelimitedRender | crates/tellm-telegram/src/lib.rs:828-854 | the same for each delimiter pass |
| Conversion.OrdinaryText | crates/tellm-telegram/src/lib.rs:640-671 | text without markup characters is only escaped |
| Conversion.SpanConverted | crates/tellm-telegram/src/lib.rs:661-663 | between ordinary texts `**x**` and `__x__` become `<b>x</b>` and a backtick span becomes `<code>x</code>` |
| Conversion.LinkConverted | crates/tellm-telegram/src/lib.rs:660 | between ordinary texts a link becomes an anchor with escaped address and caption |
| Conversion.HeadingConverted | crates/tellm-telegram/src/lib.rs:648-657 | one to six hashes, a blank and a title become the title in bold |
| Conversion.FenceConverted | crates/tellm-telegram/src/lib.rs:640-705 | between ordinary texts a fenced block becomes a `<pre><code>` block with its escaped text, the newlines around it dropped |
| RoundTrips.EscapeRoundTrip | crates/tellm-telegram/src/lib.rs:720-733 | reading the entities back gives the text |
| RoundTrips.EscapedIsSafe | crates/tellm-telegram/src/lib.rs:720-733 | escaped text contains no angle bracket and no quote |
| RoundTrips.LinksReadBack | crates/tellm-telegram/src/lib.rs:778-826 | reading every anchor back as a link gives the text: addresses and captions are where they belong and nothing else changes |
| RoundTrips.DelimitersReadBack | crates/tellm-telegram/src/lib.rs:828-854 | putting the delimiter back for each tag of a delimiter pass gives the text |
| Tags.SpansKept | crates/tellm-telegram/src/lib.rs:648-663 | the passes open and close each kind of tag equally often, bring in no bare `<`, and neither lose nor copy a placeholder |
| Tags.EveryLessIsInserted | crates/tellm-telegram/src/lib.rs:640-671 | for every text, each `<` of the HTML begins one of the inserted tags |
| Tags.TagsBalance | crates/tellm-telegram/src/lib.rs:640-671 | for every text, each kind of tag is opened as often as it is closed |
| CodeBlocksVerbatim.SpansClean | crates/tellm-telegram/src/lib.rs:648-663 | no pass spells the placeholder marker out of text that does not contain it |
| CodeBlocksVerbatim.FindPlaceholder | crates/tellm-telegram/src/lib.rs:665-668 | searching the HTML for a placeholder finds the placeholder and nothing that merely looks like one |
| CodeBlocksVerbatim.BlocksAppearVerbatim | crates/tellm-telegram/src/lib.rs:640-705 | for every text without the marker, the passes leave pieces with every placeholder whole and once between them, and the HTML is the same pieces with each block verbatim in its placeholder's place |
| Secrets.SecretStore.Set | crates/tellm-config/src/lib.rs:490-546 | which backend a value ends up in and what the caller is told, for every combination of failures |
| Secrets.SecretStore.FileSet | crates/tellm-config/src/lib.rs:680-688 | value and precedence marker enter the file together |
| Secrets.SecretStore.FileRemove | crates/tellm-config/src/lib.rs:690-703 | value and marker leave the file together |
| Secrets.NeverServesOlderValue | crates/tellm-config/src/lib.rs:457-546 | after any run of calls a reader of the file never gets a value older than the last one reported stored, and with the keychain readable too always gets one |
| Secrets.KeychainValueIsServed | crates/tellm-config/src/lib.rs:468-535 | while the last report for a name is the keychain, every reader of the keychain gets a value no older than the reported one, the file readable or not |
| Secrets.FileValueIsServed | crates/tellm-config/src/lib.rs:476-535 | a value placed in the file is returned whatever the keychain later holds or does |
| Secrets.SetLeavesOthers | crates/tellm-config/src/lib.rs:680-716 | setting one name never changes what a reader sees of another |
| Secrets.OutdatedWithoutFileExactly | crates/tellm-config/src/lib.rs:468-535 | while the last report for a name is the file, a reader without the file gets an outdated value exactly when the keychain held another value at that call, neither that call nor a later one got a value into the keychain, and no later call tried the held value again |
| Secrets.UnreadableFileCanServeOlderValue | crates/tellm-config/src/lib.rs:468-487 | two calls reach such a store |
| Secrets.ToldExactly | crates/tellm-config/src/lib.rs:490-546 | what a call reports: reserved and overridden names are refused untouched; the keychain exactly if it confirms the value and the file is clean or cleaned; the file exactly if the keychain does not and the file takes it |
| Secrets.StoredIsServed | crates/tellm-config/src/lib.rs:457-546 | whatever was reported stored is what a reader of both backends gets next |
| Secrets.EnvironmentDecides | crates/tellm-config/src/lib.rs:457-466 | a present variable decides what a reader gets, one that is not text gives nothing, and reserved names are never served |
| Secrets.VariableOfName | crates/tellm-config/src/lib.rs:556-568 | the variable of a name is TELLM_ and the name in upper case with underscores for everything but ASCII letters and digits |
| AnthropicChat.Chat | crates/tellm-anthropic/src/lib.rs:94-168 | the loop sends and returns exactly what the replies determine; image generation is refused before any request |
| AnthropicChat.ReadReply | crates/tellm-anthropic/src/lib.rs:116-149 | how a reply is read: refusal first, then pause, else finished |
| AnthropicChat.RequestsGrow | crates/tellm-anthropic/src/lib.rs:111-152 | a request is followed by another exactly if it is one of the first five and its answer's stop_reason is pause_turn; the next repeats it with a message of role assistant and the answer's own content added |
| AnthropicChat.TurnReplaysExchange | crates/tellm-anthropic/src/lib.rs:154-163 | on success history and turn together are the last request's messages and a message with the final answer's own content, and the text shown is the text blocks of all answers in order |
| AnthropicChat.LastReplyDecides | crates/tellm-anthropic/src/lib.rs:94-168 | the last answer alone decides between transport failure, refusal, exceeded continuations and success |
| AnthropicChat.RefusalIsReported | crates/tellm-anthropic/src/lib.rs:124-132 | a refusal is reported in the answer's own text, else by its explanation |
| AnthropicChat.OutcomeIsDetermined | crates/tellm-anthropic/src/lib.rs:94-168 | the replies alone decide requests and result |
| AnthropicChat.NextTurnExtends | src/model_turn.rs:51-57 | in chat mode the next request built carries the whole previous exchange exactly when the room forgets nothing but turns without items; if no remembered turn is empty, exactly when it can keep them all |

## Left out

- The reference expressions of the `**`, `__` and link passes: the two-character scanner skips a whole delimiter after a failed match and the link pass accepts a bare `http://`, so they are not these expressions; `LinkRegex` says what the link pass is instead.
- `\s` of the reference also takes U+001C to U+001F; the heading result takes Unicode White_Space for both sides.
- Nesting of the generated HTML: overlapping markup can misnest tags, which the plain-text fallback is for.
- Interleaving inside one allow, deny, pair or pin handler, and a worker aborted while its own configuration save is pending: `Runtime` takes each handler as one step.
- Configuration saves in the persistence writer's queue: `Persistence` follows the room snapshots, `Runtime` takes the outcome of a configuration save as given.
- A failed first settings change removes the room it created: a chat's messages are handled one at a time (`ChatWorkers`), so no turn of that room is in flight then, and `RoomProtocol` has no event for it.
- The commit's look at the cancellation flag and its access to the room are one step of `RoomProtocol`; the flag is set before the room is removed.
- Why a cancelled turn is aborted before its failure handler runs (task aborts of the async runtime): `RoomProtocol.PunctualTurnsNeverResurrect` assumes it, and `RoomProtocol.NoResurrection` says exactly what happens without.
- `format` and `serial` of a history item are labels of its origin that no operation looks at.
- Pairing-code generation and its random source: `minted` is the code the generator would give, already normalised.
- Byte offsets: texts are sequences of characters, cursors are the text still to be read, and lengths count characters.
- The wording that lets a refusal fall back: an answer says which fallbacks it allows.
- HTML requests in `Delivery` are named by their source text; what they carry is `Markdown.ConvertMarkdown` of it.
- URL parsing, TOML, keychain and file-system internals, HTTP, time-outs: an address comes with what the parser finds, backends succeed or fail as they like.
- Thinking levels and capability checks of models, provider request fields, attachments, console output, the first-run wizard, Ollama process control: straight-line code or foreign processes.
- Provider crates other than Anthropic: one request, one mapping.
- Environment variables of two names that map to the same variable: an override of one then overrides the other; the results assume no override.
- Telegram's own limit counts UTF-16 units while the parts are measured in characters, a difference the code documents and keeps.
