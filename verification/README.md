# A verified model of the Matrix–Slack bridge

The bridge links Matrix rooms to Slack channels and passes messages, edits, deletions and history between them.
This project models the parts of it that hold state or transform text, and proves what those parts promise.
One module per component:

| file | what it models |
|---|---|
| `Prelude.dfy`, `Json.dfy`, `Utf8.dfy` | string replacement and searching, JSON values and accessors, UTF-8 |
| `TimedCache.dfy`, `RoomStore.dfy` | the timed cache and the `room_mappings` table, as classes and as values |
| `RoomBridge.dfy`, `BridgeCore.dfy` | every handler that reads or changes a room mapping, as one atomic step each; the handlers as methods of a mutable bridge object |
| `RoomEffects.dfy` | what each of these handlers does to the rows and says on either side, told from the event and the rows alone |
| `RoomInterleaving.dfy` | the same lookups and deletions cut into table read, cache insert, row delete and cache remove, in any interleaving |
| `Commands.dfy`, `Provisioning.dfy`, `BridgeSafety.dfy` | the permission gates, the approval protocol with its one-shot senders, and the whole `!slack bridge` path up to the created row |
| `MessageStore.dfy`, `MessageLinks.dfy`, `MessageSends.dfy`, `Backfill.dfy` | the index between Slack timestamps and Matrix events, everything that writes it, the index and the import measured against the calls that went out, and the paged history import |
| `Html.dfy`, `SlackText.dfy`, `Blocks.dfy`, `Nesting.dfy`, `BlocksNesting.dfy`, `BlocksText.dfy`, `BlocksTags.dfy`, `Emoji.dfy` | escaping, tag stripping and entity decoding at character level; the rich text renderers; nesting; agreement of the two renderers; which element stands around which text; emoji codes |
| `SlackLists.dfy`, `Markdown.dfy`, `Pattern.dfy`, `Kdl.dfy`, `Filename.dfy`, `FilenamePlain.dfy`, `FilenameLanguage.dfy` | the list state machine, the markdown escaper, pattern substitution, KDL read as JSON, file names from headers: extended ones, plain ones, and extended ones with a language tag |
| `Presence.dfy`, `ChannelQueue.dfy` | the presence round robin and the per-channel locks |

Two idioms are used throughout.  Code that changes state or loops is a method, proved against a function of its
inputs and its old state; the properties are then lemmas about that function.  A protocol is a list of actions; an
action that is not enabled when its turn comes is skipped, so a lemma about every list is a lemma about every
interleaving.  What the outside world does (success, failure, the answer of a call) is carried by the action.
The homeserver numbers its events, so an event id is a fresh number.

## Findings

Where the code and its documentation or its names disagree, the model follows the code.

- After a rename the cached mapping keeps the old channel name until it expires; the two names agree exactly if the
  cached copy already had the new one (`RenameLeavesCachedName`).  No handler that reads through the cache looks at the
  name, which is why the cache is still invisible (`CacheRefinesTable`).
- With handlers cut into steps the cache is no longer invisible: a fill that lands after the eviction serves a deleted
  row (`LateFillServesDeletedRow`).  A deleted row can be served again exactly as long as a live entry or a fill of it
  is left (`ServedAgainExactly`), after its eviction exactly if a fill is in flight (`EvictedServedExactly`).  What
  always holds is that only rows that were once stored are served, for less than the ttl, and that a delete through a
  stale mapping touches its own row or none.
- The room limit does not hold on all paths.  With whole handlers as steps it is exceeded exactly by a Slack bridge
  command that is inserted when the limit is reached (`RoomBridgeModel.LimitIsExceededExactly`); the Matrix command and
  the web interface keep it.  With the check and the insertion as separate steps it is exceeded exactly when any path
  adds a row at the limit (`BridgeSafetyModel.LimitIsExceededExactly`), so two requests that both passed the check
  exceed it on the Matrix path alone (`TwoCheckedRequestsExceedLimit`): from every reachable state one room below the
  limit some run does so (`ApprovedRequestsExceedLimit`), the first of them from an empty bridge (`ARunExceedsTheLimit`).
- The clean-up of an ask, after a failed prompt as after a timeout, removes whatever is pending for the channel.  It
  touches another ask exactly when the map holds that ask (`CleanUpTouchesExactly`), which is then newer and cancelled
  (`CleanUpCancelsNewerAsk`); a returned ask was cancelled exactly if this, or a newer ask, happened
  to it in the run, and its own prompt did not fail and its own timer did not fire (`CancelledExactly`).
- A presence enqueued while an older one of its user is being sent is lost exactly if the older one is not offline and
  differs (`FinishReplacesNewerPresence`).
- The backfill cap bounds the messages that are sent completely, not those of which some part reaches Matrix: each
  message that breaks off after its first send comes on top (`ImportCountsCompleted`, `BrokenMessageExceedsCap`).
- An edit names the event it replaces exactly if it has text or no attachments (`EditNamesOldEventExactly`).
- The Slack decoder inverts the standard escaping exactly on texts without `&lt;` and `&gt;` (`NormalizeIsExactWhen`).
- The two rich text renderers differ on labelled links, colours, dates, user groups and every channel element whose
  id is not the word `channel` (`ElementAgreesExactly`).
- The result of pattern substitution can depend on the order of the variables, because replaced values are searched
  again (`ColonInValueMatters`).  For two variables it does, in some pattern, exactly if a colon of one value starts the
  other's placeholder, or would with the right text behind it, and the other's value is not that placeholder itself
  (`OrderMattersExactly`); a value such as `12:30` is harmless.
- The encryption handler evicts the room of the event, every other deletion the room of the mapping; both are the
  same key because a cached mapping always carries the room it is stored under.
- A backfilled reply refers to its thread by the raw Slack timestamp, a live reply (src/bridge.rs:1711-1723,
  src/slack.rs:1080-1083) by the Matrix event linked to it.  The two are the same exactly if the message is no reply or
  its root is not linked (`ImportedReplyIsLiveExactly`, `ThreadReplyIsLiveExactly`); an import of a root and a reply to
  it already shows the difference (`ImportedReplyIsRaw`).
- The file name reader strips only an empty language tag: `''` must follow the charset directly.  With a tag the name
  comes out right exactly if it contains a slash or a backslash, behind which the rest is cut (`TaggedNameIsRightExactly`).
- A `filename*` value that is not ASCII can end the source's string slice inside a character, which panics: exactly if
  the two bytes after the first `%` that is no escape end inside one (`PanicsExactly`, `HeaderPanicsExactly`), as in the
  header of `AccentAfterDigitPanics`.  No ASCII header reaches it (`AsciiHeaderIsRead`).

## Model

| member | source | states |
|---|---|---|
| `TimedCacheModel.TimedCache.Get` | src/cache.rs:27-35 | serves an entry exactly while its age is below the ttl; an expired entry is a miss and is left in place |
| `TimedCacheModel.TimedCache.Insert` | src/cache.rs:37-45 | stamps the value with the time of insertion and touches no other key |
| `TimedCacheModel.TimedCache.Remove` | src/cache.rs:47-49 | forgets the key and returns what it held, even if expired |
| `TimedCacheModel.TimedCache.Clear` | src/cache.rs:51-53 | forgets everything |
| `TimedCacheModel.TimedCache.CleanupExpired` | src/cache.rs:67-69 | keeps exactly the live entries |
| `TimedCacheModel.YoungEntriesAreKept` | src/cache.rs:27-35 | an entry is kept, and served, if and only if its age is below the ttl, where a clock set back counts as no age |
| `TimedCacheModel.CleanupIsInvisible` | src/cache.rs:67-69 | whenever the clean-up runs, every later lookup answers as if it had not |
| `RoomStoreModel.RoomStore.GetRoomByMatrixRoom` | src/db/sqlite.rs:203-223 | finds the row of the room, or reports that no row has it |
| `RoomStoreModel.RoomStore.GetRoomBySlackChannel` | src/db/sqlite.rs:181-201 | finds the row of the channel, or reports that no row has it |
| `RoomStoreModel.RoomStore.GetRoomById` | src/db/sqlite.rs:225-242 | finds the row with that id, if there is one |
| `RoomStoreModel.RoomStore.CreateRoomMapping` | src/db/sqlite.rs:281-303 | succeeds exactly when neither unique column clashes, and then adds one row under a fresh id |
| `RoomStoreModel.RoomStore.UpdateRoomMapping` | src/db/sqlite.rs:305-326 | replaces the row of that id, fails on a clash, and does nothing for an unknown id |
| `RoomStoreModel.RoomStore.DeleteRoomMapping` | src/db/sqlite.rs:328-340 | removes exactly the row of that id; the id is never given out again |
| `RoomStoreModel.TableStaysValid` | src/db/manager.rs:455-460 | insert, update and delete keep ids and both unique columns unique and ids below the counter |
| `RoomStoreModel.LookupsFindTheRow` | src/db/manager.rs:456-460 | in a valid table both lookups return precisely the row that holds the value |
| `RoomBridgeModel.GhostIdRoundTrip` | src/bridge.rs:199-207 | a Slack user id is read back from a ghost's Matrix id, and from nothing that is not written that way |
| `RoomBridgeModel.LookupAgrees` | src/bridge.rs:177-197 | under the invariant a cached lookup agrees with the table on id, room, channel and team, and leaves an agreeing cache |
| `RoomBridgeModel.CachedCallsIgnoreTheName` | src/bridge.rs:607-1129 | every handler that reads through the cache makes the same calls whatever the mapping's channel name |
| `RoomBridgeModel.CachedChangesIgnoreTheName` | src/bridge.rs:742-776 | and makes the same table change |
| `RoomBridgeModel.HandlersHaveShape` | src/bridge.rs:1345-1350 | each handler that deletes a row evicts that row's room, and only direct readers update, changing nothing but the name |
| `RoomBridgeModel.ChangeKeepsInv` | src/bridge.rs:765-772 | a change of that shape keeps table and cache in agreement |
| `RoomBridgeModel.InvHolds` | src/bridge.rs:177-197 | after every run each cache entry is keyed by its room and is the link of a current row |
| `RoomBridgeModel.StepRefines` | src/bridge.rs:177-197 | one handler through the cache makes the calls and the table of the handler that reads the table |
| `RoomBridgeModel.CacheRefinesTable` | src/bridge.rs:177-197 | for every list of events and clock readings, the run with the cache makes exactly the outward calls and the table changes of the run without it |
| `RoomBridgeModel.DeletionIsComplete` | src/bridge.rs:1345-1350 | after any deleting handler neither table nor cache finds the room or the channel, however much later one asks |
| `RoomBridgeModel.UnbridgeUndoesBridge` | src/bridge.rs:1296-1350 | bridging adds one row under the next id, and unbridging the room restores the rows of before |
| `RoomBridgeModel.RenameLeavesCachedName` | src/bridge.rs:2385-2391 | a rename changes the name of one row and leaves the cached copy as it was, so that the two names agree if and only if the copy already had the new name |
| `RoomBridgeModel.LimitIsExceededExactly` | src/bridge.rs:2256-2306 | with whole handlers as steps, from within the limit the limit is exceeded if and only if the event is a Slack bridge command at the limit whose channel and new room are free and whose calls succeed |
| `RoomBridgeModel.LimitCrossedBySlackCommand` | src/bridge.rs:2256-2306 | every run that starts within the limit and ends above it contains such a command at such a moment |
| `RoomBridgeModel.LimitHoldsWithoutSlackBridge` | src/bridge.rs:1278-1293 | every run without Slack bridge commands, that is of the Matrix command, the web interface and all other handlers, keeps the limit |
| `RoomBridgeModel.SlackCommandExceedsLimit` | src/bridge.rs:2256-2306 | one such input: the first Slack bridge command under a limit of no rooms |
| `RoomEffectsModel.RowIsDeletedExactly` | src/bridge.rs:2213-2235 | from every state of the invariant a row disappears if and only if the event names it, by its channel (Slack unbridge, Slack deletion), its room (Matrix unbridge, encryption) or its id (web), and every step of the handler succeeds; its room is then out of the cache too |
| `RoomEffectsModel.RowStaysExactly` | src/bridge.rs:2345-2431 | every other row keeps all its fields, except that a row takes a new name if and only if Slack reports it, the room does not show it yet, and setting and storing it succeed |
| `RoomEffectsModel.RowIsCreatedExactly` | src/bridge.rs:1198-1276 | a new row stands under the next id, with room, channel, name and team of the event, if and only if the room and the channel are free, the calls succeed and, from Matrix and the web, the limit is not reached |
| `RoomEffectsModel.LookupIsRemembered` | src/bridge.rs:177-197 | a lookup by room leaves a live entry alone, and otherwise stores the row with the present time |
| `RoomEffectsModel.ContentIsForwarded` | src/bridge.rs:778-860 | texts, topics and non-empty names of a room reach its own channel, and texts of a channel its own room, and nothing else is called |
| `RoomEffectsModel.NoEcho` | src/bridge.rs:607-1047 | what a ghost does to a room (name, topic, redaction, reaction, membership) is never sent back to Slack |
| `RoomEffectsModel.RelationsAreForwarded` | src/bridge.rs:927-1047 | a reaction or redaction of a real user reaches exactly the linked message of the channel, unless there is none or deletions are switched off |
| `RoomEffectsModel.OnlyColonsAreTrimmed` | src/bridge.rs:987-1047 | the name of a reaction is the key without the colons around it, and only these |
| `RoomEffectsModel.ReceiptsAreForwarded` | src/bridge.rs:1081-1129 | the receipts of a room mark its channel, unless switched off |
| `RoomEffectsModel.MarksOneByOne` | src/bridge.rs:1095-1125 | receipt by receipt: one mark for each linked message a real user has read, none for a ghost or an unlinked event |
| `RoomEffectsModel.RemovalIsForwarded` | src/bridge.rs:607-740 | a ghost kicked or banned by someone else is taken out of the channel and the channel is told by whom and why; after a kick it is restored after the configured time |
| `RoomEffectsModel.OtherMembersAreNot` | src/bridge.rs:607-740 | joins, users who leave by themselves and users that are no ghosts cause no call |
| `RoomEffectsModel.PowerLevelsAreTold` | src/bridge.rs:862-925 | changed power levels are told in one message to the channel, or not at all |
| `RoomEffectsModel.PowerLevelsOneByOne` | src/bridge.rs:876-897 | that message names the ghosts with their levels, user by user and in order |
| `Prelude.PrintedNumbersAreRead` | src/bridge.rs:876-897 | every number is printed with exactly the digits that read back as it |
| `Prelude.SignsArePrinted` | src/bridge.rs:876-897 | negative numbers have a sign, others none |
| `RoomEffectsModel.UnbridgingIsTold` | src/bridge.rs:1295-1353 | unbridging from Matrix or the web puts the configured prefixes before the current name and topic, deletes the alias of the channel if configured, and answers if the deletion worked |
| `RoomEffectsModel.SlackRemovalIsTold` | src/bridge.rs:2433-2559 | a Slack unbridge command is confirmed if and only if the row was deleted; an archived channel is announced and marked, a deleted one marked |
| `RoomEffectsModel.EncryptionIsTold` | src/bridge.rs:742-776 | encryption is answered with a notice, and with leaving if the notice went out |
| `RoomEffectsModel.UnmappedIsSilent` | src/bridge.rs:607-1129 | without a row of its room, channel or id an event causes no call, except the answer to a command |
| `RoomEffectsModel.BridgingIsTold` | src/bridge.rs:1198-1276 | a bridge made from Matrix or the web: the answer for each obstacle, and after the new row the room name, the backfill if configured and the confirmation |
| `RoomEffectsModel.SlackBridgingIsTold` | src/bridge.rs:2256-2316 | the same for the Slack command, which creates a room named after the channel |
| `RoomEffectsModel.NameFollowsPattern` | src/bridge.rs:1239-1245 | in the room name `:guild` becomes the team and `:name` the channel name after a `#` |
| `RoomEffectsModel.UpdateIsTold` | src/bridge.rs:2345-2431 | a new name, topic or (without a topic) purpose is set in the room if and only if the room does not have it, each only after what comes before succeeded |
| `BridgeCoreModel.BridgeCore.GetRoomMappingCached` | src/bridge.rs:177-197 | read cache, else read table and fill: the mutable object computes `CachedLookup` |
| `BridgeCoreModel.BridgeCore.HandleMatrixEncryption` | src/bridge.rs:742-776 | notice, leave, delete, evict, each only after the one before succeeded: exactly the handler's step |
| `BridgeCoreModel.BridgeCore.UnbridgeMatrixRoom` | src/bridge.rs:1295-1353 | farewell state, alias, delete, evict, reply: exactly the handler's step |
| `BridgeCoreModel.BridgeCore.HandleSlackUnbridge` | src/bridge.rs:2213-2235 | reads by channel, deletes, evicts, confirms: exactly the handler's step, which deletes as `RowIsDeletedExactly` says |
| `BridgeCoreModel.BridgeCore.HandleSlackChannelDelete` | src/bridge.rs:2503-2559 | reads by channel, says farewell, deletes, evicts: exactly the handler's step |
| `BridgeCoreModel.BridgeCore.HandleSlackChannelUpdate` | src/bridge.rs:2345-2431 | reads the room name, renames room and row, reads and sets the topic, each only after the one before succeeded: exactly the handler's step |
| `BridgeCoreModel.BridgeCore.BridgeMatrixRoom` | src/bridge.rs:1198-1276 | limit, existing bridge, channel, then the row and what follows it: exactly the handler's step |
| `BridgeCoreModel.BridgeCore.RecordBridge` | src/bridge.rs:1217-1275 | the row, and after it only if it was inserted the room name, the backfill if it is configured, and the reply |
| `BridgeCoreModel.BridgeCore.RequestBridgeSlackChannel` | src/bridge.rs:2256-2316 | the Slack command, which creates the room itself and never checks the limit: exactly the handler's step |
| `BridgeCoreModel.BridgeCore.HandleSlackChannelArchive` | src/bridge.rs:2433-2476 | a notice, then the archived name prefix: exactly the handler's step |
| `BridgeCoreModel.BridgeCore.DeleteBridge` | src/web/provisioning.rs:94-128 | finds the row by id and unbridges its room: exactly the handler's step |
| `BridgeCoreModel.BridgeCore.HandleMatrixMember` | src/bridge.rs:607-740 | joins on an invitation of the bot; forwards kicks and bans of ghosts by others: exactly the handler's step |
| `BridgeCoreModel.BridgeCore.HandleMatrixRoomName` | src/bridge.rs:778-818 | renames the channel unless the name is empty or set by a ghost: exactly the handler's step |
| `BridgeCoreModel.BridgeCore.HandleMatrixRoomTopic` | src/bridge.rs:820-860 | sets the channel's topic unless set by a ghost: exactly the handler's step |
| `BridgeCoreModel.BridgeCore.ChangedUsers` | src/bridge.rs:876-897 | the loop over power levels lists the ghosts with an integer level, in order |
| `BridgeCoreModel.BridgeCore.HandleMatrixPowerLevels` | src/bridge.rs:862-925 | one message naming them, or nothing: exactly the handler's step |
| `BridgeCoreModel.BridgeCore.HandleMatrixRedaction` | src/bridge.rs:927-985 | deletes the linked Slack message and, if that succeeded, the link: exactly the handler's step |
| `BridgeCoreModel.BridgeCore.HandleMatrixReaction` | src/bridge.rs:987-1047 | adds the reaction, without its colons, to the linked message: exactly the handler's step |
| `BridgeCoreModel.BridgeCore.HandleMatrixTyping` | src/bridge.rs:1049-1079 | only looks the mapping up: exactly the handler's step |
| `BridgeCoreModel.BridgeCore.HandleMatrixReceipt` | src/bridge.rs:1081-1129 | marks the channel read up to each linked message: exactly the handler's step |
| `BridgeCoreModel.BridgeCore.MarkRead` | src/bridge.rs:1095-1125 | the loop over receipts makes one call for each linked receipt of a real user, in order |
| `BridgeCoreModel.BridgeCore.constructor` | src/bridge.rs:77-115 | a new bridge has an empty table and an empty cache, which agree; every method above keeps that agreement in `Valid` |
| `RoomInterleavingModel.InvAfter` | src/bridge.rs:177-197 | in every interleaving each cached or held mapping is the link some id was issued with |
| `RoomInterleavingModel.IssuedWasStored` | src/db/sqlite.rs:281-303 | every issued id belongs to a row that was in the table at some earlier moment |
| `RoomInterleavingModel.LookupReturnsStoredRow` | src/bridge.rs:177-197 | whatever a lookup returns agrees on id, room, channel and team with a row stored at some earlier moment |
| `RoomInterleavingModel.HitIsYoung` | src/cache.rs:27-35 | a cache hit is less than the ttl after its insertion and is for the room asked for |
| `RoomInterleavingModel.DeleteIsExact` | src/db/sqlite.rs:328-340 | a delete through any mapping, stale or not, removes the row it came from or nothing |
| `RoomInterleavingModel.RenameIsExact` | src/bridge.rs:2385-2391 | a rename through any mapping changes only that row's name, or nothing if the row is gone |
| `RoomInterleavingModel.EvictionForgets` | src/bridge.rs:1345-1350 | once its row is deleted, its room evicted and no fill of it is under way, a mapping is in no cache |
| `RoomInterleavingModel.ForgottenForEver` | src/bridge.rs:177-197 | and from then on no run brings it back, into the cache or to any new lookup |
| `RoomInterleavingModel.ServedAgainExactly` | src/bridge.rs:177-197 | in every reachable state a deleted row can be returned by a new lookup in some continuation if and only if the cache holds a live entry for it or a fill of it is in flight |
| `RoomInterleavingModel.EvictedServedExactly` | src/bridge.rs:1345-1350 | after its deletion and eviction, if and only if a fill of it is in flight |
| `RoomInterleavingModel.LateFillServesDeletedRow` | src/bridge.rs:177-197 | one such run, from the empty bridge |
| `RoomInterleavingModel.HandlersProceed` | src/bridge.rs:177-197 | each handler goes from the cache to the table, fills the cache with the row of the room it asked for, and after a deletion evicts the room of the deleted row |
| `CommandsModel.GuildAndChannelRoundTrip` | src/parsers/command_parser.rs:28-46 | `guild/channel` and `guild channel` are both read back as the pair |
| `CommandsModel.MatrixGate` | src/matrix/command_handler.rs:69-101 | bridging and unbridging are granted if and only if self-service is enabled, the sender permitted and the room in the right state |
| `CommandsModel.MatrixRefusals` | src/matrix/command_handler.rs:69-135 | each refusal of a Matrix command is given if and only if its reason holds and no earlier one does |
| `CommandsModel.MatrixRequestIsRead` | src/parsers/command_parser.rs:28-46 | an accepted request is for the guild and channel that were read |
| `CommandsModel.GuildAndChannelExactly` | src/parsers/command_parser.rs:28-46 | whatever is read as guild and channel was written in one of the two spellings, with neither part empty |
| `CommandsModel.SlackGate` | src/slack/command_handler.rs:60-145 | approve and deny are granted if and only if the sender holds MANAGE_WEBHOOKS, bridge and unbridge if and only if also MANAGE_CHANNELS |
| `CommandsModel.SlackRequestIsRead` | src/slack/command_handler.rs:115-145 | a Slack bridge command names its guild first and its channel second |
| `CommandsModel.SlackRefusals` | src/slack/command_handler.rs:49-145 | permission is denied if and only if the sender lacks what the command needs; bridged and unbridged channels are refused accordingly |
| `CommandsModel.ModerationGate` | src/slack/command_handler.rs:147-165 | a kick, ban or unban is requested if and only if the sender holds the right for it and gives a name |
| `ProvisioningModel.InvAfter` | src/bridge/provisioning.rs:53-99 | the protocol's invariant holds after every interleaving of asks, answers, failures and timeouts |
| `ProvisioningModel.PendingAsksAreOpen` | src/bridge/provisioning.rs:63-66 | the map never holds an entry of an ask that has returned, and files every ask under its channel |
| `ProvisioningModel.OneOwner` | src/bridge/provisioning.rs:93-99 | an undecided sender is owned by the map or by exactly one answerer, never both |
| `ProvisioningModel.DecidedByOneAnswer` | src/bridge/provisioning.rs:76-86 | every ask that ends approved or declined is matched by exactly one answer, which was sent and says the same |
| `ProvisioningModel.AppliedAnswerIsObeyed` | src/bridge/provisioning.rs:78-85 | an applied answer is obeyed by its ask unless that ask's prompt failed or its timer had fired |
| `ProvisioningModel.WaitingAskReceivesDecision` | src/bridge/provisioning.rs:76-82 | an ask that still waits when the decision is sent can return it, and with that very decision |
| `ProvisioningModel.DecisionArrivesExactly` | src/bridge/provisioning.rs:93-99 | a decision that is sent arrives if and only if its ask has neither returned nor timed out |
| `ProvisioningModel.DroppedExactly` | src/bridge/provisioning.rs:59-85 | an ask loses its sender unanswered if and only if its entry is in the map and a newer ask or a clean-up of its channel removes that entry |
| `ProvisioningModel.CleanUpTouchesExactly` | src/bridge/provisioning.rs:68-85 | the clean-up after a failed prompt or a timeout touches another ask if and only if the map holds that ask for the channel |
| `ProvisioningModel.CleanUpCancelsNewerAsk` | src/bridge/provisioning.rs:68-85 | in every run an ask so touched is newer and undecided, and if it waits it returns cancelled |
| `ProvisioningModel.CancelledOnlyByOthers` | src/bridge/provisioning.rs:79-81 | an ask ends cancelled only if, while its sender was parked, a newer ask began in its channel or another ask's clean-up ran there |
| `ProvisioningModel.GivenUpExactly` | src/bridge/provisioning.rs:68-85 | an ask is in, or returned from, the failure of its prompt or its timer if and only if that happened at some step of the run |
| `ProvisioningModel.CancelledExactly` | src/bridge/provisioning.rs:76-86 | a returned ask was cancelled if and only if at some step of the run that happened, and at no step its own prompt failed or its own timer fired |
| `ProvisioningModel.FailedPromptCanCancelANewerAsk` | src/bridge/provisioning.rs:68-73 | one such run with a failed prompt |
| `ProvisioningModel.TimeoutCanCancelANewerAsk` | src/bridge/provisioning.rs:82-85 | one such run with a timeout |
| `ProvisioningModel.ProvisioningCoordinator.Begin` | src/bridge/provisioning.rs:53-66 | a new ask replaces the pending entry of its channel, whose sender is dropped |
| `ProvisioningModel.ProvisioningCoordinator.FailDelivery` | src/bridge/provisioning.rs:68-73 | a failed prompt removes the channel's entry and reports the failure |
| `ProvisioningModel.ProvisioningCoordinator.Expire` | src/bridge/provisioning.rs:82-85 | a fired timer removes the channel's entry and reports the timeout |
| `ProvisioningModel.ProvisioningCoordinator.MarkApproval` | src/bridge/provisioning.rs:93-99 | takes the sender out of the map and sends the decision, or reports that nothing was pending |
| `BridgeSafetyModel.InvAfter` | src/bridge.rs:1136-1276 | the invariant of the whole request path holds after every interleaving |
| `BridgeSafetyModel.InsertionIsJustified` | src/bridge.rs:1143-1236 | when a row is about to be inserted for a request, self-service was on, the sender permitted, and an approval by a holder of MANAGE_WEBHOOKS in that channel removed exactly that request |
| `BridgeSafetyModel.RequestsAreSelfService` | src/matrix/command_handler.rs:108-120 | no request exists unless self-service is enabled |
| `BridgeSafetyModel.RowsAreApproved` | src/bridge.rs:1176-1236 | every row ever created on this path carries the room, channel and team of a permitted request with such an approval, also after renames |
| `BridgeSafetyModel.OneRowPerApproval` | src/bridge.rs:2081-2093 | no approval yields two rows |
| `BridgeSafetyModel.ChecksExactly` | src/bridge.rs:1136-1215 | a request is put to the channel, and later to its insertion, if and only if there is room below the limit, nothing is bridged to the channel and the calls of that round succeed; it goes on after its question if and only if it was approved |
| `BridgeSafetyModel.SlackCommandsExactly` | src/bridge.rs:2068-2235 | a Slack command answers the channel's pending question, as asked, or deletes the channel's row, if and only if its sender may; any other changes nothing |
| `BridgeSafetyModel.MatrixCommandsExactly` | src/bridge.rs:569-605 | a Matrix command opens a request for its room, or deletes its room's row, if and only if self-service is on, its sender permitted and the room in the right state; any other changes nothing |
| `BridgeSafetyModel.InsertionExactly` | src/bridge.rs:1217-1236 | its insertion adds its row if and only if neither room nor channel has been taken in the meantime |
| `BridgeSafetyModel.LinksAreUnique` | src/db/manager.rs:456-460 | no room and no channel is ever in two rows, whichever paths created them |
| `BridgeSafetyModel.LimitIsExceededExactly` | src/bridge.rs:1198-1231 | with check and insertion as separate steps the limit is exceeded if and only if an action adds a row when it is reached |
| `BridgeSafetyModel.TwoCheckedRequestsExceedLimit` | src/bridge.rs:1204-1231 | two checked requests for different rooms and channels, one below the limit, exceed it by their insertions |
| `BridgeSafetyModel.ApprovedRequestIsChecked` | src/bridge.rs:1136-1236 | whenever a bridge may be made, a permitted request that is approved while nothing else happens comes to the point of inserting its row, with nothing else changed |
| `BridgeSafetyModel.ApprovedRequestsExceedLimit` | src/bridge.rs:1198-1231 | from every reachable state one room below the limit, two such requests for different rooms and channels have a run that ends above it |
| `BridgeSafetyModel.ARunExceedsTheLimit` | src/bridge.rs:1198-1231 | such a run from the empty bridge with room for one: it ends with two rows |
| `MessageLinksModel.InvAfter` | src/bridge.rs:1748-1794 | after every run of messages, edits, deletions, redactions and imports the index is valid and its events are distinct |
| `MessageLinksModel.IndexIsTheLog` | src/db/sqlite.rs:578-658 | the table is what the recorded table writes say: a row for each timestamp linked and not unlinked since, with the room and event of its last link |
| `MessageSendsModel.LinksWereSent` | src/bridge.rs:1774-1794 | in every run each link written to the table comes right after the send that completed that very message, with its room and event |
| `MessageSendsModel.RowsWereSent` | src/bridge.rs:1774-1794 | so each row holds the event of a completed delivery of its own Slack message, whatever fails |
| `MessageSendsModel.IndexIsTheSends` | src/bridge.rs:1748-1794 | with upserts succeeding, each row holds room and event of the last completed delivery of its Slack message, and there is no row exactly if there was none since the message was deleted or its event redacted; told from the calls alone |
| `MessageLinksModel.LookupsAreInverse` | src/db/sqlite.rs:534-576 | the lookups by timestamp and by event are inverse to each other |
| `MessageSendsModel.MessageSendsExactly` | src/bridge.rs:1612-1796 | for every state and every message, whatever fails: one send for each attachment and one for the text (or if there is nothing else), to the bridged room, each replying to the event linked to the thread root, or to its timestamp, or to nothing; only the text names what it edits; then a link to the last send if and only if none failed |
| `MessageSendsModel.UnbridgedMessageIsDropped` | src/bridge.rs:1656-1682 | without a bridged room or a registered sender nothing is sent |
| `MessageSendsModel.FailedDeletionChangesNothing` | src/bridge.rs:1798-1821 | a deletion or redaction that is not carried out, or has no link, changes nothing |
| `MessageLinksModel.EditReplacesCurrentEvent` | src/bridge.rs:1748-1794 | a text edit of a linked message replaces the event the row held just before, and the row moves to the new event |
| `MessageSendsModel.EditNamesOldEventExactly` | src/bridge.rs:1590-1607 | some send of an edit names the old event if and only if the edit has text or no attachments |
| `MessageLinksModel.DeleteRedactsCurrentEvent` | src/bridge.rs:1798-1821 | a Slack deletion redacts the current event and removes the row from both lookups |
| `MessageLinksModel.RedactionDeletesItsMessage` | src/bridge.rs:927-985 | a redaction of a linked event deletes that Slack message and leaves every other link alone |
| `MessageLinksModel.UpsertWritesOneRow` | src/db/sqlite.rs:578-622 | find-then-update-or-insert writes one row and never a second one for the timestamp |
| `MessageStoreModel.MessageStore.GetBySlackMessageId` | src/db/sqlite.rs:534-554 | finds the row of the timestamp, or reports that there is none |
| `MessageStoreModel.MessageStore.GetByMatrixEventId` | src/db/sqlite.rs:556-576 | finds a row of the event if there is one |
| `MessageStoreModel.MessageStore.UpsertMessageMapping` | src/db/sqlite.rs:578-622 | updates room and event of an existing timestamp, or inserts under a fresh id |
| `MessageStoreModel.MessageStore.DeleteBySlackMessageId` | src/db/sqlite.rs:624-640 | removes exactly the rows of the timestamp |
| `MessageStoreModel.MessageStore.DeleteByMatrixEventId` | src/db/sqlite.rs:642-658 | removes exactly the rows of the event |
| `BackfillModel.MessageBridge.Send` | src/bridge.rs:1487-1610 | attachments one by one, then the text; the event of the last send, or a failure at the first send that fails |
| `BackfillModel.MessageBridge.HandleSlackMessage` | src/bridge.rs:1612-1796 | the handler on the mutable store is the index model's message step, whose sends `MessageSendsExactly` gives |
| `BackfillModel.MessageBridge.HandleSlackMessageDelete` | src/bridge.rs:1798-1821 | the handler on the mutable store is the index model's deletion step |
| `BackfillModel.MessageBridge.HandleMatrixRedaction` | src/bridge.rs:927-985 | the handler on the mutable store is the index model's redaction step |
| `BackfillModel.MessageBridge.BackfillChannel` | src/bridge/backfill.rs:31-203 | the paging loop, with its reversal of each page and its three exits, imports the visited messages in order up to the cap, and reports success if and only if no request failed before the cap was reached |
| `BackfillModel.MessageBridge.BackfillThread` | src/bridge/backfill.rs:206-314 | the thread loop imports every reply, without a cap |
| `BackfillModel.VisitedExactly` | src/bridge/backfill.rs:182-203 | the paging reads on while a page has messages, more behind it and a cursor, stops behind the first that has not and before the first that cannot be read, and visits each page oldest first |
| `BackfillModel.PlannedExactly` | src/bridge/backfill.rs:86-128 | a message is imported if and only if its subtype is none of the five channel notices, it has a user, and it has text or files; it goes to the bridged room with its attachments, its text and its thread |
| `BackfillModel.ThreadPlannedExactly` | src/bridge/backfill.rs:236-275 | a message of a thread is imported if and only if it has a user and text, replying to the root unless it is the root |
| `BackfillModel.ImportedReplyIsLiveExactly` | src/bridge/backfill.rs:116-118 | an imported message refers to what the same live message would refer to if and only if it is no reply or its root is not linked |
| `BackfillModel.ThreadReplyIsLiveExactly` | src/bridge/backfill.rs:261-265 | a message of an imported thread does if and only if it is the root, or has a timestamp and the root is not linked |
| `BackfillModel.ImportedReplyIsRaw` | src/bridge/backfill.rs:116-135 | one import in which the root is linked and the reply to it still refers to the timestamp |
| `BackfillModel.SteadyImport` | src/bridge/backfill.rs:86-180 | when all sends and writes succeed, a run sends precisely the first unlinked messages up to the cap and links them |
| `BackfillModel.BackfillProgress` | src/bridge/backfill.rs:31-203 | j runs with cap m over a fixed history completely send exactly the first min(N, j*m) of its N unlinked messages, each once and in order, as the log shows, and link them |
| `BackfillModel.HistoryProgress` | src/bridge/backfill.rs:31-203 | the same told from the pages: j runs import exactly the first j*m of the importable, unlinked messages on the pages up to the one that ends the paging |
| `MessageSendsModel.ImportSendsItsPlans` | src/bridge/backfill.rs:121-168 | an import only adds to the log, and every send it adds has the room, the Slack message and the thread of one of its messages |
| `BackfillModel.PendingIsDistinct` | src/bridge/backfill.rs:108-120 | what is left to send has no duplicates, nothing linked already, and misses nothing |
| `BackfillModel.ImportIsBounded` | src/bridge/backfill.rs:76-79 | even with failures no run counts more than its cap, completes a linked message again or loses a link |
| `MessageSendsModel.ImportCountsCompleted` | src/bridge/backfill.rs:76-180 | whatever fails, a run counts exactly the messages whose every send is in the log, at most its cap, and begins one more for each message that breaks off after its first send |
| `MessageSendsModel.CapBoundsSends` | src/bridge/backfill.rs:76-180 | if no message fails after its first send, the cap bounds the messages that reach Matrix at all |
| `MessageSendsModel.BrokenMessageExceedsCap` | src/bridge/backfill.rs:166-168 | one input that exceeds it: cap one, a message that breaks off after its first file, and a second one |
| `MessageSendsModel.OrderIsTheSends` | src/bridge/backfill.rs:76-180 | the order a run reports is the order of the completed messages in the log |
| `HtmlModel.EscapeIsCharMap` | src/parsers/blocks.rs:666-671 | the four chained replaces equal one map over the characters |
| `HtmlModel.StripConcat` | src/parsers/common.rs:321-339 | removing tags from a text with closed tags is independent of what follows |
| `HtmlModel.StripInvertsEscape` | src/parsers/common.rs:321-339 | stripping and decoding an escaped text gives the text back, for every text |
| `HtmlModel.OtherEntitiesAreDecoded` | src/parsers/common.rs:321-339 | a non-breaking space and the two numeric apostrophes are decoded as well |
| `SlackTextModel.NormalizeOfEscape` | src/parsers/common.rs:314-318 | decoding an escaped text is replacing literal `&lt;` and `&gt;` in the text itself |
| `SlackTextModel.NormalizeIsExactWhen` | src/parsers/common.rs:314-318 | the decoder inverts the escaping if and only if the text contains neither `&lt;` nor `&gt;` |
| `BlocksModel.SectionHtml` | src/parsers/blocks.rs:200-213 | the loop over a section's elements computes the concatenation of their HTML, each wrapped as `TextIsWrapped` says, or nothing |
| `BlocksModel.SectionPlain` | src/parsers/blocks.rs:215-228 | the loop over a section's elements computes the concatenation of their plain texts, or nothing |
| `BlocksModel.ListHtml` | src/parsers/blocks.rs:384-404 | the loop over list items computes one `li` for each rendered item |
| `BlocksModel.AddCell` | src/parsers/blocks.rs:440-457 | one turn of the table loop extends the table by one cell, closing a full row and opening the next |
| `BlocksModel.TableHtml` | src/parsers/blocks.rs:436-464 | the table loop with its `row_open` flag computes rows of two cells, the last one perhaps of one |
| `BlocksModel.BlocksHtml` | src/parsers/blocks.rs:5-54 | the block loop collects what each block renders to and joins it, or reports that nothing was rendered |
| `BlocksModel.AttachmentsHtml` | src/parsers/blocks.rs:559-577 | the attachment loop does the same for attachments |
| `BlocksTagsModel.TextIsWrapped` | src/parsers/blocks.rs:328-348 | a text element is its escaped text inside exactly the elements of its style: strike is `del`, italic `em`, bold `strong`, code `code`, in this order from outside |
| `BlocksTagsModel.LinkIsWrapped` | src/parsers/blocks.rs:246-252 | a link is an anchor to its escaped address around its label, or else its address, in the elements of its style |
| `BlocksTagsModel.UserIsLinked` | src/parsers/blocks.rs:238-241 | a user is a link to its ghost |
| `BlocksTagsModel.ChannelIsLinked` | src/parsers/blocks.rs:242-245 | a channel is a link to its alias |
| `BlocksTagsModel.BroadcastAndDateAreWrapped` | src/parsers/blocks.rs:262-278 | a broadcast stands in a `font` element, a date without a fallback in a `time` element |
| `BlocksTagsModel.ColoursAreShown` | src/parsers/blocks.rs:262-269 | a broadcast is red, a colour a square in that colour before its value |
| `BlocksTagsModel.ContainersWrap` | src/parsers/blocks.rs:350-382 | a quote is its elements inside a `blockquote`, preformatted text inside `pre` and `code`, a section its bare elements; nothing if they are empty |
| `BlocksTagsModel.ListIsWrapped` | src/parsers/blocks.rs:384-404 | a list is an `ol` if its style is `ordered`, and a `ul` otherwise |
| `BlocksTagsModel.ListStartsAfterOffset` | src/parsers/blocks.rs:384-404 | an ordered list with an offset starts at the number after it |
| `BlocksTagsModel.ItemsOneByOne` | src/parsers/blocks.rs:384-404 | the items come in order, each in an `li`, without the sections that render to nothing |
| `BlocksTagsModel.ConcatOneByOne` | src/parsers/blocks.rs:200-228 | the elements of a section come in order |
| `BlocksTagsModel.CollectOneByOne` | src/parsers/blocks.rs:5-54 | so do parts, blocks and attachments, without those that render to nothing |
| `BlocksTagsModel.OtherBlocksAreRendered` | src/parsers/blocks.rs:5-54 | a rich text block is its parts without anything between them, a divider a rule, and unknown kinds of block are left out |
| `BlocksTagsModel.CodeIsPlainText` | src/parsers/blocks.rs:350-367 | in preformatted text only text elements count, escaped and without styles |
| `BlocksTagsModel.ContextImageIsSmall` | src/parsers/blocks.rs:494-524 | an image of a context block is a small picture, unless it has no address |
| `BlocksTagsModel.HeaderIsWrapped` | src/parsers/blocks.rs:5-54 | a header is an `h3` |
| `BlocksTagsModel.RowsTwoByTwo` | src/parsers/blocks.rs:436-464 | two cells stand in a `tr` in their order, an odd last one in a `tr` of its own |
| `BlocksTagsModel.CellIsWrapped` | src/parsers/blocks.rs:436-464 | a cell is a `td` around its escaped text |
| `BlocksTagsModel.SectionBlockIsWrapped` | src/parsers/blocks.rs:430-466 | a section block is its escaped text, and on a new line the `table` of its fields |
| `BlocksTagsModel.ContextIsWrapped` | src/parsers/blocks.rs:494-524 | a context block is its parts, with bars between them, inside a `p` |
| `BlocksTagsModel.ContextTextIsWrapped` | src/parsers/blocks.rs:494-524 | a text of it is an `em`, unless it is empty |
| `BlocksTagsModel.ImageIsWrapped` | src/parsers/blocks.rs:544-557 | an image with a title is a `figure` with a `figcaption`, one without it the bare picture |
| `BlocksTagsModel.BlocksComeFirst` | src/bridge.rs:1684-1712 | the formatted body is the blocks and then the attachments, or whichever there is |
| `BlocksTagsModel.TitledIsWrapped` | src/parsers/blocks.rs:579-653 | author and title of an attachment are `strong`, and anchors if they have a link |
| `BlocksTagsModel.FieldIsWrapped` | src/parsers/blocks.rs:579-653 | a field is its title in a `strong`, a colon and its value, unless both are empty |
| `BlocksTagsModel.AttachmentIsWrapped` | src/parsers/blocks.rs:579-653 | an attachment is its parts on lines of their own inside a `blockquote`; previews of messages are left out |
| `BlocksTagsModel.PartsAreInOrder` | src/parsers/blocks.rs:579-653 | its parts are author, title, pretext, text or fallback, fields, picture and footer, in this order |
| `EmojiModel.EmojiRoundTrip` | src/parsers/blocks.rs:655-664 | every sequence of characters is read back from its hexadecimal codes joined by hyphens |
| `EmojiModel.CodesOneByOne` | src/parsers/blocks.rs:655-664 | codes are decoded one by one, and one that is no number is left out |
| `NestingModel.ScanConcat` | src/parsers/blocks.rs:5-54 | scanning tags with a stack can be cut at any balanced point |
| `NestingModel.ElementIsBalanced` | src/parsers/blocks.rs:328-348 | an element around balanced content is balanced, for any attributes without `>` |
| `BlocksNestingModel.NestedStyles` | src/parsers/blocks.rs:328-348 | every combination of the four styles nests around nested text |
| `BlocksNestingModel.ElementIsNested` | src/parsers/blocks.rs:230-288 | every kind of rich text element renders to well-nested HTML, if the string it copies unescaped nests where it becomes text and has no `>` where it becomes part of a tag |
| `BlocksNestingModel.ListIsNested` | src/parsers/blocks.rs:384-404 | rich text lists are well nested |
| `BlocksNestingModel.TableIsNested` | src/parsers/blocks.rs:430-466 | the table is well nested for any number of fields |
| `BlocksNestingModel.AttachmentIsNested` | src/parsers/blocks.rs:579-653 | every attachment is well nested, whatever its texts, links and fields contain |
| `BlocksNestingModel.FormattedBodyIsNested` | src/parsers/blocks.rs:5-54 | for every list of blocks and attachments the formatted body has all its tags closed in nesting order, if all copied strings are such |
| `BlocksNestingModel.UserGroupNestsExactly` | src/parsers/blocks.rs:279-282 | an element whose id is inserted unescaped is well nested if and only if the id is |
| `BlocksNestingModel.EmojiNestsExactly` | src/parsers/blocks.rs:253-261 | an emoji shown by its name is well nested if and only if the name and the colon behind it are |
| `BlocksNestingModel.LoneAngleIsNotNested` | src/parsers/blocks.rs:279-282 | so a user group whose id is a lone `<` renders to HTML that is not |
| `BlocksTextModel.ElementReads` | src/parsers/blocks.rs:230-288 | the HTML of every element, stripped and decoded, reads exactly one given text whatever follows it |
| `BlocksTextModel.ElementAgreesExactly` | src/parsers/blocks.rs:290-326 | stripped HTML and plain rendering of an element are equal if and only if its kind is one of those named by `Agrees` |
| `BlocksTextModel.SectionsAgree` | src/parsers/blocks.rs:200-228 | for every section of such elements, in any mix of styles, the stripped HTML equals the plain rendering |
| `SlackListsModel.ConvertListsToHtml` | src/parsers/slack_parser.rs:477-522 | the two-flag loop is the step machine over the classified lines, with both lists closed at the end, in which each line stands as `LinesStandInTheirLists` says |
| `SlackListsModel.FlagsDescribeOpenLists` | src/parsers/slack_parser.rs:482-513 | at every moment the flags say which lists are open, an unordered list always inside an ordered one |
| `SlackListsModel.ListsAreWellNested` | src/parsers/slack_parser.rs:477-522 | for every sequence of lines the list tags come out well nested around well-nested contents |
| `SlackListsModel.LinesStandInTheirLists` | src/parsers/slack_parser.rs:477-522 | for every sequence of lines each bullet stands in a `ul`, each numbered line in an `ol` and each plain line in no list, and a line after one of its own kind opens no new list |
| `SlackListsModel.BulletExactly` | src/parsers/slack_parser.rs:77 | a line is a bullet if and only if it is a bullet, a space and a non-empty text |
| `SlackListsModel.NumberedExactly` | src/parsers/slack_parser.rs:78 | a line is numbered if and only if it is digits, a full stop, a space and a non-empty text |
| `SlackListsModel.ListsKeepContents` | src/parsers/slack_parser.rs:477-522 | removing the tags leaves the contents of all lines and items, in order |
| `MarkdownModel.SanitizeMarkdown` | src/parsers/common.rs:75-98 | the index loop with its look-ahead computes `Sanitized` |
| `MarkdownModel.SpecialCharacters` | src/parsers/common.rs:75-98 | exactly the asterisk, underscore, tilde, backtick and bar are escaped |
| `MarkdownModel.SanitizedIsEscaped` | src/parsers/common.rs:75-98 | every special character of the output is the second half of an escape pair, and input and output mean the same text |
| `MarkdownModel.UnchangedWhenEscaped` | src/parsers/common.rs:75-98 | a text is left as it is if and only if all its special characters are escaped already |
| `MarkdownModel.SanitizingIsIdempotent` | src/parsers/common.rs:75-98 | sanitising twice is sanitising once |
| `PatternModel.ApplyPatternString` | src/utils/formatting.rs:1-8 | the loop replaces one placeholder after the other |
| `PatternModel.NextVariable` | src/utils/formatting.rs:3-6 | replacing one placeholder everywhere substitutes that variable and leaves all others alone |
| `PatternModel.SequentialIsSimultaneous` | src/utils/formatting.rs:1-8 | with prefix-free, colon-free keys and every colon of the pattern starting a key, the loop equals substituting all variables at once, unless a later variable finds its placeholder in an earlier value, perhaps completed by the text behind it, and changes it |
| `PatternModel.OrderDoesNotMatter` | src/utils/formatting.rs:1-8 | and if this holds in both orders the result is the same |
| `PatternModel.SimultaneousExactly` | src/utils/formatting.rs:1-8 | for two variables that condition is also necessary: the loop substitutes at once in every pattern if and only if it holds |
| `PatternModel.ClearExactly` | src/utils/formatting.rs:1-8 | for any number of variables the condition holds if and only if every two of them substitute as if at once in every pattern |
| `PatternModel.OrderMattersExactly` | src/utils/formatting.rs:1-8 | the order of two variables with different keys makes no difference in any pattern if and only if the condition holds both ways |
| `PatternModel.ColonInValueMatters` | src/utils/formatting.rs:1-8 | one pattern and two variables, one with a placeholder as its value, whose two orders give two results |
| `KdlModel.NodesToJson` | src/config/kdl_support.rs:15-37 | the loop over nodes builds the object in which a repeated key accumulates |
| `KdlModel.NodeToJson` | src/config/kdl_support.rs:39-112 | arguments, properties and children are read by the same case analysis as `ValueOf` |
| `KdlModel.DashNodeToJson` | src/config/kdl_support.rs:115-156 | a dash child is read as `ItemOf` says |
| `KdlModel.FieldsRoundTrip` | src/config/kdl_support.rs:15-37 | whatever the order of its nodes, a document written for an object is read back as exactly that object |
| `KdlModel.ValueRoundTrip` | src/config/kdl_support.rs:39-112 | a node written for a value, as arguments, a block of fields or a block of dash children, is read back as that value |
| `KdlModel.FieldsCanBeRead` | src/config/kdl_support.rs:15-156 | every tree of non-empty objects and non-empty arrays of scalars or objects is the reading of some document |
| `KdlModel.EmptyIsNeverRead` | src/config/kdl_support.rs:39-156 | no node reads as an empty array or an empty object |
| `KdlModel.RepeatedKeys` | src/config/kdl_support.rs:18-34 | a repeated key whose first value is no array reads as all its values in document order; an array absorbs the later ones |
| `KdlModel.BlockIsRead` | src/config/kdl_support.rs:39-76 | a node with fields inside is the object of them in which each property sets its field and the last one of a name counts; a node of dash children is the array of these, whatever its entries |
| `KdlModel.LeafWithPropsIsRead` | src/config/kdl_support.rs:88-112 | a node with properties alone is the object of them, its arguments collected under `_`, where an array item drops them |
| `KdlModel.PlainLeafIsRead` | src/config/kdl_support.rs:79-86 | a node without properties is its one argument, the array of several, or null |
| `KdlModel.ItemsInOrder` | src/config/kdl_support.rs:53-60 | the items of an array are the dash children in order |
| `KdlModel.ScalarsAreKept` | src/config/kdl_support.rs:158-172 | only null and floats that are no JSON number read as null |
| `Utf8Model.DecodeIsInverse` | src/media.rs:233-251 | a byte string decodes to a text if and only if it is that text's encoding |
| `FilenameModel.PercentDecode` | src/media.rs:233-251 | the byte loop computes `Unescape`, with its rejections and the slice that can fail |
| `FilenameModel.FilenameFromContentDisposition` | src/media.rs:167-190 | the two loops return the first extended name that is usable, else the first plain one |
| `FilenameModel.UnescapeInvertsWriting` | src/media.rs:233-251 | percent-decoding reads back the bytes from every way of writing them that section 3.2.1 of RFC 5987 allows |
| `FilenameModel.ExtNameRoundTrip` | src/media.rs:167-190 | for every text, the header made of its extended notation yields the text's sanitised form, or no name exactly when there is none |
| `FilenameModel.ExtNameWins` | src/media.rs:167-190 | among other parameters the first usable extended name wins over every plain one, wherever it stands |
| `FilenamePlainModel.PlainNameIsRead` | src/media.rs:181-188 | without a usable extended name the first plain one is read, sanitised, with or without its quotes |
| `FilenamePlainModel.PlainNameAlone` | src/media.rs:181-188 | and so it is if it is the whole header |
| `FilenamePlainModel.OnlyQuotesAroundAreTrimmed` | src/media.rs:226-231 | quotes around a value are taken off, and nothing else |
| `FilenamePlainModel.PathIsRead` | src/media.rs:205-224 | of a path the last component is kept, without control characters, or no name if nothing is left |
| `FilenamePlainModel.OnlySpaceIsTrimmed` | src/media.rs:205-224 | trimming takes off all white space at the ends and nothing else |
| `FilenamePlainModel.ClassesEnd` | src/media.rs:205-224 | where control characters and white space begin and end |
| `FilenamePlainModel.ControlsOneByOne` | src/media.rs:218 | control characters are dropped one by one, and all others stay in order |
| `FilenameModel.SignIsRead` | src/media.rs:233-251 | an escape of a plus sign and one digit is read as that digit |
| `FilenameModel.PercentEncodeWrites` | src/media.rs:233-251 | every byte string has such a writing |
| `FilenameModel.SanitizedIsSafe` | src/media.rs:205-224 | a sanitised name is non-empty and free of slashes, backslashes and control characters |
| `FilenameModel.KeptWhenSafe` | src/media.rs:205-224 | a name is left as it is if and only if it is such a name without white space at its ends |
| `FilenameModel.HeaderNameIsSafe` | src/media.rs:167-190 | whatever the header, a name taken from it is such a name |
| `FilenameModel.PanicsExactly` | src/media.rs:233-251 | the slice fails if and only if the two bytes after the first `%` that is no escape end inside a character |
| `FilenameModel.HeaderPanicsExactly` | src/media.rs:167-190 | so does the whole reader on a header whose only parameter has that value |
| `FilenameModel.AccentAfterDigitPanics` | src/media.rs:233-251 | one such header |
| `FilenameModel.AsciiHeaderIsRead` | src/media.rs:233-251 | no ASCII header reaches the failing slice |
| `FilenameLanguageModel.TaggedNameReads` | src/media.rs:167-190 | with a non-empty language tag the header yields the sanitised form of charset, tag and name together |
| `FilenameLanguageModel.TagIsHarmlessExactly` | src/media.rs:205-224 | that is the name's own sanitised form if and only if the name contains a slash or a backslash |
| `FilenameLanguageModel.TaggedNameIsRightExactly` | src/media.rs:167-190 | so a header with any tag yields the sanitised name if and only if the tag is empty or the name contains a slash or a backslash |
| `FilenameLanguageModel.EnglishTagIsKept` | src/media.rs:167-190 | one header whose tag becomes part of the name |
| `PresenceModel.PresenceHandler.EnqueueUser` | src/bridge/presence_handler.rs:78-90 | drops the user's older entry and appends the new one; the bot is ignored |
| `PresenceModel.PresenceHandler.DequeueUser` | src/bridge/presence_handler.rs:92-97 | removes the user's entry and reports whether there was one |
| `PresenceModel.PresenceHandler.ProcessNext` | src/bridge/presence_handler.rs:99-138 | handles the first entry and puts it back at the end unless it is offline |
| `PresenceModel.PresenceIsMapped` | src/bridge/presence_handler.rs:140-190 | online and do-not-disturb users are shown online, idle ones unavailable, offline ones offline and dropped, with the first activity as status |
| `PresenceModel.NobodyQueuedTwice` | src/bridge/presence_handler.rs:78-138 | under any interleaving, with calls in flight, no user is queued twice |
| `PresenceModel.HandledInTurn` | src/bridge/presence_handler.rs:99-138 | an entry at position i has been handled after i + 1 later pops, whatever happens to other users |
| `PresenceModel.FullRound` | src/bridge/presence_handler.rs:99-138 | n undisturbed calls on n entries handle each once, in order, and leave exactly those that are not offline, in order |
| `PresenceModel.FinishReplacesNewerPresence` | src/bridge/presence_handler.rs:103-136 | in every state, when a call finishes, a presence of the same user enqueued meanwhile survives if and only if the older one is offline (or the same); otherwise the older one takes its place at the end |
| `PresenceModel.NewerPresenceIsLost` | src/bridge/presence_handler.rs:103-136 | the shortest run in which it is lost |
| `ChannelQueueModel.ChannelQueue.Enqueue` | src/bridge/queue.rs:17-52 | finds or creates the channel's lock and spawns a task that will ask for it |
| `ChannelQueueModel.OneLockForEver` | src/bridge/queue.rs:22-28 | a channel keeps the lock it first got, and no other channel ever shares it |
| `ChannelQueueModel.OneRunsAtATime` | src/bridge/queue.rs:30-33 | at most one task of a channel runs |
| `ChannelQueueModel.NobodyWaitsForAnotherChannel` | src/bridge/queue.rs:30-33 | a task waits only behind tasks of its own channel, and the first of them can always start or finish |
| `ChannelQueueModel.TasksRunInRequestOrder` | src/bridge/queue.rs:30-33 | the tasks of a channel start in the order in which they requested its lock |
| `ChannelQueueModel.LaterTaskMayOvertake` | src/bridge/queue.rs:30-33 | a run in which a task enqueued later starts first |

## Left out

- Slack Web API, Socket Mode, Matrix client calls, media transfer, web handlers, metrics and logging: plumbing; each call is an outcome carried by the action.
- SQL engines and the Postgres and MySQL copies of the stores: one table with its unique columns stands for all; ids are unbounded where the SQLite store casts them to 32 bits.
- Failing reads and deletions of the message table, timestamps of rows, and the lock inside the cache wrapper: the index model lets sends, registrations and upserts fail, and the room model also deletions.
- The channel that Slack returns for an id is taken to have that id; the source stores the returned one.
- Cancellation of a waiting ask, wall-clock jumps and restarts of the process.
- User profiles and their synchronisation: its updates go to id 0, so there is nothing it converges to.
- The regular-expression passes of the message formatters and of the HTML to Slack direction: they overlap and have no clean specification.
- Tokenising of commands, help texts, configuration loading, MIME tables, retries and the blocker state: they would only add easy members.
- Unicode case mapping in the presence status and the digit test of ordered list items: parameters of the functions that use them, so every result holds for any choice.
- Splitting a text into lines: the list machine starts from the lines.
- The KDL grammar: documents are trees of nodes, and a node with an empty block counts as one without children, as in the code.
- Edits always target the original event: not true of the code, the row moves to the edit's event.
- The room limit holds on all paths: not true of the code (`RoomBridgeModel.LimitIsExceededExactly`, `BridgeSafetyModel.LimitIsExceededExactly`).
- Channel tasks run in the order of `enqueue`: not true of the code, the lock is requested inside the spawned task (`LaterTaskMayOvertake`).
- The newest presence survives an enqueue that falls between pop and re-enqueue: not true of the code (`FinishReplacesNewerPresence`).
- FormattedBodyIsNested: ids, names, ranges, colours and decoded emoji are taken to nest where they become text and to be free of `>` where they become part of a tag, because the renderers insert them unescaped.
- SectionsAgree: takes them to be free of `<`, `>` and `&`, and covers the element kinds on which the renderers agree one by one.
- BackfillProgress: assumes that all sends and writes succeed and that every message has a timestamp; a list of pages that ends counts as an empty next page.
- EditReplacesCurrentEvent: speaks of edits that carry text or no attachments; `EditNamesOldEventExactly` shows that no other edit names the old event.
- SequentialIsSimultaneous: the condition is necessary for every two variables to substitute at once (`ClearExactly`) and is not shown necessary for a longer list as a whole; it also asks for prefix-free keys and for patterns in which every colon starts a key.
