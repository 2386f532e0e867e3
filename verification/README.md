# Proofs about the file-transfer server

These Dafny modules model the stateful core of the server and its browser client and prove what
their protocols promise over whole runs.

| part | modules |
|---|---|
| chat tables, transactions, pages, retention | ChatTables, ChatHistory, ChatRows, ChatPages, ChatRetention, ChatStore |
| the chat feed and the replication protocol | ChatFeed, ChatFeedState, ChatPageCheck, ChatProtocol, ChatSends, ChatReplica, ChatReplicaSteps, ChatReplicaAnswers, ChatReplicaReceive, ChatTheorems, ChatShown, ChatCatchUp, ChatDisplay, ChatDisplayRun |
| per-message gates | ChatGates |
| lossless configuration save | ConfigTree, ConfigSchema, ConfigMerge, ConfigKeeps, ConfigHolds, ConfigFaithful, ConfigCarry, ConfigSave, ConfigProgram, ConfigLoading, ConfigSaveLimits, ConfigProgramSave |
| upload permits against configuration changes | UploadPermits, UploadCommits, UploadRuns |
| accounts and revocation, public token ledger | Accounts, TokenLedger |
| window limiter, session recovery | WindowLimiter, SessionRecovery, RecoveryRuns |

How the parts are modelled:

- A SQL transaction is one function on the tables; the store class runs it step by step and is
  proved to compute that function. AUTOINCREMENT is a durable high-water mark.
- The chat protocol is a step system: the server commits at any time, each request is captured,
  executed and delivered at any later time, in any order, or lost. `base`, `baseId`, `origins`
  and `asOf` are auxiliary and no step depends on them.
- Gates, permits, the ledger and session recovery are step systems too; a step is what happens
  between two lock operations, database statements or event-loop turns.
- The configuration schema is a parameter: sections, scalars, lists of scalars and lists of items
  with an id. Loading reads each scalar by any idempotent function, which covers conversion,
  trimming and path resolution, and then adjusts scalars that depend on a neighbour. `ConfigProgram`
  gives the program's own resources and lifetimes as such a schema, with any further fields.

Verify with `dafny verify dfyconfig.toml`, or with the resource limit the proofs are written for:
`dafny verify --resource-limit 2000000 --verification-time-limit 0 --warn-contradictory-assumptions *.dfy`.

## Findings

- Display may step back, though watermarks never do. It happens exactly when the row that arrives
  was read before a withdrawal or deletion that the row on display already shows
  (`ChatDisplay.AcceptedRowStepsBackIff`). One way is a late mutation response after a change page,
  since a change row carries the row as it is when the page is read; another is an older history
  page that was read before the change page. For every page limit there is a run that does it
  (`ChatDisplayRun.DisplayMayStepBack`).
- The limiter grants at most 2L - 1 times, one less than two full buckets: the grant that opened a
  bucket lies before any interval the bucket ends in (`WindowLimiter.GrantsPerInterval`,
  `WindowLimiter.BoundIsReached`).
- A save does not always read back, and the exact condition is `ConfigSave.SaveRoundTrip`, said of
  the program's own fields in `ConfigProgramSave.ProgramLoadsIff`. There is
  no saved document exactly if a list changes while an unchanged item of it is not written under the
  id it is loaded with, such as an id with space around it (`ConfigMerge.ListLostIff`,
  `ConfigSaveLimits.UnnormalizedIdLosesItem`). Otherwise it fails exactly if an unchanged field was
  written differently from how it was loaded and the neighbour it depends on changes, or if a field
  left out when empty has been emptied. For resources the first means a file written with uploads
  allowed that becomes a directory with uploads off (`ConfigProgramSave.WholeSaveReverts`); for leases
  and tokens, a lifetime that loading had cut, saved beside a larger maximum
  (`ConfigSaveLimits.CutLifetimeReverts`). The last concerns only a resource's `type`, and no caller
  saves an empty one: backend/internal/server/server.go:1389 and backend/internal/config/config.go:892
  fill it in. So `ConfigSaveLimits.EmptiedTypeComesBack` is about other uses of the save. Extension
  keys are kept all the same, by that save and by all that follow (`ConfigSave.ChainKeepsUnknown`).
- One heartbeat per attempt and recovery generation holds in all runs exactly if every epoch change
  also invalidates the recovery (`SessionRecovery.SingleFlightIffWired`). The fallback of
  `invalidateSessionSubject` does not do so (`SessionRecovery.FallbackRepeatsAttempt`); with the
  handlers registered in frontend/src/auth.ts:89 and frontend/src/auth.ts:225 it is not used.

## Model

| member | source | states |
|---|---|---|
| ChatTheorems.ReplicaConverges | frontend/src/composables/useChatFeed.ts:285-302 | In every run of one server, one feed and requests executed and delivered at any later time or never: whenever the feed has the server's generation and its cursor is the server's latest change, every message it shows is exactly the server's current projection (status, body and all) of that row. |
| ChatTheorems.ReplicaIsComplete | frontend/src/composables/useChatFeed.ts:343-400 | In the same situation the feed shows every server message with an id at or above nextBeforeId, and every message when there is no boundary; hasMore says whether there is one. |
| ChatShown.CaughtUpShowsRows | backend/internal/server/chat.go:345-385 | In every run a caught-up feed shows of each message exactly the stored row: its text if it stands, its text to an administrator only if withdrawn, none if deleted; tag, role, status and times as stored. |
| ChatShown.WrittenIsRead | frontend/src/composables/useChatFeed.ts:285-302 | From writing to reading: a message created at one point of a run and neither withdrawn nor deleted since is shown, by every feed that has later caught up and reaches down to it, with the text, tag, role, address and time it was created with. |
| ChatTheorems.LiveCursorIsServed | backend/internal/store/chat.go:256-316 | The cursor a live feed sends is never refused while its generation lasts, and the page holds exactly the next min(limit, latest - cursor) consecutive changes, with hasMore iff more remain. |
| ChatTheorems.LivePageIsAccepted | frontend/src/composables/useChatFeed.ts:584-602 | A live feed accepts the page it waits for exactly when the high-water mark is a safe integer: validation rejects nothing else the server sends. |
| ChatTheorems.NoSpuriousReset | frontend/src/composables/useChatFeed.ts:489-502 | No answered read makes a live feed start over while sequence numbers are safe integers. |
| ChatTheorems.PageAdvancesCursor | frontend/src/composables/useChatFeed.ts:604-628 | Each delivered page moves the cursor of a live feed by exactly the number of its changes and keeps the feed live. |
| ChatCatchUp.FreshPageAdvances | frontend/src/composables/useChatFeed.ts:604-628 | A page read from the tables the server still has brings the cursor to exactly min(cursor + limit, latest). |
| ChatCatchUp.CursorNeverFalls | frontend/src/composables/useChatFeed.ts:604-628 | While the revision lasts no step of any kind moves the cursor back. |
| ChatCatchUp.CatchesUp | frontend/src/composables/useChatFeed.ts:604-680 | In every run, over any stretch without server changes in which the feed stays live, once the delivered pages of at least `limit` changes cover the distance (pages times limit reaches latest minus cursor) the feed is at the latest change and shows exactly what the server holds, whatever else happened in between. |
| ChatTheorems.ShownMessagesBelongToSubject | frontend/src/composables/useChatFeed.ts:226-243 | Every message shown came from a request sent under the current revision, subject and role. |
| ChatTheorems.StaleAnswerIsInert | frontend/src/composables/useChatFeed.ts:235-243 | An answer to a request of an earlier revision changes neither data, cursor, boundary nor subject. |
| ChatTheorems.RebindForgets | frontend/src/composables/useChatFeed.ts:806-822 | A change of subject or role empties the feed and makes every request sent so far stale in the same step. |
| ChatTheorems.MarksNeverRegress | frontend/src/composables/useChatFeed.ts:112-116 | While the revision lasts no message disappears, no watermark moves backwards, and a message changes only with its watermark. |
| ChatDisplay.StatusMovesWithLog | backend/internal/store/chat.go:272-280 | Between two points of the server's history a status only rises from active over withdrawn to deleted, and rises exactly if the log has a withdrawal or deletion of the message in between. |
| ChatDisplay.RowsStaySourced | frontend/src/composables/useChatFeed.ts:285-302 | In every run each row on display, and each row of an answer on its way, was read from the server's tables at one definite earlier point of the run, and each execution's tables are remembered truly. |
| ChatDisplay.DisplayStepsBackIff | frontend/src/composables/useChatFeed.ts:285-302 | For any two points of any run, a message shown at both is shown at an earlier stage at the later point exactly if a withdrawal or deletion of it lies in the log between the point where the later row was read and the point where the earlier row was read. |
| ChatDisplay.AcceptedRowStepsBackIff | frontend/src/composables/useChatFeed.ts:285-302 | One delivered answer steps a message's display back exactly if, before it arrives, it passes the feed's checks with a row of that message newer than the held mark, and a withdrawal or deletion came after the answer was read and before the held row was read; late mutation responses and older history pages alike. |
| ChatDisplayRun.DisplayMayStepBack | backend/internal/store/chat.go:272-280 | It happens: for every page limit there is a run of the protocol, all of whose reads use that limit, whose last step delivers a withdrawal's late answer and turns a message shown deleted into one shown withdrawn. |
| ChatFeed.NewerIsAnOrder | frontend/src/composables/useChatFeed.ts:86-116 | Watermarks of one generation stand in a strict order, by sequence number and then mutation before history before changes; those of different generations in none. |
| ChatTheorems.StepKeepsInv | frontend/src/composables/useChatFeed.ts:285-302 | Every server, network and client step keeps the invariant that each held projection is fresh or superseded by a change the cursor has not passed. |
| ChatReplica.GoodGrows | frontend/src/composables/useChatFeed.ts:112-116 | A projection that is fresh or superseded stays so when the server's log grows. |
| ChatReplicaAnswers.HistoryReplyIsGood | backend/internal/store/chat.go:203-249 | A history answer matches the tables at its high-water mark and covers everything down to the boundary it names. |
| ChatReplicaAnswers.MutationsAreRecorded | backend/internal/store/chat.go:148-192 | What a mutation reports is in the log and the table it leaves, under the reported event sequence. |
| ChatReplicaReceive.MergeHeld | frontend/src/composables/useChatFeed.ts:285-302 | Merging good projections, in any order, leaves only good projections. |
| ChatFeed.ApplyAllEffect | frontend/src/composables/useChatFeed.ts:285-302 | What a merge does to any view: nothing is lost, marks only advance, everything new comes from an item, every item of the generation ends up shown or dominated, and nothing but messages and marks changes. |
| ChatFeed.NormalizeProject | backend/internal/server/chat.go:375-384 | The client's redaction changes nothing the server already projected for the same role. |
| ChatShown.ClientRedacts | frontend/src/composables/useChatFeed.ts:55-74 | Whatever the server sent, the client shows no text of a deleted message, nor of a withdrawn one to an ordinary user. |
| ChatFeedState.Feed.ApplyVersionedMessages | frontend/src/composables/useChatFeed.ts:285-302 | The loop over a response leaves exactly the merge, and no other field changed. |
| ChatFeedState.Feed.MergeVersioned | frontend/src/composables/useChatFeed.ts:287-297 | The loop over local copies of messages and watermarks computes the merge. |
| ChatFeedState.Feed.HistoryArrived | frontend/src/composables/useChatFeed.ts:343-400 | A latest-history response: ignored if stale, marked failed if invalid, a reset on another generation, the first snapshot with its cursor, or a merge. |
| ChatFeedState.Feed.OlderArrived | frontend/src/composables/useChatFeed.ts:537-582 | An older-history response: ignored, a reset, or a merge with the new boundary. |
| ChatFeedState.Feed.ValidatedChangePage | frontend/src/composables/useChatFeed.ts:584-602 | The page is returned in order exactly if it passes every check. |
| ChatPageCheck.PageAcceptedIff | frontend/src/composables/useChatFeed.ts:584-602 | Which pages pass, in whatever order their changes come: of the generation asked for, safe numbers, moving forward or ending, changes of different numbers, all behind the cursor and up to the announced one. |
| ChatFeedState.Feed.ChangePageArrived | frontend/src/composables/useChatFeed.ts:604-628 | One page of the sync loop: merged, cursor taken from nextAfterSeq only, loop continued while there is more and pages are left. |
| ChatFeedState.Feed.MutationsArrived | frontend/src/composables/useChatFeed.ts:693-773 | A mutation or batch response is merged as a whole or not at all and never moves the cursor. |
| ChatFeedState.Feed.HandleCursorReset | frontend/src/composables/useChatFeed.ts:489-502 | A lost cursor drops the projection, and blocks after two resets in a row. |
| ChatPageCheck.ThirdResetBlocks | frontend/src/composables/useChatFeed.ts:489-502 | Of cursors lost one after the other the feed starts over by itself twice, and from the third on it waits for the user. |
| ChatFeedState.Feed.InvalidateProjectionState | frontend/src/composables/useChatFeed.ts:402-445 | Everything shown is dropped, the revision and the request numbers go up, the running sync ends. |
| ChatFeedState.Feed.Rebind | frontend/src/composables/useChatFeed.ts:806-822 | Rebinding to the same subject does nothing; otherwise the projection is dropped first. |
| ChatFeedState.Feed.Dispose | frontend/src/composables/useChatFeed.ts:851-872 | Closing the feed empties it and makes outstanding requests stale. |
| ChatSends.SendingMeans | frontend/src/composables/useChatFeed.ts:343-804 | When each request is sent: history by an open feed, older history one at a time from the boundary of an initialized feed with more to show, the page after the cursor by a sync that awaits none, mutations by an open feed, a clear of exactly what an administrator has seen. |
| ChatSends.PageMoves | frontend/src/composables/useChatFeed.ts:604-680 | A page that is not awaited changes nothing, a rejected one is a lost cursor, an accepted one moves the cursor to where it ends, and the sync goes on exactly while there is more and pages are left. |
| ChatSends.HistoryMoves | frontend/src/composables/useChatFeed.ts:343-400 | What the latest history moves besides messages: nothing unless it answers the last request in the present context; a failure, a reset, or boundary and hasMore, with generation and cursor the first time. |
| ChatSends.StartingOverMeans | frontend/src/composables/useChatFeed.ts:402-445 | What each way of starting over drops, and what it keeps of streak, stop, block and binding. |
| ChatSends.ClosedForGood | frontend/src/composables/useChatFeed.ts:851-872 | Over every run a closed feed shows nothing and asks for nothing ever again. |
| ChatSends.SilentUntilRebound | frontend/src/composables/useChatFeed.ts:806-822 | A blocked or inactive feed shows nothing and asks for nothing until it is bound anew. |
| ChatHistory.TxKeepsTables | backend/internal/store/chat.go:148-717 | Every transaction keeps log and table in agreement and either only appends to the log or raises the generation. |
| ChatHistory.RunKeepsTables | backend/internal/store/chat.go:148-717 | The same over whole runs: at any two points the later tables either extend the earlier log without holes, with a change for every row that differs, or have a higher generation. |
| ChatHistory.LogAgreesWithTable | backend/internal/store/chat.go:46-54 | A message's surviving changes read create, then optionally withdraw, then optionally delete; its status is the last; its body is null exactly when deleted. |
| ChatHistory.CreationIsLogged | backend/internal/store/chat.go:148-192 | Every message has its create change in the log. |
| ChatHistory.DeleteAgainstWithdraw | backend/internal/store/chat.go:411-428 | An overlapped delete sees a conflict after a withdrawal that won; a later one succeeds, the log then reads create, withdraw, delete, and nothing more can happen to the message. |
| ChatHistory.BatchDeleteIsAtomic | backend/internal/store/chat.go:468-563 | A batch succeeds exactly if no gate was contended and every id is present and undeleted; then its ids get consecutive delete changes in ascending order; otherwise the tables are untouched. |
| ChatHistory.NumbersNeverRepeat | backend/internal/store/chat.go:113-146 | Message ids and change sequences are never reused over a run, through clears and cleanups; rows and changes never change identity, and one that disappears costs a generation. |
| ChatHistory.StampIdentifiesTables | backend/internal/store/chat.go:732-743 | Equal generation and high-water mark at two points of a run mean equal tables. |
| ChatHistory.ClearIsConditional | backend/internal/store/chat.go:581-667 | A clear expecting what was observed earlier succeeds only if nothing was committed since, and then removes everything with one new generation if there was anything. |
| ChatPages.PageReachesBoundary | backend/internal/server/chat.go:498-504 | A history page is complete down to the boundary it names, and to the beginning if it names none. |
| ChatPages.WalkCoversTable | backend/internal/store/chat.go:203-249 | Following the boundary from page to page while messages are created and mutated returns every message of the first read exactly once, in ascending order. |
| ChatPages.ContinuousIffNoHole | backend/internal/store/chat.go:745-760 | The continuity check passes exactly when no change is missing from the cursor to the end of the fetch. |
| ChatPages.CursorIsServed | backend/internal/store/chat.go:256-316 | A cursor with nothing missing behind it gets exactly the next consecutive changes, and nextAfterSeq is the cursor plus their number. |
| ChatRetention.OldestUnique | backend/internal/store/chat.go:684-691 | The batch the selection returns is determined by the table. |
| ChatRetention.DoomedAfter | backend/internal/store/chat.go:684-691 | Removing the oldest candidates changes nobody else's verdict. |
| ChatRetention.BatchedEqualsOneShot | backend/internal/store/chat.go:669-717 | Repeating the transaction until it removes fewer than batch rows deletes exactly what one unbounded pass would, raising the generation once per non-empty batch. |
| ChatRetention.NothingLeftToClean | backend/internal/server/lifecycle.go:280-296 | Afterwards nothing is left that the policy would remove, and exactly the doomed messages are gone. |
| ChatRetention.CleanupKeepsYoungest | backend/internal/store/chat.go:684-717 | How many and which messages a cleanup leaves: those that have not expired, as many of the youngest as may stay and no more. |
| ChatStore.Store.CreateChatMessage | backend/internal/store/chat.go:148-192 | The transaction's new tables and answer; the log only grows. |
| ChatRows.CreateStores | backend/internal/store/chat.go:148-192 | A message is created exactly if author, tag and text are given and the role is one of the two; it is stored as given under the next id, with one create change under the next number. |
| ChatStore.Store.WithdrawChatMessage | backend/internal/store/chat.go:327-393 | The conditional update, its answer, and the reported reason when it matches nothing. |
| ChatHistory.WithdrawReasons | backend/internal/store/chat.go:792-814 | Exactly one of five answers, each with its own condition: missing iff there is no such message; forbidden iff it is not the caller's own; conflict iff it is own and no longer active; expired iff it is own, active and outside the window; success otherwise. The final conflict of the source is never the reason. |
| ChatHistory.WithdrawRefusalIsFinal | backend/internal/store/chat.go:327-393 | A refused withdrawal can succeed at a later point of a run only if the message did not exist yet or its creation lay in the future. |
| ChatRows.WithdrawStores | backend/internal/store/chat.go:327-393 | A withdrawal that succeeds notes its time and leaves everything else of the message, its text included. |
| ChatStore.Store.DeleteChatMessage | backend/internal/store/chat.go:395-466 | The conditional update, which an overlapped delete may not do to a withdrawn message. |
| ChatRows.DeleteStores | backend/internal/store/chat.go:395-466 | A deletion by a proper name succeeds exactly if the message is there, not deleted, and, if it overlapped another change, not withdrawn; the text goes, and when and by whom is noted. |
| ChatStore.Store.BatchDeleteChatMessages | backend/internal/store/chat.go:468-563 | Both loops of the batch; the update that matches no row cannot occur. |
| ChatStore.Store.CheckBatch | backend/internal/store/chat.go:487-527 | The first contended gate, else the first missing or deleted message, in order. |
| ChatRows.BatchReasons | backend/internal/store/chat.go:468-563 | Why a batch is refused: its deleter has no proper name, or else the first contended id, or else the first one missing or deleted. |
| ChatRows.BatchStores | backend/internal/store/chat.go:468-563 | A batch that succeeds deletes each of its messages as a single deletion would, and no other. |
| ChatStore.Store.CurrentSyncState | backend/internal/store/chat.go:732-743 | The larger of the stored mark and the largest surviving row, which in reachable tables is the stored mark. |
| ChatStore.Store.ClearChatMessages | backend/internal/store/chat.go:581-667 | Compare-and-clear with its result. |
| ChatRows.ClearStores | backend/internal/store/chat.go:581-667 | A clear is for the data it names exactly, empties both tables and keeps all numbers. |
| ChatStore.Store.ChatMessagesPage | backend/internal/store/chat.go:203-249 | Descending fetch of limit + 1 rows, cut and reversed in place, is the newest page with its rows. |
| ChatStore.ReversePrefix | backend/internal/store/chat.go:242-244 | The swap loop reverses the page in place and leaves the rest of the array. |
| ChatStore.Store.ChatChangesPage | backend/internal/store/chat.go:256-316 | The page of changes or the reason the cursor is refused. |
| ChatStore.ChatChangesAreContinuous | backend/internal/store/chat.go:745-760 | The loop decides continuity as specified. |
| ChatStore.Store.CleanupChat | backend/internal/store/chat.go:669-717 | One retention transaction removes exactly the selected batch. |
| ChatRows.CleanupStores | backend/internal/store/chat.go:669-717 | One transaction removes at most a batch of messages, each expired or with as many younger ones as may stay, and their changes with them; the generation rises exactly if there were any. |
| ChatStore.Store.CleanupChatBatches | backend/internal/server/lifecycle.go:280-296 | The maintenance loop terminates; caught up means the full cleanup; stopping early loses nothing, since finishing later leads to the same tables. |
| ChatStore.NormalizeChatBatchIDs | backend/internal/store/chat.go:905-922 | Success exactly for 1 to 100 distinct positive ids; the result is their ascending arrangement. |
| ChatStore.AscendingIsUnique | backend/internal/store/chat.go:905-922 | There is only one ascending arrangement of a batch. |
| ChatGates.GatesExclude | backend/internal/store/chat.go:882-948 | At most one thread is inside the gate of a message, for any number of single and batch mutations. |
| ChatGates.RegistryCountsThreads | backend/internal/store/chat.go:882-948 | A message has one registry entry exactly while a thread is counted in it, and active is the number of those threads. |
| ChatGates.SameMessageSameState | backend/internal/store/chat.go:887-902 | All threads counted for one message are counted in the same state. |
| ChatGates.NonOverlappedEntersFirst | backend/internal/store/chat.go:888-898 | A caller is told it did not overlap exactly if it was the first through that gate. |
| ChatGates.WritersExclude | backend/internal/store/chat.go:593-594 | While a clear or cleanup holds the outer lock no mutation is anywhere in its section. |
| ChatGates.NoDeadlock | backend/internal/store/chat.go:924-938 | As long as a thread is unfinished some thread can step: batches acquire in ascending order. |
| ChatGates.StepsRunOut | backend/internal/store/chat.go:882-948 | Every step of a thread uses up a bounded amount of remaining work. |
| ChatGates.RunsAreBounded | backend/internal/store/chat.go:882-948 | Without new arrivals a run is no longer than the work that remained. |
| ChatGates.MaximalRunsFinish | backend/internal/store/chat.go:882-948 | Where nobody can step, everybody has finished. |
| ConfigTree.MergeConfigNode | backend/internal/config/layered.go:182-243 | The recursive merge with its loops computes the specified merge. |
| ConfigTree.MergedField | backend/internal/config/layered.go:192-212 | Per key: a changed field is merged, anything else is as in the original; keys stay unique. |
| ConfigTree.MergedItems | backend/internal/config/layered.go:214-237 | Per item: merged with the original and the baseline item of the same id. |
| ConfigTree.EqualMappings | backend/internal/config/layered.go:169-178 | Equal decoded mappings agree on every key, whatever their order. |
| ConfigTree.EqualNodesAre | backend/internal/config/layered.go:169-178 | When two nodes are equal: null only to null, a scalar only to the same, sequences element by element, mappings without a repeated key key by key in any order. |
| ConfigSchema.EncodeDecodes | backend/internal/config/layered.go:146-155 | A configuration reads back from what it is written as. |
| ConfigSchema.EqualMeansSame | backend/internal/config/layered.go:169-178 | Comparing written trees is comparing configurations. |
| ConfigMerge.MergeDecodes | backend/internal/config/layered.go:182-243 | For every document and any two configurations there is a merged document exactly if no unchanged item is lost, and it then reads as the new configuration patched over what the document says, field by field. |
| ConfigMerge.ListLostIff | backend/internal/config/layered.go:212-237 | For every list, with ids written in any way: the merge of a changed list fails exactly if some item equals the baseline's item of its id and no item of the document is written with that id. |
| ConfigFaithful.FaithfulIff | backend/internal/config/layered.go:182-243 | What was merged loads as the new configuration, after normalization across fields, exactly if no omitted field has another value in the document and no unchanged field, written differently from how it was loaded, stands beside a neighbour that changes. |
| ConfigHolds.MergeHolds | backend/internal/config/layered.go:182-243 | A merged document can be read and its lists have the items of the new configuration, by id, whether or not it is read as that configuration. |
| ConfigKeeps.MergeKeeps | backend/internal/config/layered.go:182-243 | The merge keeps every key outside the schema at every level, and every item the new configuration still names. |
| ConfigCarry.CarriedIsReady | backend/internal/config/layered.go:257-306 | After carrying, every original is read by the list it arrived in, ids stay unique and lists that have not changed stay, in any document that holds the baseline; and if the document loads as the baseline, what is to be kept still loads as it did. |
| ConfigCarry.CarryMoved | backend/internal/config/layered.go:257-306 | The loops that carry originals between the two lists. |
| ConfigCarry.CollectById | backend/internal/config/layered.go:259-269 | The map of originals: the last item with each id. |
| ConfigProgram.ProgramRootOk | backend/internal/config/config.go:416-444 | The program's configuration meets what the laws of saving ask: two resource lists that read the type differently, the name taken from the id, no uploads to files, two lifetimes cut to their maximum, and any further fields. |
| ConfigProgram.ListsHaveSameShape | backend/internal/config/config.go:756-768 | The two lists have the same shape, so that either can read what the other wrote; what each reads is said by ConfigLoading.EntryLoadsAsWritten. |
| ConfigLoading.EntryLoadsAsWritten | backend/internal/config/config.go:707-723 | An entry loads exactly if it is readable, and then as written: id and path trimmed, the name or else the id, the type in lower case with dir, folder and, among the directories only, no type meaning directory, and no uploads to a file. |
| ConfigLoading.EntryCases | backend/internal/config/config.go:756-768 | The cases one by one: an entry without a type is a directory in dirs and has no type in shares, any other type is its trimmed lower-case text, a blank name becomes the id, a file loads without uploads. |
| ConfigLoading.LifetimeLoadsAsWritten | backend/internal/config/config.go:428-440 | A lifetime and its maximum load as written or as the defaults, the lifetime cut to the maximum. |
| ConfigLoading.ListLoadsIff | backend/internal/config/config.go:756-768 | A list of resources can be read exactly if it is missing, null, or a sequence of entries that all can. |
| ConfigLoading.ProgramLoadsAsWritten | backend/internal/config/config.go:352-444 | The program's configuration as loaded: the entries of storage.dirs and storage.shares one by one, and the lifetimes of leases and tokens with their defaults. |
| ConfigSave.SaveRoundTrip | backend/internal/config/layered.go:245-315 | For every valid configuration and document: loading the saved document gives the new configuration iff, in the document with the moved originals, no unchanged resource is lost and every field is faithful. |
| ConfigSave.SaveFailsIff | backend/internal/config/layered.go:245-315 | There is no saved document exactly if an unchanged resource is lost. |
| ConfigSave.UnchangedSave | backend/internal/config/layered.go:245-315 | Saving an unchanged configuration gives the very same tree, for any document that holds it, however it writes its values and whether or not the save before read back. |
| ConfigSave.SaveHolds | backend/internal/config/layered.go:245-315 | Every saved document can be read and has the resources of the new configuration, whether or not it reads back. |
| ConfigSave.SaveKeepsUnknown | backend/internal/config/layered.go:245-315 | A save keeps every key outside the schema, in sections and in resources that stay in their list, whether or not it reads back. |
| ConfigSave.SaveKeepsResource | backend/internal/config/layered.go:257-306 | A resource that the document writes under its id and the new configuration still has keeps its extension keys, also when it moves between dirs and shares, and whether or not the save reads back. |
| ConfigSave.ChainHolds | backend/internal/config/layered.go:309-314 | Along any chain of saves that give a document at all, every document can be read and has the resources of its configuration. |
| ConfigSave.ChainSavesAgain | backend/internal/config/layered.go:309-314 | Anywhere along such a chain, saving again without a change leaves the tree alone. |
| ConfigSave.ChainLoads | backend/internal/config/layered.go:309-314 | Along such a chain each document loads as its configuration as long as every save was faithful, and the first one that was not is the first document that does not. |
| ConfigSave.ChainKeepsUnknown | backend/internal/config/layered.go:309-314 | Between any two documents of such a chain, faithful or not, whatever stands outside the schema keeps its value. |
| ConfigSave.ChainKeepsResource | backend/internal/config/layered.go:257-306 | Between any two documents of such a chain, faithful or not, a resource that the first one writes under its id and that is never removed keeps its extension keys, wherever it moves. |
| ConfigSave.ConfigSource.SettingsForSave | backend/internal/config/layered.go:245-315 | Document and baseline are replaced together, or neither is. |
| ConfigSaveLimits.ResourceLoadsIff | backend/internal/config/config.go:707-723 | For every document item of either list and any old and new value: the changed resource reads back iff its type was not emptied, and it was not a file whose item allows uploads and which becomes something else with uploads off. |
| ConfigSaveLimits.UploadComesBack | backend/internal/config/config.go:717-719 | In the second case the next load gives what was saved except that uploads are allowed. |
| ConfigSaveLimits.FileBecomesDirectory | backend/internal/config/config.go:717-719 | Such a document exists: it loads without uploads, and as a directory it reads back with them. |
| ConfigProgramSave.ProgramLoadsIff | backend/internal/config/layered.go:245-315 | The program's whole configuration, with any further fields: there is a saved document iff no unchanged resource or item stands under another id than its own in a list that changes; it loads as what was saved iff no resource of dirs or shares gets its type or uploads back, no cut lifetime of leases or tokens stands beside a larger maximum, and nothing comes back in the further fields. |
| ConfigProgramSave.SteadyFieldsStand | backend/internal/config/layered.go:182-243 | Further fields that are always written and look at no neighbour, except an item at its id, never bring anything back. |
| ConfigProgramSave.SaveFreesUpload | backend/internal/config/layered.go:245-315 | A save with such a resource in either list does not read back, whatever else is saved with it. |
| ConfigProgramSave.WholeSaveReverts | backend/internal/config/layered.go:245-315 | A complete document, valid baseline and valid new configuration: it is saved, and the saved document loads as what was saved except that uploads are allowed. |
| ConfigProgramSave.SectionIsFaithful | backend/internal/config/layered.go:182-243 | A save that reads back is faithful in every section besides storage, so a cut lifetime that reverts there fails the whole save. |
| ConfigSaveLimits.EmptiedTypeComesBack | backend/internal/config/config.go:174-181 | A type set to empty is not written and the document's is read again, for every document item. |
| ConfigSaveLimits.UnnormalizedIdLosesItem | backend/internal/config/layered.go:216-236 | For every item that loads under an id it is not written with: as soon as another resource joins the list the merge has nothing to put in its place. |
| ConfigSaveLimits.SpacedIdLoads | backend/internal/config/config.go:709-711 | Such an item exists: an id with space around it is loaded trimmed. |
| ConfigSaveLimits.CutLifetimeReverts | backend/internal/config/config.go:428-440 | For every section of a lifetime and its maximum, leases and tokens alike: the save reads back iff it is not so that the document's lifetime lies above the loaded maximum, the saved lifetime is that maximum, and the saved maximum is larger. |
| UploadPermits.TransferRegistry.TryAcquireUploadPermit | backend/internal/server/transfers.go:100-133 | Admission with its three limits and errors. |
| UploadPermits.AdmissionReasons | backend/internal/server/transfers.go:100-133 | Each answer of an admission has its own condition in the numbers of live permits. |
| UploadPermits.TransferRegistry.CountPermits | backend/internal/server/transfers.go:106-115 | The counting loop, in any map order, counts all permits, those of the resource and those of the owner. |
| UploadPermits.TransferRegistry.BindUploadPermit | backend/internal/server/transfers.go:135-160 | Binding once, or confirming the same binding, within the resource limit. |
| UploadPermits.BindReasons | backend/internal/server/transfers.go:135-160 | When binding succeeds, confirms or is refused. |
| UploadPermits.TransferRegistry.ReleaseUploadPermit | backend/internal/server/transfers.go:162-169 | Removes the permit and leaves the others; permits that kept every limit still do. |
| UploadPermits.TransferRegistry.HasBoundUploadPermit | backend/internal/server/transfers.go:177-182 | Bound to this resource with this fingerprint and not flagged. |
| UploadPermits.TransferRegistry.CancelUploadsByDirIDs | backend/internal/server/transfers.go:241-256 | Flags exactly the permits bound to the resources. |
| UploadPermits.CancelFlags | backend/internal/server/transfers.go:241-256 | Exactly the permits bound to the resources are flagged, and nothing else of any permit changes. |
| UploadPermits.AcquireAdmits | backend/internal/server/transfers.go:100-133 | Admission keeps every limit. |
| UploadPermits.BindAdmits | backend/internal/server/transfers.go:135-160 | Binding an admitted permit later keeps every limit. |
| UploadCommits.LimitsAlwaysHold | backend/internal/server/transfers.go:100-169 | In every reachable state live permits respect the global, per-resource, per-session and per-token limits. |
| UploadCommits.CommitContinuity | backend/internal/server/server.go:2384-2405 | A commit happens only if the resource had the same kind, path, allowUpload and allowDownload in every state since the permit was bound, uploads being allowed, and they are those the permit was issued for. |
| UploadRuns.CommitWasChecked | backend/internal/server/server.go:2384-2405 | Before every commit, under the one hold of the gate it is made in, the path resolved to what the permit was issued for and the permit was found bound and not told to stop; nothing has been published since. |
| UploadCommits.NoCommitAfterChange | backend/internal/server/server.go:1286-1345 | Once another kind, path or permission of its resource, or its removal, was published, even if reverted, no earlier permit commits. |
| UploadCommits.UnchangedPermitStands | backend/internal/server/server.go:2384-2405 | The converse: while kind, path and permissions stay as they are, whatever else is published, a new name included, a permit that is not given back stands and passes both checks. |
| UploadRuns.UploadCommitsThenStops | backend/internal/server/server.go:1286-1345 | It happens: for every resource that allows uploads some run commits a file and then publishes another path, which tells the permit to stop. |
| UploadCommits.StepKeepsInv | backend/internal/server/server.go:2336-2405 | Every step keeps: an unflagged permit is bound to its resource as it is now. |
| UploadCommits.ChangesAreCounted | backend/internal/server/server.go:1361-1383 | A published resource is among the changed ones, and its epoch rises, exactly if it has disappeared or its kind, path, allowUpload or allowDownload differ; a new name alone changes nothing. |
| Accounts.AccountStore.UpdateAccount | backend/internal/store/users.go:104-145 | The step-by-step edit, version bump and deletions leave the specified rows. |
| Accounts.UpdateStores | backend/internal/store/users.go:104-145 | What an update stores: the given or else the old name, status and password, no password for a deleted account, a version one higher exactly on a password change or a new status other than active; or one of two reasons, and nothing changes. |
| Accounts.UpdateLeavesOthers | backend/internal/store/users.go:104-145 | Other accounts, and what they have open, stay as they were. |
| Accounts.LoginStores | backend/internal/store/users.go:147-160 | A login opens a session exactly for an active account at the version that was authenticated. |
| Accounts.LeaseStores | backend/internal/store/users.go:162-175 | A lease is issued to a public token without an owner, and to a session exactly while it works, for the session's account. |
| Accounts.LeaseIsGood | backend/internal/store/users.go:177-182 | A lease is good while it has not expired and its owner, if any, is active, an upload lease once. |
| Accounts.RevokingUpdateClosesEverything | backend/internal/store/users.go:115-140 | A password change or loss of the active status leaves no session, download lease or unclaimed upload lease of the account. |
| Accounts.OnlyCurrentAccountsAreOpen | backend/internal/store/store.go:373-380 | In every reachable state whatever an account has open was issued at its present version and the account is active. |
| Accounts.LeasesKeepOpen | backend/internal/store/users.go:162-175 | Leases go to accounts of live sessions only, so they are issued at the current version. |
| Accounts.RevocationIsPermanent | backend/internal/store/users.go:104-180 | Once an item's account was inactive or at another version for a moment, the session never reads and the lease is never admitted or claimed again. |
| TokenLedger.TokenTable.ReserveTokenUse | backend/internal/store/store.go:859-918 | The conditional update and its two errors. |
| TokenLedger.ReserveReasons | backend/internal/store/store.go:859-918 | A reservation succeeds exactly if the token exists, has the asked kind, is not revoked or expired, has a use left and room for the bytes; each error has its own condition. |
| TokenLedger.NoUseAfterwards | backend/internal/store/store.go:859-888 | Over every run: once a token was revoked or deleted, or its time is over, no reservation of it adds a use again. |
| TokenLedger.CountersOnly | backend/internal/store/store.go:920-947 | Releasing and adjusting move the two counters of the one token, never below zero, and nothing else. |
| TokenLedger.TokenTable.ReleaseTokenUse | backend/internal/store/store.go:920-924 | The two CASE expressions. |
| TokenLedger.TokenTable.AdjustTokenUploadedBytes | backend/internal/store/store.go:926-947 | No-op, rollback or conditional growth. |
| TokenLedger.LedgerIsConserved | backend/internal/server/server.go:3416-3457 | Uses are in-flight plus settled uses, bytes are reserved in flight plus settled bytes, both within the limits. |
| TokenLedger.SaturationNeverHappens | backend/internal/store/store.go:920-938 | The branches that stop at zero are never taken. |
| TokenLedger.ReleaseUndoesReserve | backend/internal/server/server.go:3476-3519 | Giving a reservation back restores the token exactly. |
| WindowLimiter.Limiter.AllowMany | backend/internal/server/limiter.go:135-214 | Answer, entries and retry time as specified, whatever order the maps are walked in. |
| WindowLimiter.Limiter.Cleanup | backend/internal/server/limiter.go:216-222 | Removes exactly the expired buckets. |
| WindowLimiter.Limiter.CheckFull | backend/internal/server/limiter.go:169-186 | Drops buckets of another window and returns the longest wait of a full one. |
| WindowLimiter.RetryIsUnique | backend/internal/server/limiter.go:168-205 | The retry time is determined by entries and specs. |
| WindowLimiter.GrantMeans | backend/internal/server/limiter.go:135-214 | A call is granted exactly if no asked key has used up its limit in a live bucket of its window and the keys without one still fit. |
| WindowLimiter.BucketsAre | backend/internal/server/limiter.go:135-186 | The buckets a call looks at: not expired, of an asked key only with the asked window, of a key named but asked for nothing not at all. |
| WindowLimiter.AllOrNothing | backend/internal/server/limiter.go:135-214 | A granted call counts each key once within its limit and touches nothing else; a denied one counts nothing. |
| WindowLimiter.RuleIsStrictest | backend/internal/server/limiter.go:142-162 | Duplicate specs count once with the least limit and the longest window. |
| WindowLimiter.EntriesBounded | backend/internal/server/limiter.go:190-196 | Entries never exceed the maximum. |
| WindowLimiter.GrantsPerInterval | backend/internal/server/limiter.go:135-222 | A key always used with limit L and window W is granted at most 2L - 1 times in any half-open interval of length W. |
| WindowLimiter.BoundIsReached | backend/internal/server/limiter.go:135-222 | For every L from 2 there are calls that reach 2L - 1. |
| SessionRecovery.Coordinator.CoordinateHeartbeat | frontend/src/authRecovery.ts:85-128 | The decision to answer at once, join the running heartbeat or launch one. |
| SessionRecovery.AskingMeans | frontend/src/authRecovery.ts:85-128 | Asking launches a heartbeat exactly for an active caller of this epoch who has seen every attempt, with no result remembered and none running; it joins exactly a running one of the caller's epoch and session, if either is authorized. |
| SessionRecovery.Coordinator.HeartbeatReturned | frontend/src/authRecovery.ts:120-151 | Only a current heartbeat counts as an attempt and is remembered. |
| SessionRecovery.HeartbeatMeans | frontend/src/authRecovery.ts:120-151 | What a returned heartbeat comes to: stale if epoch or generation moved on, recovered if alive for the session asked for, a change of subject for another, an authentication failure exactly if refused. |
| SessionRecovery.Coordinator.PromiseSettled | frontend/src/authRecovery.ts:153-156 | Frees the slot unless it has been given away. |
| SessionRecovery.Coordinator.InvalidateSessionRecovery | frontend/src/authRecovery.ts:78-83 | New generation and attempt, nothing remembered, nothing running. |
| RecoveryRuns.InvalidateMeans | frontend/src/authRecovery.ts:78-83 | After an invalidation no earlier heartbeat counts, no result is remembered, and the next active caller launches a heartbeat. |
| RecoveryRuns.SubjectChangeMeans | frontend/src/auth.ts:61-80 | A change of subject puts the new session in place under the next epoch; whoever asks for the earlier one is told so and nothing of it counts. |
| RecoveryRuns.RemembersLatest | frontend/src/authRecovery.ts:67-72 | Of the results the latest sixteen are remembered. |
| SessionRecovery.OneHeartbeatPerAttempt | frontend/src/authRecovery.ts:85-158 | At most one heartbeat per attempt if every epoch change invalidates the recovery; otherwise at most one per attempt and epoch. |
| SessionRecovery.SingleFlightIffWired | frontend/src/authRecovery.ts:85-158 | If every epoch change also invalidates the recovery, no run has two heartbeats for the same attempt, and otherwise some run has two for the same attempt and generation. |
| SessionRecovery.FallbackRepeatsAttempt | frontend/src/authEpoch.ts:45-61 | From every reachable state with a current heartbeat in flight: after the fallback's epoch change, once that heartbeat has returned and its promise settled, an active caller launches a second one for the same attempt and generation. |
| SessionRecovery.AttemptsIncrease | frontend/src/authRecovery.ts:78-151 | Attempts never go back; each counted heartbeat and each invalidation uses one up. |
| SessionRecovery.ResultsAreBounded | frontend/src/authRecovery.ts:67-72 | At most sixteen results, under strictly increasing attempts. |
| SessionRecovery.RecoveredOnlyUnchanged | frontend/src/authRecovery.ts:120-143 | In every run, if a heartbeat ends as recovered, epoch and generation were the same in every state from its launch to its completion. |
| SessionRecovery.AnswerMatchesContext | frontend/src/authRecovery.ts:85-112 | A recovered answer, or the heartbeat joined, is of the caller's epoch and session. |
| SessionRecovery.SentAtMostTwice | frontend/src/api.ts:190-313 | A request is sent at most twice, the second time only in its epoch and local session. |
| SessionRecovery.ReplayNeedsRecovery | frontend/src/api.ts:262-298 | It is sent again exactly if its recovery succeeded in its epoch and its subject is unchanged. |
| RecoveryRuns.OnlyRecoverableIsReplayed | frontend/src/api.ts:190-313 | In every run, only a request that may be recovered is ever sent again. |
| RecoveryRuns.RequestIsSentAgain | frontend/src/api.ts:190-313 | It happens: for every session some run refuses its request as idle, recovers, and sends it again. |

## Left out

- HTTP handlers, parsing, cookies, headers, audit rows and string trimming: inputs are what the handlers pass on.
- SQLite itself, crash recovery and fsync: a transaction is one atomic step; database errors other than the modelled ones do not occur.
- Withdraw and delete compare times as numbers; julianday rounding is not modelled.
- Retention is proved for the rounds of one maintenance loop over the same clock; other transactions between two rounds are covered by the run theorems, not by the equality with one pass.
- The feed's capability loading, timers, notices, selection, abort signals and the viewer-dependent fields canWithdraw, withdrawUntil and isMine; the display order is by id and messages are a map.
- Merging is modelled per response; that a browser delivers responses one at a time is taken for granted.
- Mutual exclusion in the gates takes Go's Mutex and RWMutex as primitives; fairness between waiting threads is not modelled, so progress means that some thread can step and every run without arrivals ends.
- Configuration documents are trees of scalars, mappings and sequences; comments, anchors, merge keys, document nodes and a field lookup on a sequence node are not part of this model.
- Trimming, lower case, path resolution and the text form of numbers are parameters of ConfigProgram; validation ranges, fields with a default host or path, extension lists and the legacy migration are further fields or left out.
- ConfigSave.SaveKeepsResource: an item that is not written under the id it is loaded with is not carried, so nothing is promised about its extension keys.
- Permits are values in a map; sharing of permit pointers, transfer records, progress and cancel callbacks are not part of this model.
- registerUploadTransfer does the same two checks as a commit and only adds a progress record.
- Fingerprints stand for the parts they hash; hash collisions do not occur, and tokens, session ids and lease ids are fresh.
- Outstanding-lease limits of createLeaseLimited, session expiry sweeps beyond removing rows, and TOTP.
- WindowLimiter.GrantsPerInterval: stated for a clock that does not run backwards and a key always used with the same limit and window, as the source's callers do.
- The login limiter and sampled audit are other users of the same tables of counters.
- Request bodies, upload progress and the heartbeat's timeout; a heartbeat may return at any time or never.
