# yapsonpress dashboard core, modelled in Dafny

yapsonpress is a web dashboard that shows SMS logs and push-notification
(FCM) logs grouped by sender. This project models the client-side logic
that keeps those message lists in order:

- **The stable message store** (`useMessagesV2`). A map from uid to
  message plus an explicit order of uids. A batch of messages updates the
  known uids in place. The unknown ones are sorted newest first and spliced
  in as one block at the top or at the bottom.
- **The older dedup-and-resort store** (`useMessages`). It merges the
  previous list with a batch, keeps one copy per uid and re-sorts the
  whole list. The sort is skipped when the uid sequence is unchanged.
- **The two conversation caches**.
  - `useConversationCache` is one mutable `Map`. Saving clones the map and
    the order array but keeps the message array by reference, and loading
    hands out the stored object itself.
  - `useConversationStore` is a record that is replaced on every change
    and copies on both save and load.
- **The dashboard page**. Paging through a sender's messages
  (`handleLoadMore`), switching sender (`handleSelectSender`), the first
  page, the pinned-sender set, and the chain that picks an error text.
- **The message thread**. The scroll gate that asks for the next page, the
  mark-as-read selection, expansion toggling, the 300-character expand
  rule and the displayed amount.
- **The sender sidebar**. Initials, sender type and icon, the pin button,
  and the in-place stable pinned-first sort.

Each module follows one source file. A store whose fields the source
updates in place is a `class` whose methods are proved against
specification functions (`StoreAll`, `MergeOrder`, `NewBlock`, `Rebuild`,
`Dedup`, `DedupAndSort`, `Unseen`, `PinnedFirst`). Lemmas then prove what
the source promises about those functions. Pure code is modelled as
functions and lemmas.

Timestamps are integers (`createdAt`). Both message kinds carry
`created_at`, so the hooks' `'created_at' in message` test always picks
that field, and there is a single sort key. The `Compare` comparator is
proved to be a total preorder (`NotAfterTotal`, `NotAfterTransitive`). It
is zero only for equal timestamp and equal uid (`CompareMeaning`), so a
stable sort with it has a single possible result.

Where the project's design description and its code differ, the model
follows the code:

- **A load-more response that arrives after the user switched sender is
  merged into the new sender's list.** The description says such a stale
  response is dropped, but `handleLoadMore` has no such check
  (`Dashboard.StaleResponseMerged`).
- **A uid that a single batch carries twice, and that the store does not
  know yet, enters the v2 order twice.** The description says it is
  counted once for ordering
  (`StableStore.RepeatedNewUidEntersTwice`).
- **An error response whose `status` field is an empty array sets the
  error to `undefined`.** The chain takes `status[0]` as soon as `status`
  is an array (`Dashboard.EmptyStatusArrayClearsError`).

## Model

| member | source | states |
|---|---|---|
| Messages.CompareMeaning | hooks/use-messages.ts:59-73 | The comparator is negative exactly when the first message is newer, or equally new with a smaller uid. It is zero exactly when timestamp and uid are equal. |
| Messages.NotAfterTotal | hooks/use-messages-v2.ts:66-79 | Any two messages are ordered one way or the other by the comparator. |
| Messages.NotAfterTransitive | hooks/use-messages-v2.ts:66-79 | The comparator's order is transitive, so sorting with it is well defined. |
| Messages.UidCompareZero | hooks/use-messages.ts:68-69 | The uid tie-break is zero exactly for equal uids. |
| Messages.UidCompareAntisymmetric | hooks/use-messages.ts:68-69 | Swapping the uids negates the tie-break. |
| Messages.UidCompareTransitive | hooks/use-messages.ts:68-69 | The uid tie-break is transitive. |
| Messages.SortNewestFirstSpec | hooks/use-messages-v2.ts:66-79 | `sortMessages` yields a list sorted newest first (ties by uid ascending) that is a permutation of its input, with the same multiset of uids. |
| Messages.SortSorted | hooks/use-messages-v2.ts:67-78 | The sorted list has every pair in comparator order. |
| Messages.SortPermutes | hooks/use-messages-v2.ts:67 | The sort is a permutation of its input. |
| Messages.SortKeepsUids | hooks/use-messages-v2.ts:67 | The sort keeps the multiset of uids. |
| Messages.InsertSorted | hooks/use-messages-v2.ts:67-78 | One insertion step keeps a sorted list sorted. |
| Messages.Unseen | app/page.tsx:307-309 | The filtered results are exactly the results whose uid is not yet present, and never more than the results. |
| Messages.UnseenExtremes | app/page.tsx:307-309 | With nothing seen the filter keeps every result. When every result's uid is seen it keeps none. |
| Messages.UnseenNoDup | app/page.tsx:307-309 | Filtering a page with distinct uids gives distinct uids. |
| Messages.AppendUnseenNoDup | app/page.tsx:306-310 | Appending the unseen results to a list with distinct uids keeps the uids distinct. |
| StableStore.LastWith | hooks/use-messages-v2.ts:118-120 | The message a uid ends up with is the batch's last message carrying that uid: it occurs at some index and no later message has that uid. |
| StableStore.Unknown | hooks/use-messages-v2.ts:106-112 | The new messages are exactly the batch's messages whose uid the map lacks. |
| StableStore.UnknownNoDup | hooks/use-messages-v2.ts:106-112 | A batch with distinct uids gives new messages with distinct uids. |
| StableStore.Rebuild | hooks/use-messages-v2.ts:84-88 | The rebuilt list is never longer than the order. |
| StableStore.RebuildContents | hooks/use-messages-v2.ts:84-88 | Every rebuilt message is the map's value for some uid of the order. When the map knows every uid, the list is the order mapped through the map, index by index. |
| StableStore.RebuildSkipsMissing | hooks/use-messages-v2.ts:85-87 | Uids the map lacks contribute nothing: rebuilding the order equals rebuilding only its known uids. |
| StableStore.Without | hooks/use-messages-v2.ts:183 | After removal, the order holds exactly the other uids. |
| StableStore.WithoutIdempotent | hooks/use-messages-v2.ts:181-186 | Removing a uid twice is the same as removing it once. |
| StableStore.WithoutKeepsConsistent | hooks/use-messages-v2.ts:181-186 | Removing a uid from map and order keeps them describing the same uids, each once. |
| StableStore.StoreAllKeys | hooks/use-messages-v2.ts:118-120 | After the map pass, the keys are the old keys plus the batch's uids. |
| StableStore.StoreAllValues | hooks/use-messages-v2.ts:118-120 | A batch uid maps to the batch's last message with that uid. Every other known uid keeps its value. |
| StableStore.NewBlockContents | hooks/use-messages-v2.ts:106-115 | The new block holds exactly the batch's uids that the map lacked, one entry per new message. |
| StableStore.NewBlockOrdered | hooks/use-messages-v2.ts:115 | The new block is sorted by timestamp descending, equal timestamps by uid ascending. |
| StableStore.NewBlockNoDup | hooks/use-messages-v2.ts:106-115 | A batch with distinct uids yields a block with distinct uids. |
| StableStore.MergeKeepsOldOrder | hooks/use-messages-v2.ts:123-134 | The block and the old order are spliced as two contiguous parts: block then old order at the top, old order then block at the bottom. |
| StableStore.MergeKeepsConsistent | hooks/use-messages-v2.ts:106-134 | If map and order agree and have no duplicates, then after a batch with distinct uids they still agree and have no duplicates. |
| StableStore.RepeatedNewUidEntersTwice | hooks/use-messages-v2.ts:106-112 | A new uid that a batch carries twice goes into the order twice, so the order has a duplicate. |
| StableStore.AllKnownNothingNew | hooks/use-messages-v2.ts:106-112 | A batch whose uids are all known has no new message. |
| StableStore.MergeTwiceSameAsOnce | hooks/use-messages-v2.ts:96-134 | Merging the same page a second time adds no uid and leaves map and order as after the first merge. |
| StableStore.TopMergeScenario | hooks/use-messages-v2.ts:115-126 | Two new messages added at the top into an empty store come out newer first. |
| StableStore.BottomAfterTopScenario | hooks/use-messages-v2.ts:127-132 | A new message added at the bottom goes after the existing ones. |
| StableStore.SplitNew | hooks/use-messages-v2.ts:104-112 | The loop that collects the new messages computes `Unknown`. |
| StableStore.StoreEach | hooks/use-messages-v2.ts:118-120 | The loop that stores every batch message computes `StoreAll`. |
| StableStore.MergeBatch | hooks/use-messages-v2.ts:99-148 | One non-empty batch: the new map, the spliced order, the new-id set (top only), the scheduled notification (top only, when something is new and a listener exists) and the rebuilt list. A consistent map and order stay consistent after a batch with distinct uids. |
| StableStore.MessageStore.constructor | hooks/use-messages-v2.ts:39-60 | The store starts empty, with no new ids and no error. |
| StableStore.MessageStore.AddMessages | hooks/use-messages-v2.ts:96-159 | An empty batch changes nothing. Otherwise the map, order, new-id set and notifications become those of `MergeBatch`, the default position is the top. When map and order were consistent and the batch's uids are distinct, they stay consistent (each uid once, the same uids in both). |
| StableStore.MessageStore.UpdateMessage | hooks/use-messages-v2.ts:164-176 | An unknown uid changes nothing. A known one has its map value patched, and the order and new ids stay unchanged. |
| StableStore.MessageStore.RemoveMessage | hooks/use-messages-v2.ts:181-186 | The uid leaves the map and every occurrence leaves the order. Everything else is kept. |
| StableStore.MessageStore.ClearMessages | hooks/use-messages-v2.ts:191-197 | Map, order, list and new ids are emptied. |
| StableStore.MessageStore.GetMessageById | hooks/use-messages-v2.ts:202-204 | Returns the map's value for a known uid and nothing otherwise. |
| StableStore.MessageStore.HasMessage | hooks/use-messages-v2.ts:209-211 | True exactly for uids in the map. |
| StableStore.MessageStore.MarkMessagesAsRead | hooks/use-messages-v2.ts:216-222 | The new-id set loses exactly the given uids. Absent uids are ignored. |
| StableStore.MessageStore.GetMessagesMap | hooks/use-messages-v2.ts:227-229 | Returns a copy equal to the map. |
| StableStore.MessageStore.GetOrderArray | hooks/use-messages-v2.ts:234-236 | Returns a copy equal to the order. |
| StableStore.MessageStore.RestoreState | hooks/use-messages-v2.ts:241-246 | Map and order become the given ones. New ids, error and notifications are unchanged. |
| StableStore.RestoreRoundTrip | hooks/use-messages-v2.ts:227-246 | After a restore, the map and order read back equal what was restored, and the list is the order mapped through the map with missing uids skipped. |
| DedupStore.FindIndex | hooks/use-messages.ts:176 | `findIndex` returns the first index carrying the uid, or none when no message carries it. |
| DedupStore.DedupUids | hooks/use-messages.ts:87-102 | The deduplicated list carries every uid of the input exactly once. |
| DedupStore.DedupWinners | hooks/use-messages.ts:87-102 | Every kept message is its uid's winner. It occurs in the input, no copy is newer, and every earlier copy is strictly older, so on equal dates the first copy is kept. |
| DedupStore.WinnerUnique | hooks/use-messages.ts:87-102 | Each uid has only one winner. |
| DedupStore.DedupAndSortContents | hooks/use-messages.ts:78-120 | The result holds exactly the winner of every input uid, once each, and is sorted newest first whenever the uid sequence differs from the last sorted one. |
| DedupStore.DedupAndSortEmpty | hooks/use-messages.ts:80-84 | An empty list gives an empty result. |
| DedupStore.AsWrittenAgreesWhenSorting | hooks/use-messages.ts:104-113 | When the uid sequence changed, the code as written and the corrected function agree. |
| DedupStore.UpdateLostAsWritten | hooks/use-messages.ts:113 | As written, patching a message whose uid sequence is unchanged returns the old message. The corrected function returns the patched one. |
| DedupStore.DedupLoop | hooks/use-messages.ts:87-102 | The `forEach` loop over the list computes `Dedup`. |
| DedupStore.DeduplicateAndSort | hooks/use-messages.ts:78-120 | Returns `DedupAndSort`, records it as the last sorted list, and leaves the uid map holding the deduplicated messages (empty for an empty list). |
| DedupStore.MergeAndDedup | hooks/use-messages.ts:137-158 | The processed list is `DedupAndSort` of `prev ++ batch` (of `batch` alone when replacing). The batch messages whose uid was not in `prev` join the new ids and are notified, only when there is at least one. |
| DedupStore.MessageStore.constructor | hooks/use-messages.ts:33-43 | The store starts empty, not updating, with no new ids. |
| DedupStore.MessageStore.AddMessages | hooks/use-messages.ts:127-169 | While an update runs the call changes nothing. Otherwise the list, map, last-sorted list, new ids and notifications become those of `MergeAndDedup`, the error is cleared, and the updating flag is reset. |
| DedupStore.MessageStore.UpdateMessage | hooks/use-messages.ts:174-188 | An unknown uid changes nothing. Otherwise the first message with the uid is patched and the list is deduplicated and sorted again. |
| DedupStore.MessageStore.RemoveMessage | hooks/use-messages.ts:193-196 | Every message with the uid is dropped. |
| DedupStore.MessageStore.ClearMessages | hooks/use-messages.ts:201-204 | List and map are emptied. New ids are not touched. |
| DedupStore.MessageStore.GetMessageById | hooks/use-messages.ts:209-211 | Returns a message with the uid exactly when the list has one. |
| DedupStore.MessageStore.HasMessage | hooks/use-messages.ts:216-218 | True exactly when the list carries the uid. |
| DedupStore.MessageStore.MarkMessagesAsRead | hooks/use-messages.ts:223-229 | The new-id set loses exactly the given uids. |
| DedupStore.WithoutUid | hooks/use-messages.ts:194 | The filtered list holds exactly the messages with another uid. |
| ConversationCache.MessageMap.Clone | hooks/use-conversation-cache.ts:71 | `new Map(m)` is a fresh map with the same entries. |
| ConversationCache.CopyArray | hooks/use-conversation-cache.ts:72 | `[...a]` is a fresh array with the same elements. |
| ConversationCache.Cache.SaveConversation | hooks/use-conversation-cache.ts:49-76 | The key's entry is replaced by a fresh state that shares the caller's message array and holds fresh copies of map and order. Every other key is kept. |
| ConversationCache.Cache.LoadConversation | hooks/use-conversation-cache.ts:81-95 | Returns the stored object itself, or null for an absent key. |
| ConversationCache.Cache.ClearConversation | hooks/use-conversation-cache.ts:100-103 | Only that key is removed. |
| ConversationCache.Cache.HasConversation | hooks/use-conversation-cache.ts:108-110 | True exactly for stored keys. |
| ConversationCache.Cache.ClearAll | hooks/use-conversation-cache.ts:115-118 | No key is left. |
| ConversationCache.SaveThenLoad | hooks/use-conversation-cache.ts:66-91 | Loading right after saving returns every saved field, and other keys are untouched. |
| ConversationCache.CallerWritesAfterSave | hooks/use-conversation-cache.ts:66-73 | After a save, writes to the caller's order array and map do not reach the cache, while writes to the caller's message array do. |
| ConversationCache.WriteThroughLoaded | hooks/use-conversation-cache.ts:84-90 | A write through a loaded state changes the cached entry, because load does not copy. |
| ConversationCache.ClearScenario | hooks/use-conversation-cache.ts:100-118 | Clearing a key makes it absent and keeps another. Clearing all makes every key absent. |
| ConversationStore.LoadAfterSave | hooks/use-conversation-store.ts:31-53 | Loading right after saving returns the saved state, and the key is present. |
| ConversationStore.SaveIsolated | hooks/use-conversation-store.ts:32-41 | Saving one key leaves what every other key loads unchanged. |
| ConversationStore.ClearIsolated | hooks/use-conversation-store.ts:55-61 | Clearing a key makes it absent and leaves every other key's state unchanged. |
| ConversationStore.ClearAllEmpty | hooks/use-conversation-store.ts:62 | After `clearAll` no key is present. |
| ConversationStore.LoadMatchesHas | hooks/use-conversation-store.ts:44-54 | Load returns a state exactly when `hasConversation` holds, and null otherwise. |
| ConversationStore.HasIffSavedSinceLastClear | hooks/use-conversation-store.ts:31-62 | After any sequence of operations, `hasConversation(k)` holds exactly when `k` was saved after its last clear and after the last `clearAll`. |
| ConversationStore.LoadIsLatest | hooks/use-conversation-store.ts:31-62 | After any sequence of operations, loading gives the state of the key's latest save not cleared since. |
| Dashboard.ErrorMessageIsFirstPresent | app/page.tsx:169-186 | The error text is the first applicable source in priority order: `Error.message`, `data.status[0]` when `status` is an array, `data.message`, `data.error`, `.message`. The default is used only when none applies. |
| Dashboard.ChainsAgreeWithoutArrays | app/page.tsx:218-236 | When neither `status` nor `sender` is an array, the pin chain and the status chain pick the same text. |
| Dashboard.EmptyStatusArrayClearsError | app/page.tsx:333-334 | An empty `status` array sets the error to `undefined`, ahead of a present `message`. |
| Dashboard.PinnedSet | app/page.tsx:90 | The pinned set holds exactly the senders of the pinned list, and is empty when the data or the list is missing. |
| Dashboard.PinnedSetIgnoresOrder | app/page.tsx:90 | Two pinned lists with the same members give the same set. |
| Dashboard.Page.constructor | app/page.tsx:39-50 | Page 1, an empty list, no next page, no load running, no error, no sender, not in wave mode. |
| Dashboard.Page.BeginLoadMore | app/page.tsx:276-282 | Without a next page, with a load running, or without a sender, nothing happens. Otherwise a request for page + 1 of the selected sender is issued, a load is marked running, and the error is cleared. |
| Dashboard.Page.CompleteLoadMore | app/page.tsx:306-347 | On success the unseen results are appended and the page becomes the requested one. The next page exists exactly when some results were unseen at request time and `next` is non-empty. On failure list and page are kept and the chain's text is the error. The load is never running afterwards. |
| Dashboard.Page.OnFirstPage | app/page.tsx:141-147 | A first page replaces the list, sets page 1, and sets the next page to whether `next` is non-empty. |
| Dashboard.Page.SelectSender | app/page.tsx:351-367 | The sender and mode are always recorded. List, page, next page and loading flag are reset exactly when the sender or the mode changed. |
| Dashboard.LoadMore | app/page.tsx:276-348 | A whole load: page + 1 and the appended unseen results on success, unchanged page and list with the chain's error on failure, a list that stays duplicate-free, and no load running at the end. |
| Dashboard.SecondLoadIgnored | app/page.tsx:277 | A second load started while the first runs does nothing. |
| Dashboard.StaleResponseMerged | app/page.tsx:276-367 | A response requested for one sender and completed after switching to another is appended to the new sender's list. |
| Thread.NearBottomIsSeventyPercent | components/message-thread-v2.tsx:98-106 | The integer test is exactly "remaining distance below 70% of the scroll height" over the reals. |
| Thread.ScrollGate.constructor | components/message-thread-v2.tsx:49-52 | Lock clear, suppression off, nothing restored, count 0. |
| Thread.ScrollGate.HandleScroll | components/message-thread-v2.tsx:89-111 | The position is reported first. The load fires exactly when there is a next page, no load runs, the lock and suppression are clear, a callback exists and the view is near the bottom. Firing sets the lock and counts one call. |
| Thread.ScrollGate.OnThreadChange | components/message-thread-v2.tsx:116-139 | When mounted, the lock is cleared and the count recorded. A new positive restore target turns suppression on, records the target and restores to it. Otherwise suppression is off, and the view jumps to the top only when a thread gets its first messages with no target. |
| Thread.ScrollGate.ReleaseSuppression | components/message-thread-v2.tsx:129-132 | The delayed callback turns suppression off. |
| Thread.ScrollGate.OnLoadingChange | components/message-thread-v2.tsx:144-148 | The lock is released when the parent's load ends and kept otherwise. |
| Thread.FiresOnceUntilUnlocked | components/message-thread-v2.tsx:98-108 | Two scrolls near the bottom fire once. After the load ends, the next one fires again. |
| Thread.RestoreSuppresses | components/message-thread-v2.tsx:98-132 | During a restore the gate does not fire. After the release it does, and the same target is not restored again. |
| Thread.MarkReadSelection | components/message-thread-v2.tsx:71-84 | No call when no displayed message carries a new id. Otherwise the first min(5, n) such uids in display order, where n is the number of displayed messages with a new uid. |
| Thread.MarkReadTakesFive | components/message-thread-v2.tsx:76 | With at least five new displayed messages, exactly five uids are passed. |
| Thread.WithUidIn | components/message-thread-v2.tsx:75 | The filter keeps exactly the messages whose uid is new. |
| Thread.ToggleExpansion | components/message-thread-v2.tsx:150-160 | The uid's membership flips, and every other uid keeps its membership. |
| Thread.ToggleTwice | components/message-thread-v2.tsx:150-160 | Toggling twice restores the set. |
| Thread.ShouldShowExpand | components/message-thread-v2.tsx:171-174 | The button shows exactly when the content is longer than 300 characters. |
| Thread.MessageAmount | components/message-thread-v2.tsx:166 | The amount if truthy, else the extracted amount if truthy, else null. |
| Sidebar.Contains | components/sender-sidebar.tsx:51 | `includes` holds exactly when the substring occurs at some index. |
| Sidebar.UpperChar | components/sender-sidebar.tsx:46 | Lower-case ASCII letters map to their upper case, and every other character is kept. |
| Sidebar.ToUpper | components/sender-sidebar.tsx:46 | Upper-casing works character by character and keeps the length. |
| Sidebar.ToUpperIdempotent | components/sender-sidebar.tsx:46 | Upper-casing twice is the same as once, and the result has no lower-case ASCII letter. |
| Sidebar.GetInitials | components/sender-sidebar.tsx:42-47 | For a `+` number: the up-to-three characters after the `+`, not upper-cased. Otherwise: the first up-to-two characters, upper-cased. |
| Sidebar.InitialsOfPhoneNumber | components/sender-sidebar.tsx:42-47 | Worked examples of both branches. |
| Sidebar.GetSenderType | components/sender-sidebar.tsx:49-53 | Phone exactly for a leading `+`. Service exactly for other senders containing "Money", "MoMo" or "Orange". Other for the rest. |
| Sidebar.PhoneCheckedFirst | components/sender-sidebar.tsx:49-53 | A `+` sender containing "Orange" is a phone, because the phone test comes first. |
| Sidebar.GetSenderIcon | components/sender-sidebar.tsx:55-65 | The icon identifies the sender's type: it equals the icon of a type exactly when that type is the sender's. |
| Sidebar.IconsDistinct | components/sender-sidebar.tsx:55-65 | The three types have three distinct icons. |
| Sidebar.PinButtonClick | components/sender-sidebar.tsx:260-270 | A click calls back only when both callbacks exist and no pin call runs. It unpins exactly a pinned sender and pins otherwise. |
| Sidebar.PinnedBeforeUnpinned | components/sender-sidebar.tsx:190-197 | After the sort, every pinned sender precedes every unpinned sender. |
| Sidebar.PinnedFirstPermutation | components/sender-sidebar.tsx:190 | The sort is a permutation of the senders. |
| Sidebar.PinnedFirstStable | components/sender-sidebar.tsx:191-196 | Inside the pinned group and inside the unpinned group the original order is kept. |
| Sidebar.StableSortUnique | components/sender-sidebar.tsx:191-196 | Any arrangement with the pinned senders first, in both groups' original orders, equals the model's result, so a stable sort can give no other. |
| Sidebar.MoveToFront | components/sender-sidebar.tsx:190-197 | Moves one element from index i to index k and shifts the elements between up by one. |
| Sidebar.SortPinnedFirst | components/sender-sidebar.tsx:190-197 | Sorts the array in place into `PinnedFirst` of its old contents. |

## Left out

- **Network calls.** The REST wrappers, the SWR fetching and refresh intervals, the status update and the pin and unpin requests are not modelled. `handleLoadMore` is split into a request (`BeginLoadMore`) and its outcome (`CompleteLoadMore`), and the outcome (results or a thrown value) is a parameter. Only the error-text chains of the other handlers are modelled.
- **Timers.** `setTimeout` (the new-message notification, the 2-second mark-as-read delay, the 500 ms suppression release) and `requestAnimationFrame` are explicit later calls. A scheduled notification is recorded in a list.
- **Browser storage.** The `localStorage` persistence of the expanded set is not modelled.
- **Rendering.** React rendering, state batching and console logging are not modelled. Functional state updaters are sequential field assignments.
- **Dates and uid order.** Date parsing is replaced by integer timestamps. `localeCompare` on uids is replaced by code-point order, which is a total order like the locale's.
- **Scroll pixels.** Scroll values are integers. The 70% threshold is stated as `10*distance < 7*height` and proved equal to the real-number test.
- **Upper-casing.** `toUpperCase` is modelled for ASCII letters only.
- **JavaScript values.** Values that are neither a string nor an array (numbers, objects) in error responses are not modelled. A message's text fields are strings or null.
- **Intermediate `isUpdatingRef` state.** Observers inside the updater cannot see the intermediate `true` value. The flag is modelled only as a guard at entry and as reset at exit.
- **The Wave package filter** in the FCM API wrapper (keep `com.wave.business` with a positive count and rename it) belongs to the network layer and is not part of this model.
- Sidebar.GetInitials: a string here is a sequence of Unicode scalar values, while JavaScript slices UTF-16 code units. For a sender with a character outside the Basic Multilingual Plane among its first four, the two results differ.
- Thread.ShouldShowExpand: the length is counted in Unicode scalar values, not UTF-16 code units as in JavaScript, so content with characters outside the Basic Multilingual Plane can cross 300 at a different point.
- DedupStore.DeduplicateAndSort: runs the corrected `DedupAndSort` (see Findings). When the uid sequence is unchanged it returns the deduplicated values, where the code as written returns the previous sorted list.
- DedupStore.MergeAndDedup: runs the corrected `DedupAndSort`, so a batch that only brings newer copies of the same uids publishes those copies, where the code as written keeps the previous list.
- DedupStore.MessageStore.AddMessages: publishes the corrected result. With the code as written, an unchanged uid sequence leaves `messages` as before while `messagesMapRef` already holds the new copies, so list and map can disagree; the class invariant `Valid()` rules that state out.
- DedupStore.MessageStore.UpdateMessage: keeps the patch. With the code as written the patch is lost whenever the uid sequence is unchanged (`DedupStore.UpdateLostAsWritten`).
- Thread.MarkReadSelection: the mark-as-read callback is assumed to exist. Without it the source schedules nothing, and that case is not modelled.

## Findings

| source | as written | input that shows it | evidently intended | confidence | as-written member | corrected member |
|---|---|---|---|---|---|---|
| hooks/use-messages.ts:113 | When the deduplicated uid sequence equals the last sorted one, `deduplicateAndSort` returns the previous list object, so updated field values are dropped | `addMessages([a])`, then `updateMessage(a.uid, {status: ...})`: the uid sequence is `[a.uid]` both times and the old `a` is returned | skip only the sort and return the deduplicated values | not executed | DedupStore.UpdateLostAsWritten | DedupStore.DedupAndSortContents |
