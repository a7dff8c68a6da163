# Models of the widget layer

Dafny models of five parts of the widget layer, with proofs of what they promise.
`dafny verify dfyconfig.toml` checks everything.

**Two-process IME composition.** The parent process sends composition and selection
events to a content process without waiting; each is acknowledged later. Meanwhile the
content process may ask synchronously to commit, and the request crosses events that are
still in flight. `CompositionProtocol` is the step relation of both processes with one FIFO
channel each way; `CompositionSafety` and `CompositionAccounting` prove properties of all
its runs. The objects `ContentCacheInParent` and `PuppetWidget` are modelled as classes whose
methods are proved to compute the functions that the step relation is made of.
`CompositionStarts` is about where a composition starts, and
`CompositionTexts` about the text that a commit request is answered with.
`PendingNotifications` is about the notifications that are deferred until everything is
acknowledged, with an IME that calls back, and `TextChanges` about how changes of the text
are merged meanwhile. `TextEventDispatchers` is the source of the
events; handlers that call back into it are finite trees of calls.

What the model assumes about code that it does not contain:

- the content process handles the events it receives one after another and acknowledges
  each when its handlers have returned, even if it drops the event
  (dom/ipc/BrowserChild.cpp:2127-2134, 2141-2148);
- a `TextComposition` exists in the content process exactly while it is composing, and only
  it asks for a commit;
- while the IME is asked to commit, it sends changes and at most a final commit of the
  composition that the widget has, and the parent's composition is destroyed exactly when
  there was such a commit;
- the widget sends events in the order that `TextEventDispatchers` proves, and never
  `eCompositionEnd`;
- what is in flight fits the counters: 2^32 - 1 events and 255 commits. Within the model
  the counters do wrap, and a run ends where the release assertion on 255 pending
  compositions would abort the process.

**The cache of character rectangles** (`ContentRects`, `ContentCacheRects`), against a layout
that gives every character a rectangle. Each of the content process's queries may fail; a
query that succeeds gives exactly the requested number of rectangles, none of them empty,
and for a range the bounding box.

**Line breaks in pending compositions** (`LineBreaks`, `PendingCompositions`); the dispatcher
of the events has such a composition as a part.

**Arithmetic.** `SystemTimeConverters` (32-bit native times, whole milliseconds),
`DriverVersions`, `DriverVersionTexts` and `DriverBlocklists`, and `ScreenManagers`.

**Vsync** (`VsyncDispatchers`, `CompositorVsyncDispatchers`): the sections under a lock, the
posts to the main thread and their execution are separate steps of several threads.

`BasicTypes` has the optional values, machine integers and texts that all of them use.

## What turned out not to hold

- The number of pending compositions (`mPendingCompositionCount`) is right exactly on timely
  schedules. `OnEventNeedingAckHandled` takes a commit that is pending when a notice arrives
  to be the one that the content process will ignore (widget/ContentCache.cpp:1262-1269).
  After a commit by the IME it can belong to the next composition, and after a reply on blur
  the commit may not have been sent yet; two lemmas give such runs.
- A commit request that comes after blur, or that the IME answers with a commit as is, is
  answered with a string that is forgotten only when no composition is pending
  (widget/ContentCache.cpp:1226-1230), and not when the next one starts. If nothing was typed
  into the composition yet, it is committed with the text of an older one, which was
  committed before; a lemma gives such a run.
- The stored commit length is documented as that of the first pending composition
  (widget/ContentCache.h:411-412). If that was committed while another one was pending, it is
  0; a lemma gives such events.
- The first character's rectangle is taken from the focus when the anchor is at 1
  (widget/ContentCache.cpp:419-420). The cache agrees with the layout exactly when it is not
  the case that the anchor is at 1 and the focus at 2 or more.
- A clause that starts between a CR and its LF no longer fits its neighbours after the line
  breaks are replaced; a lemma gives two such clauses.
- Flush compares the last clause and the caret with the text as it is at that time, and Set
  has replaced the line breaks already. So what is dispatched when it is set part by part
  can be refused when it is set at once, and the other way round; two lemmas give examples
  on the text CRLF.
- A string that is set by itself after Set keeps its CRs, and they are dispatched; debug
  builds assert that nobody does this.
- A second listener can take over while events are being dispatched, namely when a multiple
  of 65536 of them are nested, because their counter has 16 bits.
- A call of EndInputTransaction by a listener that does not own the dispatcher takes the type
  of the owner's transaction away (widget/TextEventDispatcher.cpp:167-176).
- A version with a component between 10000 and 65535 is not what its own text parses to.
- With gaps above 46340 on both axes the squared distance to a screen overflows.
- If two threads set the compositor's observer and their posts cross, the dispatcher can
  stay registered without an observer.
- Without data about any adapter the blocklist answers 0, which is none of the statuses that
  nsIGfxInfo defines.

## Model

| member | source | states |
|---|---|---|
| `CompositionSafety.ContentHearsCompositionsInOrder` | widget/PuppetWidget.cpp:317-331 | In every run of the two processes, with commit requests crossing events in flight or made by a handler of an event, the composition events that the content process's listener hears, its own synthesized commits included, split into rounds (Start Change* Commit) followed by an open round exactly when it is composing |
| `CompositionSafety.CountersCountWhatIsInFlight` | widget/ContentCache.cpp:1239-1295 | In every state of every run `mPendingEventsNeedingAck` is the number of events on their way or being handled, acknowledgements, awaited notices and flush guards, and `mPendingCommitCount` the number of commits on their way, being handled or being acknowledged; so no acknowledgement finds a counter at 0, no pending event means no pending commit, and then the start offset of a finished composition is forgotten |
| `CompositionSafety.SoundStep` | widget/ContentCache.cpp:1315-1360 | One step of either process, from any state: conservation, FIFO shape of the two channels, order of what is heard, and the forgotten start offset are kept together |
| `CompositionSafety.NoCommitInFlight` | widget/ContentCache.cpp:1336-1342 | Events in flight without a commit among them leave a composing content process composing and an ignoring one ignoring: why a true reply, given only without pending commits, cannot break the order |
| `CompositionSafety.RequestIsAlone` | widget/ContentCache.cpp:1315-1342 | A commit request that the parent is about to read is alone in its channel, and the content process is waiting |
| `CompositionSafety.EverythingSettles` | widget/PuppetWidget.cpp:592-661 | From every state of every run, unless all is quiet, some step works off what is in flight, and every such step leaves less: nobody blocks for good, and a content process that waits for its reply goes on |
| `CompositionProtocol.ConservedByAck` | widget/ContentCache.cpp:1239-1295 | Reading one acknowledgement, with the flush that it may start, keeps both counters equal to what is in flight |
| `CompositionProtocol.ConservedByRequest` | widget/ContentCache.cpp:1344-1423 | Answering a commit request, by the IME, after blur or by declining, keeps both counters equal to what is in flight |
| `CompositionProtocol.ConservedByDispatch` | widget/ContentCache.cpp:1104-1146 | Sending a composition event keeps both counters equal to what is in flight |
| `CompositionProtocol.ConservedByChild` | widget/PuppetWidget.cpp:592-661 | A content process that receives an event, acknowledges it after its handlers, asks or reads a reply keeps both counters equal to what is in flight |
| `CompositionProtocol.ConservedByHandled` | dom/ipc/BrowserChild.cpp:2127-2134 | The acknowledgement after the handlers takes the place of the event that was being handled |
| `CompositionAccounting.AccountedStep` | widget/ContentCache.cpp:1193-1269 | From a balanced state a step leads to a balanced state if and only if it is not the arrival of a notice at the wrong time |
| `CompositionAccounting.AccountedExactlyWhenTimely` | widget/ContentCache.cpp:1082-1269 | PC + [I] == [W] + CC + Hs holds in every state of a run if and only if its schedule is timely: no commit is dispatched between a commit by the IME and its notice, and one is dispatched between a reply on blur and its notice |
| `CompositionAccounting.TimelyNeverRepairs` | widget/ContentCache.cpp:1206-1220 | A timely run never takes the branch that repairs an empty number of pending compositions |
| `CompositionAccounting.QuietIsSettled` | widget/ContentCache.cpp:1271-1295 | When a timely run falls quiet nothing is pending, one composition is pending exactly when the widget has one, and the content process agrees unless it has committed by itself |
| `CompositionAccounting.CommitBeforeNoticeLeaks` | widget/ContentCache.cpp:1262-1269 | A schedule of 18 steps, given in full: its run is not timely, and falls quiet with a pending composition that nobody has |
| `CompositionAccounting.NoticeBeforeBlurCommitRepairs` | widget/ContentCache.cpp:1206-1220 | A schedule of 13 steps, given in full: its run is not timely, and the next acknowledgement takes the repair branch |
| `CompositionAccounting.GrantedExactly` | widget/ContentCache.cpp:1315-1423 | In any run a commit request is granted only while no commit is in flight; in a timely run, then and only then it is granted from the stored string after blur, or by an IME that has the composition and commits it |
| `CompositionStarts.StartsWhereReported` | widget/ContentCache.cpp:1082-1100 | In every state of every run, while the widget has a composition or a commit is pending, the stored start is where the schedule's last report puts it: at the start of the content process's own composition, or else at the selection, or at 0 if a composition has started since then while a plugin had focus |
| `CompositionStarts.StoresFirstLengthExactly` | widget/ContentCache.h:411-420 | In every state of every run: the pending compositions are as many as counted, and the stored length is that of the first one's committed text, if and only if that was committed with nothing else pending and the start has not moved since, and 0 otherwise |
| `CompositionStarts.SecondCommitHasNoLength` | widget/ContentCache.cpp:1104-1109 | Four events and two acknowledgements, given in full, after which the first pending composition is a committed one whose length is not stored |
| `CompositionTexts.ReplyTextExactly` | widget/ContentCache.cpp:1344-1423 | In every timely run the text of a true reply is the one that the IME names, if its answer ends in a commit with text, and otherwise, after blur or a commit as is, what the parent has stored; and this is the text typed into the composition since it started, if and only if something was typed into it or nothing was stored when it started |
| `CompositionTexts.StaleOnlyIfPending` | widget/ContentCache.cpp:1222-1230 | In a timely run something is stored at a start only if an older composition is pending |
| `CompositionTexts.OldTextIsCommittedAgain` | widget/ContentCache.cpp:1344-1360 | A schedule of 17 steps, given in full: its run is timely, and a request is answered with a text that was committed before, although nothing was typed into the composition that it commits |
| `CompositionCounters.InterceptAll` | widget/ContentCache.cpp:1119-1143 | Whatever changes and final commit the IME sends while it is asked to commit: the number of pending compositions and of commits is as before, one acknowledgement more is awaited exactly when there was a commit |
| `CompositionEvents.OrderedAppend` | widget/TextEvents.h:868-885 | The order (Start Change* Commit)* and the messages that may come next fit each other |
| `ContentCache.ContentCacheInParent.OnCompositionEvent` | widget/ContentCache.cpp:1063-1147 | The whole new state: all counters, the start offset, the composition string, and whether the event is sent or kept back, as the protocol's `Send` and `Intercept`; `CompositionStarts.StartsWhereReported` says where the start is |
| `ContentCache.ContentCacheInParent.OnSelectionEvent` | widget/ContentCache.cpp:1149-1172 | One more acknowledgement is awaited, nothing else changes |
| `ContentCache.ContentCacheInParent.AssignContent` | widget/ContentCache.cpp:505-536 | The start offset follows the content process exactly while there is a composition or a pending commit |
| `ContentCache.ContentCacheInParent.OnEventNeedingAckHandled` | widget/ContentCache.cpp:1174-1296 | The whole new state after an acknowledgement, with the flush and all reactions of the IME during it, is the one that the lemmas about `Acknowledge` speak of |
| `ContentCache.ContentCacheInParent.RequestIMEToCommitComposition` | widget/ContentCache.cpp:1298-1424 | Reply, committed string and new counters are those of the protocol's `Request`, for every sequence of events by which the IME answers; `CompositionTexts.ReplyTextExactly` says which composition's text the string is |
| `ContentCache.ContentCacheInParent.RequestToCommit` | widget/ContentCache.cpp:1378-1387 | Every sequence of events by which the IME answers is intercepted, and the string left at the end is that of the last one |
| `ContentCache.ContentCacheInParent.MaybeNotifyIME` | widget/ContentCache.cpp:1426-1450 | Delivered at once or merged into its slot, with all reactions of the IME; `PendingNotifications.ImeCatchesUp` says what the slots come to |
| `ContentCache.ContentCacheInParent.FlushPendingNotifications` | widget/ContentCache.cpp:1452-1513 | The recursive flush terminates for every IME and reaches the state of the function `Flush` |
| `PuppetWidgets.PuppetWidget.DispatchEvent` | widget/PuppetWidget.cpp:301-385 | What is dropped and what is heard, and the state of the filter afterwards, as the protocol's `Deliver` |
| `PuppetWidgets.PuppetWidget.RequestIMEToCommitComposition` | widget/PuppetWidget.cpp:592-661 | Exactly when it asks, and that on a true reply it hears one commit, starts to ignore events and sends one notice, as the protocol's `ReceiveReply` |
| `PendingNotifications.NotificationsAreDeferred` | widget/ContentCache.cpp:1426-1513 | After any notifications, events, commit requests and acknowledgements, and whatever the IME does in between: outside a flush it was notified only when no event was pending; and while the widget lives every text edit was delivered in order or is pending, and no slot is filled while no event is pending |
| `PendingNotifications.ImeCatchesUp` | widget/ContentCache.cpp:1426-1513 | In every state of every run with a live widget: the selection that waits, or else the one that the IME was told last, is the last one that has come; and once no event is pending the IME knows it, and for every notification that has come it was told one of its kind after that |
| `PendingNotifications.ImeHearsNews` | widget/ContentCache.cpp:1426-1513 | Everything that the IME was told in such a run was news: something of its kind had come since it was told last, a text change had all edits so far that it had not been told, and a selection was the last one |
| `PendingNotifications.AcknowledgementDelivers` | widget/ContentCache.cpp:1239-1295 | With an IME that does not react, an acknowledgement takes one from what is pending; the last one delivers everything that waits, the others nothing |
| `PendingNotifications.DestroyIsFinal` | widget/ContentCache.cpp:1452-1466 | Whatever else the IME does in its reactions, nested ones included, a widget that it destroys stays destroyed |
| `PendingNotifications.FlushOnceDelivers` | widget/ContentCache.cpp:1452-1505 | A pass of the flush delivers text, selection, layout and composition update in this order, each at most once and under the guard, and leaves a slot filled only if the IME used up one of its reactions |
| `PendingNotifications.TakesItsTurn` | widget/ContentCache.cpp:1468-1505 | What the turn of one slot does, re-entrant calls included: at most one delivery, of its own kind, and nothing without a widget |
| `PendingNotifications.SlotHoldsMergedChange` | widget/IMEData.h:529-542 | A slot that lists edits stands for the one change that the code keeps: for edits that describe a history of texts, merging what the slot held with what came gives the change that all edits together merge to |
| `PendingNotifications.PendingChangeCatchesUp` | widget/ContentCache.cpp:1426-1513 | In every state of every run with a live widget: the text change that waits leads from the text that the IME was told of last to the present one, and nothing waits when no event is pending |
| `PendingNotifications.DeliveredChangeFollowsTheLast` | widget/ContentCache.cpp:1470-1476 | As long as no edit was lost, repeated or reordered, which holds in every state of every run with a live widget: every text change that was delivered leads from the text at the one delivered before it to a later text |
| `TextChanges.MergedIsHullExactly` | widget/nsBaseWidget.cpp:2386-2521 | The six cases are one formula on unbounded offsets, the least stretch that covers both changes, if and only if neither shifted end exceeds 32 bits |
| `TextChanges.HullIsAssociative` | widget/nsBaseWidget.cpp:2341-2357 | That formula, with its three flags, is associative, for all offsets and flags |
| `TextChanges.HullIsLeast` | widget/nsBaseWidget.cpp:2330-2340 | The formula covers both changes, and no change that does covers less |
| `TextChanges.MergedDescribes` | widget/nsBaseWidget.cpp:2330-2357 | If an IME that keeps the text gets from each change to the next text by fetching only what the change covers, it does so by the merged change, for all texts whose offsets fit 32 bits |
| `TextChanges.AccumulatedDescribes` | widget/nsBaseWidget.cpp:2315-2521 | So for any number of changes merged one after the other into cleared data: the result leads from the first text to the last |
| `TextChanges.AccumulatedConcat` | widget/nsBaseWidget.cpp:2315-2521 | Merging in batches gives what merging one by one gives |
| `TextChanges.FlagsTellCauses` | widget/nsBaseWidget.cpp:2359-2387 | What the merged flags say about the single changes: all were caused by composition; some happened without one; some happened during a composition and none later without one |
| `TextChanges.TextChangeData.MergeWith` | widget/nsBaseWidget.cpp:2315-2521 | The whole new data, also when an object is merged with itself |
| `TextEventDispatchers.EveryCallTreeIsSound` | widget/TextEventDispatcher.cpp:229-384 | For every finite tree of calls that handlers make, edits of the pending composition included: composition events are dispatched as a prefix of (Start Change* Commit)*, and with no CR in their text unless somebody set a string with one after Set; composing implies handling a composition; the 16-bit counter is the nesting depth modulo 65536 while an event is dispatched, and 0 at the end; and no live listener is replaced while composing, or while dispatching except at nesting depths that are multiples of 65536 |
| `TextEventDispatchers.CommitCarriesText` | widget/TextEventDispatcher.cpp:327-384 | From every sound state with an owner and a widget: the event that a commit dispatches carries the text that it was called with, every line break of it as one LF, or no text if it was called without; right away while composing, and otherwise after a start, unless the start ended the call |
| `TextEventDispatchers.FlushCarriesText` | widget/TextEventDispatcher.cpp:855-925 | The event that a flush dispatches, after a start if need be, carries the pending text, every line break as one LF unless Set has replaced them, and the ranges of the flush |
| `TextEventDispatchers.PartsAreAcceptedExactly` | widget/TextEventDispatcher.cpp:722-764 | A composition set part by part has the clauses that are not refused, one behind the other, and the caret where it was set; a flush accepts it, if and only if the clauses, if any, are as long as the text and the caret lies in it |
| `TextEventDispatchers.PlainCompositionRuns` | widget/TextEventDispatcher.cpp:264-384 | With handlers that do nothing: starting, setting a text, flushing, committing and the notification that all was handled dispatch exactly a start, a change with the text in one clause and the commit, and leave nothing else behind |
| `TextEventDispatchers.SilentWhenGone` | widget/TextEventDispatcher.cpp:183-203 | Once the widget is gone, no tree of calls dispatches anything |
| `TextEventDispatchers.UnavailableAfterDeath` | widget/TextEventDispatcher.cpp:183-205 | There is no availability left once the listener or the widget is gone |
| `TextEventDispatchers.BeginOwnsExactly` | widget/TextEventDispatcher.cpp:59-85 | Beginning succeeds if and only if the listener owns the dispatcher afterwards, has no effect otherwise, and exactly when each error is returned |
| `TextEventDispatchers.EndFreesExactly` | widget/TextEventDispatcher.cpp:161-181 | Ending frees the dispatcher if and only if its owner asks, nothing is composed and no event is being dispatched; otherwise the owner stays, but if only the caller was wrong its transaction loses its type |
| `TextEventDispatchers.FreedCanBegin` | widget/TextEventDispatcher.cpp:59-181 | Once its owner has ended, any listener can begin |
| `TextEventDispatchers.RemovedListenerIsTold` | widget/TextEventDispatcher.cpp:76-81 | What a listener does when it is removed happens, if and only if a live one was removed |
| `TextEventDispatchers.RobbedExactlyAtFullTurns` | widget/TextEventDispatcher.cpp:64-75 | With any number of keyboard events nested in each other, a second listener that asks in the innermost handler gets the dispatcher if and only if the number is a multiple of 65536 |
| `TextEventDispatchers.StringAfterSetShowsCR` | widget/TextEventDispatcher.cpp:722-726 | Four calls, given in full, after which an event with a CR in its text was dispatched |
| `TextEventDispatchers.RunKeeps` | widget/TextEventDispatcher.cpp:264-384 | One call with all its re-entrant calls keeps this, from every sound state, and returns to the depth it started at |
| `TextEventDispatchers.BeginKeeps` | widget/TextEventDispatcher.cpp:59-85 | The same for a listener that takes over, with the re-entrant calls of the one it replaces; a takeover from a live one finds no composition and the counter at 0 |
| `TextEventDispatchers.FlushKeeps` | widget/TextEventDispatcher.cpp:855-925 | The same for a flush, whose handlers may set the next pending composition |
| `TextEventDispatchers.TextEventDispatcher.DispatchEvent` | widget/TextEventDispatcher.cpp:229-240 | The whole new state after an event and everything its handler calls |
| `TextEventDispatchers.TextEventDispatcher.StartComposition` | widget/TextEventDispatcher.cpp:264-292 | The whole new state, and the status that is returned |
| `TextEventDispatchers.TextEventDispatcher.StartCompositionAutomaticallyIfNecessary` | widget/TextEventDispatcher.cpp:294-325 | The whole new state, and whether the caller may go on: not after the start's handler has committed or destroyed |
| `TextEventDispatchers.TextEventDispatcher.CommitComposition` | widget/TextEventDispatcher.cpp:327-384 | The whole new state, the text that is dispatched, which is that of `CommitCarriesText`, and the status that is returned |
| `TextEventDispatchers.TextEventDispatcher.FlushPendingComposition` | widget/TextEventDispatcher.cpp:855-925 | The whole new state: the pending composition is forgotten before any handler runs, and what is dispatched, ranges included, is what was pending; and the status that is returned |
| `TextEventDispatchers.TextEventDispatcher.EditPendingComposition` | widget/TextEventDispatcher.h:181-252 | The pending composition after each way to set a part or all of it, at any time |
| `TextEventDispatchers.TextEventDispatcher.BeginInputTransactionInternal` | widget/TextEventDispatcher.cpp:59-85 | The whole new state, with the re-entrant calls of the removed listener, and the status that is returned |
| `TextEventDispatchers.TextEventDispatcher.EndInputTransaction` | widget/TextEventDispatcher.cpp:161-181 | The whole new state |
| `TextEventDispatchers.TextEventDispatcher.OnDestroyWidget` | widget/TextEventDispatcher.cpp:183-194 | The whole new state, the cleared pending composition included |
| `ContentCacheRects.CacheAgreesExactly` | widget/ContentCache.cpp:413-434 | For an anchor and a focus: every hit of GetTextRect without rounding is the layout's rectangle, for every layout, composition, pattern of failed queries and offset, if and only if it is not the case that the anchor is 1 and the focus at least 2 |
| `ContentCacheRects.HitsAreCachedOffsets` | widget/ContentCache.cpp:841-904 | When all queries are answered, GetTextRect without rounding hits, and there are rectangles for, exactly the first character, those around anchor and focus, and those of the composition and behind it |
| `ContentCacheRects.KnowsExactly` | widget/ContentCache.cpp:288-452 | However the queries went, there are rectangles for exactly the characters that a successful one was about; the first character gets a query of its own only if neither end of the selection nor the composition should have it |
| `ContentCacheRects.UnionIsBoundingBoxOfKnown` | widget/ContentCache.cpp:906-1004 | However the queries went, and unless the first character's rectangle was taken from a known focus beyond the range: the box of the whole selection, the rectangle of one separately cached character, a refusal at offset 0, or exactly the bounding box of the characters of the range that there are rectangles for, with rounding together with the one that the array has nearest to the range if it has none in it |
| `ContentCacheRects.UnionStaysWithinExactly` | widget/ContentCache.cpp:906-1004 | However the queries went: the answer is for every layout the bounding box of some characters of the queried range, if and only if the first character's rectangle was not taken from a known focus beyond the range |
| `ContentCacheRects.PartsAreBoundingBox` | widget/ContentCache.cpp:972-1001 | However the queries went, with and without rounding, the array's part and the five separately cached characters together give the box of the characters of the range that there are rectangles for, and of the nearest one in the array where rounding comes in |
| `ContentCacheRects.RoundedCharacterIsNearest` | widget/ContentCache.cpp:841-904 | A query for one character with rounding: what is cached for it, or else the rectangle that the array has nearest to it, or without a composition that of the selection's start |
| `ContentCacheRects.GetUnionTextRects` | widget/ContentCache.cpp:906-1004 | Hit and rectangle, rounding included, are those of the function that the lemmas above speak of |
| `ContentCacheRects.UniteNamed` | widget/ContentCache.cpp:980-1001 | The union of what was found with the separately cached characters that the query reaches |
| `ContentCacheRects.ContentCacheInChild.CacheTextRects` | widget/ContentCache.cpp:288-452 | The whole new cache, for every pattern of failed queries, is the one that the lemmas speak of; it fails exactly without a valid selection |
| `ContentRects.GetUnionRectAsFarAsPossible` | widget/ContentCache.cpp:1628-1650 | Indexes stay inside the array, for every offset, length and rounding, and the result is the union that `ServesBoundingBox` speaks of |
| `ContentRects.ServesBoundingBox` | widget/ContentCache.cpp:1628-1650 | With and without rounding: the answer is the bounding box of the characters of the range that the array has; and with rounding, for a range before or behind the array, the rectangle of its first or last character |
| `ContentRects.OverlapsExactly` | widget/ContentCache.h:201-210 | The test for overlap holds, if and only if the range fits 32 bits and the array has a character of it |
| `ContentRects.RoundingFindsARect` | widget/ContentCache.cpp:1635-1649 | With rounding some stored rectangle is united, if and only if the range is not an empty one strictly inside the array |
| `ContentRects.SliceIsBoundingBox` | widget/ContentCache.cpp:1628-1650 | Uniting consecutive stored rectangles gives the bounding box of their characters |
| `ContentRects.EmptyExactly` | widget/ContentCache.cpp:1645-1649 | A rectangle is left out as empty, if and only if it has no pixel |
| `ContentRects.BoundingBoxIsUnique` | widget/ContentCache.cpp:1645-1649 | A set of characters has only one bounding box, so the box that the others speak of is determined |
| `ContentRects.UnionIsBoundingBox` | widget/ContentCache.cpp:1645-1649 | Union turns the bounding boxes of two sets of characters into that of both |
| `LineBreaks.CollapseParts` | widget/TextEventDispatcher.cpp:831-853 | Collapsing CRLF works on the two parts of a string and adds up, except that a break lying across the cut counts twice |
| `LineBreaks.NormalisedText` | widget/TextEventDispatcher.cpp:801-829 | No CR is left, and the length is unchanged if and only if there was no CRLF |
| `LineBreaks.NormaliseMakesLF` | widget/TextEventDispatcher.cpp:810-812 | The two replacements one after the other turn every line break, CRLF, CR or LF, into one LF and change nothing else, as one pass would |
| `LineBreaks.AdjustedSelectsNormalised` | widget/TextEventDispatcher.cpp:831-853 | A range that cuts no CRLF selects, after adjustment, the normalised text it selected before |
| `LineBreaks.ClausesStillTileExactly` | widget/TextEventDispatcher.cpp:821-829 | Clauses that tile the string tile the normalised string, if and only if no clause starts inside a CRLF |
| `LineBreaks.SplitBreakLeavesClauseBehind` | widget/TextEventDispatcher.cpp:821-829 | Of two clauses on the two characters of a CRLF, the second ends behind the string that is left |
| `LineBreaks.ClausesSelectNormalised` | widget/TextEventDispatcher.cpp:821-829 | If no clause starts inside a CRLF, every clause selects the normalised text it selected before |
| `LineBreaks.UnchangedLengthMovesNothing` | widget/TextEventDispatcher.cpp:815-819 | Adjustment is the identity on all ranges in bounds, if and only if the length is unchanged, if and only if there was no CRLF: the early return is sound |
| `PendingCompositions.AppendedClausesTileExactly` | widget/TextEventDispatcher.cpp:729-754 | Appending keeps the clauses contiguous, if and only if the total length fits 32 bits |
| `PendingCompositions.FlushedIsAdjusted` | widget/TextEventDispatcher.cpp:855-905 | Whether or not the length changed, and whether Set or Flush replaced the line breaks, what is dispatched are the adjusted clauses followed by the adjusted caret |
| `PendingCompositions.FlushCarriesRanges` | widget/TextEventDispatcher.cpp:855-925 | Whether Set or Flush replaced the line breaks: the dispatched text has no CR; its clauses tile it if and only if no clause started inside a CRLF; then clauses and caret select the normalised form of what they selected |
| `PendingCompositions.EveryFlushIsClean` | widget/TextEventDispatcher.cpp:878-882 | The dispatched text has no CR whichever way it was set |
| `PendingCompositions.FlushLeavesNothing` | widget/TextEventDispatcher.cpp:907-910 | Whether a flush dispatches or refuses what is pending, nothing is left: another one dispatches an empty text and no ranges |
| `PendingCompositions.ReplacingEarlyIsTheSame` | widget/TextEventDispatcher.cpp:766-905 | Replacing line breaks in Set or only in Flush makes no difference to what is dispatched, provided that Flush accepts both |
| `PendingCompositions.RefusedAfterSetExactly` | widget/TextEventDispatcher.cpp:865-882 | Of what Flush accepts with the line breaks still in the text, it accepts the same after Set has replaced them, if and only if the last clause does not start inside a CRLF and the caret does not end behind what is left |
| `PendingCompositions.SetRefusesWhatPartsDispatch` | widget/TextEventDispatcher.cpp:865-882 | A clause on each character of a CRLF, given in full: dispatched when the parts are set one by one, refused when they are set at once |
| `PendingCompositions.SetDispatchesWhatPartsRefuse` | widget/TextEventDispatcher.cpp:865-882 | A clause on the CR of a CRLF alone, given in full: the other way round |
| `PendingCompositions.LastClauseEndsExactly` | widget/TextEventDispatcher.cpp:831-853 | A clause that ended with the string ends, after adjustment, with the string that is left, if and only if it did not start inside a CRLF |
| `PendingCompositions.CaretEndsExactly` | widget/TextEventDispatcher.cpp:831-853 | A caret in the string ends, after adjustment, behind the string that is left, if and only if it starts inside a CRLF and either reaches the end of the string, or ends inside a CRLF there, or lies before its own start |
| `PendingCompositions.PendingComposition.AppendClause` | widget/TextEventDispatcher.cpp:729-754 | The new clause follows the last one with 32-bit wrap-around; refused without effect for length 0 and for a caret |
| `PendingCompositions.PendingComposition.Set` | widget/TextEventDispatcher.cpp:766-799 | The whole new state: clauses in order, the last caret, one raw clause without ranges, all adjusted |
| `PendingCompositions.PendingComposition.ReplaceNativeLineBreakers` | widget/TextEventDispatcher.cpp:801-829 | The whole new state: text and all ranges |
| `PendingCompositions.PendingComposition.AdjustRange` | widget/TextEventDispatcher.cpp:831-853 | The range in the normalised string |
| `PendingCompositions.PendingComposition.Flush` | widget/TextEventDispatcher.cpp:855-925 | What is dispatched, when it refuses, and that the pending state is cleared |
| `SystemTimeConverters.ComparesExactly` | widget/SystemTimeConverter.h:192-217 | Newer exactly when the true lag is negative, with its absolute value, however often the 32-bit counter wrapped: if and only if the lag is inside the half range |
| `SystemTimeConverters.ConvertsTransparently` | widget/SystemTimeConverter.h:43-121 | The time stamp is the reference plus the unwrapped distance, capped at now, and the reference then maps the event to it |
| `SystemTimeConverters.FirstStampIsExact` | widget/SystemTimeConverter.h:43-54 | The first event becomes the reference, and its time stamp lies as long before that of the clock reading as the event lies before the reading, but never in the future |
| `SystemTimeConverters.AsksExactly` | widget/SystemTimeConverter.h:92-121 | The current time is asked for, if and only if the event lies more than 30 ms back and more than 2000 ms after the last check; and exactly which events are checks |
| `SystemTimeConverters.CompensationMovesForwards` | widget/SystemTimeConverter.h:123-172 | Compensation takes the later of the old mapping and the one through the lower bound, for every time |
| `SystemTimeConverters.TimeStampsAreMonotone` | widget/SystemTimeConverter.h:43-172 | Over whole runs, with compensation anywhere, time stamps never decrease and never exceed now |
| `SystemTimeConverters.SkewChecksAreRateLimited` | widget/SystemTimeConverter.h:109-117 | The k-th request after another comes at least 2001 * k ms of event time later, however often the counter wrapped |
| `SystemTimeConverters.SystemTimeConverter.GetTimeStampFromSystemTime` | widget/SystemTimeConverter.h:43-121 | Time stamp, whether the time is asked for, and the whole new state |
| `SystemTimeConverters.SystemTimeConverter.CompensateForBackwardsSkew` | widget/SystemTimeConverter.h:123-172 | The whole new state |
| `SystemTimeConverters.SystemTimeConverter.IsTimeNewerThanTimestamp` | widget/SystemTimeConverter.h:192-217 | Both results, in 32-bit arithmetic |
| `DriverVersions.PackIsPositional` | widget/GfxDriverInfo.h:220-222 | Shifting and or-ing four 16-bit fields is positional notation in base 65536 |
| `DriverVersions.PackedOrder` | widget/GfxDriverInfo.h:220-222 | Packed numbers compare like their fields one after another, and determine them |
| `DriverVersions.PaddedRange` | widget/GfxDriverInfo.h:228-236 | A component ends with four digits, and is left alone if and only if it is 0 or at least 1000 |
| `DriverVersions.V` | widget/GfxDriverInfo.h:224-238 | The three loops pad b, c and d, and only those |
| `DriverVersionTexts.FieldsAreSeparatedByDots` | widget/GfxDriverInfo.h:241-287 | Splitting loses nothing, leaves no dot, and gives one field more than there are dots |
| `DriverVersionTexts.SplitDriverVersion` | widget/GfxDriverInfo.h:241-287 | Succeeds if and only if there are four fields, and then each buffer holds the first four characters of its field, ended within five bytes |
| `DriverVersionTexts.PadDriverDecimal` | widget/GfxDriverInfo.h:294-304 | The buffer holds the field with zeros up to four characters |
| `DriverVersionTexts.ParseDriverVersion` | widget/GfxDriverInfo.h:306-334 | Success and number are those of `Parse`, and the number is 0 on failure |
| `DriverVersionTexts.AtoiReads` | widget/GfxDriverInfo.h:323-326 | What the C library reads of a field: blanks, a sign and then digits as far as there are any, whatever follows |
| `DriverVersionTexts.ParsesExactly` | widget/GfxDriverInfo.h:306-334 | Parsing succeeds if and only if there are three dots and no field is negative; no field can be too large |
| `DriverVersionTexts.PaddedDigits` | widget/GfxDriverInfo.h:289-304 | A padded field is read as 10000 times its digits behind a decimal point |
| `DriverVersionTexts.ParsedOrderIsDecimalOrder` | widget/GfxDriverInfo.h:306-334 | On fields of digits the numbers compare exactly like first the whole numbers and then the other fields as decimal fractions |
| `DriverVersionTexts.ParseAgreesWithBuiltExactly` | widget/GfxDriverInfo.h:224-334 | Parsing the text a.b.c.d gives V(a, b, c, d) if no component has more than four digits, and among components of 16 bits only then |
| `DriverVersionTexts.WideComponentAgreesByAccident` | widget/GfxDriverInfo.h:220-222 | A wider component for which both agree nevertheless |
| `DriverVersionTexts.PrintingRoundTripsExactly` | widget/GfxInfoBase.cpp:925-933 | Printing a 64-bit version and parsing it gives it back, if and only if the first field is at most 9999 and the others are 0 or between 1000 and 9999 |
| `DriverVersionTexts.SuggestionRoundTrips` | widget/GfxInfoBase.cpp:925-933 | So for every version built by V from components up to 9999 |
| `DriverBlocklists.FindBlocklistedDeviceInList` | widget/GfxInfoBase.cpp:730-937 | The lowest-index entry that applies decides status, rule and suggestion; without one the status is unknown; 0 without data about either adapter; with the Windows special case |
| `DriverBlocklists.ComparisonsGoTogether` | widget/GfxInfoBase.cpp:832-876 | Every comparison of versions in terms of the one for older drivers; those of build numbers compare the last field |
| `DriverBlocklists.TextsNarrow` | widget/GfxInfoBase.cpp:818-830 | Naming a model, hardware, product or manufacturer, one at a time, makes an entry apply to exactly those machines with it that it applied to before |
| `DriverBlocklists.NumbersNarrow` | widget/GfxInfoBase.cpp:785-788 | The same for a version of the operating system and for a feature |
| `DriverBlocklists.SystemNarrows` | widget/GfxInfoBase.cpp:703-728 | The same for an operating system |
| `DriverBlocklists.AdapterNarrows` | widget/GfxInfoBase.cpp:790-813 | The same for a vendor, a driver vendor and a list of devices |
| `DriverBlocklists.VersionNarrows` | widget/GfxInfoBase.cpp:884-886 | The same for a comparison with a version |
| `DriverBlocklists.NamesNothingApplies` | widget/GfxInfoBase.cpp:767-888 | An entry that names only wildcards applies, if and only if there is the adapter that it is about |
| `DriverBlocklists.AdaptersAreAlike` | widget/GfxInfoBase.cpp:771-777 | An entry about the second adapter is one about the first with the two exchanged |
| `DriverBlocklists.SpecialCaseExactly` | widget/GfxInfoBase.cpp:899-919 | Exactly when the Windows special case changes a verdict, and what it changes |
| `DriverBlocklists.SuggestionComesFromEntry` | widget/GfxInfoBase.cpp:884-935 | A version that the entry gives comes first; otherwise only an entry for older drivers has a suggestion, and only on Windows; and the failure is the one that the entry gives, if it gives one |
| `DriverBlocklists.SuggestionIsNotBlocked` | widget/GfxInfoBase.cpp:921-934 | The version that an entry for older drivers suggests is not blocked by that entry |
| `DriverBlocklists.SomeRuleDecides` | widget/GfxInfoBase.cpp:767-896 | If an entry applies, there is a first one: an entry decides or none applies |
| `DriverBlocklists.FindRule` | widget/GfxInfoBase.cpp:767-896 | The loop stops at the first entry that applies, or passes all of them if none does |
| `DriverBlocklists.FindDevice` | widget/GfxInfoBase.cpp:799-814 | Finds a device if and only if one of the entry's names it |
| `DriverBlocklists.LessThanRulePassesOlderExactly` | widget/GfxInfoBase.cpp:830-883 | An entry for older drivers that is not the wildcard, whatever 64-bit version it has, passes exactly the text, whatever it is, whose four numbers come before the fields of its version, where text that cannot be parsed reads as zeros; for a version built by V these are a and the padded b, c, d if they have 16 bits; with components up to 9999 it passes exactly those versions of digits that precede a.b.c.d as decimals |
| `ScreenManagers.ScreenManager.ScreenForRect` | widget/ScreenManager.cpp:115-199 | The first screen with the most area in common if any has some, otherwise the first at the least computed distance |
| `ScreenManagers.AreaCountsSharedPixels` | widget/ScreenManager.cpp:144-159 | The computed area is the number of pixels that window and screen share, if and only if that number fits 32 bits, where products from 2^31 on, which overflow in the code, are taken to wrap around |
| `ScreenManagers.GapIsLowerBound` | widget/ScreenManager.cpp:176-188 | No two points of window and screen are nearer than the gaps say |
| `ScreenManagers.GapIsAttained` | widget/ScreenManager.cpp:176-188 | And two points are that near |
| `ScreenManagers.DistanceIsExactlyRight` | widget/ScreenManager.cpp:176-190 | The 32-bit distance is the true one if and only if that fits 32 bits |
| `ScreenManagers.LargestSafeGap` | widget/ScreenManager.cpp:176-190 | It always fits for gaps up to g on both axes, if and only if g is at most 46340 |
| `ScreenManagers.SeemingIsBeing` | widget/ScreenManager.cpp:171-197 | With such gaps the screen that seems nearest has a point as near to the window as any point of any screen, and strictly nearer than those of earlier screens |
| `ScreenManagers.FarScreenSeemsNearest` | widget/ScreenManager.cpp:171-197 | With gaps of 46341 a far screen is preferred to a near one |
| `VsyncDispatchers.StatusIsRightOrUpdateIsUnfinished` | widget/VsyncDispatcher.cpp:131-183 | However threads interleave between locks: the display's status is what the timers need, or an update is unfinished; and no child timer is there twice |
| `VsyncDispatchers.QuietStatusIsRightExactly` | widget/VsyncDispatcher.cpp:131-183 | In every interleaving: when no update is unfinished, the display was told last that vsync is needed, if and only if in the history of the changes the last observer set for the parent is one, or some child was added and not removed again |
| `VsyncDispatchers.ConsistentStep` | widget/VsyncDispatcher.cpp:131-183 | The invariant behind it, for one step |
| `VsyncDispatchers.UpdatesFinish` | widget/VsyncDispatcher.cpp:164-183 | Without further changes every step brings the updates nearer to their end, some step can be taken until they end, and then the status is right |
| `VsyncDispatchers.ChildrenAreASet` | widget/VsyncDispatcher.cpp:142-162 | Adding and removing treat the array of child timers as a set |
| `VsyncDispatchers.RefreshTimerVsyncDispatcher.SetParentRefreshTimer` | widget/VsyncDispatcher.cpp:131-140 | A call makes exactly the steps that the lemmas interleave |
| `VsyncDispatchers.RefreshTimerVsyncDispatcher.AddChildRefreshTimer` | widget/VsyncDispatcher.cpp:142-152 | A call makes exactly the steps that the lemmas interleave |
| `VsyncDispatchers.RefreshTimerVsyncDispatcher.RemoveChildRefreshTimer` | widget/VsyncDispatcher.cpp:154-162 | A call makes exactly the steps that the lemmas interleave |
| `VsyncDispatchers.RefreshTimerVsyncDispatcher.UpdateVsyncStatus` | widget/VsyncDispatcher.cpp:164-174 | Posts itself off the main thread, tells the display on it; `QuietStatusIsRightExactly` says what |
| `CompositorVsyncDispatchers.ShutdownIsFinal` | widget/VsyncDispatcher.cpp:87-97 | After shutdown no call that was queued before or is posted later registers the dispatcher again |
| `CompositorVsyncDispatchers.ObserverFollowsSchedule` | widget/VsyncDispatcher.cpp:67-97 | In every interleaving the observer is the one set last, and none from the end of a shutdown until another is set; and shutdown has happened if and only if it is in the schedule |
| `CompositorVsyncDispatchers.RegisteredExactlyWhenObserved` | widget/VsyncDispatcher.cpp:55-97 | If observers are set one at a time, the settled dispatcher is registered if and only if it has an observer and is not shut down |
| `CompositorVsyncDispatchers.RegistrationFitsExactly` | widget/VsyncDispatcher.cpp:67-85 | For all interleavings of setters: the settled registration fits the observer, if and only if the last post was for an observer like the last one set |
| `CompositorVsyncDispatchers.CrossedPostsStayRegistered` | widget/VsyncDispatcher.cpp:67-85 | Two setters whose posts cross leave the dispatcher registered without an observer |
| `CompositorVsyncDispatchers.CompositorVsyncDispatcher.SetCompositorVsyncObserver` | widget/VsyncDispatcher.cpp:67-85 | A call makes exactly the steps that the lemmas interleave |
| `CompositorVsyncDispatchers.CompositorVsyncDispatcher.ObserveVsync` | widget/VsyncDispatcher.cpp:53-65 | The registration follows, except after shutdown |
| `CompositorVsyncDispatchers.CompositorVsyncDispatcher.Shutdown` | widget/VsyncDispatcher.cpp:87-97 | A call makes exactly the steps that the lemmas interleave |

## Left out

- The transport between the processes, BrowserParent, BrowserChild, IMEStateManager, TextComposition and native IMEs: only the assumptions above are kept.
- Runs in which more than 2^32 - 1 events or 255 commits are in flight: the counters' wrap-around is in the functions, but the lemmas are about runs that fit.
- A null widget is not told apart from a destroyed one, and the widget is the same in every call of a run.
- TextChanges.MergedIsHullExactly: changes whose start lies behind one of their ends, which the code asserts that nobody makes, are left out.
- Plugin focus while the IME sends an event in reaction to a notification; elsewhere it is a parameter.
- IMENotification's tagged union: the four slots are modelled by what they hold, not by their memory.
- ContentCache.ContentCacheInParent.AssignContent: copies the selection's start and the composition's start only, because the rectangles are the subject of ContentCacheRects and text and caret are plain copies; the note to IMEStateManager is left out.
- Caching of text, caret, selection and editor rectangle, SetSelection, GetCaretRect and HandleQueryContentEvent: copies and forwarding.
- ContentCacheRects.ContentCacheInChild.CacheTextRects: where the composition starts and how long its text is comes from TextComposition, which is not part of this model.
- 32-bit overflow of the edges of rectangles in Union, whose body is not part of this model.
- Keyboard events beyond their nesting, BeginInputTransactionFor and the getters.
- TextEventDispatchers.TextEventDispatcher.CommitComposition: without the event status, of which only that it ends a call early is modelled.
- TextEventDispatchers.TextEventDispatcher.FlushPendingComposition: without the event status, of which only that it ends a call early is modelled.
- TextEventDispatchers.TextEventDispatcher.BeginInputTransactionInternal: without the update of notification requests.
- TextEventDispatchers.TextEventDispatcher.EndInputTransaction: without the update of notification requests.
- TextEventDispatchers.TextEventDispatcher.OnDestroyWidget: without the focus flag and the notification requests.
- TextEventDispatchers.EveryCallTreeIsSound: handlers are finite trees, so a handler that never returns is not covered.
- TextRange.RemoveCharacter, the searches in TextRangeArray and QueryContent's MakeOffsetAbsolute: easy members.
- Texts longer than 2^32 - 1 characters, in a pending composition and between changes of the text.
- Sub-millisecond parts of time stamps, and the moment at which the current time is read again when the first reference is set.
- SystemTimeConverters.SystemTimeConverter.CompensateForBackwardsSkew: only with a reference, because it is called in answer to a request that needs one, and what subtracting a null TimeStamp gives is not part of this model.
- SystemTimeConverters.TimeStampsAreMonotone: runs start with a reference, because before it time 0 is answered with the current time.
- DriverVersionTexts.ParseAgreesWithBuiltExactly: for components above 65535 nothing is said about disagreement, because WideComponentAgreesByAccident shows one that agrees.
- The lossy conversion of a version string to bytes: text is modelled as it is after it; and atoi's overflow, as four characters cannot reach it.
- The Android form of ParseDriverVersion, and the platforms on which it always fails other than the Mac, where versions are not compared.
- The comparison of names regardless of case, whose body is not part of this model, is a parameter.
- Sums of coordinates that do not fit 32 bits: undefined in the code, excluded by the type of rectangles.
- ScreenManagers.AreaCountsSharedPixels: areas from 2^31 on are signed overflow, which is undefined in the code; the model takes the usual wrap-around.
- The Wayland warning, the screens' details and their copies in content processes.
- RefreshTimerVsyncDispatcher::MoveToDisplay: the new display is told by code that is not part of this model. The display starts with vsync off.
- NotifyVsync in both dispatchers, the vsync source itself, and MOZ_ASSERTs about threads.
- Destruction of objects while a call on them is queued: runnables hold references.
- Logging, crash annotations and diagnostic assertions.
