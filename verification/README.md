# svc-notifier, modelled and proved in Dafny

svc-notifier turns deliver commands from an at-least-once broker into one notification per
recipient, lets recipients read, mark and delete them, and keeps every open client in step
through announcements committed with each write. This project models that system and proves
what every run of it keeps.

`dafny verify dfyconfig.toml` checks the whole project.

## How the modules fit

- **Wire level.** `RelativeLinks` (the link parser), `UriResolution` (RFC 3986 splitting, dot
  removal, resolution and recomposition), `Uuids` (identifier text), `Wire` (the command's JSON,
  its decoder, validation, and the ids traced from a refused payload), `Signals` (chunking,
  payload sizes, PostgreSQL's merging of identical payloads), `SignalText` (the payload read back).
- **Store.** `Store` is the notifications table, its unique key, the append-only announcement
  log and the three kinds of committed write. `Operations` says which commit each service
  operation makes and what its caller is told. `Transactions` runs the same writes in place, as
  a transaction object over a database object; `Resolvers` adds the callers, the id parsing and
  the commit-or-drop shape of the GraphQL mutations.
- **Every run.** `Views` (log and table agree), `Lifecycle` (read once, unique keys, hydration),
  `ReadCommitted` (mutations and fan-outs under READ COMMITTED: snapshot, locks, re-check, conflict
  waits, commit, any number at once), `Isolation` (one recipient's world depends on that
  recipient's operations only).
- **Intake.** `IntakeProtocol` is the delivery protocol as a state machine whose environment may
  refuse a write, commit it and lose the answer, lose a settlement, redeliver, restart, purge
  and let recipients mutate. `IntakeSafety` and `ExactlyOnce` prove what its runs keep; `Intake`
  is the service object and its consume loop, proved to follow the protocol.
- **Realtime.** `Registry` interleaves the registry's critical sections, `Realtime` is the
  registry object and the listener loop, `Broadcast` the 256-slot ring and the stream that ends
  on the first lag, `Pages` the cursor walk, `Convergence` the reconnecting client.

Inputs stand for what the service does not compute: minted ids (new each time), timestamps (in
any order), the order in which PostgreSQL visits rows (`scan`), how a write ended (`Fate`), the
events a loop wakes up to, and the table a re-read sees.

## Where the code and its documentation differ

The model follows the code.

- README.md:346-347 says mark-all-as-read emits exactly one bulk event. It emits one per 150 rows
  the caller had unread: exactly one if and only if there were 1 to 150, none when there was none
  (src/notification.rs:102-117, src/notification.rs:295-297; README.md:406-413 has the first half):
  `MarkAllEvents`, and `DeleteEvents` for deletions.
- README.md:121-124 says the ids are recovered before the payload is judged, so nothing can be
  refused untraceably. A command encoded as a JSON array decodes by position, but the tracing
  functions read objects only, so its ledger row names neither source nor recipients (the stored
  payload still holds them): `TraceNamesTheDecodedIds` gives the exact condition,
  `ArrayEncodedRefusalIsUntraced` a whole family.
- README.md:82 calls an accepted link same-domain. It is, against every base that has an
  authority, which covers every http(s) page. Against a base without one, dot segments can
  uncover a network-path reference, although recomposition by section 5.3 of RFC 3986 is
  followed to the letter: `ResolutionStaysOnTheBase` gives the exact condition,
  `DotSegmentsCanUncoverAnAuthority` an accepted link that fails it.
- "Already read" (src/notification.rs:275) can be answered for a notification nobody ever read:
  the one a concurrent transaction deletes after the reader's snapshot. It was read if and only if
  nothing took it unread, and certainly when the snapshot showed it read: `AlreadyReadIsNeverUnread`
  and `NeverReadIffTakenUnread`; `AlreadyReadWithoutARead` builds the race.
- A cursor deleted between the lookup and the select of one listing (src/notification.rs:181-208)
  gives an empty last page, not NOT_FOUND, even when older rows exist:
  `ListingIsExactIffCursorStays`, `DeletedCursorHidesTheRest`. A walk whose every lookup succeeded
  can lose a row that way (`LostCursorLosesARow`), and so can the reconnect protocol;
  `ServedIffNotHidden` and `ReconnectConvergesOverAWalk` say exactly when.
- README.md:251-252 says redelivery duplicates no already-inserted recipient. A hard delete frees
  the dedup key, and a redelivery then brings the notification back (`DeleteThenRedeliverRecreates`).
  A run ends as its exactly-once run if and only if no redelivery found a freed key
  (`RedeliveryRefinesExactlyOnce`); deletes are harmless unless they take one of a command's rows
  between its first committed write and a committed redelivery (`OnlyDeletesInBetweenFree`).
- A committed fan-out need not leave every named recipient a row: under READ COMMITTED it can skip
  a taken key whose row is deleted before it commits. `FanOutLeaves` is exact, `SkippedThenDeleted`
  builds the race, and `TriedIsWonOrHeld` is what remains true.

## Model

| member | source | states |
|---|---|---|
| `RelativeLinks.ParseLink` | crates/br-notifier-contract/src/lib.rs:53-75 | accepts exactly the rooted, not scheme-relative candidates over the allowed characters, letter for letter; each of the five refusals, exactly when it is given |
| `RelativeLinks.CharacterClasses` | crates/br-notifier-contract/src/lib.rs:59-64 | the white-space and control characters refused are Unicode's 25 and 65, one by one |
| `RelativeLinks.ParseLinkIsTotalOnLinks` | crates/br-notifier-contract/src/lib.rs:53-94 | the parser accepts its own output unchanged, so a stored link always reads back |
| `UriResolution.AcceptsExactlyAbsolutePaths` | crates/br-notifier-contract/src/lib.rs:53-75 | accepted = absolute-path reference of section 4.2 of RFC 3986 over the allowed characters, never a network-path reference (both directions) |
| `UriResolution.SplitRecompose` | crates/br-notifier-contract/src/lib.rs:53-75 | splitting a recomposed well-formed reference gives it back: the reference grammar and section 5.3 agree |
| `UriResolution.RemoveDotsRooted` | crates/br-notifier-contract/src/lib.rs:53-75 | removing dot segments (section 5.2.4) keeps a rooted path rooted and brings in no stop character |
| `UriResolution.MovesOneSegment` | crates/br-notifier-contract/src/lib.rs:53-75 | section 5.2.4: a segment that is no dot segment moves to the output whole |
| `UriResolution.ADotIsNothing` | crates/br-notifier-contract/src/lib.rs:53-75 | section 5.2.4: a single dot leaves what follows and what was moved |
| `UriResolution.TwoDotsTakeBack` | crates/br-notifier-contract/src/lib.rs:53-75 | section 5.2.4: two dots take back the segment moved before them |
| `UriResolution.ResolutionStaysOnTheBase` | crates/br-notifier-contract/src/lib.rs:53-75 | for every base and accepted link the resolved URI, read again, has the base's scheme, and its authority if and only if the base has one or the dot-free path does not open with two slashes |
| `UriResolution.DotSegmentsCanUncoverAnAuthority` | crates/br-notifier-contract/src/lib.rs:53-75 | against any base without authority one accepted link resolves onto another authority |
| `Uuids.ParseText` | src/graphql.rs:287-289 | an identifier's canonical text parses back to it, among the four spellings accepted |
| `Uuids.ParseOtherSpellings` | src/graphql.rs:287-289 | plain digits, braces and the URN prefix read as the same identifier |
| `Uuids.TextInjective` | src/graphql.rs:287-289 | two identifiers never share a text |
| `Wire.PublishValidateRoundTrip` | src/intake.rs:293-333 | a published command validates to itself if and only if it names a recipient and a renderable template; otherwise which refusal it gets |
| `Wire.AcceptedCommandsRepublish` | src/intake.rs:293-333 | whatever JSON was accepted, republishing the accepted command is accepted with the same meaning |
| `Wire.ValidationDecides` | src/intake.rs:293-333 | each refusal exactly when it is given, in its order: shape, link, recipients, template; an accepted command is what was decoded |
| `Wire.UnknownMembersAreIgnored` | src/intake.rs:108-116 | members of other names change nothing |
| `Wire.PositionsAreNames` | src/intake.rs:294-297 | a command encoded as an array is read as the object with its members in the declared order, the link possibly left out |
| `Wire.NullLinkIsNoLink` | src/intake.rs:108-116 | a null link decodes as a missing one |
| `Wire.TraceNamesTheDecodedIds` | src/intake.rs:335-353 | over payloads that decode, the traced ids are the decoded ids in order if and only if the payload is an object; otherwise nothing is traced |
| `Wire.TracesWhatIsReadable` | src/intake.rs:335-353 | an object is traced by its readable source id and the readable ids of its recipient list |
| `Wire.ReadableIdsSkipTheRest` | src/intake.rs:342-353 | an unreadable entry is skipped and every readable one kept, in order |
| `Wire.ArrayEncodedRefusalIsUntraced` | src/intake.rs:229-253 | a refused array-encoded command that names a recipient leaves an empty trace, for every source and recipient |
| `Signals.ChunksPartition` | src/notification.rs:92-117 | concatenating the chunks gives the list back; each holds 1 to n elements |
| `Signals.FewestChunks` | src/notification.rs:72-74 | n elements make exactly n/150 chunks, rounded up |
| `Signals.PayloadFits` | src/notification.rs:72-90 | every chunked signal's JSON is under 8000 bytes, whatever instant it carries |
| `Signals.UnchunkedPayloadsOverflow` | src/notification.rs:386-413 | an unchunked deletion is refused by PostgreSQL if and only if it names 204 ids or more, a read if and only if 39 bytes an id plus its instant reach 7910, at the latest from 203 ids |
| `Signals.PayloadDeterminesLead` | src/notification.rs:42-68 | two signals of one kind with one payload name the same first id |
| `SignalText.PayloadReadsBack` | src/realtime.rs:74-83 | every signal the service writes the listener reads back: its kind, recipient, ids and instant, by their names in the payload |
| `Signals.NothingCollapses` | src/notification.rs:76-90 | distinct payloads are all queued, in order: identical-payload merging removes none |
| `Signals.RepeatsCollapse` | src/notification.rs:76-90 | a payload already queued in the transaction is not queued again, a new one is queued last |
| `Signals.BulkAnnouncement` | src/notification.rs:92-132 | a bulk announcement names the written ids, in order, in signals that all fit and never merge: ceil(n/150) events, one if and only if n is 1 to 150, in ceil(ceil(n/150)/150) statements |
| `Signals.AddedNeverCollapse` | src/notification.rs:158-167 | the announcements of one fan-out never merge |
| `Store.SetInsert` | src/notification.rs:142-156 | a candidate becomes a row if and only if it is its statement's first for a recipient lacking one; old rows unchanged, nothing else appears, unique key kept, everyone named has a row afterwards |
| `Store.OneAddedPerInsertedRow` | src/notification.rs:158-167 | exactly one announcement per inserted row, to its recipient, and none for a row already there |
| `Store.InsertKeepsUniqueKey` | migrations/0001_notifications.sql:12-13 | no two rows ever share source and recipient after a fan-out |
| `Store.EveryoneNamedHasARow` | src/notification.rs:142-156 | after a fan-out every recipient it names holds a row for its source |
| `Views.CommitCarriesView` | src/notification.rs:76-168 | folding one commit's announcements carries each recipient's view across it |
| `Views.LogStateAgreement` | src/notification.rs:223-321 | in every reachable state the folded log gives each recipient's ids and read timestamps, and the unread count |
| `Lifecycle.CommitAnnouncesTheTransition` | src/notification.rs:243-299 | a commit announces a notification read exactly when it takes its row from unread to read, once, with the stored instant |
| `Lifecycle.RowsAreImmutableButForReading` | src/notification.rs:243-321 | key, content and position of a row never change; a read row never changes at all |
| `Lifecycle.IdsAreNeverReused` | src/notification.rs:142-142 | a row that is gone stays gone; a new row is unread |
| `Lifecycle.ReadOnce` | src/notification.rs:243-299 | over every run a notification is announced read at most once, and while its row exists exactly as its row says |
| `Lifecycle.KeysStayUnique` | migrations/0001_notifications.sql:12-13 | the dedup key is unique in every reachable state |
| `Lifecycle.NewRowsHydrate` | src/notification.rs:25-39 | a new row reads back as the command's template, payload and link, unread |
| `Lifecycle.HydrationNeverFails` | src/notification.rs:25-39 | no reachable row is ever reported corrupt, and what is read is what is stored: content, instants and link |
| `Operations.OperationsAreCommits` | src/notification.rs:243-321 | what each operation selects is exactly what its commit may touch |
| `Operations.OperationsRefineRuns` | src/graphql.rs:143-200 | every run of operations by any callers is a run of committed writes |
| `Operations.UnackedWritesNothing` | src/graphql.rs:143-200 | a forbidden or NOT_FOUND mutation leaves table and log as they were |
| `Transactions.Transaction.Signal` | src/notification.rs:76-90 | one statement queues its batch with PostgreSQL's merging of identical payloads, or fails if and only if some payload is too long |
| `Transactions.Transaction.SignalAll` | src/notification.rs:92-100 | queues the whole list, in as many statements as there are batches, or fails if and only if some payload is too long |
| `Transactions.Transaction.SignalRead` | src/notification.rs:102-117 | nothing of a bulk read announcement is refused, merged or reordered; its statement count |
| `Transactions.Transaction.SignalDeleted` | src/notification.rs:119-132 | the same for deletions |
| `Transactions.Transaction.InsertNotifications` | src/notification.rs:134-168 | the row-by-row insert is first-wins: its rows, its announcements, its count |
| `Transactions.Transaction.MarkAsRead` | src/notification.rs:243-277 | none for a row not the caller's; else transitioned, written and announced if and only if the row was unread |
| `Transactions.Transaction.MarkAllAsRead` | src/notification.rs:279-299 | marks and announces exactly the caller's unread rows, in the order visited |
| `Transactions.Transaction.DeleteNotifications` | src/notification.rs:301-321 | deletes and announces exactly the caller's rows among the ids given |
| `Transactions.Transaction.Commit` | src/graphql.rs:155-155 | table and announcements become visible together |
| `Resolvers.NotifierMarkAsRead` | src/graphql.rs:144-161 | answer and new database are those of the operation; FORBIDDEN, bad input and NOT_FOUND leave it untouched |
| `Resolvers.NotifierMarkAllAsRead` | src/graphql.rs:163-171 | answer and new database are those of the operation |
| `Resolvers.NotifierDeleteNotification` | src/graphql.rs:173-189 | the bulk statement over one id, rolled back when it deleted nothing, is the single delete |
| `Resolvers.NotifierDeleteNotifications` | src/graphql.rs:191-200 | one unreadable id refuses the whole request; foreign ids are skipped and still acked |
| `Resolvers.ParseIds` | src/graphql.rs:193-193 | all texts parse, in order, or none counts |
| `Resolvers.RefusedRequestsWriteNothing` | src/graphql.rs:143-200 | every request that is not acked leaves table and log as they were |
| `Resolvers.ServicesAreForbidden` | src/graphql.rs:33-44 | a service is FORBIDDEN whatever it asks for, before the request is read, and nothing changes |
| `Resolvers.UnreadableRequests` | src/graphql.rs:287-289 | a human whose ids do not parse gets BAD_USER_INPUT, and nothing changes |
| `Resolvers.MarkOneDoes` | src/graphql.rs:144-161 | for an ordinary human or an impersonator: NOT_FOUND if and only if the row is not theirs; their unread row becomes read now; nothing else changes |
| `Resolvers.MarkAllDoes` | src/graphql.rs:163-171 | every unread row of the acting human, and no other, becomes read now |
| `Resolvers.DeleteOneDoes` | src/graphql.rs:173-189 | NOT_FOUND if and only if the row is not theirs; otherwise that row goes and no other |
| `Resolvers.DeleteManyDoes` | src/graphql.rs:191-200 | the acting human's rows among the ids go, no other; always acked |
| `Resolvers.MarkAllEvents` | src/notification.rs:279-299 | marking everything read announces one event per 150 rows the caller had unread: one if and only if there were 1 to 150, none if and only if there was none |
| `Resolvers.DeleteEvents` | src/notification.rs:301-321 | the same for deletions, by the caller's rows among the ids given |
| `Resolvers.SingleRead` | src/graphql.rs:144-161 | marking one id writes and announces it if it is the caller's and unread, and nothing otherwise |
| `Resolvers.SingleDelete` | src/graphql.rs:173-189 | deleting one id removes and announces it if it is the caller's, and nothing otherwise |
| `ReadCommitted.InvHolds` | src/notification.rs:134-321 | in every interleaving of mutations and fan-outs, rows, keys and ids are held exclusively; a mutation's locks are on rows still selected, what its snapshot selected is locked, pending or lost for good; the keys a fan-out won are free |
| `ReadCommitted.InterleavingsRefineRuns` | src/notification.rs:134-321 | every READ COMMITTED interleaving of mutations and fan-outs leaves the store where some serial run leaves it |
| `ReadCommitted.ReadOnceUnderReadCommitted` | src/notification.rs:243-299 | in every interleaving a notification is announced read at most once, as its row says |
| `ReadCommitted.StepAnnouncesTheTransition` | src/notification.rs:243-299 | a step announces a read exactly when it takes the committed row from unread to read, with that instant, which never changes afterwards |
| `ReadCommitted.FinishedStatementsMissNothing` | src/notification.rs:279-321 | a finished statement leaves nothing that it would have selected in the table as it was when it began |
| `ReadCommitted.MarkAllLeavesNothingUnread` | src/notification.rs:279-299 | what was the caller's and unread when mark-all began is read or gone once it has finished |
| `ReadCommitted.OpenSinceItsBegin` | src/graphql.rs:266-278 | an open transaction carries the request it began with, and a mutation's snapshot is the table of that moment |
| `ReadCommitted.OutcomeIsExact` | src/notification.rs:243-277 | none if and only if the row was not the caller's when the statement began; "transitioned" if and only if its commit changes the store, which then marks that row |
| `ReadCommitted.TransitionedIsTheAnnouncer` | src/notification.rs:271-274 | the caller told "transitioned" is the one that marks and announces, with its own instant, the only such announcement |
| `ReadCommitted.AlreadyReadIsNeverUnread` | src/notification.rs:275-275 | "already read" changes nothing and finds the notification read and announced, or gone; announced with the snapshot's instant whenever the snapshot showed it read; read by someone if and only if nothing took it unread |
| `ReadCommitted.SnapshotReadsAreAnnounced` | src/notification.rs:248-261 | what a statement's snapshot shows read has been announced with that instant, gone or not |
| `ReadCommitted.NeverReadIffTakenUnread` | src/notification.rs:243-321 | a notification that is gone was never announced read if and only if some step took it unread |
| `ReadCommitted.AlreadyReadWithoutARead` | src/notification.rs:248-276 | from any quiet state with an unread row, a race with a deleter gives "already read" for a notification never announced read |
| `ReadCommitted.TriedIsWonOrHeld` | src/notification.rs:142-156 | a candidate a fan-out has tried was won, or its recipient had a committed row while the statement ran |
| `ReadCommitted.TryWaits` | src/notification.rs:142-156 | a candidate is passed only once no open transaction decides whether its key is taken |
| `ReadCommitted.EndingReleases` | src/notification.rs:134-321 | a transaction that ends releases what it held; a rolled-back one changes nothing |
| `ReadCommitted.FinishedFanOutAnswersEveryone` | src/notification.rs:142-156 | after a fan-out commits, each recipient it was begun for holds a row or held one while it ran |
| `ReadCommitted.FinishedFanOutAdds` | src/notification.rs:142-156 | the rows it adds are those it was begun for |
| `ReadCommitted.FanOutLeaves` | src/notification.rs:142-156 | after its commit a recipient holds a row if and only if the fan-out won its key or a row under it is still there |
| `ReadCommitted.SkippedThenDeleted` | src/notification.rs:142-156 | from any quiet state, a skipped key whose row is deleted before the commit leaves its recipient nothing |
| `Isolation.NonInterference` | src/notification.rs:181-208 | dropping every other recipient's operations and recipients leaves one recipient's rows and announcements as they were, over every run |
| `Isolation.ImpersonationSparesTheImpersonated` | src/graphql.rs:33-40 | whatever a human asks for while acting as another, the other's rows and announcements stay as they were |
| `Isolation.ObservesOnlyOwnRows` | src/notification.rs:175-236 | pages (each of their two statements with its own table), unread count and re-reads are functions of the recipient's own rows |
| `Isolation.StreamsNeverInterfere` | src/realtime.rs:87-112 | over every run and every dispatch delay, erasing the other recipients leaves the recipient's event stream as it was, event for event |
| `Isolation.AnswersFromOwnRows` | src/graphql.rs:33-40 | answers to mutations depend on the rows of the acting human only, the impersonator where there is one |
| `Pages.PageThenRest` | src/notification.rs:191-220 | a page is the next stretch of the descending listing, with a next page if and only if rows remain past it |
| `Pages.RequestGets` | src/notification.rs:175-220 | NOT_FOUND if and only if the lookup misses; otherwise the newest rows past the cursor, as many as asked for between 1 and 100, in descending (created_at, id), nothing newer left out, and a next page if and only if there are more |
| `Pages.WalkServesTheInbox` | src/notification.rs:191-220 | whatever sizes are asked for, the walk ends and serves the recipient's rows descending, each once |
| `Pages.RemainingShrinks` | src/notification.rs:191-220 | each page with a next one leaves strictly fewer rows past its last id, which is again a valid cursor |
| `Pages.ListingIsExactIffCursorStays` | src/notification.rs:181-208 | a listing whose lookup succeeded is exact if and only if the select finds the cursor too, or nothing was left |
| `Pages.DeletedCursorHidesTheRest` | src/notification.rs:181-208 | the excluded case: an empty last page over a remaining row |
| `Pages.WalkServesInOrder` | src/notification.rs:175-221 | pages read in different transactions, lookups succeeding, are strictly descending: nothing is served twice |
| `Pages.PresentThroughoutServedOnce` | src/notification.rs:175-221 | a row present throughout a walk is served exactly once, whatever commits between its pages, or not at all if and only if a lost cursor hides it |
| `Pages.SnapshotIsPointwiseRead` | src/notification.rs:175-221 | id by id, the merged pages show the inbox as one of the page reads saw it, if and only if the id was not hidden throughout by a lost cursor |
| `Pages.ServedIffNotHidden` | src/notification.rs:181-208 | a row past the cursor, present at every page, is served if and only if it does not lie past a cursor lost between the last page's lookup and its select |
| `Pages.LostCursorLosesARow` | src/notification.rs:181-208 | a walk whose every lookup succeeds and that announces its end, and a row present throughout that it never serves |
| `Convergence.EverySignalFits` | src/realtime.rs:87-112 | in every run each announcement changes a view the way the log expects: adds an absent id, marks ids shown unread, deletes ids shown |
| `Convergence.PushedIsWhatIsStored` | src/realtime.rs:92-99 | in every reachable table an announced row becomes an event if and only if its recipient has it, and the event carries the row's content, instants and link |
| `Convergence.ListedIsWhatIsStored` | src/notification.rs:209-220 | every node of a page is a row of the recipient's that reads back as it is stored |
| `Convergence.AddedOnce` | src/notification.rs:158-167 | over every run no id is announced as added twice |
| `Convergence.DispatchKeepsAhead` | src/realtime.rs:87-112 | folding an event re-read at any later position keeps each id at, or ahead of, the log position dispatched |
| `Convergence.ReconnectConverges` | README.md:382-393 | subscribe, snapshot, fold: the client ends on the recipient's rows and unread count, whichever way it deduplicates |
| `Convergence.ReconnectConvergesOverAWalk` | README.md:382-393 | the same when the snapshot is a cursor walk with commits between its pages: the client converges if and only if no lost cursor hid a row announced before the subscription and kept |
| `Broadcast.EveryScheduleServesAPrefix` | src/graphql.rs:221-237 | for every schedule a gap-free prefix, then at most one verdict and nothing after; served + lost + 256 = sent at the verdict, lost > 0 |
| `Broadcast.EndedIffLaggedBefore` | src/graphql.rs:221-237 | over every schedule a poll says the stream is over if and only if an earlier one gave the verdict |
| `Broadcast.ItemsAreTheServed` | src/graphql.rs:221-237 | what the polls hand out is what the stream has served |
| `Broadcast.SentIsWhatWasSent` | src/graphql.rs:221-237 | what the stream has been sent is what was sent to it |
| `Broadcast.PollingDrains` | src/graphql.rs:221-237 | a stream within a ring of its sender is served everything and no verdict |
| `Broadcast.Channel.Send` | src/realtime.rs:32-37 | the ring keeps the last 256 events |
| `Broadcast.EventStream.Poll` | src/graphql.rs:221-237 | over exactly when closed before; waiting exactly when open and caught up; lagged exactly when more than 256 events are unread, by how many; otherwise the next event sent |
| `Registry.OpenStreamsAreNeverOrphaned` | src/realtime.rs:31-60 | in every interleaving each open stream is attached to the sender the map holds for its recipient |
| `Registry.ActiveSeesEveryOpenStream` | src/realtime.rs:39-49 | the active check answers yes and takes in every stream open at that point |
| `Registry.DispatchReachesItsAudience` | src/realtime.rs:51-60 | each step keeps a dispatch under way for its open streams or appends its event; nothing sent is lost |
| `Registry.StillAwaited` | src/realtime.rs:87-112 | over any further steps before its send a dispatch keeps every stream that is still open |
| `Registry.EveryDispatchedEventArrives` | src/realtime.rs:87-112 | once its send has run, every stream open since the active check has been sent the event, after all it had before |
| `Registry.LastStreamClosingEvicts` | src/realtime.rs:39-49 | after a stream closes the next check evicts its recipient's channel if and only if it was the last one open |
| `Registry.DispatchEnds` | src/realtime.rs:51-60 | a dispatch is over once it has sent or found the sender gone; what nobody is there to receive is kept nowhere |
| `Registry.SerialDeliveryIsExact` | src/realtime.rs:71-112 | one dispatch at a time, streams opening and closing at any point, even inside a dispatch: a stream open throughout is sent exactly the events dispatched to its recipient, each once and in order |
| `Registry.ReceivesOnlyItsRecipients` | src/realtime.rs:51-60 | a stream is only ever sent events routed to its recipient |
| `Realtime.DispatchedIsThreeSteps` | src/realtime.rs:87-112 | a whole dispatch is the check, the clone and the send in a row |
| `Realtime.DispatchedNothingIsACheck` | src/realtime.rs:92-99 | a dispatch whose re-read finds nothing is its active check alone |
| `Realtime.DispatchedReaches` | src/realtime.rs:87-112 | it sends to every open stream of the recipient and to no other |
| `Realtime.AnnouncementsAreSent` | src/realtime.rs:74-112 | the payload of a signal sends that signal's event to its recipient's streams and nothing to others |
| `Realtime.Subscribers.Subscribe` | src/realtime.rs:32-37 | one sender per recipient, created on first use; the new stream starts at its end |
| `Realtime.Subscribers.Active` | src/realtime.rs:39-49 | yes while a stream is open, otherwise the entry is evicted |
| `Realtime.Subscribers.Deliver` | src/realtime.rs:51-60 | appends to the recipient's channel if somebody listens |
| `Realtime.Subscribers.Dispatch` | src/realtime.rs:87-112 | the method is the three steps in a row |
| `Realtime.Subscribers.ListenLoop` | src/realtime.rs:71-85 | reading each payload, streams opening and closing between messages, every stream open at the end has been sent, in order, exactly what the messages since its opening announce to its recipient; an unreadable payload sends nothing |
| `IntakeSafety.ProcessIsSafe` | src/intake.rs:239-291 | an ack only for a valid command with a committed row per recipient, a termination only with the trace on the ledger, a hold otherwise |
| `IntakeSafety.AbandonIsAccounted` | src/intake.rs:393-439 | poison if and only if the ledger answered, and then its trace is on the ledger; rows and counters stay balanced |
| `IntakeSafety.FirstTraceWins` | src/intake.rs:441-470 | a replay never alters a ledger row |
| `IntakeSafety.CommittedFanOutServesEveryone` | src/intake.rs:554-567 | once the write commits, every recipient of the command holds a row |
| `IntakeSafety.FanOutRowsAreTheCommands` | src/intake.rs:554-567 | the rows a committed fan-out adds are the command's: a minted id and recipient, template, payload, link, unread, at the write's time |
| `IntakeSafety.GaugeStep` | src/intake.rs:210-225 | each verdict keeps the gauge at the length of the trailing run of transient verdicts, undecodable ones ignored |
| `IntakeSafety.PurgeKeepsInv` | src/intake.rs:472-509 | a pass removes only rows older than 90 days, and the purge counter misses exactly the rows of passes whose answer was lost |
| `IntakeSafety.PurgeIsExact` | src/intake.rs:501-509 | a pass leaves exactly the rows recorded within the last 90 days, unchanged; a refused one leaves all |
| `IntakeSafety.PassesAreCounted` | src/intake.rs:472-499 | a completed pass counts itself and its rows, a failed one counts as a failure |
| `IntakeSafety.EveryRunIsSafe` | src/intake.rs:227-291 | in every run, redeliveries of settled frames included: terminated means traced, acked means committed for all, unreadable means held; ledger conserved, retention kept, counters exact, gauge the trailing run |
| `IntakeSafety.TerminationFollowsTheTrace` | src/intake.rs:393-439 | no termination before the committed trace; an unanswering ledger always holds a refused command |
| `IntakeSafety.SettlesExactly` | src/intake.rs:227-291 | a pending frame is acked if and only if a valid command's write was answered, terminated if and only if the command is refused or its write failed with SQLSTATE class 22 or 23 and the ledger answered, held in every other case; no other frame moves, nor a settled one |
| `IntakeSafety.RecordsFaithfully` | src/intake.rs:239-291 | the only ledger row a delivery adds is its own command's: payload, trace, time, reason, SQLSTATE, and the decoded ids of an object payload |
| `IntakeSafety.EveryVerdictIsCounted` | src/intake.rs:218-258 | in every run the transient and undecodable counters are the numbers of such verdicts since the last restart |
| `IntakeSafety.AbandonmentsAreCounted` | src/intake.rs:393-439 | a delivery counts a dead letter if and only if it newly recorded one and knows it, a ledger failure if and only if the ledger was needed and did not answer |
| `IntakeSafety.FairDeliverySettles` | src/intake.rs:511-521 | when storage answers, a delivery settles its readable frame and no other |
| `IntakeSafety.FairRoundsDrain` | src/intake.rs:227-291 | a fair round over the pending frames leaves only unreadable ones held |
| `ExactlyOnce.FanOutStuttersIff` | src/notification.rs:142-156 | a fan-out changes nothing if and only if everyone it names already holds a row |
| `ExactlyOnce.DeleteThenRedeliverRecreates` | src/notification.rs:147-147 | a delete frees the key, and a redelivery brings the notification back |
| `ExactlyOnce.RedeliveryRefinesExactlyOnce` | src/intake.rs:227-291 | every run ends with the table and log of the run applying each distinct command once, in order of first committed write, if and only if no redelivery found a key a delete had freed |
| `ExactlyOnce.OnlyDeletesInBetweenFree` | src/notification.rs:301-321 | it does when no delete takes one of a command's rows between its first committed write and a committed redelivery |
| `ExactlyOnce.EssenceAppliesEachCommandOnce` | src/intake.rs:554-567 | that run's fan-outs are those of pairwise different commands, in order |
| `ExactlyOnce.AckedMeansHeld` | src/intake.rs:239-291 | in every run a delivered key is held now if and only if no delete took it since it was last written |
| `ExactlyOnce.HeldIffLastWritten` | src/notification.rs:142-156 | in every run a recipient holds a row for a source if and only if the last step that wrote or deleted that key wrote it |
| `ExactlyOnce.IntakeRefinesRuns` | src/intake.rs:554-567 | every store the intake reaches, deletes included, is one a run of committed writes reaches |
| `Intake.ServingIsARun` | src/intake.rs:167-202 | whatever the consume loop serves is a run of the protocol, so all that holds of runs holds of it |
| `Intake.CounterIsExact` | src/intake.rs:174-200 | while the loop runs its counter is the exact length of the run of recv errors just seen, below ten |
| `Intake.StopsOnTheFirstCause` | src/intake.rs:174-200 | the loop stops on the first event that is a shutdown, the stream's end, or the tenth recv error in a row, and on nothing else |
| `Intake.Service.FanOut` | src/intake.rs:554-567 | committed, dropped, or committed with its answer lost: the store and the result in each case |
| `Intake.Service.RecordDeadLetter` | src/intake.rs:441-470 | records under an unused command id only, and says whether it did |
| `Intake.Service.Abandon` | src/intake.rs:393-439 | is the protocol's abandonment |
| `Intake.Service.Triage` | src/intake.rs:355-391 | is the protocol's triage |
| `Intake.Service.HandleReadable` | src/intake.rs:255-284 | validation, then the fan-out or the abandonment: state and failure are the protocol's |
| `Intake.Service.Apply` | src/intake.rs:569-582 | a settlement that reaches the broker moves its frame alone; one that does not leaves it to be redelivered |
| `Intake.Service.Handle` | src/intake.rs:227-291 | handling then observing is one delivery of the protocol |
| `Intake.Service.Observe` | src/intake.rs:218-225 | is the protocol's observation; the local streak and the gauge stay equal |
| `Intake.Service.Consume` | src/intake.rs:167-208 | serves every delivery up to the stop in order, stops as specified, fails loud only on the stream's end or a spent budget |
| `Intake.Service.DeleteExpiredDeadLetters` | src/intake.rs:501-509 | deletes exactly the expired rows, and reports how many |
| `Intake.Service.PurgeDeadLetters` | src/intake.rs:472-499 | one tick is the protocol's retention pass |

## Left out

- Boot, routing, SSE framing, supervision and signal handling (src/main.rs): wiring over libraries. Readiness is modelled as the consume loop leaves it; the boot code sets it again.
- Stream retention: a broker that evicts unsettled frames loses them; the model's broker keeps them.
- Real time: redelivery is nondeterministic, so the NAK delays are recorded but wait for nothing; the purge clock only moves forward, 90 days are a fixed number of microseconds, and when the daily ticks fall is left open.
- JSON parsing and printing of commands, duplicate object keys and float formatting: JSON is a datatype, its numbers are integers.
- Announcement payloads: written and read as text without white space, escapes or nesting, which is how the service writes them; an instant's text is a parameter of at most 33 characters without quotes, with a reader that inverts it.
- Envelope decoding, passport decoding, the GraphQL schema and error mapping: an envelope is readable or not, a caller is a human with an optional impersonator or a service.
- Roles and grants: row-level security is the predicate its policy states.
- Metric descriptions, log lines, reason labels, actor labels and the dead letter's own id and detail text.
- Database errors inside the resolvers: the transaction is dropped, which changes nothing; only the errors of the intake's writes are modelled.
- Deadlocks between concurrent mutations: the victim is a rolled-back transaction.
- A crash in the middle of one delivery: covered as a lost settlement followed by a restart, and by the fates of the two writes.
- Service.Handle: takes one delivery as a step of its own; other transactions interleave with deliveries, not inside one.
- Subscribers.ListenLoop: streams open and close between dispatches here; inside one, in `SerialDeliveryIsExact`.
- ReconnectConverges: needs a listener that stayed connected and re-reads that succeeded from the subscription on (src/realtime.rs:62-69, src/realtime.rs:98-104 lose events otherwise), and a stream that did not lag; whether events still under way arrive is `EveryDispatchedEventArrives`.
- ReconnectConvergesOverAWalk: a failed cursor lookup (NOT_FOUND) makes the client start its walk again; only complete walks are snapshots.
- Intake and READ COMMITTED: the intake's protocol takes a fan-out as one commit, `ReadCommitted` takes it apart; both refine the same runs of commits.
- Subscribers.Subscribe: the ring's capacity and the events dropped from it are modelled in `Broadcast`, not in the registry, whose channels keep everything sent.
