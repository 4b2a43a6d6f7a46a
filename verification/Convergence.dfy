/** The reconnect protocol: subscribe, then snapshot, then fold the events by id.

    Log positions index the committed announcements; commit positions index the
    run. A signal is dispatched after its commit, and an `Added` re-reads its row
    at dispatch time, so the event may show later state or vanish. */
module Convergence {
  import opened Prelude
  import opened Signals
  import opened Store
  import opened Views
  import opened Lifecycle
  import opened Pages

  // ---- The service's side ----------------------------------------------------------

  datatype ClientEvent =
    | AddedEvent(notification: Notification)
    | ReadEvent(ids: seq<Uuid>, at: Time)
    | DeletedEvent(ids: seq<Uuid>)

  /** What dispatching a signal sends, given the table its re-read sees. */
  function EventOf(s: Signal, rows: Table): Option<ClientEvent> {
    match s
    case Added(recipient, id) =>
      if !OwnedBy(rows, recipient, id) then None else
        (match FromRow(id, rows[id])
         case Ok(notification) => Some(AddedEvent(notification))
         case Err(_) => None)
    case Read(_, ids, at) => Some(ReadEvent(ids, at))
    case Deleted(_, ids) => Some(DeletedEvent(ids))
  }

  // ---- The client's side -----------------------------------------------------------

  /** How a client deduplicates an `Added` for an id it already shows. */
  datatype OnKnown = KeepKnown | ReplaceKnown

  function FoldEvent(onKnown: OnKnown, view: View, e: ClientEvent): View {
    match e
    case AddedEvent(n) => if n.id in view && onKnown.KeepKnown? then view else view[n.id := n.readAt]
    case ReadEvent(ids, at) => Marked(view, ids, at)
    case DeletedEvent(ids) => Removed(view, ids)
  }

  /** One dispatched signal folded: other recipients' reach this client as nothing. */
  function FoldDispatched(onKnown: OnKnown, view: View, recipient: Uuid, s: Signal, seen: Table): View {
    if s.recipient != recipient then view else
      match EventOf(s, seen)
      case Some(e) => FoldEvent(onKnown, view, e)
      case None => view
  }

  /** The client's view once the signals from `from` up to `upto` are dispatched
      and folded into `start`; `seen[k]` is the table at the dispatch of signal `k`. */
  function ClientView(
    onKnown: OnKnown, start: View, recipient: Uuid, log: seq<Signal>, seen: seq<Table>, from: nat, upto: nat): View
    requires from <= upto <= |log| == |seen|
    decreases upto
  {
    if upto == from then start
    else FoldDispatched(onKnown, ClientView(onKnown, start, recipient, log, seen, from, upto - 1),
                        recipient, log[upto - 1], seen[upto - 1])
  }

  // ---- Positions -------------------------------------------------------------------

  /** The state at a commit position. */
  function At(cs: seq<Commit>, i: nat): State
    requires i <= |cs|
  {
    Replay(cs[..i])
  }

  /** The recipient's view according to the first `k` announcements. */
  function LogView(log: seq<Signal>, recipient: Uuid, k: nat): View
    requires k <= |log|
  {
    Fold(map[], recipient, log[..k])
  }

  lemma {:induction false} PrefixRuns(cs: seq<Commit>, i: nat)
    requires ValidRun(cs) && i <= |cs|
    ensures ValidRun(cs[..i])
    ensures Replay(cs[..i]).log <= Replay(cs).log
    ensures Replay(cs[..i]).used <= Replay(cs).used
    decreases |cs|
  {
    if i == |cs| {
      assert cs[..i] == cs;
    } else {
      var shorter := cs[..|cs| - 1];
      PrefixRuns(shorter, i);
      assert shorter[..i] == cs[..i];
      UsedCoversRows(shorter);
      assert Replay(cs).log == Replay(shorter).log + Announced(Replay(shorter), cs[|cs| - 1]);
    }
  }

  lemma TakePrefix(prefix: seq<Signal>, log: seq<Signal>)
    requires prefix <= log
    ensures log[..|prefix|] == prefix
  {
  }

  /** At a commit position, table and log prefix agree. */
  lemma CommitPositions(cs: seq<Commit>, recipient: Uuid, i: nat)
    requires ValidRun(cs) && i <= |cs|
    ensures |At(cs, i).log| <= |Replay(cs).log|
    ensures LogView(Replay(cs).log, recipient, |At(cs, i).log|) == ViewOf(At(cs, i).rows, recipient)
  {
    PrefixRuns(cs, i);
    TakePrefix(Replay(cs[..i]).log, Replay(cs).log);
    LogStateAgreement(cs[..i], recipient);
  }

  lemma {:induction false} SteadyRun(cs: seq<Commit>, i: nat)
    requires ValidRun(cs) && i <= |cs|
    ensures Steady(Replay(cs[..i]).rows, Replay(cs).rows)
    decreases |cs|
  {
    if i == |cs| {
      assert cs[..i] == cs;
    } else {
      var shorter := cs[..|cs| - 1];
      SteadyRun(shorter, i);
      PrefixRuns(shorter, i);
      assert shorter[..i] == cs[..i];
      UsedCoversRows(shorter);
      UsedCoversRows(cs[..i]);
      forall id | id in Replay(cs[..i]).rows && id in Replay(cs).rows
        ensures Replay(cs[..i]).rows[id].recipient == Replay(cs).rows[id].recipient
        ensures Replay(cs[..i]).rows[id].createdAt == Replay(cs).rows[id].createdAt
      {
        IdsAreNeverReused(Replay(shorter), cs[|cs| - 1], id);
        RowsAreImmutableButForReading(Replay(shorter), cs[|cs| - 1], id);
      }
    }
  }

  // ---- Each signal fits the log before it -------------------------------------------

  /** An `Added` names an id the log does not show yet, a `Read` only ids it shows
      unread, a `Deleted` only ids it shows. */
  predicate Fits(view: View, s: Signal) {
    match s
    case Added(_, id) => id !in view
    case Read(_, ids, _) => forall id :: id in ids ==> id in view && view[id].None?
    case Deleted(_, ids) => forall id :: id in ids ==> id in view
  }

  /** A signal that does not name an id leaves what the view says of it. */
  lemma {:induction false} FoldElsewhere(view: View, recipient: Uuid, signals: seq<Signal>, id: Uuid)
    requires forall i :: 0 <= i < |signals| ==> !signals[i].Added? && id !in signals[i].ids
    ensures Lookup(Fold(view, recipient, signals), id) == Lookup(view, id)
  {
    if signals != [] {
      FoldElsewhere(view, recipient, signals[..|signals| - 1], id);
    }
  }

  /** Within one commit no id is named by two chunks. */
  lemma ChunkFoldsApart(view: View, recipient: Uuid, ids: seq<Uuid>, signals: seq<Signal>, j: nat, id: Uuid)
    requires Distinct(ids) && j < |signals| == |Chunks(ids, SIGNAL_ID_CHUNK)|
    requires forall i :: 0 <= i < |signals| ==> !signals[i].Added? && signals[i].ids == Chunks(ids, SIGNAL_ID_CHUNK)[i]
    requires id in signals[j].ids
    ensures id in ids && Lookup(Fold(view, recipient, signals[..j]), id) == Lookup(view, id)
  {
    ChunkElements(ids, SIGNAL_ID_CHUNK, j, id);
    forall i | 0 <= i < j
      ensures id !in signals[..j][i].ids
    {
      if id in signals[i].ids {
        ChunksDisjoint(ids, SIGNAL_ID_CHUNK, i, j, id);
      }
    }
    FoldElsewhere(view, recipient, signals[..j], id);
  }

  lemma {:induction false} AddedSignalsPrefix(minted: seq<Minted>, j: nat)
    requires j <= |minted|
    ensures AddedSignals(minted)[..j] == AddedSignals(minted[..j])
  {
    forall i | 0 <= i < j
      ensures AddedSignals(minted)[..j][i] == AddedSignals(minted[..j])[i]
    {
    }
  }

  lemma CommitSignalsFit(s: State, c: Commit, recipient: Uuid, j: nat)
    requires Valid(s, c) && s.rows.Keys <= s.used
    requires j < |Announced(s, c)| && Announced(s, c)[j].recipient == recipient
    ensures Fits(Fold(ViewOf(s.rows, recipient), recipient, Announced(s, c)[..j]), Announced(s, c)[j])
  {
    var view := ViewOf(s.rows, recipient);
    match c {
      case Insert(_, _, _, _) =>
        var winners := Inserting(s, c);
        AddedSignalsPrefix(winners, j);
        FoldAddsElsewhere(view, recipient, winners[..j], winners[j].id);
        assert winners[j] in winners;
      case MarkRead(owner, ids, at) =>
        forall id | id in Announced(s, c)[j].ids
          ensures Lookup(Fold(view, recipient, Announced(s, c)[..j]), id) == Some(None)
        {
          ChunkFoldsApart(view, recipient, ids, Announced(s, c), j, id);
          assert UnreadOf(s.rows, owner, id);
        }
      case Delete(owner, ids) =>
        forall id | id in Announced(s, c)[j].ids
          ensures id in Fold(view, recipient, Announced(s, c)[..j])
        {
          ChunkFoldsApart(view, recipient, ids, Announced(s, c), j, id);
          assert OwnedBy(s.rows, owner, id);
        }
    }
  }

  lemma LastCommitFits(s: State, c: Commit, recipient: Uuid, k: nat)
    requires Valid(s, c) && s.rows.Keys <= s.used
    requires Fold(map[], recipient, s.log) == ViewOf(s.rows, recipient)
    requires |s.log| <= k < |Apply(s, c).log| && Apply(s, c).log[k].recipient == recipient
    ensures Fits(LogView(Apply(s, c).log, recipient, k), Apply(s, c).log[k])
  {
    var j, announced := k - |s.log|, Announced(s, c);
    assert (s.log + announced)[..k] == s.log + announced[..j];
    FoldConcat(map[], recipient, s.log, announced[..j]);
    CommitSignalsFit(s, c, recipient, j);
  }

  lemma {:induction false} EverySignalFits(cs: seq<Commit>, recipient: Uuid, k: nat)
    requires ValidRun(cs) && k < |Replay(cs).log| && Replay(cs).log[k].recipient == recipient
    ensures Fits(LogView(Replay(cs).log, recipient, k), Replay(cs).log[k])
    decreases |cs|
  {
    var shorter, c := cs[..|cs| - 1], cs[|cs| - 1];
    var s := Replay(shorter);
    UsedCoversRows(shorter);
    assert Replay(cs).log == s.log + Announced(s, c);
    if k < |s.log| {
      EverySignalFits(shorter, recipient, k);
      assert Replay(cs).log[..k] == s.log[..k];
    } else {
      LogStateAgreement(shorter, recipient);
      LastCommitFits(s, c, recipient, k);
    }
  }

  // ---- Convergence --------------------------------------------------------------------

  ghost predicate Hydrates(rows: Table) {
    forall id :: id in rows ==> FromRow(id, rows[id]).Ok?
  }

  /** Every signal fits the log before it, and every dispatch sees a table that
      some longer stretch of the log describes, and can read it. */
  ghost predicate Dispatchable(log: seq<Signal>, recipient: Uuid, seen: seq<Table>, k: nat)
    requires k < |log| == |seen|
  {
    log[k].recipient == recipient ==>
      && Fits(LogView(log, recipient, k), log[k])
      && Hydrates(seen[k])
      && exists now :: k < now <= |log| && ViewOf(seen[k], recipient) == LogView(log, recipient, now)
  }

  /** One id at a time, `view` shows the log at some position from `k` on. */
  ghost predicate AtOrAhead(log: seq<Signal>, recipient: Uuid, k: nat, view: View, id: Uuid) {
    exists j :: k <= j <= |log| && Lookup(view, id) == Lookup(LogView(log, recipient, j), id)
  }

  lemma LogViewStep(log: seq<Signal>, recipient: Uuid, k: nat)
    requires k < |log|
    ensures LogView(log, recipient, k + 1) == FoldOne(LogView(log, recipient, k), recipient, log[k])
  {
    assert log[..k + 1][..k] == log[..k];
  }

  lemma OthersKeepAhead(log: seq<Signal>, recipient: Uuid, k: nat, view: View, id: Uuid)
    requires k < |log| && log[k].recipient != recipient
    requires AtOrAhead(log, recipient, k, view, id)
    ensures AtOrAhead(log, recipient, k + 1, view, id)
  {
    LogViewStep(log, recipient, k);
    var j :| k <= j <= |log| && Lookup(view, id) == Lookup(LogView(log, recipient, j), id);
    var j' := if j == k then k + 1 else j;
    assert Lookup(view, id) == Lookup(LogView(log, recipient, j'), id);
  }

  lemma FoldAdded(onKnown: OnKnown, view: View, recipient: Uuid, id: Uuid, seen: Table)
    requires Hydrates(seen)
    ensures FoldDispatched(onKnown, view, recipient, Added(recipient, id), seen)
            == if OwnedBy(seen, recipient, id) && !(id in view && onKnown.KeepKnown?)
               then view[id := seen[id].readAt] else view
  {
    if id in seen {
      assert FromRow(id, seen[id]).Ok?;
    }
  }

  /** Folding one dispatched signal keeps every id at or ahead of the log. */
  lemma DispatchKeepsAhead(
    onKnown: OnKnown, log: seq<Signal>, recipient: Uuid, seen: seq<Table>, k: nat, view: View, id: Uuid)
    requires k < |log| == |seen| && Dispatchable(log, recipient, seen, k)
    requires AtOrAhead(log, recipient, k, view, id)
    ensures AtOrAhead(log, recipient, k + 1, FoldDispatched(onKnown, view, recipient, log[k], seen[k]), id)
  {
    var s := log[k];
    var view' := FoldDispatched(onKnown, view, recipient, s, seen[k]);
    if s.recipient != recipient {
      OthersKeepAhead(log, recipient, k, view, id);
    } else {
      LogViewStep(log, recipient, k);
      if s.Added? {
        FoldAdded(onKnown, view, recipient, s.id, seen[k]);
      }
      var now :| k < now <= |log| && ViewOf(seen[k], recipient) == LogView(log, recipient, now);
      var j :| k <= j <= |log| && Lookup(view, id) == Lookup(LogView(log, recipient, j), id);
      var j' := if Lookup(view', id) == Lookup(view, id) && j > k then j
                else if s.Added? && id == s.id && Lookup(view', id) == Lookup(ViewOf(seen[k], recipient), id) then now
                else k + 1;
      assert Lookup(view', id) == Lookup(LogView(log, recipient, j'), id);
    }
  }

  lemma {:induction false} ClientStaysAhead(
    onKnown: OnKnown, start: View, log: seq<Signal>, recipient: Uuid, seen: seq<Table>, from: nat, k: nat, id: Uuid)
    requires from <= k <= |log| == |seen|
    requires forall i :: from <= i < |log| ==> Dispatchable(log, recipient, seen, i)
    requires AtOrAhead(log, recipient, from, start, id)
    ensures AtOrAhead(log, recipient, k, ClientView(onKnown, start, recipient, log, seen, from, k), id)
    decreases k
  {
    if k > from {
      ClientStaysAhead(onKnown, start, log, recipient, seen, from, k - 1, id);
      DispatchKeepsAhead(onKnown, log, recipient, seen, k - 1,
                         ClientView(onKnown, start, recipient, log, seen, from, k - 1), id);
    }
  }

  /** From any starting view that shows each id as the log does at some position
      from the subscription on, dispatching everything ends on what the whole log
      shows. */
  lemma AheadConverges(
    onKnown: OnKnown, start: View, log: seq<Signal>, recipient: Uuid, seen: seq<Table>, from: nat)
    requires from <= |log| == |seen|
    requires forall i :: from <= i < |log| ==> Dispatchable(log, recipient, seen, i)
    requires forall id :: AtOrAhead(log, recipient, from, start, id)
    ensures ClientView(onKnown, start, recipient, log, seen, from, |log|) == LogView(log, recipient, |log|)
  {
    var view := ClientView(onKnown, start, recipient, log, seen, from, |log|);
    forall id
      ensures Lookup(view, id) == Lookup(LogView(log, recipient, |log|), id)
    {
      ClientStaysAhead(onKnown, start, log, recipient, seen, from, |log|, id);
    }
    SameLookupsSameView(view, LogView(log, recipient, |log|));
  }

  /** What the dispatcher saw: at each signal from the subscription on, the table
      at some commit position that already holds the signal. */
  ghost predicate SeenAfterCommit(cs: seq<Commit>, seen: seq<Table>, from: nat) {
    && |seen| == |Replay(cs).log|
    && forall k :: from <= k < |seen| ==> SeenAt(cs, k, seen[k])
  }

  ghost predicate SeenAt(cs: seq<Commit>, k: nat, rows: Table) {
    exists m :: 0 <= m <= |cs| && k < |At(cs, m).log| && rows == At(cs, m).rows
  }

  lemma RunHydrates(cs: seq<Commit>)
    requires ValidRun(cs)
    ensures Hydrates(Replay(cs).rows)
  {
    forall id | id in Replay(cs).rows
      ensures FromRow(id, Replay(cs).rows[id]).Ok?
    {
      HydrationNeverFails(cs, id);
    }
  }

  /** What is pushed is what the table says: in every reachable table an `Added`
      becomes an event exactly if its recipient has the row, and the event carries
      the row's content, instants and link. */
  lemma PushedIsWhatIsStored(cs: seq<Commit>, recipient: Uuid, id: Uuid)
    requires ValidRun(cs)
    ensures var event, rows := EventOf(Added(recipient, id), Replay(cs).rows), Replay(cs).rows;
      && (event.Some? <==> id in rows && rows[id].recipient == recipient)
      && (event.Some? ==>
            && event.value.AddedEvent?
            && var n, row := event.value.notification, rows[id];
               && n.id == id && n.template == row.template && n.payload == row.payload
               && n.readAt == row.readAt && n.createdAt == row.createdAt
               && row.link == if n.link.Some? then Some(n.link.value) else None)
  {
    if id in Replay(cs).rows {
      HydrationNeverFails(cs, id);
    }
  }

  /** And so is what is listed: every node of a page of a reachable table is a row
      of the recipient's that reads back as it is stored. */
  lemma ListedIsWhatIsStored(
    cs: seq<Commit>, anchors: Table, recipient: Uuid, first: int, after: Option<Uuid>, i: nat)
    requires ValidRun(cs)
    requires var page := ListNotifications(anchors, Replay(cs).rows, recipient, first, after);
             page.Some? && i < |page.value.nodes|
    ensures var key, rows := ListNotifications(anchors, Replay(cs).rows, recipient, first, after).value.nodes[i],
                             Replay(cs).rows;
      && key.id in rows && rows[key.id].recipient == recipient && rows[key.id].createdAt == key.at
      && FromRow(key.id, rows[key.id]).Ok? && FromRow(key.id, rows[key.id]).value.template == rows[key.id].template
      && FromRow(key.id, rows[key.id]).value.payload == rows[key.id].payload
      && FromRow(key.id, rows[key.id]).value.readAt == rows[key.id].readAt
  {
    var rows := Replay(cs).rows;
    var page := ListNotifications(anchors, rows, recipient, first, after).value;
    var cursor := if after.Some? && after.value in rows then Some(KeyOf(rows, after.value)) else None;
    PageNodes(rows, recipient, Clamp(first), cursor);
    assert page.nodes[i] in page.nodes;
    HydrationNeverFails(cs, page.nodes[i].id);
  }

  lemma RunIsDispatchable(cs: seq<Commit>, recipient: Uuid, seen: seq<Table>, from: nat, k: nat)
    requires ValidRun(cs) && SeenAfterCommit(cs, seen, from) && from <= k < |seen|
    ensures Dispatchable(Replay(cs).log, recipient, seen, k)
  {
    if Replay(cs).log[k].recipient == recipient {
      EverySignalFits(cs, recipient, k);
      assert SeenAt(cs, k, seen[k]);
      var m :| 0 <= m <= |cs| && k < |At(cs, m).log| && seen[k] == At(cs, m).rows;
      CommitPositions(cs, recipient, m);
      PrefixRuns(cs, m);
      RunHydrates(cs[..m]);
      assert ViewOf(seen[k], recipient) == LogView(Replay(cs).log, recipient, |At(cs, m).log|);
    }
  }

  lemma RunConverges(
    onKnown: OnKnown, start: View, cs: seq<Commit>, recipient: Uuid, seen: seq<Table>, from: nat)
    requires ValidRun(cs) && SeenAfterCommit(cs, seen, from) && from <= |Replay(cs).log|
    requires forall id :: AtOrAhead(Replay(cs).log, recipient, from, start, id)
    ensures ClientView(onKnown, start, recipient, Replay(cs).log, seen, from, |seen|)
            == ViewOf(Replay(cs).rows, recipient)
  {
    var log := Replay(cs).log;
    forall i | from <= i < |log|
      ensures Dispatchable(log, recipient, seen, i)
    {
      RunIsDispatchable(cs, recipient, seen, from, i);
    }
    AheadConverges(onKnown, start, log, recipient, seen, from);
    assert log[..|log|] == log;
    LogStateAgreement(cs, recipient);
  }

  /** Reconnect with a one-statement snapshot: subscribed at dispatch position
      `from`, snapshot taken at a commit position `c` no earlier, the client ends
      on the recipient's rows and unread count, whichever way it deduplicates. */
  lemma ReconnectConverges(
    onKnown: OnKnown, cs: seq<Commit>, recipient: Uuid, seen: seq<Table>, from: nat, c: nat)
    requires ValidRun(cs) && c <= |cs| && from <= |At(cs, c).log|
    requires SeenAfterCommit(cs, seen, from)
    ensures from <= |seen|
    ensures var view := ClientView(onKnown, ViewOf(At(cs, c).rows, recipient), recipient, Replay(cs).log, seen, from,
                                   |seen|);
            view == ViewOf(Replay(cs).rows, recipient) && UnreadIn(view) == UnreadCount(Replay(cs).rows, recipient)
  {
    CommitPositions(cs, recipient, c);
    LogStateAgreement(cs, recipient);
    var start, log := ViewOf(At(cs, c).rows, recipient), Replay(cs).log;
    forall id
      ensures AtOrAhead(log, recipient, from, start, id)
    {
      assert Lookup(start, id) == Lookup(LogView(log, recipient, |At(cs, c).log|), id);
    }
    RunConverges(onKnown, start, cs, recipient, seen, from);
  }

  lemma WalkIsSteady(cs: seq<Commit>, walk: seq<PageRead>, at: seq<nat>)
    requires ValidRun(cs) && |at| == |walk|
    requires forall i :: 0 <= i < |at| ==> at[i] <= |cs| && walk[i].rows == At(cs, at[i]).rows
    requires forall i, j :: 0 <= i < j < |at| ==> at[i] <= at[j]
    ensures SteadyReads(walk)
  {
    forall i, j | 0 <= i < j < |walk|
      ensures Steady(walk[i].rows, walk[j].rows)
    {
      PrefixRuns(cs, at[j]);
      SteadyRun(cs[..at[j]], at[i]);
      assert cs[..at[j]][..at[i]] == cs[..at[i]];
    }
  }

  // ---- A walked snapshot -----------------------------------------------------------------

  lemma {:induction false} AddedIdsAreUsed(cs: seq<Commit>, i: nat)
    requires ValidRun(cs) && i < |Replay(cs).log| && Replay(cs).log[i].Added?
    ensures Replay(cs).log[i].id in Replay(cs).used
  {
    var shorter, c := cs[..|cs| - 1], cs[|cs| - 1];
    var s := Replay(shorter);
    UsedCoversRows(shorter);
    assert Replay(cs).log == s.log + Announced(s, c);
    if i < |s.log| {
      AddedIdsAreUsed(shorter, i);
    } else {
      assert AddedSignals(Inserted(s, c))[i - |s.log|].id == Inserted(s, c)[i - |s.log|].id;
    }
  }

  /** No id is announced as added twice. */
  lemma {:induction false} AddedOnce(cs: seq<Commit>, i: nat, j: nat)
    requires ValidRun(cs) && i < j < |Replay(cs).log| && Replay(cs).log[i].Added? && Replay(cs).log[j].Added?
    ensures Replay(cs).log[i].id != Replay(cs).log[j].id
  {
    var shorter, c := cs[..|cs| - 1], cs[|cs| - 1];
    var s := Replay(shorter);
    UsedCoversRows(shorter);
    assert Replay(cs).log == s.log + Announced(s, c);
    if j < |s.log| {
      AddedOnce(shorter, i, j);
    } else {
      var winners := Inserting(s, c);
      assert AddedSignals(winners)[j - |s.log|].id == winners[j - |s.log|].id;
      if i < |s.log| {
        AddedIdsAreUsed(shorter, i);
      } else {
        assert AddedSignals(winners)[i - |s.log|].id == winners[i - |s.log|].id;
      }
    }
  }

  lemma {:induction false} ShownWasAdded(log: seq<Signal>, recipient: Uuid, id: Uuid) returns (j: nat)
    requires id in Fold(map[], recipient, log)
    ensures j < |log| && log[j].Added? && log[j].id == id
  {
    var shorter := log[..|log| - 1];
    if id in Fold(map[], recipient, shorter) {
      j := ShownWasAdded(shorter, recipient, id);
    } else {
      j := |log| - 1;
    }
  }

  lemma {:induction false} ClientNeverLearns(
    onKnown: OnKnown, start: View, recipient: Uuid, log: seq<Signal>, seen: seq<Table>, from: nat, k: nat, id: Uuid)
    requires from <= k <= |log| == |seen| && id !in start
    requires forall i :: from <= i < k ==> log[i].Added? ==> log[i].id != id
    ensures id !in ClientView(onKnown, start, recipient, log, seen, from, k)
    decreases k
  {
    if k > from {
      ClientNeverLearns(onKnown, start, recipient, log, seen, from, k - 1, id);
    }
  }

  /** A lost cursor hid the row, which had been announced before the subscription
      and exists to the end. */
  predicate Missed(cs: seq<Commit>, recipient: Uuid, from: nat, walk: seq<PageRead>, id: Uuid)
    requires from <= |Replay(cs).log| && walk != []
  {
    && Hidden(recipient, walk, None, id)
    && id in LogView(Replay(cs).log, recipient, from)
    && OwnedBy(Replay(cs).rows, recipient, id)
  }

  /** The walk's pages were read at commit positions `at`, in order, all at or
      after the subscription. */
  ghost predicate ReadAt(cs: seq<Commit>, walk: seq<PageRead>, at: seq<nat>, from: nat) {
    && |at| == |walk|
    && (forall i :: 0 <= i < |at| ==>
          at[i] <= |cs| && from <= |At(cs, at[i]).log| && walk[i].rows == At(cs, at[i]).rows)
    && (forall i, j :: 0 <= i < j < |at| ==> at[i] <= at[j])
  }

  lemma MissedIsNeverLearnt(
    onKnown: OnKnown, cs: seq<Commit>, recipient: Uuid, seen: seq<Table>, from: nat, walk: seq<PageRead>, id: Uuid)
    requires ValidRun(cs) && from <= |Replay(cs).log| == |seen|
    requires Walked(recipient, walk, None) && SteadyReads(walk) && Missed(cs, recipient, from, walk, id)
    ensures id !in ClientView(onKnown, Snapshot(walk), recipient, Replay(cs).log, seen, from, |seen|)
  {
    var log := Replay(cs).log;
    HiddenIsNotServed(recipient, walk, None, id);
    var j := ShownWasAdded(log[..from], recipient, id);
    forall i | from <= i < |log| && log[i].Added?
      ensures log[i].id != id
    {
      AddedOnce(cs, j, i);
    }
    ClientNeverLearns(onKnown, Snapshot(walk), recipient, log, seen, from, |log|, id);
  }

  lemma WalkedSnapshotIsAhead(
    cs: seq<Commit>, recipient: Uuid, from: nat, walk: seq<PageRead>, at: seq<nat>, id: Uuid)
    requires ValidRun(cs) && from <= |Replay(cs).log| && ReadAt(cs, walk, at, from)
    requires Walked(recipient, walk, None) && SteadyReads(walk) && !Missed(cs, recipient, from, walk, id)
    ensures AtOrAhead(Replay(cs).log, recipient, from, Snapshot(walk), id)
  {
    var log := Replay(cs).log;
    SnapshotIsPointwiseRead(recipient, walk, id);
    if SomePageAgrees(recipient, walk, id) {
      var i :| 0 <= i < |walk| && Lookup(Snapshot(walk), id) == Lookup(ViewOf(walk[i].rows, recipient), id);
      CommitPositions(cs, recipient, at[i]);
      assert Lookup(Snapshot(walk), id) == Lookup(LogView(log, recipient, |At(cs, at[i]).log|), id);
    } else {
      HiddenIsNotServed(recipient, walk, None, id);
      var j := if id in LogView(log, recipient, from) then |log| else from;
      LogStateAgreement(cs, recipient);
      assert log[..|log|] == log;
      assert Lookup(Snapshot(walk), id) == Lookup(LogView(log, recipient, j), id);
    }
  }

  /** The same with a snapshot walked page by page, each page read in its own
      transaction while others commit, every cursor lookup succeeding. The client
      converges exactly when it missed nothing: no row lay past a cursor lost
      between lookup and select, announced before the subscription and kept. */
  lemma ReconnectConvergesOverAWalk(
    onKnown: OnKnown, cs: seq<Commit>, recipient: Uuid, seen: seq<Table>, from: nat,
    walk: seq<PageRead>, at: seq<nat>)
    requires ValidRun(cs) && SeenAfterCommit(cs, seen, from)
    requires Walked(recipient, walk, None) && ReadAt(cs, walk, at, from)
    ensures from <= |seen|
    ensures ClientView(onKnown, Snapshot(walk), recipient, Replay(cs).log, seen, from, |seen|)
            == ViewOf(Replay(cs).rows, recipient)
            <==> forall id :: !Missed(cs, recipient, from, walk, id)
  {
    WalkIsSteady(cs, walk, at);
    CommitPositions(cs, recipient, at[0]);
    if id :| Missed(cs, recipient, from, walk, id) {
      MissedIsNeverLearnt(onKnown, cs, recipient, seen, from, walk, id);
      assert id in ViewOf(Replay(cs).rows, recipient);
    } else {
      forall id
        ensures AtOrAhead(Replay(cs).log, recipient, from, Snapshot(walk), id)
      {
        WalkedSnapshotIsAhead(cs, recipient, from, walk, at, id);
      }
      RunConverges(onKnown, Snapshot(walk), cs, recipient, seen, from);
    }
  }
}
