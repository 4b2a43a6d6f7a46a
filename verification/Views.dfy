/** What the announcement log says: the client's fold, and the agreement of the
    log with the table over every run of committed writes. */
module Views {
  import opened Prelude
  import opened RelativeLinks
  import opened Signals
  import opened Store

  /** A recipient's inbox as a client sees it: read timestamp by id. */
  type View = map<Uuid, Option<Time>>

  function Marked(view: View, ids: seq<Uuid>, at: Time): View {
    map id | id in view :: if id in ids then Some(at) else view[id]
  }

  function Removed(view: View, ids: seq<Uuid>): View {
    map id | id in view && id !in ids :: view[id]
  }

  /** The view of one id: absent, or present with its read timestamp. */
  function Lookup(view: View, id: Uuid): Option<Option<Time>> {
    if id in view then Some(view[id]) else None
  }

  lemma SameLookupsSameView(v: View, w: View)
    requires forall id :: Lookup(v, id) == Lookup(w, id)
    ensures v == w
  {
    forall id
      ensures id in v <==> id in w
      ensures id in v ==> v[id] == w[id]
    {
      assert Lookup(v, id) == Lookup(w, id);
    }
  }

  function FoldOne(view: View, recipient: Uuid, s: Signal): View {
    if s.recipient != recipient then view else
      match s
      case Added(_, id) => view[id := None]
      case Read(_, ids, at) => Marked(view, ids, at)
      case Deleted(_, ids) => Removed(view, ids)
  }

  function Fold(view: View, recipient: Uuid, log: seq<Signal>): View {
    if log == [] then view
    else FoldOne(Fold(view, recipient, log[..|log| - 1]), recipient, log[|log| - 1])
  }

  /** The recipient's rows, as the same kind of view. */
  function ViewOf(rows: Table, recipient: Uuid): View {
    map id | id in rows && rows[id].recipient == recipient :: rows[id].readAt
  }

  function UnreadCount(rows: Table, recipient: Uuid): nat {
    |set id | id in rows && rows[id].readAt.None? && rows[id].recipient == recipient|
  }

  function UnreadIn(view: View): nat {
    |set id | id in view && view[id].None?|
  }

  // ---- Folding lists of signals ---------------------------------------------

  lemma {:induction false} FoldConcat(view: View, recipient: Uuid, a: seq<Signal>, b: seq<Signal>)
    ensures Fold(view, recipient, a + b) == Fold(Fold(view, recipient, a), recipient, b)
  {
    if b == [] {
      assert a + b == a;
    } else {
      FoldConcat(view, recipient, a, b[..|b| - 1]);
      assert (a + b)[..|a + b| - 1] == a + b[..|b| - 1];
    }
  }

  lemma FoldCons(view: View, recipient: Uuid, log: seq<Signal>)
    requires log != []
    ensures Fold(view, recipient, log) == Fold(FoldOne(view, recipient, log[0]), recipient, log[1..])
  {
    FoldConcat(view, recipient, [log[0]], log[1..]);
    assert [log[0]] + log[1..] == log;
    assert [log[0]][..0] == [];
  }

  /** Marking or removing in two goes is doing it once. */
  lemma TwoGoesAreOne(view: View, a: seq<Uuid>, b: seq<Uuid>, at: Time)
    ensures Marked(Marked(view, a, at), b, at) == Marked(view, a + b, at)
    ensures Removed(Removed(view, a), b) == Removed(view, a + b)
  {
  }

  lemma {:induction false} FoldReads(view: View, recipient: Uuid, owner: Uuid, chunks: seq<seq<Uuid>>, at: Time)
    ensures Fold(view, recipient, Announce(chunks, ReadBy(owner, at)))
            == if owner == recipient then Marked(view, Flatten(chunks), at) else view
  {
    var of := ReadBy(owner, at);
    var log := Announce(chunks, of);
    if chunks == [] {
      assert Marked(view, [], at) == view;
    } else {
      FoldCons(view, recipient, log);
      assert log[1..] == Announce(chunks[1..], of);
      var first := FoldOne(view, recipient, log[0]);
      FoldReads(first, recipient, owner, chunks[1..], at);
      TwoGoesAreOne(view, chunks[0], Flatten(chunks[1..]), at);
    }
  }

  lemma {:induction false} FoldDeletes(view: View, recipient: Uuid, owner: Uuid, chunks: seq<seq<Uuid>>)
    ensures Fold(view, recipient, Announce(chunks, DeletedBy(owner)))
            == if owner == recipient then Removed(view, Flatten(chunks)) else view
  {
    var of := DeletedBy(owner);
    var log := Announce(chunks, of);
    if chunks == [] {
      assert Removed(view, []) == view;
    } else {
      FoldCons(view, recipient, log);
      assert log[1..] == Announce(chunks[1..], of);
      var first := FoldOne(view, recipient, log[0]);
      FoldDeletes(first, recipient, owner, chunks[1..]);
      TwoGoesAreOne(view, chunks[0], Flatten(chunks[1..]), 0);
    }
  }

  lemma {:induction false} FoldAddsElsewhere(view: View, recipient: Uuid, minted: seq<Minted>, id: Uuid)
    requires forall m :: m in minted ==> m.id != id || m.recipient != recipient
    ensures Lookup(Fold(view, recipient, AddedSignals(minted)), id) == Lookup(view, id)
    decreases |minted|
  {
    if minted != [] {
      FoldCons(view, recipient, AddedSignals(minted));
      assert AddedSignals(minted)[1..] == AddedSignals(minted[1..]);
      FoldAddsElsewhere(FoldOne(view, recipient, AddedSignals(minted)[0]), recipient, minted[1..], id);
    }
  }

  lemma {:induction false} FoldAddsHere(view: View, recipient: Uuid, minted: seq<Minted>, m: Minted)
    requires m in minted && m.recipient == recipient
    ensures Lookup(Fold(view, recipient, AddedSignals(minted)), m.id) == Some(None)
    decreases |minted|
  {
    FoldCons(view, recipient, AddedSignals(minted));
    assert AddedSignals(minted)[1..] == AddedSignals(minted[1..]);
    var first := FoldOne(view, recipient, AddedSignals(minted)[0]);
    if m' :| m' in minted[1..] && m'.id == m.id && m'.recipient == recipient {
      FoldAddsHere(first, recipient, minted[1..], m');
    } else {
      assert m == minted[0];
      FoldAddsElsewhere(first, recipient, minted[1..], m.id);
    }
  }

  // ---- Agreement ------------------------------------------------------------

  lemma InsertCarriesView(s: State, c: Commit, recipient: Uuid)
    requires c.Insert? && Valid(s, c) && s.rows.Keys <= s.used
    ensures ViewOf(Apply(s, c).rows, recipient)
            == Fold(ViewOf(s.rows, recipient), recipient, AddedSignals(Inserted(s, c)))
  {
    var view, after := ViewOf(s.rows, recipient), ViewOf(Apply(s, c).rows, recipient);
    var winners := Inserting(s, c);
    var folded := Fold(view, recipient, AddedSignals(winners));
    forall id
      ensures Lookup(after, id) == Lookup(folded, id)
    {
      if m :| m in winners && m.id == id {
        if m.recipient == recipient {
          FoldAddsHere(view, recipient, winners, m);
        } else {
          FoldAddsElsewhere(view, recipient, winners, id);
        }
      } else {
        FoldAddsElsewhere(view, recipient, winners, id);
      }
    }
    SameLookupsSameView(after, folded);
  }

  lemma ViewAfterRead(rows: Table, owner: Uuid, ids: seq<Uuid>, at: Time, recipient: Uuid)
    requires forall id :: id in ids ==> OwnedBy(rows, owner, id)
    ensures ViewOf(SetRead(rows, ids, at), recipient)
            == if owner == recipient then Marked(ViewOf(rows, recipient), ids, at) else ViewOf(rows, recipient)
  {
  }

  lemma ReadsCarryView(s: State, c: Commit, recipient: Uuid)
    requires c.MarkRead? && Valid(s, c)
    ensures ViewOf(Apply(s, c).rows, recipient)
            == Fold(ViewOf(s.rows, recipient), recipient, ReadSignals(c.recipient, c.ids, c.at))
  {
    FoldReads(ViewOf(s.rows, recipient), recipient, c.recipient, Chunks(c.ids, SIGNAL_ID_CHUNK), c.at);
    ChunksPartition(c.ids, SIGNAL_ID_CHUNK);
    ViewAfterRead(s.rows, c.recipient, c.ids, c.at, recipient);
  }

  lemma DeletesCarryView(s: State, c: Commit, recipient: Uuid)
    requires c.Delete? && Valid(s, c)
    ensures ViewOf(Apply(s, c).rows, recipient)
            == Fold(ViewOf(s.rows, recipient), recipient, DeletedSignals(c.recipient, c.ids))
  {
    FoldDeletes(ViewOf(s.rows, recipient), recipient, c.recipient, Chunks(c.ids, SIGNAL_ID_CHUNK));
    ChunksPartition(c.ids, SIGNAL_ID_CHUNK);
    assert ViewOf(Apply(s, c).rows, recipient)
           == if c.recipient == recipient then Removed(ViewOf(s.rows, recipient), c.ids)
              else ViewOf(s.rows, recipient);
  }

  /** The signals a commit announces, which its log ends with. */
  function Announced(s: State, c: Commit): (signals: seq<Signal>)
    ensures Apply(s, c).log == s.log + signals
  {
    match c
    case Insert(_, _, _, _) => AddedSignals(Inserted(s, c))
    case MarkRead(recipient, ids, at) => ReadSignals(recipient, ids, at)
    case Delete(recipient, ids) => DeletedSignals(recipient, ids)
  }

  /** The announcements of one commit carry a recipient's view across it. */
  lemma CommitCarriesView(s: State, c: Commit, recipient: Uuid)
    requires Valid(s, c) && s.rows.Keys <= s.used
    ensures ViewOf(Apply(s, c).rows, recipient) == Fold(ViewOf(s.rows, recipient), recipient, Announced(s, c))
  {
    match c {
      case Insert(_, _, _, _) => InsertCarriesView(s, c, recipient);
      case MarkRead(_, _, _) => ReadsCarryView(s, c, recipient);
      case Delete(_, _) => DeletesCarryView(s, c, recipient);
    }
  }

  lemma {:induction false} UsedCoversRows(cs: seq<Commit>)
    requires ValidRun(cs)
    ensures Replay(cs).rows.Keys <= Replay(cs).used
  {
    if cs != [] {
      var s, c := Replay(cs[..|cs| - 1]), cs[|cs| - 1];
      UsedCoversRows(cs[..|cs| - 1]);
      if c.Insert? {
        var winners := Inserting(s, c);
      }
    }
  }

  /** In every reachable state, folding the committed log from empty gives each
      recipient's ids and read timestamps, and with them the unread count. */
  lemma {:induction false} LogStateAgreement(cs: seq<Commit>, recipient: Uuid)
    requires ValidRun(cs)
    ensures Fold(map[], recipient, Replay(cs).log) == ViewOf(Replay(cs).rows, recipient)
    ensures UnreadIn(Fold(map[], recipient, Replay(cs).log)) == UnreadCount(Replay(cs).rows, recipient)
  {
    if cs == [] {
      assert ViewOf(map[], recipient) == map[];
    } else {
      var s, c := Replay(cs[..|cs| - 1]), cs[|cs| - 1];
      LogStateAgreement(cs[..|cs| - 1], recipient);
      UsedCoversRows(cs[..|cs| - 1]);
      CommitCarriesView(s, c, recipient);
      FoldConcat(map[], recipient, s.log, Announced(s, c));
    }
    var view, rows := ViewOf(Replay(cs).rows, recipient), Replay(cs).rows;
    assert (set id | id in view && view[id].None?)
           == (set id | id in rows && rows[id].readAt.None? && rows[id].recipient == recipient);
  }
}
