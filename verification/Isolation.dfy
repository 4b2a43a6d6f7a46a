/** Recipients never interfere: what one recipient's session can observe is a
    function of the operations that concern it. */
module Isolation {
  import opened Prelude
  import opened Signals
  import opened Store
  import opened Views
  import opened Pages
  import opened Convergence
  import opened Operations

  function Own(rows: Table, recipient: Uuid): Table {
    map id | id in rows && rows[id].recipient == recipient :: rows[id]
  }

  function OwnLog(log: seq<Signal>, recipient: Uuid): seq<Signal> {
    Filter(log, (s: Signal) => s.recipient == recipient)
  }

  /** The part of an operation that concerns the recipient: its share of a fan-out,
      its own mutations whole, nothing of others'. */
  function Restrict(op: Operation, recipient: Uuid): seq<Operation> {
    match op
    case Deliver(source, body, at, minted) =>
      [Deliver(source, body, at, Filter(minted, (m: Minted) => m.recipient == recipient))]
    case Mutate(caller, _, _) => if ResolveRecipient(caller) == Some(recipient) then [op] else []
  }

  function RestrictAll(ops: seq<Operation>, recipient: Uuid): seq<Operation> {
    if ops == [] then [] else RestrictAll(ops[..|ops| - 1], recipient) + Restrict(ops[|ops| - 1], recipient)
  }

  /** `t` holds exactly what `s` holds of the recipient. */
  ghost predicate Mirrors(s: State, t: State, recipient: Uuid) {
    && t.rows == Own(s.rows, recipient)
    && t.log == OwnLog(s.log, recipient)
    && t.used <= s.used
    && s.rows.Keys <= s.used && t.rows.Keys <= t.used
  }

  // ---- Filters ------------------------------------------------------------------------

  lemma {:induction false} FilterAllOrNothing(log: seq<Signal>, recipient: Uuid, owner: Uuid)
    requires forall i :: 0 <= i < |log| ==> log[i].recipient == owner
    ensures OwnLog(log, recipient) == if owner == recipient then log else []
  {
    if log != [] {
      FilterAllOrNothing(log[1..], recipient, owner);
      assert log == [log[0]] + log[1..];
    }
  }

  lemma {:induction false} FilterCongruent(s: seq<Uuid>, p: Uuid -> bool, q: Uuid -> bool)
    requires forall x :: x in s ==> p(x) == q(x)
    ensures Filter(s, p) == Filter(s, q)
  {
    if s != [] {
      FilterCongruent(s[1..], p, q);
    }
  }

  // ---- A fan-out, restricted ------------------------------------------------------------

  function ShareOf(minted: seq<Minted>, recipient: Uuid): seq<Minted> {
    Filter(minted, (m: Minted) => m.recipient == recipient)
  }

  /** The winners among the recipient's share are the recipient's share of the
      winners. */
  lemma {:induction false} SharesOfWinners(minted: seq<Minted>, recipient: Uuid, taken: set<Uuid>, mine: set<Uuid>)
    requires recipient in taken <==> recipient in mine
    ensures FirstWins(ShareOf(minted, recipient), mine) == ShareOf(FirstWins(minted, taken), recipient)
    decreases |minted|
  {
    if minted != [] {
      var first, rest := minted[0], minted[1..];
      var taken' := if first.recipient in taken then taken else taken + {first.recipient};
      var mine' := if first.recipient == recipient && recipient !in mine then mine + {recipient} else mine;
      SharesOfWinners(rest, recipient, taken', mine');
      ShareOfCons(first, rest, recipient);
      assert minted == [first] + rest;
      if first.recipient !in taken {
        ShareOfCons(first, FirstWins(rest, taken'), recipient);
      }
    }
  }

  lemma ShareOfCons(first: Minted, rest: seq<Minted>, recipient: Uuid)
    ensures ShareOf([first] + rest, recipient)
            == if first.recipient == recipient then [first] + ShareOf(rest, recipient) else ShareOf(rest, recipient)
    ensures ([first] + ShareOf(rest, recipient))[1..] == ShareOf(rest, recipient)
  {
    assert ([first] + rest)[1..] == rest;
  }

  lemma {:induction false} SharesOfAdded(minted: seq<Minted>, recipient: Uuid)
    ensures OwnLog(AddedSignals(minted), recipient) == AddedSignals(ShareOf(minted, recipient))
  {
    if minted != [] {
      SharesOfAdded(minted[1..], recipient);
      assert AddedSignals(minted)[1..] == AddedSignals(minted[1..]);
      if minted[0].recipient == recipient {
        assert ShareOf(minted, recipient)[1..] == ShareOf(minted[1..], recipient);
      }
    }
  }

  lemma {:induction false} FreshShares(minted: seq<Minted>, recipient: Uuid, used: set<Uuid>)
    requires FreshIds(minted, used)
    ensures FreshIds(ShareOf(minted, recipient), used)
  {
    if minted != [] {
      assert FreshIds(minted[1..], used);
      FreshShares(minted[1..], recipient, used);
      FilterElements(minted[1..], (m: Minted) => m.recipient == recipient);
      var share := ShareOf(minted[1..], recipient);
      forall i | 0 <= i < |share|
        ensures share[i].id != minted[0].id
      {
        assert share[i] in minted[1..];
      }
    }
  }

  lemma OwnTaken(rows: Table, recipient: Uuid, source: Uuid)
    ensures recipient in Taken(rows, source) <==> recipient in Taken(Own(rows, recipient), source)
  {
    var own := Own(rows, recipient);
    if HasKey(rows, source, recipient) {
      var id :| id in rows && rows[id].source == source && rows[id].recipient == recipient;
      assert id in own && own[id].source == source;
    }
  }

  lemma OwnOfOneMore(rows: Table, id: Uuid, row: Row, recipient: Uuid)
    requires id !in rows
    ensures Own(rows[id := row], recipient)
            == if row.recipient == recipient then Own(rows, recipient)[id := row] else Own(rows, recipient)
  {
  }

  lemma {:induction false} OwnOfAddedRows(
    rows: Table, source: Uuid, body: Body, at: Time, minted: seq<Minted>, recipient: Uuid)
    requires FreshIds(minted, rows.Keys)
    ensures Own(AddRows(rows, source, body, at, minted), recipient)
            == AddRows(Own(rows, recipient), source, body, at, ShareOf(minted, recipient))
    decreases |minted|
  {
    if minted != [] {
      var first, rest := minted[0], minted[1..];
      var rows' := rows[first.id := NewRow(source, body, at, first.recipient)];
      OwnOfAddedRows(rows', source, body, at, rest, recipient);
      ShareOfCons(first, rest, recipient);
      assert minted == [first] + rest;
      OwnOfOneMore(rows, first.id, NewRow(source, body, at, first.recipient), recipient);
    }
  }

  lemma IdsOfShare(minted: seq<Minted>, recipient: Uuid)
    ensures IdsIn(ShareOf(minted, recipient)) <= IdsIn(minted)
  {
    var share := ShareOf(minted, recipient);
    FilterElements(minted, (m: Minted) => m.recipient == recipient);
    forall i | 0 <= i < |share|
      ensures share[i].id in IdsIn(minted)
    {
      assert share[i] in minted;
    }
  }

  lemma InsertMirrors(s: State, t: State, c: Commit, recipient: Uuid)
    requires Mirrors(s, t, recipient) && c.Insert? && Valid(s, c)
    ensures var share := c.(minted := ShareOf(c.minted, recipient));
            Valid(t, share) && Mirrors(Apply(s, c), Apply(t, share), recipient)
  {
    var share := c.(minted := ShareOf(c.minted, recipient));
    FreshShares(c.minted, recipient, s.used);
    var winners := Inserting(s, c);
    var mine := Inserting(t, share);
    OwnTaken(s.rows, recipient, c.source);
    SharesOfWinners(c.minted, recipient, Taken(s.rows, c.source), Taken(t.rows, c.source));
    assert mine == ShareOf(winners, recipient);
    OwnOfAddedRows(s.rows, c.source, c.body, c.at, winners, recipient);
    IdsOfShare(winners, recipient);
    SharesOfAdded(winners, recipient);
    FilterConcat(s.log, AddedSignals(winners), (g: Signal) => g.recipient == recipient);
  }

  // ---- A mutation, restricted ---------------------------------------------------------------

  lemma MutationRecipients(c: Commit)
    requires !c.Insert?
    ensures forall s: State :: forall i :: 0 <= i < |Announced(s, c)| ==> Announced(s, c)[i].recipient == c.recipient
  {
  }

  lemma OthersMutationInvisible(s: State, t: State, c: Commit, recipient: Uuid)
    requires Mirrors(s, t, recipient) && !c.Insert? && Valid(s, c) && c.recipient != recipient
    ensures Mirrors(Apply(s, c), t, recipient)
  {
    MutationRecipients(c);
    FilterAllOrNothing(Announced(s, c), recipient, c.recipient);
    FilterConcat(s.log, Announced(s, c), (g: Signal) => g.recipient == recipient);
    forall id | id in c.ids
      ensures OwnedBy(s.rows, c.recipient, id)
    {
      if c.MarkRead? {
        assert UnreadOf(s.rows, c.recipient, id);
      }
    }
    assert Own(Apply(s, c).rows, recipient) == Own(s.rows, recipient);
  }

  lemma OwnOfWritten(rows: Table, recipient: Uuid, ids: seq<Uuid>, at: Time)
    ensures Own(SetRead(rows, ids, at), recipient) == SetRead(Own(rows, recipient), ids, at)
    ensures Own(Without(rows, ids), recipient) == Without(Own(rows, recipient), ids)
  {
  }

  lemma OwnMutationIsValid(s: State, t: State, c: Commit, recipient: Uuid)
    requires Mirrors(s, t, recipient) && !c.Insert? && Valid(s, c) && c.recipient == recipient
    ensures Valid(t, c)
  {
    forall id | id in c.ids
      ensures if c.MarkRead? then UnreadOf(t.rows, recipient, id) else OwnedBy(t.rows, recipient, id)
    {
      if c.MarkRead? {
        assert UnreadOf(s.rows, c.recipient, id);
      }
    }
  }

  lemma OwnMutationMirrors(s: State, t: State, c: Commit, recipient: Uuid)
    requires Mirrors(s, t, recipient) && !c.Insert? && Valid(s, c) && c.recipient == recipient
    ensures Valid(t, c) && Mirrors(Apply(s, c), Apply(t, c), recipient)
  {
    OwnMutationIsValid(s, t, c, recipient);
    MutationRecipients(c);
    FilterAllOrNothing(Announced(s, c), recipient, c.recipient);
    FilterConcat(s.log, Announced(s, c), (g: Signal) => g.recipient == recipient);
    OwnOfWritten(s.rows, recipient, c.ids, if c.MarkRead? then c.at else 0);
  }

  lemma OwnedFromOwn(rows: Table, recipient: Uuid, id: Uuid)
    ensures OwnedBy(Own(rows, recipient), recipient, id) == OwnedBy(rows, recipient, id)
    ensures UnreadOf(Own(rows, recipient), recipient, id) == UnreadOf(rows, recipient, id)
  {
  }

  lemma SelectedFromOwn(write: Write, rows: Table, recipient: Uuid, scan: seq<Uuid>)
    ensures Selected(write, Own(rows, recipient), recipient, scan) == Selected(write, rows, recipient, scan)
  {
    forall id
      ensures Selects(write, Own(rows, recipient), recipient, id) == Selects(write, rows, recipient, id)
    {
      OwnedFromOwn(rows, recipient, id);
    }
    FilterCongruent(scan, Selecting(write, Own(rows, recipient), recipient),
                    Selecting(write, rows, recipient));
  }

  // ---- Non-interference ---------------------------------------------------------------------

  lemma StepMirrors(s: State, t: State, op: Operation, recipient: Uuid)
    requires Mirrors(s, t, recipient) && Possible(s, op)
    ensures Restrict(op, recipient) == [] ==> Mirrors(Execute(s, op), t, recipient)
    ensures Restrict(op, recipient) != [] ==>
              && Possible(t, Restrict(op, recipient)[0])
              && Mirrors(Execute(s, op), Execute(t, Restrict(op, recipient)[0]), recipient)
  {
    if CommitOf(s, op).Some? {
      OperationsAreCommits(s, op);
      var c := CommitOf(s, op).value;
      if op.Deliver? {
        InsertMirrors(s, t, c, recipient);
      } else if c.recipient == recipient {
        SelectedFromOwn(op.write, s.rows, recipient, op.scan);
        OwnMutationMirrors(s, t, c, recipient);
      } else {
        OthersMutationInvisible(s, t, c, recipient);
      }
    }
  }

  /** Erase from any run every mutation by another acting human or service and
      every other recipient's share of each fan-out: the erased run is possible,
      and leaves exactly the recipient's rows and the recipient's announcements,
      in the same order. */
  lemma {:induction false} NonInterference(ops: seq<Operation>, recipient: Uuid)
    requires PossibleRun(ops)
    ensures PossibleRun(RestrictAll(ops, recipient))
    ensures Mirrors(ExecuteAll(ops), ExecuteAll(RestrictAll(ops, recipient)), recipient)
  {
    if ops != [] {
      var shorter, op := ops[..|ops| - 1], ops[|ops| - 1];
      var before := RestrictAll(shorter, recipient);
      NonInterference(shorter, recipient);
      StepMirrors(ExecuteAll(shorter), ExecuteAll(before), op, recipient);
      var kept := Restrict(op, recipient);
      if kept == [] {
        assert before + kept == before;
      } else {
        assert (before + kept)[..|before|] == before;
      }
    }
  }

  /** A human acting as another touches nothing of the other's: whatever they ask
      for, the impersonated user's rows and announcements stay as they were. */
  lemma ImpersonationSparesTheImpersonated(s: State, op: Operation, user: Uuid, impersonator: Uuid)
    requires op.Mutate? && op.caller == Human(user, Some(impersonator)) && impersonator != user
    requires Possible(s, op) && s.rows.Keys <= s.used
    ensures Own(Execute(s, op).rows, user) == Own(s.rows, user)
    ensures OwnLog(Execute(s, op).log, user) == OwnLog(s.log, user)
  {
    var mine := State(Own(s.rows, user), OwnLog(s.log, user), Own(s.rows, user).Keys);
    StepMirrors(s, mine, op, user);
  }

  lemma KeysFromOwn(rows: Table, recipient: Uuid, cursor: Option<Key>)
    ensures KeysPast(Own(rows, recipient), recipient, cursor) == KeysPast(rows, recipient, cursor)
  {
    var own := Own(rows, recipient);
    assert forall id :: id in own ==> KeyOf(own, id) == KeyOf(rows, id);
    forall k
      ensures k in KeysPast(own, recipient, cursor) <==> k in KeysPast(rows, recipient, cursor)
    {
      if k in KeysPast(rows, recipient, cursor) {
        assert k.id in own && KeyOf(own, k.id) == k;
      }
    }
  }

  lemma ListsFromOwn(anchors: Table, rows: Table, recipient: Uuid, first: int, after: Option<Uuid>)
    ensures ListNotifications(Own(anchors, recipient), Own(rows, recipient), recipient, first, after)
            == ListNotifications(anchors, rows, recipient, first, after)
  {
    var own := Own(rows, recipient);
    match after {
      case None => KeysFromOwn(rows, recipient, None);
      case Some(id) =>
        assert OwnedBy(Own(anchors, recipient), recipient, id) <==> OwnedBy(anchors, recipient, id);
        assert OwnedBy(own, recipient, id) <==> OwnedBy(rows, recipient, id);
        if OwnedBy(rows, recipient, id) {
          assert KeyOf(own, id) == KeyOf(rows, id);
          KeysFromOwn(rows, recipient, Some(KeyOf(rows, id)));
        }
    }
  }

  /** Everything a session of the recipient can observe of a table it observes of
      its own rows alone: pages, each of their two statements with its own table;
      the unread badge; and the events its signals become. */
  lemma ObservesOnlyOwnRows(anchors: Table, rows: Table, recipient: Uuid, first: int, after: Option<Uuid>)
    ensures ListNotifications(Own(anchors, recipient), Own(rows, recipient), recipient, first, after)
            == ListNotifications(anchors, rows, recipient, first, after)
    ensures UnreadCount(Own(rows, recipient), recipient) == UnreadCount(rows, recipient)
    ensures forall s: Signal :: s.recipient == recipient ==> EventOf(s, Own(rows, recipient)) == EventOf(s, rows)
  {
    ListsFromOwn(anchors, rows, recipient, first, after);
    UnreadFromOwn(rows, recipient);
    EventsFromOwn(rows, recipient);
  }

  lemma EventsFromOwn(rows: Table, recipient: Uuid)
    ensures forall s: Signal :: s.recipient == recipient ==> EventOf(s, Own(rows, recipient)) == EventOf(s, rows)
  {
  }

  lemma UnreadFromOwn(rows: Table, recipient: Uuid)
    ensures UnreadCount(Own(rows, recipient), recipient) == UnreadCount(rows, recipient)
  {
    var own := Own(rows, recipient);
    assert (set id | id in own && own[id].readAt.None? && own[id].recipient == recipient)
           == (set id | id in rows && rows[id].readAt.None? && rows[id].recipient == recipient);
  }

  lemma AnswersFromOwnRows(s: State, t: State, caller: Passport, write: Write, recipient: Uuid)
    requires Mirrors(s, t, recipient) && ResolveRecipient(caller) == Some(recipient)
    ensures AnswerTo(s, caller, write) == AnswerTo(t, caller, write)
  {
  }

  // ---- The event stream of a run --------------------------------------------------------------

  /** An announcement and the moment it is dispatched: so many operations into the
      run. */
  datatype Dispatch = Dispatch(signal: Signal, at: nat)

  predicate Within(ds: seq<Dispatch>, n: nat) {
    forall i :: 0 <= i < |ds| ==> ds[i].at <= n
  }

  function SignalsOf(ds: seq<Dispatch>): seq<Signal> {
    if ds == [] then [] else SignalsOf(ds[..|ds| - 1]) + [ds[|ds| - 1].signal]
  }

  function EventsOf(d: Dispatch, rows: Table, recipient: Uuid): seq<ClientEvent> {
    if d.signal.recipient != recipient then [] else
      match EventOf(d.signal, rows)
      case Some(e) => [e]
      case None => []
  }

  /** What the recipient's stream carries, each `Added` re-read at its dispatch. */
  function Stream(ops: seq<Operation>, ds: seq<Dispatch>, recipient: Uuid): seq<ClientEvent>
    requires Within(ds, |ops|)
  {
    if ds == [] then [] else
      Stream(ops, ds[..|ds| - 1], recipient)
      + EventsOf(ds[|ds| - 1], ExecuteAll(ops[..ds[|ds| - 1].at]).rows, recipient)
  }

  /** The recipient's dispatches, at the corresponding moments of the erased run. */
  function OwnDispatches(ops: seq<Operation>, ds: seq<Dispatch>, recipient: Uuid): seq<Dispatch>
    requires Within(ds, |ops|)
  {
    if ds == [] then [] else
      var d := ds[|ds| - 1];
      OwnDispatches(ops, ds[..|ds| - 1], recipient)
      + if d.signal.recipient == recipient then [Dispatch(d.signal, |RestrictAll(ops[..d.at], recipient)|)] else []
  }

  lemma {:induction false} PrefixIsPossible(ops: seq<Operation>, n: nat)
    requires PossibleRun(ops) && n <= |ops|
    ensures PossibleRun(ops[..n])
    decreases |ops|
  {
    if n == |ops| {
      assert ops[..n] == ops;
    } else {
      PrefixIsPossible(ops[..|ops| - 1], n);
      assert ops[..|ops| - 1][..n] == ops[..n];
    }
  }

  lemma {:induction false} RestrictPrefix(ops: seq<Operation>, n: nat, recipient: Uuid)
    requires n <= |ops|
    ensures RestrictAll(ops[..n], recipient) <= RestrictAll(ops, recipient)
    decreases |ops|
  {
    if n == |ops| {
      assert ops[..n] == ops;
    } else {
      RestrictPrefix(ops[..|ops| - 1], n, recipient);
      assert ops[..|ops| - 1][..n] == ops[..n];
    }
  }

  /** The corresponding moment of the erased run. */
  lemma SamePlace(ops: seq<Operation>, n: nat, recipient: Uuid)
    requires n <= |ops|
    ensures var mine, erased := RestrictAll(ops, recipient), RestrictAll(ops[..n], recipient);
            |erased| <= |mine| && mine[..|erased|] == erased
  {
    RestrictPrefix(ops, n, recipient);
  }

  lemma ErasedRows(ops: seq<Operation>, recipient: Uuid)
    requires PossibleRun(ops)
    ensures ExecuteAll(RestrictAll(ops, recipient)).rows == Own(ExecuteAll(ops).rows, recipient)
  {
    NonInterference(ops, recipient);
  }

  lemma SameEvents(d: Dispatch, at: nat, rows: Table, recipient: Uuid)
    ensures EventsOf(Dispatch(d.signal, at), Own(rows, recipient), recipient) == EventsOf(d, rows, recipient)
  {
    EventsFromOwn(rows, recipient);
  }

  lemma StreamSnoc(ops: seq<Operation>, ds: seq<Dispatch>, d: Dispatch, recipient: Uuid)
    requires Within(ds, |ops|) && d.at <= |ops|
    ensures SignalsOf(ds + [d]) == SignalsOf(ds) + [d.signal] && Within(ds + [d], |ops|)
    ensures Stream(ops, ds + [d], recipient)
            == Stream(ops, ds, recipient) + EventsOf(d, ExecuteAll(ops[..d.at]).rows, recipient)
  {
    assert (ds + [d])[..|ds|] == ds;
  }

  lemma OwnLogSnoc(log: seq<Signal>, g: Signal, recipient: Uuid)
    ensures OwnLog(log + [g], recipient) == OwnLog(log, recipient) + if g.recipient == recipient then [g] else []
  {
    FilterConcat(log, [g], (g: Signal) => g.recipient == recipient);
    FilterCons(g, [], (g: Signal) => g.recipient == recipient);
    assert [g] + [] == [g];
  }

  lemma {:induction false} SameStream(ops: seq<Operation>, ds: seq<Dispatch>, recipient: Uuid)
    requires PossibleRun(ops) && Within(ds, |ops|)
    ensures var own := OwnDispatches(ops, ds, recipient);
      && Within(own, |RestrictAll(ops, recipient)|)
      && SignalsOf(own) == OwnLog(SignalsOf(ds), recipient)
      && Stream(RestrictAll(ops, recipient), own, recipient) == Stream(ops, ds, recipient)
  {
    if ds != [] {
      var shorter, d := ds[..|ds| - 1], ds[|ds| - 1];
      SameStream(ops, shorter, recipient);
      OwnLogSnoc(SignalsOf(shorter), d.signal, recipient);
      if d.signal.recipient == recipient {
        var own := Dispatch(d.signal, |RestrictAll(ops[..d.at], recipient)|);
        SamePlace(ops, d.at, recipient);
        PrefixIsPossible(ops, d.at);
        ErasedRows(ops[..d.at], recipient);
        SameEvents(d, own.at, ExecuteAll(ops[..d.at]).rows, recipient);
        StreamSnoc(RestrictAll(ops, recipient), OwnDispatches(ops, shorter, recipient), own, recipient);
      } else {
        assert OwnDispatches(ops, ds, recipient) == OwnDispatches(ops, shorter, recipient);
      }
    }
  }

  /** However late each announcement of a run is dispatched, erasing the other
      recipients from the run leaves the recipient's stream as it was: the erased
      run announces the same signals, and, dispatched at the corresponding moments,
      they become the same events in the same order. */
  lemma StreamsNeverInterfere(ops: seq<Operation>, ds: seq<Dispatch>, recipient: Uuid)
    requires PossibleRun(ops) && Within(ds, |ops|) && SignalsOf(ds) == ExecuteAll(ops).log
    ensures var mine, own := RestrictAll(ops, recipient), OwnDispatches(ops, ds, recipient);
      && Within(own, |mine|) && SignalsOf(own) == ExecuteAll(mine).log
      && Stream(mine, own, recipient) == Stream(ops, ds, recipient)
  {
    SameStream(ops, ds, recipient);
    NonInterference(ops, recipient);
  }
}
