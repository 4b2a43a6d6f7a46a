/** The service's four writes under READ COMMITTED, any number at once.

    A mutation's statement takes a snapshot, then visits the rows its predicate
    selected there one at a time: it waits for a lock held by another transaction,
    checks its predicate again on the row as it now stands, and keeps the lock until
    it ends. A fan-out's statement tries its candidates in turn: it waits for any
    transaction whose outcome decides whether the key is taken, skips a taken key,
    whatever its snapshot showed, and holds a free one until it ends. Nothing a
    transaction wrote is visible before its commit. */
module ReadCommitted {
  import opened Prelude
  import opened Signals
  import opened Store
  import opened Views
  import opened Lifecycle
  import opened Operations

  /** An open transaction. Of a mutation, `todo` is what its statement has yet to
      visit, `locked` the rows it holds and will write, in visiting order; of a
      fan-out, `tried` counts the candidates behind it and `won` are those whose
      keys it holds and will insert. */
  datatype Txn =
    | Mutation(recipient: Uuid, write: Write, snapshot: Table, todo: set<Uuid>, locked: seq<Uuid>)
    | Insertion(source: Uuid, body: Body, at: Time, minted: seq<Minted>, tried: nat, won: seq<Minted>)

  datatype System = System(store: State, txns: map<nat, Txn>)

  datatype Step =
    | Begin(t: nat, recipient: Uuid, write: Write)
    | Visit(t: nat, id: Uuid)
    | BeginFanOut(t: nat, source: Uuid, body: Body, at: Time, minted: seq<Minted>)
    | Try(t: nat)
    | Finish(t: nat)
    | Rollback(t: nat)

  const START := System(EMPTY, map[])

  /** What the transaction's statement wrote. */
  function Written(txn: Txn): Commit {
    match txn
    case Mutation(recipient, write, _, _, locked) => CommitFor(write, recipient, locked)
    case Insertion(source, body, at, _, _, won) => Insert(source, body, at, won)
  }

  predicate Names(minted: seq<Minted>, recipient: Uuid) {
    exists i :: 0 <= i < |minted| && minted[i].recipient == recipient
  }

  /** Whether a key is taken depends on how the transaction ends: it writes the row
      that holds it, or it inserts one. */
  predicate Decides(txn: Txn, rows: Table, source: Uuid, recipient: Uuid) {
    match txn
    case Mutation(_, _, _, _, locked) =>
      exists id :: id in locked && id in rows && rows[id].source == source && rows[id].recipient == recipient
    case Insertion(other, _, _, _, _, won) => other == source && Names(won, recipient)
  }

  predicate DifferentIds(a: seq<Minted>, b: seq<Minted>) {
    forall i, j :: 0 <= i < |a| && 0 <= j < |b| ==> a[i].id != b[j].id
  }

  predicate Enabled(s: System, step: Step) {
    match step
    case Begin(t, _, _) => t !in s.txns
    case Visit(t, id) =>
      && t in s.txns && s.txns[t].Mutation? && id in s.txns[t].todo
      && forall u :: u in s.txns && u != t && s.txns[u].Mutation? ==> id !in s.txns[u].locked
    case BeginFanOut(t, _, _, _, minted) =>
      && t !in s.txns && FreshIds(minted, s.store.used)
      && forall u :: u in s.txns && s.txns[u].Insertion? ==> DifferentIds(minted, s.txns[u].minted)
    case Try(t) =>
      && t in s.txns && s.txns[t].Insertion? && s.txns[t].tried < |s.txns[t].minted|
      && forall u :: u in s.txns && u != t ==>
           !Decides(s.txns[u], s.store.rows, s.txns[t].source, s.txns[t].minted[s.txns[t].tried].recipient)
    case Finish(t) =>
      t in s.txns && if s.txns[t].Mutation? then s.txns[t].todo == {} else s.txns[t].tried == |s.txns[t].minted|
    case Rollback(t) => t in s.txns
  }

  /** The next candidate's key is taken, or this statement inserts it already. */
  predicate Skips(rows: Table, txn: Txn)
    requires txn.Insertion? && txn.tried < |txn.minted|
  {
    var recipient := txn.minted[txn.tried].recipient;
    HasKey(rows, txn.source, recipient) || Names(txn.won, recipient)
  }

  function Next(s: System, step: Step): System
    requires Enabled(s, step)
  {
    match step
    case Begin(t, recipient, write) =>
      var rows := s.store.rows;
      var selected := set id | id in rows && Selects(write, rows, recipient, id);
      s.(txns := s.txns[t := Mutation(recipient, write, rows, selected, [])])
    case Visit(t, id) =>
      var txn := s.txns[t];
      var locked := if Selects(txn.write, s.store.rows, txn.recipient, id) then txn.locked + [id] else txn.locked;
      s.(txns := s.txns[t := txn.(todo := txn.todo - {id}, locked := locked)])
    case BeginFanOut(t, source, body, at, minted) =>
      s.(txns := s.txns[t := Insertion(source, body, at, minted, 0, [])])
    case Try(t) =>
      var txn := s.txns[t];
      var won := if Skips(s.store.rows, txn) then txn.won else txn.won + [txn.minted[txn.tried]];
      s.(txns := s.txns[t := txn.(tried := txn.tried + 1, won := won)])
    case Finish(t) => System(Apply(s.store, Written(s.txns[t])), s.txns - {t})
    case Rollback(t) => s.(txns := s.txns - {t})
  }

  /** The state a run of steps reaches, if each step was enabled. */
  function Run(steps: seq<Step>): Option<System> {
    if steps == [] then Some(START) else
      match Run(steps[..|steps| - 1])
      case Some(s) => if Enabled(s, steps[|steps| - 1]) then Some(Next(s, steps[|steps| - 1])) else None
      case None => None
  }

  predicate Runs(steps: seq<Step>) {
    Run(steps).Some?
  }

  function After(steps: seq<Step>): System
    requires Runs(steps)
  {
    Run(steps).value
  }

  // ---- What every interleaving keeps ---------------------------------------------

  /** A mutation's locks are on rows its predicate still selects, and what its
      snapshot selected it has locked, still has to visit, or lost for good. */
  ghost predicate MutationOk(s: State, txn: Txn)
    requires txn.Mutation?
  {
    && Distinct(txn.locked)
    && txn.snapshot.Keys <= s.used
    && (forall id :: id in txn.locked ==> id !in txn.todo && Selects(txn.write, s.rows, txn.recipient, id))
    && (forall id :: id in txn.todo || id in txn.locked ==> Selects(txn.write, txn.snapshot, txn.recipient, id))
    && (forall id :: Selects(txn.write, txn.snapshot, txn.recipient, id) && id !in txn.todo && id !in txn.locked
          ==> !Selects(txn.write, s.rows, txn.recipient, id))
    && (forall id :: id in txn.snapshot && id in s.rows ==>
          txn.snapshot[id].recipient == s.rows[id].recipient
          && (txn.snapshot[id].readAt.Some? ==> s.rows[id].readAt.Some?))
  }

  /** The keys a fan-out won are free and different, and its ids are unused. */
  ghost predicate InsertionOk(s: State, txn: Txn)
    requires txn.Insertion?
  {
    && txn.tried <= |txn.minted|
    && FreshIds(txn.minted, s.used)
    && FreshIds(txn.won, s.used)
    && (forall m :: m in txn.won ==> m in txn.minted[..txn.tried] && !HasKey(s.rows, txn.source, m.recipient))
    && (forall i, j :: 0 <= i < j < |txn.won| ==> txn.won[i].recipient != txn.won[j].recipient)
  }

  ghost predicate TxnOk(s: State, txn: Txn) {
    if txn.Mutation? then MutationOk(s, txn) else InsertionOk(s, txn)
  }

  /** Two transactions never hold the same row, key or id. */
  ghost predicate Exclusive(a: Txn, b: Txn) {
    match (a, b)
    case (Mutation(_, _, _, _, locked), Mutation(_, _, _, _, others)) => forall id :: id in locked ==> id !in others
    case (Insertion(source, _, _, minted, _, won), Insertion(other, _, _, others, _, theirs)) =>
      && DifferentIds(minted, others)
      && (source == other ==> forall m :: m in won ==> !Names(theirs, m.recipient))
    case _ => true
  }

  ghost predicate Inv(s: System) {
    && s.store.rows.Keys <= s.store.used
    && (forall t :: t in s.txns ==> TxnOk(s.store, s.txns[t]))
    && (forall t, u :: t in s.txns && u in s.txns && t != u ==> Exclusive(s.txns[t], s.txns[u]))
  }

  lemma {:induction false} AllWin(minted: seq<Minted>, taken: set<Uuid>)
    requires forall m :: m in minted ==> m.recipient !in taken
    requires forall i, j :: 0 <= i < j < |minted| ==> minted[i].recipient != minted[j].recipient
    ensures FirstWins(minted, taken) == minted
  {
    if minted != [] {
      assert minted[0] in minted;
      AllWin(minted[1..], taken + {minted[0].recipient});
    }
  }

  /** A transaction may commit what it holds, and commits all of it. */
  lemma CommitIsValid(s: System, t: nat)
    requires Inv(s) && t in s.txns
    ensures Valid(s.store, Written(s.txns[t]))
    ensures s.txns[t].Insertion? ==> Inserted(s.store, Written(s.txns[t])) == s.txns[t].won
  {
    assert TxnOk(s.store, s.txns[t]);
    if s.txns[t].Insertion? {
      AllWin(s.txns[t].won, Taken(s.store.rows, s.txns[t].source));
    }
  }

  /** No committed write makes a predicate select a row it no longer selected. */
  lemma TargetsOnlyShrink(s: State, c: Commit, write: Write, recipient: Uuid, id: Uuid)
    requires Valid(s, c) && s.rows.Keys <= s.used && id in s.used
    requires Selects(write, Apply(s, c).rows, recipient, id)
    ensures Selects(write, s.rows, recipient, id)
  {
    IdsAreNeverReused(s, c, id);
    RowsAreImmutableButForReading(s, c, id);
  }

  /** A mutation's guarantees survive another's commit that wrote none of its
      locked rows. */
  lemma MutationSurvives(s: State, c: Commit, txn: Txn)
    requires Valid(s, c) && s.rows.Keys <= s.used && txn.Mutation? && MutationOk(s, txn)
    requires forall id :: id in txn.locked ==> !c.Insert? ==> id !in c.ids
    ensures MutationOk(Apply(s, c), txn)
  {
    var s' := Apply(s, c);
    forall id | id in txn.locked
      ensures Selects(txn.write, s'.rows, txn.recipient, id)
    {
      if c.Insert? {
        OldRowsStay(s, c, id);
      }
    }
    forall id | Selects(txn.write, txn.snapshot, txn.recipient, id) && id !in txn.todo && id !in txn.locked
      ensures !Selects(txn.write, s'.rows, txn.recipient, id)
    {
      if Selects(txn.write, s'.rows, txn.recipient, id) {
        TargetsOnlyShrink(s, c, txn.write, txn.recipient, id);
      }
    }
    forall id | id in txn.snapshot && id in s'.rows
      ensures txn.snapshot[id].recipient == s'.rows[id].recipient
      ensures txn.snapshot[id].readAt.Some? ==> s'.rows[id].readAt.Some?
    {
      IdsAreNeverReused(s, c, id);
      RowsAreImmutableButForReading(s, c, id);
    }
  }

  /** A commit takes no key it does not name. */
  lemma KeysAreTakenByName(s: State, c: Commit, source: Uuid, recipient: Uuid)
    requires Valid(s, c) && s.rows.Keys <= s.used && !HasKey(s.rows, source, recipient)
    requires c.Insert? && c.source == source ==> !Names(c.minted, recipient)
    ensures !HasKey(Apply(s, c).rows, source, recipient)
  {
    var after := Apply(s, c).rows;
    if id :| id in after && after[id].source == source && after[id].recipient == recipient {
      if c.Insert? {
        OldRowsStay(s, c, id);
        NewKeysAreNamed(s, c, id);
      }
    }
  }

  /** A fan-out's guarantees survive another's commit that names none of its ids
      and keys. */
  lemma InsertionSurvives(s: State, c: Commit, txn: Txn)
    requires Valid(s, c) && s.rows.Keys <= s.used && txn.Insertion? && InsertionOk(s, txn)
    requires c.Insert? ==> DifferentIds(txn.minted, c.minted)
    requires c.Insert? && c.source == txn.source ==> forall m :: m in txn.won ==> !Names(c.minted, m.recipient)
    ensures InsertionOk(Apply(s, c), txn)
  {
    forall i | 0 <= i < |txn.minted|
      ensures txn.minted[i].id !in Apply(s, c).used
    {
      UsedGrowsByMinted(s, c, txn.minted[i].id);
    }
    forall i | 0 <= i < |txn.won|
      ensures txn.won[i].id !in Apply(s, c).used
    {
      assert txn.won[i] in txn.won;
      var k :| 0 <= k < txn.tried && txn.minted[k] == txn.won[i];
    }
    forall m | m in txn.won
      ensures !HasKey(Apply(s, c).rows, txn.source, m.recipient)
    {
      KeysAreTakenByName(s, c, txn.source, m.recipient);
    }
  }

  /** Another's commit of what it holds leaves a transaction's guarantees intact. */
  lemma TxnSurvives(s: System, t: nat, u: nat)
    requires Inv(s) && t in s.txns && u in s.txns && t != u
    ensures TxnOk(Apply(s.store, Written(s.txns[t])), s.txns[u])
  {
    var c, txn := Written(s.txns[t]), s.txns[u];
    CommitIsValid(s, t);
    assert Exclusive(s.txns[u], s.txns[t]) && TxnOk(s.store, txn);
    if txn.Mutation? {
      MutationSurvives(s.store, c, txn);
    } else {
      if c.Insert? {
        assert TxnOk(s.store, s.txns[t]);
        WonIsMinted(s.store, s.txns[t], txn.minted);
      }
      InsertionSurvives(s.store, c, txn);
    }
  }

  lemma WonIsMinted(s: State, txn: Txn, others: seq<Minted>)
    requires txn.Insertion? && InsertionOk(s, txn) && DifferentIds(others, txn.minted)
    ensures DifferentIds(others, txn.won)
  {
    forall i, j | 0 <= i < |others| && 0 <= j < |txn.won|
      ensures others[i].id != txn.won[j].id
    {
      assert txn.won[j] in txn.won;
      var k :| 0 <= k < txn.tried && txn.minted[k] == txn.won[j];
    }
  }

  lemma FinishKeepsInv(s: System, t: nat)
    requires Inv(s) && Enabled(s, Finish(t))
    ensures Inv(Next(s, Finish(t)))
  {
    var c, s' := Written(s.txns[t]), Next(s, Finish(t));
    CommitIsValid(s, t);
    forall u | u in s'.txns
      ensures TxnOk(s'.store, s'.txns[u])
    {
      TxnSurvives(s, t, u);
    }
    IdsAreNeverReused(s.store, c, 0);
  }

  /** One transaction may be put in place of another, or added, if it is in order
      and excludes the rest. */
  lemma PutKeepsInv(s: System, t: nat, txn: Txn)
    requires Inv(s) && TxnOk(s.store, txn)
    requires forall u :: u in s.txns && u != t ==> Exclusive(txn, s.txns[u]) && Exclusive(s.txns[u], txn)
    ensures Inv(s.(txns := s.txns[t := txn]))
  {
  }

  lemma VisitKeepsInv(s: System, t: nat, id: Uuid)
    requires Inv(s) && Enabled(s, Visit(t, id))
    ensures Inv(Next(s, Visit(t, id)))
  {
    var txn, txn' := s.txns[t], Next(s, Visit(t, id)).txns[t];
    assert TxnOk(s.store, txn);
    assert TxnOk(s.store, txn');
    forall u | u in s.txns && u != t
      ensures Exclusive(txn', s.txns[u]) && Exclusive(s.txns[u], txn')
    {
      assert Exclusive(txn, s.txns[u]) && Exclusive(s.txns[u], txn);
    }
    PutKeepsInv(s, t, txn');
  }

  lemma TryKeepsInsertionOk(s: State, txn: Txn)
    requires txn.Insertion? && InsertionOk(s, txn) && txn.tried < |txn.minted|
    ensures var won := if Skips(s.rows, txn) then txn.won else txn.won + [txn.minted[txn.tried]];
            InsertionOk(s, txn.(tried := txn.tried + 1, won := won))
  {
    var m := txn.minted[txn.tried];
    assert txn.minted[..txn.tried + 1] == txn.minted[..txn.tried] + [m];
    if !Skips(s.rows, txn) {
      forall i | 0 <= i < |txn.won|
        ensures txn.won[i].recipient != m.recipient && txn.won[i].id != m.id
      {
        assert txn.won[i] in txn.won;
        var k :| 0 <= k < txn.tried && txn.minted[k] == txn.won[i];
      }
    }
  }

  lemma TryKeepsInv(s: System, t: nat)
    requires Inv(s) && Enabled(s, Try(t))
    ensures Inv(Next(s, Try(t)))
  {
    var txn, txn' := s.txns[t], Next(s, Try(t)).txns[t];
    assert TxnOk(s.store, txn);
    TryKeepsInsertionOk(s.store, txn);
    forall u | u in s.txns && u != t
      ensures Exclusive(txn', s.txns[u]) && Exclusive(s.txns[u], txn')
    {
      TryKeepsExclusive(s.store.rows, txn, s.txns[u]);
    }
    PutKeepsInv(s, t, txn');
  }

  lemma TryKeepsExclusive(rows: Table, txn: Txn, other: Txn)
    requires txn.Insertion? && txn.tried < |txn.minted| && Exclusive(txn, other) && Exclusive(other, txn)
    requires !Decides(other, rows, txn.source, txn.minted[txn.tried].recipient)
    ensures var txn' := txn.(tried := txn.tried + 1,
                             won := if Skips(rows, txn) then txn.won else txn.won + [txn.minted[txn.tried]]);
            Exclusive(txn', other) && Exclusive(other, txn')
  {
    if other.Insertion? && other.source == txn.source && !Skips(rows, txn) {
      var m := txn.minted[txn.tried];
      forall n | n in other.won
        ensures !Names(txn.won + [m], n.recipient)
      {
        var k :| 0 <= k < |other.won| && other.won[k] == n;
      }
    }
  }

  lemma BeginFanOutKeepsInv(s: System, step: Step)
    requires Inv(s) && step.BeginFanOut? && Enabled(s, step)
    ensures Inv(Next(s, step))
  {
    var s' := Next(s, step);
    assert TxnOk(s.store, s'.txns[step.t]);
  }

  lemma StepKeepsInv(s: System, step: Step)
    requires Inv(s) && Enabled(s, step)
    ensures Inv(Next(s, step))
  {
    match step {
      case Begin(t, recipient, write) =>
        assert TxnOk(s.store, Next(s, step).txns[t]);
      case Visit(t, id) => VisitKeepsInv(s, t, id);
      case BeginFanOut(_, _, _, _, _) => BeginFanOutKeepsInv(s, step);
      case Try(t) => TryKeepsInv(s, t);
      case Finish(t) => FinishKeepsInv(s, t);
      case Rollback(t) =>
    }
  }

  lemma {:induction false} InvHolds(steps: seq<Step>)
    requires Runs(steps)
    ensures Inv(After(steps))
  {
    if steps != [] {
      InvHolds(steps[..|steps| - 1]);
      StepKeepsInv(After(steps[..|steps| - 1]), steps[|steps| - 1]);
    }
  }

  /** A fan-out passes a candidate only once nobody is about to change whether its
      key is taken: no open mutation writes the row that holds it, no other open
      fan-out inserts it. */
  lemma TryWaits(s: System, t: nat, u: nat, id: Uuid)
    requires Enabled(s, Try(t)) && u in s.txns && u != t
    ensures var txn := s.txns[t]; var recipient := txn.minted[txn.tried].recipient;
      && (s.txns[u].Mutation? && id in s.txns[u].locked && id in s.store.rows ==>
            s.store.rows[id].source != txn.source || s.store.rows[id].recipient != recipient)
      && (s.txns[u].Insertion? && s.txns[u].source == txn.source ==> !Names(s.txns[u].won, recipient))
  {
  }

  /** A transaction that ends is gone and with it what it held; the others stand. */
  lemma EndingReleases(s: System, step: Step)
    requires Enabled(s, step) && (step.Finish? || step.Rollback?)
    ensures Next(s, step).txns == s.txns - {step.t}
    ensures step.Rollback? ==> Next(s, step).store == s.store
  {
  }

  // ---- Refinement of the serial runs ------------------------------------------------

  /** What a step commits, if anything. */
  function CommittedBy(s: System, step: Step): Option<Commit>
    requires Enabled(s, step)
  {
    match step
    case Finish(t) => Some(Written(s.txns[t]))
    case _ => None
  }

  lemma StepCommits(s: System, step: Step)
    requires Inv(s) && Enabled(s, step)
    ensures match CommittedBy(s, step)
            case Some(c) => Valid(s.store, c) && Next(s, step).store == Apply(s.store, c)
            case None => Next(s, step).store == s.store
  {
    if step.Finish? {
      CommitIsValid(s, step.t);
    }
  }

  /** Every interleaving leaves the store where some serial run of committed
      writes leaves it: what was proved of runs holds of every interleaving. */
  lemma {:induction false} InterleavingsRefineRuns(steps: seq<Step>) returns (cs: seq<Commit>)
    requires Runs(steps)
    ensures ValidRun(cs) && Replay(cs) == After(steps).store
  {
    if steps == [] {
      cs := [];
    } else {
      var s, step := After(steps[..|steps| - 1]), steps[|steps| - 1];
      cs := InterleavingsRefineRuns(steps[..|steps| - 1]);
      InvHolds(steps[..|steps| - 1]);
      StepCommits(s, step);
      match CommittedBy(s, step) {
        case Some(c) =>
          ReplayAppend(cs, c);
          cs := cs + [c];
        case None =>
      }
    }
  }

  /** Under any interleaving a notification is announced read at most once, and
      while its row exists exactly as its row says. */
  lemma ReadOnceUnderReadCommitted(steps: seq<Step>, id: Uuid)
    requires Runs(steps)
    ensures AnnouncedAsStored(After(steps).store, id)
  {
    var cs := InterleavingsRefineRuns(steps);
    ReadOnce(cs, id);
  }

  /** In any interleaving, a step announces a notification read exactly when it
      takes the committed row from unread to read, with the instant stored; and no
      step changes a read row's instant. */
  lemma StepAnnouncesTheTransition(steps: seq<Step>, step: Step, id: Uuid)
    requires Runs(steps) && Enabled(After(steps), step)
    ensures var before, after := After(steps).store, Next(After(steps), step).store;
      && AnnouncedReads(after.log, id) == AnnouncedReads(before.log, id)
           + (if && id in before.rows && id in after.rows
                 && before.rows[id].readAt.None? && after.rows[id].readAt.Some?
              then [after.rows[id].readAt.value] else [])
      && (id in before.rows && id in after.rows && before.rows[id].readAt.Some? ==>
            after.rows[id] == before.rows[id])
  {
    var s := After(steps);
    InvHolds(steps);
    if step.Finish? {
      var c := Written(s.txns[step.t]);
      CommitIsValid(s, step.t);
      AnnouncedReadsConcat(s.store.log, Announced(s.store, c), id);
      CommitAnnouncesTheTransition(s.store, c, id);
      if id in s.store.rows && id in Apply(s.store, c).rows {
        RowsAreImmutableButForReading(s.store, c, id);
      }
    }
  }

  // ---- When a statement began ---------------------------------------------------------------

  predicate Begins(step: Step, t: nat) {
    (step.Begin? || step.BeginFanOut?) && step.t == t
  }

  /** The position of the transaction's last begin in the run. */
  function LastBegin(steps: seq<Step>, t: nat): (b: nat)
    ensures b <= |steps|
    ensures b < |steps| ==> Begins(steps[b], t)
    ensures forall k :: b < k < |steps| ==> !Begins(steps[k], t)
    ensures b == |steps| ==> forall k :: 0 <= k < |steps| ==> !Begins(steps[k], t)
  {
    if steps == [] then 0
    else if Begins(steps[|steps| - 1], t) then |steps| - 1
    else
      var b := LastBegin(steps[..|steps| - 1], t);
      if b == |steps| - 1 then |steps| else b
  }

  lemma {:induction false} PrefixRuns(steps: seq<Step>, n: nat)
    requires Runs(steps) && n <= |steps|
    ensures Runs(steps[..n])
    decreases |steps|
  {
    if n == |steps| {
      assert steps[..n] == steps;
    } else {
      PrefixRuns(steps[..|steps| - 1], n);
      assert steps[..|steps| - 1][..n] == steps[..n];
    }
  }

  /** The request an open transaction carries is the one it began with. */
  predicate Carries(txn: Txn, begin: Step) {
    match begin
    case Begin(_, recipient, write) => txn.Mutation? && txn.recipient == recipient && txn.write == write
    case BeginFanOut(_, source, body, at, minted) =>
      txn.Insertion? && txn.source == source && txn.body == body && txn.at == at && txn.minted == minted
    case _ => false
  }

  /** An open transaction began, with the request it carries; a mutation's snapshot
      is the table as it was then. */
  lemma {:induction false} OpenSinceItsBegin(steps: seq<Step>, t: nat)
    requires Runs(steps) && t in After(steps).txns
    ensures var b, txn := LastBegin(steps, t), After(steps).txns[t];
      && b < |steps| && Runs(steps[..b]) && Carries(txn, steps[b])
      && (txn.Mutation? ==> txn.snapshot == After(steps[..b]).store.rows)
  {
    var shorter, step := steps[..|steps| - 1], steps[|steps| - 1];
    if !Begins(step, t) {
      OpenSinceItsBegin(shorter, t);
      var b := LastBegin(shorter, t);
      assert shorter[..b] == steps[..b] && shorter[b] == steps[b];
    }
  }

  /** A finished statement leaves nothing it would have selected when it began:
      whatever it did not write itself, another transaction had taken out of its
      reach. */
  lemma FinishedStatementsMissNothing(steps: seq<Step>, t: nat, id: Uuid)
    requires Runs(steps) && Enabled(After(steps), Finish(t))
    requires LastBegin(steps, t) < |steps| && Runs(steps[..LastBegin(steps, t)]) && steps[LastBegin(steps, t)].Begin?
    requires var b := LastBegin(steps, t);
             Selects(steps[b].write, After(steps[..b]).store.rows, steps[b].recipient, id)
    ensures var b := LastBegin(steps, t);
            !Selects(steps[b].write, Next(After(steps), Finish(t)).store.rows, steps[b].recipient, id)
  {
    var s := After(steps);
    var txn := s.txns[t];
    OpenSinceItsBegin(steps, t);
    InvHolds(steps);
    CommitIsValid(s, t);
    assert TxnOk(s.store, txn);
    if Selects(txn.write, Next(s, Finish(t)).store.rows, txn.recipient, id) {
      TargetsOnlyShrink(s.store, Written(txn), txn.write, txn.recipient, id);
    }
  }

  /** Marking everything read: what was the caller's and unread when the statement
      began is afterwards read or gone. */
  lemma MarkAllLeavesNothingUnread(steps: seq<Step>, t: nat, b: nat, recipient: Uuid, at: Time, id: Uuid)
    requires Runs(steps) && Enabled(After(steps), Finish(t)) && b == LastBegin(steps, t) < |steps|
    requires steps[b] == Begin(t, recipient, Write.MarkAllAsRead(at)) && Runs(steps[..b])
    requires id in After(steps[..b]).store.rows
    requires After(steps[..b]).store.rows[id].recipient == recipient && After(steps[..b]).store.rows[id].readAt.None?
    ensures var rows := Next(After(steps), Finish(t)).store.rows; id in rows ==> rows[id].readAt.Some?
  {
    var s := After(steps);
    FinishedStatementsMissNothing(steps, t, id);
    OpenSinceItsBegin(steps, t);
    InvHolds(steps);
    assert TxnOk(s.store, s.txns[t]);
    CommitIsValid(s, t);
    if id in Next(s, Finish(t)).store.rows {
      IdsAreNeverReused(s.store, Written(s.txns[t]), id);
      RowsAreImmutableButForReading(s.store, Written(s.txns[t]), id);
    }
  }

  // ---- The answer of mark_as_read -------------------------------------------------------

  /** The joined select: nothing when the snapshot has no such row for the caller,
      otherwise whether the update wrote it. */
  function MarkOutcome(txn: Txn): Option<ReadOutcome>
    requires txn.Mutation? && txn.write.MarkAsRead?
  {
    if !OwnedBy(txn.snapshot, txn.recipient, txn.write.id) then None
    else if txn.write.id in txn.locked then Some(Transitioned)
    else Some(AlreadyRead)
  }

  lemma LocksOnlyItsRow(s: State, txn: Txn)
    requires txn.Mutation? && MutationOk(s, txn) && txn.write.MarkAsRead?
    ensures txn.write.id !in txn.locked ==> txn.locked == []
  {
    var head := if txn.locked == [] then txn.write.id else txn.locked[0];
    assert txn.locked == [] || head in txn.locked;
  }

  /** The caller told "transitioned" is the one whose commit takes the row from
      unread to read and announces it, with its own instant. */
  lemma TransitionedIsTheAnnouncer(steps: seq<Step>, t: nat, txn: Txn)
    requires Runs(steps) && Enabled(After(steps), Finish(t)) && txn == After(steps).txns[t]
    requires txn.Mutation? && txn.write.MarkAsRead? && MarkOutcome(txn) == Some(Transitioned)
    ensures UnreadOf(After(steps).store.rows, txn.recipient, txn.write.id)
    ensures AnnouncedReads(Next(After(steps), Finish(t)).store.log, txn.write.id) == [txn.write.at]
  {
    var s := After(steps);
    InvHolds(steps);
    assert TxnOk(s.store, txn);
    ReadOnceUnderReadCommitted(steps, txn.write.id);
    StepAnnouncesTheTransition(steps, Finish(t), txn.write.id);
  }

  /** The answer, from the run alone: none exactly when the row was not the caller's
      when the statement began, "transitioned" exactly when its commit changes the
      store. */
  lemma OutcomeIsExact(steps: seq<Step>, t: nat, b: nat, recipient: Uuid, id: Uuid, at: Time)
    requires Runs(steps) && Enabled(After(steps), Finish(t)) && b == LastBegin(steps, t) < |steps|
    requires steps[b] == Begin(t, recipient, Write.MarkAsRead(id, at)) && Runs(steps[..b])
    ensures var txn := After(steps).txns[t];
      var before, after := After(steps).store, Next(After(steps), Finish(t)).store;
      && txn.Mutation? && txn.write.MarkAsRead?
      && (MarkOutcome(txn) == None <==> !OwnedBy(After(steps[..b]).store.rows, recipient, id))
      && (MarkOutcome(txn) == Some(Transitioned) <==> after != before)
      && (after != before ==> after.rows == SetRead(before.rows, [id], at) && UnreadOf(before.rows, recipient, id))
  {
    OpenSinceItsBegin(steps, t);
    InvHolds(steps);
    OutcomeTellsTheChange(After(steps), t, recipient, id, at);
  }

  lemma OutcomeTellsTheChange(s: System, t: nat, recipient: Uuid, id: Uuid, at: Time)
    requires Inv(s) && Enabled(s, Finish(t)) && s.txns[t].Mutation?
    requires s.txns[t].write == Write.MarkAsRead(id, at) && s.txns[t].recipient == recipient
    ensures var before, after := s.store, Next(s, Finish(t)).store;
      && (MarkOutcome(s.txns[t]) == Some(Transitioned) <==> after != before)
      && (after != before ==> after.rows == SetRead(before.rows, [id], at) && UnreadOf(before.rows, recipient, id))
  {
    var txn := s.txns[t];
    assert TxnOk(s.store, txn);
    if id in txn.locked {
      OnlyItsRowIsLocked(s.store, txn);
      MarkingChanges(s.store, recipient, id, at);
    } else {
      LocksOnlyItsRow(s.store, txn);
      EmptyMarkIsANoOp(s.store, recipient, at);
    }
  }

  lemma MarkingChanges(s: State, recipient: Uuid, id: Uuid, at: Time)
    requires UnreadOf(s.rows, recipient, id)
    ensures Apply(s, MarkRead(recipient, [id], at)) != s
    ensures Apply(s, MarkRead(recipient, [id], at)).rows == SetRead(s.rows, [id], at)
  {
    assert SetRead(s.rows, [id], at)[id].readAt == Some(at);
  }

  lemma OnlyItsRowIsLocked(s: State, txn: Txn)
    requires txn.Mutation? && MutationOk(s, txn) && txn.write.MarkAsRead? && txn.write.id in txn.locked
    ensures txn.locked == [txn.write.id]
  {
    OnlyOne(txn.locked, txn.write.id);
  }

  lemma OnlyOne(ids: seq<Uuid>, id: Uuid)
    requires Distinct(ids) && id in ids && forall o :: o in ids ==> o == id
    ensures ids == [id]
  {
    var second := if |ids| > 1 then ids[1] else id;
    assert ids[0] in ids && second in ids;
  }

  /** What a statement's snapshot shows read has been announced, with the instant
      the snapshot shows, whatever has become of the row since. */
  lemma {:induction false} SnapshotReadsAreAnnounced(steps: seq<Step>, t: nat, id: Uuid)
    requires Runs(steps) && t in After(steps).txns && After(steps).txns[t].Mutation?
    requires id in After(steps).txns[t].snapshot && After(steps).txns[t].snapshot[id].readAt.Some?
    ensures AnnouncedReads(After(steps).store.log, id) == [After(steps).txns[t].snapshot[id].readAt.value]
  {
    var shorter, step := steps[..|steps| - 1], steps[|steps| - 1];
    ReadOnceUnderReadCommitted(steps, id);
    if step.Begin? && step.t == t {
      ReadOnceUnderReadCommitted(shorter, id);
    } else {
      SnapshotReadsAreAnnounced(shorter, t, id);
      StepAnnouncesTheTransition(shorter, step, id);
    }
  }

  /** Some step of the run removed the row while it was unread. */
  predicate TakenUnread(steps: seq<Step>, id: Uuid)
    requires Runs(steps)
  {
    steps != [] &&
    (var shorter := steps[..|steps| - 1];
     var before, after := After(shorter).store.rows, After(steps).store.rows;
     TakenUnread(shorter, id) || (id in before && before[id].readAt.None? && id !in after))
  }

  lemma StepKeepsIds(s: System, step: Step, id: Uuid)
    requires Inv(s) && Enabled(s, step)
    ensures s.store.used <= Next(s, step).store.used
    ensures id in s.store.used && id !in s.store.rows ==> id !in Next(s, step).store.rows
    ensures id in Next(s, step).store.used && id !in s.store.used ==>
              id in Next(s, step).store.rows && Next(s, step).store.rows[id].readAt.None?
    ensures Next(s, step).store.rows.Keys <= Next(s, step).store.used
  {
    StepCommits(s, step);
    if step.Finish? {
      var c := Written(s.txns[step.t]);
      IdsAreNeverReused(s.store, c, id);
      if c.Insert? {
        var winners := Inserting(s.store, c);
      }
    }
  }

  /** A notification that once existed was never announced read, and is gone,
      exactly when some step of the run took it unread. */
  lemma {:induction false} NeverReadIffTakenUnread(steps: seq<Step>, id: Uuid)
    requires Runs(steps)
    ensures TakenUnread(steps, id)
            <==> && id in After(steps).store.used && id !in After(steps).store.rows
                 && AnnouncedReads(After(steps).store.log, id) == []
  {
    if steps != [] {
      var shorter, step := steps[..|steps| - 1], steps[|steps| - 1];
      NeverReadIffTakenUnread(shorter, id);
      InvHolds(shorter);
      StepKeepsIds(After(shorter), step, id);
      StepAnnouncesTheTransition(shorter, step, id);
      ReadOnceUnderReadCommitted(shorter, id);
    }
  }

  /** What "already read" tells its caller. The commit changes nothing and finds
      the notification read, announced with the instant its row shows, or gone. If
      the caller's own snapshot showed it read, it was announced with that instant,
      gone or not. And it was read by someone exactly when nothing took it unread. */
  lemma AlreadyReadIsNeverUnread(steps: seq<Step>, t: nat, txn: Txn)
    requires Runs(steps) && Enabled(After(steps), Finish(t)) && txn == After(steps).txns[t]
    requires txn.Mutation? && txn.write.MarkAsRead? && MarkOutcome(txn) == Some(AlreadyRead)
    ensures Next(After(steps), Finish(t)).store == After(steps).store
    ensures txn.write.id in After(steps).store.rows ==>
              var row := After(steps).store.rows[txn.write.id];
              row.readAt.Some? && AnnouncedReads(After(steps).store.log, txn.write.id) == [row.readAt.value]
    ensures var read := txn.snapshot[txn.write.id].readAt;
            read.Some? ==> AnnouncedReads(After(steps).store.log, txn.write.id) == [read.value]
    ensures AnnouncedReads(After(steps).store.log, txn.write.id) != [] <==> !TakenUnread(steps, txn.write.id)
  {
    var s, id := After(steps), txn.write.id;
    InvHolds(steps);
    assert TxnOk(s.store, txn);
    LocksOnlyItsRow(s.store, txn);
    ReadOnceUnderReadCommitted(steps, id);
    EmptyMarkIsANoOp(s.store, txn.recipient, txn.write.at);
    NeverReadIffTakenUnread(steps, id);
    if txn.snapshot[id].readAt.Some? {
      SnapshotReadsAreAnnounced(steps, t, id);
    }
  }

  lemma EmptyMarkIsANoOp(s: State, recipient: Uuid, at: Time)
    ensures Apply(s, MarkRead(recipient, [], at)) == s
  {
    assert SetRead(s.rows, [], at) == s.rows;
    assert s.log + [] == s.log;
  }

  lemma Extend(steps: seq<Step>, step: Step) returns (longer: seq<Step>)
    requires Runs(steps) && Enabled(After(steps), step)
    ensures Runs(longer) && After(longer) == Next(After(steps), step)
  {
    longer := steps + [step];
    assert longer[..|steps|] == steps;
  }

  /** The race: a reader's snapshot saw the row, then a deleter took it away. */
  function Race(id: Uuid, recipient: Uuid, now: Time): seq<Step> {
    [Begin(1, recipient, Write.MarkAsRead(id, now)), Begin(2, recipient, Write.DeleteNotifications([id])),
     Visit(2, id), Finish(2), Visit(1, id)]
  }

  lemma BothBegin(s: System, id: Uuid, recipient: Uuid, now: Time) returns (s': System)
    requires s.txns == map[] && UnreadOf(s.store.rows, recipient, id)
    ensures var race := Race(id, recipient, now);
            Enabled(s, race[0]) && Enabled(Next(s, race[0]), race[1]) && s' == Next(Next(s, race[0]), race[1])
    ensures s' == System(s.store,
                         map[1 := Mutation(recipient, Write.MarkAsRead(id, now), s.store.rows, {id}, []),
                             2 := Mutation(recipient, Write.DeleteNotifications([id]), s.store.rows, {id}, [])])
  {
    var rows := s.store.rows;
    assert (set o | o in rows && Selects(Write.MarkAsRead(id, now), rows, recipient, o)) == {id};
    assert (set o | o in rows && Selects(Write.DeleteNotifications([id]), rows, recipient, o)) == {id};
    s' := Next(Next(s, Race(id, recipient, now)[0]), Race(id, recipient, now)[1]);
  }

  lemma DeleterWins(s: System, rows: Table, id: Uuid, recipient: Uuid, now: Time) returns (s': System)
    requires OwnedBy(s.store.rows, recipient, id)
    requires s.txns == map[1 := Mutation(recipient, Write.MarkAsRead(id, now), rows, {id}, []),
                           2 := Mutation(recipient, Write.DeleteNotifications([id]), rows, {id}, [])]
    ensures var race := Race(id, recipient, now);
            Enabled(s, race[2]) && Enabled(Next(s, race[2]), race[3]) && s' == Next(Next(s, race[2]), race[3])
    ensures s' == System(Apply(s.store, Delete(recipient, [id])),
                         map[1 := Mutation(recipient, Write.MarkAsRead(id, now), rows, {id}, [])])
  {
    var locked := Next(s, Visit(2, id));
    assert locked.txns[2] == Mutation(recipient, Write.DeleteNotifications([id]), rows, {}, [id]);
    s' := Next(locked, Finish(2));
  }

  /** "Already read" does not say that anyone read it: whenever a notification
      stands unread, a reader whose snapshot saw it and who waits for a deleter
      gets that answer for a notification never announced read. */
  lemma AlreadyReadWithoutARead(steps: seq<Step>, id: Uuid, recipient: Uuid, now: Time) returns (longer: seq<Step>)
    requires Runs(steps) && After(steps).txns == map[] && UnreadOf(After(steps).store.rows, recipient, id)
    ensures Runs(longer) && Enabled(After(longer), Finish(1))
    ensures After(longer).txns[1].Mutation? && After(longer).txns[1].write == Write.MarkAsRead(id, now)
    ensures MarkOutcome(After(longer).txns[1]) == Some(AlreadyRead)
    ensures AnnouncedReads(After(longer).store.log, id) == []
  {
    var s, race := After(steps), Race(id, recipient, now);
    var begun := BothBegin(s, id, recipient, now);
    var deleted := DeleterWins(begun, s.store.rows, id, recipient, now);
    longer := Extend(steps, race[0]);
    longer := Extend(longer, race[1]);
    longer := Extend(longer, race[2]);
    longer := Extend(longer, race[3]);
    longer := Extend(longer, race[4]);
    NeverAnnouncedByDeleting(steps, id, recipient);
  }

  lemma NeverAnnouncedByDeleting(steps: seq<Step>, id: Uuid, recipient: Uuid)
    requires Runs(steps) && UnreadOf(After(steps).store.rows, recipient, id)
    ensures AnnouncedReads(Apply(After(steps).store, Delete(recipient, [id])).log, id) == []
  {
    ReadOnceUnderReadCommitted(steps, id);
    DeletingAnnouncesNoRead(After(steps).store, recipient, [id], id);
  }

  // ---- What a fan-out leaves -----------------------------------------------------------------

  /** The key was held by a committed row at some point while the transaction was
      open. */
  ghost predicate HeldWhileOpen(steps: seq<Step>, t: nat, source: Uuid, recipient: Uuid)
    requires Runs(steps)
  {
    steps != [] &&
    (var shorter := steps[..|steps| - 1];
     && t in After(shorter).txns
     && (HasKey(After(shorter).store.rows, source, recipient) || HeldWhileOpen(shorter, t, source, recipient)))
  }

  /** A candidate the statement has tried was won, or its recipient had a committed
      row while the statement ran. */
  lemma {:induction false} TriedIsWonOrHeld(steps: seq<Step>, t: nat, k: nat)
    requires Runs(steps) && t in After(steps).txns && After(steps).txns[t].Insertion?
    requires k < After(steps).txns[t].tried && k < |After(steps).txns[t].minted|
    ensures var txn := After(steps).txns[t];
      Names(txn.won, txn.minted[k].recipient) || HeldWhileOpen(steps, t, txn.source, txn.minted[k].recipient)
  {
    var shorter, step := steps[..|steps| - 1], steps[|steps| - 1];
    var before, now := After(shorter).txns[t], After(steps).txns[t];
    if k < before.tried {
      TriedIsWonOrHeld(shorter, t, k);
      if Names(before.won, now.minted[k].recipient) {
        var i :| 0 <= i < |before.won| && before.won[i].recipient == now.minted[k].recipient;
        assert now.won[i] == before.won[i];
      }
    } else if !Skips(After(shorter).store.rows, before) {
      assert now.won[|before.won|] == now.minted[k];
    }
  }

  /** Once its fan-out commits, a recipient holds a row exactly when the statement
      won its key or the row that made it skip is still there. */
  lemma FanOutLeaves(steps: seq<Step>, t: nat, recipient: Uuid)
    requires Runs(steps) && Enabled(After(steps), Finish(t)) && After(steps).txns[t].Insertion?
    ensures var txn, rows := After(steps).txns[t], After(steps).store.rows;
      HasKey(Next(After(steps), Finish(t)).store.rows, txn.source, recipient)
      <==> HasKey(rows, txn.source, recipient) || Names(txn.won, recipient)
  {
    var s := After(steps);
    var c := Written(s.txns[t]);
    InvHolds(steps);
    CommitIsValid(s, t);
    if HasKey(s.store.rows, c.source, recipient) {
      var rows := s.store.rows;
      var id :| id in rows && rows[id].source == c.source && rows[id].recipient == recipient;
      OldRowsStay(s.store, c, id);
    } else if Names(c.minted, recipient) {
      var i :| 0 <= i < |c.minted| && c.minted[i].recipient == recipient;
      EveryoneNamedHasARow(s.store, c, i);
    } else {
      KeysAreTakenByName(s.store, c, c.source, recipient);
    }
  }

  /** After a fan-out commits, each recipient it was begun for holds a row or held
      one while the statement ran; and what it added are the rows it was begun for. */
  lemma FinishedFanOutAnswersEveryone(steps: seq<Step>, t: nat, b: nat, k: nat)
    requires Runs(steps) && Enabled(After(steps), Finish(t)) && b == LastBegin(steps, t) < |steps|
    requires steps[b].BeginFanOut? && k < |steps[b].minted|
    ensures var begin, recipient := steps[b], steps[b].minted[k].recipient;
      HasKey(Next(After(steps), Finish(t)).store.rows, begin.source, recipient)
      || HeldWhileOpen(steps, t, begin.source, recipient)
  {
    OpenSinceItsBegin(steps, t);
    TriedIsWonOrHeld(steps, t, k);
    FanOutLeaves(steps, t, steps[b].minted[k].recipient);
  }

  lemma FinishedFanOutAdds(steps: seq<Step>, t: nat, b: nat, id: Uuid)
    requires Runs(steps) && Enabled(After(steps), Finish(t)) && b == LastBegin(steps, t) < |steps|
    requires steps[b].BeginFanOut?
    requires id in Next(After(steps), Finish(t)).store.rows && id !in After(steps).store.rows
    ensures exists k :: && 0 <= k < |steps[b].minted| && steps[b].minted[k].id == id
                        && Next(After(steps), Finish(t)).store.rows[id]
                           == NewRow(steps[b].source, steps[b].body, steps[b].at, steps[b].minted[k].recipient)
  {
    OpenSinceItsBegin(steps, t);
    InvHolds(steps);
    var k := FinishAdds(After(steps), t, id);
  }

  lemma FinishAdds(s: System, t: nat, id: Uuid) returns (k: nat)
    requires Inv(s) && Enabled(s, Finish(t)) && s.txns[t].Insertion?
    requires id in Next(s, Finish(t)).store.rows && id !in s.store.rows
    ensures var txn := s.txns[t];
      && k < |txn.minted| && txn.minted[k].id == id
      && Next(s, Finish(t)).store.rows[id] == NewRow(txn.source, txn.body, txn.at, txn.minted[k].recipient)
  {
    var txn := s.txns[t];
    CommitIsValid(s, t);
    assert TxnOk(s.store, txn);
    var winners := Inserting(s.store, Written(txn));
    var w :| 0 <= w < |winners| && winners[w].id == id;
    assert winners[w] in winners && winners[w] in txn.minted[..txn.tried];
    k :| 0 <= k < txn.tried && txn.minted[k] == winners[w];
  }

  lemma DeletedKeyIsFree(rows: Table, id: Uuid)
    requires UniqueKey(rows) && id in rows
    ensures !HasKey(Without(rows, [id]), rows[id].source, rows[id].recipient)
  {
  }

  lemma SkipOnly(s: System, id: Uuid, body: Body, at: Time, m: Minted) returns (s': System)
    requires s.txns == map[] && id in s.store.rows && m.id !in s.store.used && m.recipient == s.store.rows[id].recipient
    ensures var begin := BeginFanOut(1, s.store.rows[id].source, body, at, [m]);
            Enabled(s, begin) && Enabled(Next(s, begin), Try(1)) && s' == Next(Next(s, begin), Try(1))
    ensures s' == System(s.store, map[1 := Insertion(s.store.rows[id].source, body, at, [m], 1, [])])
  {
    var begun := Next(s, BeginFanOut(1, s.store.rows[id].source, body, at, [m]));
    assert Skips(begun.store.rows, begun.txns[1]);
    s' := Next(begun, Try(1));
  }

  lemma DeleteBeside(s: System, id: Uuid, other: Txn) returns (s': System)
    requires id in s.store.rows && other.Insertion? && s.txns == map[1 := other]
    ensures var recipient := s.store.rows[id].recipient;
      var begin := Begin(2, recipient, Write.DeleteNotifications([id]));
      && Enabled(s, begin) && Enabled(Next(s, begin), Visit(2, id))
      && Enabled(Next(Next(s, begin), Visit(2, id)), Finish(2))
      && s' == Next(Next(Next(s, begin), Visit(2, id)), Finish(2))
      && s' == System(Apply(s.store, Delete(recipient, [id])), map[1 := other])
  {
    var recipient := s.store.rows[id].recipient;
    var begun := Next(s, Begin(2, recipient, Write.DeleteNotifications([id])));
    assert begun.txns[2] == Mutation(recipient, Write.DeleteNotifications([id]), s.store.rows, {id}, []);
    var locked := Next(begun, Visit(2, id));
    assert locked.txns[2] == Mutation(recipient, Write.DeleteNotifications([id]), s.store.rows, {}, [id]);
    s' := Next(locked, Finish(2));
  }

  /** The excluded case happens: from any quiet state, a fan-out that skips a taken
      key can commit after the row that took it was deleted, and then the recipient
      it named holds nothing. */
  lemma SkippedThenDeleted(steps: seq<Step>, id: Uuid, body: Body, at: Time, m: Minted) returns (longer: seq<Step>)
    requires Runs(steps) && After(steps).txns == map[] && id in After(steps).store.rows
    requires m.id !in After(steps).store.used && m.recipient == After(steps).store.rows[id].recipient
    ensures Runs(longer) && Enabled(After(longer), Finish(1))
    ensures var source := After(steps).store.rows[id].source;
      && After(longer).txns[1] == Insertion(source, body, at, [m], 1, [])
      && !HasKey(Next(After(longer), Finish(1)).store.rows, source, m.recipient)
  {
    var s := After(steps);
    var recipient, source := s.store.rows[id].recipient, s.store.rows[id].source;
    var skipped := SkipOnly(s, id, body, at, m);
    var deleted := DeleteBeside(skipped, id, skipped.txns[1]);
    longer := Extend(steps, BeginFanOut(1, source, body, at, [m]));
    longer := Extend(longer, Try(1));
    longer := Extend(longer, Begin(2, recipient, Write.DeleteNotifications([id])));
    longer := Extend(longer, Visit(2, id));
    longer := Extend(longer, Finish(2));
    var cs := InterleavingsRefineRuns(steps);
    KeysStayUnique(cs);
    DeletedKeyIsFree(s.store.rows, id);
    FanOutLeaves(longer, 1, recipient);
  }
}
