/** The write path as the service runs it: a transaction works on its own copy of
    the table and queues its announcements; the commit publishes both at once. */
module Transactions {
  import opened Prelude
  import opened Signals
  import opened Store
  import opened Operations

  class Database {
    var rows: Table
    var log: seq<Signal>
    ghost var used: set<Uuid>

    constructor ()
      ensures Model() == EMPTY
    {
      rows := map[];
      log := [];
      used := {};
    }

    ghost function Model(): State
      reads this
    {
      State(rows, log, used)
    }
  }

  class Transaction {
    const database: Database
    /** `app.current_user_id`, or none for the ingest role. */
    const scope: Option<Uuid>
    /** How an instant is written, and with it a payload. */
    const show: Time -> string
    const encode: Signal -> string
    var rows: Table
    var queue: seq<Signal>
    /** `pg_notify` statements issued. */
    var statements: nat
    ghost var created: set<Uuid>

    constructor (database: Database, scope: Option<Uuid>, show: Time -> string)
      requires forall t :: |show(t)| <= LONGEST_INSTANT
      ensures this.database == database && this.scope == scope && Encodes()
      ensures rows == database.rows && queue == [] && statements == 0 && created == {}
    {
      this.database := database;
      this.scope := scope;
      this.show := show;
      encode := Encoder(show);
      rows := database.rows;
      queue := [];
      statements := 0;
      created := {};
    }

    ghost predicate Encodes() {
      encode == Encoder(show) && forall t :: |show(t)| <= LONGEST_INSTANT
    }

    /** The row-level security policy of the transaction's role. */
    predicate Visible(id: Uuid)
      reads this
    {
      id in rows && (scope.None? || rows[id].recipient == scope.value)
    }

    // ---- Announcing ------------------------------------------------------------------

    /** One `SELECT pg_notify(...) FROM unnest(...)`: PostgreSQL refuses an oversized
        payload and drops one the transaction already queued. */
    method Signal(batch: seq<Signal>) returns (ok: bool)
      modifies this`queue, this`statements
      ensures ok <==> forall i :: 0 <= i < |batch| ==> |encode(batch[i])| < PG_NOTIFY_PAYLOAD_LIMIT
      ensures ok ==> queue == EnqueueAll(old(queue), batch, encode)
      ensures statements == old(statements) + 1
    {
      statements := statements + 1;
      if exists k :: 0 <= k < |batch| && |encode(batch[k])| >= PG_NOTIFY_PAYLOAD_LIMIT {
        return false;
      }
      for i := 0 to |batch|
        invariant queue == EnqueueAll(old(queue), batch[..i], encode)
        invariant statements == old(statements) + 1
      {
        EnqueueNext(old(queue), batch, i, encode);
        if !Queued(queue, batch[i], encode) {
          queue := queue + [batch[i]];
        }
      }
      assert batch[..|batch|] == batch;
      return true;
    }

    /** Stops at the first batch PostgreSQL refuses. */
    method SignalAll(signals: seq<Signal>) returns (ok: bool)
      modifies this`queue, this`statements
      ensures ok <==> forall i :: 0 <= i < |signals| ==> |encode(signals[i])| < PG_NOTIFY_PAYLOAD_LIMIT
      ensures ok ==> queue == EnqueueAll(old(queue), signals, encode)
      ensures ok ==> statements == old(statements) + |Chunks(signals, SIGNALS_PER_STATEMENT)|
    {
      var batches := Chunks(signals, SIGNALS_PER_STATEMENT);
      ChunksPartition(signals, SIGNALS_PER_STATEMENT);
      for i := 0 to |batches|
        invariant queue == EnqueueAll(old(queue), Flatten(batches[..i]), encode)
        invariant statements == old(statements) + i
        invariant AllFit(Flatten(batches[..i]), encode)
      {
        FlattenNext(batches, i);
        EnqueueAllConcat(old(queue), Flatten(batches[..i]), batches[i], encode);
        var accepted := Signal(batches[i]);
        if !accepted {
          var k :| 0 <= k < |batches[i]| && |encode(batches[i][k])| >= PG_NOTIFY_PAYLOAD_LIMIT;
          ChunkElements(signals, SIGNALS_PER_STATEMENT, i, batches[i][k]);
          return false;
        }
      }
      assert batches[..|batches|] == batches;
      return true;
    }

    /** Nothing of a bulk announcement is refused, merged or reordered. */
    method SignalRead(recipient: Uuid, ids: seq<Uuid>, at: Time) returns (ok: bool)
      requires Distinct(ids) && queue == [] && Encodes()
      modifies this`queue, this`statements
      ensures ok && queue == ReadSignals(recipient, ids, at)
      ensures statements == old(statements) + CeilDiv150(CeilDiv150(|ids|))
    {
      BulkAnnouncement(recipient, ids, at, show, ReadSignals(recipient, ids, at));
      ok := SignalAll(ReadSignals(recipient, ids, at));
    }

    method SignalDeleted(recipient: Uuid, ids: seq<Uuid>) returns (ok: bool)
      requires Distinct(ids) && queue == [] && Encodes()
      modifies this`queue, this`statements
      ensures ok && queue == DeletedSignals(recipient, ids)
      ensures statements == old(statements) + CeilDiv150(CeilDiv150(|ids|))
    {
      BulkAnnouncement(recipient, ids, 0, show, DeletedSignals(recipient, ids));
      ok := SignalAll(DeletedSignals(recipient, ids));
    }

    // ---- Writing ---------------------------------------------------------------------

    /** The fan-out, row by row as the executor runs it, then one announcement per
        inserted row. */
    method InsertNotifications(source: Uuid, minted: seq<Minted>, body: Body, at: Time) returns (written: nat)
      requires FreshIds(minted, rows.Keys) && queue == [] && Encodes()
      modifies this`rows, this`queue, this`statements, this`created
      ensures var winners := FirstWins(minted, Taken(old(rows), source));
        && rows == AddRows(old(rows), source, body, at, winners)
        && queue == AddedSignals(winners)
        && created == old(created) + IdsIn(winners)
        && written == |winners|
    {
      var inserted: seq<Minted> := [];
      ghost var taken := Taken(rows, source);
      for i := 0 to |minted|
        invariant inserted == FirstWins(minted[..i], taken)
        invariant rows == AddRows(old(rows), source, body, at, inserted)
        invariant queue == [] && created == old(created)
      {
        InsertNext(old(rows), source, body, at, minted, i);
        if !HasKey(rows, source, minted[i].recipient) {
          rows := rows[minted[i].id := NewRow(source, body, at, minted[i].recipient)];
          inserted := inserted + [minted[i]];
        }
      }
      assert minted[..|minted|] == minted;
      created := created + IdsIn(inserted);
      WinnerIds(minted, taken, old(rows).Keys);
      AddedNeverCollapse(AddedSignals(inserted), show);
      var ok := SignalAll(AddedSignals(inserted));
      return |inserted|;
    }

    /** One statement reads the row as it was and marks it if unread. */
    method MarkAsRead(recipient: Uuid, id: Uuid, now: Time) returns (outcome: Option<ReadOutcome>)
      requires scope == Some(recipient) && queue == [] && Encodes()
      modifies this`rows, this`queue, this`statements
      ensures outcome == if !OwnedBy(old(rows), recipient, id) then None
                         else if UnreadOf(old(rows), recipient, id) then Some(Transitioned) else Some(AlreadyRead)
      ensures outcome == Some(Transitioned) ==>
                rows == SetRead(old(rows), [id], now) && queue == ReadSignals(recipient, [id], now)
      ensures outcome != Some(Transitioned) ==> rows == old(rows) && queue == []
    {
      if !Visible(id) || rows[id].recipient != recipient {
        return None;
      }
      var before := rows[id].readAt;
      var transitioned := before.None?;
      if transitioned {
        rows := rows[id := rows[id].(readAt := Some(now))];
        assert rows == SetRead(old(rows), [id], now);
      }
      match if transitioned then Some(now) else before {
        case Some(readAt) =>
          if transitioned {
            var ok := SignalRead(recipient, [id], readAt);
            return Some(Transitioned);
          }
          return Some(AlreadyRead);
        case None =>
          return Some(AlreadyRead);
      }
    }

    method MarkAllAsRead(recipient: Uuid, now: Time, scan: seq<Uuid>) returns (ids: seq<Uuid>)
      requires scope == Some(recipient) && queue == [] && IsScan(scan, rows) && Encodes()
      modifies this`rows, this`queue, this`statements
      ensures ids == Selected(Write.MarkAllAsRead(now), old(rows), recipient, scan)
      ensures rows == SetRead(old(rows), ids, now) && queue == ReadSignals(recipient, ids, now)
    {
      ids := [];
      ghost var selects := Selecting(Write.MarkAllAsRead(now), old(rows), recipient);
      for i := 0 to |scan|
        invariant ids == Filter(scan[..i], selects)
        invariant rows == SetRead(old(rows), ids, now) && queue == []
      {
        var id := scan[i];
        ScanNext(scan, i, selects);
        if Visible(id) && rows[id].recipient == recipient && rows[id].readAt.None? {
          rows := rows[id := rows[id].(readAt := Some(now))];
          WriteNext(old(rows), ids, id, now);
          ids := ids + [id];
        }
      }
      assert scan[..|scan|] == scan;
      FilterDistinct(scan, selects);
      if ids != [] {
        var ok := SignalRead(recipient, ids, now);
      }
    }

    method DeleteNotifications(recipient: Uuid, wanted: seq<Uuid>, scan: seq<Uuid>) returns (ids: seq<Uuid>)
      requires scope == Some(recipient) && queue == [] && IsScan(scan, rows) && Encodes()
      modifies this`rows, this`queue, this`statements
      ensures ids == Selected(Write.DeleteNotifications(wanted), old(rows), recipient, scan)
      ensures rows == Without(old(rows), ids) && queue == DeletedSignals(recipient, ids)
    {
      ids := [];
      ghost var selects := Selecting(Write.DeleteNotifications(wanted), old(rows), recipient);
      if wanted == [] {
        EmptyDelete(rows, recipient, scan);
        return;
      }
      for i := 0 to |scan|
        invariant ids == Filter(scan[..i], selects)
        invariant rows == Without(old(rows), ids) && queue == []
      {
        var id := scan[i];
        ScanNext(scan, i, selects);
        if Visible(id) && rows[id].recipient == recipient && id in wanted {
          rows := rows - {id};
          WriteNext(old(rows), ids, id, 0);
          ids := ids + [id];
        }
      }
      assert scan[..|scan|] == scan;
      FilterDistinct(scan, selects);
      if ids != [] {
        var ok := SignalDeleted(recipient, ids);
      }
    }

    /** The table and the announcements become visible together. */
    method Commit()
      modifies database
      ensures database.rows == rows && database.log == old(database.log) + queue
      ensures database.used == old(database.used) + created
    {
      database.rows := rows;
      database.log := database.log + queue;
      database.used := database.used + created;
    }
  }

  predicate AllFit(signals: seq<Signal>, encode: Signal -> string) {
    forall i :: 0 <= i < |signals| ==> |encode(signals[i])| < PG_NOTIFY_PAYLOAD_LIMIT
  }

  // ---- Loop steps of the specification functions --------------------------------------

  lemma {:induction false} FlattenNext<T>(ss: seq<seq<T>>, i: nat)
    requires i < |ss|
    ensures Flatten(ss[..i + 1]) == Flatten(ss[..i]) + ss[i]
    decreases i
  {
    if i == 0 {
      assert ss[..1][1..] == [];
    } else {
      FlattenNext(ss[1..], i - 1);
      assert ss[..i + 1][1..] == ss[1..][..i] && ss[..i][1..] == ss[1..][..i - 1];
    }
  }

  lemma EnqueueOne(queue: seq<Signal>, s: Signal, encode: Signal -> string)
    ensures EnqueueAll(queue, [s], encode) == Enqueue(queue, s, encode)
  {
    assert [s][1..] == [];
  }

  lemma EnqueueNext(queue: seq<Signal>, batch: seq<Signal>, i: nat, encode: Signal -> string)
    requires i < |batch|
    ensures EnqueueAll(queue, batch[..i + 1], encode)
            == Enqueue(EnqueueAll(queue, batch[..i], encode), batch[i], encode)
  {
    EnqueueAllConcat(queue, batch[..i], [batch[i]], encode);
    EnqueueOne(EnqueueAll(queue, batch[..i], encode), batch[i], encode);
    assert batch[..i + 1] == batch[..i] + [batch[i]];
  }

  /** The next row of a scan is selected or not, and was not visited before. */
  lemma ScanNext(scan: seq<Uuid>, i: nat, keep: Uuid -> bool)
    requires Distinct(scan) && i < |scan|
    ensures Filter(scan[..i + 1], keep) == Filter(scan[..i], keep) + (if keep(scan[i]) then [scan[i]] else [])
    ensures scan[i] !in Filter(scan[..i], keep)
  {
    FilterElements(scan[..i], keep);
    FilterConcat(scan[..i], [scan[i]], keep);
    assert scan[..i + 1] == scan[..i] + [scan[i]];
    assert [scan[i]][1..] == [];
    assert forall k :: 0 <= k < i ==> scan[..i][k] == scan[k];
  }

  lemma EmptyDelete(rows: Table, recipient: Uuid, scan: seq<Uuid>)
    ensures Selected(Write.DeleteNotifications([]), rows, recipient, scan) == []
    ensures Without(rows, []) == rows && DeletedSignals(recipient, []) == []
  {
    NothingSelected(scan, Selecting(Write.DeleteNotifications([]), rows, recipient));
  }

  lemma WriteNext(rows: Table, ids: seq<Uuid>, id: Uuid, at: Time)
    requires id in rows && id !in ids
    ensures SetRead(rows, ids, at)[id := rows[id].(readAt := Some(at))] == SetRead(rows, ids + [id], at)
    ensures Without(rows, ids) - {id} == Without(rows, ids + [id])
  {
  }

  lemma {:induction false} FirstWinsSnoc(minted: seq<Minted>, taken: set<Uuid>, m: Minted)
    ensures FirstWins(minted + [m], taken)
            == FirstWins(minted, taken)
               + if m.recipient in taken || (exists k :: 0 <= k < |minted| && minted[k].recipient == m.recipient)
                 then [] else [m]
  {
    if minted == [] {
      assert [m][1..] == [];
    } else {
      var taken' := if minted[0].recipient in taken then taken else taken + {minted[0].recipient};
      assert (minted + [m])[1..] == minted[1..] + [m];
      FirstWinsSnoc(minted[1..], taken', m);
      assert forall k :: 0 < k < |minted| ==> minted[k] == minted[1..][k - 1];
    }
  }

  lemma FirstWinsNext(minted: seq<Minted>, taken: set<Uuid>, i: nat)
    requires i < |minted|
    ensures FirstWins(minted[..i + 1], taken)
            == FirstWins(minted[..i], taken)
               + if minted[i].recipient in taken + (set k | 0 <= k < i :: minted[k].recipient) then [] else [minted[i]]
  {
    FirstWinsSnoc(minted[..i], taken, minted[i]);
    assert minted[..i + 1] == minted[..i] + [minted[i]];
  }

  lemma {:induction false} AddRowsNext(rows: Table, source: Uuid, body: Body, at: Time, minted: seq<Minted>, m: Minted)
    ensures AddRows(rows, source, body, at, minted + [m])
            == AddRows(rows, source, body, at, minted)[m.id := NewRow(source, body, at, m.recipient)]
    decreases |minted|
  {
    if minted == [] {
      assert [m][1..] == [];
    } else {
      assert (minted + [m])[1..] == minted[1..] + [m];
      AddRowsNext(rows[minted[0].id := NewRow(source, body, at, minted[0].recipient)],
                  source, body, at, minted[1..], m);
    }
  }

  /** One row of the fan-out: it conflicts exactly when its recipient held a row
      or was named before. */
  lemma InsertNext(rows: Table, source: Uuid, body: Body, at: Time, minted: seq<Minted>, i: nat)
    requires FreshIds(minted, rows.Keys) && i < |minted|
    ensures var taken := Taken(rows, source);
      var before, after := FirstWins(minted[..i], taken), FirstWins(minted[..i + 1], taken);
      var now := AddRows(rows, source, body, at, before);
      if HasKey(now, source, minted[i].recipient) then after == before
      else && after == before + [minted[i]]
           && AddRows(rows, source, body, at, after)
              == now[minted[i].id := NewRow(source, body, at, minted[i].recipient)]
  {
    var taken := Taken(rows, source);
    FirstWinsNext(minted, taken, i);
    HasKeyNow(rows, source, body, at, minted[..i], minted[i].recipient);
    AddRowsNext(rows, source, body, at, FirstWins(minted[..i], taken), minted[i]);
  }

  lemma HasKeyNow(rows: Table, source: Uuid, body: Body, at: Time, minted: seq<Minted>, recipient: Uuid)
    requires FreshIds(minted, rows.Keys)
    ensures HasKey(AddRows(rows, source, body, at, FirstWins(minted, Taken(rows, source))), source, recipient)
            <==> recipient in Taken(rows, source) + (set k | 0 <= k < |minted| :: minted[k].recipient)
  {
    var s, c := State(rows, [], rows.Keys), Insert(source, body, at, minted);
    var after := Apply(s, c).rows;
    var winners := Inserting(s, c);
    if HasKey(after, source, recipient) {
      var id :| id in after && after[id].source == source && after[id].recipient == recipient;
      if id !in rows {
        var w :| 0 <= w < |winners| && winners[w].id == id;
        assert winners[w] in winners;
        var k :| 0 <= k < |minted| && minted[k] == winners[w];
      }
    }
    if k: nat :| k < |minted| && minted[k].recipient == recipient {
      EveryoneNamedHasARow(s, c, k);
    } else if HasKey(rows, source, recipient) {
      var id :| id in rows && rows[id].source == source && rows[id].recipient == recipient;
      assert after[id] == rows[id];
    }
  }
}
