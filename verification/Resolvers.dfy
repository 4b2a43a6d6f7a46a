/** The write resolvers: who calls, which ids the request names, and a scoped
    transaction that is committed, or dropped with everything it did. */
module Resolvers {
  import opened Prelude
  import opened Signals
  import opened Store
  import opened Views
  import opened Operations
  import opened Transactions
  import Uuids

  datatype Reply = Answered(answer: Answer) | BadUserInput

  /** A caller without an inbox is refused before the request is read. */
  function Respond(s: State, caller: Passport, request: Option<Write>): Reply {
    if ResolveRecipient(caller).None? then Answered(Forbidden)
    else if request.None? then BadUserInput
    else Answered(AnswerTo(s, caller, request.value))
  }

  function Perform(s: State, caller: Passport, request: Option<Write>, scan: seq<Uuid>): State {
    if request.None? then s else Execute(s, Mutate(caller, request.value, scan))
  }

  function ReadRequest(id: Option<Uuid>, now: Time): Option<Write> {
    if id.Some? then Some(Write.MarkAsRead(id.value, now)) else None
  }

  function DeleteRequest(id: Option<Uuid>): Option<Write> {
    if id.Some? then Some(Write.DeleteNotification(id.value)) else None
  }

  function BulkDeleteRequest(ids: Option<seq<Uuid>>): Option<Write> {
    if ids.Some? then Some(Write.DeleteNotifications(ids.value)) else None
  }

  /** All the texts parse, or none counts. */
  function ParseIds(texts: seq<string>): (r: Option<seq<Uuid>>)
    ensures r.Some? <==> forall i :: 0 <= i < |texts| ==> Uuids.Parse(texts[i]).Some?
    ensures r.Some? ==> |r.value| == |texts|
                        && forall i :: 0 <= i < |texts| ==> Uuids.Parse(texts[i]) == Some(r.value[i])
  {
    Collect(texts, Uuids.Parse)
  }

  method NotifierMarkAsRead(
      db: Database, caller: Passport, notificationId: string, now: Time, scan: seq<Uuid>, show: Time -> string)
    returns (reply: Reply)
    requires IsScan(scan, db.rows) && forall t :: |show(t)| <= LONGEST_INSTANT
    modifies db
    ensures reply == Respond(old(db.Model()), caller, ReadRequest(Uuids.Parse(notificationId), now))
    ensures db.Model() == Perform(old(db.Model()), caller, ReadRequest(Uuids.Parse(notificationId), now), scan)
  {
    match ResolveRecipient(caller) {
      case None => return Answered(Forbidden);
      case Some(recipient) =>
        var parsed := Uuids.Parse(notificationId);
        if parsed.None? {
          return BadUserInput;
        }
        var id := parsed.value;
        var tx := new Transaction(db, Some(recipient), show);
        var outcome := tx.MarkAsRead(recipient, id, now);
        SingleRead(db.Model(), caller, recipient, id, now, scan);
        match outcome {
          case None =>
            return Answered(NotFound);
          case Some(read) =>
            tx.Commit();
            return Answered(Acked);
        }
    }
  }

  method NotifierMarkAllAsRead(db: Database, caller: Passport, now: Time, scan: seq<Uuid>, show: Time -> string)
    returns (reply: Reply)
    requires IsScan(scan, db.rows) && forall t :: |show(t)| <= LONGEST_INSTANT
    modifies db
    ensures reply == Respond(old(db.Model()), caller, Some(Write.MarkAllAsRead(now)))
    ensures db.Model() == Perform(old(db.Model()), caller, Some(Write.MarkAllAsRead(now)), scan)
  {
    match ResolveRecipient(caller) {
      case None => return Answered(Forbidden);
      case Some(recipient) =>
        var tx := new Transaction(db, Some(recipient), show);
        var ids := tx.MarkAllAsRead(recipient, now, scan);
        tx.Commit();
        return Answered(Acked);
    }
  }

  method NotifierDeleteNotification(
      db: Database, caller: Passport, notificationId: string, scan: seq<Uuid>, show: Time -> string)
    returns (reply: Reply)
    requires IsScan(scan, db.rows) && forall t :: |show(t)| <= LONGEST_INSTANT
    modifies db
    ensures reply == Respond(old(db.Model()), caller, DeleteRequest(Uuids.Parse(notificationId)))
    ensures db.Model() == Perform(old(db.Model()), caller, DeleteRequest(Uuids.Parse(notificationId)), scan)
  {
    match ResolveRecipient(caller) {
      case None => return Answered(Forbidden);
      case Some(recipient) =>
        var parsed := Uuids.Parse(notificationId);
        if parsed.None? {
          return BadUserInput;
        }
        var id := parsed.value;
        var tx := new Transaction(db, Some(recipient), show);
        var deleted := tx.DeleteNotifications(recipient, [id], scan);
        SingleDelete(db.Model(), caller, recipient, id, scan);
        BulkSelectsOnly(db.rows, recipient, id, scan);
        if deleted == [] {
          return Answered(NotFound);
        }
        tx.Commit();
        return Answered(Acked);
    }
  }

  method NotifierDeleteNotifications(
      db: Database, caller: Passport, texts: seq<string>, scan: seq<Uuid>, show: Time -> string)
    returns (reply: Reply)
    requires IsScan(scan, db.rows) && forall t :: |show(t)| <= LONGEST_INSTANT
    modifies db
    ensures reply == Respond(old(db.Model()), caller, BulkDeleteRequest(ParseIds(texts)))
    ensures db.Model() == Perform(old(db.Model()), caller, BulkDeleteRequest(ParseIds(texts)), scan)
  {
    match ResolveRecipient(caller) {
      case None => return Answered(Forbidden);
      case Some(recipient) =>
        var ids := ParseIds(texts);
        if ids.None? {
          return BadUserInput;
        }
        var tx := new Transaction(db, Some(recipient), show);
        var deleted := tx.DeleteNotifications(recipient, ids.value, scan);
        tx.Commit();
        return Answered(Acked);
    }
  }

  /** A request that is not acked changes nothing at all. */
  lemma RefusedRequestsWriteNothing(s: State, caller: Passport, request: Option<Write>, scan: seq<Uuid>)
    requires Respond(s, caller, request) != Answered(Acked)
    ensures Perform(s, caller, request, scan) == s
  {
    if request.Some? {
      UnackedWritesNothing(s, Mutate(caller, request.value, scan));
    }
  }

  // ---- Who may do what to which rows ------------------------------------------------------

  /** An ordinary human acts for themself, an impersonating one still for
      themself: the impersonator. */
  predicate ActsAs(caller: Passport, who: Uuid) {
    caller == Human(who, None) || (caller.Human? && caller.impersonator == Some(who))
  }

  lemma ActsAsResolves(caller: Passport, who: Uuid)
    ensures ActsAs(caller, who) <==> ResolveRecipient(caller) == Some(who)
    ensures caller.Service? <==> ResolveRecipient(caller) == None
  {
  }

  /** A service is refused whatever it asks for, before the request is read. */
  lemma ServicesAreForbidden(s: State, service: Uuid, request: Option<Write>, scan: seq<Uuid>)
    ensures Respond(s, Service(service), request) == Answered(Forbidden)
    ensures Perform(s, Service(service), request, scan) == s
  {
  }

  /** A human whose ids do not parse is told so, and nothing happens. */
  lemma UnreadableRequests(s: State, caller: Passport, who: Uuid, scan: seq<Uuid>)
    requires ActsAs(caller, who)
    ensures Respond(s, caller, None) == BadUserInput && Perform(s, caller, None, scan) == s
  {
  }

  /** Marking one: NOT_FOUND exactly for a row that is not the caller's; an unread
      row of the caller's becomes read now; nothing else changes. */
  lemma MarkOneDoes(s: State, caller: Passport, who: Uuid, id: Uuid, now: Time, scan: seq<Uuid>)
    requires ActsAs(caller, who) && IsScan(scan, s.rows)
    ensures Respond(s, caller, ReadRequest(Some(id), now))
            == if id in s.rows && s.rows[id].recipient == who then Answered(Acked) else Answered(NotFound)
    ensures var t := Perform(s, caller, ReadRequest(Some(id), now), scan);
      && t.rows.Keys == s.rows.Keys && t.used == s.used
      && (forall o :: o in s.rows ==>
            t.rows[o] == if o == id && s.rows[o].recipient == who && s.rows[o].readAt.None?
                         then s.rows[o].(readAt := Some(now)) else s.rows[o])
  {
    ActsAsResolves(caller, who);
    SingleRead(s, caller, who, id, now, scan);
  }

  /** Marking all: every unread row of the caller's, and no other, becomes read now. */
  lemma MarkAllDoes(s: State, caller: Passport, who: Uuid, now: Time, scan: seq<Uuid>)
    requires ActsAs(caller, who) && IsScan(scan, s.rows)
    ensures Respond(s, caller, Some(Write.MarkAllAsRead(now))) == Answered(Acked)
    ensures var t := Perform(s, caller, Some(Write.MarkAllAsRead(now)), scan);
      && t.rows.Keys == s.rows.Keys && t.used == s.used
      && (forall o :: o in s.rows ==>
            t.rows[o] == if s.rows[o].recipient == who && s.rows[o].readAt.None?
                         then s.rows[o].(readAt := Some(now)) else s.rows[o])
  {
    ActsAsResolves(caller, who);
    FilterElements(scan, Selecting(Write.MarkAllAsRead(now), s.rows, who));
  }

  /** Deleting one: NOT_FOUND exactly for a row that is not the caller's; otherwise
      that row goes, and no other. */
  lemma DeleteOneDoes(s: State, caller: Passport, who: Uuid, id: Uuid, scan: seq<Uuid>)
    requires ActsAs(caller, who) && IsScan(scan, s.rows)
    ensures Respond(s, caller, DeleteRequest(Some(id)))
            == if id in s.rows && s.rows[id].recipient == who then Answered(Acked) else Answered(NotFound)
    ensures var t := Perform(s, caller, DeleteRequest(Some(id)), scan);
      && t.used == s.used
      && t.rows == map o | o in s.rows && !(o == id && s.rows[o].recipient == who) :: s.rows[o]
  {
    ActsAsResolves(caller, who);
    SingleDelete(s, caller, who, id, scan);
  }

  /** Deleting several: the caller's rows among them go, no other; always acked. */
  lemma DeleteManyDoes(s: State, caller: Passport, who: Uuid, ids: seq<Uuid>, scan: seq<Uuid>)
    requires ActsAs(caller, who) && IsScan(scan, s.rows)
    ensures Respond(s, caller, BulkDeleteRequest(Some(ids))) == Answered(Acked)
    ensures var t := Perform(s, caller, BulkDeleteRequest(Some(ids)), scan);
      && t.used == s.used
      && t.rows == map o | o in s.rows && !(o in ids && s.rows[o].recipient == who) :: s.rows[o]
  {
    ActsAsResolves(caller, who);
    FilterElements(scan, Selecting(Write.DeleteNotifications(ids), s.rows, who));
  }

  // ---- How many events a bulk mutation announces -------------------------------------------

  lemma {:induction false} FilterCount(scan: seq<Uuid>, keep: Uuid -> bool)
    requires Distinct(scan)
    ensures |Filter(scan, keep)| == |set x | x in scan && keep(x)|
  {
    if scan != [] {
      FilterCount(scan[1..], keep);
      assert scan[0] !in scan[1..];
      var rest := set x | x in scan[1..] && keep(x);
      assert (set x | x in scan && keep(x)) == if keep(scan[0]) then {scan[0]} + rest else rest;
    }
  }

  lemma ChunkedEvents(recipient: Uuid, ids: seq<Uuid>, at: Time)
    ensures |ReadSignals(recipient, ids, at)| == CeilDiv150(|ids|)
    ensures |DeletedSignals(recipient, ids)| == CeilDiv150(|ids|)
  {
    FewestChunks(ids);
  }

  /** The caller's rows among the ids given, however often they are named. */
  function OwnedAmong(rows: Table, recipient: Uuid, ids: seq<Uuid>): nat {
    |set id | id in ids && OwnedBy(rows, recipient, id)|
  }

  /** Marking everything read announces one event per 150 rows the caller had
      unread: exactly one for 1 to 150 of them, none when there was none. */
  lemma MarkAllEvents(s: State, caller: Passport, recipient: Uuid, now: Time, scan: seq<Uuid>)
    requires IsScan(scan, s.rows) && ResolveRecipient(caller) == Some(recipient)
    ensures var unread, t := UnreadCount(s.rows, recipient), Execute(s, Mutate(caller, Write.MarkAllAsRead(now), scan));
      && |t.log| == |s.log| + CeilDiv150(unread)
      && (|t.log| == |s.log| + 1 <==> 1 <= unread <= 150)
      && (t.log == s.log <==> unread == 0)
  {
    var keep := Selecting(Write.MarkAllAsRead(now), s.rows, recipient);
    FilterCount(scan, keep);
    assert (set id | id in scan && keep(id))
           == (set id | id in s.rows && s.rows[id].readAt.None? && s.rows[id].recipient == recipient);
    ChunkedEvents(recipient, Filter(scan, keep), now);
  }

  lemma OwnedAmongScan(rows: Table, recipient: Uuid, ids: seq<Uuid>, scan: seq<Uuid>)
    requires IsScan(scan, rows)
    ensures (set id | id in scan && Selects(Write.DeleteNotifications(ids), rows, recipient, id))
            == (set id | id in ids && OwnedBy(rows, recipient, id))
  {
  }

  /** Deleting announces one event per 150 rows of the caller's among the ids. */
  lemma DeleteEvents(s: State, caller: Passport, recipient: Uuid, ids: seq<Uuid>, scan: seq<Uuid>)
    requires IsScan(scan, s.rows) && ResolveRecipient(caller) == Some(recipient)
    ensures var own := OwnedAmong(s.rows, recipient, ids);
      var t := Execute(s, Mutate(caller, Write.DeleteNotifications(ids), scan));
      && |t.log| == |s.log| + CeilDiv150(own)
      && (|t.log| == |s.log| + 1 <==> 1 <= own <= 150)
      && (t.log == s.log <==> own == 0)
  {
    var keep := Selecting(Write.DeleteNotifications(ids), s.rows, recipient);
    FilterCount(scan, keep);
    OwnedAmongScan(s.rows, recipient, ids, scan);
    assert (set id | id in scan && keep(id))
           == (set id | id in scan && Selects(Write.DeleteNotifications(ids), s.rows, recipient, id));
    ChunkedEvents(recipient, Filter(scan, keep), 0);
  }

  // ---- A single id over a scan ---------------------------------------------------------

  lemma {:induction false} FilterOnly(scan: seq<Uuid>, keep: Uuid -> bool, id: Uuid)
    requires Distinct(scan) && (forall x :: x in scan && keep(x) ==> x == id)
    ensures Filter(scan, keep) == if id in scan && keep(id) then [id] else []
  {
    if scan != [] {
      FilterOnly(scan[1..], keep, id);
      assert id in scan <==> scan[0] == id || id in scan[1..];
      assert scan[0] !in scan[1..];
    }
  }

  /** Marking one id: its row and its announcement if it is the caller's and
      unread, nothing otherwise. */
  lemma SingleRead(s: State, caller: Passport, recipient: Uuid, id: Uuid, now: Time, scan: seq<Uuid>)
    requires IsScan(scan, s.rows) && ResolveRecipient(caller) == Some(recipient)
    ensures Execute(s, Mutate(caller, Write.MarkAsRead(id, now), scan))
            == if UnreadOf(s.rows, recipient, id)
               then State(SetRead(s.rows, [id], now), s.log + ReadSignals(recipient, [id], now), s.used) else s
  {
    FilterOnly(scan, Selecting(Write.MarkAsRead(id, now), s.rows, recipient), id);
    assert SetRead(s.rows, [], now) == s.rows && s.log + ReadSignals(recipient, [], now) == s.log;
  }

  lemma SelectsOnly(rows: Table, recipient: Uuid, id: Uuid, scan: seq<Uuid>)
    requires IsScan(scan, rows)
    ensures Selected(Write.DeleteNotification(id), rows, recipient, scan)
            == if OwnedBy(rows, recipient, id) then [id] else []
  {
    FilterOnly(scan, Selecting(Write.DeleteNotification(id), rows, recipient), id);
  }

  /** The bulk statement over one id selects what the single delete does. */
  lemma BulkSelectsOnly(rows: Table, recipient: Uuid, id: Uuid, scan: seq<Uuid>)
    requires IsScan(scan, rows)
    ensures Selected(Write.DeleteNotifications([id]), rows, recipient, scan)
            == if OwnedBy(rows, recipient, id) then [id] else []
  {
    FilterOnly(scan, Selecting(Write.DeleteNotifications([id]), rows, recipient), id);
  }

  lemma DeletingNothing(s: State, recipient: Uuid)
    ensures Apply(s, Delete(recipient, [])) == s
  {
    assert Without(s.rows, []) == s.rows && s.log + DeletedSignals(recipient, []) == s.log;
  }

  /** Deleting one id: its row and its announcement if it is the caller's, nothing
      otherwise. */
  lemma SingleDelete(s: State, caller: Passport, recipient: Uuid, id: Uuid, scan: seq<Uuid>)
    requires IsScan(scan, s.rows) && ResolveRecipient(caller) == Some(recipient)
    ensures Execute(s, Mutate(caller, Write.DeleteNotification(id), scan))
            == if OwnedBy(s.rows, recipient, id)
               then State(Without(s.rows, [id]), s.log + DeletedSignals(recipient, [id]), s.used) else s
  {
    SelectsOnly(s.rows, recipient, id, scan);
    DeletingNothing(s, recipient);
  }
}
