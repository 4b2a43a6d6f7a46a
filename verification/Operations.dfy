/** The service's write operations, one transaction each: who is acting, which
    commit the transaction makes of the table it sees, and what the caller is
    told. */
module Operations {
  import opened Prelude
  import opened Signals
  import opened Store

  datatype Passport =
    | Human(userId: Uuid, impersonator: Option<Uuid>)
    | Service(serviceId: Uuid)

  /** The acting human owns the notifications, never the impersonated one; a
      service is no recipient. */
  function ResolveRecipient(p: Passport): Option<Uuid> {
    match p
    case Human(userId, impersonator) => Some(if impersonator.Some? then impersonator.value else userId)
    case Service(_) => None
  }

  datatype Write =
    | MarkAsRead(id: Uuid, at: Time)
    | MarkAllAsRead(at: Time)
    | DeleteNotification(id: Uuid)
    | DeleteNotifications(ids: seq<Uuid>)

  /** `scan` is the order in which the database happens to visit the table. */
  datatype Operation =
    | Deliver(source: Uuid, body: Body, at: Time, minted: seq<Minted>)
    | Mutate(caller: Passport, write: Write, scan: seq<Uuid>)

  /** What marking one notification reports when it is the caller's. */
  datatype ReadOutcome = Transitioned | AlreadyRead

  datatype Answer = Acked | NotFound | Forbidden

  predicate Selects(write: Write, rows: Table, recipient: Uuid, id: Uuid) {
    match write
    case MarkAsRead(only, _) => id == only && UnreadOf(rows, recipient, id)
    case MarkAllAsRead(_) => UnreadOf(rows, recipient, id)
    case DeleteNotification(only) => id == only && OwnedBy(rows, recipient, id)
    case DeleteNotifications(ids) => id in ids && OwnedBy(rows, recipient, id)
  }

  function Selecting(write: Write, rows: Table, recipient: Uuid): Uuid -> bool {
    id => Selects(write, rows, recipient, id)
  }

  /** The ids a write returns: the rows it selects, in scan order. */
  function Selected(write: Write, rows: Table, recipient: Uuid, scan: seq<Uuid>): seq<Uuid> {
    Filter(scan, Selecting(write, rows, recipient))
  }

  function CommitFor(write: Write, recipient: Uuid, ids: seq<Uuid>): Commit {
    match write
    case MarkAsRead(_, at) => MarkRead(recipient, ids, at)
    case MarkAllAsRead(at) => MarkRead(recipient, ids, at)
    case DeleteNotification(_) => Delete(recipient, ids)
    case DeleteNotifications(_) => Delete(recipient, ids)
  }

  /** The commit an operation makes of a state; a refused caller makes none. */
  function CommitOf(s: State, op: Operation): Option<Commit> {
    match op
    case Deliver(source, body, at, minted) => Some(Insert(source, body, at, minted))
    case Mutate(caller, write, scan) =>
      match ResolveRecipient(caller)
      case None => None
      case Some(r) => Some(CommitFor(write, r, Selected(write, s.rows, r, scan)))
  }

  function Execute(s: State, op: Operation): State {
    match CommitOf(s, op)
    case None => s
    case Some(c) => Apply(s, c)
  }

  /** A single-id mutation on an id that is not the caller's is NOT_FOUND. */
  function AnswerTo(s: State, caller: Passport, write: Write): Answer {
    match ResolveRecipient(caller)
    case None => Forbidden
    case Some(r) =>
      match write
      case MarkAsRead(id, _) => if OwnedBy(s.rows, r, id) then Acked else NotFound
      case DeleteNotification(id) => if OwnedBy(s.rows, r, id) then Acked else NotFound
      case _ => Acked
  }

  predicate IsScan(scan: seq<Uuid>, rows: Table) {
    Distinct(scan) && forall id :: id in rows ==> id in scan
  }

  predicate Possible(s: State, op: Operation) {
    match op
    case Deliver(_, _, _, minted) => FreshIds(minted, s.used)
    case Mutate(_, _, scan) => IsScan(scan, s.rows)
  }

  function ExecuteAll(ops: seq<Operation>): State {
    if ops == [] then EMPTY else Execute(ExecuteAll(ops[..|ops| - 1]), ops[|ops| - 1])
  }

  predicate PossibleRun(ops: seq<Operation>) {
    ops == [] || (PossibleRun(ops[..|ops| - 1]) && Possible(ExecuteAll(ops[..|ops| - 1]), ops[|ops| - 1]))
  }

  /** What a transaction commits is always a valid commit of the table it saw. */
  lemma OperationsAreCommits(s: State, op: Operation)
    requires Possible(s, op) && CommitOf(s, op).Some?
    ensures Valid(s, CommitOf(s, op).value)
  {
    if op.Mutate? {
      var r := ResolveRecipient(op.caller).value;
      FilterElements(op.scan, Selecting(op.write, s.rows, r));
      FilterDistinct(op.scan, Selecting(op.write, s.rows, r));
    }
  }

  /** Every run of operations is a run of commits. */
  lemma {:induction false} OperationsRefineRuns(ops: seq<Operation>) returns (cs: seq<Commit>)
    requires PossibleRun(ops)
    ensures ValidRun(cs) && Replay(cs) == ExecuteAll(ops)
  {
    if ops == [] {
      cs := [];
    } else {
      var s, op := ExecuteAll(ops[..|ops| - 1]), ops[|ops| - 1];
      cs := OperationsRefineRuns(ops[..|ops| - 1]);
      if CommitOf(s, op).Some? {
        OperationsAreCommits(s, op);
        ReplayAppend(cs, CommitOf(s, op).value);
        cs := cs + [CommitOf(s, op).value];
      }
    }
  }

  /** A refused or NOT_FOUND mutation leaves no trace. */
  lemma UnackedWritesNothing(s: State, op: Operation)
    requires op.Mutate? && AnswerTo(s, op.caller, op.write) != Acked
    ensures Execute(s, op) == s
  {
    match CommitOf(s, op) {
      case None =>
      case Some(c) =>
        var ids := Selected(op.write, s.rows, c.recipient, op.scan);
        NothingSelected(op.scan, Selecting(op.write, s.rows, c.recipient));
        assert ids == [];
        assert SetRead(s.rows, [], 0) == s.rows && Without(s.rows, []) == s.rows;
        assert s.log + [] == s.log;
        if c.MarkRead? {
          assert SetRead(s.rows, [], c.at) == s.rows;
        }
    }
  }

  lemma {:induction false} NothingSelected(s: seq<Uuid>, keep: Uuid -> bool)
    requires forall x :: x in s ==> !keep(x)
    ensures Filter(s, keep) == []
  {
    if s != [] {
      NothingSelected(s[1..], keep);
    }
  }
}
