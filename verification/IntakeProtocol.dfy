/** The intake as a state machine over a broker, the store, the dead-letter ledger
    and the process's own metrics, under an environment that may fail a write,
    commit it and lose the answer, lose a settlement, redeliver and restart. */
module IntakeProtocol {
  import opened Prelude
  import opened Store
  import opened Wire

  // ---- Frames and answers ------------------------------------------------------------

  datatype Trace = Trace(
    correlationId: Uuid, causationId: Option<Uuid>, humanActor: bool, actorId: Uuid)

  datatype Envelope = Envelope(commandId: Uuid, trace: Trace, payload: Json)

  datatype Frame = Unreadable | Readable(envelope: Envelope)

  datatype Settlement = Pending | Acked | Terminated

  datatype Delivery = Delivery(frame: Frame, settlement: Settlement)

  datatype FailureClass = Transient | Poison

  datatype Verdict = Written | Failed(kind: FailureClass) | NotAttempted

  /** What the broker is asked to do; a hold carries its redelivery delay. */
  datatype Outcome = Ack | Nak(seconds: nat) | Term

  const NAK_DELAY := 1
  const UNDECODABLE_NAK_DELAY := 30

  /** How a write against the database ended: answered, refused without effect, or
      committed with its answer lost. An error carries a SQLSTATE if it has one. */
  datatype Fate =
    | Answered
    | Refused(sqlstate: Option<string>)
    | AnswerLost(sqlstate: Option<string>)

  predicate Committed(fate: Fate) {
    !fate.Refused?
  }

  /** SQLSTATE classes 22 and 23 can never succeed on retry; nothing else is final. */
  function ClassifySqlstate(sqlstate: Option<string>): FailureClass {
    if sqlstate.Some? && ("22" <= sqlstate.value || "23" <= sqlstate.value) then Poison else Transient
  }

  function OutcomeFor(failure: Option<FailureClass>): Outcome {
    match failure
    case None => Ack
    case Some(Transient) => Nak(NAK_DELAY)
    case Some(Poison) => Term
  }

  // ---- State ------------------------------------------------------------------------

  datatype DeadLetter = DeadLetter(
    sourceEventId: Option<Uuid>, recipientIds: seq<Uuid>, command: Json, reason: Reason,
    sqlstate: Option<string>, trace: Trace, recordedAt: Time)

  datatype Metrics = Metrics(
    deadLetters: nat, transientFailures: nat, undecodable: nat, ledgerFailures: nat, streak: nat,
    purgePasses: nat, purged: nat, purgeFailures: nat)

  const FRESH_METRICS := Metrics(0, 0, 0, 0, 0, 0, 0, 0)

  datatype Purged = Purged(commandId: Uuid, row: DeadLetter, at: Time)

  /** What happened, for stating properties: the keys that ever had a committed row,
      the ledger rows ever committed and ever purged; and, since the last restart,
      the verdicts, the ledger rows committed, those whose answer was lost, how many
      were purged before it and how many by a pass whose answer was lost. */
  datatype History = History(
    delivered: set<(Uuid, Uuid)>, recorded: nat, purges: seq<Purged>,
    verdicts: seq<Verdict>, recordedNow: nat, lostNow: nat, purgesBefore: nat, purgesLost: nat)

  datatype System = System(
    broker: map<nat, Delivery>, store: State, ledger: map<Uuid, DeadLetter>, clock: Time,
    metrics: Metrics, history: History)

  const START := System(map[], EMPTY, map[], 0, FRESH_METRICS, History({}, 0, [], [], 0, 0, 0, 0))

  /** One delivery's circumstances: the ids minted, the rows' timestamp, how the
      two possible writes end, whether the settlement reaches the broker. */
  datatype Weather = Weather(ids: seq<Uuid>, createdAt: Time, write: Fate, ledger: Fate, settled: bool)

  datatype Step =
    | Publish(id: nat, frame: Frame)
    | Deliver(id: nat, weather: Weather)
    | Restart
    | Purge(rows: seq<Uuid>, fate: Fate)
    | Tick(elapsed: nat)
    | Mutate(commit: Commit)

  // ---- One delivery -----------------------------------------------------------------

  function Mint(ids: seq<Uuid>, recipients: seq<Uuid>): seq<Minted>
    requires |ids| == |recipients|
  {
    seq(|ids|, i requires 0 <= i < |ids| => Minted(ids[i], recipients[i]))
  }

  function FanOut(command: DeliverNotification, w: Weather): Commit
    requires |w.ids| == |command.recipientIds|
  {
    Insert(command.sourceEventId, Body(command.template, command.payload, command.link), w.createdAt,
           Mint(w.ids, command.recipientIds))
  }

  function KeysOf(command: DeliverNotification): set<(Uuid, Uuid)> {
    set r | r in command.recipientIds :: (command.sourceEventId, r)
  }

  /** The fan-out's transaction, as far as it got. */
  function AfterWrite(s: System, command: DeliverNotification, w: Weather): System
    requires |w.ids| == |command.recipientIds|
  {
    if Committed(w.write)
    then s.(store := Apply(s.store, FanOut(command, w)),
            history := s.history.(delivered := s.history.delivered + KeysOf(command)))
    else s
  }

  /** The ledger insert: the first trace under a command id wins. */
  function AfterRecord(s: System, commandId: Uuid, row: DeadLetter, fate: Fate): System {
    if Committed(fate) && commandId !in s.ledger
    then s.(ledger := s.ledger[commandId := row],
            history := s.history.(recorded := s.history.recorded + 1,
                                  recordedNow := s.history.recordedNow + 1,
                                  lostNow := s.history.lostNow + if fate.AnswerLost? then 1 else 0))
    else s
  }

  /** `abandon`: record, count what was newly recorded, and only then call it
      poison; a ledger that does not answer degrades the abandonment to a hold. */
  function Abandon(s: System, commandId: Uuid, row: DeadLetter, fate: Fate): (r: (System, FailureClass))
    ensures r.0.broker == s.broker
  {
    var s' := AfterRecord(s, commandId, row, fate);
    if !fate.Answered?
    then (s'.(metrics := s'.metrics.(ledgerFailures := s'.metrics.ledgerFailures + 1)), Transient)
    else if commandId in s.ledger then (s', Poison)
    else (s'.(metrics := s'.metrics.(deadLetters := s'.metrics.deadLetters + 1)), Poison)
  }

  /** What the ledger keeps of a command refused before any write: the ids its
      payload still yields. */
  function RefusalRow(s: System, e: Envelope, reason: Reason): DeadLetter {
    DeadLetter(TracedSourceEventId(e.payload), TracedRecipientIds(e.payload), e.payload, reason, None, e.trace, s.clock)
  }

  /** What it keeps of a command whose write can never succeed. */
  function StorageRow(s: System, e: Envelope, command: DeliverNotification, sqlstate: Option<string>): DeadLetter {
    DeadLetter(Some(command.sourceEventId), command.recipientIds, e.payload, StorageRejected, sqlstate, e.trace,
               s.clock)
  }

  function Triage(s: System, e: Envelope, command: DeliverNotification, sqlstate: Option<string>, w: Weather)
    : (r: (System, FailureClass))
    ensures r.0.broker == s.broker
  {
    match ClassifySqlstate(sqlstate)
    case Transient => (s, Transient)
    case Poison =>
      Abandon(s, e.commandId, StorageRow(s, e, command, sqlstate), w.ledger)
  }

  /** Validation, then the write or the abandonment: the failure to settle on. */
  function Process(s: System, e: Envelope, w: Weather): (r: (System, Option<FailureClass>))
    requires WeatherFits(s, e.payload, w)
    ensures r.0.broker == s.broker
  {
    match Validate(e.payload)
    case Err(reason) =>
      var (s', kind) := Abandon(s, e.commandId, RefusalRow(s, e, reason), w.ledger);
      (s', Some(kind))
    case Ok(command) =>
      var written := AfterWrite(s, command, w);
      match w.write
      case Answered => (written, None)
      case Refused(sqlstate) =>
        var (s', kind) := Triage(written, e, command, sqlstate, w);
        (s', Some(kind))
      case AnswerLost(sqlstate) =>
        var (s', kind) := Triage(written, e, command, sqlstate, w);
        (s', Some(kind))
  }

  function Settled(settlement: Settlement, outcome: Outcome): Settlement {
    match outcome
    case Ack => Acked
    case Term => Terminated
    case Nak(_) => Pending
  }

  /** `apply`: a settlement that does not reach the broker leaves the frame to be
      redelivered; the broker ignores one for a frame it has already settled, which
      a redelivery under way at the time still brings. */
  function Settle(s: System, id: nat, outcome: Outcome, reached: bool): System
    requires id in s.broker
  {
    if reached && s.broker[id].settlement == Pending
    then s.(broker := s.broker[id := s.broker[id].(settlement := Settled(s.broker[id].settlement, outcome))])
    else s
  }

  function TransientStreakAfter(verdict: Verdict, streak: nat): nat {
    match verdict
    case NotAttempted => streak
    case Written => 0
    case Failed(Poison) => 0
    case Failed(Transient) => streak + 1
  }

  function Observe(s: System, verdict: Verdict): System {
    var counted := if verdict == Failed(Transient) then 1 else 0;
    s.(metrics := s.metrics.(transientFailures := s.metrics.transientFailures + counted,
                             streak := TransientStreakAfter(verdict, s.metrics.streak)),
       history := s.history.(verdicts := s.history.verdicts + [verdict]))
  }

  /** Settle the frame on the failure, then observe the verdict. */
  function Conclude(s: System, id: nat, failure: Option<FailureClass>, reached: bool): System
    requires id in s.broker
  {
    var verdict := match failure case None => Written case Some(c) => Failed(c);
    Observe(Settle(s, id, OutcomeFor(failure), reached), verdict)
  }

  function HandleUnreadable(s: System, id: nat, reached: bool): System
    requires id in s.broker
  {
    var counted := s.(metrics := s.metrics.(undecodable := s.metrics.undecodable + 1));
    Observe(Settle(counted, id, Nak(UNDECODABLE_NAK_DELAY), reached), NotAttempted)
  }

  function Handle(s: System, id: nat, w: Weather): System
    requires id in s.broker
    requires s.broker[id].frame.Readable? ==> WeatherFits(s, s.broker[id].frame.envelope.payload, w)
  {
    match s.broker[id].frame
    case Unreadable => HandleUnreadable(s, id, w.settled)
    case Readable(e) =>
      var (s', failure) := Process(s, e, w);
      Conclude(s', id, failure, w.settled)
  }

  // ---- Steps ------------------------------------------------------------------------

  /** An id is minted per named recipient, each new. */
  predicate WeatherFits(s: System, payload: Json, w: Weather) {
    Validate(payload).Ok? ==>
      && |w.ids| == |Validate(payload).value.recipientIds|
      && FreshIds(Mint(w.ids, Validate(payload).value.recipientIds), s.store.used)
  }

  const DAY: nat := 24 * 60 * 60 * 1_000_000
  const DEAD_LETTER_RETENTION: nat := 90 * DAY

  predicate Expired(row: DeadLetter, clock: Time) {
    row.recordedAt < clock - DEAD_LETTER_RETENTION
  }

  /** `rows` lists the expired rows, in the order the database visits them. */
  predicate ListsExpired(ledger: map<Uuid, DeadLetter>, clock: Time, rows: seq<Uuid>) {
    Distinct(rows) && forall c :: c in rows <==> c in ledger && Expired(ledger[c], clock)
  }

  function Kept(ledger: map<Uuid, DeadLetter>, rows: seq<Uuid>): map<Uuid, DeadLetter> {
    map c | c in ledger && c !in rows :: ledger[c]
  }

  function PurgedRows(ledger: map<Uuid, DeadLetter>, clock: Time, rows: seq<Uuid>): seq<Purged>
    requires forall c :: c in rows ==> c in ledger
  {
    seq(|rows|, i requires 0 <= i < |rows| => Purged(rows[i], ledger[rows[i]], clock))
  }

  /** The retention pass. */
  function PurgePass(s: System, rows: seq<Uuid>, fate: Fate): System
    requires ListsExpired(s.ledger, s.clock, rows)
  {
    var counted := if fate.Answered?
                   then s.metrics.(purgePasses := s.metrics.purgePasses + 1, purged := s.metrics.purged + |rows|)
                   else s.metrics.(purgeFailures := s.metrics.purgeFailures + 1);
    if Committed(fate)
    then s.(ledger := Kept(s.ledger, rows), metrics := counted,
            history := s.history.(purges := s.history.purges + PurgedRows(s.ledger, s.clock, rows),
                                  purgesLost := s.history.purgesLost + if fate.AnswerLost? then |rows| else 0))
    else s.(metrics := counted)
  }

  predicate Enabled(s: System, step: Step) {
    match step
    case Publish(id, _) => id !in s.broker
    case Deliver(id, w) =>
      && id in s.broker
      && (s.broker[id].frame.Readable? ==> WeatherFits(s, s.broker[id].frame.envelope.payload, w))
    case Purge(rows, _) => ListsExpired(s.ledger, s.clock, rows)
    case Mutate(c) => !c.Insert? && Valid(s.store, c)
    case _ => true
  }

  function Next(s: System, step: Step): System
    requires Enabled(s, step)
  {
    match step
    case Publish(id, frame) => s.(broker := s.broker[id := Delivery(frame, Pending)])
    case Deliver(id, w) => Handle(s, id, w)
    case Restart =>
      s.(metrics := FRESH_METRICS,
         history := s.history.(verdicts := [], recordedNow := 0, lostNow := 0,
                               purgesBefore := |s.history.purges|, purgesLost := 0))
    case Purge(rows, fate) => PurgePass(s, rows, fate)
    case Tick(elapsed) => s.(clock := s.clock + elapsed)
    case Mutate(c) => s.(store := Apply(s.store, c))
  }

  function Run(steps: seq<Step>): Option<System> {
    if steps == [] then Some(START) else
      match Run(steps[..|steps| - 1])
      case Some(s) => if Enabled(s, steps[|steps| - 1]) then Some(Next(s, steps[|steps| - 1])) else None
      case None => None
  }

  predicate Runs(steps: seq<Step>) {
    Run(steps).Some?
  }

  function After(steps: seq<Step>): System
    requires Runs(steps)
  {
    Run(steps).value
  }
}
