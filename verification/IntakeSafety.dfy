/** What every run of the intake keeps, whatever the environment does. */
module IntakeSafety {
  import opened Prelude
  import opened Store
  import opened Wire
  import opened IntakeProtocol

  // ---- Settlement ------------------------------------------------------------------

  /** A committed trace: on the ledger, or on it until retention purged it. */
  ghost predicate Traced(s: System, commandId: Uuid) {
    commandId in s.ledger || exists i :: 0 <= i < |s.history.purges| && s.history.purges[i].commandId == commandId
  }

  ghost predicate DeliverySafe(s: System, d: Delivery) {
    match d.frame
    case Unreadable => d.settlement == Pending
    case Readable(e) =>
      && (d.settlement == Terminated ==> Traced(s, e.commandId))
      && (d.settlement == Acked ==> Validate(e.payload).Ok? && KeysOf(Validate(e.payload).value) <= s.history.delivered)
  }

  ghost predicate SettlementsSafe(s: System) {
    forall id :: id in s.broker ==> DeliverySafe(s, s.broker[id])
  }

  // ---- Ledger and metrics ------------------------------------------------------------

  /** Rows ever committed are on the ledger or purged; the counter misses exactly
      the rows whose answer was lost. */
  ghost predicate LedgerConserved(s: System) {
    && s.history.recorded == |s.ledger| + |s.history.purges|
    && s.metrics.deadLetters + s.history.lostNow == s.history.recordedNow <= s.history.recorded
  }

  /** The purge counter misses exactly the rows of passes whose answer was lost. */
  ghost predicate PurgesCounted(s: System) {
    s.history.purgesBefore + s.metrics.purged + s.history.purgesLost == |s.history.purges|
  }

  ghost predicate RetentionKept(s: System) {
    && (forall c :: c in s.ledger ==> s.ledger[c].recordedAt <= s.clock)
    && (forall i :: 0 <= i < |s.history.purges| ==>
          s.history.purges[i].at - s.history.purges[i].row.recordedAt > DEAD_LETTER_RETENTION)
  }

  function Attempted(verdicts: seq<Verdict>): seq<Verdict> {
    Filter(verdicts, (v: Verdict) => v != NotAttempted)
  }

  /** The gauge is the length of the longest run of transient verdicts at the end,
      verdicts that never reached storage left out. */
  ghost predicate GaugeIsTrailingRun(streak: nat, verdicts: seq<Verdict>) {
    var v := Attempted(verdicts);
    && streak <= |v|
    && (forall i :: |v| - streak <= i < |v| ==> v[i] == Failed(Transient))
    && (streak < |v| ==> v[|v| - streak - 1] != Failed(Transient))
  }

  ghost predicate Inv(s: System) {
    && s.store.rows.Keys <= s.store.used
    && SettlementsSafe(s)
    && LedgerConserved(s)
    && RetentionKept(s)
    && PurgesCounted(s)
    && GaugeIsTrailingRun(s.metrics.streak, s.history.verdicts)
  }

  // ---- What growing history preserves -------------------------------------------------

  /** `t` knows every trace and every delivered key `s` knows. */
  ghost predicate Remembers(s: System, t: System) {
    && (forall c :: Traced(s, c) ==> Traced(t, c))
    && s.history.delivered <= t.history.delivered
  }

  lemma RememberedStaysSafe(s: System, t: System, d: Delivery)
    requires DeliverySafe(s, d) && Remembers(s, t)
    ensures DeliverySafe(t, d)
  {
  }

  // ---- Abandoning -----------------------------------------------------------------------

  /** Abandoning calls a command poison only when its trace is on the ledger, and
      conserves the ledger's accounts. */
  lemma AbandonIsAccounted(s: System, commandId: Uuid, row: DeadLetter, fate: Fate)
    requires LedgerConserved(s) && PurgesCounted(s) && RetentionKept(s) && row.recordedAt <= s.clock
    ensures var (t, kind) := Abandon(s, commandId, row, fate);
      && LedgerConserved(t) && PurgesCounted(t) && RetentionKept(t) && Remembers(s, t)
      && (kind == Poison <==> fate.Answered?)
      && (kind == Poison ==> commandId in t.ledger)
      && t == s.(ledger := t.ledger, metrics := t.metrics, history := t.history)
      && t.metrics.streak == s.metrics.streak && t.history.verdicts == s.history.verdicts
      && t.history.delivered == s.history.delivered
  {
    var t := AfterRecord(s, commandId, row, fate);
    assert t.ledger == s.ledger || t.ledger.Keys == s.ledger.Keys + {commandId};
    assert t.history.purges == s.history.purges;
    assert forall c :: c in s.ledger ==> c in t.ledger;
  }

  /** A row on the ledger is never altered by a replay. */
  lemma FirstTraceWins(s: System, commandId: Uuid, row: DeadLetter, fate: Fate, c: Uuid)
    requires c in s.ledger
    ensures c in Abandon(s, commandId, row, fate).0.ledger
    ensures Abandon(s, commandId, row, fate).0.ledger[c] == s.ledger[c]
  {
  }

  // ---- One delivery -----------------------------------------------------------------------

  /** What processing a readable frame settles on: an ack only for a valid command
      whose every recipient has had a committed row, a termination only with the
      trace on the ledger. */
  lemma ProcessIsSafe(s: System, e: Envelope, w: Weather)
    requires Inv(s) && WeatherFits(s, e.payload, w)
    ensures var (t, failure) := Process(s, e, w);
      && LedgerConserved(t) && PurgesCounted(t) && RetentionKept(t) && Remembers(s, t)
      && t.store.rows.Keys <= t.store.used
      && t.broker == s.broker && t.clock == s.clock
      && t.metrics.streak == s.metrics.streak && t.history.verdicts == s.history.verdicts
      && (failure == None ==> Validate(e.payload).Ok? && KeysOf(Validate(e.payload).value) <= t.history.delivered)
      && (failure == Some(Poison) ==> e.commandId in t.ledger && w.ledger.Answered?)
  {
    match Validate(e.payload) {
      case Err(reason) =>
        AbandonIsAccounted(s, e.commandId, RefusalRow(s, e, reason), w.ledger);
      case Ok(command) =>
        var written := AfterWrite(s, command, w);
        WriteIsSafe(s, command, w);
        if !w.write.Answered? && ClassifySqlstate(w.write.sqlstate) == Poison {
          AbandonIsAccounted(written, e.commandId, StorageRow(s, e, command, w.write.sqlstate), w.ledger);
        }
    }
  }

  lemma WriteIsSafe(s: System, command: DeliverNotification, w: Weather)
    requires Inv(s) && |w.ids| == |command.recipientIds|
    requires FreshIds(Mint(w.ids, command.recipientIds), s.store.used)
    ensures var t := AfterWrite(s, command, w);
      && LedgerConserved(t) && PurgesCounted(t) && RetentionKept(t) && Remembers(s, t)
      && t.store.rows.Keys <= t.store.used
      && t == s.(store := t.store, history := s.history.(delivered := t.history.delivered))
      && (Committed(w.write) ==> KeysOf(command) <= t.history.delivered)
  {
    if Committed(w.write) {
      var winners := Inserting(s.store, FanOut(command, w));
    }
  }

  /** What the history calls delivered is what the committed fan-out left: a row
      under the dedup key of every recipient named. */
  lemma CommittedFanOutServesEveryone(s: System, command: DeliverNotification, w: Weather, recipient: Uuid)
    requires Inv(s) && |w.ids| == |command.recipientIds| && Committed(w.write)
    requires FreshIds(Mint(w.ids, command.recipientIds), s.store.used) && recipient in command.recipientIds
    ensures HasKey(AfterWrite(s, command, w).store.rows, command.sourceEventId, recipient)
    ensures (command.sourceEventId, recipient) in AfterWrite(s, command, w).history.delivered
  {
    var i :| 0 <= i < |command.recipientIds| && command.recipientIds[i] == recipient;
    EveryoneNamedHasARow(s.store, FanOut(command, w), i);
  }

  /** The rows a committed fan-out adds are the command's: under an id minted for
      one of its recipients, its content and link, unread. */
  lemma FanOutRowsAreTheCommands(s: System, command: DeliverNotification, w: Weather, id: Uuid) returns (k: nat)
    requires Inv(s) && |w.ids| == |command.recipientIds|
    requires FreshIds(Mint(w.ids, command.recipientIds), s.store.used)
    requires id in AfterWrite(s, command, w).store.rows && id !in s.store.rows
    ensures k < |w.ids| && w.ids[k] == id
    ensures var row := AfterWrite(s, command, w).store.rows[id];
      && row.source == command.sourceEventId && row.recipient == command.recipientIds[k]
      && row.template == command.template && row.payload == command.payload
      && row.link == (if command.link.Some? then Some(command.link.value) else None)
      && row.readAt == None && row.createdAt == w.createdAt
  {
    k := NewRowIsACandidates(s.store, FanOut(command, w), id);
  }

  lemma GaugeStep(verdicts: seq<Verdict>, verdict: Verdict, streak: nat)
    requires GaugeIsTrailingRun(streak, verdicts)
    ensures GaugeIsTrailingRun(TransientStreakAfter(verdict, streak), verdicts + [verdict])
  {
    FilterConcat(verdicts, [verdict], (v: Verdict) => v != NotAttempted);
    FilterCons(verdict, [], (v: Verdict) => v != NotAttempted);
    assert [verdict] + [] == [verdict];
    var v, v' := Attempted(verdicts), Attempted(verdicts + [verdict]);
    assert v' == if verdict == NotAttempted then v else v + [verdict];
  }

  lemma SettlingKeepsOthersSafe(s: System, t: System, id: nat)
    requires SettlementsSafe(s) && Remembers(s, t) && id in s.broker && t.broker.Keys == s.broker.Keys
    requires forall i :: i in s.broker && i != id ==> t.broker[i] == s.broker[i]
    requires DeliverySafe(t, t.broker[id])
    ensures SettlementsSafe(t)
  {
    forall i | i in t.broker
      ensures DeliverySafe(t, t.broker[i])
    {
      RememberedStaysSafe(s, t, s.broker[i]);
    }
  }

  lemma UnreadableKeepsInv(s: System, id: nat, reached: bool)
    requires Inv(s) && id in s.broker && s.broker[id].frame.Unreadable?
    ensures Inv(HandleUnreadable(s, id, reached))
  {
    GaugeStep(s.history.verdicts, NotAttempted, s.metrics.streak);
    SettlingKeepsOthersSafe(s, HandleUnreadable(s, id, reached), id);
  }

  /** Settling on what the processing established, and observing it. */
  lemma ConcludeKeepsInv(s: System, p: System, id: nat, failure: Option<FailureClass>, reached: bool)
    requires Inv(s) && id in s.broker && s.broker[id].frame.Readable? && p.broker == s.broker && Remembers(s, p)
    requires p.store.rows.Keys <= p.store.used && LedgerConserved(p) && PurgesCounted(p) && RetentionKept(p)
    requires GaugeIsTrailingRun(p.metrics.streak, p.history.verdicts)
    requires var e := s.broker[id].frame.envelope;
      && (failure == None ==> Validate(e.payload).Ok? && KeysOf(Validate(e.payload).value) <= p.history.delivered)
      && (failure == Some(Poison) ==> e.commandId in p.ledger)
    ensures Inv(Conclude(p, id, failure, reached))
  {
    GaugeStep(p.history.verdicts, match failure case None => Written case Some(c) => Failed(c), p.metrics.streak);
    RememberedStaysSafe(s, p, s.broker[id]);
    SettlingKeepsOthersSafe(s, Conclude(p, id, failure, reached), id);
  }

  lemma DeliverKeepsInv(s: System, id: nat, w: Weather)
    requires Inv(s) && Enabled(s, Step.Deliver(id, w))
    ensures Inv(Handle(s, id, w))
  {
    match s.broker[id].frame {
      case Unreadable => UnreadableKeepsInv(s, id, w.settled);
      case Readable(e) =>
        ProcessIsSafe(s, e, w);
        ConcludeKeepsInv(s, Process(s, e, w).0, id, Process(s, e, w).1, w.settled);
    }
  }

  // ---- Retention ----------------------------------------------------------------------------

  lemma {:induction false} DistinctCount(rows: seq<Uuid>)
    requires Distinct(rows)
    ensures |set c | c in rows| == |rows|
  {
    if rows != [] {
      DistinctCount(rows[1..]);
      assert (set c | c in rows) == {rows[0]} + (set c | c in rows[1..]);
      assert rows[0] !in rows[1..];
    }
  }

  lemma RemovingCounts(ledger: map<Uuid, DeadLetter>, rows: seq<Uuid>)
    requires Distinct(rows) && forall c :: c in rows ==> c in ledger
    ensures |Kept(ledger, rows)| + |rows| == |ledger|
  {
    var removed := set c | c in rows;
    DistinctCount(rows);
    assert Kept(ledger, rows).Keys == ledger.Keys - removed;
    assert ledger.Keys * removed == removed;
    assert |Kept(ledger, rows)| == |Kept(ledger, rows).Keys| && |ledger| == |ledger.Keys|;
  }

  lemma PurgeKeepsInv(s: System, rows: seq<Uuid>, fate: Fate)
    requires Inv(s) && ListsExpired(s.ledger, s.clock, rows)
    ensures Inv(PurgePass(s, rows, fate))
  {
    var t := PurgePass(s, rows, fate);
    RemovingCounts(s.ledger, rows);
    if Committed(fate) {
      var purged := PurgedRows(s.ledger, s.clock, rows);
      forall c | Traced(s, c)
        ensures Traced(t, c)
      {
        if c in s.ledger {
          if c in rows {
            var i :| 0 <= i < |rows| && rows[i] == c;
            assert t.history.purges[|s.history.purges| + i].commandId == c;
          }
        } else {
          var i :| 0 <= i < |s.history.purges| && s.history.purges[i].commandId == c;
          assert t.history.purges[i].commandId == c;
        }
      }
      forall i | 0 <= i < |purged|
        ensures purged[i].at - purged[i].row.recordedAt > DEAD_LETTER_RETENTION
      {
        assert rows[i] in rows;
      }
    }
    forall i | i in t.broker
      ensures DeliverySafe(t, t.broker[i])
    {
      RememberedStaysSafe(s, t, s.broker[i]);
    }
  }

  /** What a pass counts. */
  lemma PassesAreCounted(s: System, rows: seq<Uuid>, fate: Fate)
    requires ListsExpired(s.ledger, s.clock, rows)
    ensures PurgePass(s, rows, fate).metrics
            == if fate.Answered?
               then s.metrics.(purgePasses := s.metrics.purgePasses + 1, purged := s.metrics.purged + |rows|)
               else s.metrics.(purgeFailures := s.metrics.purgeFailures + 1)
  {
  }

  /** A pass that commits leaves exactly the rows recorded within the last 90 days,
      unchanged; one that is refused leaves every row. */
  lemma PurgeIsExact(s: System, rows: seq<Uuid>, fate: Fate, c: Uuid)
    requires ListsExpired(s.ledger, s.clock, rows) && c in s.ledger
    ensures c in PurgePass(s, rows, fate).ledger
            <==> fate.Refused? || s.clock - s.ledger[c].recordedAt <= 90 * 24 * 60 * 60 * 1_000_000
    ensures c in PurgePass(s, rows, fate).ledger ==> PurgePass(s, rows, fate).ledger[c] == s.ledger[c]
  {
  }

  // ---- Every run -----------------------------------------------------------------------------

  lemma StepKeepsInv(s: System, step: Step)
    requires Inv(s) && Enabled(s, step)
    ensures Inv(Next(s, step))
  {
    match step {
      case Deliver(id, w) => DeliverKeepsInv(s, id, w);
      case Purge(rows, fate) => PurgeKeepsInv(s, rows, fate);
      case Mutate(c) =>
        assert forall i :: i in s.broker ==> DeliverySafe(s, s.broker[i]);
      case Publish(id, frame) =>
        assert forall i :: i in s.broker ==> DeliverySafe(s, s.broker[i]);
      case Restart =>
        assert forall i :: i in s.broker ==> DeliverySafe(s, s.broker[i]);
      case Tick(elapsed) =>
        assert forall i :: i in s.broker ==> DeliverySafe(s, s.broker[i]);
    }
  }

  /** In every run, under failed writes, lost answers, lost settlements,
      redeliveries, restarts, purges and mutations: a terminated frame has a
      committed trace under its command id, an acked one has had a committed row
      for each recipient, an unreadable one is neither; the ledger's accounts
      balance, nothing is purged before its time, and the gauge is the trailing
      run of transient verdicts. */
  lemma {:induction false} EveryRunIsSafe(steps: seq<Step>)
    requires Runs(steps)
    ensures Inv(After(steps))
  {
    if steps == [] {
    } else {
      EveryRunIsSafe(steps[..|steps| - 1]);
      StepKeepsInv(After(steps[..|steps| - 1]), steps[|steps| - 1]);
    }
  }

  /** A frame is never terminated before its trace is committed, and a ledger that
      does not answer always holds the frame of a refused command. */
  lemma TerminationFollowsTheTrace(steps: seq<Step>, id: nat, w: Weather)
    requires Runs(steps) && Enabled(After(steps), Step.Deliver(id, w))
    requires After(steps).broker[id].frame.Readable?
    ensures var e, t := After(steps).broker[id].frame.envelope, Handle(After(steps), id, w);
      var before, now := After(steps).broker[id].settlement, t.broker[id].settlement;
      && (now == Terminated && before != Terminated ==> e.commandId in t.ledger)
      && (!w.ledger.Answered? && before != Terminated ==> now != Terminated)
      && (Validate(e.payload).Err? && !w.ledger.Answered? ==> now == before)
  {
    EveryRunIsSafe(steps);
    ProcessIsSafe(After(steps), After(steps).broker[id].frame.envelope, w);
  }

  // ---- What exactly one delivery settles, records and counts -------------------------------

  predicate Permanent(sqlstate: Option<string>) {
    && sqlstate.Some? && |sqlstate.value| >= 2
    && sqlstate.value[0] == '2' && (sqlstate.value[1] == '2' || sqlstate.value[1] == '3')
  }

  /** The whole decision: acked exactly when the write of a valid command was
      answered; terminated exactly when the command is refused, or its write failed
      for good, and the ledger answered; held in every other case. A frame settled
      before stays as it was, whatever a late redelivery of it does. */
  lemma SettlesExactly(s: System, id: nat, w: Weather)
    requires Enabled(s, Step.Deliver(id, w))
    ensures var t := Handle(s, id, w).broker;
      && t.Keys == s.broker.Keys && t[id].frame == s.broker[id].frame
      && (forall i :: i in t && i != id ==> t[i] == s.broker[i])
      && (if s.broker[id].settlement != Pending || !w.settled || s.broker[id].frame.Unreadable?
          then t[id].settlement == s.broker[id].settlement else
            match Validate(s.broker[id].frame.envelope.payload)
            case Err(_) => t[id].settlement == if w.ledger.Answered? then Terminated else Pending
            case Ok(_) =>
              && (t[id].settlement == Acked <==> w.write.Answered?)
              && (t[id].settlement == Terminated
                  <==> !w.write.Answered? && Permanent(w.write.sqlstate) && w.ledger.Answered?))
  {
    if s.broker[id].frame.Readable? {
      PrefixIsTwoCharacters(w.write);
      assert Process(s, s.broker[id].frame.envelope, w).0.broker == s.broker;
    }
  }

  lemma PrefixIsTwoCharacters(fate: Fate)
    ensures !fate.Answered? ==> (ClassifySqlstate(fate.sqlstate) == Poison <==> Permanent(fate.sqlstate))
  {
    if !fate.Answered? && Permanent(fate.sqlstate) {
      var code := fate.sqlstate.value;
      assert code == code[..2] + code[2..];
      assert code[..2] == "22" || code[..2] == "23";
    }
  }

  /** The row is the refused command's own: its payload, its trace, the present
      time, why it was refused, and, for an object that decodes, its ids. */
  predicate Faithful(s: System, e: Envelope, w: Weather, row: DeadLetter) {
    && row.command == e.payload && row.trace == e.trace && row.recordedAt == s.clock
    && (match Validate(e.payload)
        case Err(reason) => row.reason == reason && row.sqlstate == None
        case Ok(_) => row.reason == StorageRejected && !w.write.Answered? && row.sqlstate == w.write.sqlstate)
    && (e.payload.JObject? && Decode(e.payload).Some? ==>
          && row.sourceEventId == Some(Decode(e.payload).value.sourceEventId)
          && row.recipientIds == Decode(e.payload).value.recipientIds)
  }

  lemma AbandonRecords(s: System, commandId: Uuid, row: DeadLetter, fate: Fate)
    ensures var ledger := Abandon(s, commandId, row, fate).0.ledger;
            ledger == s.ledger || (commandId !in s.ledger && ledger == s.ledger[commandId := row])
  {
  }

  lemma ProcessRecords(s: System, e: Envelope, w: Weather)
    requires WeatherFits(s, e.payload, w)
    ensures var ledger := Process(s, e, w).0.ledger;
      || ledger == s.ledger
      || (e.commandId !in s.ledger && e.commandId in ledger && ledger == s.ledger[e.commandId := ledger[e.commandId]]
          && Faithful(s, e, w, ledger[e.commandId]))
  {
    if Decode(e.payload).Some? {
      TraceNamesTheDecodedIds(e.payload);
    }
    match Validate(e.payload) {
      case Err(reason) =>
        var row := RefusalRow(s, e, reason);
        assert Faithful(s, e, w, row);
        AbandonRecords(s, e.commandId, row, w.ledger);
      case Ok(command) =>
        if !w.write.Answered? {
          var row := StorageRow(s, e, command, w.write.sqlstate);
          assert Faithful(s, e, w, row);
          AbandonRecords(AfterWrite(s, command, w), e.commandId, row, w.ledger);
        }
    }
  }

  /** The only ledger row a delivery can add is its own command's, faithfully
      recorded; no other row appears, goes or changes. */
  lemma RecordsFaithfully(s: System, id: nat, w: Weather)
    requires Enabled(s, Step.Deliver(id, w))
    ensures var ledger := Handle(s, id, w).ledger;
      match s.broker[id].frame
      case Unreadable => ledger == s.ledger
      case Readable(e) =>
        && (ledger == s.ledger || (e.commandId !in s.ledger && ledger.Keys == s.ledger.Keys + {e.commandId}))
        && (forall c :: c in s.ledger ==> c in ledger && ledger[c] == s.ledger[c])
        && (e.commandId in ledger && e.commandId !in s.ledger ==> Faithful(s, e, w, ledger[e.commandId]))
  {
    if s.broker[id].frame.Readable? {
      var e := s.broker[id].frame.envelope;
      ProcessRecords(s, e, w);
      assert Handle(s, id, w).ledger == Process(s, e, w).0.ledger;
    }
  }

  function CountOf(verdicts: seq<Verdict>, verdict: Verdict): nat {
    |Filter(verdicts, (v: Verdict) => v == verdict)|
  }

  lemma CountNext(verdicts: seq<Verdict>, next: Verdict, verdict: Verdict)
    ensures CountOf(verdicts + [next], verdict) == CountOf(verdicts, verdict) + if next == verdict then 1 else 0
  {
    FilterConcat(verdicts, [next], (v: Verdict) => v == verdict);
    FilterCons(next, [], (v: Verdict) => v == verdict);
    assert [next] + [] == [next];
  }

  ghost predicate CountersExact(s: System) {
    && s.metrics.transientFailures == CountOf(s.history.verdicts, Failed(Transient))
    && s.metrics.undecodable == CountOf(s.history.verdicts, NotAttempted)
  }

  ghost predicate SameCounts(s: System, t: System) {
    && t.history.verdicts == s.history.verdicts
    && t.metrics.transientFailures == s.metrics.transientFailures
    && t.metrics.undecodable == s.metrics.undecodable
  }

  lemma AbandonLeavesCounts(s: System, commandId: Uuid, row: DeadLetter, fate: Fate)
    ensures SameCounts(s, Abandon(s, commandId, row, fate).0)
  {
  }

  lemma ProcessLeavesCounts(s: System, e: Envelope, w: Weather)
    requires WeatherFits(s, e.payload, w)
    ensures SameCounts(s, Process(s, e, w).0)
  {
    match Validate(e.payload) {
      case Err(reason) =>
        AbandonLeavesCounts(s, e.commandId, RefusalRow(s, e, reason), w.ledger);
      case Ok(command) =>
        if !w.write.Answered? {
          var row := StorageRow(s, e, command, w.write.sqlstate);
          AbandonLeavesCounts(AfterWrite(s, command, w), e.commandId, row, w.ledger);
        }
    }
  }

  lemma ObservingCounts(s: System, verdict: Verdict)
    requires s.metrics.transientFailures == CountOf(s.history.verdicts, Failed(Transient))
    requires s.metrics.undecodable
             == CountOf(s.history.verdicts, NotAttempted) + if verdict.NotAttempted? then 1 else 0
    ensures CountersExact(Observe(s, verdict))
  {
    CountNext(s.history.verdicts, verdict, Failed(Transient));
    CountNext(s.history.verdicts, verdict, NotAttempted);
  }

  lemma DeliveryCounts(s: System, id: nat, w: Weather)
    requires Enabled(s, Step.Deliver(id, w)) && CountersExact(s)
    ensures CountersExact(Handle(s, id, w))
  {
    match s.broker[id].frame {
      case Unreadable =>
        var counted := s.(metrics := s.metrics.(undecodable := s.metrics.undecodable + 1));
        ObservingCounts(Settle(counted, id, Nak(UNDECODABLE_NAK_DELAY), w.settled), NotAttempted);
      case Readable(e) =>
        ProcessLeavesCounts(s, e, w);
        var (t, failure) := Process(s, e, w);
        ObservingCounts(Settle(t, id, OutcomeFor(failure), w.settled),
                        match failure case None => Written case Some(kind) => Failed(kind));
    }
  }

  /** In every run the transient counter is the number of transient verdicts since
      the last restart, the undecodable one that of deliveries nothing could read. */
  lemma {:induction false} EveryVerdictIsCounted(steps: seq<Step>)
    requires Runs(steps)
    ensures CountersExact(After(steps))
  {
    if steps != [] {
      var shorter, step := steps[..|steps| - 1], steps[|steps| - 1];
      EveryVerdictIsCounted(shorter);
      if step.Deliver? {
        DeliveryCounts(After(shorter), step.id, step.weather);
      }
    }
  }

  /** Whether a delivery has to abandon its command: it was refused, or its write
      failed for good. */
  predicate Abandons(e: Envelope, w: Weather) {
    Validate(e.payload).Err? || (!w.write.Answered? && Permanent(w.write.sqlstate))
  }

  lemma AbandonCounts(s: System, commandId: Uuid, row: DeadLetter, fate: Fate)
    ensures var before, after := s.metrics, Abandon(s, commandId, row, fate).0.metrics;
      after == before.(ledgerFailures := before.ledgerFailures + if fate.Answered? then 0 else 1,
                       deadLetters := before.deadLetters + if fate.Answered? && commandId !in s.ledger then 1 else 0)
  {
  }

  /** What one delivery of a readable frame counts: a dead letter if it newly
      recorded one and knows it, a ledger failure if the ledger did not answer. */
  lemma AbandonmentsAreCounted(s: System, e: Envelope, w: Weather)
    requires WeatherFits(s, e.payload, w)
    ensures var before, after := s.metrics, Process(s, e, w).0.metrics;
      after == if !Abandons(e, w) then before
               else if !w.ledger.Answered? then before.(ledgerFailures := before.ledgerFailures + 1)
               else before.(deadLetters := before.deadLetters + if e.commandId in s.ledger then 0 else 1)
  {
    PrefixIsTwoCharacters(w.write);
    match Validate(e.payload) {
      case Err(reason) =>
        AbandonCounts(s, e.commandId, RefusalRow(s, e, reason), w.ledger);
      case Ok(command) =>
        if Abandons(e, w) {
          var row := StorageRow(s, e, command, w.write.sqlstate);
          AbandonCounts(AfterWrite(s, command, w), e.commandId, row, w.ledger);
        }
    }
  }

  // ---- Drain progress ---------------------------------------------------------------------------

  /** Frames a later delivery can still settle. */
  function Unsettled(s: System): set<nat> {
    set id | id in s.broker && s.broker[id].settlement == Pending && s.broker[id].frame.Readable?
  }

  /** Storage answers, if only to refuse the data for good, and the settlement
      reaches the broker. */
  predicate FairWeather(w: Weather) {
    && w.settled && w.ledger.Answered?
    && (w.write.Answered? || (w.write.Refused? && ClassifySqlstate(w.write.sqlstate) == Poison))
  }

  /** In fair weather a delivery settles exactly its frame, if it is readable. */
  lemma FairDeliverySettles(s: System, id: nat, w: Weather)
    requires Enabled(s, Step.Deliver(id, w)) && FairWeather(w)
    ensures Unsettled(Handle(s, id, w)) == Unsettled(s) - {id}
    ensures id in Unsettled(s) ==> |Unsettled(Handle(s, id, w))| < |Unsettled(s)|
  {
    var t := Handle(s, id, w);
    SettlesExactly(s, id, w);
    if !w.write.Answered? {
      PrefixIsTwoCharacters(w.write);
    }
    assert forall i :: i in t.broker && i != id ==> t.broker[i] == s.broker[i];
    assert Unsettled(t) == Unsettled(s) - {id};
  }

  function DeliverAll(s: System, round: seq<(nat, Weather)>): Option<System>
    decreases |round|
  {
    if round == [] then Some(s)
    else if Enabled(s, Step.Deliver(round[0].0, round[0].1))
    then DeliverAll(Handle(s, round[0].0, round[0].1), round[1..])
    else None
  }

  lemma DeliveredFirst(round: seq<(nat, Weather)>)
    requires round != []
    ensures (set i | 0 <= i < |round| :: round[i].0)
            == {round[0].0} + (set i | 0 <= i < |round[1..]| :: round[1..][i].0)
  {
    assert forall i :: 0 < i < |round| ==> round[i] == round[1..][i - 1];
    assert forall i :: 0 <= i < |round[1..]| ==> round[1..][i] == round[i + 1];
  }

  /** A fair round that delivers every pending frame ends with only unreadable
      frames held. */
  lemma {:induction false} FairRoundsDrain(s: System, round: seq<(nat, Weather)>)
    requires DeliverAll(s, round).Some?
    requires forall i :: 0 <= i < |round| ==> FairWeather(round[i].1)
    ensures Unsettled(DeliverAll(s, round).value) == Unsettled(s) - (set i | 0 <= i < |round| :: round[i].0)
    decreases |round|
  {
    if round != [] {
      FairDeliverySettles(s, round[0].0, round[0].1);
      FairRoundsDrain(Handle(s, round[0].0, round[0].1), round[1..]);
      DeliveredFirst(round);
    }
  }
}
