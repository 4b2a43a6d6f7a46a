/** The intake as the service runs it: the consume loop, one delivery's handling
    step by step over the database and the ledger, and the retention pass. */
module Intake {
  import opened Prelude
  import opened Signals
  import opened Store
  import opened Wire
  import opened Transactions
  import opened IntakeProtocol
  import opened IntakeSafety

  const MAX_CONSECUTIVE_RECV_ERRORS := 10

  /** What the loop wakes up to. */
  datatype Event =
    | ShutdownRequested
    | Received(id: nat, frame: Frame, weather: Weather)
    | StreamClosed
    | RecvError

  /** Why the loop stopped; `Running` when nothing more has happened yet. */
  datatype Stop = Running | Shutdown | Closed | BudgetSpent

  // ---- The loop's specification ----------------------------------------------------------

  /** Ten recv errors in a row end here. */
  predicate TenErrorsUpTo(events: seq<Event>, j: nat)
    requires j < |events|
  {
    j >= 9 && forall k :: j - 9 <= k <= j ==> events[k].RecvError?
  }

  function StopAt(events: seq<Event>, j: nat): Stop
    requires j < |events|
  {
    match events[j]
    case ShutdownRequested => Shutdown
    case StreamClosed => Closed
    case Received(_, _, _) => Running
    case RecvError => if TenErrorsUpTo(events, j) then BudgetSpent else Running
  }

  /** A frame not seen before was published meanwhile. */
  function Offered(s: System, id: nat, frame: Frame): System {
    if id in s.broker then s else s.(broker := s.broker[id := Delivery(frame, Pending)])
  }

  /** The broker delivers a frame it holds, with the content it holds. */
  function Serve(s: System, event: Event): Option<System> {
    match event
    case Received(id, frame, w) =>
      var offered := Offered(s, id, frame);
      if offered.broker[id].frame == frame && Enabled(offered, Step.Deliver(id, w))
      then Some(Next(offered, Step.Deliver(id, w))) else None
    case _ => Some(s)
  }

  function ServeAll(s: System, events: seq<Event>): Option<System> {
    if events == [] then Some(s) else
      match ServeAll(s, events[..|events| - 1])
      case Some(t) => Serve(t, events[|events| - 1])
      case None => None
  }

  lemma {:induction false} ServePrefix(s: System, events: seq<Event>, i: nat)
    requires ServeAll(s, events).Some? && i <= |events|
    ensures ServeAll(s, events[..i]).Some?
  {
    if i == |events| {
      assert events[..i] == events;
    } else {
      var shorter := events[..|events| - 1];
      ServePrefix(s, shorter, i);
      assert shorter[..i] == events[..i];
    }
  }

  lemma ServeNext(s: System, events: seq<Event>, i: nat)
    requires ServeAll(s, events).Some? && i < |events|
    ensures ServeAll(s, events[..i]).Some?
    ensures Serve(ServeAll(s, events[..i]).value, events[i]).Some?
    ensures ServeAll(s, events[..i + 1]) == Serve(ServeAll(s, events[..i]).value, events[i])
  {
    ServePrefix(s, events, i);
    ServePrefix(s, events, i + 1);
    assert events[..i + 1][..i] == events[..i];
  }

  lemma RunAppend(steps: seq<Step>, step: Step)
    requires Runs(steps) && Enabled(After(steps), step)
    ensures Runs(steps + [step]) && After(steps + [step]) == Next(After(steps), step)
  {
    assert (steps + [step])[..|steps|] == steps;
  }

  /** Whatever the loop serves is a run of the protocol, so all that holds of runs
      holds of it. */
  lemma {:induction false} ServingIsARun(steps: seq<Step>, events: seq<Event>) returns (longer: seq<Step>)
    requires Runs(steps) && ServeAll(After(steps), events).Some?
    ensures Runs(longer) && steps <= longer && ServeAll(After(steps), events) == Some(After(longer))
  {
    longer := steps;
    if events != [] {
      longer := ServingIsARun(steps, events[..|events| - 1]);
      var s, event := After(longer), events[|events| - 1];
      if event.Received? {
        if event.id !in s.broker {
          RunAppend(longer, Publish(event.id, event.frame));
          longer := longer + [Publish(event.id, event.frame)];
        }
        RunAppend(longer, Step.Deliver(event.id, event.weather));
        longer := longer + [Step.Deliver(event.id, event.weather)];
      }
    }
  }

  /** What one event does to the loop, given the recv errors counted since the
      last delivery: the stop it decides and the new count. */
  function StopOn(event: Event, errors: nat): Stop {
    match event
    case ShutdownRequested => Shutdown
    case StreamClosed => Closed
    case Received(_, _, _) => Running
    case RecvError => if errors + 1 >= MAX_CONSECUTIVE_RECV_ERRORS then BudgetSpent else Running
  }

  function ErrorsAfter(event: Event, errors: nat): nat {
    match event
    case Received(_, _, _) => 0
    case RecvError => errors + 1
    case _ => errors
  }

  /** The count after `n` events, and the stop decided among them. */
  function Errors(events: seq<Event>, n: nat): nat
    requires n <= |events|
  {
    if n == 0 then 0 else ErrorsAfter(events[n - 1], Errors(events, n - 1))
  }

  function StopBy(events: seq<Event>, n: nat): Stop
    requires n <= |events|
  {
    if n == 0 then Running
    else if StopBy(events, n - 1) != Running then StopBy(events, n - 1)
    else StopOn(events[n - 1], Errors(events, n - 1))
  }

  /** While the loop runs, its counter is the exact length of the run of recv
      errors it has just seen, and below the budget. */
  lemma {:induction false} CounterIsExact(events: seq<Event>, n: nat)
    requires n <= |events| && StopBy(events, n) == Running
    ensures Errors(events, n) <= n && Errors(events, n) < MAX_CONSECUTIVE_RECV_ERRORS
    ensures forall k :: n - Errors(events, n) <= k < n ==> events[k].RecvError?
    ensures Errors(events, n) < n ==> !events[n - Errors(events, n) - 1].RecvError?
  {
    if n > 0 {
      CounterIsExact(events, n - 1);
    }
  }

  /** The loop runs on exactly while no event is, read off the events alone, a
      cause to stop; and it stops on the first that is, for that cause. */
  lemma {:induction false} StopsOnTheFirstCause(events: seq<Event>, n: nat)
    requires n <= |events|
    ensures StopBy(events, n) == Running <==> forall j :: 0 <= j < n ==> StopAt(events, j) == Running
    ensures 0 < n && StopBy(events, n - 1) == Running ==> StopBy(events, n) == StopAt(events, n - 1)
  {
    if n > 0 {
      StopsOnTheFirstCause(events, n - 1);
      if StopBy(events, n - 1) == Running {
        CounterIsExact(events, n - 1);
        assert StopBy(events, n) == StopAt(events, n - 1);
      }
    }
  }

  // ---- The service -----------------------------------------------------------------------

  class Service {
    const database: Database
    /** How an instant is written. */
    const show: Time -> string
    var broker: map<nat, Delivery>
    var ledger: map<Uuid, DeadLetter>
    var clock: Time
    var metrics: Metrics
    var ready: bool
    var shutdownSent: bool
    ghost var history: History

    constructor (database: Database, show: Time -> string)
      requires database.Model() == EMPTY && forall t :: |show(t)| <= LONGEST_INSTANT
      ensures Valid() && Model() == START && ready && !shutdownSent
      ensures this.database == database
    {
      this.database := database;
      this.show := show;
      broker, ledger, clock := map[], map[], 0;
      metrics := FRESH_METRICS;
      ready, shutdownSent := true, false;
      history := History({}, 0, [], [], 0, 0, 0, 0);
    }

    ghost function Model(): System
      reads this, database
    {
      System(broker, database.Model(), ledger, clock, metrics, history)
    }

    ghost predicate Valid()
      reads this, database
    {
      database.rows.Keys <= database.used && forall t :: |show(t)| <= LONGEST_INSTANT
    }

    /** The fan-out's own transaction: committed, dropped, or committed with the
        answer lost. */
    method FanOut(command: DeliverNotification, w: Weather) returns (result: Result<nat, Option<string>>)
      requires Valid() && |w.ids| == |command.recipientIds|
      requires FreshIds(Mint(w.ids, command.recipientIds), database.used)
      modifies this`history, database
      ensures Valid() && Model() == AfterWrite(old(Model()), command, w)
      ensures result.Ok? ==> w.write.Answered? && result.value == |database.log| - |old(database.log)|
      ensures result.Err? ==> !w.write.Answered? && result.error == w.write.sqlstate
    {
      var tx := new Transaction(database, None, show);
      var written := tx.InsertNotifications(command.sourceEventId, Mint(w.ids, command.recipientIds),
                                            Body(command.template, command.payload, command.link), w.createdAt);
      if w.write.Refused? {
        return Err(w.write.sqlstate);
      }
      FanOutCommits(database.Model(), IntakeProtocol.FanOut(command, w));
      tx.Commit();
      history := history.(delivered := history.delivered + KeysOf(command));
      if w.write.AnswerLost? {
        return Err(w.write.sqlstate);
      }
      return Ok(written);
    }

    /** The ledger insert: whether this call recorded the command. */
    method RecordDeadLetter(commandId: Uuid, row: DeadLetter, fate: Fate)
      returns (recorded: Result<bool, Option<string>>)
      modifies this`ledger, this`history
      ensures Model() == AfterRecord(old(Model()), commandId, row, fate)
      ensures recorded == if fate.Answered? then Ok(commandId !in old(ledger)) else Err(fate.sqlstate)
    {
      if fate.Refused? {
        return Err(fate.sqlstate);
      }
      var first := commandId !in ledger;
      if first {
        ledger := ledger[commandId := row];
        history := history.(recorded := history.recorded + 1, recordedNow := history.recordedNow + 1,
                            lostNow := history.lostNow + if fate.AnswerLost? then 1 else 0);
      }
      if fate.AnswerLost? {
        return Err(fate.sqlstate);
      }
      return Ok(first);
    }

    method Abandon(commandId: Uuid, row: DeadLetter, fate: Fate) returns (kind: FailureClass)
      modifies this`ledger, this`history, this`metrics
      ensures (Model(), kind) == IntakeProtocol.Abandon(old(Model()), commandId, row, fate)
    {
      var recorded := RecordDeadLetter(commandId, row, fate);
      match recorded {
        case Ok(true) =>
          metrics := metrics.(deadLetters := metrics.deadLetters + 1);
          return Poison;
        case Ok(false) =>
          return Poison;
        case Err(_) =>
          metrics := metrics.(ledgerFailures := metrics.ledgerFailures + 1);
          return Transient;
      }
    }

    method Triage(e: Envelope, command: DeliverNotification, sqlstate: Option<string>, w: Weather)
      returns (kind: FailureClass)
      modifies this`ledger, this`history, this`metrics
      ensures (Model(), kind) == IntakeProtocol.Triage(old(Model()), e, command, sqlstate, w)
    {
      match ClassifySqlstate(sqlstate) {
        case Transient => return Transient;
        case Poison =>
          kind := Abandon(e.commandId,
                          DeadLetter(Some(command.sourceEventId), command.recipientIds, e.payload, StorageRejected,
                                     sqlstate, e.trace, clock), w.ledger);
      }
    }

    method Apply(id: nat, outcome: Outcome, reached: bool)
      requires id in broker
      modifies this`broker
      ensures Model() == Settle(old(Model()), id, outcome, reached)
    {
      if reached && broker[id].settlement == Pending {
        broker := broker[id := broker[id].(settlement := Settled(broker[id].settlement, outcome))];
      }
    }

    method HandleReadable(id: nat, e: Envelope, w: Weather) returns (failure: Option<FailureClass>)
      requires Valid() && WeatherFits(Model(), e.payload, w)
      modifies this`ledger, this`history, this`metrics, database
      ensures Valid() && (Model(), failure) == Process(old(Model()), e, w)
      ensures metrics.streak == old(metrics.streak)
    {
      match Validate(e.payload) {
        case Err(reason) =>
          var row := DeadLetter(TracedSourceEventId(e.payload), TracedRecipientIds(e.payload), e.payload, reason, None,
                                e.trace, clock);
          var kind := Abandon(e.commandId, row, w.ledger);
          return Some(kind);
        case Ok(command) =>
          var written := FanOut(command, w);
          match written {
            case Ok(_) => return None;
            case Err(sqlstate) =>
              var kind := Triage(e, command, sqlstate, w);
              return Some(kind);
          }
      }
    }

    /** Settles a readable frame on what became of its command. */
    method Conclude(id: nat, failure: Option<FailureClass>, reached: bool) returns (verdict: Verdict)
      requires id in broker
      modifies this`broker
      ensures IntakeProtocol.Observe(Model(), verdict) == IntakeProtocol.Conclude(old(Model()), id, failure, reached)
    {
      Apply(id, OutcomeFor(failure), reached);
      match failure {
        case None => return Written;
        case Some(kind) => return Failed(kind);
      }
    }

    method HoldUnreadable(id: nat, reached: bool) returns (verdict: Verdict)
      requires id in broker
      modifies this`broker, this`metrics
      ensures IntakeProtocol.Observe(Model(), verdict) == HandleUnreadable(old(Model()), id, reached)
      ensures metrics.streak == old(metrics.streak)
    {
      metrics := metrics.(undecodable := metrics.undecodable + 1);
      Apply(id, Nak(UNDECODABLE_NAK_DELAY), reached);
      return NotAttempted;
    }

    /** One delivery, from its bytes to its settlement; the verdict is left to be
        observed. */
    method Handle(id: nat, w: Weather) returns (verdict: Verdict)
      requires Valid() && Enabled(Model(), Step.Deliver(id, w))
      modifies this`broker, this`ledger, this`history, this`metrics, database
      ensures Valid() && IntakeProtocol.Observe(Model(), verdict) == IntakeProtocol.Handle(old(Model()), id, w)
      ensures metrics.streak == old(metrics.streak)
    {
      match broker[id].frame {
        case Unreadable =>
          verdict := HoldUnreadable(id, w.settled);
        case Readable(e) =>
          var failure := HandleReadable(id, e, w);
          verdict := Conclude(id, failure, w.settled);
      }
    }

    method Observe(verdict: Verdict, streak: nat) returns (streak': nat)
      requires streak == metrics.streak
      modifies this`metrics, this`history
      ensures Model() == IntakeProtocol.Observe(old(Model()), verdict)
      ensures streak' == metrics.streak
    {
      if verdict == Failed(Transient) {
        metrics := metrics.(transientFailures := metrics.transientFailures + 1);
      }
      streak' := TransientStreakAfter(verdict, streak);
      metrics := metrics.(streak := streak');
      history := history.(verdicts := history.verdicts + [verdict]);
    }

    /** One delivery taken from the stream, handled and observed. */
    method ServeDelivery(id: nat, frame: Frame, w: Weather, streak: nat) returns (streak': nat)
      requires Valid() && streak == metrics.streak && Serve(Model(), Received(id, frame, w)).Some?
      modifies this`broker, this`ledger, this`history, this`metrics, database
      ensures Valid() && streak' == metrics.streak
      ensures Serve(old(Model()), Received(id, frame, w)) == Some(Model())
    {
      if id !in broker {
        broker := broker[id := Delivery(frame, Pending)];
      }
      var verdict := Handle(id, w);
      streak' := Observe(verdict, streak);
    }

    method FailLoud()
      modifies this`ready, this`shutdownSent
      ensures !ready && shutdownSent
    {
      ready := false;
      shutdownSent := true;
    }

    /** One turn of the loop. */
    method Wake(event: Event, errors: nat, streak: nat) returns (stop: Stop, errors': nat, streak': nat)
      requires Valid() && streak == metrics.streak && Serve(Model(), event).Some?
      modifies this, database
      ensures Valid() && streak' == metrics.streak && Serve(old(Model()), event) == Some(Model())
      ensures stop == StopOn(event, errors) && errors' == ErrorsAfter(event, errors)
      ensures if stop == Closed || stop == BudgetSpent then !ready && shutdownSent
              else ready == old(ready) && shutdownSent == old(shutdownSent)
    {
      stop, errors', streak' := Running, errors, streak;
      match event {
        case ShutdownRequested =>
          stop := Shutdown;
        case Received(id, frame, w) =>
          errors' := 0;
          streak' := ServeDelivery(id, frame, w, streak);
        case StreamClosed =>
          FailLoud();
          stop := Closed;
        case RecvError =>
          errors' := errors + 1;
          if errors' >= MAX_CONSECUTIVE_RECV_ERRORS {
            FailLoud();
            stop := BudgetSpent;
          }
      }
    }

    /** The loop serves every delivery in order and stops at the first event that
        is a shutdown, the stream's end, or the tenth recv error with nothing
        delivered in between; the last two fail loud. */
    method Consume(events: seq<Event>) returns (stop: Stop, taken: nat)
      requires Valid() && metrics.streak == 0 && ServeAll(Model(), events).Some?
      modifies this, database
      ensures Valid() && taken <= |events|
      ensures ServeAll(old(Model()), events[..taken]) == Some(Model())
      ensures stop == StopBy(events, taken)
      ensures if stop == Running then taken == |events| else 0 < taken && StopBy(events, taken - 1) == Running
      ensures if stop == Closed || stop == BudgetSpent then !ready && shutdownSent
              else ready == old(ready) && shutdownSent == old(shutdownSent)
    {
      var consecutiveErrors: nat, transientStreak: nat := 0, 0;
      stop, taken := Running, 0;
      assert events[..0] == [];
      while taken < |events| && stop == Running
        invariant Valid() && taken <= |events| && transientStreak == metrics.streak
        invariant ServeAll(old(Model()), events[..taken]) == Some(Model())
        invariant if stop == Closed || stop == BudgetSpent then !ready && shutdownSent
                  else ready == old(ready) && shutdownSent == old(shutdownSent)
        invariant stop == StopBy(events, taken) && consecutiveErrors == Errors(events, taken)
        invariant stop != Running ==> 0 < taken && StopBy(events, taken - 1) == Running
        decreases |events| - taken
      {
        ServeNext(old(Model()), events, taken);
        stop, consecutiveErrors, transientStreak := Wake(events[taken], consecutiveErrors, transientStreak);
        taken := taken + 1;
      }
      assert events[..|events|] == events;
    }

    /** The retention pass over the ledger, in the order `scan` visits it. */
    method DeleteExpiredDeadLetters(scan: seq<Uuid>, fate: Fate) returns (result: Result<nat, Option<string>>)
      requires Distinct(scan) && forall c :: c in ledger ==> c in scan
      modifies this`ledger, this`history
      ensures var rows := ExpiredIn(scan, old(ledger), clock);
        && ListsExpired(old(ledger), clock, rows)
        && ledger == (if Committed(fate) then Kept(old(ledger), rows) else old(ledger))
        && history == (if Committed(fate)
                       then old(history).(
                              purges := old(history).purges + PurgedRows(old(ledger), clock, rows),
                              purgesLost := old(history).purgesLost + if fate.AnswerLost? then |rows| else 0)
                       else old(history))
        && result == (if fate.Answered? then Ok(|rows|) else Err(fate.sqlstate))
    {
      var left, deleted := ledger, 0;
      for i := 0 to |scan|
        invariant ledger == old(ledger) && history == old(history)
        invariant left == Kept(ledger, ExpiredIn(scan[..i], ledger, clock))
        invariant deleted == |ExpiredIn(scan[..i], ledger, clock)|
      {
        KeptNext(ledger, clock, scan, i);
        var c := scan[i];
        if c in left && Expired(left[c], clock) {
          left := left - {c};
          deleted := deleted + 1;
        }
      }
      assert scan[..|scan|] == scan;
      ExpiredInLists(scan, ledger, clock);
      if fate.Refused? {
        return Err(fate.sqlstate);
      }
      ghost var rows := ExpiredIn(scan, ledger, clock);
      history := history.(purges := history.purges + PurgedRows(ledger, clock, rows),
                          purgesLost := history.purgesLost + if fate.AnswerLost? then |rows| else 0);
      ledger := left;
      if fate.AnswerLost? {
        return Err(fate.sqlstate);
      }
      return Ok(deleted);
    }

    /** One tick of the purge task. */
    method PurgeDeadLetters(scan: seq<Uuid>, fate: Fate)
      requires Distinct(scan) && forall c :: c in ledger ==> c in scan
      modifies this`ledger, this`history, this`metrics
      ensures ListsExpired(old(ledger), clock, ExpiredIn(scan, old(ledger), clock))
      ensures Model() == PurgePass(old(Model()), ExpiredIn(scan, old(ledger), clock), fate)
    {
      var result := DeleteExpiredDeadLetters(scan, fate);
      match result {
        case Ok(purged) =>
          metrics := metrics.(purgePasses := metrics.purgePasses + 1, purged := metrics.purged + purged);
        case Err(_) =>
          metrics := metrics.(purgeFailures := metrics.purgeFailures + 1);
      }
    }
  }

  /** What the fan-out's commit makes of the store. */
  lemma FanOutCommits(s: State, c: Commit)
    requires c.Insert? && FreshIds(c.minted, s.used) && s.rows.Keys <= s.used
    ensures FreshIds(c.minted, s.rows.Keys)
    ensures var winners := FirstWins(c.minted, Taken(s.rows, c.source));
      && Store.Apply(s, c) == State(AddRows(s.rows, c.source, c.body, c.at, winners),
                                    s.log + AddedSignals(winners), s.used + IdsIn(winners))
      && AddRows(s.rows, c.source, c.body, c.at, winners).Keys <= s.used + IdsIn(winners)
  {
    var winners := Inserting(s, c);
  }

  function ExpiredIn(scan: seq<Uuid>, ledger: map<Uuid, DeadLetter>, clock: Time): seq<Uuid> {
    Filter(scan, Expires(ledger, clock))
  }

  function Expires(ledger: map<Uuid, DeadLetter>, clock: Time): Uuid -> bool {
    c => c in ledger && Expired(ledger[c], clock)
  }

  lemma ExpiredInLists(scan: seq<Uuid>, ledger: map<Uuid, DeadLetter>, clock: Time)
    requires Distinct(scan) && forall c :: c in ledger ==> c in scan
    ensures ListsExpired(ledger, clock, ExpiredIn(scan, ledger, clock))
  {
    FilterElements(scan, Expires(ledger, clock));
    FilterDistinct(scan, Expires(ledger, clock));
  }

  /** The scan's next row: deleted now exactly when it joins the expired ones. */
  lemma KeptNext(ledger: map<Uuid, DeadLetter>, clock: Time, scan: seq<Uuid>, i: nat)
    requires Distinct(scan) && i < |scan|
    ensures var before, after := ExpiredIn(scan[..i], ledger, clock), ExpiredIn(scan[..i + 1], ledger, clock);
            var left, c := Kept(ledger, before), scan[i];
            if c in left && Expired(left[c], clock)
            then |after| == |before| + 1 && Kept(ledger, after) == left - {c}
            else after == before
  {
    ScanNext(scan, i, Expires(ledger, clock));
  }
}
