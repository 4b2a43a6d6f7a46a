/** At-least-once delivery refines exactly-once: the store of a run with
    duplicates, failed and unanswered writes, lost settlements and restarts is the
    store of the run that applies each distinct command once. */
module ExactlyOnce {
  import opened Prelude
  import opened Store
  import opened Views
  import opened Lifecycle
  import opened Wire
  import opened IntakeProtocol
  import opened IntakeSafety

  // ---- A duplicate is a stutter ------------------------------------------------------

  lemma {:induction false} NobodyLacking(minted: seq<Minted>, taken: set<Uuid>)
    requires forall i :: 0 <= i < |minted| ==> minted[i].recipient in taken
    ensures FirstWins(minted, taken) == []
  {
    if minted != [] {
      NobodyLacking(minted[1..], taken);
    }
  }

  /** Applying a fan-out changes nothing exactly when every recipient it names
      already holds a row: so does a redelivery, until a delete frees its key. */
  lemma FanOutStuttersIff(s: State, c: Commit)
    requires c.Insert? && Valid(s, c) && s.rows.Keys <= s.used
    ensures Apply(s, c) == s <==> forall i :: 0 <= i < |c.minted| ==> HasKey(s.rows, c.source, c.minted[i].recipient)
  {
    if forall i :: 0 <= i < |c.minted| ==> HasKey(s.rows, c.source, c.minted[i].recipient) {
      NobodyLacking(c.minted, Taken(s.rows, c.source));
      assert s.log + [] == s.log && s.used + IdsIn([]) == s.used;
    } else {
      var i :| 0 <= i < |c.minted| && !HasKey(s.rows, c.source, c.minted[i].recipient);
      EveryoneNamedHasARow(s, c, i);
    }
  }

  /** The delete that frees a key lets a redelivery deliver again: the deleted
      notification comes back as a new row, announced a second time. */
  lemma DeleteThenRedeliverRecreates(s: State, c: Commit, id: Uuid, i: nat)
    requires c.Insert? && s.rows.Keys <= s.used && UniqueKey(s.rows) && id in s.rows
    requires s.rows[id].source == c.source && i < |c.minted| && s.rows[id].recipient == c.minted[i].recipient
    requires Valid(Apply(s, Delete(s.rows[id].recipient, [id])), c)
    ensures var deleted := Apply(s, Delete(s.rows[id].recipient, [id]));
            Apply(deleted, c) != deleted && HasKey(Apply(deleted, c).rows, c.source, c.minted[i].recipient)
  {
    var deleted := Apply(s, Delete(s.rows[id].recipient, [id]));
    assert !HasKey(deleted.rows, c.source, c.minted[i].recipient) by {
      assert forall o :: o in deleted.rows ==> o in s.rows && o != id && deleted.rows[o] == s.rows[o];
    }
    FanOutStuttersIff(deleted, c);
    EveryoneNamedHasARow(deleted, c, i);
  }

  // ---- The run that applies each command once ------------------------------------------

  /** The command a delivery commits, if it validates and its write commits. */
  function CommittedCommand(s: System, id: nat, w: Weather): Option<DeliverNotification>
    requires id in s.broker
  {
    match s.broker[id].frame
    case Unreadable => None
    case Readable(e) =>
      match Validate(e.payload)
      case Err(_) => None
      case Ok(command) => if Committed(w.write) then Some(command) else None
  }

  /** The exactly-once run: its commits, and the commands applied so far. */
  datatype Essence = Essence(commits: seq<Commit>, applied: seq<DeliverNotification>)

  /** A command's first committed write and the recipients' own mutations stay;
      every other step becomes nothing. */
  function EssenceOf(steps: seq<Step>): Essence
    requires Runs(steps)
  {
    if steps == [] then Essence([], []) else
      var before, step := EssenceOf(steps[..|steps| - 1]), steps[|steps| - 1];
      match step
      case Deliver(id, w) =>
        (match CommittedCommand(After(steps[..|steps| - 1]), id, w)
         case Some(command) =>
           if command in before.applied || |w.ids| != |command.recipientIds| then before
           else Essence(before.commits + [FanOut(command, w)], before.applied + [command])
         case None => before)
      case Mutate(c) => before.(commits := before.commits + [c])
      case _ => before
  }

  ghost predicate AllServed(s: State, command: DeliverNotification) {
    forall r :: r in command.recipientIds ==> HasKey(s.rows, command.sourceEventId, r)
  }

  lemma FanOutServes(s: State, command: DeliverNotification, w: Weather)
    requires |w.ids| == |command.recipientIds| && Valid(s, FanOut(command, w)) && s.rows.Keys <= s.used
    ensures AllServed(Apply(s, FanOut(command, w)), command)
    ensures AllServed(s, command) ==> Apply(s, FanOut(command, w)) == s
  {
    var c := FanOut(command, w);
    forall r | r in command.recipientIds
      ensures HasKey(Apply(s, c).rows, command.sourceEventId, r)
    {
      var i :| 0 <= i < |command.recipientIds| && command.recipientIds[i] == r;
      EveryoneNamedHasARow(s, c, i);
    }
    FanOutStuttersIff(s, c);
  }

  /** Recording or refusing a command touches no notification. */
  lemma AbandonTouchesNoRow(s: System, commandId: Uuid, row: DeadLetter, fate: Fate)
    ensures var t := Abandon(s, commandId, row, fate).0;
            t.store == s.store && t.history.delivered == s.history.delivered
  {
  }

  lemma TriageTouchesNoRow(s: System, e: Envelope, command: DeliverNotification, sqlstate: Option<string>, w: Weather)
    ensures var t := Triage(s, e, command, sqlstate, w).0;
            t.store == s.store && t.history.delivered == s.history.delivered
  {
  }

  lemma ProcessWrites(s: System, e: Envelope, w: Weather)
    requires WeatherFits(s, e.payload, w)
    ensures var t := Process(s, e, w).0;
      match Validate(e.payload)
      case Ok(command) => t.store == AfterWrite(s, command, w).store
                          && t.history.delivered == AfterWrite(s, command, w).history.delivered
      case Err(_) => t.store == s.store && t.history.delivered == s.history.delivered
  {
    match Validate(e.payload) {
      case Ok(command) =>
        if !w.write.Answered? {
          TriageTouchesNoRow(AfterWrite(s, command, w), e, command, w.write.sqlstate, w);
        }
      case Err(reason) =>
        AbandonTouchesNoRow(s, e.commandId, RefusalRow(s, e, reason), w.ledger);
    }
  }

  /** What a step does to the store: one commit or none. */
  lemma StoreAfterDelivery(s: System, id: nat, w: Weather)
    requires Enabled(s, Step.Deliver(id, w))
    ensures var command := CommittedCommand(s, id, w);
      if command.Some?
      then && |w.ids| == |command.value.recipientIds| && Valid(s.store, FanOut(command.value, w))
           && Handle(s, id, w).store == Apply(s.store, FanOut(command.value, w))
      else Handle(s, id, w).store == s.store
  {
    if s.broker[id].frame.Readable? {
      ProcessWrites(s, s.broker[id].frame.envelope, w);
    }
  }

  /** The command whose fan-out a step commits. */
  function CommandAt(s: System, step: Step): Option<DeliverNotification>
    requires Enabled(s, step)
  {
    match step
    case Deliver(id, w) => CommittedCommand(s, id, w)
    case _ => None
  }

  lemma EssenceStep(steps: seq<Step>)
    requires Runs(steps) && steps != []
    ensures var s, step := After(steps[..|steps| - 1]), steps[|steps| - 1];
      var before, after, command := EssenceOf(steps[..|steps| - 1]), EssenceOf(steps), CommandAt(s, step);
      if command.Some? then
        && step.Deliver? && |step.weather.ids| == |command.value.recipientIds|
        && after == (if command.value in before.applied then before
                     else Essence(before.commits + [FanOut(command.value, step.weather)],
                                  before.applied + [command.value]))
      else after == (if step.Mutate? then before.(commits := before.commits + [step.commit]) else before)
  {
  }

  /** What a step does to the store. */
  lemma StoreStep(s: System, step: Step)
    requires Enabled(s, step)
    ensures var command, t := CommandAt(s, step), Next(s, step).store;
      if command.Some? then
        && step.Deliver? && |step.weather.ids| == |command.value.recipientIds|
        && Valid(s.store, FanOut(command.value, step.weather))
        && t == Apply(s.store, FanOut(command.value, step.weather))
      else if step.Mutate? then Valid(s.store, step.commit) && t == Apply(s.store, step.commit)
      else t == s.store
  {
    if step.Deliver? {
      StoreAfterDelivery(s, step.id, step.weather);
    }
  }

  /** No redelivery of an applied command finds a recipient without a row: nobody
      deleted what it delivered and freed the key for it. */
  ghost predicate NothingFreed(steps: seq<Step>)
    requires Runs(steps)
  {
    steps == [] ||
    (var shorter, step := steps[..|steps| - 1], steps[|steps| - 1];
     var command := CommandAt(After(shorter), step);
     && NothingFreed(shorter)
     && (command.Some? && command.value in EssenceOf(shorter).applied ==>
           AllServed(After(shorter).store, command.value)))
  }

  /** While nothing was freed the essence is a valid run of commits that reaches the
      same table, announcement log and used ids. */
  lemma {:induction false} EssenceKeepsUp(steps: seq<Step>)
    requires Runs(steps) && NothingFreed(steps)
    ensures ValidRun(EssenceOf(steps).commits) && Replay(EssenceOf(steps).commits) == After(steps).store
  {
    if steps != [] {
      var shorter, step := steps[..|steps| - 1], steps[|steps| - 1];
      var s, before := After(shorter), EssenceOf(shorter);
      EssenceKeepsUp(shorter);
      EveryRunIsSafe(shorter);
      EssenceStep(steps);
      StoreStep(s, step);
      match CommandAt(s, step) {
        case Some(command) =>
          var c := FanOut(command, step.weather);
          if command in before.applied {
            FanOutServes(s.store, command, step.weather);
          } else {
            ReplayAppend(before.commits, c);
          }
        case None =>
          if step.Mutate? {
            ReplayAppend(before.commits, step.commit);
          }
      }
    }
  }

  /** An id the run used and its essence did not: it stays so whatever follows. */
  ghost predicate Apart(steps: seq<Step>, x: Uuid)
    requires Runs(steps)
  {
    x in After(steps).store.used && x !in Replay(EssenceOf(steps).commits).used
  }

  lemma StaysApart(steps: seq<Step>, x: Uuid)
    requires Runs(steps) && steps != [] && Apart(steps[..|steps| - 1], x)
    ensures Apart(steps, x)
  {
    var shorter, step := steps[..|steps| - 1], steps[|steps| - 1];
    var s, before := After(shorter), EssenceOf(shorter);
    EssenceStep(steps);
    StoreStep(s, step);
    var after := EssenceOf(steps);
    if after.commits != before.commits {
      var c := after.commits[|before.commits|];
      assert after.commits == before.commits + [c];
      ReplayAppend(before.commits, c);
      UsedGrowsByMinted(Replay(before.commits), c, x);
      assert c.Insert? ==> Valid(s.store, c);
    }
    if Next(s, step).store != s.store {
      var c := if step.Mutate? then step.commit else FanOut(CommandAt(s, step).value, step.weather);
      UsedGrowsByMinted(s.store, c, x);
    }
  }

  /** The redelivery that finds a freed key uses an id the essence never uses. */
  lemma FreedComesApart(steps: seq<Step>) returns (x: Uuid)
    requires Runs(steps) && steps != [] && NothingFreed(steps[..|steps| - 1]) && !NothingFreed(steps)
    ensures Apart(steps, x)
  {
    var shorter, step := steps[..|steps| - 1], steps[|steps| - 1];
    var s := After(shorter);
    EssenceKeepsUp(shorter);
    EveryRunIsSafe(shorter);
    EssenceStep(steps);
    StoreStep(s, step);
    var command := CommandAt(s, step).value;
    x := RecreatedId(s.store, command, step.weather);
  }

  lemma RecreatedId(s: State, command: DeliverNotification, w: Weather) returns (x: Uuid)
    requires |w.ids| == |command.recipientIds| && Valid(s, FanOut(command, w)) && s.rows.Keys <= s.used
    requires !AllServed(s, command)
    ensures x in Apply(s, FanOut(command, w)).used && x !in s.used
  {
    var c := FanOut(command, w);
    var winners := Inserting(s, c);
    FanOutStuttersIff(s, c);
    assert exists i :: 0 <= i < |c.minted| && !HasKey(s.rows, c.source, c.minted[i].recipient) by {
      var r :| r in command.recipientIds && !HasKey(s.rows, command.sourceEventId, r);
      var i :| 0 <= i < |command.recipientIds| && command.recipientIds[i] == r;
      assert c.minted[i].recipient == r;
    }
    assert winners == [] ==> s.log + [] == s.log && s.used + IdsIn([]) == s.used;
    x := winners[0].id;
  }

  lemma {:induction false} FreedStaysApart(steps: seq<Step>) returns (x: Uuid)
    requires Runs(steps) && !NothingFreed(steps)
    ensures Apart(steps, x)
  {
    var shorter := steps[..|steps| - 1];
    if NothingFreed(shorter) {
      x := FreedComesApart(steps);
    } else {
      x := FreedStaysApart(shorter);
      StaysApart(steps, x);
    }
  }

  /** Every run, whatever was redelivered, failed, lost, restarted or deleted, ends
      with the table and the announcement log of its essence (the run that applies
      each distinct command at most once, in order of first committed write) exactly
      when no redelivery found a key that a delete had freed. */
  lemma RedeliveryRefinesExactlyOnce(steps: seq<Step>)
    requires Runs(steps)
    ensures Replay(EssenceOf(steps).commits) == After(steps).store <==> NothingFreed(steps)
    ensures NothingFreed(steps) ==> ValidRun(EssenceOf(steps).commits)
  {
    if NothingFreed(steps) {
      EssenceKeepsUp(steps);
    } else {
      var x := FreedStaysApart(steps);
    }
  }

  /** The fan-outs of a run of commits, in order. */
  function FanOuts(commits: seq<Commit>): seq<Commit> {
    Filter(commits, (c: Commit) => c.Insert?)
  }

  predicate IsFanOutOf(c: Commit, command: DeliverNotification) {
    && c.Insert? && c.source == command.sourceEventId
    && c.body == Body(command.template, command.payload, command.link)
    && |c.minted| == |command.recipientIds|
    && forall i :: 0 <= i < |c.minted| ==> c.minted[i].recipient == command.recipientIds[i]
  }

  /** The essence applies each distinct command once: its fan-outs are, in order,
      those of the applied commands, which are pairwise different. */
  lemma {:induction false} EssenceAppliesEachCommandOnce(steps: seq<Step>)
    requires Runs(steps)
    ensures Distinct(EssenceOf(steps).applied)
    ensures |FanOuts(EssenceOf(steps).commits)| == |EssenceOf(steps).applied|
    ensures forall k :: 0 <= k < |EssenceOf(steps).applied| ==>
              IsFanOutOf(FanOuts(EssenceOf(steps).commits)[k], EssenceOf(steps).applied[k])
  {
    if steps != [] {
      var shorter, step := steps[..|steps| - 1], steps[|steps| - 1];
      EssenceAppliesEachCommandOnce(shorter);
      var before, after := EssenceOf(shorter), EssenceOf(steps);
      if after != before {
        var c := after.commits[|before.commits|];
        assert after.commits == before.commits + [c];
        FilterConcat(before.commits, [c], (c: Commit) => c.Insert?);
        FilterCons(c, [], (c: Commit) => c.Insert?);
        assert [c] + [] == [c];
      }
    }
  }

  lemma DeliveredGrowsByTheCommand(s: System, id: nat, w: Weather)
    requires Enabled(s, Step.Deliver(id, w))
    ensures var command := CommittedCommand(s, id, w);
      Handle(s, id, w).history.delivered
      == s.history.delivered + if command.Some? then KeysOf(command.value) else {}
  {
    if s.broker[id].frame.Readable? {
      ProcessWrites(s, s.broker[id].frame.envelope, w);
    }
  }

  // ---- Which keys are held -------------------------------------------------------------

  /** The step commits a fan-out that names the key. */
  predicate WritesKey(s: System, step: Step, source: Uuid, recipient: Uuid)
    requires Enabled(s, step)
  {
    var command := CommandAt(s, step);
    command.Some? && command.value.sourceEventId == source && recipient in command.value.recipientIds
  }

  /** The commit deletes the row under the key. */
  predicate DeletesKey(s: State, c: Commit, source: Uuid, recipient: Uuid) {
    c.Delete? && exists id :: id in c.ids && id in s.rows
                              && s.rows[id].source == source && s.rows[id].recipient == recipient
  }

  /** The last step that wrote or deleted the key wrote it. */
  predicate LastWritten(steps: seq<Step>, source: Uuid, recipient: Uuid)
    requires Runs(steps)
  {
    steps != [] &&
    (var shorter, step := steps[..|steps| - 1], steps[|steps| - 1];
     || WritesKey(After(shorter), step, source, recipient)
     || (LastWritten(shorter, source, recipient)
         && !(step.Mutate? && DeletesKey(After(shorter).store, step.commit, source, recipient))))
  }

  /** A key once held stays held until its row is deleted. */
  lemma KeysStayHeld(s: State, c: Commit, source: Uuid, recipient: Uuid)
    requires Valid(s, c) && s.rows.Keys <= s.used && HasKey(s.rows, source, recipient)
    requires !DeletesKey(s, c, source, recipient)
    ensures HasKey(Apply(s, c).rows, source, recipient)
  {
    var id :| id in s.rows && s.rows[id].source == source && s.rows[id].recipient == recipient;
    if c.Insert? {
      var winners := Inserting(s, c);
      assert Apply(s, c).rows[id] == s.rows[id];
    } else {
      assert Apply(s, c).rows[id].source == source && Apply(s, c).rows[id].recipient == recipient;
    }
  }

  /** A mutation holds a key afterwards exactly when it was held and not deleted. */
  lemma MutationHolds(s: State, c: Commit, source: Uuid, recipient: Uuid)
    requires Valid(s, c) && s.rows.Keys <= s.used && !c.Insert? && UniqueKey(s.rows)
    ensures HasKey(Apply(s, c).rows, source, recipient)
            <==> HasKey(s.rows, source, recipient) && !DeletesKey(s, c, source, recipient)
  {
    var after := Apply(s, c).rows;
    if HasKey(after, source, recipient) {
      var id :| id in after && after[id].source == source && after[id].recipient == recipient;
      assert s.rows[id].source == source && s.rows[id].recipient == recipient;
    } else if HasKey(s.rows, source, recipient) && !DeletesKey(s, c, source, recipient) {
      KeysStayHeld(s, c, source, recipient);
    }
  }

  /** A fan-out holds afterwards what was held and what it names. */
  lemma FanOutHolds(s: State, command: DeliverNotification, w: Weather, source: Uuid, recipient: Uuid)
    requires |w.ids| == |command.recipientIds| && Valid(s, FanOut(command, w)) && s.rows.Keys <= s.used
    ensures HasKey(Apply(s, FanOut(command, w)).rows, source, recipient)
            <==> HasKey(s.rows, source, recipient)
                 || (command.sourceEventId == source && recipient in command.recipientIds)
  {
    var c := FanOut(command, w);
    FanOutServes(s, command, w);
    if HasKey(s.rows, source, recipient) {
      KeysStayHeld(s, c, source, recipient);
    } else if HasKey(Apply(s, c).rows, source, recipient) {
      var after := Apply(s, c).rows;
      var id :| id in after && after[id].source == source && after[id].recipient == recipient;
      OldRowsStay(s, c, id);
      NewKeysAreNamed(s, c, id);
      var k :| 0 <= k < |c.minted| && c.minted[k].recipient == recipient;
      assert command.recipientIds[k] == recipient;
    }
  }

  lemma RunKeepsKeysUnique(steps: seq<Step>)
    requires Runs(steps)
    ensures UniqueKey(After(steps).store.rows)
  {
    var cs := IntakeRefinesRuns(steps);
    KeysStayUnique(cs);
  }

  /** In every run a recipient holds a row for a source exactly when the last step
      that wrote or deleted that key wrote it. */
  lemma {:induction false} HeldIffLastWritten(steps: seq<Step>, source: Uuid, recipient: Uuid)
    requires Runs(steps)
    ensures HasKey(After(steps).store.rows, source, recipient) <==> LastWritten(steps, source, recipient)
  {
    if steps != [] {
      var shorter, step := steps[..|steps| - 1], steps[|steps| - 1];
      var s := After(shorter);
      HeldIffLastWritten(shorter, source, recipient);
      EveryRunIsSafe(shorter);
      RunKeepsKeysUnique(shorter);
      StoreStep(s, step);
      if CommandAt(s, step).Some? {
        FanOutHolds(s.store, CommandAt(s, step).value, step.weather, source, recipient);
      } else if step.Mutate? {
        MutationHolds(s.store, step.commit, source, recipient);
      }
    }
  }

  /** What an ack promises, in every run: a delivered key is held now exactly when
      no delete took it since it was last written. */
  lemma {:induction false} AckedMeansHeld(steps: seq<Step>, source: Uuid, recipient: Uuid)
    requires Runs(steps) && (source, recipient) in After(steps).history.delivered
    ensures HasKey(After(steps).store.rows, source, recipient) <==> !DeletedSinceWritten(steps, source, recipient)
  {
    HeldIffLastWritten(steps, source, recipient);
    WrittenOrDeleted(steps, source, recipient);
  }

  /** Some step deleted the key, and none wrote it after that. */
  predicate DeletedSinceWritten(steps: seq<Step>, source: Uuid, recipient: Uuid)
    requires Runs(steps)
  {
    steps != [] &&
    (var shorter, step := steps[..|steps| - 1], steps[|steps| - 1];
     || (step.Mutate? && DeletesKey(After(shorter).store, step.commit, source, recipient))
     || (DeletedSinceWritten(shorter, source, recipient) && !WritesKey(After(shorter), step, source, recipient)))
  }

  lemma {:induction false} WrittenOrDeleted(steps: seq<Step>, source: Uuid, recipient: Uuid)
    requires Runs(steps) && (source, recipient) in After(steps).history.delivered
    ensures LastWritten(steps, source, recipient) <==> !DeletedSinceWritten(steps, source, recipient)
  {
    var shorter, step := steps[..|steps| - 1], steps[|steps| - 1];
    if step.Deliver? {
      DeliveredGrowsByTheCommand(After(shorter), step.id, step.weather);
    }
    if (source, recipient) in After(shorter).history.delivered {
      WrittenOrDeleted(shorter, source, recipient);
    }
  }

  // ---- Which deletes matter ---------------------------------------------------------------

  /** The commit deletes a row under one of the command's keys. */
  predicate DeletesARowOf(s: State, c: Commit, command: DeliverNotification) {
    exists r :: r in command.recipientIds && DeletesKey(s, c, command.sourceEventId, r)
  }

  /** A delete has taken one of the command's rows since its first committed write. */
  predicate DeletedSinceApplied(steps: seq<Step>, command: DeliverNotification)
    requires Runs(steps)
  {
    steps != [] &&
    (var shorter, step := steps[..|steps| - 1], steps[|steps| - 1];
     || DeletedSinceApplied(shorter, command)
     || (step.Mutate? && command in EssenceOf(shorter).applied
         && DeletesARowOf(After(shorter).store, step.commit, command)))
  }

  /** No redelivery of a command follows a delete of one of its rows. */
  predicate NoDeleteBeforeARedelivery(steps: seq<Step>)
    requires Runs(steps)
  {
    steps == [] ||
    (var shorter, step := steps[..|steps| - 1], steps[|steps| - 1];
     var command := CommandAt(After(shorter), step);
     && NoDeleteBeforeARedelivery(shorter)
     && (command.Some? && command.value in EssenceOf(shorter).applied ==>
           !DeletedSinceApplied(shorter, command.value)))
  }

  lemma {:induction false} AppliedStaysServed(steps: seq<Step>, command: DeliverNotification)
    requires Runs(steps) && command in EssenceOf(steps).applied && !DeletedSinceApplied(steps, command)
    ensures AllServed(After(steps).store, command)
  {
    var shorter, step := steps[..|steps| - 1], steps[|steps| - 1];
    var s := After(shorter);
    EveryRunIsSafe(shorter);
    EssenceStep(steps);
    StoreStep(s, step);
    if command in EssenceOf(shorter).applied {
      AppliedStaysServed(shorter, command);
    }
    forall r | r in command.recipientIds
      ensures HasKey(After(steps).store.rows, command.sourceEventId, r)
    {
      if CommandAt(s, step).Some? {
        FanOutHolds(s.store, CommandAt(s, step).value, step.weather, command.sourceEventId, r);
      } else if step.Mutate? {
        KeysStayHeld(s.store, step.commit, command.sourceEventId, r);
      }
    }
  }

  /** Deletes are harmless unless they come between a command's first committed
      write and a committed redelivery of it, and take a row of its own. */
  lemma {:induction false} OnlyDeletesInBetweenFree(steps: seq<Step>)
    requires Runs(steps) && NoDeleteBeforeARedelivery(steps)
    ensures NothingFreed(steps)
    ensures Replay(EssenceOf(steps).commits) == After(steps).store
  {
    if steps != [] {
      var shorter, step := steps[..|steps| - 1], steps[|steps| - 1];
      OnlyDeletesInBetweenFree(shorter);
      var command := CommandAt(After(shorter), step);
      if command.Some? && command.value in EssenceOf(shorter).applied {
        AppliedStaysServed(shorter, command.value);
      }
    }
    RedeliveryRefinesExactlyOnce(steps);
  }

  /** Every store the intake reaches is one a run of committed writes reaches:
      what was proved of runs (agreement of log and table, read-once, unique keys,
      convergence of clients) holds whatever the environment did. */
  lemma {:induction false} IntakeRefinesRuns(steps: seq<Step>) returns (cs: seq<Commit>)
    requires Runs(steps)
    ensures ValidRun(cs) && Replay(cs) == After(steps).store
  {
    cs := [];
    if steps != [] {
      var shorter, step := steps[..|steps| - 1], steps[|steps| - 1];
      cs := IntakeRefinesRuns(shorter);
      match step {
        case Deliver(id, w) =>
          StoreAfterDelivery(After(shorter), id, w);
          var command := CommittedCommand(After(shorter), id, w);
          if command.Some? {
            ReplayAppend(cs, FanOut(command.value, w));
            cs := cs + [FanOut(command.value, w)];
          }
        case Mutate(c) =>
          ReplayAppend(cs, c);
          cs := cs + [c];
        case _ =>
      }
    }
  }
}
