/** The subscriber registry as a state machine over its critical sections.

    Each step is one region run under the registry's mutex, or one send outside
    it. A dispatch takes three: the `active` check, cloning the recipient's
    sender, the send; anything may happen in between. One whose re-read finds no
    row is its check alone. */
module Registry {
  import opened Prelude

  /** A broadcast channel and everything sent through it. `owner` is the recipient
      it was opened for; each event remembers the recipient it was routed to. */
  datatype Channel<E> = Channel(owner: Uuid, sent: seq<Routed<E>>)

  datatype Routed<E> = Routed(recipient: Uuid, event: E)

  /** A stream's receiver: it reads its channel from `joined` on while open. */
  datatype Receiver = Receiver(recipient: Uuid, channel: nat, joined: nat, open: bool)

  /** A dispatch under way. `audience` is the streams open for the recipient when
      the `active` check answered yes. */
  datatype Flight<E> =
    | Checked(recipient: Uuid, event: E, audience: set<nat>)
    | Holding(recipient: Uuid, event: E, audience: set<nat>, channel: nat)

  datatype State<E> = State(
    inner: map<Uuid, nat>, channels: seq<Channel<E>>, receivers: map<nat, Receiver>, flights: map<nat, Flight<E>>)

  datatype Step<E> =
    | Subscribe(stream: nat, recipient: Uuid)
    | Close(stream: nat)
    | Activate(flight: nat, recipient: Uuid, event: E)
    | Clone(flight: nat)
    | Send(flight: nat)
    | Check(recipient: Uuid)

  function Empty<E>(): State<E> {
    State(map[], [], map[], map[])
  }

  predicate OpenOn(receivers: map<nat, Receiver>, channel: nat) {
    exists r :: r in receivers && receivers[r].open && receivers[r].channel == channel
  }

  function OpenFor(receivers: map<nat, Receiver>, recipient: Uuid): set<nat> {
    set r | r in receivers && receivers[r].open && receivers[r].recipient == recipient
  }

  predicate Enabled<E>(s: State<E>, step: Step<E>) {
    match step
    case Subscribe(stream, _) => stream !in s.receivers
    case Close(stream) => stream in s.receivers && s.receivers[stream].open
    case Activate(flight, _, _) => flight !in s.flights
    case Clone(flight) => flight in s.flights && s.flights[flight].Checked?
    case Send(flight) => flight in s.flights && s.flights[flight].Holding?
                         && s.flights[flight].channel < |s.channels|
    case Check(_) => true
  }

  /** `active`: yes while a receiver is open on the recipient's channel; otherwise
      the channel is evicted. */
  predicate IsActive<E>(s: State<E>, recipient: Uuid) {
    recipient in s.inner && OpenOn(s.receivers, s.inner[recipient])
  }

  function Next<E>(s: State<E>, step: Step<E>): State<E>
    requires Enabled(s, step)
  {
    match step
    case Subscribe(stream, recipient) =>
      var (inner, channels) :=
        if recipient in s.inner then (s.inner, s.channels)
        else (s.inner[recipient := |s.channels|], s.channels + [Channel(recipient, [])]);
      var c := inner[recipient];
      var joined := if c < |channels| then |channels[c].sent| else 0;
      s.(inner := inner, channels := channels,
         receivers := s.receivers[stream := Receiver(recipient, c, joined, true)])
    case Close(stream) =>
      s.(receivers := s.receivers[stream := s.receivers[stream].(open := false)])
    case Activate(flight, recipient, event) =>
      if IsActive(s, recipient)
      then s.(flights := s.flights[flight := Checked(recipient, event, OpenFor(s.receivers, recipient))])
      else s.(inner := s.inner - {recipient})
    case Clone(flight) =>
      var f := s.flights[flight];
      if f.recipient in s.inner
      then s.(flights := s.flights[flight := Holding(f.recipient, f.event, f.audience, s.inner[f.recipient])])
      else s.(flights := s.flights - {flight})
    case Send(flight) =>
      var f := s.flights[flight];
      var c := s.channels[f.channel];
      // a send nobody receives is refused and stores nothing
      var sent := if OpenOn(s.receivers, f.channel) then c.sent + [Routed(f.recipient, f.event)] else c.sent;
      s.(channels := s.channels[f.channel := c.(sent := sent)], flights := s.flights - {flight})
    case Check(recipient) => if IsActive(s, recipient) then s else s.(inner := s.inner - {recipient})
  }

  /** What an open stream has been sent since it subscribed. */
  function Received<E>(s: State<E>, stream: nat): seq<Routed<E>>
    requires stream in s.receivers && s.receivers[stream].channel < |s.channels|
    requires s.receivers[stream].joined <= |s.channels[s.receivers[stream].channel].sent|
  {
    s.channels[s.receivers[stream].channel].sent[s.receivers[stream].joined..]
  }

  // ---- What every interleaving keeps ------------------------------------------------

  ghost predicate ReceiverOk<E>(s: State<E>, r: Receiver) {
    && r.channel < |s.channels|
    && s.channels[r.channel].owner == r.recipient
    && r.joined <= |s.channels[r.channel].sent|
    && (r.open ==> r.recipient in s.inner && s.inner[r.recipient] == r.channel)
  }

  ghost predicate FlightOk<E>(s: State<E>, f: Flight<E>) {
    && (forall r :: r in f.audience ==> r in s.receivers && s.receivers[r].recipient == f.recipient)
    && (f.Holding? ==>
          && f.channel < |s.channels| && s.channels[f.channel].owner == f.recipient
          && forall r :: r in f.audience && s.receivers[r].open ==> s.receivers[r].channel == f.channel)
  }

  ghost predicate Inv<E>(s: State<E>) {
    && (forall q :: q in s.inner ==> s.inner[q] < |s.channels| && s.channels[s.inner[q]].owner == q)
    && (forall r :: r in s.receivers ==> ReceiverOk(s, s.receivers[r]))
    && (forall f :: f in s.flights ==> FlightOk(s, s.flights[f]))
    && (forall c, i :: 0 <= c < |s.channels| && 0 <= i < |s.channels[c].sent| ==>
          s.channels[c].sent[i].recipient == s.channels[c].owner)
  }

  lemma SubscribeKeepsInv<E>(s: State<E>, stream: nat, recipient: Uuid)
    requires Inv(s) && stream !in s.receivers
    ensures Inv(Next(s, Subscribe(stream, recipient)))
  {
    var s' := Next(s, Subscribe(stream, recipient));
    assert ReceiverOk(s', s'.receivers[stream]);
    forall r | r in s.receivers
      ensures ReceiverOk(s', s'.receivers[r])
    {
      assert ReceiverOk(s, s.receivers[r]);
    }
    forall f | f in s'.flights
      ensures FlightOk(s', s'.flights[f])
    {
      assert FlightOk(s, s.flights[f]);
    }
  }

  lemma CloseKeepsInv<E>(s: State<E>, stream: nat)
    requires Inv(s) && Enabled(s, Close(stream))
    ensures Inv(Next(s, Close(stream)))
  {
    var s' := Next(s, Close(stream));
    forall r | r in s'.receivers
      ensures ReceiverOk(s', s'.receivers[r])
    {
      assert ReceiverOk(s, s.receivers[r]);
    }
    forall f | f in s'.flights
      ensures FlightOk(s', s'.flights[f])
    {
      assert FlightOk(s, s.flights[f]);
    }
  }

  lemma ActivateKeepsInv<E>(s: State<E>, flight: nat, recipient: Uuid, event: E)
    requires Inv(s) && flight !in s.flights
    ensures Inv(Next(s, Activate(flight, recipient, event)))
  {
    var s' := Next(s, Activate(flight, recipient, event));
    forall r | r in s'.receivers
      ensures ReceiverOk(s', s'.receivers[r])
    {
      assert ReceiverOk(s, s.receivers[r]);
    }
    forall f | f in s'.flights
      ensures FlightOk(s', s'.flights[f])
    {
      if f in s.flights {
        assert FlightOk(s, s.flights[f]);
      }
    }
  }

  lemma CloneKeepsInv<E>(s: State<E>, flight: nat)
    requires Inv(s) && Enabled(s, Clone(flight))
    ensures Inv(Next(s, Clone(flight)))
  {
    var s' := Next(s, Clone(flight));
    forall r | r in s'.receivers
      ensures ReceiverOk(s', s'.receivers[r])
    {
      assert ReceiverOk(s, s.receivers[r]);
    }
    forall f | f in s'.flights
      ensures FlightOk(s', s'.flights[f])
    {
      assert FlightOk(s, s.flights[f]);
      if f == flight {
        forall r | r in s'.flights[f].audience && s'.receivers[r].open
          ensures s'.receivers[r].channel == s'.flights[f].channel
        {
          assert ReceiverOk(s, s.receivers[r]);
        }
      }
    }
  }

  lemma SendKeepsInv<E>(s: State<E>, flight: nat)
    requires Inv(s) && Enabled(s, Send(flight))
    ensures Inv(Next(s, Send(flight)))
  {
    var s' := Next(s, Send(flight));
    assert FlightOk(s, s.flights[flight]);
    forall r | r in s'.receivers
      ensures ReceiverOk(s', s'.receivers[r])
    {
      assert ReceiverOk(s, s.receivers[r]);
    }
    forall f | f in s'.flights
      ensures FlightOk(s', s'.flights[f])
    {
      assert FlightOk(s, s.flights[f]);
    }
  }

  lemma CheckKeepsInv<E>(s: State<E>, recipient: Uuid)
    requires Inv(s)
    ensures Inv(Next(s, Check(recipient)))
  {
    var s' := Next(s, Check(recipient));
    forall r | r in s'.receivers
      ensures ReceiverOk(s', s'.receivers[r])
    {
      assert ReceiverOk(s, s.receivers[r]);
    }
    forall f | f in s'.flights
      ensures FlightOk(s', s'.flights[f])
    {
      assert FlightOk(s, s.flights[f]);
    }
  }

  lemma StepKeepsInv<E>(s: State<E>, step: Step<E>)
    requires Inv(s) && Enabled(s, step)
    ensures Inv(Next(s, step))
  {
    match step {
      case Subscribe(stream, recipient) => SubscribeKeepsInv(s, stream, recipient);
      case Close(stream) => CloseKeepsInv(s, stream);
      case Activate(flight, recipient, event) => ActivateKeepsInv(s, flight, recipient, event);
      case Clone(flight) => CloneKeepsInv(s, flight);
      case Send(flight) => SendKeepsInv(s, flight);
      case Check(recipient) => CheckKeepsInv(s, recipient);
    }
  }

  function RunFrom<E>(s: State<E>, steps: seq<Step<E>>): Option<State<E>> {
    if steps == [] then Some(s) else
      match RunFrom(s, steps[..|steps| - 1])
      case Some(t) => if Enabled(t, steps[|steps| - 1]) then Some(Next(t, steps[|steps| - 1])) else None
      case None => None
  }

  function Run<E>(steps: seq<Step<E>>): Option<State<E>> {
    RunFrom(Empty(), steps)
  }

  /** Under every interleaving each open stream is attached to the sender the map
      holds for its recipient, so it never sees its channel closed; and what it is
      sent was routed to its recipient. */
  lemma {:induction false} OpenStreamsAreNeverOrphaned<E>(steps: seq<Step<E>>)
    requires Run(steps).Some?
    ensures Inv(Run(steps).value)
  {
    if steps != [] {
      OpenStreamsAreNeverOrphaned(steps[..|steps| - 1]);
      StepKeepsInv(Run(steps[..|steps| - 1]).value, steps[|steps| - 1]);
    }
  }

  // ---- Delivery ---------------------------------------------------------------------

  /** The linearisation point: a stream open at the `active` check makes it answer
      yes and belongs to the dispatch's audience. */
  lemma ActiveSeesEveryOpenStream<E>(s: State<E>, flight: nat, recipient: Uuid, event: E, stream: nat)
    requires Inv(s) && flight !in s.flights
    requires stream in s.receivers && s.receivers[stream].open && s.receivers[stream].recipient == recipient
    ensures var s' := Next(s, Activate(flight, recipient, event));
            flight in s'.flights && s'.flights[flight].event == event && stream in s'.flights[flight].audience
  {
    assert ReceiverOk(s, s.receivers[stream]);
  }

  ghost predicate Awaits<E>(s: State<E>, flight: nat, event: E, stream: nat) {
    && flight in s.flights && s.flights[flight].event == event
    && stream in s.flights[flight].audience && stream in s.receivers
  }

  lemma SendReachesItsAudience<E>(s: State<E>, flight: nat, event: E, stream: nat)
    requires Inv(s) && Enabled(s, Send(flight)) && Awaits(s, flight, event, stream) && s.receivers[stream].open
    ensures ReceiverOk(s, s.receivers[stream])
    ensures ReceiverOk(Next(s, Send(flight)), s.receivers[stream])
    ensures Received(Next(s, Send(flight)), stream)
            == Received(s, stream) + [Routed(s.receivers[stream].recipient, event)]
  {
    var s', r := Next(s, Send(flight)), s.receivers[stream];
    assert ReceiverOk(s, r);
    assert FlightOk(s, s.flights[flight]);
    assert OpenOn(s.receivers, r.channel);
    var sent, sent' := s.channels[r.channel].sent, s'.channels[r.channel].sent;
    assert sent' == sent + [Routed(r.recipient, event)];
    assert sent'[r.joined..] == sent[r.joined..] + [Routed(r.recipient, event)];
  }

  lemma OtherStepsKeepWaiting<E>(s: State<E>, step: Step<E>, flight: nat, event: E, stream: nat)
    requires Inv(s) && Enabled(s, step) && Awaits(s, flight, event, stream) && step != Send(flight)
    requires s.receivers[stream].open
    ensures Awaits(Next(s, step), flight, event, stream)
  {
    assert ReceiverOk(s, s.receivers[stream]);
    assert FlightOk(s, s.flights[flight]);
  }

  lemma NothingReceivedIsLost<E>(s: State<E>, step: Step<E>, stream: nat)
    requires Inv(s) && Enabled(s, step) && stream in s.receivers
    ensures ReceiverOk(s, s.receivers[stream])
    ensures ReceiverOk(Next(s, step), Next(s, step).receivers[stream])
    ensures Received(s, stream) <= Received(Next(s, step), stream)
  {
    var s', r := Next(s, step), s.receivers[stream];
    StepKeepsInv(s, step);
    assert ReceiverOk(s, r);
    assert ReceiverOk(s', s'.receivers[stream]);
    var sent, sent' := s.channels[r.channel].sent, s'.channels[r.channel].sent;
    assert sent <= sent';
    assert sent[r.joined..] <= sent'[r.joined..];
  }

  /** Whatever happens next, a dispatch with an open stream in its audience either
      stays under way or appends its event to what that stream is sent, and nothing
      already sent is lost. */
  lemma DispatchReachesItsAudience<E>(s: State<E>, step: Step<E>, flight: nat, event: E, stream: nat)
    requires Inv(s) && Enabled(s, step) && Awaits(s, flight, event, stream) && s.receivers[stream].open
    ensures ReceiverOk(s, s.receivers[stream])
    ensures ReceiverOk(Next(s, step), Next(s, step).receivers[stream])
    ensures Received(s, stream) <= Received(Next(s, step), stream)
    ensures step != Send(flight) ==> Awaits(Next(s, step), flight, event, stream)
    ensures step == Send(flight) ==>
              Received(Next(s, step), stream)
              == Received(s, stream) + [Routed(s.receivers[stream].recipient, event)]
  {
    NothingReceivedIsLost(s, step, stream);
    if step == Send(flight) {
      SendReachesItsAudience(s, flight, event, stream);
    } else {
      OtherStepsKeepWaiting(s, step, flight, event, stream);
    }
  }

  lemma NeverReopened<E>(s: State<E>, step: Step<E>, stream: nat)
    requires Enabled(s, step) && stream in s.receivers && Next(s, step).receivers[stream].open
    ensures s.receivers[stream].open
  {
  }

  /** Every event whose `active` check follows a subscription reaches it: from any
      state that keeps the invariant, as long as the stream is open, the dispatch
      keeps it in its audience over any further steps, up to the send that appends
      the event. */
  lemma {:induction false} StillAwaited<E>(
    s: State<E>, flight: nat, recipient: Uuid, event: E, later: seq<Step<E>>, t: State<E>, stream: nat)
    requires Inv(s) && flight !in s.flights
    requires stream in s.receivers && s.receivers[stream].recipient == recipient
    requires RunFrom(Next(s, Activate(flight, recipient, event)), later) == Some(t) && Send(flight) !in later
    ensures Inv(t) && stream in t.receivers
    ensures t.receivers[stream].open ==> s.receivers[stream].open && Awaits(t, flight, event, stream)
    decreases |later|
  {
    if later == [] {
      ActivateKeepsInv(s, flight, recipient, event);
      if t.receivers[stream].open {
        ActiveSeesEveryOpenStream(s, flight, recipient, event, stream);
      }
    } else {
      var shorter, step := later[..|later| - 1], later[|later| - 1];
      var u := RunFrom(Next(s, Activate(flight, recipient, event)), shorter).value;
      StillAwaited(s, flight, recipient, event, shorter, u, stream);
      StepKeepsInv(u, step);
      if t.receivers[stream].open {
        NeverReopened(u, step, stream);
        OtherStepsKeepWaiting(u, step, flight, event, stream);
      }
    }
  }

  lemma {:induction false} ReceivedGrows<E>(s: State<E>, steps: seq<Step<E>>, t: State<E>, stream: nat)
    requires Inv(s) && stream in s.receivers && RunFrom(s, steps) == Some(t)
    ensures Inv(t) && stream in t.receivers
    ensures ReceiverOk(s, s.receivers[stream]) && ReceiverOk(t, t.receivers[stream])
    ensures Received(s, stream) <= Received(t, stream)
    ensures t.receivers[stream].open ==> s.receivers[stream].open
    decreases |steps|
  {
    assert ReceiverOk(s, s.receivers[stream]);
    if steps != [] {
      var u := RunFrom(s, steps[..|steps| - 1]).value;
      ReceivedGrows(s, steps[..|steps| - 1], u, stream);
      StepKeepsInv(u, steps[|steps| - 1]);
      NothingReceivedIsLost(u, steps[|steps| - 1], stream);
    }
  }

  /** From the `active` check to beyond its send, under any interleaving: an open
      stream has been sent the event, after all it had been sent before. */
  lemma {:induction false} EveryDispatchedEventArrives<E>(
    s: State<E>, flight: nat, recipient: Uuid, event: E, later: seq<Step<E>>, t: State<E>, stream: nat)
    requires Inv(s) && flight !in s.flights
    requires stream in s.receivers && s.receivers[stream].recipient == recipient
    requires RunFrom(Next(s, Activate(flight, recipient, event)), later) == Some(t) && Send(flight) in later
    requires stream in t.receivers && t.receivers[stream].open
    ensures ReceiverOk(s, s.receivers[stream]) && ReceiverOk(t, t.receivers[stream])
    ensures Received(s, stream) <= Received(t, stream)
    ensures exists i :: |Received(s, stream)| <= i < |Received(t, stream)|
                        && Received(t, stream)[i] == Routed(recipient, event)
    decreases |later|
  {
    var checked, shorter, step := Next(s, Activate(flight, recipient, event)), later[..|later| - 1], later[|later| - 1];
    var u := RunFrom(checked, shorter).value;
    ActivateKeepsInv(s, flight, recipient, event);
    NothingReceivedIsLost(s, Activate(flight, recipient, event), stream);
    ReceivedGrows(checked, shorter, u, stream);
    NothingReceivedIsLost(u, step, stream);
    NeverReopened(u, step, stream);
    if Send(flight) in shorter {
      EveryDispatchedEventArrives(s, flight, recipient, event, shorter, u, stream);
      var i :| |Received(s, stream)| <= i < |Received(u, stream)| && Received(u, stream)[i] == Routed(recipient, event);
      assert Received(t, stream)[i] == Routed(recipient, event);
    } else {
      assert step == Send(flight);
      StillAwaited(s, flight, recipient, event, shorter, u, stream);
      SendReachesItsAudience(u, flight, event, stream);
      RecipientsStay(checked, shorter, u, stream);
      assert Received(t, stream)[|Received(u, stream)|] == Routed(recipient, event);
    }
  }

  lemma RecipientStays<E>(s: State<E>, step: Step<E>, stream: nat)
    requires Enabled(s, step) && stream in s.receivers
    ensures stream in Next(s, step).receivers
    ensures Next(s, step).receivers[stream].recipient == s.receivers[stream].recipient
  {
  }

  lemma {:induction false} RecipientsStay<E>(s: State<E>, steps: seq<Step<E>>, t: State<E>, stream: nat)
    requires stream in s.receivers && RunFrom(s, steps) == Some(t)
    ensures stream in t.receivers && t.receivers[stream].recipient == s.receivers[stream].recipient
    decreases |steps|
  {
    if steps != [] {
      var u := RunFrom(s, steps[..|steps| - 1]).value;
      RecipientsStay(s, steps[..|steps| - 1], u, stream);
      RecipientStays(u, steps[|steps| - 1], stream);
    }
  }

  // ---- Ends of streams and dispatches ---------------------------------------------------------

  /** When its last stream closes, the next check evicts the recipient's channel;
      as long as another is open it stays. */
  lemma LastStreamClosingEvicts<E>(s: State<E>, stream: nat)
    requires Inv(s) && stream in s.receivers && s.receivers[stream].open
    ensures var recipient := s.receivers[stream].recipient;
      recipient in Next(Next(s, Close(stream)), Check(recipient)).inner
      <==> exists r :: r in s.receivers && r != stream && s.receivers[r].open && s.receivers[r].recipient == recipient
  {
    var recipient, t := s.receivers[stream].recipient, Next(s, Close(stream));
    CloseKeepsInv(s, stream);
    assert ReceiverOk(s, s.receivers[stream]);
    if r :| r in s.receivers && r != stream && s.receivers[r].open && s.receivers[r].recipient == recipient {
      assert ReceiverOk(t, t.receivers[r]);
      assert OpenOn(t.receivers, t.inner[recipient]);
    } else if r :| r in t.receivers && t.receivers[r].open && t.receivers[r].channel == t.inner[recipient] {
      assert ReceiverOk(t, t.receivers[r]);
    }
  }

  /** A dispatch is over once it has sent, or found the sender gone; what nobody is
      there to receive is kept nowhere. */
  lemma DispatchEnds<E>(s: State<E>, step: Step<E>)
    requires Enabled(s, step) && (step.Send? || step.Clone?)
    ensures step.Send? ==> step.flight !in Next(s, step).flights
    ensures step.Send? && !OpenOn(s.receivers, s.flights[step.flight].channel) ==> Next(s, step).channels == s.channels
    ensures step.Clone? ==>
              (step.flight in Next(s, step).flights <==> s.flights[step.flight].recipient in s.inner)
  {
    if step.Send? {
      var c := s.flights[step.flight].channel;
      assert s.channels[c := s.channels[c].(sent := s.channels[c].sent)] == s.channels;
    }
  }

  // ---- One dispatch at a time ------------------------------------------------------------------

  /** The listener is serial: it has one flight, and starts no dispatch with one
      under way. */
  predicate OneAtATime<E>(steps: seq<Step<E>>) {
    forall i :: 0 <= i < |steps| && steps[i].Activate? ==> steps[i].flight == 0
  }

  /** The events whose dispatch to the recipient the steps begin, in order. */
  function Announcements<E>(steps: seq<Step<E>>, recipient: Uuid): seq<Routed<E>> {
    if steps == [] then [] else
      var step := steps[|steps| - 1];
      Announcements(steps[..|steps| - 1], recipient)
      + if step.Activate? && step.recipient == recipient then [Routed(recipient, step.event)] else []
  }

  /** The recipient's event under way, if there is one. */
  function InFlight<E>(s: State<E>, recipient: Uuid): seq<Routed<E>> {
    if 0 in s.flights && s.flights[0].recipient == recipient then [Routed(recipient, s.flights[0].event)] else []
  }

  ghost predicate SerialState<E>(s: State<E>, stream: nat, recipient: Uuid) {
    && Inv(s) && s.flights.Keys <= {0}
    && stream in s.receivers && s.receivers[stream].recipient == recipient
    && (0 in s.flights && s.flights[0].recipient == recipient && s.receivers[stream].open ==>
          stream in s.flights[0].audience)
  }

  lemma OthersReceiveNothing<E>(s: State<E>, step: Step<E>, stream: nat)
    requires Inv(s) && Enabled(s, step) && stream in s.receivers
    requires step.Send? ==> s.flights[step.flight].recipient != s.receivers[stream].recipient
    ensures ReceiverOk(s, s.receivers[stream])
    ensures ReceiverOk(Next(s, step), Next(s, step).receivers[stream])
    ensures Received(Next(s, step), stream) == Received(s, stream)
  {
    StepKeepsInv(s, step);
    assert ReceiverOk(s, s.receivers[stream]);
    assert ReceiverOk(Next(s, step), Next(s, step).receivers[stream]);
    if step.Send? {
      assert FlightOk(s, s.flights[step.flight]);
    }
  }

  lemma SerialActivate<E>(s: State<E>, step: Step<E>, stream: nat, recipient: Uuid)
    requires SerialState(s, stream, recipient) && Enabled(s, step) && s.receivers[stream].open
    requires step.Activate? && step.flight == 0
    ensures SerialState(Next(s, step), stream, recipient) && InFlight(s, recipient) == []
    ensures InFlight(Next(s, step), recipient)
            == if step.recipient == recipient then [Routed(recipient, step.event)] else []
  {
    StepKeepsInv(s, step);
    if step.recipient == recipient {
      ActiveSeesEveryOpenStream(s, 0, recipient, step.event, stream);
    }
  }

  lemma SerialClone<E>(s: State<E>, step: Step<E>, stream: nat, recipient: Uuid)
    requires SerialState(s, stream, recipient) && Enabled(s, step) && s.receivers[stream].open && step.Clone?
    ensures SerialState(Next(s, step), stream, recipient)
    ensures InFlight(Next(s, step), recipient) == InFlight(s, recipient)
  {
    StepKeepsInv(s, step);
    assert ReceiverOk(s, s.receivers[stream]);
  }

  lemma SerialSend<E>(s: State<E>, step: Step<E>, stream: nat, recipient: Uuid)
    requires SerialState(s, stream, recipient) && Enabled(s, step) && s.receivers[stream].open && step.Send?
    ensures SerialState(Next(s, step), stream, recipient) && InFlight(Next(s, step), recipient) == []
    ensures ReceiverOk(s, s.receivers[stream])
    ensures ReceiverOk(Next(s, step), Next(s, step).receivers[stream])
    ensures Received(Next(s, step), stream) == Received(s, stream) + InFlight(s, recipient)
  {
    StepKeepsInv(s, step);
    assert s.flights.Keys - {0} == {};
    if s.flights[0].recipient == recipient {
      SendReachesItsAudience(s, 0, s.flights[0].event, stream);
    } else {
      OthersReceiveNothing(s, step, stream);
    }
  }

  /** What any other step does to the flight of a stream's recipient. */
  lemma SerialOther<E>(s: State<E>, step: Step<E>, stream: nat, recipient: Uuid)
    requires SerialState(s, stream, recipient) && Enabled(s, step) && !step.Send?
    requires step.Activate? ==> step.flight == 0
    requires s.receivers[stream].open
    ensures SerialState(Next(s, step), stream, recipient)
    ensures InFlight(Next(s, step), recipient)
            == InFlight(s, recipient)
               + if step.Activate? && step.recipient == recipient then [Routed(recipient, step.event)] else []
  {
    match step {
      case Activate(_, _, _) => SerialActivate(s, step, stream, recipient);
      case Clone(_) => SerialClone(s, step, stream, recipient);
      case _ => StepKeepsInv(s, step);
    }
  }

  lemma SerialStep<E>(s: State<E>, step: Step<E>, stream: nat, recipient: Uuid)
    requires SerialState(s, stream, recipient) && Enabled(s, step)
    requires step.Activate? ==> step.flight == 0
    requires Next(s, step).receivers[stream].open
    ensures SerialState(Next(s, step), stream, recipient)
    ensures ReceiverOk(s, s.receivers[stream])
    ensures ReceiverOk(Next(s, step), Next(s, step).receivers[stream])
    ensures Received(Next(s, step), stream) + InFlight(Next(s, step), recipient)
            == (Received(s, stream) + InFlight(s, recipient))
               + if step.Activate? && step.recipient == recipient then [Routed(recipient, step.event)] else []
  {
    NeverReopened(s, step, stream);
    if step.Send? {
      SerialSend(s, step, stream, recipient);
    } else {
      OthersReceiveNothing(s, step, stream);
      SerialOther(s, step, stream, recipient);
    }
  }

  /** A serial listener, streams opening and closing freely in between and in the
      middle of dispatches: a stream open throughout is sent exactly the events
      dispatched to its recipient since, each once and in order; the last may still
      be under way. */
  lemma {:induction false} SerialDeliveryIsExact<E>(
    s: State<E>, steps: seq<Step<E>>, t: State<E>, stream: nat, recipient: Uuid)
    requires Inv(s) && s.flights == map[] && OneAtATime(steps) && RunFrom(s, steps) == Some(t)
    requires stream in s.receivers && s.receivers[stream].recipient == recipient
    requires stream in t.receivers && t.receivers[stream].open
    ensures SerialState(t, stream, recipient)
    ensures ReceiverOk(s, s.receivers[stream]) && ReceiverOk(t, t.receivers[stream])
    ensures Received(t, stream) + InFlight(t, recipient) == Received(s, stream) + Announcements(steps, recipient)
    decreases |steps|
  {
    assert ReceiverOk(s, s.receivers[stream]);
    if steps != [] {
      var shorter, step := steps[..|steps| - 1], steps[|steps| - 1];
      var u := RunFrom(s, shorter).value;
      ReceivedGrows(s, shorter, u, stream);
      NeverReopened(u, step, stream);
      SerialDeliveryIsExact(s, shorter, u, stream, recipient);
      SerialStep(u, step, stream, recipient);
      var last := if step.Activate? && step.recipient == recipient then [Routed(recipient, step.event)] else [];
      assert (Received(s, stream) + Announcements(shorter, recipient)) + last
             == Received(s, stream) + (Announcements(shorter, recipient) + last);
    }
  }

  /** A send routed to another recipient's channel is never seen by this stream. */
  lemma ReceivesOnlyItsRecipients<E>(steps: seq<Step<E>>, stream: nat, i: nat)
    requires Run(steps).Some? && stream in Run(steps).value.receivers
    ensures ReceiverOk(Run(steps).value, Run(steps).value.receivers[stream])
    ensures i < |Received(Run(steps).value, stream)| ==>
              Received(Run(steps).value, stream)[i].recipient == Run(steps).value.receivers[stream].recipient
  {
    OpenStreamsAreNeverOrphaned(steps);
    var s := Run(steps).value;
    var r := s.receivers[stream];
    assert ReceiverOk(s, r);
    if i < |Received(s, stream)| {
      assert s.channels[r.channel].sent[r.joined..][i] == s.channels[r.channel].sent[r.joined + i];
    }
  }
}
