/** The listener: the subscriber registry as an object, and the serial loop that
    turns announcements into events on the open streams. */
module Realtime {
  import opened Prelude
  import opened Signals
  import Store
  import opened Convergence
  import opened Registry
  import SignalText

  type Events = State<ClientEvent>

  /** One notification from the connection: its payload, and the table a re-read
      would see. */
  datatype Message = Message(payload: string, rows: Store.Table)

  /** How the listener reads a payload. */
  type Reader = string -> Option<Signal>

  function RoutedTo(recipient: Uuid, event: Option<ClientEvent>): seq<Routed<ClientEvent>> {
    match event
    case Some(e) => [Routed(recipient, e)]
    case None => []
  }

  /** What one message sends to the open streams of a recipient: nothing, if its
      payload is no signal. */
  function Sends(message: Message, recipient: Uuid, read: Reader): seq<Routed<ClientEvent>> {
    match read(message.payload)
    case None => []
    case Some(s) => if s.recipient == recipient then RoutedTo(recipient, EventOf(s, message.rows)) else []
  }

  /** A signal the service announced is sent as the event it stands for. */
  lemma AnnouncementsAreSent(
    s: Signal, rows: Store.Table, recipient: Uuid, show: Time -> string, readInstant: string -> Option<Time>)
    requires SignalText.Inverts(readInstant, show)
    ensures Sends(Message(Payload(s, show), rows), recipient, SignalText.Reader(readInstant))
            == if s.recipient == recipient then RoutedTo(recipient, EventOf(s, rows)) else []
  {
    SignalText.PayloadReadsBack(s, show, readInstant);
  }

  /** A registry between dispatches. */
  ghost predicate Quiet(s: Events) {
    Inv(s) && s.flights == map[]
  }

  /** The registry after `deliver`: an event nobody is there to receive is dropped. */
  function Delivered(s: Events, recipient: Uuid, event: ClientEvent): Events {
    if IsActive(s, recipient) && s.inner[recipient] < |s.channels|
    then
      var c := s.inner[recipient];
      s.(channels := s.channels[c := s.channels[c].(sent := s.channels[c].sent + [Routed(recipient, event)])])
    else s
  }

  /** The registry after one whole dispatch, the three steps in a row. */
  function Dispatched(s: Events, recipient: Uuid, event: Option<ClientEvent>): Events {
    if !IsActive(s, recipient) then s.(inner := s.inner - {recipient})
    else
      match event
      case None => s
      case Some(e) => Delivered(s, recipient, e)
  }

  /** A dispatch that finds nothing to send is its check alone. */
  lemma DispatchedNothingIsACheck(s: Events, recipient: Uuid)
    ensures Dispatched(s, recipient, None) == Next(s, Step<ClientEvent>.Check(recipient))
  {
  }

  /** A whole dispatch is the `active` check followed, when it answered yes and the
      event exists, by the clone and the send. */
  lemma DispatchedIsThreeSteps(s: Events, recipient: Uuid, e: ClientEvent)
    requires Quiet(s)
    ensures var checked := Next(s, Activate(0, recipient, e));
      if IsActive(s, recipient)
      then && Enabled(checked, Clone(0)) && Enabled(Next(checked, Clone(0)), Send(0))
           && Next(Next(checked, Clone(0)), Send(0)) == Dispatched(s, recipient, Some(e))
      else checked == Dispatched(s, recipient, Some(e))
  {
    var checked := Next(s, Activate(0, recipient, e));
    if IsActive(s, recipient) {
      var held := Next(checked, Clone(0));
      assert held.flights[0].channel == s.inner[recipient];
      assert Next(held, Send(0)).flights == map[];
      assert Next(held, Send(0)).channels == Dispatched(s, recipient, Some(e)).channels;
    }
  }

  lemma DispatchedKeepsQuiet(s: Events, recipient: Uuid, event: Option<ClientEvent>)
    requires Quiet(s)
    ensures Quiet(Dispatched(s, recipient, event))
  {
    var e := if event.Some? then event.value else DeletedEvent([]);
    var checked := Next(s, Activate(0, recipient, e));
    StepKeepsInv(s, Activate(0, recipient, e));
    DispatchedIsThreeSteps(s, recipient, e);
    if IsActive(s, recipient) && event.Some? {
      StepKeepsInv(checked, Clone(0));
      StepKeepsInv(Next(checked, Clone(0)), Send(0));
    }
  }

  /** Every open stream of the recipient gets the event, no other stream does. */
  lemma DispatchedReaches(s: Events, recipient: Uuid, event: Option<ClientEvent>, stream: nat)
    requires Quiet(s) && stream in s.receivers && s.receivers[stream].open
    ensures Dispatched(s, recipient, event).receivers == s.receivers
    ensures ReceiverOk(s, s.receivers[stream]) && ReceiverOk(Dispatched(s, recipient, event), s.receivers[stream])
    ensures Received(Dispatched(s, recipient, event), stream)
            == Received(s, stream)
               + if s.receivers[stream].recipient == recipient then RoutedTo(recipient, event) else []
  {
    var s', r := Dispatched(s, recipient, event), s.receivers[stream];
    DispatchedKeepsQuiet(s, recipient, event);
    assert ReceiverOk(s, r) && ReceiverOk(s', s'.receivers[stream]);
    var sent, sent' := s.channels[r.channel].sent, s'.channels[r.channel].sent;
    if r.recipient == recipient {
      assert OpenOn(s.receivers, r.channel);
      assert sent' == sent + RoutedTo(recipient, event);
      assert sent'[r.joined..] == sent[r.joined..] + RoutedTo(recipient, event);
    } else {
      assert sent' == sent;
    }
  }

  function AfterMessage(s: Events, message: Message, read: Reader): Events {
    match read(message.payload)
    case None => s
    case Some(signal) => Dispatched(s, signal.recipient, EventOf(signal, message.rows))
  }

  lemma OneMessage(s: Events, message: Message, read: Reader, stream: nat)
    requires Quiet(s) && stream in s.receivers && s.receivers[stream].open
    ensures AfterMessage(s, message, read).receivers == s.receivers
    ensures ReceiverOk(s, s.receivers[stream]) && ReceiverOk(AfterMessage(s, message, read), s.receivers[stream])
    ensures Received(AfterMessage(s, message, read), stream)
            == Received(s, stream) + Sends(message, s.receivers[stream].recipient, read)
  {
    assert ReceiverOk(s, s.receivers[stream]);
    match read(message.payload) {
      case None =>
        assert Received(s, stream) + [] == Received(s, stream);
      case Some(signal) =>
        DispatchedReaches(s, signal.recipient, EventOf(signal, message.rows), stream);
    }
  }

  // ---- What happens while the listener runs ------------------------------------------------

  /** A message it receives, or, between two, a stream opening or closing. */
  datatype Turn = Arrived(message: Message) | Opened(stream: nat, recipient: Uuid) | Closed(stream: nat)

  function AfterTurn(s: Events, turn: Turn, read: Reader): Events {
    match turn
    case Arrived(message) => AfterMessage(s, message, read)
    case Opened(stream, recipient) =>
      if stream in s.receivers then s else Next(s, Step<ClientEvent>.Subscribe(stream, recipient))
    case Closed(stream) =>
      if stream in s.receivers && s.receivers[stream].open then Next(s, Step<ClientEvent>.Close(stream)) else s
  }

  /** The stream is known before the turns or opened by one of them. */
  predicate Known(turns: seq<Turn>, known: bool, stream: nat) {
    known || exists i :: 0 <= i < |turns| && turns[i].Opened? && turns[i].stream == stream
  }

  /** What the messages send to a recipient from the stream's opening on. */
  function Heard(
    turns: seq<Turn>, known: bool, stream: nat, recipient: Uuid, read: Reader): seq<Routed<ClientEvent>> {
    if turns == [] then [] else
      var before, turn := turns[..|turns| - 1], turns[|turns| - 1];
      Heard(before, known, stream, recipient, read)
      + if turn.Arrived? && Known(before, known, stream) then Sends(turn.message, recipient, read) else []
  }

  /** What a stream had been sent when the listener started: nothing, if it was not
      there yet. */
  function Before(s: Events, stream: nat): seq<Routed<ClientEvent>> {
    if stream in s.receivers && s.receivers[stream].channel < |s.channels|
       && s.receivers[stream].joined <= |s.channels[s.receivers[stream].channel].sent|
    then Received(s, stream) else []
  }

  lemma OneTurn(s: Events, turn: Turn, read: Reader, stream: nat)
    requires Quiet(s) && Quiet(AfterTurn(s, turn, read))
    requires stream in AfterTurn(s, turn, read).receivers && AfterTurn(s, turn, read).receivers[stream].open
    ensures stream in s.receivers || (turn.Opened? && turn.stream == stream)
    ensures stream in s.receivers ==>
              s.receivers[stream].open && AfterTurn(s, turn, read).receivers[stream] == s.receivers[stream]
    ensures Before(AfterTurn(s, turn, read), stream)
            == Before(s, stream)
               + (if turn.Arrived?
                  then Sends(turn.message, AfterTurn(s, turn, read).receivers[stream].recipient, read) else [])
  {
    var s' := AfterTurn(s, turn, read);
    assert ReceiverOk(s', s'.receivers[stream]);
    match turn {
      case Arrived(message) =>
        MessagesKeepReceivers(s, message, read);
        OneMessage(s, message, read, stream);
      case Opened(_, _) =>
        if stream in s.receivers {
          OpeningsSendNothing(s, turn, read, stream);
        } else {
          assert Before(s', stream) == [];
        }
      case Closed(_) =>
        assert ReceiverOk(s, s.receivers[stream]);
    }
  }

  lemma MessagesKeepReceivers(s: Events, message: Message, read: Reader)
    ensures AfterMessage(s, message, read).receivers == s.receivers
  {
  }

  lemma OpeningsSendNothing(s: Events, turn: Turn, read: Reader, stream: nat)
    requires Quiet(s) && turn.Opened? && stream in s.receivers
    ensures Before(AfterTurn(s, turn, read), stream) == Before(s, stream)
  {
    assert ReceiverOk(s, s.receivers[stream]);
  }

  lemma HeardNext(turns: seq<Turn>, i: nat, known: bool, stream: nat, recipient: Uuid, read: Reader)
    requires i < |turns|
    ensures Heard(turns[..i + 1], known, stream, recipient, read)
            == Heard(turns[..i], known, stream, recipient, read)
               + (if turns[i].Arrived? && Known(turns[..i], known, stream)
                  then Sends(turns[i].message, recipient, read) else [])
    ensures Known(turns[..i + 1], known, stream)
            <==> Known(turns[..i], known, stream) || (turns[i].Opened? && turns[i].stream == stream)
  {
    assert turns[..i + 1][..i] == turns[..i];
    if turns[i].Opened? && turns[i].stream == stream {
      assert turns[..i + 1][i] == turns[i];
    }
    if k :| 0 <= k < i && turns[..i][k].Opened? && turns[..i][k].stream == stream {
      assert turns[..i + 1][k] == turns[..i][k];
    }
  }

  /** The stream's history is what it had before the listener started and what it
      has heard since. */
  ghost predicate HeardAll(start: Events, now: Events, turns: seq<Turn>, read: Reader, stream: nat) {
    (stream in now.receivers <==> Known(turns, stream in start.receivers, stream)) &&
    (stream in now.receivers && now.receivers[stream].open ==>
       Before(now, stream)
       == Before(start, stream)
          + Heard(turns, stream in start.receivers, stream, now.receivers[stream].recipient, read))
  }

  lemma TurnKnows(s: Events, turn: Turn, read: Reader, stream: nat)
    ensures stream in AfterTurn(s, turn, read).receivers
            <==> stream in s.receivers || (turn.Opened? && turn.stream == stream)
  {
  }

  lemma TurnKeepsHeard(
    start: Events, s: Events, turns: seq<Turn>, i: nat, read: Reader, stream: nat)
    requires i < |turns| && Quiet(s) && Quiet(AfterTurn(s, turns[i], read))
    requires HeardAll(start, s, turns[..i], read, stream)
    ensures HeardAll(start, AfterTurn(s, turns[i], read), turns[..i + 1], read, stream)
  {
    var s', known := AfterTurn(s, turns[i], read), stream in start.receivers;
    TurnKnows(s, turns[i], read, stream);
    var recipient := if stream in s'.receivers then s'.receivers[stream].recipient else 0;
    HeardNext(turns, i, known, stream, recipient, read);
    if stream in s'.receivers && s'.receivers[stream].open {
      OneTurn(s, turns[i], read, stream);
      if stream in s.receivers {
        var had, heard := Before(start, stream), Heard(turns[..i], known, stream, recipient, read);
        var sends := if turns[i].Arrived? then Sends(turns[i].message, recipient, read) else [];
        assert (had + heard) + sends == had + (heard + sends);
      } else {
        HeardNothing(turns[..i], known, stream, recipient, read);
        assert Before(start, stream) == [];
      }
    }
  }

  ghost predicate EveryoneHeard(start: Events, now: Events, turns: seq<Turn>, read: Reader) {
    forall stream: nat :: HeardAll(start, now, turns, read, stream)
  }

  lemma TurnKeepsEveryone(start: Events, s: Events, turns: seq<Turn>, i: nat, read: Reader)
    requires i < |turns| && Quiet(s) && Quiet(AfterTurn(s, turns[i], read))
    requires EveryoneHeard(start, s, turns[..i], read)
    ensures EveryoneHeard(start, AfterTurn(s, turns[i], read), turns[..i + 1], read)
  {
    var now, longer := AfterTurn(s, turns[i], read), turns[..i + 1];
    forall stream: nat
      ensures HeardAll(start, now, longer, read, stream)
    {
      TurnKeepsHeard(start, s, turns, i, read, stream);
    }
  }

  lemma {:induction false} HeardNothing(
    turns: seq<Turn>, known: bool, stream: nat, recipient: Uuid, read: Reader)
    requires !Known(turns, known, stream)
    ensures Heard(turns, known, stream, recipient, read) == []
  {
    if turns != [] {
      assert forall k :: 0 <= k < |turns| - 1 ==> turns[..|turns| - 1][k] == turns[k];
      HeardNothing(turns[..|turns| - 1], known, stream, recipient, read);
    }
  }

  // ---- The registry object ----------------------------------------------------------

  class Subscribers {
    const read: Reader
    var inner: map<Uuid, nat>
    var channels: seq<Channel<ClientEvent>>
    var receivers: map<nat, Receiver>

    ghost function Model(): Events
      reads this
    {
      State(inner, channels, receivers, map[])
    }

    ghost predicate Valid()
      reads this
    {
      Quiet(Model())
    }

    constructor (readInstant: string -> Option<Time>)
      ensures Valid() && Model() == Empty() && read == SignalText.Reader(readInstant)
    {
      read := SignalText.Reader(readInstant);
      inner := map[];
      channels := [];
      receivers := map[];
    }

    method Subscribe(recipient: Uuid, stream: nat)
      requires Valid() && stream !in receivers
      modifies this
      ensures Valid() && Model() == Next(old(Model()), Step<ClientEvent>.Subscribe(stream, recipient))
    {
      SubscribeKeepsInv(Model(), stream, recipient);
      if recipient !in inner {
        inner := inner[recipient := |channels|];
        channels := channels + [Channel(recipient, [])];
      }
      var c := inner[recipient];
      receivers := receivers[stream := Receiver(recipient, c, |channels[c].sent|, true)];
    }

    /** The stream is dropped. */
    method Close(stream: nat)
      requires Valid() && stream in receivers && receivers[stream].open
      modifies this`receivers
      ensures Valid() && Model() == Next(old(Model()), Step<ClientEvent>.Close(stream))
    {
      CloseKeepsInv(Model(), stream);
      receivers := receivers[stream := receivers[stream].(open := false)];
    }

    method Active(recipient: Uuid) returns (active: bool)
      requires Valid()
      modifies this`inner
      ensures active == IsActive(old(Model()), recipient)
      ensures Model() == if active then old(Model()) else old(Model()).(inner := old(inner) - {recipient})
      ensures Valid()
    {
      DispatchedKeepsQuiet(Model(), recipient, None);
      if recipient !in inner {
        assert inner - {recipient} == inner;
        return false;
      }
      if OpenOn(receivers, inner[recipient]) {
        return true;
      }
      inner := inner - {recipient};
      return false;
    }

    method Deliver(recipient: Uuid, event: ClientEvent)
      requires Valid()
      modifies this`channels
      ensures Valid() && Model() == Delivered(old(Model()), recipient, event)
    {
      DispatchedKeepsQuiet(Model(), recipient, Some(event));
      if recipient in inner && OpenOn(receivers, inner[recipient]) {
        var c := inner[recipient];
        channels := channels[c := channels[c].(sent := channels[c].sent + [Routed(recipient, event)])];
      }
    }

    method Dispatch(signal: Signal, rows: Store.Table)
      requires Valid()
      modifies this`inner, this`channels
      ensures Valid() && Model() == Dispatched(old(Model()), signal.recipient, EventOf(signal, rows))
    {
      var active := Active(signal.recipient);
      if !active {
        return;
      }
      match EventOf(signal, rows)
      case Some(event) =>
        Deliver(signal.recipient, event);
      case None =>
    }

    method Take(turn: Turn)
      requires Valid()
      modifies this
      ensures Valid() && Model() == AfterTurn(old(Model()), turn, read)
    {
      match turn {
        case Arrived(message) =>
          match read(message.payload) {
            case None =>
            case Some(signal) =>
              Dispatch(signal, message.rows);
          }
        case Opened(stream, recipient) =>
          if stream !in receivers {
            Subscribe(recipient, stream);
          }
        case Closed(stream) =>
          if stream in receivers && receivers[stream].open {
            Close(stream);
          }
      }
    }

    /** The serial loop, until the connection fails, streams opening and closing
        between its messages: every stream open at the end has been sent, in order
        and after what it had before, exactly what the messages received since it
        opened announce to its recipient. */
    method ListenLoop(turns: seq<Turn>)
      requires Valid()
      modifies this
      ensures Valid()
      ensures EveryoneHeard(old(Model()), Model(), turns, read)
    {
      for i := 0 to |turns|
        invariant Valid() && EveryoneHeard(old(Model()), Model(), turns[..i], read)
      {
        ghost var before := Model();
        Take(turns[i]);
        TurnKeepsEveryone(old(Model()), before, turns, i, read);
      }
      assert turns[..|turns|] == turns;
    }
  }
}
