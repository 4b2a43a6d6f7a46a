/** One subscription: the bounded ring events are broadcast through, and the
    stream that serves them until the first lag. */
module Broadcast {
  import opened Prelude

  /** `broadcast::channel(256)`. */
  const RING: nat := 256

  /** What polling a subscription answers. */
  datatype Polled<+E> = Item(event: E) | Lagged(lostEvents: nat) | Ended | Pending

  // ---- The schedule of one subscription, abstractly --------------------------------

  datatype Verdict = Verdict(lostEvents: nat, sentSoFar: nat)

  /** `sent` since the subscription, `served` to the client, and the verdict that
      ended the stream, if one did. */
  datatype Subscription<E> = Subscription(sent: seq<E>, served: seq<E>, verdict: Option<Verdict>)

  datatype Turn<E> = Send(event: E) | Poll

  function AnswerTo<E>(s: Subscription<E>): Polled<E>
    requires |s.served| <= |s.sent|
  {
    if s.verdict.Some? then Ended
    else if |s.served| + RING < |s.sent| then Lagged(|s.sent| - RING - |s.served|)
    else if |s.served| < |s.sent| then Item(s.sent[|s.served|])
    else Pending
  }

  function Take<E>(s: Subscription<E>, turn: Turn<E>): Subscription<E>
    requires |s.served| <= |s.sent|
  {
    match turn
    case Send(e) => s.(sent := s.sent + [e])
    case Poll =>
      match AnswerTo(s)
      case Item(e) => s.(served := s.served + [e])
      case Lagged(n) => s.(verdict := Some(Verdict(n, |s.sent|)))
      case _ => s
  }

  ghost predicate PrefixOrVerdict<E>(s: Subscription<E>) {
    && s.served <= s.sent
    && (s.verdict.Some? ==>
          && s.verdict.value.lostEvents > 0
          && |s.served| + s.verdict.value.lostEvents + RING == s.verdict.value.sentSoFar <= |s.sent|)
  }

  lemma TakeKeepsPrefix<E>(s: Subscription<E>, turn: Turn<E>)
    requires PrefixOrVerdict(s)
    ensures PrefixOrVerdict(Take(s, turn))
    ensures s.verdict.Some? ==> Take(s, turn).served == s.served && Take(s, turn).verdict == s.verdict
  {
    match turn {
      case Send(e) =>
      case Poll =>
        if AnswerTo(s).Item? {
          assert s.sent[..|s.served|] == s.served;
          assert s.sent[..|s.served| + 1] == s.served + [s.sent[|s.served|]];
        }
    }
  }

  function Play<E>(s: Subscription<E>, turns: seq<Turn<E>>): Subscription<E>
    requires |s.served| <= |s.sent|
    decreases |turns|
  {
    if turns == [] then s else Play(Take(s, turns[0]), turns[1..])
  }

  /** For every schedule of sends and polls the client is served a gap-free prefix
      of what was sent, then at most one lag verdict and nothing after it; at the
      verdict, served, lost and the ring add up to what had been sent. */
  lemma {:induction false} EveryScheduleServesAPrefix<E>(s: Subscription<E>, turns: seq<Turn<E>>)
    requires PrefixOrVerdict(s)
    ensures PrefixOrVerdict(Play(s, turns))
    ensures s.verdict.Some? ==> Play(s, turns).served == s.served && Play(s, turns).verdict == s.verdict
    decreases |turns|
  {
    if turns != [] {
      TakeKeepsPrefix(s, turns[0]);
      EveryScheduleServesAPrefix(Take(s, turns[0]), turns[1..]);
    }
  }

  /** A client that never falls more than a ring behind is served everything. */
  lemma {:induction false} PollingDrains<E>(s: Subscription<E>, polls: nat)
    requires PrefixOrVerdict(s) && s.verdict.None? && |s.sent| <= |s.served| + RING
    requires polls >= |s.sent| - |s.served|
    ensures Play(s, seq(polls, _ => Turn<E>.Poll)).served == s.sent
    ensures Play(s, seq(polls, _ => Turn<E>.Poll)).verdict.None?
    decreases polls
  {
    var turns := seq(polls, _ => Turn<E>.Poll);
    if polls > 0 {
      TakeKeepsPrefix(s, Turn<E>.Poll);
      assert turns[1..] == seq(polls - 1, _ => Turn<E>.Poll);
      PollingDrains(Take(s, Turn<E>.Poll), polls - 1);
    }
  }

  /** What the polls of a schedule are answered, in order. */
  function Answers<E>(s: Subscription<E>, turns: seq<Turn<E>>): (r: seq<Polled<E>>)
    requires |s.served| <= |s.sent|
    decreases |turns|
  {
    if turns == [] then [] else
      (if turns[0].Poll? then [AnswerTo(s)] else []) + Answers(Take(s, turns[0]), turns[1..])
  }

  function Items<E>(answers: seq<Polled<E>>): seq<E> {
    if answers == [] then [] else (if answers[0].Item? then [answers[0].event] else []) + Items(answers[1..])
  }

  function Sends<E>(turns: seq<Turn<E>>): seq<E> {
    if turns == [] then [] else (if turns[0].Send? then [turns[0].event] else []) + Sends(turns[1..])
  }

  /** A client is told its stream is over exactly when an earlier poll gave it the
      verdict (or the stream was over before the schedule). */
  lemma {:induction false} EndedIffLaggedBefore<E>(s: Subscription<E>, turns: seq<Turn<E>>, i: nat)
    requires PrefixOrVerdict(s) && i < |Answers(s, turns)|
    ensures Answers(s, turns)[i].Ended?
            <==> s.verdict.Some? || exists j :: 0 <= j < i && Answers(s, turns)[j].Lagged?
    decreases |turns|
  {
    var rest := Answers(Take(s, turns[0]), turns[1..]);
    TakeKeepsPrefix(s, turns[0]);
    if turns[0].Send? {
      assert Answers(s, turns) == rest;
      EndedIffLaggedBefore(Take(s, turns[0]), turns[1..], i);
    } else if i > 0 {
      EndedIffLaggedBefore(Take(s, turns[0]), turns[1..], i - 1);
      LaggedAfterFirst(AnswerTo(s), rest, i);
    }
  }

  lemma LaggedAfterFirst<E>(first: Polled<E>, rest: seq<Polled<E>>, i: nat)
    requires 0 < i <= |rest|
    ensures (exists j :: 0 <= j < i && ([first] + rest)[j].Lagged?)
            <==> first.Lagged? || exists j :: 0 <= j < i - 1 && rest[j].Lagged?
  {
    if j :| 0 <= j < i - 1 && rest[j].Lagged? {
      assert ([first] + rest)[j + 1].Lagged?;
    }
    if first.Lagged? {
      assert ([first] + rest)[0].Lagged?;
    }
  }

  lemma ItemsCons<E>(first: Polled<E>, rest: seq<Polled<E>>)
    ensures Items([first] + rest) == (if first.Item? then [first.event] else []) + Items(rest)
  {
    assert ([first] + rest)[1..] == rest;
  }

  function ItemOf<E>(s: Subscription<E>, turn: Turn<E>): seq<E>
    requires |s.served| <= |s.sent|
  {
    if turn.Poll? && AnswerTo(s).Item? then [AnswerTo(s).event] else []
  }

  lemma TakeAdds<E>(s: Subscription<E>, turn: Turn<E>)
    requires |s.served| <= |s.sent|
    ensures Take(s, turn).served == s.served + ItemOf(s, turn)
    ensures Take(s, turn).sent == s.sent + if turn.Send? then [turn.event] else []
  {
  }

  lemma AnswersItems<E>(s: Subscription<E>, turns: seq<Turn<E>>)
    requires |s.served| <= |s.sent| && turns != []
    ensures Items(Answers(s, turns)) == ItemOf(s, turns[0]) + Items(Answers(Take(s, turns[0]), turns[1..]))
  {
    var rest := Answers(Take(s, turns[0]), turns[1..]);
    if turns[0].Poll? {
      ItemsCons(AnswerTo(s), rest);
    } else {
      assert Answers(s, turns) == rest;
    }
  }

  /** What the client is handed is what the stream has served. */
  lemma {:induction false} ItemsAreTheServed<E>(s: Subscription<E>, turns: seq<Turn<E>>)
    requires PrefixOrVerdict(s)
    ensures Play(s, turns).served == s.served + Items(Answers(s, turns))
    decreases |turns|
  {
    if turns != [] {
      var t := Take(s, turns[0]);
      TakeKeepsPrefix(s, turns[0]);
      TakeAdds(s, turns[0]);
      AnswersItems(s, turns);
      ItemsAreTheServed(t, turns[1..]);
      var item, more := ItemOf(s, turns[0]), Items(Answers(t, turns[1..]));
      assert (s.served + item) + more == s.served + (item + more);
    }
  }

  /** What the stream has been sent is what was sent to it. */
  lemma {:induction false} SentIsWhatWasSent<E>(s: Subscription<E>, turns: seq<Turn<E>>)
    requires PrefixOrVerdict(s)
    ensures Play(s, turns).sent == s.sent + Sends(turns)
    decreases |turns|
  {
    if turns != [] {
      var t, more := Take(s, turns[0]), Sends(turns[1..]);
      TakeKeepsPrefix(s, turns[0]);
      TakeAdds(s, turns[0]);
      SentIsWhatWasSent(t, turns[1..]);
      var event := if turns[0].Send? then [turns[0].event] else [];
      assert (s.sent + event) + more == s.sent + (event + more);
    }
  }

  // ---- The ring and the stream ------------------------------------------------------

  /** The sender's side: slot `i % 256` holds the `i`-th event until it is
      overwritten. */
  class Channel<E(0)> {
    const slots: array<E>
    var position: nat
    ghost var history: seq<E>

    ghost predicate Valid()
      reads this, slots
    {
      && slots.Length == RING
      && position == |history|
      && forall i :: 0 <= i < position < i + RING + 1 ==> slots[i % RING] == history[i]
    }

    constructor ()
      ensures Valid() && fresh(slots) && history == []
    {
      slots := new E[RING];
      position := 0;
      history := [];
    }

    method Send(e: E)
      requires Valid()
      modifies this, slots
      ensures Valid() && history == old(history) + [e]
    {
      slots[position % RING] := e;
      position := position + 1;
      history := history + [e];
    }
  }

  /** The receiver's side: `until_first_lag` over a broadcast receiver. `open` is
      the unfold's state: taken away by the verdict, nothing is read any more. */
  class EventStream<E(0)> {
    const channel: Channel<E>
    var next: nat
    var open: bool
    ghost const joined: nat
    ghost var verdict: Option<Verdict>

    ghost predicate Valid()
      reads this, channel, channel.slots
    {
      && channel.Valid()
      && joined <= next <= channel.position
      && (open <==> verdict.None?)
    }

    /** What this stream has been sent and has served. */
    ghost function State(): Subscription<E>
      requires Valid()
      reads this, channel, channel.slots
    {
      Subscription(channel.history[joined..], channel.history[joined..next], verdict)
    }

    constructor (channel: Channel<E>)
      requires channel.Valid()
      ensures Valid() && this.channel == channel && State() == Subscription([], [], None)
    {
      this.channel := channel;
      next := channel.position;
      open := true;
      joined := channel.position;
      verdict := None;
    }

    method Poll() returns (answer: Polled<E>)
      requires Valid()
      modifies this
      ensures Valid()
      ensures answer == AnswerTo(old(State()))
      ensures State() == Take(old(State()), Turn<E>.Poll)
      ensures channel.history == old(channel.history)
      ensures answer.Ended? <==> !old(open)
      ensures answer.Pending? <==> old(open) && old(next) == channel.position
      ensures answer.Lagged? <==> old(open) && channel.position - old(next) > 256
      ensures answer.Lagged? ==> answer.lostEvents == channel.position - old(next) - 256
      ensures answer.Item? ==> answer.event == channel.history[old(next)]
      ensures open <==> old(open) && !answer.Lagged?
      ensures next == old(next) + if answer.Item? then 1 else 0
    {
      if !open {
        return Ended;
      }
      if next + RING < channel.position {
        var lost := channel.position - RING - next;
        open := false;
        verdict := Some(Verdict(lost, channel.position - joined));
        return Lagged(lost);
      }
      if next < channel.position {
        answer := Item(channel.slots[next % RING]);
        next := next + 1;
        return;
      }
      return Pending;
    }
  }
}
