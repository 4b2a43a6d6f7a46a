/** Announcements: how a write's facts are cut into signals, how large each
    payload is, and why PostgreSQL never merges two of one transaction. */
module Signals {
  import opened Prelude
  import Uuids

  datatype Signal =
    | Added(recipient: Uuid, id: Uuid)
    | Read(recipient: Uuid, ids: seq<Uuid>, readAt: Time)
    | Deleted(recipient: Uuid, ids: seq<Uuid>)

  const SIGNAL_ID_CHUNK: nat := 150
  const SIGNALS_PER_STATEMENT: nat := 150
  const PG_NOTIFY_PAYLOAD_LIMIT: nat := 8000

  /** The longest text chrono writes for an instant: a signed six-digit year,
      nanoseconds and the zone. */
  const LONGEST_INSTANT: nat := 33

  // ---- Chunks ---------------------------------------------------------------

  /** Rust's `slice::chunks`. */
  function Chunks<T>(s: seq<T>, n: nat): (r: seq<seq<T>>)
    requires n > 0
    decreases |s|
  {
    if s == [] then [] else if |s| <= n then [s] else [s[..n]] + Chunks(s[n..], n)
  }

  function Flatten<T>(ss: seq<seq<T>>): seq<T> {
    if ss == [] then [] else ss[0] + Flatten(ss[1..])
  }

  /** Chunks lose, repeat and reorder nothing; each holds 1 to `n` elements. */
  lemma {:induction false} ChunksPartition<T>(s: seq<T>, n: nat)
    requires n > 0
    ensures Flatten(Chunks(s, n)) == s
    ensures forall i :: 0 <= i < |Chunks(s, n)| ==> 1 <= |Chunks(s, n)[i]| <= n
    decreases |s|
  {
    if |s| <= n {
      assert s != [] ==> Flatten([s][1..]) == [];
    } else {
      ChunksPartition(s[n..], n);
      assert Chunks(s, n)[1..] == Chunks(s[n..], n);
      assert s == s[..n] + s[n..];
    }
  }

  /** `a` divided by the chunk size, rounded up. */
  function CeilDiv150(a: nat): nat {
    (a + 149) / 150
  }

  /** There are as few chunks as possible. */
  lemma {:induction false} FewestChunks<T>(s: seq<T>)
    ensures |Chunks(s, 150)| == CeilDiv150(|s|)
    decreases |s|
  {
    if |s| > 150 {
      FewestChunks(s[150..]);
    }
  }

  lemma {:induction false} ChunkElements<T>(s: seq<T>, n: nat, i: nat, x: T)
    requires n > 0 && i < |Chunks(s, n)| && x in Chunks(s, n)[i]
    ensures x in s
    decreases |s|
  {
    if |s| > n {
      assert forall y :: y in s[..n] || y in s[n..] ==> y in s;
      if i > 0 {
        ChunkElements(s[n..], n, i - 1, x);
      }
    }
  }

  lemma SplitDistinct<T>(s: seq<T>, n: nat)
    requires Distinct(s) && n <= |s|
    ensures forall x :: x in s[..n] ==> x !in s[n..]
  {
    forall x | x in s[..n]
      ensures x !in s[n..]
    {
      var k :| 0 <= k < n && s[k] == x;
      assert forall l :: 0 <= l < |s| - n ==> s[n..][l] == s[n + l];
    }
  }

  lemma {:induction false} ChunksDisjoint<T>(s: seq<T>, n: nat, i: nat, j: nat, x: T)
    requires n > 0 && Distinct(s) && i < j < |Chunks(s, n)|
    requires x in Chunks(s, n)[i]
    ensures x !in Chunks(s, n)[j]
    decreases |s|
  {
    if i > 0 {
      ChunksDisjoint(s[n..], n, i - 1, j - 1, x);
    } else {
      SplitDistinct(s, n);
      if x in Chunks(s, n)[j] {
        ChunkElements(s[n..], n, j - 1, x);
      }
    }
  }

  /** One signal per chunk. */
  function Announce(chunks: seq<seq<Uuid>>, of: seq<Uuid> -> Signal): (r: seq<Signal>)
    ensures |r| == |chunks|
    ensures forall i :: 0 <= i < |r| ==> r[i] == of(chunks[i])
  {
    if chunks == [] then [] else [of(chunks[0])] + Announce(chunks[1..], of)
  }

  function ReadBy(recipient: Uuid, at: Time): seq<Uuid> -> Signal {
    chunk => Read(recipient, chunk, at)
  }

  function DeletedBy(recipient: Uuid): seq<Uuid> -> Signal {
    chunk => Deleted(recipient, chunk)
  }

  function ReadSignals(recipient: Uuid, ids: seq<Uuid>, at: Time): seq<Signal> {
    Announce(Chunks(ids, SIGNAL_ID_CHUNK), ReadBy(recipient, at))
  }

  function DeletedSignals(recipient: Uuid, ids: seq<Uuid>): seq<Signal> {
    Announce(Chunks(ids, SIGNAL_ID_CHUNK), DeletedBy(recipient))
  }

  // ---- Payloads -------------------------------------------------------------

  function Quote(text: string): string {
    "\"" + text + "\""
  }

  function Quoted(u: Uuid): string {
    Quote(Uuids.Text(u))
  }

  function IdList(ids: seq<Uuid>): string {
    if ids == [] then "" else if |ids| == 1 then Quoted(ids[0])
    else Quoted(ids[0]) + "," + IdList(ids[1..])
  }

  /** What every signal opens with: its kind, then its recipient. */
  function Opening(kind: string, recipient: Uuid): string {
    "{" + (Quote("type") + ":" + Quote(kind) + "," + (Quote("recipient_id") + ":" + Quoted(recipient) + ","))
  }

  /** The compact JSON of a signal, tag first. `show` writes an instant. */
  function Payload(s: Signal, show: Time -> string): string {
    match s
    case Added(r, id) => (Opening("added", r) + (Quote("id") + ":")) + Quoted(id) + "}"
    case Read(r, ids, at) =>
      (Opening("read", r) + (Quote("ids") + ":["))
      + IdList(ids) + ("]," + (Quote("read_at") + ":" + Quote(show(at)) + "}"))
    case Deleted(r, ids) => (Opening("deleted", r) + (Quote("ids") + ":[")) + IdList(ids) + "]}"
  }

  function Encoder(show: Time -> string): Signal -> string {
    (s: Signal) => Payload(s, show)
  }

  lemma {:induction false} IdListLength(ids: seq<Uuid>)
    ensures |IdList(ids)| == if ids == [] then 0 else 39 * |ids| - 1
  {
    if |ids| > 1 {
      IdListLength(ids[1..]);
    }
  }

  /** Every signal of a chunked announcement is accepted by `pg_notify`, with
      room for any instant. */
  lemma PayloadFits(s: Signal, show: Time -> string)
    requires s.Read? ==> |show(s.readAt)| <= LONGEST_INSTANT
    requires !s.Added? ==> |s.ids| <= SIGNAL_ID_CHUNK
    ensures |Payload(s, show)| < PG_NOTIFY_PAYLOAD_LIMIT
  {
    if !s.Added? {
      IdListLength(s.ids);
    }
  }

  /** The chunk bound is needed: PostgreSQL refuses a deletion exactly from 204 ids
      on, and a read from 203 on, or earlier by the length of its instant's text. */
  lemma UnchunkedPayloadsOverflow(s: Signal, show: Time -> string)
    requires !s.Added? && s.ids != []
    ensures s.Deleted? ==> (|Payload(s, show)| >= PG_NOTIFY_PAYLOAD_LIMIT <==> |s.ids| >= 204)
    ensures s.Read? ==>
              (|Payload(s, show)| >= PG_NOTIFY_PAYLOAD_LIMIT <==> 39 * |s.ids| + |show(s.readAt)| >= 7910)
    ensures s.Read? && |s.ids| >= 203 ==> |Payload(s, show)| >= PG_NOTIFY_PAYLOAD_LIMIT
  {
    IdListLength(s.ids);
  }

  /** The first id a signal names: its only one, or the head of its list. */
  function Lead(s: Signal): Uuid
    requires !s.Added? ==> s.ids != []
  {
    if s.Added? then s.id else s.ids[0]
  }

  lemma SameMiddle(a: string, x: string, b: string, c: string, y: string, d: string)
    requires a + x + b == c + y + d && |a| == |c| && |x| == |y|
    ensures x == y
  {
    assert (a + x + b)[|a|..|a| + |x|] == x;
    assert (c + y + d)[|c|..|c| + |y|] == y;
  }

  lemma IdListStartsWithLead(ids: seq<Uuid>) returns (rest: string)
    requires ids != []
    ensures IdList(ids) == Quoted(ids[0]) + rest
  {
    rest := if |ids| == 1 then "" else "," + IdList(ids[1..]);
    assert Quoted(ids[0]) + "," + IdList(ids[1..]) == Quoted(ids[0]) + ("," + IdList(ids[1..]));
  }

  lemma QuotedInjective(u: Uuid, v: Uuid)
    requires Quoted(u) == Quoted(v)
    ensures u == v
  {
    SameMiddle("\"", Uuids.Text(u), "\"", "\"", Uuids.Text(v), "\"");
    Uuids.TextInjective(u, v);
  }

  predicate SameKind(s: Signal, t: Signal) {
    (s.Added? && t.Added?) || (s.Read? && t.Read?) || (s.Deleted? && t.Deleted?)
  }

  lemma LeadStandsFirst(a: string, ids: seq<Uuid>, b: string)
    requires ids != []
    ensures |a + IdList(ids) + b| >= |a| + 38
    ensures (a + IdList(ids) + b)[|a|..|a| + 38] == Quoted(ids[0])
  {
    var rest := IdListStartsWithLead(ids);
    assert IdList(ids)[..38] == Quoted(ids[0]);
    assert (a + IdList(ids) + b)[|a|..|a| + 38] == IdList(ids)[..38];
  }

  lemma SameListSameLead(a: string, ids: seq<Uuid>, b: string, c: string, others: seq<Uuid>, d: string)
    requires ids != [] && others != [] && |a| == |c|
    requires a + IdList(ids) + b == c + IdList(others) + d
    ensures ids[0] == others[0]
  {
    LeadStandsFirst(a, ids, b);
    LeadStandsFirst(c, others, d);
    QuotedInjective(ids[0], others[0]);
  }

  /** Two signals of one kind with one payload name the same first id. */
  lemma PayloadDeterminesLead(s: Signal, t: Signal, show: Time -> string)
    requires SameKind(s, t) && Payload(s, show) == Payload(t, show)
    requires !s.Added? ==> s.ids != [] && t.ids != []
    ensures Lead(s) == Lead(t)
  {
    match s {
      case Added(r, id) =>
        SameMiddle(Opening("added", r) + (Quote("id") + ":"), Quoted(id), "}",
                   Opening("added", t.recipient) + (Quote("id") + ":"), Quoted(t.id), "}");
        QuotedInjective(id, t.id);
      case Read(r, ids, at) =>
        SameListSameLead(Opening("read", r) + (Quote("ids") + ":["), ids,
                         "]," + (Quote("read_at") + ":" + Quote(show(at)) + "}"),
                         Opening("read", t.recipient) + (Quote("ids") + ":["), t.ids,
                         "]," + (Quote("read_at") + ":" + Quote(show(t.readAt)) + "}"));
      case Deleted(r, ids) =>
        SameListSameLead(Opening("deleted", r) + (Quote("ids") + ":["), ids, "]}",
                         Opening("deleted", t.recipient) + (Quote("ids") + ":["), t.ids, "]}");
    }
  }

  // ---- The notify queue -----------------------------------------------------

  predicate Queued(queue: seq<Signal>, s: Signal, encode: Signal -> string) {
    exists i :: 0 <= i < |queue| && encode(queue[i]) == encode(s)
  }

  /** `pg_notify` inside one transaction: an identical payload is dropped. */
  function Enqueue(queue: seq<Signal>, s: Signal, encode: Signal -> string): seq<Signal> {
    if Queued(queue, s, encode) then queue else queue + [s]
  }

  function EnqueueAll(queue: seq<Signal>, signals: seq<Signal>, encode: Signal -> string): seq<Signal>
    decreases |signals|
  {
    if signals == [] then queue else EnqueueAll(Enqueue(queue, signals[0], encode), signals[1..], encode)
  }

  ghost predicate PayloadsDistinct(signals: seq<Signal>, encode: Signal -> string) {
    forall i, j :: 0 <= i < j < |signals| ==> encode(signals[i]) != encode(signals[j])
  }

  /** A payload queued before is not queued again, a new one is queued last. */
  lemma RepeatsCollapse(queue: seq<Signal>, s: Signal, encode: Signal -> string)
    ensures Enqueue(queue + [s], s, encode) == queue + [s]
    ensures (forall i :: 0 <= i < |queue| ==> encode(queue[i]) != encode(s)) ==>
              Enqueue(queue, s, encode) == queue + [s]
  {
    assert (queue + [s])[|queue|] == s;
  }

  lemma {:induction false} NothingCollapses(queue: seq<Signal>, signals: seq<Signal>, encode: Signal -> string)
    requires PayloadsDistinct(queue + signals, encode)
    ensures EnqueueAll(queue, signals, encode) == queue + signals
    decreases |signals|
  {
    if signals != [] {
      assert queue + signals == (queue + [signals[0]]) + signals[1..];
      forall i | 0 <= i < |queue|
        ensures encode(queue[i]) != encode(signals[0])
      {
        assert (queue + signals)[i] == queue[i] && (queue + signals)[|queue|] == signals[0];
      }
      NothingCollapses(queue + [signals[0]], signals[1..], encode);
    } else {
      assert queue + signals == queue;
    }
  }

  lemma {:induction false} EnqueueAllConcat(
    queue: seq<Signal>, a: seq<Signal>, b: seq<Signal>, encode: Signal -> string)
    ensures EnqueueAll(queue, a + b, encode) == EnqueueAll(EnqueueAll(queue, a, encode), b, encode)
    decreases |a|
  {
    if a == [] {
      assert a + b == b;
    } else {
      assert (a + b)[1..] == a[1..] + b;
      EnqueueAllConcat(Enqueue(queue, a[0], encode), a[1..], b, encode);
    }
  }

  /** Signals of one kind that name pairwise different first ids have pairwise
      different payloads. */
  lemma LeadsSeparatePayloads(signals: seq<Signal>, show: Time -> string)
    requires forall i :: 0 <= i < |signals| ==> SameKind(signals[0], signals[i])
    requires forall i :: 0 <= i < |signals| && !signals[i].Added? ==> signals[i].ids != []
    requires forall i, j :: 0 <= i < j < |signals| ==> Lead(signals[i]) != Lead(signals[j])
    ensures PayloadsDistinct(signals, Encoder(show))
  {
    forall i, j | 0 <= i < j < |signals|
      ensures Payload(signals[i], show) != Payload(signals[j], show)
    {
      if Payload(signals[i], show) == Payload(signals[j], show) {
        assert SameKind(signals[0], signals[i]) && SameKind(signals[0], signals[j]);
        PayloadDeterminesLead(signals[i], signals[j], show);
      }
    }
  }

  lemma ChunkLeadsDiffer(ids: seq<Uuid>, cs: seq<seq<Uuid>>)
    requires Distinct(ids) && cs == Chunks(ids, SIGNAL_ID_CHUNK)
    ensures forall i :: 0 <= i < |cs| ==> cs[i] != []
    ensures forall i, j :: 0 <= i < j < |cs| ==> cs[i][0] != cs[j][0]
  {
    ChunksPartition(ids, SIGNAL_ID_CHUNK);
    forall i, j | 0 <= i < j < |cs|
      ensures cs[i][0] != cs[j][0]
    {
      if cs[i][0] == cs[j][0] {
        ChunksDisjoint(ids, SIGNAL_ID_CHUNK, i, j, cs[i][0]);
      }
    }
  }

  function IdsOf(signals: seq<Signal>): seq<Uuid> {
    if signals == [] then []
    else (if signals[0].Added? then [signals[0].id] else signals[0].ids) + IdsOf(signals[1..])
  }

  lemma {:induction false} AnnounceNamesTheChunks(chunks: seq<seq<Uuid>>, of: seq<Uuid> -> Signal)
    requires forall c :: !of(c).Added? && of(c).ids == c
    ensures IdsOf(Announce(chunks, of)) == Flatten(chunks)
  {
    if chunks != [] {
      AnnounceNamesTheChunks(chunks[1..], of);
    }
  }

  lemma ChunkedSignalsSeparate(ids: seq<Uuid>, of: seq<Uuid> -> Signal, show: Time -> string)
    requires Distinct(ids)
    requires forall c :: !of(c).Added? && of(c).ids == c
    requires forall c, d :: SameKind(of(c), of(d))
    ensures var signals := Announce(Chunks(ids, SIGNAL_ID_CHUNK), of);
            EnqueueAll([], signals, Encoder(show)) == signals
  {
    var chunks := Chunks(ids, SIGNAL_ID_CHUNK);
    var signals := Announce(chunks, of);
    ChunkLeadsDiffer(ids, chunks);
    assert forall i :: 0 <= i < |signals| ==> !signals[i].Added? && signals[i].ids == chunks[i];
    LeadsSeparatePayloads(signals, show);
    assert [] + signals == signals;
    NothingCollapses([], signals, Encoder(show));
  }

  lemma ChunkedSignalsFit(ids: seq<Uuid>, of: seq<Uuid> -> Signal, show: Time -> string)
    requires forall t :: |show(t)| <= LONGEST_INSTANT
    requires forall c :: !of(c).Added? && of(c).ids == c
    ensures var signals := Announce(Chunks(ids, SIGNAL_ID_CHUNK), of);
            forall i :: 0 <= i < |signals| ==> |Encoder(show)(signals[i])| < PG_NOTIFY_PAYLOAD_LIMIT
  {
    var chunks := Chunks(ids, SIGNAL_ID_CHUNK);
    ChunksPartition(ids, SIGNAL_ID_CHUNK);
    forall i | 0 <= i < |chunks|
      ensures |Payload(of(chunks[i]), show)| < PG_NOTIFY_PAYLOAD_LIMIT
    {
      PayloadFits(of(chunks[i]), show);
    }
  }

  /** A bulk announcement names exactly the ids of the write, in order, in signals
      PostgreSQL neither merges nor refuses, in the fewest statements the two
      bounds allow. It is one event per 150 ids: exactly one for 1 to 150 ids, none
      for none. */
  lemma BulkAnnouncement(recipient: Uuid, ids: seq<Uuid>, at: Time, show: Time -> string, signals: seq<Signal>)
    requires Distinct(ids) && forall t :: |show(t)| <= LONGEST_INSTANT
    requires signals == ReadSignals(recipient, ids, at) || signals == DeletedSignals(recipient, ids)
    ensures IdsOf(signals) == ids
    ensures EnqueueAll([], signals, Encoder(show)) == signals
    ensures forall i :: 0 <= i < |signals| ==> |Encoder(show)(signals[i])| < PG_NOTIFY_PAYLOAD_LIMIT
    ensures |Chunks(signals, SIGNALS_PER_STATEMENT)| == CeilDiv150(CeilDiv150(|ids|))
    ensures |signals| == CeilDiv150(|ids|)
    ensures (|signals| == 1 <==> 1 <= |ids| <= SIGNAL_ID_CHUNK) && (signals == [] <==> ids == [])
  {
    var of := if signals == ReadSignals(recipient, ids, at)
              then ReadBy(recipient, at) else DeletedBy(recipient);
    ChunksPartition(ids, SIGNAL_ID_CHUNK);
    assert signals == Announce(Chunks(ids, SIGNAL_ID_CHUNK), of);
    AnnounceNamesTheChunks(Chunks(ids, SIGNAL_ID_CHUNK), of);
    ChunkedSignalsSeparate(ids, of, show);
    ChunkedSignalsFit(ids, of, show);
    FewestChunks(ids);
    FewestChunks(signals);
  }

  /** The announcements of a fan-out never merge either. */
  lemma AddedNeverCollapse(signals: seq<Signal>, show: Time -> string)
    requires forall i :: 0 <= i < |signals| ==> signals[i].Added?
    requires forall i, j :: 0 <= i < j < |signals| ==> signals[i].id != signals[j].id
    ensures EnqueueAll([], signals, Encoder(show)) == signals
  {
    LeadsSeparatePayloads(signals, show);
    assert [] + signals == signals;
    NothingCollapses([], signals, Encoder(show));
  }
}
