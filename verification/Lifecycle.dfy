/** What every run of committed writes keeps about one notification: it is
    announced read at most once, when and with what it was read, nothing about it
    changes otherwise, and its stored link always reads back. */
module Lifecycle {
  import opened Prelude
  import opened RelativeLinks
  import opened Signals
  import opened Store
  import opened Views
  import Wire

  // ---- Read announcements ----------------------------------------------------

  function Repeated(n: nat, at: Time): (r: seq<Time>)
    ensures |r| == n && forall i :: 0 <= i < n ==> r[i] == at
  {
    seq(n, _ => at)
  }

  function ReadsIn(s: Signal, id: Uuid): seq<Time> {
    if s.Read? then Repeated(multiset(s.ids)[id], s.readAt) else []
  }

  /** Every announcement that `id` was read, with its instant, repeats included. */
  function AnnouncedReads(log: seq<Signal>, id: Uuid): seq<Time> {
    if log == [] then [] else AnnouncedReads(log[..|log| - 1], id) + ReadsIn(log[|log| - 1], id)
  }

  lemma {:induction false} AnnouncedReadsConcat(a: seq<Signal>, b: seq<Signal>, id: Uuid)
    ensures AnnouncedReads(a + b, id) == AnnouncedReads(a, id) + AnnouncedReads(b, id)
  {
    if b == [] {
      assert a + b == a;
    } else {
      AnnouncedReadsConcat(a, b[..|b| - 1], id);
      assert (a + b)[..|a + b| - 1] == a + b[..|b| - 1] && (a + b)[|a + b| - 1] == b[|b| - 1];
      var x, y, z := AnnouncedReads(a, id), AnnouncedReads(b[..|b| - 1], id), ReadsIn(b[|b| - 1], id);
      assert x + (y + z) == (x + y) + z;
    }
  }

  lemma AnnouncedReadsCons(log: seq<Signal>, id: Uuid)
    requires log != []
    ensures AnnouncedReads(log, id) == ReadsIn(log[0], id) + AnnouncedReads(log[1..], id)
  {
    AnnouncedReadsConcat([log[0]], log[1..], id);
    assert [log[0]] + log[1..] == log;
    assert [log[0]][..0] == [] && [] + ReadsIn(log[0], id) == ReadsIn(log[0], id);
  }

  lemma {:induction false} OthersAnnounceNoRead(log: seq<Signal>, id: Uuid)
    requires forall i :: 0 <= i < |log| ==> !log[i].Read?
    ensures AnnouncedReads(log, id) == []
  {
    if log != [] {
      OthersAnnounceNoRead(log[..|log| - 1], id);
    }
  }

  lemma RepeatedSum(m: nat, n: nat, at: Time)
    ensures Repeated(m, at) + Repeated(n, at) == Repeated(m + n, at)
  {
  }

  lemma FlattenCount(chunks: seq<seq<Uuid>>, id: Uuid)
    requires chunks != []
    ensures multiset(Flatten(chunks))[id] == multiset(chunks[0])[id] + multiset(Flatten(chunks[1..]))[id]
  {
    assert Flatten(chunks) == chunks[0] + Flatten(chunks[1..]);
  }

  lemma {:induction false} ChunkedReads(owner: Uuid, chunks: seq<seq<Uuid>>, at: Time, id: Uuid)
    ensures AnnouncedReads(Announce(chunks, ReadBy(owner, at)), id)
            == Repeated(multiset(Flatten(chunks))[id], at)
  {
    if chunks != [] {
      var log := Announce(chunks, ReadBy(owner, at));
      var first, rest := multiset(chunks[0])[id], multiset(Flatten(chunks[1..]))[id];
      calc {
        AnnouncedReads(log, id);
        { AnnouncedReadsCons(log, id); }
        ReadsIn(log[0], id) + AnnouncedReads(log[1..], id);
        { assert log[1..] == Announce(chunks[1..], ReadBy(owner, at)); ChunkedReads(owner, chunks[1..], at, id); }
        Repeated(first, at) + Repeated(rest, at);
        { RepeatedSum(first, rest, at); FlattenCount(chunks, id); }
        Repeated(multiset(Flatten(chunks))[id], at);
      }
    }
  }

  /** A delete announces no read. */
  lemma DeletingAnnouncesNoRead(s: State, recipient: Uuid, ids: seq<Uuid>, id: Uuid)
    ensures AnnouncedReads(Apply(s, Delete(recipient, ids)).log, id) == AnnouncedReads(s.log, id)
  {
    AnnouncedReadsConcat(s.log, DeletedSignals(recipient, ids), id);
    OthersAnnounceNoRead(DeletedSignals(recipient, ids), id);
  }

  lemma {:induction false} DistinctMultiplicity(ids: seq<Uuid>, id: Uuid)
    requires Distinct(ids)
    ensures multiset(ids)[id] == if id in ids then 1 else 0
  {
    if ids != [] {
      DistinctMultiplicity(ids[1..], id);
      assert ids == [ids[0]] + ids[1..];
    }
  }

  // ---- One commit -------------------------------------------------------------

  /** A commit announces a notification read exactly when it takes its row from
      unread to read, once, with the instant it stores. */
  lemma CommitAnnouncesTheTransition(s: State, c: Commit, id: Uuid)
    requires Valid(s, c) && s.rows.Keys <= s.used
    ensures AnnouncedReads(Announced(s, c), id)
            == if && id in s.rows && id in Apply(s, c).rows
                  && s.rows[id].readAt.None? && Apply(s, c).rows[id].readAt.Some?
               then [Apply(s, c).rows[id].readAt.value] else []
  {
    match c {
      case Insert(_, _, _, _) =>
        var winners := Inserting(s, c);
        OthersAnnounceNoRead(Announced(s, c), id);
      case MarkRead(owner, ids, at) =>
        ChunkedReads(owner, Chunks(ids, SIGNAL_ID_CHUNK), at, id);
        ChunksPartition(ids, SIGNAL_ID_CHUNK);
        DistinctMultiplicity(ids, id);
      case Delete(_, _) =>
        OthersAnnounceNoRead(Announced(s, c), id);
    }
  }

  /** Nothing but an unread row's timestamp is ever updated: a read row keeps its
      instant, and key, content and order of a row are fixed at insertion. */
  lemma RowsAreImmutableButForReading(s: State, c: Commit, id: Uuid)
    requires Valid(s, c) && s.rows.Keys <= s.used
    requires id in s.rows && id in Apply(s, c).rows
    ensures s.rows[id].readAt.Some? ==> Apply(s, c).rows[id] == s.rows[id]
    ensures Apply(s, c).rows[id] == s.rows[id].(readAt := Apply(s, c).rows[id].readAt)
  {
    if c.Insert? {
      var winners := Inserting(s, c);
    }
  }

  /** A row that is gone stays gone, and a row is new only under an unused id. */
  lemma IdsAreNeverReused(s: State, c: Commit, id: Uuid)
    requires Valid(s, c) && s.rows.Keys <= s.used
    ensures s.used <= Apply(s, c).used && Apply(s, c).rows.Keys <= Apply(s, c).used
    ensures id in s.used && id !in s.rows ==> id !in Apply(s, c).rows
    ensures id !in s.rows && id in Apply(s, c).rows ==> Apply(s, c).rows[id].readAt.None?
  {
    if c.Insert? {
      var winners := Inserting(s, c);
      if id in IdsIn(winners) {
        var w :| 0 <= w < |winners| && winners[w].id == id;
        assert winners[w] in winners;
      }
    }
  }

  // ---- Every run ---------------------------------------------------------------

  ghost predicate AnnouncedAsStored(s: State, id: Uuid) {
    && |AnnouncedReads(s.log, id)| <= 1
    && (id in s.rows ==> AnnouncedReads(s.log, id)
                         == if s.rows[id].readAt.Some? then [s.rows[id].readAt.value] else [])
    && (id !in s.used ==> AnnouncedReads(s.log, id) == [])
  }

  /** Over any run of committed writes a notification is announced read at most
      once; while its row exists the announcement is exactly its read timestamp. */
  lemma {:induction false} ReadOnce(cs: seq<Commit>, id: Uuid)
    requires ValidRun(cs)
    ensures AnnouncedAsStored(Replay(cs), id)
  {
    if cs != [] {
      var s, c := Replay(cs[..|cs| - 1]), cs[|cs| - 1];
      ReadOnce(cs[..|cs| - 1], id);
      UsedCoversRows(cs[..|cs| - 1]);
      AnnouncedReadsConcat(s.log, Announced(s, c), id);
      CommitAnnouncesTheTransition(s, c, id);
      IdsAreNeverReused(s, c, id);
      if id in s.rows && id in Apply(s, c).rows {
        RowsAreImmutableButForReading(s, c, id);
      }
    }
  }

  /** The dedup key stays unique over every run, so one source event gives one
      recipient at most one notification at a time. */
  lemma {:induction false} KeysStayUnique(cs: seq<Commit>)
    requires ValidRun(cs)
    ensures UniqueKey(Replay(cs).rows)
  {
    if cs != [] {
      var s, c := Replay(cs[..|cs| - 1]), cs[|cs| - 1];
      KeysStayUnique(cs[..|cs| - 1]);
      UsedCoversRows(cs[..|cs| - 1]);
      if c.Insert? {
        SetInsert(s, c);
      }
    }
  }

  // ---- Hydration -----------------------------------------------------------------

  datatype Notification = Notification(
    id: Uuid, template: string, payload: Wire.Json, link: Option<RelativeLink>,
    readAt: Option<Time>, createdAt: Time)

  datatype HydrationError = LinkCorrupt

  function FromRow(id: Uuid, row: Row): Result<Notification, HydrationError> {
    match row.link
    case None => Ok(Notification(id, row.template, row.payload, None, row.readAt, row.createdAt))
    case Some(raw) =>
      match ParseLink(raw)
      case Ok(link) => Ok(Notification(id, row.template, row.payload, Some(link), row.readAt, row.createdAt))
      case Err(_) => Err(LinkCorrupt)
  }

  /** What a command said is what its recipient reads, unread. */
  lemma NewRowsHydrate(id: Uuid, source: Uuid, body: Body, at: Time, recipient: Uuid)
    ensures FromRow(id, NewRow(source, body, at, recipient))
            == Ok(Notification(id, body.template, body.payload, body.link, None, at))
  {
    if body.link.Some? {
      ParseLinkIsTotalOnLinks(body.link.value);
    }
  }

  /** No row the service ever stores is reported corrupt: a reader gets the stored
      content, instants and link as they are. */
  lemma {:induction false} HydrationNeverFails(cs: seq<Commit>, id: Uuid)
    requires ValidRun(cs) && id in Replay(cs).rows
    ensures FromRow(id, Replay(cs).rows[id]).Ok?
    ensures var n, row := FromRow(id, Replay(cs).rows[id]).value, Replay(cs).rows[id];
      && n.id == id && n.template == row.template && n.payload == row.payload
      && n.readAt == row.readAt && n.createdAt == row.createdAt
      && row.link == if n.link.Some? then Some(n.link.value) else None
  {
    var s, c := Replay(cs[..|cs| - 1]), cs[|cs| - 1];
    UsedCoversRows(cs[..|cs| - 1]);
    if id in s.rows {
      HydrationNeverFails(cs[..|cs| - 1], id);
      RowsAreImmutableButForReading(s, c, id);
    } else {
      var winners := Inserting(s, c);
      var w :| 0 <= w < |winners| && winners[w].id == id;
      assert winners[w] in winners;
      NewRowsHydrate(id, c.source, c.body, c.at, winners[w].recipient);
    }
  }
}
