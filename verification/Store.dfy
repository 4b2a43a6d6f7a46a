/** The notifications table, its announcements, and the runs of committed writes.

    A committed write is one of three commits. Their statements (fan-out, the
    read marks, the delete) act on the table and append to the announcement log
    in the same transaction; the log is in commit order. */
module Store {
  import opened Prelude
  import opened RelativeLinks
  import opened Signals
  import Wire

  /** What a command gives every row it creates. */
  datatype Body = Body(template: string, payload: Wire.Json, link: Option<RelativeLink>)

  /** A stored row; its id is its key in the table. The link is back to text. */
  datatype Row = Row(
    source: Uuid, recipient: Uuid, template: string, payload: Wire.Json, link: Option<string>,
    readAt: Option<Time>, createdAt: Time)

  type Table = map<Uuid, Row>

  /** One recipient of a fan-out with the id minted for its row. */
  datatype Minted = Minted(id: Uuid, recipient: Uuid)

  datatype Commit =
    | Insert(source: Uuid, body: Body, at: Time, minted: seq<Minted>)
    | MarkRead(recipient: Uuid, ids: seq<Uuid>, at: Time)
    | Delete(recipient: Uuid, ids: seq<Uuid>)

  /** `used` remembers every id that was ever a row's. */
  datatype State = State(rows: Table, log: seq<Signal>, used: set<Uuid>)

  const EMPTY := State(map[], [], {})

  // ---- The fan-out ----------------------------------------------------------

  predicate HasKey(rows: Table, source: Uuid, recipient: Uuid) {
    exists id :: id in rows && rows[id].source == source && rows[id].recipient == recipient
  }

  /** The recipients that already hold a row for `source`. */
  function Taken(rows: Table, source: Uuid): (taken: set<Uuid>)
    ensures forall r :: r in taken <==> HasKey(rows, source, r)
  {
    set id | id in rows && rows[id].source == source :: rows[id].recipient
  }

  /** ON CONFLICT DO NOTHING, row by row: a recipient already holding a row, or
      named earlier in the same statement, gets none. */
  function FirstWins(minted: seq<Minted>, taken: set<Uuid>): seq<Minted> {
    if minted == [] then []
    else if minted[0].recipient in taken then FirstWins(minted[1..], taken)
    else [minted[0]] + FirstWins(minted[1..], taken + {minted[0].recipient})
  }

  function NewRow(source: Uuid, body: Body, at: Time, recipient: Uuid): Row {
    var link: Option<string> := if body.link.Some? then Some(body.link.value) else None;
    Row(source, recipient, body.template, body.payload, link, None, at)
  }

  function AddRows(rows: Table, source: Uuid, body: Body, at: Time, minted: seq<Minted>): Table
    decreases |minted|
  {
    if minted == [] then rows
    else AddRows(rows[minted[0].id := NewRow(source, body, at, minted[0].recipient)],
                 source, body, at, minted[1..])
  }

  function AddedSignals(minted: seq<Minted>): (r: seq<Signal>)
    ensures |r| == |minted|
    ensures forall i :: 0 <= i < |r| ==> r[i] == Added(minted[i].recipient, minted[i].id)
  {
    if minted == [] then []
    else [Added(minted[0].recipient, minted[0].id)] + AddedSignals(minted[1..])
  }

  function IdsIn(minted: seq<Minted>): set<Uuid> {
    set i | 0 <= i < |minted| :: minted[i].id
  }

  // ---- Commits --------------------------------------------------------------

  function SetRead(rows: Table, ids: seq<Uuid>, at: Time): Table {
    map id | id in rows :: if id in ids then rows[id].(readAt := Some(at)) else rows[id]
  }

  function Without(rows: Table, ids: seq<Uuid>): Table {
    map id | id in rows && id !in ids :: rows[id]
  }

  function Inserted(s: State, c: Commit): seq<Minted>
    requires c.Insert?
  {
    FirstWins(c.minted, Taken(s.rows, c.source))
  }

  function Apply(s: State, c: Commit): State {
    match c
    case Insert(source, body, at, _) =>
      var winners := Inserted(s, c);
      State(AddRows(s.rows, source, body, at, winners), s.log + AddedSignals(winners),
            s.used + IdsIn(winners))
    case MarkRead(recipient, ids, at) =>
      s.(rows := SetRead(s.rows, ids, at), log := s.log + ReadSignals(recipient, ids, at))
    case Delete(recipient, ids) =>
      s.(rows := Without(s.rows, ids), log := s.log + DeletedSignals(recipient, ids))
  }

  predicate FreshIds(minted: seq<Minted>, used: set<Uuid>) {
    && (forall i :: 0 <= i < |minted| ==> minted[i].id !in used)
    && (forall i, j :: 0 <= i < j < |minted| ==> minted[i].id != minted[j].id)
  }

  predicate OwnedBy(rows: Table, recipient: Uuid, id: Uuid) {
    id in rows && rows[id].recipient == recipient
  }

  predicate UnreadOf(rows: Table, recipient: Uuid, id: Uuid) {
    OwnedBy(rows, recipient, id) && rows[id].readAt.None?
  }

  /** What a committed write was allowed to touch: minted ids are new, marked rows
      are the recipient's unread ones, deleted rows are the recipient's. */
  predicate Valid(s: State, c: Commit) {
    match c
    case Insert(_, _, _, minted) => FreshIds(minted, s.used)
    case MarkRead(recipient, ids, _) => Distinct(ids) && forall id :: id in ids ==> UnreadOf(s.rows, recipient, id)
    case Delete(recipient, ids) => Distinct(ids) && forall id :: id in ids ==> OwnedBy(s.rows, recipient, id)
  }

  function Replay(cs: seq<Commit>): State {
    if cs == [] then EMPTY else Apply(Replay(cs[..|cs| - 1]), cs[|cs| - 1])
  }

  predicate ValidRun(cs: seq<Commit>) {
    cs == [] || (ValidRun(cs[..|cs| - 1]) && Valid(Replay(cs[..|cs| - 1]), cs[|cs| - 1]))
  }

  lemma ReplayAppend(cs: seq<Commit>, c: Commit)
    ensures Replay(cs + [c]) == Apply(Replay(cs), c)
    ensures ValidRun(cs + [c]) <==> ValidRun(cs) && Valid(Replay(cs), c)
  {
    assert (cs + [c])[..|cs|] == cs;
  }

  // ---- Set insert -----------------------------------------------------------

  /** Candidate `i` is the first of its statement for a recipient lacking a row. */
  predicate FirstOfLacking(minted: seq<Minted>, taken: set<Uuid>, i: nat)
    requires i < |minted|
  {
    && minted[i].recipient !in taken
    && (forall j :: 0 <= j < i ==> minted[j].recipient != minted[i].recipient)
  }

  lemma {:induction false} WinnersDiffer(minted: seq<Minted>, taken: set<Uuid>)
    ensures forall m :: m in FirstWins(minted, taken) ==> m in minted && m.recipient !in taken
    ensures forall i, j :: 0 <= i < j < |FirstWins(minted, taken)|
              ==> FirstWins(minted, taken)[i].recipient != FirstWins(minted, taken)[j].recipient
  {
    if minted != [] {
      WinnersDiffer(minted[1..], taken);
      WinnersDiffer(minted[1..], taken + {minted[0].recipient});
      var rest := FirstWins(minted[1..], taken + {minted[0].recipient});
      assert forall i :: 0 <= i < |rest| ==> rest[i] in rest;
    }
  }

  /** Every recipient named and lacking a row is served, at its first mention. */
  lemma {:induction false} FirstsWin(minted: seq<Minted>, taken: set<Uuid>, i: nat)
    requires i < |minted|
    ensures FirstOfLacking(minted, taken, i) ==> minted[i] in FirstWins(minted, taken)
  {
    var taken' := taken + {minted[0].recipient};
    if i > 0 && FirstOfLacking(minted, taken, i) {
      assert forall j :: 0 <= j < i - 1 ==> minted[1..][j] == minted[j + 1];
      FirstsWin(minted[1..], if minted[0].recipient in taken then taken else taken', i - 1);
    }
  }

  lemma {:induction false} WinnersAreFirsts(minted: seq<Minted>, taken: set<Uuid>, m: Minted) returns (i: nat)
    requires m in FirstWins(minted, taken)
    ensures i < |minted| && minted[i] == m && FirstOfLacking(minted, taken, i)
  {
    if minted[0] == m && m.recipient !in taken {
      i := 0;
    } else {
      var taken' := taken + {minted[0].recipient};
      i := WinnersAreFirsts(minted[1..], if minted[0].recipient in taken then taken else taken', m);
      assert forall j :: 0 < j < i + 1 ==> minted[j] == minted[1..][j - 1];
      i := i + 1;
    }
  }

  lemma {:induction false} FirstMention(minted: seq<Minted>, i: nat) returns (k: nat)
    requires i < |minted|
    ensures k <= i && minted[k].recipient == minted[i].recipient
    ensures forall j :: 0 <= j < k ==> minted[j].recipient != minted[k].recipient
  {
    k := i;
    if j: nat :| j < i && minted[j].recipient == minted[i].recipient {
      k := FirstMention(minted, j);
    }
  }

  lemma {:induction false} AddRowsAt(rows: Table, source: Uuid, body: Body, at: Time, minted: seq<Minted>)
    requires forall i, j :: 0 <= i < j < |minted| ==> minted[i].id != minted[j].id
    ensures AddRows(rows, source, body, at, minted).Keys == rows.Keys + IdsIn(minted)
    ensures forall id :: id in rows && id !in IdsIn(minted) ==> AddRows(rows, source, body, at, minted)[id] == rows[id]
    ensures forall m :: m in minted ==>
              m.id in IdsIn(minted)
              && AddRows(rows, source, body, at, minted)[m.id] == NewRow(source, body, at, m.recipient)
    decreases |minted|
  {
    if minted != [] {
      var first, rest := minted[0], minted[1..];
      var rows' := rows[first.id := NewRow(source, body, at, first.recipient)];
      AddRowsAt(rows', source, body, at, rest);
      assert forall i :: 0 < i < |minted| ==> minted[i] == rest[i - 1];
      assert IdsIn(minted) == {first.id} + IdsIn(rest);
    }
  }

  predicate UniqueKey(rows: Table) {
    forall a, b | a in rows && b in rows ::
      rows[a].source == rows[b].source && rows[a].recipient == rows[b].recipient ==> a == b
  }

  lemma WinnerIds(minted: seq<Minted>, taken: set<Uuid>, used: set<Uuid>)
    requires FreshIds(minted, used)
    ensures FreshIds(FirstWins(minted, taken), used)
  {
    var winners := FirstWins(minted, taken);
    WinnersDiffer(minted, taken);
    forall i | 0 <= i < |winners|
      ensures winners[i].id !in used
    {
      var k := WinnersAreFirsts(minted, taken, winners[i]);
    }
    forall i, j | 0 <= i < j < |winners|
      ensures winners[i].id != winners[j].id
    {
      var k := WinnersAreFirsts(minted, taken, winners[i]);
      var l := WinnersAreFirsts(minted, taken, winners[j]);
    }
  }

  /** What the statement does with its winners. */
  lemma Inserting(s: State, c: Commit) returns (winners: seq<Minted>)
    requires c.Insert? && Valid(s, c) && s.rows.Keys <= s.used
    ensures winners == Inserted(s, c) && FreshIds(winners, s.used)
    ensures forall m :: m in winners ==> m in c.minted && m.recipient !in Taken(s.rows, c.source)
    ensures forall i, j :: 0 <= i < j < |winners| ==> winners[i].recipient != winners[j].recipient
    ensures Apply(s, c).rows.Keys == s.rows.Keys + IdsIn(winners)
    ensures forall id :: id in s.rows ==> Apply(s, c).rows[id] == s.rows[id]
    ensures forall m :: m in winners ==>
              m.id in Apply(s, c).rows && m.id !in s.rows
              && Apply(s, c).rows[m.id] == NewRow(c.source, c.body, c.at, m.recipient)
  {
    winners := Inserted(s, c);
    WinnersDiffer(c.minted, Taken(s.rows, c.source));
    WinnerIds(c.minted, Taken(s.rows, c.source), s.used);
    AddRowsAt(s.rows, c.source, c.body, c.at, winners);
  }

  lemma RowIffFirstOfLacking(s: State, c: Commit, i: nat)
    requires c.Insert? && Valid(s, c) && s.rows.Keys <= s.used && i < |c.minted|
    ensures c.minted[i].id in Apply(s, c).rows <==> FirstOfLacking(c.minted, Taken(s.rows, c.source), i)
    ensures c.minted[i].id in Apply(s, c).rows
            ==> Apply(s, c).rows[c.minted[i].id] == NewRow(c.source, c.body, c.at, c.minted[i].recipient)
  {
    var taken := Taken(s.rows, c.source);
    var winners := Inserting(s, c);
    FirstsWin(c.minted, taken, i);
    if c.minted[i].id in Apply(s, c).rows {
      var w :| 0 <= w < |winners| && winners[w].id == c.minted[i].id;
      var k := WinnersAreFirsts(c.minted, taken, winners[w]);
      assert k == i;
    }
  }

  lemma EveryoneNamedHasARow(s: State, c: Commit, i: nat)
    requires c.Insert? && Valid(s, c) && s.rows.Keys <= s.used && i < |c.minted|
    ensures HasKey(Apply(s, c).rows, c.source, c.minted[i].recipient)
  {
    var taken, after := Taken(s.rows, c.source), Apply(s, c).rows;
    var winners := Inserting(s, c);
    if c.minted[i].recipient in taken {
      var id :| id in s.rows && s.rows[id].source == c.source && s.rows[id].recipient == c.minted[i].recipient;
      assert after[id] == s.rows[id];
    } else {
      var k := FirstMention(c.minted, i);
      FirstsWin(c.minted, taken, k);
      var m := c.minted[k];
      assert m.id in after && after[m.id].source == c.source && after[m.id].recipient == m.recipient;
    }
  }

  lemma OldRowsStay(s: State, c: Commit, id: Uuid)
    requires c.Insert? && Valid(s, c) && s.rows.Keys <= s.used
    ensures id in s.rows ==> id in Apply(s, c).rows && Apply(s, c).rows[id] == s.rows[id]
  {
    var winners := Inserting(s, c);
  }

  /** A row that is new is one of the candidates', as the fan-out makes it. */
  lemma NewRowIsACandidates(s: State, c: Commit, id: Uuid) returns (k: nat)
    requires c.Insert? && Valid(s, c) && s.rows.Keys <= s.used
    requires id in Apply(s, c).rows && id !in s.rows
    ensures k < |c.minted| && c.minted[k].id == id
    ensures Apply(s, c).rows[id] == NewRow(c.source, c.body, c.at, c.minted[k].recipient)
  {
    var winners := Inserting(s, c);
    var i :| 0 <= i < |winners| && winners[i].id == id;
    assert winners[i] in winners;
    k :| 0 <= k < |c.minted| && c.minted[k] == winners[i];
  }

  lemma NewKeysAreNamed(s: State, c: Commit, id: Uuid)
    requires c.Insert? && Valid(s, c) && s.rows.Keys <= s.used
    requires id in Apply(s, c).rows && id !in s.rows
    ensures Apply(s, c).rows[id].source == c.source
    ensures exists k :: 0 <= k < |c.minted| && c.minted[k].recipient == Apply(s, c).rows[id].recipient
  {
    var k := NewRowIsACandidates(s, c, id);
  }

  lemma UsedGrowsByMinted(s: State, c: Commit, x: Uuid)
    ensures s.used <= Apply(s, c).used
    ensures x in Apply(s, c).used && x !in s.used ==> c.Insert? && x in IdsIn(c.minted)
  {
    if c.Insert? {
      var winners := Inserted(s, c);
      WinnersDiffer(c.minted, Taken(s.rows, c.source));
      if x in IdsIn(winners) {
        var i :| 0 <= i < |winners| && winners[i].id == x;
        assert winners[i] in winners;
        var k :| 0 <= k < |c.minted| && c.minted[k] == winners[i];
      }
    }
  }

  lemma NewKeysWereFree(s: State, c: Commit, id: Uuid)
    requires c.Insert? && Valid(s, c) && s.rows.Keys <= s.used
    requires id in Apply(s, c).rows && id !in s.rows
    ensures Apply(s, c).rows[id].source == c.source && !HasKey(s.rows, c.source, Apply(s, c).rows[id].recipient)
  {
    var winners := Inserting(s, c);
    var i :| 0 <= i < |winners| && winners[i].id == id;
    assert winners[i] in winners;
  }

  lemma NewKeysDiffer(s: State, c: Commit, a: Uuid, b: Uuid)
    requires c.Insert? && Valid(s, c) && s.rows.Keys <= s.used
    requires a in Apply(s, c).rows && a !in s.rows && b in Apply(s, c).rows && b !in s.rows
    requires Apply(s, c).rows[a].recipient == Apply(s, c).rows[b].recipient
    ensures a == b
  {
    var winners := Inserting(s, c);
    var i := WinnerOf(s, c, a);
    var j := WinnerOf(s, c, b);
  }

  lemma WinnerOf(s: State, c: Commit, id: Uuid) returns (i: nat)
    requires c.Insert? && Valid(s, c) && s.rows.Keys <= s.used
    requires id in Apply(s, c).rows && id !in s.rows
    ensures i < |Inserted(s, c)| && Inserted(s, c)[i].id == id
    ensures Inserted(s, c)[i].recipient == Apply(s, c).rows[id].recipient
  {
    var winners := Inserting(s, c);
    i :| 0 <= i < |winners| && winners[i].id == id;
    assert winners[i] in winners;
  }

  lemma InsertKeepsUniqueKey(s: State, c: Commit)
    requires c.Insert? && Valid(s, c) && s.rows.Keys <= s.used && UniqueKey(s.rows)
    ensures UniqueKey(Apply(s, c).rows)
  {
    var after := Apply(s, c).rows;
    forall a, b | a in after && b in after && after[a].source == after[b].source
                  && after[a].recipient == after[b].recipient
      ensures a == b
    {
      OldRowsStay(s, c, a);
      OldRowsStay(s, c, b);
      if a !in s.rows {
        NewKeysWereFree(s, c, a);
      }
      if b !in s.rows {
        NewKeysWereFree(s, c, b);
      }
      if a !in s.rows && b !in s.rows {
        NewKeysDiffer(s, c, a, b);
      }
    }
  }

  /** The single-statement fan-out: a candidate becomes a row exactly when it is
      the first of its statement for a recipient lacking one. Old rows stay as
      they were, no other row appears, the unique key holds, and afterwards every
      named recipient has a row. */
  lemma SetInsert(s: State, c: Commit)
    requires c.Insert? && Valid(s, c) && s.rows.Keys <= s.used && UniqueKey(s.rows)
    ensures forall id :: id in s.rows ==> id in Apply(s, c).rows && Apply(s, c).rows[id] == s.rows[id]
    ensures Apply(s, c).rows.Keys <= s.rows.Keys + IdsIn(c.minted)
    ensures forall i :: 0 <= i < |c.minted| ==>
              (c.minted[i].id in Apply(s, c).rows <==> FirstOfLacking(c.minted, Taken(s.rows, c.source), i))
    ensures forall i :: 0 <= i < |c.minted| && c.minted[i].id in Apply(s, c).rows ==>
              Apply(s, c).rows[c.minted[i].id] == NewRow(c.source, c.body, c.at, c.minted[i].recipient)
    ensures forall i :: 0 <= i < |c.minted| ==> HasKey(Apply(s, c).rows, c.source, c.minted[i].recipient)
    ensures UniqueKey(Apply(s, c).rows)
  {
    var winners := Inserting(s, c);
    forall id | id in IdsIn(winners)
      ensures id in IdsIn(c.minted)
    {
      var w :| 0 <= w < |winners| && winners[w].id == id;
      assert winners[w] in c.minted;
    }
    forall i | 0 <= i < |c.minted|
      ensures c.minted[i].id in Apply(s, c).rows <==> FirstOfLacking(c.minted, Taken(s.rows, c.source), i)
      ensures c.minted[i].id in Apply(s, c).rows
              ==> Apply(s, c).rows[c.minted[i].id] == NewRow(c.source, c.body, c.at, c.minted[i].recipient)
      ensures HasKey(Apply(s, c).rows, c.source, c.minted[i].recipient)
    {
      RowIffFirstOfLacking(s, c, i);
      EveryoneNamedHasARow(s, c, i);
    }
    InsertKeepsUniqueKey(s, c);
  }

  lemma InsertedIsAnnounced(s: State, c: Commit, id: Uuid)
    requires c.Insert? && Valid(s, c) && s.rows.Keys <= s.used
    requires id in Apply(s, c).rows && id !in s.rows
    ensures Added(Apply(s, c).rows[id].recipient, id) in AddedSignals(Inserted(s, c))
  {
    var winners := Inserting(s, c);
    var i :| 0 <= i < |winners| && winners[i].id == id;
    assert winners[i] in winners;
    assert AddedSignals(winners)[i] == Added(winners[i].recipient, id);
  }

  lemma AnnouncedIsInserted(s: State, c: Commit, i: nat)
    requires c.Insert? && Valid(s, c) && s.rows.Keys <= s.used && i < |Inserted(s, c)|
    ensures var m := Inserted(s, c)[i];
            m.id in Apply(s, c).rows && m.id !in s.rows && m.recipient == Apply(s, c).rows[m.id].recipient
  {
    var winners := Inserting(s, c);
    assert winners[i] in winners;
  }

  /** Exactly one announcement per inserted row, none for a row already there. */
  lemma OneAddedPerInsertedRow(s: State, c: Commit) returns (announced: seq<Signal>)
    requires c.Insert? && Valid(s, c) && s.rows.Keys <= s.used
    ensures Apply(s, c).log == s.log + announced
    ensures forall i :: 0 <= i < |announced| ==>
              && announced[i].Added? && announced[i].id in Apply(s, c).rows && announced[i].id !in s.rows
              && announced[i].recipient == Apply(s, c).rows[announced[i].id].recipient
    ensures forall i, j :: 0 <= i < j < |announced| ==> announced[i].id != announced[j].id
    ensures forall id :: id in Apply(s, c).rows && id !in s.rows ==>
              Added(Apply(s, c).rows[id].recipient, id) in announced
  {
    var after, winners := Apply(s, c).rows, Inserted(s, c);
    announced := AddedSignals(winners);
    WinnerIds(c.minted, Taken(s.rows, c.source), s.used);
    forall i | 0 <= i < |announced|
      ensures announced[i].Added? && announced[i].id in after && announced[i].id !in s.rows
      ensures announced[i].recipient == after[announced[i].id].recipient
    {
      AnnouncedIsInserted(s, c, i);
    }
    forall id | id in after && id !in s.rows
      ensures Added(after[id].recipient, id) in announced
    {
      InsertedIsAnnounced(s, c, id);
    }
  }
}
