/** Keyset pagination: one page, the cursor walk over a fixed table, and the walk
    whose pages are read while other transactions commit. */
module Pages {
  import opened Prelude
  import opened Store
  import opened Views

  /** What the inbox is ordered by. */
  datatype Key = Key(at: Time, id: Uuid)

  /** `a` is listed before `b`: (created_at, id) descending. */
  predicate Newer(a: Key, b: Key) {
    a.at > b.at || (a.at == b.at && a.id > b.id)
  }

  function KeyOf(rows: Table, id: Uuid): Key
    requires id in rows
  {
    Key(rows[id].createdAt, id)
  }

  predicate Past(cursor: Option<Key>, k: Key) {
    cursor.Some? ==> Newer(cursor.value, k)
  }

  /** The recipient's rows strictly past the cursor. */
  function KeysPast(rows: Table, recipient: Uuid, cursor: Option<Key>): set<Key> {
    set id | id in rows && rows[id].recipient == recipient && Past(cursor, KeyOf(rows, id)) :: KeyOf(rows, id)
  }

  // ---- ORDER BY created_at DESC, id DESC ---------------------------------------

  ghost predicate IsNewest(m: Key, ks: set<Key>) {
    m in ks && forall k :: k in ks && k != m ==> Newer(m, k)
  }

  lemma {:induction false} NewestExists(ks: set<Key>) returns (m: Key)
    requires ks != {}
    ensures IsNewest(m, ks)
    decreases |ks|
  {
    m :| m in ks;
    if ks != {m} {
      var rest := ks - {m};
      assert rest != {} by {
        assert ks == rest + {m};
      }
      var n := NewestExists(rest);
      if Newer(n, m) {
        m := n;
      }
    }
  }

  ghost function Sorted(ks: set<Key>): seq<Key>
    decreases |ks|
  {
    if ks == {} then [] else
      NewestExists'(ks);
      var m :| IsNewest(m, ks);
      [m] + Sorted(ks - {m})
  }

  lemma NewestExists'(ks: set<Key>)
    requires ks != {}
    ensures exists m :: IsNewest(m, ks)
  {
    var m := NewestExists(ks);
  }

  ghost predicate Descending(s: seq<Key>) {
    forall i, j :: 0 <= i < j < |s| ==> Newer(s[i], s[j])
  }

  /** The listing holds each key once, newest first. */
  lemma {:induction false} SortedLists(ks: set<Key>)
    ensures Descending(Sorted(ks)) && |Sorted(ks)| == |ks|
    ensures forall k :: k in Sorted(ks) <==> k in ks
    decreases |ks|
  {
    if ks != {} {
      NewestExists'(ks);
      var m :| IsNewest(m, ks) && Sorted(ks) == [m] + Sorted(ks - {m});
      SortedLists(ks - {m});
      NewestFirst(m, Sorted(ks - {m}));
      assert ks == {m} + (ks - {m});
    }
  }

  lemma NewestFirst(m: Key, s: seq<Key>)
    requires Descending(s) && forall k :: k in s ==> Newer(m, k)
    ensures Descending([m] + s)
    ensures forall k :: k in [m] + s <==> k == m || k in s
  {
    forall i | 0 <= i < |s|
      ensures Newer(m, s[i])
    {
      assert s[i] in s;
    }
  }

  /** A descending listing is determined by its elements. */
  lemma {:induction false} DescendingUnique(s: seq<Key>, t: seq<Key>)
    requires Descending(s) && Descending(t) && forall k :: k in s <==> k in t
    ensures s == t
    decreases |s|
  {
    var head := if t == [] then Key(0, 0) else t[0];
    assert t == [] || head in t;
    if s != [] {
      assert s[0] in t;
      assert t[0] in s;
      assert s[0] == t[0];
      forall k
        ensures k in s[1..] <==> k in t[1..]
      {
        assert k in s[1..] <==> k in s && k != s[0];
        assert k in t[1..] <==> k in t && k != t[0];
      }
      DescendingUnique(s[1..], t[1..]);
    }
  }

  lemma CutAfter(listed: seq<Key>, m: nat, k: Key)
    requires Descending(listed) && 0 < m <= |listed|
    ensures Descending(listed[m..])
    ensures k in listed[m..] <==> k in listed && Newer(listed[m - 1], k)
  {
    if k in listed {
      var i :| 0 <= i < |listed| && listed[i] == k;
      if i >= m {
        assert listed[m..][i - m] == k;
      }
    }
  }

  /** Cutting a listing after its `m`-th key leaves the listing of the keys past it. */
  lemma SortedSplit(ks: set<Key>, m: nat)
    requires 0 < m <= |Sorted(ks)|
    ensures Sorted(ks)[m..] == Sorted(set k | k in ks && Newer(Sorted(ks)[m - 1], k))
  {
    var listed := Sorted(ks);
    var rest := set k | k in ks && Newer(listed[m - 1], k);
    SortedLists(ks);
    SortedLists(rest);
    forall k
      ensures k in listed[m..] <==> k in Sorted(rest)
    {
      CutAfter(listed, m, k);
    }
    CutAfter(listed, m, listed[0]);
    DescendingUnique(listed[m..], Sorted(rest));
  }

  lemma KeysPastSplit(rows: Table, recipient: Uuid, cursor: Option<Key>, last: Key)
    requires last in KeysPast(rows, recipient, cursor)
    ensures KeysPast(rows, recipient, Some(last)) == set k | k in KeysPast(rows, recipient, cursor) && Newer(last, k)
  {
  }

  // ---- One page ------------------------------------------------------------------

  datatype Page = Page(nodes: seq<Key>, hasNextPage: bool)

  function Clamp(first: int): (n: nat)
    ensures 1 <= n <= 100
  {
    if first < 1 then 1 else if first > 100 then 100 else first
  }

  /** LIMIT n + 1, of which the last only answers `has_next_page`. */
  ghost function PageOf(rows: Table, recipient: Uuid, n: nat, cursor: Option<Key>): Page {
    FirstPage(Sorted(KeysPast(rows, recipient, cursor)), n)
  }

  function FirstPage(listed: seq<Key>, n: nat): Page {
    var fetched := if |listed| > n + 1 then listed[..n + 1] else listed;
    Page(if |fetched| > n then fetched[..n] else fetched, |fetched| > n)
  }

  /** The extra fetched row tells whether the listing goes on, and is not served. */
  lemma FirstPageCuts(listed: seq<Key>, n: nat)
    ensures var page := FirstPage(listed, n);
      && page.nodes == (if |listed| < n then listed else listed[..n])
      && (page.hasNextPage <==> |listed| > n)
  {
    if |listed| > n + 1 {
      assert listed[..n + 1][..n] == listed[..n];
    }
  }

  /** The two statements of a listing, each with its own snapshot of the table:
      the cursor lookup in `anchors`, the select in `rows`. A cursor the select no
      longer finds compares as null and selects nothing. */
  ghost function ListNotifications(
    anchors: Table, rows: Table, recipient: Uuid, first: int, after: Option<Uuid>): Option<Page>
  {
    match after
    case None => Some(PageOf(rows, recipient, Clamp(first), None))
    case Some(id) =>
      if !OwnedBy(anchors, recipient, id) then None
      else if !OwnedBy(rows, recipient, id) then Some(Page([], false))
      else Some(PageOf(rows, recipient, Clamp(first), Some(KeyOf(rows, id))))
  }

  lemma PageCuts(rows: Table, recipient: Uuid, n: nat, cursor: Option<Key>)
    requires n > 0
    ensures var page, listed := PageOf(rows, recipient, n, cursor), Sorted(KeysPast(rows, recipient, cursor));
      && |page.nodes| == (if |listed| < n then |listed| else n)
      && page.nodes == listed[..|page.nodes|] && (page.hasNextPage <==> |page.nodes| < |listed|)
      && (listed == [] <==> KeysPast(rows, recipient, cursor) == {})
  {
    FirstPageCuts(Sorted(KeysPast(rows, recipient, cursor)), n);
    SortedLists(KeysPast(rows, recipient, cursor));
  }

  lemma ListingContinues(rows: Table, recipient: Uuid, cursor: Option<Key>, m: nat)
    requires 0 < m <= |Sorted(KeysPast(rows, recipient, cursor))|
    ensures var listed := Sorted(KeysPast(rows, recipient, cursor));
      && listed == listed[..m] + Sorted(KeysPast(rows, recipient, Some(listed[m - 1])))
      && (m < |listed| <==> KeysPast(rows, recipient, Some(listed[m - 1])) != {})
  {
    var keys := KeysPast(rows, recipient, cursor);
    var listed := Sorted(keys);
    SortedLists(keys);
    assert listed[m - 1] in listed;
    KeysPastSplit(rows, recipient, cursor, listed[m - 1]);
    SortedSplit(keys, m);
    assert listed == listed[..m] + listed[m..];
    var rest := KeysPast(rows, recipient, Some(listed[m - 1]));
    SortedLists(rest);
  }

  /** A page is the next stretch of the listing: its nodes then the rows past its
      last node make up the rows past the cursor, and there is a next page exactly
      when such rows remain. */
  lemma PageThenRest(rows: Table, recipient: Uuid, n: nat, cursor: Option<Key>)
    requires n > 0
    ensures var page := PageOf(rows, recipient, n, cursor);
      && |page.nodes| <= n && (page.hasNextPage ==> |page.nodes| == n)
      && (page.nodes == [] ==> KeysPast(rows, recipient, cursor) == {})
      && (page.nodes != [] ==>
            var last := page.nodes[|page.nodes| - 1];
            && Sorted(KeysPast(rows, recipient, cursor))
               == page.nodes + Sorted(KeysPast(rows, recipient, Some(last)))
            && (page.hasNextPage <==> KeysPast(rows, recipient, Some(last)) != {}))
  {
    var page := PageOf(rows, recipient, n, cursor);
    PageCuts(rows, recipient, n, cursor);
    if page.nodes != [] {
      ListingContinues(rows, recipient, cursor, |page.nodes|);
    }
  }

  /** The nodes are among the ids, with their instants, newest first and by
      descending id within an instant, and whatever is left out is older than all. */
  predicate ServesNewest(rows: Table, past: set<Uuid>, nodes: seq<Key>)
    requires forall id :: id in past ==> id in rows
  {
    && (forall i :: 0 <= i < |nodes| ==> nodes[i].id in past && nodes[i].at == rows[nodes[i].id].createdAt)
    && (forall i, j :: 0 <= i < j < |nodes| ==>
          nodes[i].at > nodes[j].at || (nodes[i].at == nodes[j].at && nodes[i].id > nodes[j].id))
    && (forall id, i :: id in past && Key(rows[id].createdAt, id) !in nodes && 0 <= i < |nodes| ==>
          rows[id].createdAt < nodes[i].at || (rows[id].createdAt == nodes[i].at && id < nodes[i].id))
  }

  lemma LeftOutIsOlder(rows: Table, recipient: Uuid, n: nat, after: Option<Uuid>, id: Uuid, i: nat)
    requires n > 0 && (after.Some? ==> OwnedBy(rows, recipient, after.value)) && id in IdsPast(rows, recipient, after)
    requires var nodes := PageOf(rows, recipient, n, CursorKey(rows, after)).nodes;
             KeyOf(rows, id) !in nodes && i < |nodes|
    ensures Newer(PageOf(rows, recipient, n, CursorKey(rows, after)).nodes[i], KeyOf(rows, id))
  {
    var cursor := CursorKey(rows, after);
    var nodes := PageOf(rows, recipient, n, cursor).nodes;
    PageNodes(rows, recipient, n, cursor);
    UnlistedComesLater(rows, recipient, n, cursor, id);
    assert i < |nodes| - 1 ==> Newer(nodes[i], nodes[|nodes| - 1]);
  }

  lemma PageServesNewest(rows: Table, recipient: Uuid, n: nat, after: Option<Uuid>)
    requires n > 0 && (after.Some? ==> OwnedBy(rows, recipient, after.value))
    ensures ServesNewest(rows, IdsPast(rows, recipient, after),
                         PageOf(rows, recipient, n, CursorKey(rows, after)).nodes)
  {
    var past, cursor := IdsPast(rows, recipient, after), CursorKey(rows, after);
    var nodes := PageOf(rows, recipient, n, cursor).nodes;
    PageNodes(rows, recipient, n, cursor);
    forall i | 0 <= i < |nodes|
      ensures nodes[i].id in past && nodes[i].at == rows[nodes[i].id].createdAt
    {
      assert nodes[i] in nodes;
    }
    forall id, i | id in past && Key(rows[id].createdAt, id) !in nodes && 0 <= i < |nodes|
      ensures Newer(nodes[i], KeyOf(rows, id))
    {
      LeftOutIsOlder(rows, recipient, n, after, id, i);
    }
  }

  /** The ids of the recipient's rows listed after the cursor's row, or of all. */
  function IdsPast(rows: Table, recipient: Uuid, after: Option<Uuid>): set<Uuid>
    requires after.Some? ==> after.value in rows
  {
    set id | id in rows && rows[id].recipient == recipient
             && (after.Some? ==> var c := rows[after.value];
                   rows[id].createdAt < c.createdAt || (rows[id].createdAt == c.createdAt && id < after.value))
  }

  lemma {:induction false} SameCount(ids: set<Uuid>, keys: set<Key>)
    requires forall k :: k in keys ==> k.id in ids
    requires forall id :: id in ids ==> exists k :: k in keys && k.id == id
    requires forall k, l :: k in keys && l in keys && k.id == l.id ==> k == l
    ensures |ids| == |keys|
    decreases |ids|
  {
    if ids == {} {
      assert keys == {} by {
        if k :| k in keys {
          assert k.id in ids;
        }
      }
    } else {
      var id :| id in ids;
      var k :| k in keys && k.id == id;
      SameCount(ids - {id}, keys - {k});
    }
  }

  lemma KeysCountIds(rows: Table, recipient: Uuid, after: Option<Uuid>)
    requires after.Some? ==> after.value in rows
    ensures |IdsPast(rows, recipient, after)| == |KeysPast(rows, recipient, CursorKey(rows, after))|
  {
    var ids, keys := IdsPast(rows, recipient, after), KeysPast(rows, recipient, CursorKey(rows, after));
    forall id | id in ids
      ensures exists k :: k in keys && k.id == id
    {
      assert KeyOf(rows, id) in keys;
    }
    SameCount(ids, keys);
  }

  /** What a request gets, from the rows alone: nothing exactly when the lookup
      misses the cursor; otherwise rows past it, newest first and by descending id
      within an instant, as many as were asked for between 1 and 100, none of those
      left out newer than one served; and word of more exactly when there are more. */
  lemma RequestGets(anchors: Table, rows: Table, recipient: Uuid, first: int, after: Option<Uuid>)
    ensures ListNotifications(anchors, rows, recipient, first, after) == None
            <==> after.Some? && !(after.value in anchors && anchors[after.value].recipient == recipient)
    ensures var page := ListNotifications(anchors, rows, recipient, first, after);
      var size: nat := if 1 <= first <= 100 then first else if first < 1 then 1 else 100;
      page.Some? && (after.Some? ==> OwnedBy(rows, recipient, after.value)) ==>
        var past, nodes := IdsPast(rows, recipient, after), page.value.nodes;
        && |nodes| == (if |past| < size then |past| else size)
        && (page.value.hasNextPage <==> |past| > size)
        && ServesNewest(rows, past, nodes)
  {
    if after.Some? ==> OwnedBy(rows, recipient, after.value) {
      KeysCountIds(rows, recipient, after);
      SortedLists(KeysPast(rows, recipient, CursorKey(rows, after)));
      FirstPageCuts(Sorted(KeysPast(rows, recipient, CursorKey(rows, after))), Clamp(first));
      PageServesNewest(rows, recipient, Clamp(first), after);
    }
  }

  // ---- The walk on a fixed table ----------------------------------------------------

  lemma RemainingShrinks(rows: Table, recipient: Uuid, n: nat, cursor: Option<Key>)
    requires n > 0 && PageOf(rows, recipient, n, cursor).hasNextPage
    ensures var nodes := PageOf(rows, recipient, n, cursor).nodes;
      && nodes != [] && nodes[|nodes| - 1].id in rows && OwnedBy(rows, recipient, nodes[|nodes| - 1].id)
      && KeyOf(rows, nodes[|nodes| - 1].id) == nodes[|nodes| - 1]
      && |KeysPast(rows, recipient, Some(nodes[|nodes| - 1]))| < |KeysPast(rows, recipient, cursor)|
  {
    PageThenRest(rows, recipient, n, cursor);
    var nodes := PageOf(rows, recipient, n, cursor).nodes;
    var last := nodes[|nodes| - 1];
    SortedLists(KeysPast(rows, recipient, cursor));
    SortedLists(KeysPast(rows, recipient, Some(last)));
    assert last in Sorted(KeysPast(rows, recipient, cursor));
    assert |Sorted(KeysPast(rows, recipient, cursor))| == |nodes| + |Sorted(KeysPast(rows, recipient, Some(last)))|;
  }

  function CursorKey(rows: Table, after: Option<Uuid>): Option<Key>
    requires after.Some? ==> after.value in rows
  {
    if after.Some? then Some(KeyOf(rows, after.value)) else None
  }

  /** A client following the last id of each page; `firsts` is what it asks for,
      page by page. */
  ghost function Walk(rows: Table, recipient: Uuid, firsts: nat -> int, page: nat, after: Option<Uuid>): seq<Key>
    requires after.Some? ==> OwnedBy(rows, recipient, after.value)
    decreases |KeysPast(rows, recipient, CursorKey(rows, after))|
  {
    var served := ListNotifications(rows, rows, recipient, firsts(page), after).value;
    if !served.hasNextPage then served.nodes
    else
      RemainingShrinks(rows, recipient, Clamp(firsts(page)), CursorKey(rows, after));
      served.nodes + Walk(rows, recipient, firsts, page + 1, Some(served.nodes[|served.nodes| - 1].id))
  }

  /** Whatever page sizes are asked for, the walk from the start serves the
      recipient's rows in descending order, each once, and stops. */
  lemma {:induction false} WalkServesTheInbox(
    rows: Table, recipient: Uuid, firsts: nat -> int, page: nat, after: Option<Uuid>)
    requires after.Some? ==> OwnedBy(rows, recipient, after.value)
    ensures Walk(rows, recipient, firsts, page, after)
            == Sorted(KeysPast(rows, recipient, CursorKey(rows, after)))
    decreases |KeysPast(rows, recipient, CursorKey(rows, after))|
  {
    var cursor, n := CursorKey(rows, after), Clamp(firsts(page));
    var served := PageOf(rows, recipient, n, cursor);
    assert ListNotifications(rows, rows, recipient, firsts(page), after) == Some(served);
    PageThenRest(rows, recipient, n, cursor);
    if served.hasNextPage {
      RemainingShrinks(rows, recipient, n, cursor);
      var last := served.nodes[|served.nodes| - 1];
      WalkServesTheInbox(rows, recipient, firsts, page + 1, Some(last.id));
      assert CursorKey(rows, Some(last.id)) == Some(last);
    } else if served.nodes != [] {
      assert served.nodes + [] == served.nodes;
    }
  }

  // ---- A cursor lost between the two statements ----------------------------------------

  /** A listing whose lookup found the cursor answers the rows past it exactly when
      the select finds the cursor too, or nothing was left to list. */
  lemma ListingIsExactIffCursorStays(anchors: Table, rows: Table, recipient: Uuid, first: int, id: Uuid)
    requires OwnedBy(anchors, recipient, id)
    requires id in rows ==> rows[id].recipient == recipient && KeyOf(rows, id) == KeyOf(anchors, id)
    ensures ListNotifications(anchors, rows, recipient, first, Some(id))
            == Some(PageOf(rows, recipient, Clamp(first), Some(KeyOf(anchors, id))))
            <==> id in rows || KeysPast(rows, recipient, Some(KeyOf(anchors, id))) == {}
  {
    PageThenRest(rows, recipient, Clamp(first), Some(KeyOf(anchors, id)));
  }

  /** The excluded family is inhabited: the cursor deleted between the statements
      hides an older notification behind an empty last page. */
  lemma DeletedCursorHidesTheRest(recipient: Uuid, newer: Uuid, older: Uuid, row: Row)
    requires newer > older && row.recipient == recipient
    ensures ListNotifications(map[newer := row, older := row], map[older := row], recipient, 20, Some(newer))
            == Some(Page([], false))
    ensures Key(row.createdAt, older) in KeysPast(map[older := row], recipient, Some(Key(row.createdAt, newer)))
  {
    var rows: Table := map[older := row];
    assert older in rows && KeyOf(rows, older) == Key(row.createdAt, older);
  }

  // ---- The walk while others commit ----------------------------------------------------

  /** One page as a client read it: the table its select saw, the page it got. */
  datatype PageRead = PageRead(anchors: Table, rows: Table, first: int, page: Page)

  /** Rows keep their recipient and position for as long as they exist. */
  predicate Steady(rows: Table, later: Table) {
    forall id :: id in rows && id in later ==>
      rows[id].recipient == later[id].recipient && rows[id].createdAt == later[id].createdAt
  }

  /** The key of a page's last node, whose id is the next page's cursor. */
  function LastOf(page: Page): Option<Key> {
    if page.nodes == [] then None else Some(page.nodes[|page.nodes| - 1])
  }

  function CursorId(after: Option<Key>): Option<Uuid> {
    if after.Some? then Some(after.value.id) else None
  }

  /** The reads form a complete walk from `after`: each page is the listing's
      answer for the last id of the page before, so that no cursor lookup failed,
      and the last page announced no next one. */
  ghost predicate Walked(recipient: Uuid, walk: seq<PageRead>, after: Option<Key>) {
    && walk != []
    && ListNotifications(walk[0].anchors, walk[0].rows, recipient, walk[0].first, CursorId(after)) == Some(walk[0].page)
    && (if walk[0].page.hasNextPage then Walked(recipient, walk[1..], LastOf(walk[0].page)) else |walk| == 1)
  }

  /** The first select's table has the cursor where the client got it, if at all. */
  predicate Anchored(recipient: Uuid, walk: seq<PageRead>, after: Option<Key>) {
    after.Some? && walk != [] && after.value.id in walk[0].rows ==>
      walk[0].rows[after.value.id].recipient == recipient && KeyOf(walk[0].rows, after.value.id) == after.value
  }

  predicate SteadyReads(walk: seq<PageRead>) {
    forall i, j :: 0 <= i < j < |walk| ==> Steady(walk[i].rows, walk[j].rows)
  }

  function PageView(read: PageRead): View {
    map id | id in read.rows && KeyOf(read.rows, id) in read.page.nodes :: read.rows[id].readAt
  }

  /** The client's snapshot, merged by id. */
  function Snapshot(walk: seq<PageRead>): View {
    if walk == [] then map[] else PageView(walk[0]) + Snapshot(walk[1..])
  }

  function Served(walk: seq<PageRead>): seq<Key> {
    if walk == [] then [] else walk[0].page.nodes + Served(walk[1..])
  }

  lemma PageNodes(rows: Table, recipient: Uuid, n: nat, cursor: Option<Key>)
    requires n > 0
    ensures var page := PageOf(rows, recipient, n, cursor);
      && Descending(page.nodes)
      && (forall k :: k in page.nodes ==> OwnedBy(rows, recipient, k.id) && KeyOf(rows, k.id) == k && Past(cursor, k))
  {
    var page := PageOf(rows, recipient, n, cursor);
    var listed := Sorted(KeysPast(rows, recipient, cursor));
    SortedLists(KeysPast(rows, recipient, cursor));
    PageCuts(rows, recipient, n, cursor);
    assert forall k :: k in page.nodes ==> k in listed;
  }

  lemma UnlistedComesLater(rows: Table, recipient: Uuid, n: nat, cursor: Option<Key>, id: Uuid)
    requires n > 0 && OwnedBy(rows, recipient, id) && Past(cursor, KeyOf(rows, id))
    requires KeyOf(rows, id) !in PageOf(rows, recipient, n, cursor).nodes
    ensures var page := PageOf(rows, recipient, n, cursor);
            page.hasNextPage && page.nodes != [] && Newer(page.nodes[|page.nodes| - 1], KeyOf(rows, id))
  {
    var nodes := PageOf(rows, recipient, n, cursor).nodes;
    var listed := Sorted(KeysPast(rows, recipient, cursor));
    SortedLists(KeysPast(rows, recipient, cursor));
    PageCuts(rows, recipient, n, cursor);
    assert KeyOf(rows, id) in listed;
    assert forall j :: 0 <= j < |nodes| ==> nodes[j] == listed[j];
    var i :| 0 <= i < |listed| && listed[i] == KeyOf(rows, id);
  }

  lemma SteadyTail(walk: seq<PageRead>)
    requires SteadyReads(walk) && |walk| > 1
    ensures SteadyReads(walk[1..]) && Steady(walk[0].rows, walk[1].rows)
  {
    assert forall i :: 0 < i < |walk| ==> walk[1..][i - 1] == walk[i];
  }

  /** The select found the cursor, if there was one. */
  predicate CursorFound(read: PageRead, recipient: Uuid, after: Option<Key>) {
    after.Some? ==> OwnedBy(read.rows, recipient, after.value.id)
  }

  /** A page whose cursor was found is the listing past it; one whose cursor was
      lost between lookup and select is empty and announces no next page. */
  lemma PageAsRead(recipient: Uuid, walk: seq<PageRead>, after: Option<Key>)
    requires Walked(recipient, walk, after) && Anchored(recipient, walk, after)
    ensures walk[0].page == if CursorFound(walk[0], recipient, after)
                            then PageOf(walk[0].rows, recipient, Clamp(walk[0].first), after) else Page([], false)
    ensures Descending(walk[0].page.nodes)
    ensures forall k :: k in walk[0].page.nodes ==>
              OwnedBy(walk[0].rows, recipient, k.id) && KeyOf(walk[0].rows, k.id) == k && Past(after, k)
    ensures walk[0].page.hasNextPage ==> walk[0].page.nodes != []
  {
    PageNodes(walk[0].rows, recipient, Clamp(walk[0].first), after);
    PageThenRest(walk[0].rows, recipient, Clamp(walk[0].first), after);
  }

  lemma CursorCarriesOver(recipient: Uuid, walk: seq<PageRead>, after: Option<Key>)
    requires Walked(recipient, walk, after) && Anchored(recipient, walk, after) && SteadyReads(walk)
    requires walk[0].page.hasNextPage
    ensures |walk| > 1 && SteadyReads(walk[1..]) && Steady(walk[0].rows, walk[1].rows)
    ensures LastOf(walk[0].page).Some? && LastOf(walk[0].page).value in walk[0].page.nodes
    ensures Walked(recipient, walk[1..], LastOf(walk[0].page)) && Anchored(recipient, walk[1..], LastOf(walk[0].page))
  {
    PageAsRead(recipient, walk, after);
    SteadyTail(walk);
  }

  lemma AppendDescending(nodes: seq<Key>, later: seq<Key>)
    requires Descending(nodes) && Descending(later)
    requires nodes != [] && forall k :: k in later ==> Newer(nodes[|nodes| - 1], k)
    ensures Descending(nodes + later)
  {
    forall i, j | 0 <= i < |nodes| && 0 <= j < |later|
      ensures Newer(nodes[i], later[j])
    {
      assert later[j] in later;
    }
  }

  /** Pages read in different transactions never serve a notification twice. */
  lemma {:induction false} WalkServesInOrder(recipient: Uuid, walk: seq<PageRead>, after: Option<Key>)
    requires Walked(recipient, walk, after) && Anchored(recipient, walk, after) && SteadyReads(walk)
    ensures Descending(Served(walk))
    ensures forall k :: k in Served(walk) ==> Past(after, k)
    decreases |walk|
  {
    var nodes := walk[0].page.nodes;
    PageAsRead(recipient, walk, after);
    if walk[0].page.hasNextPage {
      CursorCarriesOver(recipient, walk, after);
      WalkServesInOrder(recipient, walk[1..], LastOf(walk[0].page));
      AppendDescending(nodes, Served(walk[1..]));
    } else {
      assert Served(walk) == nodes;
    }
  }

  // ---- What a lost cursor hides --------------------------------------------------------

  /** The cursor of the walk's last page. */
  function LastCursor(walk: seq<PageRead>, after: Option<Key>): Option<Key> {
    if |walk| <= 1 then after else LastCursor(walk[1..], LastOf(walk[0].page))
  }

  /** The last page's cursor was lost between its lookup and its select, and the
      row lies past it. */
  predicate Hidden(recipient: Uuid, walk: seq<PageRead>, after: Option<Key>, id: Uuid)
    requires walk != []
  {
    var last, cursor := walk[|walk| - 1], LastCursor(walk, after);
    !CursorFound(last, recipient, cursor) && OwnedBy(last.rows, recipient, id) && Past(cursor, KeyOf(last.rows, id))
  }

  lemma HiddenStep(recipient: Uuid, walk: seq<PageRead>, after: Option<Key>, id: Uuid)
    requires |walk| > 1
    ensures LastCursor(walk, after) == LastCursor(walk[1..], LastOf(walk[0].page))
    ensures Hidden(recipient, walk, after, id) <==> Hidden(recipient, walk[1..], LastOf(walk[0].page), id)
  {
    assert walk[1..][|walk[1..]| - 1] == walk[|walk| - 1];
  }

  /** The last page's cursor is the one the walk started from, or lies past it. */
  lemma {:induction false} LastCursorIsPast(recipient: Uuid, walk: seq<PageRead>, after: Option<Key>)
    requires Walked(recipient, walk, after) && Anchored(recipient, walk, after) && SteadyReads(walk)
    ensures LastCursor(walk, after) == after
            || (LastCursor(walk, after).Some? && Past(after, LastCursor(walk, after).value))
    decreases |walk|
  {
    if walk[0].page.hasNextPage {
      PageAsRead(recipient, walk, after);
      CursorCarriesOver(recipient, walk, after);
      LastCursorIsPast(recipient, walk[1..], LastOf(walk[0].page));
    }
  }

  /** A hidden row lies past the cursor the walk started from. */
  lemma HiddenLiesPast(recipient: Uuid, walk: seq<PageRead>, after: Option<Key>, id: Uuid)
    requires Walked(recipient, walk, after) && Anchored(recipient, walk, after) && SteadyReads(walk)
    requires Hidden(recipient, walk, after, id)
    ensures Past(after, KeyOf(walk[|walk| - 1].rows, id))
  {
    LastCursorIsPast(recipient, walk, after);
  }

  lemma OlderThanAllServed(nodes: seq<Key>, k: Key)
    requires Descending(nodes) && nodes != [] && Newer(nodes[|nodes| - 1], k)
    ensures k !in nodes
  {
    forall i | 0 <= i < |nodes|
      ensures nodes[i] != k
    {
      assert i < |nodes| - 1 ==> Newer(nodes[i], nodes[|nodes| - 1]);
    }
  }

  lemma NotOnThePage(read: PageRead, later: Table, id: Uuid)
    requires Steady(read.rows, later) && id in later && KeyOf(later, id) !in read.page.nodes
    ensures id !in PageView(read)
  {
  }

  lemma NotInTheWalk(walk: seq<PageRead>, id: Uuid, k: Key)
    requires walk != [] && id !in PageView(walk[0]) && id !in Snapshot(walk[1..])
    requires k !in walk[0].page.nodes && k !in Served(walk[1..])
    ensures id !in Snapshot(walk) && k !in Served(walk)
  {
  }

  lemma HiddenNotOnFirstPage(recipient: Uuid, walk: seq<PageRead>, after: Option<Key>, id: Uuid)
    requires Walked(recipient, walk, after) && Anchored(recipient, walk, after) && SteadyReads(walk)
    requires walk[0].page.hasNextPage && Hidden(recipient, walk, after, id)
    ensures id !in PageView(walk[0]) && KeyOf(walk[|walk| - 1].rows, id) !in walk[0].page.nodes
  {
    var cursor, last := LastOf(walk[0].page), walk[|walk| - 1];
    PageAsRead(recipient, walk, after);
    CursorCarriesOver(recipient, walk, after);
    HiddenStep(recipient, walk, after, id);
    HiddenLiesPast(recipient, walk[1..], cursor, id);
    assert walk[1..][|walk[1..]| - 1] == last;
    OlderThanAllServed(walk[0].page.nodes, KeyOf(last.rows, id));
    NotOnThePage(walk[0], last.rows, id);
  }

  /** A row hidden by a lost cursor is served by no page. */
  lemma {:induction false} HiddenIsNotServed(recipient: Uuid, walk: seq<PageRead>, after: Option<Key>, id: Uuid)
    requires Walked(recipient, walk, after) && Anchored(recipient, walk, after) && SteadyReads(walk)
    requires Hidden(recipient, walk, after, id)
    ensures id !in Snapshot(walk) && KeyOf(walk[|walk| - 1].rows, id) !in Served(walk)
    decreases |walk|
  {
    if walk[0].page.hasNextPage {
      HiddenNotOnFirstPage(recipient, walk, after, id);
      CursorCarriesOver(recipient, walk, after);
      HiddenStep(recipient, walk, after, id);
      HiddenIsNotServed(recipient, walk[1..], LastOf(walk[0].page), id);
      assert walk[1..][|walk[1..]| - 1] == walk[|walk| - 1];
    } else {
      PageAsRead(recipient, walk, after);
      assert walk[1..] == [];
    }
    NotInTheWalk(walk, id, KeyOf(walk[|walk| - 1].rows, id));
  }

  predicate PresentThroughout(recipient: Uuid, walk: seq<PageRead>, id: Uuid) {
    forall i :: 0 <= i < |walk| ==> OwnedBy(walk[i].rows, recipient, id)
  }

  /** A recipient's row past the cursor that exists whenever a page is read is
      served exactly when no lost cursor hides it. */
  lemma {:induction false} ServedIffNotHidden(recipient: Uuid, walk: seq<PageRead>, after: Option<Key>, id: Uuid)
    requires Walked(recipient, walk, after) && Anchored(recipient, walk, after) && SteadyReads(walk)
    requires PresentThroughout(recipient, walk, id) && Past(after, KeyOf(walk[0].rows, id))
    ensures id in Snapshot(walk) <==> !Hidden(recipient, walk, after, id)
    ensures KeyOf(walk[0].rows, id) in Served(walk) <==> !Hidden(recipient, walk, after, id)
    decreases |walk|
  {
    var key, last := KeyOf(walk[0].rows, id), walk[|walk| - 1];
    PageAsRead(recipient, walk, after);
    assert KeyOf(last.rows, id) == key by {
      assert |walk| > 1 ==> Steady(walk[0].rows, last.rows);
    }
    if Hidden(recipient, walk, after, id) {
      HiddenIsNotServed(recipient, walk, after, id);
    } else if key !in walk[0].page.nodes {
      NotHiddenComesLater(recipient, walk, after, id);
      CursorCarriesOver(recipient, walk, after);
      HiddenStep(recipient, walk, after, id);
      assert PresentThroughout(recipient, walk[1..], id) by {
        assert forall i :: 0 < i < |walk| ==> walk[1..][i - 1] == walk[i];
      }
      ServedIffNotHidden(recipient, walk[1..], LastOf(walk[0].page), id);
    }
  }

  lemma NotHiddenComesLater(recipient: Uuid, walk: seq<PageRead>, after: Option<Key>, id: Uuid)
    requires Walked(recipient, walk, after) && Anchored(recipient, walk, after)
    requires OwnedBy(walk[0].rows, recipient, id) && Past(after, KeyOf(walk[0].rows, id))
    requires !Hidden(recipient, walk, after, id) && KeyOf(walk[0].rows, id) !in walk[0].page.nodes
    ensures walk[0].page.hasNextPage && LastOf(walk[0].page).Some?
    ensures Past(LastOf(walk[0].page), KeyOf(walk[0].rows, id))
  {
    PageAsRead(recipient, walk, after);
    if CursorFound(walk[0], recipient, after) {
      UnlistedComesLater(walk[0].rows, recipient, Clamp(walk[0].first), after, id);
    }
  }

  /** A recipient's row that exists throughout the walk is served exactly once,
      whatever else commits between the pages, unless a lost cursor hides it: then
      it is not served at all. */
  lemma PresentThroughoutServedOnce(recipient: Uuid, walk: seq<PageRead>, id: Uuid)
    requires Walked(recipient, walk, None) && SteadyReads(walk) && PresentThroughout(recipient, walk, id)
    ensures Hidden(recipient, walk, None, id) <==> forall q :: 0 <= q < |Served(walk)| ==> Served(walk)[q].id != id
    ensures !Hidden(recipient, walk, None, id) ==>
              exists p :: (&& 0 <= p < |Served(walk)| && Served(walk)[p] == KeyOf(walk[0].rows, id)
                           && forall q :: 0 <= q < |Served(walk)| && q != p ==> Served(walk)[q].id != id)
  {
    var served, key := Served(walk), KeyOf(walk[0].rows, id);
    ServedIffNotHidden(recipient, walk, None, id);
    WalkServesInOrder(recipient, walk, None);
    forall q | 0 <= q < |served| && served[q].id == id
      ensures served[q] == key
    {
      ServedKeysAreRowKeys(recipient, walk, None, q);
      var i :| 0 <= i < |walk| && OwnedBy(walk[i].rows, recipient, id) && served[q] == KeyOf(walk[i].rows, id);
      assert i > 0 ==> Steady(walk[0].rows, walk[i].rows);
    }
    if key in served {
      var p :| 0 <= p < |served| && served[p] == key;
      assert forall q :: 0 <= q < |served| && q != p ==> served[q] != key;
    }
  }

  lemma {:induction false} ServedKeysAreRowKeys(recipient: Uuid, walk: seq<PageRead>, after: Option<Key>, q: nat)
    requires Walked(recipient, walk, after) && Anchored(recipient, walk, after) && SteadyReads(walk)
    requires q < |Served(walk)|
    ensures exists i :: 0 <= i < |walk| && OwnedBy(walk[i].rows, recipient, Served(walk)[q].id)
              && Served(walk)[q] == KeyOf(walk[i].rows, Served(walk)[q].id)
    decreases |walk|
  {
    var nodes := walk[0].page.nodes;
    PageAsRead(recipient, walk, after);
    if q < |nodes| {
      assert Served(walk)[q] == nodes[q];
      assert nodes[q] in nodes;
    } else {
      CursorCarriesOver(recipient, walk, after);
      ServedKeysAreRowKeys(recipient, walk[1..], LastOf(walk[0].page), q - |nodes|);
      var k := Served(walk[1..])[q - |nodes|];
      var i :| 0 <= i < |walk[1..]| && OwnedBy(walk[1..][i].rows, recipient, k.id)
               && k == KeyOf(walk[1..][i].rows, k.id);
      assert walk[i + 1] == walk[1..][i];
    }
  }

  /** The snapshot shows the id as the inbox of some page's table did. */
  predicate SomePageAgrees(recipient: Uuid, walk: seq<PageRead>, id: Uuid) {
    exists i :: 0 <= i < |walk| && Lookup(Snapshot(walk), id) == Lookup(ViewOf(walk[i].rows, recipient), id)
  }

  /** Every entry of the snapshot is some page's row, and what the snapshot lacks
      some page's table lacked: one id at a time, the snapshot is the inbox as one
      of the page reads saw it, exactly but for rows a lost cursor hid throughout. */
  lemma SnapshotIsPointwiseRead(recipient: Uuid, walk: seq<PageRead>, id: Uuid)
    requires Walked(recipient, walk, None) && SteadyReads(walk)
    ensures SomePageAgrees(recipient, walk, id)
            <==> !(PresentThroughout(recipient, walk, id) && Hidden(recipient, walk, None, id))
  {
    if id in Snapshot(walk) {
      var i := EntryComesFromAPage(recipient, walk, None, id);
    }
    if PresentThroughout(recipient, walk, id) {
      assert OwnedBy(walk[0].rows, recipient, id);
      ServedIffNotHidden(recipient, walk, None, id);
    } else {
      var i :| 0 <= i < |walk| && !OwnedBy(walk[i].rows, recipient, id);
      if id !in Snapshot(walk) {
        assert Lookup(Snapshot(walk), id) == Lookup(ViewOf(walk[i].rows, recipient), id);
      }
    }
  }

  lemma {:induction false} EntryComesFromAPage(
    recipient: Uuid, walk: seq<PageRead>, after: Option<Key>, id: Uuid) returns (i: nat)
    requires Walked(recipient, walk, after) && Anchored(recipient, walk, after) && SteadyReads(walk)
    requires id in Snapshot(walk)
    ensures i < |walk|
    ensures Lookup(Snapshot(walk), id) == Lookup(ViewOf(walk[i].rows, recipient), id)
    decreases |walk|
  {
    PageAsRead(recipient, walk, after);
    if id in Snapshot(walk[1..]) {
      CursorCarriesOver(recipient, walk, after);
      i := EntryComesFromAPage(recipient, walk[1..], LastOf(walk[0].page), id);
      i := i + 1;
    } else {
      i := 0;
      assert KeyOf(walk[0].rows, id) in walk[0].page.nodes;
    }
  }

  // ---- A walk that loses a row ----------------------------------------------------------

  lemma SortedPair(ks: set<Key>, a: Key, b: Key)
    requires ks == {a, b} && Newer(a, b)
    ensures Sorted(ks) == [a, b]
  {
    SortedLists(ks);
    DescendingUnique(Sorted(ks), [a, b]);
  }

  /** The lost cursor costs a row: every lookup succeeds, no next page is announced
      at the end, and the row, there throughout, is in no page. */
  lemma LostCursorLosesARow(recipient: Uuid, newer: Uuid, older: Uuid, row: Row) returns (walk: seq<PageRead>)
    requires newer > older && row.recipient == recipient
    ensures Walked(recipient, walk, None) && SteadyReads(walk) && PresentThroughout(recipient, walk, older)
    ensures older !in Snapshot(walk)
  {
    var both: Table, one: Table := map[newer := row, older := row], map[older := row];
    var a, b := Key(row.createdAt, newer), Key(row.createdAt, older);
    var first, second := PageRead(both, both, 1, Page([a], true)), PageRead(both, one, 1, Page([], false));
    walk := [first, second];
    assert KeyOf(both, newer) == a && KeyOf(both, older) == b;
    assert KeysPast(both, recipient, None) == {a, b} by {
      assert newer in both && older in both;
    }
    SortedPair(KeysPast(both, recipient, None), a, b);
    assert [a, b][..1] == [a] && [a, b][..2] == [a, b];
    assert walk[1..] == [second];
    assert Walked(recipient, [second], Some(a));
    assert Hidden(recipient, walk, None, older);
    HiddenIsNotServed(recipient, walk, None, older);
  }
}
