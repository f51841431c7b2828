/**
  Keyset paging over the local item table (crates/zann-db/src/local/item_repo.rs:309-454), the
  service page built on it (crates/zann-db/src/services/items.rs:47-150) and the list a front end
  grows from those pages (apps/kde/src/cxxqt.rs:708-770). Other rows may change between two pages.
 */
module Paging {
  import opened Base
  import opened Arith

  datatype Row = Row(storage: Uuid, vault: Uuid, deleted: bool, updatedAt: Time, content: nat)

  /** The table by primary key. */
  type Table = map<Uuid, Row>

  datatype Query = Query(storage: Uuid, vault: Uuid, includeDeleted: bool)

  datatype Key = Key(at: Time, id: Uuid)

  datatype Hit = Hit(id: Uuid, row: Row)

  /** `ORDER BY updated_at DESC, id DESC`: `a` is listed before `b`. */
  predicate Before(a: Key, b: Key) {
    b.at < a.at || (b.at == a.at && b.id < a.id)
  }

  predicate Past(cursor: Option<Key>, k: Key) {
    cursor.Some? ==> Before(cursor.value, k)
  }

  predicate Selected(q: Query, r: Row) {
    r.storage == q.storage && r.vault == q.vault && (q.includeDeleted || !r.deleted)
  }

  function KeyOf(h: Hit): Key {
    Key(h.row.updatedAt, h.id)
  }

  /** The hits of a query past a cursor. */
  function Matches(q: Query, t: Table, cursor: Option<Key>): set<Hit> {
    set id | id in t && Selected(q, t[id]) && Past(cursor, KeyOf(Hit(id, t[id]))) :: Hit(id, t[id])
  }

  predicate Descending(s: seq<Hit>) {
    forall i, j :: 0 <= i < j < |s| ==> Before(KeyOf(s[i]), KeyOf(s[j]))
  }

  /** Different hits have different keys. */
  predicate Keyed(s: set<Hit>) {
    forall a, b :: a in s && b in s && KeyOf(a) == KeyOf(b) ==> a == b
  }

  predicate First(s: set<Hit>, m: Hit) {
    m in s && forall k :: k in s && k != m ==> Before(KeyOf(m), KeyOf(k))
  }

  lemma {:induction false} FirstExists(s: set<Hit>)
    requires s != {} && Keyed(s)
    ensures exists m :: First(s, m)
    decreases |s|
  {
    var x :| x in s;
    var rest := s - {x};
    if rest == {} {
      assert forall k :: k in s ==> k == x || k in rest;
      assert First(s, x);
    } else {
      FirstExists(rest);
      var m :| First(rest, m);
      FirstOfMore(s, x, m);
    }
  }

  lemma FirstOfMore(s: set<Hit>, x: Hit, m: Hit)
    requires Keyed(s) && x in s && First(s - {x}, m)
    ensures First(s, if Before(KeyOf(x), KeyOf(m)) then x else m)
  {
    assert forall k :: k in s ==> k == x || k in s - {x};
  }

  /** The list holds exactly the members of the set, in order. */
  ghost predicate Lists(r: seq<Hit>, s: set<Hit>) {
    Descending(r) && |r| == |s| && forall h :: h in r <==> h in s
  }

  lemma FirstThenRest(s: set<Hit>, m: Hit, rest: seq<Hit>)
    requires First(s, m) && Lists(rest, s - {m})
    ensures Lists([m] + rest, s)
  {
    var r := [m] + rest;
    forall i, j | 0 <= i < j < |r|
      ensures Before(KeyOf(r[i]), KeyOf(r[j]))
    {
      assert rest[j - 1] in rest;
    }
    forall h
      ensures h in r <==> h in s
    {
      assert h in r <==> h == m || h in rest;
    }
  }

  /** The sorted query without a limit. */
  ghost function Sorted(s: set<Hit>): (r: seq<Hit>)
    requires Keyed(s)
    ensures Lists(r, s)
    decreases |s|
  {
    if s == {} then []
    else
      FirstExists(s);
      var m :| First(s, m);
      var rest := Sorted(s - {m});
      FirstThenRest(s, m, rest);
      [m] + rest
  }

  ghost function Listing(q: Query, t: Table, cursor: Option<Key>): seq<Hit> {
    Sorted(Matches(q, t, cursor))
  }

  /** `list_by_vault_paged`; a negative limit is no limit. */
  ghost function ListByVaultPaged(q: Query, t: Table, cursor: Option<Key>, limit: int): seq<Hit> {
    var all := Listing(q, t, cursor);
    if 0 <= limit < |all| then all[..limit] else all
  }

  // ----- order

  /** A descending list is determined by its members. */
  lemma {:induction false} DescendingIsUnique(a: seq<Hit>, b: seq<Hit>)
    requires Descending(a) && Descending(b)
    requires forall h :: h in a <==> h in b
    ensures a == b
    decreases |a|
  {
    assert b != [] ==> b[0] in a;
    if a != [] {
      assert a[0] in b;
      assert b != [] && b[0] in a;
      assert a[0] == b[0];
      forall h
        ensures h in a[1..] <==> h in b[1..]
      {
        assert h in a[1..] <==> h in a && h != a[0];
        assert h in b[1..] <==> h in b && h != b[0];
      }
      DescendingIsUnique(a[1..], b[1..]);
    }
  }

  /** In a descending list, what comes after position `i` is what is ordered after it. */
  lemma LaterIsAfter(all: seq<Hit>, i: nat, h: Hit)
    requires Descending(all) && i < |all|
    ensures h in all[i + 1..] <==> h in all && Before(KeyOf(all[i]), KeyOf(h))
  {
    if h in all {
      var j :| 0 <= j < |all| && all[j] == h;
      if j > i {
        assert all[i + 1..][j - i - 1] == h;
      }
    }
  }

  /** Continuing after the hit at position `i` lists what follows it. */
  lemma ListingContinues(q: Query, t: Table, cursor: Option<Key>, i: nat)
    requires i < |Listing(q, t, cursor)|
    ensures Listing(q, t, Some(KeyOf(Listing(q, t, cursor)[i]))) == Listing(q, t, cursor)[i + 1..]
  {
    var all := Listing(q, t, cursor);
    var after := Some(KeyOf(all[i]));
    assert all[i] in all;
    assert Descending(all) && Descending(Listing(q, t, after));
    hide Descending;
    forall h
      ensures h in all[i + 1..] <==> h in Listing(q, t, after)
    {
      LaterIsAfter(all, i, h);
    }
    SuffixDescends(all, i + 1);
    DescendingIsUnique(Listing(q, t, after), all[i + 1..]);
  }

  lemma SuffixDescends(all: seq<Hit>, i: nat)
    requires Descending(all) && i <= |all|
    ensures Descending(all[i..])
  {
  }

  // ----- a scan: one table per page

  /** Pages with the last key fed back until a page is short. */
  ghost function Scan(q: Query, tables: seq<Table>, cursor: Option<Key>, limit: int): seq<Hit>
    requires limit >= 1
    decreases |tables|
  {
    if tables == [] then []
    else
      var page := ListByVaultPaged(q, tables[0], cursor, limit);
      if |page| < limit then page
      else page + Scan(q, tables[1..], Some(KeyOf(page[limit - 1])), limit)
  }

  /** A short page is reached. */
  ghost predicate Finishes(q: Query, tables: seq<Table>, cursor: Option<Key>, limit: int)
    requires limit >= 1
    decreases |tables|
  {
    tables != [] &&
    var page := ListByVaultPaged(q, tables[0], cursor, limit);
    |page| == limit ==> Finishes(q, tables[1..], Some(KeyOf(page[limit - 1])), limit)
  }

  predicate PastAll(cursor: Option<Key>, s: seq<Hit>) {
    forall h :: h in s ==> Past(cursor, KeyOf(h))
  }

  /** The row keeps its key, vault and deleted flag in every table; its content may change. */
  predicate Stable(tables: seq<Table>, id: Uuid, row: Row) {
    forall t: Table :: t in tables ==> id in t && t[id].(content := row.content) == row
  }

  lemma PageIsDescending(q: Query, t: Table, cursor: Option<Key>, limit: int)
    requires limit >= 1
    ensures var page := ListByVaultPaged(q, t, cursor, limit);
            Descending(page) && PastAll(cursor, page) && |page| <= limit
  {
    var all := Listing(q, t, cursor);
    var page := ListByVaultPaged(q, t, cursor, limit);
    assert forall h :: h in page ==> h in all;
  }

  lemma Append(page: seq<Hit>, rest: seq<Hit>, cursor: Option<Key>)
    requires page != [] && Descending(page) && Descending(rest)
    requires PastAll(cursor, page) && PastAll(Some(KeyOf(page[|page| - 1])), rest)
    ensures Descending(page + rest) && PastAll(cursor, page + rest)
  {
    var out, n := page + rest, |page|;
    assert page[n - 1] in page;
    forall i, j | 0 <= i < j < |out|
      ensures Before(KeyOf(out[i]), KeyOf(out[j]))
    {
      if j >= n {
        assert rest[j - n] in rest;
        assert i < n - 1 ==> Before(KeyOf(page[i]), KeyOf(page[n - 1]));
      }
    }
    forall h | h in out
      ensures Past(cursor, KeyOf(h))
    {
      assert h in page || h in rest;
    }
  }

  /** Whatever happens between pages, keys come out strictly descending: nothing is listed twice under one key. */
  lemma {:induction false} ScanDescends(q: Query, tables: seq<Table>, cursor: Option<Key>, limit: int)
    requires limit >= 1
    ensures Descending(Scan(q, tables, cursor, limit)) && PastAll(cursor, Scan(q, tables, cursor, limit))
    decreases |tables|
  {
    if tables != [] {
      var page := ListByVaultPaged(q, tables[0], cursor, limit);
      PageIsDescending(q, tables[0], cursor, limit);
      hide Descending, PastAll, ListByVaultPaged;
      if |page| == limit {
        var last := Some(KeyOf(page[limit - 1]));
        ScanDescends(q, tables[1..], last, limit);
        Append(page, Scan(q, tables[1..], last, limit), cursor);
      }
    }
  }

  /** Every listed row was selected in the table its page was read from. */
  lemma {:induction false} ScanIsHonest(q: Query, tables: seq<Table>, cursor: Option<Key>, limit: int, h: Hit)
    requires limit >= 1 && h in Scan(q, tables, cursor, limit)
    ensures Selected(q, h.row)
    ensures exists t :: t in tables && h.id in t && t[h.id] == h.row
    decreases |tables|
  {
    var page := ListByVaultPaged(q, tables[0], cursor, limit);
    if h in page {
      assert h in Listing(q, tables[0], cursor);
      assert tables[0] in tables;
    } else {
      ScanIsHonest(q, tables[1..], Some(KeyOf(page[limit - 1])), limit, h);
      var t :| t in tables[1..] && h.id in t && t[h.id] == h.row;
      assert t in tables;
    }
  }

  /** A row past the cursor is in the page or past its last key. */
  lemma PageOrLater(q: Query, t: Table, cursor: Option<Key>, limit: int, h: Hit)
    requires limit >= 1 && h in Matches(q, t, cursor)
    ensures var page := ListByVaultPaged(q, t, cursor, limit);
            h in page || (|page| == limit && Before(KeyOf(page[limit - 1]), KeyOf(h)))
  {
    var all := Listing(q, t, cursor);
    assert h in all;
    var i :| 0 <= i < |all| && all[i] == h;
    if i < limit {
      assert ListByVaultPaged(q, t, cursor, limit)[i] == h;
    }
  }

  /** One page further, in terms of the scan: found here, or still ahead. */
  lemma FoundOrAhead(q: Query, tables: seq<Table>, cursor: Option<Key>, limit: int, h: Hit)
    requires limit >= 1 && tables != [] && h in Matches(q, tables[0], cursor) && Finishes(q, tables, cursor, limit)
    ensures h in Scan(q, tables, cursor, limit) ||
            var page := ListByVaultPaged(q, tables[0], cursor, limit);
            && |page| == limit && Before(KeyOf(page[limit - 1]), KeyOf(h))
            && Finishes(q, tables[1..], Some(KeyOf(page[limit - 1])), limit)
            && forall g :: g in Scan(q, tables[1..], Some(KeyOf(page[limit - 1])), limit) ==>
                g in Scan(q, tables, cursor, limit)
  {
    PageOrLater(q, tables[0], cursor, limit, h);
    hide ListByVaultPaged, Matches, Before;
  }

  lemma StableTail(tables: seq<Table>, id: Uuid, row: Row)
    requires tables != [] && Stable(tables, id, row)
    ensures Stable(tables[1..], id, row)
    ensures id in tables[0] && tables[0][id].(content := row.content) == row
  {
    assert tables[0] in tables;
  }

  lemma {:induction false} StableRowIsListed(q: Query, tables: seq<Table>, cursor: Option<Key>, limit: int, id: Uuid,
                                             row: Row)
    requires limit >= 1 && Finishes(q, tables, cursor, limit)
    requires Stable(tables, id, row) && Selected(q, row) && Past(cursor, Key(row.updatedAt, id))
    ensures exists h :: h in Scan(q, tables, cursor, limit) && h.id == id
    decreases |tables|
  {
    assert tables != [];
    StableTail(tables, id, row);
    var h := Hit(id, tables[0][id]);
    assert h in Matches(q, tables[0], cursor);
    hide Scan, Finishes, Stable, Matches, ListByVaultPaged;
    FoundOrAhead(q, tables, cursor, limit, h);
    if h !in Scan(q, tables, cursor, limit) {
      var last := Some(KeyOf(ListByVaultPaged(q, tables[0], cursor, limit)[limit - 1]));
      StableRowIsListed(q, tables[1..], last, limit, id, row);
      var g :| g in Scan(q, tables[1..], last, limit) && g.id == id;
      assert g in Scan(q, tables, cursor, limit);
    }
  }

  /** Exactly one position of the list carries the id. */
  predicate OnceIn(s: seq<Hit>, id: Uuid) {
    exists i :: 0 <= i < |s| && s[i].id == id && forall j :: 0 <= j < |s| && j != i ==> s[j].id != id
  }

  lemma OneKeyOnce(s: seq<Hit>, h: Hit)
    requires Descending(s) && h in s
    requires forall g :: g in s && g.id == h.id ==> KeyOf(g) == KeyOf(h)
    ensures OnceIn(s, h.id)
  {
    var i :| 0 <= i < |s| && s[i] == h;
    forall j | 0 <= j < |s| && j != i
      ensures s[j].id != h.id
    {
      assert s[j] in s;
      assert Before(KeyOf(s[Min(i, j)]), KeyOf(s[Max(i, j)]));
    }
  }

  /**
    A finished scan lists a row that stays put exactly once if the query selects it, and never if
    it does not, whatever the other rows do between the pages.
   */
  lemma ScanIsExact(q: Query, tables: seq<Table>, limit: int, id: Uuid, row: Row)
    requires limit >= 1 && Finishes(q, tables, None, limit) && Stable(tables, id, row)
    ensures Selected(q, row) <==> OnceIn(Scan(q, tables, None, limit), id)
    ensures !Selected(q, row) <==> forall h :: h in Scan(q, tables, None, limit) ==> h.id != id
  {
    var out := Scan(q, tables, None, limit);
    ScanDescends(q, tables, None, limit);
    hide Descending, Scan, Finishes;
    forall h | h in out && h.id == id
      ensures Selected(q, row) && KeyOf(h) == Key(row.updatedAt, id)
    {
      ScanIsHonest(q, tables, None, limit, h);
    }
    if Selected(q, row) {
      StableRowIsListed(q, tables, None, limit, id, row);
      var h :| h in out && h.id == id;
      OneKeyOnce(out, h);
    } else {
      assert forall i :: 0 <= i < |out| ==> out[i] in out;
    }
  }

  predicate Constant(tables: seq<Table>, t: Table) {
    forall i :: 0 <= i < |tables| ==> tables[i] == t
  }

  /** One page of a scan, in terms of the sorted query. */
  lemma FinishesStep(q: Query, tables: seq<Table>, cursor: Option<Key>, limit: int)
    requires limit >= 1
    ensures Finishes(q, tables, cursor, limit) <==>
            tables != [] && var all := Listing(q, tables[0], cursor);
            |all| < limit || Finishes(q, tables[1..], Some(KeyOf(all[limit - 1])), limit)
  {
    hide Listing;
  }

  lemma ScanStep(q: Query, tables: seq<Table>, cursor: Option<Key>, limit: int)
    requires limit >= 1 && tables != []
    ensures var all := Listing(q, tables[0], cursor);
            Scan(q, tables, cursor, limit)
            == if |all| < limit then all
               else all[..limit] + Scan(q, tables[1..], Some(KeyOf(all[limit - 1])), limit)
  {
    hide Listing;
  }

  lemma {:induction false} QuietScanFinishes(q: Query, tables: seq<Table>, t: Table, cursor: Option<Key>, limit: int)
    requires limit >= 1 && Constant(tables, t)
    ensures Finishes(q, tables, cursor, limit) <==> Groups(|Listing(q, t, cursor)|, limit) < |tables|
    decreases |tables|
  {
    hide Listing, Finishes;
    FinishesStep(q, tables, cursor, limit);
    var all := Listing(q, t, cursor);
    if tables != [] && |all| >= limit {
      var last := Some(KeyOf(all[limit - 1]));
      ListingContinues(q, t, cursor, limit - 1);
      QuietScanFinishes(q, tables[1..], t, last, limit);
      assert |Listing(q, t, last)| == |all| - limit;
    }
  }

  lemma {:induction false} QuietScanLists(q: Query, tables: seq<Table>, t: Table, cursor: Option<Key>, limit: int)
    requires limit >= 1 && Constant(tables, t) && Finishes(q, tables, cursor, limit)
    ensures Scan(q, tables, cursor, limit) == Listing(q, t, cursor)
    decreases |tables|
  {
    hide Listing, Scan;
    var all := Listing(q, t, cursor);
    ScanStep(q, tables, cursor, limit);
    if |all| >= limit {
      ListingContinues(q, t, cursor, limit - 1);
      QuietScanLists(q, tables[1..], t, Some(KeyOf(all[limit - 1])), limit);
    }
  }

  /**
    With no writes the pages concatenate to the single sorted query, and the scan finishes exactly
    when there is one more page than full pages.
   */
  lemma QuietScanIsListing(q: Query, tables: seq<Table>, t: Table, limit: int)
    requires limit >= 1 && Constant(tables, t)
    ensures Finishes(q, tables, None, limit) <==> |Listing(q, t, None)| / limit < |tables|
    ensures Finishes(q, tables, None, limit) ==> Scan(q, tables, None, limit) == Listing(q, t, None)
  {
    GroupsIsQuotient(|Listing(q, t, None)|, limit);
    QuietScanFinishes(q, tables, t, None, limit);
    if Finishes(q, tables, None, limit) {
      QuietScanLists(q, tables, t, None, limit);
    }
  }

  // ----- the service page

  datatype Page = Page(items: seq<Hit>, nextCursor: Option<Key>)

  /** `params.limit.unwrap_or(200).clamp(1, 1000)`. */
  function PageLimit(asked: Option<int>): (r: int)
    ensures 1 <= r <= 1000
    ensures asked.Some? && 1 <= asked.value <= 1000 ==> r == asked.value
    ensures asked.Some? && asked.value < 1 ==> r == 1
    ensures asked.Some? && asked.value > 1000 ==> r == 1000
    ensures asked.None? ==> r == 200
  {
    match asked
    case None => 200
    case Some(n) => Max(1, Min(n, 1000))
  }

  /** `list_items`: asks for one row more and, if it is there, takes it off and continues after it. */
  ghost function ListItems(q: Query, t: Table, asked: Option<int>, cursor: Option<Key>): Page {
    var limit := PageLimit(asked);
    var rows := ListByVaultPaged(q, t, cursor, limit + 1);
    if |rows| > limit then Page(rows[..limit], Some(KeyOf(rows[limit])))
    else Page(rows, None)
  }

  /** A list without every (limit + 1)-st element. */
  function Skipping<T>(s: seq<T>, limit: nat): (r: seq<T>)
    decreases |s|
  {
    if |s| <= limit then s else s[..limit] + Skipping(s[limit + 1..], limit)
  }

  /** What is lost, and that the list is complete exactly when it fits into one page. */
  lemma {:induction false} SkippingLoses<T>(s: seq<T>, limit: nat)
    ensures |Skipping(s, limit)| == |s| - Groups(|s|, limit + 1)
    ensures Skipping(s, limit) == s <==> |s| <= limit
    decreases |s|
  {
    if |s| > limit {
      SkippingLoses(s[limit + 1..], limit);
    }
  }

  /** Position `p` is the last of a group of limit + 1. */
  predicate EndsGroup(p: nat, limit: nat) {
    if p <= limit then p == limit else EndsGroup(p - (limit + 1), limit)
  }

  lemma {:induction false} EndsGroupIsRemainder(p: nat, limit: nat)
    ensures EndsGroup(p, limit) <==> p % (limit + 1) == limit
  {
    if p <= limit {
      ModIs(p, 0, p, limit + 1);
    } else {
      OneGroupLess(p, limit + 1);
      EndsGroupIsRemainder(p - (limit + 1), limit);
    }
  }

  lemma {:induction false} SkippingIsPart<T>(s: seq<T>, limit: nat, h: T)
    requires h in Skipping(s, limit)
    ensures h in s
    decreases |s|
  {
    if |s| > limit && h !in s[..limit] {
      SkippingIsPart(s[limit + 1..], limit, h);
    }
  }

  predicate Distinct<T(==)>(s: seq<T>) {
    forall i, j :: 0 <= i < j < |s| ==> s[i] != s[j]
  }

  /** The element at position `p` survives exactly if it does not end a group. */
  lemma {:induction false} SkippingKeeps<T>(s: seq<T>, limit: nat, p: nat)
    requires Distinct(s) && p < |s|
    ensures s[p] in Skipping(s, limit) <==> !EndsGroup(p, limit)
    decreases |s|
  {
    if |s| <= limit {
      assert s[p] in s;
    } else {
      var head, rest := s[..limit], s[limit + 1..];
      assert s[p] in Skipping(s, limit) <==> s[p] in head || s[p] in Skipping(rest, limit);
      if p > limit {
        SkippingKeeps(rest, limit, p - (limit + 1));
        assert rest[p - (limit + 1)] == s[p] && s[p] !in head;
      } else {
        assert p < limit ==> head[p] == s[p];
        assert s[p] !in rest;
        if s[p] in Skipping(rest, limit) {
          SkippingIsPart(rest, limit, s[p]);
        }
      }
    }
  }

  // ----- the list a front end grows

  /** `load_more_items` repeated until no cursor is left, over an unchanged table. */
  ghost function Browse(q: Query, t: Table, asked: Option<int>, cursor: Option<Key>): seq<Hit>
    decreases |Matches(q, t, cursor)|
  {
    var page := ListItems(q, t, asked, cursor);
    if page.nextCursor.None? then page.items
    else
      FewerLeft(q, t, cursor, PageLimit(asked));
      page.items + Browse(q, t, asked, page.nextCursor)
  }

  lemma FewerLeft(q: Query, t: Table, cursor: Option<Key>, i: nat)
    requires i < |Listing(q, t, cursor)|
    ensures |Matches(q, t, Some(KeyOf(Listing(q, t, cursor)[i])))| < |Matches(q, t, cursor)|
  {
    ListingContinues(q, t, cursor, i);
  }

  /** A page is the next `limit` rows of the sorted query, and its cursor is the row after them. */
  lemma ListItemsIs(q: Query, t: Table, asked: Option<int>, cursor: Option<Key>)
    ensures var all, limit, page := Listing(q, t, cursor), PageLimit(asked), ListItems(q, t, asked, cursor);
            if |all| > limit then page == Page(all[..limit], Some(KeyOf(all[limit]))) else page == Page(all, None)
  {
  }

  lemma {:induction false} BrowseSkips(q: Query, t: Table, asked: Option<int>, cursor: Option<Key>)
    ensures Browse(q, t, asked, cursor) == Skipping(Listing(q, t, cursor), PageLimit(asked))
    decreases |Matches(q, t, cursor)|
  {
    var limit := PageLimit(asked);
    var all := Listing(q, t, cursor);
    ListItemsIs(q, t, asked, cursor);
    hide Listing, ListItems, PageLimit;
    if |all| > limit {
      FewerLeft(q, t, cursor, limit);
      ListingContinues(q, t, cursor, limit);
      BrowseSkips(q, t, asked, Some(KeyOf(all[limit])));
    }
  }

  lemma ListingIsDistinct(q: Query, t: Table, cursor: Option<Key>)
    ensures Distinct(Listing(q, t, cursor))
  {
    var all := Listing(q, t, cursor);
    assert Descending(all);
    hide Listing;
  }

  /**
    Paging through the service never shows the rows at positions limit, 2 * limit + 1, ... of the
    sorted query, so it shows all of it exactly when everything fits into the first page.
   */
  lemma BrowseIsExact(q: Query, t: Table, asked: Option<int>)
    ensures var all, limit := Listing(q, t, None), PageLimit(asked);
            && (Browse(q, t, asked, None) == all <==> |all| <= limit)
            && |Browse(q, t, asked, None)| == |all| - |all| / (limit + 1)
            && forall p :: 0 <= p < |all| ==> (all[p] in Browse(q, t, asked, None) <==> p % (limit + 1) != limit)
  {
    hide Listing, Browse, Skipping, EndsGroup, PageLimit;
    var all, limit := Listing(q, t, None), PageLimit(asked);
    ListingIsDistinct(q, t, None);
    BrowseSkips(q, t, asked, None);
    SkippingLoses(all, limit);
    GroupsIsQuotient(|all|, limit + 1);
    forall p | 0 <= p < |all|
      ensures all[p] in Browse(q, t, asked, None) <==> p % (limit + 1) != limit
    {
      SkippingKeeps(all, limit, p);
      EndsGroupIsRemainder(p, limit);
    }
  }

  /** What the pages from a cursor on add; nothing without a cursor. */
  ghost function Ahead(q: Query, t: Table, asked: Option<int>, cursor: Option<Key>): seq<Hit> {
    if cursor.None? then [] else Browse(q, t, asked, cursor)
  }

  lemma AheadSplits(q: Query, t: Table, asked: Option<int>, cursor: Option<Key>, shown: seq<Hit>)
    requires cursor.Some?
    ensures var page := ListItems(q, t, asked, cursor);
            shown + Ahead(q, t, asked, cursor) == shown + page.items + Ahead(q, t, asked, page.nextCursor)
  {
    hide ListItems;
    var page := ListItems(q, t, asked, cursor);
    assert Ahead(q, t, asked, cursor) == page.items + Ahead(q, t, asked, page.nextCursor);
  }

  /** The item list of the front end; what the service answers is an input. */
  class ItemList {
    var unlocked: bool
    var items: seq<Hit>
    var nextCursor: Option<Key>
    var hasMore: bool
    var status: string

    /** What is shown now, followed by what later pages of an unchanged table will add. */
    ghost function Outlook(q: Query, t: Table, asked: Option<int>): seq<Hit>
      reads this
    {
      items + Ahead(q, t, asked, nextCursor)
    }

    /** `load_more_items`: the outlook never changes, and a successful call gets further along it. */
    method LoadMore(ghost q: Query, ghost t: Table, ghost asked: Option<int>, answer: Result<Page, string>)
      requires nextCursor.Some? && answer.Ok? ==> answer.value == ListItems(q, t, asked, nextCursor)
      modifies this
      ensures Outlook(q, t, asked) == old(Outlook(q, t, asked)) && unlocked == old(unlocked)
      ensures old(items) <= items
      ensures !old(unlocked) || old(nextCursor).None? || answer.Err? ==>
                items == old(items) && nextCursor == old(nextCursor) && hasMore == old(hasMore)
      ensures old(unlocked) && old(nextCursor).Some? && answer.Ok? ==>
                && items == old(items) + answer.value.items && nextCursor == answer.value.nextCursor
                && hasMore == nextCursor.Some? && status == old(status)
      ensures status != old(status) ==> answer.Err? && status == answer.error
    {
      if !unlocked {
        return;
      }
      if nextCursor.None? {
        return;
      }
      hide Ahead, ListItems;
      match answer
      case Ok(page) =>
        AheadSplits(q, t, asked, nextCursor, items);
        items := items + page.items;
        nextCursor := page.nextCursor;
        hasMore := nextCursor.Some?;
      case Err(message) =>
        status := message;
    }
  }

  // ----- the query, column by column

  /** A row of the vault, live or wanted all the same, after the cursor: older, or as old with a smaller id. */
  predicate Answers(q: Query, t: Table, cursor: Option<Key>, id: Uuid) {
    && id in t && t[id].storage == q.storage && t[id].vault == q.vault && (t[id].deleted ==> q.includeDeleted)
    && (cursor.Some? ==>
          t[id].updatedAt < cursor.value.at || (t[id].updatedAt == cursor.value.at && id < cursor.value.id))
  }

  /** The query lists exactly the rows it is about, each once, newest first and equal times by descending id. */
  lemma ListingIs(q: Query, t: Table, cursor: Option<Key>)
    ensures var all := Listing(q, t, cursor);
            && (forall i :: 0 <= i < |all| ==> Answers(q, t, cursor, all[i].id) && all[i].row == t[all[i].id])
            && (forall id :: Answers(q, t, cursor, id) ==> Hit(id, t[id]) in all)
            && (forall i, j :: 0 <= i < j < |all| ==>
                  || all[i].row.updatedAt > all[j].row.updatedAt
                  || (all[i].row.updatedAt == all[j].row.updatedAt && all[i].id > all[j].id))
  {
    var all := Listing(q, t, cursor);
    forall i | 0 <= i < |all| ensures Answers(q, t, cursor, all[i].id) && all[i].row == t[all[i].id] {
      assert all[i] in all && all[i] in Matches(q, t, cursor);
    }
    forall id | Answers(q, t, cursor, id) ensures Hit(id, t[id]) in all {
      assert Hit(id, t[id]) in Matches(q, t, cursor);
    }
    hide Listing, Matches;
    assert Descending(all);
  }

  /** A page is the first `limit` rows of the query, and all of them if there are no more or the limit is negative. */
  lemma PagedIs(q: Query, t: Table, cursor: Option<Key>, limit: int)
    ensures var all, page := Listing(q, t, cursor), ListByVaultPaged(q, t, cursor, limit);
            && page <= all && (limit < 0 ==> page == all) && (limit >= 0 ==> |page| == Min(limit, |all|))
  {
    hide Listing;
  }
}
