/** The local history table: merge, prune and replace (crates/zann-db/src/local/item_history_repo.rs:149-355). */
module History {
  import opened Base

  datatype Status = Pending | Confirmed | Rejected

  /** `body` stands for the columns that are only copied: payload, checksum, change type, author, source, time. */
  datatype Row = Row(storage: Uuid, vault: Uuid, item: Uuid, version: int, status: Status, body: nat)

  datatype Entry = Entry(id: Uuid, row: Row)

  /** The table by primary key. */
  type Table = map<Uuid, Row>

  /** The item a call is about. */
  datatype Scope = Scope(storage: Uuid, item: Uuid)

  datatype DbError = KeyExists(id: Uuid)

  predicate Of(w: Scope, r: Row) {
    r.storage == w.storage && r.item == w.item
  }

  // ----- one entry

  predicate IsWaiting(w: Scope, r: Row, version: int) {
    Of(w, r) && r.version == version && r.status == Pending
  }

  function Waiting(t: Table, w: Scope, version: int): set<Uuid> {
    set id | id in t && IsWaiting(w, t[id], version)
  }

  /** The UPDATE keeps id, storage, vault and item. */
  function Overwritten(r: Row, e: Row): Row {
    r.(version := e.version, status := e.status, body := e.body)
  }

  function Updated(t: Table, w: Scope, e: Row): Table {
    map id | id in t :: if IsWaiting(w, t[id], e.version) then Overwritten(t[id], e) else t[id]
  }

  /** UPDATE the waiting rows of the version, or INSERT; None for a primary key that is taken. */
  function MergeOne(t: Table, w: Scope, e: Entry): Option<Table> {
    if Waiting(t, w, e.row.version) != {} then Some(Updated(t, w, e.row))
    else if e.id in t then None
    else Some(t[e.id := e.row])
  }

  function MergeAll(t: Table, w: Scope, es: seq<Entry>): Option<Table>
    decreases |es|
  {
    if es == [] then Some(t)
    else match MergeAll(t, w, es[..|es| - 1])
      case None => None
      case Some(u) => MergeOne(u, w, es[|es| - 1])
  }

  // ----- what the loop amounts to

  predicate AllConfirmed(es: seq<Entry>) {
    forall i :: 0 <= i < |es| ==> es[i].row.status == Confirmed
  }

  /** The first entry with a version. */
  function FirstWith(es: seq<Entry>, version: int): (r: Option<Entry>)
    ensures r.Some? ==> r.value in es && r.value.row.version == version
    ensures r.None? <==> forall i :: 0 <= i < |es| ==> es[i].row.version != version
    decreases |es|
  {
    if es == [] then None
    else
      var first := FirstWith(es[..|es| - 1], version);
      if first.Some? then first
      else if es[|es| - 1].row.version == version then Some(es[|es| - 1])
      else None
  }

  /** A row that was there: a waiting row takes over the first entry of its version, every other row stays. */
  function RowAfter(w: Scope, r: Row, es: seq<Entry>): Row {
    var first := FirstWith(es, r.version);
    if IsWaiting(w, r, r.version) && first.Some? then Overwritten(r, first.value.row) else r
  }

  /** The entry finds no waiting row: there was none, or an earlier entry of its version took them. */
  predicate IsInserted(t: Table, w: Scope, before: seq<Entry>, version: int) {
    Waiting(t, w, version) == {} || FirstWith(before, version).Some?
  }

  function Inserted(t: Table, w: Scope, es: seq<Entry>): seq<Entry>
    decreases |es|
  {
    if es == [] then []
    else
      var n := |es| - 1;
      Inserted(t, w, es[..n]) + if IsInserted(t, w, es[..n], es[n].row.version) then [es[n]] else []
  }

  predicate NewIds(t: Table, es: seq<Entry>) {
    && (forall i :: 0 <= i < |es| ==> es[i].id !in t)
    && (forall i, j :: 0 <= i < j < |es| ==> es[i].id != es[j].id)
  }

  predicate HasId(es: seq<Entry>, id: Uuid) {
    exists i :: 0 <= i < |es| && es[i].id == id
  }

  /** `r` is `t` with the waiting rows taken over and the remaining entries added. */
  ghost predicate IsMerged(t: Table, w: Scope, es: seq<Entry>, r: Table) {
    var added := Inserted(t, w, es);
    && (forall id :: id in r <==> id in t || HasId(added, id))
    && (forall id :: id in t ==> r[id] == RowAfter(w, t[id], es))
    && (forall i :: 0 <= i < |added| ==> r[added[i].id] == added[i].row)
  }

  lemma {:induction false} InsertedAreEntries(t: Table, w: Scope, es: seq<Entry>, i: nat)
    requires i < |Inserted(t, w, es)|
    ensures Inserted(t, w, es)[i] in es
    decreases |es|
  {
    var n := |es| - 1;
    if i < |Inserted(t, w, es[..n])| {
      InsertedAreEntries(t, w, es[..n], i);
    }
  }

  /** After a prefix, rows of a version still wait exactly if they did at first and no entry took them. */
  lemma WaitingAfter(t: Table, w: Scope, es: seq<Entry>, r: Table, version: int)
    requires AllConfirmed(es) && IsMerged(t, w, es, r)
    ensures Waiting(r, w, version) == if FirstWith(es, version).Some? then {} else Waiting(t, w, version)
  {
    var added := Inserted(t, w, es);
    forall id | id in r && id !in t
      ensures r[id].status == Confirmed
    {
      var i :| 0 <= i < |added| && added[i].id == id;
      InsertedAreEntries(t, w, es, i);
    }
    forall id | id in t
      ensures IsWaiting(w, r[id], version) <==> IsWaiting(w, t[id], version) && FirstWith(es, version).None?
    {
      var first := FirstWith(es, t[id].version);
      assert first.Some? ==> first.value.row.status == Confirmed;
    }
  }

  lemma MergedByUpdate(t: Table, w: Scope, es: seq<Entry>, e: Entry, r: Table)
    requires AllConfirmed(es) && e.row.status == Confirmed
    requires IsMerged(t, w, es, r) && NewIds(t, Inserted(t, w, es))
    requires !IsInserted(t, w, es, e.row.version)
    ensures Inserted(t, w, es + [e]) == Inserted(t, w, es)
    ensures IsMerged(t, w, es + [e], Updated(r, w, e.row))
  {
    var more, v := es + [e], e.row.version;
    assert more[..|es|] == es;
    WaitingAfter(t, w, es, r, v);
    forall id | id in r
      ensures IsWaiting(w, r[id], v) <==> id in t && IsWaiting(w, t[id], v)
    {
      assert id in Waiting(r, w, v) <==> id in Waiting(t, w, v);
    }
    forall id | id in t
      ensures Updated(r, w, e.row)[id] == RowAfter(w, t[id], more)
    {
    }
  }

  lemma InsertLeavesRows(t: Table, w: Scope, es: seq<Entry>, e: Entry, id: Uuid)
    requires IsInserted(t, w, es, e.row.version) && id in t
    ensures RowAfter(w, t[id], es + [e]) == RowAfter(w, t[id], es)
  {
    assert (es + [e])[..|es|] == es;
    assert IsWaiting(w, t[id], e.row.version) ==> id in Waiting(t, w, e.row.version);
  }

  lemma MergedByInsert(t: Table, w: Scope, es: seq<Entry>, e: Entry, r: Table)
    requires IsMerged(t, w, es, r) && NewIds(t, Inserted(t, w, es))
    requires IsInserted(t, w, es, e.row.version)
    ensures NewIds(t, Inserted(t, w, es + [e])) <==> e.id !in r
    ensures e.id !in r ==> IsMerged(t, w, es + [e], r[e.id := e.row])
  {
    var more, prior := es + [e], Inserted(t, w, es);
    assert more[..|es|] == es;
    assert Inserted(t, w, more) == prior + [e];
    OneMoreId(t, prior, e);
    forall id | id in t
      ensures RowAfter(w, t[id], more) == RowAfter(w, t[id], es)
    {
      InsertLeavesRows(t, w, es, e, id);
    }
    hide RowAfter, NewIds, IsInserted;
    if e.id !in r {
      AddedRows(prior, e, r);
    }
  }

  lemma AddedRows(prior: seq<Entry>, e: Entry, r: Table)
    requires forall i :: 0 <= i < |prior| ==> prior[i].id in r && r[prior[i].id] == prior[i].row
    requires e.id !in r
    ensures forall i :: 0 <= i < |prior + [e]| ==> r[e.id := e.row][(prior + [e])[i].id] == (prior + [e])[i].row
  {
  }

  lemma OneMoreId(t: Table, prior: seq<Entry>, e: Entry)
    ensures NewIds(t, prior + [e]) <==> NewIds(t, prior) && e.id !in t && !HasId(prior, e.id)
    ensures forall id :: HasId(prior + [e], id) <==> HasId(prior, id) || id == e.id
  {
    var added := prior + [e];
    assert added[|prior|] == e;
    assert forall i :: 0 <= i < |prior| ==> added[i] == prior[i];
    forall id
      ensures HasId(added, id) <==> HasId(prior, id) || id == e.id
    {
      if HasId(prior, id) {
        var i :| 0 <= i < |prior| && prior[i].id == id;
        assert added[i].id == id;
      }
    }
  }

  /**
    The loop, entry by entry, amounts to this: every pending row of the item takes over the first
    entry of its version, all other rows stay, and the entries that took over nothing are added.
    It fails exactly if one of those entries has an id that is taken.
   */
  lemma {:induction false} MergeIsExact(t: Table, w: Scope, es: seq<Entry>)
    requires AllConfirmed(es)
    ensures MergeAll(t, w, es).Some? <==> NewIds(t, Inserted(t, w, es))
    ensures MergeAll(t, w, es).Some? ==> IsMerged(t, w, es, MergeAll(t, w, es).value)
    decreases |es|
  {
    if es != [] {
      var n := |es| - 1;
      var less, e := es[..n], es[n];
      assert es == less + [e];
      MergeIsExact(t, w, less);
      if MergeAll(t, w, less).Some? {
        var r := MergeAll(t, w, less).value;
        WaitingAfter(t, w, less, r, e.row.version);
        if IsInserted(t, w, less, e.row.version) {
          MergedByInsert(t, w, less, e, r);
        } else {
          MergedByUpdate(t, w, less, e, r);
        }
      } else {
        OldIdsAreTaken(t, w, less, e);
      }
    }
  }

  lemma OldIdsAreTaken(t: Table, w: Scope, es: seq<Entry>, e: Entry)
    requires !NewIds(t, Inserted(t, w, es))
    ensures !NewIds(t, Inserted(t, w, es + [e]))
  {
    assert (es + [e])[..|es|] == es;
    var prior, added := Inserted(t, w, es), Inserted(t, w, es + [e]);
    assert forall i :: 0 <= i < |prior| ==> added[i] == prior[i];
  }

  // ----- pruning

  function ConfirmedIds(t: Table, w: Scope): set<Uuid> {
    set id | id in t && Of(w, t[id]) && t[id].status == Confirmed
  }

  /** An answer to `ORDER BY version DESC` over the confirmed rows; equal versions come in any order. */
  ghost predicate IsOrder(t: Table, w: Scope, order: seq<Uuid>) {
    && (forall i :: 0 <= i < |order| ==> order[i] in ConfirmedIds(t, w))
    && (forall id :: id in ConfirmedIds(t, w) ==> id in order)
    && (forall i, j :: 0 <= i < j < |order| ==> order[i] != order[j] && t[order[i]].version >= t[order[j]].version)
  }

  /** `OFFSET keep`; a negative offset is zero. */
  function Kept(order: seq<Uuid>, keep: int): (n: nat)
    ensures n <= |order|
  {
    Min(|order|, Max(0, keep))
  }

  function Pruned(t: Table, order: seq<Uuid>, keep: int): Table {
    map id | id in t && id !in order[Kept(order, keep)..] :: t[id]
  }

  lemma {:induction false} SizeOfDistinct(s: seq<Uuid>, ids: set<Uuid>)
    requires forall i, j :: 0 <= i < j < |s| ==> s[i] != s[j]
    requires forall id :: id in s <==> id in ids
    ensures |s| == |ids|
    decreases |s|
  {
    if s == [] {
      assert ids == {};
    } else {
      var rest := s[1..];
      assert forall id :: id in s <==> id == s[0] || id in rest;
      SizeOfDistinct(rest, ids - {s[0]});
    }
  }

  lemma PrunedConfirmed(t: Table, w: Scope, order: seq<Uuid>, keep: int, id: Uuid)
    requires IsOrder(t, w, order)
    ensures id in ConfirmedIds(Pruned(t, order, keep), w) <==> id in order[..Kept(order, keep)]
  {
    var n := Kept(order, keep);
    if id in order[..n] {
      var i :| 0 <= i < n && order[i] == id;
      assert order[i] in order;
      assert id !in order[n..];
    } else if id in ConfirmedIds(t, w) {
      assert order == order[..n] + order[n..];
      assert id in order[n..];
    }
  }

  lemma PrunedCount(t: Table, w: Scope, order: seq<Uuid>, keep: int)
    requires IsOrder(t, w, order)
    ensures |ConfirmedIds(Pruned(t, order, keep), w)| == Kept(order, keep)
    ensures |ConfirmedIds(t, w)| == |order|
  {
    SizeOfDistinct(order, ConfirmedIds(t, w));
    var n := Kept(order, keep);
    forall id
      ensures id in order[..n] <==> id in ConfirmedIds(Pruned(t, order, keep), w)
    {
      PrunedConfirmed(t, w, order, keep, id);
    }
    SizeOfDistinct(order[..n], ConfirmedIds(Pruned(t, order, keep), w));
  }

  /** The new table is part of the old one and every row that is not a confirmed one of the item is in it. */
  predicate KeepsOthers(t: Table, w: Scope, r: Table) {
    && (forall id :: id in r ==> id in t && r[id] == t[id])
    && (forall id :: id in t && id !in ConfirmedIds(t, w) ==> id in r)
  }

  /** No survivor is older than a pruned row. */
  predicate KeepsNewest(t: Table, w: Scope, r: Table) {
    forall a, b :: a in ConfirmedIds(t, w) && a in r && b in ConfirmedIds(t, w) && b !in r ==>
      t[a].version >= t[b].version
  }

  lemma PrunedIsOldest(t: Table, w: Scope, order: seq<Uuid>, keep: int)
    requires IsOrder(t, w, order)
    ensures KeepsNewest(t, w, Pruned(t, order, keep))
  {
    var r, n := Pruned(t, order, keep), Kept(order, keep);
    forall a, b | a in ConfirmedIds(t, w) && a in r && b in ConfirmedIds(t, w) && b !in r
      ensures t[a].version >= t[b].version
    {
      PrunedConfirmed(t, w, order, keep, a);
      var i :| 0 <= i < n && order[i] == a;
      var j :| 0 <= j < |order[n..]| && order[n..][j] == b;
      assert order[n + j] == b;
    }
  }

  /** Pruning keeps the newest `keep` confirmed rows and everything else, and pruning again changes nothing. */
  lemma PruneIsExact(t: Table, w: Scope, order: seq<Uuid>, keep: int, again: seq<Uuid>)
    requires IsOrder(t, w, order) && IsOrder(Pruned(t, order, keep), w, again)
    ensures var r := Pruned(t, order, keep);
            && KeepsOthers(t, w, r) && KeepsNewest(t, w, r)
            && |ConfirmedIds(r, w)| == Min(Max(0, keep), |ConfirmedIds(t, w)|)
            && Pruned(r, again, keep) == r
  {
    var r := Pruned(t, order, keep);
    PrunedCount(t, w, order, keep);
    SizeOfDistinct(again, ConfirmedIds(r, w));
    PrunedIsOldest(t, w, order, keep);
    assert again[Kept(again, keep)..] == [];
  }

  // ----- merge and prune together

  /**
    Rows a merge may not touch: other items' rows, rejected rows, confirmed rows and pending rows of
    other versions.
   */
  predicate Untouched(w: Scope, es: seq<Entry>, r: Row) {
    !IsWaiting(w, r, r.version) || FirstWith(es, r.version).None?
  }

  /**
    A merge followed by its pruning: no pending row with an incoming version is left, every row
    that is not concerned is as before unless it is confirmed and pruned, the number of confirmed
    rows is min(keep, number before pruning), what is pruned is oldest, and pruning again with the
    same limit deletes nothing.
   */
  lemma MergeThenPrune(t: Table, w: Scope, es: seq<Entry>, order: seq<Uuid>, keep: int, again: seq<Uuid>)
    requires AllConfirmed(es) && MergeAll(t, w, es).Some?
    requires var m := MergeAll(t, w, es).value;
             IsOrder(m, w, order) && IsOrder(Pruned(m, order, keep), w, again)
    ensures var m := MergeAll(t, w, es).value;
            var r := Pruned(m, order, keep);
            && (forall e :: e in es ==> Waiting(r, w, e.row.version) == {})
            && (forall id :: id in t && Untouched(w, es, t[id]) && id !in ConfirmedIds(t, w) ==>
                  id in r && r[id] == t[id])
            && (forall id :: id in t && Untouched(w, es, t[id]) && id in r ==> r[id] == t[id])
            && |ConfirmedIds(r, w)| == Min(Max(0, keep), |ConfirmedIds(m, w)|)
            && KeepsNewest(m, w, r)
            && Pruned(r, again, keep) == r
  {
    var m := MergeAll(t, w, es).value;
    var r := Pruned(m, order, keep);
    MergeIsExact(t, w, es);
    PruneIsExact(m, w, order, keep, again);
    hide Pruned, Inserted, MergeAll, IsOrder;
    forall e | e in es
      ensures Waiting(r, w, e.row.version) == {}
    {
      WaitingAfter(t, w, es, m, e.row.version);
      assert Waiting(r, w, e.row.version) <= Waiting(m, w, e.row.version);
    }
    forall id | id in t && Untouched(w, es, t[id])
      ensures m[id] == t[id]
    {
    }
  }

  // ----- one row per version

  /** No version of the item is confirmed twice. */
  predicate UniqueVersions(t: Table, w: Scope) {
    forall a, b :: a in ConfirmedIds(t, w) && b in ConfirmedIds(t, w) && a != b ==> t[a].version != t[b].version
  }

  predicate DistinctVersions(es: seq<Entry>) {
    forall i, j :: 0 <= i < j < |es| ==> es[i].row.version != es[j].row.version
  }

  /** What a caller would have to check: each incoming version is new, or waits in a single row. */
  predicate EachVersionNew(t: Table, w: Scope, es: seq<Entry>) {
    && DistinctVersions(es)
    && (forall i, id :: 0 <= i < |es| && id in ConfirmedIds(t, w) ==> t[id].version != es[i].row.version)
    && (forall a, b :: a in t && b in t && a != b && t[a].version == t[b].version
          && IsWaiting(w, t[a], t[a].version) && IsWaiting(w, t[b], t[b].version)
          ==> FirstWith(es, t[a].version).None?)
  }

  /** Where an added entry stands among the added ones. */
  lemma {:induction false} InsertedAt(t: Table, w: Scope, es: seq<Entry>, k: nat)
    requires k < |es| && IsInserted(t, w, es[..k], es[k].row.version)
    ensures |Inserted(t, w, es[..k])| < |Inserted(t, w, es)|
    ensures Inserted(t, w, es)[|Inserted(t, w, es[..k])|] == es[k]
    decreases |es|
  {
    var n := |es| - 1;
    if k < n {
      assert es[..n][..k] == es[..k];
      InsertedAt(t, w, es[..n], k);
    }
  }

  /** If the incoming versions differ, so do the added ones, and none of them was waiting. */
  lemma {:induction false} DistinctInserted(t: Table, w: Scope, es: seq<Entry>)
    requires DistinctVersions(es)
    ensures DistinctVersions(Inserted(t, w, es))
    ensures forall i :: 0 <= i < |Inserted(t, w, es)| ==> Waiting(t, w, Inserted(t, w, es)[i].row.version) == {}
    decreases |es|
  {
    if es != [] {
      var n := |es| - 1;
      DistinctInserted(t, w, es[..n]);
      var prior := Inserted(t, w, es[..n]);
      forall i | 0 <= i < |prior|
        ensures prior[i].row.version != es[n].row.version
      {
        InsertedAreEntries(t, w, es[..n], i);
      }
    }
  }

  /** A successful merge of confirmed entries of the item. */
  ghost predicate MergedInto(t: Table, w: Scope, es: seq<Entry>, r: Table) {
    && AllConfirmed(es) && (forall i :: 0 <= i < |es| ==> Of(w, es[i].row))
    && IsMerged(t, w, es, r) && NewIds(t, Inserted(t, w, es))
  }

  predicate Holds(t: Table, w: Scope, id: Uuid, version: int) {
    id in ConfirmedIds(t, w) && t[id].version == version
  }

  /** An old row holds a version afterwards if it held it before or took it over. */
  lemma OldRowHolds(t: Table, w: Scope, es: seq<Entry>, r: Table, id: Uuid, version: int)
    requires MergedInto(t, w, es, r) && id in t
    ensures Holds(r, w, id, version) <==>
            Holds(t, w, id, version) || (id in Waiting(t, w, version) && FirstWith(es, version).Some?)
  {
    var first := FirstWith(es, t[id].version);
    assert first.Some? ==> first.value.row.status == Confirmed;
  }

  lemma NewRowHolds(t: Table, w: Scope, es: seq<Entry>, r: Table, i: nat)
    requires MergedInto(t, w, es, r) && i < |Inserted(t, w, es)|
    ensures var e := Inserted(t, w, es)[i];
            e.id !in t && Holds(r, w, e.id, e.row.version)
  {
    InsertedAreEntries(t, w, es, i);
    assert HasId(Inserted(t, w, es), Inserted(t, w, es)[i].id);
  }

  /** Every incoming version has a holder: a row that waited for it, or else a new row. */
  lemma IncomingIsHeld(t: Table, w: Scope, es: seq<Entry>, r: Table, k: nat) returns (id: Uuid)
    requires MergedInto(t, w, es, r) && k < |es|
    ensures Holds(r, w, id, es[k].row.version)
    ensures id in t ==> id in Waiting(t, w, es[k].row.version)
  {
    var v := es[k].row.version;
    if Waiting(t, w, v) == {} {
      InsertedAt(t, w, es, k);
      NewRowHolds(t, w, es, r, |Inserted(t, w, es[..k])|);
      id := es[k].id;
    } else {
      id :| id in Waiting(t, w, v);
      OldRowHolds(t, w, es, r, id, v);
    }
  }

  lemma RepeatedVersionIsHeldTwice(t: Table, w: Scope, es: seq<Entry>, r: Table, i: nat, j: nat)
    requires MergedInto(t, w, es, r) && i < j < |es| && es[i].row.version == es[j].row.version
    ensures !UniqueVersions(r, w)
  {
    var v := es[j].row.version;
    assert es[..j][i] == es[i];
    InsertedAt(t, w, es, j);
    var q := |Inserted(t, w, es[..j])|;
    NewRowHolds(t, w, es, r, q);
    if Waiting(t, w, v) == {} {
      InsertedAt(t, w, es, i);
      InsertedAt(t, w, es[..j], i);
      assert es[..j][..i] == es[..i];
      var p := |Inserted(t, w, es[..i])|;
      NewRowHolds(t, w, es, r, p);
      assert Inserted(t, w, es)[p].id != Inserted(t, w, es)[q].id;
    } else {
      var id := IncomingIsHeld(t, w, es, r, j);
    }
  }

  lemma HeldTwiceIfNotNew(t: Table, w: Scope, es: seq<Entry>, r: Table)
    requires MergedInto(t, w, es, r) && UniqueVersions(r, w)
    ensures UniqueVersions(t, w) && EachVersionNew(t, w, es)
  {
    forall a, b | a in ConfirmedIds(t, w) && b in ConfirmedIds(t, w) && a != b
      ensures t[a].version != t[b].version
    {
      OldRowHolds(t, w, es, r, a, t[a].version);
      OldRowHolds(t, w, es, r, b, t[b].version);
    }
    forall i, j | 0 <= i < j < |es|
      ensures es[i].row.version != es[j].row.version
    {
      if es[i].row.version == es[j].row.version {
        RepeatedVersionIsHeldTwice(t, w, es, r, i, j);
      }
    }
    forall i, id | 0 <= i < |es| && id in ConfirmedIds(t, w)
      ensures t[id].version != es[i].row.version
    {
      var holder := IncomingIsHeld(t, w, es, r, i);
      OldRowHolds(t, w, es, r, id, t[id].version);
    }
    forall a, b | a in t && b in t && a != b && t[a].version == t[b].version
                  && IsWaiting(w, t[a], t[a].version) && IsWaiting(w, t[b], t[b].version)
      ensures FirstWith(es, t[a].version).None?
    {
      OldRowHolds(t, w, es, r, a, t[a].version);
      OldRowHolds(t, w, es, r, b, t[b].version);
    }
  }

  lemma HeldOnceIfNew(t: Table, w: Scope, es: seq<Entry>, r: Table, a: Uuid, b: Uuid)
    requires MergedInto(t, w, es, r) && UniqueVersions(t, w) && EachVersionNew(t, w, es)
    requires a in ConfirmedIds(r, w) && b in ConfirmedIds(r, w) && a != b && a in t
    ensures r[a].version != r[b].version
  {
    var v := r[b].version;
    OldRowHolds(t, w, es, r, a, v);
    if b in t {
      OldRowHolds(t, w, es, r, b, v);
    } else {
      var added := Inserted(t, w, es);
      var i :| 0 <= i < |added| && added[i].id == b;
      InsertedAreEntries(t, w, es, i);
      DistinctInserted(t, w, es);
    }
  }

  /**
    After a merge no version is confirmed twice if and only if none was before and every incoming
    version is new. A version that is already confirmed is not recognised: it is added again.
   */
  lemma MergeKeepsVersionsUnique(t: Table, w: Scope, es: seq<Entry>)
    requires AllConfirmed(es) && (forall i :: 0 <= i < |es| ==> Of(w, es[i].row)) && MergeAll(t, w, es).Some?
    ensures UniqueVersions(MergeAll(t, w, es).value, w) <==> UniqueVersions(t, w) && EachVersionNew(t, w, es)
  {
    MergeIsExact(t, w, es);
    var r := MergeAll(t, w, es).value;
    hide MergeAll;
    if UniqueVersions(r, w) {
      HeldTwiceIfNotNew(t, w, es, r);
    }
    if UniqueVersions(t, w) && EachVersionNew(t, w, es) {
      UniqueIfNew(t, w, es, r);
    }
  }

  lemma UniqueIfNew(t: Table, w: Scope, es: seq<Entry>, r: Table)
    requires MergedInto(t, w, es, r) && UniqueVersions(t, w) && EachVersionNew(t, w, es)
    ensures UniqueVersions(r, w)
  {
    forall a, b | a in ConfirmedIds(r, w) && b in ConfirmedIds(r, w) && a != b
      ensures r[a].version != r[b].version
    {
      if a in t {
        HeldOnceIfNew(t, w, es, r, a, b);
      } else if b in t {
        HeldOnceIfNew(t, w, es, r, b, a);
      } else {
        BothAdded(t, w, es, r, a, b);
      }
    }
  }

  lemma BothAdded(t: Table, w: Scope, es: seq<Entry>, r: Table, a: Uuid, b: Uuid)
    requires MergedInto(t, w, es, r) && DistinctVersions(es) && a in r && b in r && a !in t && b !in t && a != b
    ensures r[a].version != r[b].version
  {
    var added := Inserted(t, w, es);
    DistinctInserted(t, w, es);
    var i :| 0 <= i < |added| && added[i].id == a;
    var j :| 0 <= j < |added| && added[j].id == b;
  }

  // ----- replacing

  function Others(t: Table, w: Scope): Table {
    map id | id in t && !Of(w, t[id]) :: t[id]
  }

  function InsertAll(t: Table, es: seq<Entry>): Option<Table>
    decreases |es|
  {
    if es == [] then Some(t)
    else match InsertAll(t, es[..|es| - 1])
      case None => None
      case Some(u) =>
        var e := es[|es| - 1];
        if e.id in u then None else Some(u[e.id := e.row])
  }

  ghost predicate IsInsertion(t: Table, es: seq<Entry>, r: Table) {
    && (forall id :: id in r <==> id in t || HasId(es, id))
    && (forall id :: id in t ==> r[id] == t[id])
    && (forall i :: 0 <= i < |es| ==> r[es[i].id] == es[i].row)
  }

  lemma {:induction false} InsertIsExact(t: Table, es: seq<Entry>)
    ensures InsertAll(t, es).Some? <==> NewIds(t, es)
    ensures InsertAll(t, es).Some? ==> IsInsertion(t, es, InsertAll(t, es).value)
    decreases |es|
  {
    if es != [] {
      var n := |es| - 1;
      InsertIsExact(t, es[..n]);
      assert es == es[..n] + [es[n]];
      OneMoreId(t, es[..n], es[n]);
    }
  }

  /**
    Replacing leaves exactly the given entries for the item and every other item's rows; it fails
    exactly if an id is taken there or given twice; and the same call again changes nothing.
   */
  lemma ReplaceIsExact(t: Table, w: Scope, es: seq<Entry>)
    requires forall i :: 0 <= i < |es| ==> Of(w, es[i].row)
    ensures InsertAll(Others(t, w), es).Some? <==> NewIds(Others(t, w), es)
    ensures InsertAll(Others(t, w), es).Some? ==>
              var r := InsertAll(Others(t, w), es).value;
              && Others(r, w) == Others(t, w)
              && (forall id :: id in r && Of(w, r[id]) <==> HasId(es, id))
              && (forall i :: 0 <= i < |es| ==> r[es[i].id] == es[i].row)
              && InsertAll(Others(r, w), es) == Some(r)
  {
    InsertIsExact(Others(t, w), es);
    if InsertAll(Others(t, w), es).Some? {
      var r := InsertAll(Others(t, w), es).value;
      forall id | HasId(es, id)
        ensures id in r && Of(w, r[id])
      {
        var i :| 0 <= i < |es| && es[i].id == id;
      }
      assert Others(r, w) == Others(t, w);
    }
  }

  // ----- the repository

  lemma {:induction false} NewestExists(t: Table, ids: set<Uuid>)
    requires ids != {} && ids <= t.Keys
    ensures exists a :: a in ids && forall b :: b in ids ==> t[b].version <= t[a].version
    decreases |ids|
  {
    var x :| x in ids;
    var rest := ids - {x};
    if rest == {} {
      assert ids == {x};
    } else {
      NewestExists(t, rest);
      var a :| a in rest && forall b :: b in rest ==> t[b].version <= t[a].version;
      var best := if t[x].version >= t[a].version then x else a;
      assert forall b :: b in ids ==> b == x || b in rest;
      assert best in ids && forall b :: b in ids ==> t[b].version <= t[best].version;
    }
  }

  /** `ORDER BY version DESC`; which of several equal versions comes first is left open. */
  method OrderByVersion(t: Table, w: Scope) returns (order: seq<Uuid>)
    ensures IsOrder(t, w, order)
  {
    order := [];
    var todo := ConfirmedIds(t, w);
    while todo != {}
      invariant todo <= ConfirmedIds(t, w)
      invariant forall i :: 0 <= i < |order| ==> order[i] in ConfirmedIds(t, w) && order[i] !in todo
      invariant forall id :: id in ConfirmedIds(t, w) ==> id in order || id in todo
      invariant forall i, j :: 0 <= i < j < |order| ==>
                  order[i] != order[j] && t[order[i]].version >= t[order[j]].version
      invariant forall i, id :: 0 <= i < |order| && id in todo ==> t[order[i]].version >= t[id].version
      decreases |todo|
    {
      NewestExists(t, todo);
      var a :| a in todo && forall b :: b in todo ==> t[b].version <= t[a].version;
      order := order + [a];
      todo := todo - {a};
    }
  }

  /** A key that is taken ends the whole transaction. */
  lemma {:induction false} FailureStays(t: Table, w: Scope, es: seq<Entry>, k: nat)
    requires k <= |es| && MergeAll(t, w, es[..k]).None?
    ensures MergeAll(t, w, es).None?
    decreases |es|
  {
    if k < |es| {
      var n := |es| - 1;
      assert es[..n][..k] == es[..k];
      FailureStays(t, w, es[..n], k);
    } else {
      assert es[..k] == es;
    }
  }

  lemma {:induction false} InsertFailureStays(t: Table, es: seq<Entry>, k: nat)
    requires k <= |es| && InsertAll(t, es[..k]).None?
    ensures InsertAll(t, es).None?
    decreases |es|
  {
    if k < |es| {
      var n := |es| - 1;
      assert es[..n][..k] == es[..k];
      InsertFailureStays(t, es[..n], k);
    } else {
      assert es[..k] == es;
    }
  }

  class HistoryRepo {
    var rows: Table

    /** `merge_by_item`: one transaction, rolled back on an error. */
    method MergeByItem(w: Scope, history: seq<Entry>, keep: int) returns (r: Result<(), DbError>)
      modifies this
      ensures r.Ok? <==> MergeAll(old(rows), w, history).Some?
      ensures r.Err? ==> rows == old(rows)
      ensures r.Ok? ==> exists order ::
                var m := MergeAll(old(rows), w, history).value;
                IsOrder(m, w, order) && rows == Pruned(m, order, keep)
    {
      var tx := rows;
      for k := 0 to |history|
        invariant rows == old(rows)
        invariant MergeAll(old(rows), w, history[..k]) == Some(tx)
      {
        var e := history[k];
        assert history[..k + 1][..k] == history[..k];
        if Waiting(tx, w, e.row.version) != {} {
          tx := Updated(tx, w, e.row);
        } else if e.id in tx {
          FailureStays(rows, w, history, k + 1);
          return Err(KeyExists(e.id));
        } else {
          tx := tx[e.id := e.row];
        }
      }
      assert history[..|history|] == history;
      var order := OrderByVersion(tx, w);
      rows := Pruned(tx, order, keep);
      r := Ok(());
    }

    /** `prune_by_item`. */
    method PruneByItem(w: Scope, keep: int) returns (deleted: nat)
      modifies this
      ensures exists order ::
                && IsOrder(old(rows), w, order) && rows == Pruned(old(rows), order, keep)
                && deleted == |order| - Kept(order, keep)
    {
      var order := OrderByVersion(rows, w);
      rows := Pruned(rows, order, keep);
      deleted := |order| - Kept(order, keep);
    }

    /** `replace_by_item`. */
    method ReplaceByItem(w: Scope, history: seq<Entry>) returns (r: Result<(), DbError>)
      modifies this
      ensures r.Ok? <==> InsertAll(Others(old(rows), w), history).Some?
      ensures rows == if r.Ok? then InsertAll(Others(old(rows), w), history).value else old(rows)
    {
      var tx := Others(rows, w);
      for k := 0 to |history|
        invariant rows == old(rows)
        invariant InsertAll(Others(old(rows), w), history[..k]) == Some(tx)
      {
        var e := history[k];
        assert history[..k + 1][..k] == history[..k];
        if e.id in tx {
          InsertFailureStays(Others(rows, w), history, k + 1);
          return Err(KeyExists(e.id));
        }
        tx := tx[e.id := e.row];
      }
      assert history[..|history|] == history;
      rows := tx;
      r := Ok(());
    }
  }

  // ----- the same answer merged twice

  /** The server's answer about one item: versions 2 and 1, under fresh ids. */
  function Answer(w: Scope, a: Uuid, b: Uuid): seq<Entry> {
    [Entry(a, Row(w.storage, 0, w.item, 2, Confirmed, 20)), Entry(b, Row(w.storage, 0, w.item, 1, Confirmed, 10))]
  }

  lemma AnswerMerges(t: Table, w: Scope, a: Uuid, b: Uuid)
    requires a != b && a !in t && b !in t
    requires forall id :: id in t ==> t[id].status == Confirmed
    ensures MergeAll(t, w, Answer(w, a, b)) == Some(t[a := Answer(w, a, b)[0].row][b := Answer(w, a, b)[1].row])
  {
    var es := Answer(w, a, b);
    assert es[..1][..0] == [] && es[..1][0] == es[0];
    assert MergeAll(t, w, es[..1]) == MergeOne(t, w, es[0]);
    assert MergeAll(t, w, es) == MergeOne(t[a := es[0].row], w, es[1]);
  }

  lemma {:induction false} SubsetSize(x: set<Uuid>, y: set<Uuid>)
    requires x <= y
    ensures |x| <= |y|
    decreases |x|
  {
    if x != {} {
      var a :| a in x;
      SubsetSize(x - {a}, y - {a});
    }
  }

  /** Of versions 2, 1, 2, 1 the two rows of version 2 are kept. */
  lemma OldVersionsGo(t: Table, w: Scope, a: Uuid, b: Uuid, c: Uuid, d: Uuid, order: seq<Uuid>)
    requires |{a, b, c, d}| == 4 && t.Keys == ConfirmedIds(t, w) == {a, b, c, d}
    requires t[a].version == t[c].version == 2 && t[b].version == t[d].version == 1
    requires IsOrder(t, w, order)
    ensures Pruned(t, order, 2).Keys == {a, c}
  {
    var kept := Pruned(t, order, 2).Keys;
    PrunedCount(t, w, order, 2);
    PrunedIsOldest(t, w, order, 2);
    assert ConfirmedIds(Pruned(t, order, 2), w) == kept;
    hide Pruned, IsOrder;
    assert |kept| == 2;
    TwoKept(kept, a, c, b);
    TwoKept(kept, a, c, d);
    assert kept <= {a, c};
    SameSize(kept, a, c);
  }

  /** A set of two that holds `low` only together with `a` and `c` does not hold it. */
  lemma TwoKept(s: set<Uuid>, a: Uuid, c: Uuid, low: Uuid)
    requires |s| == 2 && |{a, c, low}| == 3 && (low in s ==> a in s && c in s)
    ensures low !in s
  {
    SubsetSize(s * {a, c, low}, s);
    assert low in s ==> s * {a, c, low} == {a, c, low};
  }

  lemma SameSize(s: set<Uuid>, a: Uuid, c: Uuid)
    requires |s| == 2 && s <= {a, c}
    ensures s == {a, c}
  {
    var missing := {a, c} - s;
    assert s + missing == {a, c} && s !! missing;
    assert |{a, c}| <= 2;
    assert |missing| == 0;
  }

  /**
    Merging one answer twice with a limit of two leaves version 2 twice and version 1 not at all,
    in whichever order equal versions are listed.
   */
  lemma SecondMergeEvicts(w: Scope, a: Uuid, b: Uuid, c: Uuid, d: Uuid, order: seq<Uuid>)
    requires |{a, b, c, d}| == 4
    ensures var once := MergeAll(map[], w, Answer(w, a, b));
            && once.Some? && Holds(once.value, w, b, 1)
            && var twice := MergeAll(once.value, w, Answer(w, c, d));
               && twice.Some?
               && (IsOrder(twice.value, w, order) ==>
                     && Pruned(twice.value, order, 2).Keys == {a, c}
                     && twice.value[a].version == 2 && twice.value[c].version == 2)
  {
    AnswerMerges(map[], w, a, b);
    var once := MergeAll(map[], w, Answer(w, a, b)).value;
    AnswerMerges(once, w, c, d);
    var twice := MergeAll(once, w, Answer(w, c, d)).value;
    hide MergeAll, IsOrder, Pruned;
    assert twice.Keys == {a, b, c, d};
    assert ConfirmedIds(twice, w) == twice.Keys;
    if IsOrder(twice, w, order) {
      OldVersionsGo(twice, w, a, b, c, d, order);
    }
  }

  // ----- merge and prune, column by column

  /** The first entry of its version. */
  predicate Leads(es: seq<Entry>, k: nat) {
    k < |es| && forall j :: 0 <= j < k ==> es[j].row.version != es[k].row.version
  }

  /** A pending row of the item in this version. */
  predicate PendingRow(w: Scope, r: Row, version: int) {
    r.storage == w.storage && r.item == w.item && r.version == version && r.status == Pending
  }

  lemma {:induction false} LeaderIsFirst(es: seq<Entry>, k: nat)
    requires Leads(es, k)
    ensures FirstWith(es, es[k].row.version) == Some(es[k])
    decreases |es|
  {
    var n := |es| - 1;
    if k < n {
      LeaderIsFirst(es[..n], k);
    } else {
      assert forall i :: 0 <= i < |es[..n]| ==> es[..n][i] == es[i];
    }
  }

  lemma RowIsTaken(t: Table, w: Scope, es: seq<Entry>, r: Table, id: Uuid, k: nat)
    requires IsMerged(t, w, es, r) && id in t && Leads(es, k) && PendingRow(w, t[id], es[k].row.version)
    ensures id in r && r[id] == Row(t[id].storage, t[id].vault, t[id].item,
                                    es[k].row.version, es[k].row.status, es[k].row.body)
  {
    LeaderIsFirst(es, k);
    hide FirstWith, Inserted;
  }

  lemma RowStays(t: Table, w: Scope, es: seq<Entry>, r: Table, id: Uuid)
    requires IsMerged(t, w, es, r) && id in t
    requires forall k :: 0 <= k < |es| ==> !PendingRow(w, t[id], es[k].row.version)
    ensures id in r && r[id] == t[id]
  {
    hide Inserted;
  }

  /**
    A successful merge, column by column. A pending row of the item whose version comes in keeps its
    identity and takes everything else from the first entry of that version. All other rows stay. An entry
    that took over no row is a row of its own, under an identifier that was free.
   */
  lemma MergedRowsAre(t: Table, w: Scope, es: seq<Entry>)
    requires AllConfirmed(es) && MergeAll(t, w, es).Some?
    ensures var r := MergeAll(t, w, es).value;
            && (forall id, k: nat :: id in t && Leads(es, k) && PendingRow(w, t[id], es[k].row.version) ==>
                  id in r && r[id] == Row(t[id].storage, t[id].vault, t[id].item,
                                          es[k].row.version, es[k].row.status, es[k].row.body))
            && (forall id :: id in t && (forall k :: 0 <= k < |es| ==> !PendingRow(w, t[id], es[k].row.version)) ==>
                  id in r && r[id] == t[id])
            && (forall k :: 0 <= k < |es| && !(Leads(es, k) && HasPending(t, w, es[k].row.version)) ==>
                  es[k].id !in t && es[k].id in r && r[es[k].id] == es[k].row)
            && (forall id :: id in r ==> id in t || HasId(es, id))
  {
    hide MergeAll, FirstWith, Inserted, IsMerged, PendingRow, HasPending, NewIds;
    var r := MergeAll(t, w, es).value;
    MergeIsExact(t, w, es);
    forall id, k: nat | id in t && Leads(es, k) && PendingRow(w, t[id], es[k].row.version)
      ensures id in r && r[id] == Row(t[id].storage, t[id].vault, t[id].item,
                                      es[k].row.version, es[k].row.status, es[k].row.body)
    {
      RowIsTaken(t, w, es, r, id, k);
    }
    hide Leads;
    forall id | id in t && forall k :: 0 <= k < |es| ==> !PendingRow(w, t[id], es[k].row.version)
      ensures id in r && r[id] == t[id]
    {
      RowStays(t, w, es, r, id);
    }
    forall k | 0 <= k < |es| && !(Leads(es, k) && HasPending(t, w, es[k].row.version))
      ensures es[k].id !in t && es[k].id in r && r[es[k].id] == es[k].row
    {
      EntryIsAdded(t, w, es, k, r);
    }
    forall id | id in r && id !in t ensures HasId(es, id) {
      AddedIsEntry(t, w, es, r, id);
    }
  }

  lemma AddedIsEntry(t: Table, w: Scope, es: seq<Entry>, r: Table, id: Uuid)
    requires IsMerged(t, w, es, r) && id in r && id !in t
    ensures HasId(es, id)
  {
    var i :| 0 <= i < |Inserted(t, w, es)| && Inserted(t, w, es)[i].id == id;
    InsertedAreEntries(t, w, es, i);
  }

  predicate HasPending(t: Table, w: Scope, version: int) {
    exists id :: id in t && PendingRow(w, t[id], version)
  }

  lemma EntryIsAdded(t: Table, w: Scope, es: seq<Entry>, k: nat, r: Table)
    requires k < |es| && !(Leads(es, k) && HasPending(t, w, es[k].row.version))
    requires IsMerged(t, w, es, r) && NewIds(t, Inserted(t, w, es))
    ensures es[k].id !in t && es[k].id in r && r[es[k].id] == es[k].row
  {
    var v := es[k].row.version;
    if HasPending(t, w, v) {
      var j :| 0 <= j < k && es[j].row.version == v;
      assert es[..k][j] == es[j];
    } else {
      assert Waiting(t, w, v) == {};
    }
    InsertedAt(t, w, es, k);
    var q := |Inserted(t, w, es[..k])|;
    assert HasId(Inserted(t, w, es), Inserted(t, w, es)[q].id);
  }

  /**
    Pruning, row by row: a row goes if and only if it is a confirmed one of the item with at least `keep`
    confirmed rows of the item listed before it, and those are at least as new.
   */
  lemma PrunedRowsAre(t: Table, w: Scope, order: seq<Uuid>, keep: int, id: Uuid)
    requires IsOrder(t, w, order) && id in t
    ensures var r := Pruned(t, order, keep);
            && (id in r ==> r[id] == t[id])
            && (id in r <==> !(exists i :: 0 <= i < |order| && order[i] == id && i >= keep))
            && (id in order <==> t[id].storage == w.storage && t[id].item == w.item && t[id].status == Confirmed)
  {
    hide *;
    PrunedIff(t, order, keep, id);
    ListedIff(t, w, order, id);
  }

  lemma PrunedIff(t: Table, order: seq<Uuid>, keep: int, id: Uuid)
    requires id in t
    ensures var r := Pruned(t, order, keep);
            && (id in r ==> r[id] == t[id])
            && (id in r <==> !(exists i :: 0 <= i < |order| && order[i] == id && i >= keep))
  {
    var n := Kept(order, keep);
    assert forall j :: 0 <= j < |order[n..]| ==> order[n..][j] == order[n + j];
    assert id in order[n..] <==> exists i :: n <= i < |order| && order[i] == id by {
      if i :| n <= i < |order| && order[i] == id {
        assert order[n..][i - n] == id;
      }
    }
  }

  lemma ListedIff(t: Table, w: Scope, order: seq<Uuid>, id: Uuid)
    requires IsOrder(t, w, order) && id in t
    ensures id in order <==> t[id].storage == w.storage && t[id].item == w.item && t[id].status == Confirmed
  {
  }

  /** Replacing, row by row: the rows of the item go, those of other items stay. */
  lemma ReplacedRowsAre(t: Table, w: Scope, es: seq<Entry>)
    requires InsertAll(Others(t, w), es).Some?
    ensures var r := InsertAll(Others(t, w), es).value;
            && (forall id :: id in t && !(t[id].storage == w.storage && t[id].item == w.item) ==>
                  id in r && r[id] == t[id])
            && (forall id :: id in t && t[id].storage == w.storage && t[id].item == w.item && id in r ==> HasId(es, id))
            && (forall k :: 0 <= k < |es| ==> es[k].id in r && r[es[k].id] == es[k].row)
            && (forall id :: id in r ==> id in t || HasId(es, id))
  {
    InsertIsExact(Others(t, w), es);
    forall k | 0 <= k < |es| ensures HasId(es, es[k].id) {
    }
  }
}
