/**
  The cache has a unique index on the path of live rows
  (crates/zann-db/migrations/0001_init.sql:80-82). A pull change that would break it is refused by
  the database, the error is dropped and the cursor moves on. This module says when pulls are
  unaffected, and shows the refusal the server itself provokes.
 */
module PathIndex {
  import opened Base
  import opened ReplicaModel
  import opened ServerLog
  import opened PullJoin

  /** A live row of another item already holds the path. */
  predicate Clash(items: map<Uuid, Item>, id: Uuid, row: Item) {
    row.deletedAt.None? &&
    exists other :: other in items && other != id && items[other].deletedAt.None?
                    && items[other].storage == row.storage && items[other].vault == row.vault
                    && items[other].path == row.path
  }

  predicate Refused(env: Env, st: Store, c: PullChange) {
    Beats(st, env, c) && Clash(st.items, c.item, LandedRow(env, st, c))
  }

  /** `apply_pull_change` on the indexed table: a refused write leaves row and history as they were. */
  function IndexedPull(env: Env, st: Store, c: PullChange): Store {
    if Refused(env, st, c) then st else ApplyPull(env, st, c)
  }

  function IndexedPulls(env: Env, st: Store, cs: seq<PullChange>): Store
    decreases |cs|
  {
    if cs == [] then st else IndexedPull(env, IndexedPulls(env, st, cs[..|cs| - 1]), cs[|cs| - 1])
  }

  /** The index changes the outcome of a pull change exactly when it refuses it. */
  lemma IndexMattersIffRefused(env: Env, st: Store, c: PullChange)
    ensures IndexedPull(env, st, c) != ApplyPull(env, st, c) <==> Refused(env, st, c)
  {
    if Refused(env, st, c) {
      var after := ApplyPull(env, st, c);
      assert c.item in after.items;
      if c.item in st.items {
        assert after.items[c.item].version != st.items[c.item].version;
      }
    }
  }

  // ----- over a whole delivery

  predicate Ascending(cs: seq<PullChange>) {
    forall i, j :: 0 <= i < j < |cs| ==> cs[i].seqNo < cs[j].seqNo
  }

  /** The last change of its item in the delivery. */
  predicate IsLast(cs: seq<PullChange>, i: nat) {
    i < |cs| && forall j :: i < j < |cs| ==> cs[j].item != cs[i].item
  }

  predicate SameHistory(env: Env, a: Store, b: Store, id: Uuid) {
    && ((env.storage, id) in a.history <==> (env.storage, id) in b.history)
    && ((env.storage, id) in a.history ==> a.history[(env.storage, id)] == b.history[(env.storage, id)])
  }

  /** Row and history of an item are those of the start. */
  predicate AtStart(env: Env, st: Store, mid: Store, id: Uuid) {
    && (id in mid.items <==> id in st.items) && (id in st.items ==> mid.items[id] == st.items[id])
    && SameHistory(env, st, mid, id)
  }

  /** Row and history of its item are those the change would leave, from the start. */
  predicate LandedFrom(env: Env, st: Store, mid: Store, c: PullChange) {
    && c.item in mid.items && mid.items[c.item] == LandedRow(env, st, c)
    && (env.storage, c.item) in mid.history && mid.history[(env.storage, c.item)] == c.history
  }

  /** An item is as at the start, or some change of it that beats the start has landed. */
  predicate Traced(env: Env, st: Store, mid: Store, cs: seq<PullChange>, id: Uuid) {
    AtStart(env, st, mid, id) ||
    exists i :: 0 <= i < |cs| && cs[i].item == id && Beats(st, env, cs[i]) && LandedFrom(env, st, mid, cs[i])
  }

  /** A change that is written lands as if it came first. */
  lemma WrittenLands(env: Env, st: Store, mid: Store, cs: seq<PullChange>, c: PullChange)
    requires Traced(env, st, mid, cs, c.item) && Beats(mid, env, c)
    requires forall i :: 0 <= i < |cs| ==> cs[i].seqNo < c.seqNo
    ensures Beats(st, env, c) && LandedFrom(env, st, ApplyPull(env, mid, c), c)
  {
  }

  lemma PullElsewhere(env: Env, mid: Store, c: PullChange, id: Uuid)
    requires c.item != id
    ensures AtStart(env, mid, IndexedPull(env, mid, c), id)
  {
    hide Refused;
  }

  lemma TracedStays(env: Env, st: Store, mid: Store, after: Store, cs: seq<PullChange>, c: PullChange, id: Uuid)
    requires Traced(env, st, mid, cs, id) && AtStart(env, mid, after, id)
    ensures Traced(env, st, after, cs + [c], id)
  {
    if !AtStart(env, st, after, id) {
      var i :| 0 <= i < |cs| && cs[i].item == id && Beats(st, env, cs[i]) && LandedFrom(env, st, mid, cs[i]);
      assert (cs + [c])[i] == cs[i];
    }
  }

  lemma AscendingSplit(cs: seq<PullChange>)
    requires Ascending(cs) && cs != []
    ensures var n := |cs| - 1;
            && Ascending(cs[..n]) && cs == cs[..n] + [cs[n]]
            && forall i :: 0 <= i < n ==> cs[..n][i].seqNo < cs[n].seqNo
  {
  }

  lemma {:induction false} IndexedIsTraced(env: Env, st: Store, cs: seq<PullChange>, id: Uuid)
    requires Ascending(cs)
    ensures Traced(env, st, IndexedPulls(env, st, cs), cs, id)
    decreases |cs|
  {
    if cs != [] {
      var n := |cs| - 1;
      var front, c := cs[..n], cs[n];
      AscendingSplit(cs);
      IndexedIsTraced(env, st, front, id);
      var mid := IndexedPulls(env, st, front);
      if c.item == id && IndexedPull(env, mid, c) != mid {
        WrittenLands(env, st, mid, front, c);
        assert cs[n] == c && LandedFrom(env, st, IndexedPulls(env, st, cs), cs[n]);
      } else {
        StepElsewhere(env, mid, c, id);
        hide IndexedPull, Traced;
        TracedStays(env, st, mid, IndexedPull(env, mid, c), front, c, id);
      }
    }
  }

  lemma StepElsewhere(env: Env, mid: Store, c: PullChange, id: Uuid)
    requires c.item != id || IndexedPull(env, mid, c) == mid
    ensures AtStart(env, mid, IndexedPull(env, mid, c), id)
  {
    if c.item != id {
      PullElsewhere(env, mid, c, id);
    }
  }

  /** After the last change of an item its row and history stay. */
  lemma {:induction false} StaysAfterLast(env: Env, st: Store, cs: seq<PullChange>, i: nat, id: Uuid)
    requires i <= |cs| && forall j :: i <= j < |cs| ==> cs[j].item != id
    ensures AtStart(env, IndexedPulls(env, st, cs[..i]), IndexedPulls(env, st, cs), id)
    decreases |cs| - i
  {
    if i == |cs| {
      assert cs[..i] == cs;
    } else {
      StaysAfterLast(env, st, cs, i + 1, id);
      assert cs[..i + 1][..i] == cs[..i];
      PullElsewhere(env, IndexedPulls(env, st, cs[..i]), cs[i], id);
    }
  }

  /** The last change of an item beats the row it meets if and only if it beats the start. */
  lemma BeatsWhatItMeets(env: Env, st: Store, cs: seq<PullChange>, i: nat)
    requires Ascending(cs) && i < |cs|
    ensures Beats(IndexedPulls(env, st, cs[..i]), env, cs[i]) <==> Beats(st, env, cs[i])
  {
    assert Ascending(cs[..i]);
    IndexedIsTraced(env, st, cs[..i], cs[i].item);
    assert forall j :: 0 <= j < i ==> cs[..i][j].seqNo < cs[i].seqNo;
    hide IndexedPulls;
  }

  /** In an ascending delivery the best change of an item is its last one that beats the start. */
  lemma BestIsLast(env: Env, st: Store, cs: seq<PullChange>, i: nat)
    requires Ascending(cs) && IsLast(cs, i)
    ensures Best(st, env, cs, cs[i].item) == if Beats(st, env, cs[i]) then Some(cs[i]) else None
  {
    var best := Best(st, env, cs, cs[i].item);
    if best.Some? {
      var j :| 0 <= j < |cs| && cs[j] == best.value;
      assert cs[i] in cs;
    }
    assert cs[i] in cs;
    forall d | d in cs && d.item == cs[i].item
      ensures d.seqNo <= cs[i].seqNo
    {
      var j :| 0 <= j < |cs| && cs[j] == d;
    }
  }

  /** The index lets the item's last change through, if it is one that counts. */
  predicate LetThrough(env: Env, st: Store, cs: seq<PullChange>, i: nat)
    requires i < |cs|
  {
    Beats(st, env, cs[i]) && IsLast(cs, i) ==> !Refused(env, IndexedPulls(env, st, cs[..i]), cs[i])
  }

  /** What one item comes to on the indexed table, decided by its last change. */
  lemma LastDecides(env: Env, st: Store, cs: seq<PullChange>, i: nat)
    requires Ascending(cs) && IsLast(cs, i)
    ensures var a, b, id := IndexedPulls(env, st, cs), ApplyPulls(env, st, cs), cs[i].item;
            && (LetThrough(env, st, cs, i) ==> AtStart(env, b, a, id))
            && (!LetThrough(env, st, cs, i) ==> id in b.items && (id in a.items ==> a.items[id] != b.items[id]))
  {
    var c, id := cs[i], cs[i].item;
    var mid := IndexedPulls(env, st, cs[..i]);
    AscendingPrefix(cs, i);
    PrefixStep(env, st, cs, i);
    hide IndexedPulls, ApplyPulls, Best, Ascending, AtStart, Traced, AgreesAt, Refused, Beats, IndexedPull;
    PullsReachBest(env, st, cs, id);
    BestIsLast(env, st, cs, i);
    BeatsWhatItMeets(env, st, cs, i);
    IndexedIsTraced(env, st, cs[..i], id);
    StaysAfterLast(env, st, cs, i + 1, id);
    LastStep(env, st, mid, cs[..i], c);
    Decide(env, st, mid, IndexedPull(env, mid, c), IndexedPulls(env, st, cs), ApplyPulls(env, st, cs), c);
  }

  lemma AscendingPrefix(cs: seq<PullChange>, i: nat)
    requires Ascending(cs) && i < |cs|
    ensures Ascending(cs[..i]) && forall j :: 0 <= j < i ==> cs[..i][j].seqNo < cs[i].seqNo
  {
  }

  lemma PrefixStep(env: Env, st: Store, cs: seq<PullChange>, i: nat)
    requires i < |cs|
    ensures IndexedPulls(env, st, cs[..i + 1]) == IndexedPull(env, IndexedPulls(env, st, cs[..i]), cs[i])
  {
    assert cs[..i + 1][..i] == cs[..i];
    hide IndexedPull;
  }

  /** From the table the last change meets to the end, in both tables. */
  lemma Decide(env: Env, st: Store, mid: Store, step: Store, a: Store, b: Store, c: PullChange)
    requires AgreesAt(env, st, b, c.item, if Beats(st, env, c) then Some(c) else None)
    requires AtStart(env, step, a, c.item)
    requires Beats(st, env, c) && !Refused(env, mid, c) ==> LandedFrom(env, st, step, c)
    requires !Beats(st, env, c) || Refused(env, mid, c) ==> step == mid
    requires Beats(st, env, c) && Refused(env, mid, c) && c.item in mid.items ==> mid.items[c.item].version < c.seqNo
    requires !Beats(st, env, c) ==> AtStart(env, st, mid, c.item)
    ensures Beats(st, env, c) ==> !Refused(env, mid, c) ==> AtStart(env, b, a, c.item)
    ensures !Beats(st, env, c) ==> AtStart(env, b, a, c.item)
    ensures Beats(st, env, c) && Refused(env, mid, c) ==>
              c.item in b.items && (c.item in a.items ==> a.items[c.item] != b.items[c.item])
  {
    hide Refused;
  }

  /** The step at the last change: written, it is what the start would make of it; else an older version stays. */
  lemma LastStep(env: Env, st: Store, mid: Store, front: seq<PullChange>, c: PullChange)
    requires Traced(env, st, mid, front, c.item) && forall j :: 0 <= j < |front| ==> front[j].seqNo < c.seqNo
    requires Beats(mid, env, c) <==> Beats(st, env, c)
    ensures Beats(st, env, c) && !Refused(env, mid, c) ==> LandedFrom(env, st, IndexedPull(env, mid, c), c)
    ensures !Beats(st, env, c) || Refused(env, mid, c) ==> IndexedPull(env, mid, c) == mid
    ensures Beats(st, env, c) && Refused(env, mid, c) && c.item in mid.items ==> mid.items[c.item].version < c.seqNo
    ensures !Beats(st, env, c) ==> AtStart(env, st, mid, c.item)
  {
    hide Clash;
  }

  lemma {:induction false} LastIndex(cs: seq<PullChange>, id: Uuid) returns (i: nat)
    requires exists c :: c in cs && c.item == id
    ensures IsLast(cs, i) && cs[i].item == id
    decreases |cs|
  {
    var n := |cs| - 1;
    if cs[n].item == id {
      i := n;
    } else {
      var c :| c in cs && c.item == id;
      assert c in cs[..n];
      i := LastIndex(cs[..n], id);
    }
  }

  /** An item that no change is about is as at the start in both tables. */
  lemma UnnamedAgrees(env: Env, st: Store, cs: seq<PullChange>, id: Uuid)
    requires Ascending(cs) && forall c :: c in cs ==> c.item != id
    ensures AtStart(env, ApplyPulls(env, st, cs), IndexedPulls(env, st, cs), id)
  {
    PullsReachBest(env, st, cs, id);
    assert Best(st, env, cs, id).None?;
    StaysAfterLast(env, st, cs, 0, id);
    assert cs[..0] == [];
    hide ApplyPulls, Best;
  }

  lemma ItemAgrees(env: Env, st: Store, cs: seq<PullChange>, id: Uuid)
    requires Ascending(cs) && forall i :: 0 <= i < |cs| ==> LetThrough(env, st, cs, i)
    ensures AtStart(env, ApplyPulls(env, st, cs), IndexedPulls(env, st, cs), id)
  {
    if exists c :: c in cs && c.item == id {
      var i := LastIndex(cs, id);
      hide IndexedPulls, ApplyPulls, AtStart;
      assert LetThrough(env, st, cs, i);
      LastDecides(env, st, cs, i);
    } else {
      UnnamedAgrees(env, st, cs, id);
    }
  }

  /** Histories of other storages never move. */
  lemma {:induction false} OtherHistoriesStay(env: Env, st: Store, cs: seq<PullChange>, key: (Uuid, Uuid))
    requires key.0 != env.storage
    ensures var end := IndexedPulls(env, st, cs);
            && (key in end.history <==> key in st.history)
            && (key in st.history ==> end.history[key] == st.history[key])
    decreases |cs|
  {
    if cs != [] {
      OtherHistoriesStay(env, st, cs[..|cs| - 1], key);
    }
  }

  /**
    Over every ascending delivery, as the server sends them, the index changes nothing if and only if it
    lets through, for every item, the last change of that item, where that is newer than what the cache
    started with. A change refused earlier on is made up for; a last one is lost.
   */
  lemma IndexedAgreesIff(env: Env, st: Store, cs: seq<PullChange>)
    requires Ascending(cs)
    ensures IndexedPulls(env, st, cs) == ApplyPulls(env, st, cs)
            <==> forall i :: 0 <= i < |cs| ==> LetThrough(env, st, cs, i)
    ensures IndexedPulls(env, st, cs).items == ApplyPulls(env, st, cs).items
            <==> forall i :: 0 <= i < |cs| ==> LetThrough(env, st, cs, i)
  {
    if forall i :: 0 <= i < |cs| ==> LetThrough(env, st, cs, i) {
      AllThroughAgrees(env, st, cs);
    } else {
      var i :| 0 <= i < |cs| && !LetThrough(env, st, cs, i);
      hide IndexedPulls, ApplyPulls;
      LastDecides(env, st, cs, i);
    }
  }

  lemma AllThroughAgrees(env: Env, st: Store, cs: seq<PullChange>)
    requires Ascending(cs) && forall i :: 0 <= i < |cs| ==> LetThrough(env, st, cs, i)
    ensures IndexedPulls(env, st, cs) == ApplyPulls(env, st, cs)
  {
    var a, b := IndexedPulls(env, st, cs), ApplyPulls(env, st, cs);
    hide IndexedPulls, ApplyPulls, LetThrough;
    forall id: Uuid
      ensures id in a.items <==> id in b.items
      ensures id in a.items ==> a.items[id] == b.items[id]
    {
      ItemAgrees(env, st, cs, id);
    }
    forall key: (Uuid, Uuid)
      ensures key in a.history <==> key in b.history
      ensures key in a.history ==> a.history[key] == b.history[key]
    {
      if key.0 != env.storage {
        OtherHistoriesStay(env, st, cs, key);
        PullsKeepOtherHistories(env, st, cs, key);
      } else {
        ItemAgrees(env, st, cs, key.1);
        assert key == (env.storage, key.1);
      }
    }
    assert a.items == b.items && a.history == b.history;
  }

  // ----- two consequences

  /** Live paths differ between the changes, and between the changes and the rows of other items. */
  predicate PathsApart(env: Env, st: Store, cs: seq<PullChange>) {
    && (forall c, d :: c in cs && d in cs && c.item != d.item && c.deletedAt.None? && d.deletedAt.None?
          ==> c.path != d.path)
    && (forall c, id :: c in cs && id in st.items && id != c.item && c.deletedAt.None?
                        && st.items[id].deletedAt.None? && st.items[id].storage == env.storage
          ==> c.path != st.items[id].path)
  }

  /** Each row is still the start row, or carries the path and deletion mark of a change of its item. */
  predicate RowsTraceable(env: Env, st: Store, mid: Store, cs: seq<PullChange>) {
    forall id :: id in mid.items ==>
      || (id in st.items && mid.items[id] == st.items[id])
      || (exists d :: d in cs && d.item == id && mid.items[id].path == d.path && mid.items[id].deletedAt == d.deletedAt)
  }

  lemma {:induction false} PullsAreTraceable(env: Env, st: Store, cs: seq<PullChange>)
    ensures RowsTraceable(env, st, ApplyPulls(env, st, cs), cs)
    decreases |cs|
  {
    if cs != [] {
      var front, c := cs[..|cs| - 1], cs[|cs| - 1];
      PullsAreTraceable(env, st, front);
      var mid, end := ApplyPulls(env, st, front), ApplyPulls(env, st, cs);
      assert c in cs && forall d :: d in front ==> d in cs;
      forall id | id in end.items
        ensures (id in st.items && end.items[id] == st.items[id])
             || (exists d :: d in cs && d.item == id && end.items[id].path == d.path
                             && end.items[id].deletedAt == d.deletedAt)
      {
        if id == c.item && end != mid {
          assert end.items[id].path == c.path && end.items[id].deletedAt == c.deletedAt;
        }
      }
    }
  }

  /** When live paths are apart, the index never refuses and pulls are the plain join. */
  lemma {:induction false} ApartPathsAreNeverRefused(env: Env, st: Store, cs: seq<PullChange>)
    requires PathsApart(env, st, cs)
    ensures IndexedPulls(env, st, cs) == ApplyPulls(env, st, cs)
    decreases |cs|
  {
    if cs != [] {
      var front, c := cs[..|cs| - 1], cs[|cs| - 1];
      assert c in cs && forall d :: d in front ==> d in cs;
      ApartPathsAreNeverRefused(env, st, front);
      PullsAreTraceable(env, st, front);
      var mid := ApplyPulls(env, st, front);
      assert !Refused(env, mid, c);
    }
  }

  /**
    Delete and recreate. One item is deleted, another is created under the freed path, and the
    server's own live paths are unique. The deletion arrives as a live row, so the new item is
    refused: the replica never gets it, whatever it held before.
   */
  lemma RecreatedItemIsRefused(env: Env, s: Server, st: Store, gone: LogEntry, born: LogEntry)
    requires gone.item in s.items && born.item in s.items && gone.item != born.item
    requires s.items[gone.item].path == s.items[born.item].path
    requires gone.op == Delete && Beats(st, env, Served(s, gone)) && !Refused(env, st, Served(s, gone))
    requires born.item !in st.items
    requires gone.item in st.items ==> st.items[gone.item].vault == env.vault
    ensures born.item !in IndexedPulls(env, st, [Served(s, gone), Served(s, born)]).items
    ensures born.item in ApplyPulls(env, st, [Served(s, gone), Served(s, born)]).items
  {
    var c, d := Served(s, gone), Served(s, born);
    var cs := [c, d];
    assert cs[..1] == [c] && [c][..0] == [];
    var mid := IndexedPulls(env, st, [c]);
    assert IndexedPulls(env, st, [c][..0]) == st == ApplyPulls(env, st, [c][..0]);
    assert mid == ApplyPull(env, st, c) == ApplyPulls(env, st, [c]);
    assert gone.item in mid.items && mid.items[gone.item].deletedAt.None?;
    assert Refused(env, mid, d);
  }

  // ----- the index as an invariant

  /** What the index enforces: two live rows of one vault have different paths. */
  predicate UniqueLive(items: map<Uuid, Item>) {
    forall a, b :: a in items && b in items && a != b && items[a].deletedAt == None && items[b].deletedAt == None
                   && items[a].storage == items[b].storage && items[a].vault == items[b].vault
                   ==> items[a].path != items[b].path
  }

  /** A row can be written if and only if the table stays one the index allows. */
  lemma ClashIffBroken(items: map<Uuid, Item>, id: Uuid, row: Item)
    requires UniqueLive(items)
    ensures Clash(items, id, row) <==> !UniqueLive(items[id := row])
  {
    var after := items[id := row];
    if Clash(items, id, row) {
      var other :| other in items && other != id && items[other].deletedAt.None?
                   && items[other].storage == row.storage && items[other].vault == row.vault
                   && items[other].path == row.path;
      assert other in after && after[other] == items[other] && after[id] == row;
    }
  }

  /**
    Over any delivery the index holds, and a change is refused exactly when the write the plain table
    would make of it breaks the index.
   */
  lemma {:induction false} IndexHolds(env: Env, st: Store, cs: seq<PullChange>)
    requires UniqueLive(st.items)
    ensures UniqueLive(IndexedPulls(env, st, cs).items)
    ensures forall i :: 0 <= i < |cs| ==>
              var mid := IndexedPulls(env, st, cs[..i]);
              IndexedPulls(env, st, cs[..i + 1])
              == if UniqueLive(ApplyPull(env, mid, cs[i]).items) then ApplyPull(env, mid, cs[i]) else mid
    decreases |cs|
  {
    hide UniqueLive, ApplyPull, IndexedPull;
    if cs != [] {
      var n := |cs| - 1;
      IndexHolds(env, st, cs[..n]);
      OneIndexed(env, IndexedPulls(env, st, cs[..n]), cs[n]);
      assert cs[..n + 1] == cs;
      forall i | 0 <= i < n
        ensures var mid := IndexedPulls(env, st, cs[..i]);
                IndexedPulls(env, st, cs[..i + 1])
                == if UniqueLive(ApplyPull(env, mid, cs[i]).items) then ApplyPull(env, mid, cs[i]) else mid
      {
        assert cs[..n][..i] == cs[..i] && cs[..n][..i + 1] == cs[..i + 1] && cs[..n][i] == cs[i];
      }
    }
  }

  lemma OneIndexed(env: Env, st: Store, c: PullChange)
    requires UniqueLive(st.items)
    ensures IndexedPull(env, st, c) == if UniqueLive(ApplyPull(env, st, c).items) then ApplyPull(env, st, c) else st
    ensures UniqueLive(IndexedPull(env, st, c).items)
  {
    ClashIffBroken(st.items, c.item, LandedRow(env, st, c));
    hide UniqueLive, Clash;
  }
}
