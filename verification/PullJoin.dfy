/**
  Pulling is a join: the cache after any number of changes is, item by item, the start row
  overlaid with the newest change that beats it. Order, repetition and page boundaries of the
  delivery leave no trace (crates/zann-client/src/sync_helpers.rs:279-386).
 */
module PullJoin {
  import opened Base
  import opened ReplicaModel

  /** One item and sequence number always carry the same content. */
  predicate WellFormed(cs: seq<PullChange>) {
    forall i, j :: 0 <= i < |cs| && 0 <= j < |cs| && cs[i].item == cs[j].item && cs[i].seqNo == cs[j].seqNo
                   ==> cs[i] == cs[j]
  }

  /** The change is newer than what the cache starts with. */
  predicate Beats(st: Store, env: Env, c: PullChange) {
    c.item in st.items ==> st.items[c.item].storage == env.storage && st.items[c.item].version < c.seqNo
  }

  /** `c` is the newest delivered change of its item, and it beats the start row. */
  predicate Newest(st: Store, env: Env, cs: seq<PullChange>, c: PullChange) {
    && c in cs
    && Beats(st, env, c)
    && forall d :: d in cs && d.item == c.item ==> d.seqNo <= c.seqNo
  }

  /** What a change makes of the row and history of its item, starting from `st`. */
  function LandedRow(env: Env, st: Store, c: PullChange): Item {
    if c.item in st.items then Overwritten(env, st.items[c.item], c) else Inserted(env, c)
  }

  /** The newest beating change of item `id` met so far while scanning the delivery. */
  function Best(st: Store, env: Env, cs: seq<PullChange>, id: Uuid): (r: Option<PullChange>)
    ensures r.Some? ==> r.value.item == id && Newest(st, env, cs, r.value)
    ensures r.None? ==> forall d :: d in cs && d.item == id ==> !Beats(st, env, d)
    decreases |cs|
  {
    if cs == [] then None
    else
      var c := cs[|cs| - 1];
      var best := Best(st, env, cs[..|cs| - 1], id);
      assert forall d :: d in cs <==> d in cs[..|cs| - 1] || d == c;
      if c.item == id && Beats(st, env, c) && (best.None? || best.value.seqNo < c.seqNo) then Some(c)
      else best
  }

  /** The cache reached from `st` agrees at `id` with the start overlaid by `best`. */
  predicate AgreesAt(env: Env, st: Store, end: Store,
                     id: Uuid, best: Option<PullChange>)
  {
    match best
    case Some(c) =>
      && id in end.items && end.items[id] == LandedRow(env, st, c)
      && (env.storage, id) in end.history && end.history[(env.storage, id)] == c.history
    case None =>
      && (id in end.items <==> id in st.items)
      && (id in st.items ==> end.items[id] == st.items[id])
      && ((env.storage, id) in end.history <==> (env.storage, id) in st.history)
      && ((env.storage, id) in st.history ==> end.history[(env.storage, id)] == st.history[(env.storage, id)])
  }

  lemma {:induction false} PullsReachBest(env: Env, st: Store,
                                          cs: seq<PullChange>, id: Uuid)
    ensures AgreesAt(env, st, ApplyPulls(env, st, cs), id,
                     Best(st, env, cs, id))
    decreases |cs|
  {
    if cs != [] {
      PullsReachBest(env, st, cs[..|cs| - 1], id);
    }
  }

  /** Histories of other storages never move. */
  lemma {:induction false} PullsKeepOtherHistories(env: Env,
                                                   st: Store, cs: seq<PullChange>, key: (Uuid, Uuid))
    requires key.0 != env.storage
    ensures var end := ApplyPulls(env, st, cs);
            && (key in end.history <==> key in st.history)
            && (key in st.history ==> end.history[key] == st.history[key])
    decreases |cs|
  {
    if cs != [] {
      PullsKeepOtherHistories(env, st, cs[..|cs| - 1], key);
    }
  }

  /**
    Pull is a join. After any well-formed delivery each item holds exactly the content and the
    history of the one change with the highest sequence number above its starting version, and an
    item that no change beats is untouched.
   */
  lemma PullIsJoin(env: Env, st: Store, cs: seq<PullChange>)
    requires WellFormed(cs)
    ensures var end := ApplyPulls(env, st, cs);
            && (forall c :: Newest(st, env, cs, c) ==>
                  AgreesAt(env, st, end, c.item, Some(c)))
            && (forall id :: (forall c :: c in cs && c.item == id ==> !Beats(st, env, c)) ==>
                  AgreesAt(env, st, end, id, None))
  {
    var end := ApplyPulls(env, st, cs);
    forall c | Newest(st, env, cs, c)
      ensures AgreesAt(env, st, end, c.item, Some(c))
    {
      PullsReachBest(env, st, cs, c.item);
      var best := Best(st, env, cs, c.item);
      assert best.Some? && best.value == c;
    }
    forall id | forall c :: c in cs && c.item == id ==> !Beats(st, env, c)
      ensures AgreesAt(env, st, end, id, None)
    {
      PullsReachBest(env, st, cs, id);
    }
  }

  lemma BestBySet(st: Store, env: Env, cs: seq<PullChange>, ds: seq<PullChange>, id: Uuid)
    requires WellFormed(cs)
    requires forall c :: c in cs <==> c in ds
    ensures Best(st, env, cs, id) == Best(st, env, ds, id)
  {
    var a, b := Best(st, env, cs, id), Best(st, env, ds, id);
    if a.Some? && b.Some? {
      assert a.value in cs && b.value in cs;
    }
  }

  /**
    Delivery does not matter: two deliveries of the same changes, in any order, with any
    repetition and cut into pages in any way, leave equal caches.
   */
  lemma DeliveryIsIrrelevant(env: Env, st: Store,
                             cs: seq<PullChange>, ds: seq<PullChange>)
    requires WellFormed(cs)
    requires forall c :: c in cs <==> c in ds
    ensures ApplyPulls(env, st, cs) == ApplyPulls(env, st, ds)
  {
    var x, y := ApplyPulls(env, st, cs), ApplyPulls(env, st, ds);
    forall id: Uuid
      ensures id in x.items <==> id in y.items
      ensures id in x.items ==> x.items[id] == y.items[id]
      ensures (env.storage, id) in x.history <==> (env.storage, id) in y.history
      ensures (env.storage, id) in x.history ==> x.history[(env.storage, id)] == y.history[(env.storage, id)]
    {
      PullsReachBest(env, st, cs, id);
      PullsReachBest(env, st, ds, id);
      BestBySet(st, env, cs, ds, id);
    }
    assert x.items == y.items;
    forall key: (Uuid, Uuid)
      ensures key in x.history <==> key in y.history
      ensures key in x.history ==> x.history[key] == y.history[key]
    {
      if key.0 != env.storage {
        PullsKeepOtherHistories(env, st, cs, key);
        PullsKeepOtherHistories(env, st, ds, key);
      } else {
        assert key == (env.storage, key.1);
      }
    }
    assert x.history == y.history;
  }

  /** What the cache keeps of an earlier row of the item: its vault and its cache-key fingerprint. */
  predicate KeepsHome(env: Env, st: Store, id: Uuid, row: Item) {
    && row.storage == env.storage
    && (id in st.items ==> row.vault == st.items[id].vault && row.cacheKeyFp == st.items[id].cacheKeyFp)
    && (id !in st.items ==> row.vault == env.vault && row.cacheKeyFp == None)
  }

  /** Every field the row takes over from a change, with the defaults for what the change leaves out. */
  predicate ShowsChange(env: Env, row: Item, c: PullChange) {
    && row.path == c.path && row.name == c.name && row.typeId == c.typeId
    && row.payload == (match c.payload case Some(p) => p case None => [])
    && (c.checksum != "" ==> row.checksum == c.checksum)
    && (c.checksum == "" ==>
          row.checksum == if c.payload == None || c.payload == Some([]) then "" else env.hash(row.payload))
    && row.version == c.seqNo && row.updatedAt == c.updatedAt && row.deletedAt == c.deletedAt
    && row.status == (if c.deletedAt == None then Synced else Tombstone)
  }

  /**
    A delivery, field by field. Of the changes of one item let `c` be the one with the highest number.
    If the cache has no row of the item, or an older one of the same storage, the row ends up with the
    content of `c` and the item with its history. Otherwise row and history stay.
   */
  lemma DeliveredRowIs(env: Env, st: Store, cs: seq<PullChange>, c: PullChange)
    requires WellFormed(cs) && c in cs && forall d :: d in cs && d.item == c.item ==> d.seqNo <= c.seqNo
    ensures var end := ApplyPulls(env, st, cs);
            var kept := c.item in st.items && (st.items[c.item].storage != env.storage
                                               || st.items[c.item].version >= c.seqNo);
            if kept then
              && c.item in end.items && end.items[c.item] == st.items[c.item]
              && ((env.storage, c.item) in end.history <==> (env.storage, c.item) in st.history)
              && ((env.storage, c.item) in st.history ==>
                    end.history[(env.storage, c.item)] == st.history[(env.storage, c.item)])
            else
              && c.item in end.items && KeepsHome(env, st, c.item, end.items[c.item])
              && ShowsChange(env, end.items[c.item], c)
              && (env.storage, c.item) in end.history && end.history[(env.storage, c.item)] == c.history
  {
    hide ApplyPulls;
    PullIsJoin(env, st, cs);
    if Beats(st, env, c) {
      assert Newest(st, env, cs, c);
    } else {
      assert forall d :: d in cs && d.item == c.item ==> !Beats(st, env, d);
      PullsReachBest(env, st, cs, c.item);
      assert AgreesAt(env, st, ApplyPulls(env, st, cs), c.item, None);
    }
  }
}
