/**
  The local cache of one client: rows of `items_cache` and `item_history`, and what each
  sync step does to them (crates/zann-client/src/sync_helpers.rs).

  Timestamps and identifiers arrive already parsed. `hash` stands for the BLAKE3 checksum.
 */
module ReplicaModel {
  import opened Base

  /** What one sync of one vault runs with. */
  datatype Env = Env(hash: Bytes -> string, storage: Uuid, vault: Uuid)

  datatype SyncStatus = Active | Tombstone | Modified | LocalDeleted | Conflict | Synced

  datatype Item = Item(
    storage: Uuid, vault: Uuid, path: string, name: string, typeId: string, payload: Bytes,
    checksum: string, cacheKeyFp: Option<string>, version: int, deletedAt: Option<Time>,
    updatedAt: Time, status: SyncStatus)

  datatype HistoryEntry = HistoryEntry(
    vault: Uuid, payload: Bytes, checksum: string, version: int, changeType: int,
    changedByEmail: string, changedByName: Option<string>, createdAt: Time)

  /** Rows of `items_cache` by primary key, and of `item_history` by storage and item. */
  datatype Store = Store(items: map<Uuid, Item>, history: map<(Uuid, Uuid), seq<HistoryEntry>>)

  /** One change of a pull reply. */
  datatype PullChange = PullChange(
    item: Uuid, seqNo: int, updatedAt: Time, deletedAt: Option<Time>, path: string, name: string,
    typeId: string, payload: Option<Bytes>, checksum: string, history: seq<HistoryEntry>)

  /** One entry of `applied_changes` in a push reply. */
  datatype AppliedChange = AppliedChange(item: Uuid, seqNo: int, updatedAt: Time, deletedAt: Option<Time>)

  /** `get_by_id`: a row counts only inside its own storage. */
  function GetById(items: map<Uuid, Item>, storage: Uuid, id: Uuid): Option<Item> {
    if id in items && items[id].storage == storage then Some(items[id]) else None
  }

  /** The status a row takes from the server. */
  function RemoteStatus(deletedAt: Option<Time>): SyncStatus {
    if deletedAt.Some? then Tombstone else Synced
  }

  function PulledPayload(c: PullChange): Bytes {
    match c.payload
    case Some(p) => p
    case None => []
  }

  function PulledChecksum(env: Env, c: PullChange): string {
    if c.checksum != "" then c.checksum
    else if PulledPayload(c) == [] then ""
    else env.hash(PulledPayload(c))
  }

  /** A row overwritten by a change keeps its storage, its vault and its cache-key fingerprint. */
  function Overwritten(env: Env, row: Item, c: PullChange): Item {
    row.(path := c.path, name := c.name, typeId := c.typeId, payload := PulledPayload(c),
         checksum := PulledChecksum(env, c), version := c.seqNo, updatedAt := c.updatedAt,
         deletedAt := c.deletedAt, status := RemoteStatus(c.deletedAt))
  }

  /** The row a change creates. */
  function Inserted(env: Env, c: PullChange): Item {
    Item(env.storage, env.vault, c.path, c.name, c.typeId, PulledPayload(c), PulledChecksum(env, c), None,
         c.seqNo, c.deletedAt, c.updatedAt, RemoteStatus(c.deletedAt))
  }

  /** The two writes of an accepted change: its row, and the item's whole history replaced. */
  function WriteChange(st: Store, storage: Uuid, row: Item, c: PullChange): Store {
    Store(st.items[c.item := row], st.history[(storage, c.item) := c.history])
  }

  /**
    `apply_pull_change`. A row that is at least as new is kept; an identifier that already
    belongs to another storage cannot be inserted again (primary key), so nothing changes.
   */
  function ApplyPull(env: Env, st: Store, c: PullChange): Store {
    match GetById(st.items, env.storage, c.item)
    case Some(row) =>
      if row.version >= c.seqNo then st
      else WriteChange(st, env.storage, Overwritten(env, row, c), c)
    case None =>
      if c.item in st.items then st
      else WriteChange(st, env.storage, Inserted(env, c), c)
  }

  function Acked(row: Item, a: AppliedChange): Item {
    row.(updatedAt := a.updatedAt, deletedAt := a.deletedAt, version := a.seqNo, status := RemoteStatus(a.deletedAt))
  }

  /** One iteration of `apply_push_applied`: an acknowledged row takes the server's sequence number. */
  function ApplyAck(storage: Uuid, items: map<Uuid, Item>, a: AppliedChange): map<Uuid, Item> {
    match GetById(items, storage, a.item)
    case Some(row) =>
      items[a.item := Acked(row, a)]
    case None => items
  }

  function ApplyAcks(storage: Uuid, items: map<Uuid, Item>, acks: seq<AppliedChange>): map<Uuid, Item>
    decreases |acks|
  {
    if acks == [] then items
    else ApplyAck(storage, ApplyAcks(storage, items, acks[..|acks| - 1]), acks[|acks| - 1])
  }

  /** The last acknowledgement of an item. */
  function LastAck(acks: seq<AppliedChange>, id: Uuid): (r: Option<AppliedChange>)
    ensures r.Some? ==> r.value in acks && r.value.item == id
    ensures r.None? ==> forall a :: a in acks ==> a.item != id
    decreases |acks|
  {
    if acks == [] then None
    else if acks[|acks| - 1].item == id then Some(acks[|acks| - 1])
    else LastAck(acks[..|acks| - 1], id)
  }

  /** Acknowledgements look a row up by storage and item, whatever its vault. */
  lemma {:induction false} AcksReach(storage: Uuid, items: map<Uuid, Item>, acks: seq<AppliedChange>, id: Uuid)
    ensures var after := ApplyAcks(storage, items, acks);
            && (id in after <==> id in items)
            && (id in items ==>
                  after[id] == if items[id].storage == storage && LastAck(acks, id).Some?
                               then Acked(items[id], LastAck(acks, id).value) else items[id])
    decreases |acks|
  {
    if acks != [] {
      AcksReach(storage, items, acks[..|acks| - 1], id);
    }
  }

  /** All changes of one or more pages, in delivery order. */
  function ApplyPulls(env: Env, st: Store, cs: seq<PullChange>): Store
    decreases |cs|
  {
    if cs == [] then st
    else ApplyPull(env,
                   ApplyPulls(env, st, cs[..|cs| - 1]), cs[|cs| - 1])
  }

  lemma {:induction false} ApplyPullsConcat(env: Env, st: Store,
                                            cs: seq<PullChange>, ds: seq<PullChange>)
    ensures ApplyPulls(env, st, cs + ds)
            == ApplyPulls(env, ApplyPulls(env, st, cs), ds)
    decreases |ds|
  {
    if ds == [] {
      assert cs + ds == cs;
    } else {
      var last := |cs + ds| - 1;
      assert (cs + ds)[..last] == cs + ds[..|ds| - 1];
      ApplyPullsConcat(env, st, cs, ds[..|ds| - 1]);
    }
  }

  /**
    The push reply, field by field: the last acknowledgement of a row of this storage gives it number,
    time, deletion mark and status. Its content stays, and so does every other row.
   */
  lemma AckedRowIs(storage: Uuid, items: map<Uuid, Item>, acks: seq<AppliedChange>, i: nat)
    requires i < |acks| && forall j :: i < j < |acks| ==> acks[j].item != acks[i].item
    ensures var after, a := ApplyAcks(storage, items, acks), acks[i];
            && after.Keys == items.Keys
            && (a.item in items && items[a.item].storage == storage ==>
                  && after[a.item].version == a.seqNo && after[a.item].updatedAt == a.updatedAt
                  && after[a.item].deletedAt == a.deletedAt
                  && after[a.item].status == (if a.deletedAt == None then Synced else Tombstone)
                  && items[a.item] == after[a.item].(version := items[a.item].version,
                                                     updatedAt := items[a.item].updatedAt,
                                                     deletedAt := items[a.item].deletedAt,
                                                     status := items[a.item].status))
            && (forall id :: id in items && (items[id].storage != storage || forall b :: b in acks ==> b.item != id) ==>
                  after[id] == items[id])
  {
    var after, a := ApplyAcks(storage, items, acks), acks[i];
    LastAckAt(acks, i);
    hide ApplyAcks, LastAck;
    forall id
      ensures id in after <==> id in items
      ensures id in items && (items[id].storage != storage || forall b :: b in acks ==> b.item != id) ==>
                after[id] == items[id]
    {
      AcksReach(storage, items, acks, id);
    }
    AcksReach(storage, items, acks, a.item);
  }

  lemma {:induction false} LastAckAt(acks: seq<AppliedChange>, i: nat)
    requires i < |acks| && forall j :: i < j < |acks| ==> acks[j].item != acks[i].item
    ensures LastAck(acks, acks[i].item) == Some(acks[i])
    decreases |acks|
  {
    if i < |acks| - 1 {
      LastAckAt(acks[..|acks| - 1], i);
    }
  }
}
