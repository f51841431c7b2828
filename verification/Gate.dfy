/**
  One `remote_sync` over all vaults, and the master-key gate in front of the personal ones
  (crates/zann-client/src/sync.rs:42-49, 95-124, 153-476). Network results are inputs.
 */
module Gate {
  import opened Base
  import opened ReplicaModel
  import opened PullJoin
  import opened ConflictStep
  import opened PushQueue

  datatype KeyWrap = Master | RemoteServer | RemoteStrict

  datatype LocalVault = LocalVault(keyEnc: Bytes, wrap: KeyWrap)

  /** A vault as the server lists it. */
  datatype VaultDetail = VaultDetail(id: Uuid, serverEncrypted: bool, shared: bool, keyEnc: Bytes)

  datatype PushResult = PushFails | PushReplies(reply: PushReply, draw: nat -> Draw)

  /** The pages of a vault until the loop leaves: with a cursor to save, or aborted by a bad reply. */
  datatype PullResult = Pulled(changes: seq<PullChange>, cursor: int) | Aborted(changes: seq<PullChange>)

  /** Everything one run exchanges about one vault. */
  datatype Traffic = Traffic(
    keyStored: bool, newKey: Bytes, listing: seq<Pending>, push: PushResult, pull: PullResult)

  datatype Cache = Cache(
    store: Store, pending: PendingTable, cursors: map<(Uuid, Uuid), int>, vaults: map<(Uuid, Uuid), LocalVault>)

  /** The master key of a run: its fingerprint, and which sealed vault keys it opens. */
  datatype MasterKey = MasterKey(fingerprint: string, opens: (Uuid, Bytes) -> bool)

  /** The pinned fingerprint admits this key. */
  predicate Allowed(pinned: Option<string>, key: MasterKey) {
    pinned.Some? ==> pinned.value == key.fingerprint
  }

  /** The loop state of a run. */
  datatype Sync = Sync(cache: Cache, pinned: Option<string>, locked: seq<Uuid>)

  /** A run ends normally, or leaves early with an error and without saving the fingerprint. */
  datatype Outcome = Finished(sync: Sync) | Stopped(sync: Sync)

  predicate IsShared(d: VaultDetail) {
    d.serverEncrypted && d.shared
  }

  function SetVault(c: Cache, storage: Uuid, id: Uuid, v: LocalVault): Cache {
    c.(vaults := c.vaults[(storage, id) := v])
  }

  /** First loop: a personal vault without any key gets a fresh one, unless the gate is closed. */
  function SetupVault(storage: Uuid, key: MasterKey, allowed: bool, s: Sync, d: VaultDetail, t: Traffic): Outcome {
    if d.serverEncrypted || d.shared then Finished(s)
    else if !allowed then Finished(s.(locked := s.locked + [d.id]))
    else if d.keyEnc != [] || (storage, d.id) !in s.cache.vaults
            || s.cache.vaults[(storage, d.id)].keyEnc != [] then Finished(s)
    else if !t.keyStored then Stopped(s)
    else Finished(s.(pinned := Some(key.fingerprint),
                     cache := SetVault(s.cache, storage, d.id, LocalVault(t.newKey, RemoteStrict))))
  }

  /** The local vault with the wrap the server's listing asks for. */
  function Rewrapped(v: LocalVault, d: VaultDetail): LocalVault {
    var desired := if IsShared(d) then RemoteServer else RemoteStrict;
    if v.wrap == desired then v
    else LocalVault(if desired == RemoteServer then [] else v.keyEnc, desired)
  }

  /** Push the queue and reconcile the reply. */
  function PushVault(env: Env, c: Cache, t: Traffic): Option<Cache> {
    if t.listing == [] then Some(c)
    else match t.push
      case PushFails => None
      case PushReplies(reply, draw) =>
        var acked := ApplyAcks(env.storage, c.store.items, reply.appliedChanges);
        Some(c.(store := c.store.(items := ApplyConflicts(env, acked, t.listing, reply.conflicts, draw)),
                pending := Reconciled(c.pending, t.listing, reply)))
  }

  function SyncVault(env: Env, s: Sync, t: Traffic): Outcome {
    match PushVault(env, s.cache, t)
    case None => Stopped(s)
    case Some(c) =>
      match t.pull
      case Aborted(changes) => Stopped(s.(cache := c.(store := ApplyPulls(env, c.store, changes))))
      case Pulled(changes, cursor) =>
        Finished(s.(cache := c.(store := ApplyPulls(env, c.store, changes),
                                cursors := c.cursors[(env.storage, env.vault) := cursor])))
  }

  /** Second loop: one vault's turn. */
  function VaultTurn(hash: Bytes -> string, storage: Uuid, key: MasterKey, allowed: bool, s: Sync,
                     d: VaultDetail, t: Traffic): Outcome
  {
    if (storage, d.id) !in s.cache.vaults then Finished(s)
    else
      var local := s.cache.vaults[(storage, d.id)];
      var s1 := s.(cache := SetVault(s.cache, storage, d.id, Rewrapped(local, d)));
      if IsShared(d) then SyncVault(Env(hash, storage, d.id), s1, t)
      else if !allowed || !key.opens(d.id, local.keyEnc) then Finished(s1.(locked := s1.locked + [d.id]))
      else SyncVault(Env(hash, storage, d.id), s1.(pinned := Some(key.fingerprint)), t)
  }

  function SetupAll(storage: Uuid, key: MasterKey, allowed: bool, s: Sync, ds: seq<VaultDetail>,
                    ts: seq<Traffic>): Outcome
    requires |ts| == |ds|
    decreases |ds|
  {
    if ds == [] then Finished(s)
    else match SetupVault(storage, key, allowed, s, ds[0], ts[0])
      case Stopped(s1) => Stopped(s1)
      case Finished(s1) => SetupAll(storage, key, allowed, s1, ds[1..], ts[1..])
  }

  function TurnAll(hash: Bytes -> string, storage: Uuid, key: MasterKey, allowed: bool, s: Sync,
                   ds: seq<VaultDetail>, ts: seq<Traffic>): Outcome
    requires |ts| == |ds|
    decreases |ds|
  {
    if ds == [] then Finished(s)
    else match VaultTurn(hash, storage, key, allowed, s, ds[0], ts[0])
      case Stopped(s1) => Stopped(s1)
      case Finished(s1) => TurnAll(hash, storage, key, allowed, s1, ds[1..], ts[1..])
  }

  /** `remote_sync` from the vault listing on. */
  function RemoteSync(hash: Bytes -> string, storage: Uuid, key: MasterKey, cache: Cache, pinned: Option<string>,
                      ds: seq<VaultDetail>, ts: seq<Traffic>): Outcome
    requires |ts| == |ds|
  {
    var allowed := Allowed(pinned, key);
    match SetupAll(storage, key, allowed, Sync(cache, pinned, []), ds, ts)
    case Stopped(s) => Stopped(s)
    case Finished(s) => TurnAll(hash, storage, key, allowed, s, ds, ts)
  }

  /** The fingerprint the configuration holds after a run. */
  function PinnedAfter(pinned: Option<string>, o: Outcome): Option<string> {
    match o
    case Finished(s) => s.pinned
    case Stopped(_) => pinned
  }

  // ----- the fingerprint

  /** While a run is under way the fingerprint is the one it found, or newly that of an admitted key. */
  predicate PinOk(key: MasterKey, allowed: bool, pinned: Option<string>, s: Sync) {
    s.pinned == pinned || (allowed && s.pinned == Some(key.fingerprint))
  }

  lemma {:induction false} SetupPins(storage: Uuid, key: MasterKey, allowed: bool, pinned: Option<string>, s: Sync,
                                     ds: seq<VaultDetail>, ts: seq<Traffic>)
    requires |ts| == |ds| && PinOk(key, allowed, pinned, s)
    ensures PinOk(key, allowed, pinned, SetupAll(storage, key, allowed, s, ds, ts).sync)
    decreases |ds|
  {
    if ds != [] {
      var o := SetupVault(storage, key, allowed, s, ds[0], ts[0]);
      if o.Finished? {
        SetupPins(storage, key, allowed, pinned, o.sync, ds[1..], ts[1..]);
      }
    }
  }

  lemma {:induction false} TurnsPin(hash: Bytes -> string, storage: Uuid, key: MasterKey, allowed: bool,
                                    pinned: Option<string>, s: Sync, ds: seq<VaultDetail>, ts: seq<Traffic>)
    requires |ts| == |ds| && PinOk(key, allowed, pinned, s)
    ensures PinOk(key, allowed, pinned, TurnAll(hash, storage, key, allowed, s, ds, ts).sync)
    decreases |ds|
  {
    if ds != [] {
      var o := VaultTurn(hash, storage, key, allowed, s, ds[0], ts[0]);
      if o.Finished? {
        TurnsPin(hash, storage, key, allowed, pinned, o.sync, ds[1..], ts[1..]);
      }
    }
  }

  /** One run sets the fingerprint only when none was set, and only to its own key's. */
  lemma RunPins(hash: Bytes -> string, storage: Uuid, key: MasterKey, cache: Cache, pinned: Option<string>,
                ds: seq<VaultDetail>, ts: seq<Traffic>)
    requires |ts| == |ds|
    ensures var after := PinnedAfter(pinned, RemoteSync(hash, storage, key, cache, pinned, ds, ts));
            && (pinned.Some? ==> after == pinned)
            && (after.None? || after == pinned || after == Some(key.fingerprint))
            && (RemoteSync(hash, storage, key, cache, pinned, ds, ts).Stopped? ==> after == pinned)
  {
    var allowed := Allowed(pinned, key);
    var s := Sync(cache, pinned, []);
    SetupPins(storage, key, allowed, pinned, s, ds, ts);
    var o := SetupAll(storage, key, allowed, s, ds, ts);
    TurnsPin(hash, storage, key, allowed, pinned, o.sync, ds, ts);
  }

  /** One sync of a longer history: its key, its listing, its traffic, and the cache it meets. */
  datatype SyncRun = SyncRun(storage: Uuid, key: MasterKey, cache: Cache, ds: seq<VaultDetail>, ts: seq<Traffic>)

  predicate WellFormedRun(r: SyncRun) {
    |r.ts| == |r.ds|
  }

  function PinnedAfterRuns(hash: Bytes -> string, pinned: Option<string>, runs: seq<SyncRun>): Option<string>
    requires forall r :: r in runs ==> WellFormedRun(r)
    decreases |runs|
  {
    if runs == [] then pinned
    else
      var r := runs[0];
      assert r in runs && WellFormedRun(r);
      PinnedAfterRuns(hash, PinnedAfter(pinned, RemoteSync(hash, r.storage, r.key, r.cache, pinned, r.ds, r.ts)),
                      runs[1..])
  }

  /** Across any sequence of syncs with any master keys, a fingerprint once set never changes. */
  lemma {:induction false} PinnedForever(hash: Bytes -> string, pinned: Option<string>, runs: seq<SyncRun>)
    requires forall r :: r in runs ==> WellFormedRun(r)
    requires pinned.Some?
    ensures PinnedAfterRuns(hash, pinned, runs) == pinned
    decreases |runs|
  {
    if runs != [] {
      var r := runs[0];
      assert r in runs && WellFormedRun(r);
      RunPins(hash, r.storage, r.key, r.cache, pinned, r.ds, r.ts);
      PinnedForever(hash, pinned, runs[1..]);
    }
  }

  // ----- locked vaults

  /** Row and history of an item are as before. */
  predicate RowKept(storage: Uuid, before: Store, after: Store, id: Uuid) {
    && (id in after.items <==> id in before.items)
    && (id in before.items ==> after.items[id] == before.items[id])
    && ((storage, id) in after.history <==> (storage, id) in before.history)
    && ((storage, id) in before.history ==> after.history[(storage, id)] == before.history[(storage, id)])
  }

  predicate InVault(storage: Uuid, vault: Uuid, p: Pending) {
    p.storage == storage && p.vault == vault
  }

  /** Items, history, queue and cursor of vault `w` are as before. `owner` maps items to vaults. */
  ghost predicate Untouched(storage: Uuid, owner: Uuid -> Uuid, before: Cache, after: Cache, w: Uuid) {
    && (forall id :: owner(id) == w ==> RowKept(storage, before.store, after.store, id))
    && (forall id :: id in before.pending && InVault(storage, w, before.pending[id]) ==>
          id in after.pending && after.pending[id] == before.pending[id])
    && (forall id :: id in after.pending ==> id in before.pending)
    && ((storage, w) in after.cursors <==> (storage, w) in before.cursors)
    && ((storage, w) in before.cursors ==> after.cursors[(storage, w)] == before.cursors[(storage, w)])
  }

  // ----- when a turn reaches the rows of another vault

  /** Queue rows of vault `v` name items of `v`, and new ids belong to `v`: both are the client's own doing. */
  ghost predicate OwnQueue(owner: Uuid -> Uuid, storage: Uuid, v: Uuid, t: Traffic) {
    && (forall p :: p in t.listing ==> owner(p.item) == v && InVault(storage, v, p))
    && (t.push.PushReplies? ==> forall i: nat :: owner(t.push.draw(i).newId) == v)
  }

  /** The acknowledgements of a reply leave the row as it is: none is about it, or the last one repeats it. */
  predicate AcksSpare(storage: Uuid, items: map<Uuid, Item>, acks: seq<AppliedChange>, id: Uuid) {
    id in items && items[id].storage == storage && LastAck(acks, id).Some? ==>
      Acked(items[id], LastAck(acks, id).value) == items[id]
  }

  /** No change is newer than what the cache has of its item. */
  predicate ChangesSpare(env: Env, st: Store, cs: seq<PullChange>, id: Uuid) {
    forall c :: c in cs && c.item == id ==> !Beats(st, env, c)
  }

  /** A delivery leaves row and history of an item alone if and only if no change of it is newer. */
  lemma PullsKeepIff(env: Env, st: Store, cs: seq<PullChange>, id: Uuid)
    ensures RowKept(env.storage, st, ApplyPulls(env, st, cs), id) <==> ChangesSpare(env, st, cs, id)
  {
    PullsReachBest(env, st, cs, id);
  }

  /** Whether the traffic gets as far as the push reply, and as far as the pull. */
  predicate Replies(t: Traffic) {
    t.listing != [] && t.push.PushReplies?
  }

  predicate Pulls(t: Traffic) {
    t.listing == [] || t.push.PushReplies?
  }

  /** What the server sends about this vault changes nothing of item `id`. */
  predicate Spares(env: Env, st: Store, t: Traffic, id: Uuid) {
    && (Replies(t) ==> AcksSpare(env.storage, st.items, t.push.reply.appliedChanges, id))
    && (Pulls(t) ==> ChangesSpare(env, st, t.pull.changes, id))
  }

  ghost predicate SparesVault(env: Env, owner: Uuid -> Uuid, st: Store, t: Traffic, w: Uuid) {
    forall id :: owner(id) == w ==> Spares(env, st, t, id)
  }

  lemma {:induction false} ConflictsKeepOthers(env: Env, items: map<Uuid, Item>, listing: seq<Pending>,
                                               conflicts: seq<Uuid>, draw: nat -> Draw, id: Uuid)
    requires forall p :: p in listing ==> p.item != id
    requires forall i: nat :: draw(i).newId != id
    ensures var after := ApplyConflicts(env, items, listing, conflicts, draw);
            (id in after <==> id in items) && (id in items ==> after[id] == items[id])
    decreases |conflicts|
  {
    if conflicts != [] {
      ConflictsKeepOthers(env, items, listing, conflicts[..|conflicts| - 1], draw, id);
    }
  }

  /** What a reply removes from the queue are listed rows. */
  lemma NamedAreListed(listing: seq<Pending>, items: seq<Uuid>, id: Uuid)
    requires id in Named(listing, items)
    ensures exists p :: p in listing && p.id == id
  {
    var i :| i in items && LastQueued(listing, i).Some? && LastQueued(listing, i).value.id == id;
    assert LastQueued(listing, i).value in listing;
  }

  /** What a push reply does to a row of another vault is what its acknowledgements do. */
  lemma PushReaches(env: Env, owner: Uuid -> Uuid, c: Cache, t: Traffic, id: Uuid)
    requires OwnQueue(owner, env.storage, env.vault, t) && owner(id) != env.vault
    requires PushVault(env, c, t).Some?
    ensures var after := PushVault(env, c, t).value.store;
            && after.history == c.store.history
            && (id in after.items <==> id in c.store.items)
            && (id in c.store.items ==>
                  after.items[id] == if Replies(t) && c.store.items[id].storage == env.storage
                                        && LastAck(t.push.reply.appliedChanges, id).Some?
                                     then Acked(c.store.items[id], LastAck(t.push.reply.appliedChanges, id).value)
                                     else c.store.items[id])
  {
    if Replies(t) {
      var acks := t.push.reply.appliedChanges;
      AcksReach(env.storage, c.store.items, acks, id);
      ConflictsKeepOthers(env, ApplyAcks(env.storage, c.store.items, acks), t.listing, t.push.reply.conflicts,
                          t.push.draw, id);
    }
  }

  /** The queue rows of another vault stay. */
  lemma PushKeepsQueue(env: Env, owner: Uuid -> Uuid, c: Cache, t: Traffic, w: Uuid)
    requires OwnQueue(owner, env.storage, env.vault, t) && w != env.vault
    requires forall p :: p in t.listing ==> p.id in c.pending && c.pending[p.id] == p
    requires PushVault(env, c, t).Some?
    ensures var after := PushVault(env, c, t).value.pending;
            && (forall id :: id in c.pending && InVault(env.storage, w, c.pending[id]) ==>
                  id in after && after[id] == c.pending[id])
            && (forall id :: id in after ==> id in c.pending)
  {
    if t.listing != [] {
      forall id | id in c.pending && InVault(env.storage, w, c.pending[id])
        ensures forall names: seq<Uuid> :: id !in Named(t.listing, names)
      {
        forall names: seq<Uuid>
          ensures id !in Named(t.listing, names)
        {
          if id in Named(t.listing, names) {
            NamedAreListed(t.listing, names, id);
          }
        }
      }
    }
  }

  /** One row over a whole turn of another vault: spared by the server's words, it is kept. */
  lemma TurnKeepsRow(env: Env, owner: Uuid -> Uuid, s: Sync, t: Traffic, id: Uuid)
    requires OwnQueue(owner, env.storage, env.vault, t) && owner(id) != env.vault
    requires Spares(env, s.cache.store, t, id)
    ensures RowKept(env.storage, s.cache.store, SyncVault(env, s, t).sync.cache.store, id)
  {
    if PushVault(env, s.cache, t).Some? {
      PushReaches(env, owner, s.cache, t, id);
      var c := PushVault(env, s.cache, t).value;
      PullsKeepIff(env, c.store, t.pull.changes, id);
    }
  }

  /** Acknowledgements of the row are not behind the cache. */
  predicate AcksNotBehind(st: Store, t: Traffic, id: Uuid) {
    Replies(t) && id in st.items && LastAck(t.push.reply.appliedChanges, id).Some? ==>
      LastAck(t.push.reply.appliedChanges, id).value.seqNo >= st.items[id].version
  }

  /** And conversely: a row that is not spared is changed, when acknowledgements are not behind the cache. */
  lemma TurnChangesRow(env: Env, owner: Uuid -> Uuid, s: Sync, t: Traffic, id: Uuid)
    requires OwnQueue(owner, env.storage, env.vault, t) && owner(id) != env.vault
    requires AcksNotBehind(s.cache.store, t, id) && !Spares(env, s.cache.store, t, id)
    ensures !RowKept(env.storage, s.cache.store, SyncVault(env, s, t).sync.cache.store, id)
  {
    PushReaches(env, owner, s.cache, t, id);
    var c := PushVault(env, s.cache, t).value;
    PullsKeepIff(env, c.store, t.pull.changes, id);
    PullsReachBest(env, c.store, t.pull.changes, id);
    hide ApplyPulls, ApplyAcks, ApplyConflicts;
  }

  /** A vault's turn leaves another vault alone if what the server sends spares that vault's rows. */
  lemma SyncKeepsOthers(env: Env, owner: Uuid -> Uuid, s: Sync, t: Traffic, w: Uuid)
    requires OwnQueue(owner, env.storage, env.vault, t) && w != env.vault
    requires forall p :: p in t.listing ==> p.id in s.cache.pending && s.cache.pending[p.id] == p
    requires SparesVault(env, owner, s.cache.store, t, w)
    ensures Untouched(env.storage, owner, s.cache, SyncVault(env, s, t).sync.cache, w)
  {
    forall id | owner(id) == w
      ensures RowKept(env.storage, s.cache.store, SyncVault(env, s, t).sync.cache.store, id)
    {
      TurnKeepsRow(env, owner, s, t, id);
    }
    if PushVault(env, s.cache, t).Some? {
      PushKeepsQueue(env, owner, s.cache, t, w);
    }
  }

  /**
    Rows are looked up by storage and item, not by vault. So a vault's turn leaves another vault
    alone if and only if no change of the reply is newer than that vault's rows and no
    acknowledgement says anything new about them, for acknowledgements not behind the cache.
   */
  lemma SyncKeepsOthersIff(env: Env, owner: Uuid -> Uuid, s: Sync, t: Traffic, w: Uuid)
    requires OwnQueue(owner, env.storage, env.vault, t) && w != env.vault
    requires forall p :: p in t.listing ==> p.id in s.cache.pending && s.cache.pending[p.id] == p
    requires forall id :: owner(id) == w ==> AcksNotBehind(s.cache.store, t, id)
    ensures Untouched(env.storage, owner, s.cache, SyncVault(env, s, t).sync.cache, w)
            <==> SparesVault(env, owner, s.cache.store, t, w)
  {
    if SparesVault(env, owner, s.cache.store, t, w) {
      SyncKeepsOthers(env, owner, s, t, w);
    } else {
      var id :| owner(id) == w && !Spares(env, s.cache.store, t, id);
      TurnChangesRow(env, owner, s, t, id);
    }
  }

  /** The failing family: one newer change of another vault's item is enough. */
  lemma ForeignChangeTouches(env: Env, owner: Uuid -> Uuid, s: Sync, t: Traffic, c: PullChange, w: Uuid)
    requires OwnQueue(owner, env.storage, env.vault, t) && owner(c.item) == w && w != env.vault
    requires Pulls(t) && c in t.pull.changes && Beats(s.cache.store, env, c)
    requires AcksNotBehind(s.cache.store, t, c.item)
    ensures !Untouched(env.storage, owner, s.cache, SyncVault(env, s, t).sync.cache, w)
  {
    TurnChangesRow(env, owner, s, t, c.item);
  }

  lemma UntouchedTrans(storage: Uuid, owner: Uuid -> Uuid, a: Cache, b: Cache, c: Cache, w: Uuid)
    requires Untouched(storage, owner, a, b, w) && Untouched(storage, owner, b, c, w)
    ensures Untouched(storage, owner, a, c, w)
  {
    forall id | owner(id) == w ensures RowKept(storage, a.store, c.store, id) {
      assert RowKept(storage, a.store, b.store, id) && RowKept(storage, b.store, c.store, id);
    }
  }

  /** The vault's traffic is worked off in its turn. */
  predicate Syncs(storage: Uuid, key: MasterKey, allowed: bool, c: Cache, d: VaultDetail) {
    (storage, d.id) in c.vaults && (IsShared(d) || (allowed && key.opens(d.id, c.vaults[(storage, d.id)].keyEnc)))
  }

  /** One turn, as far as vault `w` is concerned: the queue is the vault's own, and the server's words spare `w`. */
  ghost predicate TurnOk(hash: Bytes -> string, storage: Uuid, owner: Uuid -> Uuid, key: MasterKey, allowed: bool,
                         c: Cache, d: VaultDetail, t: Traffic, w: Uuid)
  {
    Syncs(storage, key, allowed, c, d) && d.id != w ==>
      && OwnQueue(owner, storage, d.id, t)
      && (forall p :: p in t.listing ==> p.id in c.pending && c.pending[p.id] == p)
      && SparesVault(Env(hash, storage, d.id), owner, c.store, t, w)
  }

  /** The same for every turn of a run, each judged by the cache it meets. */
  ghost predicate TurnsOk(hash: Bytes -> string, storage: Uuid, owner: Uuid -> Uuid, key: MasterKey, allowed: bool,
                          s: Sync,
                          ds: seq<VaultDetail>, ts: seq<Traffic>, w: Uuid)
    requires |ts| == |ds|
    decreases |ds|
  {
    ds == [] ||
    (&& TurnOk(hash, storage, owner, key, allowed, s.cache, ds[0], ts[0], w)
     && var o := VaultTurn(hash, storage, key, allowed, s, ds[0], ts[0]);
        o.Finished? ==> TurnsOk(hash, storage, owner, key, allowed, o.sync, ds[1..], ts[1..], w))
  }

  predicate DistinctVaults(ds: seq<VaultDetail>) {
    forall i, j :: 0 <= i < j < |ds| ==> ds[i].id != ds[j].id
  }

  lemma {:induction false} SetupKeepsCache(storage: Uuid, owner: Uuid -> Uuid, key: MasterKey, allowed: bool, s: Sync,
                                           ds: seq<VaultDetail>, ts: seq<Traffic>, w: Uuid)
    requires |ts| == |ds|
    ensures var o := SetupAll(storage, key, allowed, s, ds, ts);
            && Untouched(storage, owner, s.cache, o.sync.cache, w)
            && o.sync.cache.pending == s.cache.pending
            && (w in o.sync.locked ==> w in s.locked
                                       || (!allowed && exists d :: d in ds && d.id == w && !IsShared(d)))
    decreases |ds|
  {
    if ds != [] {
      var o := SetupVault(storage, key, allowed, s, ds[0], ts[0]);
      assert ds[0] in ds && forall d :: d in ds[1..] ==> d in ds;
      if o.Finished? {
        SetupKeepsCache(storage, owner, key, allowed, o.sync, ds[1..], ts[1..], w);
      }
    }
  }

  /** One turn either leaves `w` alone, or is `w`'s own turn and does not lock it. */
  lemma TurnLocksOrTouches(hash: Bytes -> string, storage: Uuid, owner: Uuid -> Uuid, key: MasterKey, allowed: bool,
                           s: Sync, d: VaultDetail, t: Traffic, w: Uuid)
    requires TurnOk(hash, storage, owner, key, allowed, s.cache, d, t, w)
    ensures var o := VaultTurn(hash, storage, key, allowed, s, d, t);
            && (d.id != w || (!IsShared(d) && !allowed) || (w in o.sync.locked && w !in s.locked) ==>
                  Untouched(storage, owner, s.cache, o.sync.cache, w))
            && (w in o.sync.locked && w !in s.locked ==> d.id == w && !IsShared(d))
            && (w in s.locked ==> w in o.sync.locked)
  {
    if Syncs(storage, key, allowed, s.cache, d) && d.id != w {
      var local := s.cache.vaults[(storage, d.id)];
      var s1 := s.(cache := SetVault(s.cache, storage, d.id, Rewrapped(local, d)));
      var s2 := if IsShared(d) then s1 else s1.(pinned := Some(key.fingerprint));
      SyncKeepsOthers(Env(hash, storage, d.id), owner, s2, t, w);
    }
  }

  /** Every turn that could be `w`'s is barred by the fingerprint. */
  predicate Barred(allowed: bool, ds: seq<VaultDetail>, w: Uuid) {
    forall d :: d in ds && d.id == w ==> !allowed && !IsShared(d)
  }

  lemma {:induction false} BarredIsUntouched(hash: Bytes -> string, storage: Uuid, owner: Uuid -> Uuid, key: MasterKey,
                                             allowed: bool, s: Sync, ds: seq<VaultDetail>, ts: seq<Traffic>, w: Uuid)
    requires |ts| == |ds| && TurnsOk(hash, storage, owner, key, allowed, s, ds, ts, w)
    requires Barred(allowed, ds, w)
    ensures Untouched(storage, owner, s.cache, TurnAll(hash, storage, key, allowed, s, ds, ts).sync.cache, w)
    decreases |ds|
  {
    if ds != [] {
      assert ds[0] in ds && forall d :: d in ds[1..] ==> d in ds;
      TurnLocksOrTouches(hash, storage, owner, key, allowed, s, ds[0], ts[0], w);
      var o := VaultTurn(hash, storage, key, allowed, s, ds[0], ts[0]);
      if o.Finished? {
        BarredIsUntouched(hash, storage, owner, key, allowed, o.sync, ds[1..], ts[1..], w);
        UntouchedTrans(storage, owner, s.cache, o.sync.cache,
                       TurnAll(hash, storage, key, allowed, o.sync, ds[1..], ts[1..]).sync.cache, w);
      }
    }
  }

  lemma {:induction false} LockedHasTurn(hash: Bytes -> string, storage: Uuid, key: MasterKey, allowed: bool, s: Sync,
                                         ds: seq<VaultDetail>, ts: seq<Traffic>, w: Uuid)
    requires |ts| == |ds|
    requires w in TurnAll(hash, storage, key, allowed, s, ds, ts).sync.locked && w !in s.locked
    ensures exists d :: d in ds && d.id == w && !IsShared(d)
    decreases |ds|
  {
    if ds != [] {
      var o := VaultTurn(hash, storage, key, allowed, s, ds[0], ts[0]);
      assert ds[0] in ds && forall d :: d in ds[1..] ==> d in ds;
      if o.Finished? && w !in o.sync.locked {
        LockedHasTurn(hash, storage, key, allowed, o.sync, ds[1..], ts[1..], w);
      }
    }
  }

  /** A vault that gets locked during the turns is untouched by all of them. */
  lemma {:induction false} LockedIsUntouched(hash: Bytes -> string, storage: Uuid, owner: Uuid -> Uuid, key: MasterKey,
                                             allowed: bool, s: Sync, ds: seq<VaultDetail>, ts: seq<Traffic>, w: Uuid)
    requires |ts| == |ds| && DistinctVaults(ds) && TurnsOk(hash, storage, owner, key, allowed, s, ds, ts, w)
    requires w in TurnAll(hash, storage, key, allowed, s, ds, ts).sync.locked && w !in s.locked
    ensures Untouched(storage, owner, s.cache, TurnAll(hash, storage, key, allowed, s, ds, ts).sync.cache, w)
    decreases |ds|
  {
    if ds != [] {
      TurnLocksOrTouches(hash, storage, owner, key, allowed, s, ds[0], ts[0], w);
      var o := VaultTurn(hash, storage, key, allowed, s, ds[0], ts[0]);
      if o.Finished? {
        if w in o.sync.locked {
          BarredIsUntouched(hash, storage, owner, key, allowed, o.sync, ds[1..], ts[1..], w);
        } else {
          LockedHasTurn(hash, storage, key, allowed, o.sync, ds[1..], ts[1..], w);
          LockedIsUntouched(hash, storage, owner, key, allowed, o.sync, ds[1..], ts[1..], w);
        }
        UntouchedTrans(storage, owner, s.cache, o.sync.cache,
                       TurnAll(hash, storage, key, allowed, o.sync, ds[1..], ts[1..]).sync.cache, w);
      }
    }
  }

  /** The turns of a run as they meet the cache the first loop leaves. */
  ghost predicate RunOk(hash: Bytes -> string, owner: Uuid -> Uuid, r: SyncRun, pinned: Option<string>, w: Uuid)
    requires WellFormedRun(r)
  {
    var allowed := Allowed(pinned, r.key);
    var o := SetupAll(r.storage, r.key, allowed, Sync(r.cache, pinned, []), r.ds, r.ts);
    o.Finished? ==> TurnsOk(hash, r.storage, owner, r.key, allowed, o.sync, r.ds, r.ts, w)
  }

  /**
    The gate over one run, however it ends. Vault identifiers are distinct, and in the turns of
    other vaults the server says nothing new about rows of `w`. Then if `w` is reported as locked it
    keeps its items, history, queue and cursor; and so it does when another key is pinned and it is
    not a server-encrypted shared vault.
   */
  lemma LockedVaultsAreUntouched(hash: Bytes -> string, owner: Uuid -> Uuid, r: SyncRun, pinned: Option<string>,
                                 w: Uuid)
    requires WellFormedRun(r) && DistinctVaults(r.ds) && RunOk(hash, owner, r, pinned, w)
    ensures var o := RemoteSync(hash, r.storage, r.key, r.cache, pinned, r.ds, r.ts);
            w in o.sync.locked || Barred(Allowed(pinned, r.key), r.ds, w)
            ==> Untouched(r.storage, owner, r.cache, o.sync.cache, w)
  {
    var allowed := Allowed(pinned, r.key);
    var s := Sync(r.cache, pinned, []);
    SetupKeepsCache(r.storage, owner, r.key, allowed, s, r.ds, r.ts, w);
    var o := SetupAll(r.storage, r.key, allowed, s, r.ds, r.ts);
    if o.Finished? {
      var end := TurnAll(hash, r.storage, r.key, allowed, o.sync, r.ds, r.ts);
      if Barred(allowed, r.ds, w) {
        BarredIsUntouched(hash, r.storage, owner, r.key, allowed, o.sync, r.ds, r.ts, w);
      } else if w in end.sync.locked {
        if w in o.sync.locked {
          SetupLockIsBarred(r.ds, w);
        }
        LockedIsUntouched(hash, r.storage, owner, r.key, allowed, o.sync, r.ds, r.ts, w);
      }
      if Untouched(r.storage, owner, o.sync.cache, end.sync.cache, w) {
        UntouchedTrans(r.storage, owner, r.cache, o.sync.cache, end.sync.cache, w);
      }
    }
  }

  /** With distinct identifiers, a vault the first loop locked is barred from every turn. */
  lemma SetupLockIsBarred(ds: seq<VaultDetail>, w: Uuid)
    requires DistinctVaults(ds) && exists d :: d in ds && d.id == w && !IsShared(d)
    ensures Barred(false, ds, w)
  {
  }

  // ----- which vaults are synced

  /** The entry of vault `w` in the table of local vaults is the same. */
  predicate SameVault(storage: Uuid, a: Cache, b: Cache, w: Uuid) {
    && ((storage, w) in a.vaults <==> (storage, w) in b.vaults)
    && ((storage, w) in a.vaults ==> a.vaults[(storage, w)] == b.vaults[(storage, w)])
  }

  predicate SameCursor(storage: Uuid, a: Cache, b: Cache, w: Uuid) {
    && ((storage, w) in a.cursors <==> (storage, w) in b.cursors)
    && ((storage, w) in a.cursors ==> a.cursors[(storage, w)] == b.cursors[(storage, w)])
  }

  /** The first loop does not look at other vaults, and does nothing to the queue or the cursors. */
  lemma {:induction false} SetupElsewhere(storage: Uuid, key: MasterKey, allowed: bool, s: Sync, ds: seq<VaultDetail>,
                                          ts: seq<Traffic>, w: Uuid)
    requires |ts| == |ds| && forall d :: d in ds ==> d.id != w
    ensures var o := SetupAll(storage, key, allowed, s, ds, ts);
            && SameVault(storage, s.cache, o.sync.cache, w)
            && (w in o.sync.locked <==> w in s.locked)
            && (o.sync.pinned == s.pinned || o.sync.pinned == Some(key.fingerprint))
    decreases |ds|
  {
    if ds != [] {
      assert ds[0] in ds && forall d :: d in ds[1..] ==> d in ds;
      var o := SetupVault(storage, key, allowed, s, ds[0], ts[0]);
      if o.Finished? {
        SetupElsewhere(storage, key, allowed, o.sync, ds[1..], ts[1..], w);
      }
    }
  }

  /** The sealed key a listed vault has after the first loop: its own, or the new one it gets if it has none at all. */
  function SealedKey(d: VaultDetail, local: Bytes, made: Bytes, admitted: bool): Bytes {
    if !d.serverEncrypted && !d.shared && admitted && d.keyEnc == [] && local == [] then made else local
  }

  lemma {:induction false} SetupAt(storage: Uuid, key: MasterKey, allowed: bool, s: Sync, ds: seq<VaultDetail>,
                                   ts: seq<Traffic>, i: nat)
    requires |ts| == |ds| && i < |ds| && DistinctVaults(ds) && (storage, ds[i].id) in s.cache.vaults
    requires SetupAll(storage, key, allowed, s, ds, ts).Finished? && ds[i].id !in s.locked
    ensures var o, d := SetupAll(storage, key, allowed, s, ds, ts), ds[i];
            && (storage, d.id) in o.sync.cache.vaults
            && o.sync.cache.vaults[(storage, d.id)].keyEnc
               == SealedKey(d, s.cache.vaults[(storage, d.id)].keyEnc, ts[i].newKey, allowed)
            && (d.id in o.sync.locked <==> !d.serverEncrypted && !d.shared && !allowed)
            && (o.sync.pinned == s.pinned || o.sync.pinned == Some(key.fingerprint))
    decreases |ds|
  {
    var o := SetupVault(storage, key, allowed, s, ds[0], ts[0]);
    if i == 0 {
      assert forall d :: d in ds[1..] ==> d.id != ds[0].id;
      SetupElsewhere(storage, key, allowed, o.sync, ds[1..], ts[1..], ds[0].id);
    } else {
      assert ds[1..][i - 1] == ds[i] && ds[0].id != ds[i].id;
      SetupAt(storage, key, allowed, o.sync, ds[1..], ts[1..], i - 1);
    }
  }

  /** A turn of another vault leaves table entry, cursor and lock of `w`, and pins nothing but this key. */
  lemma TurnElsewhere(hash: Bytes -> string, storage: Uuid, key: MasterKey, allowed: bool, s: Sync, d: VaultDetail,
                      t: Traffic, w: Uuid)
    requires d.id != w
    ensures var o := VaultTurn(hash, storage, key, allowed, s, d, t);
            && SameVault(storage, s.cache, o.sync.cache, w) && SameCursor(storage, s.cache, o.sync.cache, w)
            && (w in o.sync.locked <==> w in s.locked)
            && (o.sync.pinned == s.pinned || o.sync.pinned == Some(key.fingerprint))
  {
    hide ApplyPulls, ApplyAcks, ApplyConflicts, Reconciled;
  }

  lemma {:induction false} TurnsElsewhere(hash: Bytes -> string, storage: Uuid, key: MasterKey, allowed: bool, s: Sync,
                                          ds: seq<VaultDetail>, ts: seq<Traffic>, w: Uuid)
    requires |ts| == |ds| && forall d :: d in ds ==> d.id != w
    ensures var o := TurnAll(hash, storage, key, allowed, s, ds, ts);
            && SameVault(storage, s.cache, o.sync.cache, w) && SameCursor(storage, s.cache, o.sync.cache, w)
            && (w in o.sync.locked <==> w in s.locked)
            && (o.sync.pinned == s.pinned || o.sync.pinned == Some(key.fingerprint))
    decreases |ds|
  {
    if ds != [] {
      assert ds[0] in ds && forall d :: d in ds[1..] ==> d in ds;
      hide VaultTurn;
      TurnElsewhere(hash, storage, key, allowed, s, ds[0], ts[0], w);
      var o := VaultTurn(hash, storage, key, allowed, s, ds[0], ts[0]);
      if o.Finished? {
        TurnsElsewhere(hash, storage, key, allowed, o.sync, ds[1..], ts[1..], w);
      }
    }
  }

  /** What a finished turn leaves for its own vault: a lock, or a saved cursor and for personal vaults the pin. */
  predicate TurnResult(storage: Uuid, key: MasterKey, allowed: bool, before: Sync, after: Sync, d: VaultDetail,
                       t: Traffic)
    requires (storage, d.id) in before.cache.vaults
  {
    var local := before.cache.vaults[(storage, d.id)];
    var shared := d.serverEncrypted && d.shared;
    var opens := allowed && key.opens(d.id, local.keyEnc);
    && (d.id in after.locked <==> d.id in before.locked || (!shared && !opens))
    && (shared || opens ==>
          && t.pull.Pulled? && (storage, d.id) in after.cache.cursors
          && after.cache.cursors[(storage, d.id)] == t.pull.cursor)
    && (!shared && opens ==> after.pinned == Some(key.fingerprint))
    && (storage, d.id) in after.cache.vaults
    && after.cache.vaults[(storage, d.id)].wrap == (if shared then RemoteServer else RemoteStrict)
    && after.cache.vaults[(storage, d.id)].keyEnc == (if shared && local.wrap != RemoteServer then [] else local.keyEnc)
  }

  lemma OwnTurn(hash: Bytes -> string, storage: Uuid, key: MasterKey, allowed: bool, s: Sync, d: VaultDetail,
                t: Traffic)
    requires (storage, d.id) in s.cache.vaults && VaultTurn(hash, storage, key, allowed, s, d, t).Finished?
    ensures TurnResult(storage, key, allowed, s, VaultTurn(hash, storage, key, allowed, s, d, t).sync, d, t)
  {
    hide ApplyPulls, ApplyAcks, ApplyConflicts, Reconciled;
  }

  lemma {:induction false} TurnAt(hash: Bytes -> string, storage: Uuid, key: MasterKey, allowed: bool, s: Sync,
                                  ds: seq<VaultDetail>, ts: seq<Traffic>, i: nat)
    requires |ts| == |ds| && i < |ds| && DistinctVaults(ds) && (storage, ds[i].id) in s.cache.vaults
    requires TurnAll(hash, storage, key, allowed, s, ds, ts).Finished?
    ensures TurnResult(storage, key, allowed, s, TurnAll(hash, storage, key, allowed, s, ds, ts).sync, ds[i], ts[i])
    decreases |ds|
  {
    hide VaultTurn;
    var o := VaultTurn(hash, storage, key, allowed, s, ds[0], ts[0]);
    if i == 0 {
      OwnTurn(hash, storage, key, allowed, s, ds[0], ts[0]);
      assert forall d :: d in ds[1..] ==> d.id != ds[0].id;
      TurnsElsewhere(hash, storage, key, allowed, o.sync, ds[1..], ts[1..], ds[0].id);
    } else {
      assert ds[1..][i - 1] == ds[i] && ds[0].id != ds[i].id;
      TurnElsewhere(hash, storage, key, allowed, s, ds[0], ts[0], ds[i].id);
      TurnAt(hash, storage, key, allowed, o.sync, ds[1..], ts[1..], i - 1);
    }
  }

  /**
    Which vaults a finished run syncs, and which it reports as locked. A key is admitted if no
    fingerprint is pinned or it is the pinned one. A known vault is locked if and only if it is not a
    server-encrypted shared one and the key is not admitted or does not open the vault's sealed key,
    which for a personal vault without any key is the one made on the spot. A vault that is not locked
    has its pulled cursor saved, and after syncing a personal one the key is pinned.
   */
  lemma RunLocksIff(hash: Bytes -> string, r: SyncRun, pinned: Option<string>, i: nat)
    requires WellFormedRun(r) && DistinctVaults(r.ds) && i < |r.ds| && (r.storage, r.ds[i].id) in r.cache.vaults
    requires RemoteSync(hash, r.storage, r.key, r.cache, pinned, r.ds, r.ts).Finished?
    ensures var o := RemoteSync(hash, r.storage, r.key, r.cache, pinned, r.ds, r.ts);
            var d, t, local := r.ds[i], r.ts[i], r.cache.vaults[(r.storage, r.ds[i].id)];
            var admitted := pinned.None? || pinned.value == r.key.fingerprint;
            var sealed := if local.keyEnc == [] && d.keyEnc == [] && !d.serverEncrypted && !d.shared && admitted
                          then t.newKey else local.keyEnc;
            var shared := d.serverEncrypted && d.shared;
            && (d.id in o.sync.locked <==> !shared && (!admitted || !r.key.opens(d.id, sealed)))
            && (d.id !in o.sync.locked ==>
                  && t.pull.Pulled? && (r.storage, d.id) in o.sync.cache.cursors
                  && o.sync.cache.cursors[(r.storage, d.id)] == t.pull.cursor)
            && (d.id !in o.sync.locked && !shared ==> PinnedAfter(pinned, o) == Some(r.key.fingerprint))
            && (r.storage, d.id) in o.sync.cache.vaults
            && o.sync.cache.vaults[(r.storage, d.id)].wrap == (if shared then RemoteServer else RemoteStrict)
  {
    var allowed := Allowed(pinned, r.key);
    var s := Sync(r.cache, pinned, []);
    SetupAt(r.storage, r.key, allowed, s, r.ds, r.ts, i);
    var o := SetupAll(r.storage, r.key, allowed, s, r.ds, r.ts);
    hide SetupAll, TurnAll;
    TurnAt(hash, r.storage, r.key, allowed, o.sync, r.ds, r.ts, i);
  }

  /** The first loop stops the run exactly when a personal vault without any key cannot store its new one. */
  lemma {:induction false} SetupStopsIff(storage: Uuid, key: MasterKey, allowed: bool, s: Sync, ds: seq<VaultDetail>,
                                         ts: seq<Traffic>)
    requires |ts| == |ds| && DistinctVaults(ds)
    ensures SetupAll(storage, key, allowed, s, ds, ts).Stopped?
            <==> exists i :: 0 <= i < |ds| && StopsAt(storage, allowed, s, ds[i], ts[i])
    decreases |ds|
  {
    if ds != [] {
      var o := SetupVault(storage, key, allowed, s, ds[0], ts[0]);
      if o.Finished? {
        SetupStopsIff(storage, key, allowed, o.sync, ds[1..], ts[1..]);
        SetupShift(storage, allowed, s, o.sync, ds, ts);
      }
    }
  }

  /** Whether the first loop would stop at a vault, before and after the turn of the first one. */
  lemma SetupShift(storage: Uuid, allowed: bool, s: Sync, t: Sync, ds: seq<VaultDetail>, ts: seq<Traffic>)
    requires |ts| == |ds| && ds != [] && DistinctVaults(ds)
    requires forall w :: w != ds[0].id ==> SameVault(storage, s.cache, t.cache, w)
    requires !StopsAt(storage, allowed, s, ds[0], ts[0])
    ensures (exists i :: 0 <= i < |ds[1..]| && StopsAt(storage, allowed, t, ds[1..][i], ts[1..][i]))
            <==> exists i :: 0 <= i < |ds| && StopsAt(storage, allowed, s, ds[i], ts[i])
  {
    if i :| 0 <= i < |ds[1..]| && StopsAt(storage, allowed, t, ds[1..][i], ts[1..][i]) {
      assert ds[i + 1].id != ds[0].id && SameVault(storage, s.cache, t.cache, ds[i + 1].id);
      assert ds[1..][i] == ds[i + 1] && ts[1..][i] == ts[i + 1];
      assert StopsAt(storage, allowed, s, ds[i + 1], ts[i + 1]);
    }
    if i :| 0 <= i < |ds| && StopsAt(storage, allowed, s, ds[i], ts[i]) {
      assert i > 0 && ds[i].id != ds[0].id && SameVault(storage, s.cache, t.cache, ds[i].id);
      assert ds[1..][i - 1] == ds[i] && ts[1..][i - 1] == ts[i];
      assert StopsAt(storage, allowed, t, ds[1..][i - 1], ts[1..][i - 1]);
    }
  }

  predicate StopsAt(storage: Uuid, allowed: bool, s: Sync, d: VaultDetail, t: Traffic) {
    && !t.keyStored && allowed && !d.serverEncrypted && !d.shared && d.keyEnc == []
    && (storage, d.id) in s.cache.vaults && s.cache.vaults[(storage, d.id)].keyEnc == []
  }

  /**
    What syncing one vault comes to. A failed push stops the run before anything is changed. Otherwise the
    acknowledged rows take their numbers, the refused ones are kept, the queue loses what the reply names, and then
    the pulled changes are applied, in that order; without a queue only the last.
   */
  lemma SyncedVaultIs(env: Env, s: Sync, t: Traffic)
    ensures var o := SyncVault(env, s, t);
            && o.sync.pinned == s.pinned && o.sync.locked == s.locked && o.sync.cache.vaults == s.cache.vaults
            && (t.listing != [] && t.push.PushFails? ==> o == Stopped(s))
            && (t.listing == [] || t.push.PushReplies? ==>
                  && (o.Finished? <==> t.pull.Pulled?)
                  && o.sync.cache.cursors == (if t.pull.Pulled?
                                              then s.cache.cursors[(env.storage, env.vault) := t.pull.cursor]
                                              else s.cache.cursors)
                  && (t.listing == [] ==>
                        && o.sync.cache.store == ApplyPulls(env, s.cache.store, t.pull.changes)
                        && o.sync.cache.pending == s.cache.pending)
                  && (t.listing != [] ==>
                        var acked := ApplyAcks(env.storage, s.cache.store.items, t.push.reply.appliedChanges);
                        var kept := ApplyConflicts(env, acked, t.listing, t.push.reply.conflicts, t.push.draw);
                        && o.sync.cache.store == ApplyPulls(env, Store(kept, s.cache.store.history), t.pull.changes)
                        && o.sync.cache.pending == Reconciled(s.cache.pending, t.listing, t.push.reply)))
  {
    hide ApplyPulls, ApplyAcks, ApplyConflicts, Reconciled;
  }

  lemma {:induction false} SetupUnknown(storage: Uuid, key: MasterKey, allowed: bool, s: Sync, ds: seq<VaultDetail>,
                                        ts: seq<Traffic>, i: nat)
    requires |ts| == |ds| && i < |ds| && DistinctVaults(ds) && (storage, ds[i].id) !in s.cache.vaults
    requires SetupAll(storage, key, allowed, s, ds, ts).Finished? && ds[i].id !in s.locked
    ensures var o, d := SetupAll(storage, key, allowed, s, ds, ts), ds[i];
            && (storage, d.id) !in o.sync.cache.vaults
            && (d.id in o.sync.locked <==> !d.serverEncrypted && !d.shared && !allowed)
            && o.sync.cache.cursors == s.cache.cursors
    decreases |ds|
  {
    var o := SetupVault(storage, key, allowed, s, ds[0], ts[0]);
    SetupKeepsCursors(storage, key, allowed, o.sync, ds[1..], ts[1..]);
    if i == 0 {
      assert forall d :: d in ds[1..] ==> d.id != ds[0].id;
      SetupElsewhere(storage, key, allowed, o.sync, ds[1..], ts[1..], ds[0].id);
    } else {
      assert ds[1..][i - 1] == ds[i] && ds[0].id != ds[i].id;
      SetupUnknown(storage, key, allowed, o.sync, ds[1..], ts[1..], i - 1);
    }
  }

  lemma {:induction false} SetupKeepsCursors(storage: Uuid, key: MasterKey, allowed: bool, s: Sync,
                                             ds: seq<VaultDetail>, ts: seq<Traffic>)
    requires |ts| == |ds|
    ensures SetupAll(storage, key, allowed, s, ds, ts).sync.cache.cursors == s.cache.cursors
    decreases |ds|
  {
    if ds != [] {
      var o := SetupVault(storage, key, allowed, s, ds[0], ts[0]);
      if o.Finished? {
        SetupKeepsCursors(storage, key, allowed, o.sync, ds[1..], ts[1..]);
      }
    }
  }

  lemma {:induction false} TurnUnknown(hash: Bytes -> string, storage: Uuid, key: MasterKey, allowed: bool, s: Sync,
                                       ds: seq<VaultDetail>, ts: seq<Traffic>, i: nat)
    requires |ts| == |ds| && i < |ds| && DistinctVaults(ds) && (storage, ds[i].id) !in s.cache.vaults
    requires TurnAll(hash, storage, key, allowed, s, ds, ts).Finished?
    ensures var o, d := TurnAll(hash, storage, key, allowed, s, ds, ts), ds[i];
            && SameVault(storage, s.cache, o.sync.cache, d.id) && SameCursor(storage, s.cache, o.sync.cache, d.id)
            && (d.id in o.sync.locked <==> d.id in s.locked)
    decreases |ds|
  {
    var o := VaultTurn(hash, storage, key, allowed, s, ds[0], ts[0]);
    if i == 0 {
      assert o == Finished(s);
      hide VaultTurn;
      assert forall d :: d in ds[1..] ==> d.id != ds[0].id;
      TurnsElsewhere(hash, storage, key, allowed, s, ds[1..], ts[1..], ds[0].id);
    } else {
      hide VaultTurn;
      assert ds[1..][i - 1] == ds[i] && ds[0].id != ds[i].id;
      TurnElsewhere(hash, storage, key, allowed, s, ds[0], ts[0], ds[i].id);
      TurnUnknown(hash, storage, key, allowed, o.sync, ds[1..], ts[1..], i - 1);
    }
  }

  /** A listed vault the cache does not know is not synced, and reported as locked only if the gate bars its kind. */
  lemma UnknownVaultIs(hash: Bytes -> string, r: SyncRun, pinned: Option<string>, i: nat)
    requires WellFormedRun(r) && DistinctVaults(r.ds) && i < |r.ds| && (r.storage, r.ds[i].id) !in r.cache.vaults
    requires RemoteSync(hash, r.storage, r.key, r.cache, pinned, r.ds, r.ts).Finished?
    ensures var o, d := RemoteSync(hash, r.storage, r.key, r.cache, pinned, r.ds, r.ts), r.ds[i];
            && (d.id in o.sync.locked <==>
                !d.serverEncrypted && !d.shared && pinned.Some? && pinned.value != r.key.fingerprint)
            && (r.storage, d.id) !in o.sync.cache.vaults
            && SameCursor(r.storage, r.cache, o.sync.cache, d.id)
  {
    var allowed := Allowed(pinned, r.key);
    var s := Sync(r.cache, pinned, []);
    SetupUnknown(r.storage, r.key, allowed, s, r.ds, r.ts, i);
    var o := SetupAll(r.storage, r.key, allowed, s, r.ds, r.ts);
    hide SetupAll, TurnAll;
    TurnUnknown(hash, r.storage, r.key, allowed, o.sync, r.ds, r.ts, i);
  }
}
