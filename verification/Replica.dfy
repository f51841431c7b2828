/**
  The client's local database as one mutable object, with one method per step of the sync
  engine. Each method is proved against the specification functions of the other modules.
 */
module Replica {
  import opened Base
  import opened ReplicaModel
  import opened ConflictStep
  import opened PushQueue
  import opened ServerLog
  import opened Gate
  import PullResume

  class ClientDb {
    var items: map<Uuid, Item>
    var history: map<(Uuid, Uuid), seq<HistoryEntry>>
    var pending: PendingTable
    var cursors: map<(Uuid, Uuid), int>
    var vaults: map<(Uuid, Uuid), LocalVault>

    constructor ()
      ensures Contents() == Store(map[], map[])
      ensures pending == map[] && cursors == map[] && vaults == map[]
    {
      items, history, pending, cursors, vaults := map[], map[], map[], map[], map[];
    }

    ghost function Contents(): Store
      reads this
    {
      Store(items, history)
    }

    ghost function State(): Cache
      reads this
    {
      Cache(Contents(), pending, cursors, vaults)
    }

    /** `apply_pull_change`. */
    method ApplyPullChange(env: Env, c: PullChange)
      modifies this`items, this`history
      ensures Contents() == ApplyPull(env, old(Contents()), c)
    {
      var payload := PulledPayload(c);
      var checksum := c.checksum;
      if checksum == "" && payload != [] {
        checksum := env.hash(payload);
      }
      var existing := GetById(items, env.storage, c.item);
      if existing.Some? {
        var row := existing.value;
        if row.version >= c.seqNo {
          return;
        }
        row := row.(path := c.path, name := c.name, typeId := c.typeId, payload := payload, checksum := checksum,
                    version := c.seqNo, updatedAt := c.updatedAt, deletedAt := c.deletedAt,
                    status := if c.deletedAt.Some? then Tombstone else Synced);
        items := items[c.item := row];
      } else {
        if c.item in items {
          return;
        }
        items := items[c.item := Item(env.storage, env.vault, c.path, c.name, c.typeId, payload, checksum, None,
                                      c.seqNo, c.deletedAt, c.updatedAt,
                                      if c.deletedAt.Some? then Tombstone else Synced)];
      }
      history := history[(env.storage, c.item) := c.history];
    }

    /** The changes of a page, one after the other. */
    method ApplyPage(env: Env, cs: seq<PullChange>)
      modifies this`items, this`history
      ensures Contents() == ApplyPulls(env, old(Contents()), cs)
    {
      for i := 0 to |cs|
        invariant Contents() == ApplyPulls(env, old(Contents()), cs[..i])
      {
        ApplyPullChange(env, cs[i]);
        assert cs[..i + 1][..i] == cs[..i];
      }
      assert cs[..|cs|] == cs;
    }

    /**
      The pull loop against a log that stands still. It ends, and it delivers exactly the entries
      between the two cursors, once and in order; unless a request fails, nothing is left past the
      returned cursor. `failing` is the request that gets an error reply, if any.
     */
    method PullLoop(env: Env, s: Server, since: int, limit: int, failing: Option<nat>)
      returns (cursor: int, delivered: seq<PullChange>)
      requires ValidServer(s)
      modifies this`items, this`history
      ensures cursor >= since
      ensures delivered + PullResume.Delivery(s, cursor) == PullResume.Delivery(s, since)
      ensures Contents() == ApplyPulls(env, old(Contents()), delivered)
      ensures failing.None? ==> PullResume.Delivery(s, cursor) == []
    {
      cursor, delivered := since, [];
      var request := 0;
      while true
        invariant cursor >= since
        invariant delivered + PullResume.Delivery(s, cursor) == PullResume.Delivery(s, since)
        invariant Contents() == ApplyPulls(env, old(Contents()), delivered)
        decreases |PullResume.Delivery(s, cursor)|
      {
        if failing == Some(request) {
          break;
        }
        var page := PullPage(s, cursor, limit);
        PullResume.DeliveryAdvances(s, since, cursor, delivered, limit);
        ApplyPage(env, page.changes);
        ApplyPullsConcat(env, old(Contents()), delivered, page.changes);
        delivered, cursor, request := delivered + page.changes, page.nextCursor, request + 1;
        if !page.hasMore {
          break;
        }
      }
    }

    /** `apply_push_applied`. */
    method ApplyPushApplied(env: Env, acks: seq<AppliedChange>)
      modifies this`items
      ensures items == ApplyAcks(env.storage, old(items), acks)
    {
      for i := 0 to |acks|
        invariant items == ApplyAcks(env.storage, old(items), acks[..i])
      {
        var a := acks[i];
        var existing := GetById(items, env.storage, a.item);
        if existing.Some? {
          var row := existing.value.(updatedAt := a.updatedAt, deletedAt := a.deletedAt, version := a.seqNo);
          row := row.(status := if a.deletedAt.Some? then Tombstone else Synced);
          items := items[a.item := row];
        }
        assert acks[..i + 1][..i] == acks[..i];
      }
      assert acks[..|acks|] == acks;
    }

    /** The name search of a conflict: it stops at the first free name, or after the sixth retry. */
    method FindConflictName(env: Env, path: string, stamp: string) returns (candidate: string, attempts: nat)
      ensures attempts == ChosenFrom(env, items, path, stamp, 0)
      ensures candidate == Candidate(path, stamp, attempts)
    {
      attempts := 0;
      candidate := Candidate(path, stamp, 0);
      while Taken(env, items, candidate)
        invariant attempts <= MAX_ATTEMPTS && candidate == Candidate(path, stamp, attempts)
        invariant ChosenFrom(env, items, path, stamp, attempts) == ChosenFrom(env, items, path, stamp, 0)
        decreases MAX_ATTEMPTS + 1 - attempts
      {
        attempts := attempts + 1;
        candidate := Candidate(path, stamp, attempts);
        if attempts > MAX_ATTEMPTS {
          break;
        }
      }
    }

    /** `handle_sync_conflict`. */
    method HandleSyncConflict(env: Env, p: Pending, d: Draw) returns (kept: Option<Uuid>)
      modifies this`items
      ensures items == ApplyConflict(env, old(items), p, d)
      ensures kept.Some? <==>
              && p.payload.Some?
              && (GetById(old(items), env.storage, p.item).Some? || d.newId !in old(items))
      ensures kept.Some? ==> kept.value in items && items[kept.value].status == Conflict
    {
      if p.payload.None? {
        return None;
      }
      var path := OrElse(p.path, "conflict");
      var candidate, attempts := FindConflictName(env, path, d.stamp);
      var name := OrElse(p.name, path) + Suffix(d.stamp, attempts);
      var checksum := OrElse(p.checksum, env.hash(p.payload.value));
      var existing := GetById(items, env.storage, p.item);
      if existing.Some? {
        items := items[p.item := existing.value.(path := candidate, name := name,
                                                 typeId := OrElse(p.typeId, "login"), payload := p.payload.value,
                                                 checksum := checksum, status := Conflict, updatedAt := d.now)];
        return Some(p.item);
      }
      if d.newId in items {
        return None;
      }
      items := items[d.newId := Item(env.storage, env.vault, candidate, name, OrElse(p.typeId, "login"),
                                     p.payload.value, checksum, None, OrElse(p.baseSeq, 0) + 1, None, d.now, Conflict)];
      kept := Some(d.newId);
    }

    /** The last queued change of every item, as the push code indexes it. */
    method IndexByItem(listing: seq<Pending>) returns (byItem: map<Uuid, Pending>)
      ensures forall i :: i in byItem <==> LastQueued(listing, i).Some?
      ensures forall i :: i in byItem ==> byItem[i] == LastQueued(listing, i).value
    {
      byItem := map[];
      for n := 0 to |listing|
        invariant forall i :: i in byItem <==> LastQueued(listing[..n], i).Some?
        invariant forall i :: i in byItem ==> byItem[i] == LastQueued(listing[..n], i).value
      {
        byItem := byItem[listing[n].item := listing[n]];
        assert listing[..n + 1][..n] == listing[..n];
      }
      assert listing[..|listing|] == listing;
    }

    /** The conflict rows of a reply, and the queue rows they stand for. */
    method HandleConflicts(env: Env, listing: seq<Pending>, byItem: map<Uuid, Pending>, conflicts: seq<Uuid>,
                           draw: nat -> Draw)
      returns (refused: set<Uuid>)
      requires forall i :: i in byItem <==> LastQueued(listing, i).Some?
      requires forall i :: i in byItem ==> byItem[i] == LastQueued(listing, i).value
      modifies this`items
      ensures items == ApplyConflicts(env, old(items), listing, conflicts, draw)
      ensures refused == Named(listing, conflicts)
    {
      refused := {};
      for n := 0 to |conflicts|
        invariant items == ApplyConflicts(env, old(items), listing, conflicts[..n], draw)
        invariant refused == Named(listing, conflicts[..n])
      {
        var i := conflicts[n];
        assert conflicts[..n + 1][..n] == conflicts[..n];
        NamedOneMore(listing, conflicts[..n], i);
        assert conflicts[..n] + [i] == conflicts[..n + 1];
        if i in byItem {
          var _ := HandleSyncConflict(env, byItem[i], draw(n));
          refused := refused + {byItem[i].id};
        }
      }
      assert conflicts[..|conflicts|] == conflicts;
    }

    /** Everything a push reply does: acknowledged rows, conflict rows, and the queue. */
    method Reconcile(env: Env, listing: seq<Pending>, reply: PushReply, draw: nat -> Draw)
      modifies this`items, this`pending
      ensures items == ApplyConflicts(env, ApplyAcks(env.storage, old(items), reply.appliedChanges), listing,
                                      reply.conflicts, draw)
      ensures pending == Reconciled(old(pending), listing, reply)
    {
      var byItem := IndexByItem(listing);
      ApplyPushApplied(env, reply.appliedChanges);
      var ids := set i | i in reply.applied && i in byItem :: byItem[i].id;
      assert ids == Named(listing, reply.applied);
      pending := pending - ids;
      var refused := HandleConflicts(env, listing, byItem, reply.conflicts, draw);
      pending := pending - refused;
    }

    /** One vault: push, pull, save the cursor. */
    method Sync(env: Env, t: Traffic) returns (ok: bool)
      modifies this`items, this`history, this`pending, this`cursors
      ensures forall pinned, locked ::
                SyncVault(env, Gate.Sync(old(State()), pinned, locked), t)
                == (if ok then Finished(Gate.Sync(State(), pinned, locked))
                    else Stopped(Gate.Sync(State(), pinned, locked)))
    {
      if t.listing != [] {
        if t.push.PushFails? {
          return false;
        }
        Reconcile(env, t.listing, t.push.reply, t.push.draw);
      }
      ApplyPage(env, t.pull.changes);
      if t.pull.Aborted? {
        return false;
      }
      cursors := cursors[(env.storage, env.vault) := t.pull.cursor];
      ok := true;
    }

    /** The cursor a vault's turn pulls from: that of the push reply, else the saved one. */
    ghost function PullStart(env: Env, listing: seq<Pending>, push: PushResult): int
      reads this
    {
      if listing != [] && push.PushReplies? then push.reply.newCursor
      else if (env.storage, env.vault) in cursors then cursors[(env.storage, env.vault)]
      else 0
    }

    /**
      One vault against the server itself: the pull continues from the push reply's cursor, and what
      it delivers and the cursor it saves are those of the server's log. It is the turn above with
      exactly that traffic.
     */
    method SyncLive(env: Env, s: Server, listing: seq<Pending>, push: PushResult, limit: int, failing: Option<nat>)
      returns (ok: bool, delivered: seq<PullChange>, cursor: int)
      requires ValidServer(s)
      modifies this`items, this`history, this`pending, this`cursors
      ensures ok <==> listing == [] || push.PushReplies?
      ensures !ok ==> State() == old(State())
      ensures ok ==>
                delivered + PullResume.Delivery(s, cursor)
                == PullResume.Delivery(s, old(PullStart(env, listing, push)))
      ensures ok && failing.None? ==> PullResume.Delivery(s, cursor) == []
      ensures ok ==> forall pinned, locked ::
                SyncVault(env, Gate.Sync(old(State()), pinned, locked),
                          Traffic(true, [], listing, push, Pulled(delivered, cursor)))
                == Finished(Gate.Sync(State(), pinned, locked))
    {
      delivered, cursor := [], 0;
      if (env.storage, env.vault) in cursors {
        cursor := cursors[(env.storage, env.vault)];
      }
      if listing != [] {
        if push.PushFails? {
          return false, delivered, cursor;
        }
        Reconcile(env, listing, push.reply, push.draw);
        cursor := push.reply.newCursor;
      }
      cursor, delivered := PullLoop(env, s, cursor, limit, failing);
      cursors := cursors[(env.storage, env.vault) := cursor];
      ok := true;
    }

    /** `remote_sync` from the vault listing on. */
    method RunSync(hash: Bytes -> string, storage: Uuid, key: MasterKey, pinned: Option<string>,
                   ds: seq<VaultDetail>, ts: seq<Traffic>)
      returns (ok: bool, pinnedAfter: Option<string>, locked: seq<Uuid>)
      requires |ts| == |ds|
      modifies this
      ensures RemoteSync(hash, storage, key, old(State()), pinned, ds, ts)
              == (if ok then Finished(Gate.Sync(State(), pinnedAfter, locked))
                  else Stopped(Gate.Sync(State(), pinnedAfter, locked)))
    {
      hide SyncVault, Rewrapped, IsShared, Allowed;
      var allowed := Allowed(pinned, key);
      pinnedAfter, locked := pinned, [];
      ghost var start := Gate.Sync(State(), pinned, []);
      for i := 0 to |ds|
        invariant SetupAll(storage, key, allowed, start, ds, ts)
                  == SetupAll(storage, key, allowed, Gate.Sync(State(), pinnedAfter, locked), ds[i..], ts[i..])
      {
        var d, t := ds[i], ts[i];
        assert ds[i..][1..] == ds[i + 1..] && ts[i..][1..] == ts[i + 1..];
        if !d.serverEncrypted && !d.shared {
          if !allowed {
            locked := locked + [d.id];
          } else if d.keyEnc == [] && (storage, d.id) in vaults && vaults[(storage, d.id)].keyEnc == [] {
            if !t.keyStored {
              return false, pinnedAfter, locked;
            }
            pinnedAfter := Some(key.fingerprint);
            vaults := vaults[(storage, d.id) := LocalVault(t.newKey, RemoteStrict)];
          }
        }
      }
      ghost var mid := Gate.Sync(State(), pinnedAfter, locked);
      assert SetupAll(storage, key, allowed, start, ds, ts) == Finished(mid);
      for i := 0 to |ds|
        invariant TurnAll(hash, storage, key, allowed, mid, ds, ts)
                  == TurnAll(hash, storage, key, allowed, Gate.Sync(State(), pinnedAfter, locked), ds[i..], ts[i..])
      {
        var d, t := ds[i], ts[i];
        assert ds[i..][1..] == ds[i + 1..] && ts[i..][1..] == ts[i + 1..];
        if (storage, d.id) in vaults {
          var local := vaults[(storage, d.id)];
          vaults := vaults[(storage, d.id) := Rewrapped(local, d)];
          if !IsShared(d) && (!allowed || !key.opens(d.id, local.keyEnc)) {
            locked := locked + [d.id];
          } else {
            if !IsShared(d) {
              pinnedAfter := Some(key.fingerprint);
            }
            var done := Sync(Env(hash, storage, d.id), t);
            if !done {
              return false, pinnedAfter, locked;
            }
          }
        }
      }
      ok := true;
    }
  }
}
