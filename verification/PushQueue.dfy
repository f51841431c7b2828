/**
  The pending queue and what a push reply removes from it
  (crates/zann-client/src/sync.rs:281-371, crates/zann-db/src/local/pending_change_repo.rs).
 */
module PushQueue {
  import opened Base
  import opened ReplicaModel
  import opened ConflictStep

  /** A push reply: accepted items, their new numbers, refused items. */
  datatype PushReply = PushReply(
    applied: seq<Uuid>, appliedChanges: seq<AppliedChange>, conflicts: seq<Uuid>, newCursor: int)

  type PendingTable = t: map<Uuid, Pending> | forall id :: id in t ==> t[id].id == id

  predicate InQueue(env: Env, p: Pending) {
    p.storage == env.storage && p.vault == env.vault
  }

  /** `list_by_storage_vault`: every row of the vault once, oldest first. */
  predicate IsListing(env: Env, table: PendingTable, listing: seq<Pending>) {
    && (forall i :: 0 <= i < |listing| ==>
          listing[i].id in table && table[listing[i].id] == listing[i] && InQueue(env, listing[i]))
    && (forall id :: id in table && InQueue(env, table[id]) ==> table[id] in listing)
    && (forall i, j :: 0 <= i < j < |listing| ==>
          listing[i].id != listing[j].id && listing[i].createdAt <= listing[j].createdAt)
  }

  /** The last queued change of an item. */
  function LastQueued(listing: seq<Pending>, item: Uuid): (r: Option<Pending>)
    ensures r.Some? ==> r.value in listing && r.value.item == item
    ensures r.None? ==> forall p :: p in listing ==> p.item != item
    decreases |listing|
  {
    if listing == [] then None
    else
      var last := listing[|listing| - 1];
      if last.item == item then Some(last) else LastQueued(listing[..|listing| - 1], item)
  }

  /** The queue rows that a list of item names points at. */
  function Named(listing: seq<Pending>, items: seq<Uuid>): set<Uuid> {
    set i | i in items && LastQueued(listing, i).Some? :: LastQueued(listing, i).value.id
  }

  lemma NamedOneMore(listing: seq<Pending>, items: seq<Uuid>, i: Uuid)
    ensures Named(listing, items + [i])
            == Named(listing, items)
               + (if LastQueued(listing, i).Some? then {LastQueued(listing, i).value.id} else {})
  {
    assert forall j :: j in items + [i] <==> j in items || j == i;
  }

  /** Rows of refused items, one conflict step after the other. */
  function ApplyConflicts(env: Env, items: map<Uuid, Item>, listing: seq<Pending>, conflicts: seq<Uuid>,
                          draw: nat -> Draw): map<Uuid, Item>
    decreases |conflicts|
  {
    if conflicts == [] then items
    else
      var n := |conflicts| - 1;
      var before := ApplyConflicts(env, items, listing, conflicts[..n], draw);
      match LastQueued(listing, conflicts[n])
      case Some(p) => ApplyConflict(env, before, p, draw(n))
      case None => before
  }

  /** What a reply does to the queue. */
  function Reconciled(table: PendingTable, listing: seq<Pending>, reply: PushReply): PendingTable {
    table - Named(listing, reply.applied) - Named(listing, reply.conflicts)
  }

  predicate LastOfItem(listing: seq<Pending>, p: Pending) {
    exists i :: 0 <= i < |listing| && listing[i] == p && forall j :: i < j < |listing| ==> listing[j].item != p.item
  }

  lemma {:induction false} LastQueuedIsLast(listing: seq<Pending>, p: Pending)
    ensures LastQueued(listing, p.item) == Some(p) <==> LastOfItem(listing, p)
    decreases |listing|
  {
    if listing != [] {
      var n := |listing| - 1;
      LastQueuedIsLast(listing[..n], p);
      if listing[n].item == p.item {
        if LastOfItem(listing, p) {
          var i :| 0 <= i < |listing| && listing[i] == p && forall j :: i < j < |listing| ==> listing[j].item != p.item;
          assert i == n;
        }
      } else if LastOfItem(listing[..n], p) {
        var i :| 0 <= i < n && listing[..n][i] == p && forall j :: i < j < n ==> listing[..n][j].item != p.item;
        assert listing[i] == p;
        forall j | i < j < |listing| ensures listing[j].item != p.item {
          if j < n { assert listing[..n][j] == listing[j]; }
        }
      }
    }
  }

  /**
    Reconciliation is exact: a queue row disappears if and only if it is the last queued change
    of an item the reply names, and every other row of this or any other vault is unchanged.
   */
  lemma ReconcileIsExact(env: Env, table: PendingTable, listing: seq<Pending>, reply: PushReply, id: Uuid)
    requires IsListing(env, table, listing)
    requires id in table
    ensures id !in Reconciled(table, listing, reply) <==>
            LastOfItem(listing, table[id]) && (table[id].item in reply.applied || table[id].item in reply.conflicts)
    ensures id in Reconciled(table, listing, reply) ==> Reconciled(table, listing, reply)[id] == table[id]
    ensures !InQueue(env, table[id]) ==> id in Reconciled(table, listing, reply)
  {
    var p := table[id];
    LastQueuedIsLast(listing, p);
    if LastOfItem(listing, p) {
      assert p.item in reply.applied ==> id in Named(listing, reply.applied);
      assert p.item in reply.conflicts ==> id in Named(listing, reply.conflicts);
    }
    forall names: seq<Uuid> | id in Named(listing, names)
      ensures LastOfItem(listing, p) && p.item in names
    {
      var i :| i in names && LastQueued(listing, i).Some? && LastQueued(listing, i).value.id == id;
      var q := LastQueued(listing, i).value;
      assert q in listing && table[q.id] == q;
    }
  }

  /** With one change per item and every queued item named, the vault's queue is empty. */
  lemma FullyAcknowledgedQueueIsEmpty(env: Env, table: PendingTable, listing: seq<Pending>, reply: PushReply)
    requires IsListing(env, table, listing)
    requires forall i, j :: 0 <= i < j < |listing| ==> listing[i].item != listing[j].item
    requires forall p :: p in listing ==> p.item in reply.applied || p.item in reply.conflicts
    ensures forall id :: id in Reconciled(table, listing, reply) ==>
              !InQueue(env, Reconciled(table, listing, reply)[id])
  {
    forall id | id in Reconciled(table, listing, reply)
      ensures !InQueue(env, Reconciled(table, listing, reply)[id])
    {
      ReconcileIsExact(env, table, listing, reply, id);
    }
  }

  /** With two changes of one item in the queue, acknowledging the item leaves the older one behind. */
  lemma OlderChangeStays(env: Env, table: PendingTable, listing: seq<Pending>, reply: PushReply, i: nat, j: nat)
    requires IsListing(env, table, listing)
    requires i < j < |listing| && listing[i].item == listing[j].item
    ensures listing[i].id in Reconciled(table, listing, reply)
  {
    ReconcileIsExact(env, table, listing, reply, listing[i].id);
  }

  /**
    Refusals in turn: each one is handled in the table the earlier ones left, with its own draw, for the last queued
    change of the refused item; an item without a queued change is passed over.
   */
  lemma ConflictsInTurn(env: Env, items: map<Uuid, Item>, listing: seq<Pending>, conflicts: seq<Uuid>,
                        draw: nat -> Draw, n: nat)
    requires n < |conflicts|
    ensures ApplyConflicts(env, items, listing, [], draw) == items
    ensures var before := ApplyConflicts(env, items, listing, conflicts[..n], draw);
            var after := ApplyConflicts(env, items, listing, conflicts[..n + 1], draw);
            && ((forall p :: p in listing ==> p.item != conflicts[n]) ==> after == before)
            && (forall i :: 0 <= i < |listing| && listing[i].item == conflicts[n]
                            && (forall j :: i < j < |listing| ==> listing[j].item != conflicts[n]) ==>
                  after == ApplyConflict(env, before, listing[i], draw(n)))
  {
    hide ApplyConflict;
    assert conflicts[..n + 1][..n] == conflicts[..n];
    forall i | 0 <= i < |listing| && listing[i].item == conflicts[n]
               && (forall j :: i < j < |listing| ==> listing[j].item != conflicts[n])
      ensures LastQueued(listing, conflicts[n]) == Some(listing[i])
    {
      LastQueuedIsLast(listing, listing[i]);
    }
  }
}
