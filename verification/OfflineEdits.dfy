/**
  What local changes do to the cache and the queue between two syncs, and what a push takes out of the queue
  (crates/zann-db/src/services/mod.rs:162-189, 412-631, crates/zann-db/src/services/items.rs:227-382,
  crates/zann-client/src/sync.rs:281-371).
 */
module OfflineEdits {
  import opened Base
  import opened ReplicaModel
  import opened ConflictStep
  import opened ServerLog
  import opened PullRuns
  import opened PushCursor
  import opened OfflineModel

  // ----- one local change

  /** Nothing but the row and the queue entry of `id`, and the note of a push on its way, has changed. */
  predicate OnlyItem(d: Dev, t: Dev, id: Uuid) {
    && t.net == d.net.(store := d.net.store.(items := t.net.store.items)) && t.debt == d.debt && t.agreed == d.agreed
    && id in t.net.store.items && t.net.store.items == d.net.store.items[id := t.net.store.items[id]]
    && t.queue - {id} == d.queue - {id}
    && (d.flight.None? ==> t.flight.None?)
    && (d.flight.Some? ==>
          && t.flight.Some? && t.flight.value == d.flight.value.(changed := t.flight.value.changed)
          && t.flight.value.changed == d.flight.value.changed + (if id in d.flight.value.order then {id} else {}))
  }

  /** The row is one of this vault that the services let a user change. */
  predicate CanChange(env: Env, d: Dev, id: Uuid) {
    && id in d.net.store.items && d.net.store.items[id].storage == env.storage
    && d.net.store.items[id].vault == env.vault && d.net.store.items[id].version >= 1
  }

  /** The row is the next version of the old one, where the old one was. */
  predicate IsNextVersion(row: Item, before: Item, now: Time) {
    row.storage == before.storage && row.vault == before.vault && row.version == before.version + 1
    && row.updatedAt == now
  }

  predicate Carries(row: Item, draft: Draft) {
    row.path == draft.path && row.name == draft.name && row.typeId == draft.typeId && row.payload == draft.payload
    && row.checksum == draft.checksum
  }

  /** The base a change is sent with: that of the change already queued, or the version it was made on. */
  function BaseOf(d: Dev, id: Uuid): int
    requires id in d.net.store.items
  {
    if id in d.queue && d.queue[id].Onto? then d.queue[id].base else d.net.store.items[id].version
  }

  lemma EditIs(env: Env, d: Dev, id: Uuid, draft: Draft, now: Time, fp: string)
    requires ValidServer(d.net.server)
    ensures var t := Next(env, d, Edit(id, draft, now, fp));
            if !CanChange(env, d, id) || draft.checksum != env.hash(draft.payload) then t == d
            else
              && OnlyItem(d, t, id)
              && id in t.queue
              && t.queue[id] == (if id in d.queue && d.queue[id].Fresh? then Fresh(draft)
                                 else Onto(false, BaseOf(d, id), draft))
              && var row := t.net.store.items[id];
                 && IsNextVersion(row, d.net.store.items[id], now) && Carries(row, draft)
                 && row.cacheKeyFp == Some(fp) && row.deletedAt == None && row.status == Modified
  {
  }

  lemma RemoveIs(env: Env, d: Dev, id: Uuid, now: Time)
    requires ValidServer(d.net.server)
    ensures var t := Next(env, d, Remove(id, now));
            if !CanChange(env, d, id) || (id in d.queue && d.queue[id].Fresh?) then t == d
            else
              && OnlyItem(d, t, id)
              && var row, before := t.net.store.items[id], d.net.store.items[id];
                 && IsNextVersion(row, before, now) && row.cacheKeyFp == before.cacheKeyFp
                 && row.deletedAt == Some(now) && row.status == Tombstone
                 && id in t.queue && t.queue[id].Onto? && t.queue[id].delete && t.queue[id].base == BaseOf(d, id)
                 && Carries(row, t.queue[id].draft) && Carries(before, t.queue[id].draft)
  {
  }

  /** Deleting an item the server has never seen takes its creation out of the queue. */
  lemma DiscardIs(env: Env, d: Dev, id: Uuid, now: Time)
    requires ValidServer(d.net.server)
    ensures var t := Next(env, d, Discard(id, now));
            if !CanChange(env, d, id) || !(id in d.queue && d.queue[id].Fresh?) then t == d
            else
              && OnlyItem(d, t, id) && id !in t.queue
              && IsNextVersion(t.net.store.items[id], d.net.store.items[id], now)
              && t.net.store.items[id].deletedAt == Some(now) && t.net.store.items[id].status == LocalDeleted
  {
  }

  lemma NewIs(env: Env, d: Dev, id: Uuid, draft: Draft, now: Time, fp: string)
    requires ValidServer(d.net.server)
    ensures var t := Next(env, d, New(id, draft, now, fp));
            if id in d.net.store.items || id in d.queue || draft.checksum != env.hash(draft.payload) then t == d
            else
              && OnlyItem(d, t, id) && id in t.queue && t.queue[id] == Fresh(draft)
              && var row := t.net.store.items[id];
                 && Carries(row, draft) && row.storage == env.storage && row.vault == env.vault
                 && row.cacheKeyFp == Some(fp) && row.version == 1 && row.deletedAt == None && row.updatedAt == now
                 && row.status == Modified
  {
  }

  // ----- many local changes

  /** A change the user makes: no sync, and no other device. */
  predicate IsLocal(e: OfflineModel.Event) {
    e.New? || e.Edit? || e.Remove? || e.Discard?
  }

  function Locally(env: Env, d: Dev, events: seq<OfflineModel.Event>): Dev
    requires ValidServer(d.net.server) && forall i :: 0 <= i < |events| ==> IsLocal(events[i])
    decreases |events|
  {
    if events == [] then d
    else
      LocalStep(env, d, events[0]);
      Locally(env, Next(env, d, events[0]), events[1..])
  }

  lemma LocalStep(env: Env, d: Dev, e: OfflineModel.Event)
    requires ValidServer(d.net.server) && IsLocal(e)
    ensures var t := Next(env, d, e); t == d || OnlyItem(d, t, e.id)
  {
    match e
    case New(id, draft, now, fp) => NewIs(env, d, id, draft, now, fp);
    case Edit(id, draft, now, fp) => EditIs(env, d, id, draft, now, fp);
    case Remove(id, now) => RemoveIs(env, d, id, now);
    case Discard(id, now) => DiscardIs(env, d, id, now);
    case _ =>
  }

  /** The queued change of an item builds on this version, which is what the server has to have for it to accept. */
  predicate BuildsOn(d: Dev, id: Uuid, base: int) {
    id in d.queue && d.queue[id].Onto? && d.queue[id].base == base
  }

  lemma StepKeepsBase(env: Env, d: Dev, e: OfflineModel.Event, id: Uuid, base: int)
    requires ValidServer(d.net.server) && IsLocal(e) && BuildsOn(d, id, base)
    ensures BuildsOn(Next(env, d, e), id, base)
  {
    LocalStep(env, d, e);
    if e.id == id {
      match e
      case New(_, draft, now, fp) => NewIs(env, d, id, draft, now, fp);
      case Edit(_, draft, now, fp) => EditIs(env, d, id, draft, now, fp);
      case Remove(_, now) => RemoveIs(env, d, id, now);
      case Discard(_, now) => DiscardIs(env, d, id, now);
    } else {
      hide Next;
      var t := Next(env, d, e);
      assert t.queue != d.queue ==> id in t.queue - {e.id} <==> id in d.queue - {e.id};
    }
  }

  /**
    However often the user changes items between two pushes, the one queued change of an item that was edited on top
    of version `v` is sent on top of `v`: the server compares with what the user started from.
   */
  lemma {:induction false} FirstBaseStays(env: Env, d: Dev, events: seq<OfflineModel.Event>, id: Uuid, base: int)
    requires ValidServer(d.net.server) && forall i :: 0 <= i < |events| ==> IsLocal(events[i])
    requires BuildsOn(d, id, base)
    ensures BuildsOn(Locally(env, d, events), id, base)
    decreases |events|
  {
    if events != [] {
      LocalStep(env, d, events[0]);
      StepKeepsBase(env, d, events[0], id, base);
      hide Next, BuildsOn, OnlyItem;
      FirstBaseStays(env, Next(env, d, events[0]), events[1..], id, base);
    }
  }

  // ----- what a push takes out of the queue

  /** The reply to a push: exactly what was sent and not changed since is done. */
  lemma ReplyTakes(env: Env, d: Dev)
    requires ValidServer(d.net.server) && d.flight.Some?
    ensures var t, f := Next(env, d, PushReply), d.flight.value;
            && t.flight == None && t.net.phase == Ready(LastSeq(d.net.server.log)) && t.net.stored == d.net.stored
            && t.net.server == d.net.server
            && t.net.store == Store(ApplyAcks(env.storage, d.net.store.items, f.acks), d.net.store.history)
            && (forall id :: id in t.queue <==> id in d.queue && (id in f.order ==> id in f.changed))
            && (forall id :: id in t.queue ==> t.queue[id] == d.queue[id])
  {
    hide ApplyAcks;
  }

  /** A push sends the whole queue, and with no change in between its reply leaves nothing. */
  lemma PushEmptiesQueue(env: Env, d: Dev, order: seq<Uuid>, stamps: nat -> Stamp)
    requires ValidServer(d.net.server) && CanLand(d, order)
    requires ValidServer(Next(env, d, PushLands(order, stamps)).net.server)
    ensures Next(env, Next(env, d, PushLands(order, stamps)), PushReply).queue == map[]
  {
    ReplyTakes(env, Next(env, d, PushLands(order, stamps)));
    hide AcceptPush, Acks, ApplyAcks, Plan;
  }

  /** A refusal: the queue loses what it names, and nothing else; the cursor goes to the end of the log. */
  lemma RefusalTakes(env: Env, d: Dev, named: seq<Uuid>, draw: nat -> Draw)
    requires ValidServer(d.net.server)
    ensures var t := Next(env, d, PushRefused(named, draw));
            if d.flight.Some? || !d.net.phase.Ready? then t == d
            else
              && t.net.phase == Ready(LastSeq(d.net.server.log)) && t.net.stored == d.net.stored
              && t.net.server == d.net.server && t.flight == None && t.agreed == d.agreed
              && t.net.store.history == d.net.store.history
              && (forall id :: id in t.queue <==> id in d.queue && id !in named)
              && (forall id :: id in t.queue ==> t.queue[id] == d.queue[id])
              && (|named| == 1 ==> OneRefused(env, d.net.store.items, t.net.store.items, d.queue, named[0], draw(0)))
  {
    hide ApplyConflict, OneRefused;
    if |named| == 1 {
      OneStep(env, d.net.store.items, d.queue, named, draw);
      RefusedDraft(env, d.net.store.items, d.queue, named[0], draw(0));
    }
  }

  lemma OneStep(env: Env, items: map<Uuid, Item>, queue: Queue, named: seq<Uuid>, draw: nat -> Draw)
    requires |named| == 1
    ensures Refuse(env, items, queue, named, draw)
            == if named[0] in queue then ApplyConflict(env, items, AsPending(env, named[0], queue[named[0]]), draw(0))
               else items
  {
    hide ApplyConflict;
    assert named[..0] == [];
    assert Refuse(env, items, queue, named[..0], draw) == items;
  }

  /** A refused change other than a deletion is kept under its own path and name with an ending. */
  ghost predicate OneRefused(env: Env, before: map<Uuid, Item>, after: map<Uuid, Item>, queue: Queue, id: Uuid,
                             draw: Draw)
  {
    if id !in queue || (queue[id].Onto? && queue[id].delete) then after == before
    else if id in before && before[id].storage == env.storage then KeptDraft(before, after, queue[id].draft, id, draw)
    else if draw.newId !in before then KeptDraft(before, after, queue[id].draft, draw.newId, draw)
    else after == before
  }

  ghost predicate KeptDraft(before: map<Uuid, Item>, after: map<Uuid, Item>, draft: Draft, at: Uuid, draw: Draw) {
    && at in after && after == before[at := after[at]] && after[at].status == Conflict
    && after[at].payload == draft.payload && after[at].checksum == draft.checksum && after[at].typeId == draft.typeId
    && exists k :: 0 <= k < 7 && after[at].path == draft.path + Endings(draw.stamp)[k]
                   && after[at].name == draft.name + Endings(draw.stamp)[k]
  }

  lemma RefusedDraft(env: Env, items: map<Uuid, Item>, queue: Queue, id: Uuid, draw: Draw)
    ensures var after := if id in queue then ApplyConflict(env, items, AsPending(env, id, queue[id]), draw) else items;
            OneRefused(env, items, after, queue, id, draw)
  {
    if id in queue {
      var p := AsPending(env, id, queue[id]);
      var after := ApplyConflict(env, items, p, draw);
      RefusedChangeIsKept(env, items, p, draw);
      hide ApplyConflict, Endings, InUse;
      if p.payload.Some? && ((id in items && items[id].storage == env.storage) || draw.newId !in items) {
        var at, k: nat :|
          && at in after && after == items[at := after[at]]
          && KeepsChange(env, items, p, draw, at, after[at]) && NamedBy(env, items, p, draw, after[at], k);
        assert after[at].path == queue[id].draft.path + Endings(draw.stamp)[k];
      }
    }
  }

  // ----- what the server makes of a push

  /**
    The server's test, spelt out over its log: a creation is accepted if the item has no entry; a change if it has
    one, and none is newer than the base, or the base is not a real version.
   */
  lemma AcceptsIff(s: Server, id: Uuid, c: Change)
    requires ValidServer(s)
    ensures Accepts(s, id, c) <==>
            if c.Fresh? then forall e :: e in s.log ==> e.item != id
            else (exists e :: e in s.log && e.item == id)
                 && (c.base <= 0 || forall e :: e in s.log && e.item == id ==> e.seqNo <= c.base)
  {
    if LastOf(s.log, id).Some? {
      assert LastOf(s.log, id).value in s.log;
    }
  }

  /** What the server holds of an item after a push of it: the draft, or for a deletion what it had. */
  predicate StoredAs(s: Server, t: Server, id: Uuid, c: Change, stamp: Stamp) {
    && id in t.items && t.items[id].updatedAt == stamp.at && t.items[id].history == stamp.history
    && (if c.Onto? && c.delete && id in s.items then
          t.items[id] == s.items[id].(updatedAt := stamp.at, history := stamp.history)
        else
          && t.items[id].path == c.draft.path && t.items[id].name == c.draft.name
          && t.items[id].typeId == c.draft.typeId && t.items[id].payload == c.draft.payload
          && t.items[id].checksum == c.draft.checksum)
  }

  /** The log entry of a change: a creation, an update or a deletion. */
  predicate LoggedAs(e: LogEntry, id: Uuid, c: Change) {
    e.item == id && e.op == (if c.Fresh? then Create else if c.delete then Delete else Update)
  }

  predicate Distinct(order: seq<Uuid>) {
    forall i, j :: 0 <= i < j < |order| ==> order[i] != order[j]
  }

  lemma PlanIs(s: Server, queue: Queue, order: seq<Uuid>, stamps: nat -> Stamp)
    requires forall k :: 0 <= k < |order| ==> order[k] in queue
    ensures var ps := Plan(s, queue, order, stamps);
            forall i :: 0 <= i < |order| ==>
              ps[i] == Pushed(order[i], OpOf(queue[order[i]]), StoredContent(s, order[i], queue[order[i]], stamps(i)),
                              stamps(i).gap)
  {
    hide OpOf, StoredContent;
  }

  lemma OnlyChange(s: Server, t: Server, ps: seq<Pushed>, order: seq<Uuid>, i: nat)
    requires i < |order| == |ps| && Distinct(order) && forall k :: 0 <= k < |ps| ==> ps[k].item == order[k]
    requires HoldsLast(s, t, ps, order[i])
    ensures order[i] in t.items && t.items[order[i]] == ps[i].content
  {
    assert ps[i].item == order[i];
  }

  /** One change of a push, from the plan to the server's table and log. */
  lemma LandedChange(s: Server, queue: Queue, order: seq<Uuid>, stamps: nat -> Stamp, i: nat)
    requires ValidServer(s) && i < |order| && Distinct(order)
    requires forall k :: 0 <= k < |order| ==> order[k] in queue
    ensures var u := AcceptPush(s, Plan(s, queue, order, stamps));
            && |s.log| + i < |u.log| && LoggedAs(u.log[|s.log| + i], order[i], queue[order[i]])
            && StoredAs(s, u, order[i], queue[order[i]], stamps(i))
  {
    hide AcceptPush, Acks, Plan, HoldsLast, Distinct, ValidServer;
    var ps := Plan(s, queue, order, stamps);
    var u := AcceptPush(s, ps);
    PlanIs(s, queue, order, stamps);
    AcceptedEntries(s, ps);
    AcceptedItems(s, ps, order[i]);
    OnlyChange(s, u, ps, order, i);
    assert Reports(ps[i], u.log[|s.log| + i], Acks(s, ps)[i]);
  }

  lemma LandedElsewhere(s: Server, queue: Queue, order: seq<Uuid>, stamps: nat -> Stamp, id: Uuid)
    requires forall k :: 0 <= k < |order| ==> order[k] in queue
    requires id in s.items && id !in order
    ensures var u := AcceptPush(s, Plan(s, queue, order, stamps)); id in u.items && u.items[id] == s.items[id]
  {
    var ps := Plan(s, queue, order, stamps);
    assert forall k :: 0 <= k < |ps| ==> ps[k].item == order[k];
    AcceptedItems(s, ps, id);
    hide AcceptPush, Plan;
  }

  lemma LogGrows(s: Server, t: Server, ps: seq<Pushed>, acks: seq<AppliedChange>)
    requires EntriesAre(s, t, ps, acks)
    ensures |t.log| == |s.log| + |ps| && s.log <= t.log
  {
  }

  lemma OrderIsQueue(d: Dev, order: seq<Uuid>)
    requires CanLand(d, order)
    ensures Distinct(order) && forall k :: 0 <= k < |order| ==> order[k] in d.queue
  {
  }

  lemma LandingStep(env: Env, d: Dev, order: seq<Uuid>, stamps: nat -> Stamp)
    requires ValidServer(d.net.server) && CanLand(d, order)
    ensures var t, u := Next(env, d, PushLands(order, stamps)),
                        AcceptPush(d.net.server, Plan(d.net.server, d.queue, order, stamps));
            && t == d.(net := d.net.(server := u), flight := t.flight)
            && t.flight.Some? && t.flight.value.order == order && t.flight.value.sent == d.queue
            && t.flight.value.changed == {}
  {
    hide AcceptPush, Acks, Plan;
  }

  /** A push that lands: the server holds every queued draft and logs it; the client waits for the reply. */
  lemma LandedIs(env: Env, d: Dev, order: seq<Uuid>, stamps: nat -> Stamp)
    requires ValidServer(d.net.server) && CanLand(d, order)
    ensures var t := Next(env, d, PushLands(order, stamps));
            var s, u := d.net.server, t.net.server;
            && ValidServer(u) && |u.log| == |s.log| + |order| && s.log <= u.log
            && (forall i :: 0 <= i < |order| ==>
                  && LoggedAs(u.log[|s.log| + i], order[i], d.queue[order[i]])
                  && StoredAs(s, u, order[i], d.queue[order[i]], stamps(i)))
            && (forall id :: id in s.items && id !in order ==> id in u.items && u.items[id] == s.items[id])
            && t == d.(net := d.net.(server := u), flight := t.flight)
            && t.flight.Some? && t.flight.value.order == order && t.flight.value.sent == d.queue
            && t.flight.value.changed == {}
  {
    hide *;
    OrderIsQueue(d, order);
    LandingStep(env, d, order, stamps);
    var s, ps := d.net.server, Plan(d.net.server, d.queue, order, stamps);
    var u := AcceptPush(s, ps);
    AcceptedEntries(s, ps);
    LogGrows(s, u, ps, Acks(s, ps));
    forall i | 0 <= i < |order|
      ensures LoggedAs(u.log[|s.log| + i], order[i], d.queue[order[i]])
      ensures StoredAs(s, u, order[i], d.queue[order[i]], stamps(i))
    {
      LandedChange(s, d.queue, order, stamps, i);
    }
    forall id | id in s.items && id !in order ensures id in u.items && u.items[id] == s.items[id] {
      LandedElsewhere(s, d.queue, order, stamps, id);
    }
  }
}
