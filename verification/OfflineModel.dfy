/**
  An offline-first client over its whole life: local edits at any moment, pushes with their
  acknowledgements and refusals, pulls, failures and crashes in any order, while other devices keep
  committing. The claim is about every row without a local change: it agrees with the server up to
  the cursor, except for entries the cursor passed over and items changed again between a push and
  its reply, both of which are written down as debt
  (crates/zann-client/src/sync.rs:269-466, crates/zann-db/src/services/mod.rs:162-189, 412-524,
  crates/zann-db/src/services/items.rs:227-382,
  crates/zann-server/src/domains/sync/http/v1/handlers/push_apply.rs:85-144, 304-311, 630-637).
 */
module OfflineModel {
  import opened Base
  import opened ReplicaModel
  import opened ConflictStep
  import opened ServerLog
  import opened PullJoin
  import opened PullRuns
  import opened PushCursor

  // ----- the queue

  /** What a local change wants an item to be. */
  datatype Draft = Draft(path: string, name: string, typeId: string, payload: Bytes, checksum: string)

  /** A queued change: the creation of an item, or a change on top of a version. One per item. */
  datatype Change = Fresh(draft: Draft) | Onto(delete: bool, base: int, draft: Draft)

  type Queue = map<Uuid, Change>

  function OpOf(c: Change): Op {
    if c.Fresh? then Create else if c.delete then Delete else Update
  }

  function DraftOf(row: Item): Draft {
    Draft(row.path, row.name, row.typeId, row.payload, row.checksum)
  }

  /** The server's test: a creation needs an unknown item, a change an item that has not moved past its base. */
  predicate Accepts(s: Server, id: Uuid, c: Change) {
    match LastOf(s.log, id)
    case None => c.Fresh?
    case Some(e) => c.Onto? && (c.base <= 0 || e.seqNo <= c.base)
  }

  /** `track_pending`: a second change keeps the base of the first, and a creation stays one. */
  function Merge(queue: Queue, id: Uuid, c: Change): Change {
    if id !in queue then c
    else match queue[id]
      case Fresh(_) => Fresh(c.draft)
      case Onto(_, base, _) => if c.Onto? then c.(base := base) else c
  }

  // ----- the client

  /** A push whose reply is on its way: what was sent, and which of those items were changed since. */
  datatype Flight = Flight(order: seq<Uuid>, acks: seq<AppliedChange>, sent: Queue, changed: set<Uuid>)

  datatype Dev = Dev(net: Net, queue: Queue, flight: Option<Flight>, debt: Debt, agreed: Agreed)

  /** What the server adds to a pushed change: its clock, the history it keeps, numbers it skips. */
  datatype Stamp = Stamp(at: Time, history: seq<HistoryEntry>, gap: nat)

  datatype Event =
    | Pulling(step: PullRuns.Event)
    | New(id: Uuid, draft: Draft, now: Time, fp: string)
    | Edit(id: Uuid, draft: Draft, now: Time, fp: string)
    | Remove(id: Uuid, now: Time)
    | Discard(id: Uuid, now: Time)
    | PushLands(order: seq<Uuid>, stamps: nat -> Stamp)
    | PushReply
    | PushRefused(named: seq<Uuid>, draw: nat -> Draw)

  function WithItems(d: Dev, items: map<Uuid, Item>): Dev {
    d.(net := d.net.(store := d.net.store.(items := items)))
  }

  /** A row the local services work on. */
  predicate Editable(env: Env, d: Dev, id: Uuid) {
    var items := d.net.store.items;
    && id in items && items[id].storage == env.storage && items[id].vault == env.vault
    && items[id].version > 0
  }

  /** A local change: its row, the queue, and a note if the item is in a push on its way. */
  function Changed(d: Dev, id: Uuid, row: Item, queue: Queue): Dev {
    WithItems(d, d.net.store.items[id := row])
    .(queue := queue,
      flight := if d.flight.None? || id !in d.flight.value.order then d.flight
                else Some(d.flight.value.(changed := d.flight.value.changed + {id})))
  }

  function NewRow(env: Env, draft: Draft, now: Time, fp: string): Item {
    Item(env.storage, env.vault, draft.path, draft.name, draft.typeId, draft.payload, draft.checksum, Some(fp), 1, None,
         now, Modified)
  }

  function EditedRow(row: Item, draft: Draft, now: Time, fp: string): Item {
    row.(path := draft.path, name := draft.name, typeId := draft.typeId, payload := draft.payload,
         checksum := draft.checksum, cacheKeyFp := Some(fp), version := row.version + 1, updatedAt := now,
         deletedAt := None, status := Modified)
  }

  function RemovedRow(row: Item, now: Time, status: SyncStatus): Item {
    row.(deletedAt := Some(now), updatedAt := now, version := row.version + 1, status := status)
  }

  /** What the server stores for a queued change. */
  function StoredContent(s: Server, id: Uuid, c: Change, stamp: Stamp): ServerItem {
    if OpOf(c) == Delete && id in s.items then s.items[id].(updatedAt := stamp.at, history := stamp.history)
    else ServerItem(c.draft.path, c.draft.name, c.draft.typeId, c.draft.payload, c.draft.checksum, stamp.at,
                    stamp.history)
  }

  function Plan(s: Server, queue: Queue, order: seq<Uuid>, stamps: nat -> Stamp): (ps: seq<Pushed>)
    requires forall i :: 0 <= i < |order| ==> order[i] in queue
    ensures |ps| == |order|
  {
    seq(|order|, i requires 0 <= i < |order| =>
      var c := queue[order[i]];
      Pushed(order[i], OpOf(c), StoredContent(s, order[i], c, stamps(i)), stamps(i).gap))
  }

  /** The order lists the whole queue once, and the server accepts all of it. */
  predicate CanLand(d: Dev, order: seq<Uuid>) {
    && d.flight.None? && d.net.phase.Ready?
    && (forall i :: 0 <= i < |order| ==> order[i] in d.queue && Accepts(d.net.server, order[i], d.queue[order[i]]))
    && (forall id :: id in d.queue ==> id in order)
    && (forall i, j :: 0 <= i < j < |order| ==> order[i] != order[j])
  }

  /** Entries of the log that the replica has not got. */
  function Missing(log: seq<LogEntry>, agreed: Agreed): set<LogEntry> {
    set e | e in log && !Got(agreed, e)
  }

  /** The reply's cursor: the end of the log as the server reads it now, whatever has been got. */
  function Answered(d: Dev, own: set<Uuid>, loose: set<Uuid>): Dev {
    var log := d.net.server.log;
    d.(net := d.net.(phase := Ready(LastSeq(log))), flight := None,
       debt := Debt(d.debt.missed + Missing(log, d.agreed), d.debt.own + own, d.debt.loose + loose))
  }

  function Listed(order: seq<Uuid>): set<Uuid> {
    set id | id in order
  }

  /** A queue row is deleted by its own id, so a change made since the push stays. */
  function Unsent(queue: Queue, f: Flight): Queue {
    map id | id in queue && (id !in f.order || id in f.changed) :: queue[id]
  }

  function AsPending(env: Env, id: Uuid, c: Change): Pending {
    Pending(0, env.storage, env.vault, id,
            match OpOf(c) case Create => OpCreate case Update => OpUpdate case Delete => OpDelete,
            if OpOf(c) == Delete then None else Some(c.draft.payload),
            if OpOf(c) == Delete then None else Some(c.draft.checksum),
            Some(c.draft.path), Some(c.draft.name), Some(c.draft.typeId),
            if c.Fresh? then None else Some(c.base), 0)
  }

  /** The conflict steps of a refusal. */
  function Refuse(env: Env, items: map<Uuid, Item>, queue: Queue, named: seq<Uuid>, draw: nat -> Draw): map<Uuid, Item>
    decreases |named|
  {
    if named == [] then items
    else
      var n := |named| - 1;
      var before := Refuse(env, items, queue, named[..n], draw);
      if named[n] !in queue then before
      else ApplyConflict(env, before, AsPending(env, named[n], queue[named[n]]), draw(n))
  }

  function Without(queue: Queue, named: seq<Uuid>): Queue {
    map id | id in queue && id !in named :: queue[id]
  }

  /** While a push is on its way the client waits; others commit, and the reply may be lost. */
  predicate MayPull(d: Dev, e: PullRuns.Event) {
    d.flight.None? || e.CommitE? || e.Crash?
  }

  /** The bookkeeping of one pulled change: agreed on if it is written, owed if it is not. */
  function Booked(env: Env, d: Dev, c: PullChange): Dev {
    var passed := set e | e in d.net.server.log && e.item == c.item && e.seqNo <= c.seqNo && !Got(d.agreed, e);
    if !Beats(d.net.store, env, c) then d.(debt := d.debt.(missed := d.debt.missed + passed))
    else
      d.(agreed := d.agreed[c.item := c.seqNo],
         debt := if c.item in d.queue then d.debt else d.debt.(loose := d.debt.loose - {c.item}))
  }

  function Pulled(env: Env, d: Dev, step: PullRuns.Event): Dev
    requires ValidServer(d.net.server)
  {
    var booked := if step.ApplyNext? && d.net.phase.Applying? && d.net.phase.inbox != []
                  then Booked(env, d, d.net.phase.inbox[0]) else d;
    booked.(net := Step(env, d.net, step), flight := if step.Crash? then None else d.flight)
  }

  function Replied(env: Env, d: Dev, f: Flight): Dev {
    var acked := WithItems(d, ApplyAcks(env.storage, d.net.store.items, f.acks));
    Answered(acked.(queue := Unsent(d.queue, f), agreed := AgreedAcks(d.agreed, f.acks)),
             Listed(f.order), f.changed)
  }

  /** One event; an event that is not enabled changes nothing. */
  function Next(env: Env, d: Dev, e: Event): Dev
    requires ValidServer(d.net.server)
  {
    var items := d.net.store.items;
    match e
    case Pulling(step) => if MayPull(d, step) then Pulled(env, d, step) else d
    case New(id, draft, now, fp) =>
      if id !in items && id !in d.queue && draft.checksum == env.hash(draft.payload) then
        Changed(d, id, NewRow(env, draft, now, fp), d.queue[id := Fresh(draft)])
      else d
    case Edit(id, draft, now, fp) =>
      if Editable(env, d, id) && draft.checksum == env.hash(draft.payload) then
        Changed(d, id, EditedRow(items[id], draft, now, fp),
                d.queue[id := Merge(d.queue, id, Onto(false, items[id].version, draft))])
      else d
    case Remove(id, now) =>
      if Editable(env, d, id) && (id in d.queue ==> d.queue[id].Onto?) then
        Changed(d, id, RemovedRow(items[id], now, Tombstone),
                d.queue[id := Merge(d.queue, id, Onto(true, items[id].version, DraftOf(items[id])))])
      else d
    case Discard(id, now) =>
      if Editable(env, d, id) && id in d.queue && d.queue[id].Fresh? then
        Changed(d, id, RemovedRow(items[id], now, LocalDeleted), d.queue - {id})
      else d
    case PushLands(order, stamps) =>
      if CanLand(d, order) then
        var ps := Plan(d.net.server, d.queue, order, stamps);
        d.(net := d.net.(server := AcceptPush(d.net.server, ps)),
           flight := Some(Flight(order, Acks(d.net.server, ps), d.queue, {})))
      else d
    case PushReply => if d.flight.Some? then Replied(env, d, d.flight.value) else d
    case PushRefused(named, draw) =>
      if d.flight.None? && d.net.phase.Ready? then
        Answered(WithItems(d, Refuse(env, items, d.queue, named, draw)).(queue := Without(d.queue, named)), {}, {})
      else d
  }

  // ----- the invariant

  /** The server has an entry of the item that the queued change does not build on. */
  predicate MovedOn(s: Server, id: Uuid, c: Change) {
    LastOf(s.log, id).Some? && (c.Onto? ==> LastOf(s.log, id).value.seqNo > c.base)
  }

  predicate AtHomeRow(env: Env, items: map<Uuid, Item>, id: Uuid) {
    id in items && items[id].storage == env.storage && items[id].vault == env.vault
  }

  /** A queued item has its row, newer than its base, and still the draft unless the server has moved on. */
  predicate QueuedOk(env: Env, s: Server, items: map<Uuid, Item>, id: Uuid, c: Change) {
    && AtHomeRow(env, items, id)
    && (c.Onto? ==> 0 < c.base < items[id].version)
    && (OpOf(c) != Delete && !MovedOn(s, id, c) ==> DraftOf(items[id]) == c.draft)
  }

  /** What is queued is sound; of items that were changed during a push only that they have their row. */
  predicate QueueOk(env: Env, s: Server, items: map<Uuid, Item>, queue: Queue, loose: set<Uuid>) {
    forall id :: id in queue ==>
      && AtHomeRow(env, items, id) && (queue[id].Onto? ==> queue[id].base > 0)
      && (OpOf(queue[id]) != Delete ==> queue[id].draft.checksum == env.hash(queue[id].draft.payload))
      && (id !in loose ==> QueuedOk(env, s, items, id, queue[id]))
  }

  /** An acknowledgement on its way tells the truth about the server. */
  predicate ReportOk(s: Server, id: Uuid, c: Change, a: AppliedChange) {
    && a.item == id && (a.deletedAt.Some? <==> OpOf(c) == Delete)
    && LogEntry(a.seqNo, id, OpOf(c)) in s.log
    && (OpOf(c) != Delete && LastOf(s.log, id) == Some(LogEntry(a.seqNo, id, OpOf(c))) ==>
          && id in s.items && s.items[id].updatedAt == a.updatedAt
          && ContentOf(s.items[id]) == c.draft)
  }

  function ContentOf(i: ServerItem): Draft {
    Draft(i.path, i.name, i.typeId, i.payload, i.checksum)
  }

  /** One item of a push on its way: its row, and the queue and draft as they were sent unless changed since. */
  predicate SentOk(env: Env, items: map<Uuid, Item>, queue: Queue, loose: set<Uuid>, f: Flight, id: Uuid)
    requires id in f.sent
  {
    && AtHomeRow(env, items, id)
    && (OpOf(f.sent[id]) != Delete ==> f.sent[id].draft.checksum == env.hash(f.sent[id].draft.payload))
    && (id !in f.changed ==> id in queue && queue[id] == f.sent[id])
    && (id !in f.changed && id !in loose && OpOf(f.sent[id]) != Delete ==> DraftOf(items[id]) == f.sent[id].draft)
  }

  predicate FlightOk(env: Env, s: Server, items: map<Uuid, Item>, queue: Queue, loose: set<Uuid>, f: Flight) {
    && |f.acks| == |f.order|
    && (forall i, j :: 0 <= i < j < |f.order| ==> f.order[i] != f.order[j])
    && (forall i :: 0 <= i < |f.order| ==>
          f.order[i] in f.sent && ReportOk(s, f.order[i], f.sent[f.order[i]], f.acks[i]))
    && (forall i :: 0 <= i < |f.order| ==> f.order[i] in f.sent && SentOk(env, items, queue, loose, f, f.order[i]))
  }

  /** An agreed number is that of an entry of the item, and the row is at least as new. */
  predicate AgreedOk(s: Server, items: map<Uuid, Item>, agreed: Agreed) {
    forall id :: id in agreed ==>
      && id in items && agreed[id] <= items[id].version
      && exists e :: e in s.log && e.item == id && e.seqNo == agreed[id]
  }

  predicate Accounted(agreed: Agreed, missed: set<LogEntry>, e: LogEntry) {
    Got(agreed, e) || e in missed
  }

  /** Every entry a cursor has passed was got or is owed. */
  predicate GotUpTo(agreed: Agreed, missed: set<LogEntry>, log: seq<LogEntry>, upTo: int) {
    forall e :: e in log && e.seqNo <= upTo ==> Accounted(agreed, missed, e)
  }

  predicate CursorsOk(n: Net, agreed: Agreed, missed: set<LogEntry>) {
    && GotUpTo(agreed, missed, n.server.log, n.stored)
    && match n.phase
       case Idle => true
       case Ready(mem) => GotUpTo(agreed, missed, n.server.log, mem)
       case Applying(_, inbox, next, _) =>
         forall e :: e in n.server.log && e.seqNo <= next ==> Accounted(agreed, missed, e) || WillSee(inbox, e)
  }

  predicate DevInv(env: Env, d: Dev) {
    && Inv(env, d.net, d.debt)
    && QueueOk(env, d.net.server, d.net.store.items, d.queue, d.debt.loose)
    && AgreedOk(d.net.server, d.net.store.items, d.agreed)
    && CursorsOk(d.net, d.agreed, d.debt.missed)
    && (d.flight.Some? ==>
          && d.net.phase.Ready?
          && FlightOk(env, d.net.server, d.net.store.items, d.queue, d.debt.loose, d.flight.value))
  }
}
