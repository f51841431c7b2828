/**
  What every sync step keeps, over any interleaving of pulls, shared pulls, acknowledgements and
  conflict steps (crates/zann-client/src/sync_helpers.rs:136-493).
 */
module CacheRuns {
  import opened Base
  import opened ReplicaModel
  import opened ConflictStep
  import opened ServerLog
  import opened PullJoin

  /** A change of a shared vault: its payload is sealed again for the cache, which may fail. */
  datatype SharedChange = SharedChange(
    item: Uuid, seqNo: int, updatedAt: Time, deletedAt: Option<Time>, path: string, name: string,
    typeId: string, payload: Option<Result<Bytes, string>>, history: seq<HistoryEntry>)

  /** A shared change as an ordinary one, once its payload is sealed. */
  function AsPull(env: Env, c: SharedChange): PullChange
    requires c.payload.Some? ==> c.payload.value.Ok?
  {
    PullChange(c.item, c.seqNo, c.updatedAt, c.deletedAt, c.path, c.name, c.typeId,
               if c.payload.Some? then Some(c.payload.value.value) else None,
               if c.payload.Some? then env.hash(c.payload.value.value) else "", c.history)
  }

  /** `apply_shared_pull_change`: a failed seal gives up before any write. */
  function ApplySharedPull(env: Env, st: Store, c: SharedChange): Store {
    if c.payload.Some? && c.payload.value.Err? then st else ApplyPull(env, st, AsPull(env, c))
  }

  datatype CacheStep =
    | Pull(change: PullChange)
    | SharedPull(shared: SharedChange)
    | Ack(ack: AppliedChange)
    | Refuse(pending: Pending, draw: Draw)

  function CacheAfter(env: Env, st: Store, step: CacheStep): Store {
    match step
    case Pull(c) => ApplyPull(env, st, c)
    case SharedPull(c) => ApplySharedPull(env, st, c)
    case Ack(a) => st.(items := ApplyAck(env.storage, st.items, a))
    case Refuse(p, d) => st.(items := ApplyConflict(env, st.items, p, d))
  }

  function CacheRun(env: Env, st: Store, steps: seq<CacheStep>): Store
    decreases |steps|
  {
    if steps == [] then st else CacheRun(env, CacheAfter(env, st, steps[0]), steps[1..])
  }

  /** Synced rows carry no deletion mark, tombstones carry one. */
  predicate StatusOk(items: map<Uuid, Item>) {
    forall id :: id in items ==>
      && (items[id].status == Synced ==> items[id].deletedAt.None?)
      && (items[id].status == Tombstone ==> items[id].deletedAt.Some?)
  }

  /** The acknowledgement numbers a row lower than the cache does. */
  predicate Lowers(env: Env, st: Store, step: CacheStep, id: Uuid) {
    && step.Ack? && step.ack.item == id
    && id in st.items && st.items[id].storage == env.storage && step.ack.seqNo < st.items[id].version
  }

  /** Rows never vanish, and a version goes down exactly when a lower acknowledgement says so. */
  lemma VersionDropsOnlyByAck(env: Env, st: Store, step: CacheStep, id: Uuid)
    requires id in st.items
    requires step.Refuse? ==> step.draw.newId !in st.items
    ensures id in CacheAfter(env, st, step).items
    ensures CacheAfter(env, st, step).items[id].version < st.items[id].version <==> Lowers(env, st, step, id)
    ensures CacheAfter(env, st, step).items[id].storage == st.items[id].storage
    ensures CacheAfter(env, st, step).items[id].vault == st.items[id].vault
  {
  }

  /** Fresh identifiers are fresh, and acknowledgements are never behind the cache. */
  predicate Orderly(env: Env, st: Store, steps: seq<CacheStep>)
    decreases |steps|
  {
    steps == [] ||
    (&& (steps[0].Refuse? ==> steps[0].draw.newId !in st.items)
     && (steps[0].Ack? ==> !Lowers(env, st, steps[0], steps[0].ack.item))
     && Orderly(env, CacheAfter(env, st, steps[0]), steps[1..]))
  }

  lemma StepKeepsStatus(env: Env, st: Store, step: CacheStep)
    requires StatusOk(st.items)
    ensures StatusOk(CacheAfter(env, st, step).items)
  {
  }

  /** The status discipline survives every run, orderly or not. */
  lemma {:induction false} RunsKeepStatus(env: Env, st: Store, steps: seq<CacheStep>)
    requires StatusOk(st.items)
    ensures StatusOk(CacheRun(env, st, steps).items)
    decreases |steps|
  {
    if steps != [] {
      StepKeepsStatus(env, st, steps[0]);
      hide CacheAfter, StatusOk;
      RunsKeepStatus(env, CacheAfter(env, st, steps[0]), steps[1..]);
    }
  }

  /** Over every orderly run no row disappears and no version goes down. */
  lemma {:induction false} RunsKeepVersions(env: Env, st: Store, steps: seq<CacheStep>, id: Uuid)
    requires id in st.items && Orderly(env, st, steps)
    ensures id in CacheRun(env, st, steps).items
    ensures CacheRun(env, st, steps).items[id].version >= st.items[id].version
    decreases |steps|
  {
    if steps != [] {
      VersionDropsOnlyByAck(env, st, steps[0], id);
      RunsKeepVersions(env, CacheAfter(env, st, steps[0]), steps[1..], id);
    }
  }

  /**
    The server's replies carry no deletion time, so a remote deletion that lands never becomes a
    tombstone: it leaves a live, synced row with an empty payload.
   */
  lemma RemoteDeletionStaysLive(env: Env, s: Server, st: Store, e: LogEntry)
    requires e.item in s.items && e.op == Delete && Beats(st, env, Served(s, e))
    ensures var row := ApplyPull(env, st, Served(s, e)).items;
            && e.item in row && row[e.item].status == Synced && row[e.item].deletedAt.None?
            && row[e.item].payload == [] && row[e.item].path == s.items[e.item].path
  {
  }

  /**
    A change of a shared vault, field by field. Without a seal it does nothing. With one, it beats the same
    rows as an ordinary change, and then the row holds the sealed payload and its checksum.
   */
  lemma SharedRowIs(env: Env, st: Store, c: SharedChange)
    ensures var after := ApplySharedPull(env, st, c);
            var kept := c.item in st.items && (st.items[c.item].storage != env.storage
                                               || st.items[c.item].version >= c.seqNo);
            if kept || (c.payload.Some? && c.payload.value.Err?) then after == st
            else
              && c.item in after.items && KeepsHome(env, st, c.item, after.items[c.item])
              && after == Store(st.items[c.item := after.items[c.item]],
                                st.history[(env.storage, c.item) := c.history])
              && var row := after.items[c.item];
                 && row.path == c.path && row.name == c.name && row.typeId == c.typeId
                 && (c.payload == None ==> row.payload == [] && row.checksum == "")
                 && (c.payload.Some? ==> c.payload == Some(Ok(row.payload)) && row.checksum == env.hash(row.payload))
                 && row.version == c.seqNo && row.updatedAt == c.updatedAt && row.deletedAt == c.deletedAt
                 && row.status == (if c.deletedAt == None then Synced else Tombstone)
  {
  }

  // ----- what a step of a run writes

  /** The change meets no row of its item, or an older one of this storage. */
  predicate Newer(env: Env, st: Store, id: Uuid, seqNo: int) {
    id in st.items ==> st.items[id].storage == env.storage && st.items[id].version < seqNo
  }

  /** A pull writes the row and the history of its item if it is newer; an acknowledgement renumbers the item's row. */
  lemma StepWrites(env: Env, st: Store, step: CacheStep)
    ensures var t := CacheAfter(env, st, step);
            match step
            case Pull(c) =>
              if !Newer(env, st, c.item, c.seqNo) then t == st
              else
                && c.item in t.items && KeepsHome(env, st, c.item, t.items[c.item])
                && ShowsChange(env, t.items[c.item], c)
                && t == Store(st.items[c.item := t.items[c.item]], st.history[(env.storage, c.item) := c.history])
            case SharedPull(c) => t == ApplySharedPull(env, st, c)
            case Ack(a) =>
              if a.item !in st.items || st.items[a.item].storage != env.storage then t == st
              else
                t == Store(st.items[a.item := st.items[a.item].(version := a.seqNo, updatedAt := a.updatedAt,
                                                                deletedAt := a.deletedAt,
                                                                status := if a.deletedAt == None then Synced
                                                                          else Tombstone)], st.history)
            case Refuse(p, d) => t.history == st.history && RefusalKeeps(env, st.items, t.items, p, d)
  {
    match step
    case Refuse(p, d) => RefusedChangeIsKept(env, st.items, p, d);
    case _ => hide ApplyConflict;
  }

  /** A refused change with a payload is kept in one row, if it can be. */
  ghost predicate RefusalKeeps(env: Env, before: map<Uuid, Item>, after: map<Uuid, Item>, p: Pending, d: Draw) {
    if p.payload.Some? && ((p.item in before && before[p.item].storage == env.storage) || d.newId !in before) then
      exists id, k ::
        && id in after && after == before[id := after[id]]
        && KeepsChange(env, before, p, d, id, after[id]) && NamedBy(env, before, p, d, after[id], k)
    else
      after == before
  }
}
