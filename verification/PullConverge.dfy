/**
  Resuming while the log moves on: however a pull is cut into pages, interrupted by failed requests
  and crashes and interleaved with commits of other devices, replicas that end at the same log end
  with the same rows and histories (crates/zann-client/src/sync.rs:373-466).
 */
module PullConverge {
  import opened Base
  import opened ReplicaModel
  import opened PullJoin
  import opened ServerLog
  import opened PullRuns

  predicate SameHistory(env: Env, a: Store, b: Store, id: Uuid) {
    && ((env.storage, id) in a.history <==> (env.storage, id) in b.history)
    && ((env.storage, id) in a.history ==> a.history[(env.storage, id)] == b.history[(env.storage, id)])
  }

  /** Row and history of an item are as they were at the start. */
  predicate AsAtStart(env: Env, start: Store, st: Store, id: Uuid) {
    && (id in st.items <==> id in start.items)
    && (id in start.items ==> st.items[id] == start.items[id])
    && SameHistory(env, start, st, id)
  }

  /** What no pull changes of a row. */
  predicate SameIdentity(env: Env, start: Store, row: Item, id: Uuid) {
    && row.storage == env.storage
    && (id in start.items ==>
          row.vault == start.items[id].vault && row.cacheKeyFp == start.items[id].cacheKeyFp
          && start.items[id].storage == env.storage)
    && (id !in start.items ==> row.vault == env.vault && row.cacheKeyFp == None)
  }

  /** A row is the start's, or was pulled since and is newer. */
  predicate Traceable(env: Env, start: Store, st: Store, id: Uuid) {
    AsAtStart(env, start, st, id) ||
    (&& id in st.items && SameIdentity(env, start, st.items[id], id)
     && (id in start.items ==> st.items[id].version > start.items[id].version)
     && st.items[id].status == RemoteStatus(st.items[id].deletedAt))
  }

  /** Pages carry no deletion times. */
  predicate NoDeletions(phase: Phase) {
    phase.Applying? ==> forall c :: c in phase.inbox ==> c.deletedAt.None?
  }

  /** Pulled rows are live. */
  predicate Live(env: Env, start: Store, st: Store, id: Uuid) {
    AsAtStart(env, start, st, id) || (id in st.items && st.items[id].deletedAt.None?)
  }

  predicate TraceOk(env: Env, start: Store, n: Net, id: Uuid) {
    Traceable(env, start, n.store, id) && Live(env, start, n.store, id) && NoDeletions(n.phase)
  }

  lemma StepKeepsTrace(env: Env, start: Store, n: Net, e: Event, id: Uuid)
    requires ValidServer(n.server) && TraceOk(env, start, n, id)
    ensures TraceOk(env, start, Step(env, n, e), id)
  {
    match e
    case Fetch(limit) =>
      if n.phase.Ready? {
        var p := PullPage(n.server, n.phase.mem, limit);
        assert forall i :: 0 <= i < |p.changes| ==> p.changes[i].deletedAt.None?;
      }
    case ApplyNext =>
      if n.phase.Applying? && n.phase.inbox != [] {
        assert n.phase.inbox[0] in n.phase.inbox;
      }
    case _ =>
  }

  lemma {:induction false} RunKeepsTrace(env: Env, start: Store, n: Net, events: seq<Event>, id: Uuid)
    requires ValidServer(n.server) && TraceOk(env, start, n, id)
    ensures TraceOk(env, start, Run(env, n, events), id)
    decreases |events|
  {
    if events != [] {
      StepKeepsTrace(env, start, n, events[0], id);
      StepKeepsServer(env, n, events[0]);
      hide Step, TraceOk;
      RunKeepsTrace(env, start, Step(env, n, events[0]), events[1..], id);
    }
  }

  /** A finished replica, item by item: pulled to the server's content, or untouched and at least as new. */
  predicate Finished(env: Env, start: Store, m: Net, id: Uuid) {
    var last := LastOf(m.server.log, id);
    last.Some? &&
    if id in start.items && (start.items[id].storage != env.storage || start.items[id].version >= last.value.seqNo)
    then AsAtStart(env, start, m.store, id)
    else
      && Matches(env, m.server, m.store, id) && HistoryMatches(env, m.server, m.store, id)
      && SameIdentity(env, start, m.store.items[id], id)
  }

  lemma FinishedRow(env: Env, start: Store, m: Net, id: Uuid)
    requires Inv(env, m, NO_DEBT) && TraceOk(env, start, m, id)
    requires m.stored == LastSeq(m.server.log) && LastOf(m.server.log, id).Some?
    requires id in start.items && start.items[id].storage == env.storage ==> start.items[id].vault == env.vault
    ensures Finished(env, start, m, id) && id in m.store.items
  {
    var last := LastOf(m.server.log, id).value;
    LastSeqIsLast(m.server.log);
    assert Settled(env, m.store, NO_DEBT, last);
    assert id in m.store.items ==> RowOk(env, m.server, m.store, NO_DEBT, id);
    hide LastOf, LastSeq;
  }

  /**
    Two runs from the same start, over any pages, failures, crashes and interleavings, that both end
    with their cursor at the end of the same log: every item of the log has the same row and the same
    history in both. (The start may hold local changes; rows of log items are of this vault.)
   */
  lemma CutsConverge(env: Env, n: Net, one: seq<Event>, two: seq<Event>, id: Uuid)
    requires Inv(env, n, NO_DEBT) && NoDeletions(n.phase)
    requires id in n.store.items && n.store.items[id].storage == env.storage ==> n.store.items[id].vault == env.vault
    requires Run(env, n, one).server == Run(env, n, two).server && LastOf(Run(env, n, one).server.log, id).Some?
    requires Run(env, n, one).stored == LastSeq(Run(env, n, one).server.log) == Run(env, n, two).stored
    ensures var a, b := Run(env, n, one).store, Run(env, n, two).store;
            && id in a.items && id in b.items && a.items[id] == b.items[id]
            && SameHistory(env, a, b, id)
  {
    RunKeepsInv(env, n, NO_DEBT, one);
    RunKeepsInv(env, n, NO_DEBT, two);
    RunKeepsTrace(env, n.store, n, one, id);
    RunKeepsTrace(env, n.store, n, two, id);
    FinishedRow(env, n.store, Run(env, n, one), id);
    FinishedRow(env, n.store, Run(env, n, two), id);
    hide *;
    FinishedAlike(env, n.store, Run(env, n, one), Run(env, n, two), id);
  }

  lemma FinishedAlike(env: Env, start: Store, a: Net, b: Net, id: Uuid)
    requires a.server == b.server && Finished(env, start, a, id) && Finished(env, start, b, id)
    requires id in a.store.items && id in b.store.items
    ensures a.store.items[id] == b.store.items[id] && SameHistory(env, a.store, b.store, id)
  {
    hide LastOf, Served;
  }
}
