/** What an offline-first client keeps, over every life it may lead. */
module OfflineRuns {
  import opened Base
  import opened ReplicaModel
  import opened ConflictStep
  import opened ServerLog
  import opened PullJoin
  import opened PullRuns
  import opened PushCursor
  import opened OfflineModel

  // ----- commits of other devices

  lemma CommitKeepsQueued(env: Env, s: Server, items: map<Uuid, Item>, item: Uuid, op: Op, content: ServerItem,
                          gap: nat, id: Uuid, c: Change)
    requires ValidServer(s) && QueuedOk(env, s, items, id, c)
    ensures QueuedOk(env, Commit(s, item, op, content, gap), items, id, c)
  {
    CommitAppends(s, item, op, content, gap);
    LastSeqIsLast(s.log);
    hide LastOf, LastSeq, Ascending;
  }

  lemma CommitKeepsQueue(env: Env, s: Server, items: map<Uuid, Item>, queue: Queue, loose: set<Uuid>, item: Uuid,
                         op: Op, content: ServerItem, gap: nat)
    requires ValidServer(s) && QueueOk(env, s, items, queue, loose)
    ensures QueueOk(env, Commit(s, item, op, content, gap), items, queue, loose)
  {
    hide QueuedOk, Commit;
    forall id | id in queue && id !in loose
      ensures QueuedOk(env, Commit(s, item, op, content, gap), items, id, queue[id])
    {
      CommitKeepsQueued(env, s, items, item, op, content, gap, id, queue[id]);
    }
  }

  lemma CommitKeepsReport(s: Server, item: Uuid, op: Op, content: ServerItem, gap: nat, id: Uuid, c: Change,
                          a: AppliedChange)
    requires ValidServer(s) && ReportOk(s, id, c, a)
    ensures ReportOk(Commit(s, item, op, content, gap), id, c, a)
  {
    CommitAppends(s, item, op, content, gap);
    LastSeqIsLast(s.log);
    hide LastOf, LastSeq, Ascending;
  }

  lemma CommitKeepsFlight(env: Env, s: Server, items: map<Uuid, Item>, queue: Queue, loose: set<Uuid>, f: Flight,
                          item: Uuid, op: Op, content: ServerItem, gap: nat)
    requires ValidServer(s) && FlightOk(env, s, items, queue, loose, f)
    ensures FlightOk(env, Commit(s, item, op, content, gap), items, queue, loose, f)
  {
    hide ReportOk, SentOk, Commit;
    forall i | 0 <= i < |f.order|
      ensures f.order[i] in f.sent
      ensures ReportOk(Commit(s, item, op, content, gap), f.order[i], f.sent[f.order[i]], f.acks[i])
    {
      CommitKeepsReport(s, item, op, content, gap, f.order[i], f.sent[f.order[i]], f.acks[i]);
    }
  }

  lemma CommitKeepsAgreed(s: Server, items: map<Uuid, Item>, agreed: Agreed, item: Uuid, op: Op, content: ServerItem,
                          gap: nat)
    requires ValidServer(s) && AgreedOk(s, items, agreed)
    ensures AgreedOk(Commit(s, item, op, content, gap), items, agreed)
  {
    var t := Commit(s, item, op, content, gap);
    forall id | id in agreed
      ensures exists e :: e in t.log && e.item == id && e.seqNo == agreed[id]
    {
      var e :| e in s.log && e.item == id && e.seqNo == agreed[id];
      assert e in t.log;
    }
  }

  lemma CommitKeepsCursors(env: Env, n: Net, debt: Debt, agreed: Agreed, item: Uuid, op: Op, content: ServerItem,
                           gap: nat)
    requires Inv(env, n, debt) && CursorsOk(n, agreed, debt.missed)
    ensures CursorsOk(n.(server := Commit(n.server, item, op, content, gap)), agreed, debt.missed)
  {
    CommitIsLate(n.server, item, op, content, gap);
    hide Accounted, WillSee, Commit, RowsOk, Settled, LastSeq;
  }

  /** What a commit leaves alone, all in one. */
  lemma CommitKeepsDev(env: Env, d: Dev, item: Uuid, op: Op, content: ServerItem, gap: nat)
    requires DevInv(env, d)
    ensures DevInv(env, d.(net := d.net.(server := Commit(d.net.server, item, op, content, gap))))
  {
    InvIsValid(env, d.net, d.debt);
    hide Inv, QueueOk, AgreedOk, CursorsOk, FlightOk, Commit, ValidServer;
    CommitKeepsInv(env, d.net, d.debt, item, op, content, gap);
    CommitKeepsQueue(env, d.net.server, d.net.store.items, d.queue, d.debt.loose, item, op, content, gap);
    CommitKeepsAgreed(d.net.server, d.net.store.items, d.agreed, item, op, content, gap);
    CommitKeepsCursors(env, d.net, d.debt, d.agreed, item, op, content, gap);
    if d.flight.Some? {
      CommitKeepsFlight(env, d.net.server, d.net.store.items, d.queue, d.debt.loose, d.flight.value, item, op,
                        content, gap);
    }
  }

  lemma InvIsValid(env: Env, n: Net, debt: Debt)
    requires Inv(env, n, debt)
    ensures ValidServer(n.server) && n.stored <= LastSeq(n.server.log)
  {
  }

  // ----- pulled changes

  /** A pulled change that overwrites a queued item's row shows that the server has moved on. */
  lemma ApplyKeepsQueued(env: Env, s: Server, st: Store, p: PullChange, id: Uuid, c: Change)
    requires ValidServer(s) && Honest(s, p) && QueuedOk(env, s, st.items, id, c)
    ensures QueuedOk(env, s, ApplyPull(env, st, p).items, id, c)
  {
    if p.item == id {
      var e :| e in s.log && e.item == p.item && e.seqNo == p.seqNo
               && (LastOf(s.log, p.item) == Some(e) ==> p.item in s.items && p == Served(s, e));
      assert LastOf(s.log, id).Some? && LastOf(s.log, id).value.seqNo >= p.seqNo;
    }
  }

  lemma ApplyKeepsHome(env: Env, st: Store, p: PullChange, id: Uuid)
    requires AtHomeRow(env, st.items, id)
    ensures AtHomeRow(env, ApplyPull(env, st, p).items, id)
  {
  }

  lemma ApplyKeepsQueue(env: Env, s: Server, st: Store, queue: Queue, loose: set<Uuid>, p: PullChange)
    requires ValidServer(s) && Honest(s, p) && QueueOk(env, s, st.items, queue, loose)
    ensures QueueOk(env, s, ApplyPull(env, st, p).items, queue, loose)
  {
    hide QueuedOk, AtHomeRow, Honest, ApplyPull, ValidServer;
    forall id | id in queue
      ensures AtHomeRow(env, ApplyPull(env, st, p).items, id)
      ensures id !in loose ==> QueuedOk(env, s, ApplyPull(env, st, p).items, id, queue[id])
    {
      ApplyKeepsHome(env, st, p, id);
      if id !in loose {
        ApplyKeepsQueued(env, s, st, p, id, queue[id]);
      }
    }
  }

  /** An item that is not queued may leave the loose ones without the queue noticing. */
  lemma LessLoose(env: Env, s: Server, items: map<Uuid, Item>, queue: Queue, loose: set<Uuid>, id: Uuid)
    requires QueueOk(env, s, items, queue, loose) && id !in queue
    ensures QueueOk(env, s, items, queue, loose - {id})
  {
    hide QueuedOk, AtHomeRow;
  }

  lemma ApplyKeepsAgreed(env: Env, s: Server, st: Store, agreed: Agreed, p: PullChange)
    requires Honest(s, p) && AgreedOk(s, st.items, agreed)
    ensures AgreedOk(s, ApplyPull(env, st, p).items, AgreedPull(env, st, agreed, p))
  {
    var e :| e in s.log && e.item == p.item && e.seqNo == p.seqNo
             && (LastOf(s.log, p.item) == Some(e) ==> p.item in s.items && p == Served(s, e));
    hide LastOf;
  }

  /** A change that is written leaves its row in order whatever went before. */
  lemma WrittenRowIsOk(env: Env, s: Server, st: Store, debt: Debt, c: PullChange)
    requires ValidServer(s) && Honest(s, c) && Beats(st, env, c)
    ensures RowOk(env, s, ApplyPull(env, st, c), debt, c.item)
  {
    var e :| e in s.log && e.item == c.item && e.seqNo == c.seqNo
             && (LastOf(s.log, c.item) == Some(e) ==> c.item in s.items && c == Served(s, e));
    var last := LastOf(s.log, c.item).value;
    assert last.seqNo >= c.seqNo;
    if last.seqNo == c.seqNo {
      assert last == e;
    }
  }

  /** A row that is in order need not be exempt any more. */
  lemma LessLooseRows(env: Env, n: Net, debt: Debt, id: Uuid)
    requires Inv(env, n, debt) && RowOk(env, n.server, n.store, debt.(loose := debt.loose - {id}), id)
    ensures Inv(env, n, debt.(loose := debt.loose - {id}))
  {
    var less := debt.(loose := debt.loose - {id});
    forall k | k in n.store.items
      ensures RowOk(env, n.server, n.store, less, k)
    {
      assert RowOk(env, n.server, n.store, debt, k);
    }
    hide RowOk;
    assert forall e :: Settled(env, n.store, debt, e) <==> Settled(env, n.store, less, e);
  }

  /** What the bookkeeping of a pulled change amounts to. */
  function BookedDebt(env: Env, d: Dev, c: PullChange): Debt {
    Booked(env, d, c).debt
  }

  /** What is accounted for stays so, and so does what the change was to bring. */
  lemma BookedEntry(env: Env, d: Dev, c: PullChange, e: LogEntry)
    requires AgreedOk(d.net.server, d.net.store.items, d.agreed) && e in d.net.server.log
    requires Accounted(d.agreed, d.debt.missed, e) || (c.item == e.item && c.seqNo >= e.seqNo)
    ensures Accounted(Booked(env, d, c).agreed, BookedDebt(env, d, c).missed, e)
  {
  }

  lemma BookedOrAhead(env: Env, d: Dev, inbox: seq<PullChange>, e: LogEntry)
    requires AgreedOk(d.net.server, d.net.store.items, d.agreed) && e in d.net.server.log && inbox != []
    requires Accounted(d.agreed, d.debt.missed, e) || WillSee(inbox, e)
    ensures Accounted(Booked(env, d, inbox[0]).agreed, BookedDebt(env, d, inbox[0]).missed, e) || WillSee(inbox[1..], e)
  {
    hide AgreedOk, Booked, BookedDebt;
    if Accounted(d.agreed, d.debt.missed, e) {
      BookedEntry(env, d, inbox[0], e);
    } else {
      var x :| x in inbox && x.item == e.item && x.seqNo >= e.seqNo;
      if x == inbox[0] {
        BookedEntry(env, d, inbox[0], e);
      } else {
        assert x in inbox[1..];
      }
    }
  }

  lemma BookedKeepsCursors(env: Env, d: Dev)
    requires AgreedOk(d.net.server, d.net.store.items, d.agreed) && CursorsOk(d.net, d.agreed, d.debt.missed)
    requires ValidServer(d.net.server) && d.net.phase.Applying? && d.net.phase.inbox != []
    ensures var c := d.net.phase.inbox[0];
            CursorsOk(Step(env, d.net, ApplyNext), Booked(env, d, c).agreed, BookedDebt(env, d, c).missed)
  {
    var c, inbox := d.net.phase.inbox[0], d.net.phase.inbox;
    hide AgreedOk, Booked, BookedDebt, Accounted, WillSee, ApplyPull, ValidServer;
    forall e | e in d.net.server.log && Accounted(d.agreed, d.debt.missed, e)
      ensures Accounted(Booked(env, d, c).agreed, BookedDebt(env, d, c).missed, e)
    {
      BookedEntry(env, d, c, e);
    }
    forall e | e in d.net.server.log && (Accounted(d.agreed, d.debt.missed, e) || WillSee(inbox, e))
      ensures Accounted(Booked(env, d, c).agreed, BookedDebt(env, d, c).missed, e) || WillSee(inbox[1..], e)
    {
      BookedOrAhead(env, d, inbox, e);
    }
  }

  lemma InboxIsHonest(env: Env, n: Net, debt: Debt)
    requires Inv(env, n, debt) && n.phase.Applying? && n.phase.inbox != []
    ensures ValidServer(n.server) && Honest(n.server, n.phase.inbox[0])
  {
    assert n.phase.inbox[0] in n.phase.inbox;
    hide RowsOk, Covers, CoversWith, Honest;
  }

  lemma ApplyNextIs(env: Env, n: Net)
    requires ValidServer(n.server) && n.phase.Applying? && n.phase.inbox != []
    ensures var m := Step(env, n, ApplyNext);
            && m.server == n.server && m.store == ApplyPull(env, n.store, n.phase.inbox[0])
            && m.stored == n.stored && m.phase.Applying?
  {
    hide ApplyPull;
  }

  lemma BookedKeepsInv(env: Env, d: Dev)
    requires Inv(env, d.net, d.debt) && d.net.phase.Applying? && d.net.phase.inbox != []
    ensures Inv(env, Step(env, d.net, ApplyNext), BookedDebt(env, d, d.net.phase.inbox[0]))
  {
    var c := d.net.phase.inbox[0];
    InboxIsHonest(env, d.net, d.debt);
    hide Inv, Honest, RowOk, ApplyPull, Step, ValidServer, Beats;
    ApplyNextIs(env, d.net);
    StepKeepsInv(env, d.net, d.debt, ApplyNext);
    if !Beats(d.net.store, env, c) {
      MoreDebt(env, Step(env, d.net, ApplyNext), d.debt, BookedDebt(env, d, c));
    } else if c.item !in d.queue {
      WrittenRowIsOk(env, d.net.server, d.net.store, BookedDebt(env, d, c), c);
      LessLooseRows(env, Step(env, d.net, ApplyNext), d.debt, c.item);
    }
  }

  lemma BookedKeepsQueue(env: Env, d: Dev, c: PullChange)
    requires QueueOk(env, d.net.server, d.net.store.items, d.queue, d.debt.loose)
    requires ValidServer(d.net.server) && Honest(d.net.server, c)
    ensures QueueOk(env, d.net.server, ApplyPull(env, d.net.store, c).items, d.queue, BookedDebt(env, d, c).loose)
  {
    hide QueueOk, Honest, ApplyPull, ValidServer, Beats;
    ApplyKeepsQueue(env, d.net.server, d.net.store, d.queue, d.debt.loose, c);
    if c.item !in d.queue {
      LessLoose(env, d.net.server, ApplyPull(env, d.net.store, c).items, d.queue, d.debt.loose, c.item);
    }
  }

  lemma BookedAgrees(env: Env, d: Dev, c: PullChange)
    ensures Booked(env, d, c).agreed == AgreedPull(env, d.net.store, d.agreed, c)
    ensures Booked(env, d, c).queue == d.queue
  {
    hide Beats, Got;
  }

  lemma ApplyNextKeepsDev(env: Env, d: Dev)
    requires DevInv(env, d) && d.flight.None? && d.net.phase.Applying? && d.net.phase.inbox != []
    ensures ValidServer(d.net.server) && DevInv(env, Pulled(env, d, ApplyNext))
  {
    var c := d.net.phase.inbox[0];
    hide Inv, QueueOk, AgreedOk, CursorsOk, Honest, ApplyPull, ValidServer, Step, Booked, AgreedPull;
    InboxIsHonest(env, d.net, d.debt);
    ApplyNextIs(env, d.net);
    BookedAgrees(env, d, c);
    BookedKeepsInv(env, d);
    BookedKeepsCursors(env, d);
    BookedKeepsQueue(env, d, c);
    ApplyKeepsAgreed(env, d.net.server, d.net.store, d.agreed, c);
  }

  lemma FetchKeepsCursors(env: Env, d: Dev, limit: int)
    requires DevInv(env, d) && d.net.phase.Ready?
    ensures CursorsOk(Step(env, d.net, Fetch(limit)), d.agreed, d.debt.missed)
  {
    InvIsValid(env, d.net, d.debt);
    var p := PullPage(d.net.server, d.net.phase.mem, limit);
    hide Inv, QueueOk, AgreedOk, FlightOk, Accounted;
    forall e | e in d.net.server.log && e.seqNo <= p.nextCursor
      ensures Accounted(d.agreed, d.debt.missed, e) || WillSee(p.changes, e)
    {
      if e.seqNo > d.net.phase.mem {
        PageIsGapless(d.net.server, d.net.phase.mem, limit, e);
      }
    }
  }

  lemma EndPageKeepsCursors(env: Env, d: Dev)
    requires DevInv(env, d) && d.net.phase.Applying? && d.net.phase.inbox == []
    ensures CursorsOk(Step(env, d.net, EndPage), d.agreed, d.debt.missed)
  {
    hide Inv, QueueOk, AgreedOk, FlightOk, Accounted;
    forall e | e in d.net.server.log && e.seqNo <= d.net.phase.next
      ensures Accounted(d.agreed, d.debt.missed, e)
    {
      assert Accounted(d.agreed, d.debt.missed, e) || WillSee([], e);
    }
  }

  /** Steps that change neither rows nor server. */
  lemma QuietStepKeepsDev(env: Env, d: Dev, step: PullRuns.Event)
    requires DevInv(env, d) && d.flight.None?
    requires step.Begin? || step.Fetch? || step.FetchFails? || step.EndPage?
    ensures ValidServer(d.net.server) && DevInv(env, Pulled(env, d, step))
  {
    InvIsValid(env, d.net, d.debt);
    StepKeepsInv(env, d.net, d.debt, step);
    if step.Fetch? && d.net.phase.Ready? {
      FetchKeepsCursors(env, d, step.limit);
    }
    if step.EndPage? && d.net.phase.Applying? && d.net.phase.inbox == [] {
      EndPageKeepsCursors(env, d);
    }
    hide Inv, QueueOk, AgreedOk, GotUpTo, Accounted, WillSee, ValidServer, PullPage;
  }

  lemma CrashKeepsDev(env: Env, d: Dev)
    requires DevInv(env, d)
    ensures ValidServer(d.net.server) && DevInv(env, Pulled(env, d, Crash))
  {
    InvIsValid(env, d.net, d.debt);
    StepKeepsInv(env, d.net, d.debt, Crash);
    hide Inv, QueueOk, AgreedOk, GotUpTo, ValidServer;
  }

  lemma PullingKeepsInv(env: Env, d: Dev, step: PullRuns.Event)
    requires DevInv(env, d)
    ensures ValidServer(d.net.server) && DevInv(env, Next(env, d, Pulling(step)))
  {
    InvIsValid(env, d.net, d.debt);
    hide DevInv, ValidServer;
    if MayPull(d, step) {
      match step
      case CommitE(item, op, content, gap) => CommitKeepsDev(env, d, item, op, content, gap);
      case Crash => CrashKeepsDev(env, d);
      case ApplyNext =>
        if d.net.phase.Applying? && d.net.phase.inbox != [] {
          ApplyNextKeepsDev(env, d);
        } else {
          assert Pulled(env, d, step) == d;
        }
      case _ => QuietStepKeepsDev(env, d, step);
    }
  }

  // ----- local changes

  /** Writing a row that is not synced, no older than before and of the same storage, keeps what pulls rely on. */
  lemma LocalWriteKeepsInv(env: Env, n: Net, debt: Debt, id: Uuid, row: Item)
    requires Inv(env, n, debt) && row.status != Synced
    requires id in n.store.items ==>
               row.version >= n.store.items[id].version && row.storage == n.store.items[id].storage
    ensures Inv(env, n.(store := n.store.(items := n.store.items[id := row])), debt)
  {
    var before, after := n.store, n.store.(items := n.store.items[id := row]);
    forall k | k in after.items
      ensures RowOk(env, n.server, after, debt, k)
    {
      assert k != id ==> RowOk(env, n.server, before, debt, k);
    }
    assert RowsOk(env, n.server, after, debt);
    hide RowOk, RowsOk;
    assert Newer(before, after);
    NewerCovers(env, before, after, debt, n.server.log, n.stored);
    match n.phase
    case Idle =>
    case Ready(mem) => NewerCovers(env, before, after, debt, n.server.log, mem);
    case Applying(mem, inbox, next, more) =>
      assert forall e :: Settled(env, before, debt, e) ==> Settled(env, after, debt, e);
  }

  /** The queue as far as other items are concerned. */
  ghost predicate SameElsewhere(a: Queue, b: Queue, id: Uuid) {
    forall k :: k != id ==> (k in a <==> k in b) && (k in a ==> a[k] == b[k])
  }

  /** What a local change must leave in the queue for its own item. */
  predicate EntryOk(env: Env, s: Server, items: map<Uuid, Item>, queue: Queue, loose: set<Uuid>, id: Uuid) {
    id in queue ==>
      && (queue[id].Onto? ==> queue[id].base > 0)
      && (OpOf(queue[id]) != Delete ==> queue[id].draft.checksum == env.hash(queue[id].draft.payload))
      && (id !in loose ==> QueuedOk(env, s, items, id, queue[id]))
  }

  lemma LocalWriteKeepsQueue(env: Env, s: Server, items: map<Uuid, Item>, queue: Queue, loose: set<Uuid>, id: Uuid,
                             row: Item, after: Queue)
    requires QueueOk(env, s, items, queue, loose) && SameElsewhere(queue, after, id)
    requires AtHomeRow(env, items[id := row], id) && EntryOk(env, s, items[id := row], after, loose, id)
    ensures QueueOk(env, s, items[id := row], after, loose)
  {
    forall k | k in after && k != id
      ensures AtHomeRow(env, items[id := row], k)
      ensures k !in loose ==> QueuedOk(env, s, items[id := row], k, after[k])
    {
      assert AtHomeRow(env, items, k);
    }
    hide QueuedOk, AtHomeRow;
  }

  lemma LocalWriteKeepsSent(env: Env, items: map<Uuid, Item>, queue: Queue, loose: set<Uuid>, f: Flight, id: Uuid,
                            row: Item, after: Queue, k: Uuid)
    requires k in f.sent && SentOk(env, items, queue, loose, f, k) && SameElsewhere(queue, after, id)
    requires AtHomeRow(env, items[id := row], id)
    ensures SentOk(env, items[id := row], after, loose, f.(changed := f.changed + {id}), k)
    ensures k != id ==> SentOk(env, items[id := row], after, loose, f, k)
  {
  }

  lemma LocalWriteKeepsFlight(env: Env, s: Server, items: map<Uuid, Item>, queue: Queue, loose: set<Uuid>, f: Flight,
                              id: Uuid, row: Item, after: Queue)
    requires FlightOk(env, s, items, queue, loose, f) && SameElsewhere(queue, after, id)
    requires AtHomeRow(env, items[id := row], id)
    ensures FlightOk(env, s, items[id := row], after, loose,
                     if id in f.order then f.(changed := f.changed + {id}) else f)
  {
    hide SentOk, ReportOk, AtHomeRow, SameElsewhere;
    forall i | 0 <= i < |f.order|
      ensures f.order[i] in f.sent
      ensures SentOk(env, items[id := row], after, loose, f.(changed := f.changed + {id}), f.order[i])
      ensures f.order[i] != id ==> SentOk(env, items[id := row], after, loose, f, f.order[i])
    {
      LocalWriteKeepsSent(env, items, queue, loose, f, id, row, after, f.order[i]);
    }
  }

  lemma LocalWriteKeepsAgreed(s: Server, items: map<Uuid, Item>, agreed: Agreed, id: Uuid, row: Item)
    requires AgreedOk(s, items, agreed) && (id in items ==> row.version >= items[id].version)
    ensures AgreedOk(s, items[id := row], agreed)
  {
    forall k | k in agreed
      ensures exists e :: e in s.log && e.item == k && e.seqNo == agreed[k]
    {
    }
  }

  /** A local change, whatever it is, at any moment. */
  lemma ChangedKeepsDev(env: Env, d: Dev, id: Uuid, row: Item, queue: Queue)
    requires DevInv(env, d) && row.status != Synced && row.storage == env.storage && row.vault == env.vault
    requires id in d.net.store.items ==>
               row.version >= d.net.store.items[id].version && row.storage == d.net.store.items[id].storage
    requires SameElsewhere(d.queue, queue, id)
    requires EntryOk(env, d.net.server, d.net.store.items[id := row], queue, d.debt.loose, id)
    ensures DevInv(env, Changed(d, id, row, queue))
  {
    var s, items := d.net.server, d.net.store.items;
    assert AtHomeRow(env, items[id := row], id);
    hide Inv, QueueOk, AgreedOk, CursorsOk, FlightOk, EntryOk, SameElsewhere, AtHomeRow;
    LocalWriteKeepsInv(env, d.net, d.debt, id, row);
    LocalWriteKeepsQueue(env, s, items, d.queue, d.debt.loose, id, row, queue);
    LocalWriteKeepsAgreed(s, items, d.agreed, id, row);
    SameCursors(d.net, d.net.(store := d.net.store.(items := items[id := row])), d.agreed, d.debt.missed);
    if d.flight.Some? {
      LocalWriteKeepsFlight(env, s, items, d.queue, d.debt.loose, d.flight.value, id, row, queue);
    }
  }

  lemma SameCursors(a: Net, b: Net, agreed: Agreed, missed: set<LogEntry>)
    requires a.server == b.server && a.stored == b.stored && a.phase == b.phase
    ensures CursorsOk(a, agreed, missed) <==> CursorsOk(b, agreed, missed)
  {
  }

  /** The entry of an edited item is sound if the entry before it was. */
  lemma MergedIsOk(env: Env, d: Dev, id: Uuid, row: Item, c: Change)
    requires QueueOk(env, d.net.server, d.net.store.items, d.queue, d.debt.loose) && Editable(env, d, id)
    requires row.storage == env.storage && row.vault == env.vault && row.version == d.net.store.items[id].version + 1
    requires c.Onto? && c.base == d.net.store.items[id].version
    requires OpOf(c) != Delete ==> DraftOf(row) == c.draft && c.draft.checksum == env.hash(c.draft.payload)
    requires c.delete && id in d.queue ==> d.queue[id].Onto?
    ensures EntryOk(env, d.net.server, d.net.store.items[id := row], d.queue[id := Merge(d.queue, id, c)],
                    d.debt.loose, id)
  {
    if id in d.queue {
      assert AtHomeRow(env, d.net.store.items, id);
    }
    hide MovedOn;
  }

  lemma DevQueueOk(env: Env, d: Dev)
    requires DevInv(env, d)
    ensures ValidServer(d.net.server) && QueueOk(env, d.net.server, d.net.store.items, d.queue, d.debt.loose)
  {
    hide QueueOk, AgreedOk, CursorsOk, FlightOk;
  }

  lemma CreationIsOk(env: Env, s: Server, items: map<Uuid, Item>, queue: Queue, loose: set<Uuid>, id: Uuid,
                     draft: Draft,
                     now: Time, fp: string)
    requires draft.checksum == env.hash(draft.payload)
    ensures EntryOk(env, s, items[id := NewRow(env, draft, now, fp)], queue[id := Fresh(draft)], loose, id)
    ensures SameElsewhere(queue, queue[id := Fresh(draft)], id)
  {
    hide MovedOn;
  }

  lemma NewKeepsInv(env: Env, d: Dev, id: Uuid, draft: Draft, now: Time, fp: string)
    requires DevInv(env, d) && ValidServer(d.net.server)
    ensures DevInv(env, Next(env, d, New(id, draft, now, fp)))
  {
    var items := d.net.store.items;
    hide DevInv, EntryOk, SameElsewhere, Changed, ValidServer;
    if id !in items && id !in d.queue && draft.checksum == env.hash(draft.payload) {
      CreationIsOk(env, d.net.server, items, d.queue, d.debt.loose, id, draft, now, fp);
      ChangedKeepsDev(env, d, id, NewRow(env, draft, now, fp), d.queue[id := Fresh(draft)]);
    }
  }

  lemma MergeIsLocal(queue: Queue, id: Uuid, c: Change)
    ensures SameElsewhere(queue, queue[id := c], id) && SameElsewhere(queue, queue - {id}, id)
  {
  }

  lemma RewriteKeepsInv(env: Env, d: Dev, id: Uuid, row: Item, c: Change)
    requires DevInv(env, d) && Editable(env, d, id) && row.status != Synced
    requires row.storage == env.storage && row.vault == env.vault && row.version == d.net.store.items[id].version + 1
    requires c.Onto? && c.base == d.net.store.items[id].version
    requires OpOf(c) != Delete ==> DraftOf(row) == c.draft && c.draft.checksum == env.hash(c.draft.payload)
    requires c.delete && id in d.queue ==> d.queue[id].Onto?
    ensures DevInv(env, Changed(d, id, row, d.queue[id := Merge(d.queue, id, c)]))
  {
    hide DevInv, EntryOk, SameElsewhere, Changed, ValidServer, QueueOk;
    DevQueueOk(env, d);
    MergedIsOk(env, d, id, row, c);
    MergeIsLocal(d.queue, id, Merge(d.queue, id, c));
    ChangedKeepsDev(env, d, id, row, d.queue[id := Merge(d.queue, id, c)]);
  }

  lemma EditKeepsInv(env: Env, d: Dev, e: OfflineModel.Event)
    requires DevInv(env, d) && (e.New? || e.Edit? || e.Remove? || e.Discard?)
    ensures ValidServer(d.net.server) && DevInv(env, Next(env, d, e))
  {
    var items := d.net.store.items;
    hide DevInv, Changed, Merge, QueueOk, ValidServer;
    DevQueueOk(env, d);
    match e
    case New(id, draft, now, fp) => NewKeepsInv(env, d, id, draft, now, fp);
    case Edit(id, draft, now, fp) =>
      if Editable(env, d, id) && draft.checksum == env.hash(draft.payload) {
        RewriteKeepsInv(env, d, id, EditedRow(items[id], draft, now, fp), Onto(false, items[id].version, draft));
      }
    case Remove(id, now) =>
      if Editable(env, d, id) && (id in d.queue ==> d.queue[id].Onto?) {
        RewriteKeepsInv(env, d, id, RemovedRow(items[id], now, Tombstone),
                        Onto(true, items[id].version, DraftOf(items[id])));
      }
    case Discard(id, now) =>
      if Editable(env, d, id) && id in d.queue && d.queue[id].Fresh? {
        MergeIsLocal(d.queue, id, d.queue[id]);
        hide SameElsewhere;
        ChangedKeepsDev(env, d, id, RemovedRow(items[id], now, LocalDeleted), d.queue - {id});
      }
  }

  // ----- a push lands

  lemma {:induction false} CommitsKeepDev(env: Env, d: Dev, ps: seq<Pushed>)
    requires DevInv(env, d)
    ensures DevInv(env, d.(net := d.net.(server := AcceptPush(d.net.server, ps))))
    decreases |ps|
  {
    hide DevInv, Commit;
    if ps != [] {
      var p, front := ps[|ps| - 1], ps[..|ps| - 1];
      CommitsKeepDev(env, d, front);
      CommitKeepsDev(env, d.(net := d.net.(server := AcceptPush(d.net.server, front))), p.item, p.op, p.content, p.gap);
    } else {
      assert d.(net := d.net.(server := AcceptPush(d.net.server, ps))) == d;
    }
  }

  predicate DistinctItems(ps: seq<Pushed>) {
    forall i, j :: 0 <= i < j < |ps| ==> ps[i].item != ps[j].item
  }

  /** An accepted change is the latest entry of its item, with its content, and its acknowledgement says so. */
  predicate Landed(t: Server, p: Pushed, a: AppliedChange) {
    && a.item == p.item && a.updatedAt == p.content.updatedAt && (a.deletedAt.Some? <==> p.op == Delete)
    && LastOf(t.log, p.item) == Some(LogEntry(a.seqNo, p.item, p.op))
    && p.item in t.items && t.items[p.item] == p.content
  }

  lemma CommitLands(u: Server, p: Pushed, a: AppliedChange)
    requires ValidServer(u)
    requires a.item == p.item && a.updatedAt == p.content.updatedAt && (a.deletedAt.Some? <==> p.op == Delete)
    requires a.seqNo == LastSeq(Commit(u, p.item, p.op, p.content, p.gap).log)
    ensures Landed(Commit(u, p.item, p.op, p.content, p.gap), p, a)
  {
    CommitAppends(u, p.item, p.op, p.content, p.gap);
    hide LastOf, LastSeq;
  }

  lemma StaysLanded(u: Server, p: Pushed, a: AppliedChange, q: Pushed)
    requires ValidServer(u) && Landed(u, p, a) && q.item != p.item
    ensures Landed(Commit(u, q.item, q.op, q.content, q.gap), p, a)
  {
    CommitAppends(u, q.item, q.op, q.content, q.gap);
    hide LastOf, LastSeq;
  }

  lemma AcksSplit(s: Server, ps: seq<Pushed>)
    requires ps != []
    ensures var n := |ps| - 1;
            && |Acks(s, ps)| == |ps| && |Acks(s, ps[..n])| == n
            && (forall i :: 0 <= i < n ==> Acks(s, ps)[i] == Acks(s, ps[..n])[i])
            && Acks(s, ps)[n] == AppliedChange(ps[n].item, LastSeq(AcceptPush(s, ps).log), ps[n].content.updatedAt,
                                               if ps[n].op == Delete then Some(ps[n].content.updatedAt) else None)
  {
    AcksLength(s, ps);
    AcksLength(s, ps[..|ps| - 1]);
    hide AcceptPush, LastSeq;
  }

  lemma PushSplit(s: Server, ps: seq<Pushed>)
    requires ps != [] && DistinctItems(ps)
    ensures var n := |ps| - 1;
            && AcceptPush(s, ps) == Commit(AcceptPush(s, ps[..n]), ps[n].item, ps[n].op, ps[n].content, ps[n].gap)
            && DistinctItems(ps[..n]) && forall i :: 0 <= i < n ==> ps[i].item != ps[n].item && ps[..n][i] == ps[i]
  {
  }

  lemma AcceptedIsValid(s: Server, ps: seq<Pushed>)
    requires ValidServer(s)
    ensures ValidServer(AcceptPush(s, ps))
  {
    AcceptedLog(s, ps);
  }

  predicate LandedAt(s: Server, ps: seq<Pushed>, i: nat) {
    i < |ps| && |Acks(s, ps)| == |ps| && Landed(AcceptPush(s, ps), ps[i], Acks(s, ps)[i])
  }

  lemma LastHasLanded(s: Server, ps: seq<Pushed>)
    requires ValidServer(s) && DistinctItems(ps) && ps != []
    ensures LandedAt(s, ps, |ps| - 1)
  {
    var n := |ps| - 1;
    AcksSplit(s, ps);
    PushSplit(s, ps);
    AcceptedIsValid(s, ps[..n]);
    hide Acks, AcceptPush, Landed, ValidServer, DistinctItems, LastSeq;
    CommitLands(AcceptPush(s, ps[..n]), ps[n], Acks(s, ps)[n]);
  }

  lemma EarlierHasLanded(s: Server, ps: seq<Pushed>, i: nat)
    requires ValidServer(s) && DistinctItems(ps) && i < |ps| - 1 && LandedAt(s, ps[..|ps| - 1], i)
    ensures LandedAt(s, ps, i)
  {
    var n := |ps| - 1;
    AcksSplit(s, ps);
    PushSplit(s, ps);
    AcceptedIsValid(s, ps[..n]);
    hide Acks, AcceptPush, Landed, ValidServer, DistinctItems, LastSeq;
    StaysLanded(AcceptPush(s, ps[..n]), ps[i], Acks(s, ps)[i], ps[n]);
  }

  /** Every change of an accepted push has landed. */
  lemma {:induction false} AcceptedEach(s: Server, ps: seq<Pushed>, i: nat)
    requires ValidServer(s) && DistinctItems(ps) && i < |ps|
    ensures LandedAt(s, ps, i)
    decreases |ps|
  {
    hide *;
    PushSplit(s, ps);
    if i == |ps| - 1 {
      LastHasLanded(s, ps);
    } else {
      AcceptedEach(s, ps[..|ps| - 1], i);
      EarlierHasLanded(s, ps, i);
    }
  }

  lemma LandedReports(s: Server, t: Server, id: Uuid, c: Change, stamp: Stamp, a: AppliedChange)
    requires Landed(t, Pushed(id, OpOf(c), StoredContent(s, id, c, stamp), stamp.gap), a)
    ensures ReportOk(t, id, c, a)
  {
    hide LastOf;
  }

  predicate ReportAt(t: Server, sent: Queue, order: seq<Uuid>, acks: seq<AppliedChange>, i: nat) {
    && i < |order| && |acks| == |order| && order[i] in sent
    && ReportOk(t, order[i], sent[order[i]], acks[i])
  }

  lemma LandingReports(d: Dev, order: seq<Uuid>, stamps: nat -> Stamp, i: nat)
    requires ValidServer(d.net.server) && CanLand(d, order) && i < |order|
    ensures var ps := Plan(d.net.server, d.queue, order, stamps);
            ReportAt(AcceptPush(d.net.server, ps), d.queue, order, Acks(d.net.server, ps), i)
  {
    var s, id := d.net.server, order[i];
    var ps := Plan(s, d.queue, order, stamps);
    assert DistinctItems(ps);
    hide AcceptPush, Acks, Landed, ReportOk, StoredContent, ValidServer, LastOf, Accepts;
    AcceptedEach(s, ps, i);
    LandedReports(s, AcceptPush(s, ps), id, d.queue[id], stamps(i), Acks(s, ps)[i]);
  }

  predicate SentAt(env: Env, d: Dev, order: seq<Uuid>, acks: seq<AppliedChange>, i: nat) {
    && i < |order| && order[i] in d.queue
    && SentOk(env, d.net.store.items, d.queue, d.debt.loose, Flight(order, acks, d.queue, {}), order[i])
  }

  /** When a push lands, the queue is what was sent, and the server has not moved past sound entries. */
  lemma LandingSends(env: Env, d: Dev, order: seq<Uuid>, acks: seq<AppliedChange>, i: nat)
    requires QueueOk(env, d.net.server, d.net.store.items, d.queue, d.debt.loose)
    requires CanLand(d, order) && i < |order|
    ensures SentAt(env, d, order, acks, i)
  {
    var id := order[i];
    assert AtHomeRow(env, d.net.store.items, id);
    assert id !in d.debt.loose ==> !MovedOn(d.net.server, id, d.queue[id]);
  }

  lemma LandingFlightOk(env: Env, d: Dev, order: seq<Uuid>, stamps: nat -> Stamp)
    requires QueueOk(env, d.net.server, d.net.store.items, d.queue, d.debt.loose) && ValidServer(d.net.server)
    requires CanLand(d, order)
    ensures var ps := Plan(d.net.server, d.queue, order, stamps);
            FlightOk(env, AcceptPush(d.net.server, ps), d.net.store.items, d.queue, d.debt.loose,
                     Flight(order, Acks(d.net.server, ps), d.queue, {}))
  {
    var s := d.net.server;
    var ps := Plan(s, d.queue, order, stamps);
    hide *;
    AcksLength(s, ps);
    forall i | 0 <= i < |order|
      ensures ReportAt(AcceptPush(s, ps), d.queue, order, Acks(s, ps), i)
      ensures SentAt(env, d, order, Acks(s, ps), i)
    {
      LandingReports(d, order, stamps, i);
      LandingSends(env, d, order, Acks(s, ps), i);
    }
    ReportsMakeFlight(env, d, AcceptPush(s, ps), order, Acks(s, ps));
  }

  lemma ReportsMakeFlight(env: Env, d: Dev, t: Server, order: seq<Uuid>, acks: seq<AppliedChange>)
    requires CanLand(d, order) && |acks| == |order|
    requires forall i :: 0 <= i < |order| ==> ReportAt(t, d.queue, order, acks, i)
    requires forall i :: 0 <= i < |order| ==> SentAt(env, d, order, acks, i)
    ensures FlightOk(env, t, d.net.store.items, d.queue, d.debt.loose, Flight(order, acks, d.queue, {}))
  {
    hide ReportOk, SentOk, Accepts;
    forall i | 0 <= i < |order|
      ensures order[i] in d.queue && ReportOk(t, order[i], d.queue[order[i]], acks[i])
      ensures SentOk(env, d.net.store.items, d.queue, d.debt.loose, Flight(order, acks, d.queue, {}), order[i])
    {
      assert ReportAt(t, d.queue, order, acks, i);
      assert SentAt(env, d, order, acks, i);
    }
  }

  lemma LandingKeepsInv(env: Env, d: Dev, order: seq<Uuid>, stamps: nat -> Stamp)
    requires DevInv(env, d)
    ensures DevInv(env, Next(env, d, PushLands(order, stamps)))
  {
    InvIsValid(env, d.net, d.debt);
    if CanLand(d, order) {
      LandingFlightOk(env, d, order, stamps);
      CommitsKeepDev(env, d, Plan(d.net.server, d.queue, order, stamps));
      hide Inv, QueueOk, AgreedOk, CursorsOk, FlightOk, AcceptPush, Acks, Plan, ValidServer;
    }
  }

  // ----- replies

  /** Once rows, queue and agreed numbers are in order, a reply leaves no gap: what is missing is written down. */
  lemma AnsweredKeepsDev(env: Env, d: Dev, own: set<Uuid>, loose: set<Uuid>)
    requires ValidServer(d.net.server) && d.net.stored <= LastSeq(d.net.server.log)
    requires RowsOk(env, d.net.server, d.net.store, Debt(d.debt.missed, d.debt.own + own, d.debt.loose + loose))
    requires QueueOk(env, d.net.server, d.net.store.items, d.queue, d.debt.loose + loose)
    requires AgreedOk(d.net.server, d.net.store.items, d.agreed)
    ensures DevInv(env, Answered(d, own, loose))
  {
    var m := Answered(d, own, loose);
    var before := Debt(d.debt.missed, d.debt.own + own, d.debt.loose + loose);
    forall id | id in d.net.store.items
      ensures RowOk(env, d.net.server, d.net.store, m.debt, id)
    {
      assert RowOk(env, d.net.server, d.net.store, before, id);
      RowAlone(env, d.net.server, d.net.store, d.net.store, before, m.debt, id);
    }
    hide LastSeq, ValidServer, RowOk, QueueOk;
    forall e | e in d.net.server.log
      ensures Settled(env, d.net.store, m.debt, e) && Accounted(d.agreed, m.debt.missed, e)
    {
      if Got(d.agreed, e) {
        assert Seen(d.net.store, e);
      }
    }
  }

  /** A row in order stays so in any store that has the same row and history, with no less debt. */
  lemma RowAlone(env: Env, s: Server, st: Store, after: Store, a: Debt, b: Debt, id: Uuid)
    requires id in st.items && id in after.items && after.items[id] == st.items[id] && after.history == st.history
    requires RowOk(env, s, st, a, id) && a.own <= b.own && a.loose <= b.loose
    ensures RowOk(env, s, after, b, id)
  {
    hide LastOf, LastSeq;
  }

  lemma {:induction false} LastAckIs(order: seq<Uuid>, acks: seq<AppliedChange>, i: nat)
    requires |acks| == |order| && i < |order|
    requires forall k :: 0 <= k < |order| ==> acks[k].item == order[k]
    requires forall j, k :: 0 <= j < k < |order| ==> order[j] != order[k]
    ensures LastAck(acks, order[i]) == Some(acks[i])
    decreases |order|
  {
    var n := |order| - 1;
    if i < n {
      LastAckIs(order[..n], acks[..n], i);
    }
  }

  lemma {:induction false} AgreedAcksAre(agreed: Agreed, acks: seq<AppliedChange>, id: Uuid)
    ensures var after := AgreedAcks(agreed, acks);
            match LastAck(acks, id)
            case Some(a) => id in after && after[id] == a.seqNo
            case None => (id in after <==> id in agreed) && (id in agreed ==> after[id] == agreed[id])
    decreases |acks|
  {
    if acks != [] {
      AgreedAcksAre(agreed, acks[..|acks| - 1], id);
    }
  }

  /** An acknowledged row at the item's latest number is the server's if and only if it holds what was sent. */
  lemma AckedMatchesIff(env: Env, s: Server, items: map<Uuid, Item>, st: Store, id: Uuid, c: Change, a: AppliedChange)
    requires ReportOk(s, id, c, a) && OpOf(c) != Delete && id in items
    requires LastOf(s.log, id) == Some(LogEntry(a.seqNo, id, OpOf(c)))
    requires c.draft.checksum == env.hash(c.draft.payload)
    requires id in st.items && st.items[id] == Acked(items[id], a)
    ensures Matches(env, s, st, id) <==> DraftOf(items[id]) == c.draft
  {
    var e := LogEntry(a.seqNo, id, OpOf(c));
    hide LastOf;
    assert PulledChecksum(env, Served(s, e)) == s.items[id].checksum;
    assert PulledPayload(Served(s, e)) == s.items[id].payload;
  }

  /** A truthful acknowledgement of an unchanged row leaves it in order. */
  lemma AckedRowIsOk(env: Env, s: Server, items: map<Uuid, Item>, st: Store, debt: Debt, id: Uuid, c: Change,
                     a: AppliedChange)
    requires ValidServer(s) && ReportOk(s, id, c, a) && id in items && id in debt.own
    requires OpOf(c) != Delete ==> DraftOf(items[id]) == c.draft && c.draft.checksum == env.hash(c.draft.payload)
    requires id in st.items && st.items[id] == Acked(items[id], a)
    ensures RowOk(env, s, st, debt, id)
  {
    var e := LogEntry(a.seqNo, id, OpOf(c));
    var last := LastOf(s.log, id).value;
    assert last.seqNo >= e.seqNo;
    if last.seqNo == e.seqNo {
      assert last == e;
    }
    hide LastOf, LastSeq;
    if OpOf(c) != Delete && LastOf(s.log, id) == Some(e) {
      AckedMatchesIff(env, s, items, st, id, c, a);
    }
  }

  function RepliedStore(env: Env, d: Dev, f: Flight): Store {
    d.net.store.(items := ApplyAcks(env.storage, d.net.store.items, f.acks))
  }

  function RepliedDebt(d: Dev, f: Flight): Debt {
    Debt(d.debt.missed, d.debt.own + Listed(f.order), d.debt.loose + f.changed)
  }

  /** Acknowledgements come in the order of the push. */
  lemma ReportNames(env: Env, d: Dev)
    requires d.flight.Some?
    requires FlightOk(env, d.net.server, d.net.store.items, d.queue, d.debt.loose, d.flight.value)
    ensures var f := d.flight.value; forall k :: 0 <= k < |f.order| ==> f.acks[k].item == f.order[k]
  {
  }

  /** One acknowledged row: what it becomes, and what the server says about it. */
  lemma AckedRow(env: Env, d: Dev, i: nat)
    requires d.flight.Some? && i < |d.flight.value.order|
    requires FlightOk(env, d.net.server, d.net.store.items, d.queue, d.debt.loose, d.flight.value)
    ensures var f, items := d.flight.value, d.net.store.items;
            var id, a := f.order[i], f.acks[i];
            && id in f.sent && ReportOk(d.net.server, id, f.sent[id], a)
            && SentOk(env, items, d.queue, d.debt.loose, f, id)
            && id in items && id in RepliedStore(env, d, f).items
            && RepliedStore(env, d, f).items[id] == Acked(items[id], a)
            && id in AgreedAcks(d.agreed, f.acks) && AgreedAcks(d.agreed, f.acks)[id] == a.seqNo
  {
    var f := d.flight.value;
    ReportNames(env, d);
    assert SentOk(env, d.net.store.items, d.queue, d.debt.loose, f, f.order[i]);
    LastAckIs(f.order, f.acks, i);
    hide ApplyAcks, AgreedAcks, ReportOk, LastAck;
    AcksReach(env.storage, d.net.store.items, f.acks, f.order[i]);
    AgreedAcksAre(d.agreed, f.acks, f.order[i]);
  }

  /** Rows and numbers of other items stay. */
  lemma UnackedRow(env: Env, d: Dev, id: Uuid)
    requires d.flight.Some? && id !in d.flight.value.order
    requires FlightOk(env, d.net.server, d.net.store.items, d.queue, d.debt.loose, d.flight.value)
    ensures var f, items, agreed := d.flight.value, d.net.store.items, AgreedAcks(d.agreed, d.flight.value.acks);
            var after := RepliedStore(env, d, f).items;
            && (id in after <==> id in items) && (id in items ==> after[id] == items[id])
            && (id in agreed <==> id in d.agreed) && (id in agreed ==> agreed[id] == d.agreed[id])
  {
    var f := d.flight.value;
    ReportNames(env, d);
    hide FlightOk, ApplyAcks, AgreedAcks;
    assert |f.acks| == |f.order| ==> LastAck(f.acks, id).None?;
    AcksReach(env.storage, d.net.store.items, f.acks, id);
    AgreedAcksAre(d.agreed, f.acks, id);
  }

  lemma ReplyKeepsRow(env: Env, d: Dev, id: Uuid)
    requires DevInv(env, d) && d.flight.Some? && id in RepliedStore(env, d, d.flight.value).items
    ensures RowOk(env, d.net.server, RepliedStore(env, d, d.flight.value), RepliedDebt(d, d.flight.value), id)
  {
    var f := d.flight.value;
    InvIsValid(env, d.net, d.debt);
    if id in f.order {
      var i :| 0 <= i < |f.order| && f.order[i] == id;
      AckedRow(env, d, i);
      if id !in f.changed && id !in d.debt.loose {
        hide DevInv, RowOk, ReportOk, RepliedStore;
        AckedRowIsOk(env, d.net.server, d.net.store.items, RepliedStore(env, d, f), RepliedDebt(d, f), id, f.sent[id],
                     f.acks[i]);
      }
    } else {
      UnackedRow(env, d, id);
      assert RowOk(env, d.net.server, d.net.store, d.debt, id);
      hide DevInv, RowOk, ApplyAcks;
      RowAlone(env, d.net.server, d.net.store, RepliedStore(env, d, f), d.debt, RepliedDebt(d, f), id);
    }
  }

  lemma ReplyKeepsQueue(env: Env, d: Dev)
    requires DevInv(env, d) && d.flight.Some?
    ensures var f := d.flight.value;
            QueueOk(env, d.net.server, RepliedStore(env, d, f).items, Unsent(d.queue, f), d.debt.loose + f.changed)
  {
    var f, items := d.flight.value, d.net.store.items;
    var after := RepliedStore(env, d, f).items;
    forall id | id in Unsent(d.queue, f)
      ensures AtHomeRow(env, after, id)
      ensures id !in d.debt.loose + f.changed ==> QueuedOk(env, d.net.server, after, id, d.queue[id])
    {
      assert AtHomeRow(env, items, id);
      if id in f.order {
        var i :| 0 <= i < |f.order| && f.order[i] == id;
        AckedRow(env, d, i);
      } else {
        UnackedRow(env, d, id);
      }
      hide Inv, FlightOk, AgreedOk, CursorsOk, ApplyAcks;
    }
    hide Inv, FlightOk, AgreedOk, CursorsOk, QueuedOk, AtHomeRow;
  }

  lemma ReplyKeepsAgreed(env: Env, d: Dev)
    requires DevInv(env, d) && d.flight.Some?
    ensures AgreedOk(d.net.server, RepliedStore(env, d, d.flight.value).items,
                     AgreedAcks(d.agreed, d.flight.value.acks))
  {
    var f := d.flight.value;
    var after, agreed := RepliedStore(env, d, f).items, AgreedAcks(d.agreed, f.acks);
    hide Inv, QueueOk, CursorsOk, AgreedAcks, RepliedStore;
    forall id | id in agreed
      ensures id in after && agreed[id] <= after[id].version
      ensures exists e :: e in d.net.server.log && e.item == id && e.seqNo == agreed[id]
    {
      if id in f.order {
        var i :| 0 <= i < |f.order| && f.order[i] == id;
        AckedRow(env, d, i);
        assert LogEntry(agreed[id], id, OpOf(f.sent[id])) in d.net.server.log;
      } else {
        UnackedRow(env, d, id);
      }
    }
  }

  lemma ReplyKeepsInv(env: Env, d: Dev)
    requires DevInv(env, d)
    ensures DevInv(env, Next(env, d, PushReply))
  {
    InvIsValid(env, d.net, d.debt);
    if d.flight.Some? {
      var f := d.flight.value;
      forall id | id in RepliedStore(env, d, f).items
        ensures RowOk(env, d.net.server, RepliedStore(env, d, f), RepliedDebt(d, f), id)
      {
        ReplyKeepsRow(env, d, id);
      }
      ReplyKeepsQueue(env, d);
      ReplyKeepsAgreed(env, d);
      hide DevInv, QueueOk, AgreedOk, RowOk, ApplyAcks, AgreedAcks, Answered, Unsent;
      var acked := WithItems(d, ApplyAcks(env.storage, d.net.store.items, f.acks))
                   .(queue := Unsent(d.queue, f), agreed := AgreedAcks(d.agreed, f.acks));
      AnsweredKeepsDev(env, acked, Listed(f.order), f.changed);
    }
  }

  /** What a reply leaves, field by field. */
  lemma RepliedFields(env: Env, d: Dev)
    requires ValidServer(d.net.server) && d.flight.Some?
    ensures var m, f := Next(env, d, PushReply), d.flight.value;
            && m.net.server == d.net.server && m.net.store == RepliedStore(env, d, f) && m.net.stored == d.net.stored
            && m.net.phase == Ready(LastSeq(d.net.server.log)) && m.flight.None?
            && m.queue == Unsent(d.queue, f) && m.agreed == AgreedAcks(d.agreed, f.acks)
            && m.debt.loose == d.debt.loose + f.changed
  {
    hide ApplyAcks, AgreedAcks, LastSeq, Unsent, Missing, ValidServer;
  }

  // ----- refusals

  /** A refusal leaves every row as it was, except that queued rows it names may turn into conflict rows. */
  lemma {:induction false} RefuseRow(env: Env, items: map<Uuid, Item>, queue: Queue, named: seq<Uuid>,
                                     draw: nat -> Draw, id: Uuid)
    requires forall q :: q in queue ==> q in items && items[q].storage == env.storage
    ensures var after := Refuse(env, items, queue, named, draw);
            && (id in after <==> id in items)
            && (id in items ==>
                  || after[id] == items[id]
                  || (&& id in named && id in queue && after[id].status == Conflict
                      && after[id].version == items[id].version && after[id].storage == items[id].storage))
    decreases |named|
  {
    if named != [] {
      var n := |named| - 1;
      RefuseRow(env, items, queue, named[..n], draw, id);
      if named[n] in queue {
        RefuseRow(env, items, queue, named[..n], draw, named[n]);
      }
      hide Candidate, ChosenFrom;
    }
  }

  lemma QueueAtHome(env: Env, d: Dev)
    requires QueueOk(env, d.net.server, d.net.store.items, d.queue, d.debt.loose)
    ensures forall q :: q in d.queue ==>
              q in d.net.store.items && d.net.store.items[q].storage == env.storage
  {
    hide QueuedOk;
    forall q | q in d.queue
      ensures AtHomeRow(env, d.net.store.items, q)
    {
    }
  }

  lemma RefusalKeepsRows(env: Env, d: Dev, named: seq<Uuid>, draw: nat -> Draw)
    requires DevInv(env, d)
    ensures var st := d.net.store.(items := Refuse(env, d.net.store.items, d.queue, named, draw));
            RowsOk(env, d.net.server, st, Debt(d.debt.missed, d.debt.own + {}, d.debt.loose + {}))
  {
    var items := d.net.store.items;
    var st := d.net.store.(items := Refuse(env, items, d.queue, named, draw));
    var debt := Debt(d.debt.missed, d.debt.own + {}, d.debt.loose + {});
    QueueAtHome(env, d);
    hide Refuse, RowOk, QueueOk, AgreedOk, CursorsOk, FlightOk;
    forall id | id in st.items
      ensures RowOk(env, d.net.server, st, debt, id)
    {
      RefuseRow(env, items, d.queue, named, draw, id);
      assert RowOk(env, d.net.server, d.net.store, d.debt, id);
      if st.items[id] == items[id] {
        RowAlone(env, d.net.server, d.net.store, st, d.debt, debt, id);
      } else {
        ConflictIsNotClean(env, d.net.server, st, debt, id);
      }
    }
  }

  lemma ConflictIsNotClean(env: Env, s: Server, st: Store, debt: Debt, id: Uuid)
    requires id in st.items && st.items[id].status == Conflict
    ensures RowOk(env, s, st, debt, id)
  {
  }

  lemma RefusalKeepsQueue(env: Env, d: Dev, named: seq<Uuid>, draw: nat -> Draw)
    requires DevInv(env, d)
    ensures QueueOk(env, d.net.server, Refuse(env, d.net.store.items, d.queue, named, draw), Without(d.queue, named),
                    d.debt.loose + {})
  {
    var items := d.net.store.items;
    QueueAtHome(env, d);
    hide Refuse, Inv, AgreedOk, CursorsOk, FlightOk;
    forall id | id in Without(d.queue, named)
      ensures AtHomeRow(env, Refuse(env, items, d.queue, named, draw), id)
      ensures id !in d.debt.loose ==> QueuedOk(env, d.net.server, Refuse(env, items, d.queue, named, draw), id,
                                               d.queue[id])
    {
      RefuseRow(env, items, d.queue, named, draw, id);
      assert AtHomeRow(env, items, id);
    }
  }

  lemma RefusalKeepsAgreed(env: Env, d: Dev, named: seq<Uuid>, draw: nat -> Draw)
    requires DevInv(env, d)
    ensures AgreedOk(d.net.server, Refuse(env, d.net.store.items, d.queue, named, draw), d.agreed)
  {
    QueueAtHome(env, d);
    hide Refuse, Inv, QueueOk, CursorsOk, FlightOk;
    forall id | id in d.agreed
      ensures id in Refuse(env, d.net.store.items, d.queue, named, draw)
      ensures d.agreed[id] <= Refuse(env, d.net.store.items, d.queue, named, draw)[id].version
    {
      RefuseRow(env, d.net.store.items, d.queue, named, draw, id);
    }
  }

  lemma RefusalKeepsInv(env: Env, d: Dev, named: seq<Uuid>, draw: nat -> Draw)
    requires DevInv(env, d)
    ensures DevInv(env, Next(env, d, PushRefused(named, draw)))
  {
    InvIsValid(env, d.net, d.debt);
    hide DevInv, RowsOk, QueueOk, AgreedOk, Refuse, Answered, Without;
    if d.flight.None? && d.net.phase.Ready? {
      RefusalKeepsRows(env, d, named, draw);
      RefusalKeepsQueue(env, d, named, draw);
      RefusalKeepsAgreed(env, d, named, draw);
      AnsweredKeepsDev(env, WithItems(d, Refuse(env, d.net.store.items, d.queue, named, draw))
                            .(queue := Without(d.queue, named)), {}, {});
    }
  }

  lemma RefusedFields(env: Env, d: Dev, named: seq<Uuid>, draw: nat -> Draw)
    requires ValidServer(d.net.server) && d.flight.None? && d.net.phase.Ready?
    ensures var m := Next(env, d, PushRefused(named, draw));
            && m.net.server == d.net.server && m.net.stored == d.net.stored && m.flight.None?
            && m.net.store.items == Refuse(env, d.net.store.items, d.queue, named, draw)
            && m.net.phase == Ready(LastSeq(d.net.server.log))
            && m.queue == Without(d.queue, named) && m.agreed == d.agreed
  {
    hide Refuse, LastSeq, Without, Missing, ValidServer;
  }

  // ----- the whole life

  lemma NextKeepsInv(env: Env, d: Dev, e: OfflineModel.Event)
    requires DevInv(env, d)
    ensures DevInv(env, Next(env, d, e))
  {
    InvIsValid(env, d.net, d.debt);
    hide DevInv, Next;
    match e
    case Pulling(step) => PullingKeepsInv(env, d, step);
    case PushLands(order, stamps) => LandingKeepsInv(env, d, order, stamps);
    case PushReply => ReplyKeepsInv(env, d);
    case PushRefused(named, draw) => RefusalKeepsInv(env, d, named, draw);
    case _ => EditKeepsInv(env, d, e);
  }

  lemma NextKeepsServer(env: Env, d: Dev, e: OfflineModel.Event)
    requires ValidServer(d.net.server)
    ensures ValidServer(Next(env, d, e).net.server)
  {
    match e
    case Pulling(step) => StepKeepsServer(env, d.net, step);
    case PushLands(order, stamps) =>
      if CanLand(d, order) {
        AcceptedLog(d.net.server, Plan(d.net.server, d.queue, order, stamps));
      }
    case _ =>
  }

  ghost function Life(env: Env, d: Dev, events: seq<OfflineModel.Event>): (m: Dev)
    requires ValidServer(d.net.server)
    ensures ValidServer(m.net.server)
    decreases |events|
  {
    if events == [] then d
    else
      NextKeepsServer(env, d, events[0]);
      Life(env, Next(env, d, events[0]), events[1..])
  }

  lemma {:induction false} LifeKeepsInv(env: Env, d: Dev, events: seq<OfflineModel.Event>)
    requires DevInv(env, d)
    ensures DevInv(env, Life(env, d, events))
    decreases |events|
  {
    InvIsValid(env, d.net, d.debt);
    hide DevInv, Next;
    if events != [] {
      NextKeepsInv(env, d, events[0]);
      LifeKeepsInv(env, Next(env, d, events[0]), events[1..]);
    }
  }

  /** A client that has never synced this vault and has nothing queued. */
  predicate Newborn(env: Env, d: Dev) {
    && ValidServer(d.net.server) && d.net.stored == 0 && d.net.phase.Idle?
    && (forall id :: id in d.net.store.items ==> !Clean(env, d.net.store, id))
    && d.queue == map[] && d.flight.None? && d.debt == NO_DEBT && d.agreed == map[]
  }

  lemma NewbornIsInv(env: Env, d: Dev)
    requires Newborn(env, d)
    ensures DevInv(env, d)
  {
    FreshClientIsInv(env, d.net.server, d.net.store);
    LastSeqIsLast(d.net.server.log);
  }

  /** The latest change of an item, once the saved cursor has passed it, was got or is owed. */
  predicate GotLatest(d: Dev, id: Uuid) {
    var last := LastOf(d.net.server.log, id);
    last.Some? && last.value.seqNo <= d.net.stored ==> Got(d.agreed, last.value) || last.value in d.debt.missed
  }

  /**
    Over every life of a client, whatever it edits, creates, deletes, pushes, has refused, pulls or
    loses, at any moment, and whatever other devices commit meanwhile: an item whose latest change
    lies at or below the saved cursor got that change, unless it is written down as missed; and if its
    row carries no local change it has exactly the server's content and number, and the server's
    history unless this client pushed the item itself. No such row is ahead of the server. The only
    rows left out are those of items that were changed between a push of theirs and its reply.
   */
  lemma OfflineLifeAgrees(env: Env, d: Dev, events: seq<OfflineModel.Event>, id: Uuid)
    requires Newborn(env, d)
    ensures var m := Life(env, d, events);
            && GotLatest(m, id)
            && AgreesUpToCursor(env, m.net, m.debt, id) && NotAhead(env, m.net, m.debt, id)
  {
    NewbornIsInv(env, d);
    LifeKeepsInv(env, d, events);
    var m := Life(env, d, events);
    hide Life;
    InvAgrees(env, m.net, m.debt, id);
    assert LastOf(m.net.server.log, id).Some? ==> LastOf(m.net.server.log, id).value in m.net.server.log;
    hide Inv, QueueOk, FlightOk, AgreedOk, AgreesUpToCursor, NotAhead;
  }
}
