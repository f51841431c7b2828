/**
  What the cursor has passed over stays passed over, whatever the client does from then on, until
  someone commits to the item again or it is changed here (crates/zann-client/src/sync.rs:269-466).
 */
module OfflineSkips {
  import opened Base
  import opened ReplicaModel
  import opened ConflictStep
  import opened ServerLog
  import opened PullJoin
  import opened PullRuns
  import opened PushCursor
  import opened OfflineModel
  import opened OfflineRuns

  /** Every cursor in use lies at or past the item's latest entry, and nothing about the item is under way. */
  predicate Passed(d: Dev, id: Uuid) {
    && LastOf(d.net.server.log, id).Some? && Past(d.net, id, LastOf(d.net.server.log, id).value.seqNo)
    && id !in d.queue && (d.flight.Some? ==> id !in d.flight.value.order)
  }

  /** The event commits to the item elsewhere, or changes it here. */
  predicate Concerns(e: OfflineModel.Event, id: Uuid) {
    match e
    case Pulling(step) => Touches(step, id)
    case New(k, _, _, _) => k == id
    case Edit(k, _, _, _) => k == id
    case Remove(k, _) => k == id
    case Discard(k, _) => k == id
    case _ => false
  }

  /** The item looks to the client and to the server as before. */
  predicate Unchanged(d: Dev, m: Dev, id: Uuid) {
    && LastOf(m.net.server.log, id) == LastOf(d.net.server.log, id)
    && (id in m.net.store.items <==> id in d.net.store.items)
    && (id in d.net.store.items ==> m.net.store.items[id] == d.net.store.items[id])
    && (id in m.agreed <==> id in d.agreed) && (id in d.agreed ==> m.agreed[id] == d.agreed[id])
  }

  lemma BookingPasses(env: Env, d: Dev, c: PullChange, id: Uuid)
    requires c.item != id
    ensures var b := Booked(env, d, c).agreed;
            (id in b <==> id in d.agreed) && (id in d.agreed ==> b[id] == d.agreed[id])
    ensures Booked(env, d, c).queue == d.queue
  {
    hide Beats, Got;
  }

  /** What a pull step leaves alone. */
  lemma PulledIs(env: Env, d: Dev, step: PullRuns.Event, id: Uuid)
    requires ValidServer(d.net.server)
    requires d.net.phase.Applying? ==> forall c :: c in d.net.phase.inbox ==> c.item != id
    ensures var m := Pulled(env, d, step);
            && m.net == Step(env, d.net, step) && m.queue == d.queue && (m.flight.Some? ==> m.flight == d.flight)
            && (id in m.agreed <==> id in d.agreed) && (id in d.agreed ==> m.agreed[id] == d.agreed[id])
  {
    hide Step, Booked, ValidServer;
    if step.ApplyNext? && d.net.phase.Applying? && d.net.phase.inbox != [] {
      assert d.net.phase.inbox[0] in d.net.phase.inbox;
      BookingPasses(env, d, d.net.phase.inbox[0], id);
    }
  }

  lemma PullingPasses(env: Env, d: Dev, step: PullRuns.Event, id: Uuid)
    requires DevInv(env, d) && Passed(d, id) && !Touches(step, id)
    ensures ValidServer(d.net.server)
    ensures var m := Next(env, d, Pulling(step)); Passed(m, id) && Unchanged(d, m, id)
  {
    InvIsValid(env, d.net, d.debt);
    StepStaysPast(env, d.net, step, id);
    PulledIs(env, d, step, id);
    if MayPull(d, step) {
      hide DevInv, Step, LastOf, ValidServer, Pulled;
      PulledPasses(env, d, Pulled(env, d, step), id);
    } else {
      NothingChanged(d, id);
    }
  }

  lemma PulledPasses(env: Env, d: Dev, m: Dev, id: Uuid)
    requires Passed(d, id) && m.queue == d.queue && (m.flight.Some? ==> m.flight == d.flight) && SameRow(d, m, id)
    requires LastOf(m.net.server.log, id) == LastOf(d.net.server.log, id)
    requires Past(m.net, id, LastOf(d.net.server.log, id).value.seqNo)
    ensures Passed(m, id) && Unchanged(d, m, id)
  {
    hide LastOf, Past;
  }

  lemma {:induction false} CommitsElsewhere(s: Server, ps: seq<Pushed>, id: Uuid)
    requires ValidServer(s) && !IsPushed(ps, id)
    ensures LastOf(AcceptPush(s, ps).log, id) == LastOf(s.log, id)
    decreases |ps|
  {
    if ps != [] {
      var p, front := ps[|ps| - 1], ps[..|ps| - 1];
      CommitsElsewhere(s, front, id);
      AcceptedLog(s, front);
      CommitAppends(AcceptPush(s, front), p.item, p.op, p.content, p.gap);
    }
  }

  lemma {:induction false} PlannedItems(ps: seq<Pushed>, id: Uuid)
    ensures IsPushed(ps, id) <==> exists i :: 0 <= i < |ps| && ps[i].item == id
    decreases |ps|
  {
    if ps != [] {
      PlannedItems(ps[..|ps| - 1], id);
    }
  }

  lemma LandingPasses(env: Env, d: Dev, order: seq<Uuid>, stamps: nat -> Stamp, id: Uuid)
    requires DevInv(env, d) && Passed(d, id)
    ensures ValidServer(d.net.server)
    ensures var m := Next(env, d, PushLands(order, stamps)); Passed(m, id) && Unchanged(d, m, id)
  {
    InvIsValid(env, d.net, d.debt);
    if CanLand(d, order) {
      var ps := Plan(d.net.server, d.queue, order, stamps);
      PlannedItems(ps, id);
      assert id !in order;
      hide DevInv, AcceptPush, Acks, LastOf, ValidServer;
      CommitsElsewhere(d.net.server, ps, id);
      LandedPasses(d, Next(env, d, PushLands(order, stamps)), order, id);
    } else {
      NothingChanged(d, id);
    }
  }

  lemma LandedPasses(d: Dev, m: Dev, order: seq<Uuid>, id: Uuid)
    requires Passed(d, id) && id !in order && m.queue == d.queue && m.agreed == d.agreed
    requires m.net == d.net.(server := m.net.server) && m.flight.Some? && m.flight.value.order == order
    requires LastOf(m.net.server.log, id) == LastOf(d.net.server.log, id)
    ensures Passed(m, id) && Unchanged(d, m, id)
  {
    hide LastOf;
  }

  /** The latest entry of an item is not past the end of the log. */
  lemma LatestIsWithin(s: Server, id: Uuid)
    requires ValidServer(s) && LastOf(s.log, id).Some?
    ensures LastSeq(s.log) >= LastOf(s.log, id).value.seqNo
  {
    LastSeqIsLast(s.log);
    assert LastOf(s.log, id).value in s.log;
  }

  /** Rows and agreed number of the item in two states. */
  predicate SameRow(d: Dev, m: Dev, id: Uuid) {
    && (id in m.net.store.items <==> id in d.net.store.items)
    && (id in d.net.store.items ==> m.net.store.items[id] == d.net.store.items[id])
    && (id in m.agreed <==> id in d.agreed) && (id in d.agreed ==> m.agreed[id] == d.agreed[id])
  }

  /** A reply only moves the cursor up to the end of the log. */
  lemma AnsweredPasses(d: Dev, m: Dev, id: Uuid, mem: int)
    requires Passed(d, id) && m.net.server == d.net.server && m.net.stored == d.net.stored
    requires m.net.phase == Ready(mem) && mem >= LastOf(d.net.server.log, id).value.seqNo
    requires m.flight.None? && id !in m.queue && SameRow(d, m, id)
    ensures Passed(m, id) && Unchanged(d, m, id)
  {
    hide LastOf;
  }

  lemma DevFlightOk(env: Env, d: Dev)
    requires DevInv(env, d) && d.flight.Some?
    ensures ValidServer(d.net.server)
    ensures FlightOk(env, d.net.server, d.net.store.items, d.queue, d.debt.loose, d.flight.value)
  {
    hide QueueOk, AgreedOk, CursorsOk, FlightOk;
  }

  lemma ReplyRow(env: Env, d: Dev, id: Uuid)
    requires DevInv(env, d) && d.flight.Some? && id !in d.flight.value.order && id !in d.queue
    ensures ValidServer(d.net.server)
    ensures var m := Next(env, d, PushReply);
            && SameRow(d, m, id) && id !in m.queue && m.flight.None? && m.net.server == d.net.server
            && m.net.stored == d.net.stored && m.net.phase == Ready(LastSeq(d.net.server.log))
  {
    hide DevInv, FlightOk, Next, RepliedStore, AgreedAcks, LastSeq, ValidServer;
    DevFlightOk(env, d);
    RepliedFields(env, d);
    UnackedRow(env, d, id);
  }

  lemma ReplyPasses(env: Env, d: Dev, id: Uuid)
    requires DevInv(env, d) && Passed(d, id)
    ensures ValidServer(d.net.server)
    ensures var m := Next(env, d, PushReply); Passed(m, id) && Unchanged(d, m, id)
  {
    InvIsValid(env, d.net, d.debt);
    LatestIsWithin(d.net.server, id);
    if d.flight.Some? {
      ReplyRow(env, d, id);
      hide DevInv, Next, Passed, Unchanged, SameRow, LastOf, LastSeq, ValidServer;
      AnsweredPasses(d, Next(env, d, PushReply), id, LastSeq(d.net.server.log));
    } else {
      NothingChanged(d, id);
      hide DevInv, Passed, Unchanged, LastOf, LastSeq, ValidServer;
    }
  }

  lemma RefusalPasses(env: Env, d: Dev, named: seq<Uuid>, draw: nat -> Draw, id: Uuid)
    requires DevInv(env, d) && Passed(d, id)
    ensures ValidServer(d.net.server)
    ensures var m := Next(env, d, PushRefused(named, draw)); Passed(m, id) && Unchanged(d, m, id)
  {
    InvIsValid(env, d.net, d.debt);
    QueueAtHome(env, d);
    LatestIsWithin(d.net.server, id);
    RefuseRow(env, d.net.store.items, d.queue, named, draw, id);
    assert id !in d.queue;
    if d.flight.None? && d.net.phase.Ready? {
      RefusedFields(env, d, named, draw);
      hide DevInv, Next, Passed, Unchanged, Refuse, LastOf, LastSeq, ValidServer;
      AnsweredPasses(d, Next(env, d, PushRefused(named, draw)), id, LastSeq(d.net.server.log));
    } else {
      NothingChanged(d, id);
      hide DevInv, Passed, Unchanged, Refuse, LastOf, LastSeq, ValidServer;
    }
  }

  lemma ChangedPasses(d: Dev, k: Uuid, row: Item, queue: Queue, id: Uuid)
    requires Passed(d, id) && k != id && id !in queue
    ensures Passed(Changed(d, k, row, queue), id) && Unchanged(d, Changed(d, k, row, queue), id)
  {
    hide LastOf;
  }

  lemma ChangePasses(env: Env, d: Dev, e: OfflineModel.Event, id: Uuid)
    requires ValidServer(d.net.server) && Passed(d, id) && !Concerns(e, id)
    requires e.New? || e.Edit? || e.Remove? || e.Discard?
    ensures var m := Next(env, d, e); Passed(m, id) && Unchanged(d, m, id)
  {
    var m := Next(env, d, e);
    assert id !in d.queue;
    hide Passed, Unchanged, Merge, ValidServer, Changed;
    NothingChanged(d, id);
    var items := d.net.store.items;
    match e
    case New(k, draft, now, fp) =>
      ChangedPasses(d, k, NewRow(env, draft, now, fp), d.queue[k := Fresh(draft)], id);
    case Edit(k, draft, now, fp) =>
      if Editable(env, d, k) {
        ChangedPasses(d, k, EditedRow(items[k], draft, now, fp),
                      d.queue[k := Merge(d.queue, k, Onto(false, items[k].version, draft))], id);
      }
    case Remove(k, now) =>
      if Editable(env, d, k) {
        ChangedPasses(d, k, RemovedRow(items[k], now, Tombstone),
                      d.queue[k := Merge(d.queue, k, Onto(true, items[k].version, DraftOf(items[k])))], id);
      }
    case Discard(k, now) =>
      if Editable(env, d, k) {
        ChangedPasses(d, k, RemovedRow(items[k], now, LocalDeleted), d.queue - {k}, id);
      }
  }

  lemma NextPasses(env: Env, d: Dev, e: OfflineModel.Event, id: Uuid)
    requires DevInv(env, d) && Passed(d, id) && !Concerns(e, id)
    ensures ValidServer(d.net.server)
    ensures var m := Next(env, d, e); DevInv(env, m) && Passed(m, id) && Unchanged(d, m, id)
  {
    InvIsValid(env, d.net, d.debt);
    hide DevInv, Next, Passed, Unchanged, ValidServer;
    NextKeepsInv(env, d, e);
    match e
    case Pulling(step) => PullingPasses(env, d, step, id);
    case PushLands(order, stamps) => LandingPasses(env, d, order, stamps, id);
    case PushReply => ReplyPasses(env, d, id);
    case PushRefused(named, draw) => RefusalPasses(env, d, named, draw, id);
    case _ => ChangePasses(env, d, e, id);
  }

  lemma UnchangedTrans(a: Dev, b: Dev, c: Dev, id: Uuid)
    requires Unchanged(a, b, id) && Unchanged(b, c, id)
    ensures Unchanged(a, c, id)
  {
    hide LastOf;
  }

  /**
    Over every later life of the client, with any pushes, pulls, edits of other items, refusals and
    crashes: an item whose latest change all cursors have passed, and which is neither committed to
    nor changed here, keeps its row and its agreed number.
   */
  lemma {:induction false} SkippedForGood(env: Env, d: Dev, events: seq<OfflineModel.Event>, id: Uuid)
    requires DevInv(env, d) && Passed(d, id)
    requires forall e :: e in events ==> !Concerns(e, id)
    ensures ValidServer(d.net.server) && Unchanged(d, Life(env, d, events), id)
    decreases |events|
  {
    InvIsValid(env, d.net, d.debt);
    hide DevInv, Next, Passed, Unchanged, ValidServer, Concerns;
    if events == [] {
      NothingChanged(d, id);
    } else {
      assert events[0] in events;
      NextPasses(env, d, events[0], id);
      SkippedForGood(env, Next(env, d, events[0]), events[1..], id);
      UnchangedTrans(d, Next(env, d, events[0]), Life(env, Next(env, d, events[0]), events[1..]), id);
    }
  }

  lemma NothingChanged(d: Dev, id: Uuid)
    ensures Unchanged(d, d, id)
  {
  }

  /** A page asked for at the end of the log is empty and the last one. */
  lemma PageAtEnd(s: Server, limit: int)
    requires ValidServer(s)
    ensures PullPage(s, LastSeq(s.log), limit) == Page([], LastSeq(s.log), false)
  {
    SinceIsSuffix(s.log, LastSeq(s.log));
    LastSeqIsLast(s.log);
    assert forall i :: 0 <= i < |s.log| ==> s.log[i] in s.log;
    assert ListSince(s.log, LastSeq(s.log)) == [];
  }

  /** The rest of a sync whose push has landed: the reply, an empty page, and the cursor saved. */
  ghost function Completed(env: Env, d: Dev, limit: int): Dev
    requires ValidServer(d.net.server)
  {
    var a := Next(env, d, PushReply);
    NextKeepsServer(env, d, PushReply);
    var b := Next(env, a, Pulling(Fetch(limit)));
    NextKeepsServer(env, a, Pulling(Fetch(limit)));
    Next(env, b, Pulling(EndPage))
  }

  lemma CompletedIs(env: Env, d: Dev, limit: int)
    requires ValidServer(d.net.server) && d.flight.Some?
    ensures var m, a := Completed(env, d, limit), Next(env, d, PushReply);
            && m.net.phase == Idle && m.net.stored == LastSeq(d.net.server.log) && m.flight.None?
            && m.net.server == d.net.server && m.net.store == a.net.store && m.agreed == a.agreed && m.queue == a.queue
  {
    hide ApplyAcks, AgreedAcks, LastSeq, ValidServer, PullPage, Missing;
    NextKeepsServer(env, d, PushReply);
    PageAtEnd(d.net.server, limit);
  }

  lemma CompletedKeepsInv(env: Env, d: Dev, limit: int)
    requires DevInv(env, d)
    ensures ValidServer(d.net.server) && DevInv(env, Completed(env, d, limit))
  {
    InvIsValid(env, d.net, d.debt);
    var a := Next(env, d, PushReply);
    hide DevInv, Next, ValidServer;
    NextKeepsInv(env, d, PushReply);
    NextKeepsServer(env, d, PushReply);
    NextKeepsInv(env, a, Pulling(Fetch(limit)));
    NextKeepsServer(env, a, Pulling(Fetch(limit)));
    NextKeepsInv(env, Next(env, a, Pulling(Fetch(limit))), Pulling(EndPage));
  }

  /** An item that a push does not concern comes out of the completed sync as it went in, but passed over. */
  lemma CompletedPasses(env: Env, d: Dev, limit: int, id: Uuid)
    requires DevInv(env, d) && d.flight.Some? && id !in d.flight.value.order && id !in d.queue
    requires LastOf(d.net.server.log, id).Some?
    ensures ValidServer(d.net.server)
    ensures Passed(Completed(env, d, limit), id) && Unchanged(d, Completed(env, d, limit), id)
  {
    ReplyRow(env, d, id);
    LatestIsWithin(d.net.server, id);
    hide DevInv, LastOf, LastSeq, ValidServer, Completed, Next;
    CompletedIs(env, d, limit);
  }

  /**
    A push loses another device's change for good. Whenever a push has landed while the latest change
    of some item that is neither pushed nor queued was not got, the sync completes without it, and no
    later life of the client gets it until the item is committed to again or changed here.
   */
  lemma PushLosesForGood(env: Env, d: Dev, limit: int, events: seq<OfflineModel.Event>, id: Uuid)
    requires DevInv(env, d) && d.flight.Some? && id !in d.flight.value.order && id !in d.queue
    requires LastOf(d.net.server.log, id).Some? && !Got(d.agreed, LastOf(d.net.server.log, id).value)
    requires forall e :: e in events ==> !Concerns(e, id)
    ensures ValidServer(d.net.server) && ValidServer(Completed(env, d, limit).net.server)
    ensures var m := Life(env, Completed(env, d, limit), events);
            && Unchanged(d, m, id)
            && !Got(m.agreed, LastOf(m.net.server.log, id).value)
  {
    InvIsValid(env, d.net, d.debt);
    CompletedKeepsInv(env, d, limit);
    CompletedPasses(env, d, limit, id);
    InvIsValid(env, Completed(env, d, limit).net, Completed(env, d, limit).debt);
    SkippedForGood(env, Completed(env, d, limit), events, id);
    UnchangedTrans(d, Completed(env, d, limit), Life(env, Completed(env, d, limit), events), id);
    hide DevInv, Completed, LastOf, ValidServer, Passed;
  }

  // ----- two devices, no conflict

  /** Item 1 was created, pulled, and then changed by another device; item 2 was created here. */
  function ExampleDev(env: Env, content: ServerItem, row: Item, draft: Draft, now: Time, fp: string): Dev {
    var server := Server(map[1 := content], [LogEntry(1, 1, Create), LogEntry(2, 1, Update)]);
    var store := Store(map[1 := row, 2 := NewRow(env, draft, now, fp)], map[]);
    Dev(Net(server, store, 1, Ready(1)), map[2 := Fresh(draft)], None, NO_DEBT, map[1 := 1])
  }

  lemma ExampleLog(s: Server)
    requires s.log == [LogEntry(1, 1, Create), LogEntry(2, 1, Update)] && 1 in s.items
    ensures ValidServer(s) && LastSeq(s.log) == 2
    ensures LastOf(s.log, 1) == Some(LogEntry(2, 1, Update)) && LastOf(s.log, 2) == None
    ensures forall e :: e in s.log <==> e == LogEntry(1, 1, Create) || e == LogEntry(2, 1, Update)
  {
    assert |s.log| == 2 && s.log[0].seqNo == 1 && s.log[1].seqNo == 2;
    LastSeqIsLast(s.log);
    assert s.log[..1] == [LogEntry(1, 1, Create)] && s.log[..1][..0] == [];
  }

  lemma ExampleIsInv(env: Env, content: ServerItem, row: Item, draft: Draft, now: Time, fp: string)
    requires row.storage == env.storage && row.vault == env.vault && row.version == 1
    requires draft.checksum == env.hash(draft.payload)
    ensures DevInv(env, ExampleDev(env, content, row, draft, now, fp))
  {
    var d := ExampleDev(env, content, row, draft, now, fp);
    ExampleLog(d.net.server);
    hide LastOf, LastSeq, ValidServer;
    assert RowOk(env, d.net.server, d.net.store, d.debt, 1);
    assert RowOk(env, d.net.server, d.net.store, d.debt, 2);
    assert LogEntry(1, 1, Create) in d.net.server.log;
  }

  /**
    Another device changes item 1 while this one creates item 2 and pushes it: through every later life
    the change of item 1 does not arrive, although no conflict was ever reported.
   */
  lemma LostUpdateExample(env: Env, content: ServerItem, row: Item, draft: Draft, now: Time, fp: string,
                          stamps: nat -> Stamp, limit: int, events: seq<OfflineModel.Event>)
    requires row.storage == env.storage && row.vault == env.vault && row.version == 1
    requires draft.checksum == env.hash(draft.payload)
    requires forall e :: e in events ==> !Concerns(e, 1)
    ensures var d := ExampleDev(env, content, row, draft, now, fp);
            && ValidServer(d.net.server)
            && var p := Next(env, d, PushLands([2], stamps));
               && p.flight.Some? && ValidServer(p.net.server) && ValidServer(Completed(env, p, limit).net.server)
               && var m := Life(env, Completed(env, p, limit), events);
                  && 1 in m.net.store.items && m.net.store.items[1] == row
                  && LastOf(m.net.server.log, 1) == Some(LogEntry(2, 1, Update))
                  && !Got(m.agreed, LogEntry(2, 1, Update))
  {
    var d := ExampleDev(env, content, row, draft, now, fp);
    ExampleIsInv(env, content, row, draft, now, fp);
    ExampleLog(d.net.server);
    ExampleLands(env, d, stamps);
    var p := Next(env, d, PushLands([2], stamps));
    NextKeepsInv(env, d, PushLands([2], stamps));
    hide DevInv, Next, LastOf, ValidServer, Completed;
    PushLosesForGood(env, p, limit, events, 1);
  }

  lemma ExampleLands(env: Env, d: Dev, stamps: nat -> Stamp)
    requires d.net.server.log == [LogEntry(1, 1, Create), LogEntry(2, 1, Update)] && 1 in d.net.server.items
    requires d.flight.None? && d.net.phase.Ready? && d.queue.Keys == {2} && d.queue[2].Fresh?
    ensures ValidServer(d.net.server)
    ensures var p := Next(env, d, PushLands([2], stamps));
            && p.flight.Some? && p.flight.value.order == [2] && p.queue == d.queue && p.agreed == d.agreed
            && p.net.store == d.net.store && LastOf(p.net.server.log, 1) == LastOf(d.net.server.log, 1)
  {
    ExampleLog(d.net.server);
    assert CanLand(d, [2]);
    var ps := Plan(d.net.server, d.queue, [2], stamps);
    PlannedItems(ps, 1);
    CommitsElsewhere(d.net.server, ps, 1);
    hide AcceptPush, Acks, LastOf, ValidServer, Plan;
  }
}
