/**
  Pushing moves the cursor. The server answers a push with the number of its newest log entry
  (crates/zann-server/src/domains/sync/service.rs:671-701) and the client continues from there
  (crates/zann-client/src/sync.rs:370), so entries of other devices that were not pulled before
  the push, or that were committed between the push and the reading of that number, are passed
  over. This module says exactly when that loses something.
 */
module PushCursor {
  import opened Base
  import opened ReplicaModel
  import opened ConflictStep
  import opened PushQueue
  import opened ServerLog
  import opened PullJoin
  import opened PullRuns
  import PullResume

  /** One accepted change: the content the server stores, and the numbers its sequence skips. */
  datatype Pushed = Pushed(item: Uuid, op: Op, content: ServerItem, gap: nat)

  /** The server accepts a whole push: one log entry per change, in order. */
  function AcceptPush(s: Server, ps: seq<Pushed>): Server
    decreases |ps|
  {
    if ps == [] then s
    else
      var p := ps[|ps| - 1];
      Commit(AcceptPush(s, ps[..|ps| - 1]), p.item, p.op, p.content, p.gap)
  }

  /** `applied_changes` of the reply. */
  function Acks(s: Server, ps: seq<Pushed>): seq<AppliedChange>
    decreases |ps|
  {
    if ps == [] then []
    else
      var p := ps[|ps| - 1];
      Acks(s, ps[..|ps| - 1])
      + [AppliedChange(p.item, LastSeq(AcceptPush(s, ps).log), p.content.updatedAt,
                       if p.op == Delete then Some(p.content.updatedAt) else None)]
  }

  function PushedItems(ps: seq<Pushed>): set<Uuid>
    decreases |ps|
  {
    if ps == [] then {} else PushedItems(ps[..|ps| - 1]) + {ps[|ps| - 1].item}
  }

  predicate IsPushed(ps: seq<Pushed>, id: Uuid) {
    id in PushedItems(ps)
  }

  /** Every queued item has its row in the cache. */
  predicate RowsPresent(env: Env, items: map<Uuid, Item>, ps: seq<Pushed>) {
    forall id :: id in PushedItems(ps) ==> id in items && items[id].storage == env.storage
  }

  /** The log grew by entries of pushed items only. */
  predicate LogGrew(s: Server, t: Server, pushed: set<Uuid>) {
    && ValidServer(t)
    && (forall e :: e in s.log ==> e in t.log)
    && (forall e :: e in t.log ==> e in s.log || e.item in pushed)
  }

  /** Pushed rows are at their newest number, all others as they were. */
  ghost predicate RowsAcked(env: Env, items: map<Uuid, Item>, after: map<Uuid, Item>, log: seq<LogEntry>,
                            pushed: set<Uuid>)
  {
    && after.Keys == items.Keys
    && (forall id :: id in items ==> after[id].storage == items[id].storage)
    && (forall id :: id in items && id !in pushed ==> after[id] == items[id])
    && (forall id :: id in pushed ==>
          && id in after && LastOf(log, id).Some?
          && after[id].version == LastOf(log, id).value.seqNo)
  }

  lemma {:induction false} AcceptedLog(s: Server, ps: seq<Pushed>)
    requires ValidServer(s)
    ensures LogGrew(s, AcceptPush(s, ps), PushedItems(ps))
    decreases |ps|
  {
    if ps != [] {
      var p := ps[|ps| - 1];
      AcceptedLog(s, ps[..|ps| - 1]);
      var t, u := AcceptPush(s, ps[..|ps| - 1]), AcceptPush(s, ps);
      CommitAppends(t, p.item, p.op, p.content, p.gap);
      assert forall e :: e in u.log <==> e in t.log || e == u.log[|t.log|];
    }
  }

  lemma AckOneMore(env: Env, items: map<Uuid, Item>, mid: map<Uuid, Item>, t: Server, p: Pushed,
                   pushed: set<Uuid>, ack: AppliedChange)
    requires ValidServer(t) && RowsAcked(env, items, mid, t.log, pushed)
    requires p.item in items && items[p.item].storage == env.storage
    requires ack.item == p.item && ack.seqNo == LastSeq(Commit(t, p.item, p.op, p.content, p.gap).log)
    ensures RowsAcked(env, items, ApplyAck(env.storage, mid, ack),
                      Commit(t, p.item, p.op, p.content, p.gap).log, pushed + {p.item})
  {
    var log := Commit(t, p.item, p.op, p.content, p.gap).log;
    CommitAppends(t, p.item, p.op, p.content, p.gap);
    LastSeqIsLast(log);
    AckOneRow(env, items, mid, t.log, log, pushed, ack);
  }

  lemma AckOneRow(env: Env, items: map<Uuid, Item>, mid: map<Uuid, Item>, before: seq<LogEntry>, log: seq<LogEntry>,
                  pushed: set<Uuid>, ack: AppliedChange)
    requires RowsAcked(env, items, mid, before, pushed)
    requires ack.item in items && items[ack.item].storage == env.storage
    requires LastOf(log, ack.item).Some? && LastOf(log, ack.item).value.seqNo == ack.seqNo
    requires forall id :: id != ack.item ==> LastOf(log, id) == LastOf(before, id)
    ensures RowsAcked(env, items, ApplyAck(env.storage, mid, ack), log, pushed + {ack.item})
  {
  }

  lemma {:induction false} AcceptedRows(env: Env, items: map<Uuid, Item>, s: Server, ps: seq<Pushed>)
    requires ValidServer(s) && RowsPresent(env, items, ps)
    ensures RowsAcked(env, items, ApplyAcks(env.storage, items, Acks(s, ps)), AcceptPush(s, ps).log, PushedItems(ps))
    decreases |ps|
  {
    if ps != [] {
      var n := |ps| - 1;
      var qs := ps[..n];
      AcceptedRows(env, items, s, qs);
      AcceptedLog(s, qs);
      AcksLength(s, qs);
      assert Acks(s, ps)[..n] == Acks(s, qs);
      AckOneMore(env, items, ApplyAcks(env.storage, items, Acks(s, qs)), AcceptPush(s, qs), ps[n],
                 PushedItems(qs), Acks(s, ps)[n]);
    }
  }

  lemma {:induction false} AcksLength(s: Server, ps: seq<Pushed>)
    ensures |Acks(s, ps)| == |ps|
    decreases |ps|
  {
    if ps != [] {
      AcksLength(s, ps[..|ps| - 1]);
    }
  }

  /** Every entry of the log has reached the replica. */
  predicate CaughtUp(agreed: Agreed, log: seq<LogEntry>) {
    forall e :: e in log ==> Got(agreed, e)
  }

  /** Rows of these items, where there are any, belong to the storage being synced. */
  predicate AtHome(env: Env, st: Store, ids: set<Uuid>) {
    forall id :: id in ids && id in st.items ==> st.items[id].storage == env.storage
  }

  /** Nothing past this number has been agreed on. */
  predicate Within(agreed: Agreed, n: int) {
    forall id :: id in agreed ==> agreed[id] <= n
  }

  function LatestNo(log: seq<LogEntry>, id: Uuid): int {
    match LastOf(log, id)
    case None => 0
    case Some(e) => e.seqNo
  }

  /** A local version that is not below the item's latest number makes pulls pass it by. */
  predicate Blocked(items: map<Uuid, Item>, log: seq<LogEntry>, id: Uuid) {
    id in items && items[id].version >= LatestNo(log, id)
  }

  /** A committed item has its latest entry past everything that was there before. */
  lemma {:induction false} CommittedIsLast(s: Server, ps: seq<Pushed>, id: Uuid)
    requires ValidServer(s) && IsPushed(ps, id)
    ensures var last := LastOf(AcceptPush(s, ps).log, id);
            last.Some? && last.value.seqNo > LastSeq(s.log)
    ensures LastSeq(AcceptPush(s, ps).log) >= LastSeq(s.log)
    decreases |ps|
  {
    var front, p := ps[..|ps| - 1], ps[|ps| - 1];
    AcceptedLog(s, front);
    var t := AcceptPush(s, front);
    CommitAppends(t, p.item, p.op, p.content, p.gap);
    LogNeverShrinks(s, front);
    if p.item == id {
      var u := AcceptPush(s, ps);
      assert u.log[|t.log|].seqNo == LastSeq(t.log) + 1 + p.gap;
    } else {
      CommittedIsLast(s, front, id);
    }
  }

  lemma {:induction false} LogNeverShrinks(s: Server, ps: seq<Pushed>)
    requires ValidServer(s)
    ensures LastSeq(AcceptPush(s, ps).log) >= LastSeq(s.log)
    decreases |ps|
  {
    if ps != [] {
      var p := ps[|ps| - 1];
      LogNeverShrinks(s, ps[..|ps| - 1]);
      AcceptedLog(s, ps[..|ps| - 1]);
      CommitAppends(AcceptPush(s, ps[..|ps| - 1]), p.item, p.op, p.content, p.gap);
    }
  }

  /** The agreed number follows the best change, as the row does. */
  lemma {:induction false} AgreedReachesBest(env: Env, st: Store, agreed: Agreed, cs: seq<PullChange>, id: Uuid)
    ensures var after := AgreedPulls(env, st, agreed, cs);
            match Best(st, env, cs, id)
            case Some(c) => id in after && after[id] == c.seqNo
            case None => (id in after <==> id in agreed) && (id in agreed ==> after[id] == agreed[id])
    decreases |cs|
  {
    if cs != [] {
      var n := |cs| - 1;
      AgreedReachesBest(env, st, agreed, cs[..n], id);
      PullsReachBest(env, st, cs[..n], id);
      hide ApplyPulls, WellFormed, Newest, Inserted, PulledChecksum, PulledPayload;
    }
  }

  /** The latest entry of an item committed to later is delivered, and nothing newer is. */
  lemma LatestIsDelivered(u: Server, later: seq<Pushed>, id: Uuid)
    requires ValidServer(u) && IsPushed(later, id)
    ensures ValidServer(AcceptPush(u, later))
    ensures var v := AcceptPush(u, later);
            var cs := PullResume.Delivery(v, LastSeq(u.log));
            && LastOf(v.log, id).Some? && LastOf(v.log, id).value.seqNo > LastSeq(u.log)
            && id in v.items && Served(v, LastOf(v.log, id).value) in cs
            && forall c :: c in cs && c.item == id ==> c.seqNo <= LastOf(v.log, id).value.seqNo
  {
    var v := AcceptPush(u, later);
    AcceptedLog(u, later);
    CommittedIsLast(u, later, id);
    var cs := PullResume.Delivery(v, LastSeq(u.log));
    PullResume.DeliveryIsExact(v, LastSeq(u.log));
    hide PullResume.Delivery, AcceptPush, LastSeq;
    forall c | c in cs && c.item == id
      ensures c.seqNo <= LastOf(v.log, id).value.seqNo
    {
      var f :| f in v.log && f.seqNo > LastSeq(u.log) && c == Served(v, f);
    }
  }

  /** The newest change of an item lands unless the row is at least as new; then no other lands either. */
  lemma NewestLands(env: Env, st: Store, cs: seq<PullChange>, c: PullChange)
    requires c in cs && (forall d :: d in cs && d.item == c.item ==> d.seqNo <= c.seqNo)
    requires c.item in st.items ==> st.items[c.item].storage == env.storage
    ensures var best := Best(st, env, cs, c.item);
            if c.item in st.items && st.items[c.item].version >= c.seqNo then best.None?
            else best.Some? && best.value.seqNo == c.seqNo
  {
  }

  /** What a pull from the end of `u` brings of an item that was committed to later: all, or nothing. */
  lemma ToldAgain(env: Env, st: Store, agreed: Agreed, u: Server, later: seq<Pushed>, id: Uuid)
    requires ValidServer(u) && AtHome(env, st, PushedItems(later)) && Within(agreed, LastSeq(u.log))
    requires IsPushed(later, id)
    ensures ValidServer(AcceptPush(u, later))
    ensures var v := AcceptPush(u, later);
            var after := AgreedPulls(env, st, agreed, PullResume.Delivery(v, LastSeq(u.log)));
            && LastOf(v.log, id).Some?
            && (!Blocked(st.items, v.log, id) ==> id in after && after[id] == LatestNo(v.log, id))
            && (Blocked(st.items, v.log, id) ==> !Got(after, LastOf(v.log, id).value))
  {
    hide AgreedPulls, PullResume.Delivery, AcceptPush, LastSeq, LastOf, ValidServer;
    LatestIsDelivered(u, later, id);
    var v := AcceptPush(u, later);
    var cs := PullResume.Delivery(v, LastSeq(u.log));
    NewestLands(env, st, cs, Served(v, LastOf(v.log, id).value));
    AgreedReachesBest(env, st, agreed, cs, id);
  }

  /** What it brings of any other item: nothing. */
  lemma NotToldAgain(env: Env, st: Store, agreed: Agreed, u: Server, later: seq<Pushed>, e: LogEntry)
    requires ValidServer(u) && !IsPushed(later, e.item) && e in AcceptPush(u, later).log
    ensures ValidServer(AcceptPush(u, later))
    ensures var v := AcceptPush(u, later);
            var cs := PullResume.Delivery(v, LastSeq(u.log));
            && e in u.log && (forall c :: c in cs ==> c.item != e.item)
            && (Got(AgreedPulls(env, st, agreed, cs), e) <==> Got(agreed, e))
  {
    var v := AcceptPush(u, later);
    AcceptedLog(u, later);
    var cs := PullResume.Delivery(v, LastSeq(u.log));
    PullResume.DeliveryIsExact(v, LastSeq(u.log));
    LastSeqIsLast(u.log);
    forall c | c in cs
      ensures c.item != e.item
    {
      var f :| f in v.log && f.seqNo > LastSeq(u.log) && c == Served(v, f);
      assert f !in u.log;
    }
    AgreedReachesBest(env, st, agreed, cs, e.item);
    assert Best(st, env, cs, e.item).None?;
  }

  /** Nothing keeps later commits out. */
  predicate NoneBlocked(st: Store, v: Server, later: seq<Pushed>) {
    forall id :: id in PushedItems(later) ==> !Blocked(st.items, v.log, id)
  }

  /**
    A pull that continues from the end of the log as it stood at some moment, while other devices
    go on committing: the replica is caught up afterwards if and only if it had got every entry of
    that moment, except of items that were committed to again later, and no local version keeps
    those later commits out.
   */
  lemma PullFromEndCatchesUp(env: Env, st: Store, agreed: Agreed, u: Server, later: seq<Pushed>)
    requires ValidServer(u) && AtHome(env, st, PushedItems(later)) && Within(agreed, LastSeq(u.log))
    ensures ValidServer(AcceptPush(u, later))
    ensures var v := AcceptPush(u, later);
            CaughtUp(AgreedPulls(env, st, agreed, PullResume.Delivery(v, LastSeq(u.log))), v.log)
            <==> && (forall e :: e in u.log ==> Got(agreed, e) || IsPushed(later, e.item))
                 && NoneBlocked(st, v, later)
  {
    AcceptedLog(u, later);
    var v := AcceptPush(u, later);
    var after := AgreedPulls(env, st, agreed, PullResume.Delivery(v, LastSeq(u.log)));
    forall e | e in v.log && !IsPushed(later, e.item)
      ensures e in u.log && (Got(after, e) <==> Got(agreed, e))
    {
      NotToldAgain(env, st, agreed, u, later, e);
    }
    forall id | IsPushed(later, id)
      ensures LastOf(v.log, id).Some?
      ensures !Blocked(st.items, v.log, id) ==> id in after && after[id] == LatestNo(v.log, id)
      ensures Blocked(st.items, v.log, id) ==> !Got(after, LastOf(v.log, id).value)
    {
      ToldAgain(env, st, agreed, u, later, id);
    }
    hide AgreedPulls, PullResume.Delivery, AcceptPush, LastSeq, PushedItems, Blocked;
    if CaughtUp(after, v.log) {
      forall id | id in PushedItems(later)
        ensures !Blocked(st.items, v.log, id)
      {
        assert IsPushed(later, id);
        assert LastOf(v.log, id).value in v.log;
      }
    }
    forall e | e in v.log && IsPushed(later, e.item) && !Blocked(st.items, v.log, e.item)
      ensures Got(after, e)
    {
      assert LastOf(v.log, e.item).value.seqNo >= e.seqNo;
    }
  }

  /** Nothing is left out except what the replica has got, pushes itself, or is told again later. */
  predicate NothingSkipped(agreed: Agreed, log: seq<LogEntry>, ps: seq<Pushed>, later: seq<Pushed>) {
    forall e :: e in log ==> Got(agreed, e) || IsPushed(ps, e.item) || IsPushed(later, e.item)
  }

  lemma AgreedOneMore(s: Server, agreed: Agreed, ps: seq<Pushed>)
    requires ps != []
    ensures var n := |ps| - 1;
            AgreedAcks(agreed, Acks(s, ps))
            == AgreedAcks(agreed, Acks(s, ps[..n]))[ps[n].item := LastSeq(AcceptPush(s, ps).log)]
  {
    var n := |ps| - 1;
    AcksLength(s, ps[..n]);
    hide AcceptPush, LastSeq;
    assert Acks(s, ps)[..n] == Acks(s, ps[..n]);
  }

  lemma LatestOneMore(s: Server, ps: seq<Pushed>)
    requires ValidServer(s) && ps != []
    ensures ValidServer(AcceptPush(s, ps)) && ValidServer(AcceptPush(s, ps[..|ps| - 1]))
    ensures var n := |ps| - 1;
            && LatestNo(AcceptPush(s, ps).log, ps[n].item) == LastSeq(AcceptPush(s, ps).log)
            && forall id :: id != ps[n].item ==>
                 LatestNo(AcceptPush(s, ps).log, id) == LatestNo(AcceptPush(s, ps[..n]).log, id)
  {
    var n := |ps| - 1;
    var p, t := ps[n], AcceptPush(s, ps[..n]);
    AcceptedLog(s, ps[..n]);
    CommitAppends(t, p.item, p.op, p.content, p.gap);
    hide LastOf, LastSeq;
  }

  /** Acknowledged items are agreed on at their latest number, all others as before. */
  lemma {:induction false} AcceptedAgreed(s: Server, agreed: Agreed, ps: seq<Pushed>, id: Uuid)
    requires ValidServer(s)
    ensures ValidServer(AcceptPush(s, ps))
    ensures var after := AgreedAcks(agreed, Acks(s, ps));
            if IsPushed(ps, id) then id in after && after[id] == LatestNo(AcceptPush(s, ps).log, id)
            else (id in after <==> id in agreed) && (id in agreed ==> after[id] == agreed[id])
    decreases |ps|
  {
    if ps != [] {
      hide AgreedAcks, Acks, AcceptPush, LatestNo, ValidServer;
      AgreedOneMore(s, agreed, ps);
      LatestOneMore(s, ps);
      AcceptedAgreed(s, agreed, ps[..|ps| - 1], id);
    }
  }

  /** What the replica has got at the moment of the reply. */
  lemma GotAtReply(s: Server, agreed: Agreed, ps: seq<Pushed>, e: LogEntry)
    requires ValidServer(s) && e in AcceptPush(s, ps).log
    ensures IsPushed(ps, e.item) ==> Got(AgreedAcks(agreed, Acks(s, ps)), e)
    ensures !IsPushed(ps, e.item) ==> (Got(AgreedAcks(agreed, Acks(s, ps)), e) <==> Got(agreed, e)) && e in s.log
  {
    AcceptedAgreed(s, agreed, ps, e.item);
    AcceptedLog(s, ps);
    hide AgreedAcks, Acks, AcceptPush;
  }

  lemma AgreedWithin(s: Server, agreed: Agreed, ps: seq<Pushed>)
    requires ValidServer(s) && Within(agreed, LastSeq(s.log))
    ensures ValidServer(AcceptPush(s, ps))
    ensures Within(AgreedAcks(agreed, Acks(s, ps)), LastSeq(AcceptPush(s, ps).log))
  {
    var t := AcceptPush(s, ps);
    AcceptedLog(s, ps);
    LogNeverShrinks(s, ps);
    LastSeqIsLast(t.log);
    forall id | id in AgreedAcks(agreed, Acks(s, ps))
      ensures AgreedAcks(agreed, Acks(s, ps))[id] <= LastSeq(t.log)
    {
      AcceptedAgreed(s, agreed, ps, id);
      hide AgreedAcks, Acks, AcceptPush;
      assert IsPushed(ps, id) ==> LatestNo(t.log, id) == 0 || LastOf(t.log, id).value in t.log;
    }
  }

  /** Commits in between are past everything agreed on. */
  lemma InBetweenIsMissing(t: Server, between: seq<Pushed>, agreed: Agreed, e: LogEntry)
    requires ValidServer(t) && Within(agreed, LastSeq(t.log)) && e in AcceptPush(t, between).log && e !in t.log
    ensures !Got(agreed, e) && IsPushed(between, e.item)
  {
    AcceptedLog(t, between);
    NewIsLate(t, between, e);
  }

  lemma {:induction false} NewIsLate(t: Server, ps: seq<Pushed>, e: LogEntry)
    requires ValidServer(t) && e in AcceptPush(t, ps).log && e !in t.log
    ensures e.seqNo > LastSeq(t.log)
    decreases |ps|
  {
    if ps != [] {
      var n := |ps| - 1;
      var p, u := ps[n], AcceptPush(t, ps[..n]);
      AcceptedLog(t, ps[..n]);
      LogNeverShrinks(t, ps[..n]);
      CommitAppends(u, p.item, p.op, p.content, p.gap);
      if e in u.log {
        NewIsLate(t, ps[..n], e);
      } else {
        assert e == AcceptPush(t, ps).log[|u.log|];
      }
    }
  }

  /**
    A sync with an accepted push, exactly as the requests are cut. The push is committed, `between`
    are the commits of other devices before the server reads its newest number for the reply, and
    `later` are those before the pull. The replica ends caught up if and only if before the push it
    had got every entry of an item it does not push, and nothing was committed in between, except
    what is told again later; and no local version keeps the later commits out. Otherwise another
    device's change is passed over.
   */
  lemma AcceptedSyncCatchesUp(env: Env, s: Server, st: Store, agreed: Agreed, ps: seq<Pushed>, between: seq<Pushed>,
                              later: seq<Pushed>)
    requires ValidServer(s) && RowsPresent(env, st.items, ps) && AtHome(env, st, PushedItems(later))
    requires Within(agreed, LastSeq(s.log))
    ensures var t := AcceptPush(s, ps);
            var u := AcceptPush(t, between);
            var v := AcceptPush(u, later);
            var acked := st.(items := ApplyAcks(env.storage, st.items, Acks(s, ps)));
            var told := AgreedAcks(agreed, Acks(s, ps));
            && ValidServer(v)
            && (CaughtUp(AgreedPulls(env, acked, told, PullResume.Delivery(v, LastSeq(u.log))), v.log)
                <==> && NothingSkipped(agreed, s.log, ps, later)
                     && (forall e :: e in u.log && e !in t.log ==> IsPushed(later, e.item))
                     && NoneBlocked(acked, v, later))
  {
    var t := AcceptPush(s, ps);
    var u := AcceptPush(t, between);
    var acked := st.(items := ApplyAcks(env.storage, st.items, Acks(s, ps)));
    var told := AgreedAcks(agreed, Acks(s, ps));
    AcceptedLog(s, ps);
    AcceptedLog(t, between);
    AcceptedRows(env, st.items, s, ps);
    AgreedWithin(s, agreed, ps);
    LogNeverShrinks(t, between);
    assert Within(told, LastSeq(u.log));
    PullFromEndCatchesUp(env, acked, told, u, later);
    GotOfWhole(s, agreed, ps, between, later);
  }

  /** The entries of the log at the reading of the cursor, sorted by where they came from. */
  lemma GotOfWhole(s: Server, agreed: Agreed, ps: seq<Pushed>, between: seq<Pushed>, later: seq<Pushed>)
    requires ValidServer(s) && Within(agreed, LastSeq(s.log))
    ensures ValidServer(AcceptPush(s, ps))
    ensures var t := AcceptPush(s, ps);
            var u := AcceptPush(t, between);
            var told := AgreedAcks(agreed, Acks(s, ps));
            (forall e :: e in u.log ==> Got(told, e) || IsPushed(later, e.item))
            <==> && NothingSkipped(agreed, s.log, ps, later)
                 && forall e :: e in u.log && e !in t.log ==> IsPushed(later, e.item)
  {
    var t := AcceptPush(s, ps);
    AcceptedLog(s, ps);
    AcceptedLog(t, between);
    AgreedWithin(s, agreed, ps);
    var u := AcceptPush(t, between);
    var told := AgreedAcks(agreed, Acks(s, ps));
    forall e | e in t.log
      ensures IsPushed(ps, e.item) ==> Got(told, e)
      ensures !IsPushed(ps, e.item) ==> (Got(told, e) <==> Got(agreed, e)) && e in s.log
    {
      GotAtReply(s, agreed, ps, e);
    }
    forall e | e in u.log && e !in t.log
      ensures !Got(told, e)
    {
      InBetweenIsMissing(t, between, told, e);
    }
    hide Got, AgreedAcks, Acks, AcceptPush;
  }

  /** With nothing told again: caught up if and only if nothing was skipped and nothing fell in between. */
  lemma AcceptedSyncCatchesUpAtOnce(env: Env, s: Server, st: Store, agreed: Agreed, ps: seq<Pushed>,
                                    between: seq<Pushed>)
    requires ValidServer(s) && RowsPresent(env, st.items, ps) && Within(agreed, LastSeq(s.log))
    ensures var u := AcceptPush(AcceptPush(s, ps), between);
            var acked := st.(items := ApplyAcks(env.storage, st.items, Acks(s, ps)));
            var told := AgreedAcks(agreed, Acks(s, ps));
            && ValidServer(u)
            && (CaughtUp(AgreedPulls(env, acked, told, PullResume.Delivery(u, LastSeq(u.log))), u.log)
                <==> NothingSkipped(agreed, s.log, ps, []) && between == [])
  {
    var t := AcceptPush(s, ps);
    var u := AcceptPush(t, between);
    AcceptedSyncCatchesUp(env, s, st, agreed, ps, between, []);
    AcceptedLog(s, ps);
    AcceptedLog(t, between);
    assert AcceptPush(u, []) == u && PushedItems([]) == {};
    if between != [] {
      var p := between[|between| - 1];
      assert IsPushed(between, p.item);
      CommittedIsLast(t, between, p.item);
      var e := LastOf(u.log, p.item).value;
      LastSeqIsLast(t.log);
      assert e in u.log && e !in t.log && !IsPushed([], e.item);
    }
    hide ApplyAcks, AgreedAcks, Acks, AgreedPulls, CaughtUp, NothingSkipped, Within, LastSeq, LastOf;
  }

  /** A conflict step never touches version and storage of a row that was there. */
  lemma {:induction false} ConflictsKeepVersions(env: Env, items: map<Uuid, Item>, listing: seq<Pending>,
                                                 conflicts: seq<Uuid>, draw: nat -> Draw, id: Uuid)
    requires forall i: nat :: draw(i).newId != id
    ensures var after := ApplyConflicts(env, items, listing, conflicts, draw);
            && (id in after <==> id in items)
            && (id in items ==> after[id].version == items[id].version && after[id].storage == items[id].storage)
    decreases |conflicts|
  {
    if conflicts != [] {
      ConflictsKeepVersions(env, items, listing, conflicts[..|conflicts| - 1], draw, id);
    }
  }

  function LogItems(log: seq<LogEntry>): set<Uuid> {
    set i | 0 <= i < |log| :: log[i].item
  }

  /**
    A refused push is rolled back, yet its reply carries the newest number too. `s` is the server
    when it reads that number, `later` are the commits before the pull. The sync leaves the replica
    caught up if and only if it had got all of `s` before, except what is told again later, and no
    local version keeps that out.
   */
  lemma RefusedSyncCatchesUp(env: Env, s: Server, st: Store, agreed: Agreed, listing: seq<Pending>,
                             conflicts: seq<Uuid>, draw: nat -> Draw, later: seq<Pushed>)
    requires ValidServer(s) && AtHome(env, st, PushedItems(later)) && Within(agreed, LastSeq(s.log))
    requires forall i: nat :: draw(i).newId !in LogItems(s.log) + PushedItems(later)
    ensures var kept := st.(items := ApplyConflicts(env, st.items, listing, conflicts, draw));
            var v := AcceptPush(s, later);
            && ValidServer(v)
            && (CaughtUp(AgreedPulls(env, kept, agreed, PullResume.Delivery(v, LastSeq(s.log))), v.log)
                <==> && (forall e :: e in s.log ==> Got(agreed, e) || IsPushed(later, e.item))
                     && NoneBlocked(st, v, later))
  {
    var kept := st.(items := ApplyConflicts(env, st.items, listing, conflicts, draw));
    forall id | id in PushedItems(later)
      ensures id in kept.items <==> id in st.items
      ensures id in st.items ==>
                kept.items[id].version == st.items[id].version && kept.items[id].storage == st.items[id].storage
    {
      ConflictsKeepVersions(env, st.items, listing, conflicts, draw, id);
    }
    PullFromEndCatchesUp(env, kept, agreed, s, later);
    hide ApplyConflicts, AgreedPulls, AcceptPush, LastSeq, LastOf;
  }

  /** A refused change with a payload turns the row of its item into a conflict row, whatever comes with it. */
  lemma {:induction false} RefusedRowIsConflict(env: Env, items: map<Uuid, Item>, listing: seq<Pending>,
                                                conflicts: seq<Uuid>, draw: nat -> Draw, p: Pending)
    requires LastQueued(listing, p.item) == Some(p) && p.payload.Some? && p.item in conflicts
    requires p.item in items && items[p.item].storage == env.storage
    requires forall i: nat :: draw(i).newId != p.item
    ensures var after := ApplyConflicts(env, items, listing, conflicts, draw);
            p.item in after && after[p.item].status == Conflict && after[p.item].payload == p.payload.value
    decreases |conflicts|
  {
    var n := |conflicts| - 1;
    ConflictsKeepVersions(env, items, listing, conflicts[..n], draw, p.item);
    if conflicts[n] != p.item {
      RefusedRowIsConflict(env, items, listing, conflicts[..n], draw, p);
    }
    hide Candidate, ChosenFrom;
  }

  /**
    The change that caused a conflict is not fetched. However the local version was raised, a refused
    change whose base lies below the item's latest number leaves a row that is not the server's,
    agreed on as before, unless the item is committed to again before the pull.
   */
  lemma ConflictCauseIsNotFetched(env: Env, s: Server, st: Store, agreed: Agreed, listing: seq<Pending>,
                                  conflicts: seq<Uuid>, draw: nat -> Draw, later: seq<Pushed>, p: Pending)
    requires ValidServer(s) && LastQueued(listing, p.item) == Some(p) && p.payload.Some? && p.item in conflicts
    requires p.item in st.items && st.items[p.item].storage == env.storage
    requires forall i: nat :: draw(i).newId != p.item
    requires p.item in agreed && LastOf(s.log, p.item).Some? && agreed[p.item] < LastOf(s.log, p.item).value.seqNo
    requires !IsPushed(later, p.item)
    ensures ValidServer(AcceptPush(s, later))
    ensures var kept := st.(items := ApplyConflicts(env, st.items, listing, conflicts, draw));
            var v := AcceptPush(s, later);
            var cs := PullResume.Delivery(v, LastSeq(s.log));
            && p.item in ApplyPulls(env, kept, cs).items
            && ApplyPulls(env, kept, cs).items[p.item].payload == p.payload.value
            && !Matches(env, v, ApplyPulls(env, kept, cs), p.item)
            && !Got(AgreedPulls(env, kept, agreed, cs), LastOf(s.log, p.item).value)
  {
    var kept := st.(items := ApplyConflicts(env, st.items, listing, conflicts, draw));
    var e := LastOf(s.log, p.item).value;
    AcceptedLog(s, later);
    RefusedRowIsConflict(env, st.items, listing, conflicts, draw, p);
    NotToldAgain(env, kept, agreed, s, later, e);
    var cs := PullResume.Delivery(AcceptPush(s, later), LastSeq(s.log));
    PullsReachBest(env, kept, cs, p.item);
    assert Best(kept, env, cs, p.item).None?;
    hide ApplyConflicts, AgreedPulls, AcceptPush, LastSeq, ApplyPulls;
  }

  /** Every cursor in use lies at or past `seqNo`, and nothing about `id` is under way. */
  predicate Past(n: Net, id: Uuid, seqNo: int) {
    && n.stored >= seqNo
    && match n.phase
       case Idle => true
       case Ready(mem) => mem >= seqNo
       case Applying(mem, inbox, next, more) => next >= seqNo && forall c :: c in inbox ==> c.item != id
  }

  predicate Touches(e: Event, id: Uuid) {
    e.CommitE? && e.item == id
  }

  /** A page fetched from past the latest entry of an item does not mention the item. */
  lemma PageAvoids(s: Server, since: int, limit: int, id: Uuid)
    requires ValidServer(s)
    requires LastOf(s.log, id).Some? && since >= LastOf(s.log, id).value.seqNo
    ensures forall c :: c in PullPage(s, since, limit).changes ==> c.item != id
    ensures PullPage(s, since, limit).nextCursor >= since
  {
    var p := PullPage(s, since, limit);
    PagesChain(s, since, limit);
    PageRowsAreSlice(s.log, since, limit);
    SinceIsSuffix(s.log, since);
    var rows := PageRows(s.log, since, limit);
    forall c | c in p.changes
      ensures c.item != id
    {
      var i :| 0 <= i < |p.changes| && p.changes[i] == c;
      var entry := s.log[Position(s.log, since) + i];
      assert rows[i] == entry && c == Served(s, entry);
      assert entry in s.log && entry.seqNo > since;
    }
  }

  lemma StepStaysPast(env: Env, n: Net, e: Event, id: Uuid)
    requires ValidServer(n.server)
    requires LastOf(n.server.log, id).Some? && Past(n, id, LastOf(n.server.log, id).value.seqNo)
    requires !Touches(e, id)
    ensures var m := Step(env, n, e);
            && ValidServer(m.server)
            && LastOf(m.server.log, id) == LastOf(n.server.log, id)
            && Past(m, id, LastOf(n.server.log, id).value.seqNo)
            && (id in m.store.items <==> id in n.store.items)
            && (id in n.store.items ==> m.store.items[id] == n.store.items[id])
  {
    hide LastOf, LastSeq, ValidServer, PullPage, Commit, ApplyPull;
    match e
    case CommitE(item, op, content, gap) => CommitAppends(n.server, item, op, content, gap);
    case Fetch(limit) =>
      if n.phase.Ready? {
        PageAvoids(n.server, n.phase.mem, limit, id);
      }
    case ApplyNext =>
      if n.phase.Applying? && n.phase.inbox != [] {
        assert n.phase.inbox[0] in n.phase.inbox;
        AppliedElsewhere(env, n.store, n.phase.inbox[0], id);
      }
    case _ =>
  }

  lemma AppliedElsewhere(env: Env, st: Store, c: PullChange, id: Uuid)
    requires c.item != id
    ensures var after := ApplyPull(env, st, c).items;
            (id in after <==> id in st.items) && (id in st.items ==> after[id] == st.items[id])
  {
  }

  // ----- an accepted push, entry by entry

  /** The reply names the change, the number of its log entry, the stored time, and for a deletion that time again. */
  predicate Reports(p: Pushed, e: LogEntry, a: AppliedChange) {
    && e == LogEntry(a.seqNo, p.item, p.op) && a.item == p.item && a.updatedAt == p.content.updatedAt
    && a.deletedAt == (if p.op.Delete? then Some(a.updatedAt) else None)
  }

  /** The new entries of the log, and the lines of the reply. */
  predicate EntriesAre(s: Server, t: Server, ps: seq<Pushed>, acks: seq<AppliedChange>) {
    && |acks| == |ps| && |t.log| == |s.log| + |ps| && s.log <= t.log
    && forall i :: 0 <= i < |ps| ==> Reports(ps[i], t.log[|s.log| + i], acks[i])
  }

  /** The log entry of a change on top of what the server has, and the line of the reply for it. */
  function EntryOf(mid: Server, p: Pushed): LogEntry {
    LogEntry(LastSeq(mid.log) + 1 + p.gap, p.item, p.op)
  }

  function LineOf(t: Server, p: Pushed): AppliedChange {
    AppliedChange(p.item, LastSeq(t.log), p.content.updatedAt,
                  if p.op == Delete then Some(p.content.updatedAt) else None)
  }

  lemma AcceptStep(s: Server, ps: seq<Pushed>)
    requires ps != []
    ensures var front, p := ps[..|ps| - 1], ps[|ps| - 1];
            && AcceptPush(s, ps) == Commit(AcceptPush(s, front), p.item, p.op, p.content, p.gap)
            && Acks(s, ps) == Acks(s, front) + [LineOf(AcceptPush(s, ps), p)]
  {
    hide Commit, LastSeq;
  }

  lemma CommitReports(mid: Server, p: Pushed)
    requires ValidServer(mid)
    ensures var t := Commit(mid, p.item, p.op, p.content, p.gap);
            ValidServer(t) && t.log == mid.log + [EntryOf(mid, p)] && Reports(p, EntryOf(mid, p), LineOf(t, p))
  {
    hide LastSeq, ValidServer, LastOf;
    CommitAppends(mid, p.item, p.op, p.content, p.gap);
  }

  lemma EntriesOneMore(s: Server, mid: Server, t: Server, front: seq<Pushed>, p: Pushed, acks: seq<AppliedChange>,
                       e: LogEntry, a: AppliedChange)
    requires EntriesAre(s, mid, front, acks) && t.log == mid.log + [e] && Reports(p, e, a)
    ensures EntriesAre(s, t, front + [p], acks + [a])
  {
    hide Reports;
    forall i | 0 <= i < |front + [p]| ensures Reports((front + [p])[i], t.log[|s.log| + i], (acks + [a])[i]) {
      if i < |front| {
        assert t.log[|s.log| + i] == mid.log[|s.log| + i];
        assert Reports(front[i], mid.log[|s.log| + i], acks[i]);
      }
    }
  }

  /** One log entry and one line of the reply per change, in order. */
  lemma {:induction false} AcceptedEntries(s: Server, ps: seq<Pushed>)
    requires ValidServer(s)
    ensures ValidServer(AcceptPush(s, ps)) && EntriesAre(s, AcceptPush(s, ps), ps, Acks(s, ps))
    decreases |ps|
  {
    hide Reports, ValidServer;
    if ps != [] {
      hide AcceptPush, Acks, EntriesAre;
      var front, p := ps[..|ps| - 1], ps[|ps| - 1];
      AcceptedEntries(s, front);
      var mid := AcceptPush(s, front);
      AcceptStep(s, ps);
      CommitReports(mid, p);
      EntriesOneMore(s, mid, AcceptPush(s, ps), front, p, Acks(s, front), EntryOf(mid, p),
                     LineOf(AcceptPush(s, ps), p));
      assert front + [p] == ps;
    }
  }

  /** Each item holds the content of its last change, or what it held before. */
  predicate HoldsLast(s: Server, t: Server, ps: seq<Pushed>, id: Uuid) {
    if forall i :: 0 <= i < |ps| ==> ps[i].item != id then
      (id in t.items <==> id in s.items) && (id in s.items ==> t.items[id] == s.items[id])
    else
      id in t.items && exists i :: 0 <= i < |ps| && ps[i].item == id && t.items[id] == ps[i].content
                                   && forall j :: i < j < |ps| ==> ps[j].item != id
  }

  lemma {:induction false} AcceptedItems(s: Server, ps: seq<Pushed>, id: Uuid)
    ensures HoldsLast(s, AcceptPush(s, ps), ps, id)
    decreases |ps|
  {
    if ps != [] {
      var n := |ps| - 1;
      var front := ps[..n];
      AcceptedItems(s, front, id);
      var mid, t := AcceptPush(s, front), AcceptPush(s, ps);
      hide AcceptPush;
      if ps[n].item != id {
        assert (id in t.items <==> id in mid.items) && (id in t.items ==> t.items[id] == mid.items[id]);
        assert forall i :: 0 <= i < n ==> front[i] == ps[i];
      }
    }
  }
}
