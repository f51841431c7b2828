/**
  Cut pulls against a log that stands still: however often a pull is cut and rerun from whatever
  cursor was saved, the replica ends as if it had never been cut (crates/zann-client/src/sync.rs:373-466).
 */
module PullResume {
  import opened Base
  import opened ReplicaModel
  import opened PullJoin
  import opened ServerLog

  /** Everything an uninterrupted pull delivers from a cursor, in delivery order. */
  function Delivery(s: Server, since: int): seq<PullChange>
    requires ValidServer(s)
  {
    SinceIsSuffix(s.log, since);
    ServeAll(s, ListSince(s.log, since))
  }

  /** A cut pull: how many changes were applied, and the cursor found on restart. */
  datatype Attempt = Attempt(applied: nat, saved: int)

  /** A saved cursor never passes what was applied. */
  predicate Possible(s: Server, since: int, a: Attempt)
    requires ValidServer(s)
  {
    var full := Delivery(s, since);
    && a.applied <= |full|
    && since <= a.saved
    && (a.saved == since || (a.applied > 0 && a.saved <= full[a.applied - 1].seqNo))
  }

  predicate AllPossible(s: Server, since: int, attempts: seq<Attempt>)
    requires ValidServer(s)
    decreases |attempts|
  {
    attempts == [] || (Possible(s, since, attempts[0]) && AllPossible(s, attempts[0].saved, attempts[1..]))
  }

  /** Cut attempts one after the other, then one pull that reaches the end. */
  function PullWithCuts(env: Env, s: Server, st: Store, since: int, attempts: seq<Attempt>): Store
    requires ValidServer(s) && AllPossible(s, since, attempts)
    decreases |attempts|
  {
    if attempts == [] then ApplyPulls(env, st, Delivery(s, since))
    else
      var a := attempts[0];
      PullWithCuts(env, s, ApplyPulls(env, st, Delivery(s, since)[..a.applied]), a.saved, attempts[1..])
  }

  lemma DeliveryIsWellFormed(s: Server, since: int)
    requires ValidServer(s)
    ensures WellFormed(Delivery(s, since))
  {
    SinceIsSuffix(s.log, since);
  }

  /** One page and the delivery after it make up the delivery before it; a further page means progress. */
  lemma DeliveryChains(s: Server, since: int, limit: int)
    requires ValidServer(s)
    ensures var p := PullPage(s, since, limit);
            && p.nextCursor >= since
            && Delivery(s, since) == p.changes + Delivery(s, p.nextCursor)
            && (p.hasMore ==> |Delivery(s, p.nextCursor)| < |Delivery(s, since)|)
            && (!p.hasMore ==> Delivery(s, p.nextCursor) == [])
  {
    PagesChain(s, since, limit);
    SinceIsSuffix(s.log, since);
    SinceIsSuffix(s.log, PullPage(s, since, limit).nextCursor);
    PageRowsAreSlice(s.log, since, limit);
    ServeConcat(s, PageRows(s.log, since, limit), ListSince(s.log, PullPage(s, since, limit).nextCursor));
  }

  lemma ServeConcat(s: Server, a: seq<LogEntry>, b: seq<LogEntry>)
    requires forall e :: e in a ==> e.item in s.items
    requires forall e :: e in b ==> e.item in s.items
    ensures ServeAll(s, a + b) == ServeAll(s, a) + ServeAll(s, b)
  {
  }

  /** A page appended to what was delivered before moves the boundary to the page's cursor. */
  lemma DeliveryAdvances(s: Server, since: int, cursor: int, delivered: seq<PullChange>, limit: int)
    requires ValidServer(s) && delivered + Delivery(s, cursor) == Delivery(s, since)
    ensures var p := PullPage(s, cursor, limit);
            && p.nextCursor >= cursor
            && (delivered + p.changes) + Delivery(s, p.nextCursor) == Delivery(s, since)
            && (p.hasMore ==> |Delivery(s, p.nextCursor)| < |Delivery(s, cursor)|)
            && (!p.hasMore ==> Delivery(s, p.nextCursor) == [])
  {
    hide Delivery, PullPage;
    DeliveryChains(s, cursor, limit);
  }

  /** The delivery serves the log from one position on. */
  lemma DeliveryAt(s: Server, since: int) returns (k: nat)
    requires ValidServer(s)
    ensures var d := Delivery(s, since);
            && k <= |s.log| && |d| == |s.log| - k
            && (forall i :: 0 <= i < |d| ==> s.log[k + i].item in s.items && d[i] == Served(s, s.log[k + i]))
            && (forall i :: 0 <= i < |s.log| ==> (i < k <==> s.log[i].seqNo <= since))
  {
    SinceIsSuffix(s.log, since);
    k := Position(s.log, since);
    hide ListSince, Served;
  }

  lemma ServedNumber(s: Server, e: LogEntry)
    requires e.item in s.items
    ensures Served(s, e).seqNo == e.seqNo
  {
  }

  /** Each entry past the cursor is delivered once, in ascending order, and nothing else is. */
  lemma DeliveryIsExact(s: Server, since: int)
    requires ValidServer(s)
    ensures var d := Delivery(s, since);
            && (forall i, j :: 0 <= i < j < |d| ==> d[i].seqNo < d[j].seqNo)
            && (forall e :: e in s.log && e.seqNo > since ==> Served(s, e) in d)
            && (forall c :: c in d ==> exists e :: e in s.log && e.seqNo > since && c == Served(s, e))
  {
    hide Delivery, Served;
    var k := DeliveryAt(s, since);
    var d := Delivery(s, since);
    forall i, j | 0 <= i < j < |d|
      ensures d[i].seqNo < d[j].seqNo
    {
      ServedNumber(s, s.log[k + i]);
      ServedNumber(s, s.log[k + j]);
    }
    forall e | e in s.log && e.seqNo > since
      ensures Served(s, e) in d
    {
      var i :| 0 <= i < |s.log| && s.log[i] == e;
      assert d[i - k] == Served(s, s.log[k + (i - k)]);
    }
    forall c | c in d
      ensures exists e :: e in s.log && e.seqNo > since && c == Served(s, e)
    {
      var i :| 0 <= i < |d| && d[i] == c;
      assert s.log[k + i] in s.log && c == Served(s, s.log[k + i]);
    }
  }

  /** A change of the delivery from one cursor is in the delivery from another that lies before it. */
  lemma DeliveredFrom(s: Server, since: int, saved: int, c: PullChange)
    requires ValidServer(s)
    requires c in Delivery(s, since) && c.seqNo > saved
    ensures c in Delivery(s, saved)
  {
    DeliveryIsExact(s, since);
    DeliveryIsExact(s, saved);
  }

  /** What was applied before the cut, followed by a rerun, names exactly the same changes. */
  lemma CutDeliversSameSet(s: Server, since: int, a: Attempt, c: PullChange)
    requires ValidServer(s) && Possible(s, since, a)
    ensures c in Delivery(s, since) <==> c in Delivery(s, since)[..a.applied] + Delivery(s, a.saved)
  {
    var full, rest := Delivery(s, since), Delivery(s, a.saved);
    if c in full && c !in full[..a.applied] {
      var i :| 0 <= i < |full| && full[i] == c;
      assert i >= a.applied;
      DeliveryIsExact(s, since);
      DeliveredFrom(s, since, a.saved, c);
    }
    if c in rest {
      DeliveryIsExact(s, a.saved);
      DeliveredFrom(s, a.saved, since, c);
    }
  }

  lemma OneCut(env: Env, s: Server, st: Store, since: int, a: Attempt)
    requires ValidServer(s) && Possible(s, since, a)
    ensures ApplyPulls(env, ApplyPulls(env, st, Delivery(s, since)[..a.applied]), Delivery(s, a.saved))
            == ApplyPulls(env, st, Delivery(s, since))
  {
    var full := Delivery(s, since);
    var first, rest := full[..a.applied], Delivery(s, a.saved);
    ApplyPullsConcat(env, st, first, rest);
    DeliveryIsWellFormed(s, since);
    forall c ensures c in full <==> c in first + rest {
      CutDeliversSameSet(s, since, a, c);
    }
    DeliveryIsIrrelevant(env, st, full, first + rest);
  }

  /**
    Resumable pull: any number of pulls cut after any change, with the cursor saved or not,
    followed by one that finishes, leaves the replica of a single uninterrupted pull.
   */
  lemma {:induction false} CutsLeaveNoTrace(env: Env, s: Server, st: Store, since: int, attempts: seq<Attempt>)
    requires ValidServer(s) && AllPossible(s, since, attempts)
    ensures PullWithCuts(env, s, st, since, attempts) == ApplyPulls(env, st, Delivery(s, since))
    decreases |attempts|
  {
    if attempts != [] {
      var a := attempts[0];
      CutsLeaveNoTrace(env, s, ApplyPulls(env, st, Delivery(s, since)[..a.applied]), a.saved, attempts[1..]);
      OneCut(env, s, st, since, a);
    }
  }
}
