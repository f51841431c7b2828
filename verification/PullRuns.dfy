/**
  Runs of one replica pulling from one server while other devices keep committing.

  A run is any interleaving of commits, page requests, applied changes, page ends, failed
  requests and crashes, so a reply may be stale by the time it is applied and a pull may be cut
  anywhere (crates/zann-client/src/sync.rs:373-466).
 */
module PullRuns {
  import opened Base
  import opened ReplicaModel
  import opened PullJoin
  import opened ServerLog

  /** Where the pull loop stands; everything in it is lost in a crash. */
  datatype Phase =
    | Idle
    | Ready(mem: int)
    | Applying(mem: int, inbox: seq<PullChange>, next: int, more: bool)

  /** `stored` is the saved cursor, 0 when there is none. */
  datatype Net = Net(server: Server, store: Store, stored: int, phase: Phase)

  datatype Event =
    | CommitE(item: Uuid, op: Op, content: ServerItem, gap: nat)
    | Begin
    | Fetch(limit: int)
    | FetchFails
    | ApplyNext
    | EndPage
    | Crash

  /** One event; an event that is not enabled changes nothing. */
  function Step(env: Env, n: Net, e: Event): Net
    requires ValidServer(n.server)
  {
    match e
    case CommitE(item, op, content, gap) => n.(server := Commit(n.server, item, op, content, gap))
    case Begin => if n.phase.Idle? then n.(phase := Ready(n.stored)) else n
    case Fetch(limit) =>
      if n.phase.Ready? then
        var p := PullPage(n.server, n.phase.mem, limit);
        n.(phase := Applying(n.phase.mem, p.changes, p.nextCursor, p.hasMore))
      else n
    case FetchFails => if n.phase.Ready? then n.(stored := n.phase.mem, phase := Idle) else n
    case ApplyNext =>
      if n.phase.Applying? && n.phase.inbox != [] then
        n.(store := ApplyPull(env, n.store, n.phase.inbox[0]),
           phase := n.phase.(inbox := n.phase.inbox[1..]))
      else n
    case EndPage =>
      if n.phase.Applying? && n.phase.inbox == [] then
        if n.phase.more then n.(phase := Ready(n.phase.next))
        else n.(stored := n.phase.next, phase := Idle)
      else n
    case Crash => n.(phase := Idle)
  }

  /** The row of `id` is the server's current content, as its latest entry would deliver it. */
  predicate Matches(env: Env, s: Server, st: Store, id: Uuid) {
    var last := LastOf(s.log, id);
    && last.Some? && id in s.items && id in st.items
    && st.items[id] == Overwritten(env, st.items[id], Served(s, last.value))
  }

  predicate HistoryMatches(env: Env, s: Server, st: Store, id: Uuid) {
    id in s.items && (env.storage, id) in st.history && st.history[(env.storage, id)] == s.items[id].history
  }

  /**
    What a replica may owe the server: entries its cursor has passed without getting them, items whose
    history is its own because it pushed them itself, and items that were changed again between such
    a push and its reply.
   */
  datatype Debt = Debt(missed: set<LogEntry>, own: set<Uuid>, loose: set<Uuid>)

  const NO_DEBT := Debt({}, {}, {})

  /** A row of this vault that carries no local change. Edited, deleted and conflict rows are not synced. */
  predicate Clean(env: Env, st: Store, id: Uuid) {
    id in st.items && st.items[id].storage == env.storage && st.items[id].vault == env.vault
    && st.items[id].status == Synced
  }

  /** No clean row is ahead of the server, and one at the latest number carries the latest content. */
  predicate RowOk(env: Env, s: Server, st: Store, debt: Debt, id: Uuid) {
    Clean(env, st, id) && id !in debt.loose ==>
      match LastOf(s.log, id)
      case None => st.items[id].version <= LastSeq(s.log)
      case Some(e) =>
        && st.items[id].version <= e.seqNo
        && (st.items[id].version == e.seqNo ==>
              Matches(env, s, st, id) && (id !in debt.own ==> HistoryMatches(env, s, st, id)))
  }

  predicate RowsOk(env: Env, s: Server, st: Store, debt: Debt) {
    forall id :: id in st.items ==> RowOk(env, s, st, debt, id)
  }

  /** The replica has seen this entry, or one of the same item after it. */
  predicate Seen(st: Store, e: LogEntry) {
    e.item in st.items && st.items[e.item].version >= e.seqNo
  }

  /**
    The last number of each item that the replica and the server agreed on: the latest change that
    was written here, or the latest push that was acknowledged. Local edits raise the version of a row
    past it (crates/zann-db/src/services/mod.rs:462), so the version alone does not tell.
   */
  type Agreed = map<Uuid, int>

  /** The replica got this entry, or one of the same item after it. */
  predicate Got(agreed: Agreed, e: LogEntry) {
    e.item in agreed && agreed[e.item] >= e.seqNo
  }

  /** A change that is written is agreed on. */
  function AgreedPull(env: Env, st: Store, agreed: Agreed, c: PullChange): Agreed {
    if Beats(st, env, c) then agreed[c.item := c.seqNo] else agreed
  }

  function AgreedPulls(env: Env, st: Store, agreed: Agreed, cs: seq<PullChange>): Agreed
    decreases |cs|
  {
    if cs == [] then agreed
    else
      var n := |cs| - 1;
      AgreedPull(env, ApplyPulls(env, st, cs[..n]), AgreedPulls(env, st, agreed, cs[..n]), cs[n])
  }

  function AgreedAcks(agreed: Agreed, acks: seq<AppliedChange>): Agreed
    decreases |acks|
  {
    if acks == [] then agreed
    else AgreedAcks(agreed, acks[..|acks| - 1])[acks[|acks| - 1].item := acks[|acks| - 1].seqNo]
  }

  /** The identifier is taken by a row of another storage, so this item can never be inserted. */
  predicate Foreign(env: Env, st: Store, id: Uuid) {
    id in st.items && st.items[id].storage != env.storage
  }

  predicate Settled(env: Env, st: Store, debt: Debt, e: LogEntry) {
    Seen(st, e) || e in debt.missed || Foreign(env, st, e.item)
  }

  predicate Covers(env: Env, st: Store, debt: Debt, log: seq<LogEntry>, upTo: int) {
    forall e :: e in log && e.seqNo <= upTo ==> Settled(env, st, debt, e)
  }

  predicate WillSee(inbox: seq<PullChange>, e: LogEntry) {
    exists c :: c in inbox && c.item == e.item && c.seqNo >= e.seqNo
  }

  predicate CoversWith(env: Env, st: Store, debt: Debt, inbox: seq<PullChange>, log: seq<LogEntry>, upTo: int) {
    forall e :: e in log && e.seqNo <= upTo ==> Settled(env, st, debt, e) || WillSee(inbox, e)
  }

  /** The change answers an entry of the log, with current content unless a later entry follows. */
  predicate Honest(s: Server, c: PullChange) {
    exists e :: e in s.log && e.item == c.item && e.seqNo == c.seqNo
                && (LastOf(s.log, c.item) == Some(e) ==> c.item in s.items && c == Served(s, e))
  }

  predicate AllHonest(s: Server, inbox: seq<PullChange>) {
    forall c :: c in inbox ==> Honest(s, c)
  }

  predicate Inv(env: Env, n: Net, debt: Debt) {
    && ValidServer(n.server)
    && RowsOk(env, n.server, n.store, debt)
    && n.stored <= LastSeq(n.server.log)
    && Covers(env, n.store, debt, n.server.log, n.stored)
    && match n.phase
       case Idle => true
       case Ready(mem) => mem <= LastSeq(n.server.log) && Covers(env, n.store, debt, n.server.log, mem)
       case Applying(mem, inbox, next, more) =>
         && next <= LastSeq(n.server.log)
         && AllHonest(n.server, inbox)
         && CoversWith(env, n.store, debt, inbox, n.server.log, next)
  }

  lemma CommitKeepsRow(env: Env, s: Server, st: Store, debt: Debt, item: Uuid, op: Op, content: ServerItem, gap: nat,
                       id: Uuid)
    requires ValidServer(s) && RowOk(env, s, st, debt, id)
    ensures RowOk(env, Commit(s, item, op, content, gap), st, debt, id)
  {
    CommitAppends(s, item, op, content, gap);
    LastSeqIsLast(s.log);
    hide Served, Overwritten, LastSeq, LastOf, ValidServer, Ascending;
  }

  lemma CommitKeepsRows(env: Env, s: Server, st: Store, debt: Debt, item: Uuid, op: Op, content: ServerItem, gap: nat)
    requires ValidServer(s) && RowsOk(env, s, st, debt)
    ensures RowsOk(env, Commit(s, item, op, content, gap), st, debt)
  {
    forall id | id in st.items
      ensures RowOk(env, Commit(s, item, op, content, gap), st, debt, id)
    {
      CommitKeepsRow(env, s, st, debt, item, op, content, gap, id);
    }
  }

  lemma CommitKeepsHonest(s: Server, c: PullChange, item: Uuid, op: Op, content: ServerItem, gap: nat)
    requires ValidServer(s) && Honest(s, c)
    ensures Honest(Commit(s, item, op, content, gap), c)
  {
    var t := Commit(s, item, op, content, gap);
    CommitAppends(s, item, op, content, gap);
    LastSeqIsLast(s.log);
    var e :| e in s.log && e.item == c.item && e.seqNo == c.seqNo
             && (LastOf(s.log, c.item) == Some(e) ==> c.item in s.items && c == Served(s, e));
    assert e in t.log;
  }

  lemma CommitKeepsInv(env: Env, n: Net, debt: Debt, item: Uuid, op: Op, content: ServerItem, gap: nat)
    requires Inv(env, n, debt)
    ensures Inv(env, n.(server := Commit(n.server, item, op, content, gap)), debt)
  {
    var s, t := n.server, Commit(n.server, item, op, content, gap);
    CommitAppends(s, item, op, content, gap);
    CommitKeepsRows(env, s, n.store, debt, item, op, content, gap);
    CommitIsLate(s, item, op, content, gap);
    hide RowsOk, Settled, WillSee, Commit;
    if n.phase.Applying? {
      forall c | c in n.phase.inbox
        ensures Honest(t, c)
      {
        CommitKeepsHonest(s, c, item, op, content, gap);
      }
    }
  }

  /** What a commit adds lies past everything that was there. */
  lemma CommitIsLate(s: Server, item: Uuid, op: Op, content: ServerItem, gap: nat)
    requires ValidServer(s)
    ensures var t := Commit(s, item, op, content, gap);
            && LastSeq(t.log) > LastSeq(s.log)
            && forall e :: e in t.log && e.seqNo <= LastSeq(s.log) ==> e in s.log
  {
    var t := Commit(s, item, op, content, gap);
    CommitAppends(s, item, op, content, gap);
    assert forall e :: e in t.log <==> e in s.log || e == t.log[|s.log|];
  }

  /** A page fetched now answers entries of the log with their current content. */
  lemma PageIsHonest(s: Server, since: int, limit: int)
    requires ValidServer(s)
    ensures AllHonest(s, PullPage(s, since, limit).changes)
  {
    var p := PullPage(s, since, limit);
    var rows := PageRows(s.log, since, limit);
    PageRowsAreSlice(s.log, since, limit);
    forall c | c in p.changes
      ensures Honest(s, c)
    {
      var i :| 0 <= i < |p.changes| && p.changes[i] == c;
      assert rows[i] == s.log[Position(s.log, since) + i];
      assert rows[i] in s.log && c == Served(s, rows[i]);
    }
  }

  /** A page answers every entry between its start and its end. */
  lemma PageIsGapless(s: Server, since: int, limit: int, e: LogEntry)
    requires ValidServer(s)
    requires e in s.log && since < e.seqNo <= PullPage(s, since, limit).nextCursor
    ensures WillSee(PullPage(s, since, limit).changes, e)
  {
    var p := PullPage(s, since, limit);
    var rows := PageRows(s.log, since, limit);
    PageRowsAreSlice(s.log, since, limit);
    SinceIsSuffix(s.log, since);
    var k := Position(s.log, since);
    var i :| 0 <= i < |s.log| && s.log[i] == e;
    assert rows != [] && rows[|rows| - 1] == s.log[k + |rows| - 1];
    assert rows[i - k] == e;
    assert p.changes[i - k] == Served(s, e) && p.changes[i - k] in p.changes;
  }

  /** The next cursor never runs ahead of the log. */
  lemma PageEndsInLog(s: Server, since: int, limit: int)
    requires ValidServer(s) && since <= LastSeq(s.log)
    ensures PullPage(s, since, limit).nextCursor <= LastSeq(s.log)
  {
    var rows := PageRows(s.log, since, limit);
    PageRowsAreSlice(s.log, since, limit);
    LastSeqIsLast(s.log);
    if rows != [] {
      assert s.log[Position(s.log, since) + |rows| - 1] in s.log;
    }
  }

  lemma FetchKeepsInv(env: Env, n: Net, debt: Debt, limit: int)
    requires Inv(env, n, debt) && n.phase.Ready?
    ensures Inv(env, Step(env, n, Fetch(limit)), debt)
  {
    var p := PullPage(n.server, n.phase.mem, limit);
    PageIsHonest(n.server, n.phase.mem, limit);
    PageEndsInLog(n.server, n.phase.mem, limit);
    hide Settled, RowsOk;
    forall e | e in n.server.log && e.seqNo <= p.nextCursor
      ensures Settled(env, n.store, debt, e) || WillSee(p.changes, e)
    {
      if e.seqNo > n.phase.mem {
        PageIsGapless(n.server, n.phase.mem, limit, e);
      }
    }
  }

  /** The row an honest change leaves is in order and, unless it is foreign, at least as new as the change. */
  lemma HonestRowLands(env: Env, s: Server, st: Store, debt: Debt, c: PullChange)
    requires ValidServer(s) && Honest(s, c) && RowOk(env, s, st, debt, c.item)
    ensures var after := ApplyPull(env, st, c);
            && c.item in after.items
            && (after.items[c.item].version >= c.seqNo || Foreign(env, st, c.item))
            && RowOk(env, s, after, debt, c.item)
  {
    var e :| e in s.log && e.item == c.item && e.seqNo == c.seqNo
             && (LastOf(s.log, c.item) == Some(e) ==> c.item in s.items && c == Served(s, e));
    var last := LastOf(s.log, c.item).value;
    assert last.seqNo >= c.seqNo;
    if last.seqNo == c.seqNo {
      assert last == e;
    }
  }

  /** Rows of other items do not move, no row gets older, and none changes its storage. */
  lemma ApplyIsLocal(env: Env, s: Server, st: Store, debt: Debt, c: PullChange, id: Uuid)
    requires id in st.items
    ensures var after := ApplyPull(env, st, c);
            && id in after.items && after.items[id].version >= st.items[id].version
            && after.items[id].storage == st.items[id].storage
            && (id != c.item ==> after.items[id] == st.items[id])
            && (id != c.item && RowOk(env, s, st, debt, id) ==> RowOk(env, s, after, debt, id))
  {
  }

  lemma ApplyKeepsRows(env: Env, s: Server, st: Store, debt: Debt, c: PullChange)
    requires ValidServer(s) && RowsOk(env, s, st, debt) && Honest(s, c)
    ensures var after := ApplyPull(env, st, c);
            && RowsOk(env, s, after, debt)
            && c.item in after.items
            && (after.items[c.item].version >= c.seqNo || Foreign(env, after, c.item))
            && Newer(st, after)
  {
    var after := ApplyPull(env, st, c);
    assert c.item !in st.items ==> RowOk(env, s, st, debt, c.item);
    HonestRowLands(env, s, st, debt, c);
    forall id | id in st.items
      ensures id in after.items && after.items[id].version >= st.items[id].version
      ensures after.items[id].storage == st.items[id].storage
      ensures id != c.item ==> RowOk(env, s, after, debt, id)
    {
      ApplyIsLocal(env, s, st, debt, c, id);
    }
    hide RowOk;
    assert forall id :: id in after.items ==> id in st.items || id == c.item;
  }

  lemma ApplyNextKeepsInv(env: Env, n: Net, debt: Debt)
    requires Inv(env, n, debt) && n.phase.Applying? && n.phase.inbox != []
    ensures Inv(env, Step(env, n, ApplyNext), debt)
  {
    var inbox := n.phase.inbox;
    assert inbox[0] in inbox;
    hide RowsOk, Covers, CoversWith, Honest, LastSeq, ApplyPull, Foreign, Newer;
    ApplyKeepsRows(env, n.server, n.store, debt, inbox[0]);
    var after := ApplyPull(env, n.store, inbox[0]);
    NewerCovers(env, n.store, after, debt, n.server.log, n.stored);
    NewerCoversWith(env, n.store, after, debt, inbox, n.server.log, n.phase.next);
    assert AllHonest(n.server, inbox[1..]);
  }

  predicate Newer(before: Store, after: Store) {
    forall id :: id in before.items ==>
      && id in after.items && after.items[id].version >= before.items[id].version
      && after.items[id].storage == before.items[id].storage
  }

  lemma NewerCovers(env: Env, before: Store, after: Store, debt: Debt, log: seq<LogEntry>, upTo: int)
    requires Newer(before, after) && Covers(env, before, debt, log, upTo)
    ensures Covers(env, after, debt, log, upTo)
  {
  }

  lemma NewerCoversWith(env: Env, before: Store, after: Store, debt: Debt, inbox: seq<PullChange>, log: seq<LogEntry>,
                        upTo: int)
    requires Newer(before, after) && inbox != [] && CoversWith(env, before, debt, inbox, log, upTo)
    requires inbox[0].item in after.items
    requires after.items[inbox[0].item].version >= inbox[0].seqNo || Foreign(env, after, inbox[0].item)
    ensures CoversWith(env, after, debt, inbox[1..], log, upTo)
  {
    forall e | e in log && e.seqNo <= upTo ensures Settled(env, after, debt, e) || WillSee(inbox[1..], e) {
      SettledOrQueued(env, before, after, debt, inbox, e);
    }
  }

  lemma SettledOrQueued(env: Env, before: Store, after: Store, debt: Debt, inbox: seq<PullChange>, e: LogEntry)
    requires inbox != [] && (Settled(env, before, debt, e) || WillSee(inbox, e))
    requires Newer(before, after)
    requires inbox[0].item in after.items
    requires after.items[inbox[0].item].version >= inbox[0].seqNo || Foreign(env, after, inbox[0].item)
    ensures Settled(env, after, debt, e) || WillSee(inbox[1..], e)
  {
    if !Settled(env, before, debt, e) {
      var c :| c in inbox && c.item == e.item && c.seqNo >= e.seqNo;
      if c != inbox[0] {
        assert c in inbox[1..];
      }
    }
  }

  lemma StepKeepsInv(env: Env, n: Net, debt: Debt, e: Event)
    requires Inv(env, n, debt)
    ensures Inv(env, Step(env, n, e), debt)
  {
    match e
    case CommitE(item, op, content, gap) => CommitKeepsInv(env, n, debt, item, op, content, gap);
    case Fetch(limit) => if n.phase.Ready? { FetchKeepsInv(env, n, debt, limit); }
    case ApplyNext => if n.phase.Applying? && n.phase.inbox != [] { ApplyNextKeepsInv(env, n, debt); }
    case EndPage =>
      if n.phase.Applying? && n.phase.inbox == [] {
        assert Covers(env, n.store, debt, n.server.log, n.phase.next) by {
          forall e | e in n.server.log && e.seqNo <= n.phase.next
            ensures Settled(env, n.store, debt, e)
          {
            assert Settled(env, n.store, debt, e) || WillSee([], e);
          }
        }
      }
    case _ =>
  }

  lemma StepKeepsServer(env: Env, n: Net, e: Event)
    requires ValidServer(n.server)
    ensures ValidServer(Step(env, n, e).server)
  {
    if e.CommitE? {
      CommitAppends(n.server, e.item, e.op, e.content, e.gap);
    }
  }

  /** The state after a sequence of events. */
  ghost function Run(env: Env, n: Net, events: seq<Event>): (m: Net)
    requires ValidServer(n.server)
    ensures ValidServer(m.server)
    decreases |events|
  {
    if events == [] then n
    else
      StepKeepsServer(env, n, events[0]);
      Run(env, Step(env, n, events[0]), events[1..])
  }

  lemma {:induction false} RunKeepsInv(env: Env, n: Net, debt: Debt, events: seq<Event>)
    requires Inv(env, n, debt)
    ensures Inv(env, Run(env, n, events), debt)
    decreases |events|
  {
    if events != [] {
      StepKeepsInv(env, n, debt, events[0]);
      RunKeepsInv(env, Step(env, n, events[0]), debt, events[1..]);
    }
  }

  /** More debt asks less. */
  lemma MoreDebt(env: Env, n: Net, a: Debt, b: Debt)
    requires Inv(env, n, a) && a.missed <= b.missed && a.own <= b.own && a.loose <= b.loose
    ensures Inv(env, n, b)
  {
    forall id | id in n.store.items
      ensures RowOk(env, n.server, n.store, b, id)
    {
      assert RowOk(env, n.server, n.store, a, id);
    }
    hide RowOk;
    assert forall e :: Settled(env, n.store, a, e) ==> Settled(env, n.store, b, e);
  }

  /** What the invariant says of one item whose latest change the saved cursor has passed. */
  predicate AgreesUpToCursor(env: Env, n: Net, debt: Debt, id: Uuid) {
    var last := LastOf(n.server.log, id);
    last.Some? && last.value.seqNo <= n.stored && last.value !in debt.missed ==>
      && id in n.store.items
      && (Clean(env, n.store, id) && id !in debt.loose ==>
            && Matches(env, n.server, n.store, id)
            && n.store.items[id].version == last.value.seqNo
            && (id !in debt.own ==> HistoryMatches(env, n.server, n.store, id)))
  }

  predicate NotAhead(env: Env, n: Net, debt: Debt, id: Uuid) {
    LastOf(n.server.log, id).Some? && Clean(env, n.store, id) && id !in debt.loose ==>
      n.store.items[id].version <= LastOf(n.server.log, id).value.seqNo
  }

  lemma InvAgrees(env: Env, n: Net, debt: Debt, id: Uuid)
    requires Inv(env, n, debt)
    ensures AgreesUpToCursor(env, n, debt, id) && NotAhead(env, n, debt, id)
  {
    var last := LastOf(n.server.log, id);
    if last.Some? && last.value.seqNo <= n.stored && last.value !in debt.missed {
      assert Settled(env, n.store, debt, last.value);
    }
    assert id in n.store.items ==> RowOk(env, n.server, n.store, debt, id);
  }

  /**
    Whatever was committed, lost, repeated or delivered late on the way: an item whose latest change
    lies at or below the saved cursor is on the replica, and if its row carries no local change it
    has exactly the server's content, history and number. No such row is ahead of the server.
   */
  lemma RunsAgreeUpToCursor(env: Env, n: Net, debt: Debt, events: seq<Event>, id: Uuid)
    requires Inv(env, n, debt)
    ensures AgreesUpToCursor(env, Run(env, n, events), debt, id) && NotAhead(env, Run(env, n, events), debt, id)
  {
    RunKeepsInv(env, n, debt, events);
    InvAgrees(env, Run(env, n, events), debt, id);
  }

  /**
    A client that has never synced this vault satisfies the invariant without any debt, so every run
    may start there: it may hold any rows of other storages and vaults, and any rows of this vault
    that are not synced.
   */
  lemma FreshClientIsInv(env: Env, s: Server, st: Store)
    requires ValidServer(s)
    requires forall id :: id in st.items ==> !Clean(env, st, id)
    ensures Inv(env, Net(s, st, 0, Idle), NO_DEBT)
  {
    LastSeqIsLast(s.log);
  }

  /**
    When the last page of a pull was cut from the log as it now stands, the whole replica is caught
    up: every item of the log is there, and every row without a local change carries the server's
    current content.
   */
  lemma FinishedPullIsComplete(env: Env, n: Net, debt: Debt, events: seq<Event>, e: LogEntry)
    requires Inv(env, n, debt)
    requires Run(env, n, events).stored == LastSeq(Run(env, n, events).server.log)
    requires e in Run(env, n, events).server.log && LastOf(Run(env, n, events).server.log, e.item).value !in debt.missed
    ensures var m := Run(env, n, events);
            && e.item in m.store.items
            && (Clean(env, m.store, e.item) && e.item !in debt.loose ==> Matches(env, m.server, m.store, e.item))
  {
    var m := Run(env, n, events);
    RunsAgreeUpToCursor(env, n, debt, events, e.item);
    LastSeqIsLast(m.server.log);
  }

  /**
    The cursor of the pull loop: read when a pull begins, moved on only by the end of a page, saved at the end of the
    last page or when a request fails, and forgotten in a crash. Nothing but an applied change touches a row.
   */
  lemma CursorSteps(env: Env, n: Net, e: Event)
    requires ValidServer(n.server)
    ensures var t := Step(env, n, e);
            match e
            case CommitE(_, _, _, _) => t == n.(server := t.server)
            case Begin => t == if n.phase == Idle then n.(phase := Ready(n.stored)) else n
            case Fetch(limit) =>
              && (!n.phase.Ready? ==> t == n)
              && (n.phase.Ready? ==>
                    && t == n.(phase := t.phase) && t.phase.Applying? && t.phase.mem == n.phase.mem
                    && Page(t.phase.inbox, t.phase.next, t.phase.more) == PullPage(n.server, n.phase.mem, limit))
            case FetchFails => t == if n.phase.Ready? then Net(n.server, n.store, n.phase.mem, Idle) else n
            case ApplyNext =>
              && (!n.phase.Applying? || n.phase.inbox == [] ==> t == n)
              && (n.phase.Applying? && n.phase.inbox != [] ==>
                    && t.store == ApplyPull(env, n.store, n.phase.inbox[0]) && t.stored == n.stored
                    && t.server == n.server
                    && t.phase == Applying(n.phase.mem, n.phase.inbox[1..], n.phase.next, n.phase.more))
            case EndPage =>
              && (!n.phase.Applying? || n.phase.inbox != [] ==> t == n)
              && (n.phase.Applying? && n.phase.inbox == [] && n.phase.more ==> t == n.(phase := Ready(n.phase.next)))
              && (n.phase.Applying? && n.phase.inbox == [] && !n.phase.more ==>
                    t == Net(n.server, n.store, n.phase.next, Idle))
            case Crash => t == Net(n.server, n.store, n.stored, Idle)
  {
  }
}
