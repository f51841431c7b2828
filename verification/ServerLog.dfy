/**
  The server's side of one vault: its items, and the append-only change log that the pull
  endpoint reads (crates/zann-db/src/repo/changes.rs, crates/zann-server/src/domains/sync/service.rs).
 */
module ServerLog {
  import opened Base
  import opened ReplicaModel

  datatype Op = Create | Update | Delete

  datatype LogEntry = LogEntry(seqNo: int, item: Uuid, op: Op)

  datatype ServerItem = ServerItem(
    path: string, name: string, typeId: string, payload: Bytes, checksum: string, updatedAt: Time,
    history: seq<HistoryEntry>)

  datatype Server = Server(items: map<Uuid, ServerItem>, log: seq<LogEntry>)

  predicate Ascending(log: seq<LogEntry>) {
    && (forall i, j :: 0 <= i < j < |log| ==> log[i].seqNo < log[j].seqNo)
    && (forall i :: 0 <= i < |log| ==> 0 < log[i].seqNo)
  }

  predicate ValidServer(s: Server) {
    && Ascending(s.log)
    && forall i :: 0 <= i < |s.log| ==> s.log[i].item in s.items
  }

  /** `list_since_seq`: the entries past a sequence number, in log order. */
  function ListSince(log: seq<LogEntry>, since: int): seq<LogEntry>
    decreases |log|
  {
    if log == [] then []
    else
      var last := log[|log| - 1];
      ListSince(log[..|log| - 1], since) + (if last.seqNo > since then [last] else [])
  }

  /** `last_seq_for_vault`: the greatest sequence number, 0 for an empty log. */
  function LastSeq(log: seq<LogEntry>): int
    decreases |log|
  {
    if log == [] then 0
    else Max(log[|log| - 1].seqNo, LastSeq(log[..|log| - 1]))
  }

  /** The latest entry of one item. */
  function LastOf(log: seq<LogEntry>, id: Uuid): (r: Option<LogEntry>)
    ensures r.Some? ==> r.value in log && r.value.item == id
    ensures r.None? ==> forall e :: e in log ==> e.item != id
    ensures Ascending(log) && r.Some? ==> forall e :: e in log && e.item == id ==> e.seqNo <= r.value.seqNo
    decreases |log|
  {
    if log == [] then None
    else
      var last := log[|log| - 1];
      assert forall e :: e in log <==> e in log[..|log| - 1] || e == last;
      if last.item == id then Some(last) else LastOf(log[..|log| - 1], id)
  }

  lemma {:induction false} LastSeqIsLast(log: seq<LogEntry>)
    requires Ascending(log)
    ensures LastSeq(log) == if log == [] then 0 else log[|log| - 1].seqNo
    ensures forall e :: e in log ==> 0 < e.seqNo <= LastSeq(log)
    decreases |log|
  {
    if log != [] {
      LastSeqIsLast(log[..|log| - 1]);
      assert forall e :: e in log <==> e in log[..|log| - 1] || e == log[|log| - 1];
    }
  }

  /** Where the entries past `since` start. */
  function Position(log: seq<LogEntry>, since: int): nat
    requires |ListSince(log, since)| <= |log|
  {
    |log| - |ListSince(log, since)|
  }

  /** In an ascending log the query returns a suffix, cut at the given number. */
  lemma {:induction false} SinceIsSuffix(log: seq<LogEntry>, since: int)
    requires Ascending(log)
    ensures |ListSince(log, since)| <= |log|
    ensures ListSince(log, since) == log[Position(log, since)..]
    ensures forall i :: 0 <= i < |log| ==> (i < Position(log, since) <==> log[i].seqNo <= since)
    decreases |log|
  {
    if log != [] {
      var front := log[..|log| - 1];
      SinceIsSuffix(front, since);
      var last := log[|log| - 1];
      if last.seqNo <= since {
        if ListSince(front, since) != [] {
          assert front[Position(front, since)].seqNo > since;
        }
      }
    }
  }

  /** What the pull endpoint sends for an entry: the item as it is now, and never a deletion time. */
  function Served(s: Server, e: LogEntry): PullChange
    requires e.item in s.items
  {
    var i := s.items[e.item];
    PullChange(e.item, e.seqNo, i.updatedAt, None, i.path, i.name, i.typeId,
               if e.op == Delete then None else Some(i.payload), i.checksum, i.history)
  }

  function ServeAll(s: Server, es: seq<LogEntry>): (r: seq<PullChange>)
    requires forall e :: e in es ==> e.item in s.items
    ensures |r| == |es|
  {
    seq(|es|, i requires 0 <= i < |es| => Served(s, es[i]))
  }

  datatype Page = Page(changes: seq<PullChange>, nextCursor: int, hasMore: bool)

  function ClampLimit(limit: int): nat {
    if limit < 1 then 1 else if limit > 500 then 500 else limit
  }

  /** The log rows of one page; one row more than the limit is read to learn whether more follow. */
  function PageRows(log: seq<LogEntry>, since: int, limit: int): seq<LogEntry> {
    var rows := ListSince(log, since);
    if |rows| > ClampLimit(limit) then rows[..ClampLimit(limit)] else rows
  }

  lemma PageRowsAreSlice(log: seq<LogEntry>, since: int, limit: int)
    requires Ascending(log)
    ensures |ListSince(log, since)| <= |log|
    ensures var k := Position(log, since);
            var rows := PageRows(log, since, limit);
            k + |rows| <= |log| && rows == log[k..k + |rows|]
  {
    SinceIsSuffix(log, since);
  }

  /** `sync_pull`. */
  function PullPage(s: Server, since: int, limit: int): (p: Page)
    requires ValidServer(s)
    ensures |p.changes| <= ClampLimit(limit)
    ensures p.hasMore <==> |ListSince(s.log, since)| > |p.changes|
    ensures p.changes == [] ==> p.nextCursor == since && !p.hasMore
  {
    PageRowsAreSlice(s.log, since, limit);
    var rows := PageRows(s.log, since, limit);
    Page(ServeAll(s, rows),
         if rows == [] then since else rows[|rows| - 1].seqNo,
         |ListSince(s.log, since)| > ClampLimit(limit))
  }

  /** A page ends exactly where the next one starts. */
  lemma PagesChain(s: Server, since: int, limit: int)
    requires ValidServer(s)
    ensures var p := PullPage(s, since, limit);
            && p.nextCursor >= since
            && ListSince(s.log, since) == PageRows(s.log, since, limit) + ListSince(s.log, p.nextCursor)
            && (!p.hasMore ==> ListSince(s.log, p.nextCursor) == [])
  {
    hide ListSince, Served;
    var rows := PageRows(s.log, since, limit);
    PageRowsAreSlice(s.log, since, limit);
    SinceIsSuffix(s.log, since);
    var p := PullPage(s, since, limit);
    SinceIsSuffix(s.log, p.nextCursor);
    var k := Position(s.log, since);
    if rows != [] {
      assert rows[|rows| - 1] == s.log[k + |rows| - 1];
      if k + |rows| < |s.log| {
        assert s.log[k + |rows|].seqNo > p.nextCursor;
      }
      assert Position(s.log, p.nextCursor) == k + |rows|;
    }
  }

  /** Someone changes an item: its new content and a log entry become visible together. */
  function Commit(s: Server, item: Uuid, op: Op, content: ServerItem, gap: nat): Server {
    Server(s.items[item := content], s.log + [LogEntry(LastSeq(s.log) + 1 + gap, item, op)])
  }

  lemma CommitAppends(s: Server, item: Uuid, op: Op, content: ServerItem, gap: nat)
    requires ValidServer(s)
    ensures var t := Commit(s, item, op, content, gap);
            && ValidServer(t)
            && LastSeq(t.log) == LastSeq(s.log) + 1 + gap
            && LastOf(t.log, item) == Some(t.log[|s.log|])
            && (forall id :: id != item ==> LastOf(t.log, id) == LastOf(s.log, id))
  {
    LastSeqIsLast(s.log);
    var t := Commit(s, item, op, content, gap);
    assert t.log[..|t.log| - 1] == s.log;
    forall i | 0 <= i < |s.log|
      ensures t.log[i].seqNo < t.log[|s.log|].seqNo && 0 < t.log[|s.log|].seqNo
    {
      assert s.log[i] in s.log;
    }
    if s.log != [] {
      assert s.log[0] in s.log;
    }
  }

  // ----- the reply, field by field

  /** The current content of the entry's item, without the payload for a deletion, and never with a deletion time. */
  predicate Sends(s: Server, e: LogEntry, c: PullChange)
    requires e.item in s.items
  {
    var i := s.items[e.item];
    && c.item == e.item && c.seqNo == e.seqNo && c.updatedAt == i.updatedAt && c.deletedAt == None
    && c.path == i.path && c.name == i.name && c.typeId == i.typeId && c.checksum == i.checksum
    && c.payload == (if e.op.Delete? then None else Some(i.payload)) && c.history == i.history
  }

  /** The number of entries a page may have. */
  function PageSize(limit: int): int {
    if limit < 1 then 1 else if limit > 500 then 500 else limit
  }

  /**
    One page: the entries right after the cursor, as many as fit, with the number of the last one as the next
    cursor, and the note whether any are left.
   */
  lemma PageIs(s: Server, since: int, limit: int)
    requires ValidServer(s)
    ensures exists k: nat ::
              && k <= |s.log| && (forall i :: 0 <= i < |s.log| ==> (i < k <==> s.log[i].seqNo <= since))
              && IsPageAt(s, since, limit, k, PullPage(s, since, limit))
  {
    SinceIsSuffix(s.log, since);
    PageRowsAreSlice(s.log, since, limit);
    var k := Position(s.log, since);
    var p := PullPage(s, since, limit);
    var rows := PageRows(s.log, since, limit);
    forall i | 0 <= i < |p.changes| ensures Sends(s, s.log[k + i], p.changes[i]) {
      assert rows[i] == s.log[k + i] && p.changes[i] == Served(s, rows[i]);
    }
    hide ListSince;
    assert IsPageAt(s, since, limit, k, p);
  }

  predicate IsPageAt(s: Server, since: int, limit: int, k: nat, p: Page)
    requires ValidServer(s)
  {
    var n := |p.changes|;
    && k + n <= |s.log| && n == Min(PageSize(limit), |s.log| - k)
    && (forall i :: 0 <= i < n ==> Sends(s, s.log[k + i], p.changes[i]))
    && p.nextCursor == (if n == 0 then since else s.log[k + n - 1].seqNo)
    && (p.hasMore <==> k + n < |s.log|)
  }
}
