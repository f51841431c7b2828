/**
  Optimistic row versions on the server (crates/zann-db/src/repo/items.rs:68-98, 202-247), and the
  push handler that writes the same rows without comparing them
  (crates/zann-server/src/domains/sync/http/v1/handlers/push_apply.rs:146-178, 389-436), with its
  reads and writes as separate steps, as under the default isolation level.
 */
module RowVersion {
  import opened Base

  /** `content` stands for the other columns the statements write. */
  datatype Row = Row(rowVersion: int, content: nat)

  type Rows = map<Uuid, Row>

  class ItemRepo {
    var rows: Rows

    method GetById(id: Uuid) returns (r: Option<Row>)
      ensures r == if id in rows then Some(rows[id]) else None
    {
      if id in rows {
        r := Some(rows[id]);
      } else {
        r := None;
      }
    }

    /** `update`: one conditional statement; answers the number of rows written. */
    method Update(id: Uuid, item: Row) returns (affected: nat)
      modifies this
      ensures affected == 0 || affected == 1
      ensures affected == 1 <==> id in old(rows) && old(rows)[id].rowVersion == item.rowVersion
      ensures affected == 1 ==> rows == old(rows)[id := Row(item.rowVersion + 1, item.content)]
      ensures affected == 0 ==> rows == old(rows)
      ensures rows == Updated(old(rows), id, item)
    {
      affected := 0;
      if id in rows && rows[id].rowVersion == item.rowVersion {
        rows := rows[id := Row(rows[id].rowVersion + 1, item.content)];
        affected := 1;
      }
    }

    /** The UPDATE of the push handler: no condition on the row version. */
    method PushUpdate(id: Uuid, item: Row) returns (affected: nat)
      modifies this
      ensures affected == if id in old(rows) then 1 else 0
      ensures affected == 1 ==> rows == old(rows)[id := Row(item.rowVersion + 1, item.content)]
      ensures rows == Pushed(old(rows), id, item)
    {
      affected := 0;
      if id in rows {
        rows := rows[id := Row(item.rowVersion + 1, item.content)];
        affected := 1;
      }
    }
  }

  predicate Matches(rows: Rows, id: Uuid, item: Row) {
    id in rows && rows[id].rowVersion == item.rowVersion
  }

  function Updated(rows: Rows, id: Uuid, item: Row): Rows {
    if Matches(rows, id, item) then rows[id := Row(rows[id].rowVersion + 1, item.content)] else rows
  }

  function Pushed(rows: Rows, id: Uuid, item: Row): Rows {
    if id in rows then rows[id := Row(item.rowVersion + 1, item.content)] else rows
  }

  // ----- clients that read, think and write

  datatype Slot = Slot(client: nat, id: Uuid)

  /** A write that succeeded: the content its client sent, what it had read, what it replaced, what it left. */
  datatype Win = Win(id: Uuid, content: nat, from: Row, replaced: Row, to: Row)

  datatype State = State(rows: Rows, seen: map<Slot, Row>, wins: seq<Win>)

  datatype Event =
    | Get(slot: Slot)
    | Write(slot: Slot, content: nat)
    | Push(slot: Slot, content: nat)

  /** A client writes what it made of the row it has read. */
  function Step(s: State, e: Event): State {
    var id := e.slot.id;
    match e
    case Get(slot) => if id in s.rows then s.(seen := s.seen[slot := s.rows[id]]) else s
    case Write(slot, content) =>
      if slot in s.seen && Matches(s.rows, id, s.seen[slot]) then
        var after := Updated(s.rows, id, Row(s.seen[slot].rowVersion, content));
        State(after, s.seen, s.wins + [Win(id, content, s.seen[slot], s.rows[id], after[id])])
      else s
    case Push(slot, content) =>
      if slot in s.seen && id in s.rows then
        var after := Pushed(s.rows, id, Row(s.seen[slot].rowVersion, content));
        State(after, s.seen, s.wins + [Win(id, content, s.seen[slot], s.rows[id], after[id])])
      else s
  }

  function Run(s: State, events: seq<Event>): State
    decreases |events|
  {
    if events == [] then s else Step(Run(s, events[..|events| - 1]), events[|events| - 1])
  }

  function Start(rows: Rows): State {
    State(rows, map[], [])
  }

  // ----- no lost update

  /** The writes in order lead from the first table to the last, each from what it had read to what it sent. */
  ghost predicate Linear(start: Rows, wins: seq<Win>, end: Rows)
    decreases |wins|
  {
    if wins == [] then start == end
    else
      var n := |wins| - 1;
      var w := wins[n];
      exists mid: Rows ::
        && Linear(start, wins[..n], mid)
        && w.id in mid && mid[w.id] == w.replaced && w.from == w.replaced
        && w.to == Row(w.replaced.rowVersion + 1, w.content)
        && end == mid[w.id := w.to]
  }

  /** A push would pass the row-version test that `update` makes and the push handler omits. */
  predicate IsGuarded(s: State, e: Event) {
    e.Push? && e.slot in s.seen && e.slot.id in s.rows ==> Matches(s.rows, e.slot.id, s.seen[e.slot])
  }

  predicate AllGuarded(s: State, events: seq<Event>)
    decreases |events|
  {
    events == [] ||
    (AllGuarded(s, events[..|events| - 1]) && IsGuarded(Run(s, events[..|events| - 1]), events[|events| - 1]))
  }

  /** What a client has seen is an earlier state of the row, and the same version means the same row. */
  predicate Honest(s: State) {
    forall slot :: slot in s.seen ==>
      && slot.id in s.rows
      && s.seen[slot].rowVersion <= s.rows[slot.id].rowVersion
      && (s.seen[slot].rowVersion == s.rows[slot.id].rowVersion ==> s.seen[slot] == s.rows[slot.id])
  }

  lemma GuardedStep(start: Rows, s: State, e: Event)
    requires Honest(s) && Linear(start, s.wins, s.rows) && IsGuarded(s, e)
    ensures Honest(Step(s, e)) && Linear(start, Step(s, e).wins, Step(s, e).rows)
  {
    var t := Step(s, e);
    if t.wins != s.wins {
      assert t.wins[..|s.wins|] == s.wins;
      assert t.wins[|s.wins|].from == s.rows[e.slot.id];
    }
  }

  lemma {:induction false} GuardedRun(rows: Rows, events: seq<Event>)
    requires AllGuarded(Start(rows), events)
    ensures var t := Run(Start(rows), events);
            Honest(t) && Linear(rows, t.wins, t.rows)
    decreases |events|
  {
    if events != [] {
      var n := |events| - 1;
      GuardedRun(rows, events[..n]);
      GuardedStep(rows, Run(Start(rows), events[..n]), events[n]);
    }
  }

  /** Writes are never taken back. */
  lemma LinearPrefix(start: Rows, wins: seq<Win>, w: Win, end: Rows)
    requires Linear(start, wins + [w], end)
    ensures w.from == w.replaced && exists mid: Rows :: Linear(start, wins, mid)
  {
    assert (wins + [w])[..|wins|] == wins;
  }

  lemma {:induction false} LinearRun(rows: Rows, events: seq<Event>)
    requires exists end: Rows :: Linear(rows, Run(Start(rows), events).wins, end)
    ensures AllGuarded(Start(rows), events)
    decreases |events|
  {
    if events != [] {
      var n := |events| - 1;
      var s := Run(Start(rows), events[..n]);
      var t := Step(s, events[n]);
      var end: Rows :| Linear(rows, t.wins, end);
      if t.wins != s.wins {
        LinearPrefix(rows, s.wins, t.wins[|s.wins|], end);
      }
      LinearRun(rows, events[..n]);
    }
  }

  /**
    Over every interleaving of any number of clients: each successful write was made from the row
    it replaces, if and only if every push would have passed the row-version test it does not make.
   */
  lemma NoLostUpdateIff(rows: Rows, events: seq<Event>)
    ensures var t := Run(Start(rows), events);
            Linear(rows, t.wins, t.rows) <==> AllGuarded(Start(rows), events)
  {
    if AllGuarded(Start(rows), events) {
      GuardedRun(rows, events);
    }
    if Linear(rows, Run(Start(rows), events).wins, Run(Start(rows), events).rows) {
      LinearRun(rows, events);
    }
  }

  predicate NoPush(events: seq<Event>) {
    forall i :: 0 <= i < |events| ==> !events[i].Push?
  }

  lemma {:induction false} NoPushIsGuarded(s: State, events: seq<Event>)
    requires NoPush(events)
    ensures AllGuarded(s, events)
    decreases |events|
  {
    if events != [] {
      NoPushIsGuarded(s, events[..|events| - 1]);
    }
  }

  function WinsOf(wins: seq<Win>, id: Uuid): nat
    decreases |wins|
  {
    if wins == [] then 0
    else WinsOf(wins[..|wins| - 1], id) + if wins[|wins| - 1].id == id then 1 else 0
  }

  /** At most one write succeeds per row and version. */
  predicate OncePerVersion(wins: seq<Win>) {
    forall i, j :: 0 <= i < j < |wins| && wins[i].id == wins[j].id ==>
        wins[i].replaced.rowVersion < wins[j].replaced.rowVersion
  }

  /** A row that has been written before is past every version that was replaced. */
  predicate PastAll(wins: seq<Win>, end: Rows) {
    forall i :: 0 <= i < |wins| ==> wins[i].id in end && wins[i].replaced.rowVersion < end[wins[i].id].rowVersion
  }

  lemma OneMoreWin(wins: seq<Win>, w: Win, rows: Rows)
    requires OncePerVersion(wins) && PastAll(wins, rows)
    requires w.id in rows && rows[w.id] == w.replaced && w.to.rowVersion == w.replaced.rowVersion + 1
    ensures OncePerVersion(wins + [w]) && PastAll(wins + [w], rows[w.id := w.to])
  {
  }

  /** The table before the last write of a linear history. */
  lemma LinearStep(start: Rows, wins: seq<Win>, end: Rows) returns (mid: Rows)
    requires wins != [] && Linear(start, wins, end)
    ensures var n := |wins| - 1;
            var w := wins[n];
            && Linear(start, wins[..n], mid) && wins == wins[..n] + [w]
            && w.id in mid && mid[w.id] == w.replaced && w.from == w.replaced
            && w.to == Row(w.replaced.rowVersion + 1, w.content) && end == mid[w.id := w.to]
  {
    var n := |wins| - 1;
    var w := wins[n];
    mid :| && Linear(start, wins[..n], mid)
           && w.id in mid && mid[w.id] == w.replaced && w.from == w.replaced
           && w.to == Row(w.replaced.rowVersion + 1, w.content)
           && end == mid[w.id := w.to];
  }

  /** Versions count the writes. */
  predicate Counted(start: Rows, wins: seq<Win>, end: Rows) {
    && end.Keys == start.Keys
    && forall id :: id in start ==> end[id].rowVersion == start[id].rowVersion + WinsOf(wins, id)
  }

  lemma OneMoreCounted(start: Rows, wins: seq<Win>, mid: Rows, w: Win)
    requires Counted(start, wins, mid) && w.id in mid && mid[w.id] == w.replaced
    requires w.to.rowVersion == w.replaced.rowVersion + 1
    ensures Counted(start, wins + [w], mid[w.id := w.to])
  {
    assert (wins + [w])[..|wins|] == wins;
    assert forall id :: WinsOf(wins + [w], id) == WinsOf(wins, id) + if w.id == id then 1 else 0;
  }

  lemma {:induction false} LinearCounts(start: Rows, wins: seq<Win>, end: Rows)
    requires Linear(start, wins, end)
    ensures Counted(start, wins, end) && OncePerVersion(wins) && PastAll(wins, end)
    decreases |wins|
  {
    if wins != [] {
      hide Linear, Counted, OncePerVersion, PastAll;
      var n := |wins| - 1;
      var mid := LinearStep(start, wins, end);
      LinearCounts(start, wins[..n], mid);
      OneMoreWin(wins[..n], wins[n], mid);
      OneMoreCounted(start, wins[..n], mid, wins[n]);
    }
  }

  /**
    For clients that only get and update: every success was computed from the row it replaces, at
    most one update succeeds per row version, and a row's version is its start plus the number of
    successes.
   */
  lemma NoLostUpdate(rows: Rows, events: seq<Event>)
    requires NoPush(events)
    ensures var t := Run(Start(rows), events);
            && Linear(rows, t.wins, t.rows) && OncePerVersion(t.wins) && t.rows.Keys == rows.Keys
            && forall id :: id in rows ==> t.rows[id].rowVersion == rows[id].rowVersion + WinsOf(t.wins, id)
  {
    NoPushIsGuarded(Start(rows), events);
    GuardedRun(rows, events);
    var t := Run(Start(rows), events);
    LinearCounts(rows, t.wins, t.rows);
  }

  /** A push that read before and writes after an update: both succeed, one version, the update is gone. */
  lemma PushLosesUpdate(a: nat, b: nat, was: nat)
    ensures var rows: Rows := map[7 := Row(1, was)];
            var t := Run(Start(rows), [Get(Slot(1, 7)), Get(Slot(2, 7)), Write(Slot(1, 7), a), Push(Slot(2, 7), b)]);
            |t.wins| == 2 && t.rows == map[7 := Row(2, b)]
  {
    var rows: Rows := map[7 := Row(1, was)];
    var all := [Get(Slot(1, 7)), Get(Slot(2, 7)), Write(Slot(1, 7), a), Push(Slot(2, 7), b)];
    var e1, e2, e3 := all[..3], all[..2], all[..1];
    assert e1[..2] == e2 && e2[..1] == e3 && e3[..0] == [];
    var seen := map[Slot(1, 7) := Row(1, was), Slot(2, 7) := Row(1, was)];
    assert Run(Start(rows), e3) == State(rows, map[Slot(1, 7) := Row(1, was)], []);
    assert Run(Start(rows), e2) == State(rows, seen, []);
    assert Run(Start(rows), e1) == State(map[7 := Row(2, a)], seen, [Win(7, a, Row(1, was), Row(1, was), Row(2, a))]);
  }

  // ----- whose content a row holds

  /** The `k`-th event is an update by a client whose row version is still the current one. */
  predicate Succeeds(rows: Rows, events: seq<Event>, k: nat) {
    k < |events| && events[k].Write? &&
    var s, slot := Run(Start(rows), events[..k]), events[k].slot;
    slot in s.seen && slot.id in s.rows && s.seen[slot].rowVersion == s.rows[slot.id].rowVersion
  }

  predicate Writes(rows: Rows, events: seq<Event>, id: Uuid, k: nat) {
    k < |events| && events[k].slot.id == id && Succeeds(rows, events, k)
  }

  /** The row is as at the start, or holds what the last successful update of it sent. */
  ghost predicate Stands(rows: Rows, events: seq<Event>, id: Uuid, row: Row)
    requires id in rows
  {
    || (row == rows[id] && forall k: nat :: !Writes(rows, events, id, k))
    || (exists k: nat ::
          && Writes(rows, events, id, k) && row.content == events[k].content
          && forall j: nat :: k < j ==> !Writes(rows, events, id, j))
  }

  lemma WritesEarlier(rows: Rows, events: seq<Event>, id: Uuid, k: nat)
    requires k < |events| - 1
    ensures Writes(rows, events, id, k) <==> Writes(rows, events[..|events| - 1], id, k)
  {
    assert events[..|events| - 1][..k] == events[..k];
  }

  lemma StandsLonger(rows: Rows, events: seq<Event>, id: Uuid, row: Row)
    requires id in rows && events != [] && !Writes(rows, events, id, |events| - 1)
    requires Stands(rows, events[..|events| - 1], id, row)
    ensures Stands(rows, events, id, row)
  {
    var n := |events| - 1;
    var front := events[..n];
    forall k: nat
      ensures Writes(rows, events, id, k) <==> Writes(rows, front, id, k)
    {
      if k < n {
        WritesEarlier(rows, events, id, k);
      }
    }
    hide Succeeds;
  }

  /**
    Over every run of clients that get and update, whatever their number and order, each row is as at the
    start or holds what the last successful update of it sent: no success leaves no trace.
   */
  lemma {:induction false} LastUpdateStands(rows: Rows, events: seq<Event>, id: Uuid)
    requires NoPush(events) && id in rows
    ensures id in Run(Start(rows), events).rows
    ensures Stands(rows, events, id, Run(Start(rows), events).rows[id])
    decreases |events|
  {
    if events != [] {
      var n := |events| - 1;
      var s := Run(Start(rows), events[..n]);
      LastUpdateStands(rows, events[..n], id);
      hide Stands;
      if Writes(rows, events, id, n) {
        assert Step(s, events[n]).rows[id].content == events[n].content;
        WritesLast(rows, events, id, Step(s, events[n]).rows[id]);
      } else {
        assert id in s.rows && Step(s, events[n]).rows[id] == s.rows[id];
        StandsLonger(rows, events, id, s.rows[id]);
      }
    }
  }

  lemma WritesLast(rows: Rows, events: seq<Event>, id: Uuid, row: Row)
    requires id in rows && events != [] && Writes(rows, events, id, |events| - 1)
    requires row.content == events[|events| - 1].content
    ensures Stands(rows, events, id, row)
  {
    hide Succeeds;
  }

  /** What a client has read is the row as it was when the client last asked for it. */
  lemma {:induction false} SeenIsLastRead(rows: Rows, events: seq<Event>, k: nat)
    requires k < |events| && events[k].Get? && events[k].slot.id in Run(Start(rows), events[..k]).rows
    requires forall j :: k < j < |events| && events[j].Get? ==> events[j].slot != events[k].slot
    ensures var slot := events[k].slot;
            && slot in Run(Start(rows), events).seen
            && Run(Start(rows), events).seen[slot] == Run(Start(rows), events[..k]).rows[slot.id]
    decreases |events|
  {
    var n := |events| - 1;
    if k < n {
      assert events[..n][..k] == events[..k];
      SeenIsLastRead(rows, events[..n], k);
    }
  }
}
