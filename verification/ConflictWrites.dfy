/**
  Conflict rows meet the constraints of the item cache: the unique path of live rows and the checks
  on names and paths (crates/zann-db/migrations/0001_init.sql:47-82). A refused write is dropped, but
  the queue row goes all the same (crates/zann-client/src/sync.rs:356-369), so the edit can vanish.
  This module says exactly when it does, over a whole reply with several conflicts.
 */
module ConflictWrites {
  import opened Base
  import opened ReplicaModel
  import opened ConflictStep
  import opened PushQueue
  import PathIndex

  const MAX_NAME := 200
  const MAX_PATH := 500

  /** The patterns on paths: no hidden first part, and no slash before a dot or another slash. */
  predicate PathOk(path: string) {
    && (path != "" ==> path[0] != '.')
    && (forall i :: 0 <= i < |path| - 1 && path[i] == '/' ==> path[i + 1] != '.' && path[i + 1] != '/')
  }

  predicate Fits(row: Item) {
    |row.name| <= MAX_NAME && |row.path| <= MAX_PATH && PathOk(row.path)
  }

  /** The database takes the row under this identifier. */
  predicate Writable(items: map<Uuid, Item>, id: Uuid, row: Item) {
    Fits(row) && !PathIndex.Clash(items, id, row)
  }

  function RowFor(env: Env, items: map<Uuid, Item>, p: Pending, d: Draw): Item
    requires p.payload.Some?
  {
    ConflictRow(env, items, p, d, ChosenAttempt(env, items, p, d.stamp))
  }

  predicate IsWritten(env: Env, items: map<Uuid, Item>, p: Pending, d: Draw) {
    && p.payload.Some?
    && (GetById(items, env.storage, p.item).Some? || d.newId !in items)
    && Writable(items, ConflictTarget(env, items, p, d), RowFor(env, items, p, d))
  }

  /** `handle_sync_conflict` on the constrained table. */
  function CheckedConflict(env: Env, items: map<Uuid, Item>, p: Pending, d: Draw): map<Uuid, Item> {
    if IsWritten(env, items, p, d) then ApplyConflict(env, items, p, d) else items
  }

  function CheckedConflicts(env: Env, items: map<Uuid, Item>, listing: seq<Pending>, conflicts: seq<Uuid>,
                            draw: nat -> Draw): map<Uuid, Item>
    decreases |conflicts|
  {
    if conflicts == [] then items
    else
      var n := |conflicts| - 1;
      var before := CheckedConflicts(env, items, listing, conflicts[..n], draw);
      match LastQueued(listing, conflicts[n])
      case Some(p) => CheckedConflict(env, before, p, draw(n))
      case None => before
  }

  // ----- when one write is refused

  /** A live row of another item holds this path. */
  predicate HeldByOther(env: Env, items: map<Uuid, Item>, id: Uuid, path: string) {
    exists other :: other in items && other != id && items[other].deletedAt.None?
                    && items[other].storage == env.storage && items[other].vault == env.vault
                        && items[other].path == path
  }

  lemma SuffixKeepsPathOk(path: string, stamp: string, k: nat)
    requires k <= MAX_ATTEMPTS + 1 && '/' !in stamp
    ensures PathOk(Candidate(path, stamp, k)) <==> PathOk(path)
  {
    var c, suffix := Candidate(path, stamp, k), Suffix(stamp, k);
    assert c == path + suffix && suffix[0] == ' ';
    assert forall i :: 0 <= i < |path| ==> c[i] == path[i];
    assert '/' !in suffix;
    assert forall i :: |path| <= i < |c| ==> c[i] == suffix[i - |path|] && c[i] in suffix;
    assert c[|path|] == ' ';
  }

  /** The seventh name is taken over unchecked: a live row of another item may hold it. */
  predicate NamesExhausted(env: Env, items: map<Uuid, Item>, p: Pending, stamp: string, id: Uuid) {
    && (forall k: nat :: k <= MAX_ATTEMPTS ==> Taken(env, items, Candidate(BasePath(p), stamp, k)))
    && HeldByOther(env, items, id, Candidate(BasePath(p), stamp, MAX_ATTEMPTS + 1))
  }

  lemma ClashIffExhausted(env: Env, items: map<Uuid, Item>, p: Pending, d: Draw)
    requires p.payload.Some?
    requires p.item in items && items[p.item].storage == env.storage ==> items[p.item].vault == env.vault
    ensures var w, row := ConflictTarget(env, items, p, d), RowFor(env, items, p, d);
            PathIndex.Clash(items, w, row) <==> row.deletedAt.None? && NamesExhausted(env, items, p, d.stamp, w)
  {
    var w, row, k := ConflictTarget(env, items, p, d), RowFor(env, items, p, d), ChosenAttempt(env, items, p, d.stamp);
    SearchSkipsTaken(env, items, BasePath(p), d.stamp, 0);
    hide Candidate, ChosenFrom;
    assert row.path == Candidate(BasePath(p), d.stamp, k) && row.storage == env.storage && row.vault == env.vault;
    if PathIndex.Clash(items, w, row) {
      var other :| other in items && other != w && items[other].deletedAt.None?
                   && items[other].storage == row.storage && items[other].vault == row.vault
                   && items[other].path == row.path;
      assert Taken(env, items, row.path);
      assert k == MAX_ATTEMPTS + 1;
    }
    assert NamesExhausted(env, items, p, d.stamp, w) ==> k == MAX_ATTEMPTS + 1;
  }

  /** The suffix of the chosen name. */
  function SuffixOf(env: Env, items: map<Uuid, Item>, p: Pending, stamp: string): string {
    Suffix(stamp, ChosenAttempt(env, items, p, stamp))
  }

  /**
    A change with a payload is written as a conflict row if and only if name and path still fit
    with the suffix, the path is a legal one, and not all seven names are used up.
   */
  lemma WrittenIff(env: Env, items: map<Uuid, Item>, p: Pending, d: Draw)
    requires p.payload.Some? && d.newId !in items && '/' !in d.stamp
    requires p.item in items && items[p.item].storage == env.storage ==> items[p.item].vault == env.vault
    ensures var w := ConflictTarget(env, items, p, d);
            var suffix := SuffixOf(env, items, p, d.stamp);
            var live := w in items ==> items[w].deletedAt.None?;
            IsWritten(env, items, p, d) <==>
            && |OrElse(p.name, BasePath(p))| + |suffix| <= MAX_NAME && |BasePath(p)| + |suffix| <= MAX_PATH
            && PathOk(BasePath(p)) && !(live && NamesExhausted(env, items, p, d.stamp, w))
  {
    ClashIffExhausted(env, items, p, d);
    SuffixKeepsPathOk(BasePath(p), d.stamp, ChosenAttempt(env, items, p, d.stamp));
    hide PathOk, NamesExhausted, ChosenFrom, PathIndex.Clash, Suffix;
  }

  // ----- a whole reply

  predicate Holds(items: map<Uuid, Item>, id: Uuid, payload: Bytes) {
    id in items && items[id].status == Conflict && items[id].payload == payload
  }

  /** Some conflict row keeps the payload. */
  predicate Saved(items: map<Uuid, Item>, payload: Bytes) {
    exists id :: id in items && Holds(items, id, payload)
  }

  /** The one queued change with this payload. */
  predicate OnlyOne(listing: seq<Pending>, p: Pending)
    ensures OnlyOne(listing, p) ==> p.payload.Some?
  {
    p in listing && p.payload.Some? && forall q :: q in listing && q.payload == p.payload ==> q == p
  }

  /** New ids are new: no queued item has one. */
  ghost predicate NewIds(listing: seq<Pending>, draw: nat -> Draw) {
    forall i: nat, q :: q in listing ==> draw(i).newId != q.item
  }

  /** One step for another change neither saves nor loses the payload of `p`. */
  lemma OtherStep(env: Env, items: map<Uuid, Item>, p: Pending, q: Pending, d: Draw, id: Uuid)
    requires p.payload.Some? && q.payload != p.payload && q.item != id
    ensures Holds(CheckedConflict(env, items, q, d), id, p.payload.value) <==> Holds(items, id, p.payload.value)
  {
    hide Candidate, ChosenFrom, Writable;
  }

  /** The only conflict row that can come to hold the payload is the item's own or a new one. */
  lemma OnlyTarget(env: Env, items: map<Uuid, Item>, p: Pending, q: Pending, d: Draw, id: Uuid)
    requires p.payload.Some? && q.payload != p.payload
    requires Holds(CheckedConflict(env, items, q, d), id, p.payload.value)
    ensures Holds(items, id, p.payload.value)
  {
    hide Candidate, ChosenFrom, Writable;
  }

  lemma OwnStep(env: Env, items: map<Uuid, Item>, p: Pending, d: Draw)
    requires p.payload.Some? && !Saved(items, p.payload.value)
    ensures var after := CheckedConflict(env, items, p, d);
            && (IsWritten(env, items, p, d) ==> Holds(after, ConflictTarget(env, items, p, d), p.payload.value))
            && (!IsWritten(env, items, p, d) ==> !Saved(after, p.payload.value))
  {
    hide Candidate, ChosenFrom, Writable;
  }

  /** Before its turn comes, a unique payload is in no conflict row. */
  lemma {:induction false} NotYetSaved(env: Env, items: map<Uuid, Item>, listing: seq<Pending>, conflicts: seq<Uuid>,
                                       draw: nat -> Draw, p: Pending)
    requires OnlyOne(listing, p) && p.item !in conflicts && !Saved(items, p.payload.value)
    ensures !Saved(CheckedConflicts(env, items, listing, conflicts, draw), p.payload.value)
    decreases |conflicts|
  {
    if conflicts != [] {
      var n := |conflicts| - 1;
      NotYetSaved(env, items, listing, conflicts[..n], draw, p);
      var before := CheckedConflicts(env, items, listing, conflicts[..n], draw);
      var after := CheckedConflicts(env, items, listing, conflicts, draw);
      var q := LastQueued(listing, conflicts[n]);
      if q.Some? {
        hide CheckedConflict;
        assert q.value != p;
        forall id | Holds(after, id, p.payload.value)
          ensures Holds(before, id, p.payload.value)
        {
          OnlyTarget(env, before, p, q.value, draw(n), id);
        }
      }
    }
  }

  /** The table in which the conflict at position `n` is handled. */
  function Before(env: Env, items: map<Uuid, Item>, listing: seq<Pending>, conflicts: seq<Uuid>, draw: nat -> Draw,
                  n: nat)
    : map<Uuid, Item>
    requires n <= |conflicts|
  {
    CheckedConflicts(env, items, listing, conflicts[..n], draw)
  }

  predicate DistinctIds(conflicts: seq<Uuid>) {
    forall i, j :: 0 <= i < j < |conflicts| ==> conflicts[i] != conflicts[j]
  }

  /** After its turn, the payload stays where it was put, and where it was not put it stays missing. */
  lemma {:induction false} TurnDecides(env: Env, items: map<Uuid, Item>, listing: seq<Pending>, conflicts: seq<Uuid>,
                                       draw: nat -> Draw, p: Pending, n: nat)
    requires OnlyOne(listing, p) && NewIds(listing, draw) && DistinctIds(conflicts) && !Saved(items, p.payload.value)
    requires n < |conflicts| && LastQueued(listing, conflicts[n]) == Some(p)
    ensures Decided(env, items, listing, conflicts, draw, p, n)
    decreases |conflicts|
  {
    hide *;
    var last := |conflicts| - 1;
    OneMoreConflict(env, items, listing, conflicts, draw);
    if n == last {
      NotBefore(listing, conflicts, p, n);
      NotYetSaved(env, items, listing, conflicts[..n], draw, p);
      OwnTurn(env, items, listing, conflicts, draw, p);
    } else {
      TurnDecides(env, items, listing, conflicts[..last], draw, p, n);
      TurnStands(env, items, listing, conflicts, draw, p, n);
    }
  }

  lemma OneMoreConflict(env: Env, items: map<Uuid, Item>, listing: seq<Pending>, conflicts: seq<Uuid>,
                        draw: nat -> Draw)
    requires conflicts != []
    ensures DistinctIds(conflicts) ==> DistinctIds(conflicts[..|conflicts| - 1])
    ensures forall k :: 0 <= k < |conflicts| - 1 ==> conflicts[..|conflicts| - 1][k] == conflicts[k]
    ensures CheckedConflicts(env, items, listing, conflicts, draw)
            == match LastQueued(listing, conflicts[|conflicts| - 1])
               case Some(p) =>
                 CheckedConflict(env, CheckedConflicts(env, items, listing, conflicts[..|conflicts| - 1], draw), p,
                                 draw(|conflicts| - 1))
               case None => CheckedConflicts(env, items, listing, conflicts[..|conflicts| - 1], draw)
  {
    hide CheckedConflict;
  }

  /** Distinct conflicts name an item once. */
  lemma NotBefore(listing: seq<Pending>, conflicts: seq<Uuid>, p: Pending, n: nat)
    requires DistinctIds(conflicts) && n < |conflicts| && LastQueued(listing, conflicts[n]) == Some(p)
    ensures conflicts[n] == p.item && p.item !in conflicts[..n]
  {
  }

  /** The change at its turn decides: written, its row holds the payload in the end; refused, no row does. */
  predicate DecidedBy(env: Env, before: map<Uuid, Item>, after: map<Uuid, Item>, p: Pending, d: Draw)
    requires p.payload.Some?
  {
    && (IsWritten(env, before, p, d) ==> Holds(after, ConflictTarget(env, before, p, d), p.payload.value))
    && (!IsWritten(env, before, p, d) ==> !Saved(after, p.payload.value))
  }

  predicate Decided(env: Env, items: map<Uuid, Item>, listing: seq<Pending>, conflicts: seq<Uuid>, draw: nat -> Draw,
                    p: Pending, n: nat)
    requires n <= |conflicts| && p.payload.Some?
  {
    DecidedBy(env, Before(env, items, listing, conflicts, draw, n),
              CheckedConflicts(env, items, listing, conflicts, draw), p, draw(n))
  }

  lemma OwnTurn(env: Env, items: map<Uuid, Item>, listing: seq<Pending>, conflicts: seq<Uuid>, draw: nat -> Draw,
                p: Pending)
    requires conflicts != [] && LastQueued(listing, conflicts[|conflicts| - 1]) == Some(p) && p.payload.Some?
    requires !Saved(CheckedConflicts(env, items, listing, conflicts[..|conflicts| - 1], draw), p.payload.value)
    ensures Decided(env, items, listing, conflicts, draw, p, |conflicts| - 1)
  {
    OneMoreConflict(env, items, listing, conflicts, draw);
    OwnStep(env, Before(env, items, listing, conflicts, draw, |conflicts| - 1), p, draw(|conflicts| - 1));
    hide CheckedConflict, CheckedConflicts, IsWritten, Saved, Holds;
  }

  lemma TurnStands(env: Env, items: map<Uuid, Item>, listing: seq<Pending>, conflicts: seq<Uuid>, draw: nat -> Draw,
                   p: Pending, n: nat)
    requires OnlyOne(listing, p) && NewIds(listing, draw) && DistinctIds(conflicts) && n < |conflicts| - 1
    requires LastQueued(listing, conflicts[n]) == Some(p)
    requires Decided(env, items, listing, conflicts[..|conflicts| - 1], draw, p, n)
    ensures Decided(env, items, listing, conflicts, draw, p, n)
  {
    hide *;
    var last := |conflicts| - 1;
    OneMoreConflict(env, items, listing, conflicts, draw);
    DecidedIs(env, items, listing, conflicts, draw, p, n);
    var q := LastQueued(listing, conflicts[last]);
    if q.Some? {
      NotBefore(listing, conflicts, p, n);
      NotBefore(listing, conflicts, q.value, last);
      OtherItem(conflicts, n, last);
      DecisionStands(env, Before(env, items, listing, conflicts, draw, n),
                     CheckedConflicts(env, items, listing, conflicts[..last], draw), listing, p, q.value, draw, n,
                         last);
    }
  }

  lemma OtherItem(conflicts: seq<Uuid>, n: nat, last: nat)
    requires DistinctIds(conflicts) && n < last < |conflicts|
    ensures conflicts[n] != conflicts[last]
  {
  }

  /** The decision, spelt out for the whole list and for the list without its last conflict. */
  lemma DecidedIs(env: Env, items: map<Uuid, Item>, listing: seq<Pending>, conflicts: seq<Uuid>, draw: nat -> Draw,
                  p: Pending, n: nat)
    requires n < |conflicts| - 1 && p.payload.Some?
    ensures var before, last := Before(env, items, listing, conflicts, draw, n), |conflicts| - 1;
            && (Decided(env, items, listing, conflicts, draw, p, n)
                <==> DecidedBy(env, before, CheckedConflicts(env, items, listing, conflicts, draw), p, draw(n)))
            && (Decided(env, items, listing, conflicts[..last], draw, p, n)
                <==> DecidedBy(env, before, CheckedConflicts(env, items, listing, conflicts[..last], draw), p, draw(n)))
  {
    hide DecidedBy, CheckedConflicts;
    assert conflicts[..|conflicts| - 1][..n] == conflicts[..n];
  }

  lemma DecisionStands(env: Env, before: map<Uuid, Item>, mid: map<Uuid, Item>, listing: seq<Pending>, p: Pending,
                       q: Pending,
                       draw: nat -> Draw, n: nat, last: nat)
    requires OnlyOne(listing, p) && NewIds(listing, draw) && q in listing && q.item != p.item
    requires DecidedBy(env, before, mid, p, draw(n))
    ensures DecidedBy(env, before, CheckedConflict(env, mid, q, draw(last)), p, draw(n))
  {
    LaterTurn(env, mid, listing, p, q, draw, last, ConflictTarget(env, before, p, draw(n)));
    hide CheckedConflict, IsWritten, Saved, Holds;
  }

  lemma LaterTurn(env: Env, items: map<Uuid, Item>, listing: seq<Pending>, p: Pending, q: Pending, draw: nat -> Draw,
                  last: nat, w: Uuid)
    requires OnlyOne(listing, p) && NewIds(listing, draw) && q in listing && q.item != p.item
    requires w == p.item || exists i: nat :: w == draw(i).newId
    ensures Holds(items, w, p.payload.value) ==> Holds(CheckedConflict(env, items, q, draw(last)), w, p.payload.value)
    ensures !Saved(items, p.payload.value) ==> !Saved(CheckedConflict(env, items, q, draw(last)), p.payload.value)
  {
    assert q.payload != p.payload;
    OtherStep(env, items, p, q, draw(last), w);
    hide CheckedConflict;
    forall id | Holds(CheckedConflict(env, items, q, draw(last)), id, p.payload.value)
      ensures Holds(items, id, p.payload.value)
    {
      OnlyTarget(env, items, p, q, draw(last), id);
    }
  }

  /**
    A refused edit over the whole reply. Its queue row is gone in any case; its payload is in some
    conflict row afterwards if and only if the database takes the row when its turn comes (see
    `WrittenIff` for when that is). Otherwise the edit is lost.
   */
  lemma RefusedEditIsKeptIff(env: Env, table: PendingTable, items: map<Uuid, Item>, listing: seq<Pending>,
                             reply: PushReply,
                             draw: nat -> Draw, p: Pending, n: nat)
    requires IsListing(env, table, listing) && OnlyOne(listing, p) && NewIds(listing, draw)
    requires DistinctIds(reply.conflicts) && n < |reply.conflicts| && LastQueued(listing, reply.conflicts[n]) == Some(p)
    requires !Saved(items, p.payload.value)
    ensures p.id !in Reconciled(table, listing, reply)
    ensures Saved(CheckedConflicts(env, items, listing, reply.conflicts, draw), p.payload.value)
            <==> IsWritten(env, Before(env, items, listing, reply.conflicts, draw, n), p, draw(n))
  {
    TurnDecides(env, items, listing, reply.conflicts, draw, p, n);
    hide IsWritten, CheckedConflicts, Before, Saved;
    assert p in listing;
    LastQueuedIsLast(listing, p);
    ReconcileIsExact(env, table, listing, reply, p.id);
    SavedBy(CheckedConflicts(env, items, listing, reply.conflicts, draw),
            ConflictTarget(env, Before(env, items, listing, reply.conflicts, draw, n), p, draw(n)), p.payload.value);
  }

  lemma SavedBy(items: map<Uuid, Item>, id: Uuid, payload: Bytes)
    ensures Holds(items, id, payload) ==> Saved(items, payload)
  {
  }

  // ----- the constraints as an invariant

  /** The constraints of the table, row by row: lengths, and the patterns a path must not match. */
  predicate RowAllowed(row: Item) {
    && |row.name| <= 200 && |row.path| <= 500
    && !("." <= row.path)
    && forall i: nat :: i + 2 <= |row.path| ==> PairAllowed(row.path, i)
  }

  predicate PairAllowed(path: string, i: nat)
    requires i + 2 <= |path|
  {
    path[i..i + 2] != "/." && path[i..i + 2] != "//"
  }

  predicate TableAllowed(items: map<Uuid, Item>) {
    PathIndex.UniqueLive(items) && forall id :: id in items ==> RowAllowed(items[id])
  }

  lemma PairIs(path: string, i: nat)
    requires i + 2 <= |path|
    ensures PairAllowed(path, i) <==> !(path[i] == '/' && (path[i + 1] == '.' || path[i + 1] == '/'))
  {
    assert path[i..i + 2] == [path[i], path[i + 1]];
  }

  lemma FitsIffAllowed(row: Item)
    ensures Fits(row) <==> RowAllowed(row)
  {
    var path := row.path;
    assert "." <= path <==> path != "" && path[0] == '.';
    forall i: nat | i + 2 <= |path|
      ensures PairAllowed(path, i) <==> !(path[i] == '/' && (path[i + 1] == '.' || path[i + 1] == '/'))
    {
      PairIs(path, i);
    }
    hide PairAllowed;
    if RowAllowed(row) {
      forall i | 0 <= i < |path| - 1 && path[i] == '/' ensures path[i + 1] != '.' && path[i + 1] != '/' {
        assert PairAllowed(path, i);
      }
    }
    if Fits(row) {
      forall i: nat | i + 2 <= |path| ensures PairAllowed(path, i) {
        assert path[i] == '/' ==> path[i + 1] != '.' && path[i + 1] != '/';
      }
    }
  }

  /** A conflict row is stored exactly when the table with it is an allowed one; else the table stays. */
  lemma CheckedKeepsTable(env: Env, items: map<Uuid, Item>, p: Pending, d: Draw)
    requires TableAllowed(items)
    ensures var plain := ApplyConflict(env, items, p, d);
            && CheckedConflict(env, items, p, d) == (if TableAllowed(plain) then plain else items)
            && TableAllowed(CheckedConflict(env, items, p, d))
  {
    if p.payload.Some? && (GetById(items, env.storage, p.item).Some? || d.newId !in items) {
      var w, row := ConflictTarget(env, items, p, d), RowFor(env, items, p, d);
      hide ConflictRow, ConflictTarget, ChosenAttempt, Fits, RowAllowed, PathIndex.Clash, PathIndex.UniqueLive;
      PathIndex.ClashIffBroken(items, w, row);
      FitsIffAllowed(row);
      assert ApplyConflict(env, items, p, d) == items[w := row];
    }
  }
}
