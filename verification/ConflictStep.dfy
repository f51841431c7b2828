/**
  The conflict step: a change the server refused is kept as a renamed local row
  (crates/zann-client/src/sync_helpers.rs:136-207).
 */
module ConflictStep {
  import opened Base
  import opened ReplicaModel

  datatype Operation = OpCreate | OpUpdate | OpDelete | OpRestore

  /** A row of `pending_changes`. */
  datatype Pending = Pending(
    id: Uuid, storage: Uuid, vault: Uuid, item: Uuid, operation: Operation, payload: Option<Bytes>,
    checksum: Option<string>, path: Option<string>, name: Option<string>, typeId: Option<string>,
    baseSeq: Option<int>, createdAt: Time)

  /** What one conflict reads from the clock and the identifier generator. */
  datatype Draw = Draw(now: Time, stamp: string, newId: Uuid)

  const MAX_ATTEMPTS := 5

  function OrElse<T>(o: Option<T>, default: T): T {
    match o
    case Some(v) => v
    case None => default
  }

  function Suffix(stamp: string, attempt: nat): string
    requires attempt <= MAX_ATTEMPTS + 1
  {
    if attempt == 0 then " (conflict " + stamp + ")"
    else " (conflict " + stamp + "-" + [('0' as int + attempt) as char] + ")"
  }

  function Candidate(path: string, stamp: string, attempt: nat): string
    requires attempt <= MAX_ATTEMPTS + 1
  {
    path + Suffix(stamp, attempt)
  }

  /** `get_by_vault_path` finds a row, deleted or not. */
  predicate Taken(env: Env, items: map<Uuid, Item>, path: string) {
    exists id :: id in items && items[id].storage == env.storage && items[id].vault == env.vault
                 && items[id].path == path
  }

  /** The attempt the name search stops at, having rejected all before `from`. */
  function ChosenFrom(env: Env, items: map<Uuid, Item>, path: string, stamp: string, from: nat): (k: nat)
    requires from <= MAX_ATTEMPTS + 1
    ensures from <= k <= MAX_ATTEMPTS + 1
    decreases MAX_ATTEMPTS + 1 - from
  {
    if from == MAX_ATTEMPTS + 1 || !Taken(env, items, Candidate(path, stamp, from)) then from
    else ChosenFrom(env, items, path, stamp, from + 1)
  }

  function BasePath(p: Pending): string {
    OrElse(p.path, "conflict")
  }

  function ChosenAttempt(env: Env, items: map<Uuid, Item>, p: Pending, stamp: string): (k: nat)
    ensures k <= MAX_ATTEMPTS + 1
  {
    ChosenFrom(env, items, BasePath(p), stamp, 0)
  }

  /** The row that keeps the refused change, under the name of the given attempt. */
  function ConflictRow(env: Env, items: map<Uuid, Item>, p: Pending, d: Draw, attempt: nat): Item
    requires p.payload.Some? && attempt <= MAX_ATTEMPTS + 1
  {
    var path := Candidate(BasePath(p), d.stamp, attempt);
    var name := OrElse(p.name, BasePath(p)) + Suffix(d.stamp, attempt);
    var typeId := OrElse(p.typeId, "login");
    var checksum := OrElse(p.checksum, env.hash(p.payload.value));
    match GetById(items, env.storage, p.item)
    case Some(row) =>
      row.(path := path, name := name, typeId := typeId, payload := p.payload.value,
           checksum := checksum, status := Conflict, updatedAt := d.now)
    case None =>
      Item(env.storage, env.vault, path, name, typeId, p.payload.value, checksum, None,
           OrElse(p.baseSeq, 0) + 1, None, d.now, Conflict)
  }

  /** The row that is written: the item's own, or a fresh one. */
  function ConflictTarget(env: Env, items: map<Uuid, Item>, p: Pending, d: Draw): Uuid {
    if GetById(items, env.storage, p.item).Some? then p.item else d.newId
  }

  /** `handle_sync_conflict`. An insert under an identifier in use is refused. */
  function ApplyConflict(env: Env, items: map<Uuid, Item>, p: Pending, d: Draw): map<Uuid, Item> {
    if p.payload.None? then items
    else if GetById(items, env.storage, p.item).None? && d.newId in items then items
    else
      items[ConflictTarget(env, items, p, d) :=
              ConflictRow(env, items, p, d, ChosenAttempt(env, items, p, d.stamp))]
  }

  /** The seven names a search can reach are pairwise different. */
  lemma CandidatesDiffer(path: string, stamp: string, j: nat, k: nat)
    requires j < k <= MAX_ATTEMPTS + 1
    ensures Candidate(path, stamp, j) != Candidate(path, stamp, k)
  {
    var at := |path| + |" (conflict "| + |stamp|;
    var a, b := Candidate(path, stamp, j), Candidate(path, stamp, k);
    assert b[at] == '-';
    if j == 0 {
      assert a[at] == ')';
    } else {
      assert a[at + 1] == ('0' as int + j) as char;
      assert b[at + 1] == ('0' as int + k) as char;
    }
  }

  lemma {:induction false} SearchSkipsTaken(env: Env, items: map<Uuid, Item>, path: string, stamp: string, from: nat)
    requires from <= MAX_ATTEMPTS + 1
    ensures var k := ChosenFrom(env, items, path, stamp, from);
            && (forall j: nat :: from <= j < k ==> Taken(env, items, Candidate(path, stamp, j)))
            && (k <= MAX_ATTEMPTS ==> !Taken(env, items, Candidate(path, stamp, k)))
    decreases MAX_ATTEMPTS + 1 - from
  {
    hide Candidate, Taken;
    if from <= MAX_ATTEMPTS && Taken(env, items, Candidate(path, stamp, from)) {
      SearchSkipsTaken(env, items, path, stamp, from + 1);
    }
  }

  /**
    The search ends on a free name exactly when one of its seven candidates is free; the last
    one is taken over unchecked.
   */
  lemma ChosenPathIsFree(env: Env, items: map<Uuid, Item>, p: Pending, stamp: string)
    ensures var chosen := Candidate(BasePath(p), stamp, ChosenAttempt(env, items, p, stamp));
            !Taken(env, items, chosen) <==>
            exists k: nat :: k <= MAX_ATTEMPTS + 1 && !Taken(env, items, Candidate(BasePath(p), stamp, k))
  {
    hide Candidate, Taken, ChosenFrom;
    SearchSkipsTaken(env, items, BasePath(p), stamp, 0);
  }

  /**
    The conflict step writes exactly one row: status Conflict, the pending payload and its
    checksum. A row of the item keeps its version and deletion mark, so nothing newer is claimed.
   */
  lemma ConflictKeepsPayload(env: Env, items: map<Uuid, Item>, p: Pending, d: Draw)
    requires p.payload.Some? && d.newId !in items
    ensures var after := ApplyConflict(env, items, p, d);
            var w := ConflictTarget(env, items, p, d);
            && w in after
            && (forall id :: id != w ==> (id in after <==> id in items))
            && (forall id :: id != w && id in items ==> after[id] == items[id])
            && after[w].status == Conflict && after[w].payload == p.payload.value
            && after[w].storage == env.storage
            && after[w].checksum == OrElse(p.checksum, env.hash(p.payload.value))
            && (w in items ==> w == p.item && after[w].version == items[w].version
                               && after[w].deletedAt == items[w].deletedAt
                               && after[w].vault == items[w].vault)
            && (w !in items ==> w == d.newId && after[w].version == OrElse(p.baseSeq, 0) + 1
                                && after[w].deletedAt.None? && after[w].vault == env.vault)
            && (forall k: nat :: k <= MAX_ATTEMPTS && !Taken(env, items, Candidate(BasePath(p), d.stamp, k))
                  ==> !Taken(env, items, after[w].path))
  {
    ChosenPathIsFree(env, items, p, d.stamp);
  }

  /** The endings a search may put behind a name, in its order. */
  function Endings(stamp: string): (r: seq<string>)
    ensures |r| == 7
  {
    [" (conflict " + stamp + ")", " (conflict " + stamp + "-1)", " (conflict " + stamp + "-2)",
     " (conflict " + stamp + "-3)", " (conflict " + stamp + "-4)", " (conflict " + stamp + "-5)",
     " (conflict " + stamp + "-6)"]
  }

  lemma EndingsAre(stamp: string, k: nat)
    requires k < 7
    ensures Suffix(stamp, k) == Endings(stamp)[k]
  {
    assert [('0' as int + k) as char] == ["0", "1", "2", "3", "4", "5", "6"][k];
    if k > 0 {
      assert Endings(stamp)[k] == " (conflict " + stamp + "-" + ["0", "1", "2", "3", "4", "5", "6"][k] + ")";
    }
  }

  /** Some row of the vault, deleted or not, has this path. */
  ghost predicate InUse(env: Env, items: map<Uuid, Item>, path: string) {
    exists id :: id in items && items[id].path == path && items[id].storage == env.storage
                 && items[id].vault == env.vault
  }

  lemma SameUse(env: Env, items: map<Uuid, Item>, path: string)
    ensures Taken(env, items, path) == InUse(env, items, path)
  {
  }

  /** The refused change's own path and name carry ending `k`, the first one that is free or else the last. */
  ghost predicate NamedBy(env: Env, items: map<Uuid, Item>, p: Pending, d: Draw, row: Item, k: nat) {
    var path := match p.path case Some(own) => own case None => "conflict";
    var name := match p.name case Some(own) => own case None => path;
    && k < 7
    && row.path == path + Endings(d.stamp)[k] && row.name == name + Endings(d.stamp)[k]
    && (forall j: nat :: j < k ==> InUse(env, items, path + Endings(d.stamp)[j]))
    && (k < 6 ==> !InUse(env, items, path + Endings(d.stamp)[k]))
  }

  /** What the row keeps of the refused change, and of the item's own row if there is one. */
  predicate KeepsChange(env: Env, items: map<Uuid, Item>, p: Pending, d: Draw, id: Uuid, row: Item) {
    && row.storage == env.storage && row.updatedAt == d.now && row.status == Conflict
    && p.payload == Some(row.payload)
    && row.checksum == (match p.checksum case Some(c) => c case None => env.hash(row.payload))
    && row.typeId == (match p.typeId case Some(own) => own case None => "login")
    && (if p.item in items && items[p.item].storage == env.storage then
          && id == p.item && row.vault == items[id].vault && row.cacheKeyFp == items[id].cacheKeyFp
          && row.version == items[id].version && row.deletedAt == items[id].deletedAt
        else
          && id == d.newId && row.vault == env.vault && row.cacheKeyFp == None && row.deletedAt == None
          && row.version == (match p.baseSeq case Some(n) => n + 1 case None => 1))
  }

  lemma ChosenName(env: Env, items: map<Uuid, Item>, p: Pending, d: Draw, row: Item)
    requires p.payload.Some? && row == ConflictRow(env, items, p, d, ChosenAttempt(env, items, p, d.stamp))
    ensures NamedBy(env, items, p, d, row, ChosenAttempt(env, items, p, d.stamp))
  {
    var k := ChosenAttempt(env, items, p, d.stamp);
    var path := match p.path case Some(own) => own case None => "conflict";
    hide ChosenFrom, Suffix, Endings, Taken, InUse;
    SearchSkipsTaken(env, items, path, d.stamp, 0);
    forall j: nat | j <= k
      ensures Suffix(d.stamp, j) == Endings(d.stamp)[j]
      ensures Taken(env, items, path + Suffix(d.stamp, j)) == InUse(env, items, path + Endings(d.stamp)[j])
    {
      EndingsAre(d.stamp, j);
      SameUse(env, items, path + Suffix(d.stamp, j));
    }
    forall j: nat | j < k ensures InUse(env, items, path + Endings(d.stamp)[j]) {
      assert Taken(env, items, Candidate(path, d.stamp, j));
    }
  }

  /**
    A refused change with a payload that can be stored is kept in exactly one row, under its own path
    and name with an ending; every field of that row is the change's, the item's, or a fixed default.
   */
  lemma RefusedChangeIsKept(env: Env, items: map<Uuid, Item>, p: Pending, d: Draw)
    ensures var after := ApplyConflict(env, items, p, d);
            if p.payload.Some? && ((p.item in items && items[p.item].storage == env.storage) || d.newId !in items) then
              exists id, k ::
                && id in after && after == items[id := after[id]]
                && KeepsChange(env, items, p, d, id, after[id]) && NamedBy(env, items, p, d, after[id], k)
            else
              after == items
  {
    if p.payload.Some? && ((p.item in items && items[p.item].storage == env.storage) || d.newId !in items) {
      var after, id := ApplyConflict(env, items, p, d), ConflictTarget(env, items, p, d);
      var k := ChosenAttempt(env, items, p, d.stamp);
      hide ChosenAttempt;
      ChosenName(env, items, p, d, after[id]);
      assert after == items[id := after[id]];
      assert KeepsChange(env, items, p, d, id, after[id]);
    }
  }
}
