/**
  Login: migrating the context of a server that moved, and merging the storages of its address
  (crates/zann-client/src/auth.rs:229-339, 410-451; crates/zann-client/src/config.rs:48-62). The
  context name of an address, the order of listings, the choice a hash map makes among equals and
  the new id are inputs. Identity, tokens and the other copied values are one number.
 */
module Login {
  import opened Base

  /** Reading and writing storage ids; several strings may read as the same id. */
  datatype Spelling = Spelling(parse: string -> Option<Uuid>, format: Uuid -> string)

  ghost predicate Reads(p: Spelling) {
    forall id: Uuid :: p.parse(p.format(id)) == Some(id)
  }

  datatype Context = Context(addr: string, serverId: Option<string>, storageId: Option<string>, rest: nat)

  type Contexts = map<string, Context>

  datatype Config = Config(contexts: Contexts, current: Option<string>)

  datatype Storage = Storage(serverUrl: Option<string>, rest: nat)

  /** A row of the item, vault, cursor or pending table. */
  datatype Row = Row(storage: Uuid, rest: nat)

  type Table = map<Uuid, Row>

  datatype Database = Database(storages: map<Uuid, Storage>, items: Table, vaults: Table, cursors: Table,
                               pending: Table)

  /** What the server and the random generator contributed. */
  datatype LoginInfo = LoginInfo(serverId: Option<string>, newId: Uuid, context: nat, storage: nat)

  // ----- the context

  predicate IsMoved(contexts: Contexts, name: string, serverId: string, candidate: string) {
    candidate in contexts && contexts[candidate].serverId == Some(serverId) && candidate != name
  }

  /** What `find` over the hash map may return. */
  ghost predicate IsFound(contexts: Contexts, name: string, serverId: Option<string>, found: Option<string>) {
    if serverId.None? then found.None?
    else match found
      case Some(n) => IsMoved(contexts, name, serverId.value, n)
      case None => forall n :: !IsMoved(contexts, name, serverId.value, n)
  }

  /** The context of the new name is absent, or knows no other server. */
  predicate CanReplace(contexts: Contexts, name: string, serverId: string) {
    name in contexts && contexts[name].serverId.Some? ==> contexts[name].serverId.value == serverId
  }

  predicate Migrates(contexts: Contexts, name: string, serverId: Option<string>, found: Option<string>) {
    found.Some? && found.value in contexts && serverId.Some? && CanReplace(contexts, name, serverId.value)
  }

  /** `migrate_context_for_server_id`. */
  function Migrated(contexts: Contexts, name: string, serverId: Option<string>,
                    found: Option<string>): (r: (Contexts, Option<string>))
    ensures r.1.Some? ==> name in r.0 && r.0[name].storageId == r.1
  {
    if Migrates(contexts, name, serverId, found) then
      ((contexts - {found.value})[name := contexts[found.value]], contexts[found.value].storageId)
    else (contexts, None)
  }

  function OrElse(a: Option<string>, b: Option<string>): Option<string> {
    if a.Some? then a else b
  }

  /** The storage id the context ends up with: its own, the migrated one, the first with the address, or the new one. */
  function ChosenStorage(contexts: Contexts, name: string, migrated: Option<string>, existing: Option<string>,
                         fallback: string): string {
    var own := if name in contexts then contexts[name].storageId else None;
    OrElse(OrElse(own, OrElse(migrated, existing)), Some(fallback)).value
  }

  /** The configuration that is saved before the database is touched. */
  function Entered(p: Spelling, cfg: Config, url: string, name: string, info: LoginInfo, found: Option<string>,
                   existing: Option<Uuid>): Config {
    var (contexts, migrated) := Migrated(cfg.contexts, name, info.serverId, found);
    var listed := if existing.Some? then Some(p.format(existing.value)) else None;
    var sid := ChosenStorage(contexts, name, migrated, listed, p.format(info.newId));
    Config(contexts[name := Context(url, info.serverId, Some(sid), info.context)], Some(name))
  }

  // ----- merging storages

  predicate IsDuplicate(db: Database, url: string, keep: Uuid, id: Uuid) {
    id in db.storages && id != keep && db.storages[id].serverUrl == Some(url)
  }

  function Duplicates(db: Database, url: string, keep: Uuid): set<Uuid> {
    set id | id in db.storages && IsDuplicate(db, url, keep, id)
  }

  function RowsWithout(t: Table, gone: set<Uuid>): Table {
    map k | k in t && t[k].storage !in gone :: t[k]
  }

  function DatabaseWithout(db: Database, gone: set<Uuid>): Database {
    Database(db.storages - gone, RowsWithout(db.items, gone), RowsWithout(db.vaults, gone),
             RowsWithout(db.cursors, gone), RowsWithout(db.pending, gone))
  }

  /** The context names a storage by its canonical spelling. */
  predicate Names(p: Spelling, c: Context, gone: set<Uuid>) {
    exists id :: id in gone && c.storageId == Some(p.format(id))
  }

  function ConfigWithout(p: Spelling, cfg: Config, gone: set<Uuid>): Config {
    Config(map n | n in cfg.contexts && !Names(p, cfg.contexts[n], gone) :: cfg.contexts[n],
           if cfg.current.Some? && cfg.current.value in cfg.contexts && Names(p, cfg.contexts[cfg.current.value], gone)
           then None else cfg.current)
  }

  // ----- the whole login

  datatype Outcome = Outcome(config: Config, db: Database, answer: Result<string, string>)

  function LoggedIn(p: Spelling, cfg: Config, db: Database, url: string, name: string, info: LoginInfo,
                    found: Option<string>, existing: Option<Uuid>): Outcome
  {
    var entered := Entered(p, cfg, url, name, info, found, existing);
    var sid := entered.contexts[name].storageId.value;
    match p.parse(sid)
    case None => Outcome(entered, db, Err("invalid storage id"))
    case Some(keep) =>
      var gone := Duplicates(db, url, keep);
      var rest := DatabaseWithout(db, gone);
      Outcome(ConfigWithout(p, entered, gone),
              rest.(storages := rest.storages[keep := Storage(Some(url), info.storage)]), Ok(sid))
  }

  // ----- what it guarantees

  /** Rows of the storages that stay are all there, rows of the others are all gone. */
  predicate RowsFollow(t: Table, r: Table, gone: set<Uuid>) {
    && (forall k :: k in r ==> k in t && r[k] == t[k] && r[k].storage !in gone)
    && (forall k :: k in t && t[k].storage !in gone ==> k in r)
  }

  predicate AllRowsFollow(db: Database, r: Database, gone: set<Uuid>) {
    && RowsFollow(db.items, r.items, gone) && RowsFollow(db.vaults, r.vaults, gone)
    && RowsFollow(db.cursors, r.cursors, gone) && RowsFollow(db.pending, r.pending, gone)
  }

  /** A context refers to a storage in any spelling. */
  predicate Refers(p: Spelling, c: Context, id: Uuid) {
    c.storageId.Some? && p.parse(c.storageId.value) == Some(id)
  }

  predicate NothingDangles(p: Spelling, contexts: Contexts, gone: set<Uuid>) {
    forall n, id :: n in contexts && id in gone ==> !Refers(p, contexts[n], id)
  }

  /** Contexts that refer to a storage on its way out write its id as the program itself would. */
  predicate Canonical(p: Spelling, contexts: Contexts, gone: set<Uuid>) {
    forall n, id :: n in contexts && id in gone && Refers(p, contexts[n], id) ==>
      contexts[n].storageId == Some(p.format(id))
  }

  /** A login succeeds exactly if the storage id the context ends up with can be read. */
  lemma LoginSucceedsIff(p: Spelling, cfg: Config, db: Database, url: string, name: string, info: LoginInfo,
                         found: Option<string>, existing: Option<Uuid>)
    requires Reads(p) && IsFound(cfg.contexts, name, info.serverId, found)
    ensures var own := if Migrates(cfg.contexts, name, info.serverId, found) then cfg.contexts[found.value].storageId
                       else if name in cfg.contexts then cfg.contexts[name].storageId else None;
            LoggedIn(p, cfg, db, url, name, info, found, existing).answer.Ok?
            <==> (own.Some? ==> p.parse(own.value).Some?)
    ensures LoggedIn(p, cfg, db, url, name, info, found, existing).answer.Err? ==>
              LoggedIn(p, cfg, db, url, name, info, found, existing).db == db
  {
  }

  lemma ContextSurvives(p: Spelling, entered: Config, name: string, keep: Uuid, gone: set<Uuid>)
    requires Reads(p) && keep !in gone
    requires name in entered.contexts && Refers(p, entered.contexts[name], keep) && entered.current == Some(name)
    ensures var r := ConfigWithout(p, entered, gone);
            r.current == Some(name) && name in r.contexts && r.contexts[name] == entered.contexts[name]
  {
    assert !Names(p, entered.contexts[name], gone);
  }

  lemma DanglingIffMisspelt(p: Spelling, entered: Config, gone: set<Uuid>)
    requires Reads(p)
    ensures NothingDangles(p, ConfigWithout(p, entered, gone).contexts, gone) <==> Canonical(p, entered.contexts, gone)
  {
    var r := ConfigWithout(p, entered, gone);
    if NothingDangles(p, r.contexts, gone) {
      forall n, id | n in entered.contexts && id in gone && Refers(p, entered.contexts[n], id)
        ensures entered.contexts[n].storageId == Some(p.format(id))
      {
        assert n !in r.contexts;
        var other :| other in gone && entered.contexts[n].storageId == Some(p.format(other));
        assert p.parse(p.format(other)) == Some(other);
      }
    }
    if Canonical(p, entered.contexts, gone) {
      forall n, id | n in r.contexts && id in gone
        ensures !Refers(p, r.contexts[n], id)
      {
        assert !Names(p, entered.contexts[n], gone);
        assert entered.contexts[n].storageId != Some(p.format(id));
      }
    }
  }

  /**
    After a successful login exactly the kept storage has the address, the current context exists
    and names it, every row of a storage that was merged away is gone and every other row is
    there, storages of other addresses are untouched, and no context refers to a storage that is
    gone, the last if and only if those references are spelt canonically.
   */
  lemma LoginConsolidates(p: Spelling, cfg: Config, db: Database, url: string, name: string, info: LoginInfo,
                          found: Option<string>, existing: Option<Uuid>)
    requires Reads(p) && IsFound(cfg.contexts, name, info.serverId, found)
    requires LoggedIn(p, cfg, db, url, name, info, found, existing).answer.Ok?
    ensures var entered := Entered(p, cfg, url, name, info, found, existing);
            var out := LoggedIn(p, cfg, db, url, name, info, found, existing);
            && p.parse(out.answer.value).Some?
            && var keep := p.parse(out.answer.value).value;
               var gone := Duplicates(db, url, keep);
               && (forall id :: id in out.db.storages && out.db.storages[id].serverUrl == Some(url) <==> id == keep)
               && out.config.current == Some(name) && name in out.config.contexts
               && Refers(p, out.config.contexts[name], keep) && out.config.contexts[name].addr == url
               && AllRowsFollow(db, out.db, gone)
               && (forall id :: id != keep ==> (id in out.db.storages <==> id in db.storages && id !in gone))
               && (forall id :: id in out.db.storages && id != keep ==> out.db.storages[id] == db.storages[id])
               && (forall n :: n in out.config.contexts && n != name ==>
                     n in cfg.contexts && out.config.contexts[n] == cfg.contexts[n])
               && (forall n :: n in cfg.contexts && n != name && n !in out.config.contexts ==>
                     (found == Some(n) && Migrates(cfg.contexts, name, info.serverId, found))
                         || Names(p, cfg.contexts[n], gone))
               && (NothingDangles(p, out.config.contexts, gone) <==> Canonical(p, entered.contexts, gone))
  {
    hide Entered, Migrates, IsFound, Reads, NothingDangles, Canonical;
    var entered := Entered(p, cfg, url, name, info, found, existing);
    EnteredOthers(p, cfg, url, name, info, found, existing);
    var sid := entered.contexts[name].storageId.value;
    var keep := p.parse(sid).value;
    var gone := Duplicates(db, url, keep);
    ContextSurvives(p, entered, name, keep, gone);
    DanglingIffMisspelt(p, entered, gone);
  }

  /** What entering does to the contexts: the new one, and all others but the one that moved. */
  lemma EnteredOthers(p: Spelling, cfg: Config, url: string, name: string, info: LoginInfo, found: Option<string>,
                      existing: Option<Uuid>)
    requires IsFound(cfg.contexts, name, info.serverId, found)
    ensures var e := Entered(p, cfg, url, name, info, found, existing);
            && e.current == Some(name) && name in e.contexts && e.contexts[name].addr == url
            && e.contexts[name].storageId.Some?
            && forall n :: n != name ==>
                 && (n in e.contexts <==> n in cfg.contexts
                                          && !(found == Some(n) && Migrates(cfg.contexts, name, info.serverId, found)))
                 && (n in e.contexts ==> e.contexts[n] == cfg.contexts[n])
  {
  }

  /** Another spelling of a storage that is merged away is overlooked. */
  lemma MisspeltReferenceStays(p: Spelling, id: Uuid, s: string, c: Context)
    requires Reads(p) && p.parse(s) == Some(id) && s != p.format(id) && c.storageId == Some(s)
    ensures var r := ConfigWithout(p, Config(map["old" := c], None), {id});
            "old" in r.contexts && Refers(p, r.contexts["old"], id)
  {
    assert !Names(p, c, {id});
  }

  // ----- the steps

  lemma RowsWithoutOneMore(t: Table, gone: set<Uuid>, id: Uuid)
    ensures RowsWithout(RowsWithout(t, gone), {id}) == RowsWithout(t, gone + {id})
  {
  }

  lemma DatabaseWithoutOneMore(db: Database, gone: set<Uuid>, id: Uuid)
    ensures DatabaseWithout(DatabaseWithout(db, gone), {id}) == DatabaseWithout(db, gone + {id})
  {
    RowsWithoutOneMore(db.items, gone, id);
    RowsWithoutOneMore(db.vaults, gone, id);
    RowsWithoutOneMore(db.cursors, gone, id);
    RowsWithoutOneMore(db.pending, gone, id);
    assert db.storages - gone - {id} == db.storages - (gone + {id});
  }

  lemma ConfigWithoutOneMore(p: Spelling, cfg: Config, gone: set<Uuid>, id: Uuid)
    ensures ConfigWithout(p, ConfigWithout(p, cfg, gone), {id}) == ConfigWithout(p, cfg, gone + {id})
  {
    forall c: Context
      ensures Names(p, c, gone + {id}) <==> Names(p, c, gone) || Names(p, c, {id})
    {
      if c.storageId == Some(p.format(id)) {
        assert id in gone + {id} && id in {id};
      }
    }
  }

  lemma NothingRemoved(p: Spelling, cfg: Config, db: Database)
    ensures DatabaseWithout(db, {}) == db && ConfigWithout(p, cfg, {}) == cfg
  {
    assert forall t: Table :: RowsWithout(t, {}) == t;
  }

  /** A listing of the storage table, in any order. */
  ghost predicate IsListing(db: Database, listing: seq<Uuid>) {
    && (forall i :: 0 <= i < |listing| ==> listing[i] in db.storages)
    && (forall id :: id in db.storages ==> id in listing)
  }

  function DuplicatesIn(db: Database, url: string, keep: Uuid, listing: seq<Uuid>): set<Uuid> {
    set i | 0 <= i < |listing| && IsDuplicate(db, url, keep, listing[i]) :: listing[i]
  }

  lemma DuplicatesOneMore(db: Database, url: string, keep: Uuid, listing: seq<Uuid>, k: nat)
    requires k < |listing|
    ensures DuplicatesIn(db, url, keep, listing[..k + 1])
            == DuplicatesIn(db, url, keep, listing[..k])
               + if IsDuplicate(db, url, keep, listing[k]) then {listing[k]} else {}
  {
    var a, b := listing[..k + 1], listing[..k];
    assert a == b + [listing[k]];
    forall id | id in DuplicatesIn(db, url, keep, b)
      ensures id in DuplicatesIn(db, url, keep, a)
    {
      var i :| 0 <= i < |b| && IsDuplicate(db, url, keep, b[i]) && b[i] == id;
      assert a[i] == id;
    }
    assert a[k] == listing[k];
  }

  lemma AllDuplicates(db: Database, url: string, keep: Uuid, listing: seq<Uuid>)
    requires IsListing(db, listing)
    ensures DuplicatesIn(db, url, keep, listing) == Duplicates(db, url, keep)
  {
  }

  /** The first `k` listed storages have been looked at. */
  ghost predicate Progress(p: Spelling, cfg: Config, db: Database, url: string, keep: Uuid, listing: seq<Uuid>, k: nat,
                           c: Config, d: Database)
  {
    k <= |listing| &&
    var gone := DuplicatesIn(db, url, keep, listing[..k]);
    c == ConfigWithout(p, cfg, gone) && d == DatabaseWithout(db, gone)
  }

  lemma CleanupStarts(p: Spelling, cfg: Config, db: Database, url: string, keep: Uuid, listing: seq<Uuid>)
    ensures Progress(p, cfg, db, url, keep, listing, 0, cfg, db)
  {
    NothingRemoved(p, cfg, db);
    assert DuplicatesIn(db, url, keep, listing[..0]) == {};
  }

  lemma CleanupStep(p: Spelling, cfg: Config, db: Database, url: string, keep: Uuid, listing: seq<Uuid>, k: nat,
                    c: Config, d: Database)
    requires k < |listing| && Progress(p, cfg, db, url, keep, listing, k, c, d)
    ensures if IsDuplicate(db, url, keep, listing[k])
            then Progress(p, cfg, db, url, keep, listing, k + 1, ConfigWithout(p, c, {listing[k]}),
                          DatabaseWithout(d, {listing[k]}))
            else Progress(p, cfg, db, url, keep, listing, k + 1, c, d)
  {
    var gone := DuplicatesIn(db, url, keep, listing[..k]);
    DuplicatesOneMore(db, url, keep, listing, k);
    DatabaseWithoutOneMore(db, gone, listing[k]);
    ConfigWithoutOneMore(p, cfg, gone, listing[k]);
    hide DatabaseWithout, ConfigWithout, DuplicatesIn;
    assert gone + {} == gone;
  }

  lemma CleanupEnds(p: Spelling, cfg: Config, db: Database, url: string, keep: Uuid, listing: seq<Uuid>, c: Config,
                    d: Database)
    requires IsListing(db, listing) && Progress(p, cfg, db, url, keep, listing, |listing|, c, d)
    ensures c == ConfigWithout(p, cfg, Duplicates(db, url, keep)) && d == DatabaseWithout(db, Duplicates(db, url, keep))
  {
    assert listing[..|listing|] == listing;
    AllDuplicates(db, url, keep, listing);
  }

  /** The first listed storage with the address. */
  function FirstWithUrl(db: Database, url: string, listing: seq<Uuid>): Option<Uuid> {
    if listing == [] then None
    else if listing[0] in db.storages && db.storages[listing[0]].serverUrl == Some(url) then Some(listing[0])
    else FirstWithUrl(db, url, listing[1..])
  }

  class Client {
    var contexts: Contexts
    var current: Option<string>
    var storages: map<Uuid, Storage>
    var items: Table
    var vaults: Table
    var cursors: Table
    var pending: Table

    ghost function Cfg(): Config
      reads this
    {
      Config(contexts, current)
    }

    ghost function Db(): Database
      reads this
    {
      Database(storages, items, vaults, cursors, pending)
    }

    /** The removal of the contexts that name a storage. */
    method ForgetContexts(p: Spelling, id: Uuid)
      modifies this`contexts, this`current
      ensures Cfg() == ConfigWithout(p, old(Cfg()), {id})
    {
      ghost var before := contexts;
      var all := set n | n in contexts && contexts[n].storageId == Some(p.format(id));
      var names := all;
      while names != {}
        invariant names <= all
        invariant contexts == before - (all - names)
        invariant current == if old(current).Some? && old(current).value in all - names then None else old(current)
        decreases |names|
      {
        var n :| n in names;
        assert all - (names - {n}) == (all - names) + {n};
        contexts := contexts - {n};
        if current == Some(n) {
          current := None;
        }
        names := names - {n};
      }
      NamesOne(p, before, id, all);
    }

    /** The deletions for one storage. */
    method DeleteStorage(id: Uuid)
      modifies this`storages, this`items, this`vaults, this`cursors, this`pending
      ensures Db() == DatabaseWithout(old(Db()), {id})
    {
      pending := RowsWithout(pending, {id});
      cursors := RowsWithout(cursors, {id});
      items := RowsWithout(items, {id});
      vaults := RowsWithout(vaults, {id});
      storages := storages - {id};
    }

    /** `cleanup_duplicate_storages`. */
    method CleanupDuplicateStorages(p: Spelling, url: string, keep: Uuid, listing: seq<Uuid>)
      requires IsListing(Db(), listing)
      modifies this
      ensures Db() == DatabaseWithout(old(Db()), Duplicates(old(Db()), url, keep))
      ensures Cfg() == ConfigWithout(p, old(Cfg()), Duplicates(old(Db()), url, keep))
    {
      var listed := storages;
      ghost var db, cfg := Db(), Cfg();
      CleanupStarts(p, cfg, db, url, keep, listing);
      hide Progress;
      for k := 0 to |listing|
        invariant Progress(p, cfg, db, url, keep, listing, k, Cfg(), Db())
      {
        var id := listing[k];
        CleanupStep(p, cfg, db, url, keep, listing, k, Cfg(), Db());
        if id == keep {
          continue;
        }
        if listed[id].serverUrl != Some(url) {
          continue;
        }
        DeleteStorage(id);
        ForgetContexts(p, id);
      }
      CleanupEnds(p, cfg, db, url, keep, listing, Cfg(), Db());
    }

    /** `migrate_context_for_server_id`, given what `find` returned. */
    method MigrateContext(name: string, serverId: Option<string>,
                          found: Option<string>) returns (storageId: Option<string>)
      requires IsFound(contexts, name, serverId, found)
      modifies this`contexts
      ensures (contexts, storageId) == Migrated(old(contexts), name, serverId, found)
    {
      if serverId.None? || found.None? {
        return None;
      }
      var canReplace := true;
      if name in contexts && contexts[name].serverId.Some? {
        canReplace := contexts[name].serverId == serverId;
      }
      if !canReplace {
        return None;
      }
      var moved := contexts[found.value];
      contexts := contexts - {found.value};
      contexts := contexts[name := moved];
      storageId := moved.storageId;
    }

    method FindStorage(url: string, listing: seq<Uuid>) returns (r: Option<Uuid>)
      ensures r == FirstWithUrl(Db(), url, listing)
    {
      for i := 0 to |listing|
        invariant FirstWithUrl(Db(), url, listing) == FirstWithUrl(Db(), url, listing[i..])
      {
        if listing[i] in storages && storages[listing[i]].serverUrl == Some(url) {
          return Some(listing[i]);
        }
        assert listing[i..][1..] == listing[i + 1..];
      }
      r := None;
    }

    /** The part of `apply_login_context` that works on the configuration. */
    method EnterContext(p: Spelling, url: string, name: string, info: LoginInfo, found: Option<string>,
                        existing: Option<Uuid>)
      returns (storageId: string)
      requires IsFound(contexts, name, info.serverId, found)
      modifies this`contexts, this`current
      ensures Cfg() == Entered(p, old(Cfg()), url, name, info, found, existing)
      ensures name in contexts && contexts[name].storageId == Some(storageId)
    {
      var migrated := MigrateContext(name, info.serverId, found);
      var context := Context(url, None, None, 0);
      if name in contexts {
        context := contexts[name];
      }
      if context.storageId.None? {
        if migrated.Some? {
          context := context.(storageId := migrated);
        } else if existing.Some? {
          context := context.(storageId := Some(p.format(existing.value)));
        }
      }
      if context.storageId.None? {
        context := context.(storageId := Some(p.format(info.newId)));
      }
      storageId := context.storageId.value;
      contexts := contexts[name := Context(url, info.serverId, Some(storageId), info.context)];
      current := Some(name);
    }

    /** `apply_login_context`. */
    method ApplyLoginContext(p: Spelling, url: string, name: string, info: LoginInfo, found: Option<string>,
                             listing: seq<Uuid>)
      returns (r: Result<string, string>)
      requires IsFound(contexts, name, info.serverId, found) && IsListing(Db(), listing)
      modifies this
      ensures Outcome(Cfg(), Db(), r)
              == LoggedIn(p, old(Cfg()), old(Db()), url, name, info, found, FirstWithUrl(old(Db()), url, listing))
    {
      var existing := FindStorage(url, listing);
      var storageId := EnterContext(p, url, name, info, found, existing);
      var parsed := p.parse(storageId);
      if parsed.None? {
        return Err("invalid storage id");
      }
      CleanupDuplicateStorages(p, url, parsed.value, listing);
      storages := storages[parsed.value := Storage(Some(url), info.storage)];
      r := Ok(storageId);
    }
  }

  lemma NamesOne(p: Spelling, contexts: Contexts, id: Uuid, all: set<string>)
    requires all == set n | n in contexts && contexts[n].storageId == Some(p.format(id))
    ensures forall n :: n in contexts ==> (Names(p, contexts[n], {id}) <==> n in all)
    ensures contexts - all == map n | n in contexts && !Names(p, contexts[n], {id}) :: contexts[n]
  {
    forall n | n in contexts
      ensures Names(p, contexts[n], {id}) <==> n in all
    {
      assert id in {id};
    }
  }

  // ----- which storage a login keeps

  /** What `find` may return, spelt out: some other context of this server, or nothing if there is none. */
  predicate FoundOther(contexts: Contexts, name: string, serverId: Option<string>, found: Option<string>) {
    && (found.Some? ==> found.value in contexts && found.value != name && serverId.Some?
                        && contexts[found.value].serverId == serverId)
    && (found.None? && serverId.Some? ==> forall n :: n in contexts && contexts[n].serverId == serverId ==> n == name)
  }

  /** The other context moves here: nothing is here yet, or a context that knows no other server. */
  predicate Moves(contexts: Contexts, name: string, serverId: Option<string>, found: Option<string>) {
    found.Some? &&
    (name in contexts ==> contexts[name].serverId == None || contexts[name].serverId == serverId)
  }

  /** The storage id the configuration already holds for the address. */
  function OwnId(contexts: Contexts, name: string, serverId: Option<string>, found: Option<string>): Option<string>
    requires found.Some? ==> found.value in contexts
  {
    if Moves(contexts, name, serverId, found) then contexts[found.value].storageId
    else if name in contexts then contexts[name].storageId
    else None
  }

  /** A storage of the address that is not the kept one. */
  predicate MergedAway(db: Database, url: string, keep: Uuid, id: Uuid) {
    id in db.storages && db.storages[id].serverUrl == Some(url) && id != keep
  }

  /** Exactly the rows of storages that were merged away are gone; the others are as they were. */
  predicate RowsStay(db: Database, url: string, keep: Uuid, t: Table, r: Table) {
    && (forall k :: k in r ==> k in t)
    && (forall k :: k in t ==> (k in r <==> !MergedAway(db, url, keep, t[k].storage)))
    && (forall k :: k in r ==> r[k] == t[k])
  }

  predicate AllRowsStay(db: Database, url: string, keep: Uuid, r: Database) {
    && RowsStay(db, url, keep, db.items, r.items) && RowsStay(db, url, keep, db.vaults, r.vaults)
    && RowsStay(db, url, keep, db.cursors, r.cursors) && RowsStay(db, url, keep, db.pending, r.pending)
  }

  /** Another context is still there unless it moved or names a storage that was merged away. */
  ghost predicate ContextGoes(p: Spelling, cfg: Config, db: Database, url: string, keep: Uuid, name: string,
                              serverId: Option<string>, found: Option<string>, n: string)
    requires n in cfg.contexts
  {
    || (found == Some(n) && Moves(cfg.contexts, name, serverId, found))
    || (exists id :: MergedAway(db, url, keep, id) && cfg.contexts[n].storageId == Some(p.format(id)))
  }

  /** The storage a login is about: the configuration's own, else the first with the address, else a new one. */
  function LoginId(p: Spelling, cfg: Config, name: string, info: LoginInfo, found: Option<string>,
                   existing: Option<Uuid>): string
    requires found.Some? ==> found.value in cfg.contexts
  {
    var own := OwnId(cfg.contexts, name, info.serverId, found);
    if own.Some? then own.value
    else if existing.Some? then p.format(existing.value)
    else p.format(info.newId)
  }

  lemma EnteredIs(p: Spelling, cfg: Config, url: string, name: string, info: LoginInfo, found: Option<string>,
                  existing: Option<Uuid>)
    requires FoundOther(cfg.contexts, name, info.serverId, found)
    ensures var sid := LoginId(p, cfg, name, info, found, existing);
            var e := Entered(p, cfg, url, name, info, found, existing);
            && e.current == Some(name) && name in e.contexts
            && e.contexts[name] == Context(url, info.serverId, Some(sid), info.context)
            && forall n :: n != name ==>
                 && (n in e.contexts <==> n in cfg.contexts
                                          && !(found == Some(n) && Moves(cfg.contexts, name, info.serverId, found)))
                 && (n in e.contexts ==> e.contexts[n] == cfg.contexts[n])
  {
  }

  lemma TableStays(db: Database, url: string, keep: Uuid, t: Table)
    ensures RowsStay(db, url, keep, t, RowsWithout(t, Duplicates(db, url, keep)))
  {
  }

  /** The storage table after a login: the kept storage as the login writes it, and those of other addresses. */
  ghost predicate StoragesStay(db: Database, url: string, keep: Uuid, kept: Storage, after: map<Uuid, Storage>) {
    && keep in after && after[keep] == kept
    && forall id :: id != keep ==>
         && (id in after <==> id in db.storages && !MergedAway(db, url, keep, id))
         && (id in after ==> after[id] == db.storages[id])
  }

  ghost predicate ContextsStay(p: Spelling, cfg: Config, db: Database, url: string, keep: Uuid, name: string,
                               serverId: Option<string>, found: Option<string>, after: Contexts)
  {
    && (forall n :: n in after && n != name ==> n in cfg.contexts && after[n] == cfg.contexts[n])
    && (forall n :: n in cfg.contexts && n != name ==>
          (n !in after <==> ContextGoes(p, cfg, db, url, keep, name, serverId, found, n)))
  }

  lemma OthersStay(p: Spelling, cfg: Config, db: Database, url: string, keep: Uuid, name: string,
                   serverId: Option<string>, found: Option<string>, e: Config)
    requires forall n :: n != name ==>
               && (n in e.contexts <==> n in cfg.contexts
                                        && !(found == Some(n) && Moves(cfg.contexts, name, serverId, found)))
               && (n in e.contexts ==> e.contexts[n] == cfg.contexts[n])
    ensures ContextsStay(p, cfg, db, url, keep, name, serverId, found,
                         ConfigWithout(p, e, Duplicates(db, url, keep)).contexts)
  {
    var gone := Duplicates(db, url, keep);
    assert forall id :: id in gone <==> MergedAway(db, url, keep, id);
    hide Duplicates, MergedAway, Moves;
  }

  /**
    Which storage a login keeps. The configuration's own id comes first, be it that of the context or of
    the one that moved; then the first listed storage of the address; a new id only if there is neither.
    Exactly the other storages of the address go, with exactly their rows and the contexts that name them.
   */
  lemma LoginKeeps(p: Spelling, cfg: Config, db: Database, url: string, name: string, info: LoginInfo,
                   found: Option<string>, existing: Option<Uuid>)
    requires Reads(p) && FoundOther(cfg.contexts, name, info.serverId, found)
    ensures var out := LoggedIn(p, cfg, db, url, name, info, found, existing);
            var sid := LoginId(p, cfg, name, info, found, existing);
            && name in out.config.contexts && out.config.current == Some(name)
            && out.config.contexts[name] == Context(url, info.serverId, Some(sid), info.context)
            && match p.parse(sid)
               case None => out.answer == Err("invalid storage id") && out.db == db
               case Some(keep) =>
                 && out.answer == Ok(sid)
                 && StoragesStay(db, url, keep, Storage(Some(url), info.storage), out.db.storages)
                 && AllRowsStay(db, url, keep, out.db)
                 && ContextsStay(p, cfg, db, url, keep, name, info.serverId, found, out.config.contexts)
  {
    hide Entered, LoginId, Moves, RowsWithout, RowsStay, ConfigWithout, ContextsStay, StoragesStay, Duplicates,
      MergedAway, Reads, FoundOther;
    var entered := Entered(p, cfg, url, name, info, found, existing);
    EnteredIs(p, cfg, url, name, info, found, existing);
    var sid := entered.contexts[name].storageId.value;
    if p.parse(sid).Some? {
      var keep := p.parse(sid).value;
      OthersStay(p, cfg, db, url, keep, name, info.serverId, found, entered);
      NotItself(db, url, keep);
      ContextSurvives(p, entered, name, keep, Duplicates(db, url, keep));
      StorageTableStays(db, url, keep, Storage(Some(url), info.storage));
      TableStays(db, url, keep, db.items);
      TableStays(db, url, keep, db.vaults);
      TableStays(db, url, keep, db.cursors);
      TableStays(db, url, keep, db.pending);
    }
  }

  lemma NotItself(db: Database, url: string, keep: Uuid)
    ensures keep !in Duplicates(db, url, keep)
  {
  }

  lemma StorageTableStays(db: Database, url: string, keep: Uuid, kept: Storage)
    ensures StoragesStay(db, url, keep, kept, (db.storages - Duplicates(db, url, keep))[keep := kept])
  {
  }

  /** With no id of its own and a listed storage of the address, a login loses no row of that storage. */
  lemma FoundStorageIsKept(p: Spelling, cfg: Config, db: Database, url: string, name: string, info: LoginInfo,
                           found: Option<string>, listing: seq<Uuid>, i: nat)
    requires Reads(p) && FoundOther(cfg.contexts, name, info.serverId, found)
    requires OwnId(cfg.contexts, name, info.serverId, found) == None
    requires i < |listing| && listing[i] in db.storages && db.storages[listing[i]].serverUrl == Some(url)
    requires forall j :: 0 <= j < i && listing[j] in db.storages ==> db.storages[listing[j]].serverUrl != Some(url)
    ensures var out := LoggedIn(p, cfg, db, url, name, info, found, FirstWithUrl(db, url, listing));
            && out.answer == Ok(p.format(listing[i]))
            && (forall k :: k in db.items && db.items[k].storage == listing[i] ==>
                  k in out.db.items && out.db.items[k] == db.items[k])
            && (forall k :: k in db.vaults && db.vaults[k].storage == listing[i] ==>
                  k in out.db.vaults && out.db.vaults[k] == db.vaults[k])
            && (forall k :: k in db.cursors && db.cursors[k].storage == listing[i] ==>
                  k in out.db.cursors && out.db.cursors[k] == db.cursors[k])
            && (forall k :: k in db.pending && db.pending[k].storage == listing[i] ==>
                  k in out.db.pending && out.db.pending[k] == db.pending[k])
  {
    FirstIsFound(db, url, listing, i);
    LoginKeeps(p, cfg, db, url, name, info, found, FirstWithUrl(db, url, listing));
    hide LoggedIn, OwnId;
  }

  lemma {:induction false} FirstIsFound(db: Database, url: string, listing: seq<Uuid>, i: nat)
    requires i < |listing| && listing[i] in db.storages && db.storages[listing[i]].serverUrl == Some(url)
    requires forall j :: 0 <= j < i && listing[j] in db.storages ==> db.storages[listing[j]].serverUrl != Some(url)
    ensures FirstWithUrl(db, url, listing) == Some(listing[i])
    decreases |listing|
  {
    if i > 0 {
      assert forall j :: 0 <= j < i - 1 ==> listing[1..][j] == listing[j + 1];
      FirstIsFound(db, url, listing[1..], i - 1);
    }
  }

  /** With no storage of the address in the listing nothing is found. */
  lemma {:induction false} NoneIsFound(db: Database, url: string, listing: seq<Uuid>)
    requires forall j :: 0 <= j < |listing| && listing[j] in db.storages ==>
               db.storages[listing[j]].serverUrl != Some(url)
    ensures FirstWithUrl(db, url, listing) == None
    decreases |listing|
  {
    if listing != [] {
      assert forall j :: 0 <= j < |listing| - 1 ==> listing[1..][j] == listing[j + 1];
      NoneIsFound(db, url, listing[1..]);
    }
  }
}
