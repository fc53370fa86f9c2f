/** One box's pull, on its own database: probe, export, validation, derived zones, import and
    the two bookkeeping writes. */
module Replica {
  import opened Wrappers
  import opened Schema
  import opened Import
  import opened Store
  import opened RoundTrip
  import opened Pull
  import Sync

  /** A database, as the protocol sees a main. */
  function MainOf(db: Db): Sync.Main {
    Sync.Main(db.version, ConfigOf(db), ZonesOf(db))
  }

  lemma ListedCarries(x: Table, rows: seq<Entry>)
    requires Listed(x, rows)
    ensures CarriesRows(rows, DefinitionsOf(x))
  {
  }

  /** An undisturbed export carries the main's configuration and zones. */
  lemma ExportCarries(main: Db, b: Bundle)
    requires Exported(main, b)
    ensures Carries(b, ConfigOf(main)) && CarriesRows(b.rows[Zones], ZonesOf(main)) && DistinctPairs(b.assignments)
    ensures forall key | key in b.settings :: !LocalSettingKey(key)
  {
    hide Listed, CarriesRows, DefinitionsOf, LocalSettingKey;
    forall t: TableName ensures CarriesRows(b.rows[t], DefinitionsOf(main.tables[t])) {
      ListedCarries(main.tables[t], b.rows[t]);
    }
  }

  /** What one cycle meets outside this box's tables: what the probe answered, whether it named
      this box itself, whether the bundle came, and which bookkeeping write succeeds. */
  datatype Luck = Luck(probe: Option<int>, itself: bool, fetched: bool, noted: bool, named: bool)

  ghost predicate FreshBoxes(nonce: string, x: Tables, y: Tables) {
    forall t: TableName :: FreshTable(nonce, x[t]) && FreshTable(nonce, y[t])
  }

  ghost predicate ZonesWritten(db: Db) {
    forall i | i in db.tables[Zones] :: ZoneColumns(db.tables[Zones][i])
  }

  lemma ListedColumns(main: Db, rows: seq<Entry>)
    requires ZonesWritten(main) && Listed(main.tables[Zones], rows)
    ensures forall k | 0 <= k < |rows| :: ZoneColumns(rows[k].row)
  {
  }

  lemma ListedFresh(nonce: string, x: Table, rows: seq<Entry>)
    requires FreshTable(nonce, x) && Listed(x, rows)
    ensures FreshRows(nonce, rows)
  {
  }

  lemma DerivedFresh(nonce: string, rows: seq<Entry>, primaryDNS: string, syncKey: int, out: seq<Entry>)
    requires FreshRows(nonce, rows) && (forall k | 0 <= k < |rows| :: ZoneColumns(rows[k].row))
    requires DerivedRows(rows, primaryDNS, syncKey, out)
    ensures FreshRows(nonce, out)
  {
    forall k | 0 <= k < |out| ensures FreshFor(nonce, out[k].row) {
      assert FreshFor(nonce, rows[k].row) && out[k].row.keys == rows[k].row.keys;
    }
  }

  lemma BundleFresh(nonce: string, mine: Tables, main: Db, b: Bundle, primaryDNS: string, syncKey: int, out: seq<Entry>)
    requires FreshBoxes(nonce, mine, main.tables) && Exported(main, b)
    requires (forall k | 0 <= k < |b.rows[Zones]| :: ZoneColumns(b.rows[Zones][k].row))
             && DerivedRows(b.rows[Zones], primaryDNS, syncKey, out)
    ensures FreshAll(nonce, mine, WithZones(b, out).rows)
  {
    hide Listed, FreshTable, FreshRows, DerivedRows;
    forall t: TableName ensures FreshTable(nonce, mine[t]) && FreshRows(nonce, WithZones(b, out).rows[t]) {
      ListedFresh(nonce, main.tables[t], b.rows[t]);
      if t == Zones {
        DerivedFresh(nonce, b.rows[t], primaryDNS, syncKey, out);
      }
    }
  }

  /** Built-ins through an import, as the protocol sees them. */
  lemma ImportReseeds(x: Table, rows: seq<Entry>, names: seq<string>, y: Table, zones: Table,
                      before: map<int, string>, after: map<int, string>)
    requires TableOk(Zones, x) && RowsOk(Zones, rows) && ZonesApplied(x, rows, names, y) && TableOk(Zones, y)
    requires (forall i :: i in zones <==> i in Ids(rows))
             && forall k | 0 <= k < |rows| && rows[k].id in zones :: zones[rows[k].id].keys == rows[k].row.keys
    requires before == map i | i in x && x[i].kind == Internal && |x[i].keys| == 1 :: x[i].keys[0]
    requires after == map i | i in y && y[i].kind == Internal && |y[i].keys| == 1 :: y[i].keys[0]
    ensures Sync.Reseeds(before, zones, after)
  {
    hide Sync.NamesFree, Reseeded, Evicts, Named;
    forall j | j in before && j !in zones ensures j in after && after[j] == before[j] {
      assert j in Builtins(Zones, x, Ids(rows));
    }
    forall j | j in after ensures j !in zones && forall i | i in zones :: zones[i].keys != [after[j]] {
      BuiltinApart(x, rows, names, y, zones, j);
    }
  }

  lemma BuiltinApart(x: Table, rows: seq<Entry>, names: seq<string>, y: Table, zones: Table, j: int)
    requires RowsOk(Zones, rows) && ZonesApplied(x, rows, names, y) && TableOk(Zones, y) && j in y
             && y[j].kind == Internal
    requires (forall i :: i in zones <==> i in Ids(rows))
             && forall k | 0 <= k < |rows| && rows[k].id in zones :: zones[rows[k].id].keys == rows[k].row.keys
    ensures j !in zones && forall i | i in zones :: zones[i].keys != [y[j].keys[0]]
  {
    hide Reseeded, Evicts, Named;
    forall i | i in zones ensures i != j && zones[i].keys != [y[j].keys[0]] {
      assert i in Ids(rows);
      var k :| 0 <= k < |rows| && rows[k].id == i;
      assert y[i] == Merge(Zones, Prior(x, i), rows[k].row);
      assert y[i].kind == rows[k].row.kind && y[i].keys == rows[k].row.keys;
      assert !Clash(Zones, y[j], y[i]);
      NameClash(y[j], y[i]);
    }
  }

  lemma RulesOwned(db: Db)
    requires Consistent(db)
    ensures var c := ConfigOf(db); forall i | i in c.tables[Rules] :: c.tables[Rules][i].owner in c.tables[Groups]
  {
    forall i | i in db.tables[Rules] ensures db.tables[Rules][i].owner in db.tables[Groups] {
      assert OwnerIn(Rules, db.tables[Rules][i], db.tables);
    }
    forall g | g in db.tables[Groups] ensures db.tables[Groups][g].kind != Internal {
      NotBuiltin(Groups, db.tables[Groups], g);
    }
  }

  /** A database at rest is a sound main. */
  lemma ConsistentIsSound(db: Db)
    requires Consistent(db)
    ensures Sync.Sound(ConfigOf(db))
  {
    RulesOwned(db);
    forall p | p in db.assignments ensures p.1 in DefinitionsOf(db.tables[Lists]) {
      NotBuiltin(Lists, db.tables[Lists], p.1);
    }
  }

  /** The databases of the mains, as the protocol sees them. */
  function MainsOf(dbs: map<string, Db>): map<string, Sync.Main> {
    map p | p in dbs :: MainOf(dbs[p])
  }

  ghost predicate AtRestAll(dbs: map<string, Db>) {
    "" !in dbs && forall p | p in dbs :: Consistent(dbs[p])
  }

  lemma MainsAreSound(dbs: map<string, Db>)
    requires AtRestAll(dbs)
    ensures "" !in MainsOf(dbs) && forall p | p in MainsOf(dbs) :: Sync.Sound(MainsOf(dbs)[p].config)
  {
    hide Consistent, Sync.Sound, ConfigOf;
    forall p | p in dbs ensures Sync.Sound(ConfigOf(dbs[p])) {
      ConsistentIsSound(dbs[p]);
    }
  }

  // --------------------------------------------------------------- the import

  /** Everything the import of a main's undisturbed export needs and gives. */
  ghost predicate Imports(before: Db, main: Db) {
    Sync.Importable(ConfigOf(before), BuiltinsOf(before), ConfigOf(main), ZonesOf(main))
  }

  lemma ExportReady(mine: Db, main: Db, b: Bundle, primaryDNS: string, syncKey: int, out: seq<Entry>, nonce: string)
    requires Consistent(mine) && Consistent(main) && ZonesWritten(main) && FreshBoxes(nonce, mine.tables, main.tables)
             && Exported(main, b)
    requires (forall k | 0 <= k < |b.rows[Zones]| :: ZoneColumns(b.rows[Zones][k].row))
             && DerivedRows(b.rows[Zones], primaryDNS, syncKey, out)
    ensures RowsFit(WithZones(b, out).rows) && RowsOk(Zones, out)
            && FreshAll(nonce, mine.tables, WithZones(b, out).rows)
    ensures Acceptable(b) && Closed(WithZones(b, out)) && !Strands(mine.tables, WithZones(b, out).rows)
            && !NameTaken(mine.tables[Zones], out)
            <==> Imports(mine, main)
  {
    hide Consistent, ZonesWritten, FreshBoxes, RowsOk, Acceptable, Closed, Strands, NameTaken, DerivedRows, FreshAll,
         WithZones, Listed, Carries, CarriesRows, ConfigOf, ZonesOf, BuiltinsOf, Sync.Importable;
    ExportIsWellFormed(main, b);
    ExportCarries(main, b);
    BundleFresh(nonce, mine.tables, main, b, primaryDNS, syncKey, out);
    ImportableIff(mine, b, primaryDNS, syncKey, out, ConfigOf(main), ZonesOf(main));
  }

  lemma BundleLanded(before: Db, main: Db, b: Bundle, primaryDNS: string, syncKey: int, out: seq<Entry>,
                     names: seq<string>, content: seq<(string, Rec)>, after: Db)
    requires Consistent(before) && Consistent(after) && Exported(main, b)
    requires (forall k | 0 <= k < |b.rows[Zones]| :: ZoneColumns(b.rows[Zones][k].row))
             && DerivedRows(b.rows[Zones], primaryDNS, syncKey, out)
    requires RowsFit(WithZones(b, out).rows) && RowsOk(Zones, b.rows[Zones])
             && Applied(before, WithZones(b, out), names, content, after)
    ensures ConfigOf(after) == ConfigOf(main) && Sync.Reseeds(BuiltinsOf(before), ZonesOf(main), BuiltinsOf(after))
  {
    hide Consistent, RowsFit, RowsOk, Exported, Applied, Carries, CarriesRows, DerivedRows, LocalSettingKey, ConfigOf,
         ZonesOf, BuiltinsOf, WithZones, Sync.Reseeds, ZoneColumns;
    ExportCarries(main, b);
    ZonesApart(b, out, ConfigOf(main));
    ImportIsTheStep(before, WithZones(b, out), names, content, after, ConfigOf(main));
    ZonesInApplied(before, b, out, names, content, after);
    ZonesLand(before, main, b.rows[Zones], primaryDNS, syncKey, out, names, after);
  }

  lemma ZonesApart(b: Bundle, out: seq<Entry>, c: Sync.Config)
    requires Carries(b, c)
    ensures Carries(WithZones(b, out), c) && WithZones(b, out).settings == b.settings
  {
    hide CarriesRows;
  }

  lemma ZonesInApplied(before: Db, b: Bundle, out: seq<Entry>, names: seq<string>, content: seq<(string, Rec)>,
      after: Db)
    requires Applied(before, WithZones(b, out), names, content, after)
    ensures ZonesApplied(before.tables[Zones], out, names, after.tables[Zones])
  {
    hide Synced, ZonesApplied, RecordsApplied, SyncedSettings;
  }

  lemma ZonesLand(before: Db, main: Db, rows: seq<Entry>, primaryDNS: string, syncKey: int, out: seq<Entry>,
      names: seq<string>, after: Db)
    requires Consistent(before) && Consistent(after) && RowsOk(Zones, rows) && CarriesRows(rows, ZonesOf(main))
    requires (forall k | 0 <= k < |rows| :: ZoneColumns(rows[k].row)) && DerivedRows(rows, primaryDNS, syncKey, out)
    requires ZonesApplied(before.tables[Zones], out, names, after.tables[Zones])
    ensures Sync.Reseeds(BuiltinsOf(before), ZonesOf(main), BuiltinsOf(after))
  {
    hide Consistent, ZonesApplied, Sync.Reseeds, TableOk, Clash;
    assert TableOk(Zones, before.tables[Zones]) && TableOk(Zones, after.tables[Zones])
        by { ZonesOk(before); ZonesOk(after); }
    DerivedAgain(rows, primaryDNS, syncKey, out);
    forall k | 0 <= k < |out| ensures out[k].row.keys == rows[k].row.keys { }
    ImportReseeds(before.tables[Zones], out, names, after.tables[Zones], ZonesOf(main), BuiltinsOf(before),
        BuiltinsOf(after));
  }

  /** Every zone of the main is here under its id as the replica derives it, local columns apart. */
  ghost predicate ZonesDerived(main: Db, primaryDNS: string, syncKey: int, db: Db)
    requires ZonesWritten(main)
  {
    forall i | i in main.tables[Zones] && main.tables[Zones][i].kind != Internal ::
      && i in db.tables[Zones]
      && Transferred(main.tables[Zones][i], primaryDNS, syncKey, db.tables[Zones][i].(own := main.tables[Zones][i].own))
  }

  lemma ZonesFollow(before: Db, main: Db, b: Bundle, primaryDNS: string, syncKey: int, out: seq<Entry>,
                    names: seq<string>, content: seq<(string, Rec)>, after: Db)
    requires ZonesWritten(main) && Exported(main, b) && Applied(before, WithZones(b, out), names, content, after)
    requires |out| == |b.rows[Zones]|
    requires forall k | 0 <= k < |out| ::
               && ZoneColumns(b.rows[Zones][k].row) && out[k].id == b.rows[Zones][k].id
               && Transferred(b.rows[Zones][k].row, primaryDNS, syncKey, out[k].row)
    ensures ZonesDerived(main, primaryDNS, syncKey, after)
  {
    hide Applied, LocalColumns, WithZones;
    var rows := b.rows[Zones];
    assert Listed(main.tables[Zones], rows);
    forall i | i in main.tables[Zones] && main.tables[Zones][i].kind != Internal
      ensures i in after.tables[Zones] &&
              Transferred(main.tables[Zones][i], primaryDNS, syncKey,
                  after.tables[Zones][i].(own := main.tables[Zones][i].own))
    {
      assert i in Ids(rows);
      var k :| 0 <= k < |rows| && rows[k].id == i;
      ZoneFollows(before, main, b, primaryDNS, syncKey, out, names, content, after, k);
    }
  }

  lemma ZoneFollows(before: Db, main: Db, b: Bundle, primaryDNS: string, syncKey: int, out: seq<Entry>,
                    names: seq<string>, content: seq<(string, Rec)>, after: Db, k: nat)
    requires Listed(main.tables[Zones], b.rows[Zones]) && Applied(before, WithZones(b, out), names, content, after)
    requires k < |out| == |b.rows[Zones]| && ZoneColumns(b.rows[Zones][k].row) && out[k].id == b.rows[Zones][k].id
    requires Transferred(b.rows[Zones][k].row, primaryDNS, syncKey, out[k].row)
    ensures var (i, m) := (out[k].id, b.rows[Zones][k].row);
            && i in main.tables[Zones] && m == main.tables[Zones][i] && i in after.tables[Zones]
            && Transferred(m, primaryDNS, syncKey, after.tables[Zones][i].(own := m.own))
  {
    ListedRow(main.tables[Zones], b.rows[Zones], k);
    assert WithZones(b, out).rows[Zones] == out;
    ImportedRow(before, WithZones(b, out), names, content, after, Zones, k);
    hide Applied, LocalColumns, Listed;
  }

  lemma ZonesOk(db: Db)
    requires Consistent(db)
    ensures TableOk(Zones, db.tables[Zones])
  {
  }

  // -------------------------------------------------------------- the replica

  /** The stored bookkeeping beside the database it is about; `edited` is nobody's column. */
  class Replica {
    const store: SqlStore
    var peer: string
    var applied: Option<int>
    var appliedPeer: string
    ghost var edited: bool

    /** A box that follows nobody, beside any mains at rest, is where the protocol starts. */
    constructor (store: SqlStore, ghost dbs: map<string, Db>)
      requires AtRestAll(dbs)
      ensures this.store == store && peer == "" && applied == None && appliedPeer == "" && !edited
      ensures Sync.Init(Now(MainsOf(dbs)))
    {
      MainsAreSound(dbs);
      this.store, peer, applied, appliedPeer, edited := store, "", None, "", false;
    }

    /** This box beside the mains, between two cycles. */
    ghost function Now(mains: map<string, Sync.Main>): Sync.State
      reads this, store
    {
      Sync.State(mains, peer, applied, appliedPeer, ConfigOf(store.db), BuiltinsOf(store.db), edited, Sync.Idle)
    }

    /** The bundle is fetched, validated, compared with the probe, its zones derived, and
        imported. It goes in exactly when its version is the probed one and the store's
        own condition holds; otherwise the database is untouched. */
    method Take(main: Db, level: int, primaryDNS: string, syncKey: int, nonce: string, now: int) returns (ok: bool)
      requires store.Valid() && Consistent(main) && ZonesWritten(main)
               && FreshBoxes(nonce, store.db.tables, main.tables)
      modifies store
      ensures store.Valid()
      ensures ok <==> level == main.version && Imports(old(store.db), main)
      ensures !ok ==> store.db == old(store.db)
      ensures ok ==>
              && ConfigOf(store.db) == ConfigOf(main)
              && Sync.Reseeds(old(BuiltinsOf(store.db)), ZonesOf(main), BuiltinsOf(store.db))
              && ZonesDerived(main, primaryDNS, syncKey, store.db)
    {
      hide Consistent, ZonesWritten, ZonesDerived, Transferred, FreshBoxes, Imports, RowsFit, RowsOk, Acceptable,
           Closed, Strands, NameTaken, DerivedRows, FreshAll, ConfigOf, ZonesOf, BuiltinsOf, Sync.Reseeds, Listed,
           Applied, LastZone;
      ghost var before := store.db;
      var b := ExportBundle(main);
      var valid := Validate(b);
      if !valid {
        Refused(before, main, b);
        return false;
      }
      if b.version != level {
        return false;
      }
      ListedColumns(main, b.rows[Zones]);
      ExportFits(main, b);
      var zones := DeriveZones(b.rows[Zones], primaryDNS, syncKey);
      ExportReady(before, main, b, primaryDNS, syncKey, zones, nonce);
      var done := store.ImportBundle(WithZones(b, zones), nonce, now);
      if done.Err? {
        return false;
      }
      BundleLanded(before, main, b, primaryDNS, syncKey, zones, store.builtins, store.content, store.db);
      ZonesFollow(before, main, b, primaryDNS, syncKey, zones, store.builtins, store.content, store.db);
      return true;
    }

    /** Follow, or a promotion when p is empty: the peer alone changes, and an edit the books
        would hide is what makes it unsafe. */
    method Point(p: string, ghost mains: map<string, Sync.Main>)
      requires Sync.Inv(Now(mains)) && (p == "" || p in mains) && (p != "" ==> Sync.CanFollow(Now(mains), p))
      modifies this`peer
      ensures peer == p && Sync.Inv(Now(mains)) && Sync.Reaches(old(Now(mains)), Now(mains))
    {
      hide Sync.Reaches, Sync.Inv, Sync.CanFollow, ConfigOf, BuiltinsOf;
      Sync.PointReaches(Now(mains), p);
      peer := p;
    }

    /** This cycle applies something: the probe and the bundle came, at one version, from
        another box, this one is behind, and its database can take the bundle. */
    ghost predicate Applies(main: Db, luck: Luck)
      reads this, store
    {
      && luck.probe == Some(main.version) && !luck.itself && luck.fetched
      && !(applied == Some(main.version) && appliedPeer == peer) && Imports(store.db, main)
    }

    /** PullOnce: an idle cycle forgets what was applied, as far as its writes succeed; one that
        applies its bundle ends with the main's configuration and with every book it could
        write; any other changes nothing. With both writes made the books are level afterwards
        exactly when they were, or it applied. Each cycle whose lost writes are harmless is a
        run of the protocol. The mains hold still for the length of a call. */
    method PullOnce(main: Db, luck: Luck, primaryDNS: string, syncKey: int, nonce: string, now: int,
                    ghost mains: map<string, Sync.Main>)
      requires store.Valid() && ZonesWritten(main) && FreshBoxes(nonce, store.db.tables, main.tables)
      requires Consistent(main) && Sync.Inv(Now(mains)) && (peer != "" ==> mains[peer] == MainOf(main))
      modifies this`applied, this`appliedPeer, this`edited, store
      ensures store.Valid()
      ensures peer == "" ==>
        && store.db == old(store.db) && edited == old(edited)
        && applied == (if luck.noted then None else old(applied))
        && appliedPeer == (if old(applied).Some? && luck.named then "" else old(appliedPeer))
      ensures peer != "" && old(Applies(main, luck)) ==>
        && ConfigOf(store.db) == ConfigOf(main) && ZonesDerived(main, primaryDNS, syncKey, store.db) && !edited
        && applied == (if luck.noted then Some(main.version) else old(applied))
        && appliedPeer == (if luck.named then peer else old(appliedPeer))
      ensures peer != "" && !old(Applies(main, luck)) ==>
        && store.db == old(store.db) && edited == old(edited)
        && applied == old(applied) && appliedPeer == old(appliedPeer)
      ensures peer != "" && luck.noted && luck.named ==>
        (Sync.BooksLevel(Now(mains)) <==> old(Sync.BooksLevel(Now(mains))) || old(Applies(main, luck)))
      ensures peer == "" || !old(Applies(main, luck))
              || Sync.Forgivable(old(Now(mains)), main.version, luck.noted, luck.named) ==>
        Sync.Inv(Now(mains)) && Sync.Reaches(old(Now(mains)), Now(mains))
    {
      hide Sync.Reaches, Sync.BooksRight, Sync.Ahead, Sync.Sound, Sync.FreshDraft, Sync.Reseeds, Sync.Importable,
           Consistent, ZonesWritten, ZonesDerived, FreshBoxes, LastZone, ConfigOf, BuiltinsOf, ZonesOf, Sync.Ended,
           Sync.Forgivable;
      Sync.StaysHere(Now(mains));
      if peer == "" {
        Forget(luck, mains);
        return;
      }
      var known := applied.Some? && appliedPeer == peer;
      if luck.probe.None? {
        return;
      }
      var level := luck.probe.value;
      if luck.itself {
        return;
      }
      if known && applied.value == level {
        return;
      }
      if !luck.fetched {
        return;
      }
      ghost var s := Now(mains);
      var taken := Take(main, level, primaryDNS, syncKey, nonce, now);
      if taken {
        Note(level, luck, s);
      }
    }

    /** The idle cycle's two writes. */
    method Forget(luck: Luck, ghost mains: map<string, Sync.Main>)
      requires Sync.Inv(Now(mains)) && peer == ""
      modifies this`applied, this`appliedPeer
      ensures applied == (if luck.noted then None else old(applied))
      ensures appliedPeer == (if old(applied).Some? && luck.named then "" else old(appliedPeer))
      ensures Sync.Inv(Now(mains)) && Sync.Reaches(old(Now(mains)), Now(mains))
    {
      hide Sync.Reaches, Sync.Inv, ConfigOf, BuiltinsOf;
      Sync.IdleReaches(Now(mains), luck.noted, luck.named);
      if applied.Some? {
        if luck.noted {
          applied := None;
        }
        if luck.named {
          appliedPeer := "";
        }
      }
    }

    /** The bookkeeping after an import, s the state before it. */
    method Note(level: int, luck: Luck, ghost s: Sync.State)
      requires Sync.Inv(s) && s.cycle.Idle? && peer == s.peer != "" && !Sync.BooksLevel(s)
               && level == s.mains[s.peer].version
      requires applied == s.applied && appliedPeer == s.appliedPeer
      requires ConfigOf(store.db) == s.mains[s.peer].config && Sync.CanImport(s)
      requires Sync.Reseeds(s.builtins, s.mains[s.peer].zones, BuiltinsOf(store.db))
      modifies this`applied, this`appliedPeer, this`edited
      ensures !edited && applied == (if luck.noted then Some(level) else old(applied))
      ensures appliedPeer == (if luck.named then peer else old(appliedPeer))
      ensures Sync.Forgivable(s, level, luck.noted, luck.named) ==>
              Sync.Inv(Now(s.mains)) && Sync.Reaches(s, Now(s.mains))
    {
      hide Sync.Reaches, Sync.BooksRight, Sync.Ahead, Sync.Sound, Sync.FreshDraft, Sync.Reseeds, Sync.Importable,
           ConfigOf, BuiltinsOf, Sync.Ended, Sync.Forgivable;
      if Sync.Forgivable(s, level, luck.noted, luck.named) {
        Sync.PullReaches(s, BuiltinsOf(store.db), luck.noted, luck.named);
      }
      edited := false;
      if luck.noted {
        applied := Some(level);
      }
      if luck.named {
        appliedPeer := peer;
      }
      assert Now(s.mains) == Sync.PulledBut(s, BuiltinsOf(store.db), luck.noted, luck.named);
    }
  }

  lemma Refused(mine: Db, main: Db, b: Bundle)
    requires Exported(main, b) && !Acceptable(b)
    ensures !Imports(mine, main)
  {
    hide Acceptable, Closed, Sync.Fit, Sync.NothingStranded, Sync.NamesFree, ConfigOf, BuiltinsOf, Listed, Carries,
         CarriesRows;
    ExportCarries(main, b);
    FitIff(b, [], ConfigOf(main), ZonesOf(main));
  }

  lemma ExportFits(main: Db, b: Bundle)
    requires Consistent(main) && Exported(main, b)
    ensures RowsOk(Zones, b.rows[Zones]) && forall k | 0 <= k < |b.rows[Zones]| :: b.rows[Zones][k].row.kind != Internal
  {
    ExportIsWellFormed(main, b);
    assert RowsOk(Zones, b.rows[Zones]);
  }

  // ------------------------------------------------------ an edit that never arrives

  /** A database with these rows and nothing else. */
  function Holding(x: Tables): Db { Db(x, {}, map[], map[], 0) }

  /** The main of RoundTrip.MovedTo, after its client moved and its second group went. */
  function MovedMain(): Tables {
    Put(Put(Everywhere(map[]), Groups, map[1 := GroupRow("a")]), Clients, map[7 := ClientRow("10.0.0.7", 1)])
  }

  lemma OneRowCarried(id: int, r: Row)
    requires r.kind != Internal && r.own == NO_STATE
    ensures CarriesRows([Entry(id, r)], DefinitionsOf(map[id := r])) && CarriesRows([], DefinitionsOf(map[]))
  {
    IdsOne(Entry(id, r));
  }

  /** RoundTrip.MovedTo is what that main exports. */
  lemma MovedCarried(version: int)
    ensures Carries(Bundle(BUNDLE_FORMAT, version, map[], MovedTo(), []), AfterTheMove())
  {
    var (x, rows) := (MovedMain(), MovedTo());
    OneRowCarried(1, GroupRow("a"));
    OneRowCarried(7, ClientRow("10.0.0.7", 1));
    forall t | t in Sync.CARRIED + {Rules} ensures CarriesRows(rows[t], DefinitionsOf(x[t])) {
      if t == Groups {
        assert rows[t] == [Entry(1, GroupRow("a"))];
      } else if t == Clients {
        assert rows[t] == [Entry(7, ClientRow("10.0.0.7", 1))];
      } else {
        assert rows[t] == [] && x[t] == map[];
      }
    }
  }

  lemma ConfigTable(x: Tables, t: TableName)
    requires t in Sync.CARRIED + {Rules}
    ensures ConfigOf(Holding(x)).tables[t] == DefinitionsOf(x[t])
    ensures ConfigOf(Holding(x)).settings == map[] && ConfigOf(Holding(x)).assignments == {}
  {
  }

  lemma MovedMine()
    ensures var mine := ConfigOf(Holding(MovedFrom()));
            && 7 in mine.tables[Clients] && mine.tables[Clients].Keys == {7} && mine.tables[Clients][7].owner == 2
            && 2 in mine.tables[Groups]
            && mine.tables[Rules] == map[] && mine.tables[Reservations] == map[] && mine.settings == map[]
            && mine.assignments == {}
  {
    hide ConfigOf, Holding;
    var x := MovedFrom();
    ConfigTable(x, Clients);
    ConfigTable(x, Groups);
    ConfigTable(x, Rules);
    ConfigTable(x, Reservations);
    assert x[Clients] == map[7 := ClientRow("10.0.0.7", 2)];
  }

  lemma MovedTheirs()
    ensures var theirs := ConfigOf(Holding(MovedMain()));
            7 in theirs.tables[Clients] && 2 !in theirs.tables[Groups] && theirs.tables[Rules] == map[]
  {
    hide ConfigOf, Holding;
    var x := MovedMain();
    ConfigTable(x, Clients);
    ConfigTable(x, Groups);
    ConfigTable(x, Rules);
  }

  function BeforeTheMove(): Sync.Config { ConfigOf(Holding(MovedFrom())) }

  function AfterTheMove(): (c: Sync.Config)
    ensures Sync.Sound(c)
  {
    MovedTheirs();
    ConfigOf(Holding(MovedMain()))
  }

  lemma MoveStrands(builtins: map<int, string>, zones: Table)
    ensures !Sync.Importable(BeforeTheMove(), builtins, AfterTheMove(), zones)
  {
    hide ConfigOf, Holding, Sync.Fit, Sync.NamesFree;
    MovedMine();
    MovedTheirs();
    assert !Sync.KeptIn(BeforeTheMove(), AfterTheMove(), Clients, Groups);
  }

  /** Before the move the main imports into an empty box. */
  lemma BeforeImports()
    ensures var nothing := Sync.Config(map[], map t | t in Sync.CARRIED + {Rules} :: map[], {});
            Sync.Sound(BeforeTheMove()) && Sync.Importable(nothing, map[], BeforeTheMove(), map[])
  {
    hide ConfigOf, Holding;
    MovedMine();
    var c := BeforeTheMove();
    assert Sync.OwnersFound(c, Clients, Groups);
  }

  /** A replica level with the main before the move is there to be reached. */
  lemma MovedIsReached(peer: string, version: int) returns (s0: Sync.State, s: Sync.State)
    requires peer != ""
    ensures Sync.Init(s0) && Sync.Reaches(s0, s) && Sync.Inv(s) && Sync.BooksLevel(s) && s.cycle.Idle? && s.peer == peer
    ensures s.config == BeforeTheMove()
  {
    hide BeforeTheMove, Sync.BooksRight, Sync.Ahead, Sync.Reaches, Sync.Sound, Sync.Importable, Sync.FreshDraft;
    BeforeImports();
    var nothing := Sync.Config(map[], map t | t in Sync.CARRIED + {Rules} :: map[], {});
    s0 := Sync.State(map[peer := Sync.Main(version, BeforeTheMove(), map[])], "", None, "", nothing, map[], false,
        Sync.Idle);
    assert Sync.Init(s0);
    Sync.InitInv(s0);
    assert Sync.Reseeds(map[], map[], map[]);
    s := Sync.FollowAndPull(s0, peer, map[]);
  }

  /** From any such replica: once the main has written the move, no run of the replica's own
      steps changes its configuration or makes the books level. */
  lemma {:induction false} MovedClientNeverArrives(s: Sync.State, zones: Table, acts: seq<Sync.Action>, s': Sync.State)
    requires Sync.Inv(s) && s.cycle.Idle? && s.peer != "" && Sync.BooksLevel(s) && s.config == BeforeTheMove()
    requires var t := Sync.Do(s, Sync.MainWrite(s.peer, AfterTheMove(), zones));
             Sync.Proper(t) && Sync.OwnRuns(t, acts, s')
    ensures s'.config == s.config && !Sync.BooksLevel(s')
  {
    hide BeforeTheMove, AfterTheMove, Sync.BooksRight, Sync.Ahead, Sync.OwnRuns, Sync.Importable, Sync.Sound,
         Sync.FreshDraft;
    MoveStrands(s.builtins, zones);
    Sync.EditWedges(s, AfterTheMove(), zones, acts, s');
  }
}
