/** What an export and an import make of each other. */
module RoundTrip {
  import opened Wrappers
  import opened Schema
  import opened Import
  import opened Store

  // ------------------------------------------------------------------ export

  /** The rows of one table as a bundle lists them: no built-in zone travels. */
  ghost predicate Listed(x: Table, rows: seq<Entry>) {
    && DistinctIds(rows)
    && (forall i :: i in Ids(rows) <==> i in x && x[i].kind != Internal)
    && (forall k | 0 <= k < |rows| :: rows[k].id in x && rows[k].row == x[rows[k].id])
  }

  /** b is what ExportBundle reads from a database nobody is writing to. */
  ghost predicate Exported(db: Db, b: Bundle) {
    && b.format == BUNDLE_FORMAT && b.version == db.version
    && (forall t: TableName :: Listed(db.tables[t], b.rows[t]))
    && b.settings == (map key | key in db.settings && !LocalSettingKey(key) :: db.settings[key])
    && (forall i, j | 0 <= i < j < |b.assignments| :: b.assignments[i] != b.assignments[j])
    && (set p | p in b.assignments) == db.assignments
  }

  /** One table's part of the export. */
  method ListRows(x: Table) returns (rows: seq<Entry>)
    ensures Listed(x, rows)
  {
    rows := [];
    var all := set i | i in x :: Entry(i, x[i]);
    var todo := all;
    while todo != {}
      invariant todo <= all && DistinctIds(rows)
      invariant forall i :: i in Ids(rows) <==> i in x && x[i].kind != Internal && Entry(i, x[i]) !in todo
      invariant forall k | 0 <= k < |rows| :: rows[k].id in x && rows[k].row == x[rows[k].id]
    {
      var e :| e in todo;
      todo := todo - {e};
      if e.row.kind != Internal {
        AppendRow(rows, e);
        rows := rows + [e];
      }
    }
    forall i | i in x ensures Entry(i, x[i]) in all { }
  }

  lemma AppendRow(rows: seq<Entry>, e: Entry)
    ensures Ids(rows + [e]) == Ids(rows) + {e.id}
    ensures DistinctIds(rows) && e.id !in Ids(rows) ==> DistinctIds(rows + [e])
  {
    var more := rows + [e];
    assert forall k | 0 <= k < |rows| :: more[k] == rows[k];
    assert more[|rows|] == e;
  }

  method ListPairs(pairs: set<(int, int)>) returns (r: seq<(int, int)>)
    ensures forall i, j | 0 <= i < j < |r| :: r[i] != r[j]
    ensures (set p | p in r) == pairs
  {
    r := [];
    var todo := pairs;
    while todo != {}
      invariant todo <= pairs && (set p | p in r) == pairs - todo
      invariant forall i, j | 0 <= i < j < |r| :: r[i] != r[j]
    {
      var p :| p in todo;
      todo := todo - {p};
      assert p !in (set q | q in r);
      ghost var more := r + [p];
      assert (set q | q in more) == (set q | q in r) + {p};
      r := r + [p];
    }
  }

  method ListTables(x: Tables) returns (rows: Rows)
    ensures forall t: TableName :: Listed(x[t], rows[t])
  {
    hide Listed;
    var groups := ListRows(x[Groups]);
    var clients := ListRows(x[Clients]);
    var keys := ListRows(x[TsigKeys]);
    var rules := ListRows(x[Rules]);
    var lists := ListRows(x[Lists]);
    var scopes := ListRows(x[Scopes]);
    var reservations := ListRows(x[Reservations]);
    var zones := ListRows(x[Zones]);
    EveryTable();
    var all := map[Groups := groups, Clients := clients, Lists := lists, Rules := rules, TsigKeys := keys,
                   Zones := zones, Scopes := scopes, Reservations := reservations];
    assert all.Keys == ALL_TABLES;
    return all;
  }

  /** ExportBundle, with no write in between its reads. */
  method ExportBundle(db: Db) returns (b: Bundle)
    ensures Exported(db, b)
  {
    hide Listed;
    var settings := map key | key in db.settings && !LocalSettingKey(key) :: db.settings[key];
    var rows := ListTables(db.tables);
    var pairs := ListPairs(db.assignments);
    return Bundle(BUNDLE_FORMAT, db.version, settings, rows, pairs);
  }

  lemma ListedFits(t: TableName, x: Table, rows: seq<Entry>)
    requires TableOk(t, x) && Listed(x, rows)
    ensures RowsOk(t, rows)
  {
    forall k | 0 <= k < |rows| ensures Shaped(t, rows[k].row) && rows[k].row.kind != Internal {
      assert rows[k].id in Ids(rows);
    }
    forall i, j | 0 <= i < j < |rows| ensures !Clash(t, rows[i].row, rows[j].row) {
      assert !Clash(t, x[rows[i].id], x[rows[j].id]);
    }
  }

  lemma NotBuiltin(t: TableName, x: Table, i: int)
    requires TableOk(t, x) && i in x && t != Zones
    ensures x[i].kind != Internal
  {
    assert Shaped(t, x[i]);
  }

  lemma ListedRow(x: Table, rows: seq<Entry>, k: nat)
    requires Listed(x, rows) && k < |rows|
    ensures rows[k].id in x && rows[k].row == x[rows[k].id]
  {
  }

  lemma ListedId(t: TableName, x: Table, rows: seq<Entry>, i: int)
    requires TableOk(t, x) && t != Zones && Listed(x, rows) && i in x
    ensures i in Ids(rows)
  {
    NotBuiltin(t, x, i);
  }

  lemma OwnerTravels(db: Db, b: Bundle, t: TableName, k: nat)
    requires Consistent(db) && Exported(db, b) && k < |b.rows[t]|
    ensures Parent(t).Some? ==> b.rows[t][k].row.owner in Ids(b.rows[Parent(t).value])
  {
    hide Listed, TableOk, Ids;
    if Parent(t).Some? {
      var p := Parent(t).value;
      ListedRow(db.tables[t], b.rows[t], k);
      var e := b.rows[t][k];
      assert OwnerIn(t, db.tables[t][e.id], db.tables);
      ListedId(p, db.tables[p], b.rows[p], e.row.owner);
    }
  }

  lemma PairTravels(db: Db, b: Bundle, i: nat)
    requires Consistent(db) && Exported(db, b) && i < |b.assignments|
    ensures b.assignments[i].0 in Ids(b.rows[Groups]) && b.assignments[i].1 in Ids(b.rows[Lists])
  {
    var p := b.assignments[i];
    assert p in db.assignments;
    assert Listed(db.tables[Groups], b.rows[Groups]) && Listed(db.tables[Lists], b.rows[Lists]);
    NotBuiltin(Groups, db.tables[Groups], p.0);
    NotBuiltin(Lists, db.tables[Lists], p.1);
  }

  /** Every export of a database at rest can be imported: what an import asks of a
      bundle is what the exporting box's own schema gives. */
  lemma ExportIsWellFormed(db: Db, b: Bundle)
    requires Consistent(db) && Exported(db, b)
    ensures WellFormed(b)
  {
    hide Listed, TableOk, RowsOk;
    forall t: TableName ensures RowsOk(t, b.rows[t]) { ListedFits(t, db.tables[t], b.rows[t]); }
    forall t: TableName, k | 0 <= k < |b.rows[t]|
      ensures Parent(t).Some? ==> b.rows[t][k].row.owner in Ids(b.rows[Parent(t).value])
    {
      OwnerTravels(db, b, t, k);
    }
    forall i | 0 <= i < |b.assignments|
      ensures b.assignments[i].0 in Ids(b.rows[Groups]) && b.assignments[i].1 in Ids(b.rows[Lists])
    {
      PairTravels(db, b, i);
    }
  }

  // ------------------------------------------------------ export after import

  /** A row without the columns each box keeps for itself. */
  function Definition(r: Row): Row {
    r.(own := NO_STATE)
  }

  ghost predicate SameRows(a: seq<Entry>, b: seq<Entry>) {
    && Ids(a) == Ids(b)
    && (forall j, k | 0 <= j < |a| && 0 <= k < |b| && a[j].id == b[k].id ::
        Definition(a[j].row) == Definition(b[k].row))
  }

  /** Bundle rows are where they say, with their definitions; nothing else but
      built-in zones is there. */
  ghost predicate Holds(y: Table, rows: seq<Entry>) {
    && (forall k | 0 <= k < |rows| :: rows[k].id in y && Definition(y[rows[k].id]) == Definition(rows[k].row))
    && (forall i | i in y && i !in Ids(rows) :: y[i].kind == Internal)
  }

  lemma AppliedHolds(before: Db, b: Bundle, names: seq<string>, content: seq<(string, Rec)>, after: Db, t: TableName)
    requires Applied(before, b, names, content, after)
    ensures Holds(after.tables[t], b.rows[t])
  {
    hide RecordsApplied, SyncedSettings;
    if t == Zones {
      ZonesHold(before.tables[Zones], b.rows[Zones], names, after.tables[Zones]);
    } else {
      assert Synced(t, before.tables[t], b.rows[t], after.tables[t]);
    }
  }

  lemma ZonesHold(x: Table, rows: seq<Entry>, names: seq<string>, y: Table)
    requires ZonesApplied(x, rows, names, y)
    ensures Holds(y, rows)
  {
  }

  lemma HeldRowsListed(y: Table, rows: seq<Entry>, listed: seq<Entry>)
    requires Holds(y, rows) && Listed(y, listed)
    requires forall k | 0 <= k < |rows| :: rows[k].row.kind != Internal
    ensures SameRows(listed, rows)
  {
    forall i ensures i in Ids(listed) <==> i in Ids(rows) {
      if i in Ids(rows) {
        var k :| 0 <= k < |rows| && rows[k].id == i;
        assert Definition(y[rows[k].id]) == Definition(rows[k].row);
        assert y[i].kind == rows[k].row.kind;
      }
    }
  }

  /** Exporting what was imported gives the bundle back: the same rows under the same
      ids, the same synced settings, the same assignments. */
  lemma ExportAfterImport(before: Db, b: Bundle, names: seq<string>, content: seq<(string, Rec)>, after: Db, c: Bundle)
    requires WellFormed(b) && Applied(before, b, names, content, after) && Exported(after, c)
    ensures forall t: TableName :: SameRows(c.rows[t], b.rows[t])
    ensures c.settings == map key | key in b.settings && !LocalSettingKey(key) :: b.settings[key]
    ensures (set p | p in c.assignments) == (set p | p in b.assignments)
  {
    hide ZonesApplied, RecordsApplied, Synced, Listed, RowsOk, SameRows, SyncedSettings, LocalSettingKey, Closed;
    forall t: TableName ensures SameRows(c.rows[t], b.rows[t]) {
      TableComesBack(before, b, names, content, after, t, c.rows[t]);
    }
    SettingsComeBack(before.settings, b.settings);
  }

  lemma SettingsComeBack(mine: map<string, string>, theirs: map<string, string>)
    ensures var s := SyncedSettings(mine, theirs);
            (map key | key in s && !LocalSettingKey(key) :: s[key]) ==
            map key | key in theirs && !LocalSettingKey(key) :: theirs[key]
  {
    hide LocalSettingKey;
  }

  lemma TableComesBack(before: Db, b: Bundle, names: seq<string>, content: seq<(string, Rec)>, after: Db,
      t: TableName, listed: seq<Entry>)
    requires RowsOk(t, b.rows[t]) && Applied(before, b, names, content, after) && Listed(after.tables[t], listed)
    ensures SameRows(listed, b.rows[t])
  {
    hide Applied;
    AppliedHolds(before, b, names, content, after, t);
    HeldRowsListed(after.tables[t], b.rows[t], listed);
  }

  /** What is this box's own survives: transfer and refresh state of every row both
      boxes hold (unless the zone is now answered elsewhere), the records of a zone
      that still holds records, and every local setting. */
  lemma LocalStateSurvives(before: Db, b: Bundle, names: seq<string>, content: seq<(string, Rec)>, after: Db,
      t: TableName, k: nat)
    requires Applied(before, b, names, content, after) && k < |b.rows[t]|
    ensures var (id, r) := (b.rows[t][k].id, b.rows[t][k].row);
            id in after.tables[t] && (id in before.tables[t] && before.tables[t][id].kind != Internal ==>
            && (r.kind != AnsweredElsewhere ==> after.tables[t][id].own == before.tables[t][id].own)
            && (r.kind == HoldsRecords && t == Zones ==> Recs(after.records, id) == Recs(before.records, id)))
  {
    if t == Zones {
      assert Recs(after.records, b.rows[t][k].id) == RecordsKept(before.tables[t], before.records, b.rows[t][k]);
    } else {
      assert Synced(t, before.tables[t], b.rows[t], after.tables[t]);
    }
  }

  /** The local columns of row k after an import: those of the row it lands on; of a new row the
      main's creation date (zones, scopes and reservations) and serial (zones); a zone answered
      elsewhere starts its transfers over. */
  ghost predicate LocalColumns(t: TableName, prior: Option<Row>, r: Row, own: Own) {
    var dated := t == Zones || t == Scopes || t == Reservations;
    var elsewhere := r.kind == AnsweredElsewhere;
    && own.created == (if prior.Some? then prior.value.own.created else if dated then r.own.created else 0)
    && own.serial == (if elsewhere then 0 else if prior.Some? then prior.value.own.serial
                      else if t == Zones then r.own.serial else 0)
    && own.refreshed == (if elsewhere || prior.None? then 0 else prior.value.own.refreshed)
    && own.fetched == (if prior.None? then "" else prior.value.own.fetched)
  }

  /** What an import makes of each bundle row, column by column, and of each zone's records: a
      zone keeps them exactly if it was here, as no built-in, and still holds records. */
  lemma ImportedRow(before: Db, b: Bundle, names: seq<string>, content: seq<(string, Rec)>, after: Db,
      t: TableName, k: nat)
    requires Applied(before, b, names, content, after) && k < |b.rows[t]|
    ensures var (id, r) := (b.rows[t][k].id, b.rows[t][k].row);
            var was := id in before.tables[t] && before.tables[t][id].kind != Internal;
            && id in after.tables[t]
            && var y := after.tables[t][id];
            && y.kind == r.kind && y.keys == r.keys && y.owner == r.owner && y.cols == r.cols
            && LocalColumns(t, if was then Some(before.tables[t][id]) else None, r, y.own)
            && (t == Zones ==>
                  Recs(after.records, id) == if was && r.kind == HoldsRecords then Recs(before.records, id) else {})
  {
    hide LocalColumns, SyncedSettings;
    var e := b.rows[t][k];
    RowLanded(before, b, names, content, after, t, k);
    MergedColumns(t, Prior(before.tables[t], e.id), e.row);
  }

  lemma RowLanded(before: Db, b: Bundle, names: seq<string>, content: seq<(string, Rec)>, after: Db,
      t: TableName, k: nat)
    requires Applied(before, b, names, content, after) && k < |b.rows[t]|
    ensures var e := b.rows[t][k];
            && e.id in after.tables[t] && after.tables[t][e.id] == Merge(t, Prior(before.tables[t], e.id), e.row)
            && (t == Zones ==> Recs(after.records, e.id) == RecordsKept(before.tables[t], before.records, e))
  {
    hide Merge, SyncedSettings, BuiltinRecords, Filled, Reseeded, RecordsKept;
    if t != Zones {
      assert Synced(t, before.tables[t], b.rows[t], after.tables[t]);
    }
  }

  lemma MergedColumns(t: TableName, prior: Option<Row>, r: Row)
    ensures var y := Merge(t, prior, r);
            && y.kind == r.kind && y.keys == r.keys && y.owner == r.owner && y.cols == r.cols
            && LocalColumns(t, prior, r, y.own)
  {
  }

  /** Nothing else is left: outside the zones only the bundle's rows; of the zones also the
      built-ins whose ids the bundle does not use, as they were, and those seeded again. */
  lemma NothingElse(before: Db, b: Bundle, names: seq<string>, content: seq<(string, Rec)>, after: Db, t: TableName)
    requires Applied(before, b, names, content, after)
    ensures t != Zones ==> after.tables[t].Keys == Ids(b.rows[t])
    ensures forall i | i in after.tables[Zones] && i !in Ids(b.rows[Zones]) ::
              if i in before.tables[Zones] then
                after.tables[Zones][i] == before.tables[Zones][i] && after.tables[Zones][i].kind == Internal
              else IsBuiltin(names, after.tables[Zones][i]) && Evicts(before.tables[Zones], Ids(b.rows[Zones]))
  {
    hide RecordsApplied, SyncedSettings, IsBuiltin;
    if t != Zones {
      assert Synced(t, before.tables[t], b.rows[t], after.tables[t]);
    }
  }

  /** A built-in whose id the bundle does not use stays where it is. */
  lemma BuiltinsStay(before: Db, b: Bundle, names: seq<string>, content: seq<(string, Rec)>, after: Db, i: int)
    requires Applied(before, b, names, content, after)
    requires i in before.tables[Zones] && before.tables[Zones][i].kind == Internal && i !in Ids(b.rows[Zones])
    ensures i in after.tables[Zones] && after.tables[Zones][i] == before.tables[Zones][i]
    ensures Recs(before.records, i) <= Recs(after.records, i) || |before.tables[Zones][i].keys| != 1
  {
    assert i in Builtins(Zones, before.tables[Zones], Ids(b.rows[Zones]));
  }

  /** No such key is in an export, and every other key of the main is. */
  lemma LocalKeysDoNotTravel(db: Db, b: Bundle, key: string)
    requires Exported(db, b)
    ensures key in b.settings <==> key in db.settings && !StaysHome(key)
    ensures key in b.settings ==> b.settings[key] == db.settings[key]
  {
    StaysHomeIff(key);
  }

  /** Of the settings an import leaves, each such key has this box's value, there or not, and
      every other key the bundle's. */
  lemma LocalSettingsSurvive(mine: map<string, string>, theirs: map<string, string>, key: string)
    ensures var from := if StaysHome(key) then mine else theirs;
            && (key in SyncedSettings(mine, theirs) <==> key in from)
            && (key in from ==> SyncedSettings(mine, theirs)[key] == from[key])
  {
    StaysHomeIff(key);
  }

  /** Through an import each such key keeps this box's value, there or not, and every other
      key takes the bundle's. */
  lemma LocalKeysStay(before: Db, b: Bundle, names: seq<string>, content: seq<(string, Rec)>, after: Db, key: string)
    requires Applied(before, b, names, content, after)
    ensures var from := if StaysHome(key) then before.settings else b.settings;
            (key in after.settings <==> key in from) && (key in from ==> after.settings[key] == from[key])
  {
    hide Synced, ZonesApplied, RecordsApplied, SyncedSettings, StaysHome;
    LocalSettingsSurvive(before.settings, b.settings, key);
  }

  /** A built-in that gave way is back under its name: as one of the bundle's zones, or
      as a built-in at an id past every bundle id. */
  lemma EvictedComesBack(x: Table, rows: seq<Entry>, names: seq<string>, y: Table, i: int, n: nat) returns (j: int)
    requires ZonesApplied(x, rows, names, y)
    requires i in x && x[i].kind == Internal && i in Ids(rows) && n < |names|
    ensures j in y && y[j].keys == [names[n]]
    ensures j in Ids(rows) || j in Builtins(Zones, x, Ids(rows))
            || (y[j].kind == Internal && forall h | h in Ids(rows) :: h < j)
  {
    assert Evicts(x, Ids(rows));
    assert Named(y, names[n]);
    j :| j in y && y[j].keys == [names[n]];
  }

  // ------------------------------------------------------------ second import

  lemma AgainAt(t: TableName, prior: Option<Row>, r: Row)
    ensures Merge(t, Some(Merge(t, prior, r)), r) == Merge(t, prior, r)
  {
  }

  /** Where nothing gives way, rows that are already the bundle's stay as they are. */
  lemma AgainSynced(t: TableName, x: Table, rows: seq<Entry>, y: Table, z: Table)
    requires t != Zones && Synced(t, x, rows, y) && Synced(t, y, rows, z)
    requires forall i | i in y :: y[i].kind != Internal
    ensures z == y
  {
    forall i | i in Ids(rows) ensures i in y && i in z && y[i] == z[i] {
      var k :| 0 <= k < |rows| && rows[k].id == i;
      AgainAt(t, Prior(x, i), rows[k].row);
      assert y[rows[k].id] == Merge(t, Prior(x, i), rows[k].row);
      assert z[rows[k].id] == Merge(t, Prior(y, i), rows[k].row);
    }
    assert Builtins(t, x, Ids(rows)) == {} && Builtins(t, y, Ids(rows)) == {};
  }

  lemma SyncedNotBuiltin(t: TableName, x: Table, rows: seq<Entry>, y: Table)
    requires t != Zones && RowsOk(t, rows) && Synced(t, x, rows, y)
    ensures forall i | i in y :: y[i].kind != Internal
  {
    forall i | i in y ensures y[i].kind != Internal {
      var a := SourceRow(t, x, rows, y, i);
    }
  }

  lemma NothingEvictedAgain(x: Table, rows: seq<Entry>, names: seq<string>, y: Table)
    requires RowsOk(Zones, rows) && ZonesApplied(x, rows, names, y)
    ensures !Evicts(y, Ids(rows))
  {
    forall i | i in Ids(rows) ensures i in y && y[i].kind != Internal {
      var k :| 0 <= k < |rows| && rows[k].id == i;
      assert y[rows[k].id].kind == rows[k].row.kind;
    }
  }

  lemma AgainZones(x: Table, rows: seq<Entry>, names: seq<string>, y: Table, z: Table)
    requires RowsOk(Zones, rows) && ZonesApplied(x, rows, names, y) && ZonesApplied(y, rows, names, z)
    ensures z == y
  {
    NothingEvictedAgain(x, rows, names, y);
    ZonesHold(x, rows, names, y);
    forall i | i in Ids(rows) ensures i in y && i in z && y[i] == z[i] {
      var k :| 0 <= k < |rows| && rows[k].id == i;
      AgainAt(Zones, Prior(x, i), rows[k].row);
      assert y[rows[k].id] == Merge(Zones, Prior(x, i), rows[k].row);
      assert z[rows[k].id] == Merge(Zones, Prior(y, i), rows[k].row);
    }
    forall i | i in y && i !in Ids(rows) ensures i in z && z[i] == y[i] {
      assert i in Builtins(Zones, y, Ids(rows));
    }
    forall i | i in z && i !in Ids(rows) ensures i in y {
      assert i in Builtins(Zones, y, Ids(rows));
    }
  }

  lemma AgainRecords(before: Db, rows: seq<Entry>, names: seq<string>, content: seq<(string, Rec)>, mid: Db,
      after: Db, i: int)
    requires RowsOk(Zones, rows) && ZonesApplied(before.tables[Zones], rows, names, mid.tables[Zones])
    requires RecordsApplied(before, rows, content, mid.tables[Zones], mid.records)
    requires RecordsApplied(mid, rows, content, mid.tables[Zones], after.records)
    ensures Recs(after.records, i) == Recs(mid.records, i)
  {
    var y := mid.tables[Zones];
    NothingEvictedAgain(before.tables[Zones], rows, names, y);
    ZonesHold(before.tables[Zones], rows, names, y);
    if i in Ids(rows) {
      var k :| 0 <= k < |rows| && rows[k].id == i;
      assert Recs(mid.records, rows[k].id) == RecordsKept(before.tables[Zones], before.records, rows[k]);
      assert Recs(after.records, rows[k].id) == RecordsKept(y, mid.records, rows[k]);
      assert y[rows[k].id].kind == rows[k].row.kind;
    } else if i in y {
      assert i in Builtins(Zones, y, Ids(rows));
    }
  }

  ghost predicate SameBut(a: Db, b: Db) {
    && a.tables == b.tables && a.assignments == b.assignments && a.settings == b.settings
    && (forall i :: Recs(a.records, i) == Recs(b.records, i))
  }

  /** Importing the same bundle again evicts nothing and changes only config_version. */
  lemma SecondImport(before: Db, b: Bundle, names: seq<string>, content: seq<(string, Rec)>, mid: Db, after: Db)
    requires WellFormed(b) && Applied(before, b, names, content, mid) && Applied(mid, b, names, content, after)
    ensures !Evicts(mid.tables[Zones], Ids(b.rows[Zones]))
    ensures SameBut(mid, after) && after.version == mid.version + 1
  {
    hide Synced, ZonesApplied, RecordsApplied, RowsOk, Closed, SyncedSettings;
    NothingEvictedAgain(before.tables[Zones], b.rows[Zones], names, mid.tables[Zones]);
    AgainTables(before, b, names, content, mid, after);
    forall i ensures Recs(after.records, i) == Recs(mid.records, i) {
      AgainRecords(before, b.rows[Zones], names, content, mid, after, i);
    }
    AgainSettings(before.settings, b.settings);
  }

  lemma AgainTables(before: Db, b: Bundle, names: seq<string>, content: seq<(string, Rec)>, mid: Db, after: Db)
    requires RowsFit(b.rows) && Applied(before, b, names, content, mid) && Applied(mid, b, names, content, after)
    ensures after.tables == mid.tables
  {
    hide Synced, ZonesApplied, RecordsApplied, RowsOk, SyncedSettings;
    forall t: TableName ensures after.tables[t] == mid.tables[t] {
      if t == Zones {
        AgainZones(before.tables[t], b.rows[t], names, mid.tables[t], after.tables[t]);
      } else {
        SyncedNotBuiltin(t, before.tables[t], b.rows[t], mid.tables[t]);
        AgainSynced(t, before.tables[t], b.rows[t], mid.tables[t], after.tables[t]);
      }
    }
  }

  lemma AgainSettings(mine: map<string, string>, theirs: map<string, string>)
    ensures SyncedSettings(SyncedSettings(mine, theirs), theirs) == SyncedSettings(mine, theirs)
  {
  }

  /** ... and it goes through: nothing is stranded or named twice after an import. */
  lemma SecondImportGoesThrough(before: Db, b: Bundle, names: seq<string>, content: seq<(string, Rec)>, mid: Db)
    requires WellFormed(b) && Applied(before, b, names, content, mid) && Consistent(mid)
    ensures !Strands(mid.tables, b.rows) && !NameTaken(mid.tables[Zones], b.rows[Zones])
  {
    forall c: TableName | Parent(c).Some?
      ensures !StrandsIn(mid.tables[c], Ids(b.rows[c]), Ids(b.rows[Parent(c).value]))
    {
      NoneStranded(before, b, mid, c);
    }
    NameStillFree(before.tables[Zones], b.rows[Zones], names, mid.tables[Zones]);
  }

  lemma NoneStranded(before: Db, b: Bundle, mid: Db, c: TableName)
    requires WellFormed(b) && Parent(c).Some? && Synced(c, before.tables[c], b.rows[c], mid.tables[c])
    ensures !StrandsIn(mid.tables[c], Ids(b.rows[c]), Ids(b.rows[Parent(c).value]))
  {
    forall i | i in mid.tables[c] && i in Ids(b.rows[c])
      ensures mid.tables[c][i].owner in Ids(b.rows[Parent(c).value])
    {
      var a := SourceRow(c, before.tables[c], b.rows[c], mid.tables[c], i);
      assert OwnersAt(b.rows, c);
    }
  }

  lemma NameStillFree(x: Table, rows: seq<Entry>, names: seq<string>, y: Table)
    requires RowsOk(Zones, rows) && ZonesApplied(x, rows, names, y) && TableOk(Zones, y)
    ensures !NameTaken(y, rows)
  {
    forall j, k | j in y && 0 <= k < |rows| && y[j].kind == Internal && j !in Ids(rows)
      ensures !Clash(Zones, y[j], rows[k].row)
    {
      assert rows[k].id in Ids(rows) && y[rows[k].id].keys == rows[k].row.keys;
      assert !Clash(Zones, y[j], y[rows[k].id]);
    }
  }

  // ------------------------------------------------------------------ wedges

  function GroupRow(name: string): Row { Row(NotAZone, [name], 0, [], NO_STATE) }

  function ClientRow(matcher: string, group: int): Row { Row(NotAZone, [matcher], group, [], NO_STATE) }

  function ZoneRow(kind: Kind, name: string): Row { Row(kind, [name], 0, [], NO_STATE) }

  lemma IdsOne(e: Entry)
    ensures Ids([e]) == {e.id} && Ids([]) == {}
  {
    assert [e][0] == e;
    assert e.id in Ids([e]);
  }

  lemma OneRowFits(t: TableName, e: Entry)
    requires Shaped(t, e.row) && e.row.kind != Internal
    ensures RowsOk(t, [e]) && RowsOk(t, [])
  {
  }

  /** Two groups, and a client in the second. */
  function MovedFrom(): Tables {
    Put(Put(Everywhere(map[]), Groups, map[1 := GroupRow("a"), 2 := GroupRow("b")]), Clients,
        map[7 := ClientRow("10.0.0.7", 2)])
  }

  /** The main has since moved the client to the first group and dropped the second. */
  function MovedTo(): Rows {
    Everywhere([])[Groups := [Entry(1, GroupRow("a"))]][Clients := [Entry(7, ClientRow("10.0.0.7", 1))]]
  }

  lemma MovedFromRests(t: TableName)
    ensures TableOk(t, MovedFrom()[t])
    ensures forall i | i in MovedFrom()[t] :: OwnerIn(t, MovedFrom()[t][i], MovedFrom())
  {
    var x := MovedFrom();
    if t == Groups {
      assert x[t] == map[1 := GroupRow("a"), 2 := GroupRow("b")];
    } else if t == Clients {
      assert x[t] == map[7 := ClientRow("10.0.0.7", 2)];
    } else {
      assert x[t] == map[];
    }
  }

  lemma MovedToFits(t: TableName)
    ensures RowsOk(t, MovedTo()[t])
    ensures OwnersAt(MovedTo(), t)
  {
    var rows := MovedTo();
    IdsOne(Entry(1, GroupRow("a")));
    assert rows[Groups] == [Entry(1, GroupRow("a"))];
    if t == Groups {
      OneRowFits(t, Entry(1, GroupRow("a")));
    } else if t == Clients {
      assert rows[t] == [Entry(7, ClientRow("10.0.0.7", 1))];
      OneRowFits(t, Entry(7, ClientRow("10.0.0.7", 1)));
    } else {
      assert rows[t] == [];
    }
  }

  lemma StrandedAt(x: Tables, rows: Rows, c: TableName, p: TableName)
    requires Parent(c) == Some(p) && StrandsIn(x[c], Ids(rows[c]), Ids(rows[p]))
    ensures Strands(x, rows)
  {
    assert StrandsAt(x, rows, p);
  }

  /** The prune deletes the group while the client still names it: an ordinary edit on
      the main that every later pull of it fails on. */
  lemma MovedClientWedges(version: int)
    ensures Consistent(Db(MovedFrom(), {}, map[], map[], version))
    ensures WellFormed(Bundle(BUNDLE_FORMAT, version, map[], MovedTo(), []))
    ensures Strands(MovedFrom(), MovedTo())
  {
    hide RowsOk, TableOk, MovedFrom, MovedTo, OwnersAt, Strands, OwnerIn;
    forall t: TableName { MovedFromRests(t); }
    forall t: TableName { MovedToFits(t); }
    MovedStrands();
  }

  lemma MovedStrands()
    ensures Strands(MovedFrom(), MovedTo())
  {
    var x, rows := MovedFrom(), MovedTo();
    assert rows[Groups] == [Entry(1, GroupRow("a"))] && rows[Clients] == [Entry(7, ClientRow("10.0.0.7", 1))];
    IdsOne(rows[Groups][0]);
    IdsOne(rows[Clients][0]);
    assert 7 in x[Clients] && x[Clients][7].owner == 2;
    StrandedAt(x, rows, Clients, Groups);
  }

  function SeededBox(): Table { map[1 := ZoneRow(Internal, "localhost")] }

  function OwnLocalhost(): seq<Entry> { [Entry(30, ZoneRow(HoldsRecords, "localhost"))] }

  /** A main whose user made a zone of a built-in's name before built-ins were seeded:
      unless the ids happen to meet, the replica's built-in holds the name. */
  lemma OwnLocalhostWedges()
    ensures TableOk(Zones, SeededBox()) && RowsOk(Zones, OwnLocalhost())
    ensures NameTaken(SeededBox(), OwnLocalhost())
  {
    var x, rows := SeededBox(), OwnLocalhost();
    IdsOne(rows[0]);
    OneRowFits(Zones, rows[0]);
    assert 1 in x && 1 !in Ids(rows) && x[1].keys[0] == rows[0].row.keys[0];
    assert Clash(Zones, x[1], rows[0].row);
  }
}
