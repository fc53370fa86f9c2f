/** What a replica does with a bundle on its way from the main to the store, and what
    the store's import means for the protocol. */
module Pull {
  import opened Wrappers
  import opened Schema
  import opened Import
  import opened Store
  import opened RoundTrip
  import Names
  import Sync

  // ---------------------------------------------------------------- validate

  /** A zone's owner column is its tsig_key_id, 0 for none. */
  ghost predicate ZoneFine(r: Row, keys: set<int>) {
    r.kind != Internal && (r.owner != 0 ==> r.owner in keys)
  }

  ghost predicate Acceptable(b: Bundle) {
    && b.format == BUNDLE_FORMAT
    && OwnersAt(b.rows, Clients) && OwnersAt(b.rows, Rules)
    && (forall i | 0 <= i < |b.assignments| :: b.assignments[i].0 in Ids(b.rows[Groups]))
    && (forall k | 0 <= k < |b.rows[Zones]| :: ZoneFine(b.rows[Zones][k].row, Ids(b.rows[TsigKeys])))
    && (forall key | key in b.settings :: !LocalSettingKey(key))
  }

  method CollectIds(rows: seq<Entry>) returns (ids: set<int>)
    ensures ids == Ids(rows)
  {
    ids := {};
    for n := 0 to |rows|
      invariant ids == Ids(rows[..n])
    {
      assert rows[..n + 1] == rows[..n] + [rows[n]];
      AppendRow(rows[..n], rows[n]);
      ids := ids + {rows[n].id};
    }
    assert rows[..|rows|] == rows;
  }

  method AllOwned(rows: seq<Entry>, ids: set<int>) returns (ok: bool)
    ensures ok <==> forall k | 0 <= k < |rows| :: rows[k].row.owner in ids
  {
    for n := 0 to |rows|
      invariant forall k | 0 <= k < n :: rows[k].row.owner in ids
    {
      if rows[n].row.owner !in ids {
        return false;
      }
    }
    return true;
  }

  method AllGrouped(pairs: seq<(int, int)>, ids: set<int>) returns (ok: bool)
    ensures ok <==> forall i | 0 <= i < |pairs| :: pairs[i].0 in ids
  {
    for n := 0 to |pairs|
      invariant forall i | 0 <= i < n :: pairs[i].0 in ids
    {
      if pairs[n].0 !in ids {
        return false;
      }
    }
    return true;
  }

  method AllZonesFine(rows: seq<Entry>, keys: set<int>) returns (ok: bool)
    ensures ok <==> forall k | 0 <= k < |rows| :: ZoneFine(rows[k].row, keys)
  {
    for n := 0 to |rows|
      invariant forall k | 0 <= k < n :: ZoneFine(rows[k].row, keys)
    {
      var z := rows[n].row;
      if z.kind == Internal {
        return false;
      }
      if z.owner != 0 && z.owner !in keys {
        return false;
      }
    }
    return true;
  }

  method NoLocalKeys(settings: map<string, string>) returns (ok: bool)
    ensures ok <==> forall key | key in settings :: !LocalSettingKey(key)
  {
    var todo := settings.Keys;
    while todo != {}
      invariant todo <= settings.Keys
      invariant forall key | key in settings && key !in todo :: !LocalSettingKey(key)
    {
      var key :| key in todo;
      if LocalSettingKey(key) {
        return false;
      }
      todo := todo - {key};
    }
    return true;
  }

  /** Validate. */
  method Validate(b: Bundle) returns (ok: bool)
    ensures ok <==> Acceptable(b)
  {
    if b.format != BUNDLE_FORMAT {
      return false;
    }
    var groups := CollectIds(b.rows[Groups]);
    var keys := CollectIds(b.rows[TsigKeys]);
    var clients := AllOwned(b.rows[Clients], groups);
    var rules := AllOwned(b.rows[Rules], groups);
    var lists := AllGrouped(b.assignments, groups);
    var zones := AllZonesFine(b.rows[Zones], keys);
    var settings := NoLocalKeys(b.settings);
    return clients && rules && lists && zones && settings;
  }

  /** A bundle of another format than 1, or one that carries a key which stays home, is refused. */
  lemma LocalKeyRefused(b: Bundle, key: string)
    requires b.format != 1 || (key in b.settings && StaysHome(key))
    ensures !Acceptable(b)
  {
    StaysHomeIff(key);
  }

  /** What Validate leaves to the import's foreign keys: a reservation's scope, and the
      lists of the assignments (which a bundle nests inside the lists themselves). */
  lemma ValidateLeaves(b: Bundle)
    requires Acceptable(b)
    ensures Closed(b) <==> (
      && OwnersAt(b.rows, Reservations)
      && (forall i, j | 0 <= i < j < |b.assignments| :: b.assignments[i] != b.assignments[j])
      && (forall i | 0 <= i < |b.assignments| :: b.assignments[i].1 in Ids(b.rows[Lists])))
  {
    if OwnersAt(b.rows, Reservations) {
      forall t: TableName ensures OwnersAt(b.rows, t) {
        match t
        case Clients =>
        case Rules =>
        case Reservations =>
        case _ =>
      }
    }
  }

  // ------------------------------------------------------------ derived zones

  const TYPE := 0
  const PRIMARIES := 1

  predicate ZoneColumns(r: Row) { |r.cols| > PRIMARIES }

  predicate IsType(r: Row, text: string)
    requires ZoneColumns(r)
  {
    Names.Lower(r.cols[TYPE]) == text
  }

  /** A main's primary is this box's secondary of it; every other zone names its own
      upstream already. */
  function Derived(r: Row, primaryDNS: string, syncKey: int): Row
    requires ZoneColumns(r)
  {
    if IsType(r, "primary") then r.(cols := r.cols[TYPE := "secondary"][PRIMARIES := primaryDNS], owner := syncKey)
        else r
  }

  ghost predicate DerivedRows(rows: seq<Entry>, primaryDNS: string, syncKey: int, out: seq<Entry>)
    requires forall k | 0 <= k < |rows| :: ZoneColumns(rows[k].row)
  {
    |out| == |rows| &&
    forall k | 0 <= k < |rows| :: out[k].id == rows[k].id && out[k].row == Derived(rows[k].row, primaryDNS, syncKey)
  }

  /** What becomes of one zone: a primary, however its type is spelled, is transferred from the
      main under the sync key and is otherwise the main's; any other is carried as it is. */
  ghost predicate Transferred(r: Row, primaryDNS: string, syncKey: int, d: Row)
    requires ZoneColumns(r)
  {
    if Names.Lower(r.cols[0]) == "primary" then
      && d.kind == r.kind && d.keys == r.keys && d.own == r.own && d.owner == syncKey
      && |d.cols| == |r.cols| && d.cols[0] == "secondary" && d.cols[1] == primaryDNS
      && forall c | 2 <= c < |r.cols| :: d.cols[c] == r.cols[c]
    else d == r
  }

  /** DeriveZones, on the zones a valid bundle carries. */
  method DeriveZones(rows: seq<Entry>, primaryDNS: string, syncKey: int) returns (out: seq<Entry>)
    requires forall k | 0 <= k < |rows| :: ZoneColumns(rows[k].row)
    ensures (forall k | 0 <= k < |rows| :: rows[k].row.kind != Internal) ==>
            && |out| == |rows|
            && forall k | 0 <= k < |rows| ::
                 out[k].id == rows[k].id && Transferred(rows[k].row, primaryDNS, syncKey, out[k].row)
    ensures (forall k | 0 <= k < |rows| :: rows[k].row.kind != Internal) ==> DerivedRows(rows, primaryDNS, syncKey, out)
    ensures forall k | 0 <= k < |out| ::
            ZoneColumns(out[k].row) && out[k].row.kind != Internal && !IsType(out[k].row, "primary")
  {
    LowerSecondary();
    out := [];
    for n := 0 to |rows|
      invariant forall k | 0 <= k < |out| ::
                ZoneColumns(out[k].row) && out[k].row.kind != Internal && !IsType(out[k].row, "primary")
      invariant (forall k | 0 <= k < n :: rows[k].row.kind != Internal) ==>
                DerivedRows(rows[..n], primaryDNS, syncKey, out)
    {
      var z := rows[n].row;
      if z.kind != Internal {
        out := out + [Entry(rows[n].id, Derived(z, primaryDNS, syncKey))];
      }
    }
    assert rows[..|rows|] == rows;
  }

  lemma LowerSecondary()
    ensures Names.Lower("secondary") != "primary"
  {
    assert |Names.Lower("secondary")| == 9;
  }

  /** Deriving is done once: doing it again changes nothing, and ids and unique keys are
      the main's, so a derived bundle imports like the one it came from. */
  lemma DerivedAgain(rows: seq<Entry>, primaryDNS: string, syncKey: int, out: seq<Entry>)
    requires forall k | 0 <= k < |rows| :: ZoneColumns(rows[k].row)
    requires RowsOk(Zones, rows) && DerivedRows(rows, primaryDNS, syncKey, out)
    ensures RowsOk(Zones, out) && Ids(out) == Ids(rows)
    ensures forall k | 0 <= k < |out| ::
            ZoneColumns(out[k].row) && Derived(out[k].row, primaryDNS, syncKey) == out[k].row
  {
    LowerSecondary();
    forall i, j | 0 <= i < j < |out| ensures !Clash(Zones, out[i].row, out[j].row) {
      assert !Clash(Zones, rows[i].row, rows[j].row);
    }
    assert forall k | 0 <= k < |out| :: out[k].id == rows[k].id;
    assert forall k | 0 <= k < |rows| :: out[k].id == rows[k].id;
  }

  // ------------------------------------------------- the import, as a protocol step

  /** A database's synced configuration, as the protocol sees it. */
  function ConfigOf(db: Db): Sync.Config {
    Sync.Config(map key | key in db.settings && !LocalSettingKey(key) :: db.settings[key],
                map t | t in Sync.CARRIED + {Rules} :: DefinitionsOf(db.tables[t]),
                db.assignments)
  }

  function DefinitionsOf(x: Table): Table {
    map i | i in x && x[i].kind != Internal :: Definition(x[i])
  }

  /** The same configuration, read off a bundle. */
  ghost predicate Carries(b: Bundle, c: Sync.Config) {
    && c.settings == b.settings && c.assignments == (set p | p in b.assignments)
    && forall t | t in c.tables :: CarriesRows(b.rows[t], c.tables[t])
  }

  ghost predicate CarriesRows(rows: seq<Entry>, x: Table) {
    && (forall i :: i in x <==> i in Ids(rows))
    && (forall k | 0 <= k < |rows| && rows[k].id in x :: x[rows[k].id] == Definition(rows[k].row))
  }

  /** The zones a bundle takes from a database, and the built-ins it leaves there. */
  function ZonesOf(db: Db): Table { DefinitionsOf(db.tables[Zones]) }

  function BuiltinsOf(db: Db): map<int, string> {
    map i | i in db.tables[Zones] && db.tables[Zones][i].kind == Internal && |db.tables[Zones][i].keys| == 1 ::
      db.tables[Zones][i].keys[0]
  }

  lemma CarriedAt(b: Bundle, c: Sync.Config, t: TableName)
    requires Carries(b, c) && t in Sync.CARRIED + {Rules}
    ensures CarriesRows(b.rows[t], c.tables[t]) && c.tables[t].Keys == Ids(b.rows[t])
  {
    assert CarriesRows(b.rows[t], c.tables[t]);
    forall i ensures i in c.tables[t].Keys <==> i in Ids(b.rows[t]) { }
  }

  lemma OwnersInRows(rows: seq<Entry>, x: Table, parents: set<int>)
    requires CarriesRows(rows, x)
    ensures (forall k | 0 <= k < |rows| :: rows[k].row.owner in parents) <==> forall i | i in x :: x[i].owner in parents
  {
    assert forall k | 0 <= k < |rows| :: rows[k].id in x && x[rows[k].id].owner == rows[k].row.owner;
    forall i | i in x && forall k | 0 <= k < |rows| :: rows[k].row.owner in parents ensures x[i].owner in parents {
      assert i in Ids(rows);
      var k :| 0 <= k < |rows| && rows[k].id == i;
    }
  }

  lemma OwnersCarried(b: Bundle, c: Sync.Config, t: TableName, p: TableName)
    requires Carries(b, c) && Parent(t) == Some(p)
    ensures OwnersAt(b.rows, t) <==> Sync.OwnersFound(c, t, p)
  {
    hide CarriesRows, Carries, Ids;
    CarriedAt(b, c, t);
    CarriedAt(b, c, p);
    OwnersInRows(b.rows[t], c.tables[t], Ids(b.rows[p]));
  }

  lemma ZonesFineCarried(b: Bundle, c: Sync.Config, zones: Table)
    requires Carries(b, c) && CarriesRows(b.rows[Zones], zones)
    ensures (forall k | 0 <= k < |b.rows[Zones]| :: ZoneFine(b.rows[Zones][k].row, Ids(b.rows[TsigKeys]))) <==>
            forall i | i in zones :: zones[i].kind != Internal
                && (zones[i].owner != 0 ==> zones[i].owner in c.tables[TsigKeys])
  {
    var rows := b.rows[Zones];
    assert CarriesRows(b.rows[TsigKeys], c.tables[TsigKeys]);
    forall i | i in zones ensures exists k | 0 <= k < |rows| :: rows[k].id == i && zones[i] == Definition(rows[k].row) {
      assert i in Ids(rows);
      var k :| 0 <= k < |rows| && rows[k].id == i;
    }
    assert forall k | 0 <= k < |rows| :: rows[k].id in zones && zones[rows[k].id] == Definition(rows[k].row);
  }

  predicate DistinctPairs(pairs: seq<(int, int)>) {
    forall i, j | 0 <= i < j < |pairs| :: pairs[i] != pairs[j]
  }

  lemma PairsCarried(b: Bundle, c: Sync.Config)
    requires Carries(b, c) && DistinctPairs(b.assignments)
    ensures PairsListed(b) <==> forall p | p in c.assignments :: p.0 in c.tables[Groups] && p.1 in c.tables[Lists]
  {
    CarriedAt(b, c, Groups);
    CarriedAt(b, c, Lists);
    var (groups, lists) := (Ids(b.rows[Groups]), Ids(b.rows[Lists]));
    PairsIn(b.assignments, groups, lists);
    assert c.assignments == set p | p in b.assignments;
    hide CarriesRows, Carries, Ids;
  }

  lemma PairsIn(pairs: seq<(int, int)>, groups: set<int>, lists: set<int>)
    ensures (forall i | 0 <= i < |pairs| :: pairs[i].0 in groups && pairs[i].1 in lists) <==>
            forall p | p in (set q | q in pairs) :: p.0 in groups && p.1 in lists
  {
    assert forall i | 0 <= i < |pairs| :: pairs[i] in (set q | q in pairs);
  }

  /** The bundle as the replica imports it, its zones derived. */
  function WithZones(b: Bundle, out: seq<Entry>): (r: Bundle)
    ensures forall t: TableName | t != Zones :: r.rows[t] == b.rows[t]
  {
    b.(rows := b.rows[Zones := out])
  }

  /** What Validate and the import's foreign keys ask of a bundle, as the protocol says it. */
  lemma FitIff(b: Bundle, out: seq<Entry>, c: Sync.Config, zones: Table)
    requires Carries(b, c) && CarriesRows(b.rows[Zones], zones) && DistinctPairs(b.assignments)
             && b.format == BUNDLE_FORMAT
    ensures Acceptable(b) && Closed(WithZones(b, out)) <==> Sync.Fit(c, zones)
  {
    hide OwnersAt, ZoneFine, Sync.OwnersFound, CarriesRows, Ids, Closed, WithZones, DistinctPairs, LocalSettingKey;
    OwnersCarried(b, c, Clients, Groups);
    OwnersCarried(b, c, Rules, Groups);
    OwnersCarried(b, c, Reservations, Scopes);
    ZonesFineCarried(b, c, zones);
    PairsCarried(b, c);
    ClosedParts(b, out);
  }

  lemma ClosedParts(b: Bundle, out: seq<Entry>)
    ensures Closed(WithZones(b, out)) <==>
            OwnersAt(b.rows, Clients) && OwnersAt(b.rows, Rules) && OwnersAt(b.rows, Reservations) && PairsListed(b)
  {
    var r := WithZones(b, out);
    forall t: TableName ensures OwnersAt(r.rows, t) <==> OwnersAt(b.rows, t) {
      OwnersSame(b, out, t);
    }
    if OwnersAt(b.rows, Clients) && OwnersAt(b.rows, Rules) && OwnersAt(b.rows, Reservations) {
      forall t: TableName ensures OwnersAt(b.rows, t) {
        match t
        case Clients =>
        case Rules =>
        case Reservations =>
        case _ =>
      }
    }
  }

  lemma OwnersSame(b: Bundle, out: seq<Entry>, t: TableName)
    ensures OwnersAt(WithZones(b, out).rows, t) <==> OwnersAt(b.rows, t)
  {
  }

  lemma StrandedRows(t: TableName, x: Table, ids: set<int>, parents: set<int>)
    requires TableOk(t, x) && t != Zones
    ensures DefinitionsOf(x).Keys == x.Keys
    ensures !StrandsIn(x, ids, parents) <==>
            forall i | i in DefinitionsOf(x) && i in ids :: DefinitionsOf(x)[i].owner in parents
  {
    assert forall i | i in x :: Shaped(t, x[i]);
    assert forall i | i in x :: i in DefinitionsOf(x);
    assert forall i | i in x :: DefinitionsOf(x)[i].owner == x[i].owner;
  }

  lemma StrandedIn(db: Db, b: Bundle, c: Sync.Config, t: TableName, p: TableName)
    requires TableOk(t, db.tables[t]) && Carries(b, c) && Parent(t) == Some(p)
    ensures !StrandsIn(db.tables[t], Ids(b.rows[t]), Ids(b.rows[p])) <==> Sync.KeptIn(ConfigOf(db), c, t, p)
  {
    CarriedAt(b, c, t);
    CarriedAt(b, c, p);
    StrandedRows(t, db.tables[t], Ids(b.rows[t]), Ids(b.rows[p]));
    hide CarriesRows, Carries, Ids, DefinitionsOf, StrandsIn, TableOk;
  }

  lemma StrandedIff(db: Db, b: Bundle, out: seq<Entry>, c: Sync.Config)
    requires Consistent(db) && Carries(b, c)
    ensures !Strands(db.tables, WithZones(b, out).rows) <==> Sync.NothingStranded(ConfigOf(db), c)
  {
    hide StrandsIn, Sync.KeptIn, ConfigOf, Carries, TableOk, Ids, Strands, WithZones;
    StrandedIn(db, b, c, Clients, Groups);
    StrandedIn(db, b, c, Rules, Groups);
    StrandedIn(db, b, c, Reservations, Scopes);
    StrandsThrice(db.tables, WithZones(b, out).rows);
  }

  lemma StrandsThrice(x: Tables, rows: Rows)
    ensures Strands(x, rows) <==>
            || StrandsIn(x[Clients], Ids(rows[Clients]), Ids(rows[Groups]))
            || StrandsIn(x[Rules], Ids(rows[Rules]), Ids(rows[Groups]))
            || StrandsIn(x[Reservations], Ids(rows[Reservations]), Ids(rows[Scopes]))
  {
    hide StrandsIn, Ids;
    if StrandsIn(x[Clients], Ids(rows[Clients]), Ids(rows[Groups])) {
      StrandedAt(x, rows, Clients, Groups);
    }
    if StrandsIn(x[Rules], Ids(rows[Rules]), Ids(rows[Groups])) {
      StrandedAt(x, rows, Rules, Groups);
    }
    if StrandsIn(x[Reservations], Ids(rows[Reservations]), Ids(rows[Scopes])) {
      StrandedAt(x, rows, Reservations, Scopes);
    }
    if Strands(x, rows) {
      var p: TableName :| StrandsAt(x, rows, p);
      var t: TableName :| Parent(t) == Some(p) && StrandsIn(x[t], Ids(rows[t]), Ids(rows[p]));
      match t
      case Clients =>
      case Rules =>
      case Reservations =>
    }
  }

  lemma NameClash(a: Row, r: Row)
    requires Shaped(Zones, a) && Shaped(Zones, r)
    ensures Clash(Zones, a, r) <==> r.keys == [a.keys[0]]
  {
    if r.keys == [a.keys[0]] {
      assert a.keys[0] == r.keys[0];
    }
  }

  lemma NamesIff(x: Table, rows: seq<Entry>, zones: Table, builtins: map<int, string>)
    requires TableOk(Zones, x) && RowsOk(Zones, rows)
    requires builtins == map i | i in x && x[i].kind == Internal && |x[i].keys| == 1 :: x[i].keys[0]
    requires (forall i :: i in zones <==> i in Ids(rows))
             && forall k | 0 <= k < |rows| && rows[k].id in zones :: zones[rows[k].id].keys == rows[k].row.keys
    ensures !NameTaken(x, rows) <==> Sync.NamesFree(builtins, zones)
  {
    if NameTaken(x, rows) {
      var j, k :| j in x && 0 <= k < |rows| && x[j].kind == Internal && j !in Ids(rows)
          && Clash(Zones, x[j], rows[k].row);
      NameClash(x[j], rows[k].row);
      assert rows[k].id in zones && j in builtins;
    }
    if !Sync.NamesFree(builtins, zones) {
      var i, j :| i in zones && j in builtins && j !in zones && zones[i].keys == [builtins[j]];
      assert i in Ids(rows);
      var k :| 0 <= k < |rows| && rows[k].id == i;
      NameClash(x[j], rows[k].row);
    }
  }

  lemma DerivedNames(x: Table, rows: seq<Entry>, primaryDNS: string, syncKey: int, out: seq<Entry>, zones: Table,
      builtins: map<int, string>)
    requires TableOk(Zones, x) && RowsOk(Zones, rows) && CarriesRows(rows, zones)
    requires builtins == map i | i in x && x[i].kind == Internal && |x[i].keys| == 1 :: x[i].keys[0]
    requires (forall k | 0 <= k < |rows| :: ZoneColumns(rows[k].row)) && DerivedRows(rows, primaryDNS, syncKey, out)
    ensures RowsOk(Zones, out) && (!NameTaken(x, out) <==> Sync.NamesFree(builtins, zones))
  {
    DerivedAgain(rows, primaryDNS, syncKey, out);
    forall k | 0 <= k < |out| && out[k].id in zones ensures zones[out[k].id].keys == out[k].row.keys {
      assert out[k].id == rows[k].id && out[k].row.keys == rows[k].row.keys;
    }
    NamesIff(x, out, zones, builtins);
  }

  /** The protocol's guard is the store's: a validated bundle, its zones derived, goes into
      the database exactly when the configuration it carries is importable. */
  lemma ImportableIff(db: Db, b: Bundle, primaryDNS: string, syncKey: int, out: seq<Entry>, c: Sync.Config,
      zones: Table)
    requires Consistent(db) && RowsFit(b.rows) && b.format == BUNDLE_FORMAT && DistinctPairs(b.assignments)
    requires Carries(b, c) && CarriesRows(b.rows[Zones], zones)
    requires (forall k | 0 <= k < |b.rows[Zones]| :: ZoneColumns(b.rows[Zones][k].row))
             && DerivedRows(b.rows[Zones], primaryDNS, syncKey, out)
    ensures RowsFit(WithZones(b, out).rows) && RowsOk(Zones, out)
    ensures Acceptable(b) && Closed(WithZones(b, out)) && !Strands(db.tables, WithZones(b, out).rows)
            && !NameTaken(db.tables[Zones], out) <==>
            Sync.Importable(ConfigOf(db), BuiltinsOf(db), c, zones)
  {
    hide Acceptable, Closed, Strands, NameTaken, Sync.Fit, Sync.NothingStranded, Sync.NamesFree, ConfigOf, RowsOk,
         TableOk, Carries, CarriesRows, DerivedRows, WithZones;
    DerivedFits(b, primaryDNS, syncKey, out);
    FitIff(b, out, c, zones);
    StrandedIff(db, b, out, c);
    DerivedNames(db.tables[Zones], b.rows[Zones], primaryDNS, syncKey, out, zones, BuiltinsOf(db));
  }

  lemma DerivedFits(b: Bundle, primaryDNS: string, syncKey: int, out: seq<Entry>)
    requires RowsFit(b.rows)
    requires (forall k | 0 <= k < |b.rows[Zones]| :: ZoneColumns(b.rows[Zones][k].row))
             && DerivedRows(b.rows[Zones], primaryDNS, syncKey, out)
    ensures RowsFit(WithZones(b, out).rows) && RowsOk(Zones, out)
  {
    DerivedAgain(b.rows[Zones], primaryDNS, syncKey, out);
    hide RowsOk, DerivedRows;
    forall t: TableName ensures RowsOk(t, WithZones(b, out).rows[t]) {
      assert RowsOk(t, b.rows[t]);
    }
  }

  lemma HeldIsCarried(rows: seq<Entry>, y: Table, x: Table)
    requires Holds(y, rows) && CarriesRows(rows, x) && forall k | 0 <= k < |rows| :: rows[k].row.kind != Internal
    ensures DefinitionsOf(y) == x
  {
    forall i | i in Ids(rows) ensures i in y && y[i].kind != Internal && i in x && Definition(y[i]) == x[i] {
      var k :| 0 <= k < |rows| && rows[k].id == i;
      assert Definition(y[rows[k].id]) == Definition(rows[k].row);
      assert Definition(y[i]).kind == y[i].kind;
    }
    var mine := DefinitionsOf(y);
    forall i ensures i in mine <==> i in x { }
    assert forall i | i in mine :: i in x && mine[i] == x[i];
  }

  /** A successful import is the protocol's Import step: afterwards the box's synced
      configuration is exactly what the bundle carries, if it passed Validate's last test. */
  lemma ImportIsTheStep(before: Db, b: Bundle, names: seq<string>, content: seq<(string, Rec)>, after: Db,
      c: Sync.Config)
    requires RowsFit(b.rows) && Applied(before, b, names, content, after) && Carries(b, c)
    requires forall key | key in b.settings :: !LocalSettingKey(key)
    ensures ConfigOf(after) == c
  {
    hide RowsOk, Applied, CarriesRows, DefinitionsOf, LocalSettingKey;
    var mine := ConfigOf(after);
    forall t | t in Sync.CARRIED + {Rules} ensures mine.tables[t] == c.tables[t] {
      CarriedAt(b, c, t);
      TableIsCarried(before, b, names, content, after, t, c.tables[t]);
    }
    assert mine.tables == c.tables;
    RestIsCarried(before, b, names, content, after);
  }

  lemma RestIsCarried(before: Db, b: Bundle, names: seq<string>, content: seq<(string, Rec)>, after: Db)
    requires Applied(before, b, names, content, after) && forall key | key in b.settings :: !LocalSettingKey(key)
    ensures ConfigOf(after).settings == b.settings && after.assignments == set p | p in b.assignments
  {
    hide Synced, ZonesApplied, RecordsApplied, LocalSettingKey;
  }

  lemma TableIsCarried(before: Db, b: Bundle, names: seq<string>, content: seq<(string, Rec)>, after: Db,
      t: TableName, x: Table)
    requires RowsOk(t, b.rows[t]) && Applied(before, b, names, content, after) && CarriesRows(b.rows[t], x)
    ensures DefinitionsOf(after.tables[t]) == x
  {
    hide Applied;
    AppliedHolds(before, b, names, content, after, t);
    HeldIsCarried(b.rows[t], after.tables[t], x);
  }
}
