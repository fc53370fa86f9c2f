/** The synced tables: rows, unique keys, foreign keys, and the two documents that
    cross between boxes - the database and the bundle. */
module Schema {
  import opened Wrappers

  datatype TableName = Groups | Clients | Lists | Rules | TsigKeys | Zones | Scopes | Reservations

  /** A zone's type, as far as an import looks at it: a built-in one, one that holds
      records (primary, secondary), or one answered elsewhere (forwarder, stub). */
  datatype Kind = NotAZone | Internal | HoldsRecords | AnsweredElsewhere

  /** The columns an import never rewrites on a row that exists: created_at, a zone's
      transfer state, a list's refresh state. */
  datatype Own = Own(created: int, serial: int, refreshed: int, fetched: string)

  const NO_STATE := Own(0, 0, 0, "")

  /** `keys` are the unique natural keys (groups.name, clients.matcher, lists.url,
      tsig_keys.name, zones.name, dhcp_scopes.name, a reservation's mac and ip),
      `owner` the foreign key, `cols` every other column of the definition. */
  datatype Row = Row(kind: Kind, keys: seq<string>, owner: int, cols: seq<string>, own: Own)

  type Table = map<int, Row>

  type Tables = m: map<TableName, Table> | forall t: TableName :: t in m
    witness Everywhere(map[])

  /** The tables with one of them replaced. */
  function Put(x: Tables, t: TableName, v: Table): (r: Tables)
    ensures r[t] == v && forall u: TableName | u != t :: r[u] == x[u]
  {
    x[t := v]
  }

  /** The same value for every table. */
  function Everywhere<V>(v: V): (m: map<TableName, V>)
    ensures forall t: TableName :: t in m && m[t] == v
  {
    EveryTable();
    map t | t in ALL_TABLES :: v
  }

  const ALL_TABLES: set<TableName> := {Groups, Clients, Lists, Rules, TsigKeys, Zones, Scopes, Reservations}

  lemma EveryTable()
    ensures forall t: TableName :: t in ALL_TABLES
  {
    forall t: TableName ensures t in ALL_TABLES {
      match t
      case Groups =>
      case Clients =>
      case Lists =>
      case Rules =>
      case TsigKeys =>
      case Zones =>
      case Scopes =>
      case Reservations =>
    }
  }

  function KeyCount(t: TableName): nat {
    match t
    case Rules => 0
    case Reservations => 2
    case _ => 1
  }

  function Parent(t: TableName): Option<TableName> {
    match t
    case Clients => Some(Groups)
    case Rules => Some(Groups)
    case Reservations => Some(Scopes)
    case _ => None
  }

  predicate Shaped(t: TableName, r: Row) {
    |r.keys| == KeyCount(t) && (t == Zones <==> r.kind != NotAZone)
  }

  /** The two rows would break one of the table's unique indexes. A reservation's
      keys are unique within its scope, every other key table-wide. */
  predicate Clash(t: TableName, a: Row, b: Row)
    requires Shaped(t, a) && Shaped(t, b)
  {
    exists c: nat | c < KeyCount(t) :: a.keys[c] == b.keys[c] && (t == Reservations ==> a.owner == b.owner)
  }

  predicate TableOk(t: TableName, x: Table) {
    && (forall i | i in x :: Shaped(t, x[i]))
    && (forall i, j | i in x && j in x && i != j :: !Clash(t, x[i], x[j]))
  }

  datatype Rec = Rec(name: string, rtype: string, rdata: string)

  datatype Db = Db(
    tables: Tables,
    assignments: set<(int, int)>,          // group_lists: (group, list)
    records: map<int, set<Rec>>,        // zone_records, by zone
    settings: map<string, string>,
    version: int
  )

  function Recs(records: map<int, set<Rec>>, zone: int): set<Rec> {
    if zone in records then records[zone] else {}
  }

  /** What the schema enforces at rest. */
  ghost predicate Consistent(db: Db) {
    && (forall t: TableName :: TableOk(t, db.tables[t]))
    && (forall t: TableName, i | i in db.tables[t] :: OwnerIn(t, db.tables[t][i], db.tables))
    && (forall p | p in db.assignments :: p.0 in db.tables[Groups] && p.1 in db.tables[Lists])
    && db.records.Keys <= db.tables[Zones].Keys
  }

  predicate OwnerIn(t: TableName, r: Row, tables: Tables) {
    Parent(t).Some? ==> r.owner in tables[Parent(t).value]
  }

  // ------------------------------------------------------------------ bundles

  datatype Entry = Entry(id: int, row: Row)

  type Rows = m: map<TableName, seq<Entry>> | forall t: TableName :: t in m
    witness Everywhere([])

  datatype Bundle = Bundle(format: int, version: int, settings: map<string, string>, rows: Rows,
      assignments: seq<(int, int)>)

  const BUNDLE_FORMAT := 1

  function Ids(rows: seq<Entry>): set<int> {
    set k | 0 <= k < |rows| :: rows[k].id
  }

  predicate DistinctIds(rows: seq<Entry>) {
    forall i, j | 0 <= i < j < |rows| :: rows[i].id != rows[j].id
  }

  /** What one query per table gives: ids and unique keys are unique, and no built-in
      zone travels. */
  ghost predicate RowsOk(t: TableName, rows: seq<Entry>) {
    && DistinctIds(rows)
    && (forall k | 0 <= k < |rows| :: Shaped(t, rows[k].row) && rows[k].row.kind != Internal)
    && (forall i, j | 0 <= i < j < |rows| :: !Clash(t, rows[i].row, rows[j].row))
  }

  ghost predicate RowsFit(rows: Rows) {
    forall t: TableName :: RowsOk(t, rows[t])
  }

  /** References stay inside the bundle. Reads that a write came between need not give
      this. */
  ghost predicate Closed(b: Bundle) {
    (forall t: TableName :: OwnersAt(b.rows, t)) && PairsListed(b)
  }

  /** Every row of t names a parent the bundle carries. */
  ghost predicate OwnersAt(rows: Rows, t: TableName) {
    Parent(t).Some? ==> forall k | 0 <= k < |rows[t]| :: rows[t][k].row.owner in Ids(rows[Parent(t).value])
  }

  ghost predicate PairsListed(b: Bundle) {
    && (forall i, j | 0 <= i < j < |b.assignments| :: b.assignments[i] != b.assignments[j])
    && (forall i | 0 <= i < |b.assignments| ::
          b.assignments[i].0 in Ids(b.rows[Groups]) && b.assignments[i].1 in Ids(b.rows[Lists]))
  }

  ghost predicate WellFormed(b: Bundle) {
    b.format == BUNDLE_FORMAT && RowsFit(b.rows) && Closed(b)
  }

  // ----------------------------------------------------------------- settings

  const STATS_WATERMARK := "stats.watermark"

  predicate HasPrefix(s: string, p: string) { |p| <= |s| && s[..|p|] == p }

  /** LocalSettingKey: the keys that stay on the instance that holds them. */
  predicate LocalSettingKey(key: string) {
    || key == STATS_WATERMARK
    || HasPrefix(key, "instance.") || HasPrefix(key, "serve.") || HasPrefix(key, "sync.")
  }

  /** The keys that stay on the box that holds them, spelled out. */
  ghost predicate StaysHome(key: string) {
    || key == "stats.watermark"
    || (exists rest: string :: key == "instance." + rest)
    || (exists rest: string :: key == "serve." + rest)
    || (exists rest: string :: key == "sync." + rest)
  }

  lemma PrefixIsConcat(key: string, p: string)
    ensures HasPrefix(key, p) <==> exists rest: string :: key == p + rest
  {
    if HasPrefix(key, p) {
      assert key == p + key[|p|..];
    }
  }

  lemma StaysHomeIff(key: string)
    ensures LocalSettingKey(key) <==> StaysHome(key)
  {
    PrefixIsConcat(key, "instance.");
    PrefixIsConcat(key, "serve.");
    PrefixIsConcat(key, "sync.");
  }

  // ------------------------------------------------------------- parked keys

  function Digit(n: nat): char
    requires n < 10
  {
    ['0', '1', '2', '3', '4', '5', '6', '7', '8', '9'][n]
  }

  function NatText(n: nat): (s: string)
    ensures |s| > 0 && s[0] != '-'
  {
    if n < 10 then [Digit(n)] else NatText(n / 10) + [Digit(n % 10)]
  }

  function IdText(id: int): string {
    if id < 0 then "-" + NatText(-id) else NatText(id)
  }

  /** The sentinel a surviving row's unique key is parked on. */
  function Parked(nonce: string, id: int): string {
    nonce + ":" + IdText(id)
  }

  lemma {:induction false} NatTextInjective(a: nat, b: nat)
    requires NatText(a) == NatText(b)
    ensures a == b
  {
    var s, t := NatText(a), NatText(b);
    assert s[|s| - 1] == t[|t| - 1];
    if a >= 10 && b >= 10 {
      assert s[..|s| - 1] == NatText(a / 10) && t[..|t| - 1] == NatText(b / 10);
      NatTextInjective(a / 10, b / 10);
    }
  }

  lemma {:induction false} IdTextInjective(a: int, b: int)
    requires IdText(a) == IdText(b)
    ensures a == b
  {
    assert (a < 0 <==> IdText(a)[0] == '-') && (b < 0 <==> IdText(b)[0] == '-');
    if a >= 0 && b >= 0 {
      NatTextInjective(a, b);
    } else if a < 0 && b < 0 {
      assert IdText(a)[1..] == NatText(-a) && IdText(b)[1..] == NatText(-b);
      NatTextInjective(-a, -b);
    }
  }

  lemma {:induction false} SamePrefix(p: string, a: string, b: string)
    requires p + a == p + b
    ensures a == b
  {
    assert (p + a)[|p|..] == a && (p + b)[|p|..] == b;
  }

  lemma {:induction false} ParkedInjective(nonce: string, a: int, b: int)
    requires Parked(nonce, a) == Parked(nonce, b)
    ensures a == b
  {
    SamePrefix(nonce + ":", IdText(a), IdText(b));
    IdTextInjective(a, b);
  }

  /** The nonce occurs in no key the import could meet. */
  ghost predicate FreshFor(nonce: string, r: Row) {
    forall c | 0 <= c < |r.keys| :: !HasPrefix(r.keys[c], nonce + ":")
  }
}
