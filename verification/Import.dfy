/** ImportBundle as the statements of one transaction: each one either takes effect
    or breaks a unique key or a reference, which ends the import. */
module Import {
  import opened Wrappers
  import opened Schema

  datatype Failure = Duplicate | Reference | Format

  // ------------------------------------------------------------------- prune

  /** Children before parents: no foreign key between synced tables cascades. */
  const PRUNE_ORDER: seq<TableName> := [Clients, Rules, Zones, Lists, Groups, TsigKeys, Reservations, Scopes]

  predicate Survives(t: TableName, id: int, r: Row, keep: set<int>) {
    id in keep || (t == Zones && r.kind == Internal)
  }

  function KeptRows(t: TableName, x: Table, keep: set<int>): Table {
    map i | i in x && Survives(t, i, x[i], keep) :: x[i]
  }

  predicate RefersTo(x: Table, gone: set<int>) {
    exists i | i in x :: x[i].owner in gone
  }

  /** Some row refers to one of the `gone` rows of t. (group_lists, the other table
      that refers to groups and lists, is emptied before any prune.) */
  predicate Referenced(x: Tables, t: TableName, gone: set<int>) {
    exists c: TableName :: Parent(c) == Some(t) && RefersTo(x[c], gone)
  }

  /** The rows a prune of t deletes. */
  function Gone(x: Tables, t: TableName, keep: set<int>): set<int> {
    x[t].Keys - KeptRows(t, x[t], keep).Keys
  }

  /** pruneMissing: one DELETE. */
  function Prune(x: Tables, t: TableName, keep: set<int>): Result<Tables, Failure> {
    if Referenced(x, t, Gone(x, t, keep)) then Err(Reference)
    else Ok(Put(x, t, KeptRows(t, x[t], keep)))
  }

  /** Some row both boxes hold refers, here, to a parent the main does not have. */
  ghost predicate StrandsIn(x: Table, ids: set<int>, parents: set<int>) {
    exists i | i in x :: i in ids && x[i].owner !in parents
  }

  ghost predicate StrandsAt(x: Tables, rows: Rows, p: TableName) {
    exists c: TableName :: Parent(c) == Some(p) && StrandsIn(x[c], Ids(rows[c]), Ids(rows[p]))
  }

  ghost predicate Strands(x: Tables, rows: Rows) {
    exists p: TableName :: StrandsAt(x, rows, p)
  }

  /** Where a table stands in PRUNE_ORDER. */
  ghost function Turn(t: TableName): (n: nat)
    ensures n < 8
  {
    match t
    case Clients => 0
    case Rules => 1
    case Zones => 2
    case Lists => 3
    case Groups => 4
    case TsigKeys => 5
    case Reservations => 6
    case Scopes => 7
  }

  lemma TurnOf(n: nat)
    requires n < 8
    ensures Turn(PRUNE_ORDER[n]) == n
  {
  }

  lemma OrderOf(t: TableName)
    ensures PRUNE_ORDER[Turn(t)] == t
  {
  }

  ghost predicate PrunedUpTo(before: Tables, rows: Rows, n: nat, x: Tables) {
    forall t: TableName :: x[t] ==
      if Turn(t) < n then KeptRows(t, before[t], Ids(rows[t])) else before[t]
  }

  ghost predicate OwnersHold(x: Tables) {
    forall t: TableName :: Parent(t).Some? ==> OwnersIn(x[t], x[Parent(t).value].Keys)
  }

  ghost predicate OwnersIn(x: Table, parents: set<int>) {
    forall i | i in x :: x[i].owner in parents
  }

  lemma OneChild(c: TableName, x: Table, ids: set<int>, p: set<int>, parents: set<int>)
    requires c != Zones && OwnersIn(x, p)
    ensures RefersTo(KeptRows(c, x, ids), p - parents) <==> StrandsIn(x, ids, parents)
  {
    var kept := KeptRows(c, x, ids);
    if StrandsIn(x, ids, parents) {
      var i :| i in x && i in ids && x[i].owner !in parents;
      assert i in kept && kept[i].owner in p - parents;
    }
  }

  lemma ChildAgrees(before: Tables, rows: Rows, t: TableName, c: TableName, x: Tables)
    requires PrunedUpTo(before, rows, Turn(t), x) && OwnersHold(before) && Parent(c) == Some(t)
    ensures RefersTo(x[c], Gone(x, t, Ids(rows[t]))) <==> StrandsIn(before[c], Ids(rows[c]), Ids(rows[t]))
  {
    assert Turn(c) < Turn(t) && c != Zones && t != Zones;
    assert Gone(x, t, Ids(rows[t])) == before[t].Keys - Ids(rows[t]);
    OneChild(c, before[c], Ids(rows[c]), before[t].Keys, Ids(rows[t]));
  }

  lemma ReferencedIffStranded(before: Tables, rows: Rows, t: TableName, x: Tables)
    requires PrunedUpTo(before, rows, Turn(t), x) && OwnersHold(before)
    ensures Prune(x, t, Ids(rows[t])).Err? <==> StrandsAt(before, rows, t)
  {
    forall c: TableName | Parent(c) == Some(t)
      ensures RefersTo(x[c], Gone(x, t, Ids(rows[t]))) <==> StrandsIn(before[c], Ids(rows[c]), Ids(rows[t]))
    {
      ChildAgrees(before, rows, t, c, x);
    }
  }

  lemma TurnStep(t: TableName, u: TableName)
    ensures Turn(u) < Turn(t) + 1 <==> Turn(u) < Turn(t) || u == t
  {
    OrderOf(u);
    OrderOf(t);
  }

  lemma PruneStep(before: Tables, rows: Rows, t: TableName, x: Tables)
    requires PrunedUpTo(before, rows, Turn(t), x)
    ensures PrunedUpTo(before, rows, Turn(t) + 1, Put(x, t, KeptRows(t, x[t], Ids(rows[t]))))
  {
    hide KeptRows, Turn, Ids;
    forall u: TableName ensures Turn(u) < Turn(t) + 1 <==> Turn(u) < Turn(t) || u == t { TurnStep(t, u); }
    assert x[t] == before[t];
  }

  lemma AllButOne(before: Tables, rows: Rows, t: TableName)
    requires !StrandsAt(before, rows, t)
    requires forall u: TableName | Turn(u) < Turn(t) :: !StrandsAt(before, rows, u)
    ensures forall u: TableName | Turn(u) < Turn(t) + 1 :: !StrandsAt(before, rows, u)
  {
    forall u: TableName | Turn(u) == Turn(t) ensures !StrandsAt(before, rows, u) {
      OrderOf(u);
      OrderOf(t);
    }
  }

  /** The prunes all go through exactly when no kept row is stranded, and then every
      table holds the rows the bundle names and the built-in zones. */
  method PruneAll(x: Tables, rows: Rows) returns (r: Result<Tables, Failure>)
    requires OwnersHold(x)
    ensures r.Ok? <==> !Strands(x, rows)
    ensures r.Ok? ==> forall t: TableName :: r.value[t] == KeptRows(t, x[t], Ids(rows[t]))
  {
    hide KeptRows, StrandsAt, Referenced;
    var cur := x;
    for n := 0 to |PRUNE_ORDER|
      invariant PrunedUpTo(x, rows, n, cur)
      invariant forall t: TableName | Turn(t) < n :: !StrandsAt(x, rows, t)
    {
      TurnOf(n);
      var t := PRUNE_ORDER[n];
      ReferencedIffStranded(x, rows, t, cur);
      var next := Prune(cur, t, Ids(rows[t]));
      if next.Err? {
        return next;
      }
      PruneStep(x, rows, t, cur);
      AllButOne(x, rows, t);
      cur := next.value;
    }
    return Ok(cur);
  }

  // ------------------------------------------------------------------- evict

  /** evictBuiltinCollisions: a built-in zone gives way to a bundle zone at its id. */
  function Evict(t: TableName, x: Table, ids: set<int>): Table {
    map i | i in x && !(t == Zones && x[i].kind == Internal && i in ids) :: x[i]
  }

  // -------------------------------------------------------------------- park

  const PARKED_KEYS: seq<(TableName, nat)> :=
    [(Groups, 0), (Clients, 0), (Lists, 0), (TsigKeys, 0), (Zones, 0), (Scopes, 0), (Reservations, 0),
        (Reservations, 1)]

  /** The row with its first m keys on the sentinel; built-in zones are left alone. */
  function ParkRow(r: Row, id: int, nonce: string, m: nat): Row {
    if r.kind == Internal then r
    else r.(keys := seq(|r.keys|, c requires 0 <= c < |r.keys| => if c < m then Parked(nonce, id) else r.keys[c]))
  }

  /** The table with m keys parked, and one more on the rows in `ahead`. */
  function ParkTo(x: Table, nonce: string, m: nat, ahead: set<int>): Table {
    map i | i in x :: ParkRow(x[i], i, nonce, if i in ahead then m + 1 else m)
  }

  ghost predicate FreshTable(nonce: string, x: Table) {
    forall i | i in x :: FreshFor(nonce, x[i])
  }

  lemma {:induction false} ParkedHasPrefix(nonce: string, id: int)
    ensures HasPrefix(Parked(nonce, id), nonce + ":")
  {
    assert (nonce + ":" + IdText(id))[..|nonce + ":"|] == nonce + ":";
  }

  lemma ParkedRowsApart(t: TableName, a: Row, i: int, m: nat, b: Row, j: int, n: nat, nonce: string)
    requires Shaped(t, a) && Shaped(t, b) && i != j && !Clash(t, a, b)
    requires FreshFor(nonce, a) && FreshFor(nonce, b)
    ensures !Clash(t, ParkRow(a, i, nonce, m), ParkRow(b, j, nonce, n))
  {
    ParkedHasPrefix(nonce, i);
    ParkedHasPrefix(nonce, j);
    if Parked(nonce, i) == Parked(nonce, j) {
      ParkedInjective(nonce, i, j);
    }
  }

  /** No row-by-row stage of any parking statement breaks a unique index. */
  lemma ParkingNeverClashes(t: TableName, x: Table, nonce: string, m: nat, ahead: set<int>)
    requires TableOk(t, x) && FreshTable(nonce, x)
    ensures TableOk(t, ParkTo(x, nonce, m, ahead))
  {
    var y := ParkTo(x, nonce, m, ahead);
    forall i, j | i in y && j in y && i != j ensures !Clash(t, y[i], y[j]) {
      ParkedRowsApart(t, x[i], i, if i in ahead then m + 1 else m, x[j], j, if j in ahead then m + 1 else m, nonce);
    }
  }

  function ParkKeys(x: Table, nonce: string, m: nat): Table {
    map i | i in x :: ParkKey(x[i], i, nonce, m)
  }

  function ParkKey(r: Row, id: int, nonce: string, m: nat): Row {
    if r.kind == Internal || m >= |r.keys| then r else r.(keys := r.keys[m := Parked(nonce, id)])
  }

  /** UPDATE t SET key = nonce:id, the unique index checked. */
  function ParkColumn(t: TableName, x: Table, nonce: string, m: nat): Result<Table, Failure> {
    if TableOk(t, ParkKeys(x, nonce, m)) then Ok(ParkKeys(x, nonce, m)) else Err(Duplicate)
  }

  lemma ParkKeyNext(r: Row, id: int, nonce: string, m: nat)
    ensures ParkKey(ParkRow(r, id, nonce, m), id, nonce, m) == ParkRow(r, id, nonce, m + 1)
  {
    assert ParkKey(ParkRow(r, id, nonce, m), id, nonce, m).keys == ParkRow(r, id, nonce, m + 1).keys;
  }

  lemma ParkKeysNext(x: Table, nonce: string, m: nat)
    ensures ParkKeys(ParkTo(x, nonce, m, {}), nonce, m) == ParkTo(x, nonce, m + 1, {})
  {
    forall i | i in x ensures ParkKey(ParkRow(x[i], i, nonce, m), i, nonce, m) == ParkRow(x[i], i, nonce, m + 1) {
      ParkKeyNext(x[i], i, nonce, m);
    }
  }

  lemma ParkOneMore(t: TableName, x: Table, nonce: string, m: nat)
    requires TableOk(t, x) && FreshTable(nonce, x)
    ensures ParkColumn(t, ParkTo(x, nonce, m, {}), nonce, m) == Ok(ParkTo(x, nonce, m + 1, {}))
  {
    ParkKeysNext(x, nonce, m);
    ParkingNeverClashes(t, x, nonce, m + 1, {});
  }

  /** How many keys of t the first n parking statements have covered. */
  ghost function Columns(t: TableName, n: nat): nat {
    match t
    case Groups => if n > 0 then 1 else 0
    case Clients => if n > 1 then 1 else 0
    case Lists => if n > 2 then 1 else 0
    case TsigKeys => if n > 3 then 1 else 0
    case Zones => if n > 4 then 1 else 0
    case Scopes => if n > 5 then 1 else 0
    case Reservations => if n > 7 then 2 else if n > 6 then 1 else 0
    case Rules => 0
  }

  lemma ColumnsStep(n: nat, t: TableName)
    requires n < 8
    ensures Columns(PARKED_KEYS[n].0, n) == PARKED_KEYS[n].1
    ensures Columns(t, n + 1) == Columns(t, n) + (if t == PARKED_KEYS[n].0 then 1 else 0)
  {
  }

  ghost predicate ParkedUpTo(x: Tables, nonce: string, n: nat, y: Tables) {
    forall t: TableName :: y[t] == ParkTo(x[t], nonce, Columns(t, n), {})
  }

  lemma ParkStep(x: Tables, nonce: string, n: nat, y: Tables)
    requires n < 8 && ParkedUpTo(x, nonce, n, y)
    ensures var (t, m) := PARKED_KEYS[n];
            ParkedUpTo(x, nonce, n + 1, Put(y, t, ParkTo(x[t], nonce, m + 1, {})))
  {
    hide ParkTo, Columns;
    forall u: TableName ensures Columns(u, n + 1) == Columns(u, n) + (if u == PARKED_KEYS[n].0 then 1 else 0) {
      ColumnsStep(n, u);
    }
    ColumnsStep(n, PARKED_KEYS[n].0);
  }

  ghost predicate ReadyToPark(x: Tables, nonce: string) {
    forall t: TableName :: TableOk(t, x[t]) && FreshTable(nonce, x[t])
  }

  /** The n-th parking statement: it never fails. */
  method ParkStatement(ghost x: Tables, nonce: string, n: nat, y: Tables) returns (r: Result<Tables, Failure>)
    requires n < 8 && ReadyToPark(x, nonce) && ParkedUpTo(x, nonce, n, y)
    ensures r.Ok? && ParkedUpTo(x, nonce, n + 1, r.value)
  {
    hide ParkTo, TableOk, FreshTable, Columns, ParkColumn;
    var (t, m) := PARKED_KEYS[n];
    ColumnsStep(n, t);
    ParkOneMore(t, x[t], nonce, m);
    ParkStep(x, nonce, n, y);
    var parked := ParkColumn(t, y[t], nonce, m);
    if parked.Err? {
      return Err(Duplicate);
    }
    return Ok(Put(y, t, parked.value));
  }

  /** The parking statements, one per unique key. */
  method ParkAll(x: Tables, nonce: string) returns (r: Result<Tables, Failure>)
    requires ReadyToPark(x, nonce)
    ensures r.Ok? && ParkedUpTo(x, nonce, 8, r.value)
  {
    var cur := x;
    forall t: TableName ensures ParkTo(x[t], nonce, 0, {}) == x[t] { NothingParked(x[t], nonce); }
    assert forall t: TableName :: Columns(t, 0) == 0;
    for n := 0 to |PARKED_KEYS|
      invariant ParkedUpTo(x, nonce, n, cur)
    {
      var next := ParkStatement(x, nonce, n, cur);
      if next.Err? {
        return next;
      }
      cur := next.value;
    }
    return Ok(cur);
  }

  lemma NothingParked(x: Table, nonce: string)
    ensures ParkTo(x, nonce, 0, {}) == x
  {
    forall i | i in x ensures ParkRow(x[i], i, nonce, 0) == x[i] {
      assert x[i].keys == seq(|x[i].keys|, c requires 0 <= c < |x[i].keys| => x[i].keys[c]);
    }
  }

  // ------------------------------------------------------------------ upsert

  /** The box-local columns of a row the import creates. */
  function InsertOwn(t: TableName, own: Own): Own {
    match t
    case Zones => Own(own.created, own.serial, 0, "")
    case Scopes => Own(own.created, 0, 0, "")
    case Reservations => Own(own.created, 0, 0, "")
    case _ => NO_STATE
  }

  /** What a bundle row becomes here: its definition, over the local columns of the
      row it lands on. A zone answered elsewhere loses its transfer state. */
  function Merge(t: TableName, prior: Option<Row>, r: Row): Row {
    var own := if prior.Some? then prior.value.own else InsertOwn(t, r.own);
    r.(own := if r.kind == AnsweredElsewhere then own.(serial := 0, refreshed := 0) else own)
  }

  function At(x: Table, id: int): Option<Row> {
    if id in x then Some(x[id]) else None
  }

  ghost predicate Upserted(t: TableName, x: Table, rows: seq<Entry>, y: Table) {
    && y.Keys == x.Keys + Ids(rows)
    && (forall k | 0 <= k < |rows| :: rows[k].id in y && y[rows[k].id] == Merge(t, At(x, rows[k].id), rows[k].row))
    && (forall j | j in x && j !in Ids(rows) :: y[j] == x[j])
  }

  predicate ClashesIn(t: TableName, x: Table, id: int, r: Row)
    requires Shaped(t, r) && AllShaped(t, x)
  {
    exists j | j in x :: j != id && Clash(t, x[j], r)
  }

  /** A row the bundle does not name holds a key of the bundle's k-th row. */
  ghost predicate Collides(t: TableName, x: Table, ids: set<int>, r: Row)
    requires Shaped(t, r) && AllShaped(t, x)
  {
    exists j | j in x :: j !in ids && Clash(t, x[j], r)
  }

  /** The rows the bundle does name hold no key of it (they are parked). */
  ghost predicate Apart(t: TableName, x: Table, ids: set<int>, r: Row)
    requires Shaped(t, r) && AllShaped(t, x)
  {
    forall j | j in x && j in ids :: !Clash(t, x[j], r)
  }

  /** One table's upsert loop. It fails exactly when a row's parent is missing or a
      row outside the bundle holds a key the bundle gives to another. */
  method UpsertAll(t: TableName, x: Table, rows: seq<Entry>, parents: set<int>) returns (r: Result<Table, Failure>)
    requires TableOk(t, x) && RowsOk(t, rows)
    requires forall k | 0 <= k < |rows| :: Apart(t, x, Ids(rows), rows[k].row)
    ensures r.Ok? <==> AllLand(t, x, rows, parents)
    ensures r.Ok? ==> Upserted(t, x, rows, r.value)
  {
    var y := x;
    for n := 0 to |rows|
      invariant Upserted(t, x, rows[..n], y) && AllShaped(t, y)
      invariant forall k | 0 <= k < n :: Lands(t, x, rows, parents, k)
    {
      var next := UpsertNext(t, x, rows, parents, n, y);
      if next.Err? {
        return next;
      }
      y := next.value;
    }
    assert rows[..|rows|] == rows;
    return Ok(y);
  }

  ghost predicate Lands(t: TableName, x: Table, rows: seq<Entry>, parents: set<int>, k: nat)
    requires k < |rows| && Shaped(t, rows[k].row) && AllShaped(t, x)
  {
    (Parent(t).Some? ==> rows[k].row.owner in parents) && !Collides(t, x, Ids(rows), rows[k].row)
  }

  ghost predicate AllLand(t: TableName, x: Table, rows: seq<Entry>, parents: set<int>)
    requires AllShaped(t, x) && forall k | 0 <= k < |rows| :: Shaped(t, rows[k].row)
  {
    forall k | 0 <= k < |rows| :: Lands(t, x, rows, parents, k)
  }

  /** INSERT ... ON CONFLICT (id) DO UPDATE, for the n-th row. */
  method UpsertNext(t: TableName, ghost x: Table, rows: seq<Entry>, parents: set<int>, n: nat, y: Table)
      returns (r: Result<Table, Failure>)
    requires n < |rows| && AllShaped(t, x) && RowsOk(t, rows) && Apart(t, x, Ids(rows), rows[n].row)
    requires Upserted(t, x, rows[..n], y) && AllShaped(t, y)
    ensures r.Ok? <==> Lands(t, x, rows, parents, n)
    ensures r.Ok? ==> Upserted(t, x, rows[..n + 1], r.value) && AllShaped(t, r.value)
  {
    var e := rows[n];
    if Parent(t).Some? && e.row.owner !in parents {
      return Err(Reference);
    }
    UpsertClash(t, x, rows, n, y);
    if ClashesIn(t, y, e.id, e.row) {
      return Err(Duplicate);
    }
    UpsertOne(t, x, rows, n, y);
    return Ok(y[e.id := Merge(t, At(y, e.id), e.row)]);
  }

  predicate AllShaped(t: TableName, x: Table) {
    forall j | j in x :: Shaped(t, x[j])
  }

  lemma UpsertOne(t: TableName, x: Table, rows: seq<Entry>, n: nat, y: Table)
    requires n < |rows| && DistinctIds(rows) && Upserted(t, x, rows[..n], y)
    ensures Upserted(t, x, rows[..n + 1], y[rows[n].id := Merge(t, At(y, rows[n].id), rows[n].row)])
  {
    var e := rows[n];
    assert rows[..n + 1] == rows[..n] + [e];
    assert e.id !in Ids(rows[..n]);
    assert Ids(rows[..n + 1]) == Ids(rows[..n]) + {e.id};
  }

  lemma EarlierRow(t: TableName, x: Table, rows: seq<Entry>, n: nat, y: Table, j: int)
    requires RowsOk(t, rows) && n < |rows| && Upserted(t, x, rows[..n], y) && AllShaped(t, y)
    requires j in Ids(rows[..n])
    ensures j in y && j != rows[n].id && !Clash(t, y[j], rows[n].row)
  {
    var k :| 0 <= k < n && rows[..n][k].id == j;
    assert y[rows[..n][k].id].keys == rows[k].row.keys && y[rows[..n][k].id].owner == rows[k].row.owner;
    assert !Clash(t, rows[k].row, rows[n].row);
  }

  lemma UpsertClash(t: TableName, x: Table, rows: seq<Entry>, n: nat, y: Table)
    requires AllShaped(t, x) && RowsOk(t, rows) && n < |rows| && Upserted(t, x, rows[..n], y)
    requires AllShaped(t, y) && Apart(t, x, Ids(rows), rows[n].row)
    ensures ClashesIn(t, y, rows[n].id, rows[n].row) <==> Collides(t, x, Ids(rows), rows[n].row)
  {
    var e := rows[n];
    assert e.id in Ids(rows);
    if ClashesIn(t, y, e.id, e.row) {
      var j :| j in y && j != e.id && Clash(t, y[j], e.row);
      if j in Ids(rows[..n]) {
        EarlierRow(t, x, rows, n, y, j);
      }
      assert j in x && y[j] == x[j];
    }
    if Collides(t, x, Ids(rows), e.row) {
      var j :| j in x && j !in Ids(rows) && Clash(t, x[j], e.row);
      assert j !in Ids(rows[..n]);
      assert y[j] == x[j];
    }
  }

  // -------------------------------------------------------- the whole import

  const UPSERT_ORDER: seq<TableName> := [Groups, Lists, TsigKeys, Clients, Rules, Scopes, Reservations, Zones]

  ghost function UpsertTurn(t: TableName): (n: nat)
    ensures n < 8
  {
    match t
    case Groups => 0
    case Lists => 1
    case TsigKeys => 2
    case Clients => 3
    case Rules => 4
    case Scopes => 5
    case Reservations => 6
    case Zones => 7
  }

  lemma UpsertTurnOf(n: nat)
    requires n < 8
    ensures UpsertTurn(UPSERT_ORDER[n]) == n
  {
  }

  lemma UpsertOrderOf(t: TableName)
    ensures UPSERT_ORDER[UpsertTurn(t)] == t
  {
  }

  /** A table ready to take the bundle's rows: what survived, evicted and parked. */
  ghost predicate Cleared(t: TableName, x: Table, rows: seq<Entry>) {
    && TableOk(t, x) && RowsOk(t, rows)
    && (forall k | 0 <= k < |rows| :: Apart(t, x, Ids(rows), rows[k].row))
    && (forall j | j in x && j !in Ids(rows) :: t == Zones && x[j].kind == Internal)
  }

  ghost predicate Collision(t: TableName, x: Table, rows: seq<Entry>)
    requires Cleared(t, x, rows)
  {
    exists k | 0 <= k < |rows| :: Collides(t, x, Ids(rows), rows[k].row)
  }

  ghost predicate UpsertedUpTo(x: Tables, rows: Rows, n: nat, y: Tables) {
    && (forall t: TableName | UpsertTurn(t) < n :: Upserted(t, x[t], rows[t], y[t]))
    && (forall t: TableName | UpsertTurn(t) >= n :: y[t] == x[t])
  }

  ghost predicate OwnersListed(rows: Rows) {
    forall t: TableName :: OwnersAt(rows, t)
  }

  function ParentIds(x: Tables, t: TableName): set<int> {
    if Parent(t).Some? then x[Parent(t).value].Keys else {}
  }

  lemma ParentsLand(x: Tables, rows: Rows, t: TableName, y: Tables)
    requires UpsertedUpTo(x, rows, UpsertTurn(t), y) && AllCleared(x, rows) && Parent(t).Some?
    ensures ParentIds(y, t) == Ids(rows[Parent(t).value])
  {
    hide Upserted, Cleared;
    var p := Parent(t).value;
    ParentFirst(t);
    OnlyTheBundle(p, x[p], rows[p], y[p]);
  }

  lemma ParentFirst(t: TableName)
    requires Parent(t).Some?
    ensures UpsertTurn(Parent(t).value) < UpsertTurn(t) && Parent(t).value != Zones
  {
  }

  lemma OnlyTheBundle(t: TableName, x: Table, rows: seq<Entry>, y: Table)
    requires Cleared(t, x, rows) && t != Zones && Upserted(t, x, rows, y)
    ensures y.Keys == Ids(rows)
  {
    assert forall j | j in x :: j in Ids(rows);
    assert x.Keys + Ids(rows) == Ids(rows);
  }

  lemma UpsertStepAt(x: Tables, rows: Rows, t: TableName, y: Tables, z: Table, u: TableName)
    requires UpsertedUpTo(x, rows, UpsertTurn(t), y) && Upserted(t, x[t], rows[t], z)
    ensures UpsertTurn(u) < UpsertTurn(t) + 1 ==> Upserted(u, x[u], rows[u], Put(y, t, z)[u])
    ensures UpsertTurn(u) >= UpsertTurn(t) + 1 ==> Put(y, t, z)[u] == x[u]
  {
    hide Upserted;
    UpsertOrderOf(u);
    UpsertOrderOf(t);
  }

  lemma UpsertStep(x: Tables, rows: Rows, t: TableName, y: Tables, z: Table)
    requires UpsertedUpTo(x, rows, UpsertTurn(t), y) && Upserted(t, x[t], rows[t], z)
    ensures UpsertedUpTo(x, rows, UpsertTurn(t) + 1, Put(y, t, z))
  {
    hide Upserted;
    forall u: TableName {
      UpsertStepAt(x, rows, t, y, z, u);
    }
  }

  lemma LandUnlessCollision(t: TableName, x: Table, rows: Rows, parents: set<int>)
    requires Cleared(t, x, rows[t]) && (Parent(t).Some? ==> parents == Ids(rows[Parent(t).value]))
    ensures AllLand(t, x, rows[t], parents) <==> OwnersAt(rows, t) && !Collision(t, x, rows[t])
  {
    if AllLand(t, x, rows[t], parents) {
      forall k | 0 <= k < |rows[t]|
        ensures !Collides(t, x, Ids(rows[t]), rows[t][k].row) && (Parent(t).Some? ==> rows[t][k].row.owner in parents)
      {
        assert Lands(t, x, rows[t], parents, k);
      }
    }
  }

  /** One table's turn: it fails exactly on a collision or a parent nobody sent. */
  method UpsertTable(ghost x: Tables, rows: Rows, t: TableName, y: Tables) returns (r: Result<Table, Failure>)
    requires UpsertedUpTo(x, rows, UpsertTurn(t), y) && AllCleared(x, rows)
    ensures r.Ok? <==> OwnersAt(rows, t) && !Collision(t, x[t], rows[t])
    ensures r.Ok? ==> Upserted(t, x[t], rows[t], r.value)
  {
    if Parent(t).Some? {
      ParentsLand(x, rows, t, y);
    }
    assert y[t] == x[t] && Cleared(t, x[t], rows[t]);
    hide Upserted, AllLand, UpsertedUpTo;
    LandUnlessCollision(t, x[t], rows, ParentIds(y, t));
    r := UpsertAll(t, y[t], rows[t], ParentIds(y, t));
  }

  ghost predicate AllCleared(x: Tables, rows: Rows) {
    forall t: TableName :: Cleared(t, x[t], rows[t])
  }

  ghost predicate LandedUpTo(x: Tables, rows: Rows, n: nat)
    requires AllCleared(x, rows)
  {
    forall t: TableName | UpsertTurn(t) < n :: OwnersAt(rows, t) && !Collision(t, x[t], rows[t])
  }

  lemma LandedStep(x: Tables, rows: Rows, n: nat)
    requires n < 8 && AllCleared(x, rows) && LandedUpTo(x, rows, n)
    requires var t := UPSERT_ORDER[n]; OwnersAt(rows, t) && !Collision(t, x[t], rows[t])
    ensures LandedUpTo(x, rows, n + 1)
  {
    hide Collision, Cleared, OwnersAt;
    forall t: TableName | UpsertTurn(t) < n + 1 ensures OwnersAt(rows, t) && !Collision(t, x[t], rows[t]) {
      UpsertOrderOf(t);
    }
  }

  /** The n-th table's turn. */
  method UpsertAt(ghost x: Tables, rows: Rows, n: nat, y: Tables) returns (r: Result<Tables, Failure>)
    requires n < 8 && AllCleared(x, rows) && UpsertedUpTo(x, rows, n, y) && LandedUpTo(x, rows, n)
    ensures r.Ok? ==> UpsertedUpTo(x, rows, n + 1, r.value) && LandedUpTo(x, rows, n + 1)
    ensures r.Err? ==> !(OwnersListed(rows) && forall t: TableName :: !Collision(t, x[t], rows[t]))
  {
    hide UpsertedUpTo, LandedUpTo, Cleared, OwnersAt, Upserted, Collision;
    UpsertTurnOf(n);
    var t := UPSERT_ORDER[n];
    var next := UpsertTable(x, rows, t, y);
    if next.Err? {
      return Err(next.error);
    }
    LandedStep(x, rows, n);
    UpsertStep(x, rows, t, y, next.value);
    return Ok(Put(y, t, next.value));
  }

  method UpsertTables(x: Tables, rows: Rows) returns (r: Result<Tables, Failure>)
    requires AllCleared(x, rows)
    ensures r.Ok? <==> OwnersListed(rows) && forall t: TableName :: !Collision(t, x[t], rows[t])
    ensures r.Ok? ==> forall t: TableName :: Upserted(t, x[t], rows[t], r.value[t])
  {
    hide UpsertedUpTo, LandedUpTo, Cleared, OwnersAt, Upserted, Collision;
    r := Ok(x);
    NothingUpserted(x, rows);
    for n := 0 to |UPSERT_ORDER|
      invariant r.Ok? && UpsertedUpTo(x, rows, n, r.value) && LandedUpTo(x, rows, n)
    {
      r := UpsertAt(x, rows, n, r.value);
      if r.Err? {
        return;
      }
    }
    AllUpserted(x, rows, r.value);
  }

  lemma NothingUpserted(x: Tables, rows: Rows)
    requires AllCleared(x, rows)
    ensures UpsertedUpTo(x, rows, 0, x) && LandedUpTo(x, rows, 0)
  {
  }

  lemma AllUpserted(x: Tables, rows: Rows, y: Tables)
    requires AllCleared(x, rows) && UpsertedUpTo(x, rows, 8, y) && LandedUpTo(x, rows, 8)
    ensures OwnersListed(rows)
    ensures forall t: TableName :: Upserted(t, x[t], rows[t], y[t]) && !Collision(t, x[t], rows[t])
  {
    hide Upserted, Collision, Cleared, OwnersAt;
  }

  // ------------------------------------------- prune, evict, park, upsert: all

  /** What is left of a table when its upserts start. */
  function Slate(t: TableName, x: Table, ids: set<int>, nonce: string): Table {
    ParkTo(Evict(t, KeptRows(t, x, ids), ids), nonce, KeyCount(t), {})
  }

  /** The built-in zones an import leaves where they are. */
  function Builtins(t: TableName, x: Table, ids: set<int>): set<int> {
    set i | i in x && t == Zones && x[i].kind == Internal && i !in ids
  }

  /** The row a bundle row lands on: not a built-in, which gives way first. */
  function Prior(x: Table, id: int): Option<Row> {
    if id in x && x[id].kind != Internal then Some(x[id]) else None
  }

  /** A built-in zone that stays has the name of one of the bundle's. */
  ghost predicate NameTaken(x: Table, rows: seq<Entry>)
    requires AllShaped(Zones, x) && RowsOk(Zones, rows)
  {
    exists j, k | j in x && 0 <= k < |rows| ::
      x[j].kind == Internal && j !in Ids(rows) && Clash(Zones, x[j], rows[k].row)
  }

  /** A table after an import, from the table before it and the bundle alone. */
  ghost predicate Synced(t: TableName, x: Table, rows: seq<Entry>, y: Table) {
    && y.Keys == Ids(rows) + Builtins(t, x, Ids(rows))
    && (forall k | 0 <= k < |rows| :: rows[k].id in y && y[rows[k].id] == Merge(t, Prior(x, rows[k].id), rows[k].row))
    && (forall j | j in Builtins(t, x, Ids(rows)) :: y[j] == x[j])
  }

  ghost predicate FreshRows(nonce: string, rows: seq<Entry>) {
    forall k | 0 <= k < |rows| :: FreshFor(nonce, rows[k].row)
  }

  lemma SlateRow(t: TableName, x: Table, ids: set<int>, nonce: string, i: int)
    requires AllShaped(t, x) && i in Slate(t, x, ids, nonce)
    ensures i in x && Slate(t, x, ids, nonce)[i] == ParkRow(x[i], i, nonce, KeyCount(t))
    ensures if i in ids then x[i].kind != Internal else t == Zones && x[i].kind == Internal
  {
  }

  /** A parked row shares no key with a row of the bundle. */
  lemma ParkedApart(t: TableName, a: Row, i: int, nonce: string, r: Row)
    requires Shaped(t, a) && Shaped(t, r) && a.kind != Internal && FreshFor(nonce, r)
    ensures !Clash(t, ParkRow(a, i, nonce, KeyCount(t)), r)
  {
    ParkedHasPrefix(nonce, i);
  }

  lemma SlateApart(t: TableName, x: Table, rows: seq<Entry>, nonce: string, k: nat)
    requires AllShaped(t, x) && RowsOk(t, rows) && FreshRows(nonce, rows) && k < |rows|
    ensures AllShaped(t, Slate(t, x, Ids(rows), nonce))
    ensures Apart(t, Slate(t, x, Ids(rows), nonce), Ids(rows), rows[k].row)
  {
    var s := Slate(t, x, Ids(rows), nonce);
    forall j | j in s ensures Shaped(t, s[j]) && (j in Ids(rows) ==> !Clash(t, s[j], rows[k].row)) {
      SlateRow(t, x, Ids(rows), nonce, j);
      if j in Ids(rows) {
        ParkedApart(t, x[j], j, nonce, rows[k].row);
      }
    }
  }

  lemma SlateCleared(t: TableName, x: Table, rows: seq<Entry>, nonce: string)
    requires TableOk(t, x) && FreshTable(nonce, x) && RowsOk(t, rows) && FreshRows(nonce, rows)
    ensures Cleared(t, Slate(t, x, Ids(rows), nonce), rows)
  {
    var s := Slate(t, x, Ids(rows), nonce);
    ParkingNeverClashes(t, Evict(t, KeptRows(t, x, Ids(rows)), Ids(rows)), nonce, KeyCount(t), {});
    forall k | 0 <= k < |rows| ensures Apart(t, s, Ids(rows), rows[k].row) {
      SlateApart(t, x, rows, nonce, k);
    }
    forall j | j in s && j !in Ids(rows) ensures t == Zones && s[j].kind == Internal {
      SlateRow(t, x, Ids(rows), nonce, j);
    }
  }

  lemma SlateCollides(t: TableName, x: Table, rows: seq<Entry>, nonce: string)
    requires TableOk(t, x) && RowsOk(t, rows) && Cleared(t, Slate(t, x, Ids(rows), nonce), rows)
    ensures Collision(t, Slate(t, x, Ids(rows), nonce), rows) <==> t == Zones && NameTaken(x, rows)
  {
    var s := Slate(t, x, Ids(rows), nonce);
    if Collision(t, s, rows) {
      var k :| 0 <= k < |rows| && Collides(t, s, Ids(rows), rows[k].row);
      var j :| j in s && j !in Ids(rows) && Clash(t, s[j], rows[k].row);
      SlateRow(t, x, Ids(rows), nonce, j);
    }
    if t == Zones && NameTaken(x, rows) {
      var j, k :| j in x && 0 <= k < |rows| && x[j].kind == Internal && j !in Ids(rows)
          && Clash(Zones, x[j], rows[k].row);
      assert j in s && s[j] == x[j];
      assert Collides(t, s, Ids(rows), rows[k].row);
    }
  }

  lemma SlateKeys(t: TableName, x: Table, ids: set<int>, nonce: string)
    requires AllShaped(t, x)
    ensures Slate(t, x, ids, nonce).Keys + ids == ids + Builtins(t, x, ids)
    ensures forall j | j in Builtins(t, x, ids) :: j in Slate(t, x, ids, nonce) && Slate(t, x, ids, nonce)[j] == x[j]
  {
    var s := Slate(t, x, ids, nonce);
    forall i ensures i in s.Keys + ids <==> i in ids + Builtins(t, x, ids) {
      if i in s { SlateRow(t, x, ids, nonce, i); }
    }
  }

  lemma SlatePrior(t: TableName, x: Table, ids: set<int>, nonce: string, id: int, r: Row)
    requires AllShaped(t, x) && id in ids
    ensures Merge(t, At(Slate(t, x, ids, nonce), id), r) == Merge(t, Prior(x, id), r)
  {
  }

  lemma SlateUpserted(t: TableName, x: Table, rows: seq<Entry>, nonce: string, y: Table)
    requires AllShaped(t, x) && Upserted(t, Slate(t, x, Ids(rows), nonce), rows, y)
    ensures Synced(t, x, rows, y)
  {
    var ids := Ids(rows);
    var s := Slate(t, x, ids, nonce);
    SlateKeys(t, x, ids, nonce);
    forall j | j in Builtins(t, x, ids) ensures y[j] == x[j] {
      assert j in s && j !in ids;
    }
    forall k | 0 <= k < |rows| ensures rows[k].id in y && y[rows[k].id] == Merge(t, Prior(x, rows[k].id), rows[k].row) {
      SlatePrior(t, x, ids, nonce, rows[k].id, rows[k].row);
    }
  }

  ghost predicate AtRest(x: Tables) {
    (forall t: TableName :: TableOk(t, x[t])) && OwnersHold(x)
  }

  ghost predicate FreshAll(nonce: string, x: Tables, rows: Rows) {
    forall t: TableName :: FreshTable(nonce, x[t]) && FreshRows(nonce, rows[t])
  }

  ghost predicate SlatesUpTo(x: Tables, rows: Rows, nonce: string, y: Tables) {
    forall t: TableName :: y[t] == Slate(t, x[t], Ids(rows[t]), nonce)
  }

  lemma EvictOnlyZones(t: TableName, x: Table, ids: set<int>)
    requires t != Zones
    ensures Evict(t, x, ids) == x
  {
  }

  lemma ColumnsAll(t: TableName)
    ensures Columns(t, 8) == KeyCount(t)
  {
  }

  ghost predicate EvictedAll(x: Tables, rows: Rows, z: Tables) {
    forall t: TableName :: z[t] == Evict(t, KeptRows(t, x[t], Ids(rows[t])), Ids(rows[t]))
  }

  /** Prune and evict. */
  method MakeRoom(x: Tables, rows: Rows) returns (r: Result<Tables, Failure>)
    requires OwnersHold(x)
    ensures r.Ok? <==> !Strands(x, rows)
    ensures r.Ok? ==> EvictedAll(x, rows, r.value)
  {
    var pruned := PruneAll(x, rows);
    if pruned.Err? {
      return pruned;
    }
    var y := pruned.value;
    forall t: TableName | t != Zones
      ensures Evict(t, y[t], Ids(rows[t])) == y[t]
    {
      EvictOnlyZones(t, y[t], Ids(rows[t]));
    }
    return Ok(Put(y, Zones, Evict(Zones, y[Zones], Ids(rows[Zones]))));
  }

  /** Prune, evict, park: never a broken key, a broken reference exactly when a kept row
      is stranded. */
  method Clear(x: Tables, rows: Rows, nonce: string) returns (r: Result<Tables, Failure>)
    requires AtRest(x) && RowsFit(rows) && FreshAll(nonce, x, rows)
    ensures r.Ok? <==> !Strands(x, rows)
    ensures r.Ok? ==> SlatesUpTo(x, rows, nonce, r.value)
  {
    var room := MakeRoom(x, rows);
    if room.Err? {
      return room;
    }
    forall t: TableName ensures TableOk(t, room.value[t]) && FreshTable(nonce, room.value[t]) {
      EvictedTable(t, x[t], rows[t], nonce);
    }
    r := ParkAll(room.value, nonce);
    forall t: TableName ensures r.value[t] == Slate(t, x[t], Ids(rows[t]), nonce) { ColumnsAll(t); }
  }

  lemma EvictedTable(t: TableName, x: Table, rows: seq<Entry>, nonce: string)
    requires TableOk(t, x) && FreshTable(nonce, x)
    ensures var z := Evict(t, KeptRows(t, x, Ids(rows)), Ids(rows)); TableOk(t, z) && FreshTable(nonce, z)
  {
  }

  /** The synced tables through a whole import, from any database at rest: it fails
      exactly when a kept row is stranded, a bundle row names a parent the bundle lacks,
      or a built-in that stays has a bundle zone's name - never because two surviving
      rows trade keys. */
  method ImportTables(x: Tables, rows: Rows, nonce: string) returns (r: Result<Tables, Failure>)
    requires AtRest(x) && RowsFit(rows) && FreshAll(nonce, x, rows)
    ensures r.Ok? <==> !Strands(x, rows) && OwnersListed(rows) && !NameTaken(x[Zones], rows[Zones])
    ensures r.Ok? ==> forall t: TableName :: Synced(t, x[t], rows[t], r.value[t])
  {
    var slate := Clear(x, rows, nonce);
    if slate.Err? {
      return slate;
    }
    forall t: TableName
      ensures Cleared(t, slate.value[t], rows[t])
      ensures Collision(t, slate.value[t], rows[t]) <==> t == Zones && NameTaken(x[t], rows[t])
    {
      SlateCleared(t, x[t], rows[t], nonce);
      SlateCollides(t, x[t], rows[t], nonce);
    }
    r := UpsertTables(slate.value, rows);
    if r.Ok? {
      forall t: TableName ensures Synced(t, x[t], rows[t], r.value[t]) {
        SlateUpserted(t, x[t], rows[t], nonce, r.value[t]);
      }
    }
  }
}
