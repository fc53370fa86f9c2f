/** The database an import works on: one transaction over the synced tables, the zone
    records, the list assignments and the settings. */
module Store {
  import opened Wrappers
  import opened Schema
  import opened Import

  // ---------------------------------------------------------------- settings

  /** What an import leaves: this box's local keys, the main's synced ones. */
  function SyncedSettings(mine: map<string, string>, theirs: map<string, string>): map<string, string> {
    map key | key in mine.Keys + theirs.Keys && (if LocalSettingKey(key) then key in mine else key in theirs) ::
      if LocalSettingKey(key) then mine[key] else theirs[key]
  }

  /** staleSettings and the deletes that follow it. */
  method DropStale(mine: map<string, string>, theirs: map<string, string>) returns (s: map<string, string>)
    ensures s == map key | key in mine && (key in theirs || LocalSettingKey(key)) :: mine[key]
  {
    s := mine;
    var stale := set key | key in mine && key !in theirs && !LocalSettingKey(key);
    var todo := stale;
    while todo != {}
      invariant todo <= stale
      invariant s == map key | key in mine && (key !in stale || key in todo) :: mine[key]
    {
      var key :| key in todo;
      todo := todo - {key};
      s := s - {key};
    }
  }

  /** importSettings. */
  method ImportSettings(mine: map<string, string>, theirs: map<string, string>) returns (s: map<string, string>)
    ensures s == SyncedSettings(mine, theirs)
  {
    s := DropStale(mine, theirs);
    var todo := theirs.Keys;
    while todo != {}
      invariant todo <= theirs.Keys
      invariant s.Keys == (set key | key in mine && (key in theirs || LocalSettingKey(key)))
                          + (set key | key in theirs && key !in todo && !LocalSettingKey(key))
      invariant forall key | key in s ::
        s[key] == if key in theirs && key !in todo && !LocalSettingKey(key) then theirs[key]
                  else (assert key in mine; mine[key])
    {
      var key :| key in todo;
      todo := todo - {key};
      if !LocalSettingKey(key) {
        s := s[key := theirs[key]];
      }
    }
  }

  // ------------------------------------------------------------- assignments

  ghost predicate Assignable(pairs: seq<(int, int)>, x: Tables) {
    && (forall i, j | 0 <= i < j < |pairs| :: pairs[i] != pairs[j])
    && (forall i | 0 <= i < |pairs| :: pairs[i].0 in x[Groups] && pairs[i].1 in x[Lists])
  }

  /** group_lists, refilled after it was emptied. */
  method Assign(pairs: seq<(int, int)>, x: Tables) returns (r: Result<set<(int, int)>, Failure>)
    ensures r.Ok? <==> Assignable(pairs, x)
    ensures r.Ok? ==> r.value == set p | p in pairs
  {
    var done := {};
    for n := 0 to |pairs|
      invariant done == set p | p in pairs[..n]
      invariant Assignable(pairs[..n], x)
    {
      assert pairs[..n + 1] == pairs[..n] + [pairs[n]];
      var p := pairs[n];
      if p in done {
        return Err(Duplicate);
      }
      if p.0 !in x[Groups] || p.1 !in x[Lists] {
        return Err(Reference);
      }
      done := done + {p};
    }
    assert pairs[..|pairs|] == pairs;
    return Ok(done);
  }

  // ----------------------------------------------------------------- records

  /** The records of the zones that neither went nor gave way. */
  function Cascade(records: map<int, set<Rec>>, zones: Table, ids: set<int>): map<int, set<Rec>> {
    map i | i in records && i in zones && (zones[i].kind == Internal <==> i !in ids) :: records[i]
  }

  predicate Answered(rows: seq<Entry>, i: int) {
    exists k | 0 <= k < |rows| :: rows[k].id == i && rows[k].row.kind == AnsweredElsewhere
  }

  /** A zone answered elsewhere keeps no records. */
  method DropAnswered(records: map<int, set<Rec>>, rows: seq<Entry>) returns (r: map<int, set<Rec>>)
    ensures r == map i | i in records && !Answered(rows, i) :: records[i]
  {
    r := records;
    for n := 0 to |rows|
      invariant r == map i | i in records && !Answered(rows[..n], i) :: records[i]
    {
      assert rows[..n + 1] == rows[..n] + [rows[n]];
      assert forall i :: Answered(rows[..n + 1], i) <==> Answered(rows[..n], i) || Answered([rows[n]], i);
      if rows[n].row.kind == AnsweredElsewhere {
        r := r - {rows[n].id};
      }
    }
    assert rows[..|rows|] == rows;
  }

  // ----------------------------------------------------------------- seeding

  /** Zones, their records, and the largest zone id ever handed out. */
  datatype Zoned = Zoned(zones: Table, records: map<int, set<Rec>>, last: int)

  ghost predicate ZonedOk(z: Zoned) {
    && TableOk(Zones, z.zones)
    && (forall i | i in z.zones :: i <= z.last)
    && z.records.Keys <= z.zones.Keys
  }

  function Apex(name: string): Rec {
    Rec("@", "NS", "ns." + name + ".")
  }

  function BuiltinZone(name: string, now: int): Row {
    Row(Internal, [name], 0, ["ns." + name, "hostadmin." + name], Own(now, 1, 0, ""))
  }

  predicate Named(x: Table, name: string) {
    exists i | i in x :: x[i].keys == [name]
  }

  /** A built-in zone as it is seeded: its name one of the list, its SOA made from the name,
      serial 1, never refreshed, no key. */
  predicate IsBuiltin(names: seq<string>, r: Row) {
    && r.kind == Internal && |r.keys| == 1 && r.keys[0] in names && r.owner == 0
    && r.cols == ["ns." + r.keys[0], "hostadmin." + r.keys[0]]
    && r.own.serial == 1 && r.own.refreshed == 0 && r.own.fetched == ""
  }

  /** Row i is new: a built-in of a name nothing had, at an id nothing had. */
  predicate NewBuiltin(x: Table, last: int, names: seq<string>, r: Row, i: int) {
    i > last && IsBuiltin(names, r) && !Named(x, r.keys[0])
  }

  ghost predicate Seeded(a: Zoned, names: seq<string>, b: Zoned) {
    && (forall i | i in a.zones :: i in b.zones && b.zones[i] == a.zones[i])
    && (forall i | i in b.zones && i !in a.zones :: NewBuiltin(a.zones, a.last, names, b.zones[i], i))
    && (forall n | 0 <= n < |names| :: Named(b.zones, names[n]))
  }

  /** Every zone keeps its records; a new one has its apex NS. */
  ghost predicate ApexOnly(a: Zoned, b: Zoned) {
    forall i | i in b.zones && |b.zones[i].keys| == 1 :: Recs(b.records, i) == if i in a.zones then Recs(a.records, i)
        else {Rec("@", "NS", "ns." + b.zones[i].keys[0] + ".")}
  }

  method AddZone(z: Zoned, name: string, now: int) returns (r: Zoned)
    requires ZonedOk(z)
    ensures ZonedOk(r) && Seeded(z, [name], r) && ApexOnly(z, r)
    ensures r.last >= z.last
  {
    if Named(z.zones, name) {
      return z;
    }
    var id := z.last + 1;
    r := Zoned(z.zones[id := BuiltinZone(name, now)], z.records[id := {Apex(name)}], id);
    assert r.zones[id].keys == [name];
    forall i | i in z.zones ensures !Clash(Zones, r.zones[i], r.zones[id]) && !Clash(Zones, r.zones[id], r.zones[i]) {
      assert z.zones[i].keys == [z.zones[i].keys[0]];
    }
  }

  lemma SeededThen(a: Zoned, names: seq<string>, b: Zoned, name: string, c: Zoned)
    requires Seeded(a, names, b) && Seeded(b, [name], c) && ZonedOk(a) && a.last <= b.last
    ensures Seeded(a, names + [name], c)
  {
    forall i | i in c.zones && i !in a.zones ensures NewBuiltin(a.zones, a.last, names + [name], c.zones[i], i) {
      if i !in b.zones {
        if Named(a.zones, c.zones[i].keys[0]) { StillNamed(a, names, b, c.zones[i].keys[0]); }
      }
    }
    forall n | 0 <= n < |names + [name]| ensures Named(c.zones, (names + [name])[n]) {
      if n < |names| {
        StillNamed(b, [name], c, names[n]);
      } else {
        assert Named(c.zones, [name][0]);
      }
    }
  }

  lemma StillNamed(a: Zoned, names: seq<string>, b: Zoned, name: string)
    requires Seeded(a, names, b) && Named(a.zones, name)
    ensures Named(b.zones, name)
  {
    var i :| i in a.zones && a.zones[i].keys == [name];
    assert b.zones[i].keys == [name];
  }

  lemma ApexThen(a: Zoned, names: seq<string>, b: Zoned, name: string, c: Zoned)
    requires Seeded(a, names, b) && Seeded(b, [name], c) && ApexOnly(a, b) && ApexOnly(b, c)
    ensures ApexOnly(a, c)
  {
  }

  /** seedBuiltinZones, its zone half. */
  method SeedZones(z: Zoned, names: seq<string>, now: int) returns (r: Zoned)
    requires ZonedOk(z)
    ensures ZonedOk(r) && Seeded(z, names, r) && ApexOnly(z, r)
  {
    r := z;
    for n := 0 to |names|
      invariant ZonedOk(r) && Seeded(z, names[..n], r) && ApexOnly(z, r) && z.last <= r.last
    {
      var next := AddZone(r, names[n], now);
      assert names[..n + 1] == names[..n] + [names[n]];
      SeededThen(z, names[..n], r, names[n], next);
      ApexThen(z, names[..n], r, names[n], next);
      r := next;
    }
    assert names[..|names|] == names;
  }

  // ---------------------------------------------------------- seeded content

  predicate HasType(recs: set<Rec>, name: string, rtype: string) {
    exists e | e in recs :: e.name == name && e.rtype == rtype
  }

  /** `after` is `before` with the built-in content of zone `name` that it lacked. */
  predicate Filled(before: set<Rec>, name: string, content: seq<(string, Rec)>, after: set<Rec>) {
    && before <= after
    && (forall e | e in after - before :: (name, e) in content && !HasType(before, e.name, e.rtype))
    && (forall n | 0 <= n < |content| && content[n].0 == name :: HasType(after, content[n].1.name, content[n].1.rtype))
  }

  /** Content goes into built-in zones only; every other zone keeps its records. */
  ghost predicate FilledAll(zones: Table, before: map<int, set<Rec>>, content: seq<(string, Rec)>,
      after: map<int, set<Rec>>) {
    && after.Keys <= zones.Keys
    && (forall i | i in zones && zones[i].kind != Internal :: Recs(after, i) == Recs(before, i))
    && (forall i | i in zones && zones[i].kind == Internal && |zones[i].keys| == 1 ::
          Filled(Recs(before, i), zones[i].keys[0], content, Recs(after, i)))
  }

  lemma FilledMore(before: set<Rec>, name: string, content: seq<(string, Rec)>, mid: set<Rec>, c: (string, Rec),
      after: set<Rec>)
    requires Filled(before, name, content, mid) && mid <= after
    requires after == mid || (c.0 == name && after == mid + {c.1} && !HasType(mid, c.1.name, c.1.rtype))
    requires c.0 == name ==> HasType(after, c.1.name, c.1.rtype)
    ensures Filled(before, name, content + [c], after)
  {
    forall n | 0 <= n < |content + [c]| && (content + [c])[n].0 == name
      ensures HasType(after, (content + [c])[n].1.name, (content + [c])[n].1.rtype)
    {
      if n < |content| {
        var e :| e in mid && e.name == content[n].1.name && e.rtype == content[n].1.rtype;
        assert e in after;
      }
    }
    forall e | e in after - before ensures (name, e) in content + [c] && !HasType(before, e.name, e.rtype) {
      if e in mid {
        assert e in mid - before;
      } else {
        assert (content + [c])[|content|] == (name, e);
      }
    }
  }

  /** One record of the content. */
  method AddContent(zones: Table, ghost before: map<int, set<Rec>>, ghost done: seq<(string, Rec)>, c: (string, Rec),
      mid: map<int, set<Rec>>)
      returns (after: map<int, set<Rec>>)
    requires TableOk(Zones, zones) && FilledAll(zones, before, done, mid)
    ensures FilledAll(zones, before, done + [c], after)
  {
    after := mid;
    if i :| i in zones && zones[i].keys == [c.0] {
      if zones[i].kind == Internal && !HasType(Recs(mid, i), c.1.name, c.1.rtype) {
        after := mid[i := Recs(mid, i) + {c.1}];
        assert c.1 in Recs(after, i);
      }
      forall j | j in zones && zones[j].kind == Internal
        ensures Filled(Recs(before, j), zones[j].keys[0], done + [c], Recs(after, j))
      {
        if zones[j].keys[0] == c.0 && j != i {
          assert Clash(Zones, zones[i], zones[j]);
        }
        FilledMore(Recs(before, j), zones[j].keys[0], done, Recs(mid, j), c, Recs(after, j));
      }
    } else {
      forall j | j in zones && zones[j].kind == Internal
        ensures Filled(Recs(before, j), zones[j].keys[0], done + [c], Recs(after, j))
      {
        assert zones[j].keys == [zones[j].keys[0]];
        FilledMore(Recs(before, j), zones[j].keys[0], done, Recs(mid, j), c, Recs(after, j));
      }
    }
  }

  /** seedBuiltinZoneRecords. */
  method SeedRecords(zones: Table, records: map<int, set<Rec>>, content: seq<(string, Rec)>)
      returns (r: map<int, set<Rec>>)
    requires TableOk(Zones, zones) && records.Keys <= zones.Keys
    ensures FilledAll(zones, records, content, r)
  {
    r := records;
    for n := 0 to |content|
      invariant FilledAll(zones, records, content[..n], r)
    {
      assert content[..n + 1] == content[..n] + [content[n]];
      r := AddContent(zones, records, content[..n], content[n], r);
    }
    assert content[..|content|] == content;
  }

  // -------------------------------------------------------- the whole import

  /** A built-in has to give way to a bundle zone at its id. */
  predicate Evicts(x: Table, ids: set<int>) {
    exists i | i in x :: x[i].kind == Internal && i in ids
  }

  /** Zones after an import: the bundle's at their ids, the built-ins that stay, and, if
      any gave way, every missing built-in again at an id past all of them. */
  ghost predicate ZonesApplied(x: Table, rows: seq<Entry>, names: seq<string>, y: Table) {
    var ids := Ids(rows);
    && (forall k | 0 <= k < |rows| ::
        rows[k].id in y && y[rows[k].id] == Merge(Zones, Prior(x, rows[k].id), rows[k].row))
    && (forall j | j in Builtins(Zones, x, ids) :: j in y && y[j] == x[j])
    && (forall i | i in y && i !in ids && i !in Builtins(Zones, x, ids) ::
        Evicts(x, ids) && Reseeded(x, ids, names, y[i], i))
    && (Evicts(x, ids) ==> forall n | 0 <= n < |names| :: Named(y, names[n]))
  }

  ghost predicate Reseeded(x: Table, ids: set<int>, names: seq<string>, r: Row, i: int) {
    IsBuiltin(names, r) && (forall j | j in ids || j in x :: j < i)
  }

  /** The records an import leaves the k-th bundle zone. */
  function RecordsKept(x: Table, records: map<int, set<Rec>>, e: Entry): set<Rec> {
    if e.row.kind == HoldsRecords && Prior(x, e.id).Some? then Recs(records, e.id) else {}
  }

  ghost predicate RecordsApplied(before: Db, rows: seq<Entry>, content: seq<(string, Rec)>, y: Table,
      after: map<int, set<Rec>>) {
    var x, ids := before.tables[Zones], Ids(rows);
    && after.Keys <= y.Keys
    && (forall k | 0 <= k < |rows| :: Recs(after, rows[k].id) == RecordsKept(x, before.records, rows[k]))
    && (forall j | j in Builtins(Zones, x, ids) ::
        BuiltinRecords(Recs(before.records, j), x[j], Evicts(x, ids), content, Recs(after, j)))
    && (forall i | i in y && i !in ids && i !in Builtins(Zones, x, ids) && |y[i].keys| == 1 ::
          Filled({Apex(y[i].keys[0])}, y[i].keys[0], content, Recs(after, i)))
  }

  /** A built-in that stays keeps its records; a reseed adds what content it lacked. */
  ghost predicate BuiltinRecords(before: set<Rec>, r: Row, reseeds: bool, content: seq<(string, Rec)>,
      after: set<Rec>) {
    if reseeds then |r.keys| == 1 ==> Filled(before, r.keys[0], content, after) else after == before
  }

  /** Everything a successful import does. */
  ghost predicate Applied(before: Db, b: Bundle, names: seq<string>, content: seq<(string, Rec)>, after: Db) {
    && (forall t: TableName | t != Zones :: Synced(t, before.tables[t], b.rows[t], after.tables[t]))
    && ZonesApplied(before.tables[Zones], b.rows[Zones], names, after.tables[Zones])
    && RecordsApplied(before, b.rows[Zones], content, after.tables[Zones], after.records)
    && after.assignments == (set p | p in b.assignments)
    && after.settings == SyncedSettings(before.settings, b.settings)
    && after.version == before.version + 1
  }

  lemma SourceRow(t: TableName, x: Table, rows: seq<Entry>, y: Table, i: int) returns (a: nat)
    requires Synced(t, x, rows, y) && i in Ids(rows)
    ensures a < |rows| && rows[a].id == i && i in y
    ensures y[i].keys == rows[a].row.keys && y[i].owner == rows[a].row.owner && y[i].kind == rows[a].row.kind
  {
    a :| 0 <= a < |rows| && rows[a].id == i;
    assert y[rows[a].id] == Merge(t, Prior(x, rows[a].id), rows[a].row);
  }

  lemma BundleRowsApart(t: TableName, rows: seq<Entry>, a: nat, c: nat)
    requires RowsOk(t, rows) && a < |rows| && c < |rows| && a != c
    ensures !Clash(t, rows[a].row, rows[c].row)
  {
    if a < c {
      assert !Clash(t, rows[a].row, rows[c].row);
    } else {
      assert !Clash(t, rows[c].row, rows[a].row);
    }
  }

  lemma BundleRowAlone(t: TableName, x: Table, rows: seq<Entry>, y: Table, i: int, j: int)
    requires TableOk(t, x) && RowsOk(t, rows) && Synced(t, x, rows, y) && (t == Zones ==> !NameTaken(x, rows))
    requires i in Ids(rows) && j in Builtins(t, x, Ids(rows)) && i in y && j in y
    requires Shaped(t, y[i]) && Shaped(t, y[j])
    ensures !Clash(t, y[j], y[i])
  {
    var a := SourceRow(t, x, rows, y, i);
    assert y[j] == x[j];
    assert !Clash(Zones, x[j], rows[a].row);
  }

  lemma SyncedRowsApart(t: TableName, x: Table, rows: seq<Entry>, y: Table, i: int, j: int)
    requires RowsOk(t, rows) && Synced(t, x, rows, y)
    requires i in Ids(rows) && j in Ids(rows) && i != j && i in y && j in y
    requires Shaped(t, y[i]) && Shaped(t, y[j])
    ensures !Clash(t, y[i], y[j])
  {
    var a := SourceRow(t, x, rows, y, i);
    var c := SourceRow(t, x, rows, y, j);
    BundleRowsApart(t, rows, a, c);
  }

  lemma SyncedShaped(t: TableName, x: Table, rows: seq<Entry>, y: Table, i: int)
    requires TableOk(t, x) && RowsOk(t, rows) && Synced(t, x, rows, y) && i in y
    ensures Shaped(t, y[i])
  {
    if i in Ids(rows) {
      var a := SourceRow(t, x, rows, y, i);
    }
  }

  /** What an import leaves satisfies the table's own constraints. */
  lemma SyncedOk(t: TableName, x: Table, rows: seq<Entry>, y: Table)
    requires TableOk(t, x) && RowsOk(t, rows) && Synced(t, x, rows, y) && (t == Zones ==> !NameTaken(x, rows))
    ensures TableOk(t, y)
  {
    forall i | i in y ensures Shaped(t, y[i]) { SyncedShaped(t, x, rows, y, i); }
    forall i, j | i in y && j in y && i != j ensures !Clash(t, y[i], y[j]) {
      TwoRowsApart(t, x, rows, y, i, j);
    }
  }

  lemma TwoRowsApart(t: TableName, x: Table, rows: seq<Entry>, y: Table, i: int, j: int)
    requires TableOk(t, x) && RowsOk(t, rows) && Synced(t, x, rows, y) && (t == Zones ==> !NameTaken(x, rows))
    requires i in y && j in y && i != j && Shaped(t, y[i]) && Shaped(t, y[j])
    ensures !Clash(t, y[i], y[j])
  {
    if i in Ids(rows) && j in Ids(rows) {
      SyncedRowsApart(t, x, rows, y, i, j);
    } else if i in Ids(rows) {
      BundleRowAlone(t, x, rows, y, i, j);
    } else if j in Ids(rows) {
      BundleRowAlone(t, x, rows, y, j, i);
    } else {
      assert !Clash(t, x[i], x[j]);
    }
  }

  /** The sequence behind zones.id follows the ids written. */
  method AdvanceSequence(last: int, rows: seq<Entry>) returns (r: int)
    ensures r >= last && forall i | i in Ids(rows) :: i <= r
  {
    r := last;
    for n := 0 to |rows|
      invariant r >= last && forall k | 0 <= k < n :: rows[k].id <= r
    {
      if rows[n].id > r {
        r := rows[n].id;
      }
    }
  }

  lemma RecordsLand(x: Table, rows: seq<Entry>, records: map<int, set<Rec>>, y: Table, left: map<int, set<Rec>>)
    requires RowsOk(Zones, rows) && Synced(Zones, x, rows, y) && records.Keys <= x.Keys
    requires left == map i | i in Cascade(records, x, Ids(rows)) && !Answered(rows, i) :: records[i]
    ensures left.Keys <= y.Keys
    ensures forall k | 0 <= k < |rows| :: Recs(left, rows[k].id) == RecordsKept(x, records, rows[k])
    ensures forall j | j in Builtins(Zones, x, Ids(rows)) :: Recs(left, j) == Recs(records, j)
  {
    forall k | 0 <= k < |rows| ensures Recs(left, rows[k].id) == RecordsKept(x, records, rows[k]) {
      assert rows[k].id in Ids(rows);
      assert Answered(rows, rows[k].id) <==> rows[k].row.kind == AnsweredElsewhere;
    }
  }

  // --------------------------------------------------------------- the store

  ghost predicate RecordsLanded(x: Table, rows: seq<Entry>, records: map<int, set<Rec>>, left: map<int, set<Rec>>) {
    && (forall k | 0 <= k < |rows| :: Recs(left, rows[k].id) == RecordsKept(x, records, rows[k]))
    && (forall j | j in Builtins(Zones, x, Ids(rows)) :: Recs(left, j) == Recs(records, j))
  }

  /** The zones and their records through the last part of an import. */
  ghost predicate ZonesLanded(x: Table, rows: seq<Entry>, records: map<int, set<Rec>>, last: int, mid: Zoned) {
    && ZonedOk(mid) && mid.last >= last
    && (forall i | i in Ids(rows) :: i <= mid.last)
    && Synced(Zones, x, rows, mid.zones)
    && RecordsLanded(x, rows, records, mid.records)
  }

  lemma SeededIsApplied(x: Table, rows: seq<Entry>, records: map<int, set<Rec>>, last: int, mid: Zoned,
      names: seq<string>, z: Zoned)
    requires ZonesLanded(x, rows, records, last, mid) && Seeded(mid, names, z) && Evicts(x, Ids(rows))
    requires forall i | i in x :: i <= last
    ensures ZonesApplied(x, rows, names, z.zones)
  {
    var ids := Ids(rows);
    forall j | j in Builtins(Zones, x, ids) ensures j in z.zones && z.zones[j] == x[j] {
      assert j in mid.zones;
    }
    forall i | i in z.zones && i !in ids && i !in Builtins(Zones, x, ids)
      ensures Reseeded(x, ids, names, z.zones[i], i)
    {
      assert i !in mid.zones;
    }
  }

  lemma NotSeededIsApplied(x: Table, rows: seq<Entry>, names: seq<string>, y: Table)
    requires Synced(Zones, x, rows, y) && !Evicts(x, Ids(rows))
    ensures ZonesApplied(x, rows, names, y)
  {
  }

  lemma SeededRecords(before: Db, rows: seq<Entry>, last: int, mid: Zoned, names: seq<string>, z: Zoned,
                      content: seq<(string, Rec)>, filled: map<int, set<Rec>>)
    requires var x := before.tables[Zones];
             ZonesLanded(x, rows, before.records, last, mid) && Evicts(x, Ids(rows)) && RowsOk(Zones, rows)
    requires Seeded(mid, names, z) && ApexOnly(mid, z) && ZonedOk(z) && FilledAll(z.zones, z.records, content, filled)
    ensures RecordsApplied(before, rows, content, z.zones, filled)
  {
    var x, y, ids := before.tables[Zones], z.zones, Ids(rows);
    forall k | 0 <= k < |rows| ensures Recs(filled, rows[k].id) == RecordsKept(x, before.records, rows[k]) {
      BundleZoneRecords(before, rows, last, mid, names, z, content, filled, k);
    }
    forall j | j in Builtins(Zones, x, ids)
      ensures BuiltinRecords(Recs(before.records, j), x[j], true, content, Recs(filled, j))
    {
      assert j in mid.zones && mid.zones[j] == x[j] && y[j] == x[j];
    }
    forall i | i in y && i !in ids && i !in Builtins(Zones, x, ids)
      ensures Filled({Apex(y[i].keys[0])}, y[i].keys[0], content, Recs(filled, i))
    {
      assert i !in mid.zones;
      assert NewBuiltin(mid.zones, mid.last, names, y[i], i);
    }
  }

  lemma BundleZoneRecords(before: Db, rows: seq<Entry>, last: int, mid: Zoned, names: seq<string>, z: Zoned,
                          content: seq<(string, Rec)>, filled: map<int, set<Rec>>, k: nat)
    requires ZonesLanded(before.tables[Zones], rows, before.records, last, mid) && RowsOk(Zones, rows) && k < |rows|
    requires Seeded(mid, names, z) && ApexOnly(mid, z) && FilledAll(z.zones, z.records, content, filled)
    ensures Recs(filled, rows[k].id) == RecordsKept(before.tables[Zones], before.records, rows[k])
  {
    var i := rows[k].id;
    assert mid.zones[i].kind == rows[k].row.kind != Internal;
    assert z.zones[i] == mid.zones[i] && |mid.zones[i].keys| == 1;
  }

  ghost predicate AllSynced(x: Tables, rows: Rows, y: Tables) {
    forall t: TableName :: Synced(t, x[t], rows[t], y[t])
  }

  lemma ConsistentRests(db: Db)
    requires Consistent(db)
    ensures AtRest(db.tables)
  {
    forall t: TableName | Parent(t).Some? ensures OwnersIn(db.tables[t], db.tables[Parent(t).value].Keys) {
      forall i | i in db.tables[t] ensures db.tables[t][i].owner in db.tables[Parent(t).value].Keys {
        assert OwnerIn(t, db.tables[t][i], db.tables);
      }
    }
  }

  /** The zone records and the zone sequence, up to the reseed. */
  method LandZones(db: Db, last: int, rows: seq<Entry>, y: Table) returns (mid: Zoned)
    requires TableOk(Zones, db.tables[Zones]) && db.records.Keys <= db.tables[Zones].Keys && LastZone(db, last)
    requires RowsOk(Zones, rows) && Synced(Zones, db.tables[Zones], rows, y) && !NameTaken(db.tables[Zones], rows)
    ensures ZonesLanded(db.tables[Zones], rows, db.records, last, mid) && mid.zones == y
  {
    var x := db.tables[Zones];
    var left := DropAnswered(Cascade(db.records, x, Ids(rows)), rows);
    RecordsLand(x, rows, db.records, y, left);
    var next := AdvanceSequence(last, rows);
    SyncedOk(Zones, x, rows, y);
    return Zoned(y, left, next);
  }

  lemma OwnerSynced(t: TableName, x: Tables, rows: Rows, y: Tables, i: int)
    requires OwnersAt(rows, t) && Parent(t).Some? && i in y[t]
    requires Synced(t, x[t], rows[t], y[t])
             && Synced(Parent(t).value, x[Parent(t).value], rows[Parent(t).value], y[Parent(t).value])
    ensures y[t][i].owner in y[Parent(t).value]
  {
    var a := SourceRow(t, x[t], rows[t], y[t], i);
  }

  lemma OwnersSynced(x: Tables, rows: Rows, y: Tables)
    requires OwnersListed(rows) && forall t: TableName | t != Zones :: Synced(t, x[t], rows[t], y[t])
    ensures forall t: TableName, i | i in y[t] :: OwnerIn(t, y[t][i], y)
  {
    hide Synced;
    forall t: TableName, i | i in y[t] ensures OwnerIn(t, y[t][i], y) {
      if Parent(t).Some? {
        OwnerSynced(t, x, rows, y, i);
      }
    }
  }

  /** The assignments go in exactly when the bundle carries their groups and lists. */
  lemma PairsLand(x: Tables, b: Bundle, y: Tables)
    requires Synced(Groups, x[Groups], b.rows[Groups], y[Groups]) && Synced(Lists, x[Lists], b.rows[Lists], y[Lists])
    ensures Assignable(b.assignments, y) <==> PairsListed(b)
  {
    assert y[Groups].Keys == Ids(b.rows[Groups]) && y[Lists].Keys == Ids(b.rows[Lists]);
  }

  lemma PairsConsistent(b: Bundle, y: Tables, p: (int, int))
    requires Assignable(b.assignments, y) && p in b.assignments
    ensures p.0 in y[Groups] && p.1 in y[Lists]
  {
    var i :| 0 <= i < |b.assignments| && b.assignments[i] == p;
  }

  lemma AppliedConsistent(before: Db, b: Bundle, after: Db)
    requires (forall t: TableName :: TableOk(t, before.tables[t])) && RowsFit(b.rows) && OwnersListed(b.rows)
             && PairsListed(b)
    requires forall t: TableName | t != Zones :: Synced(t, before.tables[t], b.rows[t], after.tables[t])
    requires TableOk(Zones, after.tables[Zones]) && after.records.Keys <= after.tables[Zones].Keys
    requires after.assignments == set p | p in b.assignments
    ensures Consistent(after)
  {
    forall t: TableName | t != Zones ensures TableOk(t, after.tables[t]) {
      SyncedOk(t, before.tables[t], b.rows[t], after.tables[t]);
    }
    OwnersSynced(before.tables, b.rows, after.tables);
    PairsLand(before.tables, b, after.tables);
    forall p | p in after.assignments ensures p.0 in after.tables[Groups] && p.1 in after.tables[Lists] {
      PairsConsistent(b, after.tables, p);
    }
  }

  ghost predicate RowsLanded(db: Db, last: int, b: Bundle, tables: Tables, mid: Zoned) {
    && AllSynced(db.tables, b.rows, tables) && mid.zones == tables[Zones]
    && ZonesLanded(db.tables[Zones], b.rows[Zones], db.records, last, mid)
  }

  ghost predicate LastZone(db: Db, last: int) {
    forall i | i in db.tables[Zones] :: i <= last
  }

  /** The transaction's statements on the synced tables, the records and the zone
      sequence. */
  method ImportRows(db: Db, last: int, b: Bundle, nonce: string) returns (r: Result<(Tables, Zoned), Failure>)
    requires Consistent(db) && LastZone(db, last) && RowsFit(b.rows) && FreshAll(nonce, db.tables, b.rows)
    ensures r.Ok? <==>
            !Strands(db.tables, b.rows) && OwnersListed(b.rows) && !NameTaken(db.tables[Zones], b.rows[Zones])
    ensures r.Ok? ==> RowsLanded(db, last, b, r.value.0, r.value.1)
  {
    ConsistentRests(db);
    var tables := ImportTables(db.tables, b.rows, nonce);
    if tables.Err? {
      return Err(tables.error);
    }
    var mid := LandZones(db, last, b.rows[Zones], tables.value[Zones]);
    return Ok((tables.value, mid));
  }

  /** Assignments, settings, reseed and version bump: only an assignment can fail. */
  method Finish(db: Db, last: int, b: Bundle, names: seq<string>, content: seq<(string, Rec)>, now: int,
      tables: Tables, mid: Zoned)
      returns (r: Result<(Db, int), Failure>)
    requires Consistent(db) && LastZone(db, last) && RowsFit(b.rows) && OwnersListed(b.rows)
             && RowsLanded(db, last, b, tables, mid)
    ensures r.Ok? <==> PairsListed(b)
    ensures r.Ok? ==>
            Applied(db, b, names, content, r.value.0) && Consistent(r.value.0) && LastZone(r.value.0, r.value.1)
  {
    hide *;
    PairsReady(db, last, b, tables, mid);
    var pairs := Assign(b.assignments, tables);
    if pairs.Err? {
      return Err(pairs.error);
    }
    var settings := ImportSettings(db.settings, b.settings);
    LandedZones(db, last, b, tables, mid);
    var zoned, filled := Reseed(db, last, b.rows[Zones], names, content, mid, now);
    var final := Put(tables, Zones, zoned.zones);
    var done := Db(final, pairs.value, filled, settings, db.version + 1);
    Assembled(db, last, b, names, content, tables, mid, zoned, done);
    return Ok((done, zoned.last));
  }

  lemma PairsReady(db: Db, last: int, b: Bundle, tables: Tables, mid: Zoned)
    requires RowsLanded(db, last, b, tables, mid)
    ensures Assignable(b.assignments, tables) <==> PairsListed(b)
  {
    assert Synced(Groups, db.tables[Groups], b.rows[Groups], tables[Groups]);
    assert Synced(Lists, db.tables[Lists], b.rows[Lists], tables[Lists]);
    PairsLand(db.tables, b, tables);
  }

  lemma LandedZones(db: Db, last: int, b: Bundle, tables: Tables, mid: Zoned)
    requires RowsFit(b.rows) && RowsLanded(db, last, b, tables, mid)
    ensures RowsOk(Zones, b.rows[Zones]) && ZonesLanded(db.tables[Zones], b.rows[Zones], db.records, last, mid)
  {
  }

  lemma Assembled(db: Db, last: int, b: Bundle, names: seq<string>, content: seq<(string, Rec)>, tables: Tables,
      mid: Zoned, zoned: Zoned, done: Db)
    requires Consistent(db) && RowsFit(b.rows) && OwnersListed(b.rows) && PairsListed(b)
             && RowsLanded(db, last, b, tables, mid)
    requires ZonedOk(zoned) && ZonesApplied(db.tables[Zones], b.rows[Zones], names, zoned.zones)
    requires RecordsApplied(db, b.rows[Zones], content, zoned.zones, done.records)
    requires done.tables == Put(tables, Zones, zoned.zones) && done.assignments == set p | p in b.assignments
    requires done.settings == SyncedSettings(db.settings, b.settings) && done.version == db.version + 1
    ensures Applied(db, b, names, content, done) && Consistent(done) && LastZone(done, zoned.last)
  {
    hide RowsFit, OwnersListed, PairsListed, ZonesApplied, RecordsApplied, Synced, ZonesLanded, TableOk;
    forall t: TableName | t != Zones ensures Synced(t, db.tables[t], b.rows[t], done.tables[t]) {
      assert done.tables[t] == tables[t];
    }
    KeysStay(db, b.rows[Zones], content, zoned.zones, done.records);
    AppliedConsistent(db, b, done);
  }

  lemma KeysStay(db: Db, rows: seq<Entry>, content: seq<(string, Rec)>, y: Table, records: map<int, set<Rec>>)
    requires RecordsApplied(db, rows, content, y, records)
    ensures records.Keys <= y.Keys
  {
  }

  /** seedBuiltinZones, when a built-in gave way. */
  method Reseed(db: Db, last: int, rows: seq<Entry>, names: seq<string>, content: seq<(string, Rec)>, mid: Zoned,
      now: int)
      returns (r: Zoned, filled: map<int, set<Rec>>)
    requires LastZone(db, last) && RowsOk(Zones, rows) && ZonesLanded(db.tables[Zones], rows, db.records, last, mid)
    ensures ZonedOk(r) && ZonesApplied(db.tables[Zones], rows, names, r.zones)
    ensures RecordsApplied(db, rows, content, r.zones, filled)
  {
    if !Evicts(db.tables[Zones], Ids(rows)) {
      NotSeededIsApplied(db.tables[Zones], rows, names, mid.zones);
      return mid, mid.records;
    }
    r := SeedZones(mid, names, now);
    filled := SeedRecords(r.zones, r.records, content);
    SeededIsApplied(db.tables[Zones], rows, db.records, last, mid, names, r);
    SeededRecords(db, rows, last, mid, names, r, content, filled);
  }

  class SqlStore {
    var db: Db
    var lastZone: int
    const builtins: seq<string>
    const content: seq<(string, Rec)>

    constructor (names: seq<string>, content: seq<(string, Rec)>)
      ensures Valid() && db == Db(Everywhere(map[]), {}, map[], map[], 0)
      ensures builtins == names && this.content == content
    {
      builtins, this.content := names, content;
      lastZone := 0;
      db := Db(Everywhere(map[]), {}, map[], map[], 0);
    }

    ghost predicate Valid()
      reads this
    {
      Consistent(db) && LastZone(db, lastZone)
    }

    /** configExecN: a write, and one version move with it, exactly when a row changed;
        a statement that failed or matched nothing leaves no trace. */
    method ConfigExecN(write: Db -> Result<(Db, nat), Failure>) returns (r: Result<nat, Failure>)
      requires Valid()
      requires write(db).Ok? ==>
               && Consistent(write(db).value.0) && LastZone(write(db).value.0, lastZone)
               && write(db).value.0.version == db.version
      modifies this`db
      ensures Valid()
      ensures r == match write(old(db)) case Ok(p) => Ok(p.1) case Err(e) => Err(e)
      ensures db == if r.Ok? && r.value > 0 then write(old(db)).value.0.(version := old(db).version + 1) else old(db)
    {
      var done := write(db);
      if done.Err? {
        return Err(done.error);
      }
      var (next, n) := done.value;
      if n == 0 {
        return Ok(0);
      }
      db := next.(version := next.version + 1);
      return Ok(n);
    }

    /** One transaction: either everything the bundle says, or nothing at all. From any
        database it goes through exactly when the bundle's references are its own, no
        kept row is stranded by the prune and no built-in zone that stays has the name
        of a bundle zone. */
    method ImportBundle(b: Bundle, nonce: string, now: int) returns (r: Result<(), Failure>)
      requires Valid()
      requires b.format == BUNDLE_FORMAT ==> RowsFit(b.rows) && FreshAll(nonce, db.tables, b.rows)
      modifies this
      ensures Valid()
      ensures r.Ok? <==> b.format == BUNDLE_FORMAT && Closed(b) && !Strands(old(db).tables, b.rows) &&
                         !NameTaken(old(db).tables[Zones], b.rows[Zones])
      ensures r.Err? ==> db == old(db) && lastZone == old(lastZone)
      ensures r.Ok? ==> Applied(old(db), b, builtins, content, db)
    {
      hide Applied, Consistent, RowsFit, FreshAll, Strands, NameTaken, RowsLanded, OwnersAt, PairsListed;
      if b.format != BUNDLE_FORMAT {
        return Err(Format);
      }
      var rows := ImportRows(db, lastZone, b, nonce);
      if rows.Err? {
        return Err(rows.error);
      }
      var done := Finish(db, lastZone, b, builtins, content, now, rows.value.0, rows.value.1);
      if done.Err? {
        return Err(done.error);
      }
      db, lastZone := done.value.0, done.value.1;
      return Ok(());
    }
  }
}
