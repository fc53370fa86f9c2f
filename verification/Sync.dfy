/** Configuration sync as a protocol: mains that anyone may write to, an export made of
    separate reads, and a replica that probes, fetches, imports and keeps its books. */
module Sync {
  import opened Wrappers
  import opened Schema

  const CARRIED: set<TableName> := {Groups, Clients, TsigKeys, Lists, Scopes, Reservations}

  type SyncedTables = m: map<TableName, Table> | m.Keys == CARRIED + {Rules}
    witness map t | t in CARRIED + {Rules} :: map[]

  /** The synced configuration apart from zones, which a replica derives for itself. */
  datatype Config = Config(settings: map<string, string>, tables: SyncedTables, assignments: set<(int, int)>)

  /** What the schema guarantees of it: every rule belongs to a group, every assignment to a
      list. */
  ghost predicate Sound(c: Config) {
    && (forall i | i in c.tables[Rules] :: c.tables[Rules][i].owner in c.tables[Groups])
    && (forall p | p in c.assignments :: p.1 in c.tables[Lists])
  }

  datatype Main = Main(version: int, config: Config, zones: Table)

  /** A bundle being read, one query at a time; the rules come group by group. */
  datatype Draft = Draft(version: int, settings: Option<map<string, string>>, tables: map<TableName, Table>,
                         rules: map<int, Table>, assignments: Option<set<(int, int)>>, zones: Option<Table>)

  datatype Part = SettingsPart | TablePart(t: TableName) | RulesPart(group: int) | AssignmentsPart | ZonesPart

  datatype Cycle =
    | Idle
    | Started(peer: string)
    | Probed(peer: string, level: int)
    | Fetching(peer: string, level: int, draft: Draft)
    | Imported(peer: string, version: int)      // next: write sync.applied_version
    | Versioned(peer: string)                   // next: write sync.applied_peer

  /** `builtins` are this box's own internal zones, by id. `edited`: a local write is newer
      than the last import (nothing stores this). */
  datatype State = State(mains: map<string, Main>, peer: string, applied: Option<int>, appliedPeer: string,
                         config: Config, builtins: map<int, string>, edited: bool, cycle: Cycle)

  datatype Action =
    | MainWrite(main: string, config: Config, zones: Table)
    | LocalEdit(config: Config, builtins: map<int, string>)
    | Point(peer: string)                 // Follow, or "" for a promotion
    | IdlePull(cleared: bool, unnamed: bool)  // which of its two writes succeed
    | Start | Probe | BeginExport | Read(part: Part) | Discard
    | Import(config: Config, builtins: map<int, string>)
    | RecordVersion | RecordPeer | LoseVersion | LosePeer

  function RulesOf(c: Config, group: int): Table {
    map i | i in c.tables[Rules] && c.tables[Rules][i].owner == group :: c.tables[Rules][i]
  }

  predicate CanRead(d: Draft, p: Part) {
    match p
    case TablePart(t) => t in CARRIED
    case RulesPart(g) => Groups in d.tables && g in d.tables[Groups]
    case _ => true
  }

  function ReadPart(m: Main, d: Draft, p: Part): Draft
    requires CanRead(d, p)
  {
    match p
    case SettingsPart => d.(settings := Some(m.config.settings))
    case AssignmentsPart => d.(assignments := Some(m.config.assignments))
    case ZonesPart => d.(zones := Some(m.zones))
    case TablePart(t) => d.(tables := d.tables[t := m.config.tables[t]])
    case RulesPart(g) => d.(rules := d.rules[g := RulesOf(m.config, g)])
  }

  predicate Complete(d: Draft) {
    && d.settings.Some? && d.assignments.Some? && d.zones.Some?
    && d.tables.Keys == CARRIED && d.rules.Keys == d.tables[Groups].Keys
  }

  /** c is the bundle the draft adds up to. Assignments travel inside the lists, so one whose
      list was not there yet when the lists were read is left behind. */
  ghost predicate AddsUpTo(d: Draft, c: Config)
    requires Complete(d)
  {
    && c.settings == d.settings.value
    && c.assignments == (set p | p in d.assignments.value && p.1 in d.tables[Lists])
    && (forall t | t in CARRIED :: c.tables[t] == d.tables[t])
    && (forall i :: i in c.tables[Rules] <==> exists g | g in d.rules :: i in d.rules[g])
    && (forall g, i | g in d.rules && i in d.rules[g] && i in c.tables[Rules] :: c.tables[Rules][i] == d.rules[g][i])
  }

  // ----------------------------------------------------------- what goes in

  ghost predicate OwnersFound(c: Config, t: TableName, p: TableName)
    requires t in CARRIED + {Rules} && p in CARRIED
  {
    forall i | i in c.tables[t] :: c.tables[t][i].owner in c.tables[p]
  }

  /** What Validate and the foreign keys ask of a bundle by itself. */
  ghost predicate Fit(c: Config, zones: Table) {
    && OwnersFound(c, Clients, Groups) && OwnersFound(c, Rules, Groups) && OwnersFound(c, Reservations, Scopes)
    && (forall p | p in c.assignments :: p.0 in c.tables[Groups] && p.1 in c.tables[Lists])
    && (forall i | i in zones ::
        zones[i].kind != Internal && (zones[i].owner != 0 ==> zones[i].owner in c.tables[TsigKeys]))
    && (forall key | key in c.settings :: !LocalSettingKey(key))
  }

  /** Rows this box keeps of t refer here to parents the bundle carries. */
  ghost predicate KeptIn(mine: Config, c: Config, t: TableName, p: TableName)
    requires t in CARRIED + {Rules} && p in CARRIED
  {
    forall i | i in mine.tables[t] && i in c.tables[t] :: mine.tables[t][i].owner in c.tables[p]
  }

  ghost predicate NothingStranded(mine: Config, c: Config) {
    KeptIn(mine, c, Clients, Groups) && KeptIn(mine, c, Rules, Groups) && KeptIn(mine, c, Reservations, Scopes)
  }

  /** No bundle zone has the name of a built-in that stays. */
  ghost predicate NamesFree(builtins: map<int, string>, zones: Table) {
    forall i, j | i in zones && j in builtins && j !in zones :: zones[i].keys != [builtins[j]]
  }

  /** The store's own condition for an import to go through (Pull.ImportableIff). */
  ghost predicate Importable(mine: Config, builtins: map<int, string>, c: Config, zones: Table) {
    Fit(c, zones) && NothingStranded(mine, c) && NamesFree(builtins, zones)
  }

  /** The built-ins after an import: those that stay, and whatever was seeded again, at
      ids and under names the bundle does not use. */
  ghost predicate Reseeds(before: map<int, string>, zones: Table, after: map<int, string>) {
    && (forall j | j in before && j !in zones :: j in after && after[j] == before[j])
    && (forall j | j in after :: j !in zones && forall i | i in zones :: zones[i].keys != [after[j]])
  }

  // ------------------------------------------------------------------- steps

  ghost predicate Enabled(s: State, a: Action) {
    match a
    case MainWrite(m, c, _) => m in s.mains && Sound(c)
    case LocalEdit(_, _) => s.peer == ""
    case Point(p) => p == "" || p in s.mains
    case IdlePull(_, _) => s.cycle.Idle? && s.peer == ""
    case Start => s.cycle.Idle? && s.peer != ""
    case Probe => s.cycle.Started?
    case BeginExport => s.cycle.Probed?
    case Read(p) => s.cycle.Fetching? && CanRead(s.cycle.draft, p)
    case Discard => s.cycle.Started? || s.cycle.Probed? || s.cycle.Fetching?
    case Import(c, b) =>
      && s.cycle.Fetching? && Complete(s.cycle.draft) && s.cycle.draft.version == s.cycle.level
      && AddsUpTo(s.cycle.draft, c) && Importable(s.config, s.builtins, c, s.cycle.draft.zones.value)
      && Reseeds(s.builtins, s.cycle.draft.zones.value, b)
    case RecordVersion => s.cycle.Imported?
    case LoseVersion => s.cycle.Imported?
    case RecordPeer => s.cycle.Versioned?
    case LosePeer => s.cycle.Versioned?
  }

  ghost predicate Proper(s: State) {
    && (forall m | m in s.mains :: Sound(s.mains[m].config))
    && "" !in s.mains && (s.peer == "" || s.peer in s.mains)
    && (s.cycle.Idle? || s.cycle.peer in s.mains)
  }

  function Do(s: State, a: Action): State
    requires Proper(s) && Enabled(s, a)
  {
    match a
    case MainWrite(m, c, z) => s.(mains := s.mains[m := Main(s.mains[m].version + 1, c, z)])
    case LocalEdit(c, b) => s.(config := c, builtins := b, edited := true)
    case Point(p) => s.(peer := p)
    case IdlePull(cleared, unnamed) =>
      s.(applied := if cleared then None else s.applied,
         appliedPeer := if s.applied.Some? && unnamed then "" else s.appliedPeer)
    case Start => s.(cycle := Started(s.peer))
    case Probe =>
      var p := s.cycle.peer;
      var level := s.mains[p].version;
      if s.applied == Some(level) && s.appliedPeer == p then s.(cycle := Idle) else s.(cycle := Probed(p, level))
    case BeginExport =>
      var p := s.cycle.peer;
      s.(cycle := Fetching(p, s.cycle.level, Unread(s.mains[p].version)))
    case Read(p) => s.(cycle := s.cycle.(draft := ReadPart(s.mains[s.cycle.peer], s.cycle.draft, p)))
    case Discard => s.(cycle := Idle)
    case Import(c, b) => s.(config := c, builtins := b, edited := false,
        cycle := Imported(s.cycle.peer, s.cycle.draft.version))
    case RecordVersion => s.(applied := Some(s.cycle.version), cycle := Versioned(s.cycle.peer))
    case LoseVersion => s.(cycle := Versioned(s.cycle.peer))
    case RecordPeer => s.(appliedPeer := s.cycle.peer, cycle := Idle)
    case LosePeer => s.(cycle := Idle)
  }

  function Unread(version: int): Draft { Draft(version, None, map[], map[], None, None) }

  predicate Recording(s: State) { s.cycle.Imported? || s.cycle.Versioned? }

  /** The books say this box holds the followed main's current version. */
  predicate BooksLevel(s: State) {
    s.peer in s.mains && s.appliedPeer == s.peer && s.applied == Some(s.mains[s.peer].version)
  }

  /** The cycle under way has ended: given up, or its books written. */
  function Ended(s: State): State {
    match s.cycle
    case Imported(p, v) => s.(applied := Some(v), appliedPeer := p, cycle := Idle)
    case Versioned(p) => s.(appliedPeer := p, cycle := Idle)
    case _ => s.(cycle := Idle)
  }

  /** Nothing was edited since the import, main p is followed already, or the books, once the
      cycle under way has ended, do not name p - or name it at a number a pull of p under way
      has seen to be passed. */
  predicate CanFollow(s: State, p: string) {
    s.edited && s.peer != p ==>
      var t := Ended(s);
      || t.applied.None? || t.appliedPeer != p
      || ((s.cycle.Probed? || s.cycle.Fetching?) && s.cycle.peer == p)
  }

  /** What the code does not enforce: a main is not followed again over a local edit, unless
      the books cannot be level with it, and a lost bookkeeping write leaves a number that
      cannot be taken for another main's. Exact: FollowSafeIff, LostVersionIff, LostPeerIff. */
  predicate Careful(s: State, a: Action) {
    && (a.Point? && a.peer != "" ==> CanFollow(s, a.peer))
    && (a.LoseVersion? && s.cycle.Imported? ==> s.applied.None? || s.applied.value <= s.cycle.version)
    && (a.LosePeer? && s.cycle.Versioned? ==> s.applied.None? || s.appliedPeer == s.cycle.peer || s.appliedPeer == "")
  }

  // --------------------------------------------------------------- invariant

  /** Unless it was edited since, the replica holds the configuration main m had at
      version v, if that is still the main's. */
  ghost predicate Level(s: State, m: string, v: int) {
    m in s.mains && v <= s.mains[m].version && (!s.edited && s.mains[m].version == v ==> s.config == s.mains[m].config)
  }

  /** While the main stays at the draft's version, what was read is what it has. */
  ghost predicate FreshDraft(d: Draft, m: Main) {
    d.version <= m.version && (d.version == m.version ==> DraftOf(d, m))
  }

  ghost predicate DraftOf(d: Draft, m: Main) {
    && (d.settings.Some? ==> d.settings.value == m.config.settings)
    && (d.assignments.Some? ==> d.assignments.value == m.config.assignments)
    && (d.zones.Some? ==> d.zones.value == m.zones)
    && (forall t | t in d.tables :: t in CARRIED && d.tables[t] == m.config.tables[t])
    && (forall g | g in d.rules :: d.rules[g] == RulesOf(m.config, g))
  }

  ghost predicate BooksRight(s: State) {
    match s.cycle
    case Imported(p, v) => Level(s, p, v)
    case Versioned(p) => s.applied.Some? ==> Level(s, p, s.applied.value)
    case _ => s.applied.Some? && s.appliedPeer in s.mains ==> Level(s, s.appliedPeer, s.applied.value)
  }

  /** A pull goes on only past what this main was applied at, and not past what it has. */
  ghost predicate Ahead(s: State) {
    match s.cycle
    case Probed(p, v) => p in s.mains && v <= s.mains[p].version && Passed(s, p, v)
    case Fetching(p, v, _) => p in s.mains && v <= s.mains[p].version && Passed(s, p, v)
    case Imported(p, v) => Passed(s, p, v)
    case _ => true
  }

  predicate Passed(s: State, p: string, v: int) {
    s.applied.Some? && s.appliedPeer == p ==> s.applied.value < v
  }

  ghost predicate Inv(s: State) {
    && Proper(s)
    && (s.cycle.Fetching? ==> FreshDraft(s.cycle.draft, s.mains[s.cycle.peer]))
    && BooksRight(s) && Ahead(s)
    && (s.edited ==> !BooksLevel(Ended(s)))
  }

  lemma ReadKeepsFresh(d: Draft, m: Main, p: Part)
    requires FreshDraft(d, m) && CanRead(d, p)
    ensures FreshDraft(ReadPart(m, d, p), m)
  {
  }

  lemma RulesAddUp(d: Draft, m: Main, b: Config, i: int)
    requires Complete(d) && DraftOf(d, m) && Sound(m.config) && AddsUpTo(d, b)
    ensures i in b.tables[Rules] <==> i in m.config.tables[Rules]
    ensures i in b.tables[Rules] ==> b.tables[Rules][i] == m.config.tables[Rules][i]
  {
    if i in m.config.tables[Rules] {
      var g := m.config.tables[Rules][i].owner;
      assert g in d.rules && i in d.rules[g];
    }
  }

  /** A finished draft whose main has not moved adds up to that main's configuration. */
  lemma DraftIsConfig(d: Draft, m: Main, b: Config)
    requires Complete(d) && DraftOf(d, m) && Sound(m.config) && AddsUpTo(d, b)
    ensures b == m.config && d.zones.value == m.zones
  {
    forall i { RulesAddUp(d, m, b, i); }
    assert b.tables[Rules] == m.config.tables[Rules];
    forall t | t in CARRIED ensures b.tables[t] == m.config.tables[t] { }
    assert b.tables == m.config.tables;
  }

  lemma ImportIsLevel(d: Draft, m: Main, c: Config)
    requires FreshDraft(d, m) && Complete(d) && AddsUpTo(d, c) && Sound(m.config) && d.version == m.version
    ensures c == m.config
  {
    DraftIsConfig(d, m, c);
  }

  lemma ImportKeepsInv(s: State, c: Config, b: map<int, string>)
    requires Inv(s) && Enabled(s, Import(c, b))
    ensures Inv(Do(s, Import(c, b)))
  {
    hide Importable, Reseeds, Sound, AddsUpTo, Complete, DraftOf;
    var d, m := s.cycle.draft, s.mains[s.cycle.peer];
    if d.version == m.version {
      ImportIsLevel(d, m, c);
    }
  }

  lemma MainWriteKeepsBooks(s: State, m: string, c: Config, z: Table)
    requires Inv(s) && m in s.mains
    ensures var t := s.(mains := s.mains[m := Main(s.mains[m].version + 1, c, z)]);
            BooksRight(t) && Ahead(t) && (t.edited ==> !BooksLevel(Ended(t)))
  {
    hide Proper, FreshDraft;
  }

  lemma MainWriteKeepsInv(s: State, m: string, c: Config, z: Table)
    requires Inv(s) && Enabled(s, MainWrite(m, c, z))
    ensures Inv(Do(s, MainWrite(m, c, z)))
  {
    hide Sound, DraftOf, BooksRight, Ahead, BooksLevel, Ended;
    MainWriteKeepsBooks(s, m, c, z);
  }

  lemma ReadKeepsInv(s: State, p: Part)
    requires Inv(s) && Enabled(s, Read(p))
    ensures Inv(Do(s, Read(p)))
  {
    hide Sound, DraftOf;
    ReadKeepsFresh(s.cycle.draft, s.mains[s.cycle.peer], p);
  }

  lemma OwnerKeepsInv(s: State, a: Action)
    requires Inv(s) && Enabled(s, a) && Careful(s, a) && (a.LocalEdit? || a.Point? || a.IdlePull?)
    ensures Inv(Do(s, a))
  {
    hide Sound, FreshDraft, AddsUpTo, Importable;
  }

  lemma CycleKeepsInv(s: State, a: Action)
    requires Inv(s) && Enabled(s, a) && Careful(s, a)
    requires a.Start? || a.Probe? || a.BeginExport? || a.Discard?
    ensures Inv(Do(s, a))
  {
    hide Sound, AddsUpTo, Importable;
  }

  lemma BooksKeepInv(s: State, a: Action)
    requires Inv(s) && Enabled(s, a) && Careful(s, a)
    requires a.RecordVersion? || a.RecordPeer? || a.LoseVersion? || a.LosePeer?
    ensures Inv(Do(s, a))
  {
    hide Sound, FreshDraft, AddsUpTo, Importable;
  }

  lemma StepKeepsInv(s: State, a: Action)
    requires Inv(s) && Enabled(s, a) && Careful(s, a)
    ensures Inv(Do(s, a))
  {
    hide Enabled, Do, Inv;
    match a
    case MainWrite(m, c, z) => MainWriteKeepsInv(s, m, c, z);
    case Import(c, b) => ImportKeepsInv(s, c, b);
    case Read(p) => ReadKeepsInv(s, p);
    case LocalEdit(_, _) => OwnerKeepsInv(s, a);
    case Point(_) => OwnerKeepsInv(s, a);
    case IdlePull(_, _) => OwnerKeepsInv(s, a);
    case Start => CycleKeepsInv(s, a);
    case Probe => CycleKeepsInv(s, a);
    case BeginExport => CycleKeepsInv(s, a);
    case Discard => CycleKeepsInv(s, a);
    case _ => BooksKeepInv(s, a);
  }

  // --------------------------------------------------------------------- runs

  ghost predicate Runs(s: State, acts: seq<Action>, s': State)
    requires Proper(s)
    decreases |acts|
  {
    && Proper(s')
    && if acts == [] then s' == s
       else && Enabled(s, acts[0]) && Careful(s, acts[0])
            && Proper(Do(s, acts[0])) && Runs(Do(s, acts[0]), acts[1..], s')
  }

  /** A replica that has never followed anyone, beside any mains. */
  ghost predicate Init(s: State) {
    && (forall m | m in s.mains :: Sound(s.mains[m].config))
    && "" !in s.mains && s.peer == "" && s.applied.None? && s.cycle.Idle?
  }

  lemma InitInv(s: State)
    requires Init(s)
    ensures Inv(s)
  {
  }

  lemma {:induction false} RunKeepsInv(s: State, acts: seq<Action>, s': State)
    requires Inv(s) && Runs(s, acts, s')
    ensures Inv(s')
    decreases |acts|
  {
    hide Enabled, Do, Careful, BooksRight;
    if acts != [] {
      StepKeepsInv(s, acts[0]);
      RunKeepsInv(Do(s, acts[0]), acts[1..], s');
    }
  }

  /** ... and it does, if they say so. */
  predicate Agrees(s: State) {
    BooksLevel(s) ==> s.config == s.mains[s.peer].config
  }

  /** The cycle that is writing its books writes them about the main now followed. */
  predicate OnCourse(s: State) { Recording(s) ==> s.cycle.peer == s.peer }

  lemma AgreesOnCourse(s: State)
    requires Inv(s) && OnCourse(s)
    ensures Agrees(s)
  {
    hide Sound, FreshDraft;
  }

  /** Replica agreement, over every interleaving of main writes, export reads, pulls and
      re-pointings: whenever the books say this box holds the followed main's current
      version, its synced configuration is that main's - unless, right now, a pull of
      another main is between its import and its last bookkeeping write. */
  lemma {:induction false} ReplicaAgreement(s: State, acts: seq<Action>, s': State)
    requires Init(s) && Runs(s, acts, s') && OnCourse(s')
    ensures Agrees(s')
  {
    hide Inv, Agrees, OnCourse;
    InitInv(s);
    RunKeepsInv(s, acts, s');
    AgreesOnCourse(s');
  }

  /** No change is skipped: a probe that ends the cycle with nothing to do found this box
      holding exactly what that main has, unless it is no longer the followed one and this
      box was edited since. */
  lemma {:induction false} SkipIsSound(s: State, acts: seq<Action>, s': State)
    requires Init(s) && Runs(s, acts, s') && s'.cycle.Started? && Do(s', Probe).cycle.Idle?
    ensures !s'.edited || s'.peer == s'.cycle.peer ==> s'.config == s'.mains[s'.cycle.peer].config
  {
    hide FreshDraft, Sound;
    InitInv(s);
    RunKeepsInv(s, acts, s');
  }

  // ------------------------------------------- the hypotheses, one by one, exact

  /** The same box beside other mains. */
  function InWorld(s: State, mains: map<string, Main>): State { s.(mains := mains) }

  /** A configuration that is not c, and sound. */
  function OtherThan(c: Config): (o: Config)
    ensures o != c
  {
    assert "log" in map["log" := "on"];
    Config(if "log" in c.settings then map[] else map["log" := "on"], map t | t in CARRIED + {Rules} :: map[], {})
  }

  /** The mains, but p at version v with a configuration that is not this box's. */
  function Moved(s: State, p: string, v: int): map<string, Main> {
    s.mains[p := Main(v, OtherThan(s.config), map[])]
  }

  lemma MovedDisagrees(s: State, p: string, v: int)
    requires s.peer == p == s.appliedPeer && s.applied == Some(v)
    ensures !Agrees(InWorld(s, Moved(s, p, v)))
  {
  }

  /** Where the books say level, the exception in ReplicaAgreement is exact: they are right
      beside all mains this box could be in front of, exactly when the cycle is on course. */
  lemma OnCourseIff(s: State)
    requires Inv(s) && BooksLevel(s)
    ensures OnCourse(s) <==> forall mains :: Inv(InWorld(s, mains)) ==> Agrees(InWorld(s, mains))
  {
    hide Sound, FreshDraft, Agrees;
    if OnCourse(s) {
      forall mains | Inv(InWorld(s, mains)) ensures Agrees(InWorld(s, mains)) {
        AgreesOnCourse(InWorld(s, mains));
      }
    } else {
      var mains := Moved(s, s.peer, s.applied.value);
      MovedDisagrees(s, s.peer, s.applied.value);
      OtherIsSound(s.config);
      assert Inv(InWorld(s, mains));
    }
  }

  lemma OtherIsSound(c: Config)
    ensures Sound(OtherThan(c))
  {
  }

  /** Main p followed, and the cycle under way ended. */
  function Followed(s: State, p: string): State { Ended(s.(peer := p)) }

  lemma CanFollowAgrees(s: State, p: string)
    requires Inv(s) && p in s.mains && CanFollow(s, p)
    ensures Agrees(Followed(s, p))
  {
    hide Sound, FreshDraft;
  }

  lemma CannotFollow(s: State, p: string)
    requires Inv(s) && p in s.mains && !CanFollow(s, p)
    ensures var t := InWorld(s, Moved(s, p, Ended(s).applied.value)); Inv(t) && !Agrees(Followed(t, p))
  {
    hide Sound, FreshDraft;
    OtherIsSound(s.config);
  }

  /** Following main p, at whatever point of a cycle, is safe beside all mains this box could
      be in front of, exactly under the stated condition on the box itself. */
  lemma FollowSafeIff(s: State, p: string)
    requires Inv(s) && p in s.mains
    ensures CanFollow(s, p) <==>
            forall mains | p in mains && Inv(InWorld(s, mains)) :: Agrees(Followed(InWorld(s, mains), p))
  {
    hide Inv, Agrees, Followed;
    if CanFollow(s, p) {
      forall mains | p in mains && Inv(InWorld(s, mains)) ensures Agrees(Followed(InWorld(s, mains), p)) {
        CanFollowAgrees(InWorld(s, mains), p);
      }
    } else {
      CannotFollow(s, p);
    }
  }

  /** The unsafe case, as a run from any level state: promote, edit, follow the same main
      again before an idle pull has cleared the books. They still say level, and the
      configuration is whatever was typed. */
  lemma UnseenPromotion(s: State, c: Config, b: map<int, string>)
    requires Inv(s) && s.cycle.Idle? && s.peer != "" && BooksLevel(s) && c != s.mains[s.peer].config
    ensures var s1 := Do(s, Point(""));
            var s2 := Do(s1, LocalEdit(c, b));
            Careful(s, Point("")) && Careful(s1, LocalEdit(c, b)) && !Careful(s2, Point(s.peer)) &&
            var s3 := Do(s2, Point(s.peer));
            BooksLevel(s3) && !Agrees(s3) && s3.config == c
  {
    hide Sound, FreshDraft;
  }

  /** A pull whose first bookkeeping write was lost and whose second was not, its main then
      followed. */
  ghost function LostVersion(s: State): State
    requires Proper(s) && s.cycle.Imported?
  {
    var done := Do(Do(s, LoseVersion), RecordPeer);
    Do(done, Point(s.cycle.peer))
  }

  predicate NumberHarmless(s: State)
    requires s.cycle.Imported?
  {
    || s.applied.None? || s.applied.value < s.cycle.version
    || (s.applied.value == s.cycle.version && (!s.edited || s.peer == s.cycle.peer))
  }

  lemma HarmlessAgrees(s: State)
    requires Inv(s) && s.cycle.Imported? && NumberHarmless(s)
    ensures Agrees(LostVersion(s))
  {
    hide Sound, FreshDraft;
  }

  lemma HarmfulDisagrees(s: State)
    requires Inv(s) && s.cycle.Imported? && !NumberHarmless(s)
    ensures var t := InWorld(s, Moved(s, s.cycle.peer, s.applied.value)); Inv(t) && !Agrees(LostVersion(t))
  {
    hide Sound, FreshDraft;
    OtherIsSound(s.config);
  }

  /** The number left behind is taken for the main's own. That is safe, whatever the mains
      hold, exactly when it is below what was imported, or equal to it and nothing was edited
      or this main is followed all along. */
  lemma LostVersionIff(s: State)
    requires Inv(s) && s.cycle.Imported?
    ensures NumberHarmless(s) <==> forall mains | Inv(InWorld(s, mains)) :: Agrees(LostVersion(InWorld(s, mains)))
  {
    hide Sound, FreshDraft, BooksRight, Ahead, Agrees, LostVersion;
    if NumberHarmless(s) {
      forall mains | Inv(InWorld(s, mains)) ensures Agrees(LostVersion(InWorld(s, mains))) {
        HarmlessAgrees(InWorld(s, mains));
      }
    } else {
      HarmfulDisagrees(s);
    }
  }

  /** A pull whose second bookkeeping write was lost, main q then followed. */
  ghost function LostPeer(s: State, q: string): State
    requires Proper(s) && s.cycle.Versioned? && q in s.mains
  {
    Do(Do(s, LosePeer), Point(q))
  }

  predicate NameHarmless(s: State, q: string)
    requires s.cycle.Versioned?
  {
    s.applied.None? || s.appliedPeer != q || (q == s.cycle.peer && (!s.edited || s.peer == q))
  }

  lemma HarmlessNameAgrees(s: State, q: string)
    requires Inv(s) && s.cycle.Versioned? && q in s.mains && NameHarmless(s, q)
    ensures Agrees(LostPeer(s, q))
  {
    hide Sound, FreshDraft;
  }

  lemma HarmfulNameDisagrees(s: State, q: string)
    requires Inv(s) && s.cycle.Versioned? && q in s.mains && !NameHarmless(s, q)
    ensures var t := InWorld(s, Moved(s, q, s.applied.value)); Inv(t) && !Agrees(LostPeer(t, q))
  {
    hide Sound, FreshDraft;
    OtherIsSound(s.config);
  }

  /** The number one main was applied at stands beside the name of another. Following q then
      is safe, whatever the mains hold, exactly when the books do not name q, or q is the main
      just imported and nothing was edited or q is followed all along. */
  lemma LostPeerIff(s: State, q: string)
    requires Inv(s) && s.cycle.Versioned? && q in s.mains
    ensures NameHarmless(s, q) <==>
            forall mains | q in mains && Inv(InWorld(s, mains)) :: Agrees(LostPeer(InWorld(s, mains), q))
  {
    hide Sound, FreshDraft, BooksRight, Ahead, Agrees, LostPeer;
    if NameHarmless(s, q) {
      forall mains | q in mains && Inv(InWorld(s, mains)) ensures Agrees(LostPeer(InWorld(s, mains), q)) {
        HarmlessNameAgrees(InWorld(s, mains), q);
      }
    } else {
      HarmfulNameDisagrees(s, q);
    }
  }

  /** The unsafe case, as a run: q was applied before, p has just been imported at the number q
      now has, and the process dies between the two writes. Followed again, q is taken for
      applied. */
  lemma LostPeerWrite(s: State, q: string)
    requires Inv(s) && s.cycle.Imported? && s.appliedPeer == q && q in s.mains && s.mains[q].version == s.cycle.version
    requires s.config != s.mains[q].config
    ensures var s1 := Do(s, RecordVersion);
            var s2 := LostPeer(s1, q);
            Careful(s, RecordVersion) && (q != s.cycle.peer ==> !Careful(s1, LosePeer)) && s2.cycle.Idle?
                && BooksLevel(s2) && !Agrees(s2)
  {
    hide Sound, FreshDraft;
  }

  // --------------------------------------------------------- a pull completes

  /** The replica's own steps, when nothing fails it and nobody intervenes. */
  predicate Own(a: Action) {
    a.Start? || a.Probe? || a.BeginExport? || a.Read? || a.Discard? || a.Import? || a.RecordVersion? || a.RecordPeer?
  }

  ghost predicate OwnRuns(s: State, acts: seq<Action>, s': State)
    requires Proper(s)
  {
    Runs(s, acts, s') && forall i | 0 <= i < |acts| :: Own(acts[i])
  }

  ghost predicate Reaches(s: State, s': State)
    requires Proper(s)
  {
    exists acts :: Runs(s, acts, s')
  }

  /** ... by itself. */
  ghost predicate OwnReaches(s: State, s': State)
    requires Proper(s)
  {
    exists acts :: OwnRuns(s, acts, s')
  }

  lemma StepThen(s: State, a: Action, s': State)
    requires Proper(s) && Enabled(s, a) && Own(a) && Proper(Do(s, a)) && OwnReaches(Do(s, a), s')
    ensures OwnReaches(s, s')
  {
    hide Enabled, Do, Proper;
    var acts :| OwnRuns(Do(s, a), acts, s');
    assert ([a] + acts)[1..] == acts;
    assert OwnRuns(s, [a] + acts, s');
  }

  lemma {:induction false} RunsThen(s: State, acts: seq<Action>, t: State, more: seq<Action>, u: State)
    requires Proper(s) && Runs(s, acts, t) && Runs(t, more, u)
    ensures Runs(s, acts + more, u)
    decreases |acts|
  {
    hide Enabled, Do, Proper, Careful;
    if acts == [] {
      assert acts + more == more;
    } else {
      RunsThen(Do(s, acts[0]), acts[1..], t, more, u);
      assert (acts + more)[1..] == acts[1..] + more;
    }
  }

  lemma ReachesThen(s: State, t: State, u: State)
    requires Proper(s) && Proper(t) && Reaches(s, t) && Reaches(t, u)
    ensures Reaches(s, u)
  {
    var acts :| Runs(s, acts, t);
    var more :| Runs(t, more, u);
    RunsThen(s, acts, t, more, u);
  }

  lemma ReachesStep(s: State, t: State, a: Action)
    requires Proper(s) && Proper(t) && Reaches(s, t) && Enabled(t, a) && Careful(t, a) && Proper(Do(t, a))
    ensures Reaches(s, Do(t, a))
  {
    hide Enabled, Do, Proper, Careful;
    assert Runs(Do(t, a), [], Do(t, a));
    assert [a][1..] == [];
    assert Runs(t, [a], Do(t, a));
    ReachesThen(s, t, Do(t, a));
  }

  lemma OwnIsReached(s: State, s': State)
    requires Proper(s) && OwnReaches(s, s')
    ensures Reaches(s, s')
  {
    var acts :| OwnRuns(s, acts, s');
  }

  /** All of a main, as an undisturbed export reads it. */
  function Whole(m: Main): Draft {
    Draft(m.version, Some(m.config.settings), map t | t in CARRIED :: m.config.tables[t],
          map g | g in m.config.tables[Groups] :: RulesOf(m.config, g), Some(m.config.assignments), Some(m.zones))
  }

  lemma WholeIs(d: Draft, m: Main)
    requires Complete(d) && DraftOf(d, m) && d.version == m.version
    ensures d == Whole(m)
  {
    var w := Whole(m);
    assert d.tables == w.tables;
    assert d.rules == w.rules;
  }

  lemma WholeAddsUp(m: Main)
    requires Sound(m.config)
    ensures Complete(Whole(m)) && AddsUpTo(Whole(m), m.config)
  {
    var d, c := Whole(m), m.config;
    assert d.tables.Keys == CARRIED;
    assert d.tables[Groups] == c.tables[Groups];
    assert d.rules.Keys == c.tables[Groups].Keys;
    forall i | i in c.tables[Rules] ensures exists g | g in d.rules :: i in d.rules[g] {
      var g := c.tables[Rules][i].owner;
      assert g in d.rules && i in d.rules[g];
    }
  }

  /** A fetch of the followed main, so far undisturbed. */
  ghost predicate Pulling(s: State, d: Draft) {
    && Inv(s) && s.peer != "" && s.cycle == Fetching(s.peer, s.mains[s.peer].version, d)
    && d.version == s.mains[s.peer].version
  }

  function Fetched(s: State): State
    requires Proper(s) && s.peer != ""
  {
    var m := s.mains[s.peer];
    s.(cycle := Fetching(s.peer, m.version, Whole(m)))
  }

  /** Everything but some groups' rules is read. */
  ghost predicate RulesLeft(d: Draft, left: set<Part>) {
    && d.settings.Some? && d.assignments.Some? && d.zones.Some? && d.tables.Keys == CARRIED
    && (forall p | p in left :: p.RulesPart? && p.group in d.tables[Groups])
    && d.rules.Keys <= d.tables[Groups].Keys
    && (forall g | g in d.tables[Groups] :: g in d.rules || RulesPart(g) in left)
  }

  lemma ReadThen(s: State, d: Draft, p: Part)
    requires Pulling(s, d) && CanRead(d, p)
    ensures Enabled(s, Read(p))
    ensures var t := Do(s, Read(p));
            Proper(t) && Pulling(t, ReadPart(s.mains[s.peer], d, p)) && Fetched(t) == Fetched(s)
            && (OwnReaches(t, Fetched(t)) ==> OwnReaches(s, Fetched(s)))
  {
    hide Sound, FreshDraft, BooksRight, Ahead, OwnReaches;
    ReadKeepsInv(s, p);
    if OwnReaches(Do(s, Read(p)), Fetched(s)) {
      StepThen(s, Read(p), Fetched(s));
    }
  }

  lemma OneGroupLess(d: Draft, m: Main, left: set<Part>, p: Part)
    requires RulesLeft(d, left) && p in left
    ensures CanRead(d, p) && RulesLeft(ReadPart(m, d, p), left - {p})
  {
  }

  lemma AllRulesRead(d: Draft)
    requires RulesLeft(d, {})
    ensures Complete(d)
  {
    var groups := d.tables[Groups];
    assert forall g | g in groups :: g in d.rules;
    assert forall g | g in groups.Keys :: g in d.rules.Keys;
    assert groups.Keys <= d.rules.Keys;
  }

  lemma {:induction false} RulesRead(s: State, d: Draft, left: set<Part>)
    requires Pulling(s, d) && RulesLeft(d, left)
    ensures OwnReaches(s, Fetched(s))
    decreases left
  {
    hide Enabled, Do, OwnReaches, RulesLeft, CanRead, Sound, BooksRight, Ahead;
    if left == {} {
      AllRulesRead(d);
      WholeIs(d, s.mains[s.peer]);
      StaysPut(s);
    } else {
      var p :| p in left;
      OneGroupLess(d, s.mains[s.peer], left, p);
      ReadThen(s, d, p);
      RulesRead(Do(s, Read(p)), ReadPart(s.mains[s.peer], d, p), left - {p});
    }
  }

  lemma StaysPut(s: State)
    requires Proper(s)
    ensures OwnReaches(s, s)
  {
    assert Runs(s, [], s);
    assert OwnRuns(s, [], s);
  }

  /** With the parts still to come, all but the rules will have been read. */
  ghost predicate OnceRead(d: Draft, parts: seq<Part>) {
    && d.rules == map[] && (forall k | 0 <= k < |parts| :: !parts[k].RulesPart? && CanRead(d, parts[k]))
    && (d.settings.Some? || SettingsPart in parts) && (d.assignments.Some? || AssignmentsPart in parts)
    && (d.zones.Some? || ZonesPart in parts)
    && d.tables.Keys <= CARRIED && (forall t | t in CARRIED :: t in d.tables || TablePart(t) in parts)
  }

  lemma OnePartLess(d: Draft, m: Main, parts: seq<Part>)
    requires OnceRead(d, parts) && parts != []
    ensures CanRead(d, parts[0]) && OnceRead(ReadPart(m, d, parts[0]), parts[1..])
  {
    assert parts == [parts[0]] + parts[1..];
  }

  lemma OnlyRulesLeft(d: Draft)
    requires OnceRead(d, [])
    ensures d.tables.Keys == CARRIED && RulesLeft(d, set g | g in d.tables[Groups] :: RulesPart(g))
  {
    assert forall t | t in CARRIED :: t in d.tables;
  }

  lemma {:induction false} FirstReads(s: State, d: Draft, parts: seq<Part>)
    requires Pulling(s, d) && OnceRead(d, parts)
    ensures OwnReaches(s, Fetched(s))
    decreases |parts|
  {
    hide Enabled, Do, OwnReaches, RulesLeft, CanRead, Sound, BooksRight, Ahead, OnceRead;
    if parts == [] {
      OnlyRulesLeft(d);
      RulesRead(s, d, set g | g in d.tables[Groups] :: RulesPart(g));
    } else {
      OnePartLess(d, s.mains[s.peer], parts);
      ReadThen(s, d, parts[0]);
      FirstReads(Do(s, Read(parts[0])), ReadPart(s.mains[s.peer], d, parts[0]), parts[1..]);
    }
  }

  const FIRST_READS: seq<Part> := [SettingsPart, TablePart(Groups), TablePart(Clients), TablePart(TsigKeys),
                                   TablePart(Lists), AssignmentsPart, ZonesPart, TablePart(Scopes),
                                   TablePart(Reservations)]

  lemma FirstReadsCover(version: int)
    ensures OnceRead(Unread(version), FIRST_READS)
  {
    assert FIRST_READS[0] == SettingsPart && FIRST_READS[5] == AssignmentsPart && FIRST_READS[6] == ZonesPart;
    forall t | t in CARRIED ensures TablePart(t) in FIRST_READS {
      match t
      case Groups => assert FIRST_READS[1] == TablePart(t);
      case Clients => assert FIRST_READS[2] == TablePart(t);
      case TsigKeys => assert FIRST_READS[3] == TablePart(t);
      case Lists => assert FIRST_READS[4] == TablePart(t);
      case Scopes => assert FIRST_READS[7] == TablePart(t);
      case Reservations => assert FIRST_READS[8] == TablePart(t);
    }
  }

  /** A pull that is not level can always fetch its main's whole bundle. */
  lemma FetchesAll(s: State)
    requires Inv(s) && s.cycle.Idle? && s.peer != "" && !BooksLevel(s)
    ensures OwnReaches(s, Fetched(s)) && Inv(Fetched(s))
  {
    hide Sound, OwnReaches, OnceRead, BooksRight;
    var s1 := Do(s, Start);
    var s2 := Do(s1, Probe);
    var s3 := Do(s2, BeginExport);
    StepKeepsInv(s, Start);
    StepKeepsInv(s1, Probe);
    StepKeepsInv(s2, BeginExport);
    FirstReadsCover(s.mains[s.peer].version);
    FirstReads(s3, s3.cycle.draft, FIRST_READS);
    StepThen(s2, BeginExport, Fetched(s));
    StepThen(s1, Probe, Fetched(s));
    StepThen(s, Start, Fetched(s));
    FetchedInv(s);
  }

  lemma FetchedInv(s: State)
    requires Inv(s) && s.cycle.Idle? && s.peer != "" && !BooksLevel(s)
    ensures Inv(Fetched(s))
  {
    hide Sound;
  }

  // -------------------------------------------------- whether a change arrives

  /** The followed main's configuration can be imported here. */
  ghost predicate CanImport(s: State)
    requires Proper(s) && s.peer != ""
  {
    Importable(s.config, s.builtins, s.mains[s.peer].config, s.mains[s.peer].zones)
  }

  /** The state a pull from an idle replica leads to, with the built-ins as the reseed left
      them. */
  function Pulled(s: State, builtins: map<int, string>): State
    requires Proper(s) && s.peer != ""
  {
    var m := s.mains[s.peer];
    s.(applied := Some(m.version), appliedPeer := s.peer, config := m.config, builtins := builtins, edited := false,
        cycle := Idle)
  }

  lemma ImportEnabled(s: State, b: map<int, string>)
    requires Inv(s) && s.peer != "" && s.cycle == Fetched(s).cycle
    requires CanImport(s) && Reseeds(s.builtins, s.mains[s.peer].zones, b)
    ensures Enabled(s, Import(s.mains[s.peer].config, b))
  {
    WholeAddsUp(s.mains[s.peer]);
  }

  lemma ImportCloses(s: State, b: map<int, string>)
    requires Inv(s) && s.peer != "" && s.cycle == Fetched(s).cycle
    requires CanImport(s) && Reseeds(s.builtins, s.mains[s.peer].zones, b)
    ensures OwnReaches(s, Pulled(s, b))
  {
    hide Sound, Importable, Reseeds, AddsUpTo, Complete, OwnReaches, BooksRight, Ahead, DraftOf;
    var c := s.mains[s.peer].config;
    ImportEnabled(s, b);
    var s1 := Do(s, Import(c, b));
    var s2 := Do(s1, RecordVersion);
    StaysPut(Pulled(s, b));
    StepThen(s2, RecordPeer, Pulled(s, b));
    StepThen(s1, RecordVersion, Pulled(s, b));
    StepThen(s, Import(c, b), Pulled(s, b));
  }

  lemma OwnReachesThen(s: State, t: State, u: State)
    requires Proper(s) && Proper(t) && OwnReaches(s, t) && OwnReaches(t, u)
    ensures OwnReaches(s, u)
  {
    hide Proper;
    var acts :| OwnRuns(s, acts, t);
    var more :| OwnRuns(t, more, u);
    RunsThen(s, acts, t, more, u);
    assert OwnRuns(s, acts + more, u);
  }

  /** A pull that can import ends level. */
  lemma PullFrom(s: State, b: map<int, string>)
    requires Inv(s) && s.cycle.Idle? && s.peer != "" && !BooksLevel(s)
    requires CanImport(s) && Reseeds(s.builtins, s.mains[s.peer].zones, b)
    ensures OwnReaches(s, Pulled(s, b)) && Inv(Pulled(s, b)) && BooksLevel(Pulled(s, b))
  {
    hide Sound, Importable, Reseeds, OwnReaches, BooksRight, Ahead;
    FetchesAll(s);
    ImportCloses(Fetched(s), b);
    OwnReachesThen(s, Fetched(s), Pulled(s, b));
    PulledInv(s, b);
  }

  lemma PulledInv(s: State, b: map<int, string>)
    requires Inv(s) && s.peer != ""
    ensures Inv(Pulled(s, b))
  {
    hide Sound, FreshDraft;
  }

  /** Somewhere in a pull of a main that has not moved, nothing changed yet. */
  ghost predicate Stuck(s0: State, s: State) {
    && Inv(s) && s.(cycle := Idle) == s0 && s.peer != ""
    && match s.cycle
       case Idle => true
       case Started(p) => p == s.peer
       case Probed(p, v) => p == s.peer && v == s.mains[p].version
       case Fetching(p, v, d) => p == s.peer && v == s.mains[p].version && d.version == v
       case _ => false
  }

  lemma NoImport(s0: State, s: State, c: Config, b: map<int, string>)
    requires Stuck(s0, s) && !CanImport(s)
    ensures !Enabled(s, Import(c, b))
  {
    hide Importable, Reseeds, BooksRight, Ahead;
    if Enabled(s, Import(c, b)) {
      DraftIsConfig(s.cycle.draft, s.mains[s.peer], c);
    }
  }

  lemma StuckStep(s0: State, s: State, a: Action)
    requires Stuck(s0, s) && !CanImport(s) && !BooksLevel(s) && Own(a) && Enabled(s, a)
    ensures Stuck(s0, Do(s, a))
  {
    hide Importable, Reseeds, BooksRight, Ahead, Sound, DraftOf, AddsUpTo, Complete;
    StepKeepsInv(s, a);
    if a.Import? {
      NoImport(s0, s, a.config, a.builtins);
    }
  }

  lemma {:induction false} StaysStuck(s0: State, s: State, acts: seq<Action>, s': State)
    requires Stuck(s0, s) && !CanImport(s) && !BooksLevel(s) && OwnRuns(s, acts, s')
    ensures Stuck(s0, s')
    decreases |acts|
  {
    hide Importable, BooksRight, Ahead, Sound, FreshDraft, Enabled, Do, Careful;
    if acts != [] {
      StuckStep(s0, s, acts[0]);
      var t := Do(s, acts[0]);
      assert t.(cycle := Idle) == s.(cycle := Idle);
      assert OwnRuns(t, acts[1..], s');
      StaysStuck(s0, t, acts[1..], s');
    }
  }

  /** A pull that cannot import changes nothing, however often it is tried: every run of the
      replica's own steps leaves configuration, built-ins and books as they were, until the
      main writes again. */
  lemma {:induction false} WedgedChangesNothing(s: State, acts: seq<Action>, s': State)
    requires Inv(s) && s.cycle.Idle? && s.peer != "" && !BooksLevel(s) && !CanImport(s)
    requires OwnRuns(s, acts, s')
    ensures s'.(cycle := Idle) == s
  {
    hide CanImport, BooksRight, Ahead, Sound, FreshDraft, OwnRuns;
    StaysStuck(s, s, acts, s');
  }

  lemma StayingReseeds(builtins: map<int, string>, zones: Table)
    requires NamesFree(builtins, zones)
    ensures Reseeds(builtins, zones, map j | j in builtins && j !in zones :: builtins[j])
  {
  }

  /** Whether a change on the main arrives: from every reachable idle state whose books are
      behind, the replica's own steps reach level books exactly when the bundle can go into
      this database. */
  lemma {:induction false} PullArrivesIff(s0: State, acts: seq<Action>, s: State)
    requires Init(s0) && Runs(s0, acts, s) && s.cycle.Idle? && s.peer != "" && !BooksLevel(s)
    ensures CanImport(s) <==> exists s' :: OwnReaches(s, s') && BooksLevel(s')
  {
    hide Enabled, Do, Careful, BooksRight, Ahead, Sound, Fit, NothingStranded, NamesFree, Reseeds;
    InitInv(s0);
    RunKeepsInv(s0, acts, s);
    if CanImport(s) {
      StayingReseeds(s.builtins, s.mains[s.peer].zones);
      PullFrom(s, map j | j in s.builtins && j !in s.mains[s.peer].zones :: s.builtins[j]);
    } else if s' :| OwnReaches(s, s') && BooksLevel(s') {
      var own :| OwnRuns(s, own, s');
      WedgedChangesNothing(s, own, s');
    }
  }

  /** The probe ends the cycle exactly when the books name that main at the version it has. */
  lemma ProbeSkipsIff(s: State)
    requires Proper(s) && s.cycle.Started?
    ensures var (t, p) := (Do(s, Probe), s.cycle.peer);
            && (t.cycle.Idle? <==> s.applied == Some(s.mains[p].version) && s.appliedPeer == p)
            && (!t.cycle.Idle? ==> t.cycle == Probed(p, s.mains[p].version))
            && t.(cycle := s.cycle) == s
  {
  }

  /** A level replica leaves itself alone: no run of its own steps imports anything or touches the
      books, until the main writes. */
  lemma {:induction false} LevelDoesNothing(s: State, acts: seq<Action>, s': State)
    requires Proper(s) && s.peer != "" && BooksLevel(s) && (s.cycle.Idle? || s.cycle == Started(s.peer))
    requires OwnRuns(s, acts, s')
    ensures s'.(cycle := Idle) == s.(cycle := Idle)
    decreases |acts|
  {
    if acts != [] {
      var t := Do(s, acts[0]);
      LevelStep(s, acts[0]);
      hide Enabled, Do, Proper, BooksLevel, Own;
      assert OwnRuns(t, acts[1..], s');
      LevelDoesNothing(t, acts[1..], s');
    }
  }

  lemma LevelStep(s: State, a: Action)
    requires Proper(s) && s.peer != "" && BooksLevel(s) && (s.cycle.Idle? || s.cycle == Started(s.peer))
    requires Own(a) && Enabled(s, a)
    ensures var t := Do(s, a);
            && Proper(t) && BooksLevel(t) && t.peer != "" && (t.cycle.Idle? || t.cycle == Started(t.peer))
            && t.(cycle := Idle) == s.(cycle := Idle)
  {
    hide Sound, Importable, AddsUpTo;
  }

  /** One write on a main that was level can wedge its replica for good. */
  lemma {:induction false} EditWedges(s: State, c: Config, z: Table, acts: seq<Action>, s': State)
    requires Inv(s) && s.cycle.Idle? && s.peer != "" && BooksLevel(s) && Sound(c)
    requires !Importable(s.config, s.builtins, c, z)
    requires var t := Do(s, MainWrite(s.peer, c, z)); Proper(t) && OwnRuns(t, acts, s')
    ensures s'.config == s.config && s'.applied == s.applied && !BooksLevel(s')
  {
    hide Importable, BooksRight, Ahead, FreshDraft, OwnRuns;
    MainWriteKeepsInv(s, s.peer, c, z);
    WedgedChangesNothing(Do(s, MainWrite(s.peer, c, z)), acts, s');
  }

  // --------------------------------------------------- re-pointed in mid pull

  /** Why agreement has its exception. For any two mains that can be pulled in turn: pull p,
      follow q, and come back to p while q's bundle is being applied. The books say level
      with p; the configuration is q's; and if the process dies now it stays so. */
  lemma RepointedMidPull(s: State, p: string, q: string, b: map<int, string>, b': map<int, string>)
    requires Init(s) && p in s.mains && q in s.mains && p != q
    requires var (m, n) := (s.mains[p], s.mains[q]);
             && Importable(s.config, s.builtins, m.config, m.zones) && Reseeds(s.builtins, m.zones, b)
             && Importable(m.config, b, n.config, n.zones) && Reseeds(b, n.zones, b')
    ensures var t := Repointed(s, p, q, b');
            Reaches(s, t) && BooksLevel(t) && !OnCourse(t) && t.config == s.mains[q].config &&
            var dead := t.(cycle := Idle);
            dead.cycle.Idle? && BooksLevel(dead) && dead.config == s.mains[q].config
  {
    hide Sound, Importable, Reseeds, BooksRight, Ahead, Reaches, Enabled, FreshDraft, Careful;
    InitInv(s);
    var s1 := FollowAndPull(s, p, b);
    var s2 := FollowAndFetch(s1, q);
    ReachesThen(s, s1, s2);
    BackTo(s2, p, b');
    ReachesThen(s, s2, Repointed(s, p, q, b'));
  }

  /** Between the import of q and its first bookkeeping write, p followed again. */
  function Repointed(s: State, p: string, q: string, builtins: map<int, string>): State
    requires Proper(s) && p in s.mains && q in s.mains
  {
    State(s.mains, p, Some(s.mains[p].version), p, s.mains[q].config, builtins, false, Imported(q, s.mains[q].version))
  }

  lemma FollowAndPull(s: State, p: string, b: map<int, string>) returns (t: State)
    requires Inv(s) && s.cycle.Idle? && p in s.mains && s.applied.None?
    requires Importable(s.config, s.builtins, s.mains[p].config, s.mains[p].zones)
             && Reseeds(s.builtins, s.mains[p].zones, b)
    ensures Inv(t) && Reaches(s, t)
    ensures t == State(s.mains, p, Some(s.mains[p].version), p, s.mains[p].config, b, false, Idle)
  {
    hide Sound, Importable, Reseeds, BooksRight, Ahead, OwnReaches;
    var s1 := Do(s, Point(p));
    OwnerKeepsInv(s, Point(p));
    StaysHere(s);
    ReachesStep(s, s, Point(p));
    PullFrom(s1, b);
    t := Pulled(s1, b);
    OwnIsReached(s1, t);
    ReachesThen(s, s1, t);
  }

  lemma FollowAndFetch(s: State, q: string) returns (t: State)
    requires Inv(s) && s.cycle.Idle? && q in s.mains && s.appliedPeer != q && !s.edited
    ensures Inv(t) && Reaches(s, t)
    ensures t == s.(peer := q, cycle := Fetching(q, s.mains[q].version, Whole(s.mains[q])))
  {
    hide Sound, BooksRight, Ahead, OwnReaches;
    var s1 := Do(s, Point(q));
    OwnerKeepsInv(s, Point(q));
    StaysHere(s);
    ReachesStep(s, s, Point(q));
    FetchesAll(s1);
    t := Fetched(s1);
    OwnIsReached(s1, t);
    ReachesThen(s, s1, t);
  }

  lemma BackTo(s: State, p: string, b: map<int, string>)
    requires Inv(s) && s.peer != "" && s.cycle == Fetched(s).cycle && p in s.mains && !s.edited
    requires CanImport(s) && Reseeds(s.builtins, s.mains[s.peer].zones, b)
    ensures Reaches(s, s.(peer := p, config := s.mains[s.peer].config, builtins := b,
            cycle := Imported(s.peer, s.mains[s.peer].version)))
  {
    hide Sound, Importable, Reseeds, BooksRight, Ahead, FreshDraft, AddsUpTo, Complete;
    ImportEnabled(s, b);
    var c := s.mains[s.peer].config;
    var t := Do(s, Point(p));
    StaysHere(s);
    ReachesStep(s, s, Point(p));
    ReachesStep(s, t, Import(c, b));
  }

  // ------------------------------------------------------------ whole cycles

  /** A whole pull, with the built-ins as the reseed left them and each bookkeeping write made
      or lost. */
  function PulledBut(s: State, builtins: map<int, string>, noted: bool, named: bool): State
    requires Proper(s) && s.peer != ""
  {
    var t := Pulled(s, builtins);
    t.(applied := if noted then t.applied else s.applied, appliedPeer := if named then t.appliedPeer else s.appliedPeer)
  }

  /** The lost writes are harmless. */
  predicate Forgivable(s: State, version: int, noted: bool, named: bool) {
    && (noted || s.applied.None? || s.applied.value <= version)
    && (named || (!noted && s.applied.None?) || s.appliedPeer == s.peer || s.appliedPeer == "")
  }

  lemma PullReaches(s: State, b: map<int, string>, noted: bool, named: bool)
    requires Inv(s) && s.cycle.Idle? && s.peer != "" && !BooksLevel(s)
    requires CanImport(s) && Reseeds(s.builtins, s.mains[s.peer].zones, b)
    requires Forgivable(s, s.mains[s.peer].version, noted, named)
    ensures var t := PulledBut(s, b, noted, named); Inv(t) && Reaches(s, t)
  {
    hide Sound, Importable, Reseeds, BooksRight, Ahead, FreshDraft, AddsUpTo, Complete, OwnReaches, Reaches;
    FetchesAll(s);
    var s1 := Fetched(s);
    OwnIsReached(s, s1);
    ImportEnabled(s1, b);
    var taking := Import(s.mains[s.peer].config, b);
    ImportKeepsInv(s1, taking.config, b);
    ReachesStep(s, s1, taking);
    var s2 := Do(s1, taking);
    var note := if noted then RecordVersion else LoseVersion;
    BooksKeepInv(s2, note);
    ReachesStep(s, s2, note);
    var s3 := Do(s2, note);
    var name := if named then RecordPeer else LosePeer;
    BooksKeepInv(s3, name);
    ReachesStep(s, s3, name);
  }

  lemma IdleReaches(s: State, cleared: bool, unnamed: bool)
    requires Inv(s) && s.cycle.Idle? && s.peer == ""
    ensures var t := s.(applied := if cleared then None else s.applied,
                        appliedPeer := if s.applied.Some? && unnamed then "" else s.appliedPeer);
            Inv(t) && Reaches(s, t)
  {
    hide Sound, FreshDraft;
    OwnerKeepsInv(s, IdlePull(cleared, unnamed));
    StaysHere(s);
    ReachesStep(s, s, IdlePull(cleared, unnamed));
  }

  lemma PointReaches(s: State, p: string)
    requires Inv(s) && (p == "" || (p in s.mains && CanFollow(s, p)))
    ensures Inv(s.(peer := p)) && Reaches(s, s.(peer := p))
  {
    hide Sound, FreshDraft;
    OwnerKeepsInv(s, Point(p));
    StaysHere(s);
    ReachesStep(s, s, Point(p));
  }

  lemma StaysHere(s: State)
    requires Proper(s)
    ensures Reaches(s, s)
  {
    assert Runs(s, [], s);
  }
}
