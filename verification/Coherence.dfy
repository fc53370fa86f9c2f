/** Lookups, purges and routing reloads as one concurrent protocol.
    Every action is one atomic step of one party: a query reading the epoch, a
    lookup choosing its upstreams from whichever table is live, a put, a reload
    installing a table and then purging what it changed. An answer is represented
    by the route that produced it. */
module Coherence {
  import opened Wrappers
  import opened Names
  import opened Routing
  import opened Cache

  datatype Phase =
    | Begun
    | Ready(epoch: nat)         // has read the epoch
    | Waiting(flight: nat)      // on a lookup of its own, or one it joined
    | Answered(route: Route)

  /** `born` counts the tables installed when the query arrived; `calm` says that no
      reload was between its install and its purge at that moment. */
  datatype Query = Query(key: Key, born: nat, calm: bool, phase: Phase)

  /** One upstream lookup, shared by every query that joined it. */
  datatype Flight = Flight(epoch: nat, key: Key, route: Option<Route>)

  datatype State = State(
    live: Table,                        // the table the serving forwarder routes by
    pending: Option<set<string>>,       // installed, changed suffixes not purged yet
    staged: Option<Table>,              // a settings edit's forwarder, purged for but not serving
    installs: nat,
    base: nat,                          // the epoch at which the live table's purge was over
    epoch: nat,
    entries: map<Key, Route>,
    flights: map<nat, Flight>,
    open: map<(nat, Key), nat>,         // the singleflight group, keyed on epoch and question
    queries: map<nat, Query>
  )

  datatype Action =
    | Begin(q: nat, key: Key)
    | ReadEpoch(q: nat)
    | Hit(q: nat)                       // a fresh entry, or a stale one on a failed lookup
    | Lead(q: nat, f: nat)
    | Follow(q: nat)
    | Dispatch(f: nat)
    | Put(f: nat)
    | Close(f: nat)
    | Deliver(q: nat)
    | Drop(key: Key)                    // eviction, expiry or removal
    | Install(table: Table)             // ReloadZones: SetConditional
    | Purge                             // ReloadZones: Purge(changed)
    | StageSettings(table: Table)       // applySettings: install on the new forwarder and purge
    | SwapSettings                      // applySettings: the new forwarder starts serving

  predicate KeyOk(k: Key) { k.name == "" || k.name[0] != '.' }

  predicate Under(name: string, suffixes: set<string>) {
    exists s | s in suffixes :: UnderSuffix(name, s)
  }

  predicate Enabled(s: State, a: Action) {
    match a
    case Begin(q, key) => q !in s.queries && KeyOk(key)
    case ReadEpoch(q) => q in s.queries && s.queries[q].phase.Begun?
    case Hit(q) => q in s.queries && (s.queries[q].phase.Ready? || s.queries[q].phase.Waiting?)
                   && s.queries[q].key in s.entries
    case Lead(q, f) => q in s.queries && s.queries[q].phase.Ready? && f !in s.flights
                       && (s.queries[q].phase.epoch, s.queries[q].key) !in s.open
    case Follow(q) => q in s.queries && s.queries[q].phase.Ready?
                      && (s.queries[q].phase.epoch, s.queries[q].key) in s.open
    case Dispatch(f) => f in s.flights && s.flights[f].route.None?
    case Put(f) => f in s.flights && s.flights[f].route.Some?
    case Close(f) => f in s.flights && (s.flights[f].epoch, s.flights[f].key) in s.open
    case Deliver(q) => q in s.queries && s.queries[q].phase.Waiting?
                       && s.queries[q].phase.flight in s.flights
                       && s.flights[s.queries[q].phase.flight].route.Some?
    case Drop(_) => true
    // routeMu is held from a reload's install to the end of its purge, and by a
    // settings edit from its install to its swap.
    case Install(t) => s.pending.None? && s.staged.None?
    case Purge => s.pending.Some?
    case StageSettings(t) => s.pending.None? && s.staged.None?
    case SwapSettings => s.staged.Some?
  }

  function Purged(s: State, changed: set<string>): State {
    if changed == {} then s
    else s.(epoch := s.epoch + 1,
            entries := map k | k in s.entries && !Under(k.name, changed) :: s.entries[k])
  }

  function Do(s: State, a: Action): State
    requires Enabled(s, a)
  {
    match a
    case Begin(q, key) => s.(queries := s.queries[q := Query(key, s.installs, s.pending.None?, Begun)])
    case ReadEpoch(q) => s.(queries := s.queries[q := s.queries[q].(phase := Ready(s.epoch))])
    case Hit(q) => s.(queries := s.queries[q := s.queries[q].(phase := Answered(s.entries[s.queries[q].key]))])
    case Lead(q, f) =>
      var e, k := s.queries[q].phase.epoch, s.queries[q].key;
      s.(flights := s.flights[f := Flight(e, k, None)],
         open := s.open[(e, k) := f],
         queries := s.queries[q := s.queries[q].(phase := Waiting(f))])
    case Follow(q) =>
      var f := s.open[(s.queries[q].phase.epoch, s.queries[q].key)];
      s.(queries := s.queries[q := s.queries[q].(phase := Waiting(f))])
    case Dispatch(f) =>
      s.(flights := s.flights[f := s.flights[f].(route := Some(RouteOf(s.live, s.flights[f].key.name)))])
    case Put(f) =>
      if s.flights[f].epoch != s.epoch then s
      else s.(entries := s.entries[s.flights[f].key := s.flights[f].route.value])
    case Close(f) => s.(open := s.open - {(s.flights[f].epoch, s.flights[f].key)})
    case Deliver(q) =>
      var r := s.flights[s.queries[q].phase.flight].route.value;
      s.(queries := s.queries[q := s.queries[q].(phase := Answered(r))])
    case Drop(key) => s.(entries := s.entries - {key})
    case Install(t) => s.(live := t, pending := Some(Changed(s.live, t)), installs := s.installs + 1)
    case Purge =>
      var purged := Purged(s, s.pending.value);
      purged.(pending := None, base := purged.epoch)
    case StageSettings(t) => Purged(s, Changed(s.live, t)).(staged := Some(t))
    case SwapSettings => s.(live := s.staged.value, staged := None, installs := s.installs + 1, base := s.epoch)
  }

  /** The route agrees with the live table, or the entry is about to be purged. */
  ghost predicate RoutedNow(s: State, k: Key, r: Route) {
    r == RouteOf(s.live, k.name) || (s.pending.Some? && Under(k.name, s.pending.value))
  }

  ghost predicate QueryOk(s: State, q: Query) {
    && KeyOk(q.key) && q.born <= s.installs
    && (q.phase.Ready? ==> q.phase.epoch <= s.epoch)
    && (q.phase.Waiting? ==> q.phase.flight in s.flights && s.flights[q.phase.flight].key == q.key)
    && (q.calm && q.born == s.installs ==>
          && s.pending.None?
          && (q.phase.Ready? ==> q.phase.epoch >= s.base)
          && (q.phase.Waiting? ==> s.flights[q.phase.flight].epoch >= s.base)
          && (q.phase.Answered? ==> q.phase.route == RouteOf(s.live, q.key.name)))
  }

  ghost predicate Inv(s: State) {
    && (forall k | k in s.entries :: KeyOk(k) && RoutedNow(s, k, s.entries[k]))
    && (forall f | f in s.flights :: FlightOk(s, s.flights[f]))
    && (forall p | p in s.open :: s.open[p] in s.flights
          && s.flights[s.open[p]].epoch == p.0 && s.flights[s.open[p]].key == p.1)
    && (forall q | q in s.queries :: QueryOk(s, s.queries[q]))
    && (s.staged.Some? ==> s.pending.None?)
    && s.base <= s.epoch
  }

  ghost predicate FlightOk(s: State, f: Flight) {
    && KeyOk(f.key) && f.epoch <= s.epoch
    && (f.epoch >= s.base && f.route.Some? ==> RoutedNow(s, f.key, f.route.value))
  }

  function Init(t: Table): State {
    State(t, None, None, 0, 0, 0, map[], map[], map[], map[])
  }

  predicate RoutedAlike(s: State, k: Key)
    requires s.staged.Some?
  {
    RouteOf(s.staged.value, k.name) == RouteOf(s.live, k.name)
  }

  /** The staged table routes every stored name, and every name an answer is on its way
      for, as the live one does. */
  ghost predicate SwapSafe(s: State)
    requires s.staged.Some?
  {
    && (forall k | k in s.entries :: RoutedAlike(s, k))
    && (forall f | f in s.flights && s.flights[f].epoch == s.epoch && s.flights[f].route.Some? ::
        RoutedAlike(s, s.flights[f].key))
  }

  /** The one restriction the theorems need, exact by SwapSafeIff. */
  ghost predicate Quiet(s: State, a: Action) {
    a.SwapSettings? && s.staged.Some? ==> SwapSafe(s)
  }

  ghost predicate Runs(s: State, acts: seq<Action>, s': State)
    decreases |acts|
  {
    if acts == [] then s' == s
    else Enabled(s, acts[0]) && Quiet(s, acts[0]) && Runs(Do(s, acts[0]), acts[1..], s')
  }

  /** A name outside the changed suffixes keeps its route. */
  lemma RouteKept(prev: Table, next: Table, k: Key)
    requires KeyOk(k)
    ensures RouteOf(next, k.name) == RouteOf(prev, k.name) || Under(k.name, Changed(prev, next))
  {
    if !Under(k.name, Changed(prev, next)) {
      RouteUnaffected(prev, next, k.name);
    }
  }

  lemma InstallKeepsInv(s: State, t: Table)
    requires Inv(s) && Enabled(s, Install(t))
    ensures Inv(Do(s, Install(t)))
  {
    forall k | KeyOk(k) ensures RouteOf(t, k.name) == RouteOf(s.live, k.name) || Under(k.name, Changed(s.live, t)) {
      RouteKept(s.live, t, k);
    }
  }

  lemma PurgeKeepsInv(s: State)
    requires Inv(s) && Enabled(s, Purge)
    ensures Inv(Do(s, Purge))
  {
    var s' := Do(s, Purge);
    assert forall k | k in s'.entries :: k in s.entries && s'.entries[k] == s.entries[k];
  }

  lemma SwapKeepsInv(s: State)
    requires Inv(s) && Enabled(s, SwapSettings) && SwapSafe(s)
    ensures Inv(Do(s, SwapSettings))
  {
    hide KeyOk, RouteOf, Changed, Under;
    var s' := Do(s, SwapSettings);
    forall k | k in s'.entries ensures KeyOk(k) && RoutedNow(s', k, s'.entries[k]) {
      assert RoutedNow(s, k, s.entries[k]) && RoutedAlike(s, k);
    }
    forall f | f in s'.flights ensures FlightOk(s', s'.flights[f]) {
      assert FlightOk(s, s.flights[f]);
    }
  }

  lemma LeadKeepsInv(s: State, q: nat, f: nat)
    requires Inv(s) && Enabled(s, Lead(q, f))
    ensures Inv(Do(s, Lead(q, f)))
  {
    hide KeyOk, RouteOf, Changed, Under;
    var s' := Do(s, Lead(q, f));
    assert forall g | g in s.flights :: g in s'.flights && s'.flights[g] == s.flights[g];
    forall p | p in s'.queries ensures QueryOk(s', s'.queries[p]) {
      assert QueryOk(s, s.queries[p]);
    }
    forall g | g in s'.flights ensures FlightOk(s', s'.flights[g]) {
      if g != f { assert FlightOk(s, s.flights[g]); } else { assert QueryOk(s, s.queries[q]); }
    }
  }

  lemma FollowKeepsInv(s: State, q: nat)
    requires Inv(s) && Enabled(s, Follow(q))
    ensures Inv(Do(s, Follow(q)))
  {
    assert QueryOk(s, s.queries[q]);
    assert (s.queries[q].phase.epoch, s.queries[q].key) in s.open;
  }

  lemma DispatchKeepsInv(s: State, f: nat)
    requires Inv(s) && Enabled(s, Dispatch(f))
    ensures Inv(Do(s, Dispatch(f)))
  {
    var s' := Do(s, Dispatch(f));
    assert forall g | g in s.flights :: g in s'.flights && s'.flights[g].key == s.flights[g].key
                                        && s'.flights[g].epoch == s.flights[g].epoch;
  }

  lemma PutKeepsInv(s: State, f: nat)
    requires Inv(s) && Enabled(s, Put(f))
    ensures Inv(Do(s, Put(f)))
  {
    assert FlightOk(s, s.flights[f]);
  }

  lemma DeliverKeepsInv(s: State, q: nat)
    requires Inv(s) && Enabled(s, Deliver(q))
    ensures Inv(Do(s, Deliver(q)))
  {
    assert QueryOk(s, s.queries[q]);
    assert FlightOk(s, s.flights[s.queries[q].phase.flight]);
  }

  /** Steps that touch no table and no lookup under way. */
  lemma PlainStepKeepsInv(s: State, a: Action)
    requires Inv(s) && Enabled(s, a)
    requires a.Begin? || a.ReadEpoch? || a.Hit? || a.Close? || a.Drop?
    ensures Inv(Do(s, a))
  {
    hide Changed;
  }

  lemma StageKeepsInv(s: State, t: Table)
    requires Inv(s) && Enabled(s, StageSettings(t))
    ensures Inv(Do(s, StageSettings(t)))
  {
    hide KeyOk, RouteOf, Changed, Under;
    var s' := Do(s, StageSettings(t));
    assert forall k | k in s'.entries :: k in s.entries && s'.entries[k] == s.entries[k];
  }

  lemma SwapReady(s: State)
    requires Enabled(s, SwapSettings)
    ensures s.staged.Some?
  {
  }

  lemma StepKeepsInv(s: State, a: Action)
    requires Inv(s) && Enabled(s, a) && Quiet(s, a)
    ensures Inv(Do(s, a))
  {
    hide Inv, Do, Enabled, Changed;
    match a
    case Install(t) => InstallKeepsInv(s, t);
    case Purge => PurgeKeepsInv(s);
    case SwapSettings => SwapReady(s); SwapKeepsInv(s);
    case StageSettings(t) => StageKeepsInv(s, t);
    case Lead(q, f) => LeadKeepsInv(s, q, f);
    case Follow(q) => FollowKeepsInv(s, q);
    case Dispatch(f) => DispatchKeepsInv(s, f);
    case Put(f) => PutKeepsInv(s, f);
    case Deliver(q) => DeliverKeepsInv(s, q);
    case _ => PlainStepKeepsInv(s, a);
  }

  lemma {:induction false} RunKeepsInv(s: State, acts: seq<Action>, s': State)
    requires Inv(s) && Runs(s, acts, s')
    ensures Inv(s')
    decreases |acts|
  {
    if acts != [] {
      StepKeepsInv(s, acts[0]);
      RunKeepsInv(Do(s, acts[0]), acts[1..], s');
    }
  }

  /** Every stored answer came from the upstreams the live table names for it. */
  ghost predicate EntriesRight(s: State) {
    forall k | k in s.entries :: s.entries[k] == RouteOf(s.live, k.name)
  }

  /** Over every interleaving: outside a reload's install-to-purge window, every
      stored answer came from the upstreams the live table names for it. */
  lemma {:induction false} EntriesFollowTheTable(t: Table, acts: seq<Action>, s: State)
    requires Runs(Init(t), acts, s) && s.pending.None?
    ensures EntriesRight(s)
  {
    RunKeepsInv(Init(t), acts, s);
  }

  /** A query that arrived with no reload in progress and that no reload has
      overtaken was answered - from the cache, stale, or from a lookup it shares -
      by the upstreams the live table names for it. */
  lemma {:induction false} CalmQueriesAreRoutedRight(t: Table, acts: seq<Action>, s: State, q: nat)
    requires Runs(Init(t), acts, s)
    requires q in s.queries && s.queries[q].phase.Answered?
    requires s.queries[q].calm && s.queries[q].born == s.installs
    ensures s.queries[q].phase.route == RouteOf(s.live, s.queries[q].key.name)
  {
    RunKeepsInv(Init(t), acts, s);
  }

  /** The restriction is exact: a swap that breaks it leaves a wrong entry, or lets the
      next put of a lookup under way store one. */
  lemma SwapSafeIff(s: State)
    requires Inv(s) && Enabled(s, SwapSettings)
    ensures var s' := Do(s, SwapSettings);
            SwapSafe(s) <==> EntriesRight(s') && forall f | Enabled(s', Put(f)) :: EntriesRight(Do(s', Put(f)))
  {
    hide KeyOk, RouteOf, Changed, Under;
    var s' := Do(s, SwapSettings);
    assert forall k | k in s.entries :: s.entries[k] == RouteOf(s.live, k.name);
    if SwapSafe(s) {
      forall f | Enabled(s', Put(f)) ensures EntriesRight(Do(s', Put(f))) {
        assert FlightOk(s, s.flights[f]);
      }
    }
    if EntriesRight(s') && forall f | Enabled(s', Put(f)) :: EntriesRight(Do(s', Put(f))) {
      forall f | f in s.flights && s.flights[f].epoch == s.epoch && s.flights[f].route.Some?
        ensures RoutedAlike(s, s.flights[f].key)
      {
        assert Enabled(s', Put(f)) && FlightOk(s, s.flights[f]);
        assert s.flights[f].key in Do(s', Put(f)).entries;
      }
    }
  }

  // ------------------------------------------------------ what the steps achieve

  /** A query that finds nothing stored and no lookup to join: its lookup goes by the live table,
      is stored under its question and answers it; no other entry changes. */
  lemma LookupStores(s: State, q: nat, f: nat)
    requires q in s.queries && s.queries[q].phase.Begun? && f !in s.flights
    requires (s.epoch, s.queries[q].key) !in s.open
    ensures var k := s.queries[q].key;
            var s1 := Do(s, ReadEpoch(q));
            Enabled(s1, Lead(q, f)) &&
            var s2 := Do(s1, Lead(q, f));
            Enabled(s2, Dispatch(f)) &&
            var s3 := Do(s2, Dispatch(f));
            Enabled(s3, Put(f)) &&
            var s4 := Do(s3, Put(f));
            Enabled(s4, Deliver(q)) &&
            var s5 := Do(s4, Deliver(q));
            && s5.entries == s.entries[k := RouteOf(s.live, k.name)] && s5.epoch == s.epoch && s5.live == s.live
            && s5.queries == s.queries[q := s.queries[q].(phase := Answered(RouteOf(s.live, k.name)))]
  {
    hide RouteOf, Changed, Under;
  }

  /** A query that finds a lookup of its question open in its epoch joins it, and starts none; one
      that finds an entry is answered by it. */
  lemma LookupIsShared(s: State, q: nat)
    requires q in s.queries && s.queries[q].phase.Begun?
    ensures var k := s.queries[q].key;
            var s1 := Do(s, ReadEpoch(q));
            && ((s.epoch, k) in s.open ==>
                  Enabled(s1, Follow(q)) &&
                  var s2 := Do(s1, Follow(q));
                  s2.flights == s.flights && s2.entries == s.entries
                  && s2.queries[q].phase == Waiting(s.open[(s.epoch, k)]))
            && (k in s.entries ==>
                  Enabled(s1, Hit(q)) &&
                  var s2 := Do(s1, Hit(q));
                  s2.flights == s.flights && s2.entries == s.entries && s2.queries[q].phase == Answered(s.entries[k]))
  {
    hide RouteOf, Changed, Under;
  }

  /** An answer of an older epoch is not stored. A reload takes exactly the entries under a
      suffix it changed, and moves the epoch exactly when it changed one. */
  lemma ReloadDrops(s: State, f: nat, t: Table)
    ensures Enabled(s, Put(f)) && s.flights[f].epoch < s.epoch ==> Do(s, Put(f)) == s
    ensures Enabled(s, Install(t)) ==>
            var s1 := Do(s, Install(t));
            && s1.live == t && s1.entries == s.entries && s1.epoch == s.epoch && Enabled(s1, Purge) &&
            var s2 := Do(s1, Purge);
            && s2.live == t && s2.pending.None?
            && s2.epoch == s.epoch + (if Changed(s.live, t) == {} then 0 else 1)
            && (forall k :: k in s2.entries <==> k in s.entries && !Under(k.name, Changed(s.live, t)))
            && (forall k | k in s2.entries :: s2.entries[k] == s.entries[k])
  {
    hide RouteOf, Changed;
  }

  /** The same runs without the restriction on settings edits. */
  ghost predicate RunsFreely(s: State, acts: seq<Action>, s': State)
    decreases |acts|
  {
    if acts == [] then s' == s
    else Enabled(s, acts[0]) && RunsFreely(Do(s, acts[0]), acts[1..], s')
  }

  lemma {:induction false} Extend(s: State, acts: seq<Action>, m: State, a: Action)
    requires RunsFreely(s, acts, m) && Enabled(m, a)
    ensures RunsFreely(s, acts + [a], Do(m, a))
    decreases |acts|
  {
    if acts == [] {
      assert RunsFreely(Do(m, a), [a][1..], Do(m, a));
    } else {
      Extend(Do(s, acts[0]), acts[1..], m, a);
      assert (acts + [a])[1..] == acts[1..] + [a];
    }
  }

  /** applySettings purges before it swaps. A lookup that goes upstream between the
      two still routes by the old table, under the new epoch, and is stored: the
      entry outlives the swap, and agrees with the new table exactly when the two
      tables route its name alike. */
  lemma SettingsLeakIff(s: State, f: nat)
    requires s.staged.Some? && s.pending.None?
    requires f in s.flights && s.flights[f].route.None? && s.flights[f].epoch == s.epoch
    ensures var k := s.flights[f].key;
            var s1 := Do(s, Dispatch(f));
            Enabled(s1, Put(f)) &&
            var s2 := Do(s1, Put(f));
            Enabled(s2, SwapSettings) &&
            var s3 := Do(s2, SwapSettings);
            && s3.pending.None? && s3.live == s.staged.value && k in s3.entries
            && (s3.entries[k] == RouteOf(s3.live, k.name)
                <==> RouteOf(s.live, k.name) == RouteOf(s.staged.value, k.name))
  {
    var s2 := Do(Do(s, Dispatch(f)), Put(f));
    assert s2.entries[s.flights[f].key] == RouteOf(s.live, s.flights[f].key.name);
  }

  /** The window exists: for every pair of tables and every name, a run reaches it. */
  lemma {:induction false} SettingsWindow(before: Table, after: Table, k: Key) returns (s: State)
    requires KeyOk(k)
    ensures RunsFreely(Init(before), [StageSettings(after), Begin(0, k), ReadEpoch(0), Lead(0, 0)], s)
    ensures s.staged == Some(after) && s.pending.None? && s.live == before
    ensures 0 in s.flights && s.flights[0] == Flight(s.epoch, k, None)
  {
    var s0, acts: seq<Action> := Init(before), [];
    Extend(s0, acts, s0, StageSettings(after));
    var s1 := Do(s0, StageSettings(after));
    acts := acts + [StageSettings(after)];
    Extend(s0, acts, s1, Begin(0, k));
    var s2 := Do(s1, Begin(0, k));
    acts := acts + [Begin(0, k)];
    Extend(s0, acts, s2, ReadEpoch(0));
    var s3 := Do(s2, ReadEpoch(0));
    acts := acts + [ReadEpoch(0)];
    Extend(s0, acts, s3, Lead(0, 0));
    s := Do(s3, Lead(0, 0));
    assert acts + [Lead(0, 0)] == [StageSettings(after), Begin(0, k), ReadEpoch(0), Lead(0, 0)];
  }

  /** The leak, from an empty cache: whatever the two tables, a run ends with the swap done,
      nothing left to purge, and the name's entry from the old table. */
  lemma {:induction false} SettingsLeak(before: Table, after: Table, k: Key) returns (acts: seq<Action>, s: State)
    requires KeyOk(k)
    ensures RunsFreely(Init(before), acts, s) && s.live == after && s.pending.None? && s.staged.None?
    ensures k in s.entries && s.entries[k] == RouteOf(before, k.name)
  {
    var s0 := SettingsWindow(before, after, k);
    acts := [StageSettings(after), Begin(0, k), ReadEpoch(0), Lead(0, 0)];
    Extend(Init(before), acts, s0, Dispatch(0));
    var s1 := Do(s0, Dispatch(0));
    Extend(Init(before), acts + [Dispatch(0)], s1, Put(0));
    var s2 := Do(s1, Put(0));
    Extend(Init(before), acts + [Dispatch(0)] + [Put(0)], s2, SwapSettings);
    s := Do(s2, SwapSettings);
    acts := acts + [Dispatch(0)] + [Put(0)] + [SwapSettings];
  }

  /** ... and there are tables for which that is wrong: a zone claims a name the defaults
      answered. */
  lemma SettingsLeakIsWrong() returns (acts: seq<Action>, s: State)
    ensures RunsFreely(Init(map[]), acts, s) && s.pending.None? && s.staged.None? && !EntriesRight(s)
  {
    var k := Key("a.corp", 1);
    acts, s := SettingsLeak(map[], map["corp" := ["10.0.0.1"]], k);
    assert FirstDot("a.corp") == 1;
    assert "a.corp"[2..] == "corp";
    assert s.entries[k] != RouteOf(s.live, k.name);
  }

  // ------------------------------------------------ the code behind the steps

  lemma {:induction false} NormalizedKept(out: seq<string>)
    requires forall i | 0 <= i < |out| :: out[i] != "" && Normalize(out[i]) == out[i]
    ensures NormalizedSuffixes(out) == out
  {
    if out != [] {
      var rest, last := out[..|out| - 1], out[|out| - 1];
      var kept := NormalizedSuffixes(rest);
      assert kept == rest by { NormalizedKept(rest); }
      assert NormalizedSuffixes(out) == kept + [Normalize(last)];
      assert rest + [last] == out;
    }
  }

  /** Purge's own reading of its arguments is the changed set the steps speak of. */
  lemma PurgeReadsChanged(prev: Table, next: Table, out: seq<string>)
    requires WellKeyed(prev) && WellKeyed(next)
    requires forall s :: s in out <==> s in Changed(prev, next)
    ensures NormalizedSuffixes(out) == [] <==> Changed(prev, next) == {}
    ensures forall name: string :: UnderAny(name, NormalizedSuffixes(out)) <==> Under(name, Changed(prev, next))
  {
    assert forall i | 0 <= i < |out| :: out[i] in out;
    NormalizedKept(out);
    assert out != [] ==> out[0] in Changed(prev, next);
    forall name: string | Under(name, Changed(prev, next)) ensures UnderAny(name, out) {
      var s :| s in Changed(prev, next) && UnderSuffix(name, s);
      assert s in out;
    }
    forall name: string | UnderAny(name, out) ensures Under(name, Changed(prev, next)) {
      var i :| 0 <= i < |out| && UnderSuffix(name, out[i]);
      assert out[i] in out;
    }
  }

  /** The routing half of App: the serving forwarder's table, the table last
      installed, and the cache in front of it. */
  class App {
    var live: Table
    var routes: Table
    const cache: Cache<Route>

    constructor (c: Cache<Route>)
      ensures live == map[] && routes == map[] && cache == c
    {
      live, routes, cache := map[], map[], c;
    }

    /** ReloadZones up to its install: the Install step, then the Purge step, on the
        cache's own state. */
    method ReloadZones(table: Table)
      requires cache.Valid() && live == routes && WellKeyed(routes) && WellKeyed(table)
      modifies this, cache
      ensures cache.Valid() && live == table && routes == table
      ensures forall k :: k in cache.entries <==>
                k in old(cache.entries) && !Under(k.name, Changed(old(live), table))
      ensures forall k | k in cache.entries :: cache.entries[k] == old(cache.entries)[k]
      ensures cache.epoch == old(cache.epoch) + (if Changed(old(live), table) == {} then 0 else 1)
    {
      live := table;
      var changed := ChangedSuffixes(routes, table);
      PurgeReadsChanged(routes, table, changed);
      routes := table;
      if |changed| != 0 {
        var _ := cache.Purge(changed);
      }
    }
  }
}
