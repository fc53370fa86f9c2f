/** PATCH on one zone row: concurrent handlers that read, merge and write back only if
    the row has not moved. */
module ZonePatch {
  import opened Wrappers

  type Columns = map<string, string>

  /** A request body: the columns it names. */
  type Body = map<string, string>

  /** Per-column normalising, the canonical spelling of the list columns, and the check on
      the merged zone; None and false are refusals. */
  datatype Lib = Lib(norm: (string, string) -> Option<string>, canon: (string, string) -> Option<string>,
      fits: Columns -> bool)

  /** canonicalAllowTransfer and its kin: a canonical value is its own canonical form. */
  ghost predicate LibOk(lib: Lib) {
    forall c, v | lib.canon(c, v).Some? :: lib.canon(c, lib.canon(c, v).value) == lib.canon(c, v)
  }

  // ------------------------------------------------------------------- merge

  predicate Reads(lib: Lib, body: Body) { forall c | c in body :: lib.norm(c, body[c]).Some? }

  function Overlay(lib: Lib, z: Columns, body: Body): Columns
    requires Reads(lib, body)
  {
    map c | c in z.Keys + body.Keys :: if c in body then lib.norm(c, body[c]).value else z[c]
  }

  predicate Spells(lib: Lib, z: Columns) { forall c | c in z :: lib.canon(c, z[c]).Some? }

  function Canonical(lib: Lib, z: Columns): Columns
    requires Spells(lib, z)
  {
    map c | c in z :: lib.canon(c, z[c]).value
  }

  /** mergeZonePatch. */
  function Merge(lib: Lib, z: Columns, body: Body): Option<Columns> {
    if !Reads(lib, body) then None
    else
      var m := Overlay(lib, z, body);
      if lib.fits(m) && Spells(lib, m) then Some(Canonical(lib, m)) else None
  }

  ghost predicate Stored(lib: Lib, z: Columns) { forall c | c in z :: lib.canon(c, z[c]) == Some(z[c]) }

  /** A patch changes the columns it names and no other, and leaves the row canonical. */
  lemma MergeTouchesOnlyTheBody(lib: Lib, z: Columns, body: Body)
    requires LibOk(lib) && Stored(lib, z) && Merge(lib, z, body).Some?
    ensures var m := Merge(lib, z, body).value;
            && Stored(lib, m) && m.Keys == z.Keys + body.Keys
            && (forall c | c in z && c !in body :: m[c] == z[c])
            && (forall c | c in body :: Some(m[c]) == lib.canon(c, lib.norm(c, body[c]).value))
  {
    var o := Overlay(lib, z, body);
    var m := Merge(lib, z, body).value;
    forall c | c in m ensures lib.canon(c, m[c]) == Some(m[c]) {
      assert lib.canon(c, o[c]).Some? && m[c] == lib.canon(c, o[c]).value;
    }
  }

  /** The row a patch asks for, column by column, before it is judged. */
  ghost predicate Asked(lib: Lib, z: Columns, body: Body, m: Columns) {
    && m.Keys == z.Keys + body.Keys
    && (forall c | c in body :: Some(m[c]) == lib.norm(c, body[c]))
    && (forall c | c in z && c !in body :: m[c] == z[c])
  }

  /** A patch is refused exactly when a column it names does not read, or the row it asks for does
      not fit, or a column of that has no canonical spelling. */
  lemma MergeIff(lib: Lib, z: Columns, body: Body)
    ensures Merge(lib, z, body).Some? <==>
            exists m :: Asked(lib, z, body, m) && lib.fits(m) && forall c | c in m :: lib.canon(c, m[c]).Some?
  {
    if Reads(lib, body) {
      var o := Overlay(lib, z, body);
      assert Asked(lib, z, body, o);
      forall m | Asked(lib, z, body, m) ensures m == o {
        assert forall c | c in m :: m[c] == o[c];
      }
    }
  }

  // ---------------------------------------------------------------- handlers

  datatype Row = Row(cols: Columns, serial: nat, modified: int)

  const SERIALS := 4_294_967_296
  const ZONE_PATCH_ATTEMPTS := 2

  /** `read` counts the serial bumps before the handler's read (nothing stores this). */
  datatype Phase = Reading | Merged(before: Row, cols: Columns, read: nat) | Done | Conflict | Refused

  datatype Handler = Handler(body: Body, attempt: nat, phase: Phase)

  /** One row, the handlers at work on it, and the bodies committed so far with who did. */
  datatype State = State(row: Row, handlers: map<nat, Handler>, log: seq<(nat, Body)>, bumps: nat)

  datatype Action = Begin(h: nat, body: Body) | ReadRow(h: nat) | WriteRow(h: nat, now: int) | BumpSerial(now: int)

  predicate Enabled(s: State, a: Action) {
    match a
    case Begin(h, _) => h !in s.handlers
    case ReadRow(h) => h in s.handlers && s.handlers[h].phase.Reading?
    case WriteRow(h, _) => h in s.handlers && s.handlers[h].phase.Merged?
    case BumpSerial(_) => true
  }

  function Stamp(now: int, before: int): int { if now <= before then before + 1 else now }

  function Do(lib: Lib, s: State, a: Action): State
    requires Enabled(s, a)
  {
    match a
    case Begin(h, body) => s.(handlers := s.handlers[h := Handler(body, 0, Reading)])
    case ReadRow(h) =>
      var m := Merge(lib, s.row.cols, s.handlers[h].body);
      s.(handlers := s.handlers[h :=
          s.handlers[h].(phase := if m.Some? then Merged(s.row, m.value, s.bumps) else Refused)])
    case WriteRow(h, now) =>
      var w := s.handlers[h];
      if s.row.modified == w.phase.before.modified then
        s.(row := Row(w.phase.cols, w.phase.before.serial, Stamp(now, w.phase.before.modified)),
           handlers := s.handlers[h := w.(phase := Done)],
           log := s.log + [(h, w.body)])
      else
        s.(handlers := s.handlers[h := w.(attempt := w.attempt + 1,
             phase := if w.attempt + 1 < ZONE_PATCH_ATTEMPTS then Reading else Conflict)])
    case BumpSerial(now) => s.(row := s.row.(serial := (s.row.serial + 1) % SERIALS, modified := now),
        bumps := s.bumps + 1)
  }

  /** The action puts another row in place under a stamp. */
  predicate Stamps(s: State, a: Action) {
    a.BumpSerial? || (a.WriteRow? && a.h in s.handlers && s.handlers[a.h].phase.Merged?
                      && s.row.modified == s.handlers[a.h].phase.before.modified)
  }

  /** The handler read its row under this stamp, and it was another row. */
  predicate ReadOther(w: Handler, row: Row) {
    w.phase.Merged? && w.phase.before.modified == row.modified && w.phase.before != row
  }

  /** The one thing the theorem needs and bumpSerialSQL does not give: an action that stamps
      the row does not give it a stamp under which some handler still at work read another
      row. */
  predicate Clear(lib: Lib, s: State, a: Action)
    requires Enabled(s, a)
  {
    var t := Do(lib, s, a);
    Stamps(s, a) ==> forall h | h in t.handlers :: !ReadOther(t.handlers[h], t.row)
  }

  // --------------------------------------------------------------- invariant

  /** The committed bodies applied one after another. */
  function Folded(lib: Lib, z: Columns, log: seq<(nat, Body)>): Option<Columns> {
    if log == [] then Some(z)
    else
      var past := Folded(lib, z, log[..|log| - 1]);
      if past.None? then None else Merge(lib, past.value, log[|log| - 1].1)
  }

  /** While the row is where the handler read it, it is as the handler read it. */
  ghost predicate HandlerOk(lib: Lib, row: Row, w: Handler) {
    !ReadOther(w, row) && (w.phase.Merged? ==> Merge(lib, w.phase.before.cols, w.body) == Some(w.phase.cols))
  }

  /** The serial a handler read counts the bumps before its read. Commits move the stamp on,
      so a row that was replaced without a bump since is behind the present one. */
  ghost predicate ReadOk(init: Row, row: Row, bumps: nat, w: Handler) {
    w.phase.Merged? ==>
      && w.phase.read <= bumps && w.phase.before.serial == (init.serial + w.phase.read) % SERIALS
      && (w.phase.read == bumps ==> w.phase.before == row || w.phase.before.modified < row.modified)
  }

  ghost predicate ReadsOk(init: Row, s: State) {
    forall h | h in s.handlers :: ReadOk(init, s.row, s.bumps, s.handlers[h])
  }

  ghost predicate LogOk(s: State) {
    && (forall i | 0 <= i < |s.log| :: s.log[i].0 in s.handlers && s.handlers[s.log[i].0].phase.Done?
          && s.handlers[s.log[i].0].body == s.log[i].1)
    && (forall i, j | 0 <= i < j < |s.log| :: s.log[i].0 != s.log[j].0)
    && (forall h | h in s.handlers && s.handlers[h].phase.Done? :: exists i | 0 <= i < |s.log| :: s.log[i].0 == h)
  }

  /** Nothing is lost: the row is the fold of the commits, and its serial counts every bump. */
  ghost predicate Right(lib: Lib, init: Row, s: State) {
    Folded(lib, init.cols, s.log) == Some(s.row.cols) && s.row.serial == (init.serial + s.bumps) % SERIALS
  }

  ghost predicate Inv(lib: Lib, init: Row, s: State) {
    && Right(lib, init, s) && ReadsOk(init, s)
    && (forall h | h in s.handlers :: HandlerOk(lib, s.row, s.handlers[h]))
    && LogOk(s)
  }

  lemma CommitKeepsLog(s: State, h: nat, w: Handler, row: Row)
    requires LogOk(s) && h in s.handlers && s.handlers[h] == w && !w.phase.Done?
    ensures LogOk(State(row, s.handlers[h := w.(phase := Done)], s.log + [(h, w.body)], s.bumps))
  {
    var log := s.log + [(h, w.body)];
    var t := State(row, s.handlers[h := w.(phase := Done)], log, s.bumps);
    forall i | 0 <= i < |log|
      ensures log[i].0 in t.handlers && t.handlers[log[i].0].phase.Done? && t.handlers[log[i].0].body == log[i].1
    {
      if i < |s.log| { assert log[i] == s.log[i]; }
    }
    forall i, j | 0 <= i < j < |log| ensures log[i].0 != log[j].0 {
      assert log[i] == s.log[i];
      if j < |s.log| { assert log[j] == s.log[j]; }
    }
    forall g | g in s.handlers && s.handlers[g].phase.Done? ensures exists i | 0 <= i < |log| :: log[i].0 == g {
      var i :| 0 <= i < |s.log| && s.log[i].0 == g;
      assert log[i].0 == g;
    }
    assert log[|s.log|].0 == h;
  }

  lemma OtherPhaseKeepsLog(s: State, h: nat, w: Handler)
    requires LogOk(s) && !w.phase.Done? && (h in s.handlers ==> !s.handlers[h].phase.Done?)
    ensures LogOk(s.(handlers := s.handlers[h := w]))
  {
    var t := s.(handlers := s.handlers[h := w]);
    forall g | g in t.handlers && t.handlers[g].phase.Done? ensures exists i | 0 <= i < |t.log| :: t.log[i].0 == g {
      assert g in s.handlers && s.handlers[g].phase.Done?;
    }
  }

  lemma FoldedNext(lib: Lib, z: Columns, log: seq<(nat, Body)>, e: (nat, Body))
    ensures Folded(lib, z, log + [e]) ==
      if Folded(lib, z, log).None? then None else Merge(lib, Folded(lib, z, log).value, e.1)
  {
    assert (log + [e])[..|log|] == log;
  }

  /** What was read stays true to the bumps through any step, clear or not; so does the row's
      own serial through any one step from a state where all is well. */
  lemma StepKeepsReads(lib: Lib, init: Row, s: State, a: Action)
    requires Inv(lib, init, s) && Enabled(s, a)
    ensures ReadsOk(init, Do(lib, s, a))
    ensures var t := Do(lib, s, a); t.row.serial == (init.serial + t.bumps) % SERIALS
  {
    hide Merge, LogOk, Folded;
    var t := Do(lib, s, a);
    if a.WriteRow? {
      assert HandlerOk(lib, s.row, s.handlers[a.h]);
    }
    if a.BumpSerial? {
      BumpCounts(init.serial, s.bumps);
    }
    forall g | g in t.handlers ensures ReadOk(init, t.row, t.bumps, t.handlers[g]) {
      assert g in s.handlers ==> ReadOk(init, s.row, s.bumps, s.handlers[g]);
    }
  }

  lemma BumpCounts(serial: nat, bumps: nat)
    ensures ((serial + bumps) % SERIALS + 1) % SERIALS == (serial + bumps + 1) % SERIALS
  {
  }

  /** A committed write on the row its handler read is the next step of the fold. */
  lemma CommitFolds(lib: Lib, init: Row, s: State, h: nat, now: int)
    requires Right(lib, init, s) && Enabled(s, WriteRow(h, now))
    requires s.row.modified == s.handlers[h].phase.before.modified
    requires HandlerOk(lib, s.row, s.handlers[h])
    ensures Right(lib, init, Do(lib, s, WriteRow(h, now)))
  {
    hide Merge, Folded;
    FoldedNext(lib, init.cols, s.log, (h, s.handlers[h].body));
  }

  lemma ClearKeepsHandlers(lib: Lib, s: State, h: nat, now: int)
    requires Enabled(s, WriteRow(h, now)) && s.row.modified == s.handlers[h].phase.before.modified
    requires Clear(lib, s, WriteRow(h, now)) && forall g | g in s.handlers :: HandlerOk(lib, s.row, s.handlers[g])
    ensures var t := Do(lib, s, WriteRow(h, now)); forall g | g in t.handlers :: HandlerOk(lib, t.row, t.handlers[g])
  {
    hide Merge;
    var t := Do(lib, s, WriteRow(h, now));
    forall g | g in t.handlers ensures HandlerOk(lib, t.row, t.handlers[g]) {
      assert g != h ==> HandlerOk(lib, s.row, s.handlers[g]);
    }
  }

  lemma CommitKeepsInv(lib: Lib, init: Row, s: State, h: nat, now: int)
    requires Inv(lib, init, s) && Enabled(s, WriteRow(h, now)) && s.row.modified == s.handlers[h].phase.before.modified
    requires Clear(lib, s, WriteRow(h, now))
    ensures Inv(lib, init, Do(lib, s, WriteRow(h, now)))
  {
    hide Merge, LogOk, Folded, ReadsOk, HandlerOk, Right, Clear;
    var w, t := s.handlers[h], Do(lib, s, WriteRow(h, now));
    CommitKeepsLog(s, h, w, t.row);
    StepKeepsReads(lib, init, s, WriteRow(h, now));
    CommitFolds(lib, init, s, h, now);
    ClearKeepsHandlers(lib, s, h, now);
  }

  lemma WriteKeepsInv(lib: Lib, init: Row, s: State, h: nat, now: int)
    requires Inv(lib, init, s) && Enabled(s, WriteRow(h, now)) && Clear(lib, s, WriteRow(h, now))
    ensures Inv(lib, init, Do(lib, s, WriteRow(h, now)))
  {
    hide Merge, LogOk, Folded;
    if s.row.modified == s.handlers[h].phase.before.modified {
      hide Inv, Clear;
      CommitKeepsInv(lib, init, s, h, now);
    } else {
      StepKeepsReads(lib, init, s, WriteRow(h, now));
      OtherPhaseKeepsLog(s, h, Do(lib, s, WriteRow(h, now)).handlers[h]);
    }
  }

  lemma BumpKeepsInv(lib: Lib, init: Row, s: State, now: int)
    requires Inv(lib, init, s) && Clear(lib, s, BumpSerial(now))
    ensures Inv(lib, init, Do(lib, s, BumpSerial(now)))
  {
    hide Merge, LogOk, Folded;
    var t := Do(lib, s, BumpSerial(now));
    BumpKeepsLog(s, t.row);
    StepKeepsReads(lib, init, s, BumpSerial(now));
    forall g | g in t.handlers ensures HandlerOk(lib, t.row, t.handlers[g]) {
      assert HandlerOk(lib, s.row, s.handlers[g]);
    }
  }

  lemma StepKeepsInv(lib: Lib, init: Row, s: State, a: Action)
    requires Inv(lib, init, s) && Enabled(s, a) && Clear(lib, s, a)
    ensures Inv(lib, init, Do(lib, s, a))
  {
    hide Merge, LogOk, Folded;
    StepKeepsReads(lib, init, s, a);
    match a
    case Begin(h, body) => OtherPhaseKeepsLog(s, h, Handler(body, 0, Reading));
    case ReadRow(h) => OtherPhaseKeepsLog(s, h, Do(lib, s, a).handlers[h]);
    case WriteRow(h, now) => WriteKeepsInv(lib, init, s, h, now);
    case BumpSerial(now) => BumpKeepsInv(lib, init, s, now);
  }

  lemma BumpKeepsLog(s: State, row: Row)
    requires LogOk(s)
    ensures LogOk(s.(row := row, bumps := s.bumps + 1))
  {
  }

  // -------------------------------------------------------------------- runs

  ghost predicate Runs(lib: Lib, s: State, acts: seq<Action>, s': State)
    decreases |acts|
  {
    if acts == [] then s' == s
    else Enabled(s, acts[0]) && Clear(lib, s, acts[0]) && Runs(lib, Do(lib, s, acts[0]), acts[1..], s')
  }

  function Start(row: Row): State { State(row, map[], [], 0) }

  lemma {:induction false} RunKeepsInv(lib: Lib, init: Row, s: State, acts: seq<Action>, s': State)
    requires Inv(lib, init, s) && Runs(lib, s, acts, s')
    ensures Inv(lib, init, s')
    decreases |acts|
  {
    hide Inv, Do, Enabled, Clear;
    if acts != [] {
      StepKeepsInv(lib, init, s, acts[0]);
      RunKeepsInv(lib, init, Do(lib, s, acts[0]), acts[1..], s');
    }
  }

  /** No lost PATCH: over every interleaving of any number of handlers and serial bumps in
      which no stamp is given that a handler at work read another row under, the row is the
      committed patches applied one after another in commit order, and its serial counts
      every bump. */
  lemma {:induction false} NoLostPatch(lib: Lib, row: Row, acts: seq<Action>, s: State)
    requires row.serial < SERIALS && Runs(lib, Start(row), acts, s)
    ensures Right(lib, row, s)
  {
    RunKeepsInv(lib, row, Start(row), acts, s);
  }

  // ----------------------------------------------- clocks that only go forward

  /** A serial bump stamped later than the stamp it replaces. */
  predicate Forward(s: State, a: Action) { a.BumpSerial? ==> a.now > s.row.modified }

  ghost predicate RunsForward(lib: Lib, s: State, acts: seq<Action>, s': State)
    decreases |acts|
  {
    if acts == [] then s' == s
    else Enabled(s, acts[0]) && Forward(s, acts[0]) && RunsForward(lib, Do(lib, s, acts[0]), acts[1..], s')
  }

  /** Every pending read is of the present stamp or an earlier one. */
  ghost predicate Behind(s: State) {
    forall h | h in s.handlers && s.handlers[h].phase.Merged? :: s.handlers[h].phase.before.modified <= s.row.modified
  }

  lemma ForwardIsClear(lib: Lib, s: State, a: Action)
    requires Behind(s) && Enabled(s, a) && Forward(s, a)
    ensures Clear(lib, s, a) && Behind(Do(lib, s, a))
    ensures Stamps(s, a) ==> Do(lib, s, a).row.modified > s.row.modified
    ensures !Stamps(s, a) ==> Do(lib, s, a).row == s.row
  {
    hide Merge;
  }

  /** Commits always move the stamp forward; if bumps do too, no stamp repeats, and the
      theorem holds of every such run. */
  lemma {:induction false} ForwardRunsAreClear(lib: Lib, s: State, acts: seq<Action>, s': State)
    requires Behind(s) && RunsForward(lib, s, acts, s')
    ensures Runs(lib, s, acts, s')
    decreases |acts|
  {
    hide Do, Enabled, Clear, Behind;
    if acts != [] {
      ForwardIsClear(lib, s, acts[0]);
      ForwardRunsAreClear(lib, Do(lib, s, acts[0]), acts[1..], s');
    }
  }

  // ------------------------------------------------------- the exact condition

  /** A handler's next write would land on a row it did not read. */
  predicate StaleWrite(s: State, h: nat) {
    h in s.handlers && ReadOther(s.handlers[h], s.row)
  }

  /** No handler has been at work through 2^32 bumps, after which serials repeat. */
  predicate Recent(s: State) {
    forall h | h in s.handlers && s.handlers[h].phase.Merged? :: s.bumps - s.handlers[h].phase.read < SERIALS
  }

  lemma SerialsDiffer(serial: nat, a: nat, b: nat)
    requires a <= b
    ensures (serial + a) % SERIALS == (serial + b) % SERIALS <==> (b - a) % SERIALS == 0
  {
    var (x, y) := (serial + a, serial + b);
    assert x == SERIALS * (x / SERIALS) + x % SERIALS && y == SERIALS * (y / SERIALS) + y % SERIALS;
    if x % SERIALS == y % SERIALS {
      assert b - a == SERIALS * (y / SERIALS - x / SERIALS);
      Multiple(b - a, y / SERIALS - x / SERIALS);
    }
    if (b - a) % SERIALS == 0 {
      var q := (b - a) / SERIALS;
      assert y == x + SERIALS * q;
    }
  }

  lemma Multiple(n: int, q: int)
    requires n == SERIALS * q
    ensures n % SERIALS == 0
  {
  }

  /** A write on a row the handler did read loses nothing; nor does one that is turned away. */
  lemma OwnWriteLosesNothing(lib: Lib, init: Row, s: State, h: nat, now: int)
    requires Inv(lib, init, s) && Enabled(s, WriteRow(h, now))
    ensures Right(lib, init, Do(lib, s, WriteRow(h, now)))
  {
    hide Merge, LogOk, Folded;
    assert HandlerOk(lib, s.row, s.handlers[h]);
    FoldedNext(lib, init.cols, s.log, (h, s.handlers[h].body));
  }

  /** A write on a row the handler did not read puts an old serial back. */
  lemma StaleWriteLosesABump(lib: Lib, init: Row, s: State, h: nat, now: int)
    requires ReadsOk(init, s) && Recent(s) && StaleWrite(s, h)
    ensures Enabled(s, WriteRow(h, now))
    ensures !Right(lib, init, Do(lib, s, WriteRow(h, now)))
  {
    hide Merge, LogOk, Folded;
    var w := s.handlers[h];
    assert ReadOk(init, s.row, s.bumps, w);
    assert w.phase.read < s.bumps;
    SerialsDiffer(init.serial, w.phase.read, s.bumps);
  }

  /** The condition is exact: an action keeps it if and only if no handler's next write, at
      whatever time it comes, loses a patch or a bump. */
  lemma ClearIff(lib: Lib, init: Row, s: State, a: Action)
    requires Inv(lib, init, s) && Enabled(s, a) && Recent(Do(lib, s, a))
    ensures var t := Do(lib, s, a);
            Clear(lib, s, a) <==>
            forall h, now | Enabled(t, WriteRow(h, now)) :: Right(lib, init, Do(lib, t, WriteRow(h, now)))
  {
    hide Merge, LogOk, Folded, Inv, Right, ReadsOk;
    var t := Do(lib, s, a);
    if Clear(lib, s, a) {
      StepKeepsInv(lib, init, s, a);
      forall h, now | Enabled(t, WriteRow(h, now)) ensures Right(lib, init, Do(lib, t, WriteRow(h, now))) {
        OwnWriteLosesNothing(lib, init, t, h, now);
      }
    } else {
      StepKeepsReads(lib, init, s, a);
      var h :| h in t.handlers && ReadOther(t.handlers[h], t.row);
      StaleWriteLosesABump(lib, init, t, h, 0);
      assert Enabled(t, WriteRow(h, 0));
    }
  }

  /** What such a write costs, in full. It puts back the columns and the serial the handler
      read: the row is still the fold of the commits exactly when the body merges alike into
      the row it read and the row it lands on, and the serial still counts every bump exactly
      when none came between, or a multiple of 2^32. */
  lemma StaleWriteCosts(lib: Lib, init: Row, s: State, h: nat, now: int)
    requires Right(lib, init, s) && ReadsOk(init, s)
    requires StaleWrite(s, h)
    requires Merge(lib, s.handlers[h].phase.before.cols, s.handlers[h].body) == Some(s.handlers[h].phase.cols)
    ensures Enabled(s, WriteRow(h, now))
    ensures var w, t := s.handlers[h], Do(lib, s, WriteRow(h, now));
            && t.log == s.log + [(h, w.body)]
            && (Folded(lib, init.cols, t.log) == Some(t.row.cols)
                <==> Merge(lib, s.row.cols, w.body) == Merge(lib, w.phase.before.cols, w.body))
            && (t.row.serial == (init.serial + t.bumps) % SERIALS <==> (s.bumps - w.phase.read) % SERIALS == 0)
  {
    hide Merge, Folded;
    assert ReadOk(init, s.row, s.bumps, s.handlers[h]);
    SerialsDiffer(init.serial, s.handlers[h].phase.read, s.bumps);
    FoldedNext(lib, init.cols, s.log, (h, s.handlers[h].body));
  }

  /** The commonest case: a serial bump in the millisecond of the stamp it replaces. Any
      handler that has read the row then writes its serial back, and the bump is lost. */
  lemma SameMillisecondBump(lib: Lib, init: Row, s: State, h: nat, later: int)
    requires Inv(lib, init, s) && h in s.handlers && s.handlers[h].phase.Merged? && s.handlers[h].phase.before == s.row
    ensures var a := BumpSerial(s.row.modified);
            var t := Do(lib, s, a);
            !Clear(lib, s, a) && StaleWrite(t, h) &&
            var u := Do(lib, t, WriteRow(h, later));
            && u.row.serial == s.row.serial && u.bumps == s.bumps + 1
            && u.row.serial != (init.serial + u.bumps) % SERIALS
  {
    hide Merge, LogOk, Folded;
    var t := Do(lib, s, BumpSerial(s.row.modified));
    assert StaleWrite(t, h);
  }

  /** A bump back to the stamp two handlers read, after one of them committed: the other's
      write lands, and the committed patch survives exactly when the second merges alike
      with and without it. */
  lemma BackwardBumpLosesPatch(lib: Lib, init: Row, s: State, a: nat, b: nat, now: int, later: int)
    requires Inv(lib, init, s) && a != b && a in s.handlers && b in s.handlers
    requires s.handlers[a].phase.Merged? && s.handlers[b].phase.Merged?
             && s.handlers[a].phase.before == s.row == s.handlers[b].phase.before
    requires Clear(lib, s, WriteRow(a, now))
    ensures var s1 := Do(lib, s, WriteRow(a, now));
            var s2 := Do(lib, s1, BumpSerial(s.row.modified));
            !Clear(lib, s1, BumpSerial(s.row.modified)) && StaleWrite(s2, b) &&
            var s3 := Do(lib, s2, WriteRow(b, later));
            && s3.log == s.log + [(a, s.handlers[a].body)] + [(b, s.handlers[b].body)]
            && (Folded(lib, init.cols, s3.log) == Some(s3.row.cols)
                <==> Merge(lib, s1.row.cols, s.handlers[b].body) == Merge(lib, s.row.cols, s.handlers[b].body))
  {
    hide Merge, LogOk, Folded;
    CommitKeepsInv(lib, init, s, a, now);
    var s1 := Do(lib, s, WriteRow(a, now));
    var s2 := Do(lib, s1, BumpSerial(s.row.modified));
    assert HandlerOk(lib, s.row, s.handlers[b]);
    BumpedSerialDiffers(s1.row.serial);
    assert ReadOther(s2.handlers[b], s2.row);
    StepKeepsReads(lib, init, s1, BumpSerial(s.row.modified));
    StaleWriteCosts(lib, init, s2, b, later);
  }

  lemma BumpedSerialDiffers(serial: nat)
    requires serial < SERIALS
    ensures (serial + 1) % SERIALS != serial
  {
  }

  // ------------------------------------------------------------- one attempt

  /** What a write does: on the stamp it read, it stores the merged columns and the serial it
      read, stamped with the clock or, if that has not passed the old stamp, one past it; on any
      other stamp it changes nothing but its own handler, which reads again the first time and
      answers 409 the second. */
  lemma WriteDoes(lib: Lib, s: State, h: nat, now: int)
    requires Enabled(s, WriteRow(h, now)) && s.handlers[h].attempt <= 1
    ensures var (w, t) := (s.handlers[h], Do(lib, s, WriteRow(h, now)));
            if s.row.modified == w.phase.before.modified then
              && t.row.cols == w.phase.cols && t.row.serial == w.phase.before.serial
              && (now > s.row.modified ==> t.row.modified == now)
              && (now <= s.row.modified ==> t.row.modified == s.row.modified + 1)
              && t.handlers == s.handlers[h := w.(phase := Done)] && t.log == s.log + [(h, w.body)]
              && t.bumps == s.bumps
            else
              && t.row == s.row && t.log == s.log && t.bumps == s.bumps
              && t.handlers == s.handlers[h :=
                  Handler(w.body, w.attempt + 1, if w.attempt == 0 then Reading else Conflict)]
  {
  }

  /** A handler writes twice at most, and answers 409 after the second write alone. */
  ghost predicate TwoTries(s: State) {
    forall h | h in s.handlers ::
      var w := s.handlers[h];
      && (w.phase.Reading? || w.phase.Merged? || w.phase.Done? || w.phase.Refused? ==> w.attempt <= 1)
      && (w.phase.Conflict? ==> w.attempt == 2)
  }

  lemma {:induction false} WritesTwiceAtMost(lib: Lib, s: State, acts: seq<Action>, s': State)
    requires TwoTries(s) && RunsFreely(lib, s, acts, s')
    ensures TwoTries(s')
    decreases |acts|
  {
    if acts != [] {
      assert TwoTries(Do(lib, s, acts[0])) by { hide Merge; }
      hide TwoTries, Do, Enabled;
      WritesTwiceAtMost(lib, Do(lib, s, acts[0]), acts[1..], s');
    }
  }

  /** A serial bump changes the serial and the stamp alone: one more, modulo 2^32, and the clock. */
  lemma BumpDoes(lib: Lib, s: State, now: int)
    ensures var t := Do(lib, s, BumpSerial(now));
            && t.row == Row(s.row.cols, (s.row.serial + 1) % 4_294_967_296, now)
            && t.handlers == s.handlers && t.log == s.log && t.bumps == s.bumps + 1
  {
  }

  /** What a read does: the handler holds the row and its merge, or has refused the body. */
  lemma ReadDoes(lib: Lib, s: State, h: nat)
    requires Enabled(s, ReadRow(h))
    ensures var (w, t) := (s.handlers[h], Do(lib, s, ReadRow(h)));
            && t.row == s.row && t.log == s.log && t.bumps == s.bumps
            && t.handlers == s.handlers[h := t.handlers[h]] && t.handlers[h].body == w.body
            && t.handlers[h].attempt == w.attempt
            && match Merge(lib, s.row.cols, w.body)
               case Some(m) => t.handlers[h].phase == Merged(s.row, m, s.bumps)
               case None => t.handlers[h].phase == Refused
  {
    hide Merge;
  }

  // -------------------------------------------------- who is in the commit order

  ghost predicate RunsFreely(lib: Lib, s: State, acts: seq<Action>, s': State)
    decreases |acts|
  {
    if acts == [] then s' == s else Enabled(s, acts[0]) && RunsFreely(lib, Do(lib, s, acts[0]), acts[1..], s')
  }

  lemma StepKeepsLog(lib: Lib, s: State, a: Action)
    requires LogOk(s) && Enabled(s, a)
    ensures LogOk(Do(lib, s, a))
  {
    hide Merge, LogOk;
    match a
    case Begin(h, body) => OtherPhaseKeepsLog(s, h, Handler(body, 0, Reading));
    case ReadRow(h) => OtherPhaseKeepsLog(s, h, Do(lib, s, a).handlers[h]);
    case WriteRow(h, now) =>
      if s.row.modified == s.handlers[h].phase.before.modified {
        CommitKeepsLog(s, h, s.handlers[h], Do(lib, s, a).row);
      } else {
        OtherPhaseKeepsLog(s, h, Do(lib, s, a).handlers[h]);
      }
    case BumpSerial(now) => BumpKeepsLog(s, Do(lib, s, a).row);
  }

  lemma {:induction false} RunKeepsLog(lib: Lib, s: State, acts: seq<Action>, s': State)
    requires LogOk(s) && RunsFreely(lib, s, acts, s')
    ensures LogOk(s')
    decreases |acts|
  {
    hide Do, Enabled, LogOk;
    if acts != [] {
      StepKeepsLog(lib, s, acts[0]);
      RunKeepsLog(lib, Do(lib, s, acts[0]), acts[1..], s');
    }
  }

  lemma StartLog(row: Row)
    ensures LogOk(Start(row))
  {
  }

  /** Over every interleaving whatsoever, a handler is in the commit order exactly when it
      answered success, and once: one that answered 409, or refused the body, changed
      nothing. */
  lemma {:induction false} ConflictChangedNothing(lib: Lib, row: Row, acts: seq<Action>, s: State)
    requires RunsFreely(lib, Start(row), acts, s)
    ensures forall h | h in s.handlers :: s.handlers[h].phase.Done? <==> exists i | 0 <= i < |s.log| :: s.log[i].0 == h
    ensures forall i, j | 0 <= i < j < |s.log| :: s.log[i].0 != s.log[j].0
  {
    StartLog(row);
    RunKeepsLog(lib, Start(row), acts, s);
  }
}
