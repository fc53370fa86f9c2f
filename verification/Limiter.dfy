/** The attempt limiter on the unauthenticated endpoints. */
module Limiter {
  import opened Wrappers

  const ATTEMPT_LIMIT := 10
  const ATTEMPT_WINDOW := 60_000_000_000    // nanoseconds
  const ATTEMPT_LOCKOUT := 60_000_000_000

  type Time = nat

  /** `locked` is 0 until the first lockout. */
  datatype Entry = Entry(count: nat, start: Time, locked: Time)

  /** Allowed, or how long to wait. */
  datatype Verdict = Allowed | Wait(duration: nat)

  /** One attempt against a source's entry. */
  function Attempt(e: Option<Entry>, now: Time): (Entry, Verdict) {
    var e0 := if e.Some? then e.value else Entry(0, now, 0);
    if now < e0.locked then (e0, Wait(e0.locked - now))
    else
      var e1 := if now - e0.start >= ATTEMPT_WINDOW then e0.(count := 0, start := now) else e0;
      var e2 := e1.(count := e1.count + 1);
      if e2.count > ATTEMPT_LIMIT then (e2.(locked := now + ATTEMPT_LOCKOUT), Wait(ATTEMPT_LOCKOUT)) else (e2, Allowed)
  }

  function Get(m: map<string, Entry>, key: string): Option<Entry> { if key in m then Some(m[key]) else None }

  /** An entry that can no longer refuse anything. */
  predicate Spent(e: Entry, now: Time) { now > e.locked && now - e.start >= ATTEMPT_WINDOW }

  function Swept(m: map<string, Entry>, now: Time): map<string, Entry> {
    map k | k in m && !Spent(m[k], now) :: m[k]
  }

  class AttemptLimiter {
    var entries: map<string, Entry>
    var swept: Time

    constructor ()
      ensures entries == map[] && swept == 0
    {
      entries, swept := map[], 0;
    }

    method Sweep(now: Time)
      modifies this
      ensures now - old(swept) < ATTEMPT_WINDOW ==> entries == old(entries) && swept == old(swept)
      ensures now - old(swept) >= ATTEMPT_WINDOW ==> entries == Swept(old(entries), now) && swept == now
      ensures now - old(swept) >= ATTEMPT_WINDOW ==>
        && (forall k :: k in entries <==>
              k in old(entries) && var e := old(entries)[k]; now <= e.locked || now < e.start + 60_000_000_000)
        && (forall k | k in entries :: entries[k] == old(entries)[k])
    {
      if now - swept < ATTEMPT_WINDOW {
        return;
      }
      swept := now;
      var todo, all := entries.Keys, entries;
      while todo != {}
        invariant todo <= all.Keys && swept == now
        invariant entries == map k | k in all && (k in todo || !Spent(all[k], now)) :: all[k]
      {
        var k :| k in todo;
        todo := todo - {k};
        var e := entries[k];
        if now > e.locked && now - e.start >= ATTEMPT_WINDOW {
          entries := entries - {k};
        }
      }
    }

    /** allow. */
    method Allow(key: string, now: Time) returns (v: Verdict)
      modifies this
      ensures (State(entries, swept), v) == Step(State(old(entries), old(swept)), Try(key, now))
    {
      Sweep(now);
      ghost var kept := entries;
      var e := if key in entries then entries[key] else Entry(0, now, 0);
      entries := entries[key := e];
      if now < e.locked {
        return Wait(e.locked - now);
      }
      if now - e.start >= ATTEMPT_WINDOW {
        e := e.(count := 0, start := now);
      }
      e := e.(count := e.count + 1);
      if e.count > ATTEMPT_LIMIT {
        e := e.(locked := now + ATTEMPT_LOCKOUT);
        entries := entries[key := e];
        assert entries == kept[key := e];
        return Wait(ATTEMPT_LOCKOUT);
      }
      entries := entries[key := e];
      assert entries == kept[key := e];
      return Allowed;
    }
  }

  // --------------------------------------------- sweeping changes no answer

  datatype State = State(entries: map<string, Entry>, swept: Time)

  datatype Try = Try(key: string, at: Time)

  /** The limiter as it is. */
  function Step(s: State, t: Try): (State, Verdict) {
    var due := t.at - s.swept >= ATTEMPT_WINDOW;
    var kept := if due then Swept(s.entries, t.at) else s.entries;
    var (e, v) := Attempt(Get(kept, t.key), t.at);
    (State(kept[t.key := e], if due then t.at else s.swept), v)
  }

  /** The limiter that never deletes an entry. */
  function Plain(m: map<string, Entry>, t: Try): (map<string, Entry>, Verdict) {
    var (e, v) := Attempt(Get(m, t.key), t.at);
    (m[t.key := e], v)
  }

  /** A run from empty: the state it leaves and the answers it gave. */
  function Run(ts: seq<Try>): (r: (State, seq<Verdict>))
    ensures |r.1| == |ts|
  {
    if ts == [] then (State(map[], 0), [])
    else
      var (s, vs) := Run(ts[..|ts| - 1]);
      var (s', v) := Step(s, ts[|ts| - 1]);
      (s', vs + [v])
  }

  function PlainRun(ts: seq<Try>): (r: (map<string, Entry>, seq<Verdict>))
    ensures |r.1| == |ts|
  {
    if ts == [] then (map[], [])
    else
      var (m, vs) := PlainRun(ts[..|ts| - 1]);
      var (m', v) := Plain(m, ts[|ts| - 1]);
      (m', vs + [v])
  }

  ghost predicate InOrder(ts: seq<Try>) { forall i, j | 0 <= i <= j < |ts| :: ts[i].at <= ts[j].at }

  /** From now on the two entries answer alike. */
  predicate Alike(a: Entry, b: Entry, now: Time) {
    a.count == b.count && a.start == b.start && (a.locked == b.locked || (a.locked <= now && b.locked <= now))
  }

  predicate Harmless(e: Entry, now: Time) { now >= e.locked && now - e.start >= ATTEMPT_WINDOW }

  /** The swept map against the plain one: what is missing could not refuse anything. */
  ghost predicate Tracks(m: map<string, Entry>, plain: map<string, Entry>, now: Time) {
    && (forall k | k in m :: k in plain && Alike(m[k], plain[k], now))
    && (forall k | k in plain && k !in m :: Harmless(plain[k], now))
  }

  lemma Later(m: map<string, Entry>, plain: map<string, Entry>, now: Time, when: Time)
    requires Tracks(m, plain, now) && now <= when
    ensures Tracks(m, plain, when) && Tracks(Swept(m, when), plain, when)
  {
  }

  lemma SameAnswer(a: Option<Entry>, b: Option<Entry>, now: Time)
    requires if a.Some? then b.Some? && Alike(a.value, b.value, now) else b.None? || Harmless(b.value, now)
    ensures Attempt(a, now).1 == Attempt(b, now).1 && Alike(Attempt(a, now).0, Attempt(b, now).0, now)
  {
  }

  lemma StepTracks(s: State, plain: map<string, Entry>, now: Time, t: Try)
    requires Tracks(s.entries, plain, now) && now <= t.at
    ensures Step(s, t).1 == Plain(plain, t).1 && Tracks(Step(s, t).0.entries, Plain(plain, t).0, t.at)
  {
    Later(s.entries, plain, now, t.at);
    var kept := if t.at - s.swept >= ATTEMPT_WINDOW then Swept(s.entries, t.at) else s.entries;
    hide Attempt, Swept;
    SameAnswer(Get(kept, t.key), Get(plain, t.key), t.at);
  }

  /** For every sequence of attempts in time order, the swept limiter gives the answers and
      the waits of one that never forgets. */
  lemma {:induction false} SweepingIsInvisible(ts: seq<Try>, now: Time)
    requires InOrder(ts) && (ts != [] ==> ts[|ts| - 1].at <= now)
    ensures Run(ts).1 == PlainRun(ts).1 && Tracks(Run(ts).0.entries, PlainRun(ts).0, now)
  {
    if ts != [] {
      var past, t := ts[..|ts| - 1], ts[|ts| - 1];
      SweepingIsInvisible(past, t.at);
      StepTracks(Run(past).0, PlainRun(past).0, t.at, t);
      Later(Run(ts).0.entries, PlainRun(ts).0, t.at, now);
    }
  }

  // ------------------------------------------------------------- the bound

  /** An attempt that was allowed, and when the window it was counted in began. */
  datatype Pass = Pass(at: Time, start: Time)

  /** The entry of one source after a sequence of its attempts, and those allowed. */
  function Tried(times: seq<Time>): (Option<Entry>, seq<Pass>) {
    if times == [] then (None, [])
    else
      var now := times[|times| - 1];
      var (e, passes) := Tried(times[..|times| - 1]);
      var (e', v) := Attempt(e, now);
      (Some(e'), if v.Allowed? then passes + [Pass(now, e'.start)] else passes)
  }

  ghost predicate Sorted(times: seq<Time>) { forall i, j | 0 <= i <= j < |times| :: times[i] <= times[j] }

  /** How many of the passes were counted in the window that began at `start`, from the
      end. */
  function CountedIn(passes: seq<Pass>, start: Time): nat {
    if passes == [] || passes[|passes| - 1].start != start then 0 else 1 + CountedIn(passes[..|passes| - 1], start)
  }

  /** Two windows do not overlap, and an earlier window's attempts come before a later
      window begins. */
  ghost predicate Windowed(passes: seq<Pass>) {
    && (forall i | 0 <= i < |passes| :: passes[i].start <= passes[i].at)
    && (forall i, j | 0 <= i < j < |passes| :: Follows(passes[i], passes[j]))
    && (forall i | 0 <= i < |passes| - ATTEMPT_LIMIT :: passes[i].start < passes[i + ATTEMPT_LIMIT].start)
  }

  ghost predicate Follows(p: Pass, q: Pass) {
    p.start <= q.start && (p.start < q.start ==> q.start >= p.start + ATTEMPT_WINDOW && q.start >= p.at)
  }

  /** The entry's own count covers the passes of its window; everything is in the past. */
  ghost predicate Books(e: Option<Entry>, passes: seq<Pass>, now: Time) {
    && (e.None? ==> passes == [])
    && (e.Some? ==> e.value.start <= now && CountedIn(passes, e.value.start) <= e.value.count)
    && (e.Some? ==> forall i | 0 <= i < |passes| :: passes[i].at <= now && Follows(passes[i], Pass(now, e.value.start)))
  }

  lemma {:induction false} CountedPrefix(passes: seq<Pass>, start: Time, i: nat)
    requires Windowed(passes) && i < |passes| && passes[i].start == start
             && forall j | 0 <= j < |passes| :: passes[j].start <= start
    ensures CountedIn(passes, start) >= |passes| - i
    decreases |passes|
  {
    assert i < |passes| - 1 ==> Follows(passes[i], passes[|passes| - 1]);
    if i < |passes| - 1 {
      WindowedPrefix(passes);
      CountedPrefix(passes[..|passes| - 1], start, i);
    }
  }

  lemma WindowedPrefix(passes: seq<Pass>)
    requires Windowed(passes) && passes != []
    ensures Windowed(passes[..|passes| - 1])
  {
  }

  lemma PassAdds(passes: seq<Pass>, e: Option<Entry>, now: Time)
    requires Windowed(passes) && Books(e, passes, now) && Attempt(e, now).1.Allowed?
    ensures Windowed(passes + [Pass(now, Attempt(e, now).0.start)])
  {
    var start := Attempt(e, now).0.start;
    var more := passes + [Pass(now, start)];
    forall i | 0 <= i < |passes| ensures Follows(passes[i], Pass(now, start)) {
      assert Follows(passes[i], Pass(now, e.value.start));
    }
    if |passes| >= ATTEMPT_LIMIT {
      var i := |passes| - ATTEMPT_LIMIT;
      if passes[i].start == start {
        CountedPrefix(passes, start, i);
      }
    }
  }

  lemma BooksNext(passes: seq<Pass>, e: Option<Entry>, now: Time)
    requires Books(e, passes, now)
    ensures var (e', v) := Attempt(e, now);
            Books(Some(e'), if v.Allowed? then passes + [Pass(now, e'.start)] else passes, now)
  {
    var (e', v) := Attempt(e, now);
    var next := passes + [Pass(now, e'.start)];
    assert next[..|passes|] == passes;
    if e.Some? {
      forall i | 0 <= i < |passes| ensures passes[i].start <= e.value.start && Follows(passes[i], Pass(now, e'.start)) {
        assert Follows(passes[i], Pass(now, e.value.start));
      }
      if e.value.start != e'.start {
        NoneYet(passes, e.value.start, e'.start);
      }
    }
    assert CountedIn(next, e'.start) == 1 + CountedIn(passes, e'.start);
    assert Follows(Pass(now, e'.start), Pass(now, e'.start));
  }

  lemma NoneYet(passes: seq<Pass>, last: Time, start: Time)
    requires (forall i | 0 <= i < |passes| :: passes[i].start <= last) && last < start
    ensures CountedIn(passes, start) == 0
  {
  }

  lemma BooksLater(passes: seq<Pass>, e: Option<Entry>, now: Time, when: Time)
    requires Books(e, passes, now) && now <= when
    ensures Books(e, passes, when)
  {
    hide CountedIn;
    if e.Some? {
      forall i | 0 <= i < |passes| ensures Follows(passes[i], Pass(when, e.value.start)) {
        assert Follows(passes[i], Pass(now, e.value.start));
      }
    }
  }

  lemma {:induction false} TriedIsWindowed(times: seq<Time>, now: Time)
    requires Sorted(times) && (times != [] ==> times[|times| - 1] <= now)
    ensures Windowed(Tried(times).1) && Books(Tried(times).0, Tried(times).1, now)
  {
    if times != [] {
      hide Windowed, Books, Attempt;
      var past, at := times[..|times| - 1], times[|times| - 1];
      TriedIsWindowed(past, at);
      var (e, passes) := Tried(past);
      if Attempt(e, at).1.Allowed? {
        PassAdds(passes, e, at);
      }
      BooksNext(passes, e, at);
      BooksLater(Tried(times).1, Tried(times).0, at, now);
    } else {
      assert Tried(times) == (None, []);
    }
  }

  /** Of any twenty-one attempts allowed one source, the last comes at least a window after
      the first. */
  lemma {:induction false} TwentyOneTakeAWindow(times: seq<Time>, i: nat)
    requires Sorted(times) && i + 2 * ATTEMPT_LIMIT < |Tried(times).1|
    ensures Tried(times).1[i + 2 * ATTEMPT_LIMIT].at >= Tried(times).1[i].at + ATTEMPT_WINDOW
  {
    TriedIsWindowed(times, times[|times| - 1]);
    var p := Tried(times).1;
    var j, k := i + ATTEMPT_LIMIT, i + 2 * ATTEMPT_LIMIT;
    assert Follows(p[i], p[j]) && Follows(p[j], p[k]) && p[j].start < p[j + ATTEMPT_LIMIT].start;
  }

  /** When one source tried, and when it was allowed, in a run of many sources. */
  function TimesOf(ts: seq<Try>, key: string): seq<Time> {
    if ts == [] then []
    else TimesOf(ts[..|ts| - 1], key) + if ts[|ts| - 1].key == key then [ts[|ts| - 1].at] else []
  }

  function AllowedOf(ts: seq<Try>, vs: seq<Verdict>, key: string): seq<Time>
    requires |vs| == |ts|
  {
    if ts == [] then []
    else AllowedOf(ts[..|ts| - 1], vs[..|vs| - 1], key) +
         if ts[|ts| - 1].key == key && vs[|vs| - 1].Allowed? then [ts[|ts| - 1].at] else []
  }

  function At(p: seq<Pass>): (r: seq<Time>)
    ensures |r| == |p|
  {
    seq(|p|, i requires 0 <= i < |p| => p[i].at)
  }

  /** Sources do not affect each other. */
  lemma {:induction false} SourceAlone(ts: seq<Try>, key: string)
    ensures Get(PlainRun(ts).0, key) == Tried(TimesOf(ts, key)).0
    ensures AllowedOf(ts, PlainRun(ts).1, key) == At(Tried(TimesOf(ts, key)).1)
  {
    if ts != [] {
      hide Attempt;
      var past, t := ts[..|ts| - 1], ts[|ts| - 1];
      SourceAlone(past, key);
      assert PlainRun(ts).1[..|ts| - 1] == PlainRun(past).1;
      var times := TimesOf(past, key);
      if t.key == key {
        assert (times + [t.at])[..|times|] == times;
      } else {
        assert TimesOf(ts, key) == times;
        assert AllowedOf(ts, PlainRun(ts).1, key) == AllowedOf(past, PlainRun(past).1, key);
      }
    }
  }

  lemma {:induction false} TimesSorted(ts: seq<Try>, key: string)
    requires InOrder(ts)
    ensures Sorted(TimesOf(ts, key)) && forall i | 0 <= i < |TimesOf(ts, key)| :: TimesOf(ts, key)[i] <= ts[|ts| - 1].at
  {
    if ts != [] {
      TimesSorted(ts[..|ts| - 1], key);
    }
  }

  /** In any half-open interval as long as the window, at most twenty attempts from one
      source are allowed, whatever other sources do. */
  lemma {:induction false} AtMostTwentyAWindow(ts: seq<Try>, key: string, i: nat)
    requires InOrder(ts) && i + 2 * ATTEMPT_LIMIT < |AllowedOf(ts, Run(ts).1, key)|
    ensures var a := AllowedOf(ts, Run(ts).1, key); a[i + 2 * ATTEMPT_LIMIT] >= a[i] + ATTEMPT_WINDOW
  {
    hide Attempt, Tried, Tracks;
    SweepingIsInvisible(ts, if ts == [] then 0 else ts[|ts| - 1].at);
    SourceAlone(ts, key);
    TimesSorted(ts, key);
    TwentyOneTakeAWindow(TimesOf(ts, key), i);
  }

  // ------------------------------------------ every answer, from the times alone

  const MINUTE := 60_000_000_000

  /** Attempt i came inside a lockout an earlier one started. */
  ghost predicate Locked(times: seq<Time>, vs: seq<Verdict>, i: nat)
    requires i < |times| == |vs|
    decreases i, 0
  {
    exists h: nat | h < i :: Locks(times, vs, h) && times[i] < times[h] + MINUTE
  }

  /** Attempt i started a lockout: it was refused, and not by one. */
  ghost predicate Locks(times: seq<Time>, vs: seq<Verdict>, i: nat)
    requires i < |times| == |vs|
    decreases i, 1
  {
    vs[i].Wait? && !Locked(times, vs, i)
  }

  /** Attempt i opened a window: every earlier one had run out. */
  ghost predicate Opens(times: seq<Time>, vs: seq<Verdict>, i: nat)
    requires i < |times| == |vs|
    decreases i
  {
    !Locked(times, vs, i) && forall h: nat | h < i :: Opens(times, vs, h) ==> times[i] >= times[h] + MINUTE
  }

  /** How many of the attempts from h up to i were allowed. */
  function AllowedIn(vs: seq<Verdict>, h: nat, i: nat): nat
    requires i <= |vs|
  {
    if h >= i then 0 else AllowedIn(vs, h, i - 1) + if vs[i - 1].Allowed? then 1 else 0
  }

  /** The answer attempt i should get: inside a lockout, to wait for what is left of it;
      otherwise to pass if fewer than ten did in the window it falls in, and if not, to wait out
      the lockout it starts. */
  ghost predicate AnsweredRight(times: seq<Time>, vs: seq<Verdict>, i: nat)
    requires i < |times| == |vs|
  {
    if Locked(times, vs, i) then
      exists h: nat | h < i :: Locks(times, vs, h) && times[i] < times[h] + MINUTE
        && vs[i] == Wait(times[h] + MINUTE - times[i])
    else
      exists h: nat | h <= i :: Opens(times, vs, h) && times[i] < times[h] + MINUTE
        && vs[i] == if AllowedIn(vs, h, i) < 10 then Allowed else Wait(MINUTE)
  }

  /** One source's entry and answers. */
  function Answers(times: seq<Time>): (r: (Option<Entry>, seq<Verdict>))
    ensures |r.1| == |times|
  {
    if times == [] then (None, [])
    else
      var (e, vs) := Answers(times[..|times| - 1]);
      var (e', v) := Attempt(e, times[|times| - 1]);
      (Some(e'), vs + [v])
  }

  lemma {:induction false} MoreIsSame(times: seq<Time>, vs: seq<Verdict>, t: Time, v: Verdict, i: nat)
    requires i < |times| == |vs|
    ensures Locked(times + [t], vs + [v], i) == Locked(times, vs, i)
    ensures Locks(times + [t], vs + [v], i) == Locks(times, vs, i)
    ensures Opens(times + [t], vs + [v], i) == Opens(times, vs, i)
    decreases i
  {
    forall h: nat | h < i
      ensures Locks(times + [t], vs + [v], h) == Locks(times, vs, h)
      ensures Opens(times + [t], vs + [v], h) == Opens(times, vs, h)
    {
      MoreIsSame(times, vs, t, v, h);
    }
  }

  lemma {:induction false} AllowedSame(vs: seq<Verdict>, v: Verdict, h: nat, i: nat)
    requires i <= |vs|
    ensures AllowedIn(vs + [v], h, i) == AllowedIn(vs, h, i)
  {
    if h < i {
      AllowedSame(vs, v, h, i - 1);
    }
  }

  lemma RightIsSame(times: seq<Time>, vs: seq<Verdict>, t: Time, v: Verdict, i: nat)
    requires i < |times| == |vs| && AnsweredRight(times, vs, i)
    ensures AnsweredRight(times + [t], vs + [v], i)
  {
    hide Locked, Locks, Opens, AllowedIn;
    MoreIsSame(times, vs, t, v, i);
    if Locked(times, vs, i) {
      var h: nat :| h < i && Locks(times, vs, h) && times[i] < times[h] + MINUTE
        && vs[i] == Wait(times[h] + MINUTE - times[i]);
      MoreIsSame(times, vs, t, v, h);
      assert Locks(times + [t], vs + [v], h);
    } else {
      var h: nat :| h <= i && Opens(times, vs, h) && times[i] < times[h] + MINUTE
        && vs[i] == if AllowedIn(vs, h, i) < 10 then Allowed else Wait(MINUTE);
      MoreIsSame(times, vs, t, v, h);
      AllowedSame(vs, v, h, i);
      assert Opens(times + [t], vs + [v], h);
    }
  }

  /** The window the entry counts in is the last opened. */
  ghost predicate InWindow(e: Entry, times: seq<Time>, vs: seq<Verdict>, h: nat)
    requires |times| == |vs|
  {
    && h < |times| && Opens(times, vs, h) && times[h] == e.start
    && forall k: nat | h < k < |times| :: !Opens(times, vs, k)
  }

  /** Attempt j started the last lockout, which ends at `until`. */
  ghost predicate LastLock(times: seq<Time>, vs: seq<Verdict>, until: Time, j: nat)
    requires |times| == |vs|
  {
    && j < |times| && Locks(times, vs, j) && until == times[j] + MINUTE
    && forall k: nat | j < k < |times| :: !Locks(times, vs, k)
  }

  ghost predicate NeverLocked(times: seq<Time>, vs: seq<Verdict>)
    requires |times| == |vs|
  {
    forall k: nat | k < |times| :: !Locks(times, vs, k)
  }

  /** The lockout it remembers is the last started. */
  ghost predicate UnderLock(e: Entry, times: seq<Time>, vs: seq<Verdict>)
    requires |times| == |vs|
  {
    (e.locked == 0 && NeverLocked(times, vs)) || exists j: nat :: LastLock(times, vs, e.locked, j)
  }

  /** Its count is right, unless a lockout that outlasts its window is running. */
  ghost predicate Counts(e: Entry, vs: seq<Verdict>, h: nat) {
    || (e.locked <= e.start && e.count == AllowedIn(vs, h, |vs|) <= 10)
    || e.locked >= e.start + MINUTE
  }

  ghost predicate Linked(e: Entry, times: seq<Time>, vs: seq<Verdict>, h: nat)
    requires |times| == |vs|
  {
    InWindow(e, times, vs, h) && UnderLock(e, times, vs) && Counts(e, vs, h)
  }

  /** The next attempt is locked out exactly when the entry says so. */
  lemma LockedNext(e: Entry, times: seq<Time>, vs: seq<Verdict>, t: Time, v: Verdict)
    requires |times| == |vs| && UnderLock(e, times, vs) && Sorted(times + [t])
    ensures Locked(times + [t], vs + [v], |times|) <==> t < e.locked
    ensures t < e.locked ==>
            exists j: nat | j < |times| :: Locks(times + [t], vs + [v], j) && e.locked == times[j] + MINUTE
  {
    hide Locks;
    var (more, all) := (times + [t], vs + [v]);
    forall k: nat | k < |times| ensures Locks(more, all, k) == Locks(times, vs, k) { MoreIsSame(times, vs, t, v, k); }
    if j: nat :| LastLock(times, vs, e.locked, j) {
      assert Locks(more, all, j);
      forall k: nat | k < |times| && Locks(more, all, k) ensures more[k] <= more[j] { assert k <= j; }
    }
  }

  lemma OpensNext(e: Entry, times: seq<Time>, vs: seq<Verdict>, h: nat, t: Time, v: Verdict)
    requires |times| == |vs| && Linked(e, times, vs, h) && Sorted(times + [t])
    ensures Opens(times + [t], vs + [v], |times|) <==> t >= e.locked && t >= e.start + MINUTE
  {
    hide Locks, Locked, UnderLock, Counts;
    LockedNext(e, times, vs, t, v);
    var (more, all) := (times + [t], vs + [v]);
    forall k: nat | k < |times| ensures Opens(more, all, k) == Opens(times, vs, k) { MoreIsSame(times, vs, t, v, k); }
    forall k: nat | k < |times| && Opens(more, all, k) ensures more[k] <= e.start {
      assert k <= h;
      assert more[k] <= more[h];
    }
  }

  lemma OldLock(times: seq<Time>, vs: seq<Verdict>, t: Time, v: Verdict, until: Time, j: nat)
    requires |times| == |vs| && LastLock(times, vs, until, j) && !Locks(times + [t], vs + [v], |times|)
    ensures LastLock(times + [t], vs + [v], until, j)
  {
    hide Locks;
    forall k: nat | k < |times| ensures Locks(times + [t], vs + [v], k) == Locks(times, vs, k) {
      MoreIsSame(times, vs, t, v, k);
    }
  }

  lemma NoLock(times: seq<Time>, vs: seq<Verdict>, t: Time, v: Verdict)
    requires |times| == |vs| && NeverLocked(times, vs) && !Locks(times + [t], vs + [v], |times|)
    ensures NeverLocked(times + [t], vs + [v])
  {
    hide Locks;
    forall k: nat | k < |times| ensures !Locks(times + [t], vs + [v], k) {
      MoreIsSame(times, vs, t, v, k);
    }
  }

  lemma LockNext(e: Entry, times: seq<Time>, vs: seq<Verdict>, t: Time, v: Verdict, e': Entry)
    requires |times| == |vs| && UnderLock(e, times, vs) && Sorted(times + [t])
    requires v.Wait? ==> if t < e.locked then e'.locked == e.locked else e'.locked == t + MINUTE
    requires v.Allowed? ==> e'.locked == e.locked
    ensures UnderLock(e', times + [t], vs + [v])
  {
    LockedNext(e, times, vs, t, v);
    var (more, all) := (times + [t], vs + [v]);
    assert Locks(more, all, |times|) <==> v.Wait? && t >= e.locked;
    hide Locked, Locks, LastLock, NeverLocked;
    if v.Wait? && t >= e.locked {
      NewLock(more, all, t + MINUTE);
    } else if j: nat :| LastLock(times, vs, e.locked, j) {
      OldLock(times, vs, t, v, e.locked, j);
    } else {
      NoLock(times, vs, t, v);
    }
  }

  lemma NewLock(times: seq<Time>, vs: seq<Verdict>, until: Time)
    requires |times| == |vs| > 0 && Locks(times, vs, |times| - 1) && until == times[|times| - 1] + MINUTE
    ensures LastLock(times, vs, until, |times| - 1)
  {
  }

  /** One attempt: answered right, and the entry still in step. */
  lemma LinkedNext(e: Entry, times: seq<Time>, vs: seq<Verdict>, h: nat, t: Time) returns (h': nat)
    requires |times| == |vs| && Linked(e, times, vs, h) && Sorted(times + [t])
    ensures var (e', v) := Attempt(Some(e), t);
            && Linked(e', times + [t], vs + [v], h')
            && AnsweredRight(times + [t], vs + [v], |times|)
  {
    var (e', v) := Attempt(Some(e), t);
    var (more, all, n) := (times + [t], vs + [v], |times|);
    LockedNext(e, times, vs, t, v);
    OpensNext(e, times, vs, h, t, v);
    LockNext(e, times, vs, t, v, e');
    MoreIsSame(times, vs, t, v, h);
    AllowedSame(vs, v, h, n);
    h' := if Opens(more, all, n) then n else h;
    forall k: nat | h' < k < |more| ensures !Opens(more, all, k) {
      if k < n { MoreIsSame(times, vs, t, v, k); }
    }
    hide Opens, Locked, Locks, UnderLock;
    assert more[h] == times[h] && more[n] == t && all[n] == v;
    assert AllowedIn(all, h, n + 1) == AllowedIn(all, h, n) + if v.Allowed? then 1 else 0;
    assert AllowedIn(all, n, n) == 0;
  }

  lemma FirstLinked(t: Time)
    ensures var (e, v) := Attempt(None, t); Linked(e, [t], [v], 0) && AnsweredRight([t], [v], 0)
  {
    var (e, v) := Attempt(None, t);
    assert !Locked([t], [v], 0);
    assert Opens([t], [v], 0) && !Locks([t], [v], 0);
    assert AllowedIn([v], 0, 0) == 0 && AllowedIn([v], 0, 1) == 1;
  }

  ghost predicate AllRight(times: seq<Time>, vs: seq<Verdict>)
    requires |times| == |vs|
  {
    forall i: nat | i < |times| :: AnsweredRight(times, vs, i)
  }

  lemma AllRightNext(times: seq<Time>, vs: seq<Verdict>, t: Time, v: Verdict)
    requires |times| == |vs| && AllRight(times, vs) && AnsweredRight(times + [t], vs + [v], |times|)
    ensures AllRight(times + [t], vs + [v])
  {
    hide AnsweredRight;
    forall i: nat | i < |times| ensures AnsweredRight(times + [t], vs + [v], i) {
      RightIsSame(times, vs, t, v, i);
    }
  }

  lemma {:induction false} AnswersRight(times: seq<Time>) returns (h: nat)
    requires Sorted(times)
    ensures AllRight(times, Answers(times).1)
    ensures times != [] ==> Linked(Answers(times).0.value, times, Answers(times).1, h)
  {
    h := 0;
    if times == [] {
      return;
    }
    hide Linked, AnsweredRight, Attempt;
    var past, t := times[..|times| - 1], times[|times| - 1];
    assert times == past + [t];
    var h0 := AnswersRight(past);
    var (e, vs) := Answers(past);
    var v := Attempt(e, t).1;
    if past == [] {
      FirstLinked(t);
      assert times == [t] && vs + [v] == [v];
    } else {
      h := LinkedNext(e.value, past, vs, h0, t);
      AllRightNext(past, vs, t, v);
    }
  }

  /** The answers one source got in a run of many. */
  function VerdictsOf(ts: seq<Try>, vs: seq<Verdict>, key: string): (r: seq<Verdict>)
    requires |vs| == |ts|
    ensures |r| == |TimesOf(ts, key)|
  {
    if ts == [] then []
    else VerdictsOf(ts[..|ts| - 1], vs[..|vs| - 1], key) + if ts[|ts| - 1].key == key then [vs[|vs| - 1]] else []
  }

  lemma {:induction false} VerdictsAlone(ts: seq<Try>, key: string)
    ensures VerdictsOf(ts, PlainRun(ts).1, key) == Answers(TimesOf(ts, key)).1
    ensures Get(PlainRun(ts).0, key) == Answers(TimesOf(ts, key)).0
  {
    if ts != [] {
      hide Attempt;
      var past, t := ts[..|ts| - 1], ts[|ts| - 1];
      VerdictsAlone(past, key);
      assert PlainRun(ts).1[..|ts| - 1] == PlainRun(past).1;
      var times := TimesOf(past, key);
      if t.key == key {
        assert (times + [t.at])[..|times|] == times;
      } else {
        assert TimesOf(ts, key) == times;
      }
    }
  }

  /** Every attempt of every source, in any run of many in time order, is answered as its own
      source's times say: allowed exactly when it is inside no lockout and fewer than ten were
      allowed in its window, the eleventh starts a minute's lockout, and inside one the wait is
      what is left of it. */
  lemma {:induction false} EveryAnswerIsRight(ts: seq<Try>, key: string, i: nat)
    requires InOrder(ts) && i < |TimesOf(ts, key)|
    ensures AnsweredRight(TimesOf(ts, key), VerdictsOf(ts, Run(ts).1, key), i)
  {
    hide Attempt, Answers, Tracks, AnsweredRight;
    SweepingIsInvisible(ts, if ts == [] then 0 else ts[|ts| - 1].at);
    VerdictsAlone(ts, key);
    TimesSorted(ts, key);
    var h := AnswersRight(TimesOf(ts, key));
  }
}
