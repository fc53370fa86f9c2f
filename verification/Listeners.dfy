/** The DoT and DoH listeners: which sockets are bound, which of them the reconciler
    holds, and the certificate provider they share. */
module Listeners {
  import opened Wrappers

  datatype Proto = DoT | DoH

  /** One live listener, with the configuration it was started with. */
  datatype Running = Running(socket: nat, addr: string, cert: string, key: string, provider: nat)

  datatype Want = Want(enabled: bool, addr: string)

  datatype Snapshot = Snapshot(cert: string, key: string, dot: Want, doh: Want)

  datatype Status = Status(enabled: bool, listening: bool, addr: string, err: string)

  datatype Provider = Provider(id: nat, cert: string, key: string)

  datatype Op = Bound(socket: nat) | Stopping(socket: nat)

  /** The reconciler's fields (dot, doh, closed, the provider) beside the world they act
      on: the sockets bound, those whose Shutdown failed, and everything done so far. */
  datatype State = State(
    dot: Option<Running>, doh: Option<Running>, closed: bool, provider: Option<Provider>,
    dotStatus: Status, dohStatus: Status,
    bound: set<nat>, stuck: set<nat>, next: nat, ops: seq<Op>)

  /** What the outside does with one protocol's stop and start. */
  datatype Outcome = Outcome(stops: bool, starts: Option<string>)   // starts: the error, or None

  function Of(s: State, p: Proto): Option<Running> { if p.DoT? then s.dot else s.doh }

  function StatusOf(s: State, p: Proto): Status { if p.DoT? then s.dotStatus else s.dohStatus }

  function Wanted(w: Snapshot, p: Proto): Want { if p.DoT? then w.dot else w.doh }

  function Install(s: State, p: Proto, r: Option<Running>, st: Status): State {
    if p.DoT? then s.(dot := r, dotStatus := st) else s.(doh := r, dohStatus := st)
  }

  predicate Unchanged(r: Option<Running>, w: Snapshot, want: Want) {
    r.Some? && r.value.addr == want.addr && r.value.cert == w.cert && r.value.key == w.key
  }

  // ------------------------------------------------------------------- steps

  /** Shutdown of one listener. */
  function Stopped(s: State, r: Option<Running>, ok: bool): State {
    if r.None? then s
    else if ok then s.(bound := s.bound - {r.value.socket}, ops := s.ops + [Stopping(r.value.socket)])
    else s.(stuck := s.stuck + {r.value.socket}, ops := s.ops + [Stopping(r.value.socket)])
  }

  /** certProviderFor: the one provider for these paths, rebuilt only when they change. */
  function ProviderFor(s: State, cert: string, key: string): Provider {
    if s.provider.Some? && s.provider.value.cert == cert && s.provider.value.key == key then s.provider.value
    else Provider(s.next, cert, key)
  }

  /** startDoT, startDoH: the provider is taken (and kept) whether or not the start that
      needed it works; a keypair that is not named cannot be loaded. */
  function Started(s: State, w: Snapshot, addr: string, err: Option<string>): (State, Option<Running>) {
    var p := ProviderFor(s, w.cert, w.key);
    var s1 := s.(provider := Some(p), next := s.next + 1);
    if err.Some? || w.cert == "" || w.key == "" then (s1, None)
    else (s1.(bound := s1.bound + {s1.next}, next := s1.next + 1, ops := s1.ops + [Bound(s1.next)]),
          Some(Running(s1.next, addr, w.cert, w.key, p.id)))
  }

  function StartStatus(addr: string, r: Option<Running>, err: Option<string>): Status {
    if r.Some? then Status(true, true, addr, "")
        else Status(true, false, addr, if err.Some? then err.value else "certificate")
  }

  /** reconcileOne, as a function of the world. */
  function Reconciled(s: State, p: Proto, w: Snapshot, out: Outcome): State {
    var cur, want := Of(s, p), Wanted(w, p);
    if !want.enabled then Install(Stopped(s, cur, out.stops), p, None, Status(false, false, "", ""))
    else if Unchanged(cur, w, want) then Install(s, p, cur, Status(true, true, cur.value.addr, ""))
    else
      var (s1, r) := Started(Stopped(s, cur, out.stops), w, want.addr, out.starts);
      Install(s1, p, r, StartStatus(want.addr, r, out.starts))
  }

  predicate DropsProvider(w: Snapshot) { (!w.dot.enabled && !w.doh.enabled) || w.cert == "" || w.key == "" }

  /** reconcileServing; `read` is None when the settings could not be read. */
  function Pass(s: State, read: Option<Snapshot>, dot: Outcome, doh: Outcome): State {
    if s.closed || read.None? then s
    else
      var s1 := Reconciled(Reconciled(s, DoT, read.value, dot), DoH, read.value, doh);
      if DropsProvider(read.value) then s1.(provider := None) else s1
  }

  /** shutdownAll. */
  function ShutAll(s: State, dotStops: bool, dohStops: bool): State {
    Stopped(Stopped(s.(closed := true, dot := None, doh := None), s.dot, dotStops), s.doh, dohStops)
  }

  // --------------------------------------------------------------- invariant

  function Sockets(r: Option<Running>): set<nat> { if r.Some? then {r.value.socket} else {} }

  function HeldSockets(s: State): set<nat> { Sockets(s.dot) + Sockets(s.doh) }

  /** Conservation: every bound socket is one the reconciler holds, or one whose Shutdown
      failed, and never both. */
  ghost predicate Conserved(s: State) {
    && s.bound == HeldSockets(s) + s.stuck
    && HeldSockets(s) !! s.stuck && Sockets(s.dot) !! Sockets(s.doh)
    && (forall x | x in s.bound :: x < s.next)
  }

  /** The listeners running were handed the provider the reconciler still has, and paths
      that name a keypair. */
  ghost predicate Shares(s: State, r: Option<Running>) {
    r.Some? ==> && r.value.cert != "" && r.value.key != ""
                && s.provider == Some(Provider(r.value.provider, r.value.cert, r.value.key))
  }

  ghost predicate StatusOk(r: Option<Running>, st: Status) {
    st.listening == r.Some? && (st.listening ==> st.enabled && st.addr == r.value.addr)
  }

  ghost predicate Inv(s: State) {
    && Conserved(s)
    && (s.closed ==> s.dot.None? && s.doh.None?)
    && Shares(s, s.dot) && Shares(s, s.doh)
    && (!s.closed ==> StatusOk(s.dot, s.dotStatus) && StatusOk(s.doh, s.dohStatus))
  }

  const INIT := State(None, None, false, None, Status(false, false, "", ""), Status(false, false, "", ""), {}, {}, 0,
      [])

  lemma StopConserves(s: State, p: Proto, ok: bool)
    requires Conserved(s)
    ensures Conserved(Install(Stopped(s, Of(s, p), ok), p, None, Status(false, false, "", "")))
  {
  }

  /** With nothing of its own held, a protocol's start adds exactly what it binds. */
  lemma StartConserves(s: State, p: Proto, w: Snapshot, addr: string, err: Option<string>, st: Status)
    requires Conserved(s) && Of(s, p).None?
    ensures var (s1, r) := Started(s, w, addr, err); Conserved(Install(s1, p, r, st))
  {
  }

  lemma ReconcileConserves(s: State, p: Proto, w: Snapshot, out: Outcome)
    requires Conserved(s)
    ensures Conserved(Reconciled(s, p, w, out))
  {
    if Wanted(w, p).enabled && Unchanged(Of(s, p), w, Wanted(w, p)) {
    } else {
      StopConserves(s, p, out.stops);
      if Wanted(w, p).enabled {
        RestartConserves(s, p, w, out);
      }
    }
  }

  lemma RestartConserves(s: State, p: Proto, w: Snapshot, out: Outcome)
    requires Conserved(Install(Stopped(s, Of(s, p), out.stops), p, None, Status(false, false, "", "")))
    requires Wanted(w, p).enabled && !Unchanged(Of(s, p), w, Wanted(w, p))
    ensures Conserved(Reconciled(s, p, w, out))
  {
    hide Conserved;
    var t := Install(Stopped(s, Of(s, p), out.stops), p, None, Status(false, false, "", ""));
    var addr := Wanted(w, p).addr;
    var (s1, r) := Started(t, w, addr, out.starts);
    StartConserves(t, p, w, addr, out.starts, StartStatus(addr, r, out.starts));
    assert Install(s1, p, r, StartStatus(addr, r, out.starts)) == Reconciled(s, p, w, out);
  }

  // ------------------------------------------------------------ one provider

  ghost predicate OnPaths(r: Option<Running>, w: Snapshot) {
    r.Some? ==> r.value.cert == w.cert && r.value.key == w.key
  }

  /** Half-way through a pass: a listener already on the wanted paths has the provider. */
  ghost predicate Agrees(s: State, r: Option<Running>, w: Snapshot) {
    OnPaths(r, w) ==> Shares(s, r)
  }

  lemma ReconcileShares(s: State, p: Proto, q: Proto, w: Snapshot, out: Outcome)
    requires p != q && Agrees(s, Of(s, p), w) && Agrees(s, Of(s, q), w)
    ensures var t := Reconciled(s, p, w, out);
            && Shares(t, Of(t, p)) && OnPaths(Of(t, p), w)
            && Of(t, q) == Of(s, q) && Agrees(t, Of(t, q), w)
  {
  }

  lemma PassShares(s: State, w: Snapshot, dot: Outcome, doh: Outcome)
    requires Shares(s, s.dot) && Shares(s, s.doh) && !s.closed
    ensures var t := Pass(s, Some(w), dot, doh); Shares(t, t.dot) && Shares(t, t.doh)
  {
    hide Reconciled;
    ReconcileShares(s, DoT, DoH, w, dot);
    var m := Reconciled(s, DoT, w, dot);
    ReconcileShares(m, DoH, DoT, w, doh);
    if DropsProvider(w) {
      OffListensNot(s, DoT, w, dot);
      OffListensNot(m, DoH, w, doh);
    }
  }

  lemma OffListensNot(s: State, p: Proto, w: Snapshot, out: Outcome)
    ensures !Wanted(w, p).enabled ==> Of(Reconciled(s, p, w, out), p).None?
  {
  }

  // ------------------------------------------------------------------ passes

  /** What a pass does to one protocol leaves the other where it is. */
  lemma OtherStays(s: State, p: Proto, q: Proto, w: Snapshot, out: Outcome)
    requires p != q
    ensures var t := Reconciled(s, p, w, out);
            Of(t, q) == Of(s, q) && StatusOf(t, q) == StatusOf(s, q) && t.closed == s.closed
  {
  }

  lemma OwnStatus(s: State, p: Proto, w: Snapshot, out: Outcome)
    ensures var t := Reconciled(s, p, w, out);
            && StatusOk(Of(t, p), StatusOf(t, p)) && StatusOf(t, p).enabled == Wanted(w, p).enabled
            && (out.stops ==> t.stuck == s.stuck)
  {
  }

  lemma PassKeepsInv(s: State, read: Option<Snapshot>, dot: Outcome, doh: Outcome)
    requires Inv(s)
    ensures Inv(Pass(s, read, dot, doh))
  {
    if !s.closed && read.Some? {
      hide Reconciled, Conserved, Shares, StatusOk;
      var w := read.value;
      var m := Reconciled(s, DoT, w, dot);
      ReconcileConserves(s, DoT, w, dot);
      ReconcileConserves(m, DoH, w, doh);
      OwnStatus(s, DoT, w, dot);
      OwnStatus(m, DoH, w, doh);
      OtherStays(s, DoT, DoH, w, dot);
      OtherStays(m, DoH, DoT, w, doh);
      PassShares(s, w, dot, doh);
      ProviderIsNoSocket(Reconciled(m, DoH, w, doh));
    }
  }

  lemma ProviderIsNoSocket(s: State)
    requires Conserved(s)
    ensures Conserved(s.(provider := None))
  {
  }

  lemma ShutKeepsInv(s: State, dotStops: bool, dohStops: bool)
    requires Inv(s)
    ensures Inv(ShutAll(s, dotStops, dohStops))
  {
  }

  // -------------------------------------------------------------------- runs

  datatype Event =
    | Reconcile(read: Option<Snapshot>, dot: Outcome, doh: Outcome)
    | Shutdown(dotStops: bool, dohStops: bool)

  function Step(s: State, e: Event): State {
    match e
    case Reconcile(read, dot, doh) => Pass(s, read, dot, doh)
    case Shutdown(a, b) => ShutAll(s, a, b)
  }

  function Run(s: State, es: seq<Event>): State {
    if es == [] then s else Step(Run(s, es[..|es| - 1]), es[|es| - 1])
  }

  /** Over every sequence of passes, failed starts and stops, failed settings reads and
      shutdowns: the bound sockets are those held and those that would not close. */
  lemma {:induction false} RunConserves(es: seq<Event>)
    ensures Inv(Run(INIT, es))
  {
    if es != [] {
      RunConserves(es[..|es| - 1]);
      var s := Run(INIT, es[..|es| - 1]);
      match es[|es| - 1]
      case Reconcile(read, dot, doh) => PassKeepsInv(s, read, dot, doh);
      case Shutdown(a, b) => ShutKeepsInv(s, a, b);
    }
  }

  predicate StopsWork(e: Event) {
    match e
    case Reconcile(_, dot, doh) => dot.stops && doh.stops
    case Shutdown(a, b) => a && b
  }

  lemma PassFreesAll(s: State, read: Option<Snapshot>, dot: Outcome, doh: Outcome)
    requires dot.stops && doh.stops
    ensures Pass(s, read, dot, doh).stuck == s.stuck
  {
    hide Reconciled;
    if read.Some? {
      OwnStatus(s, DoT, read.value, dot);
      OwnStatus(Reconciled(s, DoT, read.value, dot), DoH, read.value, doh);
    }
  }

  lemma {:induction false} NothingStuck(es: seq<Event>)
    requires forall i | 0 <= i < |es| :: StopsWork(es[i])
    ensures Run(INIT, es).stuck == {}
  {
    if es != [] {
      NothingStuck(es[..|es| - 1]);
      var s := Run(INIT, es[..|es| - 1]);
      var e := es[|es| - 1];
      assert StopsWork(e);
      if e.Reconcile? {
        PassFreesAll(s, e.read, e.dot, e.doh);
      }
    }
  }

  /** If every Shutdown succeeds, the bound sockets are exactly the ones in dot and doh. */
  lemma {:induction false} NoLeak(es: seq<Event>)
    requires forall i | 0 <= i < |es| :: StopsWork(es[i])
    ensures Run(INIT, es).bound == HeldSockets(Run(INIT, es))
  {
    RunConserves(es);
    NothingStuck(es);
  }

  /** Closing is one way: nothing is bound, started or stopped after shutdownAll. */
  lemma {:induction false} NothingAfterShutdown(es: seq<Event>, a: bool, b: bool, more: seq<Event>)
    ensures var s := Run(INIT, es + [Shutdown(a, b)]);
            Run(s, more).bound == s.bound == s.stuck && Run(s, more).ops == s.ops
  {
    var all := es + [Shutdown(a, b)];
    assert all[..|all| - 1] == es;
    RunConserves(all);
    StaysClosed(Run(INIT, all), more);
  }

  lemma {:induction false} StaysClosed(s: State, more: seq<Event>)
    requires s.closed && s.dot.None? && s.doh.None?
    ensures var t := Run(s, more);
            t.closed && t.dot.None? && t.doh.None? && t.bound == s.bound && t.stuck == s.stuck && t.ops == s.ops
  {
    if more != [] {
      StaysClosed(s, more[..|more| - 1]);
    }
  }

  ghost predicate Spares(ops: seq<Op>, more: seq<Op>, socket: nat) {
    |ops| <= |more| && more[..|ops|] == ops && forall i | |ops| <= i < |more| :: more[i].socket != socket
  }

  /** A pass never touches a listener whose configuration it finds unchanged, whatever it
      does to the other one. */
  lemma UnchangedIsSpared(s: State, p: Proto, w: Snapshot, dot: Outcome, doh: Outcome)
    requires Inv(s) && !s.closed && Wanted(w, p).enabled && Unchanged(Of(s, p), w, Wanted(w, p))
    ensures var t := Pass(s, Some(w), dot, doh); Of(t, p) == Of(s, p) && Spares(s.ops, t.ops, Of(s, p).value.socket)
  {
    if p.DoT? {
      assert Reconciled(s, DoT, w, dot).(dotStatus := s.dotStatus) == s;
      OtherSpares(s.(dotStatus := Reconciled(s, DoT, w, dot).dotStatus), DoH, w, doh, s.dot.value.socket);
    } else {
      OtherSpares(s, DoT, w, dot, s.doh.value.socket);
    }
  }

  lemma OtherSpares(s: State, p: Proto, w: Snapshot, out: Outcome, socket: nat)
    requires Conserved(s) && socket in s.bound && socket !in Sockets(Of(s, p))
    ensures Spares(s.ops, Reconciled(s, p, w, out).ops, socket)
  {
    var cur := Of(s, p);
    var s1 := Stopped(s, cur, out.stops);
    var (s2, r) := Started(s1, w, Wanted(w, p).addr, out.starts);
    assert Spares(s.ops, s1.ops, socket);
    assert Spares(s.ops, s2.ops, socket);
  }

  /** Once every start it wanted has succeeded, the same pass again does nothing at all. */
  lemma RepeatIsNoOp(s: State, w: Snapshot, dot: Outcome, doh: Outcome, dot': Outcome, doh': Outcome)
    requires Inv(s) && !s.closed
    requires var t := Pass(s, Some(w), dot, doh); (w.dot.enabled ==> t.dot.Some?) && (w.doh.enabled ==> t.doh.Some?)
    ensures var t := Pass(s, Some(w), dot, doh); Pass(t, Some(w), dot', doh') == t
  {
    hide Reconciled, Settled;
    var m := Reconciled(s, DoT, w, dot);
    Settles(s, DoT, w, dot);
    OtherStays(m, DoH, DoT, w, doh);
    Settles(m, DoH, w, doh);
    var u := Reconciled(m, DoH, w, doh);
    StillSettled(m, u, DoT, w);
    var t := Pass(s, Some(w), dot, doh);
    StillSettled(u, t, DoT, w);
    StillSettled(u, t, DoH, w);
    Again(t, DoT, w, dot');
    Again(t, DoH, w, doh');
    OtherStays(s, DoT, DoH, w, dot);
  }

  lemma StillSettled(s: State, t: State, p: Proto, w: Snapshot)
    requires Settled(s, p, w) && Of(t, p) == Of(s, p) && StatusOf(t, p) == StatusOf(s, p)
    ensures Settled(t, p, w)
  {
  }

  ghost predicate Settled(s: State, p: Proto, w: Snapshot) {
    var st := StatusOf(s, p);
    if Wanted(w, p).enabled
    then Of(s, p).Some? ==>
        Unchanged(Of(s, p), w, Wanted(w, p)) && st == Status(true, true, Of(s, p).value.addr, "")
    else Of(s, p).None? && st == Status(false, false, "", "")
  }

  lemma Settles(s: State, p: Proto, w: Snapshot, out: Outcome)
    ensures Settled(Reconciled(s, p, w, out), p, w)
  {
  }

  lemma Again(s: State, p: Proto, w: Snapshot, out: Outcome)
    requires Settled(s, p, w) && (Wanted(w, p).enabled ==> Of(s, p).Some?)
    ensures Reconciled(s, p, w, out) == s
  {
  }

  /** needsRetry holds exactly of a protocol that is wanted and has no socket. */
  lemma RetryIffDown(s: State, w: Snapshot, dot: Outcome, doh: Outcome, p: Proto)
    requires !s.closed
    ensures var t := Pass(s, Some(w), dot, doh); NeedsRetry(StatusOf(t, p)) <==> Wanted(w, p).enabled && Of(t, p).None?
  {
    hide Reconciled;
    var m := Reconciled(s, DoT, w, dot);
    OwnStatus(s, DoT, w, dot);
    OtherStays(m, DoH, DoT, w, doh);
    OwnStatus(m, DoH, w, doh);
  }

  predicate NeedsRetry(st: Status) { st.enabled && !st.listening }

  /** Running listeners serve from one provider: two caches over one keypair never arise. */
  lemma {:induction false} OneProvider(es: seq<Event>)
    ensures var s := Run(INIT, es); s.dot.Some? && s.doh.Some? ==>
              s.dot.value.provider == s.doh.value.provider && s.dot.value.cert == s.doh.value.cert
  {
    RunConserves(es);
  }

  // ------------------------------------------------- what a pass comes to

  /** The listener is up on exactly what is wanted, and says so. */
  ghost predicate Serves(t: State, r: Option<Running>, st: Status, w: Snapshot, addr: string) {
    && r.Some? && r.value.addr == addr && r.value.cert == w.cert && r.value.key == w.key
    && r.value.socket in t.bound && st == Status(true, true, addr, "")
  }

  /** What one pass makes of one protocol, from the listener it had to the one it has: off when
      it is not wanted; left alone when address and paths are as wanted; otherwise the old
      socket goes if it will close, and a new one serves if the start works and both paths are
      named. */
  ghost predicate Outcomes(s: State, cur: Option<Running>, w: Snapshot, want: Want, out: Outcome,
                           t: State, r: Option<Running>, st: Status) {
    var same := cur.Some? && cur.value.addr == want.addr && cur.value.cert == w.cert && cur.value.key == w.key;
    && (!want.enabled ==> r.None? && st == Status(false, false, "", ""))
    && (want.enabled && same ==> r == cur && Serves(t, r, st, w, want.addr))
    && (want.enabled && !same && out.starts.None? && w.cert != "" && w.key != "" ==>
          Serves(t, r, st, w, want.addr) && r.value.socket !in s.bound)
    && (want.enabled && !same && (out.starts.Some? || w.cert == "" || w.key == "") ==>
          r.None? && st == Status(true, false, want.addr, if out.starts.Some? then out.starts.value else "certificate"))
    && (cur.Some? && !(want.enabled && same) ==> (cur.value.socket in t.bound <==> !out.stops))
  }

  lemma RestartOutcome(s: State, p: Proto, w: Snapshot, out: Outcome)
    requires Conserved(s) && Wanted(w, p).enabled && !Unchanged(Of(s, p), w, Wanted(w, p))
    ensures var t := Reconciled(s, p, w, out);
            && Outcomes(s, Of(s, p), w, Wanted(w, p), out, t, Of(t, p), StatusOf(t, p))
            && (Of(t, p).Some? ==> Of(t, p).value.socket >= s.next)
  {
  }

  lemma ReconcileOutcome(s: State, p: Proto, w: Snapshot, out: Outcome)
    requires Conserved(s)
    ensures var t := Reconciled(s, p, w, out);
            && Outcomes(s, Of(s, p), w, Wanted(w, p), out, t, Of(t, p), StatusOf(t, p))
            && (Of(t, p).Some? && Of(t, p) != Of(s, p) ==> Of(t, p).value.socket >= s.next)
  {
    if Wanted(w, p).enabled && !Unchanged(Of(s, p), w, Wanted(w, p)) {
      hide Reconciled, Outcomes;
      RestartOutcome(s, p, w, out);
    }
  }

  lemma OtherKeepsSockets(s: State, p: Proto, w: Snapshot, out: Outcome, x: nat)
    requires Conserved(s) && x < s.next && x !in Sockets(Of(s, p))
    ensures x in Reconciled(s, p, w, out).bound <==> x in s.bound
  {
  }

  lemma NextGrows(s: State, p: Proto, w: Snapshot, out: Outcome)
    ensures Reconciled(s, p, w, out).next >= s.next
  {
  }

  lemma OutcomesLater(s: State, m: State, cur: Option<Running>, w: Snapshot, want: Want, out: Outcome,
                      t: State, u: State, r: Option<Running>, st: Status)
    requires Outcomes(m, cur, w, want, out, t, r, st)
    requires Sockets(cur) + Sockets(r) !! (t.bound - u.bound) + (u.bound - t.bound)
    requires r.Some? && r != cur ==> r.value.socket !in s.bound
    ensures Outcomes(s, cur, w, want, out, u, r, st)
  {
    assert forall x | x in Sockets(cur) + Sockets(r) :: x in t.bound <==> x in u.bound;
  }

  /** One pass, both protocols: each comes out as it should, whatever becomes of the other. */
  lemma PassOutcome(s: State, w: Snapshot, dot: Outcome, doh: Outcome)
    requires Inv(s) && !s.closed
    ensures var t := Pass(s, Some(w), dot, doh);
            && Outcomes(s, s.dot, w, w.dot, dot, t, t.dot, t.dotStatus)
            && Outcomes(s, s.doh, w, w.doh, doh, t, t.doh, t.dohStatus)
  {
    hide Reconciled, Outcomes, Shares, StatusOk;
    var m := Reconciled(s, DoT, w, dot);
    var u := Reconciled(m, DoH, w, doh);
    ReconcileOutcome(s, DoT, w, dot);
    ReconcileConserves(s, DoT, w, dot);
    ReconcileOutcome(m, DoH, w, doh);
    OtherStays(s, DoT, DoH, w, dot);
    OtherStays(m, DoH, DoT, w, doh);
    NextGrows(s, DoT, w, dot);
    forall x | x in Sockets(s.dot) + Sockets(m.dot) ensures x in m.bound <==> x in u.bound {
      OtherKeepsSockets(m, DoH, w, doh, x);
    }
    var t := Pass(s, Some(w), dot, doh);
    OutcomesLater(s, s, s.dot, w, w.dot, dot, m, t, t.dot, t.dotStatus);
    OutcomesLater(s, m, s.doh, w, w.doh, doh, u, t, t.doh, t.dohStatus);
  }

  lemma KeepsProvider(s: State, p: Proto, w: Snapshot, out: Outcome)
    requires s.provider.Some? && s.provider.value.cert == w.cert && s.provider.value.key == w.key
    ensures Reconciled(s, p, w, out).provider == s.provider
  {
  }

  /** The provider of these paths outlives a pass, and goes when nothing is enabled or a path is
      not named. Once closed, or when the settings cannot be read, nothing happens at all. */
  lemma PassProvider(s: State, w: Snapshot, dot: Outcome, doh: Outcome)
    ensures var t := Pass(s, Some(w), dot, doh);
            if s.closed then t == s
            else if (!w.dot.enabled && !w.doh.enabled) || w.cert == "" || w.key == "" then t.provider.None?
            else s.provider.Some? && s.provider.value.cert == w.cert && s.provider.value.key == w.key ==>
              t.provider == s.provider
    ensures Pass(s, None, dot, doh) == s
  {
    if s.provider.Some? && s.provider.value.cert == w.cert && s.provider.value.key == w.key {
      hide Reconciled;
      KeepsProvider(s, DoT, w, dot);
      KeepsProvider(Reconciled(s, DoT, w, dot), DoH, w, doh);
    }
  }

  /** shutdownAll: a socket stays bound exactly if it would not close, now or before. */
  lemma ShutOutcome(s: State, dotStops: bool, dohStops: bool)
    requires Inv(s)
    ensures var t := ShutAll(s, dotStops, dohStops);
            && t.closed && t.dot.None? && t.doh.None?
            && t.bound == s.stuck + (if dotStops then {} else Sockets(s.dot))
                          + (if dohStops then {} else Sockets(s.doh))
  {
  }

  // --------------------------------------------------------- the reconciler

  class ServingReconciler {
    var dot: Option<Running>
    var doh: Option<Running>
    var closed: bool
    var provider: Option<Provider>
    var dotStatus: Status
    var dohStatus: Status
    // The world.
    var bound: set<nat>
    var next: nat
    ghost var stuck: set<nat>
    ghost var ops: seq<Op>

    ghost function Now(): State
      reads this
    {
      State(dot, doh, closed, provider, dotStatus, dohStatus, bound, stuck, next, ops)
    }

    constructor ()
      ensures Now() == INIT && Inv(Now())
    {
      dot, doh, closed, provider := None, None, false, None;
      dotStatus, dohStatus := Status(false, false, "", ""), Status(false, false, "", "");
      bound, next, stuck, ops := {}, 0, {}, [];
    }

    method StopListener(r: Option<Running>, ok: bool)
      modifies this
      ensures Now() == Stopped(old(Now()), r, ok)
    {
      if r.Some? {
        ops := ops + [Stopping(r.value.socket)];
        if ok {
          bound := bound - {r.value.socket};
        } else {
          stuck := stuck + {r.value.socket};
        }
      }
    }

    method CertProviderFor(cert: string, key: string) returns (p: Provider)
      modifies this`provider, this`next
      ensures p == ProviderFor(old(Now()), cert, key) && provider == Some(p) && next == old(next) + 1
    {
      if provider.None? || provider.value.cert != cert || provider.value.key != key {
        provider := Some(Provider(next, cert, key));
      }
      next := next + 1;
      p := provider.value;
    }

    method StartListener(w: Snapshot, addr: string, err: Option<string>) returns (r: Option<Running>)
      modifies this
      ensures (Now(), r) == Started(old(Now()), w, addr, err)
    {
      var p := CertProviderFor(w.cert, w.key);
      if err.Some? || w.cert == "" || w.key == "" {
        return None;
      }
      r := Some(Running(next, addr, w.cert, w.key, p.id));
      bound, ops, next := bound + {next}, ops + [Bound(next)], next + 1;
    }

    /** reconcileOne: what it returns for the protocol, and what it did to the world. */
    method ReconcileOne(p: Proto, w: Snapshot, out: Outcome) returns (run: Option<Running>, st: Status)
      modifies this
      ensures Install(Now(), p, run, st) == Reconciled(old(Now()), p, w, out)
    {
      var cur, want := if p.DoT? then dot else doh, if p.DoT? then w.dot else w.doh;
      if !want.enabled {
        StopListener(cur, out.stops);
        return None, Status(false, false, "", "");
      }
      if cur.Some? && cur.value.addr == want.addr && cur.value.cert == w.cert && cur.value.key == w.key {
        return cur, Status(true, true, cur.value.addr, "");
      }
      StopListener(cur, out.stops);
      run := StartListener(w, want.addr, out.starts);
      st := StartStatus(want.addr, run, out.starts);
    }

    method ReconcileBoth(w: Snapshot, dotOut: Outcome, dohOut: Outcome)
      modifies this
      ensures Now() == Reconciled(Reconciled(old(Now()), DoT, w, dotOut), DoH, w, dohOut)
    {
      hide Reconciled;
      var newDot, newDotStatus := ReconcileOne(DoT, w, dotOut);
      dot, dotStatus := newDot, newDotStatus;
      assert Now() == Reconciled(old(Now()), DoT, w, dotOut);
      var newDoh, newDohStatus := ReconcileOne(DoH, w, dohOut);
      doh, dohStatus := newDoh, newDohStatus;
    }

    /** reconcileServing: one pass. */
    method ReconcileServing(read: Option<Snapshot>, dotOut: Outcome, dohOut: Outcome)
      requires Inv(Now())
      modifies this
      ensures Now() == Pass(old(Now()), read, dotOut, dohOut) && Inv(Now())
    {
      PassKeepsInv(Now(), read, dotOut, dohOut);
      hide Inv, Reconciled;
      if closed || read.None? {
        return;
      }
      var w := read.value;
      ReconcileBoth(w, dotOut, dohOut);
      if (!w.dot.enabled && !w.doh.enabled) || w.cert == "" || w.key == "" {
        provider := None;
      }
    }

    method ShutdownAll(dotStops: bool, dohStops: bool)
      requires Inv(Now())
      modifies this
      ensures Now() == ShutAll(old(Now()), dotStops, dohStops) && Inv(Now()) && bound == stuck
    {
      ShutKeepsInv(Now(), dotStops, dohStops);
      closed := true;
      var d, h := dot, doh;
      dot, doh := None, None;
      StopListener(d, dotStops);
      StopListener(h, dohStops);
    }
  }
}
