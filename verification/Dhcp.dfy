/** DHCP scopes and reservations: the validators, the handlers that use them, and what
    every sequence of requests keeps. */
module Dhcp {
  import opened Wrappers
  import opened Subnets
  import opened Labels

  datatype Scope = Scope(id: int, name: string, cidr: string, poolStart: string, poolEnd: string, gateway: string,
                         enabled: bool, reservationsOnly: bool, rest: string)

  datatype Reservation = Reservation(id: int, scope: int, mac: string, ip: string, hostname: string, comment: string)

  /** The library and the parts of a scope this model does not look into: strings.
      TrimSpace, netip's parsers, net.ParseMAC and its canonical spelling, case folding,
      and the checks on the remaining columns. */
  datatype Lib = Lib(
    trim: string -> string,
    addr: string -> Option<Addr>,
    prefix: string -> Option<Prefix>,
    mac: string -> Option<string>,
    fold: string -> string,
    restOk: (string, Prefix) -> bool)

  /** What those functions promise. netip reads one spelling of an address only, and a
      canonical MAC is its own canonical spelling. */
  ghost predicate LibOk(lib: Lib) {
    && lib.trim("") == "" && (forall s :: lib.trim(lib.trim(s)) == lib.trim(s))
    && (forall s, t | lib.addr(s).Some? && lib.addr(s) == lib.addr(t) :: s == t)
    && (forall s | lib.prefix(s).Some? :: Wellformed(lib.prefix(s).value))
    && (forall s | lib.mac(s).Some? :: lib.mac(lib.mac(s).value) == lib.mac(s))
  }

  function ParseV4(lib: Lib, s: string): Option<Addr> { lib.addr(lib.trim(s)) }

  /** parseSubnet: a prefix written in masked form. */
  function ParseSubnet(lib: Lib, s: string): Option<Prefix> {
    var p := lib.prefix(lib.trim(s));
    if p.Some? && Wellformed(p.value) && Masked(p.value) then p else None
  }

  // -------------------------------------------------------------- validators

  /** A pool inside the subnet, with neither end on its two special addresses. */
  predicate PoolFits(lib: Lib, s: Scope, p: Prefix)
    requires Wellformed(p)
  {
    var start, end := ParseV4(lib, s.poolStart), ParseV4(lib, s.poolEnd);
    start.Some? && end.Some? && First(p) < start.value <= end.value < Last(p)
  }

  predicate NeedsPool(lib: Lib, s: Scope) {
    !s.reservationsOnly || lib.trim(s.poolStart) != "" || lib.trim(s.poolEnd) != ""
  }

  predicate GatewayFits(lib: Lib, s: Scope, p: Prefix)
    requires Wellformed(p)
  {
    s.gateway == "" || (ParseV4(lib, s.gateway).Some? && First(p) <= ParseV4(lib, s.gateway).value <= Last(p))
  }

  /** The rules about one scope alone. */
  predicate ScopeFits(lib: Lib, s: Scope) {
    var p := ParseSubnet(lib, s.cidr);
    && lib.trim(s.name) != "" && p.Some?
    && (NeedsPool(lib, s) ==> PoolFits(lib, s, p.value))
    && GatewayFits(lib, s, p.value)
    && lib.restOk(s.rest, p.value)
  }

  /** Some address lies in both scopes. */
  ghost predicate Share(lib: Lib, a: Scope, b: Scope) {
    var p, q := ParseSubnet(lib, a.cidr), ParseSubnet(lib, b.cidr);
    p.Some? && q.Some? && exists x :: Contains(p.value, x) && Contains(q.value, x)
  }

  ghost predicate Apart(lib: Lib, s: Scope, o: Scope) {
    o.id == s.id || !s.enabled || !o.enabled || (ParseSubnet(lib, o.cidr).Some? && !Share(lib, s, o))
  }

  /** validatePool. */
  method ValidatePool(lib: Lib, s: Scope, p: Prefix) returns (ok: bool)
    requires Wellformed(p) && Masked(p)
    ensures ok <==> PoolFits(lib, s, p)
  {
    var start, end := ParseV4(lib, s.poolStart), ParseV4(lib, s.poolEnd);
    if start.None? || end.None? {
      return false;
    }
    ContainsIsInterval(p, start.value);
    ContainsIsInterval(p, end.value);
    MaskedIsFirst(p);
    if !Contains(p, start.value) || !Contains(p, end.value) {
      return false;
    }
    if start.value > end.value {
      return false;
    }
    var network := p.addr;
    var broadcast := LastAddr(p);
    if start.value == network || end.value == network || start.value == broadcast || end.value == broadcast {
      return false;
    }
    return true;
  }

  lemma MaskedIsFirst(p: Prefix)
    requires Wellformed(p) && Masked(p)
    ensures First(p) == p.addr
  {
  }

  method ValidateAlone(lib: Lib, s: Scope) returns (p: Option<Prefix>)
    ensures p.Some? <==> ScopeFits(lib, s)
    ensures p.Some? ==> p == ParseSubnet(lib, s.cidr)
  {
    if lib.trim(s.name) == "" {
      return None;
    }
    p := ParseSubnet(lib, s.cidr);
    if p.None? {
      return None;
    }
    if !s.reservationsOnly || lib.trim(s.poolStart) != "" || lib.trim(s.poolEnd) != "" {
      var ok := ValidatePool(lib, s, p.value);
      if !ok {
        return None;
      }
    }
    if s.gateway != "" {
      var gw := ParseV4(lib, s.gateway);
      if gw.None? {
        return None;
      }
      ContainsIsInterval(p.value, gw.value);
      if !Contains(p.value, gw.value) {
        return None;
      }
    }
    if !lib.restOk(s.rest, p.value) {
      return None;
    }
  }

  /** ValidateScope, against every scope the instance holds. */
  method ValidateScope(lib: Lib, s: Scope, others: set<Scope>) returns (ok: bool)
    ensures ok <==> ScopeFits(lib, s) && forall o | o in others :: Apart(lib, s, o)
  {
    var p := ValidateAlone(lib, s);
    if p.None? {
      return false;
    }
    if !s.enabled {
      return true;
    }
    var todo := others;
    while todo != {}
      invariant todo <= others && forall o | o in others - todo :: Apart(lib, s, o)
    {
      var o :| o in todo;
      todo := todo - {o};
      if o.id != s.id && o.enabled {
        var q := ParseSubnet(lib, o.cidr);
        if q.None? {
          return false;
        }
        OverlapsIffShare(q.value, p.value);
        if Overlaps(q.value, p.value) {
          return false;
        }
      }
    }
    return true;
  }

  /** The rules relating a reservation to its scope. */
  predicate ReservationFits(lib: Lib, r: Reservation, s: Scope) {
    var p, ip := ParseSubnet(lib, s.cidr), ParseV4(lib, r.ip);
    && r.scope == s.id && lib.mac(r.mac).Some? && p.Some? && ip.Some?
    && First(p.value) <= ip.value <= Last(p.value)
    && (s.gateway == "" || ParseV4(lib, s.gateway) != ip)
    && (r.hostname == "" || IsLabel(r.hostname))
  }

  /** No other reservation of the scope has its MAC, its address as written or its name. */
  predicate Unlike(lib: Lib, r: Reservation, o: Reservation) {
    || o.id == r.id || o.scope != r.scope
    || (lib.mac(o.mac) != lib.mac(r.mac) && o.ip != r.ip
        && (r.hostname == "" || lib.fold(o.hostname) != lib.fold(r.hostname)))
  }

  method ValidateInScope(lib: Lib, r: Reservation, s: Scope) returns (ok: bool)
    ensures ok <==> ReservationFits(lib, r, s)
  {
    if r.scope != s.id || lib.mac(r.mac).None? {
      return false;
    }
    var p, ip := ParseSubnet(lib, s.cidr), ParseV4(lib, r.ip);
    if p.None? || ip.None? {
      return false;
    }
    ContainsIsInterval(p.value, ip.value);
    if !Contains(p.value, ip.value) {
      return false;
    }
    if s.gateway != "" {
      var gw := ParseV4(lib, s.gateway);
      if gw.Some? && gw == ip {
        return false;
      }
    }
    if r.hostname != "" {
      var valid := ValidHostLabel(r.hostname);
      return valid;
    }
    return true;
  }

  /** ValidateReservation. */
  method ValidateReservation(lib: Lib, r: Reservation, s: Scope, others: set<Reservation>) returns (ok: bool)
    ensures ok <==> ReservationFits(lib, r, s) && forall o | o in others :: Unlike(lib, r, o)
  {
    ok := ValidateInScope(lib, r, s);
    if !ok {
      return false;
    }
    var todo := others;
    while todo != {}
      invariant todo <= others && forall o | o in others - todo :: Unlike(lib, r, o)
    {
      var o :| o in todo;
      todo := todo - {o};
      if o.id != r.id && o.scope == r.scope {
        if lib.mac(o.mac) == lib.mac(r.mac) || o.ip == r.ip {
          return false;
        }
        if r.hostname != "" && lib.fold(o.hostname) == lib.fold(r.hostname) {
          return false;
        }
      }
    }
    return true;
  }

  // ------------------------------------------------------------------- store

  /** dhcp_scopes and dhcp_reservations, and the last id handed out. */
  datatype State = State(scopes: set<Scope>, reservations: set<Reservation>, last: nat)

  /** normaliseScope, on the columns modelled. */
  function Normal(lib: Lib, s: Scope): Scope {
    s.(cidr := lib.trim(s.cidr), poolStart := lib.trim(s.poolStart), poolEnd := lib.trim(s.poolEnd),
        gateway := lib.trim(s.gateway))
  }

  function NormalReservation(lib: Lib, r: Reservation): Reservation {
    r.(mac := if lib.mac(r.mac).Some? then lib.mac(r.mac).value else r.mac, ip := lib.trim(r.ip))
  }

  predicate NameFree(st: State, s: Scope) {
    forall o | o in st.scopes && o.id != s.id :: o.name != s.name
  }

  /** The two unique indexes on a reservation as it would be stored. */
  predicate KeysFree(st: State, r: Reservation) {
    forall o | o in st.reservations && o.id != r.id && o.scope == r.scope :: o.mac != r.mac && o.ip != r.ip
  }

  // --------------------------------------------------------------- invariant

  /** Two stored scopes: names differ, and no address lies in both while both serve. */
  ghost predicate Compatible(lib: Lib, s: Scope, o: Scope) {
    if s.id == o.id then s == o else s.name != o.name && (s.enabled && o.enabled ==> !Share(lib, s, o))
  }

  ghost predicate ScopesOk(lib: Lib, st: State) {
    && (forall s | s in st.scopes :: 0 < s.id <= st.last && ScopeFits(lib, s) && Normal(lib, s) == s)
    && (forall s, o | s in st.scopes && o in st.scopes :: Compatible(lib, s, o))
  }

  /** A stored reservation and the scope it belongs to. */
  ghost predicate Housed(lib: Lib, r: Reservation, scopes: set<Scope>) {
    lib.mac(r.mac) == Some(r.mac) && lib.trim(r.ip) == r.ip && exists s | s in scopes :: ReservationFits(lib, r, s)
  }

  /** Two reservations of one scope share no MAC, no address and no name. */
  ghost predicate Distinct(lib: Lib, r: Reservation, o: Reservation) {
    r.scope == o.scope && r.id != o.id ==>
      r.mac != o.mac && ParseV4(lib, r.ip) != ParseV4(lib, o.ip) &&
      (r.hostname != "" && o.hostname != "" ==> lib.fold(r.hostname) != lib.fold(o.hostname))
  }

  ghost predicate ReservationsOk(lib: Lib, st: State) {
    && (forall r | r in st.reservations :: 0 < r.id <= st.last && Housed(lib, r, st.scopes))
    && (forall r, o | r in st.reservations && o in st.reservations && r.id == o.id :: r == o)
    && (forall r, o | r in st.reservations && o in st.reservations :: Distinct(lib, r, o))
  }

  ghost predicate Inv(lib: Lib, st: State) {
    ScopesOk(lib, st) && ReservationsOk(lib, st)
  }

  // ---------------------------------------------------------------- requests

  datatype Request =
    | CreateScope(scope: Scope)
    | PatchScope(scope: Scope)            // the stored row with the body merged in
    | DeleteScope(id: int)
    | CreateReservation(reservation: Reservation)
    | PatchReservation(reservation: Reservation)  // likewise, its scope the stored one
    | DeleteReservation(id: int)
    | ReserveLease(scopeId: int, mac: string, ip: string, hostname: string)

  ghost predicate ScopeAccepted(lib: Lib, st: State, s: Scope) {
    ScopeFits(lib, s) && (forall o | o in st.scopes :: Apart(lib, s, o)) && NameFree(st, s)
  }

  predicate Moves(lib: Lib, cur: Scope, s: Scope) {
    lib.trim(s.cidr) != cur.cidr || lib.trim(s.gateway) != cur.gateway
  }

  /** No reservation of the scope is stranded by the edit. */
  predicate NoneStranded(lib: Lib, st: State, s: Scope) {
    forall r | r in st.reservations && r.scope == s.id ::
      ReservationFits(lib, r, s) && forall o | o in st.reservations :: Unlike(lib, r, o)
  }

  predicate ReservationAccepted(lib: Lib, st: State, r: Reservation, s: Scope) {
    && ReservationFits(lib, r, s) && (forall o | o in st.reservations :: Unlike(lib, r, o))
    && KeysFree(st, NormalReservation(lib, r))
  }

  ghost predicate Accepts(lib: Lib, st: State, q: Request) {
    match q
    case CreateScope(s) => ScopeAccepted(lib, st, s.(id := 0))
    case PatchScope(s) =>
      exists cur | cur in st.scopes :: cur.id == s.id && ScopeAccepted(lib, st, s)
          && (Moves(lib, cur, s) ==> NoneStranded(lib, st, s))
    case DeleteScope(id) => exists s | s in st.scopes :: s.id == id
    case CreateReservation(r) => exists s | s in st.scopes ::
        s.id == r.scope && ReservationAccepted(lib, st, r.(id := 0), s)
    case PatchReservation(r) =>
      (exists cur | cur in st.reservations :: cur.id == r.id && cur.scope == r.scope) &&
      exists s | s in st.scopes :: s.id == r.scope && ReservationAccepted(lib, st, r, s)
    case DeleteReservation(id) => exists r | r in st.reservations :: r.id == id
    case ReserveLease(sc, mac, ip, host) =>
      exists s | s in st.scopes :: s.id == sc && ReservationAccepted(lib, st, Reservation(0, sc, mac, ip, host, ""), s)
  }

  function WithScope(lib: Lib, st: State, s: Scope): State {
    st.(scopes := (set o | o in st.scopes && o.id != s.id) + {Normal(lib, s)},
        last := if s.id > st.last then s.id else st.last)
  }

  function WithReservation(lib: Lib, st: State, r: Reservation): State {
    st.(reservations := (set o | o in st.reservations && o.id != r.id) + {NormalReservation(lib, r)},
        last := if r.id > st.last then r.id else st.last)
  }

  function WithoutScope(st: State, id: int): State {
    st.(scopes := (set o | o in st.scopes && o.id != id),
        reservations := (set r | r in st.reservations && r.scope != id))
  }

  function Applied(lib: Lib, st: State, q: Request): State {
    match q
    case CreateScope(s) => WithScope(lib, st, s.(id := st.last + 1))
    case PatchScope(s) => WithScope(lib, st, s)
    case DeleteScope(id) => WithoutScope(st, id)
    case CreateReservation(r) => WithReservation(lib, st, r.(id := st.last + 1))
    case PatchReservation(r) => WithReservation(lib, st, r)
    case DeleteReservation(id) => st.(reservations := set r | r in st.reservations && r.id != id)
    case ReserveLease(sc, mac, ip, host) => WithReservation(lib, st, Reservation(st.last + 1, sc, mac, ip, host, ""))
  }

  /** One handler, as one step. */
  ghost function Step(lib: Lib, st: State, q: Request): State {
    if Accepts(lib, st, q) then Applied(lib, st, q) else st
  }

  // ---------------------------------------------------------- steps keep Inv

  lemma TrimTwice(lib: Lib, s: string)
    requires LibOk(lib)
    ensures lib.trim(lib.trim(s)) == lib.trim(s) && lib.trim("") == ""
  {
  }

  lemma NormalFits(lib: Lib, s: Scope)
    requires LibOk(lib) && ScopeFits(lib, s)
    ensures ScopeFits(lib, Normal(lib, s)) && Normal(lib, Normal(lib, s)) == Normal(lib, s)
    ensures ParseSubnet(lib, Normal(lib, s).cidr) == ParseSubnet(lib, s.cidr)
  {
    hide LibOk, First, Last, Masked;
    TrimTwice(lib, s.cidr);
    TrimTwice(lib, s.poolStart);
    TrimTwice(lib, s.poolEnd);
    TrimTwice(lib, s.gateway);
  }

  lemma NormalHouses(lib: Lib, r: Reservation, s: Scope)
    requires LibOk(lib) && ReservationFits(lib, r, s)
    ensures ReservationFits(lib, r, Normal(lib, s))
  {
    hide LibOk, First, Last, Masked, IsLabel;
    TrimTwice(lib, s.cidr);
    TrimTwice(lib, s.gateway);
  }

  /** An accepted scope, stored under its id, whatever it replaces. */
  lemma ScopeStored(lib: Lib, st: State, s: Scope, id: int)
    requires LibOk(lib) && ScopesOk(lib, st) && ScopeAccepted(lib, st, s) && id > 0
    requires s.id == id || (s.id == 0 && id == st.last + 1)
    ensures ScopesOk(lib, WithScope(lib, st, s.(id := id)))
  {
    hide LibOk, ScopeFits, Compatible, Normal, Apart, NameFree;
    var n, st' := Normal(lib, s.(id := id)), WithScope(lib, st, s.(id := id));
    SameRules(lib, s, id);
    NormalFits(lib, s.(id := id));
    forall a, b | a in st'.scopes && b in st'.scopes ensures Compatible(lib, a, b) {
      if a == n && b != n {
        StaysCompatible(lib, st, s, id, b);
      } else if a != n && b == n {
        StaysCompatible(lib, st, s, id, a);
      } else if a == n && b == n {
        CompatibleSelf(lib, a);
      }
    }
    NormalKeepsId(lib, s, id);
  }

  lemma NormalKeepsId(lib: Lib, s: Scope, id: int)
    ensures Normal(lib, s.(id := id)).id == id
  {
  }

  lemma CompatibleSelf(lib: Lib, s: Scope)
    ensures Compatible(lib, s, s)
  {
  }

  lemma StaysCompatible(lib: Lib, st: State, s: Scope, id: int, o: Scope)
    requires LibOk(lib) && ScopeAccepted(lib, st, s) && o in st.scopes && o.id != id && o.id != s.id
    ensures var n := Normal(lib, s.(id := id)); Compatible(lib, n, o) && Compatible(lib, o, n)
  {
    hide LibOk, ScopeFits, Share;
    assert Apart(lib, s, o);
    if s.enabled && o.enabled {
      StillApart(lib, s, id, o);
    }
  }

  lemma SameRules(lib: Lib, s: Scope, id: int)
    ensures ScopeFits(lib, s.(id := id)) <==> ScopeFits(lib, s)
  {
  }

  lemma StillApart(lib: Lib, s: Scope, id: int, o: Scope)
    requires LibOk(lib) && ScopeFits(lib, s) && Apart(lib, s, o) && o.id != s.id && s.enabled && o.enabled
    ensures var n := Normal(lib, s.(id := id)); !Share(lib, n, o) && !Share(lib, o, n)
  {
    hide LibOk, ScopeFits, Contains;
    SameRules(lib, s, id);
    NormalFits(lib, s.(id := id));
  }

  /** Reservations follow the scope they belong to through an edit of it. */
  lemma ReservationsFollow(lib: Lib, st: State, cur: Scope, s: Scope)
    requires LibOk(lib) && Inv(lib, st) && cur in st.scopes && cur.id == s.id
    requires Moves(lib, cur, s) ==> NoneStranded(lib, st, s)
    ensures forall r | r in st.reservations :: Housed(lib, r, WithScope(lib, st, s).scopes)
  {
    var scopes := WithScope(lib, st, s).scopes;
    forall r | r in st.reservations ensures Housed(lib, r, scopes) {
      if r.scope == s.id {
        Follows(lib, st, cur, s, r);
        assert Normal(lib, s) in scopes;
      } else {
        var home :| home in st.scopes && ReservationFits(lib, r, home);
        assert home in scopes;
      }
    }
  }

  lemma Follows(lib: Lib, st: State, cur: Scope, s: Scope, r: Reservation)
    requires LibOk(lib) && Inv(lib, st) && cur in st.scopes && cur.id == s.id && r in st.reservations && r.scope == s.id
    requires Moves(lib, cur, s) ==> NoneStranded(lib, st, s)
    ensures ReservationFits(lib, r, Normal(lib, s))
  {
    if Moves(lib, cur, s) {
      NormalHouses(lib, r, s);
    } else {
      var home :| home in st.scopes && ReservationFits(lib, r, home);
      assert Compatible(lib, home, cur);
    }
  }

  lemma NormalReservationFits(lib: Lib, r: Reservation, s: Scope)
    requires LibOk(lib) && ReservationFits(lib, r, s)
    ensures ReservationFits(lib, NormalReservation(lib, r), s)
    ensures var n := NormalReservation(lib, r); lib.mac(n.mac) == Some(n.mac) && lib.trim(n.ip) == n.ip
  {
    TrimTwice(lib, r.ip);
  }

  lemma StaysDistinct(lib: Lib, st: State, r: Reservation, id: int, s: Scope, o: Reservation)
    requires LibOk(lib) && ReservationsOk(lib, st) && ReservationAccepted(lib, st, r, s) && o in st.reservations
             && o.id != id
    requires r.id == id || r.id == 0
    ensures var n := NormalReservation(lib, r.(id := id)); Distinct(lib, n, o) && Distinct(lib, o, n)
  {
    assert Unlike(lib, r, o) && o.id != r.id;
    var n := NormalReservation(lib, r);
    NormalReservationFits(lib, r, s);
    assert Housed(lib, o, st.scopes);
    if o.scope == r.scope {
      assert o.mac != n.mac && o.ip != n.ip;
    }
  }

  lemma ReservationHoused(lib: Lib, st: State, r: Reservation, id: int, s: Scope)
    requires LibOk(lib) && s in st.scopes && ReservationAccepted(lib, st, r, s)
    ensures Housed(lib, NormalReservation(lib, r.(id := id)), st.scopes)
  {
    NormalReservationFits(lib, r.(id := id), s);
  }

  lemma ReservationStored(lib: Lib, st: State, r: Reservation, id: int, s: Scope)
    requires LibOk(lib) && ReservationsOk(lib, st) && s in st.scopes && ReservationAccepted(lib, st, r, s) && id > 0
    requires r.id == id || (r.id == 0 && id == st.last + 1)
    ensures ReservationsOk(lib, WithReservation(lib, st, r.(id := id)))
  {
    hide LibOk, ReservationAccepted, Housed, Distinct;
    var n := NormalReservation(lib, r.(id := id));
    var st' := WithReservation(lib, st, r.(id := id));
    ReservationHoused(lib, st, r, id, s);
    forall a, b | a in st'.reservations && b in st'.reservations ensures Distinct(lib, a, b) {
      if a == n && b == n {
        DistinctFromItself(lib, n);
      } else if a == n {
        StaysDistinct(lib, st, r, id, s, b);
      } else if b == n {
        StaysDistinct(lib, st, r, id, s, a);
      }
    }
  }

  lemma DistinctFromItself(lib: Lib, r: Reservation)
    ensures Distinct(lib, r, r)
  {
  }

  lemma CreateScopeKeepsInv(lib: Lib, st: State, s: Scope)
    requires LibOk(lib) && Inv(lib, st) && ScopeAccepted(lib, st, s.(id := 0))
    ensures Inv(lib, WithScope(lib, st, s.(id := st.last + 1)))
  {
    hide LibOk, ScopesOk, ScopeAccepted, Distinct, ReservationFits;
    ScopeStored(lib, st, s.(id := 0), st.last + 1);
    var scopes := WithScope(lib, st, s.(id := st.last + 1)).scopes;
    forall r | r in st.reservations ensures Housed(lib, r, scopes) {
      var home :| home in st.scopes && ReservationFits(lib, r, home);
      IdBelow(lib, st, home);
      assert home in scopes;
    }
  }

  lemma IdBelow(lib: Lib, st: State, s: Scope)
    requires ScopesOk(lib, st) && s in st.scopes
    ensures 0 < s.id <= st.last
  {
  }

  lemma PatchScopeKeepsInv(lib: Lib, st: State, cur: Scope, s: Scope)
    requires LibOk(lib) && Inv(lib, st) && cur in st.scopes && cur.id == s.id && ScopeAccepted(lib, st, s)
    requires Moves(lib, cur, s) ==> NoneStranded(lib, st, s)
    ensures Inv(lib, WithScope(lib, st, s))
  {
    IdBelow(lib, st, cur);
    ReservationsFollow(lib, st, cur, s);
    hide LibOk, ScopesOk, ScopeAccepted, Housed, Distinct;
    assert s.(id := cur.id) == s;
    ScopeStored(lib, st, s, cur.id);
  }

  lemma DeleteScopeKeepsInv(lib: Lib, st: State, id: int)
    requires Inv(lib, st)
    ensures Inv(lib, WithoutScope(st, id))
  {
    hide ScopeFits, Compatible, Distinct, Normal;
    var st' := WithoutScope(st, id);
    forall r | r in st'.reservations ensures Housed(lib, r, st'.scopes) {
      var home :| home in st.scopes && ReservationFits(lib, r, home);
      assert home in st'.scopes;
    }
  }

  lemma ReservationKeepsInv(lib: Lib, st: State, r: Reservation, id: int, s: Scope)
    requires LibOk(lib) && Inv(lib, st) && s in st.scopes && ReservationAccepted(lib, st, r, s) && id > 0
    requires r.id == id || (r.id == 0 && id == st.last + 1)
    ensures Inv(lib, WithReservation(lib, st, r.(id := id)))
  {
    hide LibOk, ReservationsOk, ReservationAccepted, ScopeFits, Compatible, Normal;
    ReservationStored(lib, st, r, id, s);
  }

  lemma StepKeepsInv(lib: Lib, st: State, q: Request)
    requires LibOk(lib) && Inv(lib, st)
    ensures Inv(lib, Step(lib, st, q))
  {
    hide LibOk, Inv, ScopeAccepted, ReservationAccepted, WithScope, WithReservation, WithoutScope, Moves,
         NoneStranded;
    if Accepts(lib, st, q) {
      match q
      case CreateScope(s) => CreateScopeKeepsInv(lib, st, s);
      case PatchScope(s) =>
        var cur :| cur in st.scopes && cur.id == s.id && ScopeAccepted(lib, st, s)
            && (Moves(lib, cur, s) ==> NoneStranded(lib, st, s));
        PatchScopeKeepsInv(lib, st, cur, s);
      case DeleteScope(id) => DeleteScopeKeepsInv(lib, st, id);
      case CreateReservation(r) =>
        var s :| s in st.scopes && s.id == r.scope && ReservationAccepted(lib, st, r.(id := 0), s);
        ReservationKeepsInv(lib, st, r.(id := 0), st.last + 1, s);
      case PatchReservation(r) =>
        var cur :| cur in st.reservations && cur.id == r.id;
        var s :| s in st.scopes && s.id == r.scope && ReservationAccepted(lib, st, r, s);
        ReservationIdBelow(lib, st, cur);
        ReservationKeepsInv(lib, st, r, r.id, s);
      case DeleteReservation(id) => DeleteReservationKeepsInv(lib, st, id);
      case ReserveLease(sc, mac, ip, host) =>
        var r := Reservation(0, sc, mac, ip, host, "");
        var s :| s in st.scopes && s.id == sc && ReservationAccepted(lib, st, r, s);
        ReservationKeepsInv(lib, st, r, st.last + 1, s);
    }
  }

  lemma ReservationIdBelow(lib: Lib, st: State, r: Reservation)
    requires Inv(lib, st) && r in st.reservations
    ensures 0 < r.id <= st.last
  {
  }

  lemma DeleteReservationKeepsInv(lib: Lib, st: State, id: int)
    requires Inv(lib, st)
    ensures Inv(lib, st.(reservations := set r | r in st.reservations && r.id != id))
  {
  }

  // --------------------------------------------------------------------- runs

  ghost function Run(lib: Lib, st: State, qs: seq<Request>): State {
    if qs == [] then st else Step(lib, Run(lib, st, qs[..|qs| - 1]), qs[|qs| - 1])
  }

  const EMPTY := State({}, {}, 0)

  lemma {:induction false} RunKeepsInv(lib: Lib, qs: seq<Request>)
    requires LibOk(lib)
    ensures Inv(lib, Run(lib, EMPTY, qs))
  {
    if qs != [] {
      RunKeepsInv(lib, qs[..|qs| - 1]);
      StepKeepsInv(lib, Run(lib, EMPTY, qs[..|qs| - 1]), qs[|qs| - 1]);
    }
  }

  /** After any sequence of requests, no IPv4 address lies in two enabled scopes ... */
  lemma {:induction false} AddressInOneScope(lib: Lib, qs: seq<Request>, s: Scope, o: Scope, x: Addr)
    requires LibOk(lib) && s in Run(lib, EMPTY, qs).scopes && o in Run(lib, EMPTY, qs).scopes && s.enabled && o.enabled
    requires ParseSubnet(lib, s.cidr).Some? && ParseSubnet(lib, o.cidr).Some?
    requires Contains(ParseSubnet(lib, s.cidr).value, x) && Contains(ParseSubnet(lib, o.cidr).value, x)
    ensures s == o
  {
    RunKeepsInv(lib, qs);
    assert Compatible(lib, s, o);
    assert Share(lib, s, o);
  }

  /** ... every pool lies inside its subnet and off its two special addresses ... */
  lemma {:induction false} PoolsInside(lib: Lib, qs: seq<Request>, s: Scope)
    requires LibOk(lib) && s in Run(lib, EMPTY, qs).scopes
    ensures ParseSubnet(lib, s.cidr).Some? && (NeedsPool(lib, s) ==> PoolFits(lib, s, ParseSubnet(lib, s.cidr).value))
  {
    RunKeepsInv(lib, qs);
    hide LibOk, Run, ReservationsOk, Compatible, PoolFits, NeedsPool;
  }

  /** ... every reservation lies in the subnet of its scope and is not its gateway ... */
  lemma {:induction false} ReservationsInside(lib: Lib, qs: seq<Request>, r: Reservation, s: Scope)
    requires LibOk(lib) && r in Run(lib, EMPTY, qs).reservations && s in Run(lib, EMPTY, qs).scopes && s.id == r.scope
    ensures ReservationFits(lib, r, s)
  {
    RunKeepsInv(lib, qs);
    var st := Run(lib, EMPTY, qs);
    hide LibOk, Run;
    assert Housed(lib, r, st.scopes);
    var home :| home in st.scopes && ReservationFits(lib, r, home);
    assert Compatible(lib, home, s);
  }

  /** ... and MAC, address and name are unique within a scope. */
  lemma {:induction false} ReservationsDistinct(lib: Lib, qs: seq<Request>, r: Reservation, o: Reservation)
    requires LibOk(lib) && r in Run(lib, EMPTY, qs).reservations && o in Run(lib, EMPTY, qs).reservations
    requires r.scope == o.scope
    requires r.mac == o.mac || ParseV4(lib, r.ip) == ParseV4(lib, o.ip)
             || (r.hostname != "" && o.hostname != "" && lib.fold(r.hostname) == lib.fold(o.hostname))
    ensures r == o
  {
    RunKeepsInv(lib, qs);
    hide LibOk, Run;
    assert Distinct(lib, r, o);
  }

  // ---------------------------------------------------------------- handlers

  // ----------------------------------------------------- what is accepted

  /** A subnet as an operator writes it. */
  ghost predicate IsSubnet(lib: Lib, text: string, p: Prefix) {
    lib.prefix(lib.trim(text)) == Some(p) && Wellformed(p) && p.addr % Pow2(32 - p.bits) == 0
  }

  ghost predicate IsAddress(lib: Lib, text: string, a: Addr) { lib.addr(lib.trim(text)) == Some(a) }

  /** No address of the subnet is below or above these. */
  ghost predicate Spans(p: Prefix, first: Addr, last: Addr)
    requires Wellformed(p)
  {
    Contains(p, first) && Contains(p, last) && forall a: Addr :: Contains(p, a) ==> first <= a <= last
  }

  /** One scope by itself: a name, a subnet in masked form, a pool (unless it serves only
      reservations and names none) whose ends lie in the subnet, in order and on neither of
      its two special addresses, and a gateway in the subnet or none. */
  ghost predicate ScopeRules(lib: Lib, s: Scope, p: Prefix) {
    && lib.trim(s.name) != "" && IsSubnet(lib, s.cidr, p) && lib.restOk(s.rest, p)
    && (s.gateway == "" || exists g: Addr :: IsAddress(lib, s.gateway, g) && Contains(p, g))
    && (|| (s.reservationsOnly && lib.trim(s.poolStart) == "" && lib.trim(s.poolEnd) == "")
        || exists a: Addr, b: Addr :: PoolRules(lib, s, p, a, b))
  }

  ghost predicate PoolRules(lib: Lib, s: Scope, p: Prefix, a: Addr, b: Addr)
    requires Wellformed(p)
  {
    && IsAddress(lib, s.poolStart, a) && IsAddress(lib, s.poolEnd, b) && a <= b
    && Contains(p, a) && Contains(p, b)
    && forall first: Addr, last: Addr | Spans(p, first, last) :: first < a && b < last
  }

  lemma SpanIsEnds(p: Prefix, first: Addr, last: Addr)
    requires Wellformed(p)
    ensures Spans(p, first, last) <==> first == First(p) && last == Last(p)
  {
    hide Contains, First, Last;
    assert First(p) <= Last(p) by { FirstBelowLast(p); }
    forall a: Addr ensures Contains(p, a) <==> First(p) <= a <= Last(p) { ContainsIsInterval(p, a); }
    assert Contains(p, First(p)) && Contains(p, Last(p));
  }

  lemma FirstBelowLast(p: Prefix)
    requires Wellformed(p)
    ensures First(p) <= Last(p)
  {
  }

  lemma PoolIff(lib: Lib, s: Scope, p: Prefix)
    requires Wellformed(p)
    ensures PoolFits(lib, s, p) <==> exists a: Addr, b: Addr :: PoolRules(lib, s, p, a, b)
  {
    hide Contains, First, Last;
    forall first: Addr, last: Addr ensures Spans(p, first, last) <==> first == First(p) && last == Last(p) {
      SpanIsEnds(p, first, last);
    }
    forall a: Addr ensures Contains(p, a) <==> First(p) <= a <= Last(p) { ContainsIsInterval(p, a); }
    if PoolFits(lib, s, p) {
      assert PoolRules(lib, s, p, ParseV4(lib, s.poolStart).value, ParseV4(lib, s.poolEnd).value);
    }
    if exists a: Addr, b: Addr :: PoolRules(lib, s, p, a, b) {
      var a: Addr, b: Addr :| PoolRules(lib, s, p, a, b);
      assert Spans(p, First(p), Last(p));
    }
  }

  /** The validator's rules on one scope are these. */
  lemma ScopeFitsIff(lib: Lib, s: Scope)
    ensures ScopeFits(lib, s) <==> exists p :: ScopeRules(lib, s, p)
  {
    hide Contains, First, Last, PoolFits, PoolRules;
    var p := ParseSubnet(lib, s.cidr);
    forall q | IsSubnet(lib, s.cidr, q) ensures p == Some(q) { }
    if p.Some? {
      PoolIff(lib, s, p.value);
      if ParseV4(lib, s.gateway).Some? {
        ContainsIsInterval(p.value, ParseV4(lib, s.gateway).value);
      }
      assert ScopeFits(lib, s) <==> ScopeRules(lib, s, p.value);
    }
  }

  /** A scope is accepted exactly when it follows the rules, no other has its name, and, if it
      is to serve, no other serving scope shares an address with it. */
  lemma ScopeAcceptedIff(lib: Lib, st: State, s: Scope)
    requires Inv(lib, st)
    ensures ScopeAccepted(lib, st, s) <==>
            && (exists p :: ScopeRules(lib, s, p))
            && (forall o | o in st.scopes && o.id != s.id :: o.name != s.name)
            && (s.enabled ==> forall o | o in st.scopes && o.id != s.id && o.enabled ::
                  forall a: Addr, p, q | IsSubnet(lib, s.cidr, p) && IsSubnet(lib, o.cidr, q) ::
                    !(Contains(p, a) && Contains(q, a)))
  {
    ScopeFitsIff(lib, s);
    hide ScopeFits, ScopeRules, Contains, ReservationsOk;
    forall o | o in st.scopes ensures ParseSubnet(lib, o.cidr).Some? { StoredSubnet(lib, st, o); }
    forall o | o in st.scopes
      ensures Share(lib, s, o) <==>
              exists a: Addr, p, q ::
                IsSubnet(lib, s.cidr, p) && IsSubnet(lib, o.cidr, q) && Contains(p, a) && Contains(q, a)
    {
      ShareIff(lib, s, o);
    }
    hide Share, IsSubnet, ScopesOk;
  }

  lemma ShareIff(lib: Lib, s: Scope, o: Scope)
    ensures Share(lib, s, o) <==>
            exists a: Addr, p, q ::
              IsSubnet(lib, s.cidr, p) && IsSubnet(lib, o.cidr, q) && Contains(p, a) && Contains(q, a)
  {
    hide Contains;
    var (p, q) := (ParseSubnet(lib, s.cidr), ParseSubnet(lib, o.cidr));
    forall x | IsSubnet(lib, s.cidr, x) ensures p == Some(x) { }
    forall x | IsSubnet(lib, o.cidr, x) ensures q == Some(x) { }
    assert p.Some? ==> IsSubnet(lib, s.cidr, p.value);
    assert q.Some? ==> IsSubnet(lib, o.cidr, q.value);
  }

  lemma StoredSubnet(lib: Lib, st: State, o: Scope)
    requires ScopesOk(lib, st) && o in st.scopes
    ensures ParseSubnet(lib, o.cidr).Some?
  {
  }

  /** A reservation in its scope: a MAC, an address in the subnet and not the gateway's, and a
      hostname that is a label, or none. */
  ghost predicate ReservationRules(lib: Lib, r: Reservation, s: Scope, p: Prefix, a: Addr) {
    && r.scope == s.id && lib.mac(r.mac).Some?
    && IsSubnet(lib, s.cidr, p) && IsAddress(lib, r.ip, a) && Contains(p, a)
    && (s.gateway != "" ==> !IsAddress(lib, s.gateway, a))
    && (r.hostname != "" ==> IsLabel(r.hostname))
  }

  lemma ReservationFitsIff(lib: Lib, r: Reservation, s: Scope)
    ensures ReservationFits(lib, r, s) <==> exists p, a: Addr :: ReservationRules(lib, r, s, p, a)
  {
    hide Contains, First, Last, IsLabel;
    var p, a := ParseSubnet(lib, s.cidr), ParseV4(lib, r.ip);
    if p.Some? && a.Some? {
      ContainsIsInterval(p.value, a.value);
      assert ReservationFits(lib, r, s) <==> ReservationRules(lib, r, s, p.value, a.value);
    }
  }

  /** A reservation is accepted exactly when it follows the rules and no other of its scope has
      its MAC or address as stored, or its name. */
  lemma ReservationAcceptedIff(lib: Lib, st: State, r: Reservation, s: Scope)
    requires LibOk(lib) && Inv(lib, st)
    ensures ReservationAccepted(lib, st, r, s) <==>
            && (exists p, a: Addr :: ReservationRules(lib, r, s, p, a))
            && forall o | o in st.reservations && o.scope == r.scope && o.id != r.id ::
                 && Some(o.mac) != lib.mac(r.mac) && o.ip != lib.trim(r.ip)
                 && (r.hostname != "" ==> lib.fold(o.hostname) != lib.fold(r.hostname))
  {
    ReservationFitsIff(lib, r, s);
    forall o | o in st.reservations ensures lib.mac(o.mac) == Some(o.mac) && lib.trim(o.ip) == o.ip {
      assert Housed(lib, o, st.scopes);
    }
    hide ReservationRules, Housed, ScopesOk, Distinct, LibOk;
    if ReservationFits(lib, r, s) {
      assert lib.mac(r.mac).Some?;
    }
  }

  // ------------------------------------------------------ what is stored

  /** The row a request's reservation is stored as: its own scope, name and comment, the
      canonical MAC, the trimmed address. */
  ghost predicate StoredAs(lib: Lib, r: Reservation, id: int, row: Reservation) {
    && row.id == id && row.scope == r.scope && row.hostname == r.hostname && row.comment == r.comment
    && Some(row.mac) == lib.mac(r.mac) && row.ip == lib.trim(r.ip)
  }

  /** The row a request's scope is stored as: the four address columns trimmed. */
  ghost predicate ScopeStoredAs(lib: Lib, s: Scope, id: int, row: Scope) {
    && row.id == id && row.name == s.name && row.enabled == s.enabled
    && row.reservationsOnly == s.reservationsOnly && row.rest == s.rest
    && row.cidr == lib.trim(s.cidr) && row.poolStart == lib.trim(s.poolStart) && row.poolEnd == lib.trim(s.poolEnd)
    && row.gateway == lib.trim(s.gateway)
  }

  /** New ids are new. */
  lemma NextIdIsFree(lib: Lib, st: State)
    requires Inv(lib, st)
    ensures (set o | o in st.reservations && o.id != st.last + 1) == st.reservations
    ensures (set o | o in st.scopes && o.id != st.last + 1) == st.scopes
  {
    forall o | o in st.reservations ensures o.id != st.last + 1 { ReservationIdBelow(lib, st, o); }
    forall o | o in st.scopes ensures o.id != st.last + 1 { IdBelow(lib, st, o); }
  }

  lemma NewRowAdded(lib: Lib, st: State, r: Reservation)
    requires Inv(lib, st) && r.id == st.last + 1
    ensures var t := WithReservation(lib, st, r);
            t.reservations == st.reservations + {NormalReservation(lib, r)} && t.scopes == st.scopes && t.last == r.id
  {
    NextIdIsFree(lib, st);
    hide Inv, NormalReservation;
  }

  lemma RowAsAsked(lib: Lib, r: Reservation, id: int)
    requires lib.mac(r.mac).Some?
    ensures StoredAs(lib, r, id, NormalReservation(lib, r.(id := id)))
  {
  }

  /** An accepted create adds exactly one row, as the request describes it, at the next id. */
  lemma CreatedReservation(lib: Lib, st: State, r: Reservation) returns (row: Reservation)
    requires Inv(lib, st) && Accepts(lib, st, CreateReservation(r))
    ensures StoredAs(lib, r, st.last + 1, row)
    ensures var t := Step(lib, st, CreateReservation(r));
            && t.reservations == st.reservations + {row}
            && t.scopes == st.scopes && t.last == row.id
  {
    hide Inv, ReservationAccepted, StoredAs, NormalReservation, WithReservation;
    var s :| s in st.scopes && s.id == r.scope && ReservationAccepted(lib, st, r.(id := 0), s);
    AcceptedHasMac(lib, st, r.(id := 0), s);
    NewRowAdded(lib, st, r.(id := st.last + 1));
    RowAsAsked(lib, r, st.last + 1);
    row := NormalReservation(lib, r.(id := st.last + 1));
    ReservationKeepsId(lib, r.(id := st.last + 1));
  }

  lemma ReservationKeepsId(lib: Lib, r: Reservation)
    ensures NormalReservation(lib, r).id == r.id
  {
  }

  /** An accepted patch replaces exactly the row of that id. */
  lemma PatchedReservation(lib: Lib, st: State, r: Reservation) returns (row: Reservation)
    requires Inv(lib, st) && Accepts(lib, st, PatchReservation(r))
    ensures StoredAs(lib, r, r.id, row)
    ensures var t := Step(lib, st, PatchReservation(r));
            && t.reservations == (set o | o in st.reservations && o.id != r.id) + {row}
            && (exists o | o in st.reservations :: o.id == r.id)
            && t.scopes == st.scopes && t.last == st.last
  {
    hide ReservationAccepted, Housed, Distinct, ScopesOk;
    row := NormalReservation(lib, r);
    var cur :| cur in st.reservations && cur.id == r.id && cur.scope == r.scope;
    var s :| s in st.scopes && s.id == r.scope && ReservationAccepted(lib, st, r, s);
    AcceptedHasMac(lib, st, r, s);
    ReservationIdBelow(lib, st, cur);
  }

  lemma AcceptedHasMac(lib: Lib, st: State, r: Reservation, s: Scope)
    requires ReservationAccepted(lib, st, r, s)
    ensures lib.mac(r.mac).Some?
  {
  }

  lemma CreatedScope(lib: Lib, st: State, s: Scope) returns (row: Scope)
    requires Inv(lib, st) && Accepts(lib, st, CreateScope(s))
    ensures ScopeStoredAs(lib, s, st.last + 1, row)
    ensures var t := Step(lib, st, CreateScope(s));
            && t.scopes == st.scopes + {row}
            && t.reservations == st.reservations && t.last == row.id
  {
    NextIdIsFree(lib, st);
    hide Inv;
    row := Normal(lib, s.(id := st.last + 1));
  }

  lemma PatchedScope(lib: Lib, st: State, s: Scope) returns (row: Scope)
    requires Inv(lib, st) && Accepts(lib, st, PatchScope(s))
    ensures ScopeStoredAs(lib, s, s.id, row)
    ensures var t := Step(lib, st, PatchScope(s));
            && t.scopes == (set o | o in st.scopes && o.id != s.id) + {row}
            && (exists o | o in st.scopes :: o.id == s.id)
            && t.reservations == st.reservations && t.last == st.last
  {
    row := Normal(lib, s);
    var cur :| cur in st.scopes && cur.id == s.id;
    IdBelow(lib, st, cur);
  }

  /** Reserving a lease stores its MAC, address and sanitised name, and no comment. */
  lemma ReservedLease(lib: Lib, st: State, scope: int, mac: string, ip: string, host: string) returns (row: Reservation)
    requires Inv(lib, st) && Accepts(lib, st, ReserveLease(scope, mac, ip, host))
    ensures row.id == st.last + 1 && row.scope == scope && row.hostname == host && row.comment == ""
    ensures Some(row.mac) == lib.mac(mac) && row.ip == lib.trim(ip)
    ensures var t := Step(lib, st, ReserveLease(scope, mac, ip, host));
            t.reservations == st.reservations + {row} && t.scopes == st.scopes
  {
    hide Accepts, Step, Inv;
    LeaseIsCreate(lib, st, scope, mac, ip, host);
    row := CreatedReservation(lib, st, Reservation(0, scope, mac, ip, host, ""));
  }

  /** Deleting takes exactly the row of that id, and with a scope exactly its reservations; a
      refused request changes nothing. */
  lemma Deleted(lib: Lib, st: State, id: int)
    ensures var t := Step(lib, st, DeleteScope(id));
            && (forall s :: s in t.scopes <==> s in st.scopes && s.id != id)
            && ((exists s | s in st.scopes :: s.id == id) ==>
                  forall r :: r in t.reservations <==> r in st.reservations && r.scope != id)
            && ((forall s | s in st.scopes :: s.id != id) ==> t == st)
    ensures var t := Step(lib, st, DeleteReservation(id));
            t.scopes == st.scopes && forall r :: r in t.reservations <==> r in st.reservations && r.id != id
  {
  }

  class Handlers {
    const lib: Lib
    var st: State

    ghost predicate Valid()
      reads this
    {
      LibOk(lib) && Inv(lib, st)
    }

    constructor (lib: Lib)
      requires LibOk(lib)
      ensures Valid() && st == EMPTY && this.lib == lib
    {
      this.lib, st := lib, EMPTY;
    }

    method ScopeCreate(s: Scope) returns (ok: bool)
      requires Valid()
      modifies this
      ensures Valid() && ok == Accepts(lib, old(st), CreateScope(s)) && st == Step(lib, old(st), CreateScope(s))
    {
      hide LibOk, Inv;
      StepKeepsInv(lib, st, CreateScope(s));
      ok := ValidateScope(lib, s.(id := 0), st.scopes);
      if !ok || !NameFree(st, s.(id := 0)) {
        return false;
      }
      st := WithScope(lib, st, s.(id := st.last + 1));
    }

    method ScopePatch(s: Scope) returns (ok: bool)
      requires Valid()
      modifies this
      ensures Valid() && ok == Accepts(lib, old(st), PatchScope(s)) && st == Step(lib, old(st), PatchScope(s))
    {
      hide LibOk, Inv;
      StepKeepsInv(lib, st, PatchScope(s));
      if cur :| cur in st.scopes && cur.id == s.id {
        OneScopePerId(lib, st, s.id);
        ok := ValidateScope(lib, s, st.scopes);
        if !ok {
          return false;
        }
        if Moves(lib, cur, s) {
          ok := ValidateAll(s);
          if !ok {
            return false;
          }
        }
        if !NameFree(st, s) {
          return false;
        }
        st := WithScope(lib, st, s);
      } else {
        return false;
      }
    }

    method ValidateAll(s: Scope) returns (ok: bool)
      ensures ok <==> NoneStranded(lib, st, s)
    {
      var todo := st.reservations;
      while todo != {}
        invariant todo <= st.reservations
        invariant forall r | r in st.reservations - todo && r.scope == s.id ::
                    ReservationFits(lib, r, s) && forall o | o in st.reservations :: Unlike(lib, r, o)
      {
        var r :| r in todo;
        todo := todo - {r};
        if r.scope == s.id {
          ok := ValidateReservation(lib, r, s, st.reservations);
          if !ok {
            return false;
          }
        }
      }
      return true;
    }

    method ReservationCreate(r: Reservation) returns (ok: bool)
      requires Valid()
      modifies this
      ensures Valid() && ok == Accepts(lib, old(st), CreateReservation(r))
              && st == Step(lib, old(st), CreateReservation(r))
    {
      hide LibOk, Inv;
      StepKeepsInv(lib, st, CreateReservation(r));
      if s :| s in st.scopes && s.id == r.scope {
        OneScopePerId(lib, st, r.scope);
        ok := ValidateReservation(lib, r.(id := 0), s, st.reservations);
        if !ok || !KeysFree(st, NormalReservation(lib, r.(id := 0))) {
          return false;
        }
        st := WithReservation(lib, st, r.(id := st.last + 1));
      } else {
        return false;
      }
    }

    method ReservationPatch(r: Reservation) returns (ok: bool)
      requires Valid()
      modifies this
      ensures Valid() && ok == Accepts(lib, old(st), PatchReservation(r))
              && st == Step(lib, old(st), PatchReservation(r))
    {
      hide LibOk, Inv;
      StepKeepsInv(lib, st, PatchReservation(r));
      if !exists cur | cur in st.reservations :: cur.id == r.id && cur.scope == r.scope {
        return false;
      }
      if s :| s in st.scopes && s.id == r.scope {
        OneScopePerId(lib, st, r.scope);
        ok := ValidateReservation(lib, r, s, st.reservations);
        if !ok || !KeysFree(st, NormalReservation(lib, r)) {
          return false;
        }
        st := WithReservation(lib, st, r);
      } else {
        return false;
      }
    }

    method ScopeDelete(id: int) returns (ok: bool)
      requires Valid()
      modifies this
      ensures Valid() && ok == Accepts(lib, old(st), DeleteScope(id)) && st == Step(lib, old(st), DeleteScope(id))
    {
      StepKeepsInv(lib, st, DeleteScope(id));
      ok := exists s | s in st.scopes :: s.id == id;
      if ok {
        st := WithoutScope(st, id);
      }
    }

    method ReservationDelete(id: int) returns (ok: bool)
      requires Valid()
      modifies this
      ensures Valid() && ok == Accepts(lib, old(st), DeleteReservation(id))
              && st == Step(lib, old(st), DeleteReservation(id))
    {
      StepKeepsInv(lib, st, DeleteReservation(id));
      ok := exists r | r in st.reservations :: r.id == id;
      if ok {
        st := st.(reservations := set r | r in st.reservations && r.id != id);
      }
    }

    /** handleDHCPLeaseReserve, from the lease-table entry it found: the client's own name
        goes in sanitised, so the reservation is never refused for its not being a label. */
    method LeaseReserve(scope: int, mac: string, ip: string, hostname: string, lower: char -> char) returns (ok: bool)
      requires Valid()
      modifies this
      ensures var q := ReserveLease(scope, mac, ip, Sanitized(lower, hostname));
              Valid() && ok == Accepts(lib, old(st), q) && st == Step(lib, old(st), q)
      ensures var host := Sanitized(lower, hostname); host == "" || IsLabel(host)
    {
      hide LibOk, Inv, Accepts, Step;
      var host := SanitizeLabel(lower, hostname);
      SanitizedIsLabel(lower, hostname);
      LeaseIsCreate(lib, st, scope, mac, ip, host);
      ok := ReservationCreate(Reservation(0, scope, mac, ip, host, ""));
    }
  }

  /** Reserving a lease is creating the reservation it describes. */
  lemma LeaseIsCreate(lib: Lib, st: State, scope: int, mac: string, ip: string, host: string)
    ensures var (q, r) := (ReserveLease(scope, mac, ip, host), Reservation(0, scope, mac, ip, host, ""));
            Accepts(lib, st, q) == Accepts(lib, st, CreateReservation(r)) &&
            Step(lib, st, q) == Step(lib, st, CreateReservation(r))
  {
    hide ReservationAccepted, WithReservation;
  }

  lemma OneScopePerId(lib: Lib, st: State, id: int)
    requires Inv(lib, st)
    ensures forall a, b | a in st.scopes && b in st.scopes && a.id == id == b.id :: a == b
  {
  }
}
