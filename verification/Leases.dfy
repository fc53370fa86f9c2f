/** The lease table: one poll's leases and reservations, indexed by address, MAC and
    name. */
module Leases {
  import opened Wrappers
  import opened Subnets
  import opened Labels
  import Dhcp
  import Dotted = Names

  const LEASE_ACTIVE := 0

  /** time.Time{}, in seconds: earlier than any lease. */
  const ZERO_TIME := -62135596800

  datatype Entry = Entry(scope: int, ip: Addr, mac: string, hostname: string, expires: int, reserved: bool)

  datatype Table = Table(at: int, entries: seq<Entry>, byIP: map<Addr, nat>, byMAC: map<string, nat>,
                         byName: map<string, nat>, suffixes: map<int, string>)

  /** Lower-casing, and a suffix without surrounding space and dots, lower-cased. */
  datatype Names = Names(lower: char -> char, suffix: string -> string)

  /** A reservation over any lease, then the later expiry. */
  predicate Outranks(a: Entry, b: Entry) {
    if a.reserved != b.reserved then a.reserved else a.expires > b.expires
  }

  function NameKey(names: Names, text: string, suffix: string): string {
    if text == "" || names.suffix(suffix) == "" then "" else text + "." + names.suffix(suffix)
  }

  function EntryName(names: Names, suffixes: map<int, string>, e: Entry): string {
    NameKey(names, Sanitized(names.lower, e.hostname), if e.scope in suffixes then suffixes[e.scope] else "")
  }

  function ByEntryName(names: Names, suffixes: map<int, string>): Entry -> string {
    e => EntryName(names, suffixes, e)
  }

  function EntryMac(e: Entry): string { e.mac }

  // ----------------------------------------------------------------- indexes

  predicate Claims(entries: seq<Entry>, key: Entry -> string, k: string, i: nat) {
    i < |entries| && key(entries[i]) == k && k != ""
  }

  /** Entry i is the first claimant of k that no other claimant outranks. */
  ghost predicate FirstUnbeaten(entries: seq<Entry>, key: Entry -> string, k: string, i: nat) {
    && Claims(entries, key, k, i)
    && (forall j: nat | Claims(entries, key, k, j) :: !Outranks(entries[j], entries[i]))
    && (forall j: nat | j < i && Claims(entries, key, k, j) :: exists h: nat | Claims(entries, key, k, h) ::
        Outranks(entries[h], entries[j]))
  }

  /** The index is a search: a key is in it exactly when something claims it, and it
      names the first unbeaten claimant. */
  ghost predicate Indexes(entries: seq<Entry>, key: Entry -> string, index: map<string, nat>) {
    && (forall i: nat | i < |entries| && key(entries[i]) != "" :: key(entries[i]) in index)
    && (forall k | k in index :: FirstUnbeaten(entries, key, k, index[k]))
  }

  /** The last entry with an address holds it. */
  ghost predicate IndexesIP(entries: seq<Entry>, index: map<Addr, nat>) {
    && (forall i: nat | i < |entries| :: entries[i].ip in index)
    && (forall a | a in index :: index[a] < |entries| && entries[index[a]].ip == a &&
                                 forall j: nat | index[a] < j < |entries| :: entries[j].ip != a)
  }

  ghost predicate TableOk(names: Names, t: Table) {
    && IndexesIP(t.entries, t.byIP)
    && Indexes(t.entries, EntryMac, t.byMAC)
    && Indexes(t.entries, ByEntryName(names, t.suffixes), t.byName)
  }

  /** claimed, and the write it guards: entry e, appended at the end, takes the key
      unless the holder is at least as good. */
  function Claim(index: map<string, nat>, k: string, e: Entry, entries: seq<Entry>): (r: map<string, nat>)
    requires k in index ==> index[k] < |entries|
  {
    if k == "" || (k in index && !Outranks(e, entries[index[k]])) then index else index[k := |entries|]
  }

  lemma ClaimsMore(entries: seq<Entry>, key: Entry -> string, e: Entry, k: string, j: nat)
    ensures Claims(entries + [e], key, k, j) <==>
            Claims(entries, key, k, j) || (j == |entries| && key(e) == k && k != "")
  {
  }

  /** Outranking is a strict weak order: beating one of two equals is beating both. */
  lemma OutranksOrder(a: Entry, b: Entry, c: Entry)
    ensures Outranks(a, b) && !Outranks(c, b) ==> Outranks(a, c)
    ensures !(Outranks(a, b) && Outranks(b, a))
  {
  }

  lemma OtherKeyStays(entries: seq<Entry>, key: Entry -> string, e: Entry, k: string, i: nat)
    requires FirstUnbeaten(entries, key, k, i) && (key(e) != k || !Outranks(e, entries[i]))
    ensures FirstUnbeaten(entries + [e], key, k, i)
  {
    var more := entries + [e];
    forall j: nat | Claims(more, key, k, j) ensures !Outranks(more[j], more[i]) {
      ClaimsMore(entries, key, e, k, j);
    }
    forall j: nat | j < i && Claims(more, key, k, j)
      ensures exists h: nat | Claims(more, key, k, h) :: Outranks(more[h], more[j])
    {
      assert Claims(entries, key, k, j);
      var h: nat :| Claims(entries, key, k, h) && Outranks(entries[h], entries[j]);
      assert Claims(more, key, k, h) && Outranks(more[h], more[j]);
    }
  }

  lemma NewcomerWins(entries: seq<Entry>, key: Entry -> string, index: map<string, nat>, e: Entry)
    requires Indexes(entries, key, index) && key(e) != ""
    requires key(e) in index ==> Outranks(e, entries[index[key(e)]])
    ensures FirstUnbeaten(entries + [e], key, key(e), |entries|)
  {
    var more, k, n := entries + [e], key(e), |entries|;
    assert Claims(more, key, k, n);
    forall j: nat | Claims(more, key, k, j) && j != n ensures Outranks(e, more[j]) && !Outranks(more[j], e) {
      ClaimsMore(entries, key, e, k, j);
      OutranksOrder(e, entries[index[k]], entries[j]);
      OutranksOrder(e, entries[j], e);
    }
    forall j: nat | j < n && Claims(more, key, k, j)
      ensures exists h: nat | Claims(more, key, k, h) :: Outranks(more[h], more[j])
    {
      assert Claims(more, key, k, n) && Outranks(more[n], more[j]);
    }
  }

  lemma ClaimKeepsIndex(entries: seq<Entry>, key: Entry -> string, index: map<string, nat>, e: Entry)
    requires Indexes(entries, key, index)
    ensures Indexes(entries + [e], key, Claim(index, key(e), e, entries))
  {
    var more, r := entries + [e], Claim(index, key(e), e, entries);
    forall k | k in r ensures FirstUnbeaten(more, key, k, r[k]) {
      if k == key(e) && r[k] == |entries| {
        NewcomerWins(entries, key, index, e);
      } else {
        assert k in index && r[k] == index[k];
        OtherKeyStays(entries, key, e, k, index[k]);
      }
    }
    forall i: nat | i < |more| && key(more[i]) != "" ensures key(more[i]) in r {
      if i < |entries| { assert more[i] == entries[i]; }
    }
  }

  /** e is preferred to every other: reserved if any of them is, the latest to expire of its
      kind, and the first of those. */
  ghost predicate Preferred(entries: seq<Entry>, i: nat, j: nat)
    requires i < |entries| && j < |entries|
  {
    var (a, b) := (entries[i], entries[j]);
    && (b.reserved ==> a.reserved)
    && (a.reserved == b.reserved ==> b.expires <= a.expires)
    && (j < i ==> a.reserved != b.reserved || a.expires != b.expires)
  }

  lemma UnbeatenIsPreferred(entries: seq<Entry>, key: Entry -> string, k: string, i: nat, j: nat)
    requires FirstUnbeaten(entries, key, k, i) && Claims(entries, key, k, j)
    ensures Preferred(entries, i, j)
  {
    if j < i {
      var h: nat :| Claims(entries, key, k, h) && Outranks(entries[h], entries[j]);
      assert !Outranks(entries[h], entries[i]);
    }
  }

  /** What an index finds: exactly the keys some entry has, and for each the entry preferred to
      all that have it. */
  lemma IndexFinds(entries: seq<Entry>, key: Entry -> string, index: map<string, nat>, k: string)
    requires Indexes(entries, key, index) && k != ""
    ensures k in index <==> exists i: nat | i < |entries| :: key(entries[i]) == k
    ensures k in index ==>
              && index[k] < |entries| && key(entries[index[k]]) == k
              && forall j: nat | j < |entries| && key(entries[j]) == k :: Preferred(entries, index[k], j)
  {
    if k in index {
      var i := index[k];
      assert FirstUnbeaten(entries, key, k, i);
      hide Preferred, FirstUnbeaten, Indexes;
      forall j: nat | j < |entries| && key(entries[j]) == k ensures Preferred(entries, i, j) {
        assert Claims(entries, key, k, j);
        UnbeatenIsPreferred(entries, key, k, i, j);
      }
    }
  }

  /** The same of a table, by MAC and by name. */
  lemma TableFinds(names: Names, t: Table, k: string)
    requires TableOk(names, t) && k != ""
    ensures k in t.byMAC <==> exists i: nat | i < |t.entries| :: t.entries[i].mac == k
    ensures k in t.byMAC ==>
              var i := t.byMAC[k];
              && i < |t.entries| && t.entries[i].mac == k
              && forall j: nat | j < |t.entries| && t.entries[j].mac == k :: Preferred(t.entries, i, j)
    ensures k in t.byName <==> exists i: nat | i < |t.entries| :: EntryName(names, t.suffixes, t.entries[i]) == k
    ensures k in t.byName ==>
              var i := t.byName[k];
              && i < |t.entries| && EntryName(names, t.suffixes, t.entries[i]) == k
              && forall j: nat | j < |t.entries| && EntryName(names, t.suffixes, t.entries[j]) == k ::
                   Preferred(t.entries, i, j)
  {
    hide EntryName, IndexesIP, Preferred, Indexes;
    IndexFinds(t.entries, EntryMac, t.byMAC, k);
    IndexFinds(t.entries, ByEntryName(names, t.suffixes), t.byName, k);
  }

  /** newTable. */
  method NewTable(names: Names, entries: seq<Entry>, suffixes: map<int, string>, now: int) returns (t: Table)
    ensures TableOk(names, t) && t.entries == entries && t.suffixes == suffixes && t.at == now
  {
    hide Claim, Indexes, IndexesIP, Sanitized;
    var byIP: map<Addr, nat>, byMAC: map<string, nat>, byName: map<string, nat> := map[], map[], map[];
    ghost var key := ByEntryName(names, suffixes);
    assert IndexesIP(entries[..0], byIP) by { NoAddresses(); }
    NothingIndexed(EntryMac);
    NothingIndexed(key);
    for i := 0 to |entries|
      invariant IndexesIP(entries[..i], byIP)
      invariant Indexes(entries[..i], EntryMac, byMAC) && Indexes(entries[..i], key, byName)
    {
      var e, past := entries[i], entries[..i];
      assert entries[..i + 1] == past + [e];
      AddressIndexed(past, byIP, e);
      byIP := byIP[e.ip := i];
      ClaimKeepsIndex(past, EntryMac, byMAC, e);
      IndexBound(past, EntryMac, byMAC, e.mac);
      byMAC := Claim(byMAC, e.mac, e, past);
      ClaimKeepsIndex(past, key, byName, e);
      var name := EntryName(names, suffixes, e);
      IndexBound(past, key, byName, name);
      byName := Claim(byName, name, e, past);
    }
    assert entries[..|entries|] == entries;
    t := Table(now, entries, byIP, byMAC, byName, suffixes);
  }

  lemma NoAddresses()
    ensures IndexesIP([], map[])
  {
  }

  lemma AddressIndexed(entries: seq<Entry>, index: map<Addr, nat>, e: Entry)
    requires IndexesIP(entries, index)
    ensures IndexesIP(entries + [e], index[e.ip := |entries|])
  {
    var more := entries + [e];
    assert forall i: nat | i < |entries| :: more[i] == entries[i];
  }

  lemma NothingIndexed(key: Entry -> string)
    ensures Indexes([], key, map[])
  {
  }

  lemma IndexBound(entries: seq<Entry>, key: Entry -> string, index: map<string, nat>, k: string)
    requires Indexes(entries, key, index)
    ensures k in index ==> index[k] < |entries|
  {
  }

  // ----------------------------------------------------------------- release

  /** What a release of `ip` leaves: the operator's pins, their expiry cleared. */
  function Released(entries: seq<Entry>, ip: Addr): seq<Entry> {
    if entries == [] then []
    else
      var rest, e := Released(entries[..|entries| - 1], ip), entries[|entries| - 1];
      if e.ip != ip then rest + [e] else if e.reserved then rest + [e.(expires := ZERO_TIME)] else rest
  }

  /** without: the indexes of a derived table are as right as those of a polled one. */
  method Without(names: Names, t: Table, ip: Addr, now: int) returns (out: Table)
    requires TableOk(names, t)
    ensures TableOk(names, out) && out.at == t.at && out.suffixes == t.suffixes
    ensures out.entries == Released(t.entries, ip)
  {
    if ip !in t.byIP {
      NotHeld(names, t, ip);
      return t;
    }
    hide TableOk, Released;
    var entries := Release(t.entries, ip);
    out := NewTable(names, entries, t.suffixes, now);
    TimeIsNoIndex(names, out, t.at);
    out := out.(at := t.at);
  }

  lemma NotHeld(names: Names, t: Table, ip: Addr)
    requires TableOk(names, t) && ip !in t.byIP
    ensures Released(t.entries, ip) == t.entries
  {
    NothingReleased(t.entries, ip);
  }

  lemma TimeIsNoIndex(names: Names, t: Table, at: int)
    requires TableOk(names, t)
    ensures TableOk(names, t.(at := at))
  {
  }

  method Release(all: seq<Entry>, ip: Addr) returns (entries: seq<Entry>)
    ensures entries == Released(all, ip)
  {
    entries := [];
    for i := 0 to |all|
      invariant entries == Released(all[..i], ip)
    {
      assert all[..i + 1][..i] == all[..i];
      var e := all[i];
      if e.ip != ip {
        entries := entries + [e];
      } else if e.reserved {
        entries := entries + [e.(expires := ZERO_TIME)];
      }
    }
    assert all[..|all|] == all;
  }

  lemma {:induction false} NothingReleased(entries: seq<Entry>, ip: Addr)
    requires forall i | 0 <= i < |entries| :: entries[i].ip != ip
    ensures Released(entries, ip) == entries
  {
    if entries != [] {
      NothingReleased(entries[..|entries| - 1], ip);
    }
  }

  /** Any sequence of releases. */
  function ReleasedAll(entries: seq<Entry>, ips: seq<Addr>): seq<Entry> {
    if ips == [] then entries else Released(ReleasedAll(entries, ips[..|ips| - 1]), ips[|ips| - 1])
  }

  method WithoutAll(names: Names, t: Table, ips: seq<Addr>, now: int) returns (out: Table)
    requires TableOk(names, t)
    ensures TableOk(names, out) && out.at == t.at && out.entries == ReleasedAll(t.entries, ips)
  {
    hide TableOk;
    out := t;
    for i := 0 to |ips|
      invariant TableOk(names, out) && out.at == t.at && out.entries == ReleasedAll(t.entries, ips[..i])
    {
      assert ips[..i + 1][..i] == ips[..i];
      out := Without(names, out, ips[i], now);
    }
    assert ips[..|ips|] == ips;
  }

  /** A release touches only that address, and never a pin: afterwards an entry is there
      exactly when it was before and was either elsewhere or reserved. */
  lemma {:induction false} ReleaseKeeps(entries: seq<Entry>, ip: Addr, e: Entry)
    ensures e in Released(entries, ip) <==>
      exists f | f in entries :: (f.ip != ip && e == f) || (f.ip == ip && f.reserved && e == f.(expires := ZERO_TIME))
  {
    if entries != [] {
      var rest, last := entries[..|entries| - 1], entries[|entries| - 1];
      assert entries == rest + [last];
      ReleaseKeeps(rest, ip, e);
    }
  }

  /** Entry by entry, in order: an entry elsewhere stays, a pin at the address stays with its
      expiry cleared, a lease at the address goes. */
  lemma {:induction false} ReleasedOneByOne(a: seq<Entry>, b: seq<Entry>, ip: Addr, e: Entry)
    ensures Released(a + b, ip) == Released(a, ip) + Released(b, ip)
    ensures Released([], ip) == []
    ensures Released([e], ip) ==
            if e.ip != ip then [e]
            else if e.reserved then [Entry(e.scope, e.ip, e.mac, e.hostname, -62135596800, true)] else []
    decreases |b|
  {
    assert [e][..0] == [];
    if b == [] {
      assert a + b == a;
    } else {
      ReleasedOneByOne(a, b[..|b| - 1], ip, e);
      assert (a + b)[..|a + b| - 1] == a + b[..|b| - 1];
    }
  }

  // ----------------------------------------------------------------- lookups

  function LowerAll(lower: char -> char, s: string): string {
    seq(|s|, i requires 0 <= i < |s| => lower(s[i]))
  }

  function SuffixOf(t: Table, e: Entry): string {
    if e.scope in t.suffixes then t.suffixes[e.scope] else ""
  }

  /** The entry's own hostname, made a label, is `text`, and its scope hands out the
      suffix. */
  ghost predicate NamedBy(names: Names, t: Table, e: Entry, text: string, suffix: string) {
    && text != "" && Sanitized(names.lower, e.hostname) == text
    && names.suffix(suffix) != "" && names.suffix(SuffixOf(t, e)) == names.suffix(suffix)
  }

  lemma LabelHasNoDot(s: string)
    requires IsLabel(s)
    ensures '.' !in s
  {
  }

  /** A key is read back uniquely: the label holds no dot. */
  lemma KeyIsNamed(names: Names, t: Table, e: Entry, text: string, suffix: string)
    requires IsLabel(text)
    ensures NameKey(names, text, suffix) != "" && EntryName(names, t.suffixes, e) == NameKey(names, text, suffix)
            <==> NamedBy(names, t, e, text, suffix)
  {
    var own := Sanitized(names.lower, e.hostname);
    SanitizedIsLabel(names.lower, e.hostname);
    LabelHasNoDot(text);
    Dotted.FirstDotPrefix(text, names.suffix(suffix));
    if own != "" {
      LabelHasNoDot(own);
      Dotted.FirstDotPrefix(own, names.suffix(SuffixOf(t, e)));
      if own + "." + names.suffix(SuffixOf(t, e)) == text + "." + names.suffix(suffix) {
        SameHalves(own, names.suffix(SuffixOf(t, e)), text, names.suffix(suffix));
      }
    }
  }

  lemma SameHalves(a: string, b: string, c: string, d: string)
    requires |a| == |c| && a + "." + b == c + "." + d
    ensures a == c && b == d
  {
    var x, y := a + "." + b, c + "." + d;
    assert x[..|a|] == a && y[..|a|] == c;
    assert x[|a| + 1..] == b && y[|a| + 1..] == d;
  }

  /** ByName: finds something exactly when some entry is named so, and then the one preferred
      to all the others named so. */
  method ByName(names: Names, t: Table, asked: string, suffix: string) returns (r: Option<Entry>)
    requires TableOk(names, t) && Lowers(names.lower)
    ensures var text := LowerAll(names.lower, asked);
            && (r.Some? <==> exists i: nat | i < |t.entries| :: NamedBy(names, t, t.entries[i], text, suffix))
            && (r.Some? ==> exists i: nat | i < |t.entries| ::
                  && t.entries[i] == r.value && NamedBy(names, t, r.value, text, suffix)
                  && forall j: nat | j < |t.entries| && NamedBy(names, t, t.entries[j], text, suffix) ::
                       Preferred(t.entries, i, j))
  {
    var text := LowerAll(names.lower, asked);
    var own := SanitizeLabel(names.lower, text);
    GuardAdmitsIndexed(names.lower, text);
    if text != own {
      return None;
    }
    var key := NameKey(names, text, suffix);
    if key == "" {
      return None;
    }
    SanitizedIsLabel(names.lower, text);
    forall i: nat | i < |t.entries|
      ensures EntryName(names, t.suffixes, t.entries[i]) == key <==> NamedBy(names, t, t.entries[i], text, suffix)
    {
      KeyIsNamed(names, t, t.entries[i], text, suffix);
    }
    hide NamedBy, EntryName, Sanitized, NameKey;
    r := Lookup(names, t, key);
    if r.Some? {
      ghost var i: nat :| i < |t.entries| && t.entries[i] == r.value && EntryName(names, t.suffixes, r.value) == key
        && forall j: nat | j < |t.entries| && EntryName(names, t.suffixes, t.entries[j]) == key ::
             Preferred(t.entries, i, j);
      hide Preferred;
      assert NamedBy(names, t, t.entries[i], text, suffix);
    }
  }

  method Lookup(names: Names, t: Table, key: string) returns (r: Option<Entry>)
    requires TableOk(names, t) && key != ""
    ensures r.Some? <==> exists i: nat | i < |t.entries| :: EntryName(names, t.suffixes, t.entries[i]) == key
    ensures r.Some? ==> exists i: nat | i < |t.entries| ::
              && t.entries[i] == r.value && EntryName(names, t.suffixes, r.value) == key
              && forall j: nat | j < |t.entries| && EntryName(names, t.suffixes, t.entries[j]) == key ::
                   Preferred(t.entries, i, j)
  {
    hide EntryName, TableOk, Preferred;
    TableFinds(names, t, key);
    if key !in t.byName {
      return None;
    }
    var i := t.byName[key];
    return Some(t.entries[i]);
  }

  // --------------------------------------------------------------- tableFrom

  datatype Lease = Lease(ip: string, mac: string, hostname: string, subnet: int, cltt: int, validFor: int, state: int)

  /** netip.ParseAddr, Addr.String and CanonicalMAC. */
  datatype Lib = Lib(addr: string -> Option<Addr>, text: Addr -> string, mac: string -> Option<string>)

  type Reservation = Dhcp.Reservation

  predicate Active(lib: Lib, l: Lease) { l.state == LEASE_ACTIVE && lib.addr(l.ip).Some? }

  function LeaseMac(lib: Lib, l: Lease): string {
    if lib.mac(l.mac).Some? then lib.mac(l.mac).value else l.mac
  }

  /** A reservation looked up by what it pins, inside its scope. */
  datatype ScopeKey = ScopeKey(scope: int, value: string)

  type Pins = map<ScopeKey, nat>

  function MacKey(r: Reservation): ScopeKey { ScopeKey(r.scope, r.mac) }

  function IPKey(r: Reservation): ScopeKey { ScopeKey(r.scope, r.ip) }

  /** Each key's last reservation. */
  ghost predicate LastPins(rs: seq<Reservation>, key: Reservation -> ScopeKey, pins: Pins) {
    && (forall i | 0 <= i < |rs| :: key(rs[i]) in pins)
    && (forall p | p in pins :: LastPin(rs, key, p, pins[p]))
  }

  ghost predicate LastPin(rs: seq<Reservation>, key: Reservation -> ScopeKey, p: ScopeKey, i: nat) {
    i < |rs| && key(rs[i]) == p && forall j | i < j < |rs| :: key(rs[j]) != p
  }

  lemma PinNext(rs: seq<Reservation>, key: Reservation -> ScopeKey, pins: Pins, r: Reservation)
    requires LastPins(rs, key, pins)
    ensures LastPins(rs + [r], key, pins[key(r) := |rs|])
  {
    var more, next := rs + [r], pins[key(r) := |rs|];
    forall p | p in next ensures LastPin(more, key, p, next[p]) {
      if p != key(r) {
        assert LastPin(rs, key, p, pins[p]);
      }
    }
    forall i | 0 <= i < |more| ensures key(more[i]) in next {
      if i < |rs| { assert more[i] == rs[i]; }
    }
  }

  lemma NothingPinned(key: Reservation -> ScopeKey)
    ensures LastPins([], key, map[])
  {
  }

  method PinReservations(rs: seq<Reservation>) returns (byMAC: Pins, byIP: Pins)
    ensures LastPins(rs, MacKey, byMAC) && LastPins(rs, IPKey, byIP)
  {
    hide LastPins;
    byMAC, byIP := map[], map[];
    NothingPinned(MacKey);
    NothingPinned(IPKey);
    for i := 0 to |rs|
      invariant LastPins(rs[..i], MacKey, byMAC) && LastPins(rs[..i], IPKey, byIP)
    {
      var r := rs[i];
      ghost var past := rs[..i];
      assert rs[..i + 1] == past + [r] && |past| == i;
      PinNext(past, MacKey, byMAC, r);
      PinNext(past, IPKey, byIP, r);
      byMAC := byMAC[ScopeKey(r.scope, r.mac) := i];
      byIP := byIP[ScopeKey(r.scope, r.ip) := i];
    }
    assert rs[..|rs|] == rs;
  }

  function LeaseMacKey(lib: Lib, l: Lease): ScopeKey { ScopeKey(l.subnet, LeaseMac(lib, l)) }

  function LeaseIPKey(lib: Lib, l: Lease): ScopeKey
    requires Active(lib, l)
  {
    ScopeKey(l.subnet, lib.text(lib.addr(l.ip).value))
  }

  /** The reservation that pins an active lease: by MAC, else by address. */
  function PinOf(lib: Lib, l: Lease, byMAC: Pins, byIP: Pins): Option<nat>
    requires Active(lib, l)
  {
    if LeaseMacKey(lib, l) in byMAC then Some(byMAC[LeaseMacKey(lib, l)])
    else if LeaseIPKey(lib, l) in byIP then Some(byIP[LeaseIPKey(lib, l)])
    else None
  }

  /** The operator pinned either end of the lease: its MAC, or its address. */
  ghost predicate PinnedBy(lib: Lib, l: Lease, r: Reservation)
    requires Active(lib, l)
  {
    MacKey(r) == LeaseMacKey(lib, l) || IPKey(r) == LeaseIPKey(lib, l)
  }

  lemma PinIsPinned(lib: Lib, l: Lease, rs: seq<Reservation>, byMAC: Pins, byIP: Pins)
    requires Active(lib, l) && LastPins(rs, MacKey, byMAC) && LastPins(rs, IPKey, byIP)
    ensures PinOf(lib, l, byMAC, byIP).Some? <==> exists i | 0 <= i < |rs| :: PinnedBy(lib, l, rs[i])
    ensures PinOf(lib, l, byMAC, byIP).Some? ==>
      PinOf(lib, l, byMAC, byIP).value < |rs| && PinnedBy(lib, l, rs[PinOf(lib, l, byMAC, byIP).value])
  {
    var mac, ip := LeaseMacKey(lib, l), LeaseIPKey(lib, l);
    hide LeaseMacKey, LeaseIPKey, Active;
    KeyPinned(rs, MacKey, byMAC, mac);
    KeyPinned(rs, IPKey, byIP, ip);
  }

  lemma KeyPinned(rs: seq<Reservation>, key: Reservation -> ScopeKey, pins: Pins, p: ScopeKey)
    requires LastPins(rs, key, pins)
    ensures p in pins <==> exists i | 0 <= i < |rs| :: key(rs[i]) == p
    ensures p in pins ==> pins[p] < |rs| && key(rs[pins[p]]) == p
  {
    if p in pins {
      assert LastPin(rs, key, p, pins[p]);
    }
  }

  ghost predicate LastByMac(rs: seq<Reservation>, scope: int, mac: string, i: nat) {
    && i < |rs| && rs[i].scope == scope && rs[i].mac == mac
    && forall j | i < j < |rs| :: !(rs[j].scope == scope && rs[j].mac == mac)
  }

  ghost predicate LastByIP(rs: seq<Reservation>, scope: int, ip: string, i: nat) {
    && i < |rs| && rs[i].scope == scope && rs[i].ip == ip
    && forall j | i < j < |rs| :: !(rs[j].scope == scope && rs[j].ip == ip)
  }

  ghost predicate PinnedIn(rs: seq<Reservation>, scope: int, mac: string, ip: string, i: nat) {
    LastByMac(rs, scope, mac, i) || ((forall j: nat :: !LastByMac(rs, scope, mac, j)) && LastByIP(rs, scope, ip, i))
  }

  /** Reservation i pins the lease: the last of the scope with its MAC or, if none has, the last
      with its address as text. */
  ghost predicate PinnedAs(lib: Lib, l: Lease, rs: seq<Reservation>, i: nat)
    requires lib.addr(l.ip).Some?
  {
    var mac := if lib.mac(l.mac).Some? then lib.mac(l.mac).value else l.mac;
    var ip := lib.text(lib.addr(l.ip).value);
    i < |rs| && PinnedIn(rs, l.subnet, mac, ip, i)
  }

  lemma MacPins(rs: seq<Reservation>, byMAC: Pins, scope: int, mac: string, i: nat)
    requires LastPins(rs, MacKey, byMAC)
    ensures LastByMac(rs, scope, mac, i) <==> ScopeKey(scope, mac) in byMAC && byMAC[ScopeKey(scope, mac)] == i
  {
    var p := ScopeKey(scope, mac);
    if p in byMAC {
      assert LastPin(rs, MacKey, p, byMAC[p]);
    }
    if LastByMac(rs, scope, mac, i) {
      assert MacKey(rs[i]) == p;
    }
  }

  lemma IPPins(rs: seq<Reservation>, byIP: Pins, scope: int, ip: string, i: nat)
    requires LastPins(rs, IPKey, byIP)
    ensures LastByIP(rs, scope, ip, i) <==> ScopeKey(scope, ip) in byIP && byIP[ScopeKey(scope, ip)] == i
  {
    var p := ScopeKey(scope, ip);
    if p in byIP {
      assert LastPin(rs, IPKey, p, byIP[p]);
    }
    if LastByIP(rs, scope, ip, i) {
      assert IPKey(rs[i]) == p;
    }
  }

  lemma NoneByMac(rs: seq<Reservation>, byMAC: Pins, scope: int, mac: string)
    requires LastPins(rs, MacKey, byMAC)
    ensures ScopeKey(scope, mac) !in byMAC <==> forall j: nat :: !LastByMac(rs, scope, mac, j)
  {
    hide LastByMac, LastPins;
    forall j: nat
      ensures LastByMac(rs, scope, mac, j) <==> ScopeKey(scope, mac) in byMAC && byMAC[ScopeKey(scope, mac)] == j
    {
      MacPins(rs, byMAC, scope, mac, j);
    }
    if ScopeKey(scope, mac) in byMAC {
      assert LastByMac(rs, scope, mac, byMAC[ScopeKey(scope, mac)]);
    }
  }

  lemma PinOfIs(lib: Lib, l: Lease, rs: seq<Reservation>, byMAC: Pins, byIP: Pins, i: nat)
    requires Active(lib, l) && LastPins(rs, MacKey, byMAC) && LastPins(rs, IPKey, byIP)
    ensures PinOf(lib, l, byMAC, byIP) == Some(i) <==> PinnedAs(lib, l, rs, i)
  {
    hide LastPins, LastByMac, LastByIP;
    var (mac, ip) := (LeaseMac(lib, l), lib.text(lib.addr(l.ip).value));
    NoneByMac(rs, byMAC, l.subnet, mac);
    MacPins(rs, byMAC, l.subnet, mac, i);
    IPPins(rs, byIP, l.subnet, ip, i);
    PinnedInRange(rs, l.subnet, mac, ip, i);
  }

  lemma PinnedInRange(rs: seq<Reservation>, scope: int, mac: string, ip: string, i: nat)
    ensures PinnedIn(rs, scope, mac, ip, i) ==> i < |rs|
  {
  }

  function FromLease(lib: Lib, l: Lease, rs: seq<Reservation>, pin: Option<nat>): Entry
    requires Active(lib, l)
  {
    Entry(l.subnet, lib.addr(l.ip).value, LeaseMac(lib, l),
          if pin.Some? && pin.value < |rs| && l.hostname == "" then rs[pin.value].hostname else l.hostname,
          l.cltt + l.validFor, pin.Some?)
  }

  function FromReservation(lib: Lib, r: Reservation): Entry
    requires lib.addr(r.ip).Some?
  {
    Entry(r.scope, lib.addr(r.ip).value, r.mac, r.hostname, ZERO_TIME, true)
  }

  /** The indices below n that satisfy p, in order. */
  ghost function Selected(n: nat, p: nat -> bool): (r: seq<nat>)
    ensures forall k | 0 <= k < |r| :: r[k] < n && p(r[k])
    ensures forall j, k | 0 <= j < k < |r| :: r[j] < r[k]
  {
    if n == 0 then [] else if p(n - 1) then Selected(n - 1, p) + [n - 1] else Selected(n - 1, p)
  }

  lemma {:induction false} SelectsAll(n: nat, p: nat -> bool, i: nat)
    requires i < n && p(i)
    ensures i in Selected(n, p)
  {
    if i < n - 1 {
      SelectsAll(n - 1, p, i);
    }
  }

  /** The reservations the first n leases hold. */
  function Held(lib: Lib, leases: seq<Lease>, n: nat, byMAC: Pins, byIP: Pins): set<nat>
    requires n <= |leases|
  {
    if n == 0 then {}
    else
      var rest := Held(lib, leases, n - 1, byMAC, byIP);
      if Active(lib, leases[n - 1]) && PinOf(lib, leases[n - 1], byMAC, byIP).Some?
      then rest + {PinOf(lib, leases[n - 1], byMAC, byIP).value} else rest
  }

  function Activity(lib: Lib, leases: seq<Lease>): nat -> bool {
    (i: nat) => i < |leases| && Active(lib, leases[i])
  }

  /** Reservations nothing has leased, whose address reads. */
  function Waiting(lib: Lib, rs: seq<Reservation>, held: set<nat>): nat -> bool {
    (i: nat) => i < |rs| && i !in held && lib.addr(rs[i].ip).Some?
  }

  ghost predicate LeaseRows(lib: Lib, leases: seq<Lease>, n: nat, rs: seq<Reservation>, byMAC: Pins, byIP: Pins,
      rows: seq<Entry>) {
    var from := Selected(n, Activity(lib, leases));
    |rows| == |from| && forall k | 0 <= k < |rows| ::
      from[k] < |leases| && Active(lib, leases[from[k]]) &&
      rows[k] == FromLease(lib, leases[from[k]], rs, PinOf(lib, leases[from[k]], byMAC, byIP))
  }

  ghost predicate ReservationRows(lib: Lib, rs: seq<Reservation>, n: nat, held: set<nat>, rows: seq<Entry>) {
    var from := Selected(n, Waiting(lib, rs, held));
    |rows| == |from| && forall k | 0 <= k < |rows| ::
      from[k] < |rs| && lib.addr(rs[from[k]].ip).Some? && rows[k] == FromReservation(lib, rs[from[k]])
  }

  method ReadLeases(lib: Lib, leases: seq<Lease>, rs: seq<Reservation>, byMAC: Pins, byIP: Pins)
      returns (rows: seq<Entry>, leased: set<nat>)
    ensures LeaseRows(lib, leases, |leases|, rs, byMAC, byIP, rows)
            && leased == Held(lib, leases, |leases|, byMAC, byIP)
  {
    rows, leased := [], {};
    for i := 0 to |leases|
      invariant LeaseRows(lib, leases, i, rs, byMAC, byIP, rows) && leased == Held(lib, leases, i, byMAC, byIP)
    {
      var l := leases[i];
      if l.state == LEASE_ACTIVE && lib.addr(l.ip).Some? {
        var pin := PinOf(lib, l, byMAC, byIP);
        if pin.Some? {
          leased := leased + {pin.value};
        }
        rows := rows + [FromLease(lib, l, rs, pin)];
      }
    }
  }

  method ReadReservations(lib: Lib, rs: seq<Reservation>, leased: set<nat>) returns (rows: seq<Entry>)
    ensures ReservationRows(lib, rs, |rs|, leased, rows)
  {
    rows := [];
    for i := 0 to |rs|
      invariant ReservationRows(lib, rs, i, leased, rows)
    {
      if i !in leased && lib.addr(rs[i].ip).Some? {
        rows := rows + [FromReservation(lib, rs[i])];
      }
    }
  }

  /** No later row is of the same scope. */
  ghost predicate IsLast(scopes: seq<(int, string)>, i: nat) {
    i < |scopes| && forall j | i < j < |scopes| :: scopes[j].0 != scopes[i].0
  }

  function Suffix(scope: (int, string), domain: string): string {
    if scope.1 != "" then scope.1 else domain
  }

  /** Each scope's own domain, or the instance's where it has none. */
  ghost predicate HandsOut(scopes: seq<(int, string)>, domain: string, suffixes: map<int, string>) {
    && (forall id | id in suffixes :: exists i | 0 <= i < |scopes| :: scopes[i].0 == id)
    && (forall i: nat | IsLast(scopes, i) ::
        scopes[i].0 in suffixes && suffixes[scopes[i].0] == if scopes[i].1 != "" then scopes[i].1 else domain)
  }

  method Suffixes(scopes: seq<(int, string)>, domain: string) returns (suffixes: map<int, string>)
    ensures HandsOut(scopes, domain, suffixes)
  {
    assert HandsOut([], domain, map[]);
    hide HandsOut;
    suffixes := map[];
    for n := 0 to |scopes|
      invariant HandsOut(scopes[..n], domain, suffixes)
    {
      assert scopes[..n + 1] == scopes[..n] + [scopes[n]];
      SuffixNext(scopes[..n], domain, suffixes, scopes[n]);
      if scopes[n].1 != "" {
        suffixes := suffixes[scopes[n].0 := scopes[n].1];
      } else {
        suffixes := suffixes[scopes[n].0 := domain];
      }
    }
    assert scopes[..|scopes|] == scopes;
  }

  lemma SuffixNext(past: seq<(int, string)>, domain: string, m: map<int, string>, s: (int, string))
    requires HandsOut(past, domain, m)
    ensures HandsOut(past + [s], domain, m[s.0 := Suffix(s, domain)])
  {
    var all, next := past + [s], m[s.0 := Suffix(s, domain)];
    assert all[|past|] == s;
    forall i: nat | IsLast(all, i) ensures all[i].0 in next && next[all[i].0] == Suffix(all[i], domain) {
      if i < |past| {
        LastBefore(past, s, i);
      }
    }
    forall id | id in next ensures exists i | 0 <= i < |all| :: all[i].0 == id {
      if id == s.0 {
        assert all[|past|].0 == id;
      } else {
        var i :| 0 <= i < |past| && past[i].0 == id;
        assert all[i].0 == id;
      }
    }
  }

  lemma LastBefore(past: seq<(int, string)>, s: (int, string), i: nat)
    requires IsLast(past + [s], i) && i < |past|
    ensures IsLast(past, i) && past[i].0 != s.0 && (past + [s])[i] == past[i]
  {
    var all := past + [s];
    assert all[|past|] == s && forall j | 0 <= j < |past| :: past[j] == all[j];
  }

  /** tableFrom. The table's rows are the active leases in order, then the waiting
      reservations in order, and nothing else. */
  method TableFrom(names: Names, lib: Lib, leases: seq<Lease>, scopes: seq<(int, string)>, rs: seq<Reservation>,
      domain: string, now: int)
      returns (t: Table, ghost byMAC: Pins, ghost byIP: Pins, ghost n: nat)
    ensures TableOk(names, t) && LastPins(rs, MacKey, byMAC) && LastPins(rs, IPKey, byIP)
    ensures n <= |t.entries| && LeaseRows(lib, leases, |leases|, rs, byMAC, byIP, t.entries[..n])
    ensures ReservationRows(lib, rs, |rs|, Held(lib, leases, |leases|, byMAC, byIP), t.entries[n..])
    ensures t.at == now && HandsOut(scopes, domain, t.suffixes)
  {
    hide HandsOut, TableOk, LeaseRows, ReservationRows, LastPins;
    var suffixes := Suffixes(scopes, domain);
    var macs, ips := PinReservations(rs);
    var rows, leased := ReadLeases(lib, leases, rs, macs, ips);
    var more := ReadReservations(lib, rs, leased);
    byMAC, byIP, n := macs, ips, |rows|;
    assert (rows + more)[..n] == rows && (rows + more)[n..] == more;
    t := NewTable(names, rows + more, suffixes, now);
  }

  lemma {:induction false} SelectedOnce(n: nat, p: nat -> bool, i: nat) returns (k: nat)
    requires i < n && p(i)
    ensures k < |Selected(n, p)| && Selected(n, p)[k] == i
    ensures forall j | 0 <= j < |Selected(n, p)| && Selected(n, p)[j] == i :: j == k
  {
    SelectsAll(n, p, i);
    k :| 0 <= k < |Selected(n, p)| && Selected(n, p)[k] == i;
  }

  /** The row of a lease: its scope, address, canonical MAC and expiry; its own name or, if it
      sent none, that of the reservation that pins it; reserved exactly when one does. */
  ghost predicate RowOfLease(lib: Lib, l: Lease, rs: seq<Reservation>, row: Entry)
    requires lib.addr(l.ip).Some?
  {
    && row.scope == l.subnet && row.ip == lib.addr(l.ip).value && row.expires == l.cltt + l.validFor
    && row.mac == (if lib.mac(l.mac).Some? then lib.mac(l.mac).value else l.mac)
    && (row.reserved <==> exists i: nat :: PinnedAs(lib, l, rs, i))
    && (l.hostname != "" || !row.reserved ==> row.hostname == l.hostname)
    && (l.hostname == "" ==> forall i: nat | PinnedAs(lib, l, rs, i) :: row.hostname == rs[i].hostname)
  }

  lemma FromLeaseIs(lib: Lib, l: Lease, rs: seq<Reservation>, byMAC: Pins, byIP: Pins)
    requires Active(lib, l) && LastPins(rs, MacKey, byMAC) && LastPins(rs, IPKey, byIP)
    ensures RowOfLease(lib, l, rs, FromLease(lib, l, rs, PinOf(lib, l, byMAC, byIP)))
  {
    hide PinnedIn, PinOf, LastPins;
    forall i: nat ensures PinOf(lib, l, byMAC, byIP) == Some(i) <==> PinnedAs(lib, l, rs, i) {
      PinOfIs(lib, l, rs, byMAC, byIP, i);
    }
    var pin := PinOf(lib, l, byMAC, byIP);
    if pin.Some? {
      PinOfIs(lib, l, rs, byMAC, byIP, pin.value);
      assert PinnedAs(lib, l, rs, pin.value);
    }
  }

  /** Every lease in state 0 whose address reads has exactly one row, and that is its row. */
  lemma {:induction false} LeaseOnce(lib: Lib, leases: seq<Lease>, rs: seq<Reservation>, byMAC: Pins, byIP: Pins,
      rows: seq<Entry>, i: nat)
      returns (k: nat)
    requires LeaseRows(lib, leases, |leases|, rs, byMAC, byIP, rows) && LastPins(rs, MacKey, byMAC)
             && LastPins(rs, IPKey, byIP)
    requires i < |leases| && leases[i].state == 0 && lib.addr(leases[i].ip).Some?
    ensures var from := Selected(|leases|, Activity(lib, leases));
            k < |rows| == |from| && from[k] == i && forall j | 0 <= j < |from| && from[j] == i :: j == k
    ensures RowOfLease(lib, leases[i], rs, rows[k])
    ensures rows[k].reserved <==> exists r | 0 <= r < |rs| :: PinnedBy(lib, leases[i], rs[r])
  {
    assert Active(lib, leases[i]);
    hide LastPins, RowOfLease, PinnedBy, PinOf, Selected, Active;
    PinIsPinned(lib, leases[i], rs, byMAC, byIP);
    k := SelectedOnce(|leases|, Activity(lib, leases), i);
    FromLeaseIs(lib, leases[i], rs, byMAC, byIP);
  }

  /** No other lease has one. */
  lemma OnlyActiveRows(lib: Lib, leases: seq<Lease>, i: nat)
    requires i in Selected(|leases|, Activity(lib, leases))
    ensures i < |leases| && leases[i].state == 0 && lib.addr(leases[i].ip).Some?
  {
  }

  lemma {:induction false} HeldIffPinned(lib: Lib, leases: seq<Lease>, n: nat, byMAC: Pins, byIP: Pins, i: nat)
    requires n <= |leases|
    ensures i in Held(lib, leases, n, byMAC, byIP) <==>
      exists k | 0 <= k < n :: Active(lib, leases[k]) && PinOf(lib, leases[k], byMAC, byIP) == Some(i)
  {
    if n > 0 {
      HeldIffPinned(lib, leases, n - 1, byMAC, byIP, i);
    }
  }

  /** A reservation is marked as leased exactly when some lease in state 0 is pinned by it. */
  lemma HeldIffLeased(lib: Lib, leases: seq<Lease>, rs: seq<Reservation>, byMAC: Pins, byIP: Pins, i: nat)
    requires LastPins(rs, MacKey, byMAC) && LastPins(rs, IPKey, byIP)
    ensures i in Held(lib, leases, |leases|, byMAC, byIP) <==>
            exists k | 0 <= k < |leases| ::
              leases[k].state == 0 && lib.addr(leases[k].ip).Some? && PinnedAs(lib, leases[k], rs, i)
  {
    hide LastPins, PinOf, PinnedAs, Held;
    HeldIffPinned(lib, leases, |leases|, byMAC, byIP, i);
    forall k | 0 <= k < |leases| && Active(lib, leases[k])
      ensures PinOf(lib, leases[k], byMAC, byIP) == Some(i) <==> PinnedAs(lib, leases[k], rs, i)
    {
      PinOfIs(lib, leases[k], rs, byMAC, byIP, i);
    }
  }

  /** Every reservation whose address reads marks an active lease and has no row of its own, or
      marks none and has exactly one. */
  lemma {:induction false} ReservationOnce(lib: Lib, rs: seq<Reservation>, held: set<nat>, rows: seq<Entry>, i: nat)
      returns (k: Option<nat>)
    requires ReservationRows(lib, rs, |rs|, held, rows) && i < |rs| && lib.addr(rs[i].ip).Some?
    ensures var from := Selected(|rs|, Waiting(lib, rs, held));
            && |from| == |rows| && (k.None? <==> i in held)
            && (k.None? ==> i !in from)
            && (k.Some? ==> && k.value < |rows| && from[k.value] == i
                            && rows[k.value] == Entry(rs[i].scope, lib.addr(rs[i].ip).value, rs[i].mac, rs[i].hostname,
                                                      -62135596800, true)
                            && forall j | 0 <= j < |from| && from[j] == i :: j == k.value)
  {
    if i in held {
      k := None;
    } else {
      hide Selected;
      var n := SelectedOnce(|rs|, Waiting(lib, rs, held), i);
      k := Some(n);
    }
  }
}
