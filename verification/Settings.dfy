/** PUT /settings: many keys judged in phases against the state they are building, then
    stored together. */
module Settings {
  import opened Wrappers
  import opened Schema

  /** serve.dot.enabled, serve.doh.enabled, serve.tls.cert, serve.tls.key, sync.token,
      sync.peer_url, and every other key by its own name. */
  datatype Name = Dot | Doh | Cert | Key | Token | Peer | Other(text: string)

  type Values = map<Name, string>

  /** A missing key reads as "". */
  function Val(m: Values, k: Name): string { if k in m then m[k] else "" }

  // ------------------------------------------------------------------ phases

  predicate ProtocolEnabledKey(k: Name) { k == Dot || k == Doh }

  predicate ClearingPeer(k: Name, v: string) { k == Peer && v == "" }

  predicate StagedFirst(k: Name) { k == Cert || k == Key || k == Token }

  const PHASES := 6

  /** settingsPhases, one predicate each. */
  predicate InPhase(p: nat, k: Name, v: string)
    requires p < PHASES
  {
    match p
    case 0 => (ProtocolEnabledKey(k) && v != "true") || ClearingPeer(k, v)
    case 1 => k == Cert
    case 2 => k == Key
    case 3 => k == Token
    case 4 => !ProtocolEnabledKey(k) && !StagedFirst(k) && !ClearingPeer(k, v)
    case 5 => ProtocolEnabledKey(k) && v == "true"
  }

  function PhaseOf(k: Name, v: string): (p: nat)
    ensures p < PHASES
  {
    if k == Cert then 1 else if k == Key then 2 else if k == Token then 3
    else if ProtocolEnabledKey(k) then (if v == "true" then 5 else 0)
    else if ClearingPeer(k, v) then 0 else 4
  }

  /** Every key falls in exactly one phase. */
  lemma OnePhase(p: nat, k: Name, v: string)
    requires p < PHASES
    ensures InPhase(p, k, v) <==> p == PhaseOf(k, v)
  {
    match p
    case 0 =>
    case 1 =>
    case 2 =>
    case 3 =>
    case 4 =>
    case 5 =>
  }


  /** The keys of one phase, in the order given. */
  function Picked(keys: seq<Name>, body: Values, p: nat): (r: seq<Name>)
    requires p < PHASES
  {
    if keys == [] then []
    else Picked(keys[..|keys| - 1], body, p) +
         if InPhase(p, keys[|keys| - 1], Val(body, keys[|keys| - 1])) then [keys[|keys| - 1]] else []
  }

  function Ordered(keys: seq<Name>, body: Values, phases: nat): seq<Name>
    requires phases <= PHASES
  {
    if phases == 0 then [] else Ordered(keys, body, phases - 1) + Picked(keys, body, phases - 1)
  }

  /** orderSettings, on the sorted keys. */
  method OrderSettings(keys: seq<Name>, body: Values) returns (ordered: seq<Name>)
    ensures ordered == Ordered(keys, body, PHASES)
  {
    ordered := [];
    for p := 0 to PHASES
      invariant ordered == Ordered(keys, body, p)
    {
      ghost var done := ordered;
      for i := 0 to |keys|
        invariant ordered == done + Picked(keys[..i], body, p)
      {
        assert keys[..i + 1][..i] == keys[..i];
        if InPhase(p, keys[i], Val(body, keys[i])) {
          ordered := ordered + [keys[i]];
        }
      }
      assert keys[..|keys|] == keys;
    }
  }

  lemma {:induction false} PickedOnce(keys: seq<Name>, body: Values, p: nat, k: Name)
    requires p < PHASES
    ensures multiset(Picked(keys, body, p))[k] == if p == PhaseOf(k, Val(body, k)) then multiset(keys)[k] else 0
  {
    if keys != [] {
      var rest, last := keys[..|keys| - 1], keys[|keys| - 1];
      assert keys == rest + [last];
      PickedOnce(rest, body, p, k);
      OnePhase(p, last, Val(body, last));
    }
  }

  lemma {:induction false} OrderedCounts(keys: seq<Name>, body: Values, phases: nat, k: Name)
    requires phases <= PHASES
    ensures multiset(Ordered(keys, body, phases))[k] == if PhaseOf(k, Val(body, k)) < phases then multiset(keys)[k]
            else 0
  {
    hide Ordered, Picked, PhaseOf, Val;
    if phases > 0 {
      OrderedCounts(keys, body, phases - 1, k);
      PickedOnce(keys, body, phases - 1, k);
      OrderedSplits(keys, body, phases, k);
    } else {
      NothingOrdered(keys, body);
    }
  }

  lemma NothingOrdered(keys: seq<Name>, body: Values)
    ensures Ordered(keys, body, 0) == []
  {
  }

  lemma OrderedSplits(keys: seq<Name>, body: Values, phases: nat, k: Name)
    requires 0 < phases <= PHASES
    ensures multiset(Ordered(keys, body, phases))[k]
         == multiset(Ordered(keys, body, phases - 1))[k] + multiset(Picked(keys, body, phases - 1))[k]
  {
    var a, b := Ordered(keys, body, phases - 1), Picked(keys, body, phases - 1);
    assert Ordered(keys, body, phases) == a + b;
    hide *;
    assert multiset(a + b) == multiset(a) + multiset(b);
  }

  /** The phases partition the keys: exactly the body's keys are judged, each once. */
  lemma {:induction false} OrderIsPermutation(keys: seq<Name>, body: Values)
    ensures multiset(Ordered(keys, body, PHASES)) == multiset(keys)
  {
    forall k ensures multiset(Ordered(keys, body, PHASES))[k] == multiset(keys)[k] {
      OrderedCounts(keys, body, PHASES, k);
    }
  }

  function Phase(body: Values, k: Name): nat { PhaseOf(k, Val(body, k)) }

  /** ... in phase order. */
  lemma {:induction false} OrderIsPhased(keys: seq<Name>, body: Values, phases: nat)
    requires phases <= PHASES
    ensures forall i | 0 <= i < |Ordered(keys, body, phases)| :: Phase(body, Ordered(keys, body, phases)[i]) < phases
    ensures forall i, j | 0 <= i < j < |Ordered(keys, body, phases)| ::
              Phase(body, Ordered(keys, body, phases)[i]) <= Phase(body, Ordered(keys, body, phases)[j])
  {
    if phases > 0 {
      OrderIsPhased(keys, body, phases - 1);
      PickedPhase(keys, body, phases - 1);
    }
  }

  lemma {:induction false} PickedPhase(keys: seq<Name>, body: Values, p: nat)
    requires p < PHASES
    ensures forall i | 0 <= i < |Picked(keys, body, p)| :: Phase(body, Picked(keys, body, p)[i]) == p
  {
    if keys != [] {
      PickedPhase(keys[..|keys| - 1], body, p);
      OnePhase(p, keys[|keys| - 1], Val(body, keys[|keys| - 1]));
    }
  }

  // ----------------------------------------------------------------- judging

  /** The per-key validators (None for a key that is not editable: false), and
      tls.LoadX509KeyPair. */
  datatype Lib = Lib(valid: (Name, string) -> bool, loads: (string, string) -> bool)

  predicate ValidPair(lib: Lib, cert: string, key: string) { cert != "" && key != "" && lib.loads(cert, key) }

  /** validateCrossField: key is about to take value, everything else is as m says. */
  predicate Cross(lib: Lib, key: Name, value: string, m: Values) {
    if key == Peer then value == "" || Val(m, Token) != ""
    else if key == Token then value != "" || Val(m, Peer) == ""
    else if key == Dot || key == Doh then value != "true" || ValidPair(lib, Val(m, Cert), Val(m, Key))
    else if key == Cert then PairFits(lib, value, Val(m, Key), m)
    else if key == Key then PairFits(lib, Val(m, Cert), value, m)
    else true
  }

  predicate PairFits(lib: Lib, cert: string, key: string, m: Values) {
    if cert == "" || key == "" then Val(m, Dot) != "true" && Val(m, Doh) != "true" else ValidPair(lib, cert, key)
  }

  /** The current values, with the first n of the ordered writes already in. */
  function Simulated(current: Values, body: Values, ordered: seq<Name>, n: nat): Values
    requires n <= |ordered|
  {
    if n == 0 then current else Simulated(current, body, ordered, n - 1)[ordered[n - 1] := Val(body, ordered[n - 1])]
  }

  ghost predicate Judged(lib: Lib, current: Values, body: Values, ordered: seq<Name>) {
    forall i: nat | i < |ordered| :: JudgedAt(lib, current, body, ordered, i)
  }

  predicate JudgedAt(lib: Lib, current: Values, body: Values, ordered: seq<Name>, i: nat)
    requires i < |ordered|
  {
    var (k, v) := (ordered[i], Val(body, ordered[i]));
    lib.valid(k, v) && Cross(lib, k, v, Simulated(current, body, ordered, i))
  }

  function TrimSlashes(s: string): string {
    if s != "" && s[|s| - 1] == '/' then TrimSlashes(s[..|s| - 1]) else s
  }

  /** The peer URL is judged and stored without its trailing slashes. */
  function Normal(raw: Values): Values {
    if Peer in raw then raw[Peer := TrimSlashes(raw[Peer])] else raw
  }

  /** On a replica only the keys that describe this box may be written. */
  predicate Writable(peer: string, body: Values) {
    peer == "" || forall k | k in body :: k.Other? ==> LocalSettingKey(k.text)
  }

  /** A box that follows a main takes a write only if every key of it stays home; the six named
      ones all do. */
  lemma WritableIff(peer: string, body: Values)
    ensures Writable(peer, body) <==> peer == "" || forall text: string | Other(text) in body :: StaysHome(text)
  {
    forall text: string ensures LocalSettingKey(text) <==> StaysHome(text) { StaysHomeIff(text); }
    hide StaysHome, LocalSettingKey;
    if Writable(peer, body) && peer != "" {
      forall text: string | Other(text) in body ensures StaysHome(text) {
        assert Other(text).Other?;
      }
    }
    if forall text: string | Other(text) in body :: StaysHome(text) {
      forall k | k in body ensures k.Other? ==> LocalSettingKey(k.text) {
        if k.Other? { assert k == Other(k.text); }
      }
    }
  }

  /** The stored peer is the one sent less its trailing slashes, all of them; every other value is
      stored as sent. */
  lemma {:induction false} NormalIs(raw: Values)
    ensures Normal(raw).Keys == raw.Keys && forall k | k in raw && k != Peer :: Normal(raw)[k] == raw[k]
    ensures Peer in raw ==> TrimsTo(raw[Peer], Normal(raw)[Peer])
  {
    if Peer in raw {
      TrimSlashesIs(raw[Peer]);
    }
  }

  ghost predicate TrimsTo(s: string, t: string) {
    && |t| <= |s| && s[..|t|] == t && (forall i | |t| <= i < |s| :: s[i] == '/')
    && (t == "" || t[|t| - 1] != '/')
  }

  lemma {:induction false} TrimSlashesIs(s: string)
    ensures TrimsTo(s, TrimSlashes(s))
  {
    if s != "" && s[|s| - 1] == '/' {
      var rest := s[..|s| - 1];
      TrimSlashesIs(rest);
      assert forall i | 0 <= i < |rest| :: s[i] == rest[i];
      assert s[..|TrimSlashes(rest)|] == rest[..|TrimSlashes(rest)|];
    }
  }

  method JudgeAll(lib: Lib, current: Values, body: Values, ordered: seq<Name>) returns (ok: bool)
    ensures ok <==> Judged(lib, current, body, ordered)
  {
    hide Cross;
    var simulated := current;
    for i := 0 to |ordered|
      invariant simulated == Simulated(current, body, ordered, i)
      invariant forall j: nat | j < i :: JudgedAt(lib, current, body, ordered, j)
    {
      assert JudgedAt(lib, current, body, ordered, i) == (lib.valid(ordered[i], Val(body, ordered[i])) &&
        Cross(lib, ordered[i], Val(body, ordered[i]), simulated));
      hide JudgedAt;
      var k := ordered[i];
      var value := Val(body, k);
      if !lib.valid(k, value) {
        return false;
      }
      if !Cross(lib, k, value, simulated) {
        return false;
      }
      simulated := simulated[k := value];
    }
    return true;
  }

  /** handleSettingsPut, with the body's keys sorted: all of it or none of it. */
  method HandleSettingsPut(lib: Lib, peer: string, current: Values, raw: Values, keys: seq<Name>)
      returns (stored: Option<Values>)
    requires forall k :: k in keys <==> k in raw
    ensures stored.Some? <==>
      raw != map[] && Writable(peer, raw) && Judged(lib, current, Normal(raw), Ordered(keys, Normal(raw), PHASES))
    ensures stored.Some? ==> stored.value == current + Normal(raw)
    ensures stored.Some? && Coherent(lib, current) ==> Coherent(lib, stored.value)
  {
    hide Judged, Ordered, Coherent, PairRule, OldKeyRule;
    if raw == map[] {
      return None;
    }
    var body := Normal(raw);
    if !Writable(peer, body) {
      return None;
    }
    var ordered := OrderSettings(keys, body);
    var ok := JudgeAll(lib, current, body, ordered);
    if Coherent(lib, current) {
      AcceptedIff(lib, current, body, keys);
    }
    return if ok then Some(current + body) else None;
  }

  // ------------------------------------------------------------ what it admits

  /** What key r reads as when key k is judged: the body's value if r's phase is earlier. */
  function Seen(current: Values, body: Values, r: Name, k: Name): string {
    if r in body && Phase(body, r) < Phase(body, k) then body[r] else Val(current, r)
  }

  lemma {:induction false} SimulatedReads(current: Values, body: Values, ordered: seq<Name>, n: nat, r: Name)
    requires n <= |ordered|
    ensures Val(Simulated(current, body, ordered, n), r) == if r in ordered[..n] then Val(body, r) else Val(current, r)
  {
    if n > 0 {
      SimulatedReads(current, body, ordered, n - 1, r);
      assert ordered[..n] == ordered[..n - 1] + [ordered[n - 1]];
    }
  }

  /** The order is good for what the checks look at. */
  ghost predicate GoodOrder(body: Values, ordered: seq<Name>) {
    && (forall k :: k in ordered <==> k in body)
    && (forall i, j | 0 <= i < j < |ordered| :: Phase(body, ordered[i]) <= Phase(body, ordered[j]))
  }

  lemma SimulatedSees(current: Values, body: Values, ordered: seq<Name>, i: nat, r: Name)
    requires GoodOrder(body, ordered) && i < |ordered|
    requires r in body ==> Phase(body, r) != Phase(body, ordered[i])
    ensures Val(Simulated(current, body, ordered, i), r) == Seen(current, body, r, ordered[i])
  {
    hide Phase;
    SimulatedReads(current, body, ordered, i, r);
    if r in body {
      assert r in ordered;
      var j :| 0 <= j < |ordered| && ordered[j] == r;
      if Phase(body, r) < Phase(body, ordered[i]) {
        assert j < i;
        assert ordered[..i][j] == r;
      }
    }
  }

  /** What Cross looks at for key k. */
  predicate Looks(k: Name, r: Name) {
    || (k == Peer && r == Token) || (k == Token && r == Peer)
    || ((k == Dot || k == Doh) && (r == Cert || r == Key))
    || (k == Cert && (r == Key || r == Dot || r == Doh))
    || (k == Key && (r == Cert || r == Dot || r == Doh))
  }

  lemma LooksAcrossPhases(body: Values, k: Name, r: Name)
    requires Looks(k, r) && k in body && r in body
    ensures Phase(body, r) != Phase(body, k) || Cross0(body, k)
  {
  }

  /** A write the cross-field check never refuses: a disable. */
  predicate Cross0(body: Values, k: Name) {
    (ProtocolEnabledKey(k) && Val(body, k) != "true") || ClearingPeer(k, Val(body, k))
  }

  predicate CrossSeen(lib: Lib, current: Values, body: Values, k: Name) {
    Cross(lib, k, Val(body, k),
          map[Dot := Seen(current, body, Dot, k), Doh := Seen(current, body, Doh, k),
              Cert := Seen(current, body, Cert, k), Key := Seen(current, body, Key, k),
              Token := Seen(current, body, Token, k), Peer := Seen(current, body, Peer, k)])
  }

  lemma CrossLooks(lib: Lib, k: Name, v: string, m: Values, n: Values)
    requires forall r | Looks(k, r) :: Val(m, r) == Val(n, r)
    ensures Cross(lib, k, v, m) == Cross(lib, k, v, n)
  {
    assert Looks(Peer, Token) && Looks(Token, Peer) && Looks(Dot, Cert) && Looks(Dot, Key) && Looks(Doh, Cert)
        && Looks(Doh, Key);
    assert Looks(Cert, Key) && Looks(Cert, Dot) && Looks(Cert, Doh) && Looks(Key, Cert) && Looks(Key, Dot)
        && Looks(Key, Doh);
  }

  lemma DisableIsFree(lib: Lib, body: Values, k: Name, m: Values)
    requires Cross0(body, k)
    ensures Cross(lib, k, Val(body, k), m)
  {
  }

  lemma JudgedOne(lib: Lib, current: Values, body: Values, ordered: seq<Name>, i: nat)
    requires GoodOrder(body, ordered) && i < |ordered|
    ensures Cross(lib, ordered[i], Val(body, ordered[i]), Simulated(current, body, ordered, i)) ==
            CrossSeen(lib, current, body, ordered[i])
  {
    var k := ordered[i];
    var seen := map[Dot := Seen(current, body, Dot, k), Doh := Seen(current, body, Doh, k),
                    Cert := Seen(current, body, Cert, k), Key := Seen(current, body, Key, k),
                    Token := Seen(current, body, Token, k), Peer := Seen(current, body, Peer, k)];
    if Cross0(body, k) {
      DisableIsFree(lib, body, k, Simulated(current, body, ordered, i));
      DisableIsFree(lib, body, k, seen);
    } else {
      forall r | Looks(k, r) ensures Val(Simulated(current, body, ordered, i), r) == Val(seen, r) {
        if r in body {
          LooksAcrossPhases(body, k, r);
        }
        SimulatedSees(current, body, ordered, i, r);
      }
      CrossLooks(lib, k, Val(body, k), Simulated(current, body, ordered, i), seen);
    }
  }

  lemma OrderIsGood(keys: seq<Name>, body: Values)
    requires forall k :: k in keys <==> k in body
    ensures GoodOrder(body, Ordered(keys, body, PHASES))
  {
    var ordered := Ordered(keys, body, PHASES);
    OrderIsPermutation(keys, body);
    OrderIsPhased(keys, body, PHASES);
    forall k ensures k in ordered <==> k in keys {
      assert k in multiset(ordered) <==> k in multiset(keys);
    }
  }

  /** The order within the body does not matter: each key is judged against the phases
      before its own. */
  lemma JudgedIffSeen(lib: Lib, current: Values, body: Values, keys: seq<Name>)
    requires forall k :: k in keys <==> k in body
    ensures Judged(lib, current, body, Ordered(keys, body, PHASES)) <==>
      forall k | k in body :: Passes(lib, current, body, k)
  {
    var ordered := Ordered(keys, body, PHASES);
    OrderIsGood(keys, body);
    forall i: nat | i < |ordered|
      ensures JudgedAt(lib, current, body, ordered, i) == Passes(lib, current, body, ordered[i])
    {
      JudgedOne(lib, current, body, ordered, i);
    }
    hide JudgedAt, Passes, Ordered, Phase;
    if Judged(lib, current, body, ordered) {
      forall k | k in body ensures Passes(lib, current, body, k) {
        assert k in ordered;
        var i: nat :| i < |ordered| && ordered[i] == k;
        assert JudgedAt(lib, current, body, ordered, i);
      }
    }
  }

  /** Key k passes both its own validator and the cross-field check. */
  predicate Passes(lib: Lib, current: Values, body: Values, k: Name) {
    lib.valid(k, Val(body, k)) && CrossSeen(lib, current, body, k)
  }

  // ------------------------------------------- coherent before, coherent after

  /** An enabled protocol has a certificate pair that loads; a peer has a token. */
  ghost predicate Coherent(lib: Lib, m: Values) {
    && (Val(m, Dot) == "true" || Val(m, Doh) == "true" ==>
          Val(m, Cert) != "" && Val(m, Key) != "" && lib.loads(Val(m, Cert), Val(m, Key)))
    && (Val(m, Peer) != "" ==> Val(m, Token) != "")
  }

  /** What an accepted body must do with the certificate: a pair that is complete after it
      loads ... */
  ghost predicate PairRule(lib: Lib, current: Values, body: Values) {
    var m := current + body;
    (Cert in body || Key in body) && Val(m, Cert) != "" && Val(m, Key) != "" ==>
        lib.loads(Val(m, Cert), Val(m, Key))
  }

  /** ... and, because a certificate is judged before the key that comes with it, a new
      certificate loads with the key stored until now. */
  ghost predicate OldKeyRule(lib: Lib, current: Values, body: Values) {
    Cert in body && body[Cert] != "" && Val(current, Key) != "" ==> lib.loads(body[Cert], Val(current, Key))
  }

  lemma MergedReads(current: Values, body: Values, r: Name)
    ensures Val(current + body, r) == if r in body then body[r] else Val(current, r)
  {
  }

  ghost predicate ServeKeysPass(lib: Lib, current: Values, body: Values) {
    forall k | k in body && (k.Dot? || k.Doh? || k.Cert? || k.Key?) :: CrossSeen(lib, current, body, k)
  }

  ghost predicate SyncKeysPass(lib: Lib, current: Values, body: Values) {
    forall k | k in body && (k.Token? || k.Peer?) :: CrossSeen(lib, current, body, k)
  }

  /** From a coherent state, the peer and token keys pass exactly when a peer has a token
      afterwards. */
  lemma SyncKeysIff(lib: Lib, current: Values, body: Values)
    requires Coherent(lib, current)
    ensures SyncKeysPass(lib, current, body) <==> (Val(current + body, Peer) != "" ==> Val(current + body, Token) != "")
  {
    MergedReads(current, body, Peer);
    MergedReads(current, body, Token);
    if Token in body {
      assert CrossSeen(lib, current, body, Token) == (body[Token] != "" || Seen(current, body, Peer, Token) == "");
    }
    if Peer in body {
      assert CrossSeen(lib, current, body, Peer) == (body[Peer] == "" || Seen(current, body, Token, Peer) != "");
    }
  }

  lemma EnablePasses(lib: Lib, current: Values, body: Values, k: Name)
    requires k in body && (k.Dot? || k.Doh?)
    ensures CrossSeen(lib, current, body, k) ==
            (body[k] != "true" || ValidPair(lib, Val(current + body, Cert), Val(current + body, Key)))
  {
    MergedReads(current, body, Cert);
    MergedReads(current, body, Key);
  }

  /** A protocol that is on and is not being turned off by this body. */
  predicate StaysOn(current: Values, body: Values, k: Name) {
    Val(current, k) == "true" && (k in body ==> body[k] == "true")
  }

  lemma CertPasses(lib: Lib, current: Values, body: Values)
    requires Cert in body
    ensures CrossSeen(lib, current, body, Cert) ==
      if body[Cert] == "" || Val(current, Key) == "" then !StaysOn(current, body, Dot) && !StaysOn(current, body, Doh)
      else ValidPair(lib, body[Cert], Val(current, Key))
  {
  }

  lemma KeyPasses(lib: Lib, current: Values, body: Values)
    requires Key in body
    ensures CrossSeen(lib, current, body, Key) ==
      if Val(current + body, Cert) == "" || body[Key] == ""
      then !StaysOn(current, body, Dot) && !StaysOn(current, body, Doh)
      else ValidPair(lib, Val(current + body, Cert), body[Key])
  {
    MergedReads(current, body, Cert);
  }

  /** From a coherent state, the serving keys pass exactly when an enabled protocol has a
      loading pair afterwards and the two rules on the pair hold. */
  lemma ServeKeysIff(lib: Lib, current: Values, body: Values)
    requires Coherent(lib, current)
    ensures ServeKeysPass(lib, current, body) <==> (
      && (Val(current + body, Dot) == "true" || Val(current + body, Doh) == "true" ==>
            ValidPair(lib, Val(current + body, Cert), Val(current + body, Key)))
      && PairRule(lib, current, body) && OldKeyRule(lib, current, body))
  {
    hide CrossSeen;
    MergedReads(current, body, Dot);
    MergedReads(current, body, Doh);
    MergedReads(current, body, Cert);
    MergedReads(current, body, Key);
    if Dot in body { EnablePasses(lib, current, body, Dot); }
    if Doh in body { EnablePasses(lib, current, body, Doh); }
    if Cert in body { CertPasses(lib, current, body); }
    if Key in body { KeyPasses(lib, current, body); }
  }

  /** Sound and complete: from a coherent state, a body of individually valid values is
      accepted exactly when the result is coherent and the certificate rules hold; so every
      accepted write keeps the state coherent. */
  lemma AcceptedIff(lib: Lib, current: Values, body: Values, keys: seq<Name>)
    requires Coherent(lib, current) && forall k :: k in keys <==> k in body
    ensures Judged(lib, current, body, Ordered(keys, body, PHASES)) <==> (
      && (forall k | k in body :: lib.valid(k, body[k]))
      && Coherent(lib, current + body) && PairRule(lib, current, body) && OldKeyRule(lib, current, body))
  {
    JudgedIffSeen(lib, current, body, keys);
    SyncKeysIff(lib, current, body);
    ServeKeysIff(lib, current, body);
    PassesIff(lib, current, body);
    hide *;
  }

  lemma PassesIff(lib: Lib, current: Values, body: Values)
    ensures (forall k | k in body :: Passes(lib, current, body, k)) <==>
      ((forall k | k in body :: lib.valid(k, body[k])) && ServeKeysPass(lib, current, body)
          && SyncKeysPass(lib, current, body))
  {
    forall k | k in body && k.Other? ensures CrossSeen(lib, current, body, k) { }
    hide CrossSeen;
    if forall k | k in body :: Passes(lib, current, body, k) {
      forall k | k in body
        ensures lib.valid(k, body[k]) && CrossSeen(lib, current, body, k)
      {
        assert Passes(lib, current, body, k);
      }
    }
  }

  /** A body that sets up a valid pair where no key was stored passes, with the enables that
      depend on it. */
  lemma FirstPairPasses(lib: Lib, current: Values, body: Values, keys: seq<Name>)
    requires Coherent(lib, current) && (forall k :: k in keys <==> k in body)
             && forall k | k in body :: lib.valid(k, body[k])
    requires Val(current, Key) == "" && Cert in body && Key in body && ValidPair(lib, body[Cert], body[Key])
    requires Val(current + body, Peer) != "" ==> Val(current + body, Token) != ""
    ensures Judged(lib, current, body, Ordered(keys, body, PHASES))
  {
    MergedReads(current, body, Cert);
    MergedReads(current, body, Key);
    AcceptedIff(lib, current, body, keys);
  }

  /** Replacing one valid pair by another in one body is refused exactly when the new
      certificate does not also load with the old key. */
  lemma ReplacedPairRefusedIff(lib: Lib, current: Values, body: Values, keys: seq<Name>)
    requires Coherent(lib, current) && (forall k :: k in keys <==> k in body)
             && forall k | k in body :: lib.valid(k, body[k])
    requires body.Keys == {Cert, Key} && ValidPair(lib, body[Cert], body[Key]) && Val(current, Key) != ""
    ensures Judged(lib, current, body, Ordered(keys, body, PHASES)) <==> lib.loads(body[Cert], Val(current, Key))
  {
    MergedReads(current, body, Cert);
    MergedReads(current, body, Key);
    MergedReads(current, body, Peer);
    MergedReads(current, body, Token);
    AcceptedIff(lib, current, body, keys);
  }
}
