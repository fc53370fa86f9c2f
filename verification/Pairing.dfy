/** Pairing codes and replica secrets, on the main's side. */
module Pairing {
  import opened Wrappers

  const PAIRING_TTL := 600_000        // milliseconds
  const PAIRING_MAX_ATTEMPTS := 5

  /** sync.pairing: the live code, as normalised (its hash, taken as injective), when it
      expires, and the guesses recorded against it. */
  datatype Live = Live(code: string, expires: int, attempts: nat)

  datatype Event =
    | Minted(code: string, expires: int)
    | WrongGuess
    | Spent
    | Joined(id: string, secret: string, code: string, at: int)
    | Forgotten(id: string)

  /** Where a call meets a store that will not answer (or, before Clearing, a token source
      that will not); None for a store that does. */
  datatype Failure = Reading | Counting | Clearing | Saving

  // ------------------------------------------------- what the history says

  predicate Moves(e: Event) { e.Minted? || e.Spent? }

  /** Guesses recorded from event m up to event n. */
  function Guesses(h: seq<Event>, m: nat, n: nat): nat
    requires m <= n <= |h|
    decreases n
  {
    if m == n then 0 else Guesses(h, m, n - 1) + if h[n - 1].WrongGuess? then 1 else 0
  }

  /** Event m minted the code in force just before event n. */
  ghost predicate InForce(h: seq<Event>, m: nat, n: nat) {
    m < n <= |h| && h[m].Minted? && forall j | m < j < n :: !Moves(h[j])
  }

  /** The entry of id: the last time it was paired or forgotten. */
  function Current(h: seq<Event>, id: string): Option<string> {
    if h == [] then None
    else match h[|h| - 1]
      case Joined(i, s, _, _) => if i == id then Some(s) else Current(h[..|h| - 1], id)
      case Forgotten(i) => if i == id then None else Current(h[..|h| - 1], id)
      case _ => Current(h[..|h| - 1], id)
  }

  /** A pairing came from the code then in force, in time, with fewer than five guesses
      recorded against it, and spent it. */
  ghost predicate Honest(h: seq<Event>, k: nat)
    requires k < |h| && h[k].Joined?
  {
    k > 0 && h[k - 1].Spent? &&
    exists m: nat | m < k :: InForce(h, m, k - 1) && h[m].code == h[k].code && h[k].at <= h[m].expires
      && Guesses(h, m, k - 1) < PAIRING_MAX_ATTEMPTS
  }

  ghost predicate AllHonest(h: seq<Event>) {
    forall k: nat | k < |h| && h[k].Joined? :: Honest(h, k)
  }

  /** Codes and secrets are drawn fresh. */
  ghost predicate FreshDraws(h: seq<Event>) {
    && (forall i, j | 0 <= i < j < |h| && h[i].Minted? && h[j].Minted? :: h[i].code != h[j].code)
    && (forall i, j | 0 <= i < j < |h| && h[i].Joined? && h[j].Joined? :: h[i].secret != h[j].secret)
    && (forall i | 0 <= i < |h| && h[i].Joined? :: h[i].secret != "" && h[i].id != "")
  }

  ghost predicate LiveOk(live: Option<Live>, h: seq<Event>) {
    if live.Some? then exists m: nat :: InForce(h, m, |h|) && h[m].code == live.value.code
                         && h[m].expires == live.value.expires && Guesses(h, m, |h|) == live.value.attempts
    else forall m: nat :: !InForce(h, m, |h|)
  }

  ghost predicate EntriesOk(replicas: map<string, string>, h: seq<Event>) {
    forall id :: Current(h, id) == if id in replicas then Some(replicas[id]) else None
  }

  ghost predicate Matches(live: Option<Live>, replicas: map<string, string>, h: seq<Event>) {
    LiveOk(live, h) && EntriesOk(replicas, h) && AllHonest(h) && FreshDraws(h)
  }

  // --------------------------------------------------------- one event longer

  lemma {:induction false} GuessesLonger(h: seq<Event>, e: Event, m: nat, n: nat)
    requires m <= n <= |h|
    ensures Guesses(h + [e], m, n) == Guesses(h, m, n)
    decreases n
  {
    if m < n {
      GuessesLonger(h, e, m, n - 1);
      assert (h + [e])[n - 1] == h[n - 1];
    }
  }

  lemma InForceLonger(h: seq<Event>, e: Event, m: nat, n: nat)
    requires n <= |h|
    ensures InForce(h + [e], m, n) <==> InForce(h, m, n)
  {
    var more := h + [e];
    assert forall j | 0 <= j < |h| :: more[j] == h[j];
  }

  lemma InForceNext(h: seq<Event>, e: Event, m: nat)
    requires !e.Minted?
    ensures InForce(h + [e], m, |h| + 1) <==> InForce(h, m, |h|) && !e.Spent?
  {
    var more := h + [e];
    assert more[|h|] == e && forall j | 0 <= j < |h| :: more[j] == h[j];
  }

  lemma HonestLonger(h: seq<Event>, e: Event, k: nat)
    requires k < |h| && h[k].Joined? && Honest(h, k)
    ensures (h + [e])[k] == h[k] && Honest(h + [e], k)
  {
    var more := h + [e];
    assert forall j | 0 <= j < |h| :: more[j] == h[j];
    var m: nat :| m < k && InForce(h, m, k - 1) && h[m].code == h[k].code && h[k].at <= h[m].expires
                  && Guesses(h, m, k - 1) < PAIRING_MAX_ATTEMPTS;
    InForceLonger(h, e, m, k - 1);
    GuessesLonger(h, e, m, k - 1);
  }

  lemma HonestNext(h: seq<Event>, e: Event)
    requires AllHonest(h) && (e.Joined? ==> Honest(h + [e], |h|))
    ensures AllHonest(h + [e])
  {
    forall k: nat | k < |h + [e]| && (h + [e])[k].Joined? ensures Honest(h + [e], k) {
      if k < |h| {
        HonestLonger(h, e, k);
      }
    }
  }

  lemma CurrentNext(h: seq<Event>, e: Event, id: string)
    ensures Current(h + [e], id) ==
      if e.Joined? && e.id == id then Some(e.secret) else if e.Forgotten? && e.id == id then None else Current(h, id)
  {
    assert (h + [e])[..|h|] == h;
  }

  lemma FreshNext(h: seq<Event>, e: Event)
    requires FreshDraws(h)
    requires e.Minted? ==> forall i | 0 <= i < |h| && h[i].Minted? :: h[i].code != e.code
    requires e.Joined? ==>
             e.secret != "" && e.id != "" && forall i | 0 <= i < |h| && h[i].Joined? :: h[i].secret != e.secret
    ensures FreshDraws(h + [e])
  {
    var more := h + [e];
    assert more[|h|] == e && forall j | 0 <= j < |h| :: more[j] == h[j];
  }

  lemma MintNext(h: seq<Event>, code: string, expires: int)
    ensures LiveOk(Some(Live(code, expires, 0)), h + [Minted(code, expires)])
  {
    var more := h + [Minted(code, expires)];
    assert InForce(more, |h|, |more|) && Guesses(more, |h|, |more|) == 0 + Guesses(more, |h|, |h|);
  }

  lemma GuessNext(h: seq<Event>, live: Live)
    requires LiveOk(Some(live), h)
    ensures LiveOk(Some(live.(attempts := live.attempts + 1)), h + [WrongGuess])
  {
    var more := h + [WrongGuess];
    var m: nat :| InForce(h, m, |h|) && h[m].code == live.code && h[m].expires == live.expires
        && Guesses(h, m, |h|) == live.attempts;
    InForceNext(h, WrongGuess, m);
    GuessesLonger(h, WrongGuess, m, |h|);
    assert more[|h|] == WrongGuess && more[m] == h[m];
    assert Guesses(more, m, |more|) == Guesses(more, m, |h|) + 1;
  }

  lemma SpendNext(h: seq<Event>)
    ensures LiveOk(None, h + [Spent])
  {
    var more := h + [Spent];
    var n := |more|;
    forall m: nat ensures !InForce(more, m, n) { InForceNext(h, Spent, m); }
  }

  lemma StayNext(h: seq<Event>, live: Option<Live>, e: Event)
    requires LiveOk(live, h) && (e.Joined? || e.Forgotten?)
    ensures LiveOk(live, h + [e])
  {
    var more := h + [e];
    var n := |more|;
    forall m: nat ensures InForce(more, m, n) <==> InForce(h, m, |h|) { InForceNext(h, e, m); }
    if live.Some? {
      var m: nat :| InForce(h, m, |h|) && h[m].code == live.value.code && h[m].expires == live.value.expires
                    && Guesses(h, m, |h|) == live.value.attempts;
      GuessesLonger(h, e, m, |h|);
      assert (h + [e])[m] == h[m] && (h + [e])[|h|] == e;
      assert Guesses(h + [e], m, |h| + 1) == Guesses(h + [e], m, |h|);
    }
  }

  // ------------------------------------------------------------- the registry

  class Registry {
    var live: Option<Live>
    var replicas: map<string, string>      // instance id to the secret its hash stands for
    var lastSeen: map<string, int>
    const normalize: string -> string
    ghost var history: seq<Event>

    ghost predicate Valid()
      reads this
    {
      Matches(live, replicas, history)
    }

    constructor (normalize: string -> string)
      ensures Valid() && live.None? && replicas == map[] && history == []
    {
      live, replicas, lastSeen, history := None, map[], map[], [];
      this.normalize := normalize;
    }

    /** Note an event that leaves the entries alone. */
    ghost method Note(e: Event, before: Option<Live>)
      requires Matches(before, replicas, history) && LiveOk(live, history + [e])
               && (e.Minted? || e.WrongGuess? || e.Spent?)
      requires e.Minted? ==> forall i | 0 <= i < |history| && history[i].Minted? :: history[i].code != e.code
      modifies this`history
      ensures history == old(history) + [e] && Valid()
    {
      hide LiveOk, Honest;
      HonestNext(history, e);
      FreshNext(history, e);
      forall id ensures Current(history + [e], id) == Current(history, id) { CurrentNext(history, e, id); }
      history := history + [e];
    }

    /** NewPairingCode: one door open at a time. */
    method NewPairingCode(code: string, now: int, failed: Option<Failure>) returns (expires: Option<int>)
      requires Valid()
      requires forall i | 0 <= i < |history| && history[i].Minted? :: history[i].code != normalize(code)
      modifies this`live, this`history
      ensures Valid()
      ensures failed == Some(Saving) ==> expires.None? && live == old(live) && history == old(history)
      ensures failed != Some(Saving) ==>
        expires == Some(now + 600_000) && history == old(history) + [Minted(normalize(code), now + 600_000)]
    {
      if failed == Some(Saving) {
        return None;
      }
      ghost var was := live;
      live := Some(Live(normalize(code), now + PAIRING_TTL, 0));
      MintNext(history, normalize(code), now + PAIRING_TTL);
      Note(Minted(normalize(code), now + PAIRING_TTL), was);
      return Some(now + PAIRING_TTL);
    }

    /** Pair: a secret only for the code in force, in time, with guesses left; the code is
        spent before the entry is saved. */
    method Pair(code: string, id: string, drawn: string, now: int, failed: Option<Failure>)
        returns (secret: Option<string>)
      requires Valid()
      requires drawn != "" && forall i | 0 <= i < |history| && history[i].Joined? :: history[i].secret != drawn
      modifies this
      ensures Valid()
      ensures var open := id != "" && failed != Some(Reading) && old(live).Some? && old(live).value.attempts < 5
                          && now <= old(live).value.expires;
              var right := open && old(live).value.code == normalize(code);
              && (secret == if right && failed.None? then Some(drawn) else None)
              && history == old(history) +
                   (if open && !right && failed != Some(Counting) then [WrongGuess]
                    else if right && failed == Some(Saving) then [Spent]
                    else if right && failed.None? then [Spent, Joined(id, drawn, normalize(code), now)]
                    else [])
      ensures secret.Some? ==> replicas == old(replicas)[id := drawn] && lastSeen == old(lastSeen)[id := now]
      ensures secret.None? ==> replicas == old(replicas) && lastSeen == old(lastSeen)
    {
      if id == "" || failed == Some(Reading) {
        return None;
      }
      if live.None? || live.value.attempts >= PAIRING_MAX_ATTEMPTS || now > live.value.expires {
        return None;
      }
      ghost var was := live;
      if live.value.code != normalize(code) {
        if failed != Some(Counting) {
          GuessNext(history, live.value);
          live := Some(live.value.(attempts := live.value.attempts + 1));
          Note(WrongGuess, was);
        }
        return None;
      }
      if failed.Some? && failed.value != Saving {
        return None;
      }
      SpendNext(history);
      live := None;
      Note(Spent, was);
      if failed == Some(Saving) {
        return None;
      }
      JoinedHonestly(old(history), was.value, id, drawn, normalize(code), now);
      Join(id, drawn, normalize(code), now);
      lastSeen := lastSeen[id := now];
      return Some(drawn);
    }

    method Join(id: string, secret: string, code: string, now: int)
      requires Valid() && Honest(history + [Joined(id, secret, code, now)], |history|)
      requires secret != "" && id != ""
               && forall i | 0 <= i < |history| && history[i].Joined? :: history[i].secret != secret
      modifies this`replicas, this`history
      ensures Valid() && history == old(history) + [Joined(id, secret, code, now)]
      ensures replicas == old(replicas)[id := secret]
    {
      ghost var e := Joined(id, secret, code, now);
      HonestNext(history, e);
      FreshNext(history, e);
      StayNext(history, live, e);
      hide LiveOk, Honest;
      forall i { CurrentNext(history, e, i); }
      replicas := replicas[id := secret];
      history := history + [e];
    }

    method Forget(id: string, failed: Option<Failure>) returns (ok: bool)
      requires Valid()
      modifies this`replicas, this`lastSeen, this`history
      ensures Valid()
      ensures var gone := failed.None? && id in old(replicas);
              && replicas == (if gone then old(replicas) - {id} else old(replicas))
              && lastSeen == (if gone then old(lastSeen) - {id} else old(lastSeen))
      ensures ok <==> failed.None? || (failed != Some(Reading) && id !in old(replicas))
      ensures history == if failed.Some? || id !in old(replicas) then old(history) else old(history) + [Forgotten(id)]
    {
      if failed == Some(Reading) {
        return false;
      }
      if id !in replicas {
        return true;
      }
      if failed.Some? {
        return false;
      }
      ghost var e := Forgotten(id);
      HonestNext(history, e);
      FreshNext(history, e);
      StayNext(history, live, e);
      hide LiveOk, Honest;
      forall i { CurrentNext(history, e, i); }
      replicas := replicas - {id};
      lastSeen := lastSeen - {id};
      history := history + [e];
      return true;
    }

    /** Heartbeat dates an entry and keeps its secret. */
    method Heartbeat(id: string, now: int, failed: Option<Failure>) returns (ok: bool)
      requires Valid()
      modifies this`lastSeen
      ensures Valid() && ok == (failed.None? && id in replicas)
      ensures lastSeen == if ok then old(lastSeen)[id := now] else old(lastSeen)
    {
      if failed.Some? || id !in replicas {
        return false;
      }
      lastSeen := lastSeen[id := now];
      return true;
    }

    /** Authenticate: a secret names exactly the instance it was minted for, until that id
        is forgotten or paired again. */
    method Authenticate(secret: string) returns (r: Option<string>)
      requires Valid()
      ensures forall id :: r == Some(id) <==> Current(history, id) == Some(secret)
    {
      OnlyOneHolds(history, secret);
      hide LiveOk, AllHonest, FreshDraws;
      if secret == "" {
        return None;
      }
      var todo := replicas.Keys;
      while todo != {}
        invariant todo <= replicas.Keys && forall id | id in replicas && id !in todo :: replicas[id] != secret
      {
        var id :| id in todo;
        if replicas[id] == secret {
          return Some(id);
        }
        todo := todo - {id};
      }
      return None;
    }
  }

  lemma JoinedHonestly(h: seq<Event>, live: Live, id: string, secret: string, code: string, now: int)
    requires LiveOk(Some(live), h) && live.attempts < PAIRING_MAX_ATTEMPTS && now <= live.expires && live.code == code
    ensures Honest(h + [Spent] + [Joined(id, secret, code, now)], |h| + 1)
  {
    var m: nat :| InForce(h, m, |h|) && h[m].code == live.code && h[m].expires == live.expires
        && Guesses(h, m, |h|) == live.attempts;
    var spent, e := h + [Spent], Joined(id, secret, code, now);
    InForceLonger(h, Spent, m, |h|);
    InForceLonger(spent, e, m, |h|);
    GuessesLonger(h, Spent, m, |h|);
    GuessesLonger(spent, e, m, |h|);
    assert (spent + [e])[m] == h[m] && (spent + [e])[|h|] == Spent && (spent + [e])[|h| + 1] == e;
  }

  lemma {:induction false} CurrentJoined(h: seq<Event>, id: string) returns (k: nat)
    requires Current(h, id).Some?
    ensures k < |h| && h[k].Joined? && h[k].id == id && h[k].secret == Current(h, id).value
  {
    var last := h[|h| - 1];
    if last.Joined? && last.id == id {
      k := |h| - 1;
    } else {
      k := CurrentJoined(h[..|h| - 1], id);
    }
  }

  lemma OnlyOneHolds(h: seq<Event>, secret: string)
    requires FreshDraws(h)
    ensures forall a, b | Current(h, a) == Some(secret) && Current(h, b) == Some(secret) :: a == b
    ensures forall a | Current(h, a) == Some(secret) :: secret != ""
  {
    forall a, b | Current(h, a) == Some(secret) && Current(h, b) == Some(secret) ensures a == b && secret != "" {
      var i := CurrentJoined(h, a);
      var j := CurrentJoined(h, b);
      assert i == j;
    }
  }

  // ---------------------------------------------------- what every run has kept

  /** Each code yields at most one secret, whatever the store did in between. */
  lemma OneSecretPerCode(live: Option<Live>, replicas: map<string, string>, h: seq<Event>, i: nat, j: nat)
    requires Matches(live, replicas, h) && i < |h| && j < |h| && h[i].Joined? && h[j].Joined? && h[i].code == h[j].code
    ensures i == j
  {
    assert Honest(h, i) && Honest(h, j);
    var m: nat :| m < i && InForce(h, m, i - 1) && h[m].code == h[i].code;
    var n: nat :| n < j && InForce(h, n, j - 1) && h[n].code == h[j].code;
    assert m == n && Moves(h[i - 1]) && Moves(h[j - 1]);
  }

  /** Nothing pairs with a code after five recorded wrong guesses or its expiry. */
  lemma NothingAfterFiveGuesses(live: Option<Live>, replicas: map<string, string>, h: seq<Event>, m: nat, k: nat)
    requires Matches(live, replicas, h) && m < k < |h| && h[m].Minted? && h[k].Joined? && h[k].code == h[m].code
    ensures Guesses(h, m, k) < 5 && h[k].at <= h[m].expires
  {
    assert Honest(h, k);
    var n: nat :| n < k && InForce(h, n, k - 1) && h[n].code == h[k].code && h[k].at <= h[n].expires
                  && Guesses(h, n, k - 1) < PAIRING_MAX_ATTEMPTS;
    assert m == n;
    assert Guesses(h, m, k) == Guesses(h, m, k - 1);
  }
}
