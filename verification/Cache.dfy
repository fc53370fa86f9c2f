/** The answer cache: a map beside a recency list, bounded, with an epoch that
    counts purges. */
module Cache {
  import opened Wrappers
  import opened Names

  datatype Key = Key(name: string, qtype: int)

  datatype Entry<+A> = Entry(answer: A, storedAt: int, ttl: int)

  /** What a lookup finds: nothing, a live entry, or one past its TTL but still
      inside the serve-stale allowance. */
  datatype Found<+A> = Miss | Fresh(entry: Entry<A>) | Stale(entry: Entry<A>)

  /** list.Remove: the list without its (only) occurrence of k. */
  function Without(lru: seq<Key>, k: Key): (r: seq<Key>)
    ensures |r| <= |lru| <= |r| + 1
    ensures k in lru ==> |r| + 1 == |lru|
    ensures k !in lru ==> r == lru
    ensures forall x | x in r :: x in lru
    ensures forall x | x in lru && x != k :: x in r
  {
    if lru == [] then []
    else if lru[0] == k then lru[1..]
    else [lru[0]] + Without(lru[1..], k)
  }

  /** Most recently touched first. */
  ghost predicate ByRecency(lru: seq<Key>, touched: map<Key, nat>) {
    && (forall k | k in lru :: k in touched)
    && forall i, j | 0 <= i < j < |lru| :: touched[lru[i]] > touched[lru[j]]
  }

  /** The recency list holds exactly the live keys, in the order of last touch. */
  ghost predicate InStep(live: set<Key>, lru: seq<Key>, touched: map<Key, nat>, clock: nat) {
    && touched.Keys == live
    && (forall k :: k in lru <==> k in live)
    && (forall k | k in touched :: touched[k] < clock)
    && ByRecency(lru, touched)
  }

  lemma TailByRecency(lru: seq<Key>, touched: map<Key, nat>)
    requires ByRecency(lru, touched) && lru != []
    ensures ByRecency(lru[1..], touched)
    ensures forall x | x in lru[1..] :: touched[x] < touched[lru[0]]
  {
    assert forall i | 0 <= i < |lru[1..]| :: lru[1..][i] == lru[i + 1];
  }

  lemma ConsByRecency(head: Key, rest: seq<Key>, touched: map<Key, nat>)
    requires ByRecency(rest, touched) && head in touched
    requires forall x | x in rest :: touched[x] < touched[head]
    ensures ByRecency([head] + rest, touched)
  {
    var lru := [head] + rest;
    forall i, j | 0 <= i < j < |lru| ensures touched[lru[i]] > touched[lru[j]] {
      assert lru[j] == rest[j - 1] && rest[j - 1] in rest;
    }
  }

  lemma {:induction false} WithoutKeepsRecency(lru: seq<Key>, k: Key, touched: map<Key, nat>)
    requires ByRecency(lru, touched)
    ensures ByRecency(Without(lru, k), touched) && k !in Without(lru, k)
  {
    if lru != [] {
      TailByRecency(lru, touched);
      if lru[0] != k {
        WithoutKeepsRecency(lru[1..], k, touched);
        ConsByRecency(lru[0], Without(lru[1..], k), touched);
      }
    }
  }

  lemma RemoveInStep(live: set<Key>, lru: seq<Key>, touched: map<Key, nat>, clock: nat, k: Key)
    requires InStep(live, lru, touched, clock)
    ensures InStep(live - {k}, Without(lru, k), touched - {k}, clock)
  {
    hide ByRecency;
    WithoutKeepsRecency(lru, k, touched);
    ShrinkRecency(Without(lru, k), touched, k);
    assert forall x :: x in Without(lru, k) <==> x in lru && x != k;
  }

  lemma ShrinkRecency(lru: seq<Key>, touched: map<Key, nat>, k: Key)
    requires ByRecency(lru, touched) && k !in lru
    ensures ByRecency(lru, touched - {k})
  {
  }

  lemma AbsentStays(live: set<Key>, lru: seq<Key>, touched: map<Key, nat>, clock: nat, k: Key)
    requires InStep(live, lru, touched, clock) && k !in live
    ensures Without(lru, k) == lru && touched - {k} == touched
  {
    hide ByRecency;
  }

  lemma ConsInStep(live: set<Key>, rest: seq<Key>, touched: map<Key, nat>, clock: nat, k: Key)
    requires InStep(live, rest, touched, clock) && k !in live
    ensures InStep(live + {k}, [k] + rest, touched[k := clock], clock + 1)
  {
    var stamps, lru := touched[k := clock], [k] + rest;
    assert ByRecency(lru, stamps) by {
      assert forall i | 0 <= i < |rest| :: rest[i] in rest && stamps[rest[i]] == touched[rest[i]];
      assert forall i | 0 < i < |lru| :: lru[i] == rest[i - 1];
    }
  }

  lemma PushInStep(live: set<Key>, lru: seq<Key>, touched: map<Key, nat>, clock: nat, k: Key)
    requires InStep(live, lru, touched, clock)
    ensures InStep(live + {k}, [k] + Without(lru, k), touched[k := clock], clock + 1)
  {
    hide InStep;
    RemoveInStep(live, lru, touched, clock, k);
    ConsInStep(live - {k}, Without(lru, k), touched - {k}, clock, k);
    UpdateRemoved(touched, k, clock);
    assert live - {k} + {k} == live + {k};
  }

  /** No key is listed twice: the list is as long as the map is big. */
  lemma {:induction false} InStepLength(live: set<Key>, lru: seq<Key>, touched: map<Key, nat>, clock: nat)
    requires InStep(live, lru, touched, clock)
    ensures |lru| == |live|
    decreases |lru|
  {
    if lru == [] {
      assert live == {};
    } else {
      RemoveInStep(live, lru, touched, clock, lru[0]);
      InStepLength(live - {lru[0]}, Without(lru, lru[0]), touched - {lru[0]}, clock);
    }
  }

  /** The back of the list is the key touched longest ago. */
  lemma BackIsOldest(live: set<Key>, lru: seq<Key>, touched: map<Key, nat>, clock: nat)
    requires InStep(live, lru, touched, clock) && live != {}
    ensures lru != []
    ensures var back := lru[|lru| - 1];
            back in live && forall a | a in live && a != back :: touched[a] > touched[back]
  {
    var x :| x in live;
    assert x in lru;
  }

  /** `kept` is what a bound of `max` leaves of the keys `all`: as many as fit, and
      every one of them touched after every key that was dropped. */
  ghost predicate MostRecent(all: set<Key>, kept: set<Key>, max: nat, touched: map<Key, nat>) {
    && all <= touched.Keys
    && kept <= all
    && |kept| == (if |all| <= max then |all| else max)
    && forall a, d | a in kept && d in all - kept :: touched[a] > touched[d]
  }

  ghost predicate Part<V>(part: map<Key, V>, whole: map<Key, V>) {
    forall k | k in part :: k in whole && part[k] == whole[k]
  }

  /** A cache cut down from `all` to `max` entries, the most recent ones, untouched. */
  ghost predicate MadeRoom<A>(all: map<Key, Entry<A>>, stamps: map<Key, nat>,
                              entries: map<Key, Entry<A>>, touched: map<Key, nat>, max: nat) {
    && MostRecent(all.Keys, entries.Keys, max, stamps)
    && Part(entries, all)
    && Part(touched, stamps)
  }

  /** Halfway through an eviction: what is gone is older than what is left. */
  ghost predicate Evicting(all: set<Key>, kept: set<Key>, max: nat, stamps: map<Key, nat>) {
    && all <= stamps.Keys
    && kept <= all
    && (kept == all || |kept| >= max)
    && forall a, d | a in kept && d in all - kept :: stamps[a] > stamps[d]
  }

  lemma NothingEvicted(all: set<Key>, max: nat, stamps: map<Key, nat>)
    requires all <= stamps.Keys
    ensures Evicting(all, all, max, stamps)
  {
  }

  lemma EvictOne(all: set<Key>, kept: set<Key>, max: nat, stamps: map<Key, nat>, back: Key)
    requires Evicting(all, kept, max, stamps) && |kept| > max
    requires back in kept && forall a | a in kept && a != back :: stamps[a] > stamps[back]
    ensures Evicting(all, kept - {back}, max, stamps) && |kept - {back}| == |kept| - 1
  {
  }

  lemma EvictDone(all: set<Key>, kept: set<Key>, max: nat, stamps: map<Key, nat>)
    requires Evicting(all, kept, max, stamps) && |kept| <= max
    ensures MostRecent(all, kept, max, stamps)
  {
    if kept != all {
      Smaller(kept, all);
    }
  }

  lemma UpdateRemoved<V>(m: map<Key, V>, k: Key, v: V)
    ensures (m - {k})[k := v] == m[k := v]
  {
  }

  lemma UpdateThenRemove<V>(m: map<Key, V>, k: Key, v: V)
    ensures m[k := v] - {k} == m - {k}
  {
  }

  lemma Smaller(a: set<Key>, b: set<Key>)
    requires a < b
    ensures |a| < |b|
  {
    assert b == a + (b - a);
    assert b - a != {};
  }

  lemma OldestIsNotNewest(live: set<Key>, stamps: map<Key, nat>, back: Key, newest: Key)
    requires live <= stamps.Keys && |live| > 1 && back in live && newest in live
    requires forall a | a in live && a != back :: stamps[a] > stamps[back]
    requires forall a | a in live && a != newest :: stamps[a] < stamps[newest]
    ensures back != newest
  {
    if live == {back} {
    } else {
      var x :| x in live && x != back;
    }
  }

  /** touched[k] is the position of k's last occurrence in `touches`. */
  ghost predicate LastTouches(touches: seq<Key>, touched: map<Key, nat>) {
    forall k | k in touched ::
      && touched[k] < |touches| && touches[touched[k]] == k
      && forall j | touched[k] < j < |touches| :: touches[j] != k
  }

  /** The plain recency sequence: the live keys in the order they are met reading the
      touches backwards. */
  ghost function Recency(touches: seq<Key>, live: set<Key>): seq<Key> {
    if touches == [] then []
    else
      var n := |touches| - 1;
      if touches[n] in live then [touches[n]] + Recency(touches[..n], live - {touches[n]})
          else Recency(touches[..n], live)
  }

  lemma NewestIsFront(live: set<Key>, lru: seq<Key>, touched: map<Key, nat>, touches: seq<Key>)
    requires InStep(live, lru, touched, |touches|) && LastTouches(touches, touched)
    requires touches != [] && touches[|touches| - 1] in live
    ensures lru != [] && lru[0] == touches[|touches| - 1] && touched[lru[0]] == |touches| - 1
  {
    var k := touches[|touches| - 1];
    assert touched[k] == |touches| - 1;
    var i :| 0 <= i < |lru| && lru[i] == k;
    assert lru[0] in lru;
  }

  /** Reading one touch backwards: its key goes, the rest are as before. */
  lemma ReadBack(live: set<Key>, lru: seq<Key>, touched: map<Key, nat>, touches: seq<Key>)
    requires InStep(live, lru, touched, |touches|) && LastTouches(touches, touched)
    requires touches != [] && touches[|touches| - 1] in live
    ensures lru != [] && lru[0] == touches[|touches| - 1]
    ensures InStep(live - {lru[0]}, lru[1..], touched - {lru[0]}, |touches| - 1)
    ensures LastTouches(touches[..|touches| - 1], touched - {lru[0]})
  {
    NewestIsFront(live, lru, touched, touches);
    RemoveInStep(live, lru, touched, |touches|, lru[0]);
    TailByRecency(lru, touched);
    assert Without(lru, lru[0]) == lru[1..];
    assert InStep(live - {lru[0]}, lru[1..], touched - {lru[0]}, |touches|);
    hide ByRecency;
    assert forall x | x in touched - {lru[0]} :: x in lru[1..];
  }

  lemma ReadPast(live: set<Key>, lru: seq<Key>, touched: map<Key, nat>, touches: seq<Key>)
    requires InStep(live, lru, touched, |touches|) && LastTouches(touches, touched)
    requires touches != [] && touches[|touches| - 1] !in live
    ensures InStep(live, lru, touched, |touches| - 1) && LastTouches(touches[..|touches| - 1], touched)
  {
    hide ByRecency;
  }

  lemma HeadListed(lru: seq<Key>)
    ensures lru != [] ==> lru[0] in lru
  {
  }

  lemma NothingTouched(live: set<Key>, lru: seq<Key>, touched: map<Key, nat>)
    requires InStep(live, lru, touched, 0)
    ensures lru == []
  {
    HeadListed(lru);
  }

  /** On every run the list is the plain recency sequence of what was found and stored,
      whatever was removed, evicted or purged meanwhile. */
  lemma {:induction false} ListIsRecency(live: set<Key>, lru: seq<Key>, touched: map<Key, nat>, touches: seq<Key>)
    requires InStep(live, lru, touched, |touches|) && LastTouches(touches, touched)
    ensures lru == Recency(touches, live)
    decreases |touches|
  {
    hide InStep, LastTouches;
    if touches == [] {
      NothingTouched(live, lru, touched);
    } else {
      var n := |touches| - 1;
      if touches[n] in live {
        ReadBack(live, lru, touched, touches);
        ListIsRecency(live - {lru[0]}, lru[1..], touched - {lru[0]}, touches[..n]);
        assert lru == [lru[0]] + lru[1..];
      } else {
        ReadPast(live, lru, touched, touches);
        ListIsRecency(live, lru, touched, touches[..n]);
      }
    }
  }

  lemma StampsOfLive(live: set<Key>, lru: seq<Key>, touched: map<Key, nat>, clock: nat)
    requires InStep(live, lru, touched, clock)
    ensures touched.Keys == live
  {
  }

  lemma TouchStamps(touches: seq<Key>, touched: map<Key, nat>, k: Key)
    requires LastTouches(touches, touched)
    ensures LastTouches(touches + [k], touched[k := |touches|])
  {
  }

  class Cache<A> {
    var entries: map<Key, Entry<A>>
    var lru: seq<Key>  // front = most recently touched
    var epoch: nat
    const serveStaleFor: int
    const maxEntries: nat
    // The reference: every key stored or found, in order, and where each live key
    // occurs there last.
    ghost var touches: seq<Key>
    ghost var touched: map<Key, nat>

    ghost predicate Valid()
      reads this
    {
      InStep(entries.Keys, lru, touched, |touches|) && LastTouches(touches, touched)
    }

    constructor (max: nat, stale: int)
      ensures Valid() && entries == map[] && epoch == 0 && touches == []
      ensures maxEntries == (if max == 0 then 10000 else max)
      ensures serveStaleFor == (if stale == 0 then 86400 else stale)
    {
      entries, lru, epoch, touched, touches := map[], [], 0, map[], [];
      maxEntries := if max == 0 then 10000 else max;
      serveStaleFor := if stale == 0 then 86400 else stale;
    }

    method RemoveLocked(k: Key)
      requires Valid()
      modifies this`entries, this`lru, this`touched
      ensures Valid()
      ensures entries == old(entries) - {k} && touched == old(touched) - {k}
      ensures entries.Keys == old(entries.Keys) - {k}
      ensures lru == Without(old(lru), k)
    {
      hide InStep;
      RemoveInStep(entries.Keys, lru, touched, |touches|, k);
      assert (entries - {k}).Keys == entries.Keys - {k};
      if k !in entries {
        AbsentStays(entries.Keys, lru, touched, |touches|, k);
      } else {
        lru := Without(lru, k);
        entries := entries - {k};
        touched := touched - {k};
      }
    }

    /** get: a hit is touched, whether or not it is still fresh; an entry past the
        stale allowance is dropped. */
    method Get(k: Key, now: int) returns (r: Found<A>)
      requires Valid()
      modifies this
      ensures Valid() && epoch == old(epoch)
      ensures touches == old(touches) + (if k in old(entries) then [k] else [])
      ensures k !in old(entries) ==> r == Miss && entries == old(entries) && touched == old(touched)
      ensures k in old(entries) ==>
        var e := old(entries)[k];
        var age := now - e.storedAt;
        && r == (if age < e.ttl then Fresh(e) else if age < e.ttl + serveStaleFor then Stale(e) else Miss)
        && entries == (if r.Miss? then old(entries) - {k} else old(entries))
        && touched == (if r.Miss? then old(touched) - {k} else old(touched)[k := old(|touches|)])
    {
      hide InStep;
      if k !in entries {
        return Miss;
      }
      UpdateThenRemove(touched, k, |touches|);
      var e := entries[k];
      var age := now - e.storedAt;
      MoveToFront(k);
      if age < e.ttl {
        return Fresh(e);
      }
      if age < e.ttl + serveStaleFor {
        return Stale(e);
      }
      RemoveLocked(k);
      return Miss;
    }

    method MoveToFront(k: Key)
      requires Valid() && k in entries
      modifies this`lru, this`touched, this`touches
      ensures Valid() && touched == old(touched)[k := old(|touches|)] && touches == old(touches) + [k]
      ensures lru == [k] + Without(old(lru), k)
    {
      hide InStep, LastTouches;
      PushInStep(entries.Keys, lru, touched, |touches|, k);
      assert entries.Keys + {k} == entries.Keys;
      lru := [k] + Without(lru, k);
      TouchStamps(touches, touched, k);
      touched := touched[k := |touches|];
      touches := touches + [k];
    }

    method PushFront(k: Key, e: Entry<A>)
      requires Valid() && k !in entries
      modifies this`entries, this`lru, this`touched, this`touches
      ensures Valid() && touched == old(touched)[k := old(|touches|)] && touches == old(touches) + [k]
      ensures entries == old(entries)[k := e] && lru == [k] + old(lru)
    {
      hide InStep, LastTouches;
      PushInStep(entries.Keys, lru, touched, |touches|, k);
      AbsentStays(entries.Keys, lru, touched, |touches|, k);
      assert entries[k := e].Keys == entries.Keys + {k};
      lru := [k] + lru;
      entries := entries[k := e];
      TouchStamps(touches, touched, k);
      touched := touched[k := |touches|];
      touches := touches + [k];
    }

    /** put: refused once a purge has happened since `since`; otherwise stored as
        the most recent entry, and the least recently touched make room. */
    method Put(k: Key, answer: A, ttl: int, since: nat, now: int)
      requires Valid() && maxEntries > 0
      modifies this
      ensures Valid() && epoch == old(epoch)
      ensures touches == old(touches) + (if epoch == since then [k] else [])
      ensures epoch != since ==> entries == old(entries) && touched == old(touched) && lru == old(lru)
      ensures epoch == since ==>
        MadeRoom(old(entries)[k := Entry(answer, now, ttl)], old(touched)[k := old(|touches|)], entries, touched,
            maxEntries)
        && k in entries
    {
      hide InStep, LastTouches, MadeRoom;
      if epoch == since {
        Replace(k, Entry(answer, now, ttl));
        Evict(k);
      }
    }

    method Replace(k: Key, e: Entry<A>)
      requires Valid()
      modifies this`entries, this`lru, this`touched, this`touches
      ensures Valid()
      ensures entries == old(entries)[k := e] && touched == old(touched)[k := old(|touches|)]
              && touches == old(touches) + [k]
      ensures forall x | x in touched && x != k :: touched[x] < touched[k]
    {
      UpdateRemoved(entries, k, e);
      UpdateRemoved(touched, k, |touches|);
      RemoveLocked(k);
      PushFront(k, e);
    }

    /** put's last loop: drop the back of the list until the map fits. */
    method Evict(ghost newest: Key)
      requires Valid() && maxEntries > 0 && newest in entries
      requires forall x | x in touched && x != newest :: touched[x] < touched[newest]
      modifies this`entries, this`lru, this`touched
      ensures Valid() && newest in entries
      ensures MadeRoom(old(entries), old(touched), entries, touched, maxEntries)
    {
      hide InStep, LastTouches, Evicting, MostRecent;
      StampsOfLive(entries.Keys, lru, touched, |touches|);
      ghost var all, stamps := entries, touched;
      NothingEvicted(all.Keys, maxEntries, stamps);
      while |entries.Keys| > maxEntries
        invariant Valid() && newest in entries && newest in touched
        invariant forall x | x in touched && x != newest :: touched[x] < touched[newest]
        invariant Part(entries, all) && Part(touched, stamps)
        invariant Evicting(all.Keys, entries.Keys, maxEntries, stamps)
        decreases |entries.Keys|
      {
        ghost var kept := entries.Keys;
        StampsOfLive(kept, lru, touched, |touches|);
        var back := DropBack(newest);
        EvictOne(all.Keys, kept, maxEntries, stamps, back);
      }
      EvictDone(all.Keys, entries.Keys, maxEntries, stamps);
    }

    method DropBack(ghost newest: Key) returns (back: Key)
      requires Valid() && |entries.Keys| > 1 && newest in entries
      requires forall x | x in touched && x != newest :: touched[x] < touched[newest]
      modifies this`entries, this`lru, this`touched
      ensures Valid() && back in old(entries) && back != newest
      ensures entries == old(entries) - {back} && touched == old(touched) - {back}
      ensures entries.Keys == old(entries.Keys) - {back}
      ensures forall a | a in old(entries) && a != back :: old(touched)[a] > old(touched)[back]
    {
      hide InStep, LastTouches;
      StampsOfLive(entries.Keys, lru, touched, |touches|);
      BackIsOldest(entries.Keys, lru, touched, |touches|);
      back := lru[|lru| - 1];
      OldestIsNotNewest(entries.Keys, touched, back, newest);
      RemoveLocked(back);
    }

    /** Purge: every entry at or under one of the suffixes goes, and every lookup
        in flight is told by the epoch. No usable suffix, no epoch. */
    method Purge(suffixes: seq<string>) returns (n: nat)
      requires Valid()
      modifies this
      ensures Valid()
      ensures var norm := NormalizedSuffixes(suffixes);
        && epoch == (if norm == [] then old(epoch) else old(epoch) + 1)
        && (forall k :: k in entries <==> k in old(entries) && !UnderAny(k.name, norm))
        && (forall k | k in entries :: entries[k] == old(entries)[k])
        && touches == old(touches) && touched == (map k | k in entries && k in old(touched) :: old(touched)[k])
        && n == |old(entries)| - |entries|
    {
      hide InStep, LastTouches, UnderAny, PurgeLeft;
      StampsOfLive(entries.Keys, lru, touched, |touches|);
      var norm := Normalized(suffixes);
      NothingPurged(entries, touched, norm);
      if norm == [] {
        PurgeDone(old(entries), old(touched), entries, touched, norm);
        return 0;
      }
      epoch := epoch + 1;
      n := 0;
      var left := entries.Keys;
      while left != {}
        invariant Valid() && left <= entries.Keys && epoch == old(epoch) + 1 && touches == old(touches)
        invariant PurgeLeft(old(entries), old(touched), entries, touched, left, norm)
        invariant n == |old(entries)| - |entries|
        decreases |left|
      {
        var k :| k in left;
        PurgeOne(old(entries), old(touched), entries, touched, left, norm, k);
        left := left - {k};
        var under := NameUnder(k.name, norm);
        UnderAnyOf(k.name, norm);
        if under {
          RemoveLocked(k);
          n := n + 1;
        }
      }
      PurgeDone(old(entries), old(touched), entries, touched, norm);
    }
  }

  /** Halfway through a purge: the keys of `left` are still to be looked at. */
  ghost predicate PurgeLeft<A>(before: map<Key, Entry<A>>, stamps: map<Key, nat>, entries: map<Key, Entry<A>>,
                               touched: map<Key, nat>, left: set<Key>, norm: seq<string>) {
    && entries == (map k | k in before && (k in left || !UnderAny(k.name, norm)) :: before[k])
    && touched == (map k | k in stamps && (k in left || !UnderAny(k.name, norm)) :: stamps[k])
  }

  lemma NothingPurged<A>(entries: map<Key, Entry<A>>, touched: map<Key, nat>, norm: seq<string>)
    requires touched.Keys == entries.Keys
    ensures PurgeLeft(entries, touched, entries, touched, entries.Keys, norm)
    ensures norm == [] ==> PurgeLeft(entries, touched, entries, touched, {}, norm)
  {
  }

  lemma PurgeOne<A>(before: map<Key, Entry<A>>, stamps: map<Key, nat>, entries: map<Key, Entry<A>>,
                    touched: map<Key, nat>, left: set<Key>, norm: seq<string>, k: Key)
    requires PurgeLeft(before, stamps, entries, touched, left, norm) && k in left
    ensures if UnderAny(k.name, norm) then PurgeLeft(before, stamps, entries - {k}, touched - {k}, left - {k}, norm)
            else PurgeLeft(before, stamps, entries, touched, left - {k}, norm)
  {
    hide UnderAny;
  }

  lemma PurgeDone<A>(before: map<Key, Entry<A>>, stamps: map<Key, nat>, entries: map<Key, Entry<A>>,
                     touched: map<Key, nat>, norm: seq<string>)
    requires PurgeLeft(before, stamps, entries, touched, {}, norm) && stamps.Keys == before.Keys
    ensures forall k :: k in entries <==> k in before && !UnderAny(k.name, norm)
    ensures forall k | k in entries :: entries[k] == before[k]
    ensures touched == map k | k in entries && k in stamps :: stamps[k]
  {
    hide UnderAny;
  }

  lemma UnderAnyOf(name: string, norm: seq<string>)
    ensures UnderAny(name, norm) <==> exists i | 0 <= i < |norm| :: UnderSuffix(name, norm[i])
  {
  }

  ghost predicate UnderAny(name: string, suffixes: seq<string>) {
    exists i | 0 <= i < |suffixes| :: UnderSuffix(name, suffixes[i])
  }

  ghost function NormalizedSuffixes(suffixes: seq<string>): seq<string> {
    if suffixes == [] then []
    else
      var rest := NormalizedSuffixes(suffixes[..|suffixes| - 1]);
      var s := Normalize(suffixes[|suffixes| - 1]);
      if s == "" then rest else rest + [s]
  }

  /** The suffixes a purge goes by: each one asked for, normalised, unless nothing is left. */
  lemma {:induction false} SuffixesRead(suffixes: seq<string>, s: string)
    ensures s in NormalizedSuffixes(suffixes) <==>
            s != "" && exists k | 0 <= k < |suffixes| :: Normalize(suffixes[k]) == s
  {
    if suffixes != [] {
      SuffixesRead(suffixes[..|suffixes| - 1], s);
    }
  }

  method Normalized(suffixes: seq<string>) returns (norm: seq<string>)
    ensures norm == NormalizedSuffixes(suffixes)
  {
    norm := [];
    for i := 0 to |suffixes|
      invariant norm == NormalizedSuffixes(suffixes[..i])
    {
      assert suffixes[..i + 1][..i] == suffixes[..i];
      var s := Normalize(suffixes[i]);
      if s != "" {
        norm := norm + [s];
      }
    }
    assert suffixes[..|suffixes|] == suffixes;
  }
}
