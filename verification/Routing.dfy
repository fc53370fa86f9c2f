/** The forwarder's suffix routing table and the set of suffixes a new table
    changes. */
module Routing {
  import opened Wrappers
  import opened Names

  /** Suffix -> upstream addresses. A suffix with no upstreams still claims its names. */
  type Table = map<string, seq<string>>

  /** Which upstreams may answer a name. Order only decides who is tried first. */
  datatype Route = Default | Claimed(ups: multiset<string>)

  /** conditionalRoutes keys its table by stored zone names: lower-case, no
      trailing dot, never empty. */
  ghost predicate WellKeyed(t: Table) {
    forall s | s in t :: s != "" && Normalize(s) == s
  }

  /** Forwarder.pick: the most specific claimed suffix, else the defaults. */
  function RouteOf(t: Table, name: string): Route {
    match Walk(t.Keys, name)
    case None => Default
    case Some(s) => Claimed(multiset(t[s]))
  }

  /** A name goes to the upstreams of its longest claimed suffix, label by label, and to the
      defaults exactly when it is under none. */
  lemma RoutedByMostSpecific(t: Table, name: string) returns (s: Option<string>)
    ensures MostSpecific(t.Keys, name, s)
    ensures s.Some? ==> RouteOf(t, name) == Claimed(multiset(t[s.value]))
    ensures s.None? <==> RouteOf(t, name) == Default
  {
    WalkIsMostSpecific(t.Keys, name);
    s := Walk(t.Keys, name);
  }

  /** Two upstream lists that sort to the same list. */
  predicate SameUpstreams(a: seq<string>, b: seq<string>) {
    multiset(a) == multiset(b)
  }

  predicate Differs(prev: Table, next: Table, s: string) {
    || (s in next && (s !in prev || !SameUpstreams(prev[s], next[s])))
    || (s in prev && s !in next)
  }

  /** The suffixes whose routing differs between the two tables. */
  function Changed(prev: Table, next: Table): set<string> {
    set s | s in prev.Keys + next.Keys && Differs(prev, next, s)
  }

  /** changedSuffixes: one pass over the new table, one over the old. */
  method ChangedSuffixes(prev: Table, next: Table) returns (out: seq<string>)
    ensures forall s :: s in out <==> s in Changed(prev, next)
    ensures forall s :: s in out <==>
              || (s in prev && s !in next) || (s !in prev && s in next)
              || (s in prev && s in next && multiset(prev[s]) != multiset(next[s]))
    ensures forall i, j | 0 <= i < j < |out| :: out[i] != out[j]
  {
    out := [];
    var left := next.Keys;
    while left != {}
      invariant left <= next.Keys
      invariant forall s :: s in out <==> s in next && s !in left && Differs(prev, next, s)
      invariant forall i, j | 0 <= i < j < |out| :: out[i] != out[j]
      decreases |left|
    {
      var suffix :| suffix in left;
      left := left - {suffix};
      if suffix !in prev || !SameUpstreams(prev[suffix], next[suffix]) {
        out := out + [suffix];
      }
    }
    left := prev.Keys;
    while left != {}
      invariant left <= prev.Keys
      invariant forall s :: s in out <==> (s in next || (s in prev && s !in left)) && Differs(prev, next, s)
      invariant forall i, j | 0 <= i < j < |out| :: out[i] != out[j]
      decreases |left|
    {
      var suffix :| suffix in left;
      left := left - {suffix};
      if suffix !in next {
        out := out + [suffix];
      }
    }
  }

  /** A name under none of the changed suffixes is routed by both tables alike.
      `name` may be anything that does not start with an empty label. */
  lemma {:induction false} RouteUnaffected(prev: Table, next: Table, name: string)
    requires name == "" || name[0] != '.'
    requires forall s | s in Changed(prev, next) :: !UnderSuffix(name, s)
    ensures RouteOf(prev, name) == RouteOf(next, name)
  {
    forall s | Ancestor(s, name) ensures !Differs(prev, next, s) {
      UnderIsAncestry(name, s);
      assert s !in Changed(prev, next);
    }
    WalkAgrees(prev, next, name);
  }

  lemma {:induction false} WalkAgrees(prev: Table, next: Table, q: string)
    requires forall s | Ancestor(s, q) :: !Differs(prev, next, s)
    ensures RouteOf(prev, q) == RouteOf(next, q)
    decreases |q|
  {
    AncestorStep(q, q);
    assert !Differs(prev, next, q);
    if q !in prev && FirstDot(q) < |q| {
      var rest := q[FirstDot(q) + 1..];
      forall s | Ancestor(s, rest) ensures !Differs(prev, next, s) { AncestorStep(s, q); }
      WalkAgrees(prev, next, rest);
    }
  }
}
