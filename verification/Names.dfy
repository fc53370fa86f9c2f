/** Domain names as dotted text, and the three suffix walks that three packages
    share: the cache's byte test, the domain set's outward walk and the reverse
    zone search. All three are tied to one relation, label-wise ancestry. */
module Names {
  import opened Wrappers

  /** Index of the first '.' of `s`, or |s| when it has none (IndexByte's -1). */
  function FirstDot(s: string): (i: nat)
    ensures i <= |s|
    ensures i < |s| ==> s[i] == '.'
    ensures forall k | 0 <= k < i :: s[k] != '.'
  {
    if s == "" then 0
    else if s[0] == '.' then 0
    else 1 + FirstDot(s[1..])
  }

  /** The labels of a dotted name, left to right; "" is one empty label. */
  function Split(s: string): (labels: seq<string>)
    ensures |labels| > 0
    decreases |s|
  {
    var i := FirstDot(s);
    if i == |s| then [s] else [s[..i]] + Split(s[i + 1..])
  }

  function Join(labels: seq<string>): string {
    if |labels| == 0 then ""
    else if |labels| == 1 then labels[0]
    else labels[0] + "." + Join(labels[1..])
  }

  lemma {:induction false} JoinCons(a: string, rest: seq<string>)
    requires |rest| > 0
    ensures Join([a] + rest) == a + "." + Join(rest)
  {
    assert ([a] + rest)[1..] == rest;
  }

  lemma {:induction false} CutAt(s: string, i: nat)
    requires i < |s| && s[i] == '.'
    ensures s[..i] + "." + s[i + 1..] == s
  {
  }

  lemma {:induction false} JoinSplit(s: string)
    ensures Join(Split(s)) == s
    decreases |s|
  {
    var i := FirstDot(s);
    if i < |s| {
      var rest := Split(s[i + 1..]);
      JoinSplit(s[i + 1..]);
      JoinCons(s[..i], rest);
      CutAt(s, i);
      hide *;
    }
  }

  lemma {:induction false} FirstDotPrefix(a: string, b: string)
    requires '.' !in a
    ensures FirstDot(a + "." + b) == |a|
  {
    var s := a + "." + b;
    assert s[|a|] == '.';
    assert forall k | 0 <= k < |a| :: s[k] == a[k] && a[k] in a;
  }

  lemma {:induction false} SplitNoDots(s: string, k: nat)
    requires k < |Split(s)|
    ensures '.' !in Split(s)[k]
    decreases |s|
  {
    var i := FirstDot(s);
    if i < |s| && k > 0 {
      SplitNoDots(s[i + 1..], k - 1);
    }
  }

  lemma {:induction false} SplitJoin(labels: seq<string>)
    requires |labels| > 0
    requires forall k | 0 <= k < |labels| :: '.' !in labels[k]
    ensures Split(Join(labels)) == labels
  {
    var rest := Join(labels[1..]);
    if |labels| == 1 {
      assert forall k | 0 <= k < |labels[0]| :: labels[0][k] in labels[0];
    } else {
      FirstDotPrefix(labels[0], rest);
      SplitJoin(labels[1..]);
      var s := labels[0] + "." + rest;
      assert s[..|labels[0]|] == labels[0];
      assert s[|labels[0]| + 1..] == rest;
    }
  }

  /** `anc` is `name` or one of its parent domains, compared label by label. */
  ghost predicate Ancestor(anc: string, name: string) {
    EndsWith(Split(name), Split(anc))
  }

  /** `s` is the whole of `name` or starts right after one of its dots. */
  predicate AtBoundary(s: string, name: string) {
    || s == name
    || (|name| > |s| && name[|name| - |s| - 1] == '.' && name[|name| - |s|..] == s)
  }

  predicate EndsWith(n: seq<string>, a: seq<string>) {
    |a| <= |n| && n[|n| - |a|..] == a
  }

  lemma EndsWithStep(n: seq<string>, a: seq<string>)
    requires |a| > 0 && |n| > 0
    ensures EndsWith(n, a) <==> n == a || EndsWith(n[1..], a)
  {
    assert n[0..] == n;
    if |a| < |n| {
      assert n[|n| - |a|..] == n[1..][|n[1..]| - |a|..];
    }
  }

  lemma {:induction false} SplitTail(q: string)
    ensures FirstDot(q) < |q| ==> Split(q)[1..] == Split(q[FirstDot(q) + 1..])
    ensures FirstDot(q) == |q| ==> Split(q)[1..] == []
  {
  }

  lemma {:induction false} SplitInjective(a: string, b: string)
    requires Split(a) == Split(b)
    ensures a == b
  {
    JoinSplit(a);
    JoinSplit(b);
  }

  /** Both relations peel one label off the left at a time. */
  lemma {:induction false} AncestorStep(e: string, q: string)
    ensures Ancestor(e, q) <==> e == q || (FirstDot(q) < |q| && Ancestor(e, q[FirstDot(q) + 1..]))
  {
    hide Split, FirstDot, EndsWith;
    EndsWithStep(Split(q), Split(e));
    SplitTail(q);
    if Split(e) == Split(q) {
      SplitInjective(e, q);
    }
    NothingEndsWith(Split(e));
  }

  lemma NothingEndsWith(a: seq<string>)
    requires |a| > 0
    ensures !EndsWith([], a)
  {
  }

  lemma {:induction false} BoundaryStep(e: string, q: string)
    ensures AtBoundary(e, q) <==> e == q || (FirstDot(q) < |q| && AtBoundary(e, q[FirstDot(q) + 1..]))
  {
    var i, at := FirstDot(q), |q| - |e| - 1;
    if i < |q| && i <= at {
      var rest := q[i + 1..];
      assert at > i ==> rest[|rest| - |e| - 1] == q[at];
      assert rest[|rest| - |e|..] == q[at + 1..];
    }
  }

  /** Byte boundaries and label suffixes are the same thing, for every name. */
  lemma {:induction false} BoundaryIsAncestor(s: string, name: string)
    ensures AtBoundary(s, name) <==> Ancestor(s, name)
    decreases |name|
  {
    AncestorStep(s, name);
    BoundaryStep(s, name);
    if FirstDot(name) < |name| {
      BoundaryIsAncestor(s, name[FirstDot(name) + 1..]);
    }
  }

  // ---------------------------------------------------------------- the cache

  /** One suffix of cache.go's byte test: an exact match, or a dot before the
      suffix with at least one byte in front of that dot. */
  predicate UnderSuffix(name: string, s: string) {
    || name == s
    || (|name| > |s| + 1 && name[|name| - |s| - 1] == '.' && name[|name| - |s|..] == s)
  }

  /** nameUnder: whether `name` is one of `suffixes` or sits beneath one. */
  method NameUnder(name: string, suffixes: seq<string>) returns (under: bool)
    ensures under <==> exists k | 0 <= k < |suffixes| :: UnderSuffix(name, suffixes[k])
  {
    for i := 0 to |suffixes|
      invariant forall k | 0 <= k < i :: !UnderSuffix(name, suffixes[k])
    {
      if name == suffixes[i] {
        return true;
      }
      var s := suffixes[i];
      if |name| > |s| + 1 && name[|name| - |s| - 1] == '.' && name[|name| - |s|..] == s {
        assert UnderSuffix(name, suffixes[i]);
        return true;
      }
    }
    return false;
  }

  /** The byte test is label-wise ancestry except on one family of names: those
      that are a dot followed by the suffix. */
  lemma {:induction false} UnderIsAncestry(name: string, s: string)
    ensures UnderSuffix(name, s) <==> Ancestor(s, name) && name != "." + s
  {
    BoundaryIsAncestor(s, name);
    if name == "." + s {
      assert name[|name| - |s| - 1] == '.' && |name| == |s| + 1;
    }
    if |name| == |s| + 1 && name[0] == '.' && name[1..] == s {
      assert name == "." + s;
    }
  }

  /** On names without empty labels the exception cannot arise. */
  lemma {:induction false} UnderIsAncestryProper(name: string, s: string)
    requires forall k | 0 <= k < |Split(name)| :: Split(name)[k] != ""
    ensures UnderSuffix(name, s) <==> Ancestor(s, name)
  {
    UnderIsAncestry(name, s);
    if name == "." + s {
      assert FirstDot(name) == 0;
      assert Split(name)[0] == "";
    }
  }

  // ----------------------------------------------------------- the domain set

  /** DomainSet.Match's answer, stated over ancestry alone: the stored ancestor
      with the most labels, and nothing when no ancestor is stored. */
  ghost predicate MostSpecific(m: set<string>, q: string, r: Option<string>) {
    match r
    case None => forall e | e in m :: !Ancestor(e, q)
    case Some(best) =>
      && best in m && Ancestor(best, q)
      && forall e | e in m && Ancestor(e, q) :: |Split(e)| <= |Split(best)|
  }

  /** The most specific ancestor is unique, so MostSpecific pins Match down. */
  lemma {:induction false} MostSpecificUnique(m: set<string>, q: string, r: Option<string>, r': Option<string>)
    requires MostSpecific(m, q, r) && MostSpecific(m, q, r')
    ensures r == r'
  {
    if r.Some? && r'.Some? {
      assert |Split(r.value)| == |Split(r'.value)|;
      JoinSplit(r.value);
      JoinSplit(r'.value);
    }
  }

  /** What the outward walk finds from `q`: the first of q, q without its first
      label, and so on, that is in the set. */
  function Walk(m: set<string>, q: string): (r: Option<string>)
    ensures r.Some? ==> r.value in m
    decreases |q|
  {
    if q in m then Some(q)
    else
      var i := FirstDot(q);
      if i == |q| then None else Walk(m, q[i + 1..])
  }

  lemma {:induction false} WalkIsMostSpecific(m: set<string>, q: string)
    ensures MostSpecific(m, q, Walk(m, q))
    decreases |q|
  {
    var i := FirstDot(q);
    forall e ensures Ancestor(e, q) <==> (e == q || (i < |q| && Ancestor(e, q[i + 1..]))) {
      AncestorStep(e, q);
    }
    if q in m {
    } else if i < |q| {
      WalkIsMostSpecific(m, q[i + 1..]);
    }
  }

  /** DomainSet: normalised names, matched on whole-label boundaries. */
  class DomainSet {
    var m: set<string>

    constructor ()
      ensures m == {}
    {
      m := {};
    }

    method Add(domain: string)
      modifies this
      ensures m == old(m) + {Normalize(domain)}
    {
      m := m + {Normalize(domain)};
    }

    /** Match returns the most specific stored ancestor of qname. */
    method Match(qname: string) returns (r: Option<string>)
      ensures MostSpecific(m, Normalize(qname), r)
    {
      var q := Normalize(qname);
      WalkIsMostSpecific(m, q);
      while true
        invariant Walk(m, q) == Walk(m, Normalize(qname))
        decreases |q|
      {
        if q in m {
          return Some(q);
        }
        var i := FirstDot(q);
        if i == |q| {
          return None;
        }
        q := q[i + 1..];
      }
    }
  }

  /** strings.ToLower on the ASCII letters of a name. */
  function LowerChar(c: char): char {
    if 'A' <= c <= 'Z' then ((c as int) + 32) as char else c
  }

  function Lower(s: string): (r: string)
    ensures |r| == |s|
  {
    seq(|s|, i requires 0 <= i < |s| => LowerChar(s[i]))
  }

  function TrimRootDot(s: string): string {
    if |s| > 0 && s[|s| - 1] == '.' then s[..|s| - 1] else s
  }

  /** Lower-cased, one trailing dot trimmed. */
  function Normalize(s: string): string {
    Lower(TrimRootDot(s))
  }

  /** The same letter, whatever its case. */
  predicate SameLetter(c: char, d: char) {
    || c == d
    || ('A' <= c <= 'Z' && d as int == c as int + 32)
    || ('A' <= d <= 'Z' && c as int == d as int + 32)
  }

  predicate SameText(a: string, b: string) {
    |a| == |b| && forall i | 0 <= i < |a| :: SameLetter(a[i], b[i])
  }

  /** One dot at the end says nothing, nor does the case of a letter, and nothing else is lost:
      what is left has no capital, and two names that normalise alike differ in that alone. */
  lemma NormalizeForgets(a: string, b: string)
    ensures (a == "" || a[|a| - 1] != '.') ==> Normalize(a + ".") == Normalize(a) && SameText(Normalize(a), a)
    ensures (a == "" || a[|a| - 1] != '.') && (b == "" || b[|b| - 1] != '.') ==>
            (Normalize(a) == Normalize(b) <==> SameText(a, b))
    ensures forall i | 0 <= i < |Normalize(a)| :: !('A' <= Normalize(a)[i] <= 'Z')
  {
    assert (a + ".")[..|a|] == a;
    if (a == "" || a[|a| - 1] != '.') && (b == "" || b[|b| - 1] != '.') {
      var (x, y) := (Normalize(a), Normalize(b));
      if x == y {
        forall i | 0 <= i < |a| ensures SameLetter(a[i], b[i]) {
          assert x[i] == LowerChar(a[i]) && y[i] == LowerChar(b[i]);
        }
      }
    }
  }

  // ------------------------------------------------------- the reverse search

  datatype Reverse = NoZone | InZone(zone: string, rel: string)

  const APEX := "@"

  /** ReverseZoneFor over an address's reverse name: the labels are dropped one
      by one from the left until what is left is a known zone. */
  method ReverseZoneFor(reverseName: string, zoneNames: seq<string>) returns (r: Reverse)
    ensures reverseName == "" ==> r == NoZone
    ensures reverseName != "" ==>
      var have := set k | 0 <= k < |zoneNames| :: Normalize(zoneNames[k]);
      MostSpecific(have, reverseName, if r.InZone? then Some(r.zone) else None)
    ensures r.InZone? && r.zone != reverseName ==> r.rel + "." + r.zone == reverseName
    ensures r.InZone? && r.zone == reverseName ==> r.rel == "@"
  {
    if reverseName == "" {
      return NoZone;
    }
    var have := NormalizedSet(zoneNames);
    r := DeepestZone(reverseName, have);
    WalkIsMostSpecific(have, reverseName);
  }

  method DeepestZone(name: string, have: set<string>) returns (r: Reverse)
    ensures Walk(have, name) == if r.InZone? then Some(r.zone) else None
    ensures r.InZone? && r.zone != name ==> r.rel + "." + r.zone == name
    ensures r.InZone? && r.zone == name ==> r.rel == APEX
  {
    var labels := Split(name);
    assert labels[0..] == labels;
    JoinSplit(name);
    for i := 0 to |labels|
      invariant Walk(have, name) == if i < |labels| then Walk(have, Join(labels[i..])) else None
    {
      var candidate := Join(labels[i..]);
      if candidate in have {
        if i == 0 {
          return InZone(candidate, APEX);
        }
        Rejoin(name, i);
        return InZone(candidate, Join(labels[..i]));
      }
      DropLabel(name, i);
    }
    return NoZone;
  }

  lemma {:induction false} Rejoin(name: string, i: nat)
    requires 0 < i < |Split(name)|
    ensures Join(Split(name)[..i]) + "." + Join(Split(name)[i..]) == name
  {
    JoinSplit(name);
    JoinTwo(Split(name)[..i], Split(name)[i..]);
    assert Split(name)[..i] + Split(name)[i..] == Split(name);
  }

  method NormalizedSet(names: seq<string>) returns (have: set<string>)
    ensures have == set k | 0 <= k < |names| :: Normalize(names[k])
  {
    have := {};
    for i := 0 to |names|
      invariant have == set k | 0 <= k < i :: Normalize(names[k])
    {
      have := have + {Normalize(names[i])};
    }
  }

  lemma {:induction false} DropLabel(name: string, i: nat)
    requires i < |Split(name)|
    ensures var c := Join(Split(name)[i..]);
            && (i + 1 == |Split(name)| ==> FirstDot(c) == |c|)
            && (i + 1 < |Split(name)| ==> FirstDot(c) < |c| && c[FirstDot(c) + 1..] == Join(Split(name)[i + 1..]))
  {
    var labels := Split(name);
    forall k | 0 <= k < |labels| ensures '.' !in labels[k] { SplitNoDots(name, k); }
    var c := Join(labels[i..]);
    if i + 1 == |labels| {
      assert forall k | 0 <= k < |c| :: c[k] in labels[i];
    } else {
      assert labels[i..][1..] == labels[i + 1..];
      FirstDotPrefix(labels[i], Join(labels[i + 1..]));
    }
  }

  lemma {:induction false} JoinTwo(a: seq<string>, b: seq<string>)
    requires |a| > 0 && |b| > 0
    ensures Join(a + b) == Join(a) + "." + Join(b)
  {
    assert (a + b)[1..] == a[1..] + b;
    if |a| == 1 {
      assert a[1..] + b == b;
    } else {
      JoinTwo(a[1..], b);
      assert a[0] + "." + (Join(a[1..]) + "." + Join(b)) == a[0] + "." + Join(a[1..]) + "." + Join(b);
    }
  }
}
