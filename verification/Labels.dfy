/** Hostname labels: what a reservation may hold, and what a client's own name is
    turned into. */
module Labels {

  const MAX_LABEL := 63

  predicate LowerLabelChar(c: char) { 'a' <= c <= 'z' || '0' <= c <= '9' || c == '-' }

  predicate LabelChar(c: char) { LowerLabelChar(c) || 'A' <= c <= 'Z' }

  /** A label of section 2.1 of RFC 1123: letters, digits and hyphens, 1 to 63 of them,
      a hyphen at neither end. */
  predicate IsLabel(s: string) {
    0 < |s| <= MAX_LABEL && s[0] != '-' && s[|s| - 1] != '-' && forall i | 0 <= i < |s| :: LabelChar(s[i])
  }

  predicate IsLowerLabel(s: string) {
    IsLabel(s) && AllLower(s)
  }

  /** validHostLabel. */
  method ValidHostLabel(s: string) returns (ok: bool)
    ensures ok <==> IsLabel(s)
    ensures ok <==>
      && 1 <= |s| <= 63 && s[0] != '-' && s[|s| - 1] != '-'
      && forall c | c in s :: 'a' <= c <= 'z' || 'A' <= c <= 'Z' || '0' <= c <= '9' || c == '-'
  {
    if |s| == 0 || |s| > 63 || s[0] == '-' || s[|s| - 1] == '-' {
      return false;
    }
    for i := 0 to |s|
      invariant forall k | 0 <= k < i :: LabelChar(s[k])
    {
      var c := s[i];
      if !('a' <= c <= 'z' || 'A' <= c <= 'Z' || '0' <= c <= '9' || c == '-') {
        assert c in s;
        return false;
      }
    }
    return true;
  }

  /** The runtime's lower-casing, rune by rune: it leaves label characters alone. */
  ghost predicate Lowers(lower: char -> char) {
    forall c :: LowerLabelChar(c) ==> lower(c) == c
  }

  predicate Dashed(b: string) { b != "" && b[|b| - 1] == '-' }

  /** What the builder holds after one more character. */
  function Write(b: string, c: char): string {
    if LowerLabelChar(c) then b + [c] else if b != "" && !Dashed(b) then b + "-" else b
  }

  function Written(lower: char -> char, s: string): (b: string)
    ensures AllLower(b)
  {
    if s == "" then "" else Write(Written(lower, s[..|s| - 1]), lower(s[|s| - 1]))
  }

  function TrimLeft(s: string): (r: string)
    ensures |r| <= |s| && r == s[|s| - |r|..] && (r != "" ==> r[0] != '-')
    ensures s != "" && s[0] != '-' ==> r == s
  {
    if s != "" && s[0] == '-' then TrimLeft(s[1..]) else s
  }

  function TrimRight(s: string): (r: string)
    ensures |r| <= |s| && r == s[..|r|] && (r != "" ==> r[|r| - 1] != '-')
    ensures s != "" && s[|s| - 1] != '-' ==> r == s
  {
    if s != "" && s[|s| - 1] == '-' then TrimRight(s[..|s| - 1]) else s
  }

  function Cap(s: string): string {
    if |s| > MAX_LABEL then TrimRight(s[..MAX_LABEL]) else s
  }

  function Sanitized(lower: char -> char, s: string): string {
    Cap(TrimRight(TrimLeft(Written(lower, s))))
  }

  /** SanitizeLabel. */
  method SanitizeLabel(lower: char -> char, s: string) returns (text: string)
    ensures text == Sanitized(lower, s)
  {
    var b, dashed := "", false;
    for i := 0 to |s|
      invariant b == Written(lower, s[..i]) && dashed == Dashed(b)
    {
      assert s[..i + 1][..i] == s[..i];
      var r := lower(s[i]);
      if LowerLabelChar(r) {
        b := b + [r];
        dashed := r == '-';
      } else if !dashed && |b| > 0 {
        b := b + "-";
        dashed := true;
      }
    }
    assert s[..|s|] == s;
    text := TrimRight(TrimLeft(b));
    if |text| > MAX_LABEL {
      text := TrimRight(text[..MAX_LABEL]);
    }
  }

  predicate AllLower(s: string) { forall i | 0 <= i < |s| :: LowerLabelChar(s[i]) }

  lemma Slice(s: string, i: nat, j: nat)
    requires AllLower(s) && i <= j <= |s|
    ensures AllLower(s[i..j])
  {
  }

  lemma LeftLower(b: string)
    requires AllLower(b)
    ensures AllLower(TrimLeft(b))
  {
    hide AllLower, TrimLeft;
    var l := TrimLeft(b);
    Slice(b, |b| - |l|, |b|);
    assert b[|b| - |l|..|b|] == b[|b| - |l|..];
  }

  lemma RightLower(l: string)
    requires AllLower(l)
    ensures AllLower(TrimRight(l))
    ensures TrimRight(l) != "" ==> l != "" && TrimRight(l)[0] == l[0]
  {
    hide AllLower, TrimRight;
    var t := TrimRight(l);
    Slice(l, 0, |t|);
    assert l[0..|t|] == l[..|t|];
  }

  lemma {:induction false} TrimmedEnds(b: string)
    requires AllLower(b)
    ensures var t := TrimRight(TrimLeft(b)); AllLower(t) && (t == "" || (t[0] != '-' && t[|t| - 1] != '-'))
  {
    hide AllLower, TrimLeft, TrimRight;
    LeftLower(b);
    RightLower(TrimLeft(b));
  }

  lemma {:induction false} CapIsLabel(t: string)
    requires AllLower(t) && t != "" && t[0] != '-' && t[|t| - 1] != '-'
    ensures IsLowerLabel(Cap(t))
  {
    if |t| > MAX_LABEL {
      FirstStays(t[..MAX_LABEL]);
    }
  }

  lemma {:induction false} FirstStays(s: string)
    requires s != "" && s[0] != '-'
    ensures TrimRight(s) != "" && TrimRight(s)[0] == s[0]
  {
    if s[|s| - 1] == '-' {
      FirstStays(s[..|s| - 1]);
    }
  }

  /** For every input, the result is empty or a lower-case label. */
  lemma {:induction false} SanitizedIsLabel(lower: char -> char, s: string)
    ensures Sanitized(lower, s) == "" || IsLowerLabel(Sanitized(lower, s))
  {
    hide TrimLeft, TrimRight, Written;
    TrimmedEnds(Written(lower, s));
    var t := TrimRight(TrimLeft(Written(lower, s)));
    if t != "" {
      CapIsLabel(t);
    }
  }

  lemma {:induction false} WritesLabels(lower: char -> char, s: string)
    requires Lowers(lower) && AllLower(s)
    ensures Written(lower, s) == s
  {
    if s != "" {
      WritesLabels(lower, s[..|s| - 1]);
      assert s == s[..|s| - 1] + [s[|s| - 1]];
    }
  }

  /** A lower-case label is left alone ... */
  lemma {:induction false} FixesLabels(lower: char -> char, s: string)
    requires Lowers(lower) && IsLowerLabel(s)
    ensures Sanitized(lower, s) == s
  {
    WritesLabels(lower, s);
  }

  /** ... so sanitising twice is sanitising once ... */
  lemma {:induction false} Idempotent(lower: char -> char, s: string)
    requires Lowers(lower)
    ensures Sanitized(lower, Sanitized(lower, s)) == Sanitized(lower, s)
  {
    SanitizedIsLabel(lower, s);
    if Sanitized(lower, s) != "" {
      FixesLabels(lower, Sanitized(lower, s));
    }
  }

  /** ... and ByName's test, that a label is its own sanitised form, admits exactly the
      labels some hostname is indexed under. */
  lemma {:induction false} GuardAdmitsIndexed(lower: char -> char, text: string)
    requires Lowers(lower)
    ensures text == Sanitized(lower, text) <==> exists host :: Sanitized(lower, host) == text
  {
    if host :| Sanitized(lower, host) == text {
      Idempotent(lower, host);
    }
  }

  // ------------------------------------------------ what becomes of each character

  predicate LetterOrDigit(c: char) { 'a' <= c <= 'z' || '0' <= c <= '9' }

  /** What character i of a name comes to, from itself and the one before it: itself, lower-
      cased, if a label may hold it; one hyphen if it begins a run of others after a letter or
      a digit; nothing otherwise. */
  function CharBecomes(lower: char -> char, s: string, i: nat): string
    requires i < |s|
  {
    var c := lower(s[i]);
    if LetterOrDigit(c) || c == '-' then [c]
    else if i > 0 && LetterOrDigit(lower(s[i - 1])) then "-"
    else ""
  }

  function EachBecomes(lower: char -> char, s: string, n: nat): string
    requires n <= |s|
  {
    if n == 0 then "" else EachBecomes(lower, s, n - 1) + CharBecomes(lower, s, n - 1)
  }

  /** What the builder holds says what came last: nothing yet, or a letter or digit, or a
      hyphen. */
  lemma {:induction false} WrittenIsEach(lower: char -> char, s: string, n: nat)
    requires n <= |s|
    ensures Written(lower, s[..n]) == EachBecomes(lower, s, n)
    ensures n > 0 && LetterOrDigit(lower(s[n - 1])) <==> Written(lower, s[..n]) != "" && !Dashed(Written(lower, s[..n]))
  {
    if n > 0 {
      WrittenIsEach(lower, s, n - 1);
      assert s[..n][..n - 1] == s[..n - 1];
    }
  }

  predicate AllHyphens(s: string) { forall i | 0 <= i < |s| :: s[i] == '-' }

  /** SanitizeLabel in one sentence: each character becomes what it becomes, the hyphens at both
      ends go, and of a text over 63 characters the first 63 stay, less the hyphens that end
      them. */
  ghost predicate SanitizesTo(text: string, out: string) {
    exists a: string, t: string, z: string ::
      && text == a + t + z && AllHyphens(a) && AllHyphens(z)
      && (t != "" ==> t[0] != '-' && t[|t| - 1] != '-')
      && CutsTo(t, out)
  }

  /** The first 63 characters, less the hyphens that end them. */
  ghost predicate CutsTo(t: string, r: string) {
    if |t| <= 63 then r == t
    else |r| <= 63 && r == t[..|r|] && AllHyphens(t[|r|..63]) && (r != "" ==> r[|r| - 1] != '-')
  }

  lemma {:induction false} LeftHyphen(s: string, i: nat)
    requires i < |s| - |TrimLeft(s)|
    ensures s[i] == '-'
  {
    if i > 0 {
      LeftHyphen(s[1..], i - 1);
    }
  }

  lemma LeftDrops(s: string) returns (a: string)
    ensures s == a + TrimLeft(s) && AllHyphens(a)
  {
    hide TrimLeft;
    a := s[..|s| - |TrimLeft(s)|];
    forall i | 0 <= i < |a| ensures a[i] == '-' { LeftHyphen(s, i); }
  }

  lemma {:induction false} RightDrops(s: string) returns (z: string)
    ensures s == TrimRight(s) + z && AllHyphens(z)
  {
    z := "";
    if s != "" && s[|s| - 1] == '-' {
      var rest := RightDrops(s[..|s| - 1]);
      z := rest + "-";
      assert s == s[..|s| - 1] + "-";
      assert TrimRight(s) + z == (TrimRight(s[..|s| - 1]) + rest) + "-";
    }
  }

  lemma TrimmedParts(b: string) returns (a: string, z: string)
    ensures b == a + TrimRight(TrimLeft(b)) + z && AllHyphens(a) && AllHyphens(z)
  {
    hide TrimLeft, TrimRight, AllHyphens;
    a := LeftDrops(b);
    z := RightDrops(TrimLeft(b));
    var t := TrimRight(TrimLeft(b));
    assert a + t + z == a + (t + z);
  }

  lemma CapCuts(t: string)
    ensures CutsTo(t, Cap(t))
  {
    if |t| > 63 {
      hide TrimRight;
      var head := t[..63];
      var r := TrimRight(head);
      var z := RightDrops(head);
      assert r == head[..|r|] == t[..|r|];
      assert z == head[|r|..] == t[|r|..63];
    }
  }

  lemma {:induction false} SanitizedIs(lower: char -> char, s: string)
    ensures SanitizesTo(EachBecomes(lower, s, |s|), Sanitized(lower, s))
  {
    WrittenIsEach(lower, s, |s|);
    assert s[..|s|] == s;
    var b := Written(lower, s);
    var a, z := TrimmedParts(b);
    var t := TrimRight(TrimLeft(b));
    TrimmedEnds(b);
    CapCuts(t);
  }
}
