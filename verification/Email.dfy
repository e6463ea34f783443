/** The email pattern shared by the checker's oracle and the two engine email rules. */
module Email {
  import opened Pattern

  // [a-zA-Z0-9._%+\-]+ @ [a-zA-Z0-9.\-]+ \. [a-zA-Z]{2,}
  const SUFFIX: seq<Item> := [Repeat(Letter, 2)]
  const DOT_SUFFIX: seq<Item> := [Once(Literal('.'))] + SUFFIX
  const HOST: seq<Item> := [Repeat(DomainChar, 1)] + DOT_SUFFIX
  const AT_HOST: seq<Item> := [Once(Literal('@'))] + HOST
  const EMAIL: seq<Item> := [Repeat(LocalChar, 1)] + AT_HOST

  /** Position of the first `c` in s, or |s|. */
  function First(c: char, s: string): (p: nat)
    ensures p <= |s| && (p < |s| ==> s[p] == c)
    ensures forall i | 0 <= i < p :: s[i] != c
  {
    if s == "" || s[0] == c then 0
    else
      var q := First(c, s[1..]);
      assert forall i | 0 <= i < q :: s[1..][i] == s[1 + i];
      1 + q
  }

  /** Position of the last `c` in s, or -1. */
  function Last(c: char, s: string): (p: int)
    ensures -1 <= p < |s| && (p >= 0 ==> s[p] == c)
    ensures forall i | p < i < |s| :: s[i] != c
  {
    if s == "" then -1
    else if s[|s| - 1] == c then |s| - 1
    else Last(c, s[..|s| - 1])
  }

  /** The pieces at these two cuts have the pattern's classes and sizes. */
  predicate CutsFit(s: string, at: nat, dot: int) {
    && 1 <= at < |s|
    && AllIn(LocalChar, s[..at])
    && var domain := s[at + 1..];
       && 1 <= dot < |domain|
       && AllIn(DomainChar, domain[..dot])
       && |domain| - (dot + 1) >= 2
       && AllIn(Letter, domain[dot + 1..])
  }

  /** Deterministic reading of an address: cut at the first '@', then at the last '.'. */
  predicate Scan(s: string) {
    var at := First('@', s);
    at < |s| && CutsFit(s, at, Last('.', s[at + 1..]))
  }

  /** The pieces of an accepted address, as the pattern names them. */
  ghost predicate Splits(s: string, local: string, host: string, suffix: string) {
    && s == local + ("@" + (host + ("." + suffix)))
    && local != "" && AllIn(LocalChar, local)
    && host != "" && AllIn(DomainChar, host)
    && |suffix| >= 2 && AllIn(Letter, suffix)
  }

  lemma MatchStep(item: Item, rest: seq<Item>, s: string)
    ensures FullMatch([item] + rest, s) <==>
            exists k | 0 <= k <= |s| :: Accepts(item, s[..k]) && FullMatch(rest, s[k..])
  {
  }

  lemma MatchLast(item: Item, s: string)
    ensures FullMatch([item], s) <==> Accepts(item, s)
  {
    MatchStep(item, [], s);
    assert [item] + [] == [item];
    assert s[..|s|] == s && s[|s|..] == "";
    if FullMatch([item], s) {
      var k :| 0 <= k <= |s| && Accepts(item, s[..k]) && FullMatch([], s[k..]);
      assert k == |s|;
    }
  }

  /** A match of a class-then-rest pattern is a split into the class's share and the rest. */
  lemma MatchConcat(item: Item, rest: seq<Item>, a: string, b: string)
    requires Accepts(item, a) && FullMatch(rest, b)
    ensures FullMatch([item] + rest, a + b)
  {
    assert (a + b)[..|a|] == a && (a + b)[|a|..] == b;
    MatchStep(item, rest, a + b);
  }

  lemma MatchTake(item: Item, rest: seq<Item>, s: string) returns (a: string, b: string)
    requires FullMatch([item] + rest, s)
    ensures s == a + b && Accepts(item, a) && FullMatch(rest, b)
  {
    var items := [item] + rest;
    var k :| 0 <= k <= |s| && Accepts(items[0], s[..k]) && FullMatch(items[1..], s[k..]);
    assert items[0] == item && items[1..] == rest;
    a, b := s[..k], s[k..];
  }

  lemma MatchToSplit(s: string) returns (local: string, host: string, suffix: string)
    requires FullMatch(EMAIL, s)
    ensures Splits(s, local, host, suffix)
  {
    var s1, s2, s3, at, dot;
    local, s1 := MatchTake(Repeat(LocalChar, 1), AT_HOST, s);
    at, s2 := MatchTake(Once(Literal('@')), HOST, s1);
    host, s3 := MatchTake(Repeat(DomainChar, 1), DOT_SUFFIX, s2);
    dot, suffix := MatchTake(Once(Literal('.')), SUFFIX, s3);
    MatchLast(Repeat(Letter, 2), suffix);
    SingleChar(at, '@');
    SingleChar(dot, '.');
    assert s == local + (at + (host + (dot + suffix)));
  }

  lemma SingleChar(s: string, c: char)
    requires Accepts(Once(Literal(c)), s)
    ensures s == [c]
  {
  }

  lemma SplitToMatch(s: string, local: string, host: string, suffix: string)
    requires Splits(s, local, host, suffix)
    ensures FullMatch(EMAIL, s)
  {
    MatchLast(Repeat(Letter, 2), suffix);
    MatchConcat(Once(Literal('.')), SUFFIX, ".", suffix);
    MatchConcat(Repeat(DomainChar, 1), DOT_SUFFIX, host, "." + suffix);
    MatchConcat(Once(Literal('@')), HOST, "@", host + ("." + suffix));
    MatchConcat(Repeat(LocalChar, 1), AT_HOST, local, "@" + (host + ("." + suffix)));
  }

  lemma CutsSplit(s: string, at: nat, dot: nat)
    requires CutsFit(s, at, dot) && s[at] == '@' && s[at + 1..][dot] == '.'
    ensures var d := s[at + 1..]; Splits(s, s[..at], d[..dot], d[dot + 1..])
  {
  }

  lemma ScanToSplit(s: string)
    requires Scan(s)
    ensures exists local, host, suffix :: Splits(s, local, host, suffix)
  {
    var at := First('@', s);
    var d := s[at + 1..];
    var dot := Last('.', d);
    CutsSplit(s, at, dot);
    assert Splits(s, s[..at], d[..dot], d[dot + 1..]);
  }

  lemma FirstIs(c: char, a: string, b: string)
    requires c !in a
    ensures First(c, a + ([c] + b)) == |a|
  {
    var s := a + ([c] + b);
    assert s[|a|] == c;
    forall i | 0 <= i < |a| ensures s[i] != c { assert s[i] == a[i]; }
  }

  lemma LastIs(c: char, a: string, b: string)
    requires c !in b
    ensures Last(c, a + ([c] + b)) == |a|
  {
    var t := [c] + b;
    var s := a + t;
    assert t[0] == c;
    forall i | |a| < i < |s| ensures s[i] != c { assert s[i] == t[i - |a|]; }
    LastUnique(c, s, |a|);
  }

  lemma LastUnique(c: char, s: string, p: nat)
    requires p < |s| && s[p] == c && forall i | p < i < |s| :: s[i] != c
    ensures Last(c, s) == p
  {
  }

  lemma SplitCutsFit(s: string, local: string, host: string, suffix: string)
    requires Splits(s, local, host, suffix)
    ensures CutsFit(s, |local|, |host|) && s[|local| + 1..] == host + ("." + suffix)
  {
  }

  lemma SplitToScan(s: string, local: string, host: string, suffix: string)
    requires Splits(s, local, host, suffix)
    ensures Scan(s)
  {
    FirstIs('@', local, host + ("." + suffix));
    LastIs('.', host, suffix);
    SplitCutsFit(s, local, host, suffix);
  }

  /** The pattern's search for a split and the deterministic scan accept the same strings. */
  lemma EmailScanExact(s: string)
    ensures FullMatch(EMAIL, s) <==> Scan(s)
    ensures FullMatch(EMAIL, s) <==> exists local, host, suffix :: Splits(s, local, host, suffix)
  {
    if FullMatch(EMAIL, s) {
      var local, host, suffix := MatchToSplit(s);
      SplitToScan(s, local, host, suffix);
    }
    if Scan(s) {
      ScanToSplit(s);
    }
    if exists local, host, suffix :: Splits(s, local, host, suffix) {
      var local, host, suffix :| Splits(s, local, host, suffix);
      SplitToMatch(s, local, host, suffix);
    }
  }

  /** Exactly which raw strings tell the oracle's full match from the engine's dollar match. */
  lemma UnstrippedDifference(s: string)
    ensures MatchDollar(EMAIL, s) != FullMatch(EMAIL, s) <==>
            s != "" && s[|s| - 1] == '\n' && FullMatch(EMAIL, s[..|s| - 1])
  {
    MatchDollarExact(EMAIL, s);
    if FullMatch(EMAIL, s) {
      EndsInLetter(s);
    }
  }

  lemma EndsInLetter(s: string)
    requires FullMatch(EMAIL, s)
    ensures s != "" && IsLetter(s[|s| - 1])
  {
    var local, host, suffix := MatchToSplit(s);
    assert s[|s| - 1] == suffix[|suffix| - 1];
    assert InClass(Letter, suffix[|suffix| - 1]);
  }
}
