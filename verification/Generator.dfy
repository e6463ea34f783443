/** The dataset generator's ZIP codes: one function aims at the state, the other away from it, and
    the oracle judges each as intended whatever is drawn. */
module Generator {
  import opened Contract
  import opened Rows
  import opened Text
  import Oracle

  lemma ThreeDigits(n: nat)
    requires 100 <= n < 1000
    ensures |Decimal(n)| == 3 && !IsSpace(Decimal(n)[2])
  {
    assert Decimal(n) == Decimal(n / 10) + [DIGITS[n % 10]];
    assert Decimal(n / 10) == Decimal(n / 100) + [DIGITS[(n / 10) % 10]];
  }

  /** A two-digit prefix and a three-digit number make a trimmed five-character ZIP. */
  lemma ZipShape(prefix: string, n: nat)
    requires Oracle.TwoDigits(prefix) && 100 <= n < 1000
    ensures var z := prefix + Decimal(n); |z| == 5 && Strip(z) == z && z[..2] == prefix
  {
    ThreeDigits(n);
    StripTrimmed(prefix + Decimal(n));
  }

  predicate Starts(z: string, ps: seq<string>) {
    exists i :: 0 <= i < |ps| && StartsWith(z, ps[i])
  }

  /** `_matching_zip` over the state's own prefixes; `pick` and `n` are what the random generator gives. */
  method MatchingZip(own: seq<string>, pick: nat, n: nat) returns (z: string)
    requires Oracle.AllTwoDigits(own) && pick < |own| && 100 <= n < 1000
    ensures |z| == 5 && Strip(z) == z && Starts(z, own)
  {
    ZipShape(own[pick], n);
    z := own[pick] + Decimal(n);
    assert StartsWith(z, own[pick]);
  }

  /** `_mismatching_zip` over the prefixes the random generator draws in turn; None when the draws
      run out before one is foreign to the state. */
  method MismatchingZip(own: seq<string>, draws: seq<string>, n: nat) returns (z: Option<string>)
    requires Oracle.AllTwoDigits(own) && Oracle.AllTwoDigits(draws) && 100 <= n < 1000
    ensures z.None? <==> forall i | 0 <= i < |draws| :: draws[i] in own
    ensures z.Some? ==> (|z.value| == 5 && Strip(z.value) == z.value && !Starts(z.value, own))
  {
    for i := 0 to |draws|
      invariant forall j | 0 <= j < i :: draws[j] in own
    {
      var prefix := draws[i];
      if prefix !in own {
        ZipShape(prefix, n);
        Foreign(prefix + Decimal(n), prefix, own);
        return Some(prefix + Decimal(n));
      }
    }
    z := None;
  }

  lemma Foreign(z: string, prefix: string, own: seq<string>)
    requires |z| >= 2 && z[..2] == prefix && prefix !in own && Oracle.AllTwoDigits(own)
    ensures !Starts(z, own)
  {
    forall i | 0 <= i < |own|
      ensures !StartsWith(z, own[i])
    {
      assert own[i] in own && own[i] != z[..2];
    }
  }

  /** A row whose ZIP starts like its state's is assessable and matches; one whose ZIP does not is
      assessable and mismatches; in upper or lower case, padded or not. */
  lemma ZipsAreJudgedAsMeant(u: Unicode, prefixes: string -> Option<seq<string>>, state: string, cell: string,
          z: string)
    requires prefixes(state).Some? && Strip(cell) != "" && u.upper(Strip(cell)) == state
    requires |z| == 5 && Strip(z) == z
    ensures Oracle.GeographyFlags(u, prefixes, Strip(z), Strip(cell))
            == (1, if Starts(z, prefixes(state).value) then 0 else 1)
  {
  }

  /** Every ZIP either function draws for a state of the table is judged as meant. */
  method DrawnZips(u: Unicode, state: string, cell: string, pick: nat, draws: seq<string>, n: nat)
    returns (matching: string, mismatching: Option<string>)
    requires Oracle.OraclePrefixes(state).Some? && pick < |Oracle.OraclePrefixes(state).value|
    requires Oracle.AllTwoDigits(draws) && 100 <= n < 1000
    requires Strip(cell) != "" && u.upper(Strip(cell)) == state
    ensures Oracle.GeographyFlags(u, Oracle.OraclePrefixes, Strip(matching), Strip(cell)) == (1, 0)
    ensures mismatching.Some? ==>
              Oracle.GeographyFlags(u, Oracle.OraclePrefixes, Strip(mismatching.value), Strip(cell)) == (1, 1)
  {
    var own := Oracle.OraclePrefixes(state).value;
    matching := MatchingZip(own, pick, n);
    ZipsAreJudgedAsMeant(u, Oracle.OraclePrefixes, state, cell, matching);
    mismatching := MismatchingZip(own, draws, n);
    if mismatching.Some? {
      ZipsAreJudgedAsMeant(u, Oracle.OraclePrefixes, state, cell, mismatching.value);
    }
  }
}
