/** The checker's own re-implementation of the eight predicates, and its exact relation to the
    production rules. */
module Oracle {
  import opened Text
  import opened Contract
  import opened Rows
  import Pattern
  import Email
  import Rules

  predicate TwoDigits(p: string) {
    |p| == 2 && '0' <= p[0] <= '9' && '0' <= p[1] <= '9'
  }

  predicate AllTwoDigits(ps: seq<string>) {
    forall i | 0 <= i < |ps| :: TwoDigits(ps[i])
  }

  /** The checker's transcription of the prefix table: every prefix is two digits. */
  function OraclePrefixes(state: string): (r: Option<seq<string>>)
    ensures r.Some? ==> r.value != [] && AllTwoDigits(r.value)
  {
    match state
    case "AL" => Some(["35", "36"])
    case "AK" => Some(["99"])
    case "AZ" => Some(["85", "86"])
    case "AR" => Some(["71", "72"])
    case "CA" => Some(["90", "91", "92", "93", "94", "95", "96"])
    case "CO" => Some(["80", "81"])
    case "CT" => Some(["06"])
    case "DE" => Some(["19"])
    case "DC" => Some(["20", "20"])
    case "FL" => Some(["32", "33", "34"])
    case "GA" => Some(["30", "31"])
    case "HI" => Some(["96", "97"])
    case "ID" => Some(["83", "84"])
    case "IL" => Some(["60", "61", "62"])
    case "IN" => Some(["46", "47"])
    case "IA" => Some(["50", "51", "52"])
    case "KS" => Some(["66", "67"])
    case "KY" => Some(["40", "41", "42"])
    case "LA" => Some(["70", "71"])
    case "ME" => Some(["03", "04"])
    case "MD" => Some(["21", "22"])
    case "MA" => Some(["01", "02"])
    case "MI" => Some(["48", "49"])
    case "MN" => Some(["55", "56"])
    case "MS" => Some(["38", "39"])
    case "MO" => Some(["63", "64", "65"])
    case "MT" => Some(["59"])
    case "NE" => Some(["68", "69"])
    case "NV" => Some(["88", "89"])
    case "NH" => Some(["03"])
    case "NJ" => Some(["07", "08"])
    case "NM" => Some(["87", "88"])
    case "NY" => Some(["10", "11", "12", "13", "14"])
    case "NC" => Some(["27", "28"])
    case "ND" => Some(["58"])
    case "OH" => Some(["43", "44", "45"])
    case "OK" => Some(["73", "74"])
    case "OR" => Some(["97"])
    case "PA" => Some(["15", "16", "17", "18", "19"])
    case "RI" => Some(["02", "03"])
    case "SC" => Some(["29"])
    case "SD" => Some(["57"])
    case "TN" => Some(["37", "38"])
    case "TX" => Some(["75", "76", "77", "78", "79"])
    case "UT" => Some(["84"])
    case "VT" => Some(["05"])
    case "VA" => Some(["22", "23", "24"])
    case "WA" => Some(["98", "99"])
    case "WV" => Some(["24", "25", "26"])
    case "WI" => Some(["53", "54"])
    case "WY" => Some(["82", "83"])
    case _ => None
  }

  const SUSPICIOUS: seq<string> := [
    "test", "fake", "dummy", "xxx", "zzz", "aaa", "bbb",
    "admin", "null", "none", "na", "n/a", "unknown",
    "example", "sample", "asdf", "qwerty", "abc", "xyz"]

  lemma TranscriptionAgrees()
    ensures forall state :: OraclePrefixes(state) == StateZipPrefixes(state)
    ensures SUSPICIOUS == SUSPICIOUS_NAME_PATTERNS
  {
  }

  /** `str(value or "").strip()`: both None and "" read as "". */
  function Read(row: Row, col: Column): string {
    var v := Get(row, col);
    if v.None? then "" else Strip(v.value)
  }

  function NameFlag(u: Unicode, patterns: seq<string>, s: string): Bit {
    if s == "" then 0
    else
      var low := u.lower(s);
      if exists i | 0 <= i < |patterns| :: Contains(low, patterns[i]) then 1
      else if exists i | 0 <= i < |s| :: !(u.isAlpha(s[i]) || s[i] == '-' || s[i] == '\'') then 1
      else
        var collapsed := Rules.RemoveChar(Rules.RemoveChar(low, '-'), '\'');
        ToBit(|s| > 1 && collapsed != "" && |Rules.Letters(collapsed)| == 1)
  }

  function FullNameFlag(u: Unicode, f: string, l: string): Bit {
    if f == "" && l == "" then 0
    else if f != "" && l != "" then
      if u.lower(f) == u.lower(l) then 1
      else if |f| <= 1 && |l| <= 1 then 1
      else 0
    else 0
  }

  /** (blank, syntax_failure, export_eligible) of the stripped address. */
  function EmailFlags(e: string): (Bit, Bit, Bit) {
    if e == "" then (1, 0, 0)
    else
      var ok := Pattern.FullMatch(Email.EMAIL, e);
      (0, ToBit(!ok), ToBit(ok))
  }

  /** (assessable, mismatch) of the stripped ZIP and state. */
  function GeographyFlags(u: Unicode, prefixes: string -> Option<seq<string>>, z: string, s: string): (Bit, Bit) {
    if z == "" || s == "" then (0, 0)
    else if prefixes(u.upper(s)).None? then (0, 0)
    else if exists i | 0 <= i < |prefixes(u.upper(s)).value| :: StartsWith(z, prefixes(u.upper(s)).value[i]) then (1, 0)
    else (1, 1)
  }

  function OracleFlags(u: Unicode, row: Row): Flags {
    var (blank, syntax, eligible) := EmailFlags(Read(row, EmailAddress));
    var (assessable, mismatch) := GeographyFlags(u, OraclePrefixes, Read(row, Zip), Read(row, State));
    Flags(NameFlag(u, SUSPICIOUS, Read(row, FirstName)),
          NameFlag(u, SUSPICIOUS, Read(row, LastName)),
          FullNameFlag(u, Read(row, FirstName), Read(row, LastName)),
          blank, syntax, eligible, assessable, mismatch)
  }

  /** The oracle as a function of the row alone. */
  function Judge(u: Unicode): Row -> Flags {
    row => OracleFlags(u, row)
  }

  // ---- the engine's rules against the oracle ----

  lemma NameRuleAgrees(u: Unicode, patterns: seq<string>, s: string)
    ensures Rules.NameRule(u, patterns, s) == NameFlag(u, patterns, s)
  {
  }

  lemma EmailRulesAgree(raw: string)
    ensures var e := Strip(raw);
            (Rules.EmailBlankRule(Some(raw)), Rules.EmailSyntaxRule(e), Rules.EligibleRule(e)) == EmailFlags(e)
  {
    Pattern.StrippedMatchesAgree(Email.EMAIL, raw);
  }

  lemma GeographyRulesAgree(u: Unicode, prefixes: string -> Option<seq<string>>, z: string, s: string)
    ensures (Rules.AssessableRule(u, prefixes, z, s), Rules.MismatchRule(u, prefixes, z, s))
            == GeographyFlags(u, prefixes, z, s)
  {
  }

  /** The reader filled this column with None: the physical line was too short. */
  predicate Null(row: Row, col: Column) {
    col in row && row[col].None?
  }

  /** A state the prefix map knows. */
  predicate KnownState(u: Unicode, row: Row) {
    Read(row, State) != "" && StateZipPrefixes(u.upper(Read(row, State))).Some?
  }

  lemma ReadsAgree(row: Row, col: Column)
    ensures !Null(row, col) ==> Rules.Read(row, col) == Read(row, col)
    ensures Null(row, col) ==> Rules.Read(row, col) == "None" && Read(row, col) == ""
    ensures Get(row, col).Some? ==> Read(row, col) == Strip(Get(row, col).value)
  {
  }

  /** The text "None" is what the engine sees in a null name: always a suspicious one. */
  lemma NoneIsSuspicious(u: Unicode)
    requires AsciiCase(u)
    ensures Rules.NameRule(u, SUSPICIOUS_NAME_PATTERNS, "None") == 1
    ensures NameFlag(u, SUSPICIOUS, "") == 0
  {
    assert IsAscii("None");
    assert AsciiLower("None") == "none" by {
      assert "None"[1..] == "one" && "one"[1..] == "ne" && "ne"[1..] == "e" && "e"[1..] == "";
    }
    assert u.lower("None") == "none";
    assert SUSPICIOUS_NAME_PATTERNS[9] == "none";
    assert OccursAt("none", "none", 0);
    assert Contains("none", SUSPICIOUS_NAME_PATTERNS[9]);
  }

  lemma NoneIsNoEmail()
    ensures Rules.EmailSyntaxRule("None") == 1
  {
    Email.EmailScanExact("None");
    assert Email.First('@', "None") == |"None"|;
    Pattern.MatchDollarExact(Email.EMAIL, "None");
  }

  lemma NoneIsNoState(u: Unicode)
    requires AsciiCase(u)
    ensures StateZipPrefixes(u.upper("None")).None?
  {
  }

  /** The geography pair, nulls included. */
  lemma GeographyAgreesExactly(u: Unicode, row: Row)
    requires AsciiCase(u)
    ensures var z, s := Rules.Read(row, Zip), Rules.Read(row, State);
            (Rules.AssessableRule(u, StateZipPrefixes, z, s), Rules.MismatchRule(u, StateZipPrefixes, z, s))
            == GeographyFlags(u, OraclePrefixes, Read(row, Zip), Read(row, State))
            <==> !(Null(row, Zip) && KnownState(u, row))
  {
    TranscriptionAgrees();
    ReadsAgree(row, Zip);
    ReadsAgree(row, State);
    NoneIsNoState(u);
    GeographyRulesAgree(u, StateZipPrefixes, Read(row, Zip), Read(row, State));
  }

  lemma EmailAgreesExactly(row: Row)
    ensures var e := Rules.Read(row, EmailAddress);
            (Rules.EmailBlankRule(Get(row, EmailAddress)), Rules.EmailSyntaxRule(e), Rules.EligibleRule(e))
            == EmailFlags(Read(row, EmailAddress))
            <==> !Null(row, EmailAddress)
  {
    ReadsAgree(row, EmailAddress);
    NoneIsNoEmail();
    if Get(row, EmailAddress).Some? {
      EmailRulesAgree(Get(row, EmailAddress).value);
    }
  }

  lemma NameAgreesExactly(u: Unicode, row: Row, col: Column)
    requires AsciiCase(u)
    ensures Rules.NameRule(u, SUSPICIOUS_NAME_PATTERNS, Rules.Read(row, col))
            == NameFlag(u, SUSPICIOUS, Read(row, col))
            <==> !Null(row, col)
  {
    TranscriptionAgrees();
    ReadsAgree(row, col);
    NoneIsSuspicious(u);
    NameRuleAgrees(u, SUSPICIOUS, Read(row, col));
  }

  /** Where the reader met a short line the engine would judge the text "None". */
  predicate NullsHarmless(u: Unicode, row: Row) {
    && !Null(row, FirstName) && !Null(row, LastName) && !Null(row, EmailAddress)
    && !(Null(row, Zip) && KnownState(u, row))
  }

  /** For every row: engine and oracle give the same eight flags exactly when no name and no
      email is null, and a null ZIP does not meet a known state. */
  lemma EngineAgreesExactly(u: Unicode, row: Row)
    requires AsciiCase(u)
    ensures Rules.Execute(u, row) == OracleFlags(u, row) <==> NullsHarmless(u, row)
  {
    NameAgreesExactly(u, row, FirstName);
    NameAgreesExactly(u, row, LastName);
    EmailAgreesExactly(row);
    GeographyAgreesExactly(u, row);
    ReadsAgree(row, FirstName);
    ReadsAgree(row, LastName);
  }

  // ---- relations between the eight flags ----

  /** Every row is in exactly one of the three email classes, and only an assessable row can
      mismatch. */
  lemma FlagsConsistent(u: Unicode, row: Row)
    ensures var f := OracleFlags(u, row);
            && f.blank + f.syntax + f.eligible == 1
            && f.mismatch <= f.assessable
            && (f.eligible == 1 <==> Email.Scan(Read(row, EmailAddress)))
  {
    Email.EmailScanExact(Read(row, EmailAddress));
  }

  /** Padding the text of any column with blanks. */
  ghost predicate SameUpToPadding(a: Option<string>, b: Option<string>) {
    || a == b
    || (a.Some? && b.Some?
        && exists front, back :: AllSpace(front) && AllSpace(back) && b.value == front + a.value + back)
  }

  lemma PaddingInvariant(u: Unicode, row: Row, padded: Row)
    requires forall col :: SameUpToPadding(Get(row, col), Get(padded, col))
    ensures OracleFlags(u, row) == OracleFlags(u, padded)
  {
    forall col ensures Read(row, col) == Read(padded, col) {
      var a, b := Get(row, col), Get(padded, col);
      assert SameUpToPadding(a, b);
      if a != b {
        var front, back :| AllSpace(front) && AllSpace(back) && b.value == front + a.value + back;
        StripPadded(front, a.value, back);
      }
    }
  }
}
