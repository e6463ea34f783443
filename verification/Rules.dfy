/** The production V1 rules: one `execute` per rule class. */
module Rules {
  import opened Text
  import opened Contract
  import opened Rows
  import Pattern
  import Email

  /** `str(row.get(col, "")).strip()`: an absent key reads as "", a key holding None as "None". */
  function Read(row: Row, col: Column): string {
    Strip(if col !in row then "" else if row[col].None? then "None" else row[col].value)
  }

  predicate HasNonAlpha(u: Unicode, name: string) {
    exists i | 0 <= i < |name| :: !u.isAlpha(name[i]) && name[i] !in "-'"
  }

  function RemoveChar(s: string, c: char): string {
    if s == "" then "" else (if s[0] == c then "" else [s[0]]) + RemoveChar(s[1..], c)
  }

  function Letters(s: string): set<char> {
    set i | 0 <= i < |s| :: s[i]
  }

  predicate IsRepeatedChar(u: Unicode, name: string) {
    var cleaned := RemoveChar(RemoveChar(u.lower(name), '-'), '\'');
    |name| > 1 && |cleaned| > 0 && |Letters(cleaned)| == 1
  }

  predicate HasSuspiciousPattern(patterns: seq<string>, lowered: string) {
    exists i | 0 <= i < |patterns| :: Contains(lowered, patterns[i])
  }

  function NameRule(u: Unicode, patterns: seq<string>, name: string): Bit {
    if name == "" then 0
    else if HasSuspiciousPattern(patterns, u.lower(name)) then 1
    else if HasNonAlpha(u, name) then 1
    else if IsRepeatedChar(u, name) then 1
    else 0
  }

  function FullNameRule(u: Unicode, first: string, last: string): Bit {
    if first == "" && last == "" then 0
    else if first != "" && last != "" && u.lower(first) == u.lower(last) then 1
    else if first != "" && last != "" && |first| <= 1 && |last| <= 1 then 1
    else 0
  }

  function EmailBlankRule(email: Option<string>): Bit {
    ToBit(email.None? || Strip(email.value) == "")
  }

  function EmailSyntaxRule(email: string): Bit {
    if email == "" then 0 else ToBit(!Pattern.MatchDollar(Email.EMAIL, email))
  }

  function EligibleRule(email: string): Bit {
    if email == "" then 0 else ToBit(Pattern.MatchDollar(Email.EMAIL, email))
  }

  function AssessableRule(u: Unicode, prefixes: string -> Option<seq<string>>, zip: string, state: string): Bit {
    ToBit(zip != "" && state != "" && prefixes(u.upper(state)).Some?)
  }

  function MismatchRule(u: Unicode, prefixes: string -> Option<seq<string>>, zip: string, state: string): Bit {
    if zip == "" || state == "" then 0
    else
      var key := u.upper(state);
      if prefixes(key).None? then 0
      else ToBit(forall i | 0 <= i < |prefixes(key).value| :: !StartsWith(zip, prefixes(key).value[i]))
  }

  /** `execute_all(row)` over the registry's eight rules. */
  function Execute(u: Unicode, row: Row): Flags {
    Flags(NameRule(u, SUSPICIOUS_NAME_PATTERNS, Read(row, FirstName)),
          NameRule(u, SUSPICIOUS_NAME_PATTERNS, Read(row, LastName)),
          FullNameRule(u, Read(row, FirstName), Read(row, LastName)),
          EmailBlankRule(Get(row, EmailAddress)),
          EmailSyntaxRule(Read(row, EmailAddress)),
          EligibleRule(Read(row, EmailAddress)),
          AssessableRule(u, StateZipPrefixes, Read(row, Zip), Read(row, State)),
          MismatchRule(u, StateZipPrefixes, Read(row, Zip), Read(row, State)))
  }

  /** The rule registry as a function of the row alone. */
  function Registry(u: Unicode): Row -> Flags {
    row => Execute(u, row)
  }
}
