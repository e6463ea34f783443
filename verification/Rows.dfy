/** Rows as `csv.DictReader` yields them, and the character tables the rules consult. */
module Rows {
  import opened Contract

  /** A key with `None` is a column the physical line was too short to fill. */
  type Row = map<Column, Option<string>>

  datatype Table = Table(header: seq<Column>, rows: seq<Row>)

  /** `row.get(col)` */
  function Get(row: Row, col: Column): Option<string> {
    if col in row then row[col] else None
  }

  /** Every column named in `cols` holds text. */
  predicate Filled(row: Row, cols: seq<Column>) {
    forall i | 0 <= i < |cols| :: Get(row, cols[i]).Some?
  }

  /** The Unicode operations of `str`, kept abstract beyond ASCII. */
  datatype Unicode = Unicode(isAlpha: char -> bool, lower: string -> string, upper: string -> string)

  predicate IsAscii(s: string) {
    forall i | 0 <= i < |s| :: s[i] < 128 as char
  }

  function AsciiLower(s: string): string {
    if s == "" then ""
    else [if 'A' <= s[0] <= 'Z' then s[0] + (32 as char) else s[0]] + AsciiLower(s[1..])
  }

  function AsciiUpper(s: string): string {
    if s == "" then ""
    else [if 'a' <= s[0] <= 'z' then s[0] - (32 as char) else s[0]] + AsciiUpper(s[1..])
  }

  /** On ASCII text `lower` and `upper` change exactly the 26 letters. */
  ghost predicate AsciiCase(u: Unicode) {
    forall s: string | IsAscii(s) :: u.lower(s) == AsciiLower(s) && u.upper(s) == AsciiUpper(s)
  }

  type Bit = b: int | 0 <= b <= 1

  function ToBit(b: bool): Bit {
    if b then 1 else 0
  }

  /** `str(flag)` */
  function BitText(b: Bit): string {
    if b == 1 then "1" else "0"
  }

  /** One value per flag rule. */
  datatype Flags = Flags(firstName: Bit, lastName: Bit, fullName: Bit, blank: Bit,
                         syntax: Bit, eligible: Bit, assessable: Bit, mismatch: Bit)
  {
    function At(f: Flag): Bit {
      match f
      case FirstNameCandidate => firstName
      case LastNameCandidate => lastName
      case FullNameCandidate => fullName
      case EmailBlank => blank
      case EmailSyntaxFailure => syntax
      case ExportEligible => eligible
      case ZipStateAssessable => assessable
      case GeographyMismatch => mismatch
    }
  }
}
