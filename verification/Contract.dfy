/** The V1 data contract: columns, flags, state prefixes and suspicious name patterns. */
module Contract {

  datatype Option<+T> = None | Some(value: T)

  datatype Flag =
    | FirstNameCandidate    // first_name_cleaning_candidate
    | LastNameCandidate     // last_name_cleaning_candidate
    | FullNameCandidate     // name_cleaning_candidate
    | EmailBlank            // email_blank
    | EmailSyntaxFailure    // email_syntax_failure
    | ExportEligible        // proposed_email_export_eligible
    | ZipStateAssessable    // zip_state_assessable
    | GeographyMismatch     // geography_mismatch_candidate

  /** A header cell: one of the 33 source columns, one of the 8 flag columns, or anything else. */
  datatype Column =
    | Id | EmailAddress | FirstName | LastName | Address
    | City | CountyName | State | Zip | WebsiteSource
    | PhoneNumber | Gender | Dob | RegistrationDate | ValidColumn
    | Extra | EmailId | Ethnicity | OwnRent | Domain
    | MainInterest | SubInterest | Latitude | Longitude | Uploaded
    | Country | WebsourceId | InterestIds | Dnc | SourceColumn
    | FirstNameNorm | LastNameNorm | ZipNorm
    | FlagColumn(flag: Flag)
    | Unknown(name: string)

  const SOURCE_COLUMNS: seq<Column> := [
    Id, EmailAddress, FirstName, LastName, Address,
    City, CountyName, State, Zip, WebsiteSource,
    PhoneNumber, Gender, Dob, RegistrationDate, ValidColumn,
    Extra, EmailId, Ethnicity, OwnRent, Domain,
    MainInterest, SubInterest, Latitude, Longitude, Uploaded,
    Country, WebsourceId, InterestIds, Dnc, SourceColumn,
    FirstNameNorm, LastNameNorm, ZipNorm]

  const FLAGS: seq<Flag> := [
    FirstNameCandidate, LastNameCandidate, FullNameCandidate, EmailBlank,
    EmailSyntaxFailure, ExportEligible, ZipStateAssessable, GeographyMismatch]

  /** `STATE_ZIP_PREFIXES`: the ZIP prefixes of the 51 states; None for any other key. */
  function StateZipPrefixes(state: string): Option<seq<string>> {
    match state
    case "AL" => Some(["35", "36"])
    case "AK" => Some(["99"])
    case "AZ" => Some(["85", "86"])
    case "AR" => Some(["71", "72"])
    case "CA" => Some(["90", "91", "92", "93", "94", "95", "96"])
    case "CO" => Some(["80", "81"])
    case "CT" => Some(["06"])
    case "DE" => Some(["19"])
    case "DC" => Some(["20", "20"])
    case "FL" => Some(["32", "33", "34"])
    case "GA" => Some(["30", "31"])
    case "HI" => Some(["96", "97"])
    case "ID" => Some(["83", "84"])
    case "IL" => Some(["60", "61", "62"])
    case "IN" => Some(["46", "47"])
    case "IA" => Some(["50", "51", "52"])
    case "KS" => Some(["66", "67"])
    case "KY" => Some(["40", "41", "42"])
    case "LA" => Some(["70", "71"])
    case "ME" => Some(["03", "04"])
    case "MD" => Some(["21", "22"])
    case "MA" => Some(["01", "02"])
    case "MI" => Some(["48", "49"])
    case "MN" => Some(["55", "56"])
    case "MS" => Some(["38", "39"])
    case "MO" => Some(["63", "64", "65"])
    case "MT" => Some(["59"])
    case "NE" => Some(["68", "69"])
    case "NV" => Some(["88", "89"])
    case "NH" => Some(["03"])
    case "NJ" => Some(["07", "08"])
    case "NM" => Some(["87", "88"])
    case "NY" => Some(["10", "11", "12", "13", "14"])
    case "NC" => Some(["27", "28"])
    case "ND" => Some(["58"])
    case "OH" => Some(["43", "44", "45"])
    case "OK" => Some(["73", "74"])
    case "OR" => Some(["97"])
    case "PA" => Some(["15", "16", "17", "18", "19"])
    case "RI" => Some(["02", "03"])
    case "SC" => Some(["29"])
    case "SD" => Some(["57"])
    case "TN" => Some(["37", "38"])
    case "TX" => Some(["75", "76", "77", "78", "79"])
    case "UT" => Some(["84"])
    case "VT" => Some(["05"])
    case "VA" => Some(["22", "23", "24"])
    case "WA" => Some(["98", "99"])
    case "WV" => Some(["24", "25", "26"])
    case "WI" => Some(["53", "54"])
    case "WY" => Some(["82", "83"])
    case _ => None
  }

  const SUSPICIOUS_NAME_PATTERNS: seq<string> := [
    "test", "fake", "dummy", "xxx", "zzz", "aaa", "bbb",
    "admin", "null", "none", "na", "n/a", "unknown",
    "example", "sample", "asdf", "qwerty", "abc", "xyz"]
}
