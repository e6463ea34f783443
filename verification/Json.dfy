/** JSON values as `json.load` returns them, with Python's own notions of truth and equality. */
module Json {
  import opened Contract

  /** The keys the checker writes and reads. */
  datatype Key =
    | PassLabel | Blocked | Cli | Dataset | Output | VerificationKey | Sp1Frozen | RuntimeSafety
    | ScriptSha256 | GitCommit | RunStatus | RunPresent
    | ReturnCode
    | SchemaStatus | RowCountStatus | ColumnCountStatus | ColumnOrderStatus | RowIdentityStatus
    | RowOrderingStatus | SourceValuesPreservedStatus | OutputShapeStatus | FlagDomainStatus
    | OracleComparisons | OracleMismatches | FlagTotalsKey
    | Path | Rows | Seed | SizeBytes | Sha256 | Sha256AfterValidation
    | ExpectedNamesVerified | ExpectedHashesVerified | ManifestRuleHashes | Status
    | OtherKey(text: string)

  /** A JSON object is `Obj` under the checker's own keys, `ByRule` where rule ids are the keys,
      and `ByFlag` where flag columns are the keys and counts the values. */
  datatype Json =
    | Null
    | Bool(b: bool)
    | Int(n: int)
    | Float(r: real)
    | Str(s: string)
    | Arr(items: seq<Json>)
    | Obj(fields: map<Key, Json>)
    | ByRule(entries: map<string, Json>)
    | ByFlag(counts: map<Flag, nat>)
  {
    predicate IsDict() {
      Obj? || ByRule? || ByFlag?
    }

    /** `bool(value)` */
    predicate Truthy() {
      match this
      case Null => false
      case Bool(b) => b
      case Int(n) => n != 0
      case Float(r) => r != 0.0
      case Str(s) => s != ""
      case Arr(items) => items != []
      case Obj(fields) => fields != map[]
      case ByRule(entries) => entries != map[]
      case ByFlag(counts) => counts != map[]
    }

    /** `isinstance(value, int)`: Python's booleans are integers. */
    predicate IsInt() {
      Int? || Bool?
    }

    predicate IsNumber() {
      Int? || Bool? || Float?
    }

    function Number(): real
      requires IsNumber()
    {
      match this
      case Int(n) => n as real
      case Bool(b) => if b then 1.0 else 0.0
      case Float(r) => r
    }

    /** `value == n` */
    predicate EqualsInt(n: int) {
      IsNumber() && Number() == n as real
    }

    /** `value == text` */
    predicate EqualsStr(text: string) {
      Str? && s == text
    }
  }

  /** `data.get(key)` on a dictionary. */
  function Field(j: Json, key: Key): Json {
    if j.Obj? && key in j.fields then j.fields[key] else Null
  }

  const EMPTY := Obj(map[])

  /** `data.get(key) or {}` */
  function SubObject(j: Json, key: Key): Json {
    if Field(j, key).Truthy() then Field(j, key) else EMPTY
  }

  /** `_dig(data, key1, key2)` */
  function Dig(j: Json, key1: Key, key2: Key): Json {
    Field(Field(j, key1), key2)
  }

  /** `a == b` */
  predicate PyEq(a: Json, b: Json)
    decreases a
  {
    if a.IsNumber() then b.IsNumber() && a.Number() == b.Number()
    else match a
      case Arr(items) =>
        b.Arr? && |items| == |b.items| && forall i | 0 <= i < |items| :: PyEq(items[i], b.items[i])
      case Obj(fields) =>
        b.Obj? && fields.Keys == b.fields.Keys && forall k | k in fields :: PyEq(fields[k], b.fields[k])
      case ByRule(entries) =>
        b.ByRule? && entries.Keys == b.entries.Keys && forall k | k in entries :: PyEq(entries[k], b.entries[k])
      case _ => a == b
  }

  lemma {:induction false} PyEqReflexive(a: Json)
    ensures PyEq(a, a)
    decreases a
  {
    match a
    case Arr(items) => forall i | 0 <= i < |items| ensures PyEq(items[i], items[i]) { PyEqReflexive(items[i]); }
    case Obj(fields) => forall k | k in fields ensures PyEq(fields[k], fields[k]) { PyEqReflexive(fields[k]); }
    case ByRule(entries) => forall k | k in entries ensures PyEq(entries[k], entries[k]) { PyEqReflexive(entries[k]); }
    case _ =>
  }

  lemma {:induction false} PyEqSymmetric(a: Json, b: Json)
    requires PyEq(a, b)
    ensures PyEq(b, a)
    decreases a
  {
    if !a.IsNumber() {
      match a
      case Arr(items) =>
        forall i | 0 <= i < |items| ensures PyEq(b.items[i], items[i]) { PyEqSymmetric(items[i], b.items[i]); }
      case Obj(fields) =>
        forall k | k in fields ensures PyEq(b.fields[k], fields[k]) { PyEqSymmetric(fields[k], b.fields[k]); }
      case ByRule(entries) =>
        forall k | k in entries ensures PyEq(b.entries[k], entries[k]) { PyEqSymmetric(entries[k], b.entries[k]); }
      case _ =>
    }
  }
}
