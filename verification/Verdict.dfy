/** The final gate: all required checks of one saved run, and the PASS/FAIL verdict over two runs.
    The results are whatever JSON the files held, so each defensive step is kept, including the
    places where a mistyped value makes the gate raise instead of failing. */
module Verdict {
  import opened Contract
  import opened Json
  import opened Baseline

  /** The keys `load_pass_result` requires. */
  predicate HasRequiredKeys(fields: map<Key, Json>) {
    && PassLabel in fields && Blocked in fields && Cli in fields && Dataset in fields && Output in fields
    && VerificationKey in fields && Sp1Frozen in fields && RuntimeSafety in fields
    && ScriptSha256 in fields && GitCommit in fields
  }

  /** A result file as the loader finds it. */
  datatype ResultFile = Absent | Unreadable | Holds(data: Json)

  /** `load_pass_result`: never raises; anything but a dictionary with all required keys is
      marked FAIL. */
  function LoadPassResult(file: ResultFile): Json {
    match file
    case Absent => Obj(map[RunPresent := Bool(false), RunStatus := Str("FAIL")])
    case Unreadable => Obj(map[RunPresent := Bool(true), RunStatus := Str("FAIL")])
    case Holds(data) =>
      if !data.IsDict() then Obj(map[RunPresent := Bool(true), RunStatus := Str("FAIL")])
      else
        var fields := if data.Obj? then data.fields else map[];
        var status := if HasRequiredKeys(fields) then "OK" else "FAIL";
        Obj(fields[RunStatus := Str(status)][RunPresent := Bool(true)])
  }

  /** What the checker computing the verdict brings along. */
  datatype Gate = Gate(pinned: Option<Pinned>, scriptSha: string, gitCommit: Option<string>, rows: int, seed: int)

  /** The dictionary of one run's checks. `statuses` stands for the nine verification statuses, and
      the two saved-manifest checks are recorded only when the pin is available. */
  datatype Checks =
    | InvalidFile
    | Checks(notBlocked: bool, cliReturncodeZero: bool, statuses: bool, comparisonsExpected: bool, mismatchesZero: bool,
             rowsSeedExpected: bool, inputImmutable: bool, outputIntegrity: bool,
             expectedNames: bool, expectedHashes: bool, pinnedAvailable: bool,
             savedNames: Option<bool>, savedHashes: Option<bool>, safetyPass: bool,
             scriptShaMatches: bool, gitCommitMatches: bool)
  {
    /** `all(v for k, v in checks.items() if not k.startswith("provenance."))` */
    predicate AllButProvenance() {
      && Checks? && notBlocked && cliReturncodeZero && statuses && comparisonsExpected && mismatchesZero
      && rowsSeedExpected && inputImmutable && outputIntegrity && expectedNames && expectedHashes && pinnedAvailable
      && savedNames != Some(false) && savedHashes != Some(false) && safetyPass
    }

    /** `all(checks.values())` */
    predicate All() {
      AllButProvenance() && scriptShaMatches && gitCommitMatches
    }
  }

  predicate StatusOk(run: Json) {
    Field(run, RunStatus).EqualsStr("OK")
  }

  /** The sub-objects are dictionaries (or falsy) and the output hash is text (or falsy): nothing
      in the per-run checks raises. */
  predicate Shaped(run: Json) {
    && SubObject(run, Cli).IsDict() && SubObject(run, VerificationKey).IsDict()
    && SubObject(run, Dataset).IsDict() && SubObject(run, Output).IsDict()
    && SubObject(run, Sp1Frozen).IsDict() && SubObject(run, RuntimeSafety).IsDict()
    && (Field(SubObject(run, Output), Sha256).Truthy() ==> Field(SubObject(run, Output), Sha256).Str?)
  }

  predicate Digest64(j: Json) {
    j.Str? && HexDigest(j.s, 64)
  }

  predicate ImmutableInput(dataset: Json) {
    var before := Field(dataset, Sha256);
    before.Str? && |before.s| == 64 && PyEq(before, Field(dataset, Sha256AfterValidation))
  }

  predicate OutputOk(output: Json, rows: int) {
    && Digest64(Field(output, Sha256))
    && Field(output, SizeBytes).IsInt() && Field(output, SizeBytes).Number() > 0.0
    && Field(output, Rows).EqualsInt(rows)
  }

  predicate CommitMatches(run: Json, commit: Option<string>) {
    commit.Some? && Field(run, GitCommit).EqualsStr(commit.value)
  }

  predicate StatusPasses(verification: Json, key: Key) {
    Field(verification, key).EqualsStr("PASS")
  }

  /** Every key of `REQUIRED_RUN_CHECK_KEYS` is "PASS". */
  predicate AllStatusesPass(verification: Json) {
    && StatusPasses(verification, SchemaStatus) && StatusPasses(verification, RowCountStatus)
    && StatusPasses(verification, ColumnCountStatus) && StatusPasses(verification, ColumnOrderStatus)
    && StatusPasses(verification, RowIdentityStatus) && StatusPasses(verification, RowOrderingStatus)
    && StatusPasses(verification, SourceValuesPreservedStatus) && StatusPasses(verification, OutputShapeStatus)
    && StatusPasses(verification, FlagDomainStatus)
  }

  predicate ComparisonsOk(verification: Json, expected: int) {
    Field(verification, OracleComparisons).IsInt() && Field(verification, OracleComparisons).EqualsInt(expected)
  }

  predicate RowsSeedOk(dataset: Json, rows: int, seed: int) {
    Field(dataset, Rows).EqualsInt(rows) && Field(dataset, Seed).EqualsInt(seed)
  }

  function SavedNamesCheck(sp1: Json, pinned: Option<Pinned>): Option<bool> {
    if pinned.None? then None else Some(SavedNamesMatch(Field(sp1, ManifestRuleHashes), pinned.value))
  }

  function SavedHashesCheck(sp1: Json, pinned: Option<Pinned>): Option<bool> {
    if pinned.None? then None else Some(SavedHashesMatch(Field(sp1, ManifestRuleHashes), pinned.value))
  }

  /** `_per_run_checks` */
  function PerRunChecks(run: Json, g: Gate): Checks
    requires StatusOk(run) ==> Shaped(run)
  {
    if !StatusOk(run) then InvalidFile
    else
      var v, d, sp1 := SubObject(run, VerificationKey), SubObject(run, Dataset), SubObject(run, Sp1Frozen);
      Checks(
        Field(run, Blocked) == Bool(false),
        Field(SubObject(run, Cli), ReturnCode).EqualsInt(0),
        AllStatusesPass(v), ComparisonsOk(v, g.rows * 8), Field(v, OracleMismatches).EqualsInt(0),
        RowsSeedOk(d, g.rows, g.seed), ImmutableInput(d), OutputOk(SubObject(run, Output), g.rows),
        Field(sp1, ExpectedNamesVerified) == Bool(true), Field(sp1, ExpectedHashesVerified) == Bool(true),
        g.pinned.Some?, SavedNamesCheck(sp1, g.pinned), SavedHashesCheck(sp1, g.pinned),
        SafetyPasses(run), Field(run, ScriptSha256).EqualsStr(g.scriptSha), CommitMatches(run, g.gitCommit))
  }

  predicate Structural(run: Json) {
    StatusOk(run) && Field(run, Blocked) == Bool(false)
  }

  predicate SafetyStatusReadable(run: Json) {
    SubObject(run, RuntimeSafety).IsDict()
  }

  predicate SafetyPasses(run: Json) {
    Field(SubObject(run, RuntimeSafety), Status).EqualsStr("PASS")
  }

  /** `a is not None and a == b` */
  predicate PresentAndEqual(a: Json, b: Json) {
    a != Null && PyEq(a, b)
  }

  predicate FlagTotalsEqual(p1: Json, p2: Json) {
    var t1, t2 := Dig(p1, VerificationKey, FlagTotalsKey), Dig(p2, VerificationKey, FlagTotalsKey);
    t1.IsDict() && PyEq(t1, t2)
  }

  /** `a == b == n` */
  predicate BothEqualInt(a: Json, b: Json, n: int) {
    PyEq(a, b) && b.EqualsInt(n)
  }

  /** The gates of the verdict, in the order they are recorded. */
  datatype Gates = Gates(
    exactlyTwoCompleteRuns: bool, run1Complete: bool, run2Complete: bool,
    run1AllChecks: bool, run2AllChecks: bool, allStagedSuccessful: bool,
    safetyVerified: bool, sp1Names: bool, sp1Hashes: bool,
    deterministicOutputs: bool, evidenceConsistent: bool)
  {
    predicate All() {
      && exactlyTwoCompleteRuns && run1Complete && run2Complete && run1AllChecks && run2AllChecks
      && allStagedSuccessful && safetyVerified && sp1Names && sp1Hashes
      && deterministicOutputs && evidenceConsistent
    }
  }

  /** Evaluating the gate raises on a mistyped sub-object; the exception leaves no verdict. */
  predicate Raises(p1: Json, p2: Option<Json>) {
    || (StatusOk(p1) && !Shaped(p1)) || !SafetyStatusReadable(p1)
    || (p2.Some? && ((StatusOk(p2.value) && !Shaped(p2.value)) || !SafetyStatusReadable(p2.value)))
  }

  predicate Deterministic(p1: Json, p2: Json, byteIdentical: Option<bool>) {
    && PresentAndEqual(Dig(p1, Dataset, Sha256), Dig(p2, Dataset, Sha256))
    && PresentAndEqual(Dig(p1, Output, Sha256), Dig(p2, Output, Sha256))
    && byteIdentical == Some(true)
    && FlagTotalsEqual(p1, p2)
  }

  /** `combined == c1 + c2` with both equal to the expected count. */
  predicate CountsMathOk(p1: Json, p2: Json, expected: int) {
    var c1, c2 := Dig(p1, VerificationKey, OracleComparisons), Dig(p2, VerificationKey, OracleComparisons);
    c1.IsInt() && c2.IsInt() && c1.EqualsInt(expected) && c2.EqualsInt(expected)
  }

  predicate EvidenceConsistent(c1: Checks, c2: Checks, p1: Json, p2: Json, g: Gate) {
    && c1.Checks? && c2.Checks?
    && c1.scriptShaMatches && c2.scriptShaMatches && c1.gitCommitMatches && c2.gitCommitMatches
    && BothEqualInt(Dig(p1, Dataset, Rows), Dig(p2, Dataset, Rows), g.rows)
    && BothEqualInt(Dig(p1, Dataset, Seed), Dig(p2, Dataset, Seed), g.seed)
    && CountsMathOk(p1, p2, g.rows * 8)
    && g.pinned.Some? && !g.pinned.value.secondaryConflict
  }

  /** `evaluate_final_verdict`'s gates. Run 2 is None when its file is not present. */
  function Evaluate(p1: Json, p2: Option<Json>, g: Gate, byteIdentical: Option<bool>): Gates
    requires !Raises(p1, p2)
  {
    var c1 := PerRunChecks(p1, g);
    if p2.None? then
      Gates(false, Structural(p1) && c1.All(), false, c1.All(), false, false, false, false, false, false, false)
    else
      var q := p2.value;
      var c2 := PerRunChecks(q, g);
      var both := c1.Checks? && c2.Checks?;
      Gates(Structural(p1) && Structural(q),
            Structural(p1) && c1.All(), Structural(q) && c2.All(), c1.All(), c2.All(),
            c1.AllButProvenance() && c2.AllButProvenance(),
            SafetyPasses(p1) && SafetyPasses(q),
            both && c1.expectedNames && c2.expectedNames && c1.savedNames == c2.savedNames == Some(true),
            both && c1.expectedHashes && c2.expectedHashes && c1.savedHashes == c2.savedHashes == Some(true),
            Deterministic(p1, q, byteIdentical), EvidenceConsistent(c1, c2, p1, q, g))
  }

  /** The verdict is PASS: the gate returned, and every gate holds. */
  predicate FinalPass(p1: Json, p2: Option<Json>, g: Gate, byteIdentical: Option<bool>) {
    !Raises(p1, p2) && Evaluate(p1, p2, g, byteIdentical).All()
  }

  // ---- the minimal form ----

  /** One run's file is valid and well typed, and every one of its checks holds. */
  predicate RunPasses(run: Json, g: Gate) {
    StatusOk(run) && Shaped(run) && PerRunChecks(run, g).All()
  }

  /** The two runs agree, the byte comparison succeeded, and no pin conflicts. */
  predicate CrossAgree(p1: Json, p2: Json, g: Gate, byteIdentical: Option<bool>) {
    && PyEq(Dig(p1, Dataset, Sha256), Dig(p2, Dataset, Sha256))
    && PyEq(Dig(p1, Output, Sha256), Dig(p2, Output, Sha256))
    && byteIdentical == Some(true)
    && FlagTotalsEqual(p1, p2)
    && g.pinned.Some? && !g.pinned.value.secondaryConflict
  }

  /** What PASS comes down to. */
  predicate Minimal(p1: Json, p2: Option<Json>, g: Gate, byteIdentical: Option<bool>) {
    p2.Some? && RunPasses(p1, g) && RunPasses(p2.value, g) && CrossAgree(p1, p2.value, g, byteIdentical)
  }

  lemma DigIsSubField(run: Json, key1: Key, key2: Key)
    ensures Dig(run, key1, key2) == Field(SubObject(run, key1), key2)
  {
  }

  /** What the cross-run gates repeat of a passing run's checks. */
  lemma PassingRun(run: Json, g: Gate)
    requires RunPasses(run, g)
    ensures var c := PerRunChecks(run, g);
            && Structural(run) && SafetyStatusReadable(run) && SafetyPasses(run)
            && g.pinned.Some? && c.savedNames == c.savedHashes == Some(true)
    ensures Dig(run, Dataset, Rows).EqualsInt(g.rows) && Dig(run, Dataset, Seed).EqualsInt(g.seed)
    ensures Dig(run, VerificationKey, OracleComparisons).IsInt()
    ensures Dig(run, VerificationKey, OracleComparisons).EqualsInt(g.rows * 8)
    ensures Dig(run, Dataset, Sha256).Str? && Digest64(Dig(run, Output, Sha256))
  {
  }

  lemma MinimalSuffices(p1: Json, p2: Option<Json>, g: Gate, byteIdentical: Option<bool>)
    requires Minimal(p1, p2, g, byteIdentical)
    ensures FinalPass(p1, p2, g, byteIdentical)
  {
    var q := p2.value;
    PassingRun(p1, g);
    PassingRun(q, g);
    assert !Raises(p1, p2);
    assert EvidenceConsistent(PerRunChecks(p1, g), PerRunChecks(q, g), p1, q, g);
    assert Deterministic(p1, q, byteIdentical);
  }

  lemma PassIsMinimal(p1: Json, p2: Option<Json>, g: Gate, byteIdentical: Option<bool>)
    requires FinalPass(p1, p2, g, byteIdentical)
    ensures Minimal(p1, p2, g, byteIdentical)
  {
  }

  /** PASS holds exactly when both runs pass every per-run check, input and output hashes agree,
      the byte comparison was performed and succeeded, the flag totals are equal dictionaries,
      and no secondary pin conflicts. The other gates are implied. */
  lemma VerdictMinimal(p1: Json, p2: Option<Json>, g: Gate, byteIdentical: Option<bool>)
    ensures FinalPass(p1, p2, g, byteIdentical) <==> Minimal(p1, p2, g, byteIdentical)
  {
    if Minimal(p1, p2, g, byteIdentical) { MinimalSuffices(p1, p2, g, byteIdentical); }
    if FinalPass(p1, p2, g, byteIdentical) { PassIsMinimal(p1, p2, g, byteIdentical); }
  }

  /** Neither run is privileged: exchanging the two results does not change the verdict. */
  lemma VerdictSymmetric(p1: Json, p2: Json, g: Gate, byteIdentical: Option<bool>)
    ensures FinalPass(p1, Some(p2), g, byteIdentical) <==> FinalPass(p2, Some(p1), g, byteIdentical)
  {
    VerdictMinimal(p1, Some(p2), g, byteIdentical);
    VerdictMinimal(p2, Some(p1), g, byteIdentical);
    if Minimal(p1, Some(p2), g, byteIdentical) { MinimalSwaps(p1, p2, g, byteIdentical); }
    if Minimal(p2, Some(p1), g, byteIdentical) { MinimalSwaps(p2, p1, g, byteIdentical); }
  }

  lemma MinimalSwaps(p1: Json, p2: Json, g: Gate, byteIdentical: Option<bool>)
    requires Minimal(p1, Some(p2), g, byteIdentical)
    ensures Minimal(p2, Some(p1), g, byteIdentical)
  {
    PyEqSymmetric(Dig(p1, Dataset, Sha256), Dig(p2, Dataset, Sha256));
    PyEqSymmetric(Dig(p1, Output, Sha256), Dig(p2, Output, Sha256));
    var t1, t2 := Dig(p1, VerificationKey, FlagTotalsKey), Dig(p2, VerificationKey, FlagTotalsKey);
    PyEqSymmetric(t1, t2);
    assert PyEq(t2, t1) && t2.IsDict();
  }

  /** Fail-closed: a result that is absent, unreadable, of another format, or blocked cannot be
      part of a PASS, whatever the other run and the comparison say. */
  lemma UnusableResultNeverPasses(file: ResultFile, other: Option<Json>, g: Gate, byteIdentical: Option<bool>)
    requires !file.Holds? || !file.data.Obj?
             || !HasRequiredKeys(file.data.fields)
             || Field(file.data, Blocked) != Bool(false)
    ensures !FinalPass(LoadPassResult(file), other, g, byteIdentical)
    ensures other.Some? ==> !FinalPass(other.value, Some(LoadPassResult(file)), g, byteIdentical)
  {
    var run := LoadPassResult(file);
    VerdictMinimal(run, other, g, byteIdentical);
    if other.Some? { VerdictMinimal(other.value, Some(run), g, byteIdentical); }
    if RunPasses(run, g) {
      PassingRun(run, g);
      assert false;
    }
  }
}
