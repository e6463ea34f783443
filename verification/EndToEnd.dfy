/** From the verdict back to the tables: what a PASS of the staged run guarantees, when honest
    runs reach it, and what it does not look at. */
module EndToEnd {
  import opened Contract
  import opened Text
  import opened Rows
  import opened Lockstep
  import opened Exactness
  import opened Json
  import opened Baseline
  import opened Verdict
  import opened Stages
  import Safety

  /** The stage's saved result, as the gate loads it. */
  ghost function Loaded(w: World, s: Snapshot): Json {
    LoadPassResult(Holds(ResultOf(w, s)))
  }

  /** What the gate's per-run checks amount to on a full result: facts about the observed files,
      their verification v and their rule comparison sp1. */
  datatype Facts = Facts(
    cliReturnedZero: bool, clean: bool, comparisons: bool, mismatches: bool, rowsAndSeed: bool, inputImmutable: bool,
    outputIntact: bool, names: bool, hashes: bool, pinned: bool, savedNames: bool, savedHashes: bool,
    safe: bool, sameScript: bool, sameCommit: bool)
  {
    predicate All() {
      && cliReturnedZero && clean && comparisons && mismatches && rowsAndSeed && inputImmutable && outputIntact
      && names && hashes && pinned && savedNames && savedHashes && safe && sameScript && sameCommit
    }
  }

  function FactsOf(s: Snapshot, v: Verification, sp1: Sp1Result, g: Gate): Facts
    requires s.gen.Gen? && s.cli.CliSaved?
  {
    Facts(
      s.cli.returnCode == 0, v.StatusesPass(), v.comparisons == g.rows * 8, v.mismatches == 0,
      s.gen.rows == g.rows && s.gen.seed == g.seed,
      |s.gen.sha| == 64 && s.gen.sha == s.cli.inShaAfter,
      HexDigest(s.cli.outSha, 64) && s.cli.outSize > 0 && v.outputRows == g.rows,
      sp1.namesVerified, sp1.hashesVerified, g.pinned.Some?,
      g.pinned.Some? && SavedNamesMatch(SavedManifest(sp1), g.pinned.value),
      g.pinned.Some? && SavedHashesMatch(SavedManifest(sp1), g.pinned.value),
      s.cli.safety == Some(Safety.SafetyPass), s.session.scriptSha == g.scriptSha,
      g.gitCommit.Some? && s.session.commit == g.gitCommit)
  }

  ghost predicate SnapshotPasses(w: World, s: Snapshot, g: Gate) {
    Readable(w, s) && FactsOf(s, Compare(w, s), Sp1Verification(w.text, s.manifest, s.session.pinned), g).All()
  }

  lemma BlockedNeverPasses(s: Snapshot, g: Gate)
    ensures !RunPasses(LoadPassResult(Holds(BlockedResult(s))), g)
  {
  }

  predicate NonEmptyDict(j: Json) {
    j.Obj? && j.fields != map[]
  }

  /** What the loader and `run.get(key) or {}` make of a saved object, for any parts. */
  lemma LoadedParts(passName: string, scriptSha: string, commit: Json, blocked: bool, cli: Json, dataset: Json,
                    output: Json, verification: Json, sp1: Json, safety: Json)
    requires NonEmptyDict(cli) && NonEmptyDict(dataset) && NonEmptyDict(output)
    requires NonEmptyDict(verification) && NonEmptyDict(sp1) && NonEmptyDict(safety)
    ensures var run := LoadPassResult(Holds(ResultJson(passName, scriptSha, commit, blocked, cli, dataset,
                                                       output, verification, sp1, safety)));
            && StatusOk(run) && Field(run, RunPresent) == Bool(true)
            && SubObject(run, VerificationKey) == verification && SubObject(run, Key.Cli) == cli
            && SubObject(run, Dataset) == dataset && SubObject(run, Output) == output
            && SubObject(run, Sp1Frozen) == sp1 && SubObject(run, RuntimeSafety) == safety
            && Field(run, Blocked) == Bool(blocked) && Field(run, ScriptSha256) == Str(scriptSha)
            && Field(run, GitCommit) == commit
  {
    var j := ResultJson(passName, scriptSha, commit, blocked, cli, dataset, output, verification, sp1, safety);
    ResultFields(passName, scriptSha, commit, blocked, cli, dataset, output, verification, sp1, safety);
    Required(j);
    LoadedPart(j, VerificationKey);
    LoadedPart(j, Key.Cli);
    LoadedPart(j, Dataset);
    LoadedPart(j, Output);
    LoadedPart(j, Sp1Frozen);
    LoadedPart(j, RuntimeSafety);
    LoadedPart(j, Blocked);
    LoadedPart(j, ScriptSha256);
    LoadedPart(j, GitCommit);
  }

  lemma ResultFields(passName: string, scriptSha: string, commit: Json, blocked: bool, cli: Json, dataset: Json,
                     output: Json, verification: Json, sp1: Json, safety: Json)
    ensures var j := ResultJson(passName, scriptSha, commit, blocked, cli, dataset, output, verification, sp1, safety);
            && HasRequiredKeys(j.fields)
            && Field(j, VerificationKey) == verification && Field(j, Key.Cli) == cli && Field(j, Dataset) == dataset
            && Field(j, Output) == output && Field(j, Sp1Frozen) == sp1 && Field(j, RuntimeSafety) == safety
            && Field(j, Blocked) == Bool(blocked) && Field(j, ScriptSha256) == Str(scriptSha)
            && Field(j, GitCommit) == commit
  {
  }

  lemma Required(j: Json)
    requires j.Obj? && HasRequiredKeys(j.fields)
    ensures StatusOk(LoadPassResult(Holds(j))) && Field(LoadPassResult(Holds(j)), RunPresent) == Bool(true)
  {
  }

  lemma LoadedPart(j: Json, key: Key)
    requires j.Obj? && key != RunStatus && key != RunPresent
    ensures Field(LoadPassResult(Holds(j)), key) == Field(j, key)
    ensures NonEmptyDict(Field(j, key)) ==> SubObject(LoadPassResult(Holds(j)), key) == Field(j, key)
  {
  }

  lemma PartsAreDicts(s: Snapshot, v: Verification, sp1: Sp1Result)
    requires s.gen.Gen? && s.cli.CliSaved?
    ensures NonEmptyDict(CliJson(s)) && NonEmptyDict(DatasetJson(s)) && NonEmptyDict(OutputJson(s, v))
    ensures NonEmptyDict(VerificationJson(v)) && NonEmptyDict(Sp1Json(sp1)) && NonEmptyDict(SafetyJson(s))
  {
    assert ReturnCode in CliJson(s).fields && Path in DatasetJson(s).fields && Path in OutputJson(s, v).fields;
    assert Status in Sp1Json(sp1).fields && Status in SafetyJson(s).fields;
    VerificationIsDict(v);
  }

  /** The sub-objects the gate reads are those the stage wrote. */
  ghost predicate Wrote(run: Json, s: Snapshot, v: Verification, sp1: Sp1Result)
    requires s.gen.Gen? && s.cli.CliSaved?
  {
    && StatusOk(run) && Field(run, RunPresent) == Bool(true)
    && SubObject(run, VerificationKey) == VerificationJson(v)
    && SubObject(run, Key.Cli) == CliJson(s)
    && SubObject(run, Dataset) == DatasetJson(s)
    && SubObject(run, Output) == OutputJson(s, v)
    && SubObject(run, Sp1Frozen) == Sp1Json(sp1)
    && SubObject(run, RuntimeSafety) == SafetyJson(s)
    && Field(run, Blocked) == Bool(s.cli.returnCode != 0)
    && Field(run, ScriptSha256) == Str(s.session.scriptSha)
    && Field(run, GitCommit) == CommitJson(s.session.commit)
  }

  lemma FullWrote(s: Snapshot, v: Verification, sp1: Sp1Result)
    requires s.gen.Gen? && s.cli.CliSaved?
    ensures Wrote(LoadPassResult(Holds(FullResult(s, v, sp1))), s, v, sp1)
  {
    PartsAreDicts(s, v, sp1);
    LoadedParts(Label(s.pass), s.session.scriptSha, CommitJson(s.session.commit), s.cli.returnCode != 0,
                CliJson(s), DatasetJson(s), OutputJson(s, v), VerificationJson(v), Sp1Json(sp1), SafetyJson(s));
  }

  lemma WroteIsShaped(run: Json, s: Snapshot, v: Verification, sp1: Sp1Result)
    requires s.gen.Gen? && s.cli.CliSaved? && Wrote(run, s, v, sp1)
    ensures Shaped(run)
  {
  }

  lemma PassFailText(b: bool)
    ensures PassFail(b).EqualsStr("PASS") <==> b
  {
  }

  lemma StatusFields(a: Json, b: Json, c: Json, d: Json, e: Json, f: Json, g: Json, h: Json, i: Json,
                     comparisons: int, mismatches: int, totals: map<Flag, nat>)
    ensures var j := StatusJson(a, b, c, d, e, f, g, h, i, comparisons, mismatches, totals);
            AllStatusesPass(j) <==>
            && a.EqualsStr("PASS") && b.EqualsStr("PASS") && c.EqualsStr("PASS") && d.EqualsStr("PASS")
            && e.EqualsStr("PASS") && f.EqualsStr("PASS") && g.EqualsStr("PASS") && h.EqualsStr("PASS")
            && i.EqualsStr("PASS")
  {
  }

  lemma StatusJsonIsDict(a: Json, b: Json, c: Json, d: Json, e: Json, f: Json, g: Json, h: Json, i: Json,
                         comparisons: int, mismatches: int, totals: map<Flag, nat>)
    ensures NonEmptyDict(StatusJson(a, b, c, d, e, f, g, h, i, comparisons, mismatches, totals))
  {
    assert SchemaStatus in StatusJson(a, b, c, d, e, f, g, h, i, comparisons, mismatches, totals).fields;
  }

  lemma VerificationIsDict(v: Verification)
    ensures NonEmptyDict(VerificationJson(v))
  {
    StatusJsonIsDict(PassFail(v.schema), PassFail(v.rowCount), PassFail(v.columnCount), PassFail(v.columnOrder),
                     PassFail(v.rowIdentity), PassFail(v.rowOrdering), PassFail(v.sourcePreserved),
                     PassFail(v.outputShape), PassFail(v.flagDomain), v.comparisons, v.mismatches, v.flagTotals);
  }

  lemma StatusesWritten(v: Verification)
    ensures AllStatusesPass(VerificationJson(v)) <==> v.StatusesPass()
  {
    StatusFields(PassFail(v.schema), PassFail(v.rowCount), PassFail(v.columnCount), PassFail(v.columnOrder),
                 PassFail(v.rowIdentity), PassFail(v.rowOrdering), PassFail(v.sourcePreserved), PassFail(v.outputShape),
                 PassFail(v.flagDomain), v.comparisons, v.mismatches, v.flagTotals);
    PassFailText(v.schema);
    PassFailText(v.rowCount);
    PassFailText(v.columnCount);
    PassFailText(v.columnOrder);
    PassFailText(v.rowIdentity);
    PassFailText(v.rowOrdering);
    PassFailText(v.sourcePreserved);
    PassFailText(v.outputShape);
    PassFailText(v.flagDomain);
  }

  lemma VerificationWritten(v: Verification, g: Gate)
    ensures ComparisonsOk(VerificationJson(v), g.rows * 8) <==> v.comparisons == g.rows * 8
    ensures Field(VerificationJson(v), OracleMismatches).EqualsInt(0) <==> v.mismatches == 0
    ensures Field(VerificationJson(v), FlagTotalsKey) == ByFlag(v.flagTotals)
  {
  }

  lemma DatasetWritten(s: Snapshot, g: Gate)
    requires s.gen.Gen? && s.cli.CliSaved?
    ensures RowsSeedOk(DatasetJson(s), g.rows, g.seed) <==> s.gen.rows == g.rows && s.gen.seed == g.seed
    ensures ImmutableInput(DatasetJson(s)) <==> |s.gen.sha| == 64 && s.gen.sha == s.cli.inShaAfter
  {
  }

  lemma OutputWritten(s: Snapshot, v: Verification, g: Gate)
    requires s.cli.CliSaved?
    ensures OutputOk(OutputJson(s, v), g.rows) <==>
            HexDigest(s.cli.outSha, 64) && s.cli.outSize > 0 && v.outputRows == g.rows
  {
  }

  lemma Sp1Written(sp1: Sp1Result)
    ensures Field(Sp1Json(sp1), ExpectedNamesVerified) == Bool(sp1.namesVerified)
    ensures Field(Sp1Json(sp1), ExpectedHashesVerified) == Bool(sp1.hashesVerified)
    ensures Field(Sp1Json(sp1), ManifestRuleHashes) == SavedManifest(sp1)
  {
  }

  lemma RestWritten(run: Json, s: Snapshot, v: Verification, sp1: Sp1Result, g: Gate)
    requires s.gen.Gen? && s.cli.CliSaved? && Wrote(run, s, v, sp1)
    ensures SafetyPasses(run) <==> s.cli.safety == Some(Safety.SafetyPass)
    ensures Field(run, ScriptSha256).EqualsStr(g.scriptSha) <==> s.session.scriptSha == g.scriptSha
    ensures CommitMatches(run, g.gitCommit) <==> g.gitCommit.Some? && s.session.commit == g.gitCommit
    ensures Field(SubObject(run, Key.Cli), ReturnCode).EqualsInt(0) <==> s.cli.returnCode == 0
  {
  }

  /** The gate's per-run checks on a saved full result are exactly the facts. */
  lemma FullResultPasses(s: Snapshot, v: Verification, sp1: Sp1Result, g: Gate)
    requires s.gen.Gen? && s.cli.CliSaved?
    ensures RunPasses(LoadPassResult(Holds(FullResult(s, v, sp1))), g) <==> FactsOf(s, v, sp1, g).All()
  {
    var run := LoadPassResult(Holds(FullResult(s, v, sp1)));
    FullWrote(s, v, sp1);
    WroteIsShaped(run, s, v, sp1);
    StatusesWritten(v);
    VerificationWritten(v, g);
    DatasetWritten(s, g);
    OutputWritten(s, v, g);
    Sp1Written(sp1);
    RestWritten(run, s, v, sp1, g);
  }

  lemma SavedResultPasses(w: World, s: Snapshot, g: Gate)
    ensures RunPasses(Loaded(w, s), g) <==> SnapshotPasses(w, s, g)
  {
    if Readable(w, s) {
      FullResultPasses(s, Compare(w, s), Sp1Verification(w.text, s.manifest, s.session.pinned), g);
    } else {
      BlockedNeverPasses(s, g);
    }
  }

  // ---- soundness ----

  function InputTable(w: World, s: Snapshot): Table
    requires Readable(w, s)
  {
    w.parse(s.input.value).value
  }

  function OutputTable(w: World, s: Snapshot): Table
    requires Readable(w, s)
  {
    w.parse(s.output.value).value
  }

  lemma PassedSnapshotIsFaithful(w: World, s: Snapshot, g: Gate)
    requires w.checker.WellFormed() && SnapshotPasses(w, s, g)
    ensures s.rows == g.rows && Faithful(w.checker, InputTable(w, s), OutputTable(w, s), g.rows)
  {
    VerificationExact(w.checker, InputTable(w, s), OutputTable(w, s), s.rows);
  }

  /** PASS over two results that verify stages wrote, in terms of what the stages saw. */
  ghost predicate PassCondition(w: World, s1: Snapshot, s2: Snapshot, g: Gate, byteIdentical: Option<bool>) {
    && SnapshotPasses(w, s1, g) && SnapshotPasses(w, s2, g)
    && s1.gen.sha == s2.gen.sha && s1.cli.outSha == s2.cli.outSha
    && byteIdentical == Some(true)
    && Compare(w, s1).flagTotals == Compare(w, s2).flagTotals
    && !g.pinned.value.secondaryConflict
  }

  /** The fields the cross-run gates compare, on a saved result. */
  predicate CrossFields(run: Json, s: Snapshot, totals: map<Flag, nat>)
    requires s.gen.Gen? && s.cli.CliSaved?
  {
    && Dig(run, Dataset, Sha256) == Str(s.gen.sha) && Dig(run, Output, Sha256) == Str(s.cli.outSha)
    && Dig(run, Dataset, Path) == Str(s.gen.path) && Dig(run, Output, Path) == Str(s.cli.outPath)
    && Dig(run, VerificationKey, FlagTotalsKey) == ByFlag(totals)
    && Field(run, RunPresent) == Bool(true)
  }

  lemma DatasetFields(s: Snapshot)
    requires s.gen.Gen? && s.cli.CliSaved?
    ensures Field(DatasetJson(s), Sha256) == Str(s.gen.sha) && Field(DatasetJson(s), Path) == Str(s.gen.path)
  {
  }

  lemma OutputFields(s: Snapshot, v: Verification)
    requires s.cli.CliSaved?
    ensures Field(OutputJson(s, v), Sha256) == Str(s.cli.outSha) && Field(OutputJson(s, v), Path) == Str(s.cli.outPath)
  {
  }

  lemma TotalsField(v: Verification)
    ensures Field(VerificationJson(v), FlagTotalsKey) == ByFlag(v.flagTotals)
  {
  }

  lemma WroteCrossFields(run: Json, s: Snapshot, v: Verification, sp1: Sp1Result)
    requires s.gen.Gen? && s.cli.CliSaved? && Wrote(run, s, v, sp1)
    ensures CrossFields(run, s, v.flagTotals)
  {
    DatasetFields(s);
    OutputFields(s, v);
    TotalsField(v);
    DigIsSubField(run, Dataset, Sha256);
    DigIsSubField(run, Output, Sha256);
    DigIsSubField(run, Dataset, Path);
    DigIsSubField(run, Output, Path);
    DigIsSubField(run, VerificationKey, FlagTotalsKey);
  }

  lemma LoadedCrossFields(w: World, s: Snapshot)
    requires Readable(w, s)
    ensures CrossFields(Loaded(w, s), s, Compare(w, s).flagTotals)
  {
    var v, sp1 := Compare(w, s), Sp1Verification(w.text, s.manifest, s.session.pinned);
    FullWrote(s, v, sp1);
    WroteCrossFields(Loaded(w, s), s, v, sp1);
  }

  lemma AgreementOnCrossFields(p1: Json, p2: Json, s1: Snapshot, s2: Snapshot, t1: map<Flag, nat>,
                               t2: map<Flag, nat>, g: Gate, byteIdentical: Option<bool>)
    requires s1.gen.Gen? && s1.cli.CliSaved? && s2.gen.Gen? && s2.cli.CliSaved?
    requires CrossFields(p1, s1, t1) && CrossFields(p2, s2, t2)
    ensures CrossAgree(p1, p2, g, byteIdentical) <==>
            && s1.gen.sha == s2.gen.sha && s1.cli.outSha == s2.cli.outSha
            && byteIdentical == Some(true) && t1 == t2
            && g.pinned.Some? && !g.pinned.value.secondaryConflict
  {
  }

  /** The whole verdict on two saved results, in terms of what the stages saw. */
  lemma VerdictOnSnapshots(w: World, s1: Snapshot, s2: Snapshot, g: Gate, byteIdentical: Option<bool>)
    ensures FinalPass(Loaded(w, s1), Some(Loaded(w, s2)), g, byteIdentical)
            <==> PassCondition(w, s1, s2, g, byteIdentical)
  {
    var p1, p2 := Loaded(w, s1), Loaded(w, s2);
    VerdictMinimal(p1, Some(p2), g, byteIdentical);
    SavedResultPasses(w, s1, g);
    SavedResultPasses(w, s2, g);
    if Readable(w, s1) && Readable(w, s2) {
      LoadedCrossFields(w, s1);
      LoadedCrossFields(w, s2);
      AgreementOnCrossFields(p1, p2, s1, s2, Compare(w, s1).flagTotals, Compare(w, s2).flagTotals, g, byteIdentical);
    }
  }
}
