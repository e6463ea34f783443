/** The other direction: the verify stage and the gate agree, and honest runs do reach PASS. */
module Completeness {
  import opened Contract
  import opened Text
  import opened Rows
  import opened Lockstep
  import opened Exactness
  import opened Json
  import opened Baseline
  import opened Verdict
  import opened Stages
  import opened EndToEnd
  import opened StagedRuns
  import Recorder
  import Safety
  import Engine
  import Rules

  /** The hashes in the stage files are SHA-256 digests and the output was not empty. */
  predicate Digests(s: Snapshot)
    requires s.gen.Gen? && s.cli.CliSaved?
  {
    |s.gen.sha| == 64 && HexDigest(s.cli.outSha, 64) && s.cli.outSize > 0
  }

  predicate ManifestTexts(s: Snapshot) {
    s.manifest.Manifest? ==> AllStrings(s.manifest.ruleHashes)
  }

  /** Stage and gate, compared under one session: exit code 0 with real digests and textual manifest
      hashes is the gate's per-run PASS plus the one thing only the stage looks at: the manifest has
      the full hashes of every secondary pin. */
  lemma StageAndGateAgree(w: World, s: Snapshot, p: Pinned)
    requires Lawful(w) && Coherent(p) && s.session.pinned == Some(p) && s.session.commit.Some?
    ensures VerifyExitsZero(w, s) && Digests(s) && ManifestTexts(s) <==>
            RunPasses(Loaded(w, s), GateOf(s.session, s.rows, s.seed)) && SecondariesMatch(s.manifest, p)
  {
    SavedResultPasses(w, s, GateOf(s.session, s.rows, s.seed));
    if Readable(w, s) { FactsAndExitCode(w.text, s, Compare(w, s), p); }
  }

  lemma FactsAndExitCode(text: Json -> string, s: Snapshot, v: Verification, p: Pinned)
    requires TextOfStrings(text) && Coherent(p) && s.session.pinned == Some(p) && s.session.commit.Some?
    requires s.gen.Gen? && s.cli.CliSaved? && (v.rowCount ==> v.outputRows == s.rows)
    ensures var sp1 := Sp1Verification(text, s.manifest, Some(p));
            (s.cli.returnCode == 0 && s.gen.rows == s.rows && s.gen.seed == s.seed
             && v.Clean() && v.comparisons == s.rows * 8 && sp1.status
             && s.cli.safety == Some(Safety.SafetyPass) && s.gen.sha == s.cli.inShaAfter
             && Digests(s) && ManifestTexts(s))
            <==> FactsOf(s, v, sp1, GateOf(s.session, s.rows, s.seed)).All() && SecondariesMatch(s.manifest, p)
  {
    StageAndGateOnSp1(text, s.manifest, p);
  }

  // ---- honest runs ----

  lemma PathsDiffer(seed: int)
    ensures forall p: PassNo, q: PassNo :: InPath(seed, p) != OutPath(seed, q)
  {
  }

  /** The engine ended well, left the input alone and wrote `output`; its manifest meets the pin and
      its trace was clean. */
  predicate HonestEngine(w: World, session: Session, run: EngineRun, input: Bytes, output: Bytes) {
    && run.end == Recorder.Returned(0, true) && run.inputAfter == Some(input) && run.outputAfter == Some(output)
    && Sp1Verification(w.text, run.manifestAfter, session.pinned).status
    && (run.manifestAfter.Manifest? ==> AllStrings(run.manifestAfter.ruleHashes))
    && Safety.SafeTrace(w.root, run.trace, MAX_EVENTS)
  }

  function PassActions(p: PassNo, session: Session, rows: int, seed: int, input: Bytes, run: EngineRun): seq<Action> {
    [Generate(p, rows, seed, input, Completed), Validate(p, seed, run, Completed),
     Verify(p, session, rows, seed, Completed)]
  }

  /** What an honest pass leaves for its verify stage to see; its own record replaces any earlier one. */
  function HonestSnapshot(w: World, p: PassNo, session: Session, rows: int, seed: int, input: Bytes, output: Bytes,
                          run: EngineRun): Snapshot
  {
    Snapshot(p, session, rows, seed, Gen(InPath(seed, p), rows, seed, |input|, w.sha(input)),
             CliState(w, run, Recorder.NoEvents, OutPath(seed, p)), run.manifestAfter, Some(input), Some(output))
  }

  function AfterThree(w: World, result: Snapshot -> Json, finalize: (Disk, Action) -> Disk, m: Machine,
                      p: PassNo, session: Session, rows: int, seed: int, input: Bytes, run: EngineRun): Machine
  {
    var m1 := Apply(w, result, finalize, m, Generate(p, rows, seed, input, Completed));
    var m2 := Apply(w, result, finalize, m1, Validate(p, seed, run, Completed));
    Apply(w, result, finalize, m2, Verify(p, session, rows, seed, Completed))
  }

  lemma RunThree(w: World, result: Snapshot -> Json, finalize: (Disk, Action) -> Disk, m: Machine,
                 p: PassNo, session: Session, rows: int, seed: int, input: Bytes, run: EngineRun)
    ensures Run(w, result, finalize, m, PassActions(p, session, rows, seed, input, run))
            == AfterThree(w, result, finalize, m, p, session, rows, seed, input, run)
  {
    var a1, a2, a3 := Generate(p, rows, seed, input, Completed), Validate(p, seed, run, Completed),
                      Verify(p, session, rows, seed, Completed);
    var m1 := Apply(w, result, finalize, m, a1);
    RunStep(w, result, finalize, m, a1, [a2, a3]);
    RunStep(w, result, finalize, m1, a2, [a3]);
    RunStep(w, result, finalize, Apply(w, result, finalize, m1, a2), a3, []);
    assert [a1] + [a2, a3] == PassActions(p, session, rows, seed, input, run);
    assert [a2] + [a3] == [a2, a3] && [a3] + [] == [a3];
  }

  lemma RunStep(w: World, result: Snapshot -> Json, finalize: (Disk, Action) -> Disk, m: Machine,
                a: Action, rest: seq<Action>)
    ensures Run(w, result, finalize, m, [a] + rest) == Run(w, result, finalize, Apply(w, result, finalize, m, a), rest)
  {
  }

  lemma HonestPass(w: World, result: Snapshot -> Json, finalize: (Disk, Action) -> Disk, m: Machine,
                   p: PassNo, session: Session, rows: int, seed: int, input: Bytes, output: Bytes, run: EngineRun)
    requires HonestEngine(w, session, run, input, output)
    ensures var m' := AfterThree(w, result, finalize, m, p, session, rows, seed, input, run);
            && m'.disk.results == m.disk.results.Set(
                 p, Holds(result(HonestSnapshot(w, p, session, rows, seed, input, output, run))))
            && m'.disk.csvs == m.disk.csvs[InPath(seed, p) := input][OutPath(seed, p) := output]
  {
  }

  /** The verified tables are clean, for whatever reason. */
  ghost predicate CleanTables(w: World, input: Bytes, output: Bytes, rows: int) {
    && w.parse(input).Some? && w.parse(output).Some? && output != ""
    && Verified(w.checker, w.parse(input).value, w.parse(output).value, rows).Clean()
  }

  lemma HonestSnapshotPasses(w: World, p: PassNo, session: Session, rows: int, seed: int, input: Bytes, output: Bytes,
                             run: EngineRun, pin: Pinned)
    requires Lawful(w) && HonestEngine(w, session, run, input, output) && CleanTables(w, input, output, rows)
    requires session.pinned == Some(pin) && Coherent(pin) && session.commit.Some?
    ensures SnapshotPasses(w, HonestSnapshot(w, p, session, rows, seed, input, output, run),
                           GateOf(session, rows, seed))
  {
    var s := HonestSnapshot(w, p, session, rows, seed, input, output, run);
    Safety.DumpPassesExactly(w.root, run.trace, MAX_EVENTS);
    assert HexDigest(w.sha(input), 64) && HexDigest(w.sha(output), 64);
    assert Readable(w, s);
    VerificationExact(w.checker, InputTable(w, s), OutputTable(w, s), rows);
    FactsAndExitCode(w.text, s, Compare(w, s), pin);
  }

  /** One honest pass, as a run of stages: what it leaves, and that what its verify stage saw passes. */
  lemma HonestPassRuns(w: World, m: Machine, p: PassNo, session: Session, rows: int, seed: int, input: Bytes,
                       output: Bytes, run: EngineRun, pin: Pinned)
    returns (m': Machine)
    requires Lawful(w) && CleanTables(w, input, output, rows) && HonestEngine(w, session, run, input, output)
    requires session.pinned == Some(pin) && Coherent(pin) && session.commit.Some?
    ensures m' == RunAll(w, m, PassActions(p, session, rows, seed, input, run))
    ensures var s := HonestSnapshot(w, p, session, rows, seed, input, output, run);
            && m'.disk.results == m.disk.results.Set(p, Holds(ResultOf(w, s)))
            && m'.disk.csvs == m.disk.csvs[InPath(seed, p) := input][OutPath(seed, p) := output]
            && SnapshotPasses(w, s, GateOf(session, rows, seed))
  {
    var result, finalize := VerifyStage(w), FinalizeStage();
    m' := AfterThree(w, result, finalize, m, p, session, rows, seed, input, run);
    RunThree(w, result, finalize, m, p, session, rows, seed, input, run);
    HonestPass(w, result, finalize, m, p, session, rows, seed, input, output, run);
    HonestSnapshotPasses(w, p, session, rows, seed, input, output, run, pin);
  }

  /** Two passing results over one input and one output, with nothing touched since. */
  lemma PairOfPasses(w: World, before: Disk, d: Disk, s1: Snapshot, s2: Snapshot, session: Session, rows: int,
                     seed: int, input: Bytes, output: Bytes)
    requires d.results == before.results.Set(One, Holds(ResultOf(w, s1))).Set(Two, Holds(ResultOf(w, s2)))
    requires d.csvs == before.csvs[InPath(seed, One) := input][OutPath(seed, One) := output]
                                  [InPath(seed, Two) := input][OutPath(seed, Two) := output]
    requires SnapshotPasses(w, s1, GateOf(session, rows, seed)) && SnapshotPasses(w, s2, GateOf(session, rows, seed))
    requires s1.gen.sha == s2.gen.sha && s1.cli.outSha == s2.cli.outSha
    requires s1.input == s2.input && s1.output == s2.output && s1.rows == s2.rows
    requires s1.cli.outPath == OutPath(seed, One) && s2.cli.outPath == OutPath(seed, Two)
    requires session.pinned.Some? && !session.pinned.value.secondaryConflict
    ensures FinalizePasses(d, session, rows, seed)
  {
    PathsDiffer(seed);
    HonestVerdict(w, d, s1, s2, session, rows, seed);
  }

  /** An honest pair of passes reaches PASS from any disk: same dataset, clean tables, one session
      with a commit and a coherent, conflict-free pin. The gate is not vacuously strict. */
  lemma HonestRunsPass(w: World, m: Machine, session: Session, rows: int, seed: int, input: Bytes, output: Bytes,
                       run1: EngineRun, run2: EngineRun, pin: Pinned)
    requires Lawful(w) && CleanTables(w, input, output, rows)
    requires HonestEngine(w, session, run1, input, output) && HonestEngine(w, session, run2, input, output)
    requires session.pinned == Some(pin) && Coherent(pin) && !pin.secondaryConflict && session.commit.Some?
    ensures var m1 := RunAll(w, m, PassActions(One, session, rows, seed, input, run1));
            var m2 := RunAll(w, m1, PassActions(Two, session, rows, seed, input, run2));
            FinalizePasses(m2.disk, session, rows, seed)
  {
    var m1 := HonestPassRuns(w, m, One, session, rows, seed, input, output, run1, pin);
    var m2 := HonestPassRuns(w, m1, Two, session, rows, seed, input, output, run2, pin);
    PairOfPasses(w, m.disk, m2.disk, HonestSnapshot(w, One, session, rows, seed, input, output, run1),
                 HonestSnapshot(w, Two, session, rows, seed, input, output, run2), session, rows, seed, input, output);
  }

  lemma HonestVerdict(w: World, d: Disk, s1: Snapshot, s2: Snapshot, session: Session, rows: int, seed: int)
    requires d.results == Pair(Holds(ResultOf(w, s1)), Holds(ResultOf(w, s2)))
    requires SnapshotPasses(w, s1, GateOf(session, rows, seed)) && SnapshotPasses(w, s2, GateOf(session, rows, seed))
    requires s1.gen.sha == s2.gen.sha && s1.cli.outSha == s2.cli.outSha
    requires s1.input == s2.input && s1.output == s2.output && s1.rows == s2.rows
    requires s1.cli.outPath != "" && s2.cli.outPath != ""
    requires s1.cli.outPath in d.csvs && s2.cli.outPath in d.csvs && d.csvs[s1.cli.outPath] == d.csvs[s2.cli.outPath]
    requires session.pinned.Some? && !session.pinned.value.secondaryConflict
    ensures FinalizePasses(d, session, rows, seed)
  {
    LoadedCrossFields(w, s1);
    LoadedCrossFields(w, s2);
    assert SecondRun(d) == Some(Loaded(w, s2));
    assert ByteComparison(d) == Some(true);
    VerdictOnSnapshots(w, s1, s2, GateOf(session, rows, seed), ByteComparison(d));
  }

  /** With the frozen engine the clean tables come for free: a conforming dataset, and an output
      file that parses to what the V1 rules write. */
  lemma V1TablesAreClean(w: World, u: Unicode, input: Bytes, output: Bytes, rows: int)
    requires Engine.IsV1(w.checker, u) && AsciiCase(u) && output != ""
    requires w.parse(input).Some? && Engine.Conforming(w.checker, w.parse(input).value, rows)
    requires w.parse(output) == Some(Engine.EngineTable(w.checker, Rules.Registry(u), w.parse(input).value))
    ensures CleanTables(w, input, output, rows)
  {
    Engine.V1RunVerifies(w.checker, u, w.parse(input).value, rows);
  }
}
