/** Theorems over whole runs of the staged machine: any sequence of stages, with failures anywhere,
    followed by a verdict. */
module StagedRuns {
  import opened Contract
  import opened Text
  import opened Rows
  import opened Lockstep
  import opened Exactness
  import opened Json
  import opened Baseline
  import opened Verdict
  import opened Stages
  import opened EndToEnd
  import Safety

  ghost function RunAll(w: World, m: Machine, actions: seq<Action>): Machine {
    Run(w, VerifyStage(w), FinalizeStage(), m, actions)
  }

  lemma OnlyWholeFilesLoad(file: ResultFile)
    requires StatusOk(LoadPassResult(file))
    ensures file.Holds?
  {
  }

  /** A PASS rests on two whole results, each the record of a verify stage. */
  lemma WitnessedVerdict(w: World, m: Machine, session: Session, rows: int, seed: int)
    requires ResultsAreWitnessed(VerifyStage(w), m) && FinalizePasses(m.disk, session, rows, seed)
    ensures m.seen.one.Some? && m.seen.two.Some? && m.seen.one.value.pass == One && m.seen.two.value.pass == Two
    ensures m.disk.results.one == Holds(ResultOf(w, m.seen.one.value))
    ensures m.disk.results.two == Holds(ResultOf(w, m.seen.two.value))
    ensures PassCondition(w, m.seen.one.value, m.seen.two.value, GateOf(session, rows, seed), ByteComparison(m.disk))
  {
    var g, bytes := GateOf(session, rows, seed), ByteComparison(m.disk);
    var p1, p2 := FirstRun(m.disk), SecondRun(m.disk);
    VerdictMinimal(p1, p2, g, bytes);
    OnlyWholeFilesLoad(m.disk.results.one);
    OnlyWholeFilesLoad(m.disk.results.two);
    assert m.disk.results.At(One).Holds? && m.disk.results.At(Two).Holds?;
    VerdictOnSnapshots(w, m.seen.one.value, m.seen.two.value, g, bytes);
  }

  /** What a PASS after any run of the stages, starting without results, guarantees. */
  ghost predicate SoundPass(w: World, m: Machine, session: Session, rows: int, seed: int) {
    && m.seen.one.Some? && m.seen.two.Some?
    && var s1, s2 := m.seen.one.value, m.seen.two.value;
       && s1.pass == One && s2.pass == Two
       // each last whole result came from a verify stage of this script at this commit
       && s1.session.scriptSha == s2.session.scriptSha == session.scriptSha
       && session.commit.Some? && s1.session.commit == s2.session.commit == session.commit
       // which saw complete files and compared them for the expected rows and seed
       && Readable(w, s1) && Readable(w, s2)
       && s1.rows == s2.rows == rows && s1.gen.seed == s2.gen.seed == seed && s1.gen.rows == s2.gen.rows == rows
       && s1.cli.returnCode == 0 && s2.cli.returnCode == 0
       && s1.cli.safety == s2.cli.safety == Some(Safety.SafetyPass)
       // of one dataset digest, unchanged across both engine runs, and one output digest
       && |s1.gen.sha| == 64 && s1.gen.sha == s2.gen.sha == s1.cli.inShaAfter == s2.cli.inShaAfter
       && s1.cli.outSha == s2.cli.outSha
       // and found each output to be the enrichment of its input
       && Faithful(w.checker, InputTable(w, s1), OutputTable(w, s1), rows)
       && Faithful(w.checker, InputTable(w, s2), OutputTable(w, s2), rows)
       // the outputs present now are byte-identical
       && s1.cli.outPath in m.disk.csvs && s2.cli.outPath in m.disk.csvs
       && m.disk.csvs[s1.cli.outPath] == m.disk.csvs[s2.cli.outPath]
  }

  lemma ByteComparisonPaths(w: World, m: Machine)
    requires m.seen.one.Some? && m.seen.two.Some?
    requires Readable(w, m.seen.one.value) && Readable(w, m.seen.two.value)
    requires m.disk.results == Pair(Holds(ResultOf(w, m.seen.one.value)), Holds(ResultOf(w, m.seen.two.value)))
    requires ByteComparison(m.disk) == Some(true)
    ensures var s1, s2 := m.seen.one.value, m.seen.two.value;
            && s1.cli.outPath in m.disk.csvs && s2.cli.outPath in m.disk.csvs
            && m.disk.csvs[s1.cli.outPath] == m.disk.csvs[s2.cli.outPath]
  {
    LoadedCrossFields(w, m.seen.one.value);
    LoadedCrossFields(w, m.seen.two.value);
  }

  /** What the verdict's condition on two witnessed results amounts to. */
  lemma ConditionIsSound(w: World, m: Machine, session: Session, rows: int, seed: int)
    requires w.checker.WellFormed() && m.seen.one.Some? && m.seen.two.Some?
    requires m.seen.one.value.pass == One && m.seen.two.value.pass == Two
    requires m.disk.results == Pair(Holds(ResultOf(w, m.seen.one.value)), Holds(ResultOf(w, m.seen.two.value)))
    requires PassCondition(w, m.seen.one.value, m.seen.two.value, GateOf(session, rows, seed), ByteComparison(m.disk))
    ensures SoundPass(w, m, session, rows, seed)
  {
    var g := GateOf(session, rows, seed);
    PassedSnapshotIsFaithful(w, m.seen.one.value, g);
    PassedSnapshotIsFaithful(w, m.seen.two.value, g);
    ByteComparisonPaths(w, m);
  }

  /** End-to-end soundness: over every sequence of stages for both passes, with a crash or a torn
      file possible at each and any change to the other files in between, a PASS means both runs were
      verified by this script at this commit and each verified output is its input, row by row, with
      the oracle's flags. */
  lemma PassIsSound(w: World, m0: Machine, actions: seq<Action>, session: Session, rows: int, seed: int)
    requires w.checker.WellFormed() && Fresh(m0)
    ensures FinalizePasses(RunAll(w, m0, actions).disk, session, rows, seed) ==>
              SoundPass(w, RunAll(w, m0, actions), session, rows, seed)
  {
    FreshIsWitnessed(w, m0);
    FinalizeKeepsResults();
    RunKeepsWitness(w, VerifyStage(w), FinalizeStage(), m0, actions);
    var m := RunAll(w, m0, actions);
    if FinalizePasses(m.disk, session, rows, seed) {
      WitnessedVerdict(w, m, session, rows, seed);
      ConditionIsSound(w, m, session, rows, seed);
    }
  }

  lemma FreshIsWitnessed(w: World, m0: Machine)
    requires Fresh(m0)
    ensures ResultsAreWitnessed(VerifyStage(w), m0)
  {
  }

  lemma {:induction false} RunSnoc(w: World, result: Snapshot -> Json, finalize: (Disk, Action) -> Disk,
                                   m: Machine, actions: seq<Action>, a: Action)
    ensures Run(w, result, finalize, m, actions + [a])
            == Apply(w, result, finalize, Run(w, result, finalize, m, actions), a)
    decreases |actions|
  {
    if actions == [] {
      assert (actions + [a])[0] == a && (actions + [a])[1..] == [];
    } else {
      assert (actions + [a])[0] == actions[0] && (actions + [a])[1..] == actions[1..] + [a];
      RunSnoc(w, result, finalize, Apply(w, result, finalize, m, actions[0]), actions[1..], a);
    }
  }

  /** A PASS report on disk goes back to a step that turned it so. */
  lemma {:induction false} ReportOrigin(w: World, result: Snapshot -> Json, finalize: (Disk, Action) -> Disk,
                                        passes: (Disk, Action) -> bool, m0: Machine, actions: seq<Action>)
    requires forall d: Disk, a: Action :: d.final != Final(true) && finalize(d, a).final == Final(true) ==> passes(d, a)
    requires m0.disk.final != Final(true) && Run(w, result, finalize, m0, actions).disk.final == Final(true)
    ensures exists k :: 0 <= k < |actions| && actions[k].Finalize?
                        && passes(Run(w, result, finalize, m0, actions[..k]).disk, actions[k])
    decreases |actions|
  {
    var n := |actions| - 1;
    var front, a := actions[..n], actions[n];
    assert actions == front + [a];
    RunSnoc(w, result, finalize, m0, front, a);
    var m := Run(w, result, finalize, m0, front);
    if m.disk.final == Final(true) {
      ReportOrigin(w, result, finalize, passes, m0, front);
      var k :| 0 <= k < |front| && front[k].Finalize?
               && passes(Run(w, result, finalize, m0, front[..k]).disk, front[k]);
      assert actions[k] == front[k] && actions[..k] == front[..k];
    } else {
      assert a.Finalize? && passes(m.disk, a);
    }
  }

  /** A PASS report found on disk after any run was written by one of the run's finalize stages, and
      everything a PASS guarantees held at that moment. */
  lemma ReportIsSound(w: World, m0: Machine, actions: seq<Action>) returns (k: nat)
    requires w.checker.WellFormed() && Fresh(m0) && m0.disk.final != Final(true)
    requires RunAll(w, m0, actions).disk.final == Final(true)
    ensures k < |actions| && actions[k].Finalize?
            && SoundPass(w, RunAll(w, m0, actions[..k]), actions[k].session, actions[k].rows, actions[k].seed)
  {
    var passes := (d: Disk, a: Action) => a.Finalize? && FinalizePasses(d, a.session, a.rows, a.seed);
    FinalizeReports(passes);
    ReportOrigin(w, VerifyStage(w), FinalizeStage(), passes, m0, actions);
    k :| 0 <= k < |actions| && actions[k].Finalize? && passes(RunAll(w, m0, actions[..k]).disk, actions[k]);
    PassIsSound(w, m0, actions[..k], actions[k].session, actions[k].rows, actions[k].seed);
  }

  /** Only a disk that passes the gate has its report turned to PASS. */
  lemma FinalizeReports(passes: (Disk, Action) -> bool)
    requires forall d: Disk, a: Action :: passes(d, a) == (a.Finalize? && FinalizePasses(d, a.session, a.rows, a.seed))
    ensures forall d: Disk, a: Action ::
              d.final != Final(true) && FinalizeStage()(d, a).final == Final(true) ==> passes(d, a)
  {
  }

  /** The output files still hold what the verify stages read. */
  predicate OutputsUntouched(m: Machine, s1: Snapshot, s2: Snapshot)
    requires s1.cli.CliSaved? && s2.cli.CliSaved?
  {
    Lookup(m.disk.csvs, s1.cli.outPath) == s1.output && Lookup(m.disk.csvs, s2.cli.outPath) == s2.output
  }

  /** If the outputs were not touched between verify and finalize, a PASS means the two verified
      outputs are the same table, so the two inputs agree on every source column of every expected
      row, with no appeal to the hash. */
  lemma UntouchedOutputsAgree(w: World, m: Machine, session: Session, rows: int, seed: int, i: nat)
    requires SoundPass(w, m, session, rows, seed) && OutputsUntouched(m, m.seen.one.value, m.seen.two.value)
    requires i < rows
    ensures var s1, s2 := m.seen.one.value, m.seen.two.value;
            && OutputTable(w, s1) == OutputTable(w, s2)
            && AgreeOn(w.checker.source, InputTable(w, s1).rows[i], InputTable(w, s2).rows[i])
            && forall f: Flag ::
                 BitText(w.checker.oracle(InputTable(w, s1).rows[i]).At(f))
                 == BitText(w.checker.oracle(InputTable(w, s2).rows[i]).At(f))
  {
  }

  /** The premise is needed: the verdict looks at the output files only to compare them with each
      other, so replacing both by any one content keeps a PASS. */
  lemma ReplacedOutputsStillPass(d: Disk, session: Session, rows: int, seed: int, content: Bytes)
    requires FinalizePasses(d, session, rows, seed)
    ensures OutputPath(FirstRun(d)).Some? && SecondRun(d).Some? && OutputPath(SecondRun(d).value).Some?
    ensures FinalizePasses(Replaced(d, OutputPath(FirstRun(d)).value, OutputPath(SecondRun(d).value).value, content),
                           session, rows, seed)
  {
    PassHasSecondRun(d, session, rows, seed);
    ReplacedCompare(d, content);
  }

  function Replaced(d: Disk, path1: string, path2: string, content: Bytes): Disk {
    d.(csvs := d.csvs[path1 := content][path2 := content])
  }

  lemma ReplacedCompare(d: Disk, content: Bytes)
    requires ByteComparison(d) == Some(true)
    ensures OutputPath(FirstRun(d)).Some? && SecondRun(d).Some? && OutputPath(SecondRun(d).value).Some?
    ensures ByteComparison(Replaced(d, OutputPath(FirstRun(d)).value, OutputPath(SecondRun(d).value).value, content))
            == Some(true)
  {
  }

  // ---- clean-up ----

  /** Finalize removes files only on PASS, only when asked to, and only the two that run 2 names. */
  lemma CleanupOnlyAfterPass(d: Disk, session: Session, rows: int, seed: int, keepPass2: bool, ending: Ending)
    ensures var d' := AfterFinalize(d, session, rows, seed, keepPass2, ending);
            && d'.csvs.Keys <= d.csvs.Keys && (forall path | path in d'.csvs :: d'.csvs[path] == d.csvs[path])
            && d' == d.(csvs := d'.csvs, final := d'.final)
            && (d'.csvs != d.csvs ==>
                  && FinalizePasses(d, session, rows, seed) && !keepPass2 && ending.Completed?
                  && d'.final == Final(true)
                  && d.csvs.Keys - d'.csvs.Keys <= CleanupPaths(SecondRun(d).value))
  {
  }

  lemma PassHasSecondRun(d: Disk, session: Session, rows: int, seed: int)
    requires FinalizePasses(d, session, rows, seed)
    ensures SecondRun(d).Some? && !Raises(FirstRun(d), SecondRun(d)) && ByteComparison(d) == Some(true)
  {
  }

  /** Run 2's output is not there, so no byte comparison can be performed. */
  predicate OutputGone(d: Disk) {
    && SecondRun(d).Some? && OutputPath(SecondRun(d).value).Some?
    && OutputPath(SecondRun(d).value).value !in d.csvs
  }

  lemma GoneNeverPasses(d: Disk, session: Session, rows: int, seed: int)
    requires OutputGone(d)
    ensures !FinalizePasses(d, session, rows, seed)
  {
    assert ByteComparison(d) == None;
    VerdictMinimal(FirstRun(d), SecondRun(d), GateOf(session, rows, seed), ByteComparison(d));
  }

  /** The arguments of one finalize stage. */
  datatype Closing = Closing(session: Session, rows: int, seed: int, keepPass2: bool, ending: Ending)

  function AfterClosings(d: Disk, closings: seq<Closing>): Disk
    decreases |closings|
  {
    if closings == [] then d
    else
      var c := closings[0];
      AfterClosings(AfterFinalize(d, c.session, c.rows, c.seed, c.keepPass2, c.ending), closings[1..])
  }

  lemma GoneStaysGone(d: Disk, c: Closing)
    requires OutputGone(d)
    ensures OutputGone(AfterFinalize(d, c.session, c.rows, c.seed, c.keepPass2, c.ending))
  {
    GoneNeverPasses(d, c.session, c.rows, c.seed);
  }

  lemma {:induction false} GoneAfterClosings(d: Disk, closings: seq<Closing>)
    requires OutputGone(d)
    ensures OutputGone(AfterClosings(d, closings))
    decreases |closings|
  {
    if closings != [] {
      var c := closings[0];
      GoneStaysGone(d, c);
      GoneAfterClosings(AfterFinalize(d, c.session, c.rows, c.seed, c.keepPass2, c.ending), closings[1..]);
    }
  }

  lemma CleanUpRemovesTheOutput(d: Disk, session: Session, rows: int, seed: int)
    requires FinalizePasses(d, session, rows, seed)
    ensures OutputGone(AfterFinalize(d, session, rows, seed, false, Completed))
  {
    PassHasSecondRun(d, session, rows, seed);
    var p2 := SecondRun(d).value;
    assert OutputPath(p2).value in CleanupPaths(p2) by { assert Dig(p2, Output, Path).s in CleanupPaths(p2); }
  }

  /** After a PASS that cleaned up, no further finalize can PASS, however many came in between. */
  lemma FinalizeOnceOnly(d: Disk, session: Session, rows: int, seed: int, closings: seq<Closing>, last: Closing)
    requires FinalizePasses(d, session, rows, seed)
    ensures !FinalizePasses(AfterClosings(AfterFinalize(d, session, rows, seed, false, Completed), closings),
                            last.session, last.rows, last.seed)
  {
    CleanUpRemovesTheOutput(d, session, rows, seed);
    var d' := AfterFinalize(d, session, rows, seed, false, Completed);
    GoneAfterClosings(d', closings);
    GoneNeverPasses(AfterClosings(d', closings), last.session, last.rows, last.seed);
  }
}
