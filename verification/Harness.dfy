/** The stages as the program runs them: methods that change the files, each proved to be the step
    of the stage machine it stands for. */
module Harness {
  import opened Contract
  import opened Rows
  import opened Lockstep
  import opened Json
  import opened Baseline
  import opened Verdict
  import opened Stages
  import opened StagedRuns
  import opened Completeness
  import Recorder
  import Safety

  /** How a stage ends for its caller: an exit code, or an exception. */
  datatype Exit = Code(n: int) | Raised

  class Session3M {
    const w: World
    var disk: Disk

    constructor (w: World, disk: Disk)
      ensures this.w == w && this.disk == disk
    {
      this.w, this.disk := w, disk;
    }

    /** `phase_generate`; the random dataset is a parameter. */
    method PhaseGenerate(p: PassNo, rows: int, seed: int, content: Bytes, ending: Ending) returns (exit: Exit)
      modifies this
      ensures disk == AfterGenerate(w, old(disk), p, rows, seed, content, ending)
      ensures exit == if ending.Completed? then Code(0) else Raised
    {
      var path := InPath(seed, p);
      disk := disk.(csvs := disk.csvs[path := content]);
      var sha, size := w.sha(disk.csvs[path]), |disk.csvs[path]|;
      if ending.Died? {
        return Raised;
      }
      disk := disk.(gens := disk.gens.Set(p, if ending.Torn? then BadGen else Gen(path, rows, seed, size, sha)));
      exit := if ending.Torn? then Raised else Code(0);
    }

    /** `phase_validate`; what the engine does is a parameter, and `own` is what the wrapper's dump does
        itself. Exit 0 is exactly return code 0 of a run that was recorded and safe up to its dump, or that
        left without a record through `os._exit` where the record of an earlier run still passes. */
    method PhaseValidate(p: PassNo, seed: int, run: EngineRun, own: seq<Recorder.AuditEvent>, ending: Ending)
      returns (exit: Exit)
      modifies this
      ensures disk == AfterValidate(w, old(disk), p, seed, run, ending)
      ensures exit == Code(0) <==> old(disk).gens.At(p).Gen? && ending.Completed?
                                   && Safety.RanSafely(w.root, old(disk).events.At(p), run.trace, MAX_EVENTS, run.end)
    {
      var gen := disk.gens.At(p);
      if !gen.Gen? {
        return Raised;
      }
      var inPath, outPath := gen.path, OutPath(seed, p);
      var events, code := Recorder.Wrap(run.trace, MAX_EVENTS, own, run.late, run.end, disk.events.At(p));
      Safety.CleanExitAndPassExactly(w.root, disk.events.At(p), run.trace, MAX_EVENTS, run.end);
      var csvs := PutOrRemove(disk.csvs, inPath, run.inputAfter);
      csvs := PutOrRemove(csvs, outPath, run.outputAfter);
      disk := disk.(csvs := csvs, manifests := disk.manifests.Set(p, run.manifestAfter),
                    events := disk.events.Set(p, events));
      if ending.Died? {
        return Raised;
      }
      var inShaAfter := if run.inputAfter.Some? then w.sha(run.inputAfter.value) else "";
      var outSha := if code == 0 && run.outputAfter.Some? then w.sha(run.outputAfter.value) else "";
      var outSize := if run.outputAfter.Some? then |run.outputAfter.value| else 0;
      var safety := Safety.ClassifyRuntimeSafety(w.root, events);
      var cli := if ending.Torn? then BadCli
                 else CliSaved(code, outPath, outSize, outSha, inShaAfter, Some(safety.status));
      disk := disk.(clis := disk.clis.Set(p, cli));
      exit := if ending.Torn? then Raised
              else Code(if code == 0 && safety.status == Safety.SafetyPass then 0 else 1);
    }

    /** `phase_verify`: every exception inside its `try` leaves a blocked result; a crash before it
        leaves whatever was there. */
    method PhaseVerify(p: PassNo, session: Session, rows: int, seed: int, ending: Ending) returns (exit: Exit)
      requires w.checker.WellFormed()
      modifies this
      ensures disk == AfterVerify(VerifyStage(w), old(disk), p, session, rows, seed, ending)
      ensures exit == Code(0) <==> ending.Completed? && VerifyExitsZero(w, Observe(old(disk), p, session, rows, seed))
    {
      if ending.Died? {
        return Raised;
      }
      var s := Observe(disk, p, session, rows, seed);
      var saved, code := BlockedResult(s), 1;
      if s.gen.Gen? && s.cli.CliSaved? && s.output.Some? && s.cli.outSha != "" && s.input.Some? {
        var input, output := w.parse(s.input.value), w.parse(s.output.value);
        if input.Some? && output.Some? {
          var v := VerifyAndOracle(w.checker, input.value, output.value, rows);
          var sp1 := Sp1Verification(w.text, s.manifest, session.pinned);
          saved := FullResult(s, v, sp1);
          if s.cli.returnCode == 0 && s.gen.rows == rows && s.gen.seed == seed
             && v.Clean() && v.comparisons == rows * 8 && sp1.status
             && s.cli.safety == Some(Safety.SafetyPass) && s.gen.sha == s.cli.inShaAfter {
            code := 0;
          }
        }
      }
      if ending.Torn? {
        disk := disk.(results := disk.results.Set(p, Unreadable));
        return Raised;
      }
      disk := disk.(results := disk.results.Set(p, Holds(saved)));
      exit := Code(code);
    }

    /** The report, and on PASS the removal of run 2's bulk files. */
    method WriteReport(pass: bool, cleanup: set<string>, ending: Ending)
      modifies this
      ensures disk == Conclude(old(disk), pass, cleanup, ending)
    {
      disk := disk.(final := Final(pass));
      if pass && ending.Completed? {
        disk := disk.(csvs := disk.csvs - cleanup);
      }
    }

    /** `phase_finalize` */
    method PhaseFinalize(session: Session, rows: int, seed: int, keepPass2: bool, ending: Ending) returns (exit: Exit)
      modifies this
      ensures disk == AfterFinalize(old(disk), session, rows, seed, keepPass2, ending)
      ensures exit == Code(0) <==> ending.Completed? && !Raises(FirstRun(old(disk)), SecondRun(old(disk)))
                                   && FinalizePasses(old(disk), session, rows, seed)
    {
      var p1, p2 := FirstRun(disk), SecondRun(disk);
      if ending.Died? || Raises(p1, p2) {
        return Raised;
      }
      var pass := FinalizePasses(disk, session, rows, seed);
      WriteReport(pass, if keepPass2 || p2.None? then {} else CleanupPaths(p2.value), ending);
      exit := if ending.Torn? then Raised else Code(if pass then 0 else 1);
    }

    /** `run_pass`: a failed generation ends the pass; a failed validation or verification does not. */
    method RunPass(p: PassNo, session: Session, rows: int, seed: int, content: Bytes, run: EngineRun,
                   own: seq<Recorder.AuditEvent>, generated: Ending, validated: Ending, verified: Ending)
      requires w.checker.WellFormed()
      modifies this
      ensures disk == AfterPass(w, old(disk), p, session, rows, seed, content, run, generated, validated, verified)
    {
      var exit := PhaseGenerate(p, rows, seed, content, generated);
      if exit.Raised? {
        return;
      }
      exit := PhaseValidate(p, seed, run, own, validated);
      exit := PhaseVerify(p, session, rows, seed, verified);
    }
  }

  /** The actions `run_pass` takes. */
  function PassPlan(p: PassNo, session: Session, rows: int, seed: int, content: Bytes, run: EngineRun,
                    generated: Ending, validated: Ending, verified: Ending): seq<Action>
  {
    [Generate(p, rows, seed, content, generated)]
    + (if generated.Completed? then
         [Validate(p, seed, run, validated), Verify(p, session, rows, seed, verified)]
       else [])
  }

  ghost function AfterPass(w: World, d: Disk, p: PassNo, session: Session, rows: int, seed: int, content: Bytes,
                           run: EngineRun, generated: Ending, validated: Ending, verified: Ending): Disk
  {
    var d1 := AfterGenerate(w, d, p, rows, seed, content, generated);
    if !generated.Completed? then d1
    else AfterVerify(VerifyStage(w), AfterValidate(w, d1, p, seed, run, validated), p, session, rows, seed, verified)
  }

  /** A pass run by the program is a run of the stage machine, so everything proved of runs holds of it. */
  lemma PassIsARun(w: World, m: Machine, p: PassNo, session: Session, rows: int, seed: int, content: Bytes,
                   run: EngineRun, generated: Ending, validated: Ending, verified: Ending)
    ensures RunAll(w, m, PassPlan(p, session, rows, seed, content, run, generated, validated, verified)).disk
            == AfterPass(w, m.disk, p, session, rows, seed, content, run, generated, validated, verified)
  {
    var result, finalize := VerifyStage(w), FinalizeStage();
    var a, b, c := Generate(p, rows, seed, content, generated), Validate(p, seed, run, validated),
                   Verify(p, session, rows, seed, verified);
    var plan := PassPlan(p, session, rows, seed, content, run, generated, validated, verified);
    var m1 := Apply(w, result, finalize, m, a);
    if generated.Completed? {
      var m2 := Apply(w, result, finalize, m1, b);
      assert plan == [a] + [b, c] && [b, c] == [b] + [c] && [c] == [c] + [];
      RunStep(w, result, finalize, m, a, [b, c]);
      RunStep(w, result, finalize, m1, b, [c]);
      RunStep(w, result, finalize, m2, c, []);
    } else {
      assert plan == [a] + [];
      RunStep(w, result, finalize, m, a, []);
    }
  }
}
