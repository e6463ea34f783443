/** A PASS can report a digest that belongs to no verified file: a validate stage that dies after its
    engine ran leaves the record of the run before it. */
module Overtaken {
  import opened Contract
  import opened Text
  import opened Rows
  import opened Lockstep
  import opened Exactness
  import opened Json
  import opened Baseline
  import opened Verdict
  import opened Stages
  import opened EndToEnd
  import opened StagedRuns
  import opened Completeness
  import opened Trails
  import Attained
  import Engine
  import Recorder
  import Rules
  import Safety

  /** An honest engine run and its record, then an engine run whose stage dies before saving its own, then
      verify. */
  function OvertakenPass(p: PassNo, session: Session, rows: int, seed: int, input: Bytes, run: EngineRun,
                         second: EngineRun): seq<Action>
  {
    [Generate(p, rows, seed, input, Completed), Validate(p, seed, run, Completed), Validate(p, seed, second, Died),
     Verify(p, session, rows, seed, Completed)]
  }

  /** The second engine leaves a table, an output for it, and a manifest that meets the pin; nothing is
      said of its events or of how it ends. */
  predicate Leaves(w: World, session: Session, second: EngineRun, input: Bytes, output: Bytes) {
    && second.inputAfter == Some(input) && second.outputAfter == Some(output)
    && Sp1Verification(w.text, second.manifestAfter, session.pinned).status
    && (second.manifestAfter.Manifest? ==> AllStrings(second.manifestAfter.ruleHashes))
  }

  /** What verify sees: the records of the honest run, the files of the second. */
  function OvertakenSnapshot(w: World, p: PassNo, session: Session, rows: int, seed: int, input: Bytes, output: Bytes,
                             run: EngineRun, second: EngineRun): Snapshot
  {
    HonestSnapshot(w, p, session, rows, seed, input, output, run).(
      manifest := second.manifestAfter, input := second.inputAfter, output := second.outputAfter)
  }

  function AfterFour(w: World, result: Snapshot -> Json, finalize: (Disk, Action) -> Disk, m: Machine, p: PassNo,
                     session: Session, rows: int, seed: int, input: Bytes, run: EngineRun, second: EngineRun): Machine
  {
    var m1 := Apply(w, result, finalize, m, Generate(p, rows, seed, input, Completed));
    var m2 := Apply(w, result, finalize, m1, Validate(p, seed, run, Completed));
    var m3 := Apply(w, result, finalize, m2, Validate(p, seed, second, Died));
    Apply(w, result, finalize, m3, Verify(p, session, rows, seed, Completed))
  }

  lemma RunFour(w: World, result: Snapshot -> Json, finalize: (Disk, Action) -> Disk, m: Machine, p: PassNo,
                session: Session, rows: int, seed: int, input: Bytes, run: EngineRun, second: EngineRun)
    ensures Run(w, result, finalize, m, OvertakenPass(p, session, rows, seed, input, run, second))
            == AfterFour(w, result, finalize, m, p, session, rows, seed, input, run, second)
  {
    var a1, a2, a3, a4 := Generate(p, rows, seed, input, Completed), Validate(p, seed, run, Completed),
                          Validate(p, seed, second, Died), Verify(p, session, rows, seed, Completed);
    var m1 := Apply(w, result, finalize, m, a1);
    var m2 := Apply(w, result, finalize, m1, a2);
    RunStep(w, result, finalize, m, a1, [a2, a3, a4]);
    RunStep(w, result, finalize, m1, a2, [a3, a4]);
    RunStep(w, result, finalize, m2, a3, [a4]);
    RunStep(w, result, finalize, Apply(w, result, finalize, m2, a3), a4, []);
    assert [a1] + [a2, a3, a4] == OvertakenPass(p, session, rows, seed, input, run, second);
    assert [a2] + [a3, a4] == [a2, a3, a4] && [a3] + [a4] == [a3, a4] && [a4] + [] == [a4];
  }

  /** How one overtaken pass leaves the machine. */
  predicate Overtook(result: Snapshot -> Json, m: Machine, m': Machine, p: PassNo, s: Snapshot, run: EngineRun,
                     inPath: string, outPath: string)
    requires s.input.Some? && s.output.Some?
  {
    && m'.disk.results == m.disk.results.Set(p, Holds(result(s)))
    && m'.disk.csvs == m.disk.csvs[inPath := s.input.value][outPath := s.output.value]
    && m'.seen == m.seen.Set(p, Some(s))
    && m'.behind.At(p).ran.Some? && m'.behind.At(p).ran.value.run == run
    && m'.behind == m.behind.Set(p, m'.behind.At(p))
  }

  lemma FourWrite(w: World, result: Snapshot -> Json, finalize: (Disk, Action) -> Disk, m: Machine, p: PassNo,
                  session: Session, rows: int, seed: int, input: Bytes, output: Bytes, run: EngineRun,
                  input2: Bytes, output2: Bytes, second: EngineRun)
    requires HonestEngine(w, session, run, input, output) && Leaves(w, session, second, input2, output2)
    ensures var d := AfterFour(w, result, finalize, m, p, session, rows, seed, input, run, second).disk;
            && d.results == m.disk.results.Set(
                 p, Holds(result(OvertakenSnapshot(w, p, session, rows, seed, input, output, run, second))))
            && d.csvs == m.disk.csvs[InPath(seed, p) := input2][OutPath(seed, p) := output2]
  {
    PathKinds(seed, p, seed, p);
    LastPutCounts(m.disk.csvs, InPath(seed, p), input, input2, OutPath(seed, p), output, output2);
  }

  lemma LastPutCounts(csvs: map<string, Bytes>, a: string, x: Bytes, x': Bytes, b: string, y: Bytes, y': Bytes)
    requires a != b
    ensures var csvs' := PutOrRemove(PutOrRemove(csvs[a := x], a, Some(x)), b, Some(y));
            PutOrRemove(PutOrRemove(csvs', a, Some(x')), b, Some(y')) == csvs[a := x'][b := y']
  {
  }

  lemma FourSee(w: World, result: Snapshot -> Json, finalize: (Disk, Action) -> Disk, m: Machine, p: PassNo,
                session: Session, rows: int, seed: int, input: Bytes, output: Bytes, run: EngineRun,
                input2: Bytes, output2: Bytes, second: EngineRun)
    requires HonestEngine(w, session, run, input, output) && Leaves(w, session, second, input2, output2)
    ensures var m' := AfterFour(w, result, finalize, m, p, session, rows, seed, input, run, second);
            && m'.seen == m.seen.Set(p, Some(OvertakenSnapshot(w, p, session, rows, seed, input, output, run, second)))
            && m'.behind.At(p).ran.Some? && m'.behind.At(p).ran.value.run == run
            && m'.behind == m.behind.Set(p, m'.behind.At(p))
  {
    PathKinds(seed, p, seed, p);
  }

  lemma Plan(p: PassNo, session: Session, rows: int, seed: int, input: Bytes, run: EngineRun, second: EngineRun)
    returns (actions: seq<Action>)
    ensures actions == OvertakenPass(p, session, rows, seed, input, run, second)
    ensures forall a | a in actions :: !a.Outside?
    ensures Validate(p, seed, second, Died) in actions
  {
    actions := OvertakenPass(p, session, rows, seed, input, run, second);
    assert actions[2] == Validate(p, seed, second, Died);
  }

  /** A snapshot of this kind passes: nothing in it is hashed again. */
  lemma OvertakenSnapshotPasses(w: World, p: PassNo, session: Session, rows: int, seed: int, input: Bytes,
                                output: Bytes, run: EngineRun, input2: Bytes, output2: Bytes, second: EngineRun,
                                pin: Pinned)
    requires Lawful(w) && HonestEngine(w, session, run, input, output) && output != ""
    requires Leaves(w, session, second, input2, output2) && CleanTables(w, input2, output2, rows)
    requires session.pinned == Some(pin) && Coherent(pin) && session.commit.Some?
    ensures SnapshotPasses(w, OvertakenSnapshot(w, p, session, rows, seed, input, output, run, second),
                           GateOf(session, rows, seed))
  {
    var s := OvertakenSnapshot(w, p, session, rows, seed, input, output, run, second);
    Safety.DumpPassesExactly(w.root, run.trace, MAX_EVENTS);
    assert HexDigest(w.sha(input), 64) && HexDigest(w.sha(output), 64);
    assert Readable(w, s);
    VerificationExact(w.checker, InputTable(w, s), OutputTable(w, s), rows);
    FactsAndExitCode(w.text, s, Compare(w, s), pin);
  }

  /** The snapshot passes, and mixes the records of the one run with the files of the other. */
  ghost predicate Mixed(w: World, s: Snapshot, p: PassNo, session: Session, rows: int, seed: int, input: Bytes,
                        output: Bytes, input2: Bytes, output2: Bytes)
  {
    && s.input == Some(input2) && s.output == Some(output2) && s.rows == rows
    && s.gen.Gen? && s.gen.sha == w.sha(input)
    && s.cli.CliSaved? && s.cli.outSha == w.sha(output) && s.cli.outPath == OutPath(seed, p)
    && SnapshotPasses(w, s, GateOf(session, rows, seed))
  }

  /** One overtaken pass, as a run of stages. */
  lemma PassOvertakes(w: World, m: Machine, p: PassNo, session: Session, rows: int, seed: int, input: Bytes,
                      output: Bytes, run: EngineRun, input2: Bytes, output2: Bytes, second: EngineRun, pin: Pinned)
    returns (actions: seq<Action>, s: Snapshot, m': Machine)
    requires Lawful(w) && HonestEngine(w, session, run, input, output) && output != ""
    requires Leaves(w, session, second, input2, output2) && CleanTables(w, input2, output2, rows)
    requires session.pinned == Some(pin) && Coherent(pin) && session.commit.Some?
    ensures m' == RunAll(w, m, actions)
    ensures Mixed(w, s, p, session, rows, seed, input, output, input2, output2)
    ensures Overtook(VerifyStage(w), m, m', p, s, run, InPath(seed, p), OutPath(seed, p))
    ensures forall a | a in actions :: !a.Outside?
    ensures Validate(p, seed, second, Died) in actions
  {
    var result, finalize := VerifyStage(w), FinalizeStage();
    actions := Plan(p, session, rows, seed, input, run, second);
    s := OvertakenSnapshot(w, p, session, rows, seed, input, output, run, second);
    m' := AfterFour(w, result, finalize, m, p, session, rows, seed, input, run, second);
    RunFour(w, result, finalize, m, p, session, rows, seed, input, run, second);
    FourWrite(w, result, finalize, m, p, session, rows, seed, input, output, run, input2, output2, second);
    FourSee(w, result, finalize, m, p, session, rows, seed, input, output, run, input2, output2, second);
    OvertakenSnapshotPasses(w, p, session, rows, seed, input, output, run, input2, output2, second, pin);
  }

  /** The run behind the pass is `run`, which left `output`; the pass verified other files and reported the
      digests of the first. */
  predicate Mismatched(w: World, m: Machine, p: PassNo, run: EngineRun, input: Bytes, output: Bytes, input2: Bytes,
                       output2: Bytes)
  {
    && m.behind.At(p).ran.Some? && m.behind.At(p).ran.value.run == run
    && m.seen.At(p).Some? && m.seen.At(p).value.input == Some(input2) && m.seen.At(p).value.output == Some(output2)
    && m.seen.At(p).value.gen.Gen? && m.seen.At(p).value.gen.sha == w.sha(input)
    && m.seen.At(p).value.cli.CliSaved? && m.seen.At(p).value.cli.outSha == w.sha(output)
  }

  lemma OvertakenVerdict(w: World, m: Machine, m1: Machine, m2: Machine, s1: Snapshot, s2: Snapshot, run: EngineRun,
                         session: Session, rows: int, seed: int, input: Bytes, output: Bytes, input2: Bytes,
                         output2: Bytes)
    requires Mixed(w, s1, One, session, rows, seed, input, output, input2, output2)
    requires Mixed(w, s2, Two, session, rows, seed, input, output, input2, output2)
    requires Overtook(VerifyStage(w), m, m1, One, s1, run, InPath(seed, One), OutPath(seed, One))
    requires Overtook(VerifyStage(w), m1, m2, Two, s2, run, InPath(seed, Two), OutPath(seed, Two))
    requires session.pinned.Some? && !session.pinned.value.secondaryConflict
    ensures FinalizePasses(m2.disk, session, rows, seed)
    ensures forall p: PassNo :: Mismatched(w, m2, p, run, input, output, input2, output2)
  {
    PathKinds(seed, Two, seed, One);
    HonestVerdict(w, m2.disk, s1, s2, session, rows, seed);
  }

  lemma JoinPlans(first: seq<Action>, last: seq<Action>, x: Action, y: Action)
    requires x in first && y in last
    requires (forall a | a in first :: !a.Outside?) && (forall a | a in last :: !a.Outside?)
    ensures x in first + last && y in first + last && forall a | a in first + last :: !a.Outside?
  {
  }

  /** From any disk, whatever the second engine did and however it ended: PASS, though in both passes the
      tables verified are the second engine's, and the digests reported are those of the first. */
  lemma OvertakenRunsPass(w: World, m: Machine, session: Session, rows: int, seed: int, input: Bytes, output: Bytes,
                          run: EngineRun, input2: Bytes, output2: Bytes, second: EngineRun, pin: Pinned)
    returns (actions: seq<Action>, m2: Machine)
    requires Lawful(w) && HonestEngine(w, session, run, input, output) && output != ""
    requires Leaves(w, session, second, input2, output2) && CleanTables(w, input2, output2, rows)
    requires session.pinned == Some(pin) && Coherent(pin) && !pin.secondaryConflict && session.commit.Some?
    ensures m2 == RunAll(w, m, actions) && FinalizePasses(m2.disk, session, rows, seed)
    ensures forall p: PassNo :: Mismatched(w, m2, p, run, input, output, input2, output2)
    ensures forall a | a in actions :: !a.Outside?
    ensures Validate(One, seed, second, Died) in actions && Validate(Two, seed, second, Died) in actions
  {
    var first, s1, m1, last, s2;
    first, s1, m1 := PassOvertakes(w, m, One, session, rows, seed, input, output, run, input2, output2, second, pin);
    last, s2, m2 := PassOvertakes(w, m1, Two, session, rows, seed, input, output, run, input2, output2, second, pin);
    actions := first + last;
    JoinPlans(first, last, Validate(One, seed, second, Died), Validate(Two, seed, second, Died));
    Attained.RunConcat(w, m, first, last);
    OvertakenVerdict(w, m, m1, m2, s1, s2, run, session, rows, seed, input, output, input2, output2);
  }

  // ---- a concrete overtaking ----

  function Ones(n: nat): string {
    seq(n, _ => '1')
  }

  /** A world where "in" parses to the dataset, every other file to the engine's output for it, and the hash
      tells "out" from the rest. */
  function TellingWorld(u: Unicode, input: Table): World {
    Attained.SomeWorld(u, input).(sha := (b: Bytes) => if b == "out" then Attained.Digits(64) else Ones(64))
  }

  /** It opens a connection, leaves "other" in place of "out", and is killed. */
  function Intruder(names: set<string>): EngineRun {
    EngineRun([Recorder.AuditEvent("socket.connect", None)], [], Recorder.Died(-9, false), Some("in"), Some("other"),
              Attained.SomeRun(names).manifestAfter)
  }

  lemma IntruderIsUnsafe(names: set<string>, root: string)
    ensures !Safety.NoneObjectionable(root, Intruder(names).trace)
  {
    assert Intruder(names).trace[0].name == "socket." + "connect";
    assert Safety.Objectionable(root, Intruder(names).trace[0]);
  }

  lemma TellingWorldIsLawful(u: Unicode, input: Table)
    ensures Lawful(TellingWorld(u, input))
  {
    Engine.V1WellFormed(Attained.V1Checker(u), u);
  }

  lemma OtherTablesAreClean(u: Unicode, input: Table, rows: int)
    requires AsciiCase(u) && Engine.Conforming(Attained.V1Checker(u), input, rows)
    ensures CleanTables(TellingWorld(u, input), "in", "other", rows)
  {
    var w := TellingWorld(u, input);
    assert "other" != "" && |"other"| != |"in"|;
    assert w.parse("other") == Some(Engine.EngineTable(Attained.V1Checker(u), Rules.Registry(u), input));
    V1TablesAreClean(w, u, "in", "other", rows);
  }

  /** The files verified in both passes are those of an engine run that was not safe, and the digest
      reported is not theirs. */
  ghost predicate Deceived(w: World, m: Machine, actions: seq<Action>, p: PassNo) {
    && m.seen.At(p).Some? && m.seen.At(p).value.cli.CliSaved? && m.seen.At(p).value.output.Some?
    && w.sha(m.seen.At(p).value.output.value) != m.seen.At(p).value.cli.outSha
    && exists k | 0 <= k < |actions| ::
         && actions[k].Validate? && actions[k].p == p && actions[k].run.outputAfter == m.seen.At(p).value.output
         && !Safety.NoneObjectionable(w.root, actions[k].run.trace)
  }

  lemma MismatchDeceives(w: World, m: Machine, actions: seq<Action>, p: PassNo, seed: int, run: EngineRun,
                         input: Bytes, output: Bytes, input2: Bytes, output2: Bytes, second: EngineRun)
    requires Mismatched(w, m, p, run, input, output, input2, output2) && w.sha(output) != w.sha(output2)
    requires Validate(p, seed, second, Died) in actions && second.outputAfter == Some(output2)
    requires !Safety.NoneObjectionable(w.root, second.trace)
    ensures Deceived(w, m, actions, p)
  {
  }

  lemma BothDeceived(w: World, m: Machine, actions: seq<Action>, seed: int, run: EngineRun, input: Bytes,
                     output: Bytes, input2: Bytes, output2: Bytes, second: EngineRun)
    requires forall p: PassNo :: Mismatched(w, m, p, run, input, output, input2, output2)
    requires Validate(One, seed, second, Died) in actions && Validate(Two, seed, second, Died) in actions
    requires w.sha(output) != w.sha(output2) && second.outputAfter == Some(output2)
    requires !Safety.NoneObjectionable(w.root, second.trace)
    ensures forall p: PassNo :: Deceived(w, m, actions, p)
  {
    forall p: PassNo ensures Deceived(w, m, actions, p) {
      MismatchDeceives(w, m, actions, p, seed, run, input, output, input2, output2, second);
    }
  }

  lemma WorldAllows(u: Unicode, input: Table, rows: int, names: set<string>, session: Session)
    requires AsciiCase(u) && Engine.Conforming(Attained.V1Checker(u), input, rows)
    requires |names| == 8 && session.pinned == Some(Attained.SomePin(names))
    ensures var w := TellingWorld(u, input);
            && Lawful(w) && HonestEngine(w, session, Attained.SomeRun(names), "in", "out")
            && Leaves(w, session, Intruder(names), "in", "other") && CleanTables(w, "in", "other", rows)
            && Coherent(Attained.SomePin(names))
  {
    Attained.PinIsCoherent(names);
    TellingWorldIsLawful(u, input);
    Attained.RunIsHonest(TellingWorld(u, input), session, names);
    Attained.RunMeetsPin(TellingWorld(u, input).text, names);
    OtherTablesAreClean(u, input, rows);
  }

  lemma DigestsDiffer(u: Unicode, input: Table)
    ensures TellingWorld(u, input).sha("out") != TellingWorld(u, input).sha("other")
  {
    assert |"out"| != |"other"|;
    assert Attained.Digits(64)[0] != Ones(64)[0];
  }

  /** A world, a session and two engine runs for it. */
  lemma SomeOvertaking(u: Unicode, input: Table, rows: int)
    returns (w: World, session: Session, pin: Pinned, run: EngineRun, second: EngineRun)
    requires AsciiCase(u) && Engine.Conforming(Attained.V1Checker(u), input, rows)
    ensures Lawful(w) && HonestEngine(w, session, run, "in", "out") && Leaves(w, session, second, "in", "other")
    ensures CleanTables(w, "in", "other", rows) && w.sha("out") != w.sha("other")
    ensures session.pinned == Some(pin) && Coherent(pin) && !pin.secondaryConflict && session.commit.Some?
    ensures !Safety.NoneObjectionable(w.root, second.trace)
  {
    var names := Attained.SomeNames(8);
    pin, run, second := Attained.SomePin(names), Attained.SomeRun(names), Intruder(names);
    w, session := TellingWorld(u, input), Session("script", Some("commit"), Some(pin));
    WorldAllows(u, input, rows, names, session);
    DigestsDiffer(u, input);
    IntruderIsUnsafe(names, w.root);
  }

  /** Every conforming dataset has such a run, from any disk and with no change from outside. */
  lemma PassCanDeceive(u: Unicode, input: Table, rows: int, seed: int, m: Machine)
    returns (w: World, session: Session, actions: seq<Action>)
    requires AsciiCase(u) && Engine.Conforming(Attained.V1Checker(u), input, rows)
    ensures Lawful(w) && OutsideOnly(SameStageFiles(), w, VerifyStage(w), FinalizeStage(), m, actions)
    ensures FinalizePasses(RunAll(w, m, actions).disk, session, rows, seed)
    ensures forall p: PassNo :: Deceived(w, RunAll(w, m, actions), actions, p)
  {
    var pin, run, second, m';
    w, session, pin, run, second := SomeOvertaking(u, input, rows);
    actions, m' := OvertakenRunsPass(w, m, session, rows, seed, "in", "out", run, "in", "other", second, pin);
    StagesOnly(SameStageFiles(), w, VerifyStage(w), FinalizeStage(), m, actions);
    BothDeceived(w, m', actions, seed, run, "in", "out", "in", "other", second);
  }
}
