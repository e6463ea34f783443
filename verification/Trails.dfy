/** What is really behind a PASS: the engine runs whose records the verify stages read, and when the
    tables they compared are those that the generate stages and the engines left. */
module Trails {
  import opened Contract
  import opened Json
  import opened Stages
  import opened EndToEnd
  import opened StagedRuns
  import Exactness
  import Safety

  /** The record a completed generate stage leaves. */
  function SavedGen(w: World, made: Made, p: PassNo): GenFile {
    Gen(InPath(made.seed, p), made.rows, made.seed, |made.content|, w.sha(made.content))
  }

  /** The record a completed validate stage leaves. */
  function SavedCli(w: World, ran: Ran, p: PassNo): CliFile {
    CliState(w, ran.run, ran.before, OutPath(ran.seed, p))
  }

  /** If whole, the generate file is the record of the trail's dataset. */
  predicate OfMade(w: World, gen: GenFile, t: Trail, p: PassNo) {
    gen.Gen? ==> t.made.Some? && gen == SavedGen(w, t.made.value, p)
  }

  /** If whole, the cli file is the record of the trail's engine run. */
  predicate OfRan(w: World, cli: CliFile, t: Trail, p: PassNo) {
    cli.CliSaved? ==> t.ran.Some? && cli == SavedCli(w, t.ran.value, p)
  }

  // ---- invariants over whole runs ----

  /** Every change from outside during the run is of an allowed kind. */
  ghost predicate OutsideOnly(allowed: (Disk, Disk) -> bool, w: World, result: Snapshot -> Json,
                              finalize: (Disk, Action) -> Disk, m: Machine, actions: seq<Action>)
    decreases actions
  {
    actions == []
    || ((actions[0].Outside? ==> allowed(m.disk, actions[0].other))
        && OutsideOnly(allowed, w, result, finalize, Apply(w, result, finalize, m, actions[0]), actions[1..]))
  }

  /** What every allowed step keeps, every run keeps. */
  lemma {:induction false} RunKeeps(inv: Machine -> bool, allowed: (Disk, Disk) -> bool, w: World,
                                    result: Snapshot -> Json, finalize: (Disk, Action) -> Disk,
                                    m: Machine, actions: seq<Action>)
    requires forall m: Machine, a: Action :: inv(m) && (a.Outside? ==> allowed(m.disk, a.other)) ==>
               inv(Apply(w, result, finalize, m, a))
    requires inv(m) && OutsideOnly(allowed, w, result, finalize, m, actions)
    ensures inv(Run(w, result, finalize, m, actions))
    decreases actions
  {
    if actions != [] {
      RunKeeps(inv, allowed, w, result, finalize, Apply(w, result, finalize, m, actions[0]), actions[1..]);
    }
  }

  lemma {:induction false} StagesOnly(allowed: (Disk, Disk) -> bool, w: World, result: Snapshot -> Json,
                                      finalize: (Disk, Action) -> Disk, m: Machine, actions: seq<Action>)
    requires forall a | a in actions :: !a.Outside?
    ensures OutsideOnly(allowed, w, result, finalize, m, actions)
    decreases actions
  {
    if actions != [] {
      StagesOnly(allowed, w, result, finalize, Apply(w, result, finalize, m, actions[0]), actions[1..]);
    }
  }

  // ---- whose record a cli file is ----

  function SameClis(): (Disk, Disk) -> bool {
    (d: Disk, other: Disk) => other.clis == d.clis
  }

  /** A cli file is whole only if a completed validate stage wrote it, of its own engine run. */
  predicate ClisOfRuns(w: World, m: Machine) {
    forall p: PassNo ::
      && OfRan(w, m.disk.clis.At(p), m.trail.At(p), p)
      && (m.seen.At(p).Some? ==> OfRan(w, m.seen.At(p).value.cli, m.behind.At(p), p))
  }

  lemma ApplyKeepsClis(w: World, result: Snapshot -> Json, finalize: (Disk, Action) -> Disk, m: Machine, a: Action)
    requires KeepsResults(finalize) && ClisOfRuns(w, m)
    requires a.Outside? ==> a.other.clis == m.disk.clis
    ensures ClisOfRuns(w, Apply(w, result, finalize, m, a))
  {
    var m' := Apply(w, result, finalize, m, a);
    forall p: PassNo
      ensures OfRan(w, m'.disk.clis.At(p), m'.trail.At(p), p)
      ensures m'.seen.At(p).Some? ==> OfRan(w, m'.seen.At(p).value.cli, m'.behind.At(p), p)
    {
      assert OfRan(w, m.disk.clis.At(p), m.trail.At(p), p);
      if a.Finalize? { assert finalize(m.disk, a).clis == m.disk.clis; }
    }
  }

  /** Over every run in which only the stages touch the cli files, each whole one is the record of one
      engine run: that of the validate stage that wrote it. */
  lemma RunKeepsClis(w: World, result: Snapshot -> Json, finalize: (Disk, Action) -> Disk, m: Machine,
                     actions: seq<Action>)
    requires KeepsResults(finalize) && ClisOfRuns(w, m)
    requires OutsideOnly(SameClis(), w, result, finalize, m, actions)
    ensures ClisOfRuns(w, Run(w, result, finalize, m, actions))
  {
    forall m: Machine, a: Action | ClisOfRuns(w, m) && (a.Outside? ==> SameClis()(m.disk, a.other))
      ensures ClisOfRuns(w, Apply(w, result, finalize, m, a))
    {
      ApplyKeepsClis(w, result, finalize, m, a);
    }
    RunKeeps(m => ClisOfRuns(w, m), SameClis(), w, result, finalize, m, actions);
  }

  // ---- the engine runs behind a PASS ----

  /** The engine run behind a pass's result was recorded, and safe up to its dump; or its engine left
      through `os._exit(0)` over the passing record of an earlier run. */
  predicate SafelyRan(w: World, ran: Ran) {
    Safety.RanSafely(w.root, ran.before, ran.run.trace, MAX_EVENTS, ran.run.end)
  }

  /** A PASS over cli files as the stages saved them is a statement about the engine runs that those
      files record. */
  lemma PassMeansSafeRuns(w: World, m: Machine, session: Session, rows: int, seed: int, p: PassNo)
    requires SoundPass(w, m, session, rows, seed) && OfRan(w, m.seen.At(p).value.cli, m.behind.At(p), p)
    ensures m.behind.At(p).ran.Some? && SafelyRan(w, m.behind.At(p).ran.value)
  {
    var ran := m.behind.At(p).ran.value;
    Safety.CleanExitAndPassExactly(w.root, ran.before, ran.run.trace, MAX_EVENTS, ran.run.end);
  }

  /** No cli file stands yet, and no result was made from one. */
  predicate NoClis(m: Machine) {
    m.disk.clis == Pair(NoCli, NoCli) && m.seen == Pair(None, None)
  }

  lemma ClisAfter(w: World, m0: Machine, actions: seq<Action>)
    requires NoClis(m0) && OutsideOnly(SameClis(), w, VerifyStage(w), FinalizeStage(), m0, actions)
    ensures ClisOfRuns(w, RunAll(w, m0, actions))
  {
    assert forall p: PassNo :: m0.disk.clis.At(p) == NoCli && m0.seen.At(p) == None;
    FinalizeKeepsResults();
    RunKeepsClis(w, VerifyStage(w), FinalizeStage(), m0, actions);
  }

  /** End to end for the engine: over every sequence of stages, from no results and no cli files, with
      failures anywhere and any change from outside to any file but the results, the report and the cli
      files, a PASS means that both engine runs whose records it rests on exited with 0 and, unless an
      engine left through `os._exit(0)` over an earlier passing record, raised no objectionable event up
      to their dump. */
  lemma PassIsSafe(w: World, m0: Machine, actions: seq<Action>, session: Session, rows: int, seed: int, p: PassNo)
    requires w.checker.WellFormed() && Fresh(m0) && NoClis(m0)
    requires OutsideOnly(SameClis(), w, VerifyStage(w), FinalizeStage(), m0, actions)
    ensures var m := RunAll(w, m0, actions);
            FinalizePasses(m.disk, session, rows, seed) ==>
              m.behind.At(p).ran.Some? && SafelyRan(w, m.behind.At(p).ran.value)
  {
    var m := RunAll(w, m0, actions);
    PassIsSound(w, m0, actions, session, rows, seed);
    ClisAfter(w, m0, actions);
    if FinalizePasses(m.disk, session, rows, seed) {
      PassMeansSafeRuns(w, m, session, rows, seed, p);
    }
  }

  // ---- is the verified output that of the run? ----

  /** The hash tells two contents apart. */
  predicate Apart(w: World, a: Option<Bytes>, b: Option<Bytes>) {
    a.Some? && b.Some? && w.sha(a.value) == w.sha(b.value) ==> a == b
  }

  /** Verify does not hash the output again. So under a PASS the table it compared is the one the recorded
      run left exactly when its digest is the digest reported for it. */
  lemma VerifiedOutputExactly(w: World, m: Machine, session: Session, rows: int, seed: int, p: PassNo)
    requires SoundPass(w, m, session, rows, seed) && OfRan(w, m.seen.At(p).value.cli, m.behind.At(p), p)
    requires Apart(w, m.seen.At(p).value.output, m.behind.At(p).ran.value.run.outputAfter)
    ensures var s, ran := m.seen.At(p).value, m.behind.At(p).ran.value;
            && ran.run.outputAfter.Some? && s.cli.outSha == w.sha(ran.run.outputAfter.value)
            && (s.output == ran.run.outputAfter <==> w.sha(s.output.value) == s.cli.outSha)
  {
  }

  /** Nor the input: the run left the dataset as it was made, but the table compared is that dataset
      exactly when its digest is still the recorded one. */
  lemma VerifiedInputExactly(w: World, m: Machine, session: Session, rows: int, seed: int, p: PassNo)
    requires SoundPass(w, m, session, rows, seed) && OfRan(w, m.seen.At(p).value.cli, m.behind.At(p), p)
    requires OfMade(w, m.seen.At(p).value.gen, m.behind.At(p), p)
    requires Apart(w, m.seen.At(p).value.input, Some(m.behind.At(p).made.value.content))
    requires Apart(w, m.behind.At(p).ran.value.run.inputAfter, Some(m.behind.At(p).made.value.content))
    ensures var s, t := m.seen.At(p).value, m.behind.At(p);
            && t.ran.value.run.inputAfter == Some(t.made.value.content)
            && (s.input == Some(t.made.value.content) <==> w.sha(s.input.value) == s.gen.sha)
  {
  }

  // ---- when nothing but the stages touches their files ----

  function SameStageFiles(): (Disk, Disk) -> bool {
    (d: Disk, other: Disk) => other.csvs == d.csvs && other.gens == d.gens && other.clis == d.clis
  }

  predicate FewerCsvs(csvs: map<string, Bytes>, before: map<string, Bytes>) {
    forall path | path in csvs :: path in before && csvs[path] == before[path]
  }

  /** A finalize stage leaves the stage files alone and at most removes CSVs. */
  ghost predicate OnlyRemovesCsvs(finalize: (Disk, Action) -> Disk) {
    forall d, a :: finalize(d, a).gens == d.gens && finalize(d, a).clis == d.clis
                   && FewerCsvs(finalize(d, a).csvs, d.csvs)
  }

  lemma FinalizeOnlyRemoves()
    ensures OnlyRemovesCsvs(FinalizeStage())
  {
  }

  /** The files that one pass's verify stage would read. */
  datatype Reading = Reading(gen: GenFile, cli: CliFile, input: Option<Bytes>, output: Option<Bytes>)

  function ReadingOf(s: Snapshot): Reading {
    Reading(s.gen, s.cli, s.input, s.output)
  }

  function ReadingAt(d: Disk, p: PassNo): Reading {
    var gen, cli := d.gens.At(p), d.clis.At(p);
    Reading(gen, cli, if gen.Gen? then Lookup(d.csvs, gen.path) else None,
            if cli.CliSaved? then Lookup(d.csvs, cli.outPath) else None)
  }

  /** Whole records are those of the trail; an output that was not cut is the run's, and an input that
      was not cut is the dataset as made or as the run left it. */
  predicate Follows(w: World, r: Reading, t: Trail, p: PassNo) {
    && OfMade(w, r.gen, t, p) && OfRan(w, r.cli, t, p)
    && (r.cli.CliSaved? && !t.outputCut && r.output.Some? ==> r.output == t.ran.value.run.outputAfter)
    && (r.gen.Gen? && r.cli.CliSaved? && !t.inputCut && r.input.Some? ==>
          r.input == Some(t.made.value.content) || r.input == t.ran.value.run.inputAfter)
  }

  predicate FilesFollow(w: World, m: Machine) {
    forall p: PassNo ::
      && Follows(w, ReadingAt(m.disk, p), m.trail.At(p), p)
      && (m.seen.At(p).Some? ==> Follows(w, ReadingOf(m.seen.At(p).value), m.behind.At(p), p))
  }

  /** No two of the four kinds of CSV path coincide, whatever the seeds. */
  lemma PathKinds(seed: int, p: PassNo, seed': int, q: PassNo)
    ensures InPath(seed, p) != OutPath(seed', q)
    ensures p != q ==> InPath(seed, p) != InPath(seed', q) && OutPath(seed, p) != OutPath(seed', q)
  {
    var a, b, c, d := InPath(seed, p), OutPath(seed, p), InPath(seed', q), OutPath(seed', q);
    assert a[|a| - 5] == c[|c| - 5] || p != q;
    assert a[|a| - 5] == (if p == One then '1' else '2') && c[|c| - 5] == (if q == One then '1' else '2');
    assert b[|b| - 9] == (if p == One then '1' else '2') && d[|d| - 9] == (if q == One then '1' else '2');
    assert d[|d| - 5] == 't';
  }

  lemma GenerateFollows(w: World, d: Disk, q: PassNo, t: Trail, p: PassNo, rows: int, seed: int, content: Bytes,
                        ending: Ending)
    requires Follows(w, ReadingAt(d, q), t, q)
    ensures Follows(w, ReadingAt(AfterGenerate(w, d, p, rows, seed, content, ending), q),
                    if q == p then AfterMaking(t, rows, seed, content, ending) else t, q)
  {
    var r := ReadingAt(d, q);
    if r.gen.Gen? { PathKinds(t.made.value.seed, q, seed, p); }
    if r.cli.CliSaved? { PathKinds(seed, p, t.ran.value.seed, q); }
  }

  lemma PutTwo(csvs: map<string, Bytes>, a: string, x: Option<Bytes>, b: string, y: Option<Bytes>, c: string)
    requires a != b
    ensures var csvs' := PutOrRemove(PutOrRemove(csvs, a, x), b, y);
            && Lookup(csvs', a) == x && Lookup(csvs', b) == y
            && (c != a && c != b ==> Lookup(csvs', c) == Lookup(csvs, c))
  {
  }

  lemma OwnValidateFollows(w: World, d: Disk, p: PassNo, t: Trail, seed: int, run: EngineRun, ending: Ending)
    requires Follows(w, ReadingAt(d, p), t, p) && d.gens.At(p).Gen?
    ensures Follows(w, ReadingAt(AfterValidate(w, d, p, seed, run, ending), p),
                    AfterRunning(t, run, d.events.At(p), seed, ending), p)
  {
    PathKinds(t.made.value.seed, p, seed, p);
    PutTwo(d.csvs, d.gens.At(p).path, run.inputAfter, OutPath(seed, p), run.outputAfter, "");
  }

  lemma OtherValidateFollows(w: World, d: Disk, q: PassNo, t: Trail, p: PassNo, pTrail: Trail, seed: int,
                             run: EngineRun, ending: Ending)
    requires q != p && Follows(w, ReadingAt(d, q), t, q) && Follows(w, ReadingAt(d, p), pTrail, p)
    requires d.gens.At(p).Gen?
    ensures ReadingAt(AfterValidate(w, d, p, seed, run, ending), q) == ReadingAt(d, q)
  {
    var r, a, b := ReadingAt(d, q), d.gens.At(p).path, OutPath(seed, p);
    var made := pTrail.made.value;
    PathKinds(made.seed, p, seed, p);
    if r.gen.Gen? {
      PathKinds(t.made.value.seed, q, made.seed, p);
      PathKinds(t.made.value.seed, q, seed, p);
      PutTwo(d.csvs, a, run.inputAfter, b, run.outputAfter, r.gen.path);
    }
    if r.cli.CliSaved? {
      PathKinds(made.seed, p, t.ran.value.seed, q);
      PathKinds(seed, p, t.ran.value.seed, q);
      PutTwo(d.csvs, a, run.inputAfter, b, run.outputAfter, r.cli.outPath);
    }
  }

  lemma FewerFollows(w: World, d: Disk, d': Disk, t: Trail, p: PassNo)
    requires Follows(w, ReadingAt(d, p), t, p)
    requires d'.gens == d.gens && d'.clis == d.clis && FewerCsvs(d'.csvs, d.csvs)
    ensures Follows(w, ReadingAt(d', p), t, p)
  {
  }

  lemma ApplyFollows(w: World, result: Snapshot -> Json, finalize: (Disk, Action) -> Disk, m: Machine, a: Action,
                     p: PassNo)
    requires OnlyRemovesCsvs(finalize) && FilesFollow(w, m)
    requires a.Outside? ==> SameStageFiles()(m.disk, a.other)
    ensures var m' := Apply(w, result, finalize, m, a);
            Follows(w, ReadingAt(m'.disk, p), m'.trail.At(p), p)
  {
    var d := m.disk;
    assert Follows(w, ReadingAt(d, p), m.trail.At(p), p);
    match a
    case Generate(q, rows, seed, content, ending) =>
      GenerateFollows(w, d, p, m.trail.At(p), q, rows, seed, content, ending);
    case Validate(q, seed, run, ending) =>
      if d.gens.At(q).Gen? {
        assert Follows(w, ReadingAt(d, q), m.trail.At(q), q);
        if q == p {
          OwnValidateFollows(w, d, p, m.trail.At(p), seed, run, ending);
        } else {
          OtherValidateFollows(w, d, p, m.trail.At(p), q, m.trail.At(q), seed, run, ending);
        }
      }
    case Verify(_, _, _, _, _) =>
    case Finalize(_, _, _, _, _) => FewerFollows(w, d, finalize(d, a), m.trail.At(p), p);
    case Outside(_) =>
  }

  lemma ApplySeenFollows(w: World, result: Snapshot -> Json, finalize: (Disk, Action) -> Disk, m: Machine, a: Action,
                         p: PassNo)
    requires FilesFollow(w, m)
    ensures var m' := Apply(w, result, finalize, m, a);
            m'.seen.At(p).Some? ==> Follows(w, ReadingOf(m'.seen.At(p).value), m'.behind.At(p), p)
  {
    assert Follows(w, ReadingAt(m.disk, p), m.trail.At(p), p);
    assert m.seen.At(p).Some? ==> Follows(w, ReadingOf(m.seen.At(p).value), m.behind.At(p), p);
    if a.Verify? && a.p == p {
      assert ReadingOf(Observe(m.disk, p, a.session, a.rows, a.seed)) == ReadingAt(m.disk, p);
    }
  }

  /** Over every run in which only the stages touch their files, what the verify stages read follows
      the trails. */
  lemma RunFollows(w: World, result: Snapshot -> Json, finalize: (Disk, Action) -> Disk, m: Machine,
                   actions: seq<Action>)
    requires OnlyRemovesCsvs(finalize) && FilesFollow(w, m)
    requires OutsideOnly(SameStageFiles(), w, result, finalize, m, actions)
    ensures FilesFollow(w, Run(w, result, finalize, m, actions))
  {
    forall m: Machine, a: Action | FilesFollow(w, m) && (a.Outside? ==> SameStageFiles()(m.disk, a.other))
      ensures FilesFollow(w, Apply(w, result, finalize, m, a))
    {
      var m' := Apply(w, result, finalize, m, a);
      forall p: PassNo
        ensures Follows(w, ReadingAt(m'.disk, p), m'.trail.At(p), p)
        ensures m'.seen.At(p).Some? ==> Follows(w, ReadingOf(m'.seen.At(p).value), m'.behind.At(p), p)
      {
        ApplyFollows(w, result, finalize, m, a, p);
        ApplySeenFollows(w, result, finalize, m, a, p);
      }
    }
    RunKeeps(m => FilesFollow(w, m), SameStageFiles(), w, result, finalize, m, actions);
  }

  /** Before the first stage: no record of any stage stands. CSVs and events files may. */
  predicate NoRecords(m: Machine) {
    && Fresh(m) && NoClis(m) && m.disk.gens == Pair(NoGen, NoGen)
    && m.trail == Pair(Trail(None, None, false, false), Trail(None, None, false, false))
  }

  lemma FilesAfter(w: World, m0: Machine, actions: seq<Action>)
    requires NoRecords(m0) && OutsideOnly(SameStageFiles(), w, VerifyStage(w), FinalizeStage(), m0, actions)
    ensures FilesFollow(w, RunAll(w, m0, actions))
  {
    assert forall p: PassNo :: m0.disk.clis.At(p) == NoCli && m0.disk.gens.At(p) == NoGen && m0.seen.At(p) == None;
    FinalizeOnlyRemoves();
    RunFollows(w, VerifyStage(w), FinalizeStage(), m0, actions);
  }

  /** What a PASS says of one pass when its files follow its trail: the run was safe; the verified output,
      unless cut, is the run's; and the verified input, unless cut, has the digest of the dataset made. */
  ghost predicate Grounded(w: World, s: Snapshot, t: Trail, p: PassNo) {
    && t.made.Some? && s.gen == SavedGen(w, t.made.value, p)
    && t.ran.Some? && s.cli == SavedCli(w, t.ran.value, p) && SafelyRan(w, t.ran.value)
    && s.input.Some? && s.output.Some?
    && (!t.outputCut ==> s.output == t.ran.value.run.outputAfter && s.cli.outSha == w.sha(s.output.value))
    && (!t.inputCut ==> s.gen.sha == w.sha(s.input.value))
  }

  lemma FollowingIsGrounded(w: World, m: Machine, session: Session, rows: int, seed: int, p: PassNo)
    requires SoundPass(w, m, session, rows, seed) && FilesFollow(w, m)
    ensures Grounded(w, m.seen.At(p).value, m.behind.At(p), p)
  {
    assert Follows(w, ReadingOf(m.seen.At(p).value), m.behind.At(p), p);
    PassMeansSafeRuns(w, m, session, rows, seed, p);
  }

  /** End to end for the tables: over every sequence of stages, from no stage records, with failures
      anywhere and any change from outside to any other file, a PASS is grounded in the trails. A table is
      cut only by a stage of its own pass that died after touching it and before verify. */
  lemma PassIsGrounded(w: World, m0: Machine, actions: seq<Action>, session: Session, rows: int, seed: int, p: PassNo)
    requires w.checker.WellFormed() && NoRecords(m0)
    requires OutsideOnly(SameStageFiles(), w, VerifyStage(w), FinalizeStage(), m0, actions)
    ensures var m := RunAll(w, m0, actions);
            FinalizePasses(m.disk, session, rows, seed) ==>
              m.seen.At(p).Some? && Grounded(w, m.seen.At(p).value, m.behind.At(p), p)
  {
    var m := RunAll(w, m0, actions);
    PassIsSound(w, m0, actions, session, rows, seed);
    FilesAfter(w, m0, actions);
    if FinalizePasses(m.disk, session, rows, seed) {
      FollowingIsGrounded(w, m, session, rows, seed, p);
    }
  }

  /** A stage of the pass that died before its record, and so cuts what it touched. */
  predicate Dies(a: Action, p: PassNo) {
    (a.Generate? || a.Validate?) && a.p == p && a.ending.Died?
  }

  predicate Cut(t: Trail) {
    t.inputCut || t.outputCut
  }

  lemma {:induction false} CutOnlyByDeath(w: World, result: Snapshot -> Json, finalize: (Disk, Action) -> Disk,
                                          m: Machine, actions: seq<Action>, p: PassNo)
    requires !Cut(m.trail.At(p)) && (m.seen.At(p).Some? ==> !Cut(m.behind.At(p)))
    requires forall i | 0 <= i < |actions| :: !Dies(actions[i], p)
    ensures var m' := Run(w, result, finalize, m, actions);
            m'.seen.At(p).Some? ==> !Cut(m'.behind.At(p))
    decreases actions
  {
    if actions != [] {
      assert !Dies(actions[0], p);
      CutOnlyByDeath(w, result, finalize, Apply(w, result, finalize, m, actions[0]), actions[1..], p);
    }
  }

  /** What a PASS says of a pass that was not cut: its dataset was made for the expected rows and
      seed; its engine run was safe; the output that run left is the one verified; and, unless the hash
      fails to tell the verified input from the dataset made, that output is the enrichment of that
      dataset. */
  ghost predicate Enriched(w: World, s: Snapshot, t: Trail, rows: int, seed: int) {
    && t.made.Some? && t.made.value.rows == rows && t.made.value.seed == seed
    && t.ran.Some? && SafelyRan(w, t.ran.value)
    && s.output.Some? && t.ran.value.run.outputAfter == s.output
    && (Apart(w, s.input, Some(t.made.value.content)) ==>
          && w.parse(t.made.value.content).Some? && w.parse(s.output.value).Some?
          && Exactness.Faithful(w.checker, w.parse(t.made.value.content).value, w.parse(s.output.value).value, rows))
  }

  lemma UncutIsEnriched(w: World, m: Machine, session: Session, rows: int, seed: int, p: PassNo)
    requires SoundPass(w, m, session, rows, seed) && Grounded(w, m.seen.At(p).value, m.behind.At(p), p)
    requires !Cut(m.behind.At(p))
    ensures Enriched(w, m.seen.At(p).value, m.behind.At(p), rows, seed)
  {
  }

  /** From the generated dataset to the verdict: over every sequence of stages, from no stage records, with
      failures anywhere and any change from outside to any file but the results, the report and the stage
      files, a PASS means that each pass did what it was for, unless a table of it was cut; and none is cut
      where no generate or validate stage of the pass died. */
  lemma PassIsEnriched(w: World, m0: Machine, actions: seq<Action>, session: Session, rows: int, seed: int, p: PassNo)
    requires w.checker.WellFormed() && NoRecords(m0)
    requires OutsideOnly(SameStageFiles(), w, VerifyStage(w), FinalizeStage(), m0, actions)
    ensures var m := RunAll(w, m0, actions);
            FinalizePasses(m.disk, session, rows, seed) ==>
              && m.seen.At(p).Some?
              && (!Cut(m.behind.At(p)) ==> Enriched(w, m.seen.At(p).value, m.behind.At(p), rows, seed))
              && ((forall i | 0 <= i < |actions| :: !Dies(actions[i], p)) ==> !Cut(m.behind.At(p)))
  {
    var m := RunAll(w, m0, actions);
    PassIsSound(w, m0, actions, session, rows, seed);
    PassIsGrounded(w, m0, actions, session, rows, seed, p);
    if forall i | 0 <= i < |actions| :: !Dies(actions[i], p) {
      CutOnlyByDeath(w, VerifyStage(w), FinalizeStage(), m0, actions, p);
    }
    if FinalizePasses(m.disk, session, rows, seed) && !Cut(m.behind.At(p)) {
      UncutIsEnriched(w, m, session, rows, seed, p);
    }
  }
}
