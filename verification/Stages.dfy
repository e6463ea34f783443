/** The staged run: generate, validate, verify for two passes, and finalize, over the files they
    leave for one another. Every stage may crash before writing or leave a torn file, and anything
    else may change the other files in between. */
module Stages {
  import opened Contract
  import opened Text
  import opened Rows
  import opened Lockstep
  import opened Json
  import opened Baseline
  import opened Verdict
  import Recorder
  import Safety

  type Bytes = string

  datatype PassNo = One | Two

  datatype Pair<T> = Pair(one: T, two: T)
  {
    function At(p: PassNo): T {
      if p == One then one else two
    }

    function Set(p: PassNo, v: T): Pair<T> {
      if p == One then Pair(v, two) else Pair(one, v)
    }
  }

  /** What the model does not look inside: CSV parsing, SHA-256, `str` of a JSON value. */
  datatype World = World(checker: Checker, parse: Bytes -> Option<Table>, sha: Bytes -> string,
                         text: Json -> string, root: string)

  ghost predicate Lawful(w: World) {
    && w.checker.WellFormed()
    && (forall b :: HexDigest(w.sha(b), 64))
    && TextOfStrings(w.text)
  }

  // ---- the files ----

  /** `passN_generate.json`; any other content raises in its readers. */
  datatype GenFile = NoGen | BadGen | Gen(path: string, rows: int, seed: int, size: nat, sha: string)

  /** `passN_cli.json` */
  datatype CliFile =
    | NoCli
    | BadCli
    | CliSaved(returnCode: int, outPath: string, outSize: nat, outSha: string, inShaAfter: string,
          safety: Option<Safety.SafetyStatus>)

  datatype FinalFile = NoFinal | Final(pass: bool)

  datatype Disk = Disk(csvs: map<string, Bytes>, gens: Pair<GenFile>, clis: Pair<CliFile>,
                       events: Pair<Recorder.EventsFile>, manifests: Pair<ManifestFile>,
                       results: Pair<ResultFile>, final: FinalFile)

  /** The identity and the pin a stage runs under. */
  datatype Session = Session(scriptSha: string, commit: Option<string>, pinned: Option<Pinned>)

  /** How a stage ends: its file is written; it is torn; or the stage died before writing. For
      finalize, whose report is replaced atomically, Torn means dying between report and clean-up. */
  datatype Ending = Completed | Torn | Died

  function Label(p: PassNo): string {
    if p == One then "pass1" else "pass2"
  }

  function InPath(seed: int, p: PassNo): string {
    "consumer_3m_seed_" + SeedText(seed) + ("_" + Label(p) + ".csv")
  }

  function OutPath(seed: int, p: PassNo): string {
    "consumer_3m_seed_" + SeedText(seed) + ("_" + Label(p) + "_out.csv")
  }

  function SeedText(seed: int): string {
    if seed < 0 then "-" + Decimal(-seed) else Decimal(seed)
  }

  // ---- generate ----

  function PutOrRemove(csvs: map<string, Bytes>, path: string, content: Option<Bytes>): map<string, Bytes> {
    if content.Some? then csvs[path := content.value] else csvs - {path}
  }

  /** `content` is what the dataset file holds when the stage ends. */
  function AfterGenerate(w: World, d: Disk, p: PassNo, rows: int, seed: int, content: Bytes, ending: Ending): Disk {
    var path := InPath(seed, p);
    var d' := d.(csvs := d.csvs[path := content]);
    match ending
    case Completed => d'.(gens := d'.gens.Set(p, Gen(path, rows, seed, |content|, w.sha(content))))
    case Torn => d'.(gens := d'.gens.Set(p, BadGen))
    case Died => d'
  }

  // ---- validate ----

  /** `--max-events` */
  const MAX_EVENTS: nat := 50000

  /** What the production subprocess does: the audit events it raises up to its dump and after it, how it
      ends, and the files it leaves. */
  datatype EngineRun = EngineRun(trace: seq<Recorder.AuditEvent>, late: seq<Recorder.AuditEvent>, end: Recorder.End,
                                 inputAfter: Option<Bytes>, outputAfter: Option<Bytes>, manifestAfter: ManifestFile)

  function EventsOf(run: EngineRun, before: Recorder.EventsFile): Recorder.EventsFile {
    Recorder.EventsAfter(before, run.trace, MAX_EVENTS, run.end)
  }

  /** What the stage saves; `before` is the events file that stood there when it started. */
  function CliState(w: World, run: EngineRun, before: Recorder.EventsFile, outPath: string): CliFile {
    var code := run.end.ReturnCode();
    CliSaved(code, outPath,
        if run.outputAfter.Some? then |run.outputAfter.value| else 0,
        if code == 0 && run.outputAfter.Some? then w.sha(run.outputAfter.value) else "",
        if run.inputAfter.Some? then w.sha(run.inputAfter.value) else "",
        Some(Safety.Classified(w.root, EventsOf(run, before)).status))
  }

  /** Reading the generate file raises unless it is there and whole; then nothing happens. The stage
      does not remove the events file of an earlier run. */
  function AfterValidate(w: World, d: Disk, p: PassNo, seed: int, run: EngineRun, ending: Ending): Disk {
    var gen := d.gens.At(p);
    if !gen.Gen? then d
    else
      var outPath, before := OutPath(seed, p), d.events.At(p);
      var csvs := PutOrRemove(PutOrRemove(d.csvs, gen.path, run.inputAfter), outPath, run.outputAfter);
      var d' := d.(csvs := csvs, manifests := d.manifests.Set(p, run.manifestAfter),
                   events := d.events.Set(p, EventsOf(run, before)));
      match ending
      case Completed => d'.(clis := d'.clis.Set(p, CliState(w, run, before, outPath)))
      case Torn => d'.(clis := d'.clis.Set(p, BadCli))
      case Died => d'
  }

  // ---- verify ----

  /** What one verify stage saw. */
  datatype Snapshot = Snapshot(pass: PassNo, session: Session, rows: int, seed: int, gen: GenFile, cli: CliFile,
                               manifest: ManifestFile, input: Option<Bytes>, output: Option<Bytes>)

  function Lookup(csvs: map<string, Bytes>, path: string): Option<Bytes> {
    if path in csvs then Some(csvs[path]) else None
  }

  function Observe(d: Disk, p: PassNo, session: Session, rows: int, seed: int): Snapshot {
    var gen, cli := d.gens.At(p), d.clis.At(p);
    Snapshot(p, session, rows, seed, gen, cli, d.manifests.At(p),
             if gen.Gen? then Lookup(d.csvs, gen.path) else None,
             if cli.CliSaved? then Lookup(d.csvs, cli.outPath) else None)
  }

  /** Nothing raises before the tables are compared. */
  predicate Readable(w: World, s: Snapshot) {
    && s.gen.Gen? && s.cli.CliSaved? && s.output.Some? && s.cli.outSha != "" && s.input.Some?
    && w.parse(s.input.value).Some? && w.parse(s.output.value).Some?
  }

  ghost function Compare(w: World, s: Snapshot): Verification
    requires Readable(w, s)
  {
    Verified(w.checker, w.parse(s.input.value).value, w.parse(s.output.value).value, s.rows)
  }

  function PassFail(b: bool): Json {
    Str(if b then "PASS" else "FAIL")
  }

  function SafetyText(s: Option<Safety.SafetyStatus>): string {
    if s.None? then "NOT_MEASURED"
    else match s.value
      case SafetyPass => "PASS"
      case SafetyFail => "FAIL"
      case NotMeasured => "NOT_MEASURED"
  }

  /** The verification object, from its nine status texts and its counters. */
  function StatusJson(schema: Json, rowCount: Json, columnCount: Json, columnOrder: Json, identity: Json,
                      ordering: Json, preserved: Json, shape: Json, domain: Json,
                      comparisons: int, mismatches: int, totals: map<Flag, nat>): Json
  {
    Obj(map[
      SchemaStatus := schema, RowCountStatus := rowCount, ColumnCountStatus := columnCount,
      ColumnOrderStatus := columnOrder, RowIdentityStatus := identity, RowOrderingStatus := ordering,
      SourceValuesPreservedStatus := preserved, OutputShapeStatus := shape, FlagDomainStatus := domain,
      OracleComparisons := Int(comparisons), OracleMismatches := Int(mismatches), FlagTotalsKey := ByFlag(totals)])
  }

  function VerificationJson(v: Verification): Json {
    StatusJson(
      PassFail(v.schema), PassFail(v.rowCount), PassFail(v.columnCount), PassFail(v.columnOrder),
      PassFail(v.rowIdentity), PassFail(v.rowOrdering), PassFail(v.sourcePreserved), PassFail(v.outputShape),
      PassFail(v.flagDomain), v.comparisons, v.mismatches, v.flagTotals)
  }

  function CommitJson(commit: Option<string>): Json {
    if commit.None? then Null else Str(commit.value)
  }

  function CliJson(s: Snapshot): Json
    requires s.cli.CliSaved?
  {
    Obj(map[ReturnCode := Int(s.cli.returnCode)])
  }

  function DatasetJson(s: Snapshot): Json
    requires s.gen.Gen? && s.cli.CliSaved?
  {
    Obj(map[
      Path := Str(s.gen.path), Key.Rows := Int(s.gen.rows), Seed := Int(s.gen.seed),
      SizeBytes := Int(s.gen.size), Sha256 := Str(s.gen.sha), Sha256AfterValidation := Str(s.cli.inShaAfter)])
  }

  function OutputJson(s: Snapshot, v: Verification): Json
    requires s.cli.CliSaved?
  {
    Obj(map[
      Path := Str(s.cli.outPath), Key.Rows := Int(v.outputRows),
      SizeBytes := Int(s.cli.outSize), Sha256 := Str(s.cli.outSha)])
  }

  function Sp1Json(sp1: Sp1Result): Json {
    Obj(map[
      ExpectedNamesVerified := Bool(sp1.namesVerified), ExpectedHashesVerified := Bool(sp1.hashesVerified),
      ManifestRuleHashes := SavedManifest(sp1), Status := PassFail(sp1.status)])
  }

  function SafetyJson(s: Snapshot): Json
    requires s.cli.CliSaved?
  {
    Obj(map[Status := Str(SafetyText(s.cli.safety))])
  }

  /** The object a completed verification saves, from its parts. */
  function ResultJson(passName: string, scriptSha: string, commit: Json, blocked: bool, cli: Json, dataset: Json,
                      output: Json, verification: Json, sp1: Json, safety: Json): Json
  {
    Obj(map[
      PassLabel := Str(passName), ScriptSha256 := Str(scriptSha), GitCommit := commit, Blocked := Bool(blocked),
      Key.Cli := cli, Dataset := dataset, Output := output,
      VerificationKey := verification, Sp1Frozen := sp1, RuntimeSafety := safety])
  }

  function FullResult(s: Snapshot, v: Verification, sp1: Sp1Result): Json
    requires s.gen.Gen? && s.cli.CliSaved?
  {
    ResultJson(Label(s.pass), s.session.scriptSha, CommitJson(s.session.commit), s.cli.returnCode != 0,
               CliJson(s), DatasetJson(s), OutputJson(s, v), VerificationJson(v), Sp1Json(sp1), SafetyJson(s))
  }

  function BlockedResult(s: Snapshot): Json {
    Obj(map[
      PassLabel := Str(Label(s.pass)), ScriptSha256 := Str(s.session.scriptSha),
      GitCommit := CommitJson(s.session.commit), Blocked := Bool(true)])
  }

  /** The content of `passN_result.json`. */
  ghost function ResultOf(w: World, s: Snapshot): Json {
    if !Readable(w, s) then BlockedResult(s)
    else FullResult(s, Compare(w, s), Sp1Verification(w.text, s.manifest, s.session.pinned))
  }

  /** The stage's exit code is 0. */
  ghost predicate VerifyExitsZero(w: World, s: Snapshot) {
    && Readable(w, s) && s.cli.returnCode == 0
    && s.gen.rows == s.rows && s.gen.seed == s.seed
    && Compare(w, s).Clean() && Compare(w, s).comparisons == s.rows * 8
    && Sp1Verification(w.text, s.manifest, s.session.pinned).status
    && s.cli.safety == Some(Safety.SafetyPass)
    && s.gen.sha == s.cli.inShaAfter
  }

  /** The stage as a writer of results: `result` is the content for what it observes. */
  function AfterVerify(result: Snapshot -> Json, d: Disk, p: PassNo, session: Session, rows: int, seed: int,
                       ending: Ending): Disk
  {
    match ending
    case Completed => d.(results := d.results.Set(p, Holds(result(Observe(d, p, session, rows, seed)))))
    case Torn => d.(results := d.results.Set(p, Unreadable))
    case Died => d
  }

  // ---- finalize ----

  function FirstRun(d: Disk): Json {
    LoadPassResult(d.results.one)
  }

  function SecondRun(d: Disk): Option<Json> {
    var p2 := LoadPassResult(d.results.two);
    if Field(p2, RunPresent).Truthy() then Some(p2) else None
  }

  function OutputPath(run: Json): Option<string> {
    var path := Dig(run, Output, Path);
    if path.Str? && path.s != "" then Some(path.s) else None
  }

  /** `filecmp.cmp(out1, out2, shallow=False)`, or None when it cannot be performed. */
  function ByteComparison(d: Disk): Option<bool> {
    var out1 := OutputPath(FirstRun(d));
    var out2 := if SecondRun(d).Some? then OutputPath(SecondRun(d).value) else None;
    if out1.Some? && out2.Some? && out1.value in d.csvs && out2.value in d.csvs then
      Some(d.csvs[out1.value] == d.csvs[out2.value])
    else None
  }

  function GateOf(session: Session, rows: int, seed: int): Gate {
    Gate(session.pinned, session.scriptSha, session.commit, rows, seed)
  }

  predicate FinalizePasses(d: Disk, session: Session, rows: int, seed: int) {
    FinalPass(FirstRun(d), SecondRun(d), GateOf(session, rows, seed), ByteComparison(d))
  }

  /** The two bulk CSVs run 2 names. */
  function CleanupPaths(run: Json): set<string> {
    set path | path in {Dig(run, Dataset, Path), Dig(run, Output, Path)} && path.Str? && path.s != "" :: path.s
  }

  /** The end of finalize: the report is replaced, and on PASS run 2's bulk files are removed. */
  function Conclude(d: Disk, pass: bool, cleanup: set<string>, ending: Ending): Disk {
    var reported := d.(final := Final(pass));
    if pass && ending.Completed? then reported.(csvs := d.csvs - cleanup) else reported
  }

  function AfterFinalize(d: Disk, session: Session, rows: int, seed: int, keepPass2: bool, ending: Ending): Disk {
    if ending.Died? || Raises(FirstRun(d), SecondRun(d)) then d
    else
      var cleanup := if keepPass2 || SecondRun(d).None? then {} else CleanupPaths(SecondRun(d).value);
      Conclude(d, FinalizePasses(d, session, rows, seed), cleanup, ending)
  }

  // ---- runs of the machine ----

  datatype Action =
    | Generate(p: PassNo, rows: int, seed: int, content: Bytes, ending: Ending)
    | Validate(p: PassNo, seed: int, run: EngineRun, ending: Ending)
    | Verify(p: PassNo, session: Session, rows: int, seed: int, ending: Ending)
    | Finalize(session: Session, rows: int, seed: int, keepPass2: bool, ending: Ending)
    // anything else, at any time, changes any file but the results and the report
    | Outside(other: Disk)

  /** A dataset, and the row count and seed its stage recorded. */
  datatype Made = Made(rows: int, seed: int, content: Bytes)

  /** An engine run, the events file it found, and the seed of its stage. */
  datatype Ran = Ran(run: EngineRun, before: Recorder.EventsFile, seed: int)

  /** What is really behind one pass's stage files: the dataset of the last completed generate stage, the
      engine run of the last completed validate stage, and whether the pass's input or output file was
      touched since by a stage that died before saving its own record. */
  datatype Trail = Trail(made: Option<Made>, ran: Option<Ran>, inputCut: bool, outputCut: bool)

  /** The disk; for each pass its trail; and what the verify stage saw that last wrote its result, with
      the trail as it was then. */
  datatype Machine = Machine(disk: Disk, seen: Pair<Option<Snapshot>>, trail: Pair<Trail>, behind: Pair<Trail>)

  function AfterMaking(t: Trail, rows: int, seed: int, content: Bytes, ending: Ending): Trail {
    match ending
    case Completed => t.(made := Some(Made(rows, seed, content)), inputCut := false)
    case Torn => t.(inputCut := false)
    case Died => t.(inputCut := true)
  }

  function AfterRunning(t: Trail, run: EngineRun, before: Recorder.EventsFile, seed: int, ending: Ending): Trail {
    match ending
    case Completed => t.(ran := Some(Ran(run, before, seed)), inputCut := false, outputCut := false)
    case Torn => t.(inputCut := false, outputCut := false)
    case Died => t.(inputCut := true, outputCut := true)
  }

  /** One stage. `result` and `finalize` are the verify and finalize stages as functions. */
  function Apply(w: World, result: Snapshot -> Json, finalize: (Disk, Action) -> Disk, m: Machine, a: Action): Machine {
    var d := m.disk;
    match a
    case Generate(p, rows, seed, content, ending) =>
      m.(disk := AfterGenerate(w, d, p, rows, seed, content, ending),
         trail := m.trail.Set(p, AfterMaking(m.trail.At(p), rows, seed, content, ending)))
    case Validate(p, seed, run, ending) =>
      if !d.gens.At(p).Gen? then m
      else
        m.(disk := AfterValidate(w, d, p, seed, run, ending),
           trail := m.trail.Set(p, AfterRunning(m.trail.At(p), run, d.events.At(p), seed, ending)))
    case Verify(p, session, rows, seed, ending) =>
      var d' := AfterVerify(result, d, p, session, rows, seed, ending);
      if ending.Completed? then
        m.(disk := d', seen := m.seen.Set(p, Some(Observe(d, p, session, rows, seed))),
           behind := m.behind.Set(p, m.trail.At(p)))
      else m.(disk := d')
    case Finalize(_, _, _, _, _) => m.(disk := finalize(d, a))
    case Outside(other) => m.(disk := other.(results := d.results, final := d.final))
  }

  function Run(w: World, result: Snapshot -> Json, finalize: (Disk, Action) -> Disk, m: Machine, actions: seq<Action>)
    : Machine
    decreases actions
  {
    if actions == [] then m
    else Run(w, result, finalize, Apply(w, result, finalize, m, actions[0]), actions[1..])
  }

  /** The verify stage as a function of what it sees. */
  ghost function VerifyStage(w: World): Snapshot -> Json {
    s => ResultOf(w, s)
  }

  /** The finalize stage as a function of the disk. */
  function FinalizeStage(): (Disk, Action) -> Disk {
    (d: Disk, a: Action) =>
      if a.Finalize? then AfterFinalize(d, a.session, a.rows, a.seed, a.keepPass2, a.ending) else d
  }

  /** An evidence directory without results; everything else on disk is arbitrary. */
  predicate Fresh(m: Machine) {
    m.disk.results == Pair(Absent, Absent)
  }

  /** A result file is whole only if a verify stage wrote it, from what it saw. */
  ghost predicate ResultsAreWitnessed(result: Snapshot -> Json, m: Machine) {
    forall p: PassNo :: m.disk.results.At(p).Holds? ==>
      && m.seen.At(p).Some? && m.seen.At(p).value.pass == p
      && m.disk.results.At(p).data == result(m.seen.At(p).value)
  }

  /** A finalize stage leaves the result files and the cli files alone. */
  ghost predicate KeepsResults(finalize: (Disk, Action) -> Disk) {
    forall d, a :: finalize(d, a).results == d.results && finalize(d, a).clis == d.clis
  }

  lemma FinalizeKeepsResults()
    ensures KeepsResults(FinalizeStage())
  {
  }

  lemma ApplyKeepsWitness(w: World, result: Snapshot -> Json, finalize: (Disk, Action) -> Disk, m: Machine, a: Action)
    requires KeepsResults(finalize) && ResultsAreWitnessed(result, m)
    ensures ResultsAreWitnessed(result, Apply(w, result, finalize, m, a))
  {
    var m' := Apply(w, result, finalize, m, a);
    forall p: PassNo | m'.disk.results.At(p).Holds?
      ensures m'.seen.At(p).Some? && m'.seen.At(p).value.pass == p
      ensures m'.disk.results.At(p).data == result(m'.seen.At(p).value)
    {
      match a
      case Verify(q, _, _, _, _) =>
        if q != p {
          assert m'.disk.results.At(p) == m.disk.results.At(p) && m'.seen.At(p) == m.seen.At(p);
        }
      case Finalize(_, _, _, _, _) =>
        assert finalize(m.disk, a).results == m.disk.results;
      case _ =>
    }
  }

  /** Whatever the stages do and wherever they fail, a whole result file is the faithful record of
      one verify stage. */
  lemma {:induction false} RunKeepsWitness(w: World, result: Snapshot -> Json, finalize: (Disk, Action) -> Disk,
                                           m: Machine, actions: seq<Action>)
    requires KeepsResults(finalize) && ResultsAreWitnessed(result, m)
    ensures ResultsAreWitnessed(result, Run(w, result, finalize, m, actions))
    decreases actions
  {
    if actions != [] {
      ApplyKeepsWitness(w, result, finalize, m, actions[0]);
      RunKeepsWitness(w, result, finalize, Apply(w, result, finalize, m, actions[0]), actions[1..]);
    }
  }
}
