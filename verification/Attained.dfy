/** PASS is attained: for every dataset that conforms to the contract there are files, a pin, and two
    engine runs that reach it, so nothing proved of PASS holds for want of one. */
module Attained {
  import opened Contract
  import opened Text
  import opened Rows
  import opened Lockstep
  import opened Json
  import opened Baseline
  import opened Stages
  import opened StagedRuns
  import opened Completeness
  import opened Trails
  import Engine
  import Oracle
  import Recorder
  import Rules
  import Safety

  function Digits(n: nat): string {
    seq(n, _ => '0')
  }

  /** n names, told apart by their lengths. */
  function Names(n: nat): set<string> {
    if n == 0 then {} else Names(n - 1) + {Digits(n)}
  }

  lemma {:induction false} NamesCount(n: nat)
    ensures |Names(n)| == n && forall x | x in Names(n) :: 1 <= |x| <= n
  {
    if n > 0 {
      NamesCount(n - 1);
      assert Digits(n) !in Names(n - 1);
    }
  }

  lemma SomeNames(n: nat) returns (names: set<string>)
    ensures |names| == n
  {
    NamesCount(n);
    names := Names(n);
  }

  function SomePin(names: set<string>): Pinned {
    Pinned(Sorted(names), map id | id in names :: Digits(16), [], false)
  }

  lemma PinIsCoherent(names: set<string>)
    requires |names| == 8
    ensures Coherent(SomePin(names))
  {
    assert SomePin(names).heads.Keys == names;
    MapSize(SomePin(names).heads);
  }

  function V1Checker(u: Unicode): Checker {
    Checker(SOURCE_COLUMNS, FLAGS, Oracle.Judge(u))
  }

  /** A world whose "in" parses to the dataset and whose "out" to what the engine writes for it. */
  function SomeWorld(u: Unicode, input: Table): World {
    var output := Engine.EngineTable(V1Checker(u), Rules.Registry(u), input);
    World(V1Checker(u),
          (b: Bytes) => Some(if b == "in" then input else output),
          (b: Bytes) => Digits(64),
          (j: Json) => if j.Str? then j.s else "",
          "/repo")
  }

  function SomeRun(names: set<string>): EngineRun {
    EngineRun([], [], Recorder.Returned(0, true), Some("in"), Some("out"),
              Manifest(map id | id in names :: Str(Digits(16))))
  }

  lemma RunMeetsPin(text: Json -> string, names: set<string>)
    requires TextOfStrings(text)
    ensures Sp1Verification(text, SomeRun(names).manifestAfter, Some(SomePin(names))).status
    ensures AllStrings(SomeRun(names).manifestAfter.ruleHashes)
  {
    var hashes := SomeRun(names).manifestAfter.ruleHashes;
    assert hashes.Keys == names;
    assert forall id | id in hashes :: hashes[id] == Str(Digits(16));
  }

  lemma WorldIsLawful(u: Unicode, input: Table)
    ensures Lawful(SomeWorld(u, input))
  {
    Engine.V1WellFormed(V1Checker(u), u);
  }

  lemma RunIsHonest(w: World, session: Session, names: set<string>)
    requires TextOfStrings(w.text) && session.pinned == Some(SomePin(names))
    ensures HonestEngine(w, session, SomeRun(names), "in", "out")
  {
    RunMeetsPin(w.text, names);
    assert Safety.SafeTrace(w.root, [], MAX_EVENTS);
  }

  lemma TablesAreClean(u: Unicode, input: Table, rows: int)
    requires AsciiCase(u) && Engine.Conforming(V1Checker(u), input, rows)
    ensures CleanTables(SomeWorld(u, input), "in", "out", rows)
  {
    var w := SomeWorld(u, input);
    assert "out" != "" && "out" != "in";
    assert w.parse("in") == Some(input);
    assert w.parse("out") == Some(Engine.EngineTable(V1Checker(u), Rules.Registry(u), input));
    V1TablesAreClean(w, u, "in", "out", rows);
  }

  /** Every conforming dataset can reach PASS, whatever files are there before: under some parser that
      reads it and the engine's output from two files, with a constant for a hash, and with no change
      from outside. */
  lemma ConformingDatasetsCanPass(u: Unicode, input: Table, rows: int, seed: int, m: Machine)
    returns (w: World, session: Session, actions: seq<Action>)
    requires AsciiCase(u) && Engine.Conforming(V1Checker(u), input, rows)
    ensures Lawful(w) && w.parse("in") == Some(input)
    ensures FinalizePasses(RunAll(w, m, actions).disk, session, rows, seed)
    ensures OutsideOnly(SameStageFiles(), w, VerifyStage(w), FinalizeStage(), m, actions)
  {
    var names := SomeNames(8);
    PinIsCoherent(names);
    WorldIsLawful(u, input);
    w, session := SomeWorld(u, input), Session("script", Some("commit"), Some(SomePin(names)));
    RunIsHonest(w, session, names);
    TablesAreClean(u, input, rows);
    actions := BothPasses(w, session, rows, seed, "in", "out", SomeRun(names), SomePin(names), m);
    StagesOnly(SameStageFiles(), w, VerifyStage(w), FinalizeStage(), m, actions);
  }

  lemma OnePass(p: PassNo, session: Session, rows: int, seed: int, input: Bytes, run: EngineRun)
    returns (actions: seq<Action>)
    ensures actions == PassActions(p, session, rows, seed, input, run)
    ensures forall a | a in actions :: !a.Outside?
  {
    actions := PassActions(p, session, rows, seed, input, run);
  }

  /** Two honest passes in a row, as one run. */
  lemma BothPasses(w: World, session: Session, rows: int, seed: int, input: Bytes, output: Bytes, run: EngineRun,
                   pin: Pinned, m: Machine)
    returns (actions: seq<Action>)
    requires Lawful(w) && CleanTables(w, input, output, rows) && HonestEngine(w, session, run, input, output)
    requires session.pinned == Some(pin) && Coherent(pin) && !pin.secondaryConflict && session.commit.Some?
    ensures FinalizePasses(RunAll(w, m, actions).disk, session, rows, seed)
    ensures forall a | a in actions :: !a.Outside?
  {
    HonestRunsPass(w, m, session, rows, seed, input, output, run, run, pin);
    var first := OnePass(One, session, rows, seed, input, run);
    var second := OnePass(Two, session, rows, seed, input, run);
    actions := first + second;
    RunConcat(w, m, first, second);
  }

  lemma {:induction false} RunConcat(w: World, m: Machine, a: seq<Action>, b: seq<Action>)
    ensures RunAll(w, m, a + b) == RunAll(w, RunAll(w, m, a), b)
    decreases |a|
  {
    if a == [] {
      assert a + b == b;
    } else {
      assert (a + b)[0] == a[0] && (a + b)[1..] == a[1..] + b;
      RunConcat(w, Apply(w, VerifyStage(w), FinalizeStage(), m, a[0]), a[1..], b);
    }
  }
}
