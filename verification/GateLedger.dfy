/** The gate-round ledger: every release-gate round is entered before its file is replaced, and a
    file the tool removes is entered in full. */
module GateLedger {
  import opened Contract

  type Bytes = string

  datatype Check = Check(gate: Option<string>, status: Option<string>, evidence: Option<string>)

  /** A parsed gate file; `rest` is what the tool does not look at. */
  datatype Gate = Gate(verdict: Option<string>, generated: Option<string>, checks: seq<Check>,
          rest: map<string, string>)

  datatype Failure = Failure(gate: string, status: string, evidence: Option<string>)

  /** One ledger entry. Entries made by hand may lack a round number. */
  datatype Entry = Entry(round: Option<int>, source: Option<string>, generated: Option<string>, verdict: Option<string>,
                         statuses: map<string, Option<string>>, failing: seq<Failure>, full: Option<Gate>)

  /** Corrupt: the text is no JSON, as a write that was cut short leaves it. */
  datatype LedgerFile = Absent | Corrupt | Ledger(rounds: Option<seq<Entry>>)

  datatype Files = Files(ledger: LedgerFile, gate: Option<Bytes>)

  /** `json.loads` of a gate file (None: unreadable, or not a gate record) and SHA-256. */
  datatype Tool = Tool(parse: Bytes -> Option<Gate>, hash: Bytes -> string)

  function Rounds(l: LedgerFile): seq<Entry> {
    if l.Ledger? && l.rounds.Some? then l.rounds.value else []
  }

  /** The largest round number; None when an entry has none. */
  function Largest(rounds: seq<Entry>): Option<int>
    requires rounds != []
  {
    if rounds[0].round.None? then None
    else if |rounds| == 1 then rounds[0].round
    else
      var m := Largest(rounds[1..]);
      if m.None? then None else if rounds[0].round.value > m.value then rounds[0].round else m
  }

  /** `next_round` */
  function NextRound(rounds: seq<Entry>): Option<int> {
    if rounds == [] then Some(1)
    else if Largest(rounds).None? then None
    else Some(Largest(rounds).value + 1)
  }

  lemma {:induction false} NextRoundIsNew(rounds: seq<Entry>)
    requires NextRound(rounds).Some?
    ensures forall i | 0 <= i < |rounds| :: rounds[i].round.Some? && rounds[i].round.value < NextRound(rounds).value
    ensures rounds != [] ==> exists i :: 0 <= i < |rounds| && rounds[i].round == Some(NextRound(rounds).value - 1)
  {
    if |rounds| == 1 {
      assert rounds[0].round == Some(NextRound(rounds).value - 1);
    } else if |rounds| > 1 {
      var rest := rounds[1..];
      NextRoundIsNew(rest);
      assert rounds == [rounds[0]] + rest;
      var i :| 0 <= i < |rest| && rest[i].round == Some(NextRound(rest).value - 1);
      assert rounds[i + 1] == rest[i];
      var last := NextRound(rounds).value - 1;
      assert rounds[0].round == Some(last) || rounds[i + 1].round == Some(last);
    }
  }

  method ComputeNextRound(rounds: seq<Entry>) returns (next: Option<int>)
    ensures next == NextRound(rounds)
  {
    if rounds == [] {
      return Some(1);
    }
    var i := |rounds| - 1;
    if rounds[i].round.None? {
      LargestNeedsAll(rounds, i);
      return None;
    }
    var m := rounds[i].round.value;
    while i > 0
      invariant 0 <= i < |rounds|
      invariant Largest(rounds[i..]) == Some(m)
    {
      i := i - 1;
      assert rounds[i..][1..] == rounds[i + 1..];
      if rounds[i].round.None? {
        LargestNeedsAll(rounds, i);
        return None;
      }
      if rounds[i].round.value > m {
        m := rounds[i].round.value;
      }
    }
    assert rounds[0..] == rounds;
    next := Some(m + 1);
  }

  lemma {:induction false} LargestNeedsAll(rounds: seq<Entry>, i: nat)
    requires i < |rounds| && rounds[i].round.None?
    ensures Largest(rounds).None?
  {
    if i > 0 {
      LargestNeedsAll(rounds[1..], i - 1);
    }
  }

  // ---- an entry ----

  /** `failing`: the checks that did not pass, in order; None when one lacks its name or status. */
  function Failing(checks: seq<Check>): Option<seq<Failure>> {
    if checks == [] then Some([])
    else
      var c, rest := checks[0], Failing(checks[1..]);
      if c.status == Some("PASS") || rest.None? then rest
      else if c.gate.None? || c.status.None? then None
      else Some([Failure(c.gate.value, c.status.value, c.evidence)] + rest.value)
  }

  /** `statuses`: the last status of each named check; None when one has no name. */
  function Statuses(checks: seq<Check>): Option<map<string, Option<string>>> {
    if checks == [] then Some(map[])
    else
      var c, before := checks[|checks| - 1], Statuses(checks[..|checks| - 1]);
      if before.None? || c.gate.None? then None else Some(before.value[c.gate.value := c.status])
  }

  predicate KeepsFile(gate: Gate, mode: string) {
    gate.verdict == Some("PASS") && mode == "--summary"
  }

  /** The entry for a gate file; None when the tool stops before writing anything. */
  function EntryOf(t: Tool, mode: string, rounds: seq<Entry>, content: Bytes): Option<Entry> {
    var gate := t.parse(content);
    if gate.None? || Failing(gate.value.checks).None? || Statuses(gate.value.checks).None?
        || NextRound(rounds).None? then None
    else
      var g := gate.value;
      Some(Entry(NextRound(rounds), Some(t.hash(content)), g.generated, g.verdict,
                 Statuses(g.checks).value, Failing(g.checks).value,
                 if KeepsFile(g, mode) then None else Some(g)))
  }

  /** How a run ends. Writing the ledger truncates it first, so a run can die inside that write; and
      it can die between the write and the removal of the gate file. */
  datatype Ending = Completes | TornInWrite | DiesBeforeRemoval

  /** One run of the tool, and whether it exits 0. */
  function Ledgered(t: Tool, mode: string, ending: Ending, f: Files): (Files, bool) {
    if (mode != "--purge" && mode != "--summary") || f.ledger.Corrupt? then (f, false)
    else
      var rounds := Rounds(f.ledger);
      if f.gate.None? then
        if ending.TornInWrite? then (f.(ledger := Corrupt), false)
        else (f.(ledger := if f.ledger.Absent? then Ledger(None) else f.ledger), true)
      else
        var entry := EntryOf(t, mode, rounds, f.gate.value);
        if entry.None? then (f, false)
        else if ending.TornInWrite? then (f.(ledger := Corrupt), false)
        else
          var ledgered := f.(ledger := Ledger(Some(rounds + [entry.value])));
          if entry.value.full.None? then (ledgered, true)
          else if ending.DiesBeforeRemoval? then (ledgered, false)
          else (ledgered.(gate := None), true)
  }

  /** The run gets as far as writing the ledger. */
  predicate Writes(t: Tool, mode: string, f: Files) {
    && (mode == "--purge" || mode == "--summary") && !f.ledger.Corrupt?
    && (f.gate.Some? ==> EntryOf(t, mode, Rounds(f.ledger), f.gate.value).Some?)
  }

  class Namespace {
    var ledger: LedgerFile
    var gate: Option<Bytes>

    constructor (ledger: LedgerFile, gate: Option<Bytes>)
      ensures this.ledger == ledger && this.gate == gate
    {
      this.ledger, this.gate := ledger, gate;
    }

    /** `main` */
    method LedgerRound(t: Tool, mode: string, ending: Ending) returns (ok: bool)
      modifies this
      ensures (Files(ledger, gate), ok) == Ledgered(t, mode, ending, Files(old(ledger), old(gate)))
    {
      if mode != "--purge" && mode != "--summary" {
        return false;
      }
      if ledger.Corrupt? {
        return false;
      }
      if gate.None? {
        if ending.TornInWrite? {
          ledger := Corrupt;
          return false;
        }
        ledger := if ledger.Absent? then Ledger(None) else ledger;
        return true;
      }
      var g := t.parse(gate.value);
      if g.None? {
        return false;
      }
      var failing, statuses := Failing(g.value.checks), Statuses(g.value.checks);
      var rounds := Rounds(ledger);
      var round := ComputeNextRound(rounds);
      if failing.None? || statuses.None? || round.None? {
        return false;
      }
      var entry := Entry(round, Some(t.hash(gate.value)), g.value.generated, g.value.verdict,
                         statuses.value, failing.value, None);
      var keepFile := g.value.verdict == Some("PASS") && mode == "--summary";
      if !keepFile {
        entry := entry.(full := Some(g.value));
      }
      if ending.TornInWrite? {
        ledger := Corrupt;
        return false;
      }
      ledger := Ledger(Some(rounds + [entry]));
      if !keepFile {
        if ending.DiesBeforeRemoval? {
          return false;
        }
        gate := None;
      }
      ok := true;
    }
  }

  // ---- runs ----

  /** A step: a gate round (or anything else) puts a gate file in place or takes it away, or the
      tool runs. */
  datatype Step = GateRound(content: Option<Bytes>) | ToolRun(mode: string, ending: Ending)

  function Apply(t: Tool, s: Step, f: Files): Files {
    match s
    case GateRound(content) => f.(gate := content)
    case ToolRun(mode, ending) => Ledgered(t, mode, ending, f).0
  }

  function Run(t: Tool, steps: seq<Step>, f: Files): Files
    decreases |steps|
  {
    if steps == [] then f else Run(t, steps[1..], Apply(t, steps[0], f))
  }

  /** The step is a tool run that dies inside its write of the ledger. */
  predicate Tears(t: Tool, s: Step, f: Files) {
    s.ToolRun? && s.ending.TornInWrite? && Writes(t, s.mode, f)
  }

  /** Some step of the run does. */
  predicate TornSomewhere(t: Tool, steps: seq<Step>, f: Files)
    decreases |steps|
  {
    steps != [] && (Tears(t, steps[0], f) || TornSomewhere(t, steps[1..], Apply(t, steps[0], f)))
  }

  ghost predicate Increasing(rounds: seq<Entry>) {
    && (forall i | 0 <= i < |rounds| :: rounds[i].round.Some?)
    && (forall i, j | 0 <= i < j < |rounds| :: rounds[i].round.value < rounds[j].round.value)
  }

  /** The later ledger can be read, and holds every earlier entry unchanged and in place. */
  predicate Kept(before: LedgerFile, after: LedgerFile) {
    !after.Corrupt? && Rounds(before) <= Rounds(after)
  }

  /** A step that is not torn only appends, with a new, larger round number. */
  lemma StepKeepsHistory(t: Tool, s: Step, f: Files)
    requires !f.ledger.Corrupt? && !Tears(t, s, f)
    ensures Kept(f.ledger, Apply(t, s, f).ledger)
    ensures Increasing(Rounds(f.ledger)) ==> Increasing(Rounds(Apply(t, s, f).ledger))
  {
    var rounds := Rounds(f.ledger);
    if s.ToolRun? && f.gate.Some? && EntryOf(t, s.mode, rounds, f.gate.value).Some? {
      NextRoundIsNew(rounds);
    }
  }

  /** A torn run loses the ledger but not the gate file it was about to enter. */
  lemma TornRunLeavesTheGateFile(t: Tool, s: Step, f: Files)
    requires Tears(t, s, f)
    ensures Apply(t, s, f) == Files(Corrupt, f.gate) && !Ledgered(t, s.mode, s.ending, f).1
  {
  }

  /** From a torn ledger on, every tool run fails and changes nothing, whatever happens to the gate
      file in between. */
  lemma {:induction false} TornIsFinal(t: Tool, steps: seq<Step>, f: Files, mode: string, ending: Ending)
    requires f.ledger.Corrupt?
    ensures var g := Run(t, steps, f); g.ledger.Corrupt? && Ledgered(t, mode, ending, g) == (g, false)
    decreases |steps|
  {
    if steps != [] {
      TornIsFinal(t, steps[1..], Apply(t, steps[0], f), mode, ending);
    }
  }

  /** Over every run from a readable ledger: the history is kept if and only if no tool run is torn in
      its write. Then round numbers that increase go on increasing; otherwise the ledger is lost. */
  lemma {:induction false} HistoryKept(t: Tool, steps: seq<Step>, f: Files)
    requires !f.ledger.Corrupt?
    ensures Kept(f.ledger, Run(t, steps, f).ledger) <==> !TornSomewhere(t, steps, f)
    ensures TornSomewhere(t, steps, f) ==> Run(t, steps, f).ledger.Corrupt?
    ensures Increasing(Rounds(f.ledger)) ==> Increasing(Rounds(Run(t, steps, f).ledger))
    decreases |steps|
  {
    if steps != [] {
      var next := Apply(t, steps[0], f);
      if Tears(t, steps[0], f) {
        TornIsFinal(t, steps[1..], next, "", Completes);
      } else {
        StepKeepsHistory(t, steps[0], f);
        HistoryKept(t, steps[1..], next);
      }
    }
  }

  /** A gate file that a tool run removes stands in full in the entry that run made. */
  lemma RemovedIsEmbedded(t: Tool, mode: string, ending: Ending, f: Files)
    requires f.gate.Some? && Ledgered(t, mode, ending, f).0.gate.None?
    ensures var rounds := Rounds(Ledgered(t, mode, ending, f).0.ledger);
            && |rounds| == |Rounds(f.ledger)| + 1
            && t.parse(f.gate.value).Some?
            && rounds[|rounds| - 1].full == t.parse(f.gate.value)
            && rounds[|rounds| - 1].source == Some(t.hash(f.gate.value))
    ensures !Ledgered(t, mode, ending, f).0.ledger.Corrupt?
  {
  }

  ghost predicate Embeds(t: Tool, rounds: seq<Entry>, content: Bytes) {
    exists i :: 0 <= i < |rounds| && rounds[i].full.Some? && rounds[i].full == t.parse(content)
                && rounds[i].source == Some(t.hash(content))
  }

  lemma {:induction false} RunAppend(t: Tool, a: seq<Step>, b: seq<Step>, f: Files)
    ensures Run(t, a + b, f) == Run(t, b, Run(t, a, f))
    decreases |a|
  {
    if a == [] {
      assert a + b == b;
    } else {
      assert (a + b)[0] == a[0] && (a + b)[1..] == a[1..] + b;
      RunAppend(t, a[1..], b, Apply(t, a[0], f));
    }
  }

  /** Over every run: whatever gate file the tool removed at any step is in the final ledger in full,
      unless a later run was torn; then the ledger is lost. */
  lemma NothingIsLost(t: Tool, before: seq<Step>, mode: string, ending: Ending, after: seq<Step>, f: Files)
    requires Run(t, before, f).gate.Some? && Ledgered(t, mode, ending, Run(t, before, f)).0.gate.None?
    ensures var here := Run(t, before, f);
            var final := Run(t, before + [ToolRun(mode, ending)] + after, f);
            if TornSomewhere(t, after, Ledgered(t, mode, ending, here).0) then final.ledger.Corrupt?
            else Embeds(t, Rounds(final.ledger), here.gate.value)
  {
    var here := Run(t, before, f);
    var next := Ledgered(t, mode, ending, here).0;
    RemovedIsEmbedded(t, mode, ending, here);
    RunAppend(t, before, [ToolRun(mode, ending)] + after, f);
    assert before + [ToolRun(mode, ending)] + after == before + ([ToolRun(mode, ending)] + after);
    assert ([ToolRun(mode, ending)] + after)[1..] == after;
    HistoryKept(t, after, next);
    if !TornSomewhere(t, after, next) {
      var k := |Rounds(next.ledger)| - 1;
      assert Rounds(Run(t, after, next).ledger)[k] == Rounds(next.ledger)[k];
    }
  }

  /** What a tool run leaves behind. It exits 0 with a live file exactly on a PASS round in summary
      mode, which it leaves as it was and enters without content. A run that fails left the gate file
      and either changed nothing, or died after entering the file in full, or tore the ledger. */
  lemma LiveFileIsPass(t: Tool, mode: string, ending: Ending, f: Files)
    requires f.gate.Some?
    ensures var (g, ok) := Ledgered(t, mode, ending, f);
            && (ok && g.gate.Some? ==>
                  && g.gate == f.gate && mode == "--summary"
                  && t.parse(f.gate.value).Some? && t.parse(f.gate.value).value.verdict == Some("PASS"))
            && (ok ==> |Rounds(g.ledger)| == |Rounds(f.ledger)| + 1)
            && (!ok ==> g.gate == f.gate
                        && (g == f || g.ledger.Corrupt? || Embeds(t, Rounds(g.ledger), f.gate.value)))
            && (!f.ledger.Corrupt? && g.ledger.Corrupt? <==> Tears(t, ToolRun(mode, ending), f))
  {
    var (g, ok) := Ledgered(t, mode, ending, f);
    var rounds := Rounds(g.ledger);
    if !ok && g != f && !g.ledger.Corrupt? {
      assert rounds[|rounds| - 1].full == t.parse(f.gate.value);
    }
  }

  predicate NamedAndRated(checks: seq<Check>) {
    forall i | 0 <= i < |checks| :: checks[i].gate.Some? && checks[i].status.Some?
  }

  /** A run over a ledger with increasing rounds and a well-formed gate file succeeds. */
  lemma {:induction false} SucceedsExactly(t: Tool, mode: string, f: Files)
    requires Increasing(Rounds(f.ledger))
    ensures Ledgered(t, mode, Completes, f).1 <==>
            && (mode == "--purge" || mode == "--summary") && !f.ledger.Corrupt?
            && (f.gate.Some? ==> t.parse(f.gate.value).Some? && NamedAndRated(t.parse(f.gate.value).value.checks))
  {
    NumbersGiveNext(Rounds(f.ledger));
    if f.gate.Some? && t.parse(f.gate.value).Some? {
      FailingExactly(t.parse(f.gate.value).value.checks);
      StatusesExactly(t.parse(f.gate.value).value.checks);
    }
  }

  lemma {:induction false} NumbersGiveNext(rounds: seq<Entry>)
    requires forall i | 0 <= i < |rounds| :: rounds[i].round.Some?
    ensures NextRound(rounds).Some?
  {
    if |rounds| > 1 {
      NumbersGiveNext(rounds[1..]);
    }
  }

  lemma {:induction false} FailingExactly(checks: seq<Check>)
    ensures Failing(checks).Some? <==> forall i | 0 <= i < |checks| ::
              checks[i].status == Some("PASS") || (checks[i].gate.Some? && checks[i].status.Some?)
  {
    if checks != [] {
      FailingExactly(checks[1..]);
      assert checks == [checks[0]] + checks[1..];
    }
  }

  lemma {:induction false} StatusesExactly(checks: seq<Check>)
    ensures Statuses(checks).Some? <==> forall i | 0 <= i < |checks| :: checks[i].gate.Some?
  {
    if checks != [] {
      StatusesExactly(checks[..|checks| - 1]);
    }
  }

  /** The failures entered are exactly the checks that did not pass, as they stand in the file. */
  lemma {:induction false} FailuresAreTheFailing(checks: seq<Check>, f: Failure)
    requires Failing(checks).Some?
    ensures f in Failing(checks).value <==>
            Check(Some(f.gate), Some(f.status), f.evidence) in checks && f.status != "PASS"
  {
    if checks != [] {
      FailuresAreTheFailing(checks[1..], f);
      var c := checks[0];
      assert checks == [c] + checks[1..];
      assert Failing(checks).value == Failing(checks[1..]).value
             || Failing(checks).value
                == [Failure(c.gate.value, c.status.value, c.evidence)] + Failing(checks[1..]).value;
    }
  }

  /** A name's entered status is that of the last check of that name. */
  lemma {:induction false} LastStatusWins(checks: seq<Check>, k: nat)
    requires Statuses(checks).Some? && k < |checks|
    requires forall j | k < j < |checks| :: checks[j].gate != checks[k].gate
    ensures checks[k].gate.Some? && checks[k].gate.value in Statuses(checks).value
    ensures Statuses(checks).value[checks[k].gate.value] == checks[k].status
  {
    if k < |checks| - 1 {
      LastStatusWins(checks[..|checks| - 1], k);
    }
  }

  /** The failures entered are the non-passing checks; a file with none enters none. */
  lemma {:induction false} NoFailuresExactly(checks: seq<Check>)
    requires Failing(checks).Some?
    ensures Failing(checks).value == [] <==> forall i | 0 <= i < |checks| :: checks[i].status == Some("PASS")
  {
    if checks != [] {
      NoFailuresExactly(checks[1..]);
      assert checks == [checks[0]] + checks[1..];
    }
  }
}
