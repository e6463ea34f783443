/** The assurance battery: each scenario damages one evidence file, runs the verifier, and puts the
    file back. */
module Battery {
  import opened Contract

  type Bytes = string
  type Evidence = map<string, Bytes>
  type Reports = map<string, Bytes>

  /** What preparing a mutation leaves at its own path (None: removed), and whether it raised. */
  datatype Prepared = Prepared(left: Option<Bytes>, raised: bool)

  datatype Scenario = Tamper(id: string, path: string, prepare: Bytes -> Prepared) | Remove(id: string, path: string)

  /** A verifier run over the evidence: whether it rejected (None: it raised), and the reports it
      leaves. It writes no evidence. */
  datatype Finding = Finding(rejected: Option<bool>, reports: Reports)

  type Verifier = (Evidence, Reports) -> Finding

  function Place(files: Evidence, path: string, content: Option<Bytes>): Evidence {
    if content.Some? then files[path := content.value] else files - {path}
  }

  function Prepare(s: Scenario, original: Bytes): Prepared {
    if s.Tamper? then s.prepare(original) else Prepared(None, false)
  }

  /** The evidence a scenario shows the verifier: the clean evidence with only its own file changed. */
  function Damaged(s: Scenario, clean: Evidence): Evidence
    requires s.path in clean
  {
    Place(clean, s.path, Prepare(s, clean[s.path]).left)
  }

  /** What a scenario finds on clean evidence. */
  function Judged(v: Verifier, s: Scenario, clean: Evidence, reports: Reports): Finding {
    if s.path !in clean || Prepare(s, clean[s.path]).raised then Finding(None, reports)
    else v(Damaged(s, clean), reports)
  }

  /** The scenarios in order: their findings, and the reports left. None when one raises. */
  function Findings(v: Verifier, scenarios: seq<Scenario>, clean: Evidence,
          reports: Reports): (Option<seq<bool>>, Reports)
    decreases |scenarios|
  {
    if scenarios == [] then (Some([]), reports)
    else
      var f := Judged(v, scenarios[0], clean, reports);
      if f.rejected.None? then (None, f.reports)
      else
        var (rest, left) := Findings(v, scenarios[1..], clean, f.reports);
        (if rest.None? then None else Some([f.rejected.value] + rest.value), left)
  }

  predicate AllTrue(bs: seq<bool>) {
    forall i | 0 <= i < |bs| :: bs[i]
  }

  datatype Ending = Aborted | Crashed | Finished(results: seq<bool>, restored: bool, finalClean: bool) {
    /** `battery_pass` */
    predicate Pass() {
      Finished? && AllTrue(results) && restored && finalClean
    }
  }

  predicate AllPresent(touched: seq<string>, evidence: Evidence) {
    forall p | p in touched :: p in evidence
  }

  /** The battery over clean evidence: `touched` are the files it hashes before and after,
      `documents` the findings of the document scenarios. */
  function Outcome(v: Verifier, touched: seq<string>, scenarios: seq<Scenario>, documents: seq<bool>, clean: Evidence,
                   reports: Reports): Ending
  {
    var base := v(clean, reports);
    if !AllPresent(touched, clean) || base.rejected.None? then Crashed
    else if base.rejected.value then Aborted
    else
      var (results, left) := Findings(v, scenarios, clean, base.reports);
      if results.None? then Crashed
      else
        var last := v(clean, left);
        if last.rejected.None? then Crashed
        else Finished(results.value + documents, true, !last.rejected.value)
  }

  class Workspace {
    var evidence: Evidence
    var reports: Reports

    constructor (evidence: Evidence, reports: Reports)
      ensures this.evidence == evidence && this.reports == reports
    {
      this.evidence, this.reports := evidence, reports;
    }

    /** `mutated_scenario` and `absent_scenario`: the evidence is restored on every exit. */
    method RunScenario(v: Verifier, s: Scenario) returns (rejected: Option<bool>)
      modifies this
      ensures evidence == old(evidence)
      ensures Finding(rejected, reports) == Judged(v, s, old(evidence), old(reports))
    {
      if s.path !in evidence {
        return None;
      }
      var original := evidence[s.path];
      var prepared := Prepare(s, original);
      evidence := Place(evidence, s.path, prepared.left);
      if prepared.raised {
        rejected := None;
      } else {
        var f := v(evidence, reports);
        rejected, reports := f.rejected, f.reports;
      }
      evidence := evidence[s.path := original];
      assert evidence == old(evidence);
    }

    /** The scenarios of `main`, one after the other. */
    method RunScenarios(v: Verifier, scenarios: seq<Scenario>) returns (results: Option<seq<bool>>)
      modifies this
      ensures evidence == old(evidence)
      ensures (results, reports) == Findings(v, scenarios, old(evidence), old(reports))
    {
      var done, i := [], 0;
      ghost var clean := evidence;
      ghost var all := Findings(v, scenarios, clean, reports);
      assert scenarios[0..] == scenarios;
      assert all.0.Some? ==> done + all.0.value == all.0.value;
      while i < |scenarios|
        invariant 0 <= i <= |scenarios|
        invariant evidence == clean
        invariant all == Resumed(done, Findings(v, scenarios[i..], clean, reports))
      {
        assert scenarios[i..][1..] == scenarios[i + 1..];
        var rejected := RunScenario(v, scenarios[i]);
        if rejected.None? {
          return None;
        }
        ghost var later := Findings(v, scenarios[i + 1..], clean, reports).0;
        assert later.Some? ==> done + ([rejected.value] + later.value) == done + [rejected.value] + later.value;
        done := done + [rejected.value];
        i := i + 1;
      }
      assert scenarios[i..] == [] && done + [] == done;
      results := Some(done);
    }

    /** `main`: whatever happens, the evidence ends as it started. */
    method RunBattery<H(==)>(v: Verifier, hash: Bytes -> H, touched: seq<string>, scenarios: seq<Scenario>,
            documents: seq<bool>)
      returns (ending: Ending)
      modifies this
      ensures evidence == old(evidence)
      ensures ending == Outcome(v, touched, scenarios, documents, old(evidence), old(reports))
    {
      if !AllPresent(touched, evidence) {
        return Crashed;
      }
      var base := v(evidence, reports);
      reports := base.reports;
      if base.rejected.None? {
        return Crashed;
      }
      if base.rejected.value {
        return Aborted;
      }
      var before := map p | p in touched :: hash(evidence[p]);
      var results := RunScenarios(v, scenarios);
      if results.None? {
        return Crashed;
      }
      var restored := before == map p | p in touched :: hash(evidence[p]);
      var last := v(evidence, reports);
      reports := last.reports;
      if last.rejected.None? {
        return Crashed;
      }
      ending := Finished(results.value + documents, restored, !last.rejected.value);
    }
  }

  /** Findings so far, and those still to come. */
  ghost function Resumed(done: seq<bool>, rest: (Option<seq<bool>>, Reports)): (Option<seq<bool>>, Reports) {
    (if rest.0.None? then None else Some(done + rest.0.value), rest.1)
  }

  /** The reports scenario k finds when it starts. */
  function ReportsBefore(v: Verifier, scenarios: seq<Scenario>, clean: Evidence, reports: Reports, k: nat): Reports
    requires k <= |scenarios|
    decreases k
  {
    if k == 0 then reports
    else
      var f := Judged(v, scenarios[0], clean, reports);
      ReportsBefore(v, scenarios[1..], clean, f.reports, k - 1)
  }

  lemma {:induction false} FindingOfEach(v: Verifier, scenarios: seq<Scenario>, clean: Evidence,
          reports: Reports, k: nat)
    requires Findings(v, scenarios, clean, reports).0.Some? && k < |scenarios|
    ensures var results := Findings(v, scenarios, clean, reports).0.value;
            && |results| == |scenarios|
            && Judged(v, scenarios[k], clean, ReportsBefore(v, scenarios, clean, reports, k)).rejected
               == Some(results[k])
    decreases |scenarios|
  {
    var f := Judged(v, scenarios[0], clean, reports);
    if |scenarios| > 1 {
      FindingOfEach(v, scenarios[1..], clean, f.reports, if k == 0 then 0 else k - 1);
    }
  }

  lemma {:induction false} ReportsAfterAll(v: Verifier, scenarios: seq<Scenario>, clean: Evidence, reports: Reports)
    requires Findings(v, scenarios, clean, reports).0.Some?
    ensures Findings(v, scenarios, clean, reports).1 == ReportsBefore(v, scenarios, clean, reports, |scenarios|)
    ensures |Findings(v, scenarios, clean, reports).0.value| == |scenarios|
    decreases |scenarios|
  {
    if scenarios != [] {
      ReportsAfterAll(v, scenarios[1..], clean, Judged(v, scenarios[0], clean, reports).reports);
    }
  }

  /** A battery passes if and only if the touched files are there, the verifier accepts the clean
      evidence before and after and rejects it with any one scenario's damage and no other, and every
      document scenario was rejected. */
  lemma PassExactly(v: Verifier, touched: seq<string>, scenarios: seq<Scenario>, documents: seq<bool>, clean: Evidence,
                    reports: Reports)
    ensures var start := v(clean, reports).reports;
            Outcome(v, touched, scenarios, documents, clean, reports).Pass() <==>
            && AllPresent(touched, clean)
            && v(clean, reports).rejected == Some(false)
            && (forall k | 0 <= k < |scenarios| ::
                  Judged(v, scenarios[k], clean, ReportsBefore(v, scenarios, clean, start, k)).rejected == Some(true))
            && v(clean, ReportsBefore(v, scenarios, clean, start, |scenarios|)).rejected == Some(false)
            && AllTrue(documents)
  {
    var start := v(clean, reports).reports;
    var (results, left) := Findings(v, scenarios, clean, start);
    if results.Some? {
      ReportsAfterAll(v, scenarios, clean, start);
      forall k | 0 <= k < |scenarios|
        ensures Judged(v, scenarios[k], clean, ReportsBefore(v, scenarios, clean, start, k)).rejected
                == Some(results.value[k])
      {
        FindingOfEach(v, scenarios, clean, start, k);
      }
      AllTrueAppend(results.value, documents);
    } else {
      RaisedSomewhere(v, scenarios, clean, start);
    }
  }

  lemma AllTrueAppend(a: seq<bool>, b: seq<bool>)
    ensures AllTrue(a + b) <==> AllTrue(a) && AllTrue(b)
  {
    assert forall i | 0 <= i < |a| :: (a + b)[i] == a[i];
    assert forall i | 0 <= i < |b| :: (a + b)[|a| + i] == b[i];
  }

  lemma {:induction false} RaisedSomewhere(v: Verifier, scenarios: seq<Scenario>, clean: Evidence, reports: Reports)
    requires Findings(v, scenarios, clean, reports).0.None?
    ensures exists k :: 0 <= k < |scenarios|
              && Judged(v, scenarios[k], clean, ReportsBefore(v, scenarios, clean, reports, k)).rejected.None?
    decreases |scenarios|
  {
    var f := Judged(v, scenarios[0], clean, reports);
    if f.rejected.None? {
      assert ReportsBefore(v, scenarios, clean, reports, 0) == reports;
    } else {
      RaisedSomewhere(v, scenarios[1..], clean, f.reports);
      var rest := scenarios[1..];
      var k :| 0 <= k < |rest|
               && Judged(v, rest[k], clean, ReportsBefore(v, rest, clean, f.reports, k)).rejected.None?;
      assert ReportsBefore(v, scenarios, clean, reports, k + 1)
          == ReportsBefore(v, scenarios[1..], clean, f.reports, k);
      assert scenarios[k + 1] == scenarios[1..][k];
    }
  }
}
