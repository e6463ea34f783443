/** `classify_runtime_safety`, and what its PASS says about the real event trace. */
module Safety {
  import opened Contract
  import opened Text
  import opened Paths
  import opened Recorder

  datatype SafetyStatus = SafetyPass | SafetyFail | NotMeasured

  datatype SafetyReport = SafetyReport(status: SafetyStatus, network: nat, exec: nat, mutations: nat, outOfRepo: nat)

  const EXEC_EVENTS: seq<string> := [
    "subprocess.Popen", "os.system", "os.exec", "os.posix_spawn", "os.spawn", "os.fork"]

  const ONE_PATH_EVENTS: seq<string> := ["os.remove", "os.rmdir", "os.truncate", "shutil.rmtree"]

  const TWO_PATH_EVENTS: seq<string> := [
    "os.rename", "os.link", "os.symlink", "shutil.copy", "shutil.copy2", "shutil.copyfile", "shutil.move"]

  predicate IsNetwork(name: string) {
    StartsWith(name, "socket.")
  }

  predicate IsExec(name: string) {
    name in EXEC_EVENTS
  }

  /** Bit k of an integer in two's complement, for k given as 2^k. */
  predicate BitSet(n: int, power: int)
    requires power > 0
  {
    (n / power) % 2 == 1
  }

  /** `flags & (O_WRONLY | O_RDWR | O_CREAT | O_TRUNC | O_APPEND)` is non-zero. */
  predicate WriteFlags(flags: int) {
    BitSet(flags, 1) || BitSet(flags, 2) || BitSet(flags, 0x40) || BitSet(flags, 0x200) || BitSet(flags, 0x400)
  }

  predicate WriteMode(mode: string) {
    exists i | 0 <= i < |mode| :: mode[i] in "wax+"
  }

  predicate IsWriteOpen(flags: Option<int>, mode: string) {
    (flags.Some? && WriteFlags(flags.value)) || WriteMode(mode)
  }

  /** `_in_repo(p)` for a path that may be missing. */
  predicate Inside(root: string, p: Option<string>) {
    p.Some? && InRepo(root, p.value)
  }

  predicate IsMutation(r: EventRecord) {
    if r.event == "open" then IsWriteOpen(r.flags, r.mode)
    else r.event in ONE_PATH_EVENTS || r.event in TWO_PATH_EVENTS
  }

  predicate IsOutOfRepo(root: string, r: EventRecord) {
    IsMutation(r)
    && (if r.event in TWO_PATH_EVENTS && r.event !in ONE_PATH_EVENTS && r.event != "open"
        then !Inside(root, r.path) || !Inside(root, r.path2)
        else !Inside(root, r.path))
  }

  datatype Kind = Network | Exec | Mutation | OutOfRepo

  predicate IsKind(kind: Kind, root: string, r: EventRecord) {
    match kind
    case Network => IsNetwork(r.event)
    case Exec => IsExec(r.event)
    case Mutation => IsMutation(r)
    case OutOfRepo => IsOutOfRepo(root, r)
  }

  function Count(kind: Kind, root: string, events: seq<EventRecord>): nat {
    if events == [] then 0
    else Count(kind, root, events[..|events| - 1]) + (if IsKind(kind, root, events[|events| - 1]) then 1 else 0)
  }

  function Classified(root: string, file: EventsFile): SafetyReport {
    if !file.Payload? || file.truncated then SafetyReport(NotMeasured, 0, 0, 0, 0)
    else
      var network, exec := Count(Network, root, file.events), Count(Exec, root, file.events);
      var outOfRepo := Count(OutOfRepo, root, file.events);
      SafetyReport(if network > 0 || exec > 0 || outOfRepo > 0 then SafetyFail else SafetyPass,
                   network, exec, Count(Mutation, root, file.events), outOfRepo)
  }

  method ClassifyRuntimeSafety(root: string, file: EventsFile) returns (report: SafetyReport)
    ensures report == Classified(root, file)
  {
    if !file.Payload? || file.truncated {
      return SafetyReport(NotMeasured, 0, 0, 0, 0);
    }
    var network, exec, mutations, outOfRepo := 0, 0, 0, 0;
    for i := 0 to |file.events|
      invariant network == Count(Network, root, file.events[..i])
      invariant exec == Count(Exec, root, file.events[..i])
      invariant mutations == Count(Mutation, root, file.events[..i])
      invariant outOfRepo == Count(OutOfRepo, root, file.events[..i])
    {
      var r := file.events[i];
      assert file.events[..i + 1][..i] == file.events[..i];
      assert file.events[..i + 1][i] == r;
      network := network + (if IsNetwork(r.event) then 1 else 0);
      exec := exec + (if IsExec(r.event) then 1 else 0);
      var out := Tally(root, r);
      mutations := mutations + (if out.0 then 1 else 0);
      outOfRepo := outOfRepo + (if out.1 then 1 else 0);
    }
    assert file.events[..|file.events|] == file.events;
    var status := if network > 0 || exec > 0 || outOfRepo > 0 then SafetyFail else SafetyPass;
    report := SafetyReport(status, network, exec, mutations, outOfRepo);
  }

  /** The classifier's branch on one record: is it a mutation, and is it outside the repository? */
  function Tally(root: string, r: EventRecord): (t: (bool, bool))
    ensures t == (IsMutation(r), IsOutOfRepo(root, r))
  {
    if r.event == "open" then
      var write := IsWriteOpen(r.flags, r.mode);
      (write, write && !Inside(root, r.path))
    else if r.event in ONE_PATH_EVENTS then (true, !Inside(root, r.path))
    else if r.event in TWO_PATH_EVENTS then (true, !Inside(root, r.path) || !Inside(root, r.path2))
    else (false, false)
  }

  lemma {:induction false} CountZero(kind: Kind, root: string, events: seq<EventRecord>)
    ensures Count(kind, root, events) == 0 <==> forall r | r in events :: !IsKind(kind, root, r)
  {
    if events != [] {
      var front, last := events[..|events| - 1], events[|events| - 1];
      CountZero(kind, root, front);
      assert events == front + [last];
    }
  }

  // ---- the recorder and the classifier together ----

  /** An event the classifier would object to, judged on the event itself. A structured open for
      writing is judged by its path; a removal, rename, link or copy always, because the recorder
      keeps no path for it. */
  predicate Objectionable(root: string, e: AuditEvent) {
    || IsNetwork(e.name) || IsExec(e.name) || e.name in ONE_PATH_EVENTS || e.name in TWO_PATH_EVENTS
    || (e.name == "open" && e.args.Some? && IsWriteOpen(e.args.value.flags, e.args.value.mode)
        && !InRepo(root, e.args.value.path))
  }

  /** The recorder misses no event the classifier looks for. */
  lemma ObjectionableIsRecorded(root: string, e: AuditEvent)
    requires Objectionable(root, e)
    ensures Matches(e.name)
  {
    var ps := RECORD_PREFIXES;
    assert ps[0] == "socket." && ps[1] == "subprocess." && ps[2] == "shutil." && ps[4] == "os.exec"
           && ps[5] == "os.system" && ps[6] == "os.posix_spawn" && ps[7] == "os.spawn" && ps[8] == "os.fork";
    assert ps[9] == "os.remove" && ps[10] == "os.rename" && ps[11] == "os.rmdir" && ps[12] == "os.truncate"
           && ps[13] == "os.link" && ps[14] == "os.symlink";
    if IsNetwork(e.name) { assert StartsWith(e.name, ps[0]); }
    if IsExec(e.name) {
      assert StartsWith(e.name, ps[1]) || StartsWith(e.name, ps[5]) || StartsWith(e.name, ps[4])
             || StartsWith(e.name, ps[6]) || StartsWith(e.name, ps[7]) || StartsWith(e.name, ps[8]);
    }
    if e.name in ONE_PATH_EVENTS {
      assert StartsWith(e.name, ps[9]) || StartsWith(e.name, ps[11]) || StartsWith(e.name, ps[12])
             || StartsWith(e.name, ps[2]);
    }
    if e.name in TWO_PATH_EVENTS {
      assert StartsWith(e.name, ps[10]) || StartsWith(e.name, ps[13]) || StartsWith(e.name, ps[14])
             || StartsWith(e.name, ps[2]);
    }
  }

  /** The classifier objects to a record exactly when the event behind it is objectionable. */
  lemma RecordJudgesEvent(root: string, e: AuditEvent)
    ensures var r := Record(e);
            IsNetwork(r.event) || IsExec(r.event) || IsOutOfRepo(root, r) <==> Objectionable(root, e)
  {
    OpenIsPlain();
  }

  lemma OpenIsPlain()
    ensures "open" !in ONE_PATH_EVENTS && "open" !in TWO_PATH_EVENTS && !IsNetwork("open") && !IsExec("open")
    ensures forall name :: name in ONE_PATH_EVENTS ==> name !in TWO_PATH_EVENTS
  {
  }

  predicate NoneObjectionable(root: string, events: seq<AuditEvent>) {
    forall i | 0 <= i < |events| :: !Objectionable(root, events[i])
  }

  /** The log was below its cap and no event up to the dump was objectionable. */
  predicate SafeTrace(root: string, trace: seq<AuditEvent>, maxEvents: int) {
    |Log(trace)| < maxEvents && NoneObjectionable(root, trace)
  }

  /** For every event trace and every cap: the classification of a dump is PASS exactly on a safe
      trace. Truncation is what keeps the bound from hiding anything. */
  lemma DumpPassesExactly(root: string, trace: seq<AuditEvent>, maxEvents: nat)
    ensures Classified(root, Wrapped(trace, maxEvents)).status == SafetyPass <==> SafeTrace(root, trace, maxEvents)
  {
    if |Log(trace)| < maxEvents {
      var log := Log(trace);
      assert Wrapped(trace, maxEvents).events == log;
      CountZero(Network, root, log);
      CountZero(Exec, root, log);
      CountZero(OutOfRepo, root, log);
      if forall i | 0 <= i < |trace| :: !Objectionable(root, trace[i]) {
        forall r | r in log ensures !IsNetwork(r.event) && !IsExec(r.event) && !IsOutOfRepo(root, r) {
          LogMembers(trace, r);
          var i :| 0 <= i < |trace| && Matches(trace[i].name) && Record(trace[i]) == r;
          RecordJudgesEvent(root, trace[i]);
        }
      }
      if i :| 0 <= i < |trace| && Objectionable(root, trace[i]) {
        ObjectionableIsRecorded(root, trace[i]);
        RecordJudgesEvent(root, trace[i]);
        LogMembers(trace, Record(trace[i]));
        assert Record(trace[i]) in log;
      }
    }
  }

  /** When the classifier says PASS after a run: the run dumped its record and its trace was safe, or
      it left no record and the file of an earlier run still passes. */
  lemma PassExactly(root: string, previous: EventsFile, trace: seq<AuditEvent>, maxEvents: nat, end: End)
    ensures Classified(root, EventsAfter(previous, trace, maxEvents, end)).status == SafetyPass <==>
            if end.dumped then SafeTrace(root, trace, maxEvents)
            else Classified(root, previous).status == SafetyPass
  {
    DumpPassesExactly(root, trace, maxEvents);
  }

  /** What a PASS with return code 0 means of the run itself: it was recorded, and safe up to its dump;
      or it left no record, and left through `os._exit` over an earlier file that passes. */
  predicate RanSafely(root: string, previous: EventsFile, trace: seq<AuditEvent>, maxEvents: int, end: End) {
    match end
    case Returned(status, dumped) => status % 256 == 0 && dumped && SafeTrace(root, trace, maxEvents)
    case Died(_, _) => false
    case Left(status, dumped) =>
      status % 256 == 0
      && (if dumped then SafeTrace(root, trace, maxEvents) else Classified(root, previous).status == SafetyPass)
  }

  lemma CleanExitAndPassExactly(root: string, previous: EventsFile, trace: seq<AuditEvent>, maxEvents: nat, end: End)
    ensures end.ReturnCode() == 0
            && Classified(root, EventsAfter(previous, trace, maxEvents, end)).status == SafetyPass
            <==> RanSafely(root, previous, trace, maxEvents, end)
  {
    PassExactly(root, previous, trace, maxEvents, end);
  }

  /** Where no record stood before, nothing passes without one: the file of this run is then missing
      or its own. */
  lemma FreshPathIsMeasured(root: string, trace: seq<AuditEvent>, maxEvents: nat, end: End)
    ensures Classified(root, EventsAfter(NoEvents, trace, maxEvents, end)).status == SafetyPass <==>
            end.dumped && SafeTrace(root, trace, maxEvents)
    ensures !end.dumped ==> Classified(root, EventsAfter(NoEvents, trace, maxEvents, end)).status == NotMeasured
  {
    PassExactly(root, NoEvents, trace, maxEvents, end);
  }

  /** The stale file at work: after a clean run, one that opens a socket and is killed before its dump
      is classified PASS. Only its return code tells. */
  lemma StaleRecordPasses(root: string)
    ensures var socket := AuditEvent("socket.connect", None);
            var end := Died(-9, false);
            && Objectionable(root, socket)
            && Classified(root, EventsAfter(Wrapped([], 50000), [socket], 50000, end)).status == SafetyPass
            && end.ReturnCode() != 0
  {
    PassExactly(root, Wrapped([], 50000), [AuditEvent("socket.connect", None)], 50000, Died(-9, false));
    DumpPassesExactly(root, [], 50000);
  }

  /** No event of the whole process was objectionable, exactly: it was classified PASS on its own dump,
      and nothing objectionable came after the dump. */
  lemma WholeProcessExactly(root: string, previous: EventsFile, trace: seq<AuditEvent>, late: seq<AuditEvent>,
                            maxEvents: nat, end: End)
    requires end.dumped
    ensures |Log(trace)| < maxEvents && NoneObjectionable(root, trace + late) <==>
            Classified(root, EventsAfter(previous, trace, maxEvents, end)).status == SafetyPass
            && NoneObjectionable(root, late)
  {
    PassExactly(root, previous, trace, maxEvents, end);
    assert forall i | 0 <= i < |trace| :: (trace + late)[i] == trace[i];
    assert forall i | 0 <= i < |late| :: (trace + late)[|trace| + i] == late[i];
  }

  /** What comes after the dump is seen by nobody: a finalizer that removes a file leaves PASS and return
      code 0. */
  lemma LateEventPasses(root: string, previous: EventsFile)
    ensures var late, end := [AuditEvent("os.remove", None)], Returned(0, true);
            && !NoneObjectionable(root, late)
            && Classified(root, EventsAfter(previous, [], 50000, end)).status == SafetyPass
            && end.ReturnCode() == 0
  {
    var late := [AuditEvent("os.remove", None)];
    assert ONE_PATH_EVENTS[0] == "os.remove";
    assert Objectionable(root, late[0]);
    PassExactly(root, previous, [], 50000, Returned(0, true));
  }

  /** What a PASS leaves standing, with the path test read on path components. */
  lemma PassedRunStayedInside(root: seq<string>, trace: seq<AuditEvent>, maxEvents: nat, e: AuditEvent)
    requires root != [] && AllKept(root) && e in trace
    requires Classified(Render(root), Wrapped(trace, maxEvents)).status == SafetyPass
    ensures !IsNetwork(e.name) && !IsExec(e.name) && e.name !in ONE_PATH_EVENTS && e.name !in TWO_PATH_EVENTS
    ensures e.name == "open" && e.args.Some? && IsWriteOpen(e.args.value.flags, e.args.value.mode) ==>
              root <= Components(root, e.args.value.path)
  {
    DumpPassesExactly(Render(root), trace, maxEvents);
    var i :| 0 <= i < |trace| && trace[i] == e;
    assert !Objectionable(Render(root), trace[i]);
    if e.args.Some? { InRepoExact(root, e.args.value.path); }
  }
}
