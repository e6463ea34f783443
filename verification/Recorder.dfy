/** The audit-hook recorder that wraps the production run: a bounded event log, a recording flag,
    and a truncation bit. */
module Recorder {
  import opened Contract
  import opened Text

  const RECORD_PREFIXES: seq<string> := [
    "socket.", "subprocess.", "shutil.", "ctypes.",
    "os.exec", "os.system", "os.posix_spawn", "os.spawn", "os.fork",
    "os.remove", "os.rename", "os.rmdir", "os.truncate",
    "os.link", "os.symlink"]

  /** An audit event. `args` is present when the event carried at least three arguments whose
      first two could be printed: path, mode, and the flags when they are an integer. */
  datatype AuditEvent = AuditEvent(name: string, args: Option<OpenArgs>)

  datatype OpenArgs = OpenArgs(path: string, mode: string, flags: Option<int>)

  /** A record in the events file. */
  datatype EventRecord = EventRecord(event: string, path: Option<string>, path2: Option<string>,
                                     mode: string, flags: Option<int>)

  /** The events file. A dump replaces it whole; nothing else in the program removes it. */
  datatype EventsFile = NoEvents | UnreadableEvents | Payload(truncated: bool, events: seq<EventRecord>)

  /** `_event_matches` */
  predicate Matches(name: string) {
    name == "open" || exists i | 0 <= i < |RECORD_PREFIXES| :: StartsWith(name, RECORD_PREFIXES[i])
  }

  /** The record of a matching event: only a structured open keeps its path. */
  function Record(e: AuditEvent): EventRecord {
    if e.name == "open" && e.args.Some? then
      EventRecord("open", Some(e.args.value.path), None, e.args.value.mode, e.args.value.flags)
    else
      EventRecord(e.name, None, None, "", None)
  }

  /** The records of all matching events, in order. */
  function Log(trace: seq<AuditEvent>): seq<EventRecord> {
    if trace == [] then []
    else
      var e := trace[|trace| - 1];
      Log(trace[..|trace| - 1]) + (if Matches(e.name) then [Record(e)] else [])
  }

  /** The first `max` elements. */
  function Capped(log: seq<EventRecord>, max: int): seq<EventRecord> {
    if max <= 0 then [] else if |log| <= max then log else log[..max]
  }

  class Hook {
    var recording: bool
    var events: seq<EventRecord>
    const maxEvents: int

    constructor (maxEvents: int)
      ensures recording && events == [] && this.maxEvents == maxEvents
    {
      this.maxEvents := maxEvents;
      recording, events := true, [];
    }

    /** `_audit_hook`: silent when not recording, for other events, and once the log is full. */
    method Audit(e: AuditEvent)
      modifies `events
      ensures events == old(events)
                        + (if recording && Matches(e.name) && |old(events)| < maxEvents then [Record(e)] else [])
    {
      if !recording || !Matches(e.name) || |events| >= maxEvents {
        return;
      }
      events := events + [Record(e)];
    }

    /** `dump_events`: recording stops first, so the dump's own file operations leave no record. A
        dump that fails leaves the file that was there. */
    method Dump(truncated: bool, own: seq<AuditEvent>, written: bool, previous: EventsFile) returns (file: EventsFile)
      modifies this
      ensures !recording && events == old(events)
      ensures file == if written then Payload(truncated, old(events)) else previous
    {
      recording := false;
      for i := 0 to |own|
        invariant !recording && events == old(events)
      {
        Audit(own[i]);
      }
      file := if written then Payload(truncated, events) else previous;
    }
  }

  type NonZero = n: int | n != 0 witness 1

  /** How the wrapper's process ends. It reaches its end, with the engine's exit status, the dump having
      succeeded or raised; or it dies, before the dump or after it, with a code that is never 0; or it
      leaves through `os._exit`, which no audit event announces and no `finally` sees: in the engine
      before the dump, or in an exit handler after it. */
  datatype End =
    | Returned(status: int, dumped: bool)
    | Died(code: NonZero, dumped: bool)
    | Left(status: int, dumped: bool)
  {
    /** The subprocess's return code: an exit status is taken modulo 256. */
    function ReturnCode(): int {
      match this
      case Returned(status, dumped) => if dumped then status % 256 else 2
      case Died(code, _) => code
      case Left(status, _) => status % 256
    }
  }

  /** The wrapper's process around an engine that raises the events of `trace`. Recording ends at the
      dump; `late` is what happens from then on: other threads, exit handlers, finalizers. */
  method Wrap(trace: seq<AuditEvent>, maxEvents: int, own: seq<AuditEvent>, late: seq<AuditEvent>, end: End,
              previous: EventsFile)
    returns (file: EventsFile, code: int)
    ensures file == EventsAfter(previous, trace, maxEvents, end)
    ensures code == end.ReturnCode()
  {
    var hook := new Hook(maxEvents);
    for i := 0 to |trace|
      invariant hook.recording && hook.maxEvents == maxEvents
      invariant hook.events == Capped(Log(trace[..i]), maxEvents)
    {
      assert trace[..i + 1][..i] == trace[..i];
      hook.Audit(trace[i]);
    }
    assert trace[..|trace|] == trace;
    file, code := previous, end.ReturnCode();
    if end.Returned? || end.dumped {
      var truncated := |hook.events| >= maxEvents;
      file := hook.Dump(truncated, own, end.dumped, previous);
      for i := 0 to |late|
        invariant !hook.recording
      {
        hook.Audit(late[i]);
      }
    }
  }

  /** What is at the events path when the process has ended: the dump, or what stood there before. No
      later event has a part in it. */
  function EventsAfter(previous: EventsFile, trace: seq<AuditEvent>, maxEvents: int, end: End): EventsFile {
    if end.dumped then Wrapped(trace, maxEvents) else previous
  }

  /** What a dump writes, stated on the trace. */
  function Wrapped(trace: seq<AuditEvent>, maxEvents: int): EventsFile {
    Payload(|Log(trace)| >= maxEvents, Capped(Log(trace), maxEvents))
  }

  /** The bit is exact for completeness except at the cap itself: a log marked complete is all the
      matching events in order, and one marked truncated is still complete exactly when the trace
      had precisely `max` matching events. */
  lemma TruncationExact(trace: seq<AuditEvent>, maxEvents: nat)
    ensures var file := Wrapped(trace, maxEvents);
            && (!file.truncated ==> file.events == Log(trace))
            && (file.truncated ==> (file.events == Log(trace) <==> |Log(trace)| == maxEvents))
            && file.events <= Log(trace)
  {
  }

  lemma {:induction false} LogMembers(trace: seq<AuditEvent>, r: EventRecord)
    ensures r in Log(trace) <==> exists i | 0 <= i < |trace| :: Matches(trace[i].name) && Record(trace[i]) == r
  {
    if trace != [] {
      var front := trace[..|trace| - 1];
      LogMembers(front, r);
      assert forall i | 0 <= i < |front| :: front[i] == trace[i];
    }
  }
}
