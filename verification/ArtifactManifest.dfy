/** The release artifact manifest: built from a reviewed table of artifacts, and verified later by
    recomputing every size and hash. */
module ArtifactManifest {
  import opened Contract

  type Bytes = string
  type Files = map<string, Bytes>

  datatype Phase = Core | BootstrapScreen | PostZip

  datatype Row = Row(path: string, role: string, classification: string, phase: Phase)

  datatype Entry = Entry(path: string, size: Option<nat>, sha: Option<string>, role: string, classification: string,
                         pending: bool)

  datatype Manifest = Manifest(entries: seq<Entry>, pending: seq<string>, self: Option<string>)

  datatype Problem = Duplicate(path: string) | NotTerminal(path: string) | Missing(path: string)
                   | HashDrift(path: string) | SizeDrift(path: string) | Undeclared(path: string)

  const OUT := "evidence/release/release_artifact_manifest.json"

  /** A digest is never the empty string. */
  ghost predicate Digest(hash: Bytes -> string) {
    forall b :: hash(b) != ""
  }

  ghost predicate Injective(hash: Bytes -> string) {
    forall a, b | hash(a) == hash(b) :: a == b
  }

  // ---- building ----

  datatype Standing = Hashed | Pending | Absent

  function StandingOf(r: Row, files: Files, finalize: bool): Standing {
    if r.path in files then Hashed
    else if r.phase.Core? || finalize then Absent
    else Pending
  }

  function EntryOf(r: Row, files: Files, hash: Bytes -> string): Entry {
    if r.path in files then
      Entry(r.path, Some(|files[r.path]|), Some(hash(files[r.path])), r.role, r.classification, false)
    else Entry(r.path, None, None, r.role, r.classification, true)
  }

  datatype Draft = Draft(entries: seq<Entry>, missing: seq<string>, pending: seq<string>)

  /** The loop over the table. */
  function Drafted(table: seq<Row>, files: Files, hash: Bytes -> string, finalize: bool): Draft {
    if table == [] then Draft([], [], [])
    else
      var d := Drafted(table[..|table| - 1], files, hash, finalize);
      var r := table[|table| - 1];
      match StandingOf(r, files, finalize)
      case Hashed => d.(entries := d.entries + [EntryOf(r, files, hash)])
      case Pending => d.(entries := d.entries + [EntryOf(r, files, hash)], pending := d.pending + [r.path])
      case Absent => d.(missing := d.missing + [r.path])
  }

  function SelfEntry(files: Files): seq<Entry> {
    if OUT in files
    then [Entry(OUT, Some(|files[OUT]|), None, "this manifest (self entry)", "AUTHORITATIVE_EVIDENCE_DERIVED", false)]
    else []
  }

  method BuildManifest(table: seq<Row>, files: Files, hash: Bytes -> string, includeSelf: bool, finalize: bool)
    returns (entries: seq<Entry>, missing: seq<string>, pending: seq<string>)
    ensures var d := Drafted(table, files, hash, finalize);
            && entries == d.entries + (if includeSelf then SelfEntry(files) else [])
            && missing == d.missing && pending == d.pending
  {
    entries, missing, pending := [], [], [];
    for i := 0 to |table|
      invariant Draft(entries, missing, pending) == Drafted(table[..i], files, hash, finalize)
    {
      var r := table[i];
      assert table[..i + 1][..i] == table[..i];
      if r.path !in files {
        if r.phase.Core? {
          missing := missing + [r.path];
        } else if finalize {
          missing := missing + [r.path];
        } else {
          pending := pending + [r.path];
          entries := entries + [Entry(r.path, None, None, r.role, r.classification, true)];
        }
        continue;
      }
      var content := files[r.path];
      entries := entries + [Entry(r.path, Some(|content|), Some(hash(content)), r.role, r.classification, false)];
    }
    assert table[..|table|] == table;
    if includeSelf && OUT in files {
      entries := entries + SelfEntry(files);
    }
  }

  // ---- verifying ----

  /** What is wrong with an entry that is no duplicate. */
  function EntryProblems(e: Entry, files: Files, hash: Bytes -> string, complete: bool): seq<Problem> {
    if e.pending then (if complete then [NotTerminal(e.path)] else [])
    else if e.path !in files then [Missing(e.path)]
    else
      (if e.sha.Some? && e.sha.value != "" && hash(files[e.path]) != e.sha.value then [HashDrift(e.path)] else [])
      + (if e.size != Some(|files[e.path]|) then [SizeDrift(e.path)] else [])
  }

  function ListProblems(entries: seq<Entry>, files: Files, hash: Bytes -> string, complete: bool): seq<Problem> {
    if entries == [] then []
    else
      var k := |entries| - 1;
      ListProblems(entries[..k], files, hash, complete)
      + (if entries[k].path in Paths(entries[..k]) then [Duplicate(entries[k].path)]
         else EntryProblems(entries[k], files, hash, complete))
  }

  function Paths(entries: seq<Entry>): set<string> {
    set e | e in entries :: e.path
  }

  function TableProblems(table: seq<Row>, declared: set<string>): seq<Problem> {
    if table == [] then []
    else
      var k := |table| - 1;
      TableProblems(table[..k], declared) + (if table[k].path !in declared then [Undeclared(table[k].path)] else [])
  }

  function Problems(table: seq<Row>, entries: seq<Entry>, files: Files, hash: Bytes -> string,
          complete: bool): seq<Problem> {
    ListProblems(entries, files, hash, complete) + TableProblems(table, Paths(entries))
  }

  method Verify(table: seq<Row>, entries: seq<Entry>, files: Files, hash: Bytes -> string, complete: bool)
    returns (problems: seq<Problem>)
    ensures problems == Problems(table, entries, files, hash, complete)
  {
    problems := [];
    var seen := {};
    for i := 0 to |entries|
      invariant problems == ListProblems(entries[..i], files, hash, complete)
      invariant seen == Paths(entries[..i])
    {
      var e := entries[i];
      assert entries[..i + 1][..i] == entries[..i];
      PathsGrow(entries, i);
      if e.path in seen {
        problems := problems + [Duplicate(e.path)];
        continue;
      }
      seen := seen + {e.path};
      problems := problems + EntryProblems(e, files, hash, complete);
    }
    assert entries[..|entries|] == entries;
    var declared := Paths(entries);
    ghost var listed := problems;
    for i := 0 to |table|
      invariant problems == listed + TableProblems(table[..i], declared)
    {
      assert table[..i + 1][..i] == table[..i];
      if table[i].path !in declared {
        problems := problems + [Undeclared(table[i].path)];
      }
    }
    assert table[..|table|] == table;
  }

  lemma PathsGrow(entries: seq<Entry>, i: nat)
    requires i < |entries|
    ensures Paths(entries[..i + 1]) == Paths(entries[..i]) + {entries[i].path}
  {
  }

  /** An entry as verification wants it. */
  predicate Sound(e: Entry, files: Files, hash: Bytes -> string, complete: bool) {
    if e.pending then !complete
    else e.path in files && (e.sha.Some? && e.sha.value != "" ==> hash(files[e.path]) == e.sha.value)
         && e.size == Some(|files[e.path]|)
  }

  predicate DistinctPaths(entries: seq<Entry>) {
    forall i, j | 0 <= i < j < |entries| :: entries[i].path != entries[j].path
  }

  ghost predicate AllSound(entries: seq<Entry>, files: Files, hash: Bytes -> string, complete: bool) {
    forall i | 0 <= i < |entries| :: Sound(entries[i], files, hash, complete)
  }

  lemma SoundStep(entries: seq<Entry>, files: Files, hash: Bytes -> string, complete: bool)
    requires entries != []
    ensures AllSound(entries, files, hash, complete) <==>
            AllSound(entries[..|entries| - 1], files, hash, complete)
            && Sound(entries[|entries| - 1], files, hash, complete)
  {
  }

  lemma DistinctStep(entries: seq<Entry>, k: nat)
    requires k + 1 == |entries|
    ensures DistinctPaths(entries) <==> DistinctPaths(entries[..k]) && entries[k].path !in Paths(entries[..k])
  {
  }

  lemma {:induction false} ListClean(entries: seq<Entry>, files: Files, hash: Bytes -> string, complete: bool)
    ensures ListProblems(entries, files, hash, complete) == [] <==>
            DistinctPaths(entries) && AllSound(entries, files, hash, complete)
  {
    if entries != [] {
      var k := |entries| - 1;
      ListClean(entries[..k], files, hash, complete);
      SoundStep(entries, files, hash, complete);
      DistinctStep(entries, k);
      LastClean(ListProblems(entries[..k], files, hash, complete), entries[k].path in Paths(entries[..k]),
          entries[k], files, hash, complete);
    }
  }

  lemma LastClean(before: seq<Problem>, seen: bool, e: Entry, files: Files, hash: Bytes -> string, complete: bool)
    ensures before + (if seen then [Duplicate(e.path)] else EntryProblems(e, files, hash, complete)) == [] <==>
            before == [] && !seen && Sound(e, files, hash, complete)
  {
  }

  lemma {:induction false} TableClean(table: seq<Row>, declared: set<string>)
    ensures TableProblems(table, declared) == [] <==> forall i | 0 <= i < |table| :: table[i].path in declared
  {
    if table != [] {
      var k := |table| - 1;
      TableClean(table[..k], declared);
      var before := TableProblems(table[..k], declared);
      var last := if table[k].path !in declared then [Undeclared(table[k].path)] else [];
      assert |before + last| == |before| + |last|;
      assert forall i | 0 <= i < k :: table[..k][i] == table[i];
    }
  }

  /** A manifest verifies if and only if its paths are distinct, every row of the table is declared,
      every hashed file still has its size and hash, and, for a terminal manifest, nothing is pending. */
  lemma VerifiesExactly(table: seq<Row>, entries: seq<Entry>, files: Files, hash: Bytes -> string, complete: bool)
    ensures Problems(table, entries, files, hash, complete) == [] <==>
            && DistinctPaths(entries)
            && AllSound(entries, files, hash, complete)
            && (forall i | 0 <= i < |table| :: table[i].path in Paths(entries))
  {
    ListClean(entries, files, hash, complete);
    TableClean(table, Paths(entries));
  }

  // ---- what a build holds ----

  predicate DistinctRows(table: seq<Row>) {
    forall i, j | 0 <= i < j < |table| :: table[i].path != table[j].path
  }

  function Rows(table: seq<Row>, files: Files, finalize: bool, s: Standing): seq<string> {
    if table == [] then []
    else
      var k := |table| - 1;
      Rows(table[..k], files, finalize, s)
      + (if StandingOf(table[k], files, finalize) == s then [table[k].path] else [])
  }

  function EntryPaths(entries: seq<Entry>, pending: bool): seq<string> {
    if entries == [] then []
    else
      var k := |entries| - 1;
      EntryPaths(entries[..k], pending) + (if entries[k].pending == pending then [entries[k].path] else [])
  }

  /** Every row becomes exactly one of hashed, pending or missing, in table order. */
  lemma {:induction false} DraftPartitions(table: seq<Row>, files: Files, hash: Bytes -> string, finalize: bool)
    ensures var d := Drafted(table, files, hash, finalize);
            && EntryPaths(d.entries, false) == Rows(table, files, finalize, Hashed)
            && EntryPaths(d.entries, true) == d.pending == Rows(table, files, finalize, Pending)
            && d.missing == Rows(table, files, finalize, Absent)
            && |d.entries| + |d.missing| == |table|
            && (finalize ==> d.pending == [])
  {
    if table != [] {
      var k := |table| - 1;
      DraftPartitions(table[..k], files, hash, finalize);
      var e := EntryOf(table[k], files, hash);
      EntryPathsStep(Drafted(table[..k], files, hash, finalize).entries, e, false);
      EntryPathsStep(Drafted(table[..k], files, hash, finalize).entries, e, true);
    }
  }

  lemma EntryPathsStep(entries: seq<Entry>, e: Entry, pending: bool)
    ensures EntryPaths(entries + [e], pending)
            == EntryPaths(entries, pending) + (if e.pending == pending then [e.path] else [])
  {
  }

  /** With nothing missing, the entries are the rows, one for one. */
  lemma {:induction false} DraftComplete(table: seq<Row>, files: Files, hash: Bytes -> string, finalize: bool)
    requires Drafted(table, files, hash, finalize).missing == []
    ensures var d := Drafted(table, files, hash, finalize);
            && |d.entries| == |table|
            && (forall i | 0 <= i < |table| :: d.entries[i] == EntryOf(table[i], files, hash))
            && (forall i | 0 <= i < |table| :: StandingOf(table[i], files, finalize) != Absent)
  {
    if table != [] {
      DraftComplete(table[..|table| - 1], files, hash, finalize);
    }
  }

  /** What later files must still show of the artifacts a build hashed. */
  ghost predicate StillShown(table: seq<Row>, files: Files, later: Files, hash: Bytes -> string, complete: bool) {
    forall i | 0 <= i < |table| ::
      if table[i].path in files
      then table[i].path in later && hash(later[table[i].path]) == hash(files[table[i].path])
           && |later[table[i].path]| == |files[table[i].path]|
      else !complete
  }

  lemma BuiltDeclares(table: seq<Row>, entries: seq<Entry>)
    requires |entries| == |table| && forall i | 0 <= i < |table| :: entries[i].path == table[i].path
    requires DistinctRows(table)
    ensures DistinctPaths(entries) && forall i | 0 <= i < |table| :: table[i].path in Paths(entries)
  {
  }

  lemma BuiltVerifies(table: seq<Row>, files: Files, later: Files, hash: Bytes -> string, finalize: bool,
          complete: bool)
    requires Digest(hash) && DistinctRows(table) && Drafted(table, files, hash, finalize).missing == []
    ensures Problems(table, Drafted(table, files, hash, finalize).entries, later, hash, complete) == [] <==>
            StillShown(table, files, later, hash, complete)
  {
    var entries := Drafted(table, files, hash, finalize).entries;
    DraftComplete(table, files, hash, finalize);
    BuiltDeclares(table, entries);
    VerifiesExactly(table, entries, later, hash, complete);
    BuiltSound(table, entries, files, later, hash, complete);
  }

  lemma BuiltSound(table: seq<Row>, entries: seq<Entry>, files: Files, later: Files, hash: Bytes -> string,
          complete: bool)
    requires Digest(hash) && |entries| == |table|
    requires forall i | 0 <= i < |table| :: entries[i] == EntryOf(table[i], files, hash)
    ensures AllSound(entries, later, hash, complete) <==> StillShown(table, files, later, hash, complete)
  {
  }

  /** Over later files, a manifest built with nothing missing verifies if and only if every hashed
      artifact is still there with its very content, and, when terminal, none was pending. */
  lemma DriftExactly(table: seq<Row>, files: Files, later: Files, hash: Bytes -> string, finalize: bool, complete: bool)
    requires Digest(hash) && Injective(hash) && DistinctRows(table)
    requires Drafted(table, files, hash, finalize).missing == []
    ensures Problems(table, Drafted(table, files, hash, finalize).entries, later, hash, complete) == [] <==>
            && (forall i | 0 <= i < |table| && table[i].path in files ::
                  table[i].path in later && later[table[i].path] == files[table[i].path])
            && (complete ==> forall i | 0 <= i < |table| :: table[i].path in files)
  {
    BuiltVerifies(table, files, later, hash, finalize, complete);
  }

  /** A manifest with a pending entry never verifies as terminal. */
  lemma PendingIsNotTerminal(table: seq<Row>, entries: seq<Entry>, files: Files, hash: Bytes -> string, i: nat)
    requires i < |entries| && entries[i].pending
    ensures Problems(table, entries, files, hash, true) != []
  {
    VerifiesExactly(table, entries, files, hash, true);
    assert !Sound(entries[i], files, hash, true);
  }

  // ---- the program ----

  /** The JSON form of a manifest, and the scan for machine-local paths. */
  datatype Tools = Tools(hash: Bytes -> string, render: Manifest -> Bytes, parse: Bytes -> Option<Manifest>,
                         leaks: Manifest -> bool)

  ghost predicate Lawful(t: Tools) {
    Digest(t.hash) && forall m :: t.parse(t.render(m)) == Some(m)
  }

  class Repository {
    var files: Files

    constructor (files: Files)
      ensures this.files == files
    {
      this.files := files;
    }

    /** `main` without `--verify`: exits 0 exactly when nothing is missing and no path leaks, and
        only then writes the manifest, with the hash of its first writing inside. */
    method Build(t: Tools, table: seq<Row>, includeSelf: bool, finalize: bool) returns (ok: bool)
      modifies this
      ensures var d := Drafted(table, old(files), t.hash, finalize);
              var m := Manifest(d.entries + (if includeSelf then SelfEntry(old(files)) else []), d.pending, None);
              && ok == (d.missing == [] && !t.leaks(m))
              && files == if ok then old(files)[OUT := t.render(m.(self := Some(t.hash(t.render(m)))))] else old(files)
    {
      var entries, missing, pending := BuildManifest(table, files, t.hash, includeSelf, finalize);
      if missing != [] {
        return false;
      }
      var m := Manifest(entries, pending, None);
      if t.leaks(m) {
        return false;
      }
      files := files[OUT := t.render(m)];
      var sha := t.hash(files[OUT]);
      files := files[OUT := t.render(m.(self := Some(sha)))];
      ok := true;
    }

    /** `main --verify` */
    method Check(t: Tools, table: seq<Row>, complete: bool) returns (ok: bool)
      ensures ok <==> OUT in files && t.parse(files[OUT]).Some?
                      && Problems(table, t.parse(files[OUT]).value.entries, files, t.hash, complete) == []
    {
      if OUT !in files {
        return false;
      }
      var manifest := t.parse(files[OUT]);
      if manifest.None? {
        return false;
      }
      var problems := Verify(table, manifest.value.entries, files, t.hash, complete);
      ok := problems == [];
    }
  }

  /** What a successful build leaves in the tree. */
  function AfterBuild(t: Tools, table: seq<Row>, files: Files, includeSelf: bool, finalize: bool): Files {
    var d := Drafted(table, files, t.hash, finalize);
    var m := Manifest(d.entries + (if includeSelf then SelfEntry(files) else []), d.pending, None);
    files[OUT := t.render(m.(self := Some(t.hash(t.render(m)))))]
  }

  /** Build, then verify, over unchanged artifacts: no problem, unless terminal state is asked of a
      manifest with something pending. A finalized build verifies as terminal. */
  lemma BuildThenVerify(t: Tools, table: seq<Row>, files: Files, finalize: bool, complete: bool)
    requires Lawful(t) && DistinctRows(table) && (forall i | 0 <= i < |table| :: table[i].path != OUT)
    requires Drafted(table, files, t.hash, finalize).missing == []
    ensures var after := AfterBuild(t, table, files, false, finalize);
            && t.parse(after[OUT]).Some?
            && (Problems(table, t.parse(after[OUT]).value.entries, after, t.hash, complete) == [] <==>
                  (complete ==> forall i | 0 <= i < |table| :: table[i].path in files))
            && (finalize ==> Problems(table, t.parse(after[OUT]).value.entries, after, t.hash, complete) == [])
  {
    var entries := Drafted(table, files, t.hash, finalize).entries;
    assert entries + [] == entries;
    DraftComplete(table, files, t.hash, finalize);
    BuiltVerifies(table, files, AfterBuild(t, table, files, false, finalize), t.hash, finalize, complete);
  }

  /** With its own entry in it, a manifest verifies exactly as it would without, and only if writing
      it did not change its size. */
  lemma SelfEntryDrifts(t: Tools, table: seq<Row>, files: Files, finalize: bool, complete: bool)
    requires Lawful(t) && DistinctRows(table) && (forall i | 0 <= i < |table| :: table[i].path != OUT)
    requires OUT in files && Drafted(table, files, t.hash, finalize).missing == []
    ensures var after := AfterBuild(t, table, files, true, finalize);
            && t.parse(after[OUT]).Some?
            && (Problems(table, t.parse(after[OUT]).value.entries, after, t.hash, complete) == [] <==>
                  && |after[OUT]| == |files[OUT]|
                  && (complete ==> forall i | 0 <= i < |table| :: table[i].path in files))
  {
    var after, own := AfterBuild(t, table, files, true, finalize), SelfEntry(files)[0];
    var entries := Drafted(table, files, t.hash, finalize).entries;
    DraftComplete(table, files, t.hash, finalize);
    BuiltVerifies(table, files, after, t.hash, finalize, complete);
    OneMoreEntry(table, entries, own, after, t.hash, complete);
  }

  lemma OneMoreEntry(table: seq<Row>, entries: seq<Entry>, e: Entry, files: Files, hash: Bytes -> string,
          complete: bool)
    requires |entries| == |table| && forall i | 0 <= i < |table| :: entries[i].path == table[i].path != e.path
    ensures Problems(table, entries + [e], files, hash, complete) == [] <==>
            Problems(table, entries, files, hash, complete) == [] && Sound(e, files, hash, complete)
  {
    var longer := entries + [e];
    assert longer[..|entries|] == entries;
    SoundStep(longer, files, hash, complete);
    DistinctStep(longer, |entries|);
    VerifiesExactly(table, entries, files, hash, complete);
    VerifiesExactly(table, longer, files, hash, complete);
    PathsGrow(longer, |entries|);
    assert longer[..|entries| + 1] == longer;
  }
}
