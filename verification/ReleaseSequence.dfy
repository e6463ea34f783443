/** The rebuild sequence of the release, output by output in the order of writing, whatever each builder
    derives: it is one of the sequences the theorems about rebuilding speak of. */
module ReleaseSequence {
  import opened Contract
  import opened Stabilized
  import opened Pipeline
  import opened Rebuild
  import Registry

  datatype Folder = Namespace | Release | Root

  datatype Kind = DocumentKind | EvidenceKind | AsideKind | RegistryKind

  /** One output: its kind, its folder and its name there. The registry has a place of its own. */
  datatype Output = Output(kind: Kind, folder: Folder, name: string)
  {
    function Path(): string {
      Prefix(folder) + name
    }
  }

  function Prefix(folder: Folder): string {
    match folder
    case Namespace => "evidence/" + ("FINAL_HARDENED_" + "RELEASE_2026-09-19/")
    case Release => "evidence/" + "release/"
    case Root => ""
  }

  const OUTPUTS: nat := 25
  const REGISTRY_PLACE: nat := 7

  /** What the rebuild steps write, in order: twelve outputs of the evidence builder, nine documents, and
      four reports. The contradiction report and the two inventories of the namespace are read by nothing
      but the inventory of the next rebuild; the other three reports are read by the contradiction checker. */
  function At(i: nat): (o: Output)
    requires i < OUTPUTS
  {
    match i
    case 0 => Output(EvidenceKind, Namespace, "release_identity/" + "RELEASE_IDENTITY.json")
    case 1 => Output(EvidenceKind, Namespace, "frozen_core/" + "frozen_core_verification.json")
    case 2 => Output(EvidenceKind, Namespace, "hardening_layers/" + "layer_registry.json")
    case 3 => Output(EvidenceKind, Namespace, "regression/" + "fresh_3m2_regression.json")
    case 4 => Output(EvidenceKind, Namespace, "test_suite/" + "test_suite_results.json")
    case 5 => Output(EvidenceKind, Namespace, "negative_battery/" + "battery_results.json")
    case 6 => Output(EvidenceKind, Namespace, "performance/" + "performance_summary.json")
    case 7 => Output(RegistryKind, Release, "limitation_registry.json")
    case 8 => Output(EvidenceKind, Namespace, "limitations/" + "limitation_registry.json")
    case 9 => Output(EvidenceKind, Namespace, "claims/" + "claim_register.json")
    case 10 => Output(AsideKind, Namespace, "path_forensics/" + "path_inventory.json")
    case 11 => Output(AsideKind, Namespace, "integrity/" + "integrity_report.json")
    case 12 => Output(DocumentKind, Root, "README.md")
    case 13 => Output(DocumentKind, Root, "FINAL_RESULTS.json")
    case 14 => Output(DocumentKind, Root, "final_result.json")
    case 15 => Output(DocumentKind, Root, "RELEASE_NOTES.md")
    case 16 => Output(DocumentKind, Root, "release_manifest.json")
    case 17 => Output(DocumentKind, Release, "release_evidence_model.json")
    case 18 => Output(DocumentKind, Release, "reproducibility_manifest.json")
    case 19 => Output(DocumentKind, Release, "golden_release_snapshot.json")
    case 20 => Output(DocumentKind, Release, "claim_provenance.json")
    case 21 => Output(EvidenceKind, Release, "observability_status.json")
    case 22 => Output(EvidenceKind, Release, "consistency_matrix.json")
    case 23 => Output(EvidenceKind, Release, "readme_consistency.json")
    case _ => Output(AsideKind, Release, "contradiction_check.json")
  }

  /** `STABILIZED_DOCS` */
  function StabilizedDocs(): seq<string> {
    ["README.md", "FINAL_RESULTS.json", "final_result.json", "RELEASE_NOTES.md", "release_manifest.json",
     Prefix(Release) + "release_evidence_model.json", Prefix(Release) + "reproducibility_manifest.json",
     Prefix(Release) + "golden_release_snapshot.json", Prefix(Release) + "claim_provenance.json"]
  }

  // ---- no two outputs share a path ----

  /** The place of an output, from its folder and two letters of its name. */
  function PlaceOf(folder: Folder, a: char, b: char): nat {
    match folder
    case Namespace =>
      if a == 'r' then (if b == 'e' then 0 else 3) else if a == 'f' then 1 else if a == 'h' then 2
      else if a == 't' then 4 else if a == 'n' then 5 else if a == 'p' then (if b == 'f' then 6 else 10)
      else if a == 'l' then 8 else if a == 'c' then 9 else 11
    case Release =>
      if a == 'r' then (if b == 'e' then 17 else if b == 'r' then 18 else 23) else if a == 'g' then 19
      else if a == 'l' then 7 else if a == 'o' then 21
      else if b == 'i' then 20 else if b == 's' then 22 else 24
    case Root =>
      if a == 'R' then (if b == 'D' then 12 else 15) else if a == 'F' then 13 else if a == 'f' then 14 else 16
  }

  predicate InPlace(o: Output, i: nat) {
    && |o.name| > 3 && PlaceOf(o.folder, o.name[0], o.name[3]) == i
    && (o.folder == Root ==> o.name[0] != 'e')
  }

  lemma EarlyPlaces(i: nat)
    requires i < 9
    ensures InPlace(At(i), i)
  {
  }

  lemma MiddlePlaces(i: nat)
    requires 9 <= i < 17
    ensures InPlace(At(i), i)
  {
  }

  lemma LatePlaces(i: nat)
    requires 17 <= i < OUTPUTS
    ensures InPlace(At(i), i)
  {
  }

  lemma PlaceOfOutput(i: nat)
    requires i < OUTPUTS
    ensures InPlace(At(i), i)
  {
    if i < 9 {
      EarlyPlaces(i);
    } else if i < 17 {
      MiddlePlaces(i);
    } else {
      LatePlaces(i);
    }
  }

  lemma SamePathSameOutput(o: Output, o': Output)
    requires |o.name| > 3 && |o'.name| > 3 && o.Path() == o'.Path()
    requires (o.folder == Root ==> o.name[0] != 'e') && (o'.folder == Root ==> o'.name[0] != 'e')
    ensures o.folder == o'.folder && o.name == o'.name
  {
    var p, n := o.Path(), |Prefix(o.folder)|;
    assert o.folder == Root ==> p[0] == o.name[0];
    assert o'.folder == Root ==> p[0] == o'.name[0];
    assert Prefix(Namespace)[0] == 'e' && Prefix(Release)[0] == 'e';
    assert Prefix(Namespace)[9] == 'F' && Prefix(Release)[9] == 'r';
    assert o.folder != Root ==> p[0] == 'e' && p[9] == Prefix(o.folder)[9];
    assert o'.folder != Root ==> p[0] == 'e' && p[9] == Prefix(o'.folder)[9];
    assert o.folder == o'.folder;
    assert p[n..] == o.name && p[n..] == o'.name;
  }

  lemma DistinctOutputs(i: nat, j: nat)
    requires i < OUTPUTS && j < OUTPUTS && At(i).Path() == At(j).Path()
    ensures i == j
  {
    PlaceOfOutput(i);
    PlaceOfOutput(j);
    SamePathSameOutput(At(i), At(j));
  }

  // ---- the sequence is in order ----

  /** What the builders do, left open: what each output is derived from the view, the run's own limitations,
      and what the reports that may read anything hold. */
  datatype Contents = Contents(derive: (string, View) -> Option<Draft>, own: seq<Registry.Entry>,
                               passes: (string, View) -> bool, compile: (string, World, string) -> Draft)

  function BuilderOf(o: Output, x: Contents): Builder {
    match o.kind
    case DocumentKind => Document(o.Path(), v => x.derive(o.Path(), v))
    case EvidenceKind => Evidence(o.Path(), v => x.derive(o.Path(), v))
    case RegistryKind => Limitations(x.own)
    case AsideKind => Aside(o.Path(), v => x.passes(o.Path(), v), (w, stamp) => x.compile(o.Path(), w, stamp))
  }

  function Sequence(x: Contents): seq<Builder> {
    seq(OUTPUTS, i requires 0 <= i < OUTPUTS => BuilderOf(At(i), x))
  }

  /** The reports that may read anything. */
  function Unread(): set<string> {
    {At(10).Path(), At(11).Path(), At(24).Path()}
  }

  lemma KindsInOrder(i: nat)
    requires i < OUTPUTS
    ensures At(i).kind == RegistryKind <==> i == REGISTRY_PLACE
    ensures At(i).kind == DocumentKind <==> 12 <= i < 21
    ensures At(i).kind == AsideKind <==> i == 10 || i == 11 || i == 24
  {
  }

  lemma UnreadIsAsides(i: nat)
    requires i < OUTPUTS
    ensures At(i).Path() in Unread() <==> At(i).kind == AsideKind
  {
    KindsInOrder(i);
    if At(i).Path() == At(10).Path() { DistinctOutputs(i, 10); }
    if At(i).Path() == At(11).Path() { DistinctOutputs(i, 11); }
    if At(i).Path() == At(24).Path() { DistinctOutputs(i, 24); }
  }

  lemma {:induction false} RestIsAcyclic(x: Contents, i: nat, seen: Seen)
    requires i <= OUTPUTS && seen.paths !! Unread() && (seen.registry ==> i > REGISTRY_PLACE)
    requires forall j | i <= j < OUTPUTS :: At(j).Path() !in seen.paths
    ensures Acyclic(seen, Unread(), Sequence(x)[i..])
    decreases OUTPUTS - i
  {
    var rest := Sequence(x)[i..];
    if i < OUTPUTS {
      var o := At(i);
      KindsInOrder(i);
      UnreadIsAsides(i);
      assert rest[0] == BuilderOf(o, x) && rest[1..] == Sequence(x)[i + 1..];
      forall j | i < j < OUTPUTS
        ensures At(j).Path() !in seen.paths && At(j).Path() != o.Path()
      {
        if At(j).Path() == o.Path() { DistinctOutputs(i, j); }
      }
      RestIsAcyclic(x, i + 1, seen.And(rest[0]));
    }
  }

  lemma DocsAreDocuments(x: Contents, p: string)
    ensures p in StabilizedDocs() <==> exists i :: 0 <= i < OUTPUTS && Rebuild.IsDocument(Sequence(x)[i], p)
  {
    var docs := StabilizedDocs();
    assert forall k | 0 <= k < 9 :: docs[k] == At(12 + k).Path();
    if p in docs {
      var k :| 0 <= k < 9 && docs[k] == p;
      KindsInOrder(12 + k);
      assert Rebuild.IsDocument(Sequence(x)[12 + k], p);
    }
    if i :| 0 <= i < OUTPUTS && Rebuild.IsDocument(Sequence(x)[i], p) {
      KindsInOrder(i);
      assert docs[i - 12] == p;
    }
  }

  /** What is asked of the builders and of their inputs. */
  ghost predicate Fitting(c: Codec, x: Contents, inputs: set<string>) {
    && Lawful(c) && Registry.OwnEntries(x.own)
    && (forall p, v | p in StabilizedDocs() && x.derive(p, v).Some? :: WellFormed(x.derive(p, v).value))
    && (forall i | 0 <= i < OUTPUTS :: At(i).Path() !in inputs)
  }

  lemma SequenceIsSound(c: Codec, x: Contents, inputs: set<string>)
    requires Fitting(c, x, inputs)
    ensures Sound(Sequence(x))
  {
    forall i | 0 <= i < OUTPUTS
      ensures SoundBuilder(Sequence(x)[i])
    {
      if At(i).kind == DocumentKind {
        assert Rebuild.IsDocument(Sequence(x)[i], At(i).Path());
        DocsAreDocuments(x, At(i).Path());
      }
    }
  }

  /** The sequence of the release is one the theorems speak of. */
  lemma ReleaseIsSetUp(c: Codec, x: Contents, inputs: set<string>)
    requires Fitting(c, x, inputs)
    ensures Setup(c, StabilizedDocs(), inputs, Unread(), Sequence(x), REGISTRY_PLACE)
  {
    SequenceIsSound(c, x, inputs);
    assert Sequence(x)[0..] == Sequence(x);
    RestIsAcyclic(x, 0, Seen(inputs, false));
    forall p
      ensures p in StabilizedDocs() <==>
              exists i :: 0 <= i < |Sequence(x)| && Rebuild.IsDocument(Sequence(x)[i], p)
    {
      DocsAreDocuments(x, p);
    }
    KindsInOrder(REGISTRY_PLACE);
  }

  const FINAL_RESULTS_PLACE: nat := 13

  /** So for the release: where FINAL_RESULTS.json quotes the registry's hash, and the hashes do not collide,
      the second run says CONVERGED exactly when the first read a registry whose healed entries were settled;
      and the third says it always, once two have ended well. */
  lemma ReleaseConverges<H>(c: Codec, hash: Bytes -> H, x: Contents, inputs: set<string>,
                            quote: Payload -> Option<string>, text: Registry.Document -> Bytes, sha: Bytes -> string,
                            clock1: Clock, clock2: Clock, clock3: Clock, w: World)
    requires Fitting(c, x, inputs) && Ticks(clock1) && Ticks(clock2) && Ticks(clock3) && Injective(hash)
    requires Quotes(c, Sequence(x)[FINAL_RESULTS_PLACE], quote, text, sha) && Injective(sha) && Injective(text)
    requires Pass(c, Seen(inputs, false), Sequence(x), clock1, w).ok
    ensures w.registry.Some? && w.registry.value.limitations.Some?
    ensures var first := Pass(c, Seen(inputs, false), Sequence(x), clock1, w);
            var second := Pass(c, Seen(inputs, false), Sequence(x), clock2, first.world);
            && (Verdict(c, hash, StabilizedDocs(), inputs, Sequence(x), clock2, first.world) == Some(true)
                <==> Registry.AllSettle(w.registry.value.limitations.value))
            && (second.ok ==>
                  Verdict(c, hash, StabilizedDocs(), inputs, Sequence(x), clock3, second.world) == Some(true))
  {
    var docs, builders := StabilizedDocs(), Sequence(x);
    ReleaseIsSetUp(c, x, inputs);
    QuotedHashReveals(c, builders[FINAL_RESULTS_PLACE], quote, text, sha);
    SecondRunExactly(c, hash, docs, inputs, Unread(), builders, REGISTRY_PLACE, FINAL_RESULTS_PLACE, clock1, clock2, w);
    if Pass(c, Seen(inputs, false), builders, clock2, Pass(c, Seen(inputs, false), builders, clock1, w).world).ok {
      ThirdRunConverges(c, hash, docs, inputs, Unread(), builders, REGISTRY_PLACE, clock1, clock2, clock3, w);
    }
  }
}
