/** The pinned frozen rule baseline, and the comparison of one run's engine manifest with it. */
module Baseline {
  import opened Contract
  import opened Text
  import opened Json

  predicate IsHex(s: string) {
    forall i | 0 <= i < |s| :: '0' <= s[i] <= '9' || 'a' <= s[i] <= 'f'
  }

  /** `re.fullmatch(r"[0-9a-f]{n}", s)` */
  predicate HexDigest(s: string, n: nat) {
    |s| == n && IsHex(s)
  }

  /** `re.fullmatch(r"[A-Za-z0-9_.]+", rid)` */
  predicate RuleIdText(s: string) {
    s != "" && forall i | 0 <= i < |s| ::
      '0' <= s[i] <= '9' || 'a' <= s[i] <= 'z' || 'A' <= s[i] <= 'Z' || s[i] == '_' || s[i] == '.'
  }

  /** One entry of the rule matrix: its rule id and the head of its implementation hash. */
  datatype RuleEntry = RuleEntry(ruleId: string, head: string)

  /** The rule matrix file. Any other shape raises inside the loader and reads as unusable. */
  datatype MatrixFile = NoMatrix | UnusableMatrix | Matrix(rules: seq<RuleEntry>)

  /** A historical full-hash manifest. */
  datatype SecondaryFile = NoSecondary | UnusableSecondary | Secondary(hashes: map<string, string>)

  /** `load_pinned_rule_baseline()`'s result. */
  datatype Pinned = Pinned(
    names: seq<string>,                        // expected_rule_names, sorted
    heads: map<string, string>,                // expected_hash_heads
    secondaries: seq<map<string, string>>,     // secondary_full_hashes
    secondaryConflict: bool)

  predicate GoodEntry(e: RuleEntry) {
    HexDigest(e.head, 16) && RuleIdText(e.ruleId)
  }

  function Ids(rules: seq<RuleEntry>): set<string> {
    set i | 0 <= i < |rules| :: rules[i].ruleId
  }

  /** `heads[rid] = head`, entry by entry. */
  function Heads(rules: seq<RuleEntry>): map<string, string> {
    if rules == [] then map[]
    else Heads(rules[..|rules| - 1])[rules[|rules| - 1].ruleId := rules[|rules| - 1].head]
  }

  /** A full hash of every pinned rule, extending its head. */
  predicate ExtendsHeads(hashes: map<string, string>, heads: map<string, string>) {
    forall k | k in heads :: k in hashes && HexDigest(hashes[k], 64) && StartsWith(hashes[k], heads[k])
  }

  /** A secondary source that agrees with the primary pin. */
  predicate GoodSecondary(f: SecondaryFile, names: set<string>, heads: map<string, string>) {
    f.Secondary? && |f.hashes| == 8 && Sorted(f.hashes.Keys) == Sorted(names) && ExtendsHeads(f.hashes, heads)
  }

  function GoodSecondaries(fs: seq<SecondaryFile>, names: set<string>, heads: map<string, string>)
    : (good: seq<map<string, string>>)
  {
    if fs == [] then []
    else GoodSecondaries(fs[..|fs| - 1], names, heads)
         + (var f := fs[|fs| - 1]; if GoodSecondary(f, names, heads) then [f.hashes] else [])
  }

  function LoadPinned(matrix: MatrixFile, secondaries: seq<SecondaryFile>): Option<Pinned> {
    if !matrix.Matrix? || |matrix.rules| != 8 || |Ids(matrix.rules)| != 8
       || exists i | 0 <= i < |matrix.rules| :: !GoodEntry(matrix.rules[i]) then None
    else
      var names, heads := Ids(matrix.rules), Heads(matrix.rules);
      Some(Pinned(
        Sorted(names), heads, GoodSecondaries(secondaries, names, heads),
        exists i | 0 <= i < |secondaries| ::
          !secondaries[i].NoSecondary? && !GoodSecondary(secondaries[i], names, heads)))
  }

  predicate CoherentSecondary(hashes: map<string, string>, heads: map<string, string>) {
    hashes.Keys == heads.Keys && ExtendsHeads(hashes, heads)
  }

  ghost predicate AllCoherent(list: seq<map<string, string>>, heads: map<string, string>) {
    forall full | full in list :: CoherentSecondary(full, heads)
  }

  /** What every pinned baseline satisfies. */
  ghost predicate Coherent(p: Pinned) {
    && |p.heads| == 8 && p.names == Sorted(p.heads.Keys)
    && (forall k | k in p.heads :: HexDigest(p.heads[k], 16))
    && AllCoherent(p.secondaries, p.heads)
  }

  lemma {:induction false} HeadsMeaning(rules: seq<RuleEntry>)
    requires forall i | 0 <= i < |rules| :: GoodEntry(rules[i])
    ensures Heads(rules).Keys == Ids(rules)
    ensures forall k | k in Heads(rules) :: HexDigest(Heads(rules)[k], 16)
  {
    if rules != [] {
      var front := rules[..|rules| - 1];
      HeadsMeaning(front);
      assert Ids(rules) == Ids(front) + {rules[|rules| - 1].ruleId};
    }
  }

  lemma {:induction false} GoodSecondariesMeaning(fs: seq<SecondaryFile>, names: set<string>,
          heads: map<string, string>)
    requires heads.Keys == names
    ensures AllCoherent(GoodSecondaries(fs, names, heads), heads)
  {
    if fs != [] {
      GoodSecondariesMeaning(fs[..|fs| - 1], names, heads);
      var f := fs[|fs| - 1];
      var before, good := GoodSecondaries(fs[..|fs| - 1], names, heads), GoodSecondaries(fs, names, heads);
      if GoodSecondary(f, names, heads) {
        SortedEqualIffSameKeys(f.hashes.Keys, names);
        assert CoherentSecondary(f.hashes, heads);
        assert good == before + [f.hashes];
      } else {
        assert good == before;
      }
    }
  }

  /** The loader never yields an incoherent pin. */
  lemma PinnedCoherent(matrix: MatrixFile, secondaries: seq<SecondaryFile>)
    ensures var p := LoadPinned(matrix, secondaries); p.Some? ==> Coherent(p.value)
  {
    if LoadPinned(matrix, secondaries).Some? {
      HeadsMeaning(matrix.rules);
      GoodSecondariesMeaning(secondaries, Ids(matrix.rules), Heads(matrix.rules));
      MapSize(Heads(matrix.rules));
    }
  }

  lemma MapSize(m: map<string, string>)
    ensures |m| == |m.Keys|
  {
  }

  // ---- one run's manifest against the pin ----

  /** The engine manifest file; `Manifest` when its `rule_hashes` is a dictionary. */
  datatype ManifestFile = NoManifest | UnreadableManifest | Manifest(ruleHashes: map<string, Json>)

  /** The fields of `sp1_frozen` the gate reads, and the stage's own status. */
  datatype Sp1Result = Sp1Result(status: bool, namesVerified: bool, hashesVerified: bool,
                                 manifest: Option<map<string, Json>>)

  /** `str(rule_hashes.get(rid, "")).startswith(head)` */
  predicate HeadMatches(text: Json -> string, hashes: map<string, Json>, rid: string, head: string) {
    StartsWith(if rid in hashes then text(hashes[rid]) else "", head)
  }

  predicate HeadsMatch(text: Json -> string, hashes: map<string, Json>, heads: map<string, string>) {
    forall rid | rid in heads :: HeadMatches(text, hashes, rid, heads[rid])
  }

  /** `rule_hashes.get(rid) == full` for every pinned full hash. */
  predicate FullHashesMatch(hashes: map<string, Json>, full: map<string, string>) {
    forall rid | rid in full :: rid in hashes && hashes[rid] == Str(full[rid])
  }

  function Sp1Verification(text: Json -> string, file: ManifestFile, pinned: Option<Pinned>): Sp1Result {
    if pinned.None? || !file.Manifest? then Sp1Result(false, false, false, None)
    else
      var hashes, p := file.ruleHashes, pinned.value;
      if Sorted(hashes.Keys) != p.names then Sp1Result(false, false, false, Some(hashes))
      else if !HeadsMatch(text, hashes, p.heads) then Sp1Result(false, true, false, Some(hashes))
      else if exists i | 0 <= i < |p.secondaries| :: !FullHashesMatch(hashes, p.secondaries[i]) then
        Sp1Result(false, true, true, Some(hashes))
      else Sp1Result(true, true, true, Some(hashes))
  }

  // ---- the gate's re-derivation from the saved manifest ----

  predicate SavedNamesMatch(saved: Json, p: Pinned) {
    saved.ByRule? && Sorted(saved.entries.Keys) == p.names
  }

  predicate SavedHashesMatch(saved: Json, p: Pinned) {
    && SavedNamesMatch(saved, p)
    && forall rid | rid in p.heads ::
         rid in saved.entries && saved.entries[rid].Str? && StartsWith(saved.entries[rid].s, p.heads[rid])
  }

  function SavedManifest(r: Sp1Result): Json {
    if r.manifest.None? then Null else ByRule(r.manifest.value)
  }

  ghost predicate TextOfStrings(text: Json -> string) {
    forall s: string :: text(Str(s)) == s
  }

  predicate AllStrings(hashes: map<string, Json>) {
    forall rid | rid in hashes :: hashes[rid].Str?
  }

  lemma HeadsMatchOnStrings(text: Json -> string, hashes: map<string, Json>, heads: map<string, string>)
    requires TextOfStrings(text) && hashes.Keys == heads.Keys && AllStrings(hashes)
    ensures HeadsMatch(text, hashes, heads) <==> forall rid | rid in heads :: StartsWith(hashes[rid].s, heads[rid])
  {
  }

  lemma NamesMatchExactly(text: Json -> string, file: ManifestFile, p: Pinned)
    requires Coherent(p)
    ensures var r := Sp1Verification(text, file, Some(p));
            && (SavedNamesMatch(SavedManifest(r), p) <==> r.namesVerified)
            && (r.namesVerified <==> file.Manifest? && file.ruleHashes.Keys == p.heads.Keys)
  {
    if file.Manifest? { SortedEqualIffSameKeys(file.ruleHashes.Keys, p.heads.Keys); }
  }

  /** The manifest has every full hash that every secondary pin gives. */
  predicate SecondariesMatch(file: ManifestFile, p: Pinned) {
    file.Manifest? && forall i | 0 <= i < |p.secondaries| :: FullHashesMatch(file.ruleHashes, p.secondaries[i])
  }

  /** The stage's booleans and the gate's re-derivation: the names always agree; the hashes agree
      exactly up to manifest values that are no strings but print like one; and the stage's status
      adds to its booleans exactly the secondary pins. */
  lemma StageAndGateOnSp1(text: Json -> string, file: ManifestFile, p: Pinned)
    requires Coherent(p) && TextOfStrings(text)
    ensures var r := Sp1Verification(text, file, Some(p));
            && (SavedNamesMatch(SavedManifest(r), p) <==> r.namesVerified)
            && (SavedHashesMatch(SavedManifest(r), p) <==> r.hashesVerified && AllStrings(file.ruleHashes))
            && (r.status <==> r.hashesVerified && SecondariesMatch(file, p))
            && (r.status && p.secondaries != [] ==> AllStrings(file.ruleHashes))
  {
    var r := Sp1Verification(text, file, Some(p));
    NamesMatchExactly(text, file, p);
    if r.namesVerified {
      var hashes := file.ruleHashes;
      if AllStrings(hashes) { HeadsMatchOnStrings(text, hashes, p.heads); }
      if SavedHashesMatch(SavedManifest(r), p) { assert AllStrings(hashes); }
      if r.status && p.secondaries != [] {
        assert CoherentSecondary(p.secondaries[0], p.heads);
        assert FullHashesMatch(hashes, p.secondaries[0]);
      }
    }
  }

  /** A secondary full-hash pin tells the stage apart from the gate: with heads that match and a
      full hash that does not, the stage fails while both gate booleans hold. */
  lemma SecondaryPinOnlyStopsTheStage(text: Json -> string, hashes: map<string, Json>, p: Pinned, i: nat)
    requires Coherent(p) && TextOfStrings(text)
    requires hashes.Keys == p.heads.Keys && AllStrings(hashes)
    requires forall k | k in p.heads :: StartsWith(hashes[k].s, p.heads[k])
    requires i < |p.secondaries| && !FullHashesMatch(hashes, p.secondaries[i])
    ensures var r := Sp1Verification(text, Manifest(hashes), Some(p));
            !r.status && r.namesVerified && r.hashesVerified && SavedHashesMatch(SavedManifest(r), p)
  {
    NamesMatchExactly(text, Manifest(hashes), p);
    HeadsMatchOnStrings(text, hashes, p.heads);
  }
}
