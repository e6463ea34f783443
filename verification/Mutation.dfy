/** Mutation testing of the rule source: each mutant is written over the source, the test suite is
    run, and the original is put back, whatever happens. */
module Mutation {
  import opened Contract
  import opened Text

  datatype Mutant = Mutant(id: string, anchor: string, replacement: string)

  /** A run of the test suite: it ends, or raises (a timeout). Either way it may have left anything
      in the rule file. */
  datatype SuiteRun = Ended(code: int, failed: seq<string>, left: string) | Raised(left: string)

  type Suite = (nat, string) -> SuiteRun

  datatype Result = NotApplied(id: string, count: nat)
    | Tested(id: string, detected: bool, failed: seq<string>, code: int)

  /** `src.count(anchor)`: occurrences that do not overlap, scanned from the left. */
  function Count(s: string, anchor: string): nat
    decreases |s|
  {
    if anchor == "" then |s| + 1
    else
      var p := FindFrom(s, anchor, 0);
      if p == -1 then 0 else 1 + Count(s[p + |anchor|..], anchor)
  }

  function Mutated(source: string, m: Mutant): string {
    ReplaceFirst(source, m.anchor, m.replacement)
  }

  /** What becomes of mutant k; None when the exception that ends the campaign is raised. */
  function Fate<H(==)>(hash: string -> H, suite: Suite, source: string, m: Mutant, k: nat): Option<Result> {
    if Count(source, m.anchor) != 1 then Some(NotApplied(m.id, Count(source, m.anchor)))
    else if hash(Mutated(source, m)) == hash(source) then None
    else
      match suite(k, Mutated(source, m))
      case Ended(code, failed, _) => Some(Tested(m.id, code != 0 && failed != [], failed, code))
      case Raised(_) => None
  }

  /** The results of mutants k onwards, each tried against the original source; None when one raises. */
  function Fates<H(==)>(hash: string -> H, suite: Suite, source: string, mutants: seq<Mutant>,
          k: nat): Option<seq<Result>>
    requires k <= |mutants|
    decreases |mutants| - k
  {
    if k == |mutants| then Some([])
    else
      var r := Fate(hash, suite, source, mutants[k], k);
      if r.None? then None
      else
        var rest := Fates(hash, suite, source, mutants, k + 1);
        if rest.None? then None else Some([r.value] + rest.value)
  }

  datatype Summary = Summary(results: seq<Result>, restored: bool, detected: nat, survived: nat) {
    /** The exit status. */
    predicate Success() {
      restored && survived == 0
    }
  }

  /** The suite ended with a failure and named a test. */
  predicate Fails(run: SuiteRun) {
    run.Ended? && run.code != 0 && run.failed != []
  }

  predicate Detected(r: Result) {
    r.Tested? && r.detected
  }

  predicate Survived(r: Result) {
    r.Tested? && !r.detected
  }

  function CountIf(results: seq<Result>, p: Result -> bool): nat {
    if results == [] then 0 else (if p(results[0]) then 1 else 0) + CountIf(results[1..], p)
  }

  function Summarised(results: seq<Result>, restored: bool): Summary {
    Summary(results, restored, CountIf(results, Detected), CountIf(results, Survived))
  }

  class RuleSource {
    var content: string

    constructor (content: string)
      ensures this.content == content
    {
      this.content := content;
    }

    /** One turn of the loop: write the mutant, check it, run the suite, put the original back. */
    method Try<H(==)>(hash: string -> H, suite: Suite, m: Mutant, k: nat, original: string)
      returns (result: Option<Result>, restored: bool)
      requires Count(original, m.anchor) == 1
      modifies this
      ensures content == original && restored
      ensures result == Fate(hash, suite, original, m, k)
    {
      content := Mutated(original, m);
      if hash(content) == hash(original) {
        result := None;
      } else {
        var run := suite(k, content);
        content := run.left;
        result := if run.Raised? then None
                  else Some(Tested(m.id, run.code != 0 && run.failed != [], run.failed, run.code));
      }
      content := original;
      restored := hash(content) == hash(original);
    }

    /** `main`: None when an exception ends it. The source holds its original bytes at every loop
        head and at every exit, whatever the suite left in it. */
    method RunCampaign<H(==)>(hash: string -> H, suite: Suite, mutants: seq<Mutant>) returns (summary: Option<Summary>)
      modifies this
      ensures content == old(content)
      ensures var fates := Fates(hash, suite, old(content), mutants, 0);
              summary == if fates.None? then None
                         else Some(Summarised(fates.value, true))
    {
      var original := content;
      var results, restoreOk, k := [], true, 0;
      ghost var all := Fates(hash, suite, original, mutants, 0);
      assert all.Some? ==> results + all.value == all.value;
      while k < |mutants|
        invariant 0 <= k <= |mutants|
        invariant content == original && restoreOk
        invariant var rest := Fates(hash, suite, original, mutants, k);
                  all == if rest.None? then None else Some(results + rest.value)
      {
        var m := mutants[k];
        var count := Count(original, m.anchor);
        ghost var later := Fates(hash, suite, original, mutants, k + 1);
        if count != 1 {
          var skipped := NotApplied(m.id, count);
          assert later.Some? ==> results + ([skipped] + later.value) == results + [skipped] + later.value;
          results := results + [skipped];
        } else {
          var result, restored := Try(hash, suite, m, k, original);
          if !restored {
            restoreOk := false;
            break;
          }
          if result.None? {
            content := original;
            return None;
          }
          assert later.Some? ==> results + ([result.value] + later.value) == results + [result.value] + later.value;
          results := results + [result.value];
        }
        k := k + 1;
      }
      content := original;
      assert results + [] == results;
      summary := Some(Summarised(results, hash(content) == hash(original) && restoreOk));
    }
  }

  // ---- a mutant differs from the original ----

  /** Where the anchor occurs, replacing it by other text always changes the source. */
  lemma MutantDiffers(source: string, m: Mutant)
    requires Count(source, m.anchor) == 1
    ensures Mutated(source, m) == source <==> m.anchor == m.replacement
  {
  }

  /** The check that a mutant is no no-op never fires on a real change, unless the hash collides on
      these very two texts; the campaign then ends early only when the suite itself raises. */
  lemma RaisesOnlyWithTheSuite<H>(hash: string -> H, suite: Suite, source: string, m: Mutant, k: nat)
    requires m.anchor != m.replacement
    requires hash(Mutated(source, m)) == hash(source) ==> Mutated(source, m) == source
    ensures Fate(hash, suite, source, m, k).None?
            <==> Count(source, m.anchor) == 1 && suite(k, Mutated(source, m)).Raised?
  {
  }

  // ---- what a summary means ----

  lemma {:induction false} FateOfEach<H>(hash: string -> H, suite: Suite, source: string, mutants: seq<Mutant>,
          k: nat, i: nat)
    requires k <= i < |mutants| && Fates(hash, suite, source, mutants, k).Some?
    ensures var r := Fates(hash, suite, source, mutants, k).value;
            |r| == |mutants| - k && Fate(hash, suite, source, mutants[i], i) == Some(r[i - k])
    decreases |mutants| - k
  {
    if k + 1 < |mutants| {
      FateOfEach(hash, suite, source, mutants, k + 1, if i == k then k + 1 else i);
    }
  }

  lemma {:induction false} NoneMeans(results: seq<Result>, p: Result -> bool)
    ensures CountIf(results, p) == 0 <==> forall i | 0 <= i < |results| :: !p(results[i])
  {
    if results != [] {
      NoneMeans(results[1..], p);
      assert results == [results[0]] + results[1..];
    }
  }

  predicate Unapplied(r: Result) {
    r.NotApplied?
  }

  /** Every result is exactly one of detected, survived and not applied. */
  lemma {:induction false} Partition(results: seq<Result>)
    ensures CountIf(results, Detected) + CountIf(results, Survived) + CountIf(results, Unapplied) == |results|
  {
    if results != [] {
      Partition(results[1..]);
    }
  }

  /** A campaign that completes succeeds if and only if the suite failed, naming a test, on every
      mutant whose anchor occurs exactly once. A mutant that could not be applied is no failure. */
  lemma SuccessExactly<H>(hash: string -> H, suite: Suite, source: string, mutants: seq<Mutant>)
    requires Fates(hash, suite, source, mutants, 0).Some?
    ensures var r := Fates(hash, suite, source, mutants, 0).value;
            Summarised(r, true).Success() <==>
            forall i | 0 <= i < |mutants| && Count(source, mutants[i].anchor) == 1 ::
              Fails(suite(i, Mutated(source, mutants[i])))
  {
    var r := Fates(hash, suite, source, mutants, 0).value;
    NoneMeans(r, Survived);
    forall i | 0 <= i < |mutants|
      ensures |r| == |mutants| && Fate(hash, suite, source, mutants[i], i) == Some(r[i])
    {
      FateOfEach(hash, suite, source, mutants, 0, i);
    }
    if mutants == [] {
      assert r == [];
    } else {
      assert |r| == |mutants|;
    }
    assert forall i | 0 <= i < |mutants| && Count(source, mutants[i].anchor) == 1 ::
        Survived(r[i]) <==> !Fails(suite(i, Mutated(source, mutants[i])));
    assert forall i | 0 <= i < |r| :: Survived(r[i]) ==> Count(source, mutants[i].anchor) == 1;
  }

  /** The verdict of a campaign that succeeds is "all mutants detected". It is true if and only if the anchor
      of every mutant occurs exactly once. */
  lemma AllDetectedExactly<H>(hash: string -> H, suite: Suite, source: string, mutants: seq<Mutant>)
    requires Fates(hash, suite, source, mutants, 0).Some?
    requires Summarised(Fates(hash, suite, source, mutants, 0).value, true).Success()
    ensures var r := Fates(hash, suite, source, mutants, 0).value;
            CountIf(r, Detected) == |r| <==> forall i | 0 <= i < |mutants| :: Count(source, mutants[i].anchor) == 1
  {
    var r := Fates(hash, suite, source, mutants, 0).value;
    Partition(r);
    NoneMeans(r, Unapplied);
    forall i | 0 <= i < |mutants|
      ensures |r| == |mutants| && (Unapplied(r[i]) <==> Count(source, mutants[i].anchor) != 1)
    {
      FateOfEach(hash, suite, source, mutants, 0, i);
    }
    if mutants == [] {
      assert r == [];
    }
  }

  /** A campaign of two in which one anchor is missing: it succeeds with one mutant of two detected. */
  lemma OneOfTwoDetected()
    ensures var mutants := [Mutant("a", "x", "y"), Mutant("b", "zz", "y")];
            var suite := (k: nat, text: string) => Ended(1, ["test"], text);
            var fates := Fates((text: string) => text, suite, "x", mutants, 0);
            && fates.Some? && |fates.value| == 2
            && Summarised(fates.value, true).Success() && CountIf(fates.value, Detected) == 1
  {
    OneOfTwo("x", Mutant("a", "x", "y"), Mutant("b", "zz", "y"), (k, text) => Ended(1, ["test"], text),
             (text: string) => text);
  }

  /** What two mutants come to, of which only the first occurs, once, and the suite detects it. */
  lemma OneOfTwo<H>(source: string, a: Mutant, b: Mutant, suite: Suite, hash: string -> H)
    requires Count(source, a.anchor) == 1 && Count(source, b.anchor) == 0
    requires hash(Mutated(source, a)) != hash(source) && Fails(suite(0, Mutated(source, a)))
    ensures var fates := Fates(hash, suite, source, [a, b], 0);
            && fates.Some? && |fates.value| == 2
            && Summarised(fates.value, true).Success() && CountIf(fates.value, Detected) == 1
  {
    var mutants := [a, b];
    assert Fates(hash, suite, source, mutants, 2) == Some([]);
    var second := NotApplied(b.id, 0);
    assert [second] + [] == [second];
    assert Fate(hash, suite, source, mutants[1], 1) == Some(second);
    assert Fates(hash, suite, source, mutants, 1) == Some([second]);
    var first := Fate(hash, suite, source, a, 0).value;
    assert Fates(hash, suite, source, mutants, 0) == Some([first] + [second]);
    assert ([first] + [second])[1..] == [second] && [second][1..] == [];
    assert CountIf([second], Detected) == 0 && CountIf([second], Survived) == 0;
    assert Detected(first) && !Survived(first);
  }

  /** So a campaign that applied no mutant at all succeeds. */
  lemma EmptyVictory<H>(hash: string -> H, suite: Suite, source: string, mutants: seq<Mutant>)
    requires forall i | 0 <= i < |mutants| :: Count(source, mutants[i].anchor) != 1
    ensures var fates := Fates(hash, suite, source, mutants, 0);
            && fates.Some?
            && Summarised(fates.value, true).Success()
            && CountIf(fates.value, Detected) == 0
  {
    NoneApplied(hash, suite, source, mutants, 0);
    var r := Fates(hash, suite, source, mutants, 0).value;
    NoneMeans(r, Survived);
    NoneMeans(r, Detected);
  }

  lemma {:induction false} NoneApplied<H>(hash: string -> H, suite: Suite, source: string, mutants: seq<Mutant>, k: nat)
    requires k <= |mutants| && forall i | 0 <= i < |mutants| :: Count(source, mutants[i].anchor) != 1
    ensures var fates := Fates(hash, suite, source, mutants, k);
            fates.Some? && forall i | 0 <= i < |fates.value| :: fates.value[i].NotApplied?
    decreases |mutants| - k
  {
    if k < |mutants| {
      NoneApplied(hash, suite, source, mutants, k + 1);
    }
  }
}
