/** The fixed-point verifier: it rebuilds everything and says CONVERGED when no document's hash changed.
    When its second run says so, exactly; and that its third always does. */
module Rebuild {
  import opened Contract
  import opened Stabilized
  import opened Pipeline
  import Registry
  import Text

  // ---- the convergence verdict ----

  /** `doc_hashes` */
  function DocHashes<H>(hash: Bytes -> H, docs: seq<string>, files: map<string, Bytes>): map<string, Option<H>> {
    map d | d in docs :: if d in files then Some(hash(files[d])) else None
  }

  /** `all(converged.values())` */
  predicate Converged<H(==)>(docs: seq<string>, before: map<string, Option<H>>, after: map<string, Option<H>>)
    requires forall d | d in docs :: d in before && d in after
  {
    forall d | d in docs :: before[d] == after[d] && after[d] != None
  }

  ghost predicate Injective<X(!new), H>(hash: X -> H) {
    forall a, b | hash(a) == hash(b) :: a == b
  }

  predicate IsDocument(b: Builder, path: string) {
    b.Document? && b.path == path
  }

  /** The documents compared are the documents built. */
  ghost predicate Covers(docs: seq<string>, builders: seq<Builder>) {
    forall p :: p in docs <==> exists i :: 0 <= i < |builders| && IsDocument(builders[i], p)
  }

  /** What one run of the fixed-point verifier records; None when a rebuild step failed. */
  function Verdict<H(==)>(c: Codec, hash: Bytes -> H, docs: seq<string>, inputs: set<string>, builders: seq<Builder>,
                          clock: Clock, w: World): Option<bool>
  {
    var r := Pass(c, Seen(inputs, false), builders, clock, w);
    if r.ok then Some(Converged(docs, DocHashes(hash, docs, w.docs), DocHashes(hash, docs, r.world.docs))) else None
  }

  /** What the theorems about runs of the verifier share: the list of builders is in order, the registry
      is built at place k and not read before, and `hidden` holds the reports that may read anything. */
  ghost predicate Setup(c: Codec, docs: seq<string>, inputs: set<string>, hidden: set<string>, builders: seq<Builder>,
                        k: nat)
  {
    && Lawful(c) && Sound(builders) && Acyclic(Seen(inputs, false), hidden, builders) && Covers(docs, builders)
    && k < |builders| && builders[k].Limitations?
  }

  /** A pass that ends well has written every document. */
  lemma {:induction false} PassWritesAll(c: Codec, seen: Seen, hidden: set<string>, builders: seq<Builder>,
                                         clock: Clock, w: World, i: nat)
    requires Acyclic(seen, hidden, builders) && Pass(c, seen, builders, clock, w).ok
    requires i < |builders| && builders[i].Document?
    ensures builders[i].path in Pass(c, seen, builders, clock, w).world.docs
    decreases |builders|
  {
    var b, v := builders[0], Visible(w, seen);
    if i == 0 {
      StepSurvives(c, seen, hidden, builders, clock, w);
    } else {
      PassWritesAll(c, seen.And(b), hidden, builders[1..], clock, Step(c, b, v, clock, w), i - 1);
    }
  }

  lemma AllWritten(c: Codec, docs: seq<string>, inputs: set<string>, hidden: set<string>, builders: seq<Builder>,
                   k: nat, clock: Clock, w: World)
    requires Setup(c, docs, inputs, hidden, builders, k) && Pass(c, Seen(inputs, false), builders, clock, w).ok
    ensures forall p | p in docs :: p in Pass(c, Seen(inputs, false), builders, clock, w).world.docs
  {
    forall p | p in docs
      ensures p in Pass(c, Seen(inputs, false), builders, clock, w).world.docs
    {
      var i :| 0 <= i < |builders| && IsDocument(builders[i], p);
      PassWritesAll(c, Seen(inputs, false), hidden, builders, clock, w, i);
    }
  }

  /** A run over a pass's own files that changes no document says CONVERGED, with any hash whatever. */
  lemma UnchangedConverges<H>(c: Codec, hash: Bytes -> H, docs: seq<string>, inputs: set<string>, hidden: set<string>,
                              builders: seq<Builder>, k: nat, clock: Clock, w: World)
    requires Setup(c, docs, inputs, hidden, builders, k)
    requires var r := Pass(c, Seen(inputs, false), builders, clock, w); r.ok && r.world.docs == w.docs
    ensures Verdict(c, hash, docs, inputs, builders, clock, w) == Some(true)
  {
    AllWritten(c, docs, inputs, hidden, builders, k, clock, w);
  }

  /** With an injective hash, a run that says CONVERGED has not changed a document. */
  lemma ConvergedIsUnchanged<H>(c: Codec, hash: Bytes -> H, docs: seq<string>, inputs: set<string>,
                                builders: seq<Builder>, clock: Clock, w: World, p: string)
    requires Injective(hash) && p in docs
    requires Verdict(c, hash, docs, inputs, builders, clock, w) == Some(true)
    ensures var r := Pass(c, Seen(inputs, false), builders, clock, w);
            r.ok && p in w.docs && p in r.world.docs && r.world.docs[p] == w.docs[p]
  {
    var r := Pass(c, Seen(inputs, false), builders, clock, w);
    var before, after := DocHashes(hash, docs, w.docs), DocHashes(hash, docs, r.world.docs);
    assert before[p] == after[p] && after[p] != None;
  }

  lemma {:induction false} PassWritesOnlyItsOwn(c: Codec, seen: Seen, builders: seq<Builder>, clock: Clock, w: World,
                                                p: string)
    requires forall i | 0 <= i < |builders| :: !IsDocument(builders[i], p)
    ensures Lookup(Pass(c, seen, builders, clock, w).world.docs, p) == Lookup(w.docs, p)
    decreases |builders|
  {
    if builders != [] {
      var b, v := builders[0], Visible(w, seen);
      if !Fails(b, v, w.registry) {
        assert !IsDocument(b, p);
        PassWritesOnlyItsOwn(c, seen.And(b), builders[1..], clock, Step(c, b, v, clock, w), p);
      }
    }
  }

  /** With an injective hash, CONVERGED is said of exactly the files whose documents the rebuild, having
      ended well, did not change. */
  lemma ConvergedExactly<H>(c: Codec, hash: Bytes -> H, docs: seq<string>, inputs: set<string>, hidden: set<string>,
                            builders: seq<Builder>, k: nat, clock: Clock, w: World)
    requires Setup(c, docs, inputs, hidden, builders, k) && Injective(hash)
    ensures Verdict(c, hash, docs, inputs, builders, clock, w) == Some(true) <==>
            var r := Pass(c, Seen(inputs, false), builders, clock, w); r.ok && r.world.docs == w.docs
  {
    var seen := Seen(inputs, false);
    var r := Pass(c, seen, builders, clock, w);
    if Verdict(c, hash, docs, inputs, builders, clock, w) == Some(true) {
      forall p
        ensures Lookup(r.world.docs, p) == Lookup(w.docs, p)
      {
        if p in docs {
          ConvergedIsUnchanged(c, hash, docs, inputs, builders, clock, w, p);
        } else {
          PassWritesOnlyItsOwn(c, seen, builders, clock, w, p);
        }
      }
      SameLookups(r.world.docs, w.docs);
    }
    if r.ok && r.world.docs == w.docs {
      UnchangedConverges(c, hash, docs, inputs, hidden, builders, k, clock, w);
    }
  }

  lemma SameLookups(a: map<string, Bytes>, b: map<string, Bytes>)
    requires forall p :: Lookup(a, p) == Lookup(b, p)
    ensures a == b
  {
    forall p
      ensures (p in a <==> p in b) && (p in a && p in b ==> a[p] == b[p])
    {
      assert Lookup(a, p) == Lookup(b, p);
    }
  }

  // ---- a document that quotes the registry ----

  ghost predicate KeptFor(c: Codec, b: Builder, v: View, existing: Bytes, stamp: string)
    requires b.Document?
  {
    var d := b.derive(v);
    d.Some? && Kept(c, FormatOf(d.value), existing, Render(c, d.value, stamp))
  }

  /** A file that the writer would keep for two views shows that the registry is the same in both. */
  ghost predicate Reveals(c: Codec, b: Builder) {
    b.Document?
    && forall v, v', x, s, t :: KeptFor(c, b, v, x, s) && KeptFor(c, b, v', x, t) ==> v.registry == v'.registry
  }

  /** The document carries, where `quote` finds it, the hash of the registry's text. */
  ghost predicate Quotes(c: Codec, b: Builder, quote: Payload -> Option<string>, text: Registry.Document -> Bytes,
                         sha: Bytes -> string)
  {
    && b.Document? && (forall p, q :: c.same(p, q) ==> quote(p) == quote(q))
    && forall v :: b.derive(v).Some? ==>
         && b.derive(v).value.JsonDraft? && v.registry.Some?
         && quote(WithoutStamp(b.derive(v).value.body)) == Some(sha(text(v.registry.value)))
  }

  /** Quoting an injective hash of a faithful text is enough to reveal. */
  lemma QuotedHashReveals(c: Codec, b: Builder, quote: Payload -> Option<string>, text: Registry.Document -> Bytes,
                          sha: Bytes -> string)
    requires Lawful(c) && Quotes(c, b, quote, text, sha) && Injective(sha) && Injective(text)
    ensures Reveals(c, b)
  {
    forall v, v', x, s, t | KeptFor(c, b, v, x, s) && KeptFor(c, b, v', x, t)
      ensures v.registry == v'.registry
    {
      QuotedIn(c, b, quote, text, sha, v, x, s);
      QuotedIn(c, b, quote, text, sha, v', x, t);
      assert text(v.registry.value) == text(v'.registry.value);
    }
  }

  lemma QuotedIn(c: Codec, b: Builder, quote: Payload -> Option<string>, text: Registry.Document -> Bytes,
                 sha: Bytes -> string, v: View, x: Bytes, s: string)
    requires Lawful(c) && Quotes(c, b, quote, text, sha) && KeptFor(c, b, v, x, s)
    ensures c.parse(x).Dict? && quote(WithoutStamp(c.parse(x).fields)) == Some(sha(text(v.registry.value)))
  {
    var body := b.derive(v).value.body;
    assert WithoutStamp(body[STAMP := Scalar(s)]) == WithoutStamp(body);
    assert c.parse(c.render(body[STAMP := Scalar(s)])) == Dict(body[STAMP := Scalar(s)]);
  }

  /** What a good pass leaves of a document built after the registry is kept for the registry it leaves. */
  lemma {:induction false} KeptForOwnRegistry(c: Codec, seen: Seen, hidden: set<string>, builders: seq<Builder>,
                                              clock: Clock, w: World, i: nat) returns (v: View)
    requires Lawful(c) && Sound(builders) && Ticks(clock) && Acyclic(seen, hidden, builders)
    requires Pass(c, seen, builders, clock, w).ok && i < |builders| && builders[i].Document?
    requires seen.registry || exists k :: 0 <= k < i && builders[k].Limitations?
    ensures var r := Pass(c, seen, builders, clock, w).world;
            && builders[i].path in r.docs && v.registry == r.registry
            && KeptFor(c, builders[i], v, r.docs[builders[i].path], clock(builders[i].path))
    decreases |builders|
  {
    var b := builders[0];
    v := Visible(w, seen);
    if i == 0 {
      assert SoundBuilder(b);
      StepSurvives(c, seen, hidden, builders, clock, w);
      RegistryFrame(c, seen, hidden, builders, clock, w);
      WrittenIsKept(c, b.derive(v).value, Lookup(w.docs, b.path), clock(b.path), clock(b.path));
    } else {
      if !seen.registry && !b.Limitations? {
        var k :| 0 <= k < i && builders[k].Limitations?;
        assert builders[1..][k - 1] == builders[k];
      }
      v := KeptForOwnRegistry(c, seen.And(b), hidden, builders[1..], clock, Step(c, b, v, clock, w), i - 1);
    }
  }

  // ---- the second run and the third ----

  /** Whether the second run says CONVERGED, exactly. Some document built after the registry quotes it,
      and the hash is injective. After a first run that ended well the second says CONVERGED if and only
      if every certified entry that the first one read, and heals, either held the note or had no blank
      at its end. */
  lemma SecondRunExactly<H>(c: Codec, hash: Bytes -> H, docs: seq<string>, inputs: set<string>, hidden: set<string>,
                            builders: seq<Builder>, k: nat, i: nat, now: Clock, later: Clock, w: World)
    requires Setup(c, docs, inputs, hidden, builders, k) && Ticks(now) && Ticks(later) && Injective(hash)
    requires k < i < |builders| && Reveals(c, builders[i])
    requires Pass(c, Seen(inputs, false), builders, now, w).ok
    ensures w.registry.Some? && w.registry.value.limitations.Some?
    ensures var first := Pass(c, Seen(inputs, false), builders, now, w);
            Verdict(c, hash, docs, inputs, builders, later, first.world) == Some(true)
            <==> Registry.AllSettle(w.registry.value.limitations.value)
  {
    var seen := Seen(inputs, false);
    var first := Pass(c, seen, builders, now, w);
    RegistryRebuilt(c, seen, hidden, builders, now, w, k);
    if Registry.AllSettle(w.registry.value.limitations.value) {
      OnePassConvergence(c, seen, hidden, builders, now, later, w);
      UnchangedConverges(c, hash, docs, inputs, hidden, builders, k, later, first.world);
    }
    if Verdict(c, hash, docs, inputs, builders, later, first.world) == Some(true) {
      UnchangedMeansSettled(c, hash, docs, inputs, hidden, builders, k, i, now, later, w);
    }
  }

  lemma UnchangedMeansSettled<H>(c: Codec, hash: Bytes -> H, docs: seq<string>, inputs: set<string>,
                                 hidden: set<string>, builders: seq<Builder>, k: nat, i: nat, now: Clock, later: Clock,
                                 w: World)
    requires Setup(c, docs, inputs, hidden, builders, k) && Ticks(now) && Ticks(later) && Injective(hash)
    requires k < i < |builders| && Reveals(c, builders[i])
    requires Pass(c, Seen(inputs, false), builders, now, w).ok
    requires w.registry.Some? && w.registry.value.limitations.Some?
    requires var first := Pass(c, Seen(inputs, false), builders, now, w);
             Verdict(c, hash, docs, inputs, builders, later, first.world) == Some(true)
    ensures Registry.AllSettle(w.registry.value.limitations.value)
  {
    var seen := Seen(inputs, false);
    var first := Pass(c, seen, builders, now, w);
    var path := builders[i].path;
    assert IsDocument(builders[i], path);
    ConvergedIsUnchanged(c, hash, docs, inputs, builders, later, first.world, path);
    var second := Pass(c, seen, builders, later, first.world);
    var v := KeptForOwnRegistry(c, seen, hidden, builders, now, w, i);
    var v' := KeptForOwnRegistry(c, seen, hidden, builders, later, first.world, i);
    assert first.world.registry == second.world.registry;
    RegistryRebuilt(c, seen, hidden, builders, now, w, k);
    RegistryRebuilt(c, seen, hidden, builders, later, first.world, k);
    assert SoundBuilder(builders[k]);
    Registry.RebuildReachesFixedPoint(w.registry.value, builders[k].own);
  }

  /** The third run says CONVERGED always, with any hash whatever, once two have ended well. */
  lemma ThirdRunConverges<H>(c: Codec, hash: Bytes -> H, docs: seq<string>, inputs: set<string>, hidden: set<string>,
                             builders: seq<Builder>, k: nat, clock1: Clock, clock2: Clock, clock3: Clock, w: World)
    requires Setup(c, docs, inputs, hidden, builders, k) && Ticks(clock1) && Ticks(clock2) && Ticks(clock3)
    requires Pass(c, Seen(inputs, false), builders, clock1, w).ok
    requires Pass(c, Seen(inputs, false), builders, clock2, Pass(c, Seen(inputs, false), builders, clock1, w).world).ok
    ensures var first := Pass(c, Seen(inputs, false), builders, clock1, w);
            var second := Pass(c, Seen(inputs, false), builders, clock2, first.world);
            Verdict(c, hash, docs, inputs, builders, clock3, second.world) == Some(true)
  {
    var seen := Seen(inputs, false);
    var second := Pass(c, seen, builders, clock2, Pass(c, seen, builders, clock1, w).world);
    ThirdPassIsFixed(c, seen, hidden, builders, clock1, clock2, clock3, w, k);
    UnchangedConverges(c, hash, docs, inputs, hidden, builders, k, clock3, second.world);
  }

  /** A registry with which the second run says DIVERGED: one healed entry whose description has no note
      and ends in a blank. */
  function BlankEnded(): Registry.Document {
    Registry.Document(Some("1.0.0"), Some("type"), Some("policy"),
                      Some([Registry.Entry(Some(Registry.Lim(1)), Some("x "), None, map[])]))
  }

  lemma BlankEndedDiverges(own: seq<Registry.Entry>)
    requires Registry.OwnEntries(own)
    ensures Registry.Built(BlankEnded(), own).Some? && !Registry.AllSettle(BlankEnded().limitations.value)
    ensures Registry.Built(Registry.Built(BlankEnded(), own).value, own) != Registry.Built(BlankEnded(), own)
  {
    var entries := BlankEnded().limitations.value;
    Registry.StopsExactly(entries);
    assert !Text.Contains(entries[0].description.value, Registry.NOTE) by {
      Registry.NoteParenthesis();
      assert |Registry.NOTE| > 2;
    }
    assert !Registry.Settles(entries[0]);
    Registry.RebuildReachesFixedPoint(BlankEnded(), own);
  }

  // ---- the program ----

  class Workspace {
    const tree: Tree
    var reports: map<string, Report>
    var registry: Option<Registry.Document>

    constructor (tree: Tree, reports: map<string, Report>, registry: Option<Registry.Document>)
      ensures this.tree == tree && this.reports == reports && this.registry == registry
    {
      this.tree, this.reports, this.registry := tree, reports, registry;
    }

    ghost function State(): World
      reads this, tree
    {
      World(tree.files, reports, registry)
    }

    method WriteDocument(c: Codec, path: string, d: Draft, stamp: string)
      requires Lawful(c)
      modifies tree
      ensures tree.files
              == old(tree.files)[path := Written(c, FormatOf(d), Lookup(old(tree.files), path), Render(c, d, stamp))]
    {
      match d
      case JsonDraft(body) => var _ := tree.WriteStabilized(c, path, body[STAMP := Scalar(stamp)]);
      case TextDraft(before, prefix, after) =>
        var _ := tree.WriteStabilizedText(c, path, Stamped(before, prefix, stamp, after), prefix);
    }

    method RebuildRegistry(own: seq<Registry.Entry>) returns (ok: bool)
      modifies this`registry
      ensures ok == !(old(registry).None? || Registry.Built(old(registry).value, own).None?)
      ensures registry == if ok then Registry.Built(old(registry).value, own) else old(registry)
    {
      if registry.None? {
        return false;
      }
      var file := new Registry.RegistryFile(registry.value);
      var inherited := file.BuildLimitations(own);
      ok := inherited.Some?;
      if ok {
        registry := Some(file.content);
      }
    }

    /** One output of one step. */
    method BuildOne(c: Codec, b: Builder, seen: Seen, clock: Clock) returns (ok: bool)
      requires Lawful(c)
      modifies this, tree
      ensures ok == !Fails(b, Visible(old(State()), seen), old(registry))
      ensures State() == if ok then Step(c, b, Visible(old(State()), seen), clock, old(State())) else old(State())
    {
      var w := World(tree.files, reports, registry);
      var v := Visible(w, seen);
      match b
      case Document(path, derive) =>
        ok := derive(v).Some?;
        if ok {
          WriteDocument(c, path, derive(v).value, clock(path));
        }
      case Evidence(path, derive) =>
        ok := derive(v).Some?;
        if ok {
          reports := reports[path := Report(derive(v).value, clock(path))];
        }
      case Limitations(own) =>
        ok := RebuildRegistry(own);
      case Aside(path, passes, compile) =>
        ok := passes(v);
        if ok {
          reports := reports[path := Report(compile(w, clock(path)), clock(path))];
        }
    }

    /** The rebuild loop of `main`. */
    method RebuildAll(c: Codec, inputs: set<string>, builders: seq<Builder>, clock: Clock) returns (ok: bool)
      requires Lawful(c)
      modifies this, tree
      ensures Outcome(State(), ok) == Pass(c, Seen(inputs, false), builders, clock, old(State()))
    {
      var i, seen := 0, Seen(inputs, false);
      while i < |builders|
        invariant 0 <= i <= |builders|
        invariant Pass(c, seen, builders[i..], clock, State())
                  == Pass(c, Seen(inputs, false), builders, clock, old(State()))
      {
        var b := builders[i];
        assert builders[i..][0] == b && builders[i..][1..] == builders[i + 1..];
        ok := BuildOne(c, b, seen, clock);
        if !ok {
          return;
        }
        i, seen := i + 1, seen.And(b);
      }
      ok := true;
    }

    /** `main` of the fixed-point verifier, up to its checker battery. */
    method FixedPointRun<H(==)>(c: Codec, hash: Bytes -> H, docs: seq<string>, inputs: set<string>,
                                builders: seq<Builder>, clock: Clock)
      returns (verdict: Option<bool>)
      requires Lawful(c)
      modifies this, tree
      ensures verdict == Verdict(c, hash, docs, inputs, builders, clock, old(State()))
      ensures State() == Pass(c, Seen(inputs, false), builders, clock, old(State())).world
    {
      var before := DocHashes(hash, docs, tree.files);
      var ok := RebuildAll(c, inputs, builders, clock);
      if !ok {
        return None;
      }
      verdict := Some(Converged(docs, before, DocHashes(hash, docs, tree.files)));
    }
  }
}
