/** The release rebuild: an ordered list of builders. Release documents go through the stabilised
    writers; evidence files are rewritten with a new time stamp that no document quotes; one builder
    rewrites the limitation registry from its own earlier output; and reports that only such reports read
    may read anything. Whether a second rebuild changes a document comes down to the registry. */
module Pipeline {
  import opened Contract
  import opened Stabilized
  import Registry

  /** An evidence file or report: its body, and the stamp of its last writing. */
  datatype Report = Report(draft: Draft, stamp: string)

  datatype World = World(docs: map<string, Bytes>, reports: map<string, Report>, registry: Option<Registry.Document>)

  /** What a builder can see: bytes of documents, bodies of evidence, the registry. */
  datatype View = View(docs: map<string, Bytes>, bodies: map<string, Draft>, registry: Option<Registry.Document>)

  /** One output of a rebuild step. A document or evidence file is a function of the view, None when
      its step exits non-zero. The registry is a function of the registry. A report that only such
      reports read may be a function of everything, its own earlier output and every stamp included;
      only whether its step passes depends on the view. */
  datatype Builder =
    | Document(path: string, derive: View -> Option<Draft>)
    | Evidence(path: string, derive: View -> Option<Draft>)
    | Limitations(own: seq<Registry.Entry>)
    | Aside(path: string, passes: View -> bool, compile: (World, string) -> Draft)

  type Clock = string -> string

  /** What stands fixed so far: inputs and outputs already rebuilt, and whether the registry is. */
  datatype Seen = Seen(paths: set<string>, registry: bool)
  {
    function And(b: Builder): Seen {
      match b
      case Document(path, _) => this.(paths := paths + {path})
      case Evidence(path, _) => this.(paths := paths + {path})
      case Limitations(_) => this.(registry := true)
      case Aside(_, _, _) => this
    }
  }

  function Visible(w: World, seen: Seen): View {
    View(map p | p in w.docs && p in seen.paths :: w.docs[p],
         map p | p in w.reports && p in seen.paths :: w.reports[p].draft,
         if seen.registry then w.registry else None)
  }

  predicate Fails(b: Builder, v: View, registry: Option<Registry.Document>) {
    match b
    case Document(_, derive) => derive(v).None?
    case Evidence(_, derive) => derive(v).None?
    case Limitations(own) => registry.None? || Registry.Built(registry.value, own).None?
    case Aside(_, passes, _) => !passes(v)
  }

  function Step(c: Codec, b: Builder, v: View, clock: Clock, w: World): World
    requires !Fails(b, v, w.registry)
  {
    match b
    case Document(path, derive) =>
      var d := derive(v).value;
      w.(docs := w.docs[path := Written(c, FormatOf(d), Lookup(w.docs, path), Render(c, d, clock(path)))])
    case Evidence(path, derive) => w.(reports := w.reports[path := Report(derive(v).value, clock(path))])
    case Limitations(own) => w.(registry := Registry.Built(w.registry.value, own))
    case Aside(path, _, compile) => w.(reports := w.reports[path := Report(compile(w, clock(path)), clock(path))])
  }

  datatype Outcome = Outcome(world: World, ok: bool)

  /** One rebuild: the builders in order, stopping at the first that fails. */
  function Pass(c: Codec, seen: Seen, builders: seq<Builder>, clock: Clock, w: World): Outcome
    decreases |builders|
  {
    if builders == [] then Outcome(w, true)
    else
      var b, v := builders[0], Visible(w, seen);
      if Fails(b, v, w.registry) then Outcome(w, false)
      else Pass(c, seen.And(b), builders[1..], clock, Step(c, b, v, clock, w))
  }

  /** Every output has its own path, none is an input, the registry is built at most once, and `hidden`
      holds the paths of the reports that may read anything. */
  predicate Acyclic(seen: Seen, hidden: set<string>, builders: seq<Builder>)
    decreases |builders|
  {
    seen.paths !! hidden &&
    (builders == []
     || ((match builders[0]
          case Document(path, _) => path !in seen.paths && path !in hidden
          case Evidence(path, _) => path !in seen.paths && path !in hidden
          case Limitations(_) => !seen.registry
          case Aside(path, _, _) => path in hidden)
         && Acyclic(seen.And(builders[0]), hidden, builders[1..])))
  }

  ghost predicate Sound(builders: seq<Builder>) {
    forall i | 0 <= i < |builders| :: SoundBuilder(builders[i])
  }

  ghost predicate SoundBuilder(b: Builder) {
    match b
    case Document(_, derive) => forall v :: derive(v).Some? ==> WellFormed(derive(v).value)
    case Limitations(own) => Registry.OwnEntries(own)
    case _ => true
  }

  ghost predicate Ticks(clock: Clock) {
    forall p :: OneLine(clock(p))
  }

  function Bodies(w: World, hidden: set<string>): map<string, Draft> {
    map p | p in w.reports && p !in hidden :: w.reports[p].draft
  }

  /** Equal documents, byte for byte, equal registries, and evidence files equal but for their stamps. */
  ghost predicate Same(v: World, w: World, hidden: set<string>) {
    v.docs == w.docs && v.registry == w.registry && Bodies(v, hidden) == Bodies(w, hidden)
  }

  /** The builder would leave what is there. */
  ghost predicate SettledAt(c: Codec, b: Builder, v: View, clock: Clock, w: World)
    requires !Fails(b, v, w.registry)
  {
    match b
    case Document(path, derive) =>
      path in w.docs && Kept(c, FormatOf(derive(v).value), w.docs[path], Render(c, derive(v).value, clock(path)))
    case Evidence(path, derive) => path in w.reports && w.reports[path].draft == derive(v).value
    case Limitations(own) => Registry.Built(w.registry.value, own) == w.registry
    case Aside(_, _, _) => true
  }

  /** Every output that a rebuild reaches, asides apart, already is what the rebuild would leave there. */
  ghost predicate Settled(c: Codec, seen: Seen, builders: seq<Builder>, clock: Clock, w: World)
    decreases |builders|
  {
    builders == [] ||
    var b, v := builders[0], Visible(w, seen);
    Fails(b, v, w.registry)
    || (SettledAt(c, b, v, clock, w) && Settled(c, seen.And(b), builders[1..], clock, w))
  }

  // ---- what a pass leaves alone ----

  lemma {:induction false} PassFrame(c: Codec, seen: Seen, hidden: set<string>, builders: seq<Builder>, clock: Clock,
                                     w: World, p: string)
    requires Acyclic(seen, hidden, builders) && p in seen.paths
    ensures var r := Pass(c, seen, builders, clock, w).world;
            && Lookup(r.docs, p) == Lookup(w.docs, p)
            && (p in r.reports <==> p in w.reports) && (p in r.reports ==> r.reports[p] == w.reports[p])
    decreases |builders|
  {
    if builders != [] {
      var b, v := builders[0], Visible(w, seen);
      if !Fails(b, v, w.registry) {
        PassFrame(c, seen.And(b), hidden, builders[1..], clock, Step(c, b, v, clock, w), p);
      }
    }
  }

  lemma {:induction false} RegistryFrame(c: Codec, seen: Seen, hidden: set<string>, builders: seq<Builder>,
                                         clock: Clock, w: World)
    requires Acyclic(seen, hidden, builders) && seen.registry
    ensures Pass(c, seen, builders, clock, w).world.registry == w.registry
    decreases |builders|
  {
    if builders != [] {
      var b, v := builders[0], Visible(w, seen);
      if !Fails(b, v, w.registry) {
        RegistryFrame(c, seen.And(b), hidden, builders[1..], clock, Step(c, b, v, clock, w));
      }
    }
  }

  lemma ViewKept(c: Codec, seen: Seen, hidden: set<string>, builders: seq<Builder>, clock: Clock, w: World)
    requires Acyclic(seen, hidden, builders)
    ensures Visible(Pass(c, seen, builders, clock, w).world, seen) == Visible(w, seen)
  {
    var r := Pass(c, seen, builders, clock, w).world;
    if seen.registry {
      RegistryFrame(c, seen, hidden, builders, clock, w);
    }
    forall p | p in seen.paths
      ensures (p in r.docs <==> p in w.docs) && (p in r.docs ==> r.docs[p] == w.docs[p])
      ensures (p in r.reports <==> p in w.reports) && (p in r.reports ==> r.reports[p] == w.reports[p])
    {
      PassFrame(c, seen, hidden, builders, clock, w, p);
      assert Lookup(r.docs, p) == Lookup(w.docs, p);
    }
    assert Visible(r, seen).docs == Visible(w, seen).docs;
    assert Visible(r, seen).bodies == Visible(w, seen).bodies;
  }

  lemma SameViews(v: World, w: World, hidden: set<string>, seen: Seen)
    requires Same(v, w, hidden) && seen.paths !! hidden
    ensures Visible(v, seen) == Visible(w, seen)
  {
    assert forall p | p !in hidden :: p in v.reports <==> p in Bodies(v, hidden);
    assert forall p | p !in hidden :: p in w.reports <==> p in Bodies(w, hidden);
    assert forall p | p in v.reports && p !in hidden ::
        v.reports[p].draft == Bodies(v, hidden)[p] == Bodies(w, hidden)[p] == w.reports[p].draft;
    assert Visible(v, seen).bodies == Visible(w, seen).bodies;
  }

  // ---- settled, exactly ----

  lemma {:induction false} SettledUpToStamps(c: Codec, seen: Seen, hidden: set<string>, builders: seq<Builder>,
                                             clock: Clock, v: World, w: World)
    requires Acyclic(seen, hidden, builders) && Same(v, w, hidden) && Settled(c, seen, builders, clock, v)
    ensures Settled(c, seen, builders, clock, w)
    decreases |builders|
  {
    if builders != [] {
      var b := builders[0];
      SameViews(v, w, hidden, seen);
      if !Fails(b, Visible(v, seen), v.registry) {
        if b.Evidence? {
          assert b.path in Bodies(v, hidden) && Bodies(v, hidden)[b.path] == v.reports[b.path].draft;
          assert b.path in Bodies(w, hidden) && Bodies(w, hidden)[b.path] == w.reports[b.path].draft;
        }
        SettledUpToStamps(c, seen.And(b), hidden, builders[1..], clock, v, w);
      }
    }
  }

  /** The first step of a pass over settled files changes nothing that is compared. */
  lemma SettledStep(c: Codec, seen: Seen, hidden: set<string>, builders: seq<Builder>, clock: Clock, w: World)
    requires Acyclic(seen, hidden, builders) && Settled(c, seen, builders, clock, w)
    requires builders != [] && !Fails(builders[0], Visible(w, seen), w.registry)
    ensures var b := builders[0];
            var next := Step(c, b, Visible(w, seen), clock, w);
            Same(w, next, hidden) && Settled(c, seen.And(b), builders[1..], clock, next)
  {
    var b := builders[0];
    var next := Step(c, b, Visible(w, seen), clock, w);
    assert next.docs == w.docs;
    assert Bodies(next, hidden) == Bodies(w, hidden);
    SettledUpToStamps(c, seen.And(b), hidden, builders[1..], clock, w, next);
  }

  lemma SameIsTransitive(a: World, b: World, c: World, hidden: set<string>)
    requires Same(a, b, hidden) && Same(b, c, hidden)
    ensures Same(a, c, hidden) && Same(b, a, hidden)
  {
  }

  /** A pass over settled files changes nothing but stamps and asides, and ends well if it would. */
  lemma {:induction false} SettledIsFixed(c: Codec, seen: Seen, hidden: set<string>, builders: seq<Builder>,
                                          clock: Clock, w: World)
    requires Acyclic(seen, hidden, builders) && Settled(c, seen, builders, clock, w)
    ensures Same(w, Pass(c, seen, builders, clock, w).world, hidden)
    decreases |builders|
  {
    if builders != [] {
      var b, v := builders[0], Visible(w, seen);
      if !Fails(b, v, w.registry) {
        var next := Step(c, b, v, clock, w);
        SettledStep(c, seen, hidden, builders, clock, w);
        SettledIsFixed(c, seen.And(b), hidden, builders[1..], clock, next);
        SameIsTransitive(w, next, Pass(c, seen.And(b), builders[1..], clock, next).world, hidden);
      }
    }
  }

  /** What the rest of a pass leaves of a step's output. */
  lemma StepSurvives(c: Codec, seen: Seen, hidden: set<string>, builders: seq<Builder>, clock: Clock, w: World)
    requires Acyclic(seen, hidden, builders) && builders != [] && !Fails(builders[0], Visible(w, seen), w.registry)
    ensures var b := builders[0];
            var next := Step(c, b, Visible(w, seen), clock, w);
            var r := Pass(c, seen, builders, clock, w).world;
            match b
            case Document(path, _) => path in r.docs && r.docs[path] == next.docs[path]
            case Evidence(path, _) => path in r.reports && r.reports[path] == next.reports[path]
            case Limitations(_) => r.registry == next.registry
            case Aside(_, _, _) => true
  {
    var b := builders[0];
    var next := Step(c, b, Visible(w, seen), clock, w);
    match b
    case Document(path, _) =>
      PassFrame(c, seen.And(b), hidden, builders[1..], clock, next, path);
      assert Lookup(Pass(c, seen, builders, clock, w).world.docs, path) == Some(next.docs[path]);
    case Evidence(path, _) => PassFrame(c, seen.And(b), hidden, builders[1..], clock, next, path);
    case Limitations(_) => RegistryFrame(c, seen.And(b), hidden, builders[1..], clock, next);
    case Aside(_, _, _) =>
  }

  /** If a pass changes nothing that is compared, neither did its first step. */
  lemma FixedStep(c: Codec, seen: Seen, hidden: set<string>, builders: seq<Builder>, clock: Clock, w: World)
    requires Acyclic(seen, hidden, builders) && builders != [] && !Fails(builders[0], Visible(w, seen), w.registry)
    requires Same(w, Pass(c, seen, builders, clock, w).world, hidden)
    ensures Same(w, Step(c, builders[0], Visible(w, seen), clock, w), hidden)
  {
    var b := builders[0];
    var next, r := Step(c, b, Visible(w, seen), clock, w), Pass(c, seen, builders, clock, w).world;
    StepSurvives(c, seen, hidden, builders, clock, w);
    assert next.docs == w.docs;
    if b.Evidence? {
      assert b.path in Bodies(r, hidden) && Bodies(r, hidden)[b.path] == next.reports[b.path].draft;
      assert b.path in Bodies(w, hidden) && Bodies(w, hidden)[b.path] == w.reports[b.path].draft;
    }
    assert Bodies(next, hidden) == Bodies(w, hidden);
  }

  lemma FixedSettlesAt(c: Codec, b: Builder, v: View, clock: Clock, w: World, hidden: set<string>)
    requires Lawful(c) && SoundBuilder(b) && Ticks(clock) && !Fails(b, v, w.registry)
    requires (b.Document? || b.Evidence?) ==> b.path !in hidden
    requires Same(w, Step(c, b, v, clock, w), hidden)
    ensures SettledAt(c, b, v, clock, w)
  {
    var next := Step(c, b, v, clock, w);
    match b
    case Document(path, derive) =>
      assert path in next.docs;
      WrittenIsKept(c, derive(v).value, Lookup(w.docs, path), clock(path), clock(path));
    case Evidence(path, derive) =>
      assert path in Bodies(next, hidden) && Bodies(next, hidden)[path] == derive(v).value;
      assert path in Bodies(w, hidden) && Bodies(w, hidden)[path] == w.reports[path].draft;
    case Limitations(_) =>
    case Aside(_, _, _) =>
  }

  lemma {:induction false} FixedIsSettled(c: Codec, seen: Seen, hidden: set<string>, builders: seq<Builder>,
                                          clock: Clock, w: World)
    requires Lawful(c) && Sound(builders) && Ticks(clock) && Acyclic(seen, hidden, builders)
    requires Same(w, Pass(c, seen, builders, clock, w).world, hidden)
    ensures Settled(c, seen, builders, clock, w)
    decreases |builders|
  {
    if builders != [] {
      var b, v := builders[0], Visible(w, seen);
      if !Fails(b, v, w.registry) {
        var next := Step(c, b, v, clock, w);
        var r := Pass(c, seen.And(b), builders[1..], clock, next).world;
        FixedStep(c, seen, hidden, builders, clock, w);
        FixedSettlesAt(c, b, v, clock, w, hidden);
        SameIsTransitive(w, next, next, hidden);
        SameIsTransitive(next, w, r, hidden);
        FixedIsSettled(c, seen.And(b), hidden, builders[1..], clock, next);
        SettledUpToStamps(c, seen.And(b), hidden, builders[1..], clock, next, w);
      }
    }
  }

  /** A rebuild changes nothing that is compared if and only if everything it reaches is settled. */
  lemma FixedExactlyWhenSettled(c: Codec, seen: Seen, hidden: set<string>, builders: seq<Builder>, clock: Clock,
                                w: World)
    requires Lawful(c) && Sound(builders) && Ticks(clock) && Acyclic(seen, hidden, builders)
    ensures Same(w, Pass(c, seen, builders, clock, w).world, hidden) <==> Settled(c, seen, builders, clock, w)
  {
    if Same(w, Pass(c, seen, builders, clock, w).world, hidden) {
      FixedIsSettled(c, seen, hidden, builders, clock, w);
    }
    if Settled(c, seen, builders, clock, w) {
      SettledIsFixed(c, seen, hidden, builders, clock, w);
    }
  }

  // ---- when one pass settles everything ----

  predicate Healable(registry: Option<Registry.Document>) {
    registry.Some? && registry.value.limitations.Some? ==> Registry.AllSettle(registry.value.limitations.value)
  }

  /** If the pass gets to the registry, the registry it reads there comes to its final form at once. */
  predicate ReadsSettled(c: Codec, seen: Seen, builders: seq<Builder>, clock: Clock, w: World)
    decreases |builders|
  {
    builders == [] ||
    var b, v := builders[0], Visible(w, seen);
    Fails(b, v, w.registry)
    || ((b.Limitations? ==> Healable(w.registry))
        && ReadsSettled(c, seen.And(b), builders[1..], clock, Step(c, b, v, clock, w)))
  }

  lemma StepSettles(c: Codec, seen: Seen, hidden: set<string>, builders: seq<Builder>, now: Clock, later: Clock,
                    w: World)
    requires Lawful(c) && Sound(builders) && Ticks(now) && Ticks(later) && Acyclic(seen, hidden, builders)
    requires builders != [] && !Fails(builders[0], Visible(w, seen), w.registry)
    ensures var b := builders[0];
            var r := Pass(c, seen, builders, now, w).world;
            && Visible(r, seen) == Visible(w, seen) && !Fails(b, Visible(r, seen), r.registry)
            && (SettledAt(c, b, Visible(r, seen), later, r) <==> (b.Limitations? ==> Healable(w.registry)))
  {
    var b := builders[0];
    var v := Visible(w, seen);
    assert SoundBuilder(b);
    ViewKept(c, seen, hidden, builders, now, w);
    StepSurvives(c, seen, hidden, builders, now, w);
    match b
    case Document(path, derive) =>
      WrittenIsKept(c, derive(v).value, Lookup(w.docs, path), now(path), later(path));
    case Evidence(_, _) =>
    case Limitations(own) => Registry.RebuildReachesFixedPoint(w.registry.value, own);
    case Aside(_, _, _) =>
  }

  /** After a pass, from any files whatever, every output it reached is settled at any later time, if and
      only if the registry it read comes to its final form at once. */
  lemma {:induction false} PassSettles(c: Codec, seen: Seen, hidden: set<string>, builders: seq<Builder>,
                                       now: Clock, later: Clock, w: World)
    requires Lawful(c) && Sound(builders) && Ticks(now) && Ticks(later) && Acyclic(seen, hidden, builders)
    ensures Settled(c, seen, builders, later, Pass(c, seen, builders, now, w).world)
            <==> ReadsSettled(c, seen, builders, now, w)
    decreases |builders|
  {
    if builders != [] {
      var b, v := builders[0], Visible(w, seen);
      if !Fails(b, v, w.registry) {
        StepSettles(c, seen, hidden, builders, now, later, w);
        PassSettles(c, seen.And(b), hidden, builders[1..], now, later, Step(c, b, v, now, w));
      }
    }
  }

  /** How a pass ends depends on what it leaves, not on where it began. */
  lemma {:induction false} SameEnding(c: Codec, seen: Seen, hidden: set<string>, builders: seq<Builder>,
                                      now: Clock, later: Clock, w: World, v: World)
    requires Lawful(c) && Sound(builders) && Ticks(now) && Ticks(later) && Acyclic(seen, hidden, builders)
    requires Same(Pass(c, seen, builders, now, w).world, v, hidden) && Settled(c, seen, builders, later, v)
    ensures Pass(c, seen, builders, later, v).ok == Pass(c, seen, builders, now, w).ok
    decreases |builders|
  {
    if builders != [] {
      var b := builders[0];
      var r := Pass(c, seen, builders, now, w).world;
      ViewKept(c, seen, hidden, builders, now, w);
      SameViews(r, v, hidden, seen);
      if !Fails(b, Visible(w, seen), w.registry) {
        StepSettles(c, seen, hidden, builders, now, later, w);
        SettledStep(c, seen, hidden, builders, later, v);
        var again := Step(c, b, Visible(v, seen), later, v);
        SameIsTransitive(r, v, again, hidden);
        SameEnding(c, seen.And(b), hidden, builders[1..], now, later, Step(c, b, Visible(w, seen), now, w), again);
      }
    }
  }

  /** One-pass convergence, exactly: whatever the files were, and whatever the clock says the second time,
      a second rebuild leaves every document byte-identical, the registry and the evidence bodies as they
      are, if and only if the registry the first one read comes to its final form at once. Then it also
      ends as the first did. */
  lemma OnePassConvergence(c: Codec, seen: Seen, hidden: set<string>, builders: seq<Builder>,
                           now: Clock, later: Clock, w: World)
    requires Lawful(c) && Sound(builders) && Ticks(now) && Ticks(later) && Acyclic(seen, hidden, builders)
    ensures var first := Pass(c, seen, builders, now, w);
            var second := Pass(c, seen, builders, later, first.world);
            && (Same(first.world, second.world, hidden) <==> ReadsSettled(c, seen, builders, now, w))
            && (ReadsSettled(c, seen, builders, now, w) ==> second.ok == first.ok)
  {
    var first := Pass(c, seen, builders, now, w);
    PassSettles(c, seen, hidden, builders, now, later, w);
    FixedExactlyWhenSettled(c, seen, hidden, builders, later, first.world);
    if ReadsSettled(c, seen, builders, now, w) {
      SameEnding(c, seen, hidden, builders, now, later, w, first.world);
    }
  }

  // ---- the registry on its own ----

  lemma {:induction false} HealableReads(c: Codec, seen: Seen, hidden: set<string>, builders: seq<Builder>,
                                         clock: Clock, w: World)
    requires Acyclic(seen, hidden, builders) && (!seen.registry ==> Healable(w.registry))
    ensures ReadsSettled(c, seen, builders, clock, w)
    decreases |builders|
  {
    if builders != [] {
      var b, v := builders[0], Visible(w, seen);
      if !Fails(b, v, w.registry) {
        HealableReads(c, seen.And(b), hidden, builders[1..], clock, Step(c, b, v, clock, w));
      }
    }
  }

  /** A pass that ends well over a list with the registry builder rebuilds the registry it found, and
      settles exactly when that one was healable. */
  lemma {:induction false} RegistryRebuilt(c: Codec, seen: Seen, hidden: set<string>, builders: seq<Builder>,
                                           clock: Clock, w: World, k: nat)
    requires Acyclic(seen, hidden, builders) && Pass(c, seen, builders, clock, w).ok
    requires k < |builders| && builders[k].Limitations?
    ensures !seen.registry && w.registry.Some? && Registry.Built(w.registry.value, builders[k].own).Some?
    ensures Pass(c, seen, builders, clock, w).world.registry == Registry.Built(w.registry.value, builders[k].own)
    ensures ReadsSettled(c, seen, builders, clock, w) <==> Healable(w.registry)
    decreases |builders|
  {
    var b, v := builders[0], Visible(w, seen);
    var next := Step(c, b, v, clock, w);
    if k == 0 {
      RegistryFrame(c, seen.And(b), hidden, builders[1..], clock, next);
      HealableReads(c, seen.And(b), hidden, builders[1..], clock, next);
    } else {
      RegistryRebuilt(c, seen.And(b), hidden, builders[1..], clock, next, k - 1);
    }
  }

  /** From the second rebuild on nothing changes any more, whatever the first one read. */
  lemma ThirdPassIsFixed(c: Codec, seen: Seen, hidden: set<string>, builders: seq<Builder>,
                         clock1: Clock, clock2: Clock, clock3: Clock, w: World, k: nat)
    requires Lawful(c) && Sound(builders) && Ticks(clock1) && Ticks(clock2) && Ticks(clock3)
    requires Acyclic(seen, hidden, builders) && k < |builders| && builders[k].Limitations?
    requires Pass(c, seen, builders, clock1, w).ok
    ensures var second := Pass(c, seen, builders, clock2, Pass(c, seen, builders, clock1, w).world);
            var third := Pass(c, seen, builders, clock3, second.world);
            Same(second.world, third.world, hidden) && third.ok == second.ok
  {
    var first := Pass(c, seen, builders, clock1, w);
    RegistryRebuilt(c, seen, hidden, builders, clock1, w, k);
    BuiltIsHealable(w.registry.value, builders[k].own) by { assert SoundBuilder(builders[k]); }
    HealableReads(c, seen, hidden, builders, clock2, first.world);
    OnePassConvergence(c, seen, hidden, builders, clock2, clock3, first.world);
  }

  lemma BuiltIsHealable(doc: Registry.Document, own: seq<Registry.Entry>)
    requires Registry.OwnEntries(own) && Registry.Built(doc, own).Some?
    ensures Healable(Registry.Built(doc, own))
  {
    Registry.RebuildReachesFixedPoint(doc, own);
    Registry.RebuildReachesFixedPoint(Registry.Built(doc, own).value, own);
  }
}
