/** The limitation registry, which its builder both reads and writes: entries of the builder's own
    making are dropped and re-added, references are moved to the current run, and three descriptions
    are healed so that they end in exactly one copy of a note. */
module Registry {
  import opened Contract
  import opened Text

  /** An identifier: "LIM-" and a three-digit number, or any other text. */
  datatype Id = Lim(number: nat) | Other(text: string)

  /** One limitation. A field is None when the record lacks its key; `rest` is every other field. */
  datatype Entry = Entry(id: Option<Id>, description: Option<string>, references: Option<seq<string>>,
                         rest: map<string, string>)

  datatype Document = Document(version: Option<string>, kind: Option<string>, policy: Option<string>,
                               limitations: Option<seq<Entry>>)

  predicate CertifiedId(id: Id) {
    id.Lim? && 1 <= id.number <= 11
  }

  predicate OwnId(id: Id) {
    id.Lim? && 12 <= id.number <= 16
  }

  predicate HealedId(id: Id) {
    id in {Lim(1), Lim(8), Lim(9)}
  }

  const NOTE_TEXT := " Re-proven by the " + ("2026-09-19 hardened-" + ("release regression " + ("(fresh dual-run, " +
    ("peak RSS 2365.29 MB, " + ("pass2 bulk CSVs " + ("reclaimed after the " + "byte-identity proof"))))))
  const NOTE := NOTE_TEXT + ")."

  const OLD_RUN := "evidence/" + ("validation/" + ("2026-09-18/" + "fresh_3m2/harness"))
  const NEW_RUN := "evidence/" + ("validation/" + ("2026-09-19/" + "fresh_3m2"))

  // ---- healing a description ----

  lemma {:induction false} RStripShrinks(s: string)
    ensures RStrip(s) <= s
  {
    var pad := RStripSplit(s);
    assert s == RStrip(s) + pad;
  }

  lemma ContainsExactly(s: string, pat: string)
    ensures Contains(s, pat) <==> FindFrom(s, pat, 0) != -1
  {
  }

  /** One turn of the healing loop. */
  function Cut(desc: string, note: string): (r: string)
    requires note != ""
    ensures Contains(desc, note) ==> |r| < |desc|
  {
    ContainsExactly(desc, note);
    RStripShrinks(ReplaceFirst(desc, note, ""));
    RStrip(ReplaceFirst(desc, note, ""))
  }

  function Peeled(desc: string, note: string): string
    requires note != ""
    decreases |desc|
  {
    if Contains(desc, note) then Peeled(Cut(desc, note), note) else desc
  }

  function Healed(desc: string, note: string): string
    requires note != ""
  {
    Peeled(desc, note) + note
  }

  /** The healing loop. */
  method Heal(desc: string, note: string) returns (r: string)
    requires note != ""
    ensures r == Healed(desc, note)
  {
    var d := desc;
    while Contains(d, note)
      invariant Peeled(d, note) == Peeled(desc, note)
      decreases |d|
    {
      d := Cut(d, note);
    }
    r := d + note;
  }

  /** No proper part of the note both starts and ends it. */
  ghost predicate Borderless(note: string) {
    forall k | 0 < k < |note| :: note[k..] != note[..|note| - k]
  }

  predicate Lacks(s: string, c: char) {
    forall i | 0 <= i < |s| :: s[i] != c
  }

  lemma NoteParenthesis()
    ensures NOTE_TEXT != "" && NOTE_TEXT[0] == ' ' && Lacks(NOTE_TEXT, ')')
  {
    assert Lacks(" Re-proven by the ", ')') && " Re-proven by the "[0] == ' ';
    assert Lacks("2026-09-19 hardened-", ')');
    assert Lacks("release regression ", ')');
    assert Lacks("(fresh dual-run, ", ')');
    assert Lacks("peak RSS 2365.29 MB, ", ')');
    assert Lacks("pass2 bulk CSVs ", ')');
    assert Lacks("reclaimed after the ", ')');
    assert Lacks("byte-identity proof", ')');
  }

  lemma NoteIsBorderless()
    ensures Borderless(NOTE) && NOTE != ""
  {
    NoteParenthesis();
    NoBorder(NOTE_TEXT);
  }

  lemma NoBorder(text: string)
    requires text != "" && text[0] == ' ' && Lacks(text, ')')
    ensures Borderless(text + ").")
  {
    var n := text + ").";
    forall k | 0 < k < |n|
      ensures n[k..] != n[..|n| - k]
    {
      var l := |n| - k;
      var tail, head := n[k..], n[..l];
      assert tail[l - 1] == '.' && head[l - 1] == n[l - 1];
      assert l > 1 ==> tail[l - 2] == ')' && head[l - 2] == n[l - 2] == text[l - 2];
    }
  }

  lemma {:induction false} PeeledHasNoNote(desc: string, note: string)
    requires note != ""
    ensures !Contains(Peeled(desc, note), note)
    decreases |desc|
  {
    if Contains(desc, note) {
      PeeledHasNoNote(Cut(desc, note), note);
    }
  }

  /** Where a copy of the note starts k characters before the appended one, the two share the rest. */
  lemma Overlap(d: string, note: string, p: nat, k: int)
    requires OccursAt(note, d + note, p) && k == |d| - p
    ensures 0 < k < |note| ==> note[k..] == note[..|note| - k]
  {
  }

  /** A borderless note appended to text without it occurs only where it was appended. */
  lemma OnlyAtEnd(d: string, note: string, p: nat)
    requires Borderless(note) && !Contains(d, note) && OccursAt(note, d + note, p)
    ensures p == |d|
  {
    assert p + |note| <= |d| ==> (d + note)[p..p + |note|] == d[p..p + |note|];
    assert p + |note| <= |d| ==> OccursAt(note, d, p);
    Overlap(d, note, p, |d| - p);
  }

  /** A healed description ends in the note and holds it nowhere else. */
  lemma HealedOnce(desc: string, note: string, p: nat)
    requires Borderless(note) && note != ""
    ensures OccursAt(note, Healed(desc, note), p) <==> p == |Healed(desc, note)| - |note|
  {
    PeeledHasNoNote(desc, note);
    var d := Peeled(desc, note);
    assert (d + note)[|d|..|d| + |note|] == note;
    if OccursAt(note, d + note, p) {
      OnlyAtEnd(d, note, p);
    }
  }

  lemma CutAppended(d: string, note: string)
    requires Borderless(note) && note != "" && !Contains(d, note)
    ensures Contains(d + note, note) && Cut(d + note, note) == RStrip(d)
  {
    var t := d + note;
    assert t[|d|..|d| + |note|] == note;
    assert OccursAt(note, t, |d|);
    var p := FindFrom(t, note, 0);
    OnlyAtEnd(d, note, p);
    assert t[..p] + "" + t[p + |note|..] == d;
  }

  lemma PrefixHasNoNote(d: string, e: string, note: string)
    requires e <= d && !Contains(d, note)
    ensures !Contains(e, note)
  {
    forall p: nat | p <= |e|
      ensures !OccursAt(note, e, p)
    {
      assert !OccursAt(note, d, p);
      assert p + |note| <= |e| ==> d[p..p + |note|] == e[p..p + |note|];
    }
  }

  /** Healing again keeps one note and drops blanks in front of it. */
  lemma HealedAgain(desc: string, note: string)
    requires Borderless(note) && note != ""
    ensures Peeled(Healed(desc, note), note) == RStrip(Peeled(desc, note))
  {
    PeeledHasNoNote(desc, note);
    var d := Peeled(desc, note);
    CutAppended(d, note);
    RStripShrinks(d);
    PrefixHasNoNote(d, RStrip(d), note);
    assert Peeled(RStrip(d), note) == RStrip(d);
  }

  /** No blank at the end. */
  predicate Tidy(s: string) {
    s == "" || !IsSpace(s[|s| - 1])
  }

  lemma {:induction false} PeeledTidy(desc: string, note: string)
    requires note != ""
    ensures Tidy(Peeled(desc, note)) <==> Contains(desc, note) || Tidy(desc)
    decreases |desc|
  {
    if Contains(desc, note) {
      var pad := RStripSplit(ReplaceFirst(desc, note, ""));
      PeeledTidy(Cut(desc, note), note);
    }
  }

  /** Healing is idempotent at once exactly when the description holds the note or has no blank at
      its end, and in every case from the second time on. */
  lemma HealedFixed(desc: string, note: string)
    requires Borderless(note) && note != ""
    ensures Healed(Healed(desc, note), note) == Healed(desc, note) <==> Contains(desc, note) || Tidy(desc)
    ensures Healed(Healed(Healed(desc, note), note), note) == Healed(Healed(desc, note), note)
  {
    var d, once := Peeled(desc, note), Healed(desc, note);
    HealedAgain(desc, note);
    PeeledTidy(desc, note);
    var pad := RStripSplit(d);
    assert Tidy(d) ==> RStrip(d) == d;
    assert !Tidy(d) ==> RStrip(d) + note != d + note by {
      if !Tidy(d) {
        RStripShrinks(d[..|d| - 1]);
        assert |RStrip(d)| < |d|;
      }
    }
    HealedAgain(once, note);
    assert RStrip(RStrip(d)) == RStrip(d);
  }

  // ---- moving references ----

  /** `s.replace(pat, with)` */
  function ReplaceAll(s: string, pat: string, with: string): string
    requires pat != ""
    decreases |s|
  {
    var p := FindFrom(s, pat, 0);
    if p == -1 then s else s[..p] + (with + ReplaceAll(s[p + |pat|..], pat, with))
  }

  lemma RunNames()
    ensures |OLD_RUN| == 48 && |NEW_RUN| == 40
    ensures OLD_RUN[0] == NEW_RUN[0] == 'e' && OLD_RUN[1] == NEW_RUN[1] == 'v'
    ensures OLD_RUN[47] == 's' && NEW_RUN[39] == '2' && OLD_RUN[29] == '8' && NEW_RUN[29] == '9'
    ensures OLD_RUN[8] == NEW_RUN[8] == '/'
    ensures forall i | 2 <= i < 48 :: OLD_RUN[i] == 'v' ==> i == 9
    ensures forall i | 2 <= i < 40 :: NEW_RUN[i] == 'v' ==> i == 9
  {
  }

  predicate Bigram(s: string, i: nat) {
    i + 1 < |s| && s[i] == 'e' && s[i + 1] == 'v'
  }

  /** The two letters that start it start nothing else in it, and its last is not the first of them. */
  predicate StartsApart(s: string) {
    |s| > 30 && Bigram(s, 0) && s[|s| - 1] != 'e' && forall i | 1 <= i < |s| :: !Bigram(s, i)
  }

  lemma RunsApart()
    ensures StartsApart(OLD_RUN) && StartsApart(NEW_RUN) && OLD_RUN[29] != NEW_RUN[29]
  {
    RunNames();
  }

  lemma CopyStarts(s: string, pat: string, q: nat)
    requires OccursAt(pat, s, q) && StartsApart(pat)
    ensures forall i | 0 <= i < |pat| :: s[q + i] == pat[i]
    ensures Bigram(s, q)
  {
  }

  /** After a replacement of one such name by another, the old one occurs nowhere. */
  lemma {:induction false} ReplacedHasNone(s: string, old_: string, new_: string)
    requires StartsApart(old_) && StartsApart(new_) && old_[29] != new_[29]
    ensures !Contains(ReplaceAll(s, old_, new_), old_)
    decreases |s|
  {
    var p := FindFrom(s, old_, 0);
    if p == -1 {
      ContainsExactly(s, old_);
    } else {
      var tail := ReplaceAll(s[p + |old_|..], old_, new_);
      ReplacedHasNone(s[p + |old_|..], old_, new_);
      JoinHasNone(s, p, tail, old_, new_);
    }
  }

  lemma JoinHasNone(s: string, p: nat, tail: string, old_: string, new_: string)
    requires StartsApart(old_) && StartsApart(new_) && old_[29] != new_[29]
    requires p <= |s| && OccursAt(old_, s, p) && (forall q: nat | q < p :: !OccursAt(old_, s, q))
    requires !Contains(tail, old_)
    ensures !Contains(s[..p] + (new_ + tail), old_)
  {
    var r := s[..p] + (new_ + tail);
    forall q: nat | q <= |r|
      ensures !OccursAt(old_, r, q)
    {
      var e := p + |new_|;
      assert forall i | 0 <= i < |new_| :: r[p + i] == new_[i];
      if q + |old_| <= p {
        assert !OccursAt(old_, s, q);
        assert r[q..q + |old_|] == s[q..q + |old_|];
      } else if q >= e {
        assert q + |old_| <= |r| ==> r[q..q + |old_|] == tail[q - e..q - e + |old_|];
        assert !OccursAt(old_, tail, q - e);
      } else {
        Straddles(r, p, q, old_, new_);
      }
    }
  }

  lemma Straddles(r: string, p: nat, q: nat, old_: string, new_: string)
    requires StartsApart(old_) && StartsApart(new_) && old_[29] != new_[29]
    requires p + |new_| <= |r| && forall i | 0 <= i < |new_| :: r[p + i] == new_[i]
    requires p < q + |old_| && q < p + |new_|
    ensures !OccursAt(old_, r, q)
  {
    assert Bigram(new_, 0) && (q > p ==> !Bigram(new_, q - p));
    assert q < p ==> !Bigram(old_, p - q);
    if OccursAt(old_, r, q) {
      CopyStarts(r, old_, q);
    }
  }

  lemma {:induction false} ReplaceAbsent(s: string, pat: string, by_: string)
    requires pat != "" && !Contains(s, pat)
    ensures ReplaceAll(s, pat, by_) == s
  {
  }

  function Moved(reference: string): string {
    ReplaceAll(reference, OLD_RUN, NEW_RUN)
  }

  /** Moving a reference to the current run twice is moving it once. */
  lemma MovedTwice(reference: string)
    ensures Moved(Moved(reference)) == Moved(reference)
  {
    RunsApart();
    ReplacedHasNone(reference, OLD_RUN, NEW_RUN);
    ReplaceAbsent(Moved(reference), OLD_RUN, NEW_RUN);
  }

  // ---- the builder ----

  predicate Certified(e: Entry) {
    e.id.Some? && CertifiedId(e.id.value)
  }

  predicate Own(e: Entry) {
    e.id.Some? && OwnId(e.id.value)
  }

  predicate ToHeal(e: Entry) {
    e.id.Some? && HealedId(e.id.value)
  }

  /** The record can be processed: a healed entry needs its description. */
  predicate Usable(e: Entry) {
    ToHeal(e) ==> e.description.Some?
  }

  function MoveAll(references: seq<string>): seq<string> {
    seq(|references|, i requires 0 <= i < |references| => Moved(references[i]))
  }

  function Refreshed(e: Entry): Entry
    requires Usable(e)
  {
    var references := MoveAll(if e.references.Some? then e.references.value else []);
    var moved := e.(references := Some(references));
    if ToHeal(e) then moved.(description := Some(Healed(e.description.value, NOTE))) else moved
  }

  /** The loop over the registry read: None when the builder stops, on an identifier it does not
      know or a description it cannot find. */
  function Inherited(entries: seq<Entry>): Option<seq<Entry>> {
    if entries == [] then Some([])
    else
      var e := entries[0];
      var rest := Inherited(entries[1..]);
      if Own(e) then rest
      else if !Certified(e) || !Usable(e) || rest.None? then None
      else Some([Refreshed(e)] + rest.value)
  }

  function Prepended(done: seq<Entry>, rest: Option<seq<Entry>>): Option<seq<Entry>> {
    if rest.None? then None else Some(done + rest.value)
  }

  /** The builder's own five entries. */
  predicate OwnEntries(own: seq<Entry>) {
    |own| == 5 && forall i | 0 <= i < |own| :: own[i].id == Some(Lim(12 + i))
  }

  function Built(doc: Document, own: seq<Entry>): Option<Document> {
    if doc.limitations.None? || Inherited(doc.limitations.value).None? || doc.kind.None? || doc.policy.None? then None
    else Some(Document(Some("1.1.0"), doc.kind, doc.policy, Some(Inherited(doc.limitations.value).value + own)))
  }

  method RefreshEntry(e: Entry) returns (entry: Entry)
    requires Usable(e)
    ensures entry == Refreshed(e)
  {
    var references := MoveAll(if e.references.Some? then e.references.value else []);
    entry := e.(references := Some(references));
    if ToHeal(e) {
      var description := Heal(e.description.value, NOTE);
      entry := entry.(description := Some(description));
    }
  }

  /** The loop over the entries read. */
  method Inherit(entries: seq<Entry>) returns (inherited: Option<seq<Entry>>)
    ensures inherited == Inherited(entries)
  {
    var i, done := 0, [];
    assert entries[0..] == entries;
    assert Inherited(entries).Some? ==> done + Inherited(entries).value == Inherited(entries).value;
    while i < |entries|
      invariant 0 <= i <= |entries|
      invariant Inherited(entries) == Prepended(done, Inherited(entries[i..]))
    {
      var e := entries[i];
      assert entries[i..][1..] == entries[i + 1..] && entries[i..][0] == e;
      if !Own(e) {
        if !Certified(e) || !Usable(e) {
          return None;
        }
        var entry := RefreshEntry(e);
        ghost var rest := Inherited(entries[i + 1..]);
        assert rest.Some? ==> done + ([entry] + rest.value) == done + [entry] + rest.value;
        done := done + [entry];
      }
      i := i + 1;
    }
    assert entries[i..] == [] && done + [] == done;
    inherited := Some(done);
  }

  /** `build_limitations`, over the registry file it reads and writes. */
  class RegistryFile {
    var content: Document

    constructor (content: Document)
      ensures this.content == content
    {
      this.content := content;
    }

    method BuildLimitations(own: seq<Entry>) returns (inherited: Option<seq<Entry>>)
      modifies this
      ensures Built(old(content), own).None? ==> inherited.None? && content == old(content)
      ensures Built(old(content), own).Some? ==>
                && inherited == Inherited(old(content).limitations.value)
                && content == Built(old(content), own).value
    {
      if content.limitations.None? {
        return None;
      }
      inherited := Inherit(content.limitations.value);
      if inherited.None? || content.kind.None? || content.policy.None? {
        return None;
      }
      content := Document(Some("1.1.0"), content.kind, content.policy, Some(inherited.value + own));
    }
  }

  // ---- rebuilding from one's own output ----

  /** A description that one build brings to its final form. */
  predicate Settles(e: Entry) {
    ToHeal(e) && e.description.Some? ==> Contains(e.description.value, NOTE) || Tidy(e.description.value)
  }

  lemma MoveAllTwice(references: seq<string>)
    ensures MoveAll(MoveAll(references)) == MoveAll(references)
  {
    forall i | 0 <= i < |references|
      ensures Moved(Moved(references[i])) == Moved(references[i])
    {
      MovedTwice(references[i]);
    }
  }

  lemma RefreshedAgain(e: Entry)
    requires Usable(e)
    ensures Refreshed(Refreshed(e)) == Refreshed(e) <==> Settles(e)
    ensures Refreshed(Refreshed(Refreshed(e))) == Refreshed(Refreshed(e))
  {
    MoveAllTwice(if e.references.Some? then e.references.value else []);
    NoteIsBorderless();
    if ToHeal(e) {
      HealedFixed(e.description.value, NOTE);
    }
  }

  predicate AllInherited(entries: seq<Entry>) {
    forall i | 0 <= i < |entries| :: Certified(entries[i]) && Usable(entries[i])
  }

  function RefreshAll(entries: seq<Entry>): (r: seq<Entry>)
    requires AllInherited(entries)
    ensures AllInherited(r)
  {
    seq(|entries|, i requires 0 <= i < |entries| => Refreshed(entries[i]))
  }

  lemma {:induction false} InheritedIsRefreshed(entries: seq<Entry>, k: nat)
    requires Inherited(entries).Some? && k < |Inherited(entries).value|
    ensures exists i :: 0 <= i < |entries| && Certified(entries[i]) && Usable(entries[i])
                        && Inherited(entries).value[k] == Refreshed(entries[i])
  {
    var e, rest := entries[0], entries[1..];
    var k' := if Own(e) then k else k - 1;
    if k' >= 0 {
      InheritedIsRefreshed(rest, k');
      var i :| 0 <= i < |rest| && Certified(rest[i]) && Usable(rest[i])
               && Inherited(rest).value[k'] == Refreshed(rest[i]);
      assert entries[i + 1] == rest[i];
    }
  }

  lemma InheritedAll(entries: seq<Entry>)
    requires Inherited(entries).Some?
    ensures AllInherited(Inherited(entries).value)
  {
    var r := Inherited(entries).value;
    forall k | 0 <= k < |r|
      ensures Certified(r[k]) && Usable(r[k])
    {
      InheritedIsRefreshed(entries, k);
    }
  }

  /** A build over inherited entries and the builder's own inherits the former, refreshed. */
  lemma {:induction false} InheritsOutput(r: seq<Entry>, own: seq<Entry>)
    requires AllInherited(r) && OwnEntries(own)
    ensures Inherited(r + own) == Some(RefreshAll(r))
  {
    if r == [] {
      DropsOwn(own);
      assert r + own == own;
    } else {
      InheritsOutput(r[1..], own);
      assert (r + own)[0] == r[0] && (r + own)[1..] == r[1..] + own;
      assert RefreshAll(r) == [Refreshed(r[0])] + RefreshAll(r[1..]);
    }
  }

  lemma RefreshedTwice(entries: seq<Entry>)
    requires Inherited(entries).Some? && AllInherited(Inherited(entries).value)
    ensures var r := Inherited(entries).value; RefreshAll(RefreshAll(r)) == RefreshAll(r)
  {
    var r := Inherited(entries).value;
    forall k | 0 <= k < |r|
      ensures Refreshed(Refreshed(r[k])) == Refreshed(r[k])
    {
      InheritedIsRefreshed(entries, k);
      var i :| 0 <= i < |entries| && Certified(entries[i]) && Usable(entries[i]) && r[k] == Refreshed(entries[i]);
      RefreshedAgain(entries[i]);
    }
  }

  predicate AllSettle(entries: seq<Entry>) {
    forall i | 0 <= i < |entries| :: Certified(entries[i]) ==> Settles(entries[i])
  }

  lemma {:induction false} RefreshedAtOnce(entries: seq<Entry>)
    requires Inherited(entries).Some? && AllInherited(Inherited(entries).value)
    ensures var r := Inherited(entries).value; RefreshAll(r) == r <==> AllSettle(entries)
  {
    var r := Inherited(entries).value;
    if entries != [] {
      var e, rest := entries[0], entries[1..];
      var s := Inherited(rest).value;
      InheritedAll(rest);
      RefreshedAtOnce(rest);
      assert AllSettle(entries) <==> (Certified(e) ==> Settles(e)) && AllSettle(rest) by {
        assert entries == [e] + rest;
      }
      if !Own(e) {
        RefreshedAgain(e);
        HeadAndTail(Refreshed(e), s);
      }
    }
  }

  lemma HeadAndTail(f: Entry, s: seq<Entry>)
    requires Usable(f) && AllInherited([f] + s) && AllInherited(s)
    ensures RefreshAll([f] + s) == [f] + s <==> Refreshed(f) == f && RefreshAll(s) == s
  {
    var l := [f] + s;
    assert l[0] == f && l[1..] == s;
    assert RefreshAll(l)[0] == Refreshed(f) && RefreshAll(l)[1..] == RefreshAll(s);
  }

  lemma {:induction false} DropsOwn(own: seq<Entry>)
    requires forall i | 0 <= i < |own| :: Own(own[i])
    ensures Inherited(own) == Some([])
  {
    if own != [] {
      DropsOwn(own[1..]);
    }
  }

  /** Building from one's own output never stops. It gives the same registry if and only if each
      inherited description that is healed held the note or had no blank at its end; and from the
      second build on it always does. */
  lemma RebuildReachesFixedPoint(doc: Document, own: seq<Entry>)
    requires OwnEntries(own) && Built(doc, own).Some?
    ensures var once := Built(doc, own).value;
            && Built(once, own).Some?
            && (Built(once, own).value == once <==> AllSettle(doc.limitations.value))
            && Built(Built(once, own).value, own) == Built(once, own)
  {
    var entries := doc.limitations.value;
    var r := Inherited(entries).value;
    InheritedAll(entries);
    InheritsOutput(r, own);
    RefreshedAtOnce(entries);
    RefreshedTwice(entries);
    var once := Built(doc, own).value;
    var twice := Built(once, own).value;
    assert twice.limitations.value == RefreshAll(r) + own;
    assert RefreshAll(r) + own == r + own <==> RefreshAll(r) == r by {
      assert (RefreshAll(r) + own)[..|r|] == RefreshAll(r) && (r + own)[..|r|] == r;
    }
    InheritsOutput(RefreshAll(r), own);
  }

  function Occurrences(entries: seq<Entry>, id: Id): nat {
    if entries == [] then 0 else (if entries[0].id == Some(id) then 1 else 0) + Occurrences(entries[1..], id)
  }

  lemma {:induction false} OccurrencesAppend(a: seq<Entry>, b: seq<Entry>, id: Id)
    ensures Occurrences(a + b, id) == Occurrences(a, id) + Occurrences(b, id)
  {
    if a == [] {
      assert a + b == b;
    } else {
      assert (a + b)[1..] == a[1..] + b;
      OccurrencesAppend(a[1..], b, id);
    }
  }

  lemma {:induction false} InheritedOccurrences(entries: seq<Entry>, id: Id)
    requires Inherited(entries).Some?
    ensures Occurrences(Inherited(entries).value, id) == if CertifiedId(id) then Occurrences(entries, id) else 0
  {
    if entries != [] {
      InheritedOccurrences(entries[1..], id);
    }
  }

  /** Each certified limitation appears as often as it was read, each of the builder's own exactly
      once, and nothing else at all: duplicates are never made. */
  lemma IdentifiersConserved(doc: Document, own: seq<Entry>, id: Id)
    requires OwnEntries(own) && Built(doc, own).Some?
    ensures Occurrences(Built(doc, own).value.limitations.value, id)
            == if CertifiedId(id) then Occurrences(doc.limitations.value, id)
               else if OwnId(id) then 1 else 0
  {
    InheritedOccurrences(doc.limitations.value, id);
    OccurrencesAppend(Inherited(doc.limitations.value).value, own, id);
    OwnOccurrencesFrom(own, id, 0);
    assert own[0..] == own;
  }

  lemma {:induction false} OwnOccurrencesFrom(own: seq<Entry>, id: Id, i: nat)
    requires OwnEntries(own) && i <= 5
    ensures Occurrences(own[i..], id) == if id.Lim? && 12 + i <= id.number <= 16 then 1 else 0
    decreases 5 - i
  {
    if i < 5 {
      OwnOccurrencesFrom(own, id, i + 1);
      assert own[i..][1..] == own[i + 1..];
    }
  }

  /** The builder stops exactly on a record without list, type or policy, an unknown identifier, or
      a certified entry to be healed that has no description. */
  lemma {:induction false} StopsExactly(entries: seq<Entry>)
    ensures Inherited(entries).Some? <==> forall i | 0 <= i < |entries| ::
              Own(entries[i]) || (Certified(entries[i]) && Usable(entries[i]))
  {
    if entries != [] {
      StopsExactly(entries[1..]);
      assert entries == [entries[0]] + entries[1..];
    }
  }

  /** Every healed entry of a build ends in the note and holds it nowhere else; no reference in any
      inherited entry names the old run. */
  lemma {:induction false} BuildIsHealed(entries: seq<Entry>, k: nat, p: nat)
    requires Inherited(entries).Some? && k < |Inherited(entries).value|
    ensures var e := Inherited(entries).value[k];
            && (ToHeal(e) ==>
                  e.description.Some?
                  && (OccursAt(NOTE, e.description.value, p) <==> p == |e.description.value| - |NOTE|))
            && e.references.Some?
            && (p < |e.references.value| ==> !Contains(e.references.value[p], OLD_RUN))
  {
    var e := entries[0];
    if Own(e) {
      BuildIsHealed(entries[1..], k, p);
    } else if k > 0 {
      BuildIsHealed(entries[1..], k - 1, p);
    } else {
      NoteIsBorderless();
      if ToHeal(e) {
        HealedOnce(e.description.value, NOTE, p);
      }
      var read := if e.references.Some? then e.references.value else [];
      if p < |read| {
        RunsApart();
        ReplacedHasNone(read[p], OLD_RUN, NEW_RUN);
      }
    }
  }
}
