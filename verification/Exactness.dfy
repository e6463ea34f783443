/** What a clean verification means, in both directions. */
module Exactness {
  import opened Text
  import opened Contract
  import opened Rows
  import opened Lockstep

  /** The output row is the input row with the oracle's flags. */
  ghost predicate Enriches(c: Checker, src: Row, dst: Row) {
    && AgreeOn(c.source, src, dst)
    && forall f: Flag :: Get(dst, FlagColumn(f)) == Some(BitText(c.oracle(src).At(f)))
  }

  /** The first n output rows enrich the first n input rows, whose ids are 1..n. */
  ghost predicate EnrichedPrefix(c: Checker, input: Table, output: Table, n: nat)
    requires n <= |input.rows| && n <= |output.rows|
  {
    && (forall i | 0 <= i < n :: Get(input.rows[i], Id) == Some(Decimal(i + 1)))
    && (forall i | 0 <= i < n :: Enriches(c, input.rows[i], output.rows[i]))
  }

  /** The output is the enrichment of the input, up to one surplus input row. */
  ghost predicate Faithful(c: Checker, input: Table, output: Table, rows: int) {
    && input.header == c.source && output.header == c.OutputColumns()
    && |output.rows| == rows
    && rows <= |input.rows| <= rows + 1
    && EnrichedPrefix(c, input, output, rows)
  }

  // ---- from the recursive counters to statements about all rows ----

  lemma {:induction false} AllIdentityMeans(input: Table, output: Table, n: nat)
    requires n <= |input.rows| && n <= |output.rows|
    ensures AllIdentity(input, output, n) <==>
            forall i | 0 <= i < n :: IdentityAt(input.rows[i], output.rows[i], i + 1)
  {
    if n > 0 {
      AllIdentityMeans(input, output, n - 1);
      assert AllIdentity(input, output, n) <==>
             AllIdentity(input, output, n - 1) && IdentityAt(input.rows[n - 1], output.rows[n - 1], n - 1 + 1);
    }
  }

  lemma {:induction false} AllPreservedMeans(c: Checker, input: Table, output: Table, n: nat)
    requires n <= |input.rows| && n <= |output.rows|
    ensures AllPreserved(c, input, output, n) <==>
            forall i | 0 <= i < n :: AgreeOn(c.source, input.rows[i], output.rows[i])
  {
    if n > 0 { AllPreservedMeans(c, input, output, n - 1); }
  }

  lemma {:induction false} AllInDomainMeans(c: Checker, output: Table, n: nat)
    requires n <= |output.rows|
    ensures AllInDomain(c, output, n) <==> forall i | 0 <= i < n :: FlagsInDomain(c.flags, output.rows[i])
  {
    if n > 0 { AllInDomainMeans(c, output, n - 1); }
  }

  predicate FlagsMatch(flags: Flags, dst: Row, order: seq<Flag>, k: nat)
    requires k <= |order|
  {
    forall i | 0 <= i < k :: Get(dst, FlagColumn(order[i])) == Some(BitText(flags.At(order[i])))
  }

  lemma {:induction false} NoRowMismatch(flags: Flags, dst: Row, pos: nat, order: seq<Flag>, k: nat)
    requires k <= |order|
    ensures RowMismatches(flags, dst, pos, order, k) == [] <==> FlagsMatch(flags, dst, order, k)
  {
    if k > 0 { NoRowMismatch(flags, dst, pos, order, k - 1); }
  }

  predicate RowClean(c: Checker, ins: seq<Row>, outs: seq<Row>, i: nat)
    requires i < |ins| && i < |outs|
  {
    FlagsMatch(c.oracle(ins[i]), outs[i], c.flags, |c.flags|)
  }

  lemma {:induction false} NoMismatch(c: Checker, ins: seq<Row>, outs: seq<Row>, n: nat)
    requires n <= |ins| && n <= |outs|
    ensures Mismatches(c, ins, outs, n) == [] <==> forall i | 0 <= i < n :: RowClean(c, ins, outs, i)
  {
    if n > 0 {
      var before := Mismatches(c, ins, outs, n - 1);
      var here := RowMismatches(c.oracle(ins[n - 1]), outs[n - 1], n, c.flags, |c.flags|);
      NoMismatch(c, ins, outs, n - 1);
      NoRowMismatch(c.oracle(ins[n - 1]), outs[n - 1], n, c.flags, |c.flags|);
      assert Mismatches(c, ins, outs, n) == before + here;
      assert before + here == [] <==> before == [] && here == [];
      assert here == [] <==> RowClean(c, ins, outs, n - 1);
    }
  }

  lemma MatchIsEnrichment(c: Checker, src: Row, dst: Row)
    requires c.WellFormed()
    ensures Enriches(c, src, dst) <==>
            AgreeOn(c.source, src, dst) && FlagsMatch(c.oracle(src), dst, c.flags, |c.flags|)
    ensures Enriches(c, src, dst) ==> FlagsInDomain(c.flags, dst)
  {
    if FlagsMatch(c.oracle(src), dst, c.flags, |c.flags|) {
      forall f: Flag ensures Get(dst, FlagColumn(f)) == Some(BitText(c.oracle(src).At(f))) {
        assert f in c.flags;
      }
    }
  }

  lemma IdentityFromSource(c: Checker, src: Row, dst: Row, pos: nat)
    requires c.WellFormed() && AgreeOn(c.source, src, dst)
    ensures IdentityAt(src, dst, pos) <==> Get(src, Id) == Some(Decimal(pos))
  {
  }

  /** The row checks of the stream, taken together, are the enrichment of the prefix. */
  lemma RowChecksMeanEnrichment(c: Checker, input: Table, output: Table, n: nat)
    requires c.WellFormed() && n <= |input.rows| && n <= |output.rows|
    ensures AllIdentity(input, output, n) && AllPreserved(c, input, output, n)
            && Mismatches(c, input.rows, output.rows, n) == []
            <==> EnrichedPrefix(c, input, output, n)
    ensures EnrichedPrefix(c, input, output, n) ==> AllInDomain(c, output, n)
  {
    AllIdentityMeans(input, output, n);
    AllPreservedMeans(c, input, output, n);
    AllInDomainMeans(c, output, n);
    NoMismatch(c, input.rows, output.rows, n);
    forall i | 0 <= i < n
      ensures (AgreeOn(c.source, input.rows[i], output.rows[i])
               && RowClean(c, input.rows, output.rows, i)
               <==> Enriches(c, input.rows[i], output.rows[i]))
      ensures Enriches(c, input.rows[i], output.rows[i]) ==> FlagsInDomain(c.flags, output.rows[i])
      ensures AgreeOn(c.source, input.rows[i], output.rows[i]) ==>
                (IdentityAt(input.rows[i], output.rows[i], i + 1) <==> Get(input.rows[i], Id) == Some(Decimal(i + 1)))
    {
      MatchIsEnrichment(c, input.rows[i], output.rows[i]);
      if AgreeOn(c.source, input.rows[i], output.rows[i]) {
        IdentityFromSource(c, input.rows[i], output.rows[i], i + 1);
      }
    }
  }

  /** All nine statuses pass with zero mismatches exactly when the output is the enrichment of
      the input; the one inexactness is a single surplus input row. */
  lemma VerificationExact(c: Checker, input: Table, output: Table, expectedRows: int)
    requires c.WellFormed()
    ensures Verified(c, input, output, expectedRows).Clean() <==> Faithful(c, input, output, expectedRows)
    ensures Faithful(c, input, output, expectedRows) ==>
              Verified(c, input, output, expectedRows).comparisons == 8 * expectedRows
  {
    var n := Pairs(input, output);
    RowChecksMeanEnrichment(c, input, output, n);
  }

  /** When the input is not longer than the output, a clean result forces equal counts. */
  lemma CleanCountsEqual(c: Checker, input: Table, output: Table, expectedRows: int)
    requires c.WellFormed() && Verified(c, input, output, expectedRows).Clean()
    ensures |input.rows| == |output.rows| <==> |input.rows| <= |output.rows|
    ensures |input.rows| - |output.rows| <= 1
  {
  }

  /** The look-ahead hides one surplus input row completely, and only one: the whole result is
      unchanged by the first surplus row, and a second one fails the row count. */
  lemma SurplusRow(c: Checker, input: Table, output: Table, expectedRows: int, first: Row, second: Row)
    requires |input.rows| == |output.rows|
    ensures Verified(c, input.(rows := input.rows + [first]), output, expectedRows)
            == Verified(c, input, output, expectedRows)
    ensures !Verified(c, input.(rows := input.rows + [first, second]), output, expectedRows).rowCount
  {
    var longer := input.(rows := input.rows + [first]);
    SamePrefix(c, input, longer, output, |input.rows|);
  }

  /** The counters look at nothing but the pairs. */
  lemma {:induction false} SamePrefix(c: Checker, a: Table, b: Table, output: Table, n: nat)
    requires n <= |a.rows| && n <= |b.rows| && n <= |output.rows| && a.rows[..n] == b.rows[..n]
    ensures AllIdentity(a, output, n) == AllIdentity(b, output, n)
    ensures AllPreserved(c, a, output, n) == AllPreserved(c, b, output, n)
    ensures Mismatches(c, a.rows, output.rows, n) == Mismatches(c, b.rows, output.rows, n)
    ensures FirstBadIdentity(a, output, n) == FirstBadIdentity(b, output, n)
    ensures FirstBadCell(c, a, output, n) == FirstBadCell(c, b, output, n)
  {
    if n > 0 {
      assert a.rows[..n][..n - 1] == a.rows[..n - 1] && b.rows[..n][..n - 1] == b.rows[..n - 1];
      assert a.rows[..n][n - 1] == b.rows[..n][n - 1];
      SamePrefix(c, a, b, output, n - 1);
    }
  }

  // ---- conservation ----

  function SumOver(m: map<Flag, nat>, order: seq<Flag>): nat
    requires forall f: Flag :: f in m
  {
    if order == [] then 0 else m[order[0]] + SumOver(m, order[1..])
  }

  function CountIn(ms: seq<Mismatch>, order: seq<Flag>): nat {
    if order == [] then 0 else CountRule(ms, order[0]) + CountIn(ms, order[1..])
  }

  lemma {:induction false} CountInAppend(ms: seq<Mismatch>, m: Mismatch, order: seq<Flag>)
    requires forall i, j | 0 <= i < j < |order| :: order[i] != order[j]
    ensures CountIn(ms + [m], order) == CountIn(ms, order) + (if m.rule in order then 1 else 0)
  {
    if order != [] {
      assert (ms + [m])[..|ms|] == ms;
      CountInAppend(ms, m, order[1..]);
      assert m.rule in order <==> m.rule == order[0] || m.rule in order[1..];
      assert m.rule == order[0] ==> m.rule !in order[1..];
    }
  }

  lemma {:induction false} CountInAll(ms: seq<Mismatch>, order: seq<Flag>)
    requires forall i, j | 0 <= i < j < |order| :: order[i] != order[j]
    requires forall f: Flag :: f in order
    ensures CountIn(ms, order) == |ms|
  {
    if ms == [] {
      CountInEmpty(order);
    } else {
      var front, m := ms[..|ms| - 1], ms[|ms| - 1];
      assert ms == front + [m];
      CountInAll(front, order);
      CountInAppend(front, m, order);
    }
  }

  lemma {:induction false} CountInEmpty(order: seq<Flag>)
    ensures CountIn([], order) == 0
  {
    if order != [] { CountInEmpty(order[1..]); }
  }

  lemma {:induction false} SumIsCount(ms: seq<Mismatch>, order: seq<Flag>)
    ensures SumOver(RuleCounts(ms), order) == CountIn(ms, order)
  {
    if order != [] { SumIsCount(ms, order[1..]); }
  }

  lemma {:induction false} OnesBounded(rows: seq<Row>, n: nat, f: Flag)
    requires n <= |rows|
    ensures Ones(rows, n, f) <= n
  {
    if n > 0 { OnesBounded(rows, n - 1, f); }
  }

  /** The books balance on every pair of tables, clean or not. */
  lemma Conservation(c: Checker, input: Table, output: Table, expectedRows: int, order: seq<Flag>)
    requires c.WellFormed() && order == c.flags
    ensures var v := Verified(c, input, output, expectedRows);
            && SumOver(v.byRule, order) == v.mismatches
            && v.mismatches <= v.comparisons == 8 * v.inputRows
            && |v.firstMismatches| == (if v.mismatches < 5 then v.mismatches else 5)
            && (v.mismatches == 0 ==> v.flagDomain)
            && v.rowOrdering == v.sourcePreserved
            && v.inputRows + v.extraOutput == v.outputRows == |output.rows|
            && (forall f: Flag :: v.flagTotals[f] <= v.inputRows)
  {
    var n := Pairs(input, output);
    var ms := Mismatches(c, input.rows, output.rows, n);
    SumIsCount(ms, order);
    CountInAll(ms, order);
    MismatchesBounded(c, input.rows, output.rows, n);
    NoMismatch(c, input.rows, output.rows, n);
    AllInDomainMeans(c, output, n);
    if ms == [] {
      forall i | 0 <= i < n ensures FlagsInDomain(c.flags, output.rows[i]) {
        assert RowClean(c, input.rows, output.rows, i);
      }
    }
    forall f: Flag ensures Ones(output.rows, n, f) <= n { OnesBounded(output.rows, n, f); }
  }

  lemma {:induction false} RowMismatchesBounded(flags: Flags, dst: Row, pos: nat, order: seq<Flag>, k: nat)
    requires k <= |order|
    ensures |RowMismatches(flags, dst, pos, order, k)| <= k
  {
    if k > 0 { RowMismatchesBounded(flags, dst, pos, order, k - 1); }
  }

  lemma {:induction false} MismatchesBounded(c: Checker, ins: seq<Row>, outs: seq<Row>, n: nat)
    requires c.WellFormed() && n <= |ins| && n <= |outs|
    ensures |Mismatches(c, ins, outs, n)| <= 8 * n
  {
    if n > 0 {
      MismatchesBounded(c, ins, outs, n - 1);
      RowMismatchesBounded(c.oracle(ins[n - 1]), outs[n - 1], n, c.flags, |c.flags|);
    }
  }
}
