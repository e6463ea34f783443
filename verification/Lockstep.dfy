/** `verify_and_oracle`: streams an input and an output table in lockstep and accounts for every
    row. The reader's one-row look-ahead is modelled: the pairing pulls an input row before it
    learns that the output is exhausted. */
module Lockstep {
  import opened Text
  import opened Contract
  import opened Rows

  /** What the pass checks against: the column lists and the oracle. */
  datatype Checker = Checker(source: seq<Column>, flags: seq<Flag>, oracle: Row -> Flags)
  {
    /** 33 source columns with the id among them, and each of the 8 flags once. */
    ghost predicate WellFormed() {
      && |source| == 33 && |flags| == 8 && Id in source
      && (forall i | 0 <= i < |source| :: !source[i].FlagColumn?)
      && (forall f: Flag :: f in flags)
      && (forall i, j | 0 <= i < j < |flags| :: flags[i] != flags[j])
    }

    function FlagColumns(): seq<Column> {
      seq(|flags|, i requires 0 <= i < |flags| => FlagColumn(flags[i]))
    }

    function OutputColumns(): seq<Column> {
      source + FlagColumns()
    }
  }

  /** One retained mismatch: 1-based row, rule, oracle text, engine text. */
  datatype Mismatch = Mismatch(row: nat, rule: Flag, oracle: string, engine: Option<string>)

  /** The result dictionary; a status is true for "PASS". */
  datatype Verification = Verification(
    schema: bool, rowCount: bool, columnCount: bool, columnOrder: bool, rowIdentity: bool,
    rowOrdering: bool, sourcePreserved: bool, outputShape: bool, flagDomain: bool,
    comparisons: nat, mismatches: nat, byRule: map<Flag, nat>, firstMismatches: seq<Mismatch>,
    flagTotals: map<Flag, nat>, inputRows: nat, outputRows: nat, extraInput: nat, extraOutput: nat,
    firstIdentityAnomaly: Option<nat>, firstDifference: Option<(nat, Column)>)
  {
    /** All nine required statuses. */
    predicate StatusesPass() {
      && schema && rowCount && columnCount && columnOrder && rowIdentity
      && rowOrdering && sourcePreserved && outputShape && flagDomain
    }

    predicate Clean() {
      StatusesPass() && mismatches == 0
    }
  }

  // ---- what the counters mean ----

  predicate IdentityAt(src: Row, dst: Row, pos: nat) {
    Get(src, Id) == Some(Decimal(pos)) && Get(dst, Id) == Some(Decimal(pos))
  }

  predicate AgreeOn(cols: seq<Column>, src: Row, dst: Row) {
    forall i | 0 <= i < |cols| :: Get(src, cols[i]) == Get(dst, cols[i])
  }

  predicate FlagCell(v: Option<string>) {
    v == Some("0") || v == Some("1")
  }

  predicate FlagsInDomain(flags: seq<Flag>, dst: Row) {
    forall i | 0 <= i < |flags| :: FlagCell(Get(dst, FlagColumn(flags[i])))
  }

  /** Number of "1" cells of a flag among the first n rows. */
  function Ones(rows: seq<Row>, n: nat, f: Flag): nat
    requires n <= |rows|
  {
    if n == 0 then 0
    else Ones(rows, n - 1, f) + (if Get(rows[n - 1], FlagColumn(f)) == Some("1") then 1 else 0)
  }

  /** The mismatches of one row over the first k flags, in flag order. */
  function RowMismatches(flags: Flags, dst: Row, pos: nat, order: seq<Flag>, k: nat): seq<Mismatch>
    requires k <= |order|
  {
    if k == 0 then []
    else
      var f := order[k - 1];
      var engine := Get(dst, FlagColumn(f));
      var text := BitText(flags.At(f));
      RowMismatches(flags, dst, pos, order, k - 1)
      + (if Some(text) == engine then [] else [Mismatch(pos, f, text, engine)])
  }

  /** All mismatches of the first n row pairs, in stream order. */
  function Mismatches(c: Checker, ins: seq<Row>, outs: seq<Row>, n: nat): seq<Mismatch>
    requires n <= |ins| && n <= |outs|
  {
    if n == 0 then []
    else Mismatches(c, ins, outs, n - 1)
         + RowMismatches(c.oracle(ins[n - 1]), outs[n - 1], n, c.flags, |c.flags|)
  }

  function CountRule(ms: seq<Mismatch>, f: Flag): nat {
    if ms == [] then 0
    else CountRule(ms[..|ms| - 1], f) + (if ms[|ms| - 1].rule == f then 1 else 0)
  }

  function FirstFive(ms: seq<Mismatch>): seq<Mismatch> {
    if |ms| <= 5 then ms else ms[..5]
  }

  /** Number of row pairs the stream sees. */
  function Pairs(input: Table, output: Table): nat {
    if |input.rows| <= |output.rows| then |input.rows| else |output.rows|
  }

  /** Input rows left after the pairing: one surplus row is swallowed by the look-ahead. */
  function ExtraInput(input: Table, output: Table): nat {
    if |input.rows| > |output.rows| then |input.rows| - |output.rows| - 1 else 0
  }

  function ExtraOutput(input: Table, output: Table): nat {
    |output.rows| - Pairs(input, output)
  }

  /** The per-rule counters of a list of mismatches. */
  ghost function RuleCounts(ms: seq<Mismatch>): (m: map<Flag, nat>)
    ensures forall f: Flag :: f in m && m[f] == CountRule(ms, f)
  {
    map f: Flag | true :: CountRule(ms, f)
  }

  /** The flag totals of the first n rows. */
  ghost function FlagTotals(rows: seq<Row>, n: nat): (m: map<Flag, nat>)
    requires n <= |rows|
    ensures forall f: Flag :: f in m && m[f] == Ones(rows, n, f)
  {
    map f: Flag | true :: Ones(rows, n, f)
  }

  lemma SameCounters(a: map<Flag, nat>, b: map<Flag, nat>)
    requires forall f: Flag :: f in a && f in b && a[f] == b[f]
    ensures a == b
  {
  }

  predicate AllIdentity(input: Table, output: Table, n: nat)
    requires n <= |input.rows| && n <= |output.rows|
  {
    n == 0 || (AllIdentity(input, output, n - 1) && IdentityAt(input.rows[n - 1], output.rows[n - 1], n))
  }

  predicate AllPreserved(c: Checker, input: Table, output: Table, n: nat)
    requires n <= |input.rows| && n <= |output.rows|
  {
    n == 0 || (AllPreserved(c, input, output, n - 1)
               && AgreeOn(c.source, input.rows[n - 1], output.rows[n - 1]))
  }

  predicate AllInDomain(c: Checker, output: Table, n: nat)
    requires n <= |output.rows|
  {
    n == 0 || (AllInDomain(c, output, n - 1) && FlagsInDomain(c.flags, output.rows[n - 1]))
  }

  predicate ColumnCounts(input: Table, output: Table) {
    |input.header| == 33 && |output.header| == 41
  }

  /** First pair whose ids are not its 1-based position. */
  function FirstBadIdentity(input: Table, output: Table, n: nat): Option<nat>
    requires n <= |input.rows| && n <= |output.rows|
  {
    if n == 0 then None
    else
      var before := FirstBadIdentity(input, output, n - 1);
      if before.Some? || IdentityAt(input.rows[n - 1], output.rows[n - 1], n) then before else Some(n)
  }

  /** First column among the first k that differs. */
  function FirstBadColumn(cols: seq<Column>, src: Row, dst: Row, k: nat): Option<Column>
    requires k <= |cols|
  {
    if k == 0 then None
    else
      var before := FirstBadColumn(cols, src, dst, k - 1);
      if before.Some? || Get(src, cols[k - 1]) == Get(dst, cols[k - 1]) then before else Some(cols[k - 1])
  }

  function FirstBadCell(c: Checker, input: Table, output: Table, n: nat): Option<(nat, Column)>
    requires n <= |input.rows| && n <= |output.rows|
  {
    if n == 0 then None
    else
      var before := FirstBadCell(c, input, output, n - 1);
      var here := FirstBadColumn(c.source, input.rows[n - 1], output.rows[n - 1], |c.source|);
      if before.Some? || here.None? then before else Some((n, here.value))
  }

  /** The result, stated on the tables rather than on the stream. */
  ghost function Verified(c: Checker, input: Table, output: Table, expectedRows: int): Verification {
    var n := Pairs(input, output);
    var ms := Mismatches(c, input.rows, output.rows, n);
    var preserved := AllPreserved(c, input, output, n);
    var domain := AllInDomain(c, output, n);
    var order := output.header == c.OutputColumns();
    var outputRows := n + ExtraOutput(input, output);
    Verification(
      input.header == c.source,
      n == expectedRows && outputRows == expectedRows
      && ExtraInput(input, output) == 0 && ExtraOutput(input, output) == 0,
      ColumnCounts(input, output), order, AllIdentity(input, output, n), preserved, preserved,
      domain && ColumnCounts(input, output) && order, domain,
      8 * n, |ms|, RuleCounts(ms), FirstFive(ms),
      FlagTotals(output.rows, n), n, outputRows,
      ExtraInput(input, output), ExtraOutput(input, output),
      FirstBadIdentity(input, output, n), FirstBadCell(c, input, output, n))
  }

  // ---- the streaming pass ----

  /** `csv.DictReader`: a cursor over the parsed rows. */
  class DictReader {
    const rows: seq<Row>
    var pos: nat

    ghost predicate Valid()
      reads this
    {
      pos <= |rows|
    }

    constructor (rows: seq<Row>)
      ensures Valid() && this.rows == rows && pos == 0
    {
      this.rows := rows;
      pos := 0;
    }

    /** Next row, or None at the end of the file. */
    method Next() returns (row: Option<Row>)
      requires Valid()
      modifies this
      ensures Valid()
      ensures old(pos) < |rows| ==> row == Some(rows[old(pos)]) && pos == old(pos) + 1
      ensures old(pos) == |rows| ==> row == None && pos == old(pos)
    {
      if pos < |rows| {
        row := Some(rows[pos]);
        pos := pos + 1;
      } else {
        row := None;
      }
    }

    /** `sum(1 for _ in reader)` */
    method Drain() returns (n: nat)
      requires Valid()
      modifies this
      ensures Valid() && pos == |rows| && n == |rows| - old(pos)
    {
      n := 0;
      var row := Next();
      while row.Some?
        invariant Valid() && old(pos) <= pos
        invariant row.Some? ==> n + 1 == pos - old(pos)
        invariant row.None? ==> pos == |rows| && n == pos - old(pos)
        decreases |rows| - pos, row.Some?
      {
        n := n + 1;
        row := Next();
      }
    }
  }

  /** Compares the source columns of one pair. */
  method CompareSource(cols: seq<Column>, src: Row, dst: Row) returns (same: bool, firstBad: Option<Column>)
    ensures same == AgreeOn(cols, src, dst)
    ensures firstBad == FirstBadColumn(cols, src, dst, |cols|)
  {
    same, firstBad := true, None;
    for k := 0 to |cols|
      invariant same == forall i | 0 <= i < k :: Get(src, cols[i]) == Get(dst, cols[i])
      invariant firstBad == FirstBadColumn(cols, src, dst, k)
    {
      if Get(src, cols[k]) != Get(dst, cols[k]) {
        same := false;
        if firstBad.None? {
          firstBad := Some(cols[k]);
        }
      }
    }
  }

  /** Checks the flag domain of one output row and adds its "1" cells to the totals. */
  method TallyFlags(flags: seq<Flag>, dst: Row, totals: map<Flag, nat>) returns (after: map<Flag, nat>, inDomain: bool)
    requires forall f: Flag :: f in totals
    requires forall i, j | 0 <= i < j < |flags| :: flags[i] != flags[j]
    ensures inDomain == FlagsInDomain(flags, dst)
    ensures forall f: Flag :: f in after && after[f] == totals[f]
              + (if f in flags && Get(dst, FlagColumn(f)) == Some("1") then 1 else 0)
  {
    after, inDomain := totals, true;
    for k := 0 to |flags|
      invariant inDomain == forall i | 0 <= i < k :: FlagCell(Get(dst, FlagColumn(flags[i])))
      invariant forall f: Flag :: f in after
      invariant forall f: Flag ::
          after[f] == totals[f] + (if f in flags[..k] && Get(dst, FlagColumn(f)) == Some("1") then 1 else 0)
    {
      var f := flags[k];
      var v := Get(dst, FlagColumn(f));
      if !FlagCell(v) {
        inDomain := false;
      }
      assert flags[..k + 1] == flags[..k] + [f];
      assert f !in flags[..k];
      if v == Some("1") {
        after := after[f := after[f] + 1];
      }
    }
    assert flags[..|flags|] == flags;
  }

  /** `{c: 0 for c in FLAG_COLUMNS}` */
  function Zeros(flags: seq<Flag>): map<Flag, nat> {
    map f | f in flags :: 0
  }

  /** The counters that describe a list of mismatches. */
  ghost predicate Describes(ms: seq<Mismatch>, mismatches: nat, byRule: map<Flag, nat>, first: seq<Mismatch>) {
    mismatches == |ms| && first == FirstFive(ms) && (forall f: Flag :: f in byRule && byRule[f] == CountRule(ms, f))
  }

  /** One mismatch more. */
  method AddMismatch(ghost ms: seq<Mismatch>, m: Mismatch, mismatches: nat, byRule: map<Flag, nat>,
                     first: seq<Mismatch>)
    returns (mismatches': nat, byRule': map<Flag, nat>, first': seq<Mismatch>)
    requires Describes(ms, mismatches, byRule, first)
    ensures Describes(ms + [m], mismatches', byRule', first')
  {
    mismatches', byRule' := mismatches + 1, byRule[m.rule := byRule[m.rule] + 1];
    first' := if |first| < 5 then first + [m] else first;
    assert (ms + [m])[..|ms|] == ms;
  }

  /** Compares the eight flags of one output row with the oracle's. */
  method CompareFlags(ghost ms: seq<Mismatch>, order: seq<Flag>, flags: Flags, dst: Row, pos: nat,
                      comparisons: nat, mismatches: nat, byRule: map<Flag, nat>, first: seq<Mismatch>)
    returns (comparisons': nat, mismatches': nat, byRule': map<Flag, nat>, first': seq<Mismatch>)
    requires Describes(ms, mismatches, byRule, first)
    ensures comparisons' == comparisons + |order|
    ensures Describes(ms + RowMismatches(flags, dst, pos, order, |order|), mismatches', byRule', first')
  {
    comparisons', mismatches', byRule', first' := comparisons, mismatches, byRule, first;
    ghost var all := ms;
    assert all == ms + RowMismatches(flags, dst, pos, order, 0);
    for k := 0 to |order|
      invariant comparisons' == comparisons + k
      invariant all == ms + RowMismatches(flags, dst, pos, order, k)
      invariant Describes(all, mismatches', byRule', first')
    {
      var f := order[k];
      comparisons' := comparisons' + 1;
      var text, engine := BitText(flags.At(f)), Get(dst, FlagColumn(f));
      ghost var before := RowMismatches(flags, dst, pos, order, k);
      if Some(text) != engine {
        var m := Mismatch(pos, f, text, engine);
        mismatches', byRule', first' := AddMismatch(all, m, mismatches', byRule', first');
        assert ms + before + [m] == ms + (before + [m]);
        all := all + [m];
      } else {
        assert before + [] == before;
      }
    }
  }

  // The counters and flags of the row loop, by the check that maintains them.
  datatype IdentityTally = IdentityTally(ok: bool, first: Option<nat>)
  datatype SourceTally = SourceTally(ok: bool, first: Option<(nat, Column)>)
  datatype FlagTally = FlagTally(domainOk: bool, totals: map<Flag, nat>)
  datatype OracleTally = OracleTally(comparisons: nat, mismatches: nat, byRule: map<Flag, nat>, first: seq<Mismatch>)

  // What each tally says once n pairs have been seen.

  ghost predicate IdentityAccounts(t: IdentityTally, input: Table, output: Table, n: nat)
    requires n <= Pairs(input, output)
  {
    t.ok == AllIdentity(input, output, n) && t.first == FirstBadIdentity(input, output, n)
  }

  ghost predicate SourceAccounts(t: SourceTally, c: Checker, input: Table, output: Table, n: nat)
    requires n <= Pairs(input, output)
  {
    t.ok == AllPreserved(c, input, output, n) && t.first == FirstBadCell(c, input, output, n)
  }

  ghost predicate FlagAccounts(t: FlagTally, c: Checker, output: Table, n: nat)
    requires n <= |output.rows|
  {
    && t.domainOk == AllInDomain(c, output, n)
    && forall f: Flag :: f in t.totals && t.totals[f] == Ones(output.rows, n, f)
  }

  ghost predicate OracleAccounts(t: OracleTally, c: Checker, input: Table, output: Table, n: nat)
    requires n <= Pairs(input, output)
  {
    && t.comparisons == 8 * n
    && Describes(Mismatches(c, input.rows, output.rows, n), t.mismatches, t.byRule, t.first)
  }

  method CheckIdentity(t: IdentityTally, ghost input: Table, ghost output: Table, src: Row, dst: Row, pos: nat)
    returns (t': IdentityTally)
    requires 0 < pos <= Pairs(input, output) && IdentityAccounts(t, input, output, pos - 1)
    requires src == input.rows[pos - 1] && dst == output.rows[pos - 1]
    ensures IdentityAccounts(t', input, output, pos)
  {
    t' := t;
    if Get(src, Id) != Some(Decimal(pos)) || Get(dst, Id) != Some(Decimal(pos)) {
      t' := IdentityTally(false, if t.first.None? then Some(pos) else t.first);
    }
  }

  method CheckSource(t: SourceTally, c: Checker, ghost input: Table, ghost output: Table, src: Row, dst: Row, pos: nat)
    returns (t': SourceTally)
    requires 0 < pos <= Pairs(input, output) && SourceAccounts(t, c, input, output, pos - 1)
    requires src == input.rows[pos - 1] && dst == output.rows[pos - 1]
    ensures SourceAccounts(t', c, input, output, pos)
  {
    var same, bad := CompareSource(c.source, src, dst);
    t' := t;
    if !same {
      t' := t'.(ok := false);
    }
    if bad.Some? && t.first.None? {
      t' := t'.(first := Some((pos, bad.value)));
    }
  }

  method CheckFlags(t: FlagTally, c: Checker, ghost output: Table, dst: Row, pos: nat) returns (t': FlagTally)
    requires 0 < pos <= |output.rows| && c.WellFormed() && FlagAccounts(t, c, output, pos - 1)
    requires dst == output.rows[pos - 1]
    ensures FlagAccounts(t', c, output, pos)
  {
    var totals, inDomain := TallyFlags(c.flags, dst, t.totals);
    t' := FlagTally(t.domainOk && inDomain, totals);
  }

  method CheckOracle(t: OracleTally, c: Checker, ghost input: Table, ghost output: Table, src: Row, dst: Row, pos: nat)
    returns (t': OracleTally)
    requires 0 < pos <= Pairs(input, output) && c.WellFormed() && OracleAccounts(t, c, input, output, pos - 1)
    requires src == input.rows[pos - 1] && dst == output.rows[pos - 1]
    ensures OracleAccounts(t', c, input, output, pos)
  {
    var expected := c.oracle(src);
    var comparisons, mismatches, byRule, first := CompareFlags(
      Mismatches(c, input.rows, output.rows, pos - 1), c.flags, expected, dst, pos,
      t.comparisons, t.mismatches, t.byRule, t.first);
    t' := OracleTally(comparisons, mismatches, byRule, first);
  }

  /** The part of the result the row loop updates in place. */
  class Tally {
    var rowsSeen: nat
    var identity: IdentityTally
    var source: SourceTally
    var flags: FlagTally
    var oracle: OracleTally

    constructor (c: Checker, ghost input: Table, ghost output: Table)
      requires c.WellFormed()
      ensures rowsSeen == 0 && Accounts(c, input, output)
    {
      rowsSeen := 0;
      identity := IdentityTally(true, None);
      source := SourceTally(true, None);
      flags := FlagTally(true, Zeros(c.flags));
      oracle := OracleTally(0, 0, Zeros(c.flags), []);
    }

    /** At every row of the stream the counters describe exactly the pairs seen so far. */
    ghost predicate Accounts(c: Checker, input: Table, output: Table)
      reads this
    {
      && rowsSeen <= Pairs(input, output)
      && IdentityAccounts(identity, input, output, rowsSeen)
      && SourceAccounts(source, c, input, output, rowsSeen)
      && FlagAccounts(flags, c, output, rowsSeen)
      && OracleAccounts(oracle, c, input, output, rowsSeen)
    }

    /** The loop body, for one (src, dst) pair. */
    method Row(c: Checker, ghost input: Table, ghost output: Table, src: Row, dst: Row)
      requires c.WellFormed() && Accounts(c, input, output) && rowsSeen < Pairs(input, output)
      requires src == input.rows[rowsSeen] && dst == output.rows[rowsSeen]
      modifies this
      ensures Accounts(c, input, output) && rowsSeen == old(rowsSeen) + 1
    {
      var pos := rowsSeen + 1;
      var i := CheckIdentity(identity, input, output, src, dst, pos);
      var s := CheckSource(source, c, input, output, src, dst, pos);
      var f := CheckFlags(flags, c, output, dst, pos);
      var o := CheckOracle(oracle, c, input, output, src, dst, pos);
      rowsSeen, identity, source, flags, oracle := pos, i, s, f, o;
    }
  }

  method VerifyAndOracle(c: Checker, input: Table, output: Table, expectedRows: int) returns (r: Verification)
    requires c.WellFormed()
    ensures r == Verified(c, input, output, expectedRows)
  {
    var schema := input.header == c.source;
    var columnCount := |input.header| == 33 && |output.header| == 41;
    var columnOrder := output.header == c.OutputColumns();
    var readerIn := new DictReader(input.rows);
    var readerOut := new DictReader(output.rows);
    var t := new Tally(c, input, output);
    var more := true;
    while more
      invariant readerIn.rows == input.rows && readerOut.rows == output.rows
      invariant readerIn.Valid() && readerOut.Valid()
      invariant fresh(t) && fresh(readerIn) && fresh(readerOut) && readerIn != readerOut
      invariant t.Accounts(c, input, output) && readerOut.pos == t.rowsSeen
      invariant more ==> readerIn.pos == t.rowsSeen
      invariant !more ==> t.rowsSeen == Pairs(input, output)
                          && readerIn.pos == |input.rows| - ExtraInput(input, output)
      decreases |input.rows| - t.rowsSeen, more
    {
      var src := readerIn.Next();
      if src.None? {
        more := false;
      } else {
        var dst := readerOut.Next();
        if dst.None? {
          more := false;
        } else {
          t.Row(c, input, output, src.value, dst.value);
        }
      }
    }
    var extraIn := readerIn.Drain();
    var extraOut := readerOut.Drain();
    r := Report(c, input, output, expectedRows, t, schema, columnCount, columnOrder, extraIn, extraOut);
  }

  /** The statuses computed after the loop. */
  method Report(ghost c: Checker, ghost input: Table, ghost output: Table, expectedRows: int, t: Tally,
                schema: bool, columnCount: bool, columnOrder: bool, extraIn: nat, extraOut: nat)
    returns (r: Verification)
    requires t.Accounts(c, input, output) && t.rowsSeen == Pairs(input, output)
    requires schema == (input.header == c.source)
    requires columnCount == ColumnCounts(input, output) && columnOrder == (output.header == c.OutputColumns())
    requires extraIn == ExtraInput(input, output) && extraOut == ExtraOutput(input, output)
    ensures r == Verified(c, input, output, expectedRows)
  {
    var rowCount := t.rowsSeen == expectedRows && t.rowsSeen + extraOut == expectedRows
                    && extraIn == 0 && extraOut == 0;
    SameCounters(t.oracle.byRule, RuleCounts(Mismatches(c, input.rows, output.rows, t.rowsSeen)));
    SameCounters(t.flags.totals, FlagTotals(output.rows, t.rowsSeen));
    r := Verification(
      schema, rowCount, columnCount, columnOrder, t.identity.ok, t.source.ok, t.source.ok,
      t.flags.domainOk && columnCount && columnOrder, t.flags.domainOk,
      t.oracle.comparisons, t.oracle.mismatches, t.oracle.byRule, t.oracle.first, t.flags.totals, t.rowsSeen,
      t.rowsSeen + extraOut, extraIn, extraOut, t.identity.first, t.source.first);
  }
}
