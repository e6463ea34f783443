/** The production engine's streaming pass, and the round trip from what it writes to what the
    checker accepts. */
module Engine {
  import opened Text
  import opened Contract
  import opened Rows
  import opened Lockstep
  import opened Exactness
  import Rules
  import Oracle

  /** The cell `csv.DictWriter` writes and a reader reads back: None and an absent key are "". */
  function WrittenCell(flags: Flags, row: Row, col: Column): string {
    if col.FlagColumn? then BitText(flags.At(col.flag))
    else if Get(row, col).Some? then Get(row, col).value
    else ""
  }

  function WrittenRow(c: Checker, rules: Row -> Flags, row: Row): Row {
    map col | col in c.OutputColumns() :: Some(WrittenCell(rules(row), row, col))
  }

  function WrittenRows(c: Checker, rules: Row -> Flags, rows: seq<Row>): (out: seq<Row>)
    ensures |out| == |rows|
    ensures forall i | 0 <= i < |rows| :: out[i] == WrittenRow(c, rules, rows[i])
  {
    if rows == [] then []
    else WrittenRows(c, rules, rows[..|rows| - 1]) + [WrittenRow(c, rules, rows[|rows| - 1])]
  }

  function EngineTable(c: Checker, rules: Row -> Flags, input: Table): Table {
    Table(c.OutputColumns(), WrittenRows(c, rules, input.rows))
  }

  /** Adds one row's raised flags to the counts. */
  method CountFlags(order: seq<Flag>, flags: Flags, counts: map<Flag, nat>) returns (after: map<Flag, nat>)
    requires forall f: Flag :: f in order && f in counts
    requires forall i, j | 0 <= i < j < |order| :: order[i] != order[j]
    ensures forall f: Flag :: f in after && after[f] == counts[f] + flags.At(f)
  {
    after := counts;
    for k := 0 to |order|
      invariant forall f: Flag :: f in after
      invariant forall f: Flag :: after[f] == counts[f] + (if f in order[..k] && flags.At(f) == 1 then 1 else 0)
    {
      var f := order[k];
      assert order[..k + 1] == order[..k] + [f];
      assert f !in order[..k];
      if flags.At(f) == 1 {
        after := after[f := after[f] + 1];
      }
    }
    assert order[..|order|] == order;
  }

  /** `ValidationEngine.validate`, step 4: one pass, one output row per input row, and a count of
      the raised flags. */
  method Validate(c: Checker, rules: Row -> Flags, input: Table)
    returns (output: Table, flagCounts: map<Flag, nat>, rowCount: nat)
    requires c.WellFormed()
    ensures output == EngineTable(c, rules, input)
    ensures rowCount == |input.rows|
    ensures forall f: Flag :: f in flagCounts && flagCounts[f] == Ones(output.rows, rowCount, f)
  {
    var written := [];
    flagCounts := Zeros(c.flags);
    for n := 0 to |input.rows|
      invariant written == WrittenRows(c, rules, input.rows[..n])
      invariant forall f: Flag :: f in flagCounts && flagCounts[f] == Ones(written, n, f)
    {
      var row := input.rows[n];
      var flags := rules(row);
      flagCounts := CountFlags(c.flags, flags, flagCounts);
      assert input.rows[..n + 1][..n] == input.rows[..n];
      ghost var previous := written;
      written := written + [WrittenRow(c, rules, row)];
      forall f: Flag ensures flagCounts[f] == Ones(written, n + 1, f) {
        OnesPrefix(previous, written, n, f);
        WrittenFlag(c, rules, row, f);
      }
    }
    assert input.rows[..|input.rows|] == input.rows;
    output, rowCount := Table(c.OutputColumns(), written), |input.rows|;
  }

  lemma {:induction false} OnesPrefix(a: seq<Row>, b: seq<Row>, n: nat, f: Flag)
    requires n <= |a| && a <= b
    ensures Ones(a, n, f) == Ones(b, n, f)
  {
    if n > 0 { OnesPrefix(a, b, n - 1, f); }
  }

  lemma WrittenFlag(c: Checker, rules: Row -> Flags, row: Row, f: Flag)
    requires c.WellFormed()
    ensures Get(WrittenRow(c, rules, row), FlagColumn(f)) == Some(BitText(rules(row).At(f)))
  {
    assert f in c.flags;
    var i :| 0 <= i < |c.flags| && c.flags[i] == f;
    assert c.FlagColumns()[i] == FlagColumn(f);
    assert c.OutputColumns()[|c.source| + i] == FlagColumn(f);
  }

  lemma WrittenSource(c: Checker, rules: Row -> Flags, row: Row, i: nat)
    requires c.WellFormed() && i < |c.source|
    ensures Get(WrittenRow(c, rules, row), c.source[i])
            == Some(if Get(row, c.source[i]).Some? then Get(row, c.source[i]).value else "")
  {
  }

  /** A written row enriches its source exactly when no cell was null and the engine agreed with
      the oracle. */
  lemma WrittenEnriches(c: Checker, rules: Row -> Flags, row: Row)
    requires c.WellFormed()
    ensures Enriches(c, row, WrittenRow(c, rules, row)) <==> Filled(row, c.source) && rules(row) == c.oracle(row)
  {
    var out := WrittenRow(c, rules, row);
    forall i: nat | i < |c.source|
      ensures Get(row, c.source[i]) == Get(out, c.source[i]) <==> Get(row, c.source[i]).Some?
    {
      WrittenSource(c, rules, row, i);
    }
    forall f: Flag
      ensures Get(out, FlagColumn(f)) == Some(BitText(rules(row).At(f)))
      ensures BitText(rules(row).At(f)) == BitText(c.oracle(row).At(f)) <==> rules(row).At(f) == c.oracle(row).At(f)
    {
      WrittenFlag(c, rules, row, f);
    }
    SameFlags(rules(row), c.oracle(row));
  }

  lemma SameFlags(a: Flags, b: Flags)
    ensures a == b <==> forall f: Flag :: a.At(f) == b.At(f)
  {
    if forall f: Flag :: a.At(f) == b.At(f) {
      assert a.At(FirstNameCandidate) == b.At(FirstNameCandidate) && a.At(LastNameCandidate) == b.At(LastNameCandidate);
      assert a.At(FullNameCandidate) == b.At(FullNameCandidate) && a.At(EmailBlank) == b.At(EmailBlank);
      assert a.At(EmailSyntaxFailure) == b.At(EmailSyntaxFailure) && a.At(ExportEligible) == b.At(ExportEligible);
      assert a.At(ZipStateAssessable) == b.At(ZipStateAssessable) && a.At(GeographyMismatch) == b.At(GeographyMismatch);
    }
  }

  /** What the checker needs of an input so that the engine's own output passes. */
  ghost predicate Acceptable(c: Checker, rules: Row -> Flags, input: Table, rows: int) {
    && input.header == c.source && |input.rows| == rows
    && (forall i | 0 <= i < |input.rows| :: Get(input.rows[i], Id) == Some(Decimal(i + 1)))
    && (forall i | 0 <= i < |input.rows| ::
          Filled(input.rows[i], c.source) && rules(input.rows[i]) == c.oracle(input.rows[i]))
  }

  /** Round trip: the checker passes what the engine writes exactly on the acceptable inputs. */
  lemma EngineOutputVerifies(c: Checker, rules: Row -> Flags, input: Table, rows: int)
    requires c.WellFormed()
    ensures Verified(c, input, EngineTable(c, rules, input), rows).Clean() <==> Acceptable(c, rules, input, rows)
  {
    var output := EngineTable(c, rules, input);
    VerificationExact(c, input, output, rows);
    forall i | 0 <= i < |input.rows|
      ensures Enriches(c, input.rows[i], output.rows[i]) <==>
              Filled(input.rows[i], c.source) && rules(input.rows[i]) == c.oracle(input.rows[i])
    {
      WrittenEnriches(c, rules, input.rows[i]);
    }
  }

  // ---- the frozen V1 contract ----

  /** `SOURCE_COLUMNS`, `FLAG_COLUMNS` and `oracle_flags`. */
  ghost predicate IsV1(c: Checker, u: Unicode) {
    c.source == SOURCE_COLUMNS && c.flags == FLAGS && c.oracle == Oracle.Judge(u)
  }

  lemma V1Flags()
    ensures |FLAGS| == 8 && forall i, j | 0 <= i < j < |FLAGS| :: FLAGS[i] != FLAGS[j]
    ensures forall f: Flag :: f in FLAGS
  {
    assert FLAGS[0] == FirstNameCandidate && FLAGS[1] == LastNameCandidate && FLAGS[2] == FullNameCandidate
           && FLAGS[3] == EmailBlank && FLAGS[4] == EmailSyntaxFailure && FLAGS[5] == ExportEligible
           && FLAGS[6] == ZipStateAssessable && FLAGS[7] == GeographyMismatch;
    forall f: Flag ensures f in FLAGS { OneOfEight(f); }
  }

  lemma OneOfEight(f: Flag)
    ensures f == FirstNameCandidate || f == LastNameCandidate || f == FullNameCandidate || f == EmailBlank
            || f == EmailSyntaxFailure || f == ExportEligible || f == ZipStateAssessable || f == GeographyMismatch
  {
  }

  lemma V1Source()
    ensures |SOURCE_COLUMNS| == 33 && forall i | 0 <= i < |SOURCE_COLUMNS| :: !SOURCE_COLUMNS[i].FlagColumn?
    ensures SOURCE_COLUMNS[0] == Id && SOURCE_COLUMNS[1] == EmailAddress && SOURCE_COLUMNS[2] == FirstName
            && SOURCE_COLUMNS[3] == LastName && SOURCE_COLUMNS[8] == Zip
  {
  }

  lemma V1WellFormed(c: Checker, u: Unicode)
    requires IsV1(c, u)
    ensures c.WellFormed()
  {
    V1Source();
    V1Flags();
    assert c.source[0] == Id;
  }

  lemma FilledColumn(row: Row, cols: seq<Column>, col: Column)
    requires Filled(row, cols) && col in cols
    ensures !Oracle.Null(row, col)
  {
  }

  lemma FilledRowsAgree(c: Checker, u: Unicode, row: Row)
    requires IsV1(c, u) && AsciiCase(u) && Filled(row, c.source)
    ensures Rules.Registry(u)(row) == c.oracle(row)
  {
    V1Source();
    assert c.source[1] == EmailAddress && c.source[2] == FirstName && c.source[3] == LastName && c.source[8] == Zip;
    FilledColumn(row, c.source, FirstName);
    FilledColumn(row, c.source, LastName);
    FilledColumn(row, c.source, EmailAddress);
    FilledColumn(row, c.source, Zip);
    Oracle.EngineAgreesExactly(u, row);
  }

  /** An input the contract describes: its header, ids 1..n, the expected number of rows, and no
      short line. */
  ghost predicate Conforming(c: Checker, input: Table, rows: int) {
    && input.header == c.source && |input.rows| == rows
    && (forall i | 0 <= i < |input.rows| :: Get(input.rows[i], Id) == Some(Decimal(i + 1)))
    && (forall i | 0 <= i < |input.rows| :: Filled(input.rows[i], c.source))
  }

  /** For the frozen rules agreement is automatic on filled rows: a run of the V1 engine passes
      its verification exactly when its input conforms to the contract. */
  lemma V1RunVerifies(c: Checker, u: Unicode, input: Table, rows: int)
    requires IsV1(c, u) && AsciiCase(u)
    ensures Verified(c, input, EngineTable(c, Rules.Registry(u), input), rows).Clean() <==> Conforming(c, input, rows)
  {
    V1WellFormed(c, u);
    var rules := Rules.Registry(u);
    EngineOutputVerifies(c, rules, input, rows);
    forall i | 0 <= i < |input.rows| && Filled(input.rows[i], c.source)
      ensures rules(input.rows[i]) == c.oracle(input.rows[i])
    {
      FilledRowsAgree(c, u, input.rows[i]);
    }
    assert Acceptable(c, rules, input, rows) <==> Conforming(c, input, rows);
  }

  ghost predicate Partitioned(flags: Flags) {
    flags.blank + flags.syntax + flags.eligible == 1 && flags.mismatch <= flags.assessable
  }

  lemma {:induction false} EmailOnes(c: Checker, input: Table, output: Table, n: nat)
    requires n <= |input.rows| && n <= |output.rows|
    requires forall i | 0 <= i < n :: Enriches(c, input.rows[i], output.rows[i])
    requires forall row :: Partitioned(c.oracle(row))
    ensures Ones(output.rows, n, EmailBlank) + Ones(output.rows, n, EmailSyntaxFailure)
            + Ones(output.rows, n, ExportEligible) == n
    ensures Ones(output.rows, n, GeographyMismatch) <= Ones(output.rows, n, ZipStateAssessable)
  {
    if n > 0 {
      EmailOnes(c, input, output, n - 1);
      var src, dst := input.rows[n - 1], output.rows[n - 1];
      assert Partitioned(c.oracle(src));
      RaisedCell(c, src, dst, EmailBlank);
      RaisedCell(c, src, dst, EmailSyntaxFailure);
      RaisedCell(c, src, dst, ExportEligible);
      RaisedCell(c, src, dst, GeographyMismatch);
      RaisedCell(c, src, dst, ZipStateAssessable);
    }
  }

  lemma RaisedCell(c: Checker, src: Row, dst: Row, f: Flag)
    requires Enriches(c, src, dst)
    ensures Get(dst, FlagColumn(f)) == Some("1") <==> c.oracle(src).At(f) == 1
  {
  }

  /** In a clean V1 run the three email totals account for every row once, and mismatches are
      among the assessable rows. */
  lemma CleanTotals(c: Checker, u: Unicode, input: Table, output: Table, rows: int)
    requires IsV1(c, u) && Verified(c, input, output, rows).Clean()
    ensures var totals := Verified(c, input, output, rows).flagTotals;
            && totals[EmailBlank] + totals[EmailSyntaxFailure] + totals[ExportEligible] == rows
            && totals[GeographyMismatch] <= totals[ZipStateAssessable]
  {
    V1WellFormed(c, u);
    VerificationExact(c, input, output, rows);
    forall row ensures Partitioned(c.oracle(row)) { Oracle.FlagsConsistent(u, row); }
    EmailOnes(c, input, output, Pairs(input, output));
  }
}
