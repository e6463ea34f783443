# Verification of the data-quality checker and its release tooling

The repository validates 3.2-million-row datasets twice and gives one PASS or FAIL verdict. A
production engine writes eight flags per row; an independent checker re-computes them, streams input
and output in lockstep, saves one result per run, and a pure gate decides over both results. Around it
stand the recorder that watches the production process, and the release tooling: builders that rewrite
documents only when something but the time stamp changed, a limitation registry that reads its own
output, a ledger of release-gate rounds, harnesses that damage a file and put it back, and a manifest
of hashed artifacts. This project models that code in Dafny and proves what it is meant to guarantee.

Run `dafny verify dfyconfig.toml` here to check everything.

## How the files fit together

1. **Rows to flags.** `Text`, `Pattern`, `Email`, `Contract`, `Rows`, `Rules` (the engine's eight
   rules), `Oracle` (the checker's own), `Generator` (the ZIP codes of the test data).
2. **Tables.** `Lockstep` is the streaming pass as methods with loops, over classes for the readers and
   the counters. `Exactness` says what a clean result means; `Engine` closes the round trip from what
   the engine writes to what the checker accepts.
3. **Traces.** `Recorder`, `Paths` and `Safety`: the bounded audit log, path containment, and the
   classifier.
4. **Verdict.** `Json`, `Baseline` and `Verdict`: saved values, the pinned rule hashes, and the gate.
5. **Runs.** `Stages` is the machine of generate, validate, verify and finalize steps over the files,
   where every step may complete, tear its file or die, and anything else may change the other files in
   between. `Harness` holds the same stages as methods that change the files. `EndToEnd`, `StagedRuns`,
   `Completeness` and `Attained` join all of the above: PASS is sound over every run, and honest runs
   reach it. `Trails` follows which dataset and which engine run each file really comes from, and
   `Overtaken` holds the runs in which a PASS reports a digest that belongs to no verified file.
6. **Release.** `Stabilized`, `Pipeline`, `Rebuild` and `ReleaseSequence` (fixed point of the rebuild),
   `Registry`, `GateLedger`, `Mutation`, `Battery`, `ArtifactManifest`.

Methods are proved against functions over values, and the promised properties are proved about those
functions. SHA-256 is a parameter; a lemma that needs injectivity names it. Parsing and rendering of
CSV and JSON are parameters too.

## Where the code differs from a first reading

- Pairing the two readers pulls an input row before it learns that the output is exhausted, so one
  surplus input row goes unnoticed (`Exactness.SurplusRow`); the equivalence says "or one more".
- The gate reads the two booleans of the rule comparison, not its status: a secondary full-hash pin
  that differs stops the stage and not the gate (`Baseline.SecondaryPinOnlyStopsTheStage`).
- The verify stage can die before its `try`, leaving the previous result in place; the stage machine
  has that step, and soundness holds with it.
- A PASS compares the two outputs present with each other, not with what was verified
  (`StagedRuns.ReplacedOutputsStillPass`).
- Verify does not hash the files it compares. The digests it reports are those of the last cli file that
  was saved, so where a validate stage dies after its engine ran, a PASS can stand for files of an engine
  run that no record speaks of (`Overtaken.PassCanDeceive`); `Trails.VerifiedOutputExactly` and
  `Trails.PassIsGrounded` say exactly when it does not.
- Recording ends at the dump, so what exit handlers, finalizers and other threads of the engine do after
  it is no part of the verdict (`Safety.LateEventPasses`, `Safety.WholeProcessExactly`).
- A row shorter than the header gives null cells. The engine reads them as the text "None", the oracle
  as blank; `Oracle.EngineAgreesExactly` says exactly when that shows.
- For a repository at "/" the containment test asks for two slashes: it accepts the root, and below it
  exactly the paths written with two leading slashes, such as "//foo" (`Paths.RootRepositoryExact`).
- The recorder promises that a run without a dump is never classified PASS. Nothing removes the file of
  an earlier run, so a run that is killed, or whose dump raises, can be classified PASS on that one
  (`Safety.StaleRecordPasses`); its return code is then not 0, unless the engine left through
  `os._exit` with a status that is 0 modulo 256 (`Safety.CleanExitAndPassExactly`).
- The registry's docstring says repeated builds converge. They do from the second build on; at once
  only if no healed description ended in blanks before its note was added. Release documents quote the
  registry, so in the other case the second run of the fixed-point verifier says DIVERGED
  (`Rebuild.SecondRunExactly`, `Rebuild.BlankEndedDiverges`).
- The gate ledger is truncated before it is rewritten. A run that dies inside that write loses the
  history; the gate file survives it and every later run refuses (`GateLedger.HistoryKept`).
- The mutation verdict is printed as "all mutants detected", but a mutant that could not be applied
  does not count against it. The words are true exactly when every anchor occurs once
  (`Mutation.AllDetectedExactly`, `Mutation.OneOfTwoDetected`, `Mutation.EmptyVictory`).
- A manifest that lists itself records the size of the file it is about to replace
  (`ArtifactManifest.SelfEntryDrifts`).

## Model

| member | source | states |
|---|---|---|
| `Text.StripSplit` | scripts/final_3m_validation.py:263 | `strip()` splits any string into blanks, a trimmed core and blanks |
| `Text.StripUnique` | scripts/final_3m_validation.py:263 | that core is unique, so padding never changes what `strip()` returns |
| `Text.FindFrom` | scripts/hardening_evidence_builder.py:577-578 | the search behind `in` and `replace(…, 1)` finds the leftmost occurrence, or proves there is none |
| `Text.DecimalInjective` | scripts/final_3m_validation.py:700 | two row positions with the same `str(n)` are the same position |
| `Text.SortedIsListing` | scripts/final_3m_validation.py:874 | `sorted(keys)` lists every key once, in order |
| `Text.SortedEqualIffSameKeys` | scripts/final_3m_validation.py:874-878 | comparing two sorted name lists is comparing the two name sets |
| `Pattern.MatchDollarExact` | data_quality_platform/rules/v1_rules.py:177-179 | for every pattern and string, `match` with a final `$` accepts exactly what `fullmatch` accepts, with or without one final newline |
| `Pattern.StrippedMatchesAgree` | data_quality_platform/rules/v1_rules.py:189-195 | after `strip()` the two ways of matching accept the same strings |
| `Email.EmailScanExact` | scripts/final_3m_validation.py:207 | the address pattern, a scan that cuts at the first "@" and the last ".", and a split into local part, host and a letters-only suffix of two or more accept exactly the same strings |
| `Email.UnstrippedDifference` | scripts/final_3m_validation.py:262-268 | without stripping, oracle and engine differ on exactly the valid addresses followed by one newline |
| `Oracle.TranscriptionAgrees` | scripts/final_3m_validation.py:179-205 | the checker's own prefix table and pattern list equal the contract's, for every key |
| `Oracle.OraclePrefixes` | scripts/final_3m_validation.py:179-199 | every state has prefixes and every prefix is two digits |
| `Oracle.NameRuleAgrees` | scripts/final_3m_validation.py:231-246 | on a stripped name, the engine's two name rules and the oracle's give the same flag |
| `Oracle.EmailRulesAgree` | scripts/final_3m_validation.py:262-268 | on any text, the three engine email rules together give the oracle's triple, although they match with `$` and it matches fully |
| `Oracle.GeographyRulesAgree` | scripts/final_3m_validation.py:271-283 | on stripped ZIP and state, the two engine geography rules together give the oracle's pair |
| `Oracle.NameAgreesExactly` | data_quality_platform/rules/v1_rules.py:45-57 | name rule and oracle agree on a row if and only if the column is not null |
| `Oracle.EmailAgreesExactly` | data_quality_platform/rules/v1_rules.py:157-195 | the email rules and the oracle agree on a row if and only if the address is not null |
| `Oracle.GeographyAgreesExactly` | data_quality_platform/rules/v1_rules.py:255-296 | the geography rules and the oracle agree on a row if and only if it does not pair a null ZIP with a known state |
| `Oracle.EngineAgreesExactly` | scripts/final_3m_validation.py:286-300 | all eight engine flags equal the oracle's if and only if no name and no address is null and no null ZIP meets a known state |
| `Oracle.FlagsConsistent` | scripts/final_3m_validation.py:262-283 | the three email flags sum to one, only assessable rows mismatch, and a row is eligible exactly when the address scan accepts it |
| `Oracle.PaddingInvariant` | scripts/final_3m_validation.py:231-300 | padding any column with blanks changes no flag |
| `Generator.MatchingZip` | scripts/final_3m_validation.py:343-345 | whatever is drawn, the ZIP is five trimmed characters and starts with one of the state's prefixes |
| `Generator.MismatchingZip` | scripts/final_3m_validation.py:348-354 | the rejection loop yields a ZIP that starts with none of the state's prefixes, and yields none exactly when every draw was the state's own |
| `Generator.DrawnZips` | scripts/final_3m_validation.py:343-354 | the oracle judges the first kind assessable and matching, the second assessable and mismatching, for every state of the table in either case |
| `Lockstep.DictReader.Next` | scripts/final_3m_validation.py:694-697 | the reader yields the rows in order, once each, then None |
| `Lockstep.DictReader.Drain` | scripts/final_3m_validation.py:741-742 | counting the rest counts exactly the rows not yet pulled |
| `Lockstep.CompareSource` | scripts/final_3m_validation.py:706-711 | tells whether the source columns of a pair agree, and the first that does not |
| `Lockstep.TallyFlags` | scripts/final_3m_validation.py:713-718 | tells whether all flag cells are "0" or "1", and adds exactly the "1" cells to the totals |
| `Lockstep.AddMismatch` | scripts/final_3m_validation.py:724-734 | one more mismatch keeps the counter, the per-rule counters and the first five samples describing the list of mismatches |
| `Lockstep.CompareFlags` | scripts/final_3m_validation.py:720-734 | after one row, counters and samples describe the mismatches so far followed by this row's |
| `Lockstep.CheckIdentity` | scripts/final_3m_validation.py:700-703 | after one row, the identity status and first anomaly are those of all pairs so far |
| `Lockstep.CheckSource` | scripts/final_3m_validation.py:706-711 | after one row, the preservation status and first difference are those of all pairs so far |
| `Lockstep.CheckFlags` | scripts/final_3m_validation.py:713-718 | after one row, the domain flag and totals are those of all output rows so far |
| `Lockstep.CheckOracle` | scripts/final_3m_validation.py:720-734 | after one row, comparisons are eight per row and the mismatch books describe all pairs so far |
| `Lockstep.Tally.Row` | scripts/final_3m_validation.py:697-738 | the loop body keeps every counter and flag accounting for exactly the pairs seen |
| `Lockstep.VerifyAndOracle` | scripts/final_3m_validation.py:650-764 | the streaming pass, with its one-row look-ahead, returns exactly the result stated on the two tables |
| `Lockstep.Report` | scripts/final_3m_validation.py:740-764 | the statuses after the loop are those of the whole tables |
| `Exactness.VerificationExact` | scripts/final_3m_validation.py:673-764 | nine PASS statuses and zero mismatches if and only if headers are right, ids are 1..n, the output has the expected rows and each is its input row with the oracle's flags, and the input has that many rows or one more |
| `Exactness.RowChecksMeanEnrichment` | scripts/final_3m_validation.py:697-736 | identity, preservation and mismatch checks together say exactly that each output row enriches its input row, which forces the flag domain |
| `Exactness.CleanCountsEqual` | scripts/final_3m_validation.py:741-751 | in a clean result the row counts are equal exactly when the input is not longer than the output, and never differ by more than one |
| `Exactness.SurplusRow` | scripts/final_3m_validation.py:697-742 | one surplus input row leaves the whole result unchanged; a second fails the row count |
| `Exactness.Conservation` | scripts/final_3m_validation.py:687-738 | on any two tables: per-rule mismatches sum to the total, which is at most eight per row; samples number min(5, mismatches); no mismatch forces the flag domain; ordering equals preservation; no flag total exceeds the rows |
| `Engine.CountFlags` | data_quality_platform/validation/engine.py:185-188 | one row adds exactly its raised flags to the counts |
| `Engine.Validate` | data_quality_platform/validation/engine.py:163-205 | the engine's pass writes one row per row, and its flag counts are the "1" cells of what it wrote |
| `Engine.WrittenEnriches` | data_quality_platform/validation/engine.py:203-205 | a written row is the input row with the oracle's flags if and only if no source cell was null and the rules agreed with the oracle |
| `Engine.EngineOutputVerifies` | scripts/final_3m_validation.py:650-764 | the checker passes what the engine writes if and only if header, count and ids are right, no cell is null and the rules agree with the oracle |
| `Engine.V1WellFormed` | scripts/final_3m_validation.py:157-176 | the V1 columns and flags meet what the checker relies on |
| `Engine.V1RunVerifies` | data_quality_platform/validation/engine.py:87-206 | with the frozen V1 rules, the engine's output on a dataset verifies if and only if the dataset conforms |
| `Engine.CleanTotals` | scripts/final_3m_validation.py:713-718 | in a clean V1 run the three email flag totals sum to the expected rows, and mismatches do not exceed assessable rows |
| `Recorder.Hook.Audit` | scripts/final_3m_runtime_safety_wrapper.py:78-95 | an event is appended exactly when recording, matching, and below the cap; otherwise nothing changes |
| `Recorder.Hook.Dump` | scripts/final_3m_runtime_safety_wrapper.py:98-123 | a dump that succeeds holds the log as it was, without its own file operations; one that fails leaves the file that was there |
| `Recorder.Wrap` | scripts/final_3m_runtime_safety_wrapper.py:98-182 | around any run and however it ends: the events file is the dump of that run, in which nothing that happens after the dump has a part, or, when there was none, whatever stood there before; the return code is the engine's status modulo 256, 2 when the dump raised, never 0 when the process was killed |
| `Recorder.TruncationExact` | scripts/final_3m_runtime_safety_wrapper.py:172 | the truncation bit is off if and only if fewer events matched than the cap, and then the log is the complete list in order |
| `Recorder.LogMembers` | scripts/final_3m_runtime_safety_wrapper.py:72-95 | the log holds a record if and only if some matching event of the trace left it |
| `Safety.ClassifyRuntimeSafety` | scripts/final_3m_validation.py:914-1034 | the classifier's loop counts exactly the network, process, mutation and out-of-repository records, and reads a missing, unreadable or truncated file as NOT_MEASURED |
| `Safety.ObjectionableIsRecorded` | scripts/final_3m_runtime_safety_wrapper.py:57-75 | every event the classifier objects to matches the recorder's filter |
| `Safety.RecordJudgesEvent` | scripts/final_3m_validation.py:976-1005 | judging the stored record is judging the event itself |
| `Safety.DumpPassesExactly` | scripts/final_3m_validation.py:937-1030 | a dump is classified PASS if and only if fewer events matched than the cap and no event before the dump was a socket event, a listed process event, a listed removal, rename or link at all, or a write-open outside the repository |
| `Safety.PassExactly` | scripts/final_3m_validation.py:612-645 | after a run, PASS arises if and only if the run dumped its record and its trace up to the dump was safe, or it left none and the file of an earlier run still passes |
| `Safety.CleanExitAndPassExactly` | scripts/final_3m_validation.py:1127-1128 | return code 0 with PASS if and only if the run dumped its record, exited with a status that is 0 modulo 256 and was safe up to the dump, or the engine left through `os._exit` with such a status where an earlier file passes |
| `Safety.WholeProcessExactly` | scripts/final_3m_runtime_safety_wrapper.py:98-116 | of a run that dumped its record: no event of the whole process was objectionable, and fewer matched than the cap, if and only if PASS is given and no event after the dump was objectionable |
| `Safety.LateEventPasses` | scripts/final_3m_runtime_safety_wrapper.py:98-104 | that condition is needed: a run that removes a file outside the record, after its dump, is classified PASS with return code 0 |
| `Safety.FreshPathIsMeasured` | scripts/final_3m_runtime_safety_wrapper.py:12-18 | where no file stood before, a run without a dump is NOT_MEASURED, and PASS is exactly a dump of a safe trace |
| `Safety.StaleRecordPasses` | scripts/final_3m_runtime_safety_wrapper.py:12-18 | the promise fails where a file stood: after a clean run, one that opens a socket and is killed is classified PASS, with a return code that is not 0 |
| `Safety.PassedRunStayedInside` | scripts/final_3m_validation.py:965-1013 | after a PASS every structured write-open named a path whose components extend the repository's |
| `Paths.InRepoExact` | scripts/final_3m_validation.py:965-975 | the string test on the normalised path holds if and only if the path's components, with "." and ".." resolved, extend the root's; relative or absolute, doubled slash included |
| `Paths.RootRepositoryExact` | scripts/final_3m_validation.py:965-975 | for a repository at "/" the test accepts exactly the paths that denote the root and those written with exactly two leading slashes |
| `Paths.RootRepositoryExamples` | scripts/final_3m_validation.py:972-975 | so there "/foo" is rejected and "//foo" accepted, though both lie below the root |
| `Json.PyEqReflexive` | scripts/final_3m_validation.py:1485-1487 | the equality used between saved values is reflexive |
| `Json.PyEqSymmetric` | scripts/final_3m_validation.py:1485-1487 | and symmetric, numbers and booleans included |
| `Baseline.PinnedCoherent` | scripts/final_3m_validation.py:771-828 | a baseline that loads has eight names in order, sixteen-digit heads, and secondary pins that extend exactly those heads |
| `Baseline.NamesMatchExactly` | scripts/final_3m_validation.py:874-882 | the name comparison of sorted lists holds exactly when the manifest has the pinned rules and no others, in the stage and in the gate |
| `Baseline.StageAndGateOnSp1` | scripts/final_3m_validation.py:1346-1373 | the stage's two booleans and the gate's re-derivation agree, up to manifest values that only print like text; and the stage's status is its hash boolean together with the manifest having every full hash of every secondary pin |
| `Baseline.SecondaryPinOnlyStopsTheStage` | scripts/final_3m_validation.py:893-906 | a full hash that differs behind a matching head fails the stage while both gate booleans hold |
| `Verdict.PassingRun` | scripts/final_3m_validation.py:1302-1391 | a run that passes its own checks already meets what the cross-run gates ask of it |
| `Verdict.VerdictMinimal` | scripts/final_3m_validation.py:1394-1543 | PASS if and only if all per-run checks hold for both runs, input and output hashes agree, the byte comparison is exactly True, flag totals are equal maps, and no secondary pin conflicts |
| `Verdict.VerdictSymmetric` | scripts/final_3m_validation.py:1394-1543 | exchanging the two runs never changes the verdict |
| `Verdict.UnusableResultNeverPasses` | scripts/final_3m_validation.py:1249-1280 | an absent, unreadable, foreign or blocked result is never part of a PASS, on either side |
| `Stages.ApplyKeepsWitness` | scripts/final_3m_validation.py:1219-1222 | one stage, however it ends, keeps every whole result file the record of one verify stage |
| `Stages.RunKeepsWitness` | scripts/final_3m_validation.py:1131-1222 | so does every sequence of stages |
| `Trails.RunKeepsClis` | scripts/final_3m_validation.py:1062-1128 | over every run in which only the stages touch the cli files, each whole one is the record of one engine run, that of the validate stage that wrote it |
| `Harness.Session3M.PhaseGenerate` | scripts/final_3m_validation.py:1037-1059 | writes the dataset and then its record; a crash between leaves the dataset without it |
| `Harness.Session3M.PhaseValidate` | scripts/final_3m_validation.py:1062-1128 | runs the engine under the recorder, leaves the files as the validate step of the machine, and exits 0 exactly on return code 0 of a recorded run that was safe up to its dump, or of an `os._exit` over an earlier passing record |
| `Harness.Session3M.PhaseVerify` | scripts/final_3m_validation.py:1131-1222 | leaves the result the machine's verify step leaves, blocked whenever something cannot be read, and exits 0 exactly when every check of the run holds |
| `Harness.Session3M.PhaseFinalize` | scripts/final_3m_validation.py:1648-1842 | replaces the report, removes run 2's bulk files only on PASS, and exits 0 exactly on PASS |
| `Harness.Session3M.RunPass` | scripts/final_3m_validation.py:1225-1246 | a failed generation ends the pass; failed later stages do not stop it |
| `Harness.PassIsARun` | scripts/final_3m_validation.py:1225-1246 | a pass run by the program is a run of the stage machine |
| `EndToEnd.FullResultPasses` | scripts/final_3m_validation.py:1283-1391 | the gate's per-run checks on a saved full result are exactly facts about the observed files |
| `EndToEnd.SavedResultPasses` | scripts/final_3m_validation.py:1249-1391 | a result saved by a verify stage, blocked or full, passes if and only if everything was readable and those facts hold |
| `EndToEnd.PassedSnapshotIsFaithful` | scripts/final_3m_validation.py:1168-1222 | a passing result means the output that stage read is its input row by row with the oracle's flags |
| `EndToEnd.VerdictOnSnapshots` | scripts/final_3m_validation.py:1394-1543 | the whole verdict on two saved results, as a condition on what the two stages saw |
| `StagedRuns.WitnessedVerdict` | scripts/final_3m_validation.py:1662-1683 | after any run, a PASS rests on two whole results, each the record of a verify stage of its own pass |
| `StagedRuns.PassIsSound` | scripts/final_3m_validation.py:1131-1683 | over every sequence of stages with failures anywhere, and any other change to any file but the results and the report: PASS means both last results came from verify stages of this script at this commit, complete and unblocked, over records with one dataset digest, unchanged across both engine runs, and one output digest; and each verified output is its input with the oracle's flags |
| `StagedRuns.ReportOrigin` | scripts/final_3m_validation.py:1820-1829 | a PASS report on disk goes back to a finalize step that turned it so |
| `StagedRuns.ReportIsSound` | scripts/final_3m_validation.py:1820-1829 | a PASS report found after any run was written at a moment when all of the above held |
| `StagedRuns.UntouchedOutputsAgree` | scripts/final_3m_validation.py:1665-1673 | if the outputs are untouched since verify, the verified outputs are one table and the two inputs agree on every source column and flag, with no appeal to the hash |
| `StagedRuns.ReplacedOutputsStillPass` | scripts/final_3m_validation.py:1665-1683 | that premise is needed: replacing both outputs by any one content keeps the PASS |
| `StagedRuns.CleanupOnlyAfterPass` | scripts/final_3m_validation.py:1831-1842 | finalize removes files only on PASS, only when asked, and only the two run 2 names; nothing else changes |
| `Trails.PassMeansSafeRuns` | scripts/final_3m_validation.py:1062-1128 | if the cli file that verify read is the one a validate stage saved, a PASS means that the engine run it records was safe up to its dump, or left through `os._exit(0)` over an earlier passing record |
| `Trails.PassIsSafe` | scripts/final_3m_validation.py:1062-1683 | the same end to end, for both passes: over every sequence of stages from no results and no cli files, with failures anywhere and any other change to any file but the results, the report and the cli files; it is about the runs whose records were read |
| `Trails.VerifiedOutputExactly` | scripts/final_3m_validation.py:1150-1170 | verify does not hash the output again: under a PASS, the table it compared is the one the recorded engine run left if and only if its digest is the one reported, unless the hash confuses the two contents |
| `Trails.VerifiedInputExactly` | scripts/final_3m_validation.py:1150-1170 | the recorded run left the dataset as it was made, and the table compared is that dataset if and only if its digest is still the recorded one, unless the hash confuses them |
| `Overtaken.OvertakenRunsPass` | scripts/final_3m_validation.py:1062-1170 | the digests can differ: from any disk, where in each pass a second validate stage dies after its engine ran, PASS is given though the tables verified are the second engine's and both digests reported are those of the first, whatever the second engine did and however it ended |
| `Overtaken.PassCanDeceive` | scripts/final_3m_validation.py:1062-1170 | for every dataset that conforms to the contract there is such a run: no change from outside, PASS, and in both passes the verified file comes from an engine that opened a connection and was killed, and does not have the digest reported |
| `Trails.RunFollows` | scripts/final_3m_validation.py:1037-1222 | over every run in which only the stages touch their files, the records and tables on disk, and those each verify stage saw, are those of the last completed generate and validate stage, unless a later stage of the pass died before its record |
| `Trails.PassIsGrounded` | scripts/final_3m_validation.py:1037-1683 | end to end, from no stage records: under a PASS each verified output is the one its recorded run left, with the digest reported, and each verified input has the digest recorded for the dataset, unless a stage of that pass that died before verify cut the table |
| `Trails.CutOnlyByDeath` | scripts/final_3m_validation.py:1037-1128 | a table is cut only where a generate or validate stage of its own pass died |
| `Trails.PassIsEnriched` | scripts/final_3m_validation.py:1037-1683 | from the generated dataset to the verdict: under a PASS each pass that was not cut had its dataset made for the expected rows and seed, ran its engine safely, and the very output that run left is the enrichment of the very dataset made, unless the hash confuses the verified input with that dataset |
| `StagedRuns.FinalizeOnceOnly` | scripts/final_3m_validation.py:1665-1676 | after a PASS that cleaned up, no further finalize can PASS, however many finalize stages come in between |
| `Completeness.StageAndGateAgree` | scripts/final_3m_validation.py:1201-1211 | a verify stage exits 0 with real digests and textual hashes if and only if its result passes the gate's per-run checks and the manifest has every full hash of every secondary pin |
| `Completeness.HonestRunsPass` | scripts/final_3m_validation.py:1131-1683 | two honest passes over one dataset reach PASS from any files at all, so the gate is not vacuously strict |
| `Attained.ConformingDatasetsCanPass` | scripts/final_3m_validation.py:1131-1683 | for every dataset that conforms to the contract there are a parser that reads it, a constant in place of the hash, a pin, and a sequence of stages that reaches PASS whatever was on disk before |
| `Completeness.V1TablesAreClean` | data_quality_platform/validation/engine.py:87-206 | a conforming dataset and the frozen rules give the clean tables that argument needs |
| `Stabilized.Tree.WriteStabilized` | scripts/hardening_final_results_builder.py:61-82 | writes exactly when the existing file does not parse to a record equal to the payload but for its stamp; otherwise no byte changes |
| `Stabilized.Tree.WriteStabilizedText` | scripts/hardening_readme_builder.py:97-109 | writes exactly when the lines without the stamp prefix differ |
| `Stabilized.LinesAppend` | scripts/hardening_readme_builder.py:102-103 | splitting whole lines and the text after them is splitting each, for all of Python's line breaks |
| `Stabilized.StampedLines` | scripts/hardening_readme_builder.py:102-106 | the lines of a stamped document without its stamp line are those of the text around it |
| `Stabilized.StampBlind` | scripts/hardening_release_manifest_builder.py:56-77 | whether an existing file survives does not depend on the candidate's stamp |
| `Stabilized.WrittenIsKept` | scripts/hardening_release_manifest_builder.py:56-77 | whatever was there before, what a write leaves is kept by the next candidate with the same body |
| `Pipeline.PassSettles` | scripts/hardening_fixed_point_verify.py:60-71 | one rebuild, from any files, leaves every output it reached settled if and only if the registry it read comes to its final form at once |
| `Pipeline.SettledIsFixed` | scripts/hardening_fixed_point_verify.py:60-71 | a rebuild over settled outputs changes no document, not the registry and no evidence body |
| `Pipeline.FixedExactlyWhenSettled` | scripts/hardening_fixed_point_verify.py:60-71 | a rebuild changes nothing of these if and only if everything it reaches is settled |
| `Pipeline.OnePassConvergence` | scripts/hardening_fixed_point_verify.py:204-219 | for any ordered list of builders over inputs and earlier outputs, with the registry builder reading its own output and the reports that only such reports read reading anything: a second rebuild with any new stamps leaves documents, registry and evidence bodies as they are if and only if the registry first read comes to its final form at once, and then ends as the first did |
| `Pipeline.RegistryRebuilt` | scripts/hardening_evidence_builder.py:521-681 | a rebuild that ends well leaves the registry builder's output for the registry it found |
| `Pipeline.ThirdPassIsFixed` | scripts/hardening_fixed_point_verify.py:204-219 | from the second rebuild on nothing of these changes, whatever the first one read |
| `Rebuild.SecondRunExactly` | scripts/hardening_fixed_point_verify.py:215-219 | with an injective hash and a document that quotes the registry, the second run says CONVERGED if and only if every certified entry the first one read, and heals, held the note or had no trailing blank |
| `Rebuild.QuotedHashReveals` | scripts/hardening_final_results_builder.py:212-228 | carrying an injective hash of the registry's text makes a document tell any two registries apart |
| `Rebuild.ThirdRunConverges` | scripts/hardening_fixed_point_verify.py:215-219 | once two runs have ended well, the third says CONVERGED, with any hash function |
| `Rebuild.BlankEndedDiverges` | scripts/hardening_evidence_builder.py:573-579 | a registry on which the second build differs from the first: one healed description without the note that ends in a blank |
| `Rebuild.ConvergedExactly` | scripts/hardening_fixed_point_verify.py:215-219 | with an injective hash, CONVERGED is said if and only if the rebuild ends well and changes no document |
| `ReleaseSequence.DistinctOutputs` | scripts/hardening_evidence_builder.py:922-946 | no two of the twenty-five outputs of the rebuild sequence share a path |
| `ReleaseSequence.ReleaseIsSetUp` | scripts/hardening_fixed_point_verify.py:44-71 | the rebuild sequence of the release, whatever its builders derive from what they see, is in order: every output is new when it is written, the nine documents compared are the documents built, and only the two inventories and the contradiction report stand outside |
| `ReleaseSequence.ReleaseConverges` | scripts/hardening_fixed_point_verify.py:204-243 | so for that sequence: the second run says CONVERGED if and only if the registry the first one read was settled, given that `FINAL_RESULTS.json` quotes an injective hash of it; the third says it always |
| `Rebuild.Workspace.RebuildRegistry` | scripts/hardening_evidence_builder.py:521-681 | the registry step leaves the specified registry, or fails and leaves it alone |
| `Rebuild.Workspace.BuildOne` | scripts/hardening_fixed_point_verify.py:206-213 | one step fails exactly when specified, and otherwise writes its output in the way of its kind |
| `Rebuild.Workspace.RebuildAll` | scripts/hardening_fixed_point_verify.py:206-213 | the rebuild loop leaves exactly the specified files and stops at the first failing step |
| `Rebuild.Workspace.FixedPointRun` | scripts/hardening_fixed_point_verify.py:200-219 | the recorded verdict compares the documents before and after that rebuild |
| `Registry.Heal` | scripts/hardening_evidence_builder.py:573-579 | the healing loop ends, and returns the specified description |
| `Registry.HealedOnce` | scripts/hardening_evidence_builder.py:573-579 | a healed description ends in the note and holds it nowhere else |
| `Registry.HealedFixed` | scripts/hardening_evidence_builder.py:573-579 | healing twice is healing once if and only if the description held the note or had no trailing blank; from the second time on always |
| `Registry.NoteIsBorderless` | scripts/hardening_evidence_builder.py:545-548 | no proper part of the note both starts and ends it, so copies cannot overlap |
| `Registry.ReplacedHasNone` | scripts/hardening_evidence_builder.py:567-571 | after the reference replacement the old run's path occurs nowhere |
| `Registry.MovedTwice` | scripts/hardening_evidence_builder.py:567-571 | moving a reference twice is moving it once |
| `Registry.Inherit` | scripts/hardening_evidence_builder.py:553-580 | the loop drops the builder's own entries, refuses unknown identifiers, and refreshes the rest in order |
| `Registry.RegistryFile.BuildLimitations` | scripts/hardening_evidence_builder.py:521-700 | the registry file becomes the specified registry, or stays untouched when the builder stops |
| `Registry.StopsExactly` | scripts/hardening_evidence_builder.py:554-576 | the loop succeeds if and only if every identifier is known and every entry to heal has a description |
| `Registry.BuildIsHealed` | scripts/hardening_evidence_builder.py:566-580 | every healed entry of a build holds the note exactly once, and no inherited reference names the old run |
| `Registry.RebuildReachesFixedPoint` | scripts/hardening_evidence_builder.py:521-681 | a build over its own output never stops, gives the same registry at once if and only if every healed description settled, and from the second build on always |
| `Registry.IdentifiersConserved` | scripts/hardening_evidence_builder.py:552-677 | each certified identifier appears as often as it was read, each of the builder's own once, and no other |
| `GateLedger.ComputeNextRound` | scripts/hardening_gate_round_ledger.py:57-60 | the next round number, or none when an entry lacks its own |
| `GateLedger.NextRoundIsNew` | scripts/hardening_gate_round_ledger.py:57-60 | it exceeds every number in the ledger, by one over the largest |
| `GateLedger.Namespace.LedgerRound` | scripts/hardening_gate_round_ledger.py:63-127 | one run leaves exactly the specified ledger and gate file, dying inside the ledger write or between it and the removal included |
| `GateLedger.HistoryKept` | scripts/hardening_gate_round_ledger.py:90-120 | over every sequence of gate rounds and tool runs, earlier entries stay unchanged and readable if and only if no run dies inside its ledger write; round numbers then strictly increase, and otherwise the ledger is lost |
| `GateLedger.TornRunLeavesTheGateFile` | scripts/hardening_gate_round_ledger.py:117-120 | a run that dies inside its ledger write leaves the gate file live and does not exit 0 |
| `GateLedger.TornIsFinal` | scripts/hardening_gate_round_ledger.py:70-74 | after that every tool run fails and changes nothing |
| `GateLedger.RemovedIsEmbedded` | scripts/hardening_gate_round_ledger.py:107-125 | a gate file a run removes stands in full in the entry that run made |
| `GateLedger.NothingIsLost` | scripts/hardening_gate_round_ledger.py:107-125 | and is still there after any later steps none of which dies inside its ledger write; after one that does the ledger is lost |
| `GateLedger.LiveFileIsPass` | scripts/hardening_gate_round_ledger.py:102-127 | a successful run leaves a live file only on a PASS round in summary mode; a failing run left the gate file and changed nothing, or died with it already embedded, or tore the ledger |
| `GateLedger.SucceedsExactly` | scripts/hardening_gate_round_ledger.py:50-91 | a run over an increasing ledger succeeds if and only if the mode is known, the ledger reads, and the gate file is a record whose checks have name and status |
| `GateLedger.FailuresAreTheFailing` | scripts/hardening_gate_round_ledger.py:85-87 | the failures entered are exactly the checks of the file whose status is not PASS |
| `GateLedger.LastStatusWins` | scripts/hardening_gate_round_ledger.py:88 | a name's entered status is that of the last check of that name |
| `GateLedger.NoFailuresExactly` | scripts/hardening_gate_round_ledger.py:85-87 | the failures entered are none exactly when every check passed |
| `Mutation.RuleSource.Try` | scripts/mutation_testing.py:195-225 | one mutant, whatever the suite does or raises, leaves the original bytes and the specified result |
| `Mutation.RuleSource.RunCampaign` | scripts/mutation_testing.py:166-232 | the source holds its original bytes at every loop head and at every exit, and the results are those of each mutant against the original |
| `Mutation.MutantDiffers` | scripts/mutation_testing.py:181-195 | with the anchor occurring once, the mutant differs from the original if and only if the two texts do |
| `Mutation.RaisesOnlyWithTheSuite` | scripts/mutation_testing.py:198-202 | the no-op assertion never fires on a real change, unless the hash collides on those two texts |
| `Mutation.Partition` | scripts/mutation_testing.py:236-238 | every result is exactly one of detected, survived and not applied |
| `Mutation.SuccessExactly` | scripts/mutation_testing.py:265 | a completed campaign succeeds if and only if the suite failed, naming a test, on every mutant whose anchor occurs once |
| `Mutation.AllDetectedExactly` | scripts/mutation_testing.py:236-265 | of a campaign that succeeds, and so prints that all mutants were detected: this is true if and only if the anchor of every mutant occurs exactly once |
| `Mutation.OneOfTwoDetected` | scripts/mutation_testing.py:182-194 | a campaign of two mutants, one with its anchor missing, that succeeds with one detected |
| `Mutation.EmptyVictory` | scripts/mutation_testing.py:182-194 | and a campaign that could apply no mutant succeeds |
| `Battery.Workspace.RunScenario` | scripts/assurance_mutation.py:111-134 | the touched file is restored on every exit, and the verifier saw the clean evidence with only this scenario's damage |
| `Battery.Workspace.RunScenarios` | scripts/assurance_mutation.py:213-269 | after any list of scenarios the evidence is as it started |
| `Battery.Workspace.RunBattery` | scripts/assurance_mutation.py:196-286 | whatever happens, the evidence ends as it started, and the ending is the specified one |
| `Battery.PassExactly` | scripts/assurance_mutation.py:204-286 | the battery passes if and only if the touched files are there, the verifier accepts the clean evidence before and after and rejects it with each single damage, and all document scenarios were rejected |
| `ArtifactManifest.BuildManifest` | scripts/build_release_artifact_manifest.py:132-180 | the loop over the table yields exactly the specified entries, missing and pending rows, and the self entry when asked |
| `ArtifactManifest.DraftPartitions` | scripts/build_release_artifact_manifest.py:132-168 | every row becomes exactly one of hashed, pending and missing, in order; a finalized build has none pending |
| `ArtifactManifest.Verify` | scripts/build_release_artifact_manifest.py:183-215 | the two loops return exactly the specified list of problems |
| `ArtifactManifest.VerifiesExactly` | scripts/build_release_artifact_manifest.py:183-215 | no problem if and only if paths are distinct, all rows are declared, every hashed file has its size and hash, and nothing is pending when terminal state is asked |
| `ArtifactManifest.DriftExactly` | scripts/build_release_artifact_manifest.py:204-211 | given an injective hash, a manifest verifies over later files if and only if every hashed artifact is there with its very content, and none was pending when terminal state is asked |
| `ArtifactManifest.PendingIsNotTerminal` | scripts/build_release_artifact_manifest.py:200-203 | a pending entry always fails terminal verification |
| `ArtifactManifest.Repository.Build` | scripts/build_release_artifact_manifest.py:256-307 | writes the manifest exactly when nothing is missing and no path leaks |
| `ArtifactManifest.Repository.Check` | scripts/build_release_artifact_manifest.py:234-255 | verification succeeds exactly when the file reads and lists no problem |
| `ArtifactManifest.BuildThenVerify` | scripts/build_release_artifact_manifest.py:132-307 | a build verifies over unchanged artifacts, and a finalized one verifies as terminal |
| `ArtifactManifest.SelfEntryDrifts` | scripts/build_release_artifact_manifest.py:169-179 | with its own entry in it, a manifest verifies if and only if it would without and writing it did not change its size |

## Left out

- CSV and JSON parsing and rendering, file encodings, SHA-256, git, subprocesses, clocks and memory
  figures: parameters, or left out where nothing decides on them.
- Full Unicode tables: `isalpha`, `lower` and `upper` are parameters; two lemmas about null cells need
  the ASCII letters lowered and raised as usual.
- Reason texts, logs, run summaries and report fields that no gate reads.
- The random mix of generated rows; the two ZIP functions take the draws as arguments, and the
  rejection loop, which ends with probability one, gives up when the draws run out.
- A floating-point number in a saved result is a real number: NaN and rounding are left out. Rule hashes
  and flag totals are dictionaries keyed by rule; a path in a saved result is text or unusable.
- An exit status of the engine beyond the range of the C integer that carries it.
- NaN in a stabilised document, which is unequal to itself and would be rewritten every time:
  the library's equality is taken to be reflexive.
- A document, an evidence file that documents read, and the success of a step are functions of inputs,
  earlier documents, earlier evidence bodies and the registry; that no time stamp of an evidence file is
  among them is read off the builders. Git state, the count of passing tests and other inputs from
  outside are taken not to change between rebuilds. Reports that only such reports read (the path
  inventory, the integrity report, the contradiction report) may read anything, and nothing is said of
  their content. The observability record and the two consistency reports are evidence: the contradiction
  checker scans them.
- A writer other than the gate ledger that dies inside a write: what it leaves is one of the arbitrary
  files a rebuild may start from. A registry cut short counts as no registry.
- A mutation or battery process that is killed outright leaves its damage in place; every exit the
  programs themselves take restores.
- A gate ledger that parses to something other than an object.
- A disk that does not keep what was written: restoration checks then fail, as they should.
- The hardening layers A to H, monitoring, lineage and alerts, the checker battery of the fixed-point
  verifier, and the text of release documents: not part of this model.
- The twelve engine steps around the row loop: only the loop decides what is written.
- The gate ledger's seed script is one possible initial ledger.
