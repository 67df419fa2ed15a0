# MIRU allele calling, modelled in Dafny

This project models the allele-calling core shared by the two scripts
`MIRUReader.py` and `MIRUFinder.py`. They type MIRU-VNTR loci of
*Mycobacterium tuberculosis* from a primersearch report. The model covers:

- **Report parsing** (`report.dfy`, `report_facts.dfy`). The loop over the
  report's lines threads the current locus `loci`, the current amplimer
  `primerID` and its running mismatch total `mm`. It fills `lookup`
  (amplimer key -> `[mismatch total, label...]` or `'NA'`) and `repeats`
  (locus -> labels). A Python exception that ends the run (`IndexError`,
  `ValueError`, `NameError`, `KeyError`) is an `Err` result.
- **Nearest-bin classification** (`bins.dfy`, `Report.Classify`). The
  `for i in range(16)` and `for i in range(26)` scans compare a length
  against a locus's table rows:
  - the global 1828 bp ceiling gives `'NA'`;
  - the `0580` locus has its own 26-row table with a `No.` label column;
  - MIRUReader.py also rejects lengths past the last row;
  - a tie between two rows goes to the lower row.
- **Counting** (`tally.dfy`). `collections.Counter` key order, `custom_mode`,
  `modes`, `min` and `min` with a key.
- **`chooseMode`** (`choose_mode.dfy`). Both variants, loop by loop. Each is
  proved against a specification function and characterised by lemmas.
- **Consensus** (`consensus.dfy`). MIRUReader.py writes the mode, Warnings
  1–4 or `ND`. MIRUFinder.py writes the mode, the `chooseMode` result or
  `nohit`. Both loops over the loci are modelled.
- **Python string helpers** (`text.dfy`). `split`, `partition`,
  `strip`/`rstrip` with character sets, `int()` and `str()`, each with the
  lemmas the parser facts need.

Both scripts share one model. Where they differ, a `Script = Reader | Finder`
parameter selects the branch.

The model keeps these behaviours of the scripts, which a reader might not
expect:

- A length below the first row appends `0` and does not `break`. The scan
  then also appends the first row's label, so the amplimer gets two labels
  (`Bins.ScanBelowFirst`). This holds for the `0580` table too: the `0` is
  appended whatever the table's `No.` labels are.
- A length equal to the last row appends no label, because no row is
  strictly above it (`Bins.ScanFromLast`).
- An amplimer block with no length line does not abort the run. It only
  leaves a record without labels.
- MIRUFinder.py's `chooseMode` returns *all* tied modes, whatever their sums,
  as soon as two sums are equal (`ChooseMode.FinderChoice`,
  `ChooseMode.PicksDiffer`).

## Model

| member | source | states |
|---|---|---|
| Tally.Distinct | MIRUReader.py:17 | the keys of `Counter(List)` are exactly the values of the list, each once |
| Tally.DistinctOrder | MIRUReader.py:17 | `Counter` lists its keys in the order in which they first appear in the list |
| Tally.MaxCountOver | MIRUReader.py:18 | `max(counts.values())` bounds every key's count and is reached by some key |
| Tally.WithCount | MIRUReader.py:20 | the comprehension keeps a key exactly when its count equals the given count |
| Tally.WithCountKeepsOrder | MIRUReader.py:20 | the comprehension keeps the keys distinct and in first-appearance order |
| Tally.ModesSpec | MIRUReader.py:28-33 | `modes` returns exactly the values with the highest count, each once, in first-appearance order, and is non-empty exactly for a non-empty list |
| Tally.CustomModeUnique | MIRUReader.py:16-25 | `custom_mode` returns `m` if and only if `m` occurs strictly more often than every other value |
| Tally.CustomModeRaises | MIRUReader.py:16-25 | on a non-empty list, `custom_mode` raises `StatisticsError` if and only if two different values share the highest count |
| Tally.Min | MIRUReader.py:63 | `min(mismatchDict.values())` is one of the values and no value is smaller |
| Tally.ArgMin | MIRUReader.py:65 | `min(keys, key=...)` picks a position with the least value, the first such position |
| Bins.Indexed | MIRUReader.py:195-207 | a standard table labels row `i` with the repeat number `i` |
| Bins.FirstAbove | MIRUReader.py:196 | the row where the scan breaks is the first row from `from` on whose length exceeds the amplicon; no row between `from` and it is longer, and when there is none no row from `from` on is longer |
| Bins.Scan | MIRUReader.py:195-210 | the scan loop appends exactly the labels the specification `ScanLabels` gives: `0` below the first row, then the nearer of rows `i-1` and `i`, with `i-1` on a tie |
| Bins.Nearest | MIRUReader.py:198-207 | the reference answer: a row at least distance from the length, the lowest such row |
| Bins.ScanIsNearest | MIRUReader.py:195-207 | inside an ascending table's range the scan appends exactly one label, that of the nearest row (the lower one on a tie) |
| Bins.ScanBelowFirst | MIRUReader.py:208-210 | below the first row, the scan appends `0` and then the first row's label |
| Bins.ScanFromLast | MIRUFinder.py:118-133 | a length at or past the last row appends nothing |
| Bins.ScanExactRow | MIRUReader.py:195-207 | a length equal to a row other than the last gets that row's label |
| Bins.ScanMidpoint | MIRUReader.py:200-207 | a length halfway between two rows gets the lower row's label |
| Bins.ScanMonotone | MIRUReader.py:195-207 | on a standard table a longer amplicon never gets a smaller repeat number |
| Report.TableFor | MIRUReader.py:170-196 | `0580` uses its 26-row table with its `No.` labels, any other locus in the standard table its 16-row column, and a locus absent from it has none (the `KeyError` of `df[loci]`) |
| Report.Classify | MIRUReader.py:164-210 | the classification fails (the `KeyError`) exactly for a length within the ceiling at a locus without a table; an accepted length gets at most two labels, each `0` or a label of the locus's table |
| Report.SetDefault | MIRUReader.py:156 | `setdefault` keeps an existing key's value, adds the key with the default otherwise, and changes no other key |
| Report.OnPrimer | MIRUReader.py:153-156 | a `Primer` line keeps the loop's invariant: the current locus has a `repeats` list |
| Report.OnHeader | MIRUReader.py:157-161 | a header line keeps the invariant: the current amplimer has a `lookup` record under the current locus |
| Report.OnMismatch | MIRUReader.py:162-163 | a mismatch line keeps the invariant |
| Report.OnLength | MIRUReader.py:164-210 | a length line keeps the invariant |
| Report.Step | MIRUReader.py:152-210 | every branch of the loop body keeps the invariant |
| Report.Parse | MIRUReader.py:151-210 | the whole loop keeps the invariant up to its first exception |
| Report.ClassifyLength | MIRUReader.py:168-210 | the length branch's ceiling test, table lookup, last-row test and scan compute `Classify` |
| Report.ReadLength | MIRUReader.py:164-210 | the length branch computes `OnLength`, with its errors in the source's order |
| Report.ReadLine | MIRUReader.py:153-210 | the `if`/`elif` chain computes `Step`: the `Primer`, header and mismatch branches are `OnPrimer`, `OnHeader` and `OnMismatch` themselves, the length branch runs the scan |
| Report.ParseReport | MIRUReader.py:149-210 | the loop over the report's lines (the same in MIRUFinder.py:79-133, without the last-row test) computes `Parse` from empty dictionaries and stops at the first exception |
| ReportFacts.PrimerOpens | MIRUReader.py:153-156 | `Primer name <locus>` makes the locus current and gives it an empty `repeats` list unless it has one |
| ReportFacts.HeaderShortOnly | MIRUReader.py:157 | `Amplimer <n>` counts as a header if and only if `n < 100`, because of the 12-character limit |
| ReportFacts.HeaderOpens | MIRUReader.py:157-161 | a header opens `<locus>_<n>` with a zero total and keeps an existing record |
| ReportFacts.MismatchReportKind | MIRUReader.py:162 | a primer-end line `... with <k> mismatches` takes the mismatch branch |
| ReportFacts.MismatchReportReads | MIRUReader.py:163 | `partition('with ')` and `rstrip(' mismatches')` read back the count `k` |
| ReportFacts.MismatchAdds | MIRUReader.py:162-163 | a primer-end line adds its count to the open amplimer's total and changes nothing else |
| ReportFacts.MismatchesAccumulate | MIRUReader.py:161-163 | a run of mismatch lines adds the sum of their counts to `mm` |
| ReportFacts.LengthReportKind | MIRUReader.py:164 | `\tAmplimer length: <n> bp` takes the length branch, not the mismatch branch |
| ReportFacts.LengthReportReads | MIRUReader.py:165-166 | `split(':')`, `strip(' ')` and `rstrip(' bp')` read back the decimal text of `n` |
| ReportFacts.LengthAppends | MIRUReader.py:164-167 | a length line appends the mismatch total and then the outcome to the record, and the labels to the locus's list |
| ReportFacts.LengthRejected | MIRUReader.py:168-172 | past the 1828 bp ceiling, or (MIRUReader.py) past the last row, the record gets `'NA'` and `repeats` is unchanged |
| ReportFacts.LengthNearest | MIRUReader.py:195-207 | inside the table's range, record and list both get the nearest row's label |
| ReportFacts.ClassifyNearest | MIRUReader.py:174-186 | inside an ascending table's range, classification assigns the nearest row's label |
| ReportFacts.LengthBelowFirst | MIRUReader.py:208-210 | below the first row, record and list both get `0` and then the first row's label |
| ReportFacts.LengthUnlabelled | MIRUFinder.py:117-133 | a length equal to the last row (both scripts), or past it within the ceiling (MIRUFinder.py), records only the mismatch total |
| ReportFacts.ParseConcat | MIRUReader.py:152 | reading two blocks of lines is reading the first and then, unless it raised, the second |
| ReportFacts.ParseFirst | MIRUReader.py:152 | a first line read without an exception hands its state to the rest |
| ReportFacts.StepExtends | MIRUReader.py:152-210 | no line removes a key or a value from `lookup` or `repeats`: records and lists only grow at the end |
| ReportFacts.ParseExtends | MIRUReader.py:151-210 | the whole loop only adds keys and appends to records and lists |
| ReportFacts.LengthStep | MIRUReader.py:164-167 | a length line whose number reads records the classification's outcome |
| ReportFacts.HeaderStep | MIRUReader.py:157-161 | a header line under a locus opens `<locus>_<n>` with a zero total |
| ReportFacts.HeaderThen | MIRUReader.py:157-161 | after a header the rest of the report is read from the opened state |
| ReportFacts.RunThen | MIRUReader.py:161-163 | a run of mismatch lines adds its total to the open amplimer, then the rest is read |
| ReportFacts.HeaderRun | MIRUReader.py:157-163 | a header and its mismatch lines open the record with their total |
| ReportFacts.LengthLast | MIRUReader.py:164-167 | a closing length line records the outcome and ends the block |
| ReportFacts.ParseCons | MIRUReader.py:152 | a line read without an exception hands its state to the rest |
| ReportFacts.AmplimerSection | MIRUReader.py:157-210 | a whole amplimer block (header, mismatch lines, length line) records `[sum of the mismatch counts] + outcome` under `<locus>_<n>` and adds the labels to the locus's list |
| ChooseMode.Attaining | MIRUReader.py:63 | the comprehension keeps exactly the keys whose sum equals the given value |
| ChooseMode.AttainingInOrder | MIRUReader.py:63 | over keys listed once, the comprehension lists each kept key once, in key order |
| ChooseMode.TiedModes | MIRUReader.py:38-42 | the `repeatToCheck` loop collects exactly `modes(List)`, in `Counter` order |
| ChooseMode.CountNaming | MIRUReader.py:43-46 | `x` is the number of `lookup` keys that contain the locus name |
| ChooseMode.SumMismatches | MIRUReader.py:47-53 | after the `range(x)` loop, each tied mode's entry is the sum of the totals of records `name_1` to `name_x` whose first label is that mode |
| ChooseMode.CountedTwice | MIRUReader.py:58-60 | `checklist2.count(item) > 1` if and only if another position holds the same sum |
| ChooseMode.FindDuplicates | MIRUReader.py:57-60 | the `duplicates` flag is set if and only if two sums are equal |
| ChooseMode.ReaderChooseMode | MIRUReader.py:37-66 | MIRUReader.py's `chooseMode` returns the tied modes whose mismatch sum is the least |
| ChooseMode.ReaderPicksLeastSums | MIRUReader.py:57-65 | the duplicate test of MIRUReader.py has no visible effect: both branches give the least-sum modes |
| ChooseMode.ReaderChoice | MIRUReader.py:61-66 | MIRUReader.py's choice is non-empty and holds a mode if and only if no other sum is smaller than its sum; over keys listed once it lists each chosen mode once, in the key order of `mismatchDict`, which fixes the `'/'.join` text |
| ChooseMode.FinderChooseMode | MIRUFinder.py:14-43 | MIRUFinder.py's `chooseMode` returns what `FinderPick` specifies |
| ChooseMode.FinderChoice | MIRUFinder.py:38-42 | with two equal sums, MIRUFinder.py returns every tied mode; otherwise it returns the one mode whose sum is strictly least |
| ChooseMode.PicksAgreeWithoutDuplicates | MIRUFinder.py:42 | when all sums differ, both scripts return the mode with the least sum |
| ChooseMode.PicksDiffer | MIRUFinder.py:40 | tied modes 2, 3, 4 with sums 1, 5, 5 give `2` in MIRUReader.py and `2/3/4` in MIRUFinder.py |
| Consensus.SharedMaxIsTie | MIRUReader.py:224 | on a non-empty list the `except` branch runs if and only if two labels share the highest count |
| Consensus.ReaderLocus | MIRUReader.py:215-230 | the `try`/`except` of one locus, with `chooseMode` run on a tie, writes the text of `ReaderDecision` |
| Consensus.ReaderRowStep | MIRUReader.py:232 | one more locus adds its cell to the row |
| Consensus.ReaderProfile | MIRUReader.py:212-232 | the loop over the loci builds the row `ReaderRow` |
| Consensus.ReaderRowCells | MIRUReader.py:212-232 | the row has a cell for exactly the loci listed, each the text of that locus's decision |
| Consensus.ReaderTiers | MIRUReader.py:214-230 | `ND` if and only if no label; Warning 1 if and only if a strict mode with fewer than `min_amplicons` labels; Warning 2 if and only if a strict mode with enough labels and frequency at most `freq`; the bare mode if and only if a strict mode with enough labels and frequency above `freq`; a polyclonal warning if and only if two labels share the highest count |
| Consensus.TiedChoice | MIRUReader.py:224-228 | on a tie there are at least two modes, each once in first-appearance order, and `chooseMode` picks exactly those with the least sum, each once in the modes' order |
| Consensus.ReaderPolyclonal | MIRUReader.py:224-228 | a polyclonal call lists at least two modes, exactly the labels with the highest count, each once in first-appearance order; it is Warning 3 if and only if there are fewer than `amplicon_mode` labels; its choice is non-empty and holds exactly the modes with the least mismatch sum, each once in the modes' order |
| Consensus.FinderLocus | MIRUFinder.py:146-154 | the `try`/`except` of one locus, with `chooseMode` run on a tie, writes the text of `FinderDecision` |
| Consensus.FinderRowStep | MIRUFinder.py:149 | one more locus adds its cell to the row |
| Consensus.FinderProfile | MIRUFinder.py:143-154 | the loop over the loci builds the row `FinderRow` |
| Consensus.FinderRowCells | MIRUFinder.py:143-154 | the row has a cell for exactly the loci listed, each the text of that locus's decision |
| Consensus.FinderTiers | MIRUFinder.py:145-154 | `nohit` if and only if no label; the mode `m` if and only if `m` is a strict mode; `chooseMode` if and only if two labels share the highest count |
| Consensus.ScriptsAgreeOnClearMode | MIRUFinder.py:148 | with a strict mode, enough labels and a high enough frequency, both scripts write the same cell |
| Text.SplitCount | MIRUReader.py:154 | `split(sep)` gives one more field than there are separators |
| Text.JoinSplit | MIRUReader.py:154 | joining the fields of `split(sep)` with `sep` gives back the string |
| Text.SplitAt | MIRUReader.py:158 | a first field free of the separator is split off whole |
| Text.SplitWithout | MIRUReader.py:165 | a string without the separator splits into itself |
| Text.AfterSpec | MIRUReader.py:163 | `partition('with ')[2]` is empty when `with ` is missing; otherwise `with ` immediately precedes it as a suffix |
| Text.AfterFirst | MIRUReader.py:163 | `partition` splits at the first occurrence of the separator |
| Text.RStripSpec | MIRUReader.py:163 | `rstrip(chars)` removes the longest suffix of characters in the set, so what is left is a prefix that is empty or does not end in one |
| Text.LStripSpec | MIRUReader.py:166 | the leading half of `strip(' ')` removes the longest prefix of characters in the set, so what is left is a suffix that is empty or does not start with one |
| Text.RStripTail | MIRUReader.py:166 | `rstrip(' bp')` removes exactly a unit suffix made of those characters after a digit |
| Text.IntToStringRoundTrip | MIRUReader.py:166 | `int(str(i)) == i` |
| Text.NatToStringRoundTrip | MIRUReader.py:51 | reading the decimal text of `n` gives back `n` |
| Text.NatToStringShort | MIRUReader.py:157 | the decimal text of `n` has one digit if and only if `n < 10`, and at most two if and only if `n < 100` |

## Left out

- Command-line parsing, file existence checks and reading the primer file: the list of loci `miru` and the thresholds are parameters.
- Converting FASTQ to FASTA and calling `primersearch` (subprocesses and file I/O): the report is given as its sequence of lines.
- Loading the reference tables with pandas: they are a parameter `Tables` (16 rows per locus column; 26 rows and a `No.` column for `0580`). Non-integer `No.` labels are not modelled.
- The pandas DataFrame and its tab-separated printing: the row is a map from locus to cell text, and the column order is not modelled.
- The `--details` printing and the `--nofasta` file removal of the two scripts.
- `statistics.mode` in MIRUFinder.py:148 is modelled as raising on a tie, as it did before Python 3.8. From 3.8 on it returns the first mode, and `chooseMode` is never reached. MIRUReader.py is unaffected, because every branch of its `try` also calls `custom_mode`.
- `--freq` is a float in the source. The model compares `count / n <= freq` exactly, with `freq` given as a fraction, so floating-point rounding at the boundary is not modelled.
- `int()` is modelled with an optional sign, ASCII digits and, around them, the ASCII characters it ignores: space, `\t`, `\n`, `\r`, `\x0b`, `\x0c` and the separators `\x1c` to `\x1f`. Non-ASCII whitespace, underscores and non-ASCII digits are not modelled.
- Labels from the `0580` table are numpy integers in the source. Their `repr` inside the Warning 3/4 list text (`np.int64(3)` under numpy 2) is not modelled: every label prints as a plain integer.
- Tally.ModesSpec: on an empty list `modes` and `custom_mode` raise `ValueError` from `max(counts.values())` (MIRUReader.py:18, :30). The model returns `[]` and `None` there, and its clause `xs != [] <==> Modes(xs) != []` states that empty result. No caller passes an empty list: both consensus loops test for one first and write `ND` or `nohit`.
- Consensus.ReaderProfile: requires that every listed locus has a `repeats` list and, on a tie, the records `chooseMode` reads. Otherwise the source raises `KeyError` or `IndexError`, and that crash is not modelled.
- Consensus.FinderProfile: the same precondition, for the same reason.
- ChooseMode.ReaderChooseMode: requires that records `name_1` to `name_x` exist with at least two cells. Otherwise the source raises `KeyError` or `IndexError`, and that crash is not modelled.
- ChooseMode.FinderChooseMode: the same precondition, for the same reason.
- Report.OnPrimer, Report.OnHeader, Report.OnMismatch, Report.OnLength, Report.Step and Report.Parse: their own contracts state only the loop invariant. What each line does to the state is stated by the `ReportFacts` lemmas about concrete report lines.
