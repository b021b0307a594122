# pylint-md report builder, modelled in Dafny

`pylint_md.py` runs pylint on every Python file under a folder. It tallies each file's
findings into four categories (error, warning, refactor, convention) and writes a Markdown
report. The report is a summary table for the whole run, then one section per file with
its own table and one list item per finding. `test_file_has_no_pylint_errors.py` runs the
same analysis as a pytest case per file, and the case fails on any finding at all.

This project models that logic as pure functions over immutable data:

- `Findings`: a pylint JSON record (`Finding`). The per-file analyzer result is `NoOutput`
  for blank stdout and `Parsed(records)` otherwise. `Classify` is the `out and out.strip()`
  test.
- `Tally`: the four categories, the per-file `Counter` (`Count`, `FileTally`) and the
  running totals (`RunTotals`).
- `Decimal`: Python's `str()` of an integer, plus a reader that inverts it.
- `Markdown`: the line list of `pylint_markdown` as a compositional definition (`Report`),
  and readers for a table row's number and a list item's line number.
- `Builder`: `pylint_markdown`'s single loop (`PylintMarkdown`), proved equal to `Report`.
- `MarkdownFacts`: what the lines say when read back (summary, section shape, order,
  placeholder, list items).
- `Export`: the text `export_as_markdown` writes, which is every row followed by `\n`, and
  how that text splits back into lines.
- `Text`: the first occurrence of a character in a string, shared by the readers.
- `Cli`: `main`'s loop over getopt's `(opt, arg)` pairs and its run guard.
- `Harness`: the verdict of the pytest wrapper.
- `Program`: one run end to end. Discovery, pylint's stdout and the JSON decoder are
  function parameters.

Two behaviours of the code are easy to miss, and the model keeps both:

- "* No issues found" is written only when pylint's stdout was blank (pylint_md.py:36, 58,
  69-70). A file whose output decodes to an empty list (`[]`) gets no list item and no
  placeholder (`MarkdownFacts.MessageBlockShape`).
- getopt registers the long options `--rlocation` and `--ooutput_file` (pylint_md.py:103).
  The branches test for `--llocation` and `--oooutput_file` instead (lines 111 and 113).
  So no long option ever takes effect (`Cli.RegisteredLongFormsIgnored`).

## Model

| member | source | states |
|---|---|---|
| Decimal.NatToString | pylint_md.py:75 | a count is printed as a non-empty run of decimal digits with no leading zero |
| Decimal.ParseNatToString | pylint_md.py:44-47 | reading a printed count back gives the count |
| Decimal.NatToStringInjective | pylint_md.py:44-47 | different counts print differently, so a table cell tells its count apart from every other |
| Decimal.ParseIntToString | pylint_md.py:61 | a line number printed with `str()` (sign included) reads back as the same integer |
| Findings.StripEmptyIffBlank | pylint_md.py:36 | `bytes.strip()` leaves nothing exactly when every byte is ASCII whitespace |
| Findings.Classify | pylint_md.py:36-37 | blank stdout is `NoOutput`; any other output is `Parsed` with the decoder's records, or ends the run when decoding fails |
| Tally.FileTally | pylint_md.py:26-38 | a file's count for a category is the multiplicity of that category's exact type name among the records' types, as a `Counter` lookup gives it; blank output counts zero |
| Tally.CountIsMultiplicity | pylint_md.py:38 | the per-file counter of a type equals the multiplicity of that type among the records' types |
| Tally.FileTallyCountsExactType | pylint_md.py:38-47 | each per-file category row counts the records whose type is exactly that category's name, and blank output counts zero |
| Tally.UncountedTypesIgnored | pylint_md.py:44-47 | dropping every record whose type is not one of the four names leaves all four per-file counts unchanged |
| Tally.UncountedRecordChangesNothing | pylint_md.py:44-55 | inserting one record of an uncounted type anywhere in a file's list changes no count |
| Tally.TallySumIsKnownCount | pylint_md.py:38-47 | the four per-file counts add up to the number of records with a counted type, at most the number of records |
| Tally.RunTotalsAreFileSums | pylint_md.py:52-55 | the run-wide total of a category is the sum over files of that file's count |
| Tally.RunTotalsCountAllFindings | pylint_md.py:13-55 | the run-wide total of a category is the number of records in the whole run typed exactly with its name |
| Tally.RunTotalsAppend | pylint_md.py:52-55 | totals are additive over any split of the file list |
| Markdown.Bullet | pylint_md.py:60-65 | a list item opens with `* Line: `, the integer after that opening reads back as the record's line (sign included), and the item ends with the record's module, `.py` and a newline of its own |
| Markdown.BulletFields | pylint_md.py:60-64 | between the line number and the module a list item holds exactly ` is `, the record's message, its message id in brackets and ` in `, so with `Bullet` every field of the record is placed in the item |
| Markdown.RowReadBack | pylint_md.py:44-47 | the number in the last cell of a rendered table row reads back as the count it was built from, whatever the label |
| Builder.RenderFile | pylint_md.py:25-72 | one loop iteration yields a counter holding, per category, the number of the file's records of exactly that type, and a section of ten lines plus the message block that opens with the path heading, shows those counts in its table rows, carries the file's message block and is that file's section of the report |
| Builder.CompleteSummary | pylint_md.py:74-81 | the summary has nine lines: the heading naming the folder, a row that reads back as the file count, one row per category that reads back as that category's total, and a closing rule |
| Builder.PylintMarkdown | pylint_md.py:10-87 | the imperative loop that extends the section lines and accumulates totals produces exactly the report: summary, then every file's section in discovery order |
| MarkdownFacts.SummaryBlock | pylint_md.py:74-81 | the report starts with the heading naming the folder, the table head, the file count, one row per category holding the run-wide count of records of that exact type, and a rule |
| MarkdownFacts.SummaryTotalsAreFileSums | pylint_md.py:52-81 | the number shown in each summary category row is the sum over files of that file's count |
| MarkdownFacts.SectionFrame | pylint_md.py:25-72 | a section is ten lines plus its message block: the path heading, `### Summary`, the six table lines, the messages heading, the message block and a closing rule |
| MarkdownFacts.SectionShape | pylint_md.py:40-49 | a section's table is `|Type|Number|`, `|-|-|` and one row per category whose number reads back as the count of the file's records of exactly that type |
| MarkdownFacts.MessageBlockShape | pylint_md.py:58-70 | blank output gives exactly the placeholder; decoded output, even an empty list, gives one item per record in analyzer order and never the placeholder |
| MarkdownFacts.SectionsInOrder | pylint_md.py:22-87 | the sections follow the nine summary lines, and the i-th file's section starts right after the sections of the files before it |
| MarkdownFacts.PlaceholderMarksBlankOutput | pylint_md.py:36-70 | `* No issues found` occurs in the report exactly once per file with blank output and nowhere else |
| MarkdownFacts.BulletsAreTheFindings | pylint_md.py:58-67 | the report's list items are exactly one item per record of the whole run, file by file in discovery order and in analyzer order within a file |
| Export.Serialize | pylint_md.py:94-95 | the written text is empty exactly when there are no rows, and otherwise ends in a newline |
| Export.ExportAsMarkdown | pylint_md.py:93-95 | the write loop produces the serialisation of all rows |
| Export.SerializeAppend | pylint_md.py:94-95 | writing a concatenation of row lists writes the two texts one after the other |
| Export.SerializeLength | pylint_md.py:94-95 | the text is as long as all rows together plus one character per row |
| Export.SerializeNewlines | pylint_md.py:95 | the text holds the rows' own newlines plus exactly one terminating newline per row |
| Export.LinesOfSerialize | pylint_md.py:94-95 | for every list of rows, the text read back as lines gives each row's own lines in row order; a row with newlines of its own (the messages heading, a list item) gives several |
| Export.LinesOfPlainRows | pylint_md.py:94-95 | rows without newlines of their own read back one line per row |
| Cli.ScanOptions | pylint_md.py:107-114 | the option loop stops exactly when some option is `-h`; otherwise a slot that no option names keeps its starting value |
| Cli.Dispatch | pylint_md.py:103-119 | a getopt error is a usage error; `-h` anywhere means help; otherwise a conversion happens exactly when both `-l` and `-o` were given, with the argument of the last of each; otherwise nothing runs, and each slot is set exactly when its option came |
| Cli.UnhandledOptionIgnored | pylint_md.py:107-114 | an option no branch tests for changes nothing, wherever it appears |
| Cli.RegisteredLongFormsIgnored | pylint_md.py:103-114 | `--rlocation` and `--ooutput_file`, the long forms getopt accepts, never reach an assignment, so giving only those runs nothing |
| Cli.LaterOptionWins | pylint_md.py:111-114 | a trailing `-l` and `-o` override any earlier ones |
| Cli.HelpStopsEverything | pylint_md.py:104-110 | `-h` ends `main` with status 0 whatever precedes it, and a getopt error ends it with status 2 |
| Harness.Judge | test_file_has_no_pylint_errors.py:26 | a case passes exactly when the analyzer reported no records, and otherwise fails with the number of records |
| Harness.TestOutcome | test_file_has_no_pylint_errors.py:22-26 | blank stdout passes; undecodable output breaks the case; decoded output passes exactly when the list is empty |
| Harness.TestRun | test_file_has_no_pylint_errors.py:10-12 | one case per discovered path, in discovery order, each judged on that path's output |
| Harness.CasesAreIndependent | test_file_has_no_pylint_errors.py:11-26 | a case's verdict is unchanged by whatever the analyzer says about other files |
| Harness.PassMeansZeroTally | test_file_has_no_pylint_errors.py:26 | a file that passes the harness has all-zero rows in the report |
| Harness.FailureCountsEverything | test_file_has_no_pylint_errors.py:26 | the harness counts at least every record the report counts, so any non-zero report row means a failing case |
| Harness.UncountedRecordFailsHarness | test_file_has_no_pylint_errors.py:26 | one record of a type outside the four categories fails the case while the report's rows for that file are all zero |
| Harness.AllPassIffNoFindings | test_file_has_no_pylint_errors.py:26 | every case passes exactly when the whole run has no records at all |
| Program.AnalyzeAll | pylint_md.py:22-38 | every discovered path is analysed in order; one undecodable output aborts the whole run |
| Program.Run | pylint_md.py:97-122 | a getopt error exits with status 2 and `-h` with 0; a missing option writes nothing; otherwise the run aborts exactly when some discovered file's output cannot be decoded (the uncaught `json.loads` error of line 37, before the file is opened), and a report is written exactly when every discovered file's output decoded, to the `-o` path, holding the serialised report of the discovered files in order |

## Left out

- File discovery (`glob.glob`, pylint_md.py:16 and 22; test_file_has_no_pylint_errors.py:10)
  is filesystem I/O. It is the `discover` parameter. The two glob calls of `pylint_markdown`
  are assumed to return the same list, so the file count always equals the number of sections.
- Running pylint (`subprocess.Popen` / `communicate`, pylint_md.py:29-35) is external process
  I/O. The captured stdout is the `stdoutOf` parameter, so the analyzer is assumed
  deterministic per path. stderr, shell quoting of paths, and the missing timeout are not
  modelled.
- `json.loads` (pylint_md.py:37) is a library parser. It is the `decode` parameter, which
  returns no value where Python would raise. Records are assumed to carry `type`, `line`,
  `message`, `message-id` and `module`; a missing key (`KeyError`) or a JSON value that is
  not a list is not modelled.
- Opening and writing the output file, and every `print` (pylint_md.py:19, 23, 82-84, 92-95,
  115-116), are I/O. The written content is modelled as the pure concatenation `Serialize`.
  `open(output_path, 'w')` uses the platform's default encoding and text-mode newline
  translation; neither is modelled. Nor are the exceptions a failing `open` or `write` raises,
  which leave no file or a truncated one.
- Program.Run: `Written` assumes that opening and writing the file succeed, so "a report is
  written exactly when every output decoded" holds only for a write that does not fail.
- `getopt.getopt` itself, `sys.exit` and the `__main__` hook (pylint_md.py:103-110, 121-122)
  belong to the library and to process control. The model takes getopt's result as input
  and reports the exit status as a value. An aborted run (an uncaught exception) has no
  modelled exit status.
- The pytest parametrisation and collection machinery belongs to the test runner. Only the
  list of cases and each case's verdict are modelled.
- Finding.line is an unbounded integer. Python's `str()` of a JSON number that is not an
  integer is not modelled.
- Running twice on the same inputs gives the same text because every member is a pure
  function. No separate lemma states this.
