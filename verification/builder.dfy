/**
 * `pylint_markdown` as written (pylint_md.py:10-87): one pass over the files
 * that extends the section lines and adds each file's counts into the
 * totals, then the summary put in front.
 */
module Builder {
  import opened Wrappers
  import opened Findings
  import opened Tally
  import opened Markdown
  import opened MarkdownFacts

  /**
   * One iteration of the file loop (lines 25-72). The counter holds, per
   * category, the file's records of exactly that type; the section opens with
   * the path, shows those counts in its table, carries the message block and
   * is what the report shows for the file.
   */
  method RenderFile(run: FileAnalysis) returns (section: seq<string>, counter: Tally)
    ensures forall c: Category :: counter.Get(c) == Count(FindingsOf(run.result), TypeName(c))
    ensures |section| == 10 + |MessageBlock(run.result)|
    ensures section[0] == "## " + run.path
    ensures forall c: Category :: CellValue(section[4 + Position(c)]) == Some(counter.Get(c))
    ensures section[9..|section| - 1] == MessageBlock(run.result)
    ensures section == Section(run)
  {
    section := ["## " + run.path, "### Summary"];
    counter := FileTally(run.result);
    section := section + TallyRows(counter);
    section := section + [MessagesHeading];
    match run.result {
      case Parsed(fs) =>
        section := section + Bullets(fs);
      case NoOutput =>
        section := section + [NoIssues];
    }
    section := section + [Rule];
    assert section == Section(run);
    SectionFrame(run);
    SectionShape(run);
    forall c: Category ensures counter.Get(c) == Count(FindingsOf(run.result), TypeName(c)) {
      FileTallyCountsExactType(run.result, c);
    }
  }

  /**
   * Lines 74-81: the summary table appended to the heading of line 15. It has
   * nine lines: the heading naming the folder, the file count, each
   * category's total, and a closing rule.
   */
  method CompleteSummary(location: string, fileCount: nat, totals: Tally) returns (summary: seq<string>)
    ensures |summary| == 9
    ensures summary[0] == "# Analysis of folder " + location
    ensures CellValue(summary[3]) == Some(fileCount)
    ensures forall c: Category :: CellValue(summary[4 + Position(c)]) == Some(totals.Get(c))
    ensures summary[8] == Rule
    ensures summary == SummaryRows(location, fileCount, totals)
  {
    summary := ["# Analysis of folder " + location];
    summary := summary + ["|Item|Number|", "|-|-|", Row("files processed", fileCount)];
    summary := summary + [Row("errors", totals.error)];
    summary := summary + [Row("warnings", totals.warning)];
    summary := summary + [Row("refactors", totals.refactor)];
    summary := summary + [Row("conventions", totals.convention), Rule];
    assert SummaryLabel(Error) == "errors" && SummaryLabel(Warning) == "warnings";
    assert SummaryLabel(Refactor) == "refactors" && SummaryLabel(Convention) == "conventions";
    assert summary == SummaryRows(location, fileCount, totals);
    SummaryRowsShape(location, fileCount, totals);
    RowReadBack("files processed", fileCount);
    forall c: Category ensures CellValue(summary[4 + Position(c)]) == Some(totals.Get(c)) {
      SummaryRowOf(location, fileCount, totals, c);
      RowReadBack(SummaryLabel(c), totals.Get(c));
    }
  }

  /**
   * The whole builder: the report is the summary, then every file's section
   * in discovery order, and it agrees with the compositional `Report`.
   */
  method PylintMarkdown(location: string, runs: seq<FileAnalysis>) returns (markdown: seq<string>)
    ensures markdown == Report(location, runs)
  {
    var totals := Zero;
    var fileCount := |runs|;
    var files: seq<string> := [];
    var i := 0;
    while i < |runs|
      invariant 0 <= i <= |runs|
      invariant files == Sections(runs[..i])
      invariant totals == RunTotals(runs[..i])
    {
      var section, counter := RenderFile(runs[i]);
      FileStep(runs, i, files, totals, section, counter);
      totals := totals.Plus(counter);
      files := files + section;
      i := i + 1;
    }
    assert runs[..i] == runs;
    var summary := CompleteSummary(location, fileCount, totals);
    markdown := summary + files;
  }

  /** One turn of the file loop extends the sections and the totals by that file's own. */
  lemma FileStep(runs: seq<FileAnalysis>, i: nat, files: seq<string>, totals: Tally, section: seq<string>, counter: Tally)
    requires i < |runs|
    requires files == Sections(runs[..i]) && totals == RunTotals(runs[..i])
    requires section == Section(runs[i])
    requires forall c: Category :: counter.Get(c) == Count(FindingsOf(runs[i].result), TypeName(c))
    ensures files + section == Sections(runs[..i + 1])
    ensures totals.Plus(counter) == RunTotals(runs[..i + 1])
  {
    forall c: Category ensures counter.Get(c) == FileTally(runs[i].result).Get(c) {
      FileTallyCountsExactType(runs[i].result, c);
    }
    SameCounts(counter, FileTally(runs[i].result));
    SectionsSnoc(runs, i);
    assert runs[..i + 1][..i] == runs[..i];
  }
}
