/**
 * What the report says, read back from its lines: the summary's numbers are
 * the run's counts, every file has a section of fixed shape in discovery
 * order, the placeholder marks exactly the files with blank output, and the
 * list items are exactly the analyzer's records.
 */
module MarkdownFacts {
  import opened Wrappers
  import opened Findings
  import opened Tally
  import opened Markdown

  /** A message list item, recognised by its fixed opening. */
  predicate IsBullet(row: string) {
    BulletPrefix <= row
  }

  /** The list items among `rows`, in order. */
  function BulletLines(rows: seq<string>): seq<string>
    decreases |rows|
  {
    if |rows| == 0 then []
    else BulletLines(rows[..|rows| - 1]) + (if IsBullet(rows[|rows| - 1]) then [rows[|rows| - 1]] else [])
  }

  /** How many files had blank analyzer output. */
  function BlankFiles(runs: seq<FileAnalysis>): nat
    decreases |runs|
  {
    if |runs| == 0 then 0
    else BlankFiles(runs[..|runs| - 1]) + (if runs[|runs| - 1].result.NoOutput? then 1 else 0)
  }

  // ---------------------------------------------------------------------
  // Summary
  // ---------------------------------------------------------------------

  lemma SummaryThenSections(location: string, runs: seq<FileAnalysis>)
    ensures |Report(location, runs)| == 9 + |Sections(runs)|
    ensures Report(location, runs)[..9] == SummaryRows(location, |runs|, RunTotals(runs))
    ensures Report(location, runs)[9..] == Sections(runs)
  {
  }

  lemma SummaryRowOf(location: string, n: nat, t: Tally, c: Category)
    ensures SummaryRows(location, n, t)[4 + Position(c)] == Row(SummaryLabel(c), t.Get(c))
  {
  }

  lemma TallyRowOf(t: Tally, c: Category)
    ensures TallyRows(t)[2 + Position(c)] == Row(SectionLabel(c), t.Get(c))
  {
  }

  lemma SummaryCategoryRow(location: string, runs: seq<FileAnalysis>, c: Category)
    ensures |Report(location, runs)| >= 9
    ensures Report(location, runs)[4 + Position(c)] == Row(SummaryLabel(c), Count(AllFindings(runs), TypeName(c)))
    ensures CellValue(Report(location, runs)[4 + Position(c)]) == Some(Count(AllFindings(runs), TypeName(c)))
  {
    var rep := Report(location, runs);
    var t := RunTotals(runs);
    var k := 4 + Position(c);
    SummaryThenSections(location, runs);
    assert rep[k] == rep[..9][k];
    SummaryRowOf(location, |runs|, t, c);
    RunTotalsCountAllFindings(runs, c);
    RowReadBack(SummaryLabel(c), Count(AllFindings(runs), TypeName(c)));
  }

  lemma SummaryRowsShape(location: string, n: nat, t: Tally)
    ensures var s := SummaryRows(location, n, t);
      && |s| == 9
      && s[0] == "# Analysis of folder " + location
      && s[1] == "|Item|Number|"
      && s[2] == "|-|-|"
      && s[3] == Row("files processed", n)
      && s[8] == Rule
  {
  }

  lemma SummaryHead(location: string, runs: seq<FileAnalysis>)
    ensures |Report(location, runs)| == 9 + |Sections(runs)|
    ensures Report(location, runs)[0] == "# Analysis of folder " + location
    ensures Report(location, runs)[1] == "|Item|Number|"
    ensures Report(location, runs)[2] == "|-|-|"
    ensures Report(location, runs)[8] == Rule
  {
    var rep := Report(location, runs);
    SummaryThenSections(location, runs);
    SummaryRowsShape(location, |runs|, RunTotals(runs));
    assert rep[0] == rep[..9][0] && rep[1] == rep[..9][1] && rep[2] == rep[..9][2];
    assert rep[8] == rep[..9][8];
  }

  lemma SummaryFileCount(location: string, runs: seq<FileAnalysis>)
    ensures |Report(location, runs)| >= 9
    ensures Report(location, runs)[3] == Row("files processed", |runs|)
    ensures CellValue(Report(location, runs)[3]) == Some(|runs|)
  {
    var rep := Report(location, runs);
    SummaryThenSections(location, runs);
    SummaryRowsShape(location, |runs|, RunTotals(runs));
    assert rep[3] == rep[..9][3];
    RowReadBack("files processed", |runs|);
  }

  /**
   * The first nine lines are the summary: heading, table head, the number of
   * files, one row per category holding the run-wide count of records of
   * exactly that type, and a rule.
   */
  lemma SummaryBlock(location: string, runs: seq<FileAnalysis>)
    ensures |Report(location, runs)| == 9 + |Sections(runs)|
    ensures Report(location, runs)[0] == "# Analysis of folder " + location
    ensures Report(location, runs)[1] == "|Item|Number|"
    ensures Report(location, runs)[2] == "|-|-|"
    ensures Report(location, runs)[3] == Row("files processed", |runs|)
    ensures CellValue(Report(location, runs)[3]) == Some(|runs|)
    ensures forall c: Category ::
      Report(location, runs)[4 + Position(c)] == Row(SummaryLabel(c), Count(AllFindings(runs), TypeName(c)))
    ensures forall c: Category ::
      CellValue(Report(location, runs)[4 + Position(c)]) == Some(Count(AllFindings(runs), TypeName(c)))
    ensures Report(location, runs)[8] == Rule
  {
    SummaryHead(location, runs);
    SummaryFileCount(location, runs);
    forall c: Category
      ensures Report(location, runs)[4 + Position(c)] == Row(SummaryLabel(c), Count(AllFindings(runs), TypeName(c)))
      ensures CellValue(Report(location, runs)[4 + Position(c)]) == Some(Count(AllFindings(runs), TypeName(c)))
    {
      SummaryCategoryRow(location, runs, c);
    }
  }

  /** The summary's totals are the sums over files of each file's row. */
  lemma SummaryTotalsAreFileSums(location: string, runs: seq<FileAnalysis>, c: Category)
    ensures CellValue(Report(location, runs)[4 + Position(c)]) == Some(FileSum(runs, c))
  {
    SummaryBlock(location, runs);
    RunTotalsCountAllFindings(runs, c);
    RunTotalsAreFileSums(runs, c);
  }

  // ---------------------------------------------------------------------
  // One file's section
  // ---------------------------------------------------------------------

  /**
   * A section opens with the path heading and `### Summary`, has the messages
   * heading as its ninth line, then the message block, and closes with a rule.
   */
  lemma SectionFrame(run: FileAnalysis)
    ensures var s := Section(run);
      && |s| == 10 + |MessageBlock(run.result)|
      && s[0] == "## " + run.path
      && s[1] == "### Summary"
      && s[8] == MessagesHeading
      && s[9..|s| - 1] == MessageBlock(run.result)
      && s[|s| - 1] == Rule
  {
    var head, block := SectionHead(run), MessageBlock(run.result);
    var s := Section(run);
    assert |head| == 9;
    assert s == head + (block + [Rule]);
    assert s[0] == head[0] && s[1] == head[1] && s[8] == head[8];
    assert s[9..|s| - 1] == block;
  }

  /** A file's table row for one category counts the records of exactly that type. */
  lemma SectionCountRow(run: FileAnalysis, c: Category)
    ensures |Section(run)| == 10 + |MessageBlock(run.result)|
    ensures Section(run)[4 + Position(c)] == Row(SectionLabel(c), Count(FindingsOf(run.result), TypeName(c)))
    ensures CellValue(Section(run)[4 + Position(c)]) == Some(Count(FindingsOf(run.result), TypeName(c)))
  {
    var t := FileTally(run.result);
    var k := 4 + Position(c);
    assert |Section(run)| == 10 + |MessageBlock(run.result)| && Section(run)[k] == TallyRows(t)[2 + Position(c)] by {
      var head := SectionHead(run);
      assert Section(run) == head + (MessageBlock(run.result) + [Rule]);
      assert |head| == 9;
      assert Section(run)[k] == head[k];
    }
    TallyRowOf(t, c);
    FileTallyCountsExactType(run.result, c);
    RowReadBack(SectionLabel(c), t.Get(c));
  }

  /**
   * Between `### Summary` and the messages heading a section holds the table
   * head and one row per category, whose number reads back as the count of
   * the file's records of exactly that type.
   */
  lemma SectionShape(run: FileAnalysis)
    ensures var s := Section(run);
      && |s| == 10 + |MessageBlock(run.result)|
      && s[2] == "|Type|Number|"
      && s[3] == "|-|-|"
      && (forall c: Category :: s[4 + Position(c)] == Row(SectionLabel(c), Count(FindingsOf(run.result), TypeName(c))))
      && (forall c: Category :: CellValue(s[4 + Position(c)]) == Some(Count(FindingsOf(run.result), TypeName(c))))
  {
    assert Section(run)[2] == "|Type|Number|" && Section(run)[3] == "|-|-|" by {
      var head := SectionHead(run);
      assert Section(run) == head + (MessageBlock(run.result) + [Rule]);
      assert |head| == 9;
    }
    forall c: Category
      ensures |Section(run)| == 10 + |MessageBlock(run.result)|
      ensures Section(run)[4 + Position(c)] == Row(SectionLabel(c), Count(FindingsOf(run.result), TypeName(c)))
      ensures CellValue(Section(run)[4 + Position(c)]) == Some(Count(FindingsOf(run.result), TypeName(c)))
    {
      SectionCountRow(run, c);
    }
  }

  lemma NotBulletAt(row: string, k: nat)
    requires k < |BulletPrefix| && k < |row| && row[k] != BulletPrefix[k]
    ensures !IsBullet(row)
  {
  }

  lemma BulletIsBullet(f: Finding)
    ensures IsBullet(Bullet(f))
    ensures Bullet(f) != NoIssues
  {
    var b := Bullet(f);
    assert b[2] == BulletPrefix[2] == 'L';
    assert NoIssues[2] == 'N';
  }

  /**
   * Blank output gives exactly the placeholder; decoded output (even an empty
   * list) gives one item per record in analyzer order and no placeholder.
   */
  lemma MessageBlockShape(r: AnalyzerResult)
    ensures r.NoOutput? ==> MessageBlock(r) == [NoIssues]
    ensures r.Parsed? ==> |MessageBlock(r)| == |r.findings|
    ensures r.Parsed? ==> forall k :: 0 <= k < |r.findings| ==> MessageBlock(r)[k] == Bullet(r.findings[k])
    ensures r.Parsed? ==> NoIssues !in MessageBlock(r)
    ensures forall row :: row in MessageBlock(r) ==> IsBullet(row) || row == NoIssues
  {
    if r.Parsed? {
      forall k | 0 <= k < |r.findings| ensures IsBullet(Bullet(r.findings[k])) && Bullet(r.findings[k]) != NoIssues {
        BulletIsBullet(r.findings[k]);
      }
    } else {
      NotBulletAt(NoIssues, 2);
    }
  }

  // ---------------------------------------------------------------------
  // Sections in discovery order
  // ---------------------------------------------------------------------

  lemma {:induction false} ConcatAppend<T>(a: seq<T>, b: seq<T>, lines: T -> seq<string>)
    ensures Concat(a + b, lines) == Concat(a, lines) + Concat(b, lines)
    decreases |b|
  {
    if |b| == 0 {
      assert a + b == a;
    } else {
      var init := b[..|b| - 1];
      assert (a + b)[..|a + b| - 1] == a + init;
      ConcatAppend(a, init, lines);
    }
  }

  lemma SectionsAppend(a: seq<FileAnalysis>, b: seq<FileAnalysis>)
    ensures Sections(a + b) == Sections(a) + Sections(b)
  {
    ConcatAppend(a, b, Section);
  }

  /**
   * After the nine summary lines come the sections, and the section of the
   * i-th discovered file starts right after those of the files before it.
   */
  lemma SectionsInOrder(location: string, runs: seq<FileAnalysis>, i: nat)
    requires i < |runs|
    ensures Report(location, runs)[9..] == Sections(runs)
    ensures var start := |Sections(runs[..i])|;
      && start + |Section(runs[i])| <= |Sections(runs)|
      && Sections(runs)[start..start + |Section(runs[i])|] == Section(runs[i])
  {
    SummaryThenSections(location, runs);
    SectionAt(runs, i);
  }

  /** The i-th file's section sits right after the sections of the files before it. */
  lemma SectionAt(runs: seq<FileAnalysis>, i: nat)
    requires i < |runs|
    ensures var start := |Sections(runs[..i])|;
      && start + |Section(runs[i])| <= |Sections(runs)|
      && Sections(runs)[start..start + |Section(runs[i])|] == Section(runs[i])
  {
    SectionsSnoc(runs, i);
    SectionsSplit(runs, i + 1);
    MiddleSlice(Sections(runs[..i]), Section(runs[i]), Sections(runs[i + 1..]));
  }

  /** One more file adds its section at the end. */
  lemma SectionsSnoc(runs: seq<FileAnalysis>, i: nat)
    requires i < |runs|
    ensures Sections(runs[..i + 1]) == Sections(runs[..i]) + Section(runs[i])
  {
    assert runs[..i + 1][..i] == runs[..i];
  }

  /** The sections of a file list split wherever the list does. */
  lemma SectionsSplit(runs: seq<FileAnalysis>, j: nat)
    requires j <= |runs|
    ensures Sections(runs) == Sections(runs[..j]) + Sections(runs[j..])
  {
    assert runs == runs[..j] + runs[j..];
    SectionsAppend(runs[..j], runs[j..]);
  }

  lemma MiddleSlice<T>(a: seq<T>, b: seq<T>, c: seq<T>)
    ensures |a| + |b| <= |(a + b) + c|
    ensures ((a + b) + c)[|a|..|a| + |b|] == b
  {
    assert ((a + b) + c)[..|a| + |b|] == a + b;
    assert (a + b)[|a|..] == b;
  }

  // ---------------------------------------------------------------------
  // The placeholder marks blank output
  // ---------------------------------------------------------------------

  lemma RowIsNotContent(name: string, n: nat)
    ensures Row(name, n) != NoIssues
    ensures !IsBullet(Row(name, n))
  {
    NotBulletAt(Row(name, n), 0);
  }

  /** No line before the message block is a list item or the placeholder. */
  lemma SectionHeadIsNotContent(run: FileAnalysis)
    ensures forall k :: 0 <= k < |SectionHead(run)| ==> !IsBullet(SectionHead(run)[k]) && SectionHead(run)[k] != NoIssues
  {
    var rows := TallyRows(FileTally(run.result));
    var head := SectionHead(run);
    TallyRowsAreNotContent(FileTally(run.result));
    assert head == ["## " + run.path, "### Summary"] + rows + [MessagesHeading];
    NotBulletAt(head[0], 0);
    NotBulletAt(head[1], 0);
    NotBulletAt(head[8], 0);
    assert forall k :: 2 <= k < 8 ==> head[k] == rows[k - 2];
  }

  /** No line of a file's table is a list item or the placeholder. */
  lemma TallyRowsAreNotContent(t: Tally)
    ensures forall k :: 0 <= k < |TallyRows(t)| ==> !IsBullet(TallyRows(t)[k]) && TallyRows(t)[k] != NoIssues
  {
    NotBulletAt("|Type|Number|", 0);
    NotBulletAt("|-|-|", 0);
    RowIsNotContent(SectionLabel(Error), t.error);
    RowIsNotContent(SectionLabel(Warning), t.warning);
    RowIsNotContent(SectionLabel(Refactor), t.refactor);
    RowIsNotContent(SectionLabel(Convention), t.convention);
  }


  lemma SectionPlaceholders(run: FileAnalysis)
    ensures multiset(Section(run))[NoIssues] == (if run.result.NoOutput? then 1 else 0)
  {
    SectionHeadIsNotContent(run);
    assert NoIssues !in SectionHead(run);
    MessageBlockShape(run.result);
  }

  lemma {:induction false} SectionsPlaceholders(runs: seq<FileAnalysis>)
    ensures multiset(Sections(runs))[NoIssues] == BlankFiles(runs)
    decreases |runs|
  {
    if |runs| > 0 {
      SectionsPlaceholders(runs[..|runs| - 1]);
      SectionPlaceholders(runs[|runs| - 1]);
    }
  }

  /** "* No issues found" appears once per file whose analyzer output was blank, and nowhere else. */
  lemma PlaceholderMarksBlankOutput(location: string, runs: seq<FileAnalysis>)
    ensures multiset(Report(location, runs))[NoIssues] == BlankFiles(runs)
  {
    var summary := SummaryRows(location, |runs|, RunTotals(runs));
    SummaryIsNotContent(location, |runs|, RunTotals(runs));
    assert NoIssues !in summary;
    assert multiset(Report(location, runs)) == multiset(summary) + multiset(Sections(runs));
    SectionsPlaceholders(runs);
  }


  // ---------------------------------------------------------------------
  // The list items are the records
  // ---------------------------------------------------------------------

  lemma {:induction false} BulletLinesAppend(a: seq<string>, b: seq<string>)
    ensures BulletLines(a + b) == BulletLines(a) + BulletLines(b)
    decreases |b|
  {
    if |b| == 0 {
      assert a + b == a;
    } else {
      var init := b[..|b| - 1];
      assert (a + b)[..|a + b| - 1] == a + init;
      BulletLinesAppend(a, init);
    }
  }

  lemma {:induction false} BulletLinesOfNone(rows: seq<string>)
    requires forall k :: 0 <= k < |rows| ==> !IsBullet(rows[k])
    ensures BulletLines(rows) == []
    decreases |rows|
  {
    if |rows| > 0 {
      BulletLinesOfNone(rows[..|rows| - 1]);
    }
  }

  lemma {:induction false} BulletLinesOfAll(rows: seq<string>)
    requires forall k :: 0 <= k < |rows| ==> IsBullet(rows[k])
    ensures BulletLines(rows) == rows
    decreases |rows|
  {
    if |rows| > 0 {
      BulletLinesOfAll(rows[..|rows| - 1]);
      assert rows == rows[..|rows| - 1] + [rows[|rows| - 1]];
    }
  }

  lemma SectionBullets(run: FileAnalysis)
    ensures BulletLines(Section(run)) == Bullets(FindingsOf(run.result))
  {
    var head, block := SectionHead(run), MessageBlock(run.result);
    SectionHeadIsNotContent(run);
    BulletLinesOfNone(head);
    NotBulletAt(Rule, 0);
    BulletLinesOfNone([Rule]);
    MessageBlockShape(run.result);
    match run.result {
      case NoOutput =>
        NotBulletAt(NoIssues, 2);
        BulletLinesOfNone([NoIssues]);
      case Parsed(fs) =>
        BulletLinesOfAll(Bullets(fs));
    }
    BulletLinesAppend(head, block);
    BulletLinesAppend(head + block, [Rule]);
  }

  lemma BulletsAppend(a: seq<Finding>, b: seq<Finding>)
    ensures Bullets(a + b) == Bullets(a) + Bullets(b)
  {
  }

  lemma {:induction false} SectionsBullets(runs: seq<FileAnalysis>)
    ensures BulletLines(Sections(runs)) == Bullets(AllFindings(runs))
    decreases |runs|
  {
    if |runs| > 0 {
      var init, last := runs[..|runs| - 1], runs[|runs| - 1];
      SectionsBullets(init);
      SectionBullets(last);
      BulletLinesAppend(Sections(init), Section(last));
      AllFindingsSnoc(runs);
      BulletsAppend(AllFindings(init), FindingsOf(last.result));
    }
  }

  /**
   * The report's list items are exactly one item per record of the whole run,
   * file by file in discovery order and each file's in analyzer order.
   */
  lemma BulletsAreTheFindings(location: string, runs: seq<FileAnalysis>)
    ensures BulletLines(Report(location, runs)) == Bullets(AllFindings(runs))
    ensures |BulletLines(Report(location, runs))| == |AllFindings(runs)|
  {
    var summary := SummaryRows(location, |runs|, RunTotals(runs));
    SummaryIsNotContent(location, |runs|, RunTotals(runs));
    BulletLinesOfNone(summary);
    BulletLinesAppend(summary, Sections(runs));
    SectionsBullets(runs);
  }

  /** No summary line is a list item or the placeholder. */
  lemma SummaryIsNotContent(location: string, n: nat, t: Tally)
    ensures forall k :: 0 <= k < |SummaryRows(location, n, t)| ==>
      !IsBullet(SummaryRows(location, n, t)[k]) && SummaryRows(location, n, t)[k] != NoIssues
  {
    assert ("# Analysis of folder " + location)[0] == '#';
    NotBulletAt("# Analysis of folder " + location, 0);
    NotBulletAt("|Item|Number|", 0);
    NotBulletAt("|-|-|", 0);
    NotBulletAt(Rule, 0);
    RowIsNotContent("files processed", n);
    RowIsNotContent(SummaryLabel(Error), t.error);
    RowIsNotContent(SummaryLabel(Warning), t.warning);
    RowIsNotContent(SummaryLabel(Refactor), t.refactor);
    RowIsNotContent(SummaryLabel(Convention), t.convention);
  }


}
