/**
 * The Markdown report of `pylint_markdown` (pylint_md.py:10-87) as a list of
 * lines: a nine-line summary, then one section per file in discovery order.
 */
module Markdown {
  import opened Wrappers
  import opened Decimal
  import opened Findings
  import opened Tally
  import opened Text

  const MessagesHeading: string := "\n### Pylint messages\n"
  const NoIssues: string := "* No issues found"
  const Rule: string := "---"
  const BulletPrefix: string := "* Line: "

  /** A two-cell table row `|name|n|`. */
  function Row(name: string, n: nat): string {
    "|" + name + "|" + NatToString(n) + "|"
  }

  /** The label of a category in a file's table (`error`) and in the summary (`errors`). */
  function SectionLabel(c: Category): string {
    TypeName(c)
  }

  function SummaryLabel(c: Category): string {
    TypeName(c) + "s"
  }

  /** Lines 15 and 74-81. */
  function SummaryRows(location: string, fileCount: nat, totals: Tally): seq<string> {
    [ "# Analysis of folder " + location,
      "|Item|Number|",
      "|-|-|",
      Row("files processed", fileCount),
      Row(SummaryLabel(Error), totals.error),
      Row(SummaryLabel(Warning), totals.warning),
      Row(SummaryLabel(Refactor), totals.refactor),
      Row(SummaryLabel(Convention), totals.convention),
      Rule ]
  }

  /** Lines 40-49. */
  function TallyRows(t: Tally): seq<string> {
    [ "|Type|Number|",
      "|-|-|",
      Row(SectionLabel(Error), t.error),
      Row(SectionLabel(Warning), t.warning),
      Row(SectionLabel(Refactor), t.refactor),
      Row(SectionLabel(Convention), t.convention) ]
  }

  /**
   * Lines 60-65: one record as a list item. It opens with `* Line: `, its line
   * number reads back as the record's line, and it ends with the record's
   * module, `.py` and a newline of its own; `BulletFields` places the message
   * and message id in between.
   */
  function Bullet(f: Finding): (b: string)
    ensures BulletPrefix <= b
    ensures ItemLine(b) == Some(f.line)
    ensures |b| >= |f.moduleName| + 4 && b[|b| - |f.moduleName| - 4..] == f.moduleName + ".py\n"
  {
    var head := BulletPrefix + IntToString(f.line);
    var id := "[" + f.messageId + "] in ";
    var end := f.moduleName + ".py\n";
    var tail := " is " + f.message + id + end;
    ItemLineReadBack(f.line, tail);
    PiecesAt(head, " is ", f.message, id, end);
    head + tail
  }

  /**
   * Between the line number and the module a list item holds ` is `, the
   * record's message, its message id in brackets and ` in `, and nothing else.
   */
  lemma BulletFields(f: Finding)
    ensures var b, k := Bullet(f), |BulletPrefix| + |IntToString(f.line)|;
      && |b| == k + 4 + |f.message| + 1 + |f.messageId| + 5 + |f.moduleName| + 4
      && b[k..k + 4] == " is "
      && b[k + 4..k + 4 + |f.message|] == f.message
      && b[k + 4 + |f.message|..|b| - |f.moduleName| - 4] == "[" + f.messageId + "] in "
  {
    BulletPieces(f);
    PiecesAt(BulletPrefix + IntToString(f.line), " is ", f.message, "[" + f.messageId + "] in ", f.moduleName + ".py\n");
  }

  /** The five pieces a list item is made of, joined as `Bullet` joins them. */
  lemma BulletPieces(f: Finding)
    ensures Bullet(f) == (BulletPrefix + IntToString(f.line)) + (" is " + f.message + ("[" + f.messageId + "] in ") + (f.moduleName + ".py\n"))
  {
  }

  /** Where each of five pieces sits once the last four are joined and put after the first. */
  lemma PiecesAt<T>(a: seq<T>, b: seq<T>, c: seq<T>, d: seq<T>, e: seq<T>)
    ensures var s := a + (b + c + d + e);
      && |s| == |a| + |b| + |c| + |d| + |e|
      && s[|a|..|a| + |b|] == b
      && s[|a| + |b|..|a| + |b| + |c|] == c
      && s[|a| + |b| + |c|..|s| - |e|] == d
      && s[|s| - |e|..] == e
  {
    var s := a + (b + c + d + e);
    assert s[|a|..|a| + |b|] == b;
    assert s[|a| + |b|..|a| + |b| + |c|] == c;
    assert s[|a| + |b| + |c|..|s| - |e|] == d;
    assert s[|s| - |e|..] == e;
  }

  function Bullets(fs: seq<Finding>): (bs: seq<string>)
    ensures |bs| == |fs|
    ensures forall k :: 0 <= k < |fs| ==> bs[k] == Bullet(fs[k])
  {
    seq(|fs|, k requires 0 <= k < |fs| => Bullet(fs[k]))
  }

  /** Lines 58-70: bullets for decoded output (even none), the placeholder for blank output. */
  function MessageBlock(r: AnalyzerResult): seq<string> {
    match r
    case NoOutput => [NoIssues]
    case Parsed(fs) => Bullets(fs)
  }

  /** Lines 25, 40-49 and 57: everything of a section before its message block. */
  function SectionHead(run: FileAnalysis): seq<string> {
    ["## " + run.path, "### Summary"] + TallyRows(FileTally(run.result)) + [MessagesHeading]
  }

  /** Lines 25-72: the file's heading and table, its message block and a closing rule. */
  function Section(run: FileAnalysis): seq<string> {
    SectionHead(run) + MessageBlock(run.result) + [Rule]
  }

  /** The lines of each item in turn, laid out as the file loop's `extend` calls do. */
  function Concat<T>(xs: seq<T>, lines: T -> seq<string>): seq<string>
    decreases |xs|
  {
    if |xs| == 0 then [] else Concat(xs[..|xs| - 1], lines) + lines(xs[|xs| - 1])
  }

  /** Every file's section, in discovery order. */
  function Sections(runs: seq<FileAnalysis>): seq<string> {
    Concat(runs, Section)
  }

  /** Line 87: summary followed by the file sections. */
  function Report(location: string, runs: seq<FileAnalysis>): seq<string> {
    SummaryRows(location, |runs|, RunTotals(runs)) + Sections(runs)
  }

  // ---------------------------------------------------------------------
  // Reading a table row back
  // ---------------------------------------------------------------------

  /** The longest run of digits at the end of `s`. */
  function TrailingDigits(s: string): (d: string)
    ensures |d| <= |s| && d == s[|s| - |d|..]
    ensures AllDigits(d)
    decreases |s|
  {
    if |s| == 0 || !IsDigit(s[|s| - 1]) then [] else TrailingDigits(s[..|s| - 1]) + [s[|s| - 1]]
  }

  /** The number in the last cell of a row `|...|digits|`, if it has one. */
  function CellValue(row: string): Option<nat> {
    if |row| < 2 || row[|row| - 1] != '|' then None
    else
      var digits := TrailingDigits(row[..|row| - 1]);
      if |digits| == 0 || |digits| + 1 >= |row| || row[|row| - 2 - |digits|] != '|' then None
      else Some(ParseDigits(digits))
  }

  lemma {:induction false} TrailingDigitsAfterSeparator(p: string, d: string)
    requires |p| > 0 && !IsDigit(p[|p| - 1])
    requires AllDigits(d)
    ensures TrailingDigits(p + d) == d
    decreases |d|
  {
    if |d| == 0 {
      assert p + d == p;
    } else {
      assert (p + d)[..|p + d| - 1] == p + d[..|d| - 1];
      TrailingDigitsAfterSeparator(p, d[..|d| - 1]);
    }
  }

  /** Reading the last cell of a rendered row gives back the count, whatever the label. */
  lemma RowReadBack(name: string, n: nat)
    ensures CellValue(Row(name, n)) == Some(n)
  {
    var row := Row(name, n);
    var p := "|" + name + "|";
    var d := NatToString(n);
    assert row == (p + d) + "|";
    assert row[..|p + d|] == p + d;
    assert TrailingDigits(p + d) == d by {
      TrailingDigitsAfterSeparator(p, d);
    }
    assert row[|row| - 2 - |d|] == (p + d)[|p| - 1] == p[|p| - 1];
    ParseNatToString(n);
  }

  // ---------------------------------------------------------------------
  // Reading a list item back
  // ---------------------------------------------------------------------

  /** Text `IntToString` could have written: an optional minus sign, then digits. */
  predicate IsIntText(s: string) {
    |s| > 0 && (if s[0] == '-' then AllDigits(s[1..]) else AllDigits(s))
  }

  /** The line number of a list item: the integer between `* Line: ` and the next space. */
  function ItemLine(item: string): Option<int> {
    if !(BulletPrefix <= item) then None
    else
      var rest := item[|BulletPrefix|..];
      var number := rest[..IndexOf(rest, ' ')];
      if IsIntText(number) then Some(ParseInt(number)) else None
  }

  /** A rendered line number followed by a space reads back as that line number. */
  lemma ItemLineReadBack(line: int, tail: string)
    requires |tail| > 0 && tail[0] == ' '
    ensures ItemLine(BulletPrefix + IntToString(line) + tail) == Some(line)
  {
    var number := IntToString(line);
    var rest := number + tail;
    var item := BulletPrefix + number + tail;
    assert item == BulletPrefix + rest;
    assert item[|BulletPrefix|..] == rest;
    assert BulletPrefix <= item;
    IntTextHasNoSpace(line);
    assert rest[|number|] == ' ';
    assert forall j :: 0 <= j < |number| ==> rest[j] == number[j];
    IndexOfAt(rest, ' ', |number|);
    assert rest[..|number|] == number;
    ParseIntToString(line);
  }

  /** `IntToString` writes integer text, which holds no space. */
  lemma IntTextHasNoSpace(i: int)
    ensures IsIntText(IntToString(i))
    ensures forall j :: 0 <= j < |IntToString(i)| ==> IntToString(i)[j] != ' '
  {
    var s := IntToString(i);
    ParseIntToString(i);
    forall j | 0 <= j < |s| ensures s[j] != ' ' {
      if j > 0 && s[0] == '-' {
        assert s[j] == s[1..][j - 1];
      }
    }
  }
}
