/**
 * The text `export_as_markdown` writes (pylint_md.py:89-95): every row
 * followed by a newline. Opening and writing the file are not modelled; the
 * result is the file's content.
 */
module Export {
  import opened Text

  /**
   * The file content for `rows`: each row with one terminating newline, so
   * the text is empty exactly for no rows and otherwise ends in a newline.
   */
  function Serialize(rows: seq<string>): (text: string)
    ensures |text| == 0 <==> |rows| == 0
    ensures |rows| > 0 ==> text[|text| - 1] == '\n'
    decreases |rows|
  {
    if |rows| == 0 then "" else Serialize(rows[..|rows| - 1]) + rows[|rows| - 1] + "\n"
  }

  /** The write loop of lines 94-95, accumulating what reaches the file. */
  method ExportAsMarkdown(rows: seq<string>) returns (text: string)
    ensures text == Serialize(rows)
  {
    text := "";
    var i := 0;
    while i < |rows|
      invariant 0 <= i <= |rows|
      invariant text == Serialize(rows[..i])
    {
      text := text + (rows[i] + "\n");
      assert rows[..i + 1][..i] == rows[..i];
      i := i + 1;
    }
    assert rows[..i] == rows;
  }

  lemma {:induction false} SerializeAppend(a: seq<string>, b: seq<string>)
    ensures Serialize(a + b) == Serialize(a) + Serialize(b)
    decreases |b|
  {
    if |b| == 0 {
      assert a + b == a;
    } else {
      var init, last := b[..|b| - 1], b[|b| - 1];
      assert (a + b)[..|a + b| - 1] == a + init;
      assert (a + b)[|a + b| - 1] == last;
      SerializeAppend(a, init);
      assert Serialize(a + b) == (Serialize(a) + Serialize(init)) + last + "\n";
      assert Serialize(b) == Serialize(init) + last + "\n";
    }
  }

  /** Total length of the rows, newlines inside rows included. */
  function TotalLength(rows: seq<string>): nat
    decreases |rows|
  {
    if |rows| == 0 then 0 else TotalLength(rows[..|rows| - 1]) + |rows[|rows| - 1]|
  }

  /** How many newlines the rows themselves contain. */
  function InnerNewlines(rows: seq<string>): nat
    decreases |rows|
  {
    if |rows| == 0 then 0 else InnerNewlines(rows[..|rows| - 1]) + multiset(rows[|rows| - 1])['\n']
  }

  /** The written text is the rows plus one character per row. */
  lemma {:induction false} SerializeLength(rows: seq<string>)
    ensures |Serialize(rows)| == TotalLength(rows) + |rows|
    decreases |rows|
  {
    if |rows| > 0 {
      SerializeLength(rows[..|rows| - 1]);
    }
  }

  /** Every row adds exactly one newline of its own to those it already contains. */
  lemma {:induction false} SerializeNewlines(rows: seq<string>)
    ensures multiset(Serialize(rows))['\n'] == InnerNewlines(rows) + |rows|
    decreases |rows|
  {
    if |rows| > 0 {
      var init, last := rows[..|rows| - 1], rows[|rows| - 1];
      SerializeNewlines(init);
      assert Serialize(rows) == Serialize(init) + last + "\n";
      assert multiset(Serialize(init) + last + "\n") == multiset(Serialize(init)) + multiset(last) + multiset("\n");
    }
  }

  // ---------------------------------------------------------------------
  // Reading the file back as lines
  // ---------------------------------------------------------------------

  /**
   * The lines of a text, read from the front: everything up to the first line
   * break, then the lines of the rest; a final line without a break counts too.
   */
  function Lines(text: string): seq<string>
    decreases |text|
  {
    if |text| == 0 then []
    else
      var k := IndexOf(text, '\n');
      if k == |text| then [text] else [text[..k]] + Lines(text[k + 1..])
  }

  /** A line break inside `p` is also the first one of `p + q`. */
  lemma FirstBreakInPrefix(p: string, q: string)
    requires IndexOf(p, '\n') < |p|
    ensures IndexOf(p + q, '\n') == IndexOf(p, '\n')
  {
    var k := IndexOf(p, '\n');
    IndexOfIsFirst(p, '\n');
    assert forall j :: 0 <= j <= k ==> (p + q)[j] == p[j];
    IndexOfAt(p + q, '\n', k);
  }

  /** The first line of `p + q` is the first line of `p` when `p` holds a line break. */
  lemma FirstLineOfAppend(p: string, q: string)
    requires |p| > 0 && p[|p| - 1] == '\n'
    ensures IndexOf(p, '\n') < |p|
    ensures var k := IndexOf(p, '\n');
      && Lines(p) == [p[..k]] + Lines(p[k + 1..])
      && Lines(p + q) == [p[..k]] + Lines(p[k + 1..] + q)
  {
    IndexOfIsFirst(p, '\n');
    var k := IndexOf(p, '\n');
    FirstBreakInPrefix(p, q);
    assert (p + q)[..k] == p[..k];
    assert (p + q)[k + 1..] == p[k + 1..] + q;
  }

  /** Text that ends in a line break splits into lines independently of what follows. */
  lemma {:induction false} LinesAppend(p: string, q: string)
    requires |p| == 0 || p[|p| - 1] == '\n'
    ensures Lines(p + q) == Lines(p) + Lines(q)
    decreases |p|
  {
    if |p| == 0 {
      assert p + q == q;
    } else {
      var k := IndexOf(p, '\n');
      assert k < |p| by {
        FirstLineOfAppend(p, q);
      }
      LinesAppend(p[k + 1..], q);
      LinesAppendStep(p, q);
    }
  }

  /** The step of `LinesAppend`: once the rest after the first line splits, so does the whole. */
  lemma LinesAppendStep(p: string, q: string)
    requires |p| > 0 && p[|p| - 1] == '\n'
    requires var k := IndexOf(p, '\n');
      k < |p| && Lines(p[k + 1..] + q) == Lines(p[k + 1..]) + Lines(q)
    ensures Lines(p + q) == Lines(p) + Lines(q)
  {
    FirstLineOfAppend(p, q);
    var k := IndexOf(p, '\n');
    Associative([p[..k]], Lines(p[k + 1..]), Lines(q));
  }

  lemma Associative<T>(a: seq<T>, b: seq<T>, c: seq<T>)
    ensures a + (b + c) == (a + b) + c
  {
  }

  /** The lines each row contributes once written with its terminator, row after row. */
  function RowLines(rows: seq<string>): seq<string>
    decreases |rows|
  {
    if |rows| == 0 then [] else RowLines(rows[..|rows| - 1]) + Lines(rows[|rows| - 1] + "\n")
  }

  /**
   * Reading the written text back as lines gives, row after row, the lines of
   * each row: a row with newlines of its own (the messages heading, a list
   * item) contributes several.
   */
  lemma {:induction false} LinesOfSerialize(rows: seq<string>)
    ensures Lines(Serialize(rows)) == RowLines(rows)
    decreases |rows|
  {
    if |rows| > 0 {
      var init, last := rows[..|rows| - 1], rows[|rows| - 1];
      LinesOfSerialize(init);
      assert Serialize(rows) == Serialize(init) + (last + "\n");
      LinesAppend(Serialize(init), last + "\n");
    }
  }

  /** A row without a newline of its own is exactly one line. */
  lemma PlainRowIsOneLine(row: string)
    requires '\n' !in row
    ensures Lines(row + "\n") == [row]
  {
    var text := row + "\n";
    assert forall j :: 0 <= j < |row| ==> text[j] == row[j] != '\n';
    assert text[|row|] == '\n';
    IndexOfAt(text, '\n', |row|);
    assert text[..|row|] == row;
    assert text[|row| + 1..] == "";
  }

  /** Rows without newlines of their own are read back one line per row. */
  lemma LinesOfPlainRows(rows: seq<string>)
    requires forall i :: 0 <= i < |rows| ==> '\n' !in rows[i]
    ensures Lines(Serialize(rows)) == rows
  {
    LinesOfSerialize(rows);
    RowLinesOfPlainRows(rows);
  }

  /** Each row without a newline of its own contributes itself as its only line. */
  lemma {:induction false} RowLinesOfPlainRows(rows: seq<string>)
    requires forall i :: 0 <= i < |rows| ==> '\n' !in rows[i]
    ensures RowLines(rows) == rows
    decreases |rows|
  {
    if |rows| > 0 {
      var init, last := rows[..|rows| - 1], rows[|rows| - 1];
      RowLinesOfPlainRows(init);
      PlainRowIsOneLine(last);
      assert rows == init + [last];
    }
  }

}
