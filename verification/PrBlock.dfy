/**
 The pull-request lines block as a text (scripts/pr-lines.py): rendered with line feeds between its
 lines, and split at every line separator before it is read back.
 */
module PrBlock {
  import opened Basics
  import opened PrFigures
  import opened PrTable

  // --- Splitting. -------------------------------------------------------------------------------

  /** The characters at which `str.splitlines` splits. */
  predicate Separator(c: char) {
    var n := c as int;
    10 <= n <= 13 || 28 <= n <= 30 || n == 0x85 || n == 0x2028 || n == 0x2029
  }

  predicate OneLine(s: string) { forall i :: 0 <= i < |s| ==> !Separator(s[i]) }

  /** The first separator from `i` on, or the end of the text. */
  function LineEnd(text: string, i: nat): (n: nat)
    requires i <= |text|
    ensures i <= n <= |text| && (forall k :: i <= k < n ==> !Separator(text[k])) && (n < |text| ==> Separator(text[n]))
    decreases |text| - i
  {
    if i == |text| || Separator(text[i]) then i else LineEnd(text, i + 1)
  }

  /** The length of the first line of a text. */
  function LineLength(text: string): nat { LineEnd(text, 0) }

  /** `str.splitlines`: a carriage return and a line feed together are one separator. */
  function SplitLines(text: string): seq<string>
    decreases |text|
  {
    if text == [] then []
    else
      var n := LineLength(text);
      if n == |text| then [text]
      else if text[n] == '\r' && n + 1 < |text| && text[n + 1] == '\n' then [text[..n]] + SplitLines(text[n + 2..])
      else [text[..n]] + SplitLines(text[n + 1..])
  }

  /** The end of the first line is the only place that looks like one. */
  lemma LineEnds(text: string, n: nat)
    requires n <= |text| && (forall k :: 0 <= k < n ==> !Separator(text[k])) && (n < |text| ==> Separator(text[n]))
    ensures LineLength(text) == n
  {
  }

  lemma SplitFirst(line: string, rest: string)
    requires OneLine(line)
    ensures SplitLines(line + "\n" + rest) == [line] + SplitLines(rest)
  {
    var text := line + "\n" + rest;
    assert text[..|line|] == line && text[|line|] == '\n' && text[|line| + 1..] == rest;
    assert forall k :: 0 <= k < |line| ==> text[k] == line[k];
    LineEnds(text, |line|);
  }

  /** Splitting undoes joining, for lines that are lines. */
  lemma {:induction false} SplitJoined(lines: seq<string>)
    requires lines != [] && lines[|lines| - 1] != [] && forall i :: 0 <= i < |lines| ==> OneLine(lines[i])
    ensures SplitLines(Join(lines)) == lines
    decreases |lines|
  {
    if |lines| == 1 {
      LineEnds(lines[0], |lines[0]|);
    } else {
      SplitFirst(lines[0], Join(lines[1..]));
      SplitJoined(lines[1..]);
    }
  }

  /** A line that is not one is split at its first separator. */
  lemma {:induction false} SplitBroken(lines: seq<string>, i: nat) returns (rest: seq<string>)
    requires i < |lines| && !OneLine(lines[i]) && forall k :: 0 <= k < i ==> OneLine(lines[k])
    ensures SplitLines(Join(lines)) == lines[..i] + [lines[i][..LineLength(lines[i])]] + rest
    decreases |lines|
  {
    if i > 0 {
      rest := SplitBroken(lines[1..], i - 1);
      SplitFirst(lines[0], Join(lines[1..]));
      OneLineMore(lines, i, lines[i][..LineLength(lines[i])], rest);
    } else {
      NotOneLine(lines[0]);
      rest := SplitAtFirst(lines[0], Join(lines));
      assert lines[..0] == [];
    }
  }

  lemma OneLineMore(lines: seq<string>, i: nat, fragment: string, rest: seq<string>)
    requires 0 < i <= |lines|
    ensures [lines[0]] + (lines[1..][..i - 1] + [fragment] + rest) == lines[..i] + [fragment] + rest
  {
    assert [lines[0]] + lines[1..][..i - 1] == lines[..i];
  }

  lemma SplitAtFirst(line: string, text: string) returns (rest: seq<string>)
    requires line <= text && LineLength(line) < |line|
    ensures SplitLines(text) == [line[..LineLength(line)]] + rest
  {
    var n := LineLength(line);
    assert forall k :: 0 <= k <= n ==> text[k] == line[k];
    LineEnds(text, n);
    assert text[..n] == line[..n];
    rest := SplitLines(text)[1..];
  }

  lemma NotOneLine(s: string)
    requires !OneLine(s)
    ensures LineLength(s) < |s|
  {
  }

  // --- The lines of a block. --------------------------------------------------------------------

  lemma OneLineJoins(a: string, b: string)
    ensures OneLine(a + b) <==> OneLine(a) && OneLine(b)
  {
    var c := a + b;
    if OneLine(c) {
      assert forall i :: 0 <= i < |a| ==> a[i] == c[i];
      assert forall i :: 0 <= i < |b| ==> b[i] == c[|a| + i];
    }
  }

  lemma DigitsOneLine(s: string)
    requires AllDigits(s)
    ensures OneLine(s)
  {
    assert forall c :: IsDigit(c) ==> !Separator(c);
  }

  lemma DecimalOneLine(n: nat)
    ensures OneLine(Decimal(n))
  {
    DecimalDigits(n);
    DigitsOneLine(Decimal(n));
  }

  lemma FigureOneLine(n: nat)
    ensures OneLine(Figure(n))
  {
    DecimalOneLine(n);
    DecimalOneLine(Tenths(n) / 10);
    DecimalOneLine(Tenths(n) % 10);
    DecimalOneLine(Thousands(n));
    OneLineJoins(Decimal(Thousands(n)), "k");
    OneLineJoins(Decimal(Tenths(n) / 10), "k");
    OneLineJoins(Decimal(Tenths(n) / 10), ".");
    OneLineJoins(Decimal(Tenths(n) / 10) + ".", Decimal(Tenths(n) % 10));
    OneLineJoins(Decimal(Tenths(n) / 10) + "." + Decimal(Tenths(n) % 10), "k");
  }

  lemma BarOneLine(n: nat, largest: nat, total: nat)
    requires n <= largest && n <= total && largest > 0 && total > 0
    ensures OneLine(Bar(n, largest) + " " + Share(n, total))
  {
    BarShowsEighths(n, largest);
    assert forall c :: IsBlock(c) ==> !Separator(c);
    DecimalOneLine(Percent(n, total));
    OneLineJoins(Decimal(Percent(n, total)), "%");
    OneLineJoins(Bar(n, largest), " ");
    OneLineJoins(Bar(n, largest) + " ", Share(n, total));
  }

  /** A row is one line exactly when its three texts are. */
  lemma RowTextOneLine(a: string, b: string, c: string)
    ensures OneLine(RowText(a, b, c)) <==> OneLine(a) && OneLine(b) && OneLine(c)
  {
    PadOneLine(a);
    PadOneLine(b);
    PadOneLine(c);
    OneLineJoins(Pad(b), "|");
    OneLineJoins(Pad(b) + "|", Pad(c));
    OneLineJoins(Pad(a), "|");
    OneLineJoins(Pad(a) + "|", Pad(b) + "|" + Pad(c));
    OneLineJoins("|", Pad(a) + "|" + (Pad(b) + "|" + Pad(c)));
    OneLineJoins("|" + (Pad(a) + "|" + (Pad(b) + "|" + Pad(c))), "|");
  }

  lemma PadOneLine(a: string)
    ensures OneLine(Pad(a)) <==> OneLine(a)
  {
    OneLineJoins(" ", a);
    OneLineJoins(" " + a, " ");
  }

  lemma {:induction false} EscapeOneLine(name: string)
    ensures OneLine(Escape(name)) <==> OneLine(name)
  {
    if name != [] {
      EscapeOneLine(name[1..]);
      assert name == [name[0]] + name[1..];
      OneLineJoins([name[0]], name[1..]);
      OneLineJoins(if name[0] == '|' then BACKSLASH + "|" else [name[0]], Escape(name[1..]));
    }
  }

  lemma RowOneLine(c: Count, largest: nat, total: nat)
    requires 0 < c.added <= largest && c.added <= total
    ensures OneLine(Row(c, largest, total)) <==> OneLine(c.name)
  {
    EscapeOneLine(c.name);
    FigureOneLine(c.added);
    BarOneLine(c.added, largest, total);
    RowTextOneLine(Escape(c.name), Figure(c.added), Bar(c.added, largest) + " " + Share(c.added, total));
  }

  lemma TitleOneLine(n: nat)
    ensures OneLine(TITLE + Figure(n) + "**")
  {
    FigureOneLine(n);
    OneLineJoins(TITLE, Figure(n));
    OneLineJoins(TITLE + Figure(n), "**");
  }

  lemma FixedOneLine()
    ensures OneLine(HEADER) && OneLine(SEPARATOR)
  {
    RowTextOneLine("Directory", "Added", "Share");
  }

  // --- A name with a separator in it. -----------------------------------------------------------

  /** In an escaped name a backslash comes before every `|`. */
  lemma {:induction false} EscapedBar(name: string, i: nat)
    requires i < |Escape(name)| && Escape(name)[i] == '|'
    ensures i > 0 && Escape(name)[i - 1] == '\\'
  {
    var head := if name[0] == '|' then BACKSLASH + "|" else [name[0]];
    assert Escape(name) == head + Escape(name[1..]);
    if i >= |head| {
      EscapedBar(name[1..], i - |head|);
    }
  }

  /** What is left of a row before a separator is no row: it does not end with a `|` of its own. */
  lemma FragmentIsNoRow(escaped: string, name: string, n: nat)
    requires escaped == Escape(name) && n <= |escaped|
    ensures Strip("| " + escaped[..n]) != [] && RowCells(Strip("| " + escaped[..n])) == None
  {
    var fragment := "| " + escaped[..n];
    assert StripLeft(fragment) == fragment;
    StripRightTrims(fragment);
    StripTrims(fragment);
    var text := Strip(fragment);
    KeepsBar(fragment);
    StripPadded(text);
    if |text| >= 2 && text[|text| - 1] == '|' {
      var i := |text| - 1;
      assert fragment[i] == '|' && i >= 2;
      EscapedBar(name, i - 2);
      assert text[i - 1] == fragment[i - 1] == escaped[i - 3];
    }
  }

  /** Stripping takes nothing of what begins with a `|` but its end. */
  lemma {:induction false} KeepsBar(s: string)
    requires s != [] && s[0] == '|'
    ensures StripRight(s) != []
  {
    if Space(s[|s| - 1]) {
      KeepsBar(s[..|s| - 1]);
    }
  }

  lemma BrokenRow(c: Count, largest: nat, total: nat)
    requires 0 < c.added <= largest && c.added <= total && !OneLine(c.name)
    ensures var row := Row(c, largest, total);
            var text := Strip(row[..LineLength(row)]);
            text != [] && RowCells(text) == None
  {
    var row, e := Row(c, largest, total), Escape(c.name);
    EscapeOneLine(c.name);
    NotOneLine(e);
    var n := LineLength(e);
    RowBegins(e, Figure(c.added), Bar(c.added, largest) + " " + Share(c.added, total));
    BrokenAt(row, e);
    FragmentIsNoRow(e, c.name, n);
  }

  lemma BrokenAt(row: string, e: string)
    requires "| " + e <= row && LineLength(e) < |e|
    ensures LineLength(row) == 2 + LineLength(e) && row[..LineLength(row)] == "| " + e[..LineLength(e)]
  {
    var n := LineLength(e);
    Beginning(row, "| ", e, n);
    LineEnds(row, 2 + n);
  }

  lemma Beginning(s: string, a: string, b: string, n: nat)
    requires a + b <= s && n < |b|
    ensures s[..|a| + n] == a + b[..n] && s[|a| + n] == b[n]
    ensures (forall k :: 0 <= k < |a| ==> s[k] == a[k]) && forall k :: |a| <= k < |a| + n ==> s[k] == b[k - |a|]
  {
    var c := a + b;
    assert forall k :: 0 <= k < |c| ==> s[k] == c[k];
    assert s[..|a| + n] == c[..|a| + n];
  }

  lemma RowBegins(a: string, b: string, c: string)
    ensures "| " + a <= RowText(a, b, c)
  {
  }

  // --- The round trip. --------------------------------------------------------------------------

  /** The names that survive: on one line, trimmed, and without a `|` after an odd run of backslashes. */
  predicate Survives(name: string) { OneLine(name) && CellName(name) }

  /** Reading back the text of a rendered block gives the total's figure and, under each directory's
      name, its figure, bar and share, exactly when the total is below 999,500 and every name
      survives. */
  lemma RoundTrip(counts: seq<Count>)
    requires Listed(counts)
    ensures Parse(SplitLines(Join(Render(counts)))) == Read(ExpectedTable(counts))
            <==> Total(counts) < 999500 && forall i :: 0 <= i < |counts| ==> Survives(counts[i].name)
  {
    if forall i :: 0 <= i < |counts| ==> OneLine(counts[i].name) {
      LinesReadBack(counts);
      RenderedLines(counts);
    } else {
      var i :| 0 <= i < |counts| && !OneLine(counts[i].name);
      BrokenBlock(counts, i);
    }
  }

  lemma BoundedBy(counts: seq<Count>)
    requires Listed(counts) && counts != []
    ensures counts[0].added > 0 && Total(counts) > 0 && Bounded(counts, counts[0].added, Total(counts))
  {
    forall i | 0 <= i < |counts| ensures counts[i].added <= Total(counts) {
      TotalCovers(counts, i);
    }
    TotalCovers(counts, 0);
  }

  /** Where all names are one line, so are all lines, and the text splits into them. */
  lemma RenderedLines(counts: seq<Count>)
    requires Listed(counts) && forall i :: 0 <= i < |counts| ==> OneLine(counts[i].name)
    ensures SplitLines(Join(Render(counts))) == Render(counts)
  {
    var lines := Render(counts);
    if counts == [] {
      assert OneLine(lines[0]);
    } else {
      BoundedBy(counts);
      var largest, total := counts[0].added, Total(counts);
      var rows := RowLines(counts, largest, total);
      RowLinesTrimmed(counts, largest, total);
      forall i | 0 <= i < |rows| ensures OneLine(rows[i]) {
        RowOneLine(counts[i], largest, total);
      }
      TitleOneLine(total);
      FixedOneLine();
      assert lines[|lines| - 1] == rows[|rows| - 1];
    }
    SplitJoined(lines);
  }

  /** A name that is not one line breaks its row in two, and the block with it. */
  lemma BrokenBlock(counts: seq<Count>, i: nat)
    requires Listed(counts) && i < |counts| && !OneLine(counts[i].name)
    ensures Parse(SplitLines(Join(Render(counts)))).Wrong?
  {
    BoundedBy(counts);
    var largest, total := counts[0].added, Total(counts);
    var rows := RowLines(counts, largest, total);
    RowLinesTrimmed(counts, largest, total);
    RowOneLine(counts[i], largest, total);
    var j := FirstBroken(rows, i);
    RowOneLine(counts[j], largest, total);
    BrokenRow(counts[j], largest, total);
    TitleOneLine(total);
    TitleReadsBack(Figure(total));
    NotNone(total);
    FixedOneLine();
    HeaderReadsBack();
    SeparatorReadsBack();
    BrokenTable(Figure(total), TITLE + Figure(total) + "**", HEADER, SEPARATOR, rows, j);
  }

  lemma {:induction false} FirstBroken(rows: seq<string>, i: nat) returns (j: nat)
    requires i < |rows| && !OneLine(rows[i])
    ensures j <= i && !OneLine(rows[j]) && forall k :: 0 <= k < j ==> OneLine(rows[k])
    decreases i
  {
    j := i;
    if k :| 0 <= k < i && !OneLine(rows[k]) {
      j := FirstBroken(rows, k);
    }
  }

  /** The lines over the rows are as they should be. */
  ghost predicate GoodHead(figure: string, title: string, header: string, separator: string) {
    && figure != NONE && TitleOf(title) == (if IsFigure(figure) then Some(figure) else None) && Trimmed(title)
    && RowCells(header) == Some(["Directory", "Added", "Share"]) && Trimmed(header)
    && GoodSeparator(RowCells(separator)) && Trimmed(separator)
  }

  lemma BrokenTable(figure: string, title: string, header: string, separator: string, rows: seq<string>, j: nat)
    requires GoodHead(figure, title, header, separator) && OneLine(title) && OneLine(header) && OneLine(separator)
    requires j < |rows| && !OneLine(rows[j]) && (forall k :: 0 <= k < j ==> OneLine(rows[k])) && TrimmedLines(rows)
    requires Strip(rows[j][..LineLength(rows[j])]) != [] && RowCells(Strip(rows[j][..LineLength(rows[j])])) == None
    ensures Parse(SplitLines(Join([title, ""] + ([header, separator] + rows)))).Wrong?
  {
    TrimmedBefore(rows, j);
    var rest := SplitTable(title, header, separator, rows, j);
    ParseOfBroken(figure, title, header, separator, rows[..j], rows[j][..LineLength(rows[j])], rest);
  }

  lemma TrimmedBefore(rows: seq<string>, j: nat)
    requires TrimmedLines(rows) && j <= |rows|
    ensures TrimmedLines(rows[..j])
  {
  }

  lemma ParseOfBroken(figure: string, title: string, header: string, separator: string, rows: seq<string>,
                      fragment: string, rest: seq<string>)
    requires GoodHead(figure, title, header, separator)
    requires TrimmedLines(rows) && Strip(fragment) != [] && RowCells(Strip(fragment)) == None
    ensures Parse([title, ""] + ([header, separator] + rows) + [fragment] + rest).Wrong?
  {
    ShownOfBroken(title, [header, separator] + rows, fragment, rest);
    BrokenIsWrong(figure, title, header, separator, rows, Strip(fragment), NonBlank(rest));
  }

  lemma SplitTable(title: string, header: string, separator: string, rows: seq<string>, j: nat)
    returns (rest: seq<string>)
    requires OneLine(title) && OneLine(header) && OneLine(separator)
    requires j < |rows| && !OneLine(rows[j]) && forall k :: 0 <= k < j ==> OneLine(rows[k])
    ensures SplitLines(Join([title, ""] + ([header, separator] + rows)))
            == [title, ""] + ([header, separator] + rows[..j]) + [rows[j][..LineLength(rows[j])]] + rest
  {
    var lines := [title, ""] + ([header, separator] + rows);
    TableLines(title, header, separator, rows, j);
    rest := SplitBroken(lines, 4 + j);
  }

  lemma TableLines(title: string, header: string, separator: string, rows: seq<string>, j: nat)
    requires OneLine(title) && OneLine(header) && OneLine(separator)
    requires j < |rows| && forall k :: 0 <= k < j ==> OneLine(rows[k])
    ensures var lines := [title, ""] + ([header, separator] + rows);
            && |lines| == 4 + |rows| && lines[4 + j] == rows[j] && (forall k :: 0 <= k < 4 + j ==> OneLine(lines[k]))
            && lines[..4 + j] == [title, ""] + ([header, separator] + rows[..j])
  {
  }

  lemma ShownOfBroken(title: string, table: seq<string>, fragment: string, rest: seq<string>)
    requires Trimmed(title) && TrimmedLines(table) && Strip(fragment) != []
    ensures NonBlank([title, ""] + table + [fragment] + rest) == [title] + table + [Strip(fragment)] + NonBlank(rest)
  {
    BlockLines(title, table);
    NonBlankJoins([title, ""] + table, [fragment]);
    NonBlankJoins([title, ""] + table + [fragment], rest);
    OnlyLine(fragment);
  }

  lemma OnlyLine(line: string)
    ensures NonBlank([line]) == Kept(line)
  {
    assert [line][..0] == [];
  }

  lemma BrokenIsWrong(figure: string, title: string, header: string, separator: string, rows: seq<string>,
                      text: string, rest: seq<string>)
    requires GoodHead(figure, title, header, separator) && RowCells(text) == None
    ensures ParseShown([title] + ([header, separator] + rows) + [text] + rest).Wrong?
  {
    var all := rows + [text] + rest;
    var shown := [title] + ([header, separator] + rows) + [text] + rest;
    assert shown == [title] + ([header, separator] + all);
    TableParts(title, header, separator, all);
    WrongRow(rows, text);
    assert all[..|rows| + 1] == rows + [text];
    StaysWrong(all, |rows| + 1);
    ParseOfShown(figure, shown, all);
  }

  lemma WrongRow(rows: seq<string>, text: string)
    requires RowCells(text) == None
    ensures Rows(rows + [text]).Wrong?
  {
    assert (rows + [text])[..|rows|] == rows;
  }
}
