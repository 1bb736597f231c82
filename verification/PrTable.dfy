/**
 The table of the pull-request lines block (scripts/pr-lines.py): its rows are rendered with `|`
 escaped, and read back by a scan over the characters. Reading back what was rendered gives exactly
 what was shown, for exactly the names and totals determined here.
 */
module PrTable {
  import opened Basics
  import opened PrFigures

  // --- Stripping. -------------------------------------------------------------------------------

  function StripLeft(s: string): string {
    if s != [] && Space(s[0]) then StripLeft(s[1..]) else s
  }

  function StripRight(s: string): string {
    if s != [] && Space(s[|s| - 1]) then StripRight(s[..|s| - 1]) else s
  }

  function Strip(s: string): string { StripRight(StripLeft(s)) }

  predicate Trimmed(s: string) { s != [] && !Space(s[0]) && !Space(s[|s| - 1]) }

  lemma StripPadded(s: string)
    requires Trimmed(s)
    ensures Strip(s) == s && Strip(" " + s + " ") == s
  {
    var p := " " + s + " ";
    assert p[1..] == s + " ";
    assert StripLeft(p) == StripLeft(p[1..]) == p[1..];
    assert (s + " ")[..|s|] == s;
  }

  lemma {:induction false} StripLeftTrims(s: string)
    ensures StripLeft(s) == [] || !Space(StripLeft(s)[0])
  {
    if s != [] && Space(s[0]) {
      StripLeftTrims(s[1..]);
    }
  }

  lemma {:induction false} StripRightTrims(s: string)
    ensures StripRight(s) <= s
    ensures StripRight(s) == [] || !Space(StripRight(s)[|StripRight(s)| - 1])
  {
    if s != [] && Space(s[|s| - 1]) {
      StripRightTrims(s[..|s| - 1]);
    }
  }

  lemma StripTrims(s: string)
    ensures Strip(s) == [] || Trimmed(Strip(s))
  {
    StripLeftTrims(s);
    StripRightTrims(StripLeft(s));
  }

  // --- The scan of a row. -----------------------------------------------------------------------

  const BACKSLASH := "\\"

  /** The cells of what is still to be scanned, after `cell`, and after a backslash if `escaped`. */
  function Cells(text: string, cell: string, escaped: bool): (cells: seq<string>)
    ensures |cells| >= 1
  {
    if text == [] then [Strip(cell) + if escaped then BACKSLASH else []]
    else if escaped then Cells(text[1..], cell + (if text[0] == '|' then "|" else BACKSLASH + [text[0]]), false)
    else if text[0] == '\\' then Cells(text[1..], cell, true)
    else if text[0] == '|' then [Strip(cell)] + Cells(text[1..], "", false)
    else Cells(text[1..], cell + [text[0]], false)
  }

  function RowCells(line: string): Option<seq<string>> {
    var text := Strip(line);
    if |text| < 2 || text[0] != '|' || text[|text| - 1] != '|' || text[|text| - 2] == '\\' then None
    else Some(Cells(text[1..|text| - 1], "", false))
  }

  /** `row_cells`. */
  method ReadRow(line: string) returns (r: Option<seq<string>>)
    ensures r == RowCells(line)
  {
    var text := Strip(line);
    if |text| < 2 || text[0] != '|' || text[|text| - 1] != '|' || text[|text| - 2] == '\\' {
      return None;
    }
    var inner := text[1..|text| - 1];
    var cells: seq<string>, cell, escaped := [], "", false;
    for i := 0 to |inner|
      invariant Cells(inner, "", false) == cells + Cells(inner[i..], cell, escaped)
    {
      var c := inner[i];
      assert inner[i..][1..] == inner[i + 1..];
      if escaped {
        cell := cell + if c == '|' then "|" else BACKSLASH + [c];
        escaped := false;
      } else if c == '\\' {
        escaped := true;
      } else if c == '|' {
        cells := cells + [Strip(cell)];
        cell := "";
      } else {
        cell := cell + [c];
      }
    }
    r := Some(cells + [Strip(cell) + if escaped then BACKSLASH else []]);
  }

  predicate Plain(s: string) { '|' !in s && '\\' !in s }

  lemma {:induction false} ScanPlain(s: string, rest: string, cell: string)
    requires Plain(s)
    ensures Cells(s + rest, cell, false) == Cells(rest, cell + s, false)
  {
    if s == [] {
      assert s + rest == rest && cell + s == cell;
    } else {
      assert (s + rest)[1..] == s[1..] + rest;
      ScanPlain(s[1..], rest, cell + [s[0]]);
      assert cell + [s[0]] + s[1..] == cell + s;
    }
  }

  lemma ScanCell(s: string, rest: string, cell: string)
    requires Plain(s)
    ensures Cells(s + "|" + rest, cell, false) == [Strip(cell + s)] + Cells(rest, "", false)
  {
    assert s + "|" + rest == s + ("|" + rest);
    ScanPlain(s, "|" + rest, cell);
    assert ("|" + rest)[1..] == rest;
  }

  lemma ScanLastCell(s: string)
    requires Plain(s)
    ensures Cells(s, "", false) == [Strip(s)]
  {
    assert s + [] == s && "" + s == s && Strip(s) + [] == Strip(s);
    ScanPlain(s, [], "");
  }

  // --- Escaping. --------------------------------------------------------------------------------

  function Escape(name: string): string {
    if name == [] then []
    else (if name[0] == '|' then BACKSLASH + "|" else [name[0]]) + Escape(name[1..])
  }

  /** How many `|` of the name the scan takes for the end of a cell, `odd` backslashes coming before it. */
  function Unprotected(name: string, odd: bool): nat {
    if name == [] then 0
    else if name[0] == '|' then (if odd then 1 else 0) + Unprotected(name[1..], false)
    else Unprotected(name[1..], name[0] == '\\' && !odd)
  }

  /** The backslashes directly before position `i`. */
  function Run(s: string, i: nat): nat
    requires i <= |s|
  {
    if i == 0 || s[i - 1] != '\\' then 0 else 1 + Run(s, i - 1)
  }

  /** No `|` of the name follows an odd run of backslashes. */
  predicate Clean(name: string) {
    forall i :: 0 <= i < |name| && name[i] == '|' ==> Run(name, i) % 2 == 0
  }

  lemma {:induction false} UnprotectedFrom(name: string, k: nat)
    requires k <= |name|
    ensures Unprotected(name[k..], Run(name, k) % 2 == 1) == 0
            <==> forall i :: k <= i < |name| && name[i] == '|' ==> Run(name, i) % 2 == 0
    decreases |name| - k
  {
    if k < |name| {
      assert name[k..][1..] == name[k + 1..];
      UnprotectedFrom(name, k + 1);
    }
  }

  lemma CleanMeansProtected(name: string)
    ensures Clean(name) <==> Unprotected(name, false) == 0
  {
    UnprotectedFrom(name, 0);
    assert name[0..] == name;
  }

  lemma Assoc(a: string, b: string, c: string)
    ensures a + b + c == a + (b + c)
  {
  }

  /** One step of the scan. */
  lemma ScanStep(c: char, rest: string, cell: string, escaped: bool)
    ensures Cells([c] + rest, cell, escaped) ==
            if escaped then Cells(rest, cell + (if c == '|' then "|" else BACKSLASH + [c]), false)
            else if c == '\\' then Cells(rest, cell, true)
            else if c == '|' then [Strip(cell)] + Cells(rest, "", false)
            else Cells(rest, cell + [c], false)
  {
    assert ([c] + rest)[1..] == rest;
  }

  /** An escaped name comes in front of the rest letter by letter. */
  lemma EscapeStep(c: char, tail: string, rest: string)
    ensures Escape([c] + tail) + rest ==
            if c == '|' then ['\\'] + (['|'] + (Escape(tail) + rest)) else [c] + (Escape(tail) + rest)
  {
    assert ([c] + tail)[1..] == tail;
  }

  /** What the scan holds: the cell so far, and the backslash it has not yet decided about. */
  function Held(cell: string, escaped: bool): string { if escaped then cell + BACKSLASH else cell }

  /** The scan of an escaped name gives the name back, backslashes and all. */
  ghost predicate ScansBack(name: string, rest: string, cell: string, escaped: bool) {
    Cells(Escape(name) + ([' '] + rest), cell, escaped) == Cells(rest, Held(cell, escaped) + name + [' '], false)
  }

  lemma {:induction false} ScanEscaped(name: string, rest: string, cell: string, escaped: bool)
    requires Unprotected(name, escaped) == 0
    ensures ScansBack(name, rest, cell, escaped)
  {
    if name == [] {
      ScanEnd(rest, cell, escaped);
    } else {
      var c, tail := name[0], name[1..];
      assert name == [c] + tail;
      if c == '|' {
        ScanEscaped(tail, rest, cell + "|", false);
        ScanBar(tail, rest, cell);
      } else if c == '\\' && !escaped {
        ScanEscaped(tail, rest, cell, true);
        ScanBackslash(tail, rest, cell);
      } else {
        ScanEscaped(tail, rest, Held(cell, escaped) + [c], false);
        ScanOther(c, tail, rest, cell, escaped);
      }
    }
  }

  lemma ScanEnd(rest: string, cell: string, escaped: bool)
    ensures ScansBack("", rest, cell, escaped)
  {
    assert Escape("") + ([' '] + rest) == [' '] + rest;
    ScanStep(' ', rest, cell, escaped);
    assert Held(cell, escaped) + "" + [' '] == if escaped then cell + (BACKSLASH + [' ']) else cell + [' '];
  }

  lemma ScanBar(tail: string, rest: string, cell: string)
    requires ScansBack(tail, rest, cell + "|", false)
    ensures ScansBack(['|'] + tail, rest, cell, false)
  {
    EscapeStep('|', tail, [' '] + rest);
    var after := Escape(tail) + ([' '] + rest);
    ScanStep('\\', ['|'] + after, cell, false);
    ScanStep('|', after, cell, true);
    Assoc(cell, ['|'], tail);
  }

  lemma ScanBackslash(tail: string, rest: string, cell: string)
    requires ScansBack(tail, rest, cell, true)
    ensures ScansBack(['\\'] + tail, rest, cell, false)
  {
    EscapeStep('\\', tail, [' '] + rest);
    ScanStep('\\', Escape(tail) + ([' '] + rest), cell, false);
    Assoc(cell, ['\\'], tail);
  }

  lemma ScanOther(c: char, tail: string, rest: string, cell: string, escaped: bool)
    requires c != '|' && (c != '\\' || escaped) && ScansBack(tail, rest, Held(cell, escaped) + [c], false)
    ensures ScansBack([c] + tail, rest, cell, escaped)
  {
    if escaped {
      ScanAfterBackslash(c, tail, rest, cell);
    } else {
      ScanLetter(c, tail, rest, cell);
    }
  }

  lemma ScanLetter(c: char, tail: string, rest: string, cell: string)
    requires c != '|' && c != '\\' && ScansBack(tail, rest, cell + [c], false)
    ensures ScansBack([c] + tail, rest, cell, false)
  {
    EscapeStep(c, tail, [' '] + rest);
    ScanStep(c, Escape(tail) + ([' '] + rest), cell, false);
    Assoc(cell, [c], tail);
  }

  lemma ScanAfterBackslash(c: char, tail: string, rest: string, cell: string)
    requires c != '|' && ScansBack(tail, rest, cell + BACKSLASH + [c], false)
    ensures ScansBack([c] + tail, rest, cell, true)
  {
    EscapeStep(c, tail, [' '] + rest);
    ScanStep(c, Escape(tail) + ([' '] + rest), cell, true);
    Assoc(cell, BACKSLASH, [c]);
    Assoc(cell + BACKSLASH, [c], tail);
  }

  lemma {:induction false} CountIgnoresCell(text: string, a: string, b: string, escaped: bool)
    ensures |Cells(text, a, escaped)| == |Cells(text, b, escaped)|
  {
    if text != [] {
      var c := text[0];
      if escaped {
        var more := if c == '|' then "|" else BACKSLASH + [c];
        CountIgnoresCell(text[1..], a + more, b + more, false);
      } else if c == '\\' {
        CountIgnoresCell(text[1..], a, b, true);
      } else if c != '|' {
        CountIgnoresCell(text[1..], a + [c], b + [c], false);
      }
    }
  }

  /** Each unprotected `|` makes one cell more. */
  lemma {:induction false} CountEscaped(name: string, rest: string, cell: string, escaped: bool)
    ensures |Cells(Escape(name) + ([' '] + rest), cell, escaped)|
            == Unprotected(name, escaped) + |Cells(rest, "", false)|
  {
    if name == [] {
      assert Escape(name) + ([' '] + rest) == [' '] + rest;
      ScanStep(' ', rest, cell, escaped);
      CountIgnoresCell(rest, if escaped then cell + (BACKSLASH + [' ']) else cell + [' '], "", false);
    } else {
      var c, tail, after := name[0], name[1..], Escape(name[1..]) + ([' '] + rest);
      assert name == [c] + tail;
      EscapeStep(c, tail, [' '] + rest);
      if c == '|' {
        ScanStep('\\', ['|'] + after, cell, escaped);
        ScanStep('|', after, if escaped then cell + (BACKSLASH + ['\\']) else cell, !escaped);
        CountEscaped(tail, rest, if escaped then "" else cell + "|", false);
      } else {
        ScanStep(c, after, cell, escaped);
        if c == '\\' && !escaped {
          CountEscaped(tail, rest, cell, true);
        } else {
          CountEscaped(tail, rest, if escaped then cell + (BACKSLASH + [c]) else cell + [c], false);
        }
      }
    }
  }

  // --- Rendering. -------------------------------------------------------------------------------

  const TITLE := "**Lines added: "
  const NONE := "none"
  const HEADER := RowText("Directory", "Added", "Share")
  const SEPARATOR := "|" + (":--" + "|" + ("--:" + "|" + ":--")) + "|"

  function Pad(s: string): string { " " + s + " " }

  /** Three cells between `|`, each between spaces. */
  function RowText(a: string, b: string, c: string): string {
    "|" + (Pad(a) + "|" + (Pad(b) + "|" + Pad(c))) + "|"
  }

  datatype Count = Count(name: string, added: nat)

  function Total(counts: seq<Count>): nat {
    if counts == [] then 0 else Total(counts[..|counts| - 1]) + counts[|counts| - 1].added
  }

  function Row(c: Count, largest: nat, total: nat): string
    requires largest > 0 && total > 0
  {
    RowText(Escape(c.name), Figure(c.added), Bar(c.added, largest) + " " + Share(c.added, total))
  }

  /** The lines of the block's body, for counts listed largest first. */
  function Render(counts: seq<Count>): seq<string>
    requires Listed(counts)
  {
    if counts == [] then [TITLE + NONE + "**"]
    else
      TotalCovers(counts, 0);
      [TITLE + Figure(Total(counts)) + "**", ""]
      + ([HEADER, SEPARATOR] + RowLines(counts, counts[0].added, Total(counts)))
  }

  function RowLines(counts: seq<Count>, largest: nat, total: nat): seq<string>
    requires largest > 0 && total > 0
  {
    seq(|counts|, i requires 0 <= i < |counts| => Row(counts[i], largest, total))
  }

  /** What `sorted` makes of the totals: every directory once, with lines added, the largest first and
      equal ones by name. */
  predicate Listed(counts: seq<Count>) {
    && (forall i :: 0 <= i < |counts| ==> counts[i].added > 0)
    && (forall i, j :: 0 <= i < j < |counts| ==> counts[i].added >= counts[j].added)
    && (forall i, j :: 0 <= i < j < |counts| ==> counts[i].name != counts[j].name)
  }

  lemma {:induction false} TotalCovers(counts: seq<Count>, k: nat)
    requires k < |counts|
    ensures counts[k].added <= Total(counts)
  {
    if k < |counts| - 1 {
      TotalCovers(counts[..|counts| - 1], k);
    }
  }

  // --- One row, rendered and read back. ---------------------------------------------------------

  lemma Bordered(inner: string)
    requires inner != [] && inner[|inner| - 1] != '\\'
    ensures RowCells("|" + inner + "|") == Some(Cells(inner, "", false))
  {
    var row := "|" + inner + "|";
    StripPadded(row);
    assert row[1..|row| - 1] == inner && row[|row| - 2] == inner[|inner| - 1];
  }

  lemma DecimalPlain(n: nat)
    ensures Plain(Decimal(n)) && Trimmed(Decimal(n))
  {
    DecimalDigits(n);
    assert !IsDigit('|') && !IsDigit('\\') && forall c :: IsDigit(c) ==> !Space(c);
  }

  lemma FigurePlain(n: nat)
    ensures Plain(Figure(n)) && Trimmed(Figure(n))
  {
    if n < 1000 {
      DecimalPlain(n);
    } else if n >= 10000 {
      DecimalPlain(Thousands(n));
    } else {
      DecimalPlain(Tenths(n) / 10);
      DecimalPlain(Tenths(n) % 10);
    }
  }

  lemma BarPlain(n: nat, largest: nat)
    requires n <= largest && largest > 0
    ensures var b := Bar(n, largest); Plain(b) && b != "" && !Space(b[0])
  {
    BarShowsEighths(n, largest);
    assert forall c :: IsBlock(c) ==> c != '|' && c != '\\' && !Space(c);
  }

  lemma SharePlain(n: nat, total: nat)
    requires n <= total && total > 0
    ensures var h := Share(n, total); Plain(h) && h != "" && h[|h| - 1] == '%'
  {
    ShareHasPattern(n, total);
    DecimalDigits(Percent(n, total));
    assert !IsDigit('|') && !IsDigit('\\');
  }

  lemma LastCellPlain(b: string, h: string)
    requires Plain(b) && Plain(h) && b != "" && h != "" && !Space(b[0]) && h[|h| - 1] == '%'
    ensures Plain(b + " " + h) && Trimmed(b + " " + h)
  {
  }

  /** A row has three cells exactly when its name is clean, and then the first is the name, stripped. */
  lemma RowReadsBack(c: Count, largest: nat, total: nat)
    requires 0 < c.added <= largest && c.added <= total
    ensures var r := RowCells(Row(c, largest, total));
            && r != None && (|r.value| == 3 <==> Clean(c.name))
            && (Clean(c.name) ==>
                   r.value == [Strip(Pad(c.name)), Figure(c.added),
                               Bar(c.added, largest) + " " + Share(c.added, total)])
  {
    FigurePlain(c.added);
    BarPlain(c.added, largest);
    SharePlain(c.added, total);
    LastCellPlain(Bar(c.added, largest), Share(c.added, total));
    CleanMeansProtected(c.name);
    NamedRow(c.name, Figure(c.added), Bar(c.added, largest) + " " + Share(c.added, total));
  }

  lemma NamedRow(name: string, f: string, s: string)
    requires Plain(f) && Trimmed(f) && Plain(s) && Trimmed(s)
    ensures var r := RowCells(RowText(Escape(name), f, s));
            && r != None && |r.value| == Unprotected(name, false) + 3
            && (Unprotected(name, false) == 0 ==> r.value == [Strip(Pad(name)), f, s])
  {
    var tail := Pad(f) + "|" + Pad(s);
    TwoCells(f, s);
    NamedCells(name, tail);
    Bordered(Pad(Escape(name)) + "|" + tail);
  }

  lemma NamedCells(name: string, tail: string)
    ensures var cells := Cells(Pad(Escape(name)) + "|" + tail, "", false);
            && |cells| == Unprotected(name, false) + 1 + |Cells(tail, "", false)|
            && (Unprotected(name, false) == 0 ==> cells == [Strip(Pad(name))] + Cells(tail, "", false))
  {
    var rest := ['|'] + tail;
    NamedShape(Escape(name), tail);
    ScanStep(' ', Escape(name) + ([' '] + rest), "", false);
    assert "" + [' '] == " ";
    CountEscaped(name, rest, " ", false);
    ScanStep('|', tail, "", false);
    if Unprotected(name, false) == 0 {
      ScanEscaped(name, rest, " ", false);
      assert Held(" ", false) + name + [' '] == Pad(name);
      ScanStep('|', tail, Pad(name), false);
    }
  }

  lemma NamedShape(escaped: string, tail: string)
    ensures Pad(escaped) + "|" + tail == [' '] + (escaped + ([' '] + (['|'] + tail)))
  {
  }

  lemma TwoCells(a: string, b: string)
    requires Plain(a) && Trimmed(a) && Plain(b) && Trimmed(b)
    ensures Cells(Pad(a) + "|" + Pad(b), "", false) == [a, b]
  {
    ScanCell(Pad(a), Pad(b), "");
    ScanLastCell(Pad(b));
    assert "" + Pad(a) == Pad(a);
    StripPadded(a);
    StripPadded(b);
  }

  // --- Reading the block. -----------------------------------------------------------------------

  datatype Problem = Empty | BadTitle(line: string) | MoreAfterNone(line: string) | NoTable | BadHeader(line: string)
                   | BadSeparator(line: string) | NotThreeCells(line: string)
                   | BadRow(line: string) | TwoRows(name: string)

  datatype Shown = Shown(figure: string, bar: string, share: string)
  datatype Table = Table(total: string, rows: map<string, Shown>)
  datatype Result<T> = Read(value: T) | Wrong(problem: Problem)

  function NonBlank(lines: seq<string>): seq<string> {
    if lines == [] then []
    else NonBlank(lines[..|lines| - 1]) + Kept(lines[|lines| - 1])
  }

  function Kept(line: string): seq<string> { if Strip(line) == [] then [] else [Strip(line)] }

  /** What stands between the title's fixed parts: `none` or a figure. */
  function TitleOf(line: string): Option<string> {
    if |line| < |TITLE| + 2 || line[..|TITLE|] != TITLE || line[|line| - 2..] != "**" then None
    else
      var middle := line[|TITLE|..|line| - 2];
      if middle == NONE || IsFigure(middle) then Some(middle) else None
  }

  predicate AllDashes(s: string) { s != [] && forall i :: 0 <= i < |s| ==> s[i] == '-' }

  predicate IsSeparatorCell(s: string) {
    var t := if s != [] && s[0] == ':' then s[1..] else s;
    AllDashes(if t != [] && t[|t| - 1] == ':' then t[..|t| - 1] else t)
  }

  /** How many block characters the text begins with. */
  function Blocks(s: string): (n: nat)
    ensures n <= |s|
  {
    if s != [] && IsBlock(s[0]) then 1 + Blocks(s[1..]) else 0
  }

  /** A bar, a space and a share, taken apart. */
  function SplitShare(s: string): Option<(string, string)> {
    var n := Blocks(s);
    if 0 < n < |s| && s[n] == ' ' && IsShare(s[n + 1..]) then Some((s[..n], s[n + 1..])) else None
  }

  lemma {:induction false} BlocksThenSpace(bar: string, rest: string)
    requires forall i :: 0 <= i < |bar| ==> IsBlock(bar[i])
    ensures Blocks(bar + " " + rest) == |bar|
  {
    var s := bar + " " + rest;
    if bar == [] {
      assert s[0] == ' ';
    } else {
      assert s[0] == bar[0] && s[1..] == bar[1..] + " " + rest;
      BlocksThenSpace(bar[1..], rest);
    }
  }

  lemma SplitsBack(bar: string, share: string)
    requires bar != [] && (forall i :: 0 <= i < |bar| ==> IsBlock(bar[i])) && IsShare(share)
    ensures SplitShare(bar + " " + share) == Some((bar, share))
  {
    BlocksThenSpace(bar, share);
    var s := bar + " " + share;
    assert s[..|bar|] == bar && s[|bar|] == ' ' && s[|bar| + 1..] == share;
  }

  /** One row of the block. */
  function ReadCells(line: string): Result<(string, Shown)> {
    var cells := RowCells(line);
    if cells == None || |cells.value| != 3 then Wrong(NotThreeCells(line))
    else
      var split := SplitShare(cells.value[2]);
      if cells.value[0] == [] || !IsFigure(cells.value[1]) || split == None then Wrong(BadRow(line))
      else Read((cells.value[0], Shown(cells.value[1], split.value.0, split.value.1)))
  }

  /** The rows, the first one that is wrong deciding. */
  function Rows(lines: seq<string>): Result<map<string, Shown>> {
    if lines == [] then Read(map[])
    else
      var before := Rows(lines[..|lines| - 1]);
      if before.Wrong? then before else AddRow(before.value, ReadCells(lines[|lines| - 1]))
  }

  function AddRow(rows: map<string, Shown>, row: Result<(string, Shown)>): Result<map<string, Shown>> {
    if row.Wrong? then Wrong(row.problem)
    else if row.value.0 in rows then Wrong(TwoRows(row.value.0))
    else Read(rows[row.value.0 := row.value.1])
  }

  function Parse(lines: seq<string>): Result<Table> {
    ParseShown(NonBlank(lines))
  }

  function ParseShown(shown: seq<string>): Result<Table> {
    if shown == [] then Wrong(Empty)
    else
      var title := TitleOf(shown[0]);
      if title == None then Wrong(BadTitle(shown[0]))
      else if title.value == NONE then
        if |shown| > 1 then Wrong(MoreAfterNone(shown[1])) else Read(Table(NONE, map[]))
      else if |shown| < 4 then Wrong(NoTable)
      else if RowCells(shown[1]) != Some(["Directory", "Added", "Share"]) then Wrong(BadHeader(shown[1]))
      else if !GoodSeparator(RowCells(shown[2])) then Wrong(BadSeparator(shown[2]))
      else
        var rows := Rows(shown[3..]);
        if rows.Wrong? then Wrong(rows.problem) else Read(Table(title.value, rows.value))
  }

  predicate GoodSeparator(cells: Option<seq<string>>) {
    cells != None && |cells.value| == 3 && forall i :: 0 <= i < 3 ==> IsSeparatorCell(cells.value[i])
  }

  /** `parse`, row after row. */
  method ReadBlock(lines: seq<string>) returns (r: Result<Table>)
    ensures r == Parse(lines)
  {
    var shown := NonBlank(lines);
    if shown == [] {
      return Wrong(Empty);
    }
    var title := TitleOf(shown[0]);
    if title == None {
      return Wrong(BadTitle(shown[0]));
    }
    if title.value == NONE {
      return if |shown| > 1 then Wrong(MoreAfterNone(shown[1])) else Read(Table(NONE, map[]));
    }
    if |shown| < 4 {
      return Wrong(NoTable);
    }
    var header := ReadRow(shown[1]);
    if header != Some(["Directory", "Added", "Share"]) {
      return Wrong(BadHeader(shown[1]));
    }
    var separator := ReadRow(shown[2]);
    if !GoodSeparator(separator) {
      return Wrong(BadSeparator(shown[2]));
    }
    var rows := ReadRows(shown[3..]);
    r := if rows.Wrong? then Wrong(rows.problem) else Read(Table(title.value, rows.value));
  }

  method ReadRows(lines: seq<string>) returns (r: Result<map<string, Shown>>)
    ensures r == Rows(lines)
  {
    r := Read(map[]);
    for i := 0 to |lines|
      invariant r.Read? && Rows(lines[..i]) == r
    {
      var row := ReadLine(lines[i]);
      assert lines[..i + 1][..i] == lines[..i];
      if row.Wrong? {
        r := Wrong(row.problem);
      } else if row.value.0 in r.value {
        r := Wrong(TwoRows(row.value.0));
      } else {
        r := Read(r.value[row.value.0 := row.value.1]);
      }
      if r.Wrong? {
        StaysWrong(lines, i + 1);
        return;
      }
    }
    assert lines[..|lines|] == lines;
  }

  method ReadLine(line: string) returns (r: Result<(string, Shown)>)
    ensures r == ReadCells(line)
  {
    var cells := ReadRow(line);
    if cells == None || |cells.value| != 3 {
      return Wrong(NotThreeCells(line));
    }
    var split := SplitShare(cells.value[2]);
    if cells.value[0] == [] || !IsFigure(cells.value[1]) || split == None {
      return Wrong(BadRow(line));
    }
    r := Read((cells.value[0], Shown(cells.value[1], split.value.0, split.value.1)));
  }

  lemma {:induction false} StaysWrong(lines: seq<string>, i: nat)
    requires i <= |lines| && Rows(lines[..i]).Wrong?
    ensures Rows(lines) == Rows(lines[..i])
    decreases |lines|
  {
    if i == |lines| {
      assert lines[..i] == lines;
    } else {
      var shorter := lines[..|lines| - 1];
      assert shorter[..i] == lines[..i];
      StaysWrong(shorter, i);
    }
  }

  // --- The round trip. --------------------------------------------------------------------------

  /** The names that a row gives back. */
  predicate CellName(name: string) { Trimmed(name) && Clean(name) }

  /** What the block shows of the counts. */
  function Expected(counts: seq<Count>, largest: nat, total: nat): map<string, Shown>
    requires largest > 0 && total > 0
  {
    if counts == [] then map[]
    else
      var c := counts[|counts| - 1];
      Expected(counts[..|counts| - 1], largest, total)[c.name :=
        Shown(Figure(c.added), Bar(c.added, largest), Share(c.added, total))]
  }

  lemma {:induction false} NameExpected(counts: seq<Count>, largest: nat, total: nat, i: nat)
    requires largest > 0 && total > 0 && i < |counts|
    ensures counts[i].name in Expected(counts, largest, total)
  {
    if i < |counts| - 1 {
      NameExpected(counts[..|counts| - 1], largest, total, i);
    }
  }

  lemma {:induction false} OthersNotExpected(counts: seq<Count>, largest: nat, total: nat, x: string)
    requires largest > 0 && total > 0 && forall i :: 0 <= i < |counts| ==> counts[i].name != x
    ensures x !in Expected(counts, largest, total)
  {
    if counts != [] {
      OthersNotExpected(counts[..|counts| - 1], largest, total, x);
    }
  }

  /** A rendered row reads back as itself exactly when its name survives and its figure fits. */
  lemma CellsReadBack(c: Count, largest: nat, total: nat)
    requires 0 < c.added <= largest && c.added <= total
    ensures var r := ReadCells(Row(c, largest, total));
            (r == Read((c.name, Shown(Figure(c.added), Bar(c.added, largest), Share(c.added, total)))))
            <==> CellName(c.name) && c.added < 999500
    ensures var r := ReadCells(Row(c, largest, total));
            r.Read? ==> Clean(c.name) && Trimmed(r.value.0)
  {
    RowReadsBack(c, largest, total);
    FigureHasPattern(c.added);
    BarShowsEighths(c.added, largest);
    ShareHasPattern(c.added, total);
    SplitsBack(Bar(c.added, largest), Share(c.added, total));
    LineReadsBack(Row(c, largest, total), c.name, Figure(c.added), Bar(c.added, largest), Share(c.added, total));
  }

  lemma LineReadsBack(line: string, name: string, figure: string, bar: string, share: string)
    requires RowCells(line) != None && (|RowCells(line).value| == 3 <==> Clean(name))
    requires Clean(name) ==> RowCells(line).value == [Strip(Pad(name)), figure, bar + " " + share]
    requires SplitShare(bar + " " + share) == Some((bar, share))
    ensures ReadCells(line) == Read((name, Shown(figure, bar, share))) <==> CellName(name) && IsFigure(figure)
    ensures ReadCells(line).Read? ==> Clean(name) && Trimmed(ReadCells(line).value.0)
  {
    StripTrims(Pad(name));
    if Trimmed(name) {
      StripPadded(name);
    }
  }

  ghost predicate Bounded(counts: seq<Count>, largest: nat, total: nat) {
    forall i :: 0 <= i < |counts| ==> 0 < counts[i].added <= largest && counts[i].added <= total
  }

  /** Rows with surviving names and fitting figures read back as what was counted. */
  lemma {:induction false} RowsReadBack(counts: seq<Count>, largest: nat, total: nat)
    requires largest > 0 && total > 0 && Bounded(counts, largest, total)
    requires forall i, j :: 0 <= i < j < |counts| ==> counts[i].name != counts[j].name
    requires forall i :: 0 <= i < |counts| ==> CellName(counts[i].name) && counts[i].added < 999500
    ensures Rows(RowLines(counts, largest, total)) == Read(Expected(counts, largest, total))
  {
    if counts != [] {
      var before, c := counts[..|counts| - 1], counts[|counts| - 1];
      RowsReadBack(before, largest, total);
      CellsReadBack(c, largest, total);
      OthersNotExpected(before, largest, total, c.name);
      LastLine(counts, largest, total);
    }
  }

  /** Rows that are read at all are read under trimmed names. */
  lemma {:induction false} RowsReadTrimmed(counts: seq<Count>, largest: nat, total: nat)
    requires largest > 0 && total > 0 && Bounded(counts, largest, total)
    requires Rows(RowLines(counts, largest, total)).Read?
    ensures AllTrimmed(Rows(RowLines(counts, largest, total)).value.Keys)
  {
    if counts != [] {
      var before, c := counts[..|counts| - 1], counts[|counts| - 1];
      LastLine(counts, largest, total);
      RowsReadTrimmed(before, largest, total);
      CellsReadBack(c, largest, total);
      AddTrimmed(Rows(RowLines(before, largest, total)).value, ReadCells(Row(c, largest, total)));
    }
  }

  /** And their names are clean. */
  lemma {:induction false} RowsReadClean(counts: seq<Count>, largest: nat, total: nat, i: nat)
    requires largest > 0 && total > 0 && Bounded(counts, largest, total) && i < |counts|
    requires Rows(RowLines(counts, largest, total)).Read?
    ensures Clean(counts[i].name)
  {
    LastLine(counts, largest, total);
    if i < |counts| - 1 {
      RowsReadClean(counts[..|counts| - 1], largest, total, i);
    } else {
      CellsReadBack(counts[i], largest, total);
    }
  }

  lemma LastLine(counts: seq<Count>, largest: nat, total: nat)
    requires largest > 0 && total > 0 && counts != []
    ensures var before := Rows(RowLines(counts[..|counts| - 1], largest, total));
            Rows(RowLines(counts, largest, total)) ==
            if before.Wrong? then before else AddRow(before.value, ReadCells(Row(counts[|counts| - 1], largest, total)))
  {
    FirstLines(counts, largest, total);
  }

  lemma FirstLines(counts: seq<Count>, largest: nat, total: nat)
    requires largest > 0 && total > 0 && counts != []
    ensures var lines := RowLines(counts, largest, total);
            lines[..|lines| - 1] == RowLines(counts[..|counts| - 1], largest, total)
  {
  }

  ghost predicate AllTrimmed(names: set<string>) { forall x :: x in names ==> Trimmed(x) }

  lemma AddTrimmed(rows: map<string, Shown>, row: Result<(string, Shown)>)
    requires AddRow(rows, row).Read? && Trimmed(row.value.0) && AllTrimmed(rows.Keys)
    ensures AllTrimmed(AddRow(rows, row).value.Keys)
  {
  }

  lemma {:induction false} NonBlankKeeps(lines: seq<string>)
    requires TrimmedLines(lines)
    ensures NonBlank(lines) == lines
  {
    if lines != [] {
      var before, last := lines[..|lines| - 1], lines[|lines| - 1];
      assert lines == before + [last];
      NonBlankKeeps(before);
      TrimmedKept(last);
    }
  }

  lemma TrimmedKept(line: string)
    requires Trimmed(line)
    ensures Kept(line) == [line]
  {
    StripPadded(line);
  }

  lemma {:induction false} NonBlankJoins(a: seq<string>, b: seq<string>)
    ensures NonBlank(a + b) == NonBlank(a) + NonBlank(b)
  {
    if b == [] {
      assert a + b == a;
    } else {
      assert (a + b)[..|a + b| - 1] == a + b[..|b| - 1];
      NonBlankJoins(a, b[..|b| - 1]);
    }
  }

  lemma RowLinesTrimmed(counts: seq<Count>, largest: nat, total: nat)
    requires largest > 0 && total > 0
    ensures TrimmedLines(RowLines(counts, largest, total))
  {
    forall i | 0 <= i < |counts| ensures Trimmed(RowLines(counts, largest, total)[i]) {
      RowTrimmed(counts[i], largest, total);
    }
  }

  lemma RowTrimmed(c: Count, largest: nat, total: nat)
    requires largest > 0 && total > 0
    ensures Trimmed(Row(c, largest, total))
  {
    var row := Row(c, largest, total);
    assert row[0] == '|' && row[|row| - 1] == '|';
  }

  lemma TitleReadsBack(middle: string)
    ensures TitleOf(TITLE + middle + "**") == if middle == NONE || IsFigure(middle) then Some(middle) else None
    ensures Trimmed(TITLE + middle + "**")
  {
    var line := TITLE + middle + "**";
    assert line[..|TITLE|] == TITLE && line[|line| - 2..] == "**" && line[|TITLE|..|line| - 2] == middle;
  }

  lemma ThreeCells(a: string, b: string, c: string)
    requires Plain(a) && Plain(b) && Plain(c) && c != []
    ensures RowCells("|" + (a + "|" + (b + "|" + c)) + "|") == Some([Strip(a), Strip(b), Strip(c)])
  {
    var inner := a + "|" + (b + "|" + c);
    assert inner[|inner| - 1] == c[|c| - 1];
    Bordered(inner);
    ScanCell(a, b + "|" + c, "");
    ScanCell(b, c, "");
    ScanLastCell(c);
    assert "" + a == a && "" + b == b;
    assert [Strip(a)] + ([Strip(b)] + [Strip(c)]) == [Strip(a), Strip(b), Strip(c)];
  }

  lemma PaddedCells(a: string, b: string, c: string)
    requires Plain(a) && Plain(b) && Plain(c) && Trimmed(a) && Trimmed(b) && Trimmed(c)
    ensures RowCells(RowText(a, b, c)) == Some([a, b, c]) && Trimmed(RowText(a, b, c))
  {
    ThreeCells(Pad(a), Pad(b), Pad(c));
    StripPadded(a);
    StripPadded(b);
    StripPadded(c);
  }

  lemma HeaderReadsBack()
    ensures RowCells(HEADER) == Some(["Directory", "Added", "Share"]) && Trimmed(HEADER)
  {
    PaddedCells("Directory", "Added", "Share");
  }

  lemma SeparatorReadsBack()
    ensures GoodSeparator(RowCells(SEPARATOR)) && Trimmed(SEPARATOR)
  {
    ThreeCells(":--", "--:", ":--");
    StripPadded(":--");
    StripPadded("--:");
    assert ":--"[1..] == "--" && "--:"[..2] == "--";
  }

  ghost predicate TrimmedLines(lines: seq<string>) { forall i :: 0 <= i < |lines| ==> Trimmed(lines[i]) }

  lemma BlockLines(title: string, table: seq<string>)
    requires Trimmed(title) && TrimmedLines(table)
    ensures NonBlank([title, ""] + table) == [title] + table
  {
    TitleKept(title);
    NonBlankKeeps(table);
    NonBlankJoins([title, ""], table);
  }

  lemma TitleKept(title: string)
    requires Trimmed(title)
    ensures NonBlank([title, ""]) == [title]
  {
    BlankIsDropped();
    TrimmedKept(title);
    var lines := [title, ""];
    assert lines[..1] == [title] && [title][..0] == [];
    assert NonBlank([title]) == Kept(title);
    assert Kept("") == [];
  }

  lemma BlankIsDropped()
    ensures Kept("") == []
  {
    assert Strip("") == [];
  }

  /** What the block shows of all counts. */
  function ExpectedTable(counts: seq<Count>): Table
    requires Listed(counts)
  {
    if counts == [] then Table(NONE, map[])
    else
      TotalCovers(counts, 0);
      Table(Figure(Total(counts)), Expected(counts, counts[0].added, Total(counts)))
  }

  /** Reading back the lines of a rendered block gives what they show, exactly when the total is below
      999,500 and every name is trimmed and has no `|` after an odd run of backslashes. */
  lemma LinesReadBack(counts: seq<Count>)
    requires Listed(counts)
    ensures Parse(Render(counts)) == Read(ExpectedTable(counts))
            <==> Total(counts) < 999500 && forall i :: 0 <= i < |counts| ==> CellName(counts[i].name)
  {
    if counts == [] {
      TitleReadsBack(NONE);
      NonBlankKeeps([TITLE + NONE + "**"]);
    } else {
      TableReadsBack(counts);
    }
  }

  lemma TableReadsBack(counts: seq<Count>)
    requires Listed(counts) && counts != []
    ensures Parse(Render(counts)) == Read(ExpectedTable(counts))
            <==> Total(counts) < 999500 && forall i :: 0 <= i < |counts| ==> CellName(counts[i].name)
  {
    TotalCovers(counts, 0);
    var largest, total := counts[0].added, Total(counts);
    assert Bounded(counts, largest, total) by {
      forall i | 0 <= i < |counts| ensures counts[i].added <= total {
        TotalCovers(counts, i);
      }
    }
    ParseOfRender(counts);
    FigureHasPattern(total);
    if total < 999500 {
      RowsDecide(counts, largest, total);
    }
  }

  lemma RowsDecide(counts: seq<Count>, largest: nat, total: nat)
    requires Listed(counts) && largest > 0 && 0 < total < 999500 && Bounded(counts, largest, total)
    ensures Rows(RowLines(counts, largest, total)) == Read(Expected(counts, largest, total))
            <==> forall i :: 0 <= i < |counts| ==> CellName(counts[i].name)
  {
    if forall i :: 0 <= i < |counts| ==> CellName(counts[i].name) {
      RowsReadBack(counts, largest, total);
    } else if Rows(RowLines(counts, largest, total)) == Read(Expected(counts, largest, total)) {
      RowsReadTrimmed(counts, largest, total);
      forall i | 0 <= i < |counts| ensures CellName(counts[i].name) {
        RowsReadClean(counts, largest, total, i);
        NameExpected(counts, largest, total, i);
      }
    }
  }

  /** What the rows say decides about a block with a good title, header and separator. */
  lemma ParseOfBlock(figure: string, title: string, header: string, separator: string, rows: seq<string>)
    requires figure != NONE && rows != [] && TrimmedLines(rows) && Trimmed(title) && Trimmed(header)
    requires Trimmed(separator)
    requires TitleOf(title) == if IsFigure(figure) then Some(figure) else None
    requires RowCells(header) == Some(["Directory", "Added", "Share"]) && GoodSeparator(RowCells(separator))
    ensures Parse([title, ""] + ([header, separator] + rows)) ==
            if !IsFigure(figure) then Wrong(BadTitle(title))
            else if Rows(rows).Wrong? then Wrong(Rows(rows).problem)
            else Read(Table(figure, Rows(rows).value))
  {
    var table := [header, separator] + rows;
    BlockLines(title, table);
    TableParts(title, header, separator, rows);
    ParseOfShown(figure, [title] + table, rows);
  }

  lemma TableParts(title: string, header: string, separator: string, rows: seq<string>)
    ensures var shown := [title] + ([header, separator] + rows);
            && |shown| == 3 + |rows| && shown[0] == title && shown[1] == header
            && shown[2] == separator && shown[3..] == rows
  {
  }

  lemma ParseOfShown(figure: string, shown: seq<string>, rows: seq<string>)
    requires figure != NONE && |shown| >= 4 && shown[3..] == rows
    requires TitleOf(shown[0]) == if IsFigure(figure) then Some(figure) else None
    requires RowCells(shown[1]) == Some(["Directory", "Added", "Share"]) && GoodSeparator(RowCells(shown[2]))
    ensures ParseShown(shown) ==
            if !IsFigure(figure) then Wrong(BadTitle(shown[0]))
            else if Rows(rows).Wrong? then Wrong(Rows(rows).problem)
            else Read(Table(figure, Rows(rows).value))
  {
  }

  lemma ParseOfLines(figure: string, rows: seq<string>)
    requires figure != NONE && rows != [] && TrimmedLines(rows)
    ensures Parse([TITLE + figure + "**", ""] + ([HEADER, SEPARATOR] + rows)) ==
            if !IsFigure(figure) then Wrong(BadTitle(TITLE + figure + "**"))
            else if Rows(rows).Wrong? then Wrong(Rows(rows).problem)
            else Read(Table(figure, Rows(rows).value))
  {
    TitleReadsBack(figure);
    HeaderReadsBack();
    SeparatorReadsBack();
    ParseOfBlock(figure, TITLE + figure + "**", HEADER, SEPARATOR, rows);
  }

  lemma ParseOfRender(counts: seq<Count>)
    requires Listed(counts) && counts != [] && counts[0].added > 0 && Total(counts) > 0
    ensures var figure, rows := Figure(Total(counts)), Rows(RowLines(counts, counts[0].added, Total(counts)));
            Parse(Render(counts)) ==
            if !IsFigure(figure) then Wrong(BadTitle(TITLE + figure + "**"))
            else if rows.Wrong? then Wrong(rows.problem) else Read(Table(figure, rows.value))
  {
    RowLinesTrimmed(counts, counts[0].added, Total(counts));
    NotNone(Total(counts));
    ParseOfLines(Figure(Total(counts)), RowLines(counts, counts[0].added, Total(counts)));
  }

  lemma NotNone(n: nat)
    ensures Figure(n) != NONE
  {
    DecimalDigits(n);
    DecimalDigits(Tenths(n) / 10);
    DecimalDigits(Thousands(n));
    assert Figure(n)[0] != 'n';
  }
}
