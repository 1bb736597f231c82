/**
 The paragraphs by which the weekly sweep judges a citation (scripts/backlog-triage.py): the lines of
 a captured file, the expansion of a cited line to its whole paragraph within two bounds, and the
 paragraph found again in the text that was kept.
 */
module Paragraphs {
  import opened Basics

  const MAX_LINES := 128
  const MAX_BYTES := 16384

  // --- Lines. -----------------------------------------------------------------------------------

  predicate Blank(line: string) { forall i :: 0 <= i < |line| ==> Space(line[i]) }

  predicate OneLine(s: string) { '\n' !in s }

  /** `text.split('\n')`. */
  function Split(text: string): (parts: seq<string>)
    ensures |parts| >= 1
  {
    if text == [] then [""]
    else
      var rest := Split(text[1..]);
      if text[0] == '\n' then [""] + rest else [[text[0]] + rest[0]] + rest[1..]
  }

  function DropReturn(line: string): string {
    if line != [] && line[|line| - 1] == '\r' then line[..|line| - 1] else line
  }

  /** `repo_lines`: the lines of a text as Rust counts them, `\n` or `\r\n` ending each. */
  function RepoLines(text: string): seq<string> {
    var parts := Split(text);
    var ended := |parts| - 1;
    seq(if parts[ended] == [] then ended else ended + 1,
        i requires 0 <= i <= ended => if i < ended then DropReturn(parts[i]) else parts[i])
  }

  lemma {:induction false} SplitLines(text: string)
    ensures forall i :: 0 <= i < |Split(text)| ==> OneLine(Split(text)[i])
    ensures Join(Split(text)) == text
  {
    if text != [] {
      SplitLines(text[1..]);
      var rest, parts := Split(text[1..]), Split(text);
      if text[0] == '\n' {
        assert parts[1..] == rest;
      } else {
        assert parts[0] == [text[0]] + rest[0] && parts[1..] == rest[1..];
      }
    }
  }

  /** Splitting undoes joining. */
  lemma {:induction false} SplitJoin(lines: seq<string>)
    requires lines != [] && forall i :: 0 <= i < |lines| ==> OneLine(lines[i])
    ensures Split(Join(lines)) == lines
    decreases |lines|
  {
    if |lines| == 1 {
      SplitOne(lines[0], []);
      assert lines[0] + [] == lines[0] && lines == [lines[0]];
    } else {
      SplitJoin(lines[1..]);
      SplitOne(lines[0], ['\n'] + Join(lines[1..]));
      var tail := ['\n'] + Join(lines[1..]);
      assert lines[0] + "\n" + Join(lines[1..]) == lines[0] + tail;
      assert tail[1..] == Join(lines[1..]);
      assert Split(tail) == [""] + lines[1..];
      assert lines[0] + "" == lines[0] && lines == [lines[0]] + lines[1..];
    }
  }

  lemma {:induction false} SplitOne(line: string, tail: string)
    requires OneLine(line)
    ensures var rest := Split(tail);
            Split(line + tail) == [line + rest[0]] + rest[1..]
  {
    if line == [] {
      assert line + tail == tail;
      var rest := Split(tail);
      assert line + rest[0] == rest[0] && [rest[0]] + rest[1..] == rest;
    } else {
      assert (line + tail)[1..] == line[1..] + tail;
      SplitOne(line[1..], tail);
      var rest := Split(tail);
      assert line[0] != '\n' && OneLine(line[1..]);
      assert line + rest[0] == [line[0]] + (line[1..] + rest[0]);
    }
  }

  // --- Bytes. -----------------------------------------------------------------------------------

  /** The length of a character in UTF-8. */
  function Width(c: char): nat {
    if c as int < 0x80 then 1 else if c as int < 0x800 then 2 else if c as int < 0x10000 then 3 else 4
  }

  function Bytes(s: string): nat { if s == [] then 0 else Width(s[0]) + Bytes(s[1..]) }

  lemma {:induction false} BytesJoin(a: string, b: string)
    ensures Bytes(a + b) == Bytes(a) + Bytes(b)
  {
    if a == [] {
      assert a + b == b;
    } else {
      assert (a + b)[1..] == a[1..] + b;
      BytesJoin(a[1..], b);
    }
  }

  lemma BytesBefore(line: string, lines: seq<string>)
    requires lines != []
    ensures Bytes(Join([line] + lines)) == Bytes(line) + 1 + Bytes(Join(lines))
  {
    assert ([line] + lines)[1..] == lines;
    BytesJoin(line + "\n", Join(lines));
    BytesJoin(line, "\n");
    assert "\n"[1..] == [];
  }

  lemma {:induction false} BytesBehind(lines: seq<string>, line: string)
    requires lines != []
    ensures Bytes(Join(lines + [line])) == Bytes(Join(lines)) + 1 + Bytes(line)
    decreases |lines|
  {
    var first, rest := lines[0], lines[1..];
    if rest == [] {
      assert lines == [first] && lines + [line] == [first] + [line];
      BytesBefore(first, [line]);
    } else {
      assert lines == [first] + rest && lines + [line] == [first] + (rest + [line]);
      BytesBefore(first, rest);
      BytesBefore(first, rest + [line]);
      BytesBehind(rest, line);
    }
  }

  // --- The paragraph around a line. -------------------------------------------------------------

  /** Lines `lo` to `hi` are the paragraph around line `k`: up to blank lines or the ends of the file. */
  ghost predicate IsParagraph(lines: seq<string>, k: nat, lo: nat, hi: nat) {
    && lo <= k < hi <= |lines|
    && (forall i :: lo <= i < hi && i != k ==> !Blank(lines[i]))
    && (lo == 0 || Blank(lines[lo - 1])) && (hi == |lines| || Blank(lines[hi]))
  }

  lemma OneParagraph(lines: seq<string>, k: nat, lo: nat, hi: nat, lo': nat, hi': nat)
    requires IsParagraph(lines, k, lo, hi) && IsParagraph(lines, k, lo', hi')
    ensures lo == lo' && hi == hi'
  {
  }

  predicate Fits(lines: seq<string>, lo: nat, hi: nat)
    requires lo < hi <= |lines|
  {
    hi - lo <= MAX_LINES && Bytes(Join(lines[lo..hi])) <= MAX_BYTES
  }

  /** A part of a paragraph fits if the whole does. */
  lemma {:induction false} PartFits(lines: seq<string>, lo: nat, hi: nat, lo': nat, hi': nat)
    requires lo' <= lo < hi <= hi' <= |lines| && Fits(lines, lo', hi')
    ensures Fits(lines, lo, hi)
    decreases (lo - lo') + (hi' - hi)
  {
    if lo' < lo {
      assert lines[lo'..hi'] == [lines[lo']] + lines[lo' + 1..hi'];
      BytesBefore(lines[lo'], lines[lo' + 1..hi']);
      PartFits(lines, lo, hi, lo' + 1, hi');
    } else if hi < hi' {
      assert lines[lo'..hi'] == lines[lo'..hi' - 1] + [lines[hi' - 1]];
      BytesBehind(lines[lo'..hi' - 1], lines[hi' - 1]);
      PartFits(lines, lo, hi, lo', hi' - 1);
    }
  }

  /** The paragraph of `sweep_citations`, or nothing where a bound is met before its ends: exactly the
      paragraphs within both bounds are found, and found whole. */
  method Expand(lines: seq<string>, k: nat) returns (r: Option<(nat, nat)>)
    ensures k >= |lines| ==> r == None
    ensures r != None ==> IsParagraph(lines, k, r.value.0, r.value.1) && Fits(lines, r.value.0, r.value.1)
    ensures r == None ==> forall lo, hi :: IsParagraph(lines, k, lo, hi) ==> !Fits(lines, lo, hi)
  {
    if k >= |lines| {
      return None;
    }
    assert lines[k..k + 1] == [lines[k]];
    if Bytes(lines[k]) > MAX_BYTES {
      TooMuch(lines, k, k, k + 1);
      return None;
    }
    var lo, size := Upward(lines, k);
    if lo == None {
      return None;
    }
    var hi := Downward(lines, k, lo.value, size);
    r := if hi == None then None else Some((lo.value, hi.value));
  }

  method Upward(lines: seq<string>, k: nat) returns (start: Option<nat>, size: nat)
    requires k < |lines| && Fits(lines, k, k + 1)
    ensures start == None ==> forall lo, hi :: IsParagraph(lines, k, lo, hi) ==> !Fits(lines, lo, hi)
    ensures start != None ==> start.value <= k && Grown(lines, k, start.value, k + 1) && Fits(lines, start.value, k + 1)
    ensures start != None ==>
              (start.value == 0 || Blank(lines[start.value - 1])) && size == Bytes(Join(lines[start.value..k + 1]))
  {
    assert lines[k..k + 1] == [lines[k]];
    var lo := k;
    size := Bytes(lines[k]);
    while lo > 0 && !Blank(lines[lo - 1])
      invariant 0 <= lo <= k && Grown(lines, k, lo, k + 1) && size == Bytes(Join(lines[lo..k + 1]))
      invariant Fits(lines, lo, k + 1)
    {
      assert lines[lo - 1..k + 1] == [lines[lo - 1]] + lines[lo..k + 1];
      BytesBefore(lines[lo - 1], lines[lo..k + 1]);
      size := size + 1 + Bytes(lines[lo - 1]);
      if k + 1 - lo >= MAX_LINES || size > MAX_BYTES {
        TooMuch(lines, k, lo - 1, k + 1);
        return None, size;
      }
      lo := lo - 1;
    }
    start := Some(lo);
  }

  method Downward(lines: seq<string>, k: nat, lo: nat, size: nat) returns (end: Option<nat>)
    requires lo <= k < |lines| && Grown(lines, k, lo, k + 1) && Fits(lines, lo, k + 1)
    requires size == Bytes(Join(lines[lo..k + 1]))
    ensures end == None ==> forall lo, hi :: IsParagraph(lines, k, lo, hi) ==> !Fits(lines, lo, hi)
    ensures end != None ==> k < end.value <= |lines| && Grown(lines, k, lo, end.value) && Fits(lines, lo, end.value)
    ensures end != None ==> end.value == |lines| || Blank(lines[end.value])
  {
    var hi, total := k + 1, size;
    while hi < |lines| && !Blank(lines[hi])
      invariant k < hi <= |lines| && Grown(lines, k, lo, hi) && total == Bytes(Join(lines[lo..hi]))
      invariant Fits(lines, lo, hi)
    {
      assert lines[lo..hi + 1] == lines[lo..hi] + [lines[hi]];
      BytesBehind(lines[lo..hi], lines[hi]);
      total := total + 1 + Bytes(lines[hi]);
      if hi - lo >= MAX_LINES || total > MAX_BYTES {
        TooMuch(lines, k, lo, hi + 1);
        return None;
      }
      hi := hi + 1;
    }
    end := Some(hi);
  }

  /** Part of the paragraph around line `k`. */
  ghost predicate Grown(lines: seq<string>, k: nat, lo: nat, hi: nat) {
    lo <= k < hi <= |lines| && forall i :: lo <= i < hi && i != k ==> !Blank(lines[i])
  }

  /** Where a part is too much, so is the paragraph. */
  lemma TooMuch(lines: seq<string>, k: nat, lo: nat, hi: nat)
    requires Grown(lines, k, lo, hi) && !Fits(lines, lo, hi)
    ensures forall lo', hi' :: IsParagraph(lines, k, lo', hi') ==> !Fits(lines, lo', hi')
  {
    forall lo', hi' | IsParagraph(lines, k, lo', hi') ensures !Fits(lines, lo', hi') {
      WithinParagraph(lines, k, lo, hi, lo', hi');
      if Fits(lines, lo', hi') {
        PartFits(lines, lo, hi, lo', hi');
      }
    }
  }

  lemma WithinParagraph(lines: seq<string>, k: nat, lo: nat, hi: nat, lo': nat, hi': nat)
    requires Grown(lines, k, lo, hi) && IsParagraph(lines, k, lo', hi')
    ensures lo' <= lo && hi <= hi'
  {
  }

  // --- The paragraph found again. ---------------------------------------------------------------

  /** The two loops of `sweep_evidence`, which know of no bound. */
  method Rederive(lines: seq<string>, k: nat) returns (lo: nat, hi: nat)
    requires k < |lines|
    ensures IsParagraph(lines, k, lo, hi)
  {
    lo, hi := k, k + 1;
    while lo > 0 && !Blank(lines[lo - 1])
      invariant 0 <= lo <= k && Grown(lines, k, lo, hi)
    {
      lo := lo - 1;
    }
    while hi < |lines| && !Blank(lines[hi])
      invariant k < hi <= |lines| && Grown(lines, k, lo, hi)
    {
      hi := hi + 1;
    }
  }

  /** A carriage return is white space: taking one from the end makes no line blank or non-blank. */
  lemma DropReturnKeepsBlank(line: string)
    ensures Blank(DropReturn(line)) == Blank(line)
  {
    var shorter := DropReturn(line);
    if Blank(shorter) {
      forall i | 0 <= i < |line| ensures Space(line[i]) {
        if i < |shorter| {
          assert line[i] == shorter[i];
        }
      }
    }
  }

  lemma LinesAreLines(text: string, k: nat)
    requires k < |RepoLines(text)|
    ensures OneLine(RepoLines(text)[k])
  {
    SplitLines(text);
  }

  /** The lines of a kept paragraph are as many as they were, none of them blank. */
  lemma KeptLines(lines: seq<string>)
    requires lines != [] && AllText(lines)
    ensures var again := RepoLines(Join(lines));
            |again| == |lines| && forall i :: 0 <= i < |again| ==> !Blank(again[i])
  {
    SplitJoin(lines);
    var again := RepoLines(Join(lines));
    forall i | 0 <= i < |again| ensures !Blank(again[i]) {
      DropReturnKeepsBlank(lines[i]);
    }
  }

  /** From the captured file to the evidence: a paragraph is kept exactly when it fits, and what is
      judged later spans all of the text that was kept, whatever line endings the file mixes. */
  method Evidence(text: string, k: nat) returns (kept: Option<(nat, nat)>, judged: seq<string>)
    requires k < |RepoLines(text)| ==> !Blank(RepoLines(text)[k])  // it cites an issue
    ensures kept == None ==> forall lo, hi :: IsParagraph(RepoLines(text), k, lo, hi) ==> !Fits(RepoLines(text), lo, hi)
    ensures kept != None ==> IsParagraph(RepoLines(text), k, kept.value.0, kept.value.1)
    ensures kept != None ==> Fits(RepoLines(text), kept.value.0, kept.value.1)
    ensures kept != None ==> judged == RepoLines(Join(RepoLines(text)[kept.value.0..kept.value.1]))
    ensures kept != None ==> |judged| == kept.value.1 - kept.value.0
  {
    var lines := RepoLines(text);
    judged := [];
    kept := Expand(lines, k);
    if kept != None {
      PartOfFile(text, k, kept.value.0, kept.value.1);
      judged := Judge(lines[kept.value.0..kept.value.1], k - kept.value.0);
    }
  }

  lemma PartOfFile(text: string, k: nat, lo: nat, hi: nat)
    requires IsParagraph(RepoLines(text), k, lo, hi) && !Blank(RepoLines(text)[k])
    ensures AllText(RepoLines(text)[lo..hi])
  {
    var lines := RepoLines(text);
    var part := lines[lo..hi];
    forall i | 0 <= i < |part| ensures OneLine(part[i]) && !Blank(part[i]) {
      LinesAreLines(text, lo + i);
    }
  }

  ghost predicate AllText(lines: seq<string>) {
    forall i :: 0 <= i < |lines| ==> OneLine(lines[i]) && !Blank(lines[i])
  }

  /** What `sweep_evidence` makes of a kept paragraph. */
  method Judge(part: seq<string>, k: nat) returns (judged: seq<string>)
    requires AllText(part) && k < |part|
    ensures judged == RepoLines(Join(part)) && |judged| == |part|
  {
    KeptLines(part);
    var again := RepoLines(Join(part));
    var lo, hi := Rederive(again, k);
    OneParagraph(again, k, lo, hi, 0, |again|);
    judged := again[lo..hi];
    assert judged == again;
  }
}
