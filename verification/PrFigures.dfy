/**
 The figures of the pull-request lines block (scripts/pr-lines.py): a count, a bar and a share, with
 exact half-up rounding, and the patterns by which they are recognised when the block is read back.
 */
module PrFigures {
  import opened Basics

  const BAR_CELLS := 12

  predicate IsDigit(c: char) { '0' <= c <= '9' }
  predicate AllDigits(s: string) { forall i :: 0 <= i < |s| ==> IsDigit(s[i]) }

  // --- Counts. ----------------------------------------------------------------------------------

  /** Tenths of a thousand, and thousands, half rounding up. */
  function Tenths(n: nat): nat { (n + 50) / 100 }
  function Thousands(n: nat): nat { (n + 500) / 1000 }

  function Figure(n: nat): string {
    if n < 1000 then Decimal(n)
    else if n < 10000 then
      var t := Tenths(n);
      if t >= 100 then "10k"
      else if t % 10 == 0 then Decimal(t / 10) + "k"
      else Decimal(t / 10) + "." + Decimal(t % 10) + "k"
    else Decimal(Thousands(n)) + "k"
  }

  /** One to three digits, the first not a zero. */
  predicate IsShort(s: string) {
    1 <= |s| <= 3 && s[0] != '0' && AllDigits(s)
  }

  predicate IsTenth(s: string) {
    |s| >= 3 && s[|s| - 2] == '.' && IsDigit(s[|s| - 1]) && IsShort(s[..|s| - 2])
  }

  /** The pattern of a figure. */
  predicate IsFigure(s: string) {
    || s == "0" || IsShort(s)
    || (|s| >= 1 && s[|s| - 1] == 'k' && (IsShort(s[..|s| - 1]) || IsTenth(s[..|s| - 1])))
  }

  lemma {:induction false} DecimalDigits(n: nat)
    ensures AllDigits(Decimal(n)) && (n > 0 ==> Decimal(n)[0] != '0')
  {
    if n >= 10 {
      DecimalDigits(n / 10);
    }
  }

  lemma {:induction false} DecimalAtLeast(n: nat, k: nat)
    requires n >= Pow10(k)
    ensures |Decimal(n)| > k
  {
    if k > 0 {
      DecimalAtLeast(n / 10, k - 1);
    }
  }

  lemma ShortExactlyBelowThousand(n: nat)
    requires n > 0
    ensures IsShort(Decimal(n)) <==> n < 1000
  {
    assert Pow10(3) == 1000;
    DecimalDigits(n);
    if n < 1000 {
      DecimalLength(n, 3);
    } else {
      DecimalAtLeast(n, 3);
    }
  }

  /** The counts whose figure has the pattern are exactly those below 999,500: from there on the
      figure would need a fourth digit before its `k`. */
  lemma FigureHasPattern(n: nat)
    ensures IsFigure(Figure(n)) <==> n < 999500
  {
    if n == 0 {
      assert Figure(0) == "0";
    } else if n < 1000 {
      ShortExactlyBelowThousand(n);
    } else if n < 10000 {
      TenthsHavePattern(n);
    } else {
      ThousandsHavePattern(n);
    }
  }

  lemma TenthsHavePattern(n: nat)
    requires 1000 <= n < 10000
    ensures IsFigure(Figure(n))
  {
    var t, s := Tenths(n), Figure(n);
    assert t / 10 >= 1 && t <= 100;
    if t < 100 {
      ShortExactlyBelowThousand(t / 10);
      if t % 10 == 0 {
        assert s[..|s| - 1] == Decimal(t / 10);
      } else {
        DecimalDigits(t % 10);
        var u := s[..|s| - 1];
        assert u == Decimal(t / 10) + "." + Decimal(t % 10);
        assert u[..|u| - 2] == Decimal(t / 10);
      }
    } else {
      assert s[..2] == "10";
    }
  }

  lemma ThousandsHavePattern(n: nat)
    requires n >= 10000
    ensures IsFigure(Figure(n)) <==> n < 999500
  {
    var t, s := Thousands(n), Figure(n);
    assert s[..|s| - 1] == Decimal(t) && s[|s| - 1] == 'k';
    ShortExactlyBelowThousand(t);
    DecimalDigits(t);
    assert t >= 1 && !IsDigit('.') && !IsDigit('k');
    assert t < 1000 <==> n < 999500;
  }

  /** What a figure stands for. */
  function Shown(n: nat): nat {
    if n < 1000 then n else if n < 10000 then 100 * Tenths(n) else 1000 * Thousands(n)
  }

  /** A figure is off by at most half of its last place, a half rounding up; exact below 1000; and larger
      counts never show smaller. */
  lemma FigureIsNearest(n: nat, m: nat)
    requires n <= m
    ensures n < 1000 ==> Shown(n) == n
    ensures 1000 <= n < 10000 ==> -50 < Shown(n) - n <= 50
    ensures 10000 <= n ==> -500 < Shown(n) - n <= 500
    ensures Shown(n) <= Shown(m)
  {
    assert Tenths(n) <= Tenths(m) && Thousands(n) <= Thousands(m);
  }

  /** The text is that of the number shown: equal figures, equal numbers. */
  lemma FigureTellsShown(n: nat, m: nat)
    ensures Figure(n) == Figure(m) ==> Shown(n) == Shown(m)
  {
    FigureText(n);
    FigureText(m);
    if Figure(n) == Figure(m) {
      TextTellsShown(Shown(n), Shown(m));
    }
  }

  /** The figure as a text of the number it shows. */
  function Text(v: nat): string {
    if v < 1000 then Decimal(v)
    else if v % 1000 == 0 then Decimal(v / 1000) + "k"
    else Decimal(v / 1000) + "." + Decimal(v / 100 % 10) + "k"
  }

  lemma FigureText(n: nat)
    ensures Figure(n) == Text(Shown(n)) && (Shown(n) < 1000 || Shown(n) % 100 == 0)
  {
    if 1000 <= n < 10000 {
      TenthsOf(Tenths(n));
      TextOfTenths(Tenths(n));
      assert Text(10000) == "10k";
    } else if n >= 10000 {
      var t := Thousands(n);
      assert t >= 1 && (1000 * t) % 1000 == 0 && (1000 * t) / 1000 == t;
    }
  }

  lemma TenthsOf(t: nat)
    ensures (100 * t) / 1000 == t / 10 && (100 * t) % 1000 == 100 * (t % 10) && (100 * t) / 100 == t
    ensures (100 * t) % 100 == 0
  {
    assert t == 10 * (t / 10) + t % 10;
  }

  lemma TextOfTenths(t: nat)
    requires 10 <= t
    ensures Text(100 * t) ==
            if t % 10 == 0 then Decimal(t / 10) + "k" else Decimal(t / 10) + "." + Decimal(t % 10) + "k"
  {
    TenthsOf(t);
  }

  lemma {:induction false} DecimalInjective(a: nat, b: nat)
    requires Decimal(a) == Decimal(b)
    ensures a == b
  {
    var s, t := Decimal(a), Decimal(b);
    if a >= 10 && b >= 10 {
      assert s[..|s| - 1] == Decimal(a / 10) && t[..|t| - 1] == Decimal(b / 10);
      DecimalInjective(a / 10, b / 10);
      assert s[|s| - 1] == Digit(a % 10) && t[|t| - 1] == Digit(b % 10);
    } else if a < 10 && b < 10 {
      assert s[0] == Digit(a) && t[0] == Digit(b);
    }
  }

  /** A point and a `k` tell which of the three forms a text has. */
  lemma FormsDiffer(v: nat)
    ensures 'k' in Text(v) <==> v >= 1000
    ensures '.' in Text(v) <==> v >= 1000 && v % 1000 != 0
  {
    DecimalDigits(v);
    DecimalDigits(v / 1000);
    DecimalDigits(v / 100 % 10);
    assert !IsDigit('.') && !IsDigit('k');
    assert v >= 1000 ==> Text(v)[|Text(v)| - 1] == 'k';
    assert v >= 1000 && v % 1000 != 0 ==> Text(v)[|Decimal(v / 1000)|] == '.';
  }

  lemma Places(v: nat)
    requires v % 100 == 0
    ensures v == 1000 * (v / 1000) + 100 * (v / 100 % 10)
  {
    assert v / 1000 == v / 100 / 10;
  }

  lemma TextTellsShown(v: nat, w: nat)
    requires Text(v) == Text(w)
    requires (v < 1000 || v % 100 == 0) && (w < 1000 || w % 100 == 0)
    ensures v == w
  {
    FormsDiffer(v);
    FormsDiffer(w);
    if v < 1000 {
      DecimalInjective(v, w);
    } else {
      Places(v);
      Places(w);
      var q, r, d, e := v / 1000, w / 1000, v / 100 % 10, w / 100 % 10;
      assert d == 0 <==> v % 1000 == 0;
      assert e == 0 <==> w % 1000 == 0;
      PartsTell(q, d, r, e);
    }
  }

  lemma PartsTell(q: nat, d: nat, r: nat, e: nat)
    requires d < 10 && e < 10 && (d == 0 <==> e == 0)
    requires d == 0 ==> Decimal(q) + "k" == Decimal(r) + "k"
    requires d != 0 ==> Decimal(q) + "." + Decimal(d) + "k" == Decimal(r) + "." + Decimal(e) + "k"
    ensures q == r && d == e
  {
    if d == 0 {
      SameTail(Decimal(q), Decimal(r), "k", "k");
    } else {
      TenthTells(Decimal(q), d, Decimal(r), e);
    }
    DecimalInjective(q, r);
  }

  lemma TenthTells(s: string, d: nat, t: string, e: nat)
    requires d < 10 && e < 10 && s + "." + Decimal(d) + "k" == t + "." + Decimal(e) + "k"
    ensures s == t && d == e
  {
    SameTail(s + "." + [Digit(d)], t + "." + [Digit(e)], "k", "k");
    SameTail(s + ".", t + ".", [Digit(d)], [Digit(e)]);
    SameTail(s, t, ".", ".");
    DigitsTell(d, e);
  }

  lemma DigitsTell(d: nat, e: nat)
    requires d < 10 && e < 10 && [Digit(d)] == [Digit(e)]
    ensures d == e
  {
    assert [Digit(d)][0] == [Digit(e)][0];
  }

  lemma SameTail(s: string, t: string, a: string, b: string)
    requires s + a == t + b && |a| == |b|
    ensures s == t && a == b
  {
    assert s == (s + a)[..|s|] && t == (t + b)[..|t|];
    assert a == (s + a)[|s|..] && b == (t + b)[|t|..];
  }

  // --- Rounding. --------------------------------------------------------------------------------

  /** `a / d`, half rounding up. */
  function Nearest(a: nat, d: nat): nat
    requires d > 0
  {
    (2 * a + d) / (2 * d)
  }

  lemma Quotient(a: nat, d: nat)
    requires d > 0
    ensures d * (a / d) <= a < d * (a / d) + d
  {
  }

  lemma Times(d: nat, a: int, b: int)
    requires a <= b
    ensures d * a <= d * b
  {
  }

  lemma NearestIsNear(a: nat, d: nat)
    requires d > 0
    ensures -(d as int) <= 2 * a - 2 * d * Nearest(a, d) < d
  {
    Quotient(2 * a + d, 2 * d);
  }

  lemma NearestGrows(a: nat, b: nat, d: nat)
    requires d > 0 && a <= b
    ensures Nearest(a, d) <= Nearest(b, d)
  {
    Quotient(2 * a + d, 2 * d);
    Quotient(2 * b + d, 2 * d);
    Ordered(2 * d, Nearest(a, d), Nearest(b, d), 2 * a + d, 2 * b + d);
  }

  lemma Ordered(d: nat, p: int, q: int, a: int, b: int)
    requires d * p <= a <= b < d * q + d
    ensures p <= q
  {
    if p > q {
      assert d * (q + 1) == d * q + d;
      Times(d, q + 1, p);
    }
  }

  lemma NearestOfWhole(k: nat, d: nat)
    requires d > 0
    ensures Nearest(k * d, d) == k
  {
    var q := Nearest(k * d, d);
    NearestIsNear(k * d, d);
    assert 2 * (k * d) == 2 * d * k;
    if q > k {
      Times(2 * d, k + 1, q);
    } else if q < k {
      Times(2 * d, q + 1, k);
    }
  }

  // --- Bars. ------------------------------------------------------------------------------------

  /** The block of `k` eighths. */
  function Block(k: nat): char
    requires 1 <= k <= 8
  {
    (0x2590 - k) as char
  }

  predicate IsBlock(c: char) { 0x2588 <= c as int <= 0x258F }

  function Full(n: nat): string { seq(n, _ => Block(8)) }

  /** `n` out of `largest` in eighths of a cell, half rounding up. */
  function Eighths(n: nat, largest: nat): nat
    requires largest > 0
  {
    Nearest(8 * BAR_CELLS * n, largest)
  }

  function Bar(n: nat, largest: nat): string
    requires largest > 0
  {
    var eighths := Eighths(n, largest);
    var rest := eighths % 8;
    var cells := Full(eighths / 8) + if rest > 0 then [Block(rest)] else [];
    if cells == [] then [Block(1)] else cells
  }

  /** How much of a bar is filled, in eighths. */
  function Filled(bar: string): nat {
    if bar == [] then 0
    else Filled(bar[..|bar| - 1]) + if IsBlock(bar[|bar| - 1]) then 0x2590 - bar[|bar| - 1] as int else 0
  }

  lemma {:induction false} FullIsFilled(n: nat)
    ensures Filled(Full(n)) == 8 * n
  {
    if n > 0 {
      assert Full(n)[..n - 1] == Full(n - 1);
      FullIsFilled(n - 1);
    }
  }

  /** A bar has one to twelve cells, shows its count against the largest to the nearest eighth, a sliver
      at least, in full cells but the last; the largest count has twelve full ones. */
  lemma BarShowsEighths(n: nat, largest: nat)
    requires n <= largest && largest > 0
    ensures var b, e := Bar(n, largest), Eighths(n, largest);
            && 1 <= |b| <= BAR_CELLS
            && (forall i :: 0 <= i < |b| ==> IsBlock(b[i]))
            && (forall i :: 0 <= i < |b| - 1 ==> b[i] == Block(8))
            && Filled(b) == (if e == 0 then 1 else e)
            && (n == largest ==> b == Full(BAR_CELLS))
            && -(largest as int) <= 192 * n - 2 * largest * e < largest
  {
    EighthsBounded(n, largest);
    var e := Eighths(n, largest);
    var b := Bar(n, largest);
    FullIsFilled(e / 8);
    if e > 0 && e % 8 > 0 {
      assert b[..|b| - 1] == Full(e / 8);
    } else if e == 0 {
      assert b[..0] == [];
    } else {
      assert b == Full(e / 8);
    }
  }

  lemma EighthsBounded(n: nat, largest: nat)
    requires n <= largest && largest > 0
    ensures Eighths(n, largest) <= 96 && (n == largest ==> Eighths(n, largest) == 96)
    ensures -(largest as int) <= 192 * n - 2 * largest * Eighths(n, largest) < largest
  {
    NearestIsNear(96 * n, largest);
    NearestOfWhole(96, largest);
    NearestGrows(96 * n, 96 * largest, largest);
  }

  /** A larger count never has the smaller bar. */
  lemma BarsGrow(n: nat, m: nat, largest: nat)
    requires n <= m <= largest && largest > 0
    ensures Filled(Bar(n, largest)) <= Filled(Bar(m, largest))
  {
    BarShowsEighths(n, largest);
    BarShowsEighths(m, largest);
    NearestGrows(96 * n, 96 * m, largest);
  }

  // --- Shares. ----------------------------------------------------------------------------------

  function Percent(n: nat, total: nat): nat
    requires total > 0
  {
    Nearest(100 * n, total)
  }

  function Share(n: nat, total: nat): string
    requires total > 0
  {
    if 200 * n >= total then Decimal(Percent(n, total)) + "%" else "<1%"
  }

  predicate IsShare(s: string) {
    s == "<1%" || (2 <= |s| <= 4 && s[|s| - 1] == '%' && AllDigits(s[..|s| - 1]))
  }

  /** A share has the pattern, is `<1%` exactly below half a percent, and otherwise is the nearest
      percentage, between 1 and 100, half rounding up. */
  lemma ShareHasPattern(n: nat, total: nat)
    requires n <= total && total > 0
    ensures IsShare(Share(n, total))
    ensures Share(n, total) == "<1%" <==> 200 * n < total
    ensures 200 * n >= total ==> 1 <= Percent(n, total) <= 100
    ensures -(total as int) <= 200 * n - 2 * total * Percent(n, total) < total
  {
    var p := Percent(n, total);
    NearestIsNear(100 * n, total);
    NearestOfWhole(100, total);
    NearestGrows(100 * n, 100 * total, total);
    DecimalDigits(p);
    assert Pow10(3) == 1000;
    DecimalLength(p, 3);
    var s := Share(n, total);
    if 200 * n >= total {
      assert p >= 1;
      assert s[..|s| - 1] == Decimal(p) && IsDigit(s[0]);
    }
  }
}
