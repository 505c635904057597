/** Calendar dates travel as RFC 3339 `full-date` strings (`yyyy-MM-dd`, section 5.6
    of RFC 3339). The model renders the plan query's `gte`/`lte` date window as
    text order; section 5.1 of RFC 3339 notes that for this fixed-width,
    zero-padded format the text order is the chronological order.
    `FullDateOrder` proves that here, so the model can keep the dates as
    strings. */
module Dates {
  import opened Text

  /** Two zero-padded decimal digits. */
  function Pad2(n: nat): (s: string)
    requires n < 100
    ensures |s| == 2 && AllDigits(s)
  {
    [DigitChar(n / 10), DigitChar(n % 10)]
  }

  /** The `yyyy-MM-dd` rendering of a date. */
  function FullDate(year: nat, month: nat, day: nat): (s: string)
    requires year < 10000 && month < 100 && day < 100
    ensures |s| == 10 && s[4] == '-' && s[7] == '-'
  {
    Pad2(year / 100) + Pad2(year % 100) + "-" + Pad2(month) + "-" + Pad2(day)
  }

  lemma Pad2Order(a: nat, b: nat)
    requires a < 100 && b < 100
    ensures Pad2(a) == Pad2(b) <==> a == b
    ensures LexLe(Pad2(a), Pad2(b)) <==> a <= b
  {
    var pa, pb := Pad2(a), Pad2(b);
    assert pa[1..][1..] == [] && pb[1..][1..] == [];
    assert pa[1..][0] == pa[1] && pb[1..][0] == pb[1];
    assert pa == pb <==> pa[0] == pb[0] && pa[1] == pb[1];
    assert a == 10 * (a / 10) + a % 10 && b == 10 * (b / 10) + b % 10;
    assert pa[0] < pb[0] <==> a / 10 < b / 10;
    assert pa[1] < pb[1] <==> a % 10 < b % 10;
    assert LexLe(pa[1..], pb[1..]) <==> pa[1] <= pb[1] by {
      assert LexLe(pa[1..][1..], pb[1..][1..]);
    }
    assert LexLe(pa, pb) <==> pa[0] < pb[0] || (pa[0] == pb[0] && LexLe(pa[1..], pb[1..]));
  }

  /** Four zero-padded digits compare as the years they spell. */
  lemma YearOrder(a: nat, b: nat)
    requires a < 10000 && b < 10000
    ensures Pad2(a / 100) + Pad2(a % 100) == Pad2(b / 100) + Pad2(b % 100) <==> a == b
    ensures LexLe(Pad2(a / 100) + Pad2(a % 100), Pad2(b / 100) + Pad2(b % 100)) <==> a <= b
  {
    Pad2Order(a / 100, b / 100);
    Pad2Order(a % 100, b % 100);
    LexLeAppend(Pad2(a / 100), Pad2(a % 100), Pad2(b / 100), Pad2(b % 100));
    var x, y := Pad2(a / 100) + Pad2(a % 100), Pad2(b / 100) + Pad2(b % 100);
    assert x == y ==> x[..2] == y[..2] && x[2..] == y[2..];
    assert x[..2] == Pad2(a / 100) && x[2..] == Pad2(a % 100);
    assert y[..2] == Pad2(b / 100) && y[2..] == Pad2(b % 100);
    assert a == 100 * (a / 100) + a % 100 && b == 100 * (b / 100) + b % 100;
  }

  /** Text order on `yyyy-MM-dd` strings is chronological order. */
  lemma FullDateOrder(y1: nat, m1: nat, d1: nat, y2: nat, m2: nat, d2: nat)
    requires y1 < 10000 && m1 < 100 && d1 < 100
    requires y2 < 10000 && m2 < 100 && d2 < 100
    ensures LexLe(FullDate(y1, m1, d1), FullDate(y2, m2, d2)) <==>
            y1 < y2 || (y1 == y2 && (m1 < m2 || (m1 == m2 && d1 <= d2)))
  {
    var yy1, yy2 := Pad2(y1 / 100) + Pad2(y1 % 100), Pad2(y2 / 100) + Pad2(y2 % 100);
    var md1, md2 := "-" + Pad2(m1), "-" + Pad2(m2);
    var dd1, dd2 := "-" + Pad2(d1), "-" + Pad2(d2);
    assert FullDate(y1, m1, d1) == yy1 + (md1 + dd1);
    assert FullDate(y2, m2, d2) == yy2 + (md2 + dd2);
    YearOrder(y1, y2);
    LexLeAppend(yy1, md1 + dd1, yy2, md2 + dd2);
    LexLeAppend(md1, dd1, md2, dd2);
    LexLeAppend("-", Pad2(m1), "-", Pad2(m2));
    LexLeAppend("-", Pad2(d1), "-", Pad2(d2));
    assert "-" + Pad2(m1) == md1 && "-" + Pad2(m2) == md2;
    assert md1 == md2 <==> Pad2(m1) == Pad2(m2) by {
      assert md1[1..] == Pad2(m1) && md2[1..] == Pad2(m2);
    }
    assert dd1[1..] == Pad2(d1) && dd2[1..] == Pad2(d2);
    assert LexLe("-", "-") by { assert "-"[1..] == []; }
    assert Pad2(m1) + "" == Pad2(m1) && Pad2(m2) + "" == Pad2(m2);
    Pad2Order(m1, m2);
    Pad2Order(d1, d2);
  }
}
