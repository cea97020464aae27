/**
  The date key of a calendar cell (`dateStr`, script.js:110): the year, the
  one-based month and the day joined by dashes, month and day padded to two
  digits. Because of the padding, the string order of keys for four-digit
  years is the calendar order (script.js:132).
 */
module DateKeys {
  import opened KeyOrder

  /** The decimal digit character for `d`. */
  function DigitChar(d: int): (c: char)
    requires 0 <= d <= 9
    ensures '0' <= c <= '9'
  {
    ('0' as int + d) as char
  }

  /** `String(n)` for a non-negative integer: decimal digits, no leading zero. */
  function NatToString(n: nat): (s: string)
    ensures |s| >= 1
    ensures forall i :: 0 <= i < |s| ==> '0' <= s[i] <= '9'
    ensures 10 <= n ==> 2 <= |s| && s[0] != '0'
  {
    if n < 10 then [DigitChar(n)] else NatToString(n / 10) + [DigitChar(n % 10)]
  }

  /** `String(n)` (and template interpolation) for any integer. */
  function IntToString(n: int): (s: string)
    ensures 0 <= n ==> s == NatToString(n) && s[0] != '-'
    ensures n < 0 ==> 2 <= |s| && s[0] == '-' && s[1..] == NatToString(-n)
  {
    if n < 0 then "-" + NatToString(-n) else NatToString(n)
  }

  /** `s.padStart(width, fill)` with a one-character `fill`. */
  function PadStart(s: string, width: nat, fill: char): (r: string)
    ensures |r| == if |s| < width then width else |s|
    ensures r[|r| - |s|..] == s
    ensures forall i :: 0 <= i < |r| - |s| ==> r[i] == fill
  {
    if |s| < width then seq(width - |s|, _ => fill) + s else s
  }

  /**
    The key of the cell for `day` in the month shown: `month` is zero-based,
    as `getMonth()` gives it, and is printed one-based.
   */
  function DateKey(year: int, month: int, day: int): (key: string)
    ensures var y := IntToString(year);
      && |key| >= |y| + 6
      && key[..|y|] == y && key[|y|] == '-'
  {
    JoinLayout(IntToString(year), PadStart(IntToString(month + 1), 2, '0'), PadStart(IntToString(day), 2, '0'));
    Join(IntToString(year), PadStart(IntToString(month + 1), 2, '0'), PadStart(IntToString(day), 2, '0'))
  }

  /** Year, month and day text joined by dashes. */
  function Join(y: string, m: string, d: string): (joined: string)
  {
    y + "-" + m + "-" + d
  }

  /** Where the parts and the dashes sit in a joined key. */
  lemma JoinLayout(y: string, m: string, d: string)
    ensures var joined := Join(y, m, d);
      && |joined| == |y| + |m| + |d| + 2
      && joined[..|y|] == y && joined[|y|] == '-' && joined[|y| + 1 + |m|] == '-'
      && joined[|y| + 1..|y| + 1 + |m|] == m && joined[|y| + |m| + 2..] == d
  {
  }

  /** Joined parts of equal widths compare by year text first, then month text, then day text. */
  lemma JoinOrder(y1: string, m1: string, d1: string, y2: string, m2: string, d2: string)
    requires |y1| == |y2| && |m1| == |m2|
    ensures Precedes(Join(y1, m1, d1), Join(y2, m2, d2)) <==>
      Precedes(y1, y2) || (y1 == y2 && (Precedes(m1, m2) || (m1 == m2 && Precedes(d1, d2))))
  {
    PrecedesIrreflexive("-");
    assert Join(y1, m1, d1) == y1 + ("-" + (m1 + ("-" + d1)));
    assert Join(y2, m2, d2) == y2 + ("-" + (m2 + ("-" + d2)));
    PrecedesAppend(y1, "-" + (m1 + ("-" + d1)), y2, "-" + (m2 + ("-" + d2)));
    PrecedesAppend("-", m1 + ("-" + d1), "-", m2 + ("-" + d2));
    PrecedesAppend(m1, "-" + d1, m2, "-" + d2);
    PrecedesAppend("-", d1, "-", d2);
  }

  /** A date the calendar can show with a four-digit year. */
  predicate ValidDate(year: int, month: int, day: int)
  {
    1000 <= year <= 9999 && 0 <= month <= 11 && 1 <= day <= 31
  }

  /** The first date is earlier in the calendar than the second. */
  predicate Before(y1: int, m1: int, d1: int, y2: int, m2: int, d2: int)
  {
    y1 < y2 || (y1 == y2 && (m1 < m2 || (m1 == m2 && d1 < d2)))
  }

  function Pow10(w: nat): (p: nat)
    ensures p >= 1
  {
    if w == 0 then 1 else 10 * Pow10(w - 1)
  }

  /** The last `w` decimal digits of `n`, zero-padded on the left. */
  function Digits(n: nat, w: nat): (s: string)
    ensures |s| == w
    ensures forall i :: 0 <= i < w ==> '0' <= s[i] <= '9'
  {
    if w == 0 then "" else Digits(n / 10, w - 1) + [DigitChar(n % 10)]
  }

  /** Fixed-width digit strings compare as their numbers do, and are equal only for equal numbers. */
  lemma {:induction false} DigitsOrder(a: nat, b: nat, w: nat)
    requires a < Pow10(w) && b < Pow10(w)
    ensures Precedes(Digits(a, w), Digits(b, w)) <==> a < b
    ensures Digits(a, w) == Digits(b, w) <==> a == b
  {
    if w != 0 {
      var ha, hb := Digits(a / 10, w - 1), Digits(b / 10, w - 1);
      var ca, cb := [DigitChar(a % 10)], [DigitChar(b % 10)];
      DigitsOrder(a / 10, b / 10, w - 1);
      PrecedesAppend(ha, ca, hb, cb);
      assert Precedes(ca, cb) <==> a % 10 < b % 10 by {
        assert ca[1..] == [] && cb[1..] == [];
      }
      if ha + ca == hb + cb {
        assert (ha + ca)[..w - 1] == ha && (hb + cb)[..w - 1] == hb;
        assert (ha + ca)[w - 1] == ca[0] && (hb + cb)[w - 1] == cb[0];
      }
    }
  }

  /** `String(n)` of a `w`-digit number is its `w` digits. */
  lemma {:induction false} NatToStringDigits(n: nat, w: nat)
    requires 1 <= w && n < Pow10(w)
    requires w == 1 || Pow10(w - 1) <= n
    ensures NatToString(n) == Digits(n, w)
  {
    if w == 1 {
      assert Digits(n, 1) == Digits(n / 10, 0) + [DigitChar(n % 10)];
    } else {
      assert Pow10(w - 1) == 10 * Pow10(w - 2);
      NatToStringDigits(n / 10, w - 1);
    }
  }

  /** Month and day numbers below 100 print, once padded, as exactly two digits. */
  lemma PaddedTwoDigits(k: nat)
    requires k < 100
    ensures PadStart(IntToString(k), 2, '0') == Digits(k, 2)
  {
    if k < 10 {
      NatToStringDigits(k, 1);
      assert Digits(k, 2) == Digits(0, 1) + Digits(k, 1);
    } else {
      NatToStringDigits(k, 2);
    }
  }

  /** For a valid date the key is the fixed-width form `YYYY-MM-DD`. */
  lemma DateKeyDigits(year: int, month: int, day: int)
    requires ValidDate(year, month, day)
    ensures DateKey(year, month, day) == Join(Digits(year, 4), Digits(month + 1, 2), Digits(day, 2))
  {
    NatToStringDigits(year, 4);
    PaddedTwoDigits(month + 1);
    PaddedTwoDigits(day);
  }

  /** The fixed-width form is ten characters: digits, with dashes at positions 4 and 7. */
  lemma FixedWidthShape(year: int, month: int, day: int)
    requires ValidDate(year, month, day)
    ensures var key := Join(Digits(year, 4), Digits(month + 1, 2), Digits(day, 2));
      && |key| == 10 && key[4] == '-' && key[7] == '-'
      && forall i :: 0 <= i < 10 && i != 4 && i != 7 ==> '0' <= key[i] <= '9'
  {
    var y, m, d := Digits(year, 4), Digits(month + 1, 2), Digits(day, 2);
    var key := Join(y, m, d);
    assert key == y + ("-" + (m + ("-" + d)));
    forall i | 0 <= i < 10
      ensures i < 4 ==> key[i] == y[i]
      ensures i == 4 || i == 7 ==> key[i] == '-'
      ensures 4 < i < 7 ==> key[i] == m[i - 5]
      ensures 7 < i ==> key[i] == d[i - 8]
    {
    }
  }

  /** The key of a valid date is ten characters: digits, with dashes at positions 4 and 7. */
  lemma DateKeyShape(year: int, month: int, day: int)
    requires ValidDate(year, month, day)
    ensures var key := DateKey(year, month, day);
      && |key| == 10 && key[4] == '-' && key[7] == '-'
      && forall i :: 0 <= i < 10 && i != 4 && i != 7 ==> '0' <= key[i] <= '9'
  {
    DateKeyDigits(year, month, day);
    FixedWidthShape(year, month, day);
  }

  /** Fixed-width forms of valid dates compare as the dates do. */
  lemma FixedWidthOrder(y1: int, m1: int, d1: int, y2: int, m2: int, d2: int)
    requires ValidDate(y1, m1, d1) && ValidDate(y2, m2, d2)
    ensures Precedes(Join(Digits(y1, 4), Digits(m1 + 1, 2), Digits(d1, 2)),
                     Join(Digits(y2, 4), Digits(m2 + 1, 2), Digits(d2, 2)))
        <==> Before(y1, m1, d1, y2, m2, d2)
  {
    assert Pow10(2) == 100 && Pow10(4) == 10000;
    DigitsOrder(y1, y2, 4);
    DigitsOrder(m1 + 1, m2 + 1, 2);
    DigitsOrder(d1, d2, 2);
    JoinOrder(Digits(y1, 4), Digits(m1 + 1, 2), Digits(d1, 2), Digits(y2, 4), Digits(m2 + 1, 2), Digits(d2, 2));
  }

  /** For valid dates, a key sorts before another exactly when its date is earlier. */
  lemma DateKeyOrder(y1: int, m1: int, d1: int, y2: int, m2: int, d2: int)
    requires ValidDate(y1, m1, d1) && ValidDate(y2, m2, d2)
    ensures Precedes(DateKey(y1, m1, d1), DateKey(y2, m2, d2)) <==> Before(y1, m1, d1, y2, m2, d2)
  {
    DateKeyDigits(y1, m1, d1);
    DateKeyDigits(y2, m2, d2);
    FixedWidthOrder(y1, m1, d1, y2, m2, d2);
  }

  /** Different valid dates never share a key. */
  lemma DateKeyInjective(y1: int, m1: int, d1: int, y2: int, m2: int, d2: int)
    requires ValidDate(y1, m1, d1) && ValidDate(y2, m2, d2)
    requires DateKey(y1, m1, d1) == DateKey(y2, m2, d2)
    ensures y1 == y2 && m1 == m2 && d1 == d2
  {
    DateKeyOrder(y1, m1, d1, y2, m2, d2);
    DateKeyOrder(y2, m2, d2, y1, m1, d1);
    PrecedesIrreflexive(DateKey(y1, m1, d1));
  }
}
