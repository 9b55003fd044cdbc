/**
 * Wayback timestamps (`YYYYMMDDhhmmss`, 14 decimal digits) and
 * `convert_to_timestamp` of Code/main.py, which formats the first day of a
 * month at midnight. Timestamps are compared as strings; the lemmas show
 * that for these fixed-width digit strings the string order is the numeric
 * (and so the chronological) order.
 */
module Timestamps {
  import opened Text

  function Pow10(n: nat): nat {
    if n == 0 then 1 else 10 * Pow10(n - 1)
  }

  predicate IsDigit(c: char) {
    '0' <= c <= '9'
  }

  predicate AllDigits(s: string) {
    forall i :: 0 <= i < |s| ==> IsDigit(s[i])
  }

  function DigitChar(d: nat): (c: char)
    requires d < 10
    ensures IsDigit(c) && c as int - '0' as int == d
  {
    ('0' as int + d) as char
  }

  /** The number a string of decimal digits denotes. */
  function DecimalValue(s: string): nat
    requires AllDigits(s)
  {
    if s == [] then 0
    else DecimalValue(s[..|s| - 1]) * 10 + (s[|s| - 1] as int - '0' as int)
  }

  /** `n` in decimal, padded with zeros to `width` digits (`%04d`, `%02d`). */
  function ZeroPadded(n: nat, width: nat): (s: string)
    ensures |s| == width && AllDigits(s)
    ensures n < Pow10(width) ==> DecimalValue(s) == n
  {
    if width == 0 then []
    else
      var s := ZeroPadded(n / 10, width - 1) + [DigitChar(n % 10)];
      assert s[..width - 1] == ZeroPadded(n / 10, width - 1);
      s
  }

  lemma PaddedSmall()
    ensures ZeroPadded(0, 2) == "00" && ZeroPadded(1, 2) == "01"
  {
    assert ZeroPadded(0, 1) == ZeroPadded(0, 0) + [DigitChar(0)] == "0";
    assert DigitChar(1) == '1';
  }

  lemma TimeOfDayDigits()
    ensures ZeroPadded(1, 2) + ZeroPadded(0, 2) + ZeroPadded(0, 2) + ZeroPadded(0, 2) == "01000000"
  {
    PaddedSmall();
  }

  lemma Pow10Widths()
    ensures Pow10(2) == 100 && Pow10(4) == 10000
  {
  }

  lemma ConcatParts(y: string, m: string, rest: string)
    ensures var s := y + m + rest;
      s[..|y|] == y && s[|y|..|y| + |m|] == m && s[|y| + |m|..] == rest
  {
  }

  /**
   * `datetime(year, month, 1).strftime("%Y%m%d%H%M%S")`: year, month, day 01
   * and 00:00:00 as a 14-digit timestamp.
   */
  function ConvertToTimestamp(year: int, month: int): (ts: string)
    requires 1000 <= year <= 9999 && 1 <= month <= 12
    ensures |ts| == 14 && AllDigits(ts)
    ensures DecimalValue(ts[..4]) == year && DecimalValue(ts[4..6]) == month
    ensures ts[6..] == "01000000"
  {
    var y := ZeroPadded(year, 4);
    var m := ZeroPadded(month, 2);
    var rest := ZeroPadded(1, 2) + ZeroPadded(0, 2) + ZeroPadded(0, 2) + ZeroPadded(0, 2);
    TimeOfDayDigits();
    Pow10Widths();
    ConcatParts(y, m, rest);
    y + m + rest
  }

  lemma {:induction false} LexLeReflexive(s: string)
    ensures LexLe(s, s)
  {
    if s != [] {
      LexLeReflexive(s[1..]);
    }
  }

  /** Comparing two strings with equal-length heads compares the heads first. */
  lemma {:induction false} LexLeConcat(a1: string, a2: string, b1: string, b2: string)
    requires |a1| == |b1|
    ensures LexLe(a1 + a2, b1 + b2) == if a1 == b1 then LexLe(a2, b2) else LexLe(a1, b1)
  {
    if a1 != [] {
      assert (a1 + a2)[0] == a1[0] && (b1 + b2)[0] == b1[0];
      assert (a1 + a2)[1..] == a1[1..] + a2;
      assert (b1 + b2)[1..] == b1[1..] + b2;
      LexLeConcat(a1[1..], a2, b1[1..], b2);
      if a1[0] == b1[0] {
        assert a1 == b1 <==> a1[1..] == b1[1..] by {
          if a1[1..] == b1[1..] {
            assert a1 == [a1[0]] + a1[1..];
            assert b1 == [b1[0]] + b1[1..];
          }
        }
      }
    } else {
      assert a1 + a2 == a2 && b1 + b2 == b2;
    }
  }

  /** For digit strings of one width, string order is numeric order. */
  lemma {:induction false} DigitStringOrder(a: string, b: string)
    requires |a| == |b| && AllDigits(a) && AllDigits(b)
    ensures LexLe(a, b) <==> DecimalValue(a) <= DecimalValue(b)
    ensures a == b <==> DecimalValue(a) == DecimalValue(b)
  {
    if a != [] {
      var n := |a|;
      var a', b' := a[..n - 1], b[..n - 1];
      DigitStringOrder(a', b');
      assert a == a' + [a[n - 1]] && b == b' + [b[n - 1]];
      LexLeConcat(a', [a[n - 1]], b', [b[n - 1]]);
      assert LexLe([a[n - 1]], [b[n - 1]]) <==> a[n - 1] <= b[n - 1] by {
        assert [a[n - 1]][1..] == [];
        assert [b[n - 1]][1..] == [];
      }
    }
  }

  lemma ShiftDigit(x: int, p: int, y: int, d: int)
    ensures (x * p + y) * 10 + d == x * (10 * p) + (y * 10 + d)
  {
  }

  lemma {:induction false} DecimalValueAppend(a: string, b: string)
    requires AllDigits(a) && AllDigits(b)
    ensures AllDigits(a + b)
    ensures DecimalValue(a + b) == DecimalValue(a) * Pow10(|b|) + DecimalValue(b)
    decreases |b|
  {
    if b == [] {
      assert a + b == a;
    } else {
      var b' := b[..|b| - 1];
      var d := b[|b| - 1] as int - '0' as int;
      assert AllDigits(a + b) && DecimalValue(a + b) == DecimalValue(a + b') * 10 + d by {
        assert (a + b)[..|a + b| - 1] == a + b';
      }
      DecimalValueAppend(a, b');
      ShiftDigit(DecimalValue(a), Pow10(|b'|), DecimalValue(b'), d);
    }
  }

  /** A timestamp is a six-digit year-and-month head denoting `100 * year + month`, then "01000000". */
  lemma TimestampHead(year: int, month: int)
    requires 1000 <= year <= 9999 && 1 <= month <= 12
    ensures var ts := ConvertToTimestamp(year, month);
      AllDigits(ts[..6]) && ts == ts[..6] + "01000000" && DecimalValue(ts[..6]) == 100 * year + month
  {
    var ts := ConvertToTimestamp(year, month);
    assert ts[..6] == ts[..4] + ts[4..6];
    DecimalValueAppend(ts[..4], ts[4..6]);
    assert Pow10(2) == 100;
  }

  /**
   * Timestamps built by `convert_to_timestamp` compare as strings exactly as
   * their (year, month) pairs compare chronologically.
   */
  lemma TimestampOrder(y1: int, m1: int, y2: int, m2: int)
    requires 1000 <= y1 <= 9999 && 1 <= m1 <= 12
    requires 1000 <= y2 <= 9999 && 1 <= m2 <= 12
    ensures LexLe(ConvertToTimestamp(y1, m1), ConvertToTimestamp(y2, m2)) <==> y1 < y2 || (y1 == y2 && m1 <= m2)
    ensures ConvertToTimestamp(y1, m1) == ConvertToTimestamp(y2, m2) <==> y1 == y2 && m1 == m2
  {
    var t1, t2 := ConvertToTimestamp(y1, m1), ConvertToTimestamp(y2, m2);
    var p1, p2 := t1[..6], t2[..6];
    TimestampHead(y1, m1);
    TimestampHead(y2, m2);
    LexLeReflexive("01000000");
    LexLeConcat(p1, "01000000", p2, "01000000");
    DigitStringOrder(p1, p2);
    assert t1 == t2 <==> p1 == p2;
  }
}
