/**
 * Integers as decimal text, the way the guestbook's counters are written to
 * and read back from local storage (`String(n)`, `Number(s)`), and the
 * zero-padded visit counter display (`formatCount`).
 *
 * `Number` is modelled on the texts the page itself writes: an optional `-`
 * followed by decimal digits. Any other text reads as "not a number".
 */
module Decimal {
  import opened Optional

  predicate IsDigit(c: char) {
    '0' <= c <= '9'
  }

  predicate AllDigits(s: string) {
    forall i :: 0 <= i < |s| ==> IsDigit(s[i])
  }

  function DigitChar(d: nat): (c: char)
    requires d < 10
    ensures IsDigit(c) && c as int - '0' as int == d
  {
    ('0' as int + d) as char
  }

  /** The decimal digits of `n`, most significant first, without leading zeros. */
  function Digits(n: nat): (r: string)
    decreases n
  {
    if n < 10 then [DigitChar(n)] else Digits(n / 10) + [DigitChar(n % 10)]
  }

  /** The value of a string of decimal digits. */
  function Value(s: string): nat
    requires AllDigits(s)
    decreases |s|
  {
    if s == [] then 0 else Value(s[..|s| - 1]) * 10 + (s[|s| - 1] as int - '0' as int)
  }

  /** `String(i)` for an integer. */
  function Show(i: int): string {
    if i < 0 then "-" + Digits(-i) else Digits(i)
  }

  /** `Number(s)` on sign-and-digits text; `None` stands for `NaN`. */
  function Number(s: string): Option<int> {
    if |s| > 1 && s[0] == '-' && AllDigits(s[1..]) then Some(-(Value(s[1..]) as int))
    else if |s| > 0 && AllDigits(s) then Some(Value(s))
    else None
  }

  /** The digits of a number are digits, at least one, and the first is `0` only for zero itself. */
  lemma {:induction false} DigitsShape(n: nat)
    ensures AllDigits(Digits(n)) && |Digits(n)| > 0
    ensures Digits(n)[0] == '0' <==> n == 0
    decreases n
  {
    if n >= 10 {
      DigitsShape(n / 10);
    }
  }

  /** Reading the digits back gives the number. */
  lemma {:induction false} DigitsValue(n: nat)
    ensures AllDigits(Digits(n)) && Value(Digits(n)) == n
    decreases n
  {
    DigitsShape(n);
    if n >= 10 {
      DigitsValue(n / 10);
      var d := Digits(n);
      assert d[..|d| - 1] == Digits(n / 10);
    }
  }

  /** What the page stores as a counter reads back as the same counter: `Number(String(i)) == i`. */
  lemma ShowNumber(i: int)
    ensures Show(i) != ""
    ensures Number(Show(i)) == Some(i)
  {
    if i < 0 {
      DigitsValue(-i);
      DigitsShape(-i);
      assert Show(i)[1..] == Digits(-i);
    } else {
      DigitsValue(i);
      DigitsShape(i);
      assert Show(i)[0] != '-';
    }
  }

  /** `n` copies of the character `c`. */
  function Repeat(c: char, n: nat): (r: string)
    ensures |r| == n && forall i :: 0 <= i < n ==> r[i] == c
  {
    seq(n, _ => c)
  }

  /** `s.padStart(width, c)`: `c` in front of `s` until it is `width` long. */
  function PadStart(s: string, width: nat, c: char): (r: string)
    ensures |r| == if |s| < width then width else |s|
    ensures r[|r| - |s|..] == s
    ensures forall i :: 0 <= i < |r| - |s| ==> r[i] == c
  {
    if |s| < width then Repeat(c, width - |s|) + s else s
  }

  /**
   * `formatCount`: a non-finite count shows as zero; the count's decimal text
   * is padded with zeros in front to six characters. (A negative count is
   * padded in front of its sign, as `padStart` does: -5 shows as `0000-5`.)
   */
  function FormatCount(num: Option<int>): (r: string)
    ensures var t := Show(num.GetOr(0));
      && |r| == (if |t| < 6 then 6 else |t|)
      && r[|r| - |t|..] == t
      && (forall i :: 0 <= i < |r| - |t| ==> r[i] == '0')
  {
    PadStart(Show(num.GetOr(0)), 6, '0')
  }

  /** Leading zeros do not change the value of a digit string. */
  lemma {:induction false} LeadingZero(s: string)
    requires AllDigits(s)
    ensures AllDigits(['0'] + s) && Value(['0'] + s) == Value(s)
    decreases |s|
  {
    var z := ['0'] + s;
    if s != [] {
      assert z[..|z| - 1] == ['0'] + s[..|s| - 1];
      LeadingZero(s[..|s| - 1]);
    }
  }

  lemma {:induction false} LeadingZeros(k: nat, s: string)
    requires AllDigits(s)
    ensures AllDigits(Repeat('0', k) + s) && Value(Repeat('0', k) + s) == Value(s)
    decreases k
  {
    if k > 0 {
      LeadingZeros(k - 1, s);
      assert Repeat('0', k) == ['0'] + Repeat('0', k - 1);
      assert Repeat('0', k) + s == ['0'] + (Repeat('0', k - 1) + s);
      LeadingZero(Repeat('0', k - 1) + s);
    } else {
      assert Repeat('0', k) + s == s;
    }
  }

  /**
   * A count that is not negative reads back from its display as itself
   * (the padding zeros do not change it); a missing count shows as `000000`.
   */
  lemma FormatCountReads(num: Option<int>)
    ensures num.GetOr(0) >= 0 ==> Number(FormatCount(num)) == Some(num.GetOr(0))
    ensures num.None? ==> FormatCount(num) == "000000"
  {
    var n := num.GetOr(0);
    var t := Show(n);
    if n >= 0 {
      DigitsValue(n);
      DigitsShape(n);
      var r := FormatCount(num);
      if |t| < 6 {
        LeadingZeros(6 - |t|, t);
        assert r == Repeat('0', 6 - |t|) + t;
      }
      assert AllDigits(r) && |r| > 0 && r[0] != '-';
    }
    if num.None? {
      assert t == "0";
      assert FormatCount(num) == Repeat('0', 5) + "0";
    }
  }
}
