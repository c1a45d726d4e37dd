/** Integers written in decimal and read back, as Go's strconv and fmt do it. */
module Decimal {
  import opened Common

  const MAX_INT64 := 0x7FFF_FFFF_FFFF_FFFF
  const MIN_INT64 := -0x8000_0000_0000_0000

  predicate IsDigit(c: char) {
    '0' <= c <= '9'
  }

  predicate AllDigits(s: string) {
    forall i :: 0 <= i < |s| ==> IsDigit(s[i])
  }

  function DigitChar(d: int): char
    requires 0 <= d <= 9
  {
    '0' + d as char
  }

  function DigitValue(c: char): int
    requires IsDigit(c)
  {
    c as int - '0' as int
  }

  function Itoa(n: nat): string {
    if n < 10 then [DigitChar(n)] else Itoa(n / 10) + [DigitChar(n % 10)]
  }

  function Value(s: string): int
    requires AllDigits(s)
  {
    if |s| == 0 then 0 else Value(s[..|s| - 1]) * 10 + DigitValue(s[|s| - 1])
  }

  /** Writing and reading cancel out, and only zero begins with a zero. */
  lemma {:induction false} ItoaReadsBack(n: nat)
    ensures |Itoa(n)| > 0 && AllDigits(Itoa(n)) && Value(Itoa(n)) == n
    ensures n > 0 ==> Itoa(n)[0] != '0'
  {
    if n < 10 {
      assert Itoa(n)[..0] == [];
    } else {
      ItoaReadsBack(n / 10);
      assert Itoa(n)[..|Itoa(n)| - 1] == Itoa(n / 10);
    }
  }

  /** strconv.FormatInt. */
  function FormatInt(n: int): string {
    if n < 0 then "-" + Itoa(-n) else Itoa(n)
  }

  /** strconv.Atoi: an optional sign, digits, and a value that fits. */
  function Atoi(s: string): Option<int> {
    var signed := |s| > 0 && (s[0] == '-' || s[0] == '+');
    var digits := if signed then s[1..] else s;
    if |digits| == 0 || !AllDigits(digits) then None
    else
      var n := if signed && s[0] == '-' then -Value(digits) else Value(digits);
      if MIN_INT64 <= n <= MAX_INT64 then Some(n) else None
  }

  lemma {:induction false} AtoiInvertsItoa(n: nat)
    requires n <= MAX_INT64
    ensures Atoi(Itoa(n)) == Some(n)
  {
    ItoaReadsBack(n);
    assert IsDigit(Itoa(n)[0]);
  }

  /** Zeros on the left up to a width. */
  function Pad(s: string, width: nat): (r: string)
    ensures |r| == if |s| < width then width else |s|
    decreases width - |s|
  {
    if |s| >= width then s else Pad("0" + s, width)
  }

  /** %0<width>d: the sign takes a place. */
  function Padded(n: int, width: nat): string
    requires width > 0
  {
    if n < 0 then "-" + Pad(Itoa(-n), width - 1) else Pad(Itoa(n), width)
  }

  lemma {:induction false} LeadingZero(s: string)
    requires AllDigits(s)
    ensures AllDigits("0" + s) && Value("0" + s) == Value(s)
    decreases |s|
  {
    if |s| > 0 {
      LeadingZero(s[..|s| - 1]);
      assert ("0" + s)[..|s|] == "0" + s[..|s| - 1];
    } else {
      assert ("0" + s)[..0] == [];
    }
  }

  lemma {:induction false} PadReadsBack(s: string, width: nat)
    requires AllDigits(s)
    ensures AllDigits(Pad(s, width)) && Value(Pad(s, width)) == Value(s)
    decreases width - |s|
  {
    if |s| < width {
      LeadingZero(s);
      PadReadsBack("0" + s, width);
    }
  }

  lemma {:induction false} ItoaIsShort(n: nat, width: nat)
    requires width > 0 && n < Tens(width)
    ensures |Itoa(n)| <= width
    decreases width
  {
    if n >= 10 {
      assert Tens(width) == 10 * Tens(width - 1);
      ItoaIsShort(n / 10, width - 1);
    }
  }

  function Tens(k: nat): nat {
    if k == 0 then 1 else 10 * Tens(k - 1)
  }

  /** Padded to its width, a number that fits in it takes exactly the width. */
  lemma {:induction false} PaddedReadsBack(n: nat, width: nat)
    requires width > 0 && n < Tens(width)
    ensures |Padded(n, width)| == width && AllDigits(Padded(n, width)) && Value(Padded(n, width)) == n
  {
    ItoaIsShort(n, width);
    ItoaReadsBack(n);
    PadReadsBack(Itoa(n), width);
  }
}
