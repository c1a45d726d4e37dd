/** How an amount and a rate are written for a person to read
    (internal/email/data.go and internal/pricing/pricing.go). */
module Printers {
  import opened Common
  import opened Decimal

  // ---------------------------------------------------------------- money

  /** Negating the least int64 overflows back to itself. */
  function Negate(n: int): int {
    if n == MIN_INT64 then n else -n
  }

  /** A comma before every third digit from the right: what the loop is for, said from
      the other end. Every group after the first is three characters. */
  function Thousands(s: string): string {
    if |s| <= 3 then s else Thousands(s[..|s| - 3]) + "," + s[|s| - 3..]
  }

  /** What the loop has written after i characters of a string of n. */
  function Written(s: string, n: nat, i: nat): string
    requires i <= |s| && i <= n
  {
    if i == 0 then ""
    else Written(s, n, i - 1) + (if i - 1 > 0 && (n - (i - 1)) % 3 == 0 then "," else "") + [s[i - 1]]
  }

  lemma {:induction false} WrittenIgnoresLastGroup(s: string, n: nat, i: nat)
    requires 3 <= n <= |s| && i <= n - 3
    ensures Written(s, n, i) == Written(s[..n - 3], n - 3, i)
  {
    if i > 0 {
      WrittenIgnoresLastGroup(s, n, i - 1);
    }
  }

  /** The loop counts from the left and the commas from the right; they meet. */
  lemma {:induction false} LoopWritesThousands(s: string)
    ensures Written(s, |s|, |s|) == Thousands(s)
  {
    hide Written;
    var n := |s|;
    if n <= 3 {
      FirstGroup(s, n);
      assert s[..n] == s;
    } else {
      LoopWritesThousands(s[..n - 3]);
      WrittenIgnoresLastGroup(s, n, n - 3);
      LastGroup(s);
    }
  }

  /** A comma goes here in a text of n characters. */
  predicate IsCommaPlace(p: nat, n: nat)
    requires p < n
  {
    p > 0 && (n - p) % 4 == 0
  }

  lemma {:induction false} FourFurther(p: nat, n: nat)
    requires p < n
    ensures IsCommaPlace(p, n + 4) == IsCommaPlace(p, n)
  {
  }

  lemma {:induction false} LastFour(p: nat, n: nat)
    requires n > 0 && n <= p < n + 4
    ensures IsCommaPlace(p, n + 4) <==> p == n
  {
  }

  /** The commas stand before every third character from the end, and nowhere else. */
  lemma {:induction false} CommasStandBeforeEveryThird(s: string)
    requires ',' !in s
    ensures var t := Thousands(s);
      && (|s| > 0 ==> |t| > 0)
      && forall p :: 0 <= p < |t| ==> (t[p] == ',' <==> IsCommaPlace(p, |t|))
  {
    hide IsCommaPlace;
    if |s| <= 3 {
      NoCommaPlace(|s|);
    } else {
      var front, back := Thousands(s[..|s| - 3]), s[|s| - 3..];
      CommasStandBeforeEveryThird(s[..|s| - 3]);
      hide Thousands;
      GroupAdded(front, back);
    }
  }

  lemma {:induction false} NoCommaPlace(n: nat)
    requires n <= 3
    ensures forall p :: 0 <= p < n ==> !IsCommaPlace(p, n)
  {
  }

  lemma {:induction false} GroupAdded(front: string, back: string)
    requires |front| > 0 && |back| == 3 && ',' !in back
    requires forall p :: 0 <= p < |front| ==> (front[p] == ',' <==> IsCommaPlace(p, |front|))
    ensures var t := front + "," + back;
      forall p :: 0 <= p < |t| ==> (t[p] == ',' <==> IsCommaPlace(p, |t|))
  {
    hide IsCommaPlace;
    var t := front + "," + back;
    forall p | 0 <= p < |t| ensures t[p] == ',' <==> IsCommaPlace(p, |t|) {
      if p < |front| {
        FourFurther(p, |front|);
      } else {
        LastFour(p, |front|);
        assert p > |front| ==> t[p] == back[p - |front| - 1];
      }
    }
  }

  lemma {:induction false} LastGroup(s: string)
    requires |s| > 3
    ensures Written(s, |s|, |s|) == Written(s, |s|, |s| - 3) + "," + s[|s| - 3..]
  {
    var n := |s|;
    assert Written(s, n, n - 2) == Written(s, n, n - 3) + "," + [s[n - 3]];
    assert Written(s, n, n - 1) == Written(s, n, n - 2) + "" + [s[n - 2]];
    assert Written(s, n, n) == Written(s, n, n - 1) + "" + [s[n - 1]];
    assert s[n - 3..] == [s[n - 3]] + [s[n - 2]] + [s[n - 1]];
  }

  lemma {:induction false} FirstGroup(s: string, i: nat)
    requires i <= |s| <= 3
    ensures Written(s, |s|, i) == s[..i]
  {
    if i > 0 {
      FirstGroup(s, i - 1);
      assert s[..i] == s[..i - 1] + "" + [s[i - 1]];
    }
  }

  function DollarText(dollars: string, cents: string): string {
    "$" + (Thousands(dollars) + "." + cents)
  }

  function MoneyText(cents: int): string {
    var c := if cents < 0 then Negate(cents) else cents;
    var text := DollarText(FormatInt(TruncDiv(c, 100)), Padded(TruncMod(c, 100), 2));
    if cents < 0 then "-" + text else text
  }

  method Money(cents: int) returns (text: string)
    requires MIN_INT64 <= cents <= MAX_INT64
    ensures text == MoneyText(cents)
  {
    var sign, left := "", cents;
    if left < 0 {
      sign, left := "-", Negate(left);
    }
    var digits := FormatInt(TruncDiv(left, 100));
    var grouped := "";
    for i := 0 to |digits|
      invariant grouped == Written(digits, |digits|, i)
    {
      if i > 0 && (|digits| - i) % 3 == 0 {
        grouped := grouped + ",";
      }
      grouped := grouped + [digits[i]];
    }
    LoopWritesThousands(digits);
    text := sign + ("$" + (grouped + "." + Padded(TruncMod(left, 100), 2)));
    assert "" + DollarText(digits, Padded(TruncMod(left, 100), 2))
      == DollarText(digits, Padded(TruncMod(left, 100), 2));
  }

  function NoCommas(s: string): string {
    if |s| == 0 then ""
    else NoCommas(s[..|s| - 1]) + if s[|s| - 1] == ',' then "" else [s[|s| - 1]]
  }

  /** A person reading it: the sign, the dollar mark, digits with commas anywhere, and
      two digits of cents. */
  function ReadMoney(s: string): Option<int> {
    if |s| > 0 && s[0] == '-' then
      match ReadDollars(s[1..])
      case None => None
      case Some(v) => Some(-v)
    else ReadDollars(s)
  }

  function ReadDollars(t: string): Option<int> {
    if |t| == 0 || t[0] != '$' then None else ReadCents(NoCommas(t[1..]))
  }

  function ReadCents(u: string): Option<int> {
    if |u| < 4 || u[|u| - 3] != '.' then None
    else
      var dollars, cents := u[..|u| - 3], u[|u| - 2..];
      if !AllDigits(dollars) || !AllDigits(cents) then None else Some(Value(dollars) * 100 + Value(cents))
  }

  lemma {:induction false} NoCommasConcat(a: string, b: string)
    ensures NoCommas(a + b) == NoCommas(a) + NoCommas(b)
  {
    if |b| == 0 {
      assert a + b == a;
    } else {
      assert (a + b)[..|a + b| - 1] == a + b[..|b| - 1];
      NoCommasConcat(a, b[..|b| - 1]);
    }
  }

  lemma {:induction false} NothingToRemove(s: string)
    requires ',' !in s
    ensures NoCommas(s) == s
  {
    if |s| > 0 {
      NothingToRemove(s[..|s| - 1]);
      assert s == s[..|s| - 1] + [s[|s| - 1]];
    }
  }

  lemma {:induction false} NoCommasJoined(a: string, mid: string, b: string)
    ensures NoCommas(a + mid + b) == NoCommas(a) + NoCommas(mid) + NoCommas(b)
  {
    NoCommasConcat(a + mid, b);
    NoCommasConcat(a, mid);
  }

  lemma {:induction false} NoCommasInComma()
    ensures NoCommas(",") == ""
  {
    assert ","[..0] == "";
  }

  lemma {:induction false} CommasComeOut(s: string)
    requires ',' !in s
    ensures NoCommas(Thousands(s)) == s
  {
    if |s| <= 3 {
      NothingToRemove(s);
    } else {
      var first, last := s[..|s| - 3], s[|s| - 3..];
      CommasComeOut(first);
      NothingToRemove(last);
      NoCommasInComma();
      NoCommasJoined(Thousands(first), ",", last);
      hide NoCommas;
      assert s == first + "" + last;
    }
  }

  lemma {:induction false} CentsReadBack(dollars: string, cents: string)
    requires |dollars| > 0 && |cents| == 2
    ensures ReadCents(dollars + "." + cents)
         == if AllDigits(dollars) && AllDigits(cents) then Some(Value(dollars) * 100 + Value(cents)) else None
  {
    var u := dollars + "." + cents;
    assert u[..|u| - 3] == dollars && u[|u| - 2..] == cents && u[|u| - 3] == '.';
    hide AllDigits, Value;
  }

  lemma {:induction false} DollarsReadBack(dollars: string, cents: string)
    requires |dollars| > 0 && ',' !in dollars && |cents| == 2 && ',' !in cents
    ensures ReadDollars(DollarText(dollars, cents)) == ReadCents(dollars + "." + cents)
  {
    var body := Thousands(dollars) + "." + cents;
    assert ("$" + body)[1..] == body;
    CommasComeOut(dollars);
    NothingToRemove(".");
    NothingToRemove(cents);
    NoCommasJoined(Thousands(dollars), ".", cents);
    hide NoCommas, Thousands, ReadCents;
  }

  lemma {:induction false} ReadBack(negative: bool, dollars: string, cents: string)
    requires |dollars| > 0 && ',' !in dollars && |cents| == 2 && ',' !in cents
    ensures var text := DollarText(dollars, cents);
      ReadMoney(if negative then "-" + text else text)
      == if AllDigits(dollars) && AllDigits(cents)
         then Some(if negative then -(Value(dollars) * 100 + Value(cents)) else Value(dollars) * 100 + Value(cents))
         else None
  {
    var text := DollarText(dollars, cents);
    DollarsReadBack(dollars, cents);
    CentsReadBack(dollars, cents);
    assert text[0] == '$' && ("-" + text)[1..] == text && ("-" + text)[0] == '-';
    hide ReadDollars, ReadCents, Thousands, AllDigits, Value, DollarText;
  }

  /** Any amount an int64 holds is printed so that it reads back as itself, but one:
      the least of them, whose sign does not come off. */
  lemma {:induction false} MoneyReadsBackExactlyUnlessLeast(cents: int)
    requires MIN_INT64 <= cents <= MAX_INT64
    ensures ReadMoney(MoneyText(cents)) == Some(cents) <==> cents != MIN_INT64
  {
    hide ReadMoney, DollarText, FormatInt, Padded, TruncDiv, TruncMod;
    var c := if cents < 0 then Negate(cents) else cents;
    if cents == MIN_INT64 {
      LeastIsUnreadable();
    } else {
      AmountReadsBack(cents < 0, c);
    }
  }

  lemma {:induction false} AmountReadsBack(negative: bool, c: int)
    requires c >= 0
    ensures var text := DollarText(FormatInt(TruncDiv(c, 100)), Padded(TruncMod(c, 100), 2));
      ReadMoney(if negative then "-" + text else text) == Some(if negative then -c else c)
  {
    hide ReadMoney, DollarText, Pad, Itoa, Value, AllDigits;
    var dollars, rest := TruncDiv(c, 100), TruncMod(c, 100);
    assert c == dollars * 100 + rest && 0 <= rest < 100 && Tens(2) == 100;
    ItoaReadsBack(dollars);
    PaddedReadsBack(rest, 2);
    DigitsHoldNoComma(Itoa(dollars));
    DigitsHoldNoComma(Padded(rest, 2));
    ReadBack(negative, Itoa(dollars), Padded(rest, 2));
  }

  lemma {:induction false} DigitsHoldNoComma(s: string)
    requires AllDigits(s)
    ensures ',' !in s
  {
  }

  lemma {:induction false} LeastIsUnreadable()
    ensures ReadMoney(MoneyText(MIN_INT64)) == None
  {
    var dollars, rest := TruncDiv(MIN_INT64, 100), TruncMod(MIN_INT64, 100);
    assert dollars == -92_233_720_368_547_758 && rest == -8;
    ItoaReadsBack(-dollars);
    ItoaReadsBack(8);
    DigitsHoldNoComma(Itoa(-dollars));
    DigitsHoldNoComma(Itoa(8));
    assert Padded(rest, 2) == "-" + Itoa(8) && |Itoa(8)| == 1;
    assert FormatInt(dollars)[0] == '-';
    ReadBack(true, FormatInt(dollars), Padded(rest, 2));
  }

  // ---------------------------------------------------------------- percent

  const SCALE := 1000

  /** Zeros come off the right. */
  function TrimZeros(s: string): string {
    if |s| > 0 && s[|s| - 1] == '0' then TrimZeros(s[..|s| - 1]) else s
  }

  function Percent(rate: int): string {
    var whole, frac := TruncDiv(rate, SCALE), TruncMod(rate, SCALE);
    if frac == 0 then FormatInt(whole) else FormatInt(whole) + "." + TrimZeros(Padded(frac, 3))
  }

  function PointAt(s: string): (i: nat)
    ensures i <= |s| && (i < |s| ==> s[i] == '.') && forall k :: 0 <= k < i ==> s[k] != '.'
  {
    if |s| == 0 || s[0] == '.' then 0 else 1 + PointAt(s[1..])
  }

  /** A decimal with at most three places, in thousandths. */
  function ReadPercent(s: string): Option<int> {
    var at := PointAt(s);
    var whole, places := Atoi(s[..at]), if at < |s| then s[at + 1..] else "0";
    if whole.None? || |places| == 0 || |places| > 3 || !AllDigits(places) then None
    else if s[0] == '-' then Some(whole.value * SCALE - Scaled(places))
    else Some(whole.value * SCALE + Scaled(places))
  }

  function Scaled(places: string): int
    requires |places| <= 3 && AllDigits(places)
    decreases 3 - |places|
  {
    if |places| == 3 then Value(places) else Scaled(places + "0")
  }

  lemma {:induction false} TrimmedScalesBack(places: string)
    requires |places| <= 3 && AllDigits(places)
    ensures var t := TrimZeros(places); AllDigits(t) && |t| <= |places| && Scaled(t) == Scaled(places)
    decreases |places|
  {
    if |places| > 0 && places[|places| - 1] == '0' {
      var shorter := places[..|places| - 1];
      TrimmedScalesBack(shorter);
      assert shorter + "0" == places;
    }
  }

  lemma {:induction false} TrimmedHasNoTrailingZero(s: string)
    ensures var t := TrimZeros(s); |t| > 0 ==> t[|t| - 1] != '0'
  {
    if |s| > 0 && s[|s| - 1] == '0' {
      TrimmedHasNoTrailingZero(s[..|s| - 1]);
    }
  }

  lemma {:induction false} ZerosScaleToNothing()
    ensures Scaled("") == 0 && Scaled("0") == 0
  {
    assert "" + "0" == "0" && "0" + "0" == "00" && "00" + "0" == "000";
    LeadingZero("00");
    LeadingZero("0");
    LeadingZero("");
    assert "0" + "" == "0" && "0" + "0" == "00" && "0" + "00" == "000";
    assert Scaled("000") == Value("000") == 0;
  }

  lemma {:induction false} PointFound(a: string, b: string)
    requires '.' !in a
    ensures PointAt(a + "." + b) == |a|
  {
    var s := a + "." + b;
    assert s[|a|] == '.';
    forall k | 0 <= k < |a| ensures s[k] != '.' {
      assert s[k] == a[k];
    }
  }

  /** A rate nobody could owe less than nothing of reads back as itself, and is written
      without a trailing zero after the point. */
  lemma {:induction false} PercentReadsBack(rate: int)
    requires 0 <= rate <= MAX_INT64
    ensures ReadPercent(Percent(rate)) == Some(rate)
    ensures '.' in Percent(rate) <==> rate % SCALE != 0
    ensures '.' in Percent(rate) ==> Percent(rate)[|Percent(rate)| - 1] != '0'
  {
    hide ReadPercent, AllDigits, Value, Scaled, TrimZeros, Padded, Atoi, Itoa;
    var whole, frac := TruncDiv(rate, SCALE), TruncMod(rate, SCALE);
    if frac == 0 {
      WholeReadsBack(whole);
    } else {
      ItoaReadsBack(whole);
      AtoiInvertsItoa(whole);
      FractionReadsBack(frac);
      PlacesReadBack(Itoa(whole), TrimZeros(Padded(frac, 3)));
    }
  }

  lemma {:induction false} WholeReadsBack(whole: int)
    requires 0 <= whole <= MAX_INT64
    ensures ReadPercent(Itoa(whole)) == Some(whole * SCALE) && '.' !in Itoa(whole)
  {
    var digits := Itoa(whole);
    ItoaReadsBack(whole);
    AtoiInvertsItoa(whole);
    ZerosScaleToNothing();
    DigitsHoldNoPoint(digits);
    NoPoint(digits);
    assert digits[..|digits|] == digits;
    assert IsDigit(digits[0]);
  }

  lemma {:induction false} NoPoint(s: string)
    requires '.' !in s
    ensures PointAt(s) == |s|
  {
  }

  lemma {:induction false} PlacesReadBack(digits: string, places: string)
    requires |digits| > 0 && AllDigits(digits) && Atoi(digits).Some? && 0 < |places| <= 3 && AllDigits(places)
    ensures var s := digits + "." + places;
      && ReadPercent(s) == Some(Atoi(digits).value * SCALE + Scaled(places))
      && '.' in s && s[|s| - 1] == places[|places| - 1]
  {
    var s := digits + "." + places;
    PointFound(digits, places);
    assert IsDigit(digits[0]);
    assert s[..|digits|] == digits && s[|digits| + 1..] == places && s[|digits|] == '.';
    hide Atoi, Scaled;
  }

  lemma {:induction false} FractionReadsBack(frac: int)
    requires 0 < frac < SCALE
    ensures var t := TrimZeros(Padded(frac, 3));
      0 < |t| <= 3 && AllDigits(t) && Scaled(t) == frac && t[|t| - 1] != '0'
  {
    assert Tens(3) == 1000;
    PaddedReadsBack(frac, 3);
    TrimmedScalesBack(Padded(frac, 3));
    TrimmedHasNoTrailingZero(Padded(frac, 3));
    if |TrimZeros(Padded(frac, 3))| == 0 {
      ZerosScaleToNothing();
    }
  }

  /** Below zero a fraction carries a sign of its own, after the point, and the text
      is no number: a negative rate reads back exactly when it is a whole percent. */
  lemma {:induction false} NegativePercentReadsBackExactlyWhenWhole(rate: int)
    requires MIN_INT64 <= rate < 0
    ensures ReadPercent(Percent(rate)) == Some(rate) <==> rate % SCALE == 0
  {
    hide ReadPercent, TrimZeros, Padded, FormatInt;
    var whole, frac := TruncDiv(rate, SCALE), TruncMod(rate, SCALE);
    if frac == 0 {
      WholeNegativeReadsBack(whole);
    } else {
      NoPointIn(whole);
      SignSurvives(frac);
      SignedPlacesAreUnreadable(FormatInt(whole), TrimZeros(Padded(frac, 3)));
    }
  }

  lemma {:induction false} NoPointIn(n: int)
    ensures '.' !in FormatInt(n)
  {
    ItoaReadsBack(if n < 0 then -n else n);
    DigitsHoldNoPoint(Itoa(if n < 0 then -n else n));
  }

  lemma {:induction false} DigitsHoldNoPoint(s: string)
    requires AllDigits(s)
    ensures '.' !in s
  {
  }

  lemma {:induction false} WholeNegativeReadsBack(whole: int)
    requires MIN_INT64 <= whole < 0
    ensures ReadPercent(FormatInt(whole)) == Some(whole * SCALE)
  {
    ItoaReadsBack(-whole);
    var text := FormatInt(whole);
    ZerosScaleToNothing();
    assert text[..|text|] == text && text[1..] == Itoa(-whole) && text[0] == '-';
    NoPointIn(whole);
    NoPoint(text);
  }

  lemma {:induction false} SignedPlacesAreUnreadable(text: string, places: string)
    requires '.' !in text && |places| > 0 && places[0] == '-'
    ensures ReadPercent(text + "." + places) == None
  {
    var s := text + "." + places;
    PointFound(text, places);
    assert s[|text| + 1..] == places;
    assert !IsDigit(places[0]);
    hide Atoi, Scaled;
  }

  lemma {:induction false} SignSurvives(frac: int)
    requires -SCALE < frac < 0
    ensures var t := TrimZeros(Padded(frac, 3)); |t| > 0 && t[0] == '-'
  {
    TrimKeepsTheFront(Padded(frac, 3));
  }

  lemma {:induction false} TrimKeepsTheFront(s: string)
    requires |s| > 0 && s[0] != '0'
    ensures |TrimZeros(s)| > 0 && TrimZeros(s)[0] == s[0]
  {
    if s[|s| - 1] == '0' {
      TrimKeepsTheFront(s[..|s| - 1]);
    }
  }
}
