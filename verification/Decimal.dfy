/**
 Printing and reading USDC amounts (packages/circle-adapter/src/circle-wallet-provider.ts,
 apps/web/lib/format-money.ts): six decimal places, trailing zeros trimmed.
 */
module Decimal {
  import opened Wrappers

  const USDC_DECIMALS: nat := 6
  const DIVISOR: nat := 1_000_000

  predicate IsDigit(c: char) { '0' <= c <= '9' }

  predicate IsDigits(s: string) {
    forall i :: 0 <= i < |s| ==> IsDigit(s[i])
  }

  function DigitChar(d: nat): (c: char)
    requires d < 10
    ensures IsDigit(c) && c as int - '0' as int == d
  {
    (d + '0' as int) as char
  }

  /** `BigInt.toString()` */
  function NatToString(n: nat): (s: string)
    ensures IsDigits(s) && |s| > 0
  {
    if n < 10 then [DigitChar(n)] else NatToString(n / 10) + [DigitChar(n % 10)]
  }

  /** `BigInt(s)` of a string of decimal digits. */
  function StringToNat(s: string): nat
    requires IsDigits(s)
  {
    if s == [] then 0 else StringToNat(s[..|s| - 1]) * 10 + (s[|s| - 1] as int - '0' as int)
  }

  function Zeros(n: nat): (s: string)
    ensures |s| == n && IsDigits(s)
  {
    seq(n, _ => '0')
  }

  /** `s.padStart(n, "0")` */
  function PadStart(s: string, n: nat): (r: string) {
    if |s| < n then Zeros(n - |s|) + s else s
  }

  /** `s.replace(/0+$/, "")`, but never shorter than `keep` characters. */
  function TrimZeros(s: string, keep: nat): string {
    if |s| > keep && s[|s| - 1] == '0' then TrimZeros(s[..|s| - 1], keep) else s
  }

  function AtomicToDecimal(value: nat): string {
    var whole, fraction := value / DIVISOR, value % DIVISOR;
    if fraction == 0 then NatToString(whole)
    else NatToString(whole) + "." + TrimZeros(PadStart(NatToString(fraction), USDC_DECIMALS), 0)
  }

  /** The part of a string before its first dot. */
  function BeforeDot(s: string): (r: string)
    ensures r <= s && '.' !in r && (|r| == |s| || s[|r|] == '.')
  {
    if s == [] || s[0] == '.' then [] else [s[0]] + BeforeDot(s[1..])
  }

  /**
   `BigInt(text || "0")` on decimal digits. Signs, radix prefixes and surrounding blanks, which `BigInt` accepts too, never
   occur in a printed amount; here they count as unreadable, like the texts it throws on.
   */
  function ParseDigits(text: string): Option<nat> {
    if IsDigits(text) then Some(StringToNat(text)) else None
  }

  function DecimalToAtomic(s: string): Option<nat> {
    var whole := BeforeDot(s);
    var fraction := if |whole| == |s| then "" else BeforeDot(s[|whole| + 1..]);
    FromParts(whole, fraction)
  }

  /** What it computes from the two sides of the dot. */
  function FromParts(whole: string, fraction: string): Option<nat> {
    match (ParseDigits(whole), ParseDigits((fraction + Zeros(USDC_DECIMALS))[..USDC_DECIMALS]))
    case (Some(w), Some(f)) => Some(w * DIVISOR + f)
    case _ => None
  }

  // ----- round trip -----

  lemma {:induction false} DigitsRoundTrip(n: nat)
    ensures StringToNat(NatToString(n)) == n
  {
    if n >= 10 {
      var front := NatToString(n / 10);
      assert NatToString(n)[..|front|] == front;
      DigitsRoundTrip(n / 10);
    }
  }

  function Pow10(k: nat): nat { if k == 0 then 1 else 10 * Pow10(k - 1) }

  lemma {:induction false} DigitsLength(n: nat, k: nat)
    requires 0 < k && n < Pow10(k)
    ensures |NatToString(n)| <= k
  {
    if n >= 10 {
      DigitsLength(n / 10, k - 1);
    }
  }

  lemma {:induction false} LeadingZeros(z: nat, s: string)
    requires IsDigits(s)
    ensures IsDigits(Zeros(z) + s) && StringToNat(Zeros(z) + s) == StringToNat(s)
  {
    var t := Zeros(z) + s;
    if s != [] {
      assert t[..|t| - 1] == Zeros(z) + s[..|s| - 1];
      LeadingZeros(z, s[..|s| - 1]);
    } else if z > 0 {
      assert t[..|t| - 1] == Zeros(z - 1) + s;
      LeadingZeros(z - 1, s);
    }
  }

  /** Padding a trimmed string back with zeros gives the original. */
  lemma {:induction false} TrimThenPad(s: string, keep: nat)
    ensures |TrimZeros(s, keep)| <= |s| && TrimZeros(s, keep) + Zeros(|s| - |TrimZeros(s, keep)|) == s
    ensures keep <= |s| ==> keep <= |TrimZeros(s, keep)|
  {
    if |s| > keep && s[|s| - 1] == '0' {
      TrimThenPad(s[..|s| - 1], keep);
    }
  }

  lemma {:induction false} BeforeDotOf(whole: string, rest: string)
    requires IsDigits(whole)
    ensures BeforeDot(whole) == whole
    ensures BeforeDot(whole + "." + rest) == whole
  {
    if whole != [] {
      BeforeDotOf(whole[1..], rest);
      assert (whole + "." + rest)[1..] == whole[1..] + "." + rest;
    } else {
      assert whole + "." + rest == "." + rest;
    }
  }

  lemma {:induction false} SplitsAtDot(whole: string, fraction: string)
    requires IsDigits(whole) && IsDigits(fraction)
    ensures DecimalToAtomic(whole + "." + fraction) == FromParts(whole, fraction)
    ensures DecimalToAtomic(whole) == FromParts(whole, "")
  {
    var s := whole + "." + fraction;
    BeforeDotOf(whole, fraction);
    BeforeDotOf(fraction, "");
    assert s[|whole| + 1..] == fraction;
  }

  /** Any whole part, a dot, and six fraction digits with trailing zeros trimmed read back as the amount. */
  lemma {:induction false} ReadsBack(whole: string, fraction: string, keep: nat)
    requires IsDigits(whole) && IsDigits(fraction) && |fraction| == USDC_DECIMALS
    ensures IsDigits(TrimZeros(fraction, keep))
    ensures DecimalToAtomic(whole + "." + TrimZeros(fraction, keep)) == Some(StringToNat(whole) * DIVISOR + StringToNat(fraction))
  {
    var trimmed := TrimZeros(fraction, keep);
    TrimThenPad(fraction, keep);
    assert trimmed == fraction[..|trimmed|];
    SplitsAtDot(whole, trimmed);
    assert (trimmed + Zeros(USDC_DECIMALS))[..USDC_DECIMALS] == trimmed + Zeros(USDC_DECIMALS - |trimmed|) == fraction;
  }

  lemma {:induction false} PaddedFraction(f: nat)
    requires f < DIVISOR
    ensures var p := PadStart(NatToString(f), USDC_DECIMALS);
            |p| == USDC_DECIMALS && IsDigits(p) && StringToNat(p) == f
  {
    var s := NatToString(f);
    assert Pow10(6) == DIVISOR;
    DigitsLength(f, USDC_DECIMALS);
    LeadingZeros(USDC_DECIMALS - |s|, s);
    DigitsRoundTrip(f);
    assert |s| == USDC_DECIMALS ==> Zeros(0) + s == s;
  }

  lemma {:induction false} WholeReadsBack(whole: string)
    requires IsDigits(whole)
    ensures DecimalToAtomic(whole) == Some(StringToNat(whole) * DIVISOR)
  {
    SplitsAtDot(whole, "");
    assert ("" + Zeros(USDC_DECIMALS))[..USDC_DECIMALS] == Zeros(USDC_DECIMALS) + "";
    LeadingZeros(USDC_DECIMALS, "");
    assert StringToNat("") == 0;
  }

  /** Printing an atomic amount and reading it again gives the same amount, for every amount. */
  lemma {:induction false} DecimalRoundTrip(n: nat)
    ensures DecimalToAtomic(AtomicToDecimal(n)) == Some(n)
  {
    var whole := NatToString(n / DIVISOR);
    DigitsRoundTrip(n / DIVISOR);
    if n % DIVISOR == 0 {
      WholeReadsBack(whole);
    } else {
      PaddedFraction(n % DIVISOR);
      ReadsBack(whole, PadStart(NatToString(n % DIVISOR), USDC_DECIMALS), 0);
    }
  }

  /** Hence comparing printed amounts, as transfer recovery does, is comparing the amounts themselves. */
  lemma {:induction false} PrintedAmountsAgree(m: nat, n: nat)
    ensures AtomicToDecimal(m) == AtomicToDecimal(n) <==> m == n
  {
    DecimalRoundTrip(m);
    DecimalRoundTrip(n);
  }

  // ----- formatMoney -----

  /** A comma before every group of three digits that reaches the end (`\B(?=(\d{3})+(?!\d))`). */
  function GroupFrom(s: string, i: nat): string
    requires i <= |s|
    decreases |s| - i
  {
    if i == |s| then "" else Separator(i, |s| - i) + ([s[i]] + GroupFrom(s, i + 1))
  }

  function Separator(before: nat, after: nat): string {
    if before > 0 && after % 3 == 0 then "," else ""
  }

  function WithoutCommas(s: string): string {
    if s == [] then [] else (if s[0] == ',' then [] else [s[0]]) + WithoutCommas(s[1..])
  }

  function Displayed(digits: string): string {
    var padded := PadStart(digits, USDC_DECIMALS + 1);
    var cut := |padded| - USDC_DECIMALS;
    GroupFrom(padded[..cut], 0) + ("." + TrimZeros(padded[cut..], 2))
  }

  function Formatted(atomicUnits: string, asset: string): string {
    var negative := |atomicUnits| > 0 && atomicUnits[0] == '-';
    (if negative then "-" else "") + Displayed(if negative then atomicUnits[1..] else atomicUnits) + (" " + asset)
  }

  method FormatMoney(atomicUnits: string, asset: string) returns (text: string)
    ensures text == Formatted(atomicUnits, asset)
  {
    var negative := |atomicUnits| > 0 && atomicUnits[0] == '-';
    var digits := if negative then atomicUnits[1..] else atomicUnits;
    var padded := PadStart(digits, USDC_DECIMALS + 1);
    var whole := padded[..|padded| - USDC_DECIMALS];
    var fraction := padded[|padded| - USDC_DECIMALS..];
    ghost var full := fraction;
    while |fraction| > 2 && fraction[|fraction| - 1] == '0'
      invariant TrimZeros(fraction, 2) == TrimZeros(full, 2)
    {
      fraction := fraction[..|fraction| - 1];
    }
    assert fraction == TrimZeros(full, 2);
    var groupedWhole := GroupFrom(whole, 0);
    text := (if negative then "-" else "") + (groupedWhole + ("." + fraction)) + (" " + asset);
  }

  lemma {:induction false} WithoutCommasStep(before: nat, after: nat, c: char, s: string)
    requires IsDigit(c)
    ensures WithoutCommas(Separator(before, after) + ([c] + s)) == [c] + WithoutCommas(s)
  {
    var tail := [c] + s;
    assert tail[1..] == s;
    if Separator(before, after) == "," {
      assert ("," + tail)[1..] == tail;
    } else {
      assert "" + tail == tail;
    }
  }

  lemma {:induction false} UngroupedIs(s: string, i: nat, rest: string)
    requires i <= |s| && IsDigits(s) && WithoutCommas(rest) == rest
    ensures WithoutCommas(GroupFrom(s, i) + rest) == s[i..] + rest
    decreases |s| - i
  {
    if i == |s| {
      assert GroupFrom(s, i) + rest == rest;
    } else {
      UngroupedIs(s, i + 1, rest);
      var later := GroupFrom(s, i + 1);
      WithoutCommasStep(i, |s| - i, s[i], later + rest);
      Regroup(Separator(i, |s| - i), [s[i]], later, rest);
      TakeHead(s, i, rest);
    }
  }

  lemma {:induction false} TakeHead(s: string, i: nat, rest: string)
    requires i < |s|
    ensures s[i..] + rest == [s[i]] + (s[i + 1..] + rest)
  {
  }

  lemma {:induction false} Regroup(a: string, b: string, c: string, d: string)
    ensures (a + (b + c)) + d == a + (b + (c + d))
  {
  }

  lemma {:induction false} NoCommas(s: string)
    requires ',' !in s
    ensures WithoutCommas(s) == s
  {
    if s != [] { NoCommas(s[1..]); }
  }

  /** Six-digit tail or longer, the padded digits carry the value and split into the two displayed parts. */
  lemma {:induction false} PaddedParts(n: nat)
    ensures var padded := PadStart(NatToString(n), USDC_DECIMALS + 1);
            && IsDigits(padded) && |padded| > USDC_DECIMALS
            && StringToNat(padded[..|padded| - USDC_DECIMALS]) * DIVISOR + StringToNat(padded[|padded| - USDC_DECIMALS..]) == n
  {
    var digits := NatToString(n);
    var padded := PadStart(digits, USDC_DECIMALS + 1);
    DigitsRoundTrip(n);
    if |digits| < USDC_DECIMALS + 1 { LeadingZeros(USDC_DECIMALS + 1 - |digits|, digits); }
    SplitValue(padded, |padded| - USDC_DECIMALS);
  }

  /** Grouping commas disappear and the rest reads back. */
  lemma {:induction false} GroupedReadsBack(whole: string, fraction: string)
    requires IsDigits(whole) && IsDigits(fraction) && |fraction| == USDC_DECIMALS
    ensures DecimalToAtomic(WithoutCommas(GroupFrom(whole, 0) + ("." + TrimZeros(fraction, 2))))
         == Some(StringToNat(whole) * DIVISOR + StringToNat(fraction))
  {
    ReadsBack(whole, fraction, 2);
    UngroupedAmount(whole, TrimZeros(fraction, 2));
  }

  lemma {:induction false} UngroupedAmount(whole: string, fraction: string)
    requires IsDigits(whole) && IsDigits(fraction)
    ensures WithoutCommas(GroupFrom(whole, 0) + ("." + fraction)) == whole + "." + fraction
  {
    var shown := "." + fraction;
    NoCommas(shown);
    UngroupedIs(whole, 0, shown);
    assert whole[0..] + shown == whole + "." + fraction;
  }

  /** The displayed text without its asset suffix. */
  function AmountPart(text: string, asset: string): string
    requires |text| > |asset|
  {
    text[..|text| - |asset| - 1]
  }

  lemma {:induction false} AmountPartIs(a: string, asset: string)
    requires a != []
    ensures AmountPart(a + (" " + asset), asset) == a
  {
  }

  /** The displayed amount, with the asset suffix and the commas removed, reads back as the atomic amount: nothing is rounded away. */
  lemma {:induction false} FormattedReadsBack(n: nat, asset: string)
    ensures |Formatted(NatToString(n), asset)| > |asset|
    ensures DecimalToAtomic(WithoutCommas(AmountPart(Formatted(NatToString(n), asset), asset))) == Some(n)
  {
    var digits := NatToString(n);
    DisplayedReadsBack(n);
    DisplayedIsLong(digits);
    assert IsDigit(digits[0]);
    AmountPartIs(Displayed(digits), asset);
    assert "" + Displayed(digits) == Displayed(digits);
  }

  lemma {:induction false} DisplayedIsLong(digits: string)
    ensures Displayed(digits) != []
  {
  }

  lemma {:induction false} PaddedReadsBack(padded: string, n: nat)
    requires IsDigits(padded) && |padded| > USDC_DECIMALS
    requires StringToNat(padded[..|padded| - USDC_DECIMALS]) * DIVISOR + StringToNat(padded[|padded| - USDC_DECIMALS..]) == n
    ensures var cut := |padded| - USDC_DECIMALS;
            DecimalToAtomic(WithoutCommas(GroupFrom(padded[..cut], 0) + ("." + TrimZeros(padded[cut..], 2)))) == Some(n)
  {
    var cut := |padded| - USDC_DECIMALS;
    GroupedReadsBack(padded[..cut], padded[cut..]);
  }

  lemma {:induction false} DisplayedReadsBack(n: nat)
    ensures DecimalToAtomic(WithoutCommas(Displayed(NatToString(n)))) == Some(n)
  {
    PaddedParts(n);
    PaddedReadsBack(PadStart(NatToString(n), USDC_DECIMALS + 1), n);
  }

  /** The value of a digit string split six digits before its end. */
  lemma {:induction false} SplitValue(s: string, cut: nat)
    requires IsDigits(s) && cut + USDC_DECIMALS == |s|
    ensures StringToNat(s) == StringToNat(s[..cut]) * DIVISOR + StringToNat(s[cut..])
  {
    ConcatValue(s[..cut], s[cut..]);
    assert s[..cut] + s[cut..] == s;
    assert Pow10(6) == DIVISOR;
  }

  lemma {:induction false} ShiftValue(x: nat, p: nat, y: nat, d: nat)
    ensures (x * p + y) * 10 + d == x * (10 * p) + (y * 10 + d)
  {
  }

  lemma {:induction false} ConcatValue(a: string, b: string)
    requires IsDigits(a) && IsDigits(b)
    ensures IsDigits(a + b) && StringToNat(a + b) == StringToNat(a) * Pow10(|b|) + StringToNat(b)
  {
    if b == [] {
      assert a + b == a;
    } else {
      var front, last := b[..|b| - 1], b[|b| - 1] as int - '0' as int;
      ConcatValue(a, front);
      assert (a + b)[..|a + b| - 1] == a + front;
      ShiftValue(StringToNat(a), Pow10(|front|), StringToNat(front), last);
      assert StringToNat(a + b) == StringToNat(a + front) * 10 + last;
    }
  }
}
