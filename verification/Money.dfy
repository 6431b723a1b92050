// Amounts: the provider's decimal text for kopecks, the check of a provider's answer
// against a stored payment, and the prices of an extension and of an upgrade.

module Money {
  import opened Results

  // ----- Decimal text --------------------------------------------------------------------

  predicate IsDigit(c: char) {
    '0' <= c <= '9'
  }

  predicate AllDigits(s: string) {
    forall i :: 0 <= i < |s| ==> IsDigit(s[i])
  }

  function DigitValue(c: char): (v: nat)
    requires IsDigit(c)
    ensures v < 10
  {
    (c as int) - ('0' as int)
  }

  function DigitChar(v: nat): (c: char)
    requires v < 10
    ensures IsDigit(c) && DigitValue(c) == v
  {
    (('0' as int) + v) as char
  }

  function NatText(n: nat): (s: string)
    ensures s != "" && AllDigits(s)
    decreases n
  {
    if n < 10 then [DigitChar(n)] else NatText(n / 10) + [DigitChar(n % 10)]
  }

  function NatValue(s: string): nat
    requires AllDigits(s)
    decreases |s|
  {
    if s == "" then 0 else 10 * NatValue(s[..|s| - 1]) + DigitValue(s[|s| - 1])
  }

  function UnsignedText(minor: nat): string {
    NatText(minor / 100) + "." + [DigitChar(minor / 10 % 10), DigitChar(minor % 10)]
  }

  // minor_to_amount_value: rubles, a point and exactly two digits of kopecks.
  function AmountText(minor: int): string {
    if minor < 0 then "-" + UnsignedText(-minor) else UnsignedText(minor)
  }

  // Exactly the amounts below zero carry a sign, so that zero is written without one.
  lemma {:induction false} SignBelowZero(minor: int)
    ensures AmountText(minor) != "" && (AmountText(minor)[0] == '-' <==> minor < 0)
  {
    var digits := NatText((if minor < 0 then -minor else minor) / 100);
    assert IsDigit(digits[0]);
  }

  function PointIndex(s: string): (i: nat)
    ensures i <= |s|
    ensures '.' !in s[..i]
    ensures i < |s| ==> s[i] == '.'
  {
    if s == "" || s[0] == '.' then 0
    else
      var i := PointIndex(s[1..]);
      assert s[..i + 1] == [s[0]] + s[1..][..i];
      i + 1
  }

  // The text of an unsigned plain decimal, cut at its point.
  datatype Decimal = Decimal(whole: string, fraction: string)

  function Cut(s: string): Decimal {
    var i := PointIndex(s);
    if i == |s| then Decimal(s, "") else Decimal(s[..i], s[i + 1..])
  }

  predicate WellFormed(d: Decimal) {
    AllDigits(d.whole) && AllDigits(d.fraction) && d.whole + d.fraction != ""
  }

  // Kopecks of an unsigned decimal: digits after the second one are dropped.
  function Kopecks(d: Decimal): nat
    requires WellFormed(d)
  {
    100 * NatValue(d.whole)
    + (if |d.fraction| > 0 then 10 * DigitValue(d.fraction[0]) else 0)
    + (if |d.fraction| > 1 then DigitValue(d.fraction[1]) else 0)
  }

  // amount_value_to_minor, with a malformed text as the caller sees it: no amount.
  function AmountMinor(s: string): Option<int> {
    var negative := s != "" && s[0] == '-';
    var body := if s != "" && s[0] in {'-', '+'} then s[1..] else s;
    var d := Cut(body);
    if !WellFormed(d) then None
    else
      var kopecks: int := Kopecks(d);
      Some(if negative then -kopecks else kopecks)
  }

  // Reference meaning of a decimal text: all its digits as one number, over a power of ten.
  function Pow10(k: nat): (p: nat)
    ensures p >= 1
  {
    if k == 0 then 1 else 10 * Pow10(k - 1)
  }

  lemma {:induction false} NatTextRoundTrip(n: nat)
    ensures NatValue(NatText(n)) == n
    decreases n
  {
    if n < 10 {
      assert NatText(n)[..0] == "";
    } else {
      NatTextRoundTrip(n / 10);
      var s := NatText(n / 10) + [DigitChar(n % 10)];
      assert s[..|s| - 1] == NatText(n / 10);
    }
  }

  lemma {:induction false} PointIndexAt(whole: string, rest: string)
    requires AllDigits(whole)
    ensures PointIndex(whole + "." + rest) == |whole|
    decreases |whole|
  {
    if whole == "" {
      assert whole + "." + rest == "." + rest;
    } else {
      PointIndexAt(whole[1..], rest);
      assert (whole + "." + rest)[1..] == whole[1..] + "." + rest;
    }
  }

  lemma {:induction false} UnsignedRoundTrip(minor: nat)
    ensures var text := UnsignedText(minor);
            && IsDigit(text[0])
            && WellFormed(Cut(text))
            && Kopecks(Cut(text)) == minor
  {
    var whole, tail := NatText(minor / 100), [DigitChar(minor / 10 % 10), DigitChar(minor % 10)];
    var text := UnsignedText(minor);
    PointIndexAt(whole, tail);
    assert text[..|whole|] == whole && text[|whole| + 1..] == tail;
    assert Cut(text) == Decimal(whole, tail);
    NatTextRoundTrip(minor / 100);
    assert text[0] == whole[0];
    ThreeParts(minor);
  }

  lemma {:induction false} ThreeParts(n: nat)
    ensures 100 * (n / 100) + 10 * (n / 10 % 10) + n % 10 == n
  {
    var tens := n / 10;
    assert n == 10 * tens + n % 10 && tens == 10 * (tens / 10) + tens % 10;
    assert tens / 10 == n / 100;
  }

  lemma {:induction false} SignedReading(body: string, n: int)
    requires body != "" && IsDigit(body[0]) && WellFormed(Cut(body)) && Kopecks(Cut(body)) == n
    ensures AmountMinor(body) == Some(n) && AmountMinor("-" + body) == Some(-n)
  {
    assert ("-" + body)[1..] == body;
  }

  // Reading back a printed amount gives the same kopecks, for every integer amount.
  lemma {:induction false} AmountRoundTrip(minor: int)
    ensures AmountMinor(AmountText(minor)) == Some(minor)
  {
    var n := if minor < 0 then -minor else minor;
    UnsignedRoundTrip(n);
    SignedReading(UnsignedText(n), n);
  }

  lemma {:induction false} PowerOfManyIsHundreds(k: nat)
    requires 2 <= k
    ensures Pow10(k) % 100 == 0
  {
    if k == 2 {
      assert Pow10(1) == 10 * Pow10(0);
      assert Pow10(2) == 10 * Pow10(1);
    } else {
      PowerOfManyIsHundreds(k - 1);
    }
  }

  lemma {:induction false} NextMultiple(a: nat, p: nat)
    requires p % 100 == 0 && 100 * a < p
    ensures 100 * a + 100 <= p
  {}

  lemma {:induction false} ProductOfHundreds(m: nat, p: nat)
    requires p % 100 == 0
    ensures (m * p) % 100 == 0
  {
    assert p == 100 * (p / 100);
    assert m * p == 100 * (m * (p / 100));
  }

  predicate Truncated(kopecks: int, exact: int, p: int) {
    kopecks * p <= 100 * exact < (kopecks + 1) * p
  }

  // One more dropped digit keeps the kopecks below the exact value, by less than one.
  lemma {:induction false} DroppedDigit(m: nat, v: nat, p: nat, last: nat)
    requires p % 100 == 0 && last < 10 && Truncated(m, v, p)
    ensures Truncated(m, 10 * v + last, 10 * p)
  {
    ProductOfHundreds(m + 1, p);
    NextMultiple(v, (m + 1) * p);
    assert m * (10 * p) == 10 * (m * p);
    assert (m + 1) * (10 * p) == 10 * ((m + 1) * p);
  }

  // Parsing never rounds up: the kopecks read are the exact value times 100, rounded down.
  lemma {:induction false} KopecksTruncate(d: Decimal)
    requires WellFormed(d)
    ensures AllDigits(d.whole + d.fraction)
    ensures Truncated(Kopecks(d), NatValue(d.whole + d.fraction), Pow10(|d.fraction|))
    decreases |d.fraction|
  {
    var n := |d.fraction|;
    var all := d.whole + d.fraction;
    if n == 0 {
      assert all == d.whole;
    } else if n == 1 {
      assert all[..|all| - 1] == d.whole;
      assert Pow10(1) == 10 * Pow10(0);
    } else if n == 2 {
      TwoDigits(d);
    } else {
      var shorter := Decimal(d.whole, d.fraction[..n - 1]);
      assert all[..|all| - 1] == shorter.whole + shorter.fraction;
      assert shorter.whole + shorter.fraction != "";
      KopecksTruncate(shorter);
      PowerOfManyIsHundreds(n - 1);
      DroppedDigit(Kopecks(shorter), NatValue(shorter.whole + shorter.fraction), Pow10(n - 1),
          DigitValue(d.fraction[n - 1]));
    }
  }

  lemma {:induction false} TwoDigits(d: Decimal)
    requires WellFormed(d) && |d.fraction| == 2
    ensures AllDigits(d.whole + d.fraction)
    ensures NatValue(d.whole + d.fraction) == Kopecks(d) && Pow10(2) == 100
  {
    var all := d.whole + d.fraction;
    var one := all[..|all| - 1];
    assert one[..|one| - 1] == d.whole;
    assert Pow10(1) == 10 * Pow10(0);
    assert Pow10(2) == 10 * Pow10(1);
  }

  // ----- Checking a provider's answer ----------------------------------------------------

  datatype StoredPayment = StoredPayment(id: string, organization: string, amountMinor: int)

  // Absent metadata fields and an absent amount value are None.
  datatype ProviderData = ProviderData(paymentId: Option<string>, organizationId: Option<string>,
      amount: Option<string>)

  function AmountFromProvider(data: ProviderData): Option<int> {
    match data.amount
    case None => None
    case Some(text) => AmountMinor(text)
  }

  predicate VerifyProviderData(payment: StoredPayment, data: ProviderData) {
    && data.paymentId == Some(payment.id)
    && data.organizationId == Some(payment.organization)
    && AmountFromProvider(data) == Some(payment.amountMinor)
  }

  // What the provider returns when it repeats the checkout request's own fields.
  function Echo(payment: StoredPayment): ProviderData {
    ProviderData(Some(payment.id), Some(payment.organization), Some(AmountText(payment.amountMinor)))
  }

  // The provider's echo of a payment verifies against that payment, and against another
  // stored payment only when that one has the same identifier, organisation and amount.
  lemma {:induction false} EchoVerifies(payment: StoredPayment, other: StoredPayment)
    ensures VerifyProviderData(payment, Echo(payment))
    ensures VerifyProviderData(other, Echo(payment)) <==> other == payment
  {
    AmountRoundTrip(payment.amountMinor);
  }

  // ----- Prices --------------------------------------------------------------------------

  datatype ExtendAmount = ExtendAmount(base: int, discountPercent: int, discount: int, amount: int, monthly: int)

  function ComputeExtendAmount(price: int, months: int, discountPercent: int): ExtendAmount
    requires 0 < months
  {
    var base := price * months;
    var rawDiscount := base * discountPercent / 100;
    var discount := rawDiscount / 100 * 100;
    var amount := base - discount;
    ExtendAmount(base, discountPercent, discount, amount, amount / months)
  }

  lemma {:induction false} TwoFloors(x: int)
    ensures x / 100 / 100 == x / 10000
  {}

  lemma {:induction false} DiscountBounds(base: int, percent: int)
    requires 0 <= base && 0 <= percent <= 100
    ensures 0 <= base * percent <= 100 * base
  {
    ProductMonotone(base, percent, 100);
    ProductMonotone(base, 0, percent);
  }

  // Rounding down twice is rounding down once, to whole rubles; with a percentage between
  // 0 and 100 the customer pays between nothing and the base, the discount falls short of
  // the exact one by less than a ruble, and the monthly price is the rounded-down share.
  lemma {:induction false} ExtendAmountExact(price: int, months: int, percent: int)
    requires 0 < months
    ensures var r := ComputeExtendAmount(price, months, percent);
            && r.discount == price * months * percent / 10000 * 100
            && 100 * r.discount <= price * months * percent < 100 * r.discount + 10000
            && r.amount + r.discount == price * months
            && (0 <= price && 0 <= percent <= 100 ==> 0 <= r.amount <= r.base)
            && months * r.monthly <= r.amount < months * (r.monthly + 1)
  {
    var r := ComputeExtendAmount(price, months, percent);
    TwoFloors(r.base * percent);
    FloorDivision(r.amount, months);
    if 0 <= price && 0 <= percent <= 100 {
      assert 0 <= price * months;
      DiscountBounds(r.base, percent);
    }
  }

  lemma {:induction false} FloorDivision(a: int, b: int)
    requires 0 < b
    ensures b * (a / b) <= a < b * (a / b + 1)
  {}

  // A larger percentage never raises the amount.
  lemma {:induction false} DiscountMonotone(price: int, months: int, p: int, q: int)
    requires 0 < months && 0 <= price && p <= q
    ensures ComputeExtendAmount(price, months, q).amount <= ComputeExtendAmount(price, months, p).amount
  {
    var base := price * months;
    assert 0 <= base;
    ProductMonotone(base, p, q);
    TwoFloors(base * p);
    TwoFloors(base * q);
  }

  const UPGRADE_MONTH_SECONDS := 30 * 86400

  function UpgradeMonthsRemaining(periodEnd: int, now: int): int {
    var delta := periodEnd - now;
    if delta <= 0 then 1
    else
      var months := (delta + UPGRADE_MONTH_SECONDS - 1) / UPGRADE_MONTH_SECONDS;
      if months < 1 then 1 else months
  }

  function UpgradeAmount(standardPrice: int, premiumPrice: int, monthsRemaining: int): int {
    (premiumPrice - standardPrice) * monthsRemaining
  }

  // No months cost nothing, and each month more costs the difference of the two prices.
  lemma {:induction false} UpgradeAmountPerMonth(standard: int, premium: int, months: int)
    ensures UpgradeAmount(standard, premium, 0) == 0
    ensures UpgradeAmount(standard, premium, months + 1) - UpgradeAmount(standard, premium, months)
        == premium - standard
  {
    assert (premium - standard) * (months + 1) == (premium - standard) * months + (premium - standard);
  }

  // The number of months charged is the least positive number of 30-day months that covers
  // the rest of the period; one month for a period already over.
  lemma {:induction false} UpgradeMonthsLeastCover(periodEnd: int, now: int, months: int)
    requires 1 <= months
    ensures var m := UpgradeMonthsRemaining(periodEnd, now);
            && 1 <= m
            && periodEnd - now <= 2592000 * m
            && (periodEnd - now <= 2592000 * months ==> m <= months)
  {}

  lemma {:induction false} ProductMonotone(k: int, a: int, b: int)
    requires 0 <= k && a <= b
    ensures k * a <= k * b
  {}

  // Waiting never raises the upgrade price.
  lemma {:induction false} UpgradeAmountFallsWithTime(standard: int, premium: int, periodEnd: int, now: int, later: int)
    requires standard <= premium && now <= later
    ensures UpgradeAmount(standard, premium, UpgradeMonthsRemaining(periodEnd, later))
         <= UpgradeAmount(standard, premium, UpgradeMonthsRemaining(periodEnd, now))
  {
    var a, b := UpgradeMonthsRemaining(periodEnd, later), UpgradeMonthsRemaining(periodEnd, now);
    MonthsFallWithTime(periodEnd, now, later);
    ProductMonotone(premium - standard, a, b);
  }

  lemma {:induction false} MonthsFallWithTime(periodEnd: int, now: int, later: int)
    requires now <= later
    ensures UpgradeMonthsRemaining(periodEnd, later) <= UpgradeMonthsRemaining(periodEnd, now)
  {
    var b := UpgradeMonthsRemaining(periodEnd, now);
    UpgradeMonthsLeastCover(periodEnd, later, b);
    UpgradeMonthsLeastCover(periodEnd, now, b);
  }
}
