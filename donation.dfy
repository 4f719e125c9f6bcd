/**
 * The Donation sub-document of a partner: a date defaulting to the creation
 * time, a required amount stored as an integer number of cents, and the
 * `formatAmount` accessor that writes the amount back as a decimal string.
 */
module Donation {
  import opened Wrappers
  import opened Text
  import opened Schema

  /** `amount` is the already-parsed Currency value: an integer count of cents. */
  datatype Donation = Donation(id: string, date: int, amount: Option<int>)

  const AmountMissing := "No donation amount supplied"

  /** `new Donation({date, amount})` at clock time `now` (milliseconds): an absent date takes the default. */
  function NewDonation(id: string, now: int, date: Option<int>, amount: Option<int>): (d: Donation)
    ensures date.None? ==> d.date == now
    ensures date.Some? ==> d.date == date.value
    ensures d.amount == amount && d.id == id
  {
    Donation(id, date.GetOr(now), amount)
  }

  /** Validation: the only rule is that `amount` is required. */
  function DonationErrors(d: Donation): (e: Errors)
    ensures e == map[] <==> d.amount.Some?
    ensures d.amount.None? ==> e == map[Field("amount") := AmountMissing]
  {
    FieldError(Field("amount"), if d.amount.None? then Some(AmountMissing) else None)
  }

  /* ---------- formatAmount ---------- */

  /** Two decimal digits, with a leading zero below ten. */
  function TwoDigits(n: nat): (r: string)
    requires n < 100
    ensures |r| == 2 && AllDigits(r)
  {
    [DigitChar(n / 10), DigitChar(n % 10)]
  }

  /**
   * `(cents / 100).toFixed(2)`, computed exactly on integers: a minus sign
   * for a negative amount, the whole units, a point and two digits.
   */
  function FormatCents(cents: int): (r: string)
    ensures |r| >= 4 && r[|r| - 3] == '.' && AllDigits(r[|r| - 2..])
    ensures r[0] == '-' <==> cents < 0
  {
    if cents < 0 then "-" + FormatUnsigned(-cents) else FormatUnsigned(cents)
  }

  function FormatUnsigned(m: nat): string {
    Digits(m / 100) + "." + TwoDigits(m % 100)
  }

  /** `formatAmount()` of a donation; a missing amount divides `undefined`, giving "NaN". */
  function FormatAmount(d: Donation): (r: string)
    ensures d.amount.Some? ==> r == FormatCents(d.amount.value)
    ensures d.amount.None? ==> r == "NaN"
  {
    match d.amount
    case None => "NaN"
    case Some(c) => FormatCents(c)
  }

  /**
   * Reference reading of a fixed-point amount string: an optional minus
   * sign, one or more digits, a point and exactly two digits, as cents.
   * Anything else is not an amount.
   */
  function ParseCents(s: string): Option<int> {
    if |s| > 0 && s[0] == '-' then
      match ParseUnsigned(s[1..])
      case None => None
      case Some(v) => Some(-(v as int))
    else ParseUnsigned(s)
  }

  function ParseUnsigned(s: string): Option<nat> {
    if |s| >= 4 && s[|s| - 3] == '.' && AllDigits(s[..|s| - 3]) && AllDigits(s[|s| - 2..]) then
      Some(100 * DigitsValue(s[..|s| - 3]) + DigitsValue(s[|s| - 2..]))
    else None
  }

  lemma TwoDigitsRoundTrip(n: nat)
    requires n < 100
    ensures DigitsValue(TwoDigits(n)) == n
  {
    var r := TwoDigits(n);
    assert r[..1][..0] == [];
    assert r[..1] == [DigitChar(n / 10)];
    assert r[1] == DigitChar(n % 10);
    DigitRoundTrip(n / 10);
    DigitRoundTrip(n % 10);
    assert DigitsValue(r[..1]) == n / 10;
  }

  /** Reading back a formatted non-negative amount gives the same cents. */
  lemma UnsignedParses(m: nat)
    ensures ParseUnsigned(FormatUnsigned(m)) == Some(m)
  {
    var u := FormatUnsigned(m);
    assert u[..|u| - 3] == Digits(m / 100);
    assert u[|u| - 2..] == TwoDigits(m % 100);
    DigitsRoundTrip(m / 100);
    TwoDigitsRoundTrip(m % 100);
  }

  lemma UnsignedRoundTrip(m: nat)
    ensures var u := FormatUnsigned(m);
            |u| >= 4 && u[|u| - 3] == '.' && AllDigits(u[|u| - 2..]) && u[0] != '-'
    ensures ParseUnsigned(FormatUnsigned(m)) == Some(m)
  {
    var u := FormatUnsigned(m);
    assert u[|u| - 2..] == TwoDigits(m % 100);
    UnsignedParses(m);
  }

  /** A minus sign in front of an unsigned amount negates it. */
  lemma ParseNegative(u: string, v: nat, cents: int)
    requires ParseUnsigned(u) == Some(v) && cents == -(v as int)
    ensures ParseCents("-" + u) == Some(cents)
  {
    assert ("-" + u)[1..] == u;
  }

  /** A negative amount is written as a minus sign and its magnitude. */
  lemma FormatNegative(cents: int)
    requires cents < 0
    ensures FormatCents(cents) == "-" + FormatUnsigned(-cents)
  {
  }

  lemma NegatedParses(m: nat, u: string, cents: int)
    requires u == FormatUnsigned(m) && cents == -(m as int)
    ensures ParseCents("-" + u) == Some(cents)
  {
    UnsignedParses(m);
    ParseNegative(u, m, cents);
  }

  /** Reading back a formatted negative amount gives the same cents. */
  lemma NegativeRoundTrip(cents: int)
    requires cents < 0
    ensures ParseCents(FormatCents(cents)) == Some(cents)
  {
    FormatNegative(cents);
    NegatedParses(-cents, FormatUnsigned(-cents), cents);
  }

  /**
   * The formatted amount always has exactly two fraction digits after a
   * point, and reading it back gives the stored number of cents: the
   * formatter loses nothing.
   */
  lemma FormatCentsRoundTrip(cents: int)
    ensures var r := FormatCents(cents);
            |r| >= 4 && r[|r| - 3] == '.' && AllDigits(r[|r| - 2..])
    ensures ParseCents(FormatCents(cents)) == Some(cents)
  {
    if cents < 0 {
      var u := FormatUnsigned(-cents);
      UnsignedRoundTrip(-cents);
      var r := "-" + u;
      assert r[|r| - 2..] == u[|u| - 2..];
      NegativeRoundTrip(cents);
    } else {
      UnsignedRoundTrip(cents);
    }
  }

  /** Formatting distinguishes amounts: two different cent counts never print the same. */
  lemma FormatCentsInjective(a: int, b: int)
    requires FormatCents(a) == FormatCents(b)
    ensures a == b
  {
    FormatCentsRoundTrip(a);
    FormatCentsRoundTrip(b);
  }

  /** A donation of 30000 cents is shown as "300.00", and "300.00" reads as 30000 cents. */
  lemma ThreeHundredDollars()
    ensures FormatCents(30000) == "300.00"
    ensures ParseCents("300.00") == Some(30000)
  {
    assert Digits(3) == "3";
    assert Digits(30) == "30";
    assert Digits(300) == "300";
    assert TwoDigits(0) == "00";
    FormatCentsRoundTrip(30000);
  }
}
