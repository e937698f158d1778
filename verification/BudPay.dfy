/**
 BudPay is sent an amount as a trimmed naira decimal and answers with an amount that is read
 back either as naira or as kobo, whichever meets the amount stored at checkout.
 */
module BudPay {
  import opened Outcomes
  import opened Payments
  import opened Text

  datatype Reason =
    | AmountBelowMinimum
    | PaymentNotSuccessful
    | InvalidAmount
    | AmountMismatch
    | EmailMismatch

  // ----- printing -----

  /** `toFixed(2)` of the kobo amount divided by 100. */
  function Fixed2(k: nat): string {
    Digits(k / 100) + "." + [DigitChar(k / 10 % 10), DigitChar(k % 10)]
  }

  /** The replacement of `/\.00$/` by nothing. */
  function DropZeroKobo(s: string): string {
    if |s| >= 3 && s[|s| - 3..] == ".00" then s[..|s| - 3] else s
  }

  /** The replacement of `/(\.\d)0$/` by its first group. */
  function DropLastZero(s: string): string {
    if |s| >= 3 && s[|s| - 3] == '.' && IsDigit(s[|s| - 2]) && s[|s| - 1] == '0' then s[..|s| - 1] else s
  }

  function FormatKoboAsNaira(k: nat): string {
    DropLastZero(DropZeroKobo(Fixed2(k)))
  }

  /** What the two replacements leave of a numeral with two decimals. */
  function Trimmed(whole: string, a: char, b: char): string {
    if b != '0' then whole + ['.', a, b]
    else if a != '0' then whole + ['.', a]
    else whole
  }

  lemma ReplacementsTrim(whole: string, a: char, b: char)
    requires AllDigits(whole) && IsDigit(a) && IsDigit(b)
    ensures DropLastZero(DropZeroKobo(whole + "." + [a, b])) == Trimmed(whole, a, b)
  {
    var n := |whole|;
    var s := whole + "." + [a, b];
    assert s[..n] == whole && s[n..] == ['.', a, b];
    if a == '0' && b == '0' {
      assert DropZeroKobo(s) == whole;
    } else {
      assert s[n + 1] == a && s[n + 2] == b;
      assert s[n..][1] == a && s[n..][2] == b;
      assert DropZeroKobo(s) == s;
      assert s[..n + 2] == whole + ['.', a];
      assert s == whole + ['.', a, b];
    }
  }

  lemma NatOfPair(a: char, b: char)
    requires IsDigit(a) && IsDigit(b)
    ensures NatOf([a]) == DigitValue(a)
    ensures NatOf([a, b]) == 10 * DigitValue(a) + DigitValue(b)
  {
    assert [a][..0] == "" && [a, b][..1] == [a];
  }

  /** A numeral without a point is read as the number its digits denote. */
  lemma ReadWhole(s: string, n: nat)
    requires s != "" && AllDigits(s) && NatOf(s) == n
    ensures ParseDecimal(s) == Some(n as real)
  {
    DotAtIsFirst(s, |s|);
    assert s[..|s|] == s;
    assert n as real + 0 as real / 1 as real == n as real;
  }

  lemma Hundredths(n: nat, a: nat, b: nat)
    ensures Decimal(n, 10 * a + b, 100) == (100 * n + 10 * a + b) as real / 100.0
    ensures Decimal(n, a, 10) == (100 * n + 10 * a) as real / 100.0
    ensures n as real == (100 * n) as real / 100.0
  {
  }

  lemma Fractions(a: char, b: char)
    requires IsDigit(a) && IsDigit(b)
    ensures AllDigits([a]) && NatOf([a]) == DigitValue(a) && Pow10(1) == 10
    ensures AllDigits([a, b]) && NatOf([a, b]) == 10 * DigitValue(a) + DigitValue(b) && Pow10(2) == 100
  {
    NatOfPair(a, b);
    assert Pow10(1) == 10 * Pow10(0) == 10 && Pow10(2) == 10 * Pow10(1) == 100;
  }

  /** One or two digits after the point count tenths and hundredths. */
  lemma ReadFraction(whole: string, n: nat, a: char, b: char)
    requires whole != "" && AllDigits(whole) && NatOf(whole) == n
    requires IsDigit(a) && IsDigit(b)
    ensures ParseDecimal(whole + ['.', a]) == Some((100 * n + 10 * DigitValue(a)) as real / 100.0)
    ensures ParseDecimal(whole + ['.', a, b]) == Some((100 * n + 10 * DigitValue(a) + DigitValue(b)) as real / 100.0)
  {
    hide *;
    Fractions(a, b);
    Hundredths(n, DigitValue(a), DigitValue(b));
    assert whole + ['.', a] == whole + ['.'] + [a] && whole + ['.', a, b] == whole + ['.'] + [a, b];
    ReadDecimal(whole, [a]);
    ReadDecimal(whole, [a, b]);
  }

  lemma TrimmedReadsBack(whole: string, n: nat, a: char, b: char)
    requires whole != "" && AllDigits(whole) && NatOf(whole) == n
    requires IsDigit(a) && IsDigit(b)
    ensures ParseDecimal(Trimmed(whole, a, b))
         == Some((100 * n + 10 * DigitValue(a) + DigitValue(b)) as real / 100.0)
  {
    hide ParseDecimal;
    hide NatOf;
    if b != '0' {
      assert Trimmed(whole, a, b) == whole + ['.', a, b];
      ReadFraction(whole, n, a, b);
    } else if a != '0' {
      assert Trimmed(whole, a, b) == whole + ['.', a];
      ReadFraction(whole, n, a, b);
      assert DigitValue(b) == 0;
    } else {
      assert Trimmed(whole, a, b) == whole;
      ReadWhole(whole, n);
      assert DigitValue(a) == DigitValue(b) == 0;
      Hundredths(n, 0, 0);
    }
  }

  /** A printed amount denotes exactly the kobo it was printed from. */
  lemma FormatReadsBack(k: nat)
    ensures ParseDecimal(FormatKoboAsNaira(k)) == Some(k as real / 100.0)
  {
    var whole, a, b := Digits(k / 100), DigitChar(k / 10 % 10), DigitChar(k % 10);
    assert k == 100 * (k / 100) + 10 * (k / 10 % 10) + k % 10;
    ReplacementsTrim(whole, a, b);
    TrimmedReadsBack(whole, k / 100, a, b);
  }

  /** Different amounts print differently, and no printed fraction ends in a zero. */
  lemma FormatIsCanonical(j: nat, k: nat)
    ensures FormatKoboAsNaira(j) == FormatKoboAsNaira(k) <==> j == k
    ensures var s := FormatKoboAsNaira(k); '.' in s ==> s[|s| - 1] != '0'
  {
    FormatReadsBack(j);
    FormatReadsBack(k);
    ReplacementsTrim(Digits(k / 100), DigitChar(k / 10 % 10), DigitChar(k % 10));
  }

  /** What is posted to the provider, `initializeTransaction`. */
  function InitializeTransaction(amountKobo: int): Result<string, Reason> {
    if amountKobo < 100 then Err(AmountBelowMinimum) else Ok(FormatKoboAsNaira(amountKobo))
  }

  // ----- reading back -----

  /**
   The provider's answer. Amounts are text, read as decimals; the texts are "" for a missing email
   or reference.
   */
  datatype ProviderData = ProviderData(
    success: bool,
    requestedAmount: Option<string>,
    amount: Option<string>,
    email: string,
    reference: string)

  /** The row stored when the payment was initialised. */
  datatype StoredCheckout = StoredCheckout(amountKobo: int, email: string)

  function ProviderAmount(data: ProviderData): Option<real> {
    var text := if data.requestedAmount.Some? then data.requestedAmount else data.amount;
    match text
    case Some(s) => ParseDecimal(s)
    case None => None
  }

  function NormalizeAmount(amount: Option<real>, expected: Option<int>): Result<int, Reason> {
    match amount
    case None => Err(InvalidAmount)
    case Some(a) =>
      var asKobo := Round(a * 100.0);
      var asLegacyKobo := Round(a);
      if expected.Some? && asKobo == expected.value then Ok(asKobo)
      else if expected.Some? && asLegacyKobo == expected.value then Ok(asLegacyKobo)
      else Ok(asKobo)
  }

  datatype Match = Match(verifiedAmount: int, customerEmail: string)

  function AssertCheckoutMatches(stored: Option<StoredCheckout>, data: ProviderData): Result<Match, Reason> {
    var expected := if stored.Some? then Some(stored.value.amountKobo) else None;
    var verifiedAmount :- NormalizeAmount(ProviderAmount(data), expected);
    var customerEmail := Lower(Trim(data.email));
    if stored.Some? && verifiedAmount != stored.value.amountKobo then Err(AmountMismatch)
    else if stored.Some? && stored.value.email != "" && customerEmail != ""
            && customerEmail != Lower(Trim(stored.value.email)) then Err(EmailMismatch)
    else Ok(Match(verifiedAmount,
                  if customerEmail != "" then customerEmail
                  else if stored.Some? then Lower(Trim(stored.value.email)) else ""))
  }

  function VerifyPayment(stored: Option<StoredCheckout>, data: ProviderData): Result<PaymentData, Reason> {
    if !data.success then Err(PaymentNotSuccessful)
    else
      var m :- AssertCheckoutMatches(stored, data);
      Ok(PaymentData(true, data.reference, Some(m.customerEmail), m.verifiedAmount))
  }

  /** The answer comes from the stored customer, up to case and blanks, or one of the two is unnamed. */
  predicate SameCustomer(stored: StoredCheckout, data: ProviderData) {
    stored.email == "" || Trim(data.email) == "" || Lower(Trim(data.email)) == Lower(Trim(stored.email))
  }

  /** The text is a number that comes to `kobo`, read as naira or as kobo. */
  predicate Meets(text: string, kobo: int) {
    ParseDecimal(text).Some? &&
    var amount := ParseDecimal(text).value;
    kobo as real - 0.5 <= amount * 100.0 < kobo as real + 0.5 || kobo as real - 0.5 <= amount < kobo as real + 0.5
  }

  /** The requested amount, or without one the amount, is a number. */
  predicate Numbered(data: ProviderData) {
    match data.requestedAmount
    case Some(text) => ParseDecimal(text).Some?
    case None => data.amount.Some? && ParseDecimal(data.amount.value).Some?
  }

  /** And meets `kobo`. */
  predicate MeetsBy(data: ProviderData, kobo: int) {
    match data.requestedAmount
    case Some(text) => Meets(text, kobo)
    case None => data.amount.Some? && Meets(data.amount.value, kobo)
  }

  lemma RoundBounds(x: real, n: int)
    ensures Round(x) == n <==> n as real - 0.5 <= x < n as real + 0.5
  {
  }

  /**
   Exactly which answers are accepted for a stored checkout: those whose requested amount, or else
   whose amount, meets the stored one, from the stored customer. The amount reported on is then always
   the stored one, and the address the customer's, or the stored one when the answer has none.
   */
  lemma AcceptedAnswers(stored: StoredCheckout, data: ProviderData)
    ensures VerifyPayment(Some(stored), data).Ok? <==>
              data.success && MeetsBy(data, stored.amountKobo) && SameCustomer(stored, data)
    ensures VerifyPayment(Some(stored), data).Ok? ==>
              VerifyPayment(Some(stored), data).value
              == PaymentData(true, data.reference,
                             Some(Lower(Trim(if Trim(data.email) != "" then data.email else stored.email))),
                             stored.amountKobo)
  {
    assert Lower(Trim(data.email)) == "" <==> Trim(data.email) == "";
    if ProviderAmount(data).Some? {
      RoundBounds(ProviderAmount(data).value * 100.0, stored.amountKobo);
      RoundBounds(ProviderAmount(data).value, stored.amountKobo);
    }
    hide ParseDecimal;
  }

  /** And for which reason each of the others is rejected. */
  lemma RejectedAnswers(stored: StoredCheckout, data: ProviderData)
    ensures var answer := VerifyPayment(Some(stored), data);
            && (answer == Err(PaymentNotSuccessful) <==> !data.success)
            && (answer == Err(InvalidAmount) <==> data.success && !Numbered(data))
            && (answer == Err(AmountMismatch) <==>
                  data.success && Numbered(data) && !MeetsBy(data, stored.amountKobo))
            && (answer == Err(EmailMismatch) <==>
                  data.success && MeetsBy(data, stored.amountKobo) && !SameCustomer(stored, data))
  {
    AcceptedAnswers(stored, data);
    if Numbered(data) { AnswerAmount(stored, data); }
    assert ProviderAmount(data).Some? <==> Numbered(data);
    assert MeetsBy(data, stored.amountKobo) ==> Numbered(data);
    hide ParseDecimal;
    hide MeetsBy;
    hide Numbered;
    hide SameCustomer;
    hide NormalizeAmount;
  }

  lemma AnswerAmount(stored: StoredCheckout, data: ProviderData)
    requires Numbered(data)
    ensures NormalizeAmount(ProviderAmount(data), Some(stored.amountKobo)).Ok?
    ensures NormalizeAmount(ProviderAmount(data), Some(stored.amountKobo)).value == stored.amountKobo
            <==> MeetsBy(data, stored.amountKobo)
  {
    RoundBounds(ProviderAmount(data).value * 100.0, stored.amountKobo);
    RoundBounds(ProviderAmount(data).value, stored.amountKobo);
    hide ParseDecimal;
  }

  /** Beside a requested amount the amount itself, which may hold fees, makes no difference, stored checkout or not. */
  lemma RequestedAmountDecides(stored: Option<StoredCheckout>, data: ProviderData, amount: Option<string>)
    requires data.requestedAmount.Some?
    ensures VerifyPayment(stored, data.(amount := amount)) == VerifyPayment(stored, data)
  {
    hide ParseDecimal;
  }

  /** Without a stored checkout every number is accepted, read as naira and rounded to kobo. */
  lemma AcceptedUnstored(data: ProviderData)
    ensures VerifyPayment(None, data).Ok? <==> data.success && Numbered(data)
    ensures VerifyPayment(None, data).Ok? ==>
              var record := VerifyPayment(None, data).value;
              var text := if data.requestedAmount.Some? then data.requestedAmount.value else data.amount.value;
              && record == PaymentData(true, data.reference, Some(Lower(Trim(data.email))), record.amountKobo)
              && record.amountKobo as real - 0.5 <= ParseDecimal(text).value * 100.0 < record.amountKobo as real + 0.5
  {
    hide ParseDecimal;
    assert Lower(Trim(data.email)) == "" <==> Trim(data.email) == "";
  }

  /** The answer's requested amount, or else its amount, is the number printed in `text`. */
  predicate Repeats(data: ProviderData, text: string) {
    match data.requestedAmount
    case Some(requested) => ParseDecimal(requested) == ParseDecimal(text)
    case None => data.amount.Some? && ParseDecimal(data.amount.value) == ParseDecimal(text)
  }

  /**
   A provider that echoes the printed form of `paid` kobo is accepted for a checkout of `due` kobo
   exactly when it names the stored customer and the two are equal, or `paid` rounds to `due` naira.
   */
  lemma EchoedAmount(stored: StoredCheckout, data: ProviderData, paid: nat)
    requires data.success && Repeats(data, FormatKoboAsNaira(paid))
    ensures VerifyPayment(Some(stored), data).Ok? <==>
            && SameCustomer(stored, data)
            && (|| paid == stored.amountKobo
                || 100 * stored.amountKobo - 50 <= paid < 100 * stored.amountKobo + 50)
  {
    FormatReadsBack(paid);
    AcceptedAnswers(stored, data);
    hide VerifyPayment;
    hide FormatKoboAsNaira;
    hide ParseDecimal;
    var a := paid as real / 100.0;
    assert a * 100.0 == paid as real;
  }

  /** An echoed amount short of a positive charge is never accepted, whoever it comes from. */
  lemma EchoedUnderpaymentRejected(stored: StoredCheckout, data: ProviderData, paid: nat)
    requires Repeats(data, FormatKoboAsNaira(paid))
    requires paid < stored.amountKobo
    ensures VerifyPayment(Some(stored), data).Err?
  {
    if data.success {
      EchoedAmount(stored, data, paid);
    }
  }

  /** The round trip: a charge that was initialised and echoed back verifies as that charge. */
  lemma InitializedChargeVerifies(k: int, email: string, data: ProviderData)
    requires InitializeTransaction(k).Ok?
    requires data.success && Repeats(data, InitializeTransaction(k).value)
    ensures SameCustomer(StoredCheckout(k, email), data) <==> VerifyPayment(Some(StoredCheckout(k, email)), data).Ok?
    ensures SameCustomer(StoredCheckout(k, email), data) ==>
              VerifyPayment(Some(StoredCheckout(k, email)), data)
              == Ok(PaymentData(true, data.reference,
                                Some(Lower(Trim(if Trim(data.email) != "" then data.email else email))), k))
  {
    EchoedAmount(StoredCheckout(k, email), data, k);
    AcceptedAnswers(StoredCheckout(k, email), data);
    hide VerifyPayment;
    hide ParseDecimal;
  }

  lemma Read1250()
    ensures ParseDecimal("1250") == Some(1250.0)
  {
    var s := "1250";
    assert s[..3] == "125" && s[..3][..2] == "12" && s[..3][..2][..1] == "1" && s[..3][..2][..1][..0] == "";
    assert NatOf("1") == 1;
    assert NatOf("12") == 12;
    assert NatOf("125") == 125;
    ReadWhole(s, 1250);
  }

  /** 1250 naira requested and 1252.5 charged, fees included: accepted for a checkout of 1250 naira. */
  lemma FeesOnTop(email: string, reference: string)
    ensures VerifyPayment(Some(StoredCheckout(125000, email)),
                          ProviderData(true, Some("1250"), Some("1252.5"), email, reference))
         == Ok(PaymentData(true, reference, Some(Lower(Trim(email))), 125000))
  {
    Read1250();
    var data := ProviderData(true, Some("1250"), Some("1252.5"), email, reference);
    assert Meets("1250", 125000) by { hide ParseDecimal; }
    AcceptedAnswers(StoredCheckout(125000, email), data);
    hide *;
  }
}
