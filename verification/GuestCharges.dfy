/**
 From charge to order: the amount a guest is charged through BudPay, its journey through the
 provider, and the payment gate of the order that follows.
 */
module GuestCharges {
  import opened Outcomes
  import opened Payments
  import opened Text
  import opened GuestOrders
  import opened GuestStock
  import opened GuestMoney
  import opened GuestDemand
  import BudPay

  datatype ChargeError =
    | InvalidToken
    | InvalidCart(cart: Reason)
    | InvalidCharge(charge: BudPay.Reason)

  /** What was charged, the text the provider was sent, and the checkout row kept. */
  datatype Charge = Charge(amountKobo: int, printed: string, stored: BudPay.StoredCheckout)

  /**
   The discount as one number. A non-empty per-store list is not one, and then nothing can be
   charged; an empty list counts as zero.
   */
  function ScalarDiscount(d: Discount): Option<int> {
    match d
    case Scalar(amount) => Some(amount)
    case PerStore(entries) => if entries == [] then Some(0) else None
  }

  /** `initializeGuestPayment`. */
  function InitializeGuestPayment(
      db: Db, cart: seq<CartItem>, email: string, token: Option<Token>): Result<Charge, ChargeError>
  {
    if token.None? || token.value.isGuest != Some(true) then Err(InvalidToken)
    else
      match CartSubtotal(db, cart)
      case Err(e) => Err(InvalidCart(e))
      case Ok(subtotal) =>
        match ScalarDiscount(token.value.discount)
        case None => Err(InvalidCharge(BudPay.AmountBelowMinimum))
        case Some(discount) =>
          var total := subtotal + token.value.amount + token.value.tax - discount;
          var amount := if total < 0 then 0 else total;
          match BudPay.InitializeTransaction(amount)
          case Err(e) => Err(InvalidCharge(e))
          case Ok(printed) => Ok(Charge(amount, printed, BudPay.StoredCheckout(amount, Trim(Lower(email)))))
  }

  /** Which carts and tokens are charged, and how much: what the order gate will expect. */
  lemma ChargedExactly(db: Db, cart: seq<CartItem>, email: string, token: Option<Token>)
    ensures InitializeGuestPayment(db, cart, email, token).Ok? <==>
              && token.Some? && token.value.isGuest == Some(true)
              && cart != [] && (forall item :: item in cart ==> Priced(db, item))
              && (token.value.discount.PerStore? ==> token.value.discount.entries == [])
              && Owed(db, cart, token.value) >= 100
    ensures InitializeGuestPayment(db, cart, email, token) == Err(InvalidToken) <==>
              token.None? || token.value.isGuest != Some(true)
    ensures InitializeGuestPayment(db, cart, email, token).Ok? ==>
              && InitializeGuestPayment(db, cart, email, token).value.amountKobo == Owed(db, cart, token.value)
              && ExpectedKobo(db, cart, token.value) == Ok(Owed(db, cart, token.value))
  {
    CartPrice(db, cart);
    if token.Some? { ExpectedIsOwed(db, cart, token.value); }
    hide CartSubtotal;
    hide Priced;
    hide Owed;
    hide BudPay.FormatKoboAsNaira;
  }

  // ----- text -----

  lemma LowerTwice(s: string)
    ensures Lower(Lower(s)) == Lower(s)
  {
  }

  lemma {:induction false} TrimTwice(s: string)
    ensures Trim(Trim(s)) == Trim(s)
  {
    if s != "" {
      if Blank(s[0]) { TrimTwice(s[1..]); } else if Blank(s[|s| - 1]) { TrimTwice(s[..|s| - 1]); }
    }
  }

  lemma {:induction false} TrimLower(s: string)
    ensures Trim(Lower(s)) == Lower(Trim(s))
  {
    if s != "" {
      var n := |s| - 1;
      assert Lower(s)[1..] == Lower(s[1..]) && Lower(s)[..n] == Lower(s[..n]);
      assert Blank(Lower(s)[0]) <==> Blank(s[0]);
      assert Blank(Lower(s)[n]) <==> Blank(s[n]);
      if Blank(s[0]) { TrimLower(s[1..]); } else if Blank(s[n]) { TrimLower(s[..n]); }
    }
  }

  /** The checkout row's address reads as the guest's own, lower-cased and trimmed. */
  lemma StoredAddress(email: string)
    ensures Lower(Trim(Trim(Lower(email)))) == Lower(Trim(email))
    ensures Trim(Lower(email)) == "" <==> Trim(email) == ""
  {
    TrimTwice(Lower(email));
    TrimLower(email);
    LowerTwice(Trim(email));
  }

  // ----- the echo -----

  /**
   The provider reports success on the charge: the printed amount, no other reference, and the
   guest's address up to case and blanks, or none.
   */
  predicate Echoes(data: BudPay.ProviderData, charge: Charge, reference: string, email: string) {
    && data.success
    && BudPay.Repeats(data, charge.printed)
    && (data.reference == "" || data.reference == reference)
    && (Trim(data.email) == "" || Lower(Trim(data.email)) == Lower(Trim(email)))
  }

  lemma EchoVerifies(
      db: Db, cart: seq<CartItem>, email: string, token: Option<Token>, reference: string, data: BudPay.ProviderData)
    requires InitializeGuestPayment(db, cart, email, token).Ok?
    requires Echoes(data, InitializeGuestPayment(db, cart, email, token).value, reference, email)
    ensures var charge := InitializeGuestPayment(db, cart, email, token).value;
            BudPay.VerifyPayment(Some(charge.stored), data)
            == Ok(PaymentData(true, data.reference, Some(Lower(Trim(email))), charge.amountKobo))
  {
    var charge := InitializeGuestPayment(db, cart, email, token).value;
    ChargeRow(db, cart, email, token);
    hide InitializeGuestPayment;
    EchoedCharge(charge, email, reference, data);
  }

  lemma ChargeRow(db: Db, cart: seq<CartItem>, email: string, token: Option<Token>)
    requires InitializeGuestPayment(db, cart, email, token).Ok?
    ensures var charge := InitializeGuestPayment(db, cart, email, token).value;
            && charge.amountKobo >= 100
            && charge.printed == BudPay.FormatKoboAsNaira(charge.amountKobo)
            && charge.stored == BudPay.StoredCheckout(charge.amountKobo, Trim(Lower(email)))
  {
    hide CartSubtotal;
    hide BudPay.FormatKoboAsNaira;
    hide Trim;
    hide Lower;
  }

  lemma EchoedCharge(charge: Charge, email: string, reference: string, data: BudPay.ProviderData)
    requires charge.amountKobo >= 100
    requires charge.printed == BudPay.FormatKoboAsNaira(charge.amountKobo)
    requires charge.stored == BudPay.StoredCheckout(charge.amountKobo, Trim(Lower(email)))
    requires Echoes(data, charge, reference, email)
    ensures BudPay.VerifyPayment(Some(charge.stored), data)
         == Ok(PaymentData(true, data.reference, Some(Lower(Trim(email))), charge.amountKobo))
  {
    StoredAddress(email);
    BudPay.FormatReadsBack(charge.amountKobo);
    hide BudPay.FormatKoboAsNaira;
    hide ParseDecimal;
    hide Trim;
    assert Lower(Trim(data.email)) == "" <==> Trim(data.email) == "";
    hide Lower;
    var a := charge.amountKobo as real / 100.0;
    assert a * 100.0 == charge.amountKobo as real;
    RoundOfWhole(charge.amountKobo);
    BudPay.AcceptedAnswers(charge.stored, data);
    hide BudPay.VerifyPayment;
    hide BudPay.ProviderAmount;
  }

  /** The record of a verified echo passes the order gate exactly when the guest's address has no blanks at its ends. */
  lemma EchoMeetsGate(record: PaymentData, reference: string, expected: int, email: string)
    requires record.success && record.amountKobo == expected && record.email == Some(Lower(Trim(email)))
    requires record.reference == "" || record.reference == reference
    ensures PaymentGate(Some(record), reference, expected, email)
         == if Trim(email) == email then Ok(()) else Err(EmailMismatch)
  {
    LowerTwice(Trim(email));
    TrimmedLowerMatches(email);
  }

  // ----- the order -----

  lemma EchoPassesTheGate(record: PaymentData, data: BudPay.ProviderData, charge: Charge, req: Request)
    requires Echoes(data, charge, req.reference, req.email)
    requires record == PaymentData(true, data.reference, Some(Lower(Trim(req.email))), charge.amountKobo)
    ensures PaymentGate(Some(record), req.reference, charge.amountKobo, req.email)
         == if Trim(req.email) == req.email then Ok(()) else Err(EmailMismatch)
  {
    EchoMeetsGate(record, req.reference, charge.amountKobo, req.email);
  }

  lemma RefusedAtTheGate(db: Db, req: Request)
    requires OrdersOf(db.orders, req.reference) == []
    requires BasicCheck(req).Ok? && ExpectedKobo(db, req.cart, BasicCheck(req).value).Ok?
    requires PaymentGate(req.payment, req.reference, ExpectedKobo(db, req.cart, BasicCheck(req).value).value, req.email)
          == Err(EmailMismatch)
    ensures Create(db, req) == Outcome(db, Err(EmailMismatch))
  {
    hide BasicCheck;
    hide ExpectedKobo;
    hide PaymentGate;
    hide OrdersOf;
    hide GroupLines;
    hide PlaceGroups;
  }

  /** The form of the call is complete and its token good. */
  predicate InOrder(req: Request) {
    req.email != "" && req.formComplete && req.reference != "" && req.token.Some? && TokenGood(req.token.value, req)
  }

  /** The record is the verified echo of the guest's charge at `before`. */
  ghost predicate PaidByEcho(before: Db, req: Request, data: BudPay.ProviderData) {
    && InitializeGuestPayment(before, req.cart, req.email, req.token).Ok?
    && var charge := InitializeGuestPayment(before, req.cart, req.email, req.token).value;
       && Echoes(data, charge, req.reference, req.email)
       && BudPay.VerifyPayment(Some(charge.stored), data).Ok?
       && req.payment == Some(BudPay.VerifyPayment(Some(charge.stored), data).value)
  }

  /** Its order passes every check before the stock, but for an address that is not trimmed. */
  lemma EchoIsExpected(before: Db, later: Db, req: Request, data: BudPay.ProviderData)
    requires SameCatalog(before, later) && InOrder(req) && PaidByEcho(before, req, data)
    ensures BasicCheck(req) == Ok(req.token.value) && ExpectedKobo(later, req.cart, req.token.value).Ok?
    ensures PaymentGate(req.payment, req.reference, ExpectedKobo(later, req.cart, req.token.value).value, req.email)
         == if Trim(req.email) == req.email then Ok(()) else Err(EmailMismatch)
  {
    var charge := InitializeGuestPayment(before, req.cart, req.email, req.token).value;
    assert BasicCheck(req) == Ok(req.token.value) by {
      ChargedExactly(before, req.cart, req.email, req.token);
    }
    ExpectedAtLater(before, later, req);
    EchoVerifies(before, req.cart, req.email, req.token, req.reference, data);
    hide *;
    EchoPassesTheGate(req.payment.value, data, charge, req);
  }

  lemma ExpectedAtLater(before: Db, later: Db, req: Request)
    requires SameCatalog(before, later) && InitializeGuestPayment(before, req.cart, req.email, req.token).Ok?
    ensures req.token.Some?
    ensures ExpectedKobo(later, req.cart, req.token.value)
         == Ok(InitializeGuestPayment(before, req.cart, req.email, req.token).value.amountKobo)
  {
    ChargedExactly(before, req.cart, req.email, req.token);
    CostStable(before, later, req.cart);
    ExpectedIsOwed(later, req.cart, req.token.value);
    hide InitializeGuestPayment;
    hide ExpectedKobo;
    hide Priced;
  }

  /**
   End to end. A guest is charged at `before`; the provider echoes the charge; the same cart, token
   and address come back as an order at `later`, where stock may have moved but no price has. Then
   the payment never stands in the way of the order, which is created exactly when the cart can be
   filled, provided the address has no blanks at its ends. (The gate does not trim the guest's
   address, so it relies on request validation to keep such addresses out.)
   */
  lemma ChargeBecomesOrder(before: Db, later: Db, req: Request, data: BudPay.ProviderData)
    requires OrdersOf(later.orders, req.reference) == []
    requires SameCatalog(before, later) && InOrder(req) && PaidByEcho(before, req, data)
    ensures Create(later, req).result.Ok? <==> Trim(req.email) == req.email && CanFill(later, req.cart)
    ensures Trim(req.email) != req.email ==> Create(later, req) == Outcome(later, Err(EmailMismatch))
  {
    hide *;
    EchoIsExpected(before, later, req, data);
    CommitsIfChecked(later, req);
    CreatesIfCommitted(later, req);
    if Trim(req.email) != req.email { RefusedAtTheGate(later, req); }
  }

  lemma CreatesIfCommitted(db: Db, req: Request)
    requires OrdersOf(db.orders, req.reference) == []
    ensures Create(db, req).result.Ok? <==> Commit(db, req).Ok?
  {
    hide Commit;
  }
}
