# Verified models of the marketplace's state machines

Five parts of the marketplace back end are modelled here, each with the properties its design rests on.

- **Guest orders** (`GuestOrders`, `GuestStock`, `GuestGrouping`, `GuestMoney`, `GuestDemand`,
  `GuestRefusals`, `GuestReconciliation`, `GuestRuns`, `GuestRaces`, `GuestFaults`, `GuestOrderServices`). A flat
  cart is priced from the catalogue, gated on the verified payment, regrouped by store and placed as one order per
  store inside a transaction; paid checkouts that never became orders are replayed, one at a time or in bulk.
- **Featured rotation** (`FeaturedQueue`, `FeaturedRotation`, `FeaturedRaces`, `FeaturedListing`). A queue of
  boosted products is cut into wrap-around batches; a stored index advances under a compare-and-swap claim.
- **Delivery assignment** (`Delivery`, `DeliveryInvariants`, `DeliveryRaces`, `DeliveryServices`). Invitations,
  order status and driver-order links; `driverSelectOrder` also as separate, interleaved writes.
- **BudPay amounts** (`BudPay`, `GuestCharges`). Kobo printed as a trimmed naira decimal, read back under two
  interpretations, and followed to the gate of the order it pays for.
- **Invoice numbers** (`Invoices`). Each name comes from the latest live row; rows can be hard deleted.

Tables are values (`map`, `seq`), ids are integers, money is whole kobo. Each service that updates rows
in place is also a class whose methods change its fields step by step, loops included; each method is proved
against the function the lemmas are about. A transaction saves the tables and restores them on failure. The verified payment, the decoded
delivery token, the clock, the result of database orderings and the payment gateways' answers are inputs.
`dafny verify dfyconfig.toml` checks the whole project.

## Where the code differs from its intent

Each of these follows the code, names an input, and says exactly when the intent is met.

- A cart item may name its variant by `variantId` alone, since request validation keeps unknown fields
  (src/main.ts:98-102). It is then priced as that variant but ordered as the bare product. For a cart that can be
  ordered, the orders add up to its price on every successful call exactly when no item does so
  (`GuestFaults.TotalsPriceExactly`); `GuestFaults.OrderedBelowPrice` is a call that pays 9 and orders 5.
- Delivery, tax and a scalar discount are written on every store's order, so the orders collect what was paid
  exactly when the cart has one store or those charges cancel out (`GuestMoney.PlainLedger`,
  `GuestFaults.MiscollectedExactly`); `GuestFaults.CollectedTwice` is a call that is paid 13 and collects 16. What a
  token lists per store is collected once, the tax still for every store (`GuestMoney.ListedLedger`).
- Two calls for one payment reference can both find no orders and both commit. Orders under a reference come from
  one transaction exactly when none for it commits between the check and the commit of another call for it
  (`GuestRaces.OneBatchExactly`). Overlapping twice, one payment orders its cart twice exactly when the shelves
  hold it twice (`GuestRaces.PaidOnceOrderedTwice`, `GuestRaces.OnePaymentTwoOrders`). Stock is conserved all the
  same (`GuestRaces.RaceConserves`).
- `is_multi_seller` counts the store ids as sent, an absent field and `null` apart. It is right exactly when every
  item names its store, or none does, all in the same way, and the cart has one store, or neither is so and it has
  several (`GuestGrouping.MultiSellerFlag`, `GuestFaults.MisflaggedExactly`). `GuestFaults.TwoOrdersUnflagged` and
  `GuestFaults.OneOrderFlagged` are calls for which it is wrong.
- Reconciling a completed checkout again looks for orders under the checkout's own reference, and finds those
  it recorded exactly when its stored request names no other payment reference (`GuestRuns.AskingAgain`). The
  code that stores requests always writes the checkout's own reference into them
  (src/PAYSTACK_PAYMENT/paystack.service.ts:3069-3120), so only rows written otherwise are affected;
  `GuestFaults.ForeignRowForgotten` follows such rows.
- A position is not rotated every five minutes only. Before the timer, with the queue as it was, an unforced call
  rotates it exactly when it asks for another number of products than the last rotation saved
  (`FeaturedRotation.RotatesAgainExactly`), which is a batch, or less when queue and recent products do not fill
  one (`FeaturedRotation.SavedLength`). The scheduler asks for 5 and visitors for any number from 1 to 50
  (src/FEATURED_PRODUCTS/featured-products.controller.ts:56-64), so callers of different sizes rotate it on every
  call (`FeaturedRotation.TenAfterFiveRotates`, `FeaturedRotation.EveryVisitRotates`), and fairness is lost:
  callers that take turns can keep half of a queue from ever being shown (`FeaturedRotation.TwoSizesStarve`).
- The rotation claim protects claimers that save before the due time they wrote themselves, and no others
  (`FeaturedRaces.GraceBoundIsExact`): later savers can claim a due time twice
  (`FeaturedRaces.LateSaveRepeatsClaim`) and lose rotations (`FeaturedRaces.LateSaveLosesRotation`).
- `delivered` is not final: an order stays delivered exactly until it is picked up again
  (`DeliveryInvariants.DeliveredIsFinalExactly`), which any linked driver of its company with the pickup code can
  do (`DeliveryInvariants.WhoCanPickUpAgain`).
- Two interleaved selects can both succeed and leave nobody in transit (`DeliveryRaces.BothSelectsLost`). A pickup
  keeps its order, whatever follows, exactly when no other driver's select on the order is past its check
  (`DeliveryRaces.PickupIsSafeExactly`); `DeliveryRaces.PickerLosesOrder` is an interleaving that loses it.
- A company may send an invitation to a driver whose `canInvite` flag is false. Drivers have one employer all
  through a run exactly when no call of it does that (`DeliveryInvariants.OneEmployerExactly`);
  `DeliveryInvariants.TwoEmployers` is a run that ends with two.
- A create of an invoice is rejected exactly when some live invoice was created while the invoice that is the
  latest now was the latest then (`Invoices.RejectedExactly`). An advancing clock rules that out
  (`Invoices.CreateAlwaysSucceeds`); one that steps back does not (`Invoices.ClockStepsBack`).
- The category list of the electronics test decides nothing its keyword list does not
  (`FeaturedListing.CategoriesAreRedundant`).

## Model

| member | source | states |
|---|---|---|
| `GuestStock.TakeLineMoves` | src/ORDER/guest-order.service.ts:2340-2433 | A line that is taken moves exactly its quantity off its product and its variant, counts one order on the product, leaves all else alone and never goes below zero |
| `GuestStock.PlaceLinesMoves` | src/ORDER/guest-order.service.ts:2330-2454 | The item loop moves exactly the units of the lines it writes, at catalogue prices and in order, repeated lines for a product included |
| `GuestStock.CreateConserves` | src/ORDER/guest-order.service.ts:254-376 | For each product and variant, shelf units plus units in committed order lines are the same before and after one call; a failed call changes nothing |
| `GuestStock.RunConserves` | src/ORDER/guest-order.service.ts:208-425 | The same over every serial run of calls, failing ones included |
| `GuestStock.ProductStockIsConserved` | src/ORDER/guest-order.service.ts:2361-2379 | From a shop without orders, a product's initial units equal its current units plus all ordered quantities, and stay at least zero, after any run |
| `GuestStock.VariantStockIsConserved` | src/ORDER/guest-order.service.ts:2398-2424 | The same for a variant |
| `GuestDemand.PlaceLinesExactly` | src/ORDER/guest-order.service.ts:2340-2433 | Lines can be taken one after the other exactly when the total demand per product and per variant fits the shelves |
| `GuestDemand.PlaceGroupsExactly` | src/ORDER/guest-order.service.ts:290-345 | Placing store by store succeeds exactly when the lines of all groups together do and every store exists |
| `GuestDemand.FitsPermuted` | src/ORDER/guest-order.service.ts:2340-2433 | Whether a demand fits does not depend on the order of its lines |
| `GuestDemand.FilledExactly` | src/ORDER/guest-order.service.ts:287-345 | Grouping and placing a cart succeeds exactly when every item's store is right and the flat cart's demand fits |
| `GuestDemand.CommitsExactly` | src/ORDER/guest-order.service.ts:254-376 | Whatever orders exist, a transaction commits exactly when there is a cart, an address, a complete form and a reference; a live guest token for the selected address; a price for every item; a successful payment of the guest's, under this reference or none, of exactly what is owed; and every item's store is right and the shelves hold the total demand |
| `GuestDemand.PlaceGroupsStock` | src/ORDER/guest-order.service.ts:290-345 | Placing store by store leaves the stock that placing all lines leaves |
| `GuestDemand.CreatesExactly` | src/ORDER/guest-order.service.ts:254-376 | So, condition by condition, for a call whose reference has no orders |
| `GuestRefusals.RefusedForAReason` | src/ORDER/guest-order.service.ts:254-345 | Whatever reason a refused call gives is true of its request and the tables: the token is expired, the amount is not what is owed, some item's variant is missing, the shelves do not hold the demand, and so on |
| `GuestGrouping.GroupsPartitionCart` | src/ORDER/guest-order.service.ts:2045-2094 | Groups have distinct stores, one for each store of the cart, and hold that store's lines in cart order |
| `GuestGrouping.GroupsPermuteCart` | src/ORDER/guest-order.service.ts:2045-2094 | The groups together are a permutation of the cart |
| `GuestGrouping.GroupsKeepCost` | src/ORDER/guest-order.service.ts:2045-2094 | Any cost per line sums to the same over the groups as over the flat cart |
| `GuestGrouping.OrderPerStore` | src/ORDER/guest-order.service.ts:2045-2094 | There are as many groups as stores of products in the cart |
| `GuestGrouping.MultiSellerFlag` | src/ORDER/guest-order.service.ts:241-242 | The flag says whether more than one order is created exactly when all items name their store, or none does, all alike, and there is one store, or neither is so and there are several |
| `GuestMoney.FlaggedExactly` | src/ORDER/guest-order.service.ts:241-299 | A successful call creates one order per store of the cart, and all carry the right flag exactly in those cases |
| `GuestFaults.MisflaggedExactly` | src/ORDER/guest-order.service.ts:241-299 | A cart that can be ordered gets wrongly flagged orders on some call exactly in the other cases |
| `GuestFaults.TwoOrdersUnflagged` | src/ORDER/guest-order.service.ts:241-299 | A successful call that creates two orders, neither flagged |
| `GuestFaults.OneOrderFlagged` | src/ORDER/guest-order.service.ts:241-299 | A successful call, of two items of one store with an absent and a `null` store id, that creates one order, flagged |
| `GuestMoney.PriceLinesSum` | src/ORDER/guest-order.service.ts:123-178 | The subtotal is the sum of catalogue price times quantity over the cart |
| `GuestMoney.CartPrice` | src/ORDER/guest-order.service.ts:123-178 | A cart has a price exactly when it is not empty and every item asks for an available product, and a variant of it if any, in a whole quantity |
| `GuestMoney.GapFreeExactly` | src/ORDER/guest-order.service.ts:140 | Given a catalogue that prices the cart, ordered cost equals priced cost under every catalogue that does exactly when no item names its variant by `variantId` alone |
| `GuestFaults.DeliveredCommits` | src/ORDER/guest-order.service.ts:254-376 | Every priced cart that can be filled commits, with any delivery amount, when paid exactly |
| `GuestFaults.PaidRequestSucceeds` | src/ORDER/guest-order.service.ts:254-376 | Every cart that is priced and can be filled is ordered when paid exactly |
| `GuestFaults.TotalsPriceExactly` | src/ORDER/guest-order.service.ts:2079-2083 | For a cart that can be ordered, order totals add up to the priced subtotal on every successful call exactly when no item names its variant by `variantId` alone |
| `GuestFaults.MispricedCall` | src/ORDER/guest-order.service.ts:2079-2083 | Every other such cart has a catalogue and a successful call whose orders miss the price |
| `GuestFaults.OrderedBelowPrice` | src/ORDER/guest-order.service.ts:2079-2083 | A successful call that pays 9 kobo for orders of 5 |
| `GuestMoney.CommitMakes` | src/ORDER/guest-order.service.ts:254-376 | A committed call makes one order per group, numbered on, each with its store, reference, flag, charges, totals and lines |
| `GuestMoney.TotalsMatchSubtotal` | src/ORDER/guest-order.service.ts:290-331 | The totals of the created orders sum to the cart's subtotal plus that gap, hence to the subtotal without such items |
| `GuestMoney.OrdersArePaidFor` | src/ORDER/guest-order.service.ts:1763-1965 | Orders exist only against a successful payment of the guest's, of exactly the amount due, with a live guest token for the selected address |
| `GuestMoney.LedgerOfCommit` | src/ORDER/guest-order.service.ts:330-331 | For any token, what the orders collect equals the payment up to the repeated tax, the shares the token does not cover, the gap, and a negative balance |
| `GuestMoney.OrdersChargedAsSent` | src/ORDER/guest-order.service.ts:2225-2246 | Every created order carries its own store's first entry of each list in the token, 0 without one; a scalar discount and the tax whole; and the delivery amount divided by the store count, if there is no list of charges |
| `GuestMoney.PlainLedger` | src/ORDER/guest-order.service.ts:2105-2118 | With scalar charges the orders of a cart of n stores collect the payment plus (n-1) times (delivery + tax - discount), so the payment itself exactly for one store or cancelling charges |
| `GuestMoney.ListedLedger` | src/ORDER/guest-order.service.ts:2225-2246 | A token that lists discount and delivery once for each store of the cart is collected without loss: the orders collect the payment, the listed charges in place of the amount, and the tax once more for every store but one |
| `GuestFaults.MiscollectedExactly` | src/ORDER/guest-order.service.ts:2225-2246 | For a cart that can be ordered at its price, some call collects something else than was paid exactly when it has several stores |
| `GuestFaults.DeliveredTwice` | src/ORDER/guest-order.service.ts:2225-2236 | On a cart of two stores the amount for delivery is collected twice |
| `GuestFaults.CollectedTwice` | src/ORDER/guest-order.service.ts:2225-2236 | A successful call that is paid 13 kobo and collects 16 |
| `GuestMoney.CountedDelivery` | src/ORDER/guest-order.service.ts:2225-2236 | A store count equal to the number of orders splits the delivery amount without loss |
| `GuestRuns.FirstCall` | src/ORDER/guest-order.service.ts:227-376 | A call for a reference without orders fails without a trace or appends, and returns, all orders of that reference, and no others |
| `GuestRuns.OneBatchPerPayment` | src/ORDER/guest-order.service.ts:227-238 | In every series of calls all orders under a reference come from one committed call, and each later call for it returns them and changes nothing |
| `GuestRaces.SerialIsCreate` | src/ORDER/guest-order.service.ts:227-376 | A check followed by its own transaction is one call |
| `GuestRaces.RaceConserves` | src/ORDER/guest-order.service.ts:227-376 | Stock is conserved in every interleaving of checks and transactions |
| `GuestRaces.MoveAdds` | src/ORDER/guest-order.service.ts:254-376 | A move adds orders under a reference exactly when it commits a transaction for it |
| `GuestRaces.SecondWasChecked` | src/ORDER/guest-order.service.ts:227-254 | A second commit for a reference is of a call that passed its check before the first |
| `GuestRaces.OnlyBatchIsAll` | src/ORDER/guest-order.service.ts:227-254 | With one commit for a reference, all its orders are that transaction's |
| `GuestRaces.OneBatchExactly` | src/ORDER/guest-order.service.ts:227-254 | Orders under a reference come from one transaction exactly when none for it commits between the check and the commit of another call for it |
| `GuestRaces.FillsTwice` | src/ORDER/guest-order.service.ts:2340-2433 | After an order its cart can be filled again exactly when it could be filled twice over |
| `GuestRaces.PaidOnceOrderedTwice` | src/ORDER/guest-order.service.ts:227-376 | Two overlapping calls for one paid cart both commit exactly when the shelves hold it twice |
| `GuestRaces.OnePaymentTwoOrders` | src/ORDER/guest-order.service.ts:227-376 | A shop and an interleaving in which one payment is ordered twice |
| `GuestRuns.StepIsCalls` | src/ORDER/guest-order.service.ts:1000-1207 | A create, a reconciliation or a bulk reconciliation changes orders and stock exactly as the create calls it comes to |
| `GuestRuns.RunConservesAndBatches` | src/ORDER/guest-order.service.ts:1000-1207 | So stock is conserved and each reference has one batch over every run of creates, single and bulk reconciliations, also when checkouts share a reference |
| `GuestRuns.CheckoutLifecycle` | src/ORDER/guest-order.service.ts:2172-2196 | In every run completed checkouts stay as they are, and a checkout completed by it records exactly the orders, at least one, under its payment reference |
| `GuestRuns.BulkVisitsOnce` | src/ORDER/guest-order.service.ts:1075-1221 | Bulk reconciliation has one entry per paid uncompleted checkout, oldest first, and reconciled + skipped + failed is their number |
| `GuestRuns.BulkReportIsTrue` | src/ORDER/guest-order.service.ts:1102-1207 | Each entry tells how its checkout was left; skipped are exactly those without a cart and those under whose own reference there was an order at the start; no other checkout changes |
| `GuestRuns.ReplaysExactly` | src/ORDER/guest-order.service.ts:2132-2196 | A stored request becomes orders exactly when there are some already, or it is complete, every item has a price, its demand fits and what was paid is its goods, its delivery charge or else fee and its tax less its discount |
| `GuestRuns.ReconciledExactly` | src/ORDER/guest-order.service.ts:1000-1066 | A single reconciliation completes a checkout exactly when it is paid, not completed, holds a cart, its payment is verified and its request can be replayed |
| `GuestRuns.ReplyIsTrue` | src/ORDER/guest-order.service.ts:1000-1073 | Every reply of a single reconciliation is true, leaves the checkout as it says, and changes nothing unless a replay was made |
| `GuestRuns.CreateKeepsNumbers` | src/ORDER/guest-order.service.ts:2245-2300 | Whatever gaps the ids so far have, order ids stay distinct and grow with every order |
| `GuestRuns.RecordsEveryOrder` | src/ORDER/guest-order.service.ts:2186-2191 | While ids grow, a completed checkout records the ids of all orders under its payment reference, in their order |
| `GuestRuns.AskingAgain` | src/ORDER/guest-order.service.ts:1013-1026 | Asking again for a completed checkout changes nothing and returns its orders exactly when its stored request names no other payment reference |
| `GuestRuns.ReconciledThenAsked` | src/ORDER/guest-order.service.ts:1000-1066 | So for every checkout just reconciled and then asked for once more |
| `GuestFaults.ForeignRowForgotten` | src/ORDER/guest-order.service.ts:1013-1037 | A row that names another reference is reconciled, and asking again finds none of its orders |
| `GuestReconciliation.PendingIdsAre` | src/ORDER/guest-order.service.ts:1076-1084 | The checkouts to visit are exactly the paid uncompleted ones, oldest first |
| `GuestOrderServices.GuestOrderService.CalculateGuestCartSubtotal` | src/ORDER/guest-order.service.ts:123-178 | The pricing loop returns the specified subtotal or the first item's error, and the subtotal is the sum of the priced costs |
| `GuestOrderServices.GuestOrderService.GroupProducts` | src/ORDER/guest-order.service.ts:2045-2094 | The grouping loop builds the specified groups: distinct stores, a permutation of the cart |
| `GuestOrderServices.GuestOrderService.FindGroup` | src/ORDER/guest-order.service.ts:2072-2077 | The lookup finds the store's group, or that there is none |
| `GuestOrderServices.AddLineAt` | src/ORDER/guest-order.service.ts:2072-2086 | Appending to the found or the new group is what adding a line to the insertion-ordered map means |
| `GuestOrderServices.GuestOrderService.TakeStock` | src/ORDER/guest-order.service.ts:2341-2421 | One pass of the item loop refuses or takes the line as specified |
| `GuestOrderServices.GuestOrderService.CreateItems` | src/ORDER/guest-order.service.ts:2330-2454 | The item loop writes the specified lines and stock; its totals are the sums over the lines |
| `GuestOrderServices.GuestOrderService.PlaceGuestOrder` | src/ORDER/guest-order.service.ts:290-332 | Order row first, lines next, store check and totals last: the specified order, or the specified error |
| `GuestOrderServices.GuestOrderService.CommitOrders` | src/ORDER/guest-order.service.ts:254-376 | The transaction body commits as specified, exactly when the call has all it needs, and returns exactly the orders it appended |
| `GuestOrderServices.GuestOrderService.ExpectedAmount` | src/ORDER/guest-order.service.ts:2105-2118 | The expected amount is subtotal plus charges less discount, cut at zero |
| `GuestOrderServices.GuestOrderService.CreateGuestOrder` | src/ORDER/guest-order.service.ts:208-425 | Stock is conserved; a new reference gets orders exactly when the call has all it needs; a failure restores every table and gives a true reason; a success returns all orders of the reference |
| `GuestOrderServices.GuestOrderService.ReplayGuestCheckout` | src/ORDER/guest-order.service.ts:2172-2196 | The replay creates as specified and leaves the checkout completed with its orders, or failed |
| `GuestOrderServices.GuestOrderService.ReconcileGuestCheckout` | src/ORDER/guest-order.service.ts:1000-1073 | A single reconciliation answers truly and changes the shop as specified, within the checkout lifecycle |
| `GuestOrderServices.GuestOrderService.VisitCheckout` | src/ORDER/guest-order.service.ts:1132-1206 | One pass of the bulk loop skips, fails or reconciles its checkout as specified |
| `GuestOrderServices.GuestOrderService.ReconcileAllGuestCheckouts` | src/ORDER/guest-order.service.ts:1075-1221 | The bulk loop visits each pending checkout once, skips exactly those without a cart or with an order under their own reference at the start, leaves each as its entry says, and the summary counts the entries |
| `GuestOrderServices.GuestOrderService.Summarize` | src/ORDER/guest-order.service.ts:1209-1221 | The reduction counts each action, and the counts add up to the number of results |
| `GuestCharges.ChargedExactly` | src/BUDPAY_PAYMENT/budpay.service.ts:274-330 | Which carts and tokens are charged, item by item, how much, and that the charge is the amount the order gate expects |
| `GuestCharges.EchoVerifies` | src/BUDPAY_PAYMENT/budpay.service.ts:420-485 | A charge echoed by the provider verifies as that amount, for the guest's address |
| `GuestCharges.EchoMeetsGate` | src/ORDER/guest-order.service.ts:1923-1965 | The verified record passes the order gate exactly when the guest's address has no blanks at its ends |
| `GuestCharges.ChargeBecomesOrder` | src/ORDER/guest-order.service.ts:254-285 | End to end: with unchanged prices an echoed charge never stands in the way of its order, which is created exactly when the cart can be filled and the address is trimmed |
| `BudPay.ReplacementsTrim` | src/BUDPAY_PAYMENT/budpay.service.ts:124-129 | The two replacements drop exactly the zeros after the last significant kobo digit |
| `BudPay.FormatReadsBack` | src/BUDPAY_PAYMENT/budpay.service.ts:124-129 | For every kobo amount the printed text, read as a decimal, is that amount in naira |
| `BudPay.FormatIsCanonical` | src/BUDPAY_PAYMENT/budpay.service.ts:124-129 | Printing is injective and no printed fraction ends in a zero |
| `BudPay.AcceptedAnswers` | src/BUDPAY_PAYMENT/budpay.service.ts:349-455 | An answer is accepted exactly when its requested amount, or without one its amount, meets the stored amount as naira or as kobo, and it comes from the stored customer; the verified amount is always the stored one |
| `BudPay.RejectedAnswers` | src/BUDPAY_PAYMENT/budpay.service.ts:349-447 | And exactly for which reason each other answer is rejected |
| `BudPay.RequestedAmountDecides` | src/BUDPAY_PAYMENT/budpay.service.ts:349-350 | Beside a requested amount the amount charged makes no difference to the outcome |
| `BudPay.AcceptedUnstored` | src/BUDPAY_PAYMENT/budpay.service.ts:349-368 | Without a stored checkout every number is accepted, read as naira and rounded to kobo |
| `BudPay.FeesOnTop` | src/BUDPAY_PAYMENT/budpay.service.spec.ts:339-380 | 1250 naira requested and 1252.5 charged verify as the stored 125000 kobo |
| `BudPay.EchoedAmount` | src/BUDPAY_PAYMENT/budpay.service.ts:349-455 | An amount echoed in the requested amount, or without one in the amount, is accepted exactly when the answer names the stored customer, or no one, and the amount is the stored one or rounds to its kobo count read as naira |
| `BudPay.EchoedUnderpaymentRejected` | src/BUDPAY_PAYMENT/budpay.service.ts:430-437 | An echoed amount short of the charge is never accepted, whatever the answer says besides |
| `BudPay.InitializedChargeVerifies` | src/BUDPAY_PAYMENT/budpay.service.ts:164-190 | Every amount of at least 100 kobo that is initialised and echoed back verifies, as itself, exactly when the answer names the stored customer or no one |
| `DeliveryInvariants.CompanyDriversDistinct` | src/DELIVERY_COMPANY/delivery_company.service.ts:651-658 | With one live invitation per driver and company, no driver is offered an order twice |
| `DeliveryInvariants.TakeOverEffect` | src/DELIVERY_COMPANY/delivery_company.service.ts:1107-1131 | A pickup or select puts one link in transit, unassigns the rest of the order and touches no other order |
| `DeliveryInvariants.GrantedExactly` | src/DELIVERY_COMPANY/delivery_company.service.ts:386-1339 | Each of the seven calls goes through exactly when what it needs is there: a delivery when the order is picked up, the OTP is the order's and the driver's link is in transit; a pickup when company and code are the order's, it is not picked up and the driver is employed and linked; a select, while links are exclusive as in every run, when no one else is in transit |
| `DeliveryInvariants.ChangesExactly` | src/DELIVERY_COMPANY/delivery_company.service.ts:386-1358 | And has exactly its stated effect on every row: the new status, the links taken over, the invitations cancelled, and nothing else |
| `DeliveryInvariants.StepKeepsInvariant` | src/DELIVERY_COMPANY/delivery_company.service.ts:386-536 | Every call keeps live invitations single, links unique, and every other link of a carried or delivered order unassigned |
| `DeliveryInvariants.RunKeepsInvariant` | src/DELIVERY_COMPANY/delivery_company.service.ts:638-681 | So link exclusivity holds in every run |
| `DeliveryInvariants.SendKeepsOneEmployer` | src/DELIVERY_COMPANY/delivery_company.service.ts:406-453 | A successful send keeps one employer per driver exactly when the driver can be invited |
| `DeliveryInvariants.InvitedAgain` | src/DELIVERY_COMPANY/delivery_company.service.ts:433-444 | After a rejection the same driver and company can be brought together by another invitation |
| `DeliveryInvariants.AcceptKeepsOneEmployer` | src/DELIVERY_COMPANY/delivery_company.service.ts:466-497 | Accepting cancels the driver's other pending invitations, so the driver has one employer |
| `DeliveryInvariants.StepKeepsOneEmployer` | src/DELIVERY_COMPANY/delivery_company.service.ts:386-536 | The only call that breaks one employer per driver is a company's send that goes through although `canInvite` is false |
| `DeliveryInvariants.RunKeepsOneEmployer` | src/DELIVERY_COMPANY/delivery_company.service.ts:749-800 | After any calls none of which does that, a driver has at most one accepted invitation and then no pending one |
| `DeliveryInvariants.OneEmployerExactly` | src/DELIVERY_COMPANY/delivery_company.service.ts:406-453 | That holds all through a run exactly when no call of the run does that |
| `DeliveryInvariants.TwoEmployers` | src/DELIVERY_COMPANY/delivery_company.service.ts:406-453 | From a start, four calls leave a driver with two accepted invitations |
| `DeliveryInvariants.RunKeepsPicker` | src/DELIVERY_COMPANY/delivery_company.service.ts:1049-1131 | A picked-up order is always carried by its latest picker |
| `DeliveryInvariants.DeliveredByPicker` | src/DELIVERY_COMPANY/delivery_company.service.ts:1299-1358 | In every run delivery succeeds exactly for the driver of the latest pickup of a taken, picked-up order, with the order's own OTP; and such an order has exactly one link in transit, that driver's |
| `DeliveryInvariants.DeliveredStep` | src/DELIVERY_COMPANY/delivery_company.service.ts:1058-1105 | A taken, delivered order stays delivered through a call exactly when the call does not pick it up again |
| `DeliveryInvariants.DeliveredIsFinalExactly` | src/DELIVERY_COMPANY/delivery_company.service.ts:1058-1105 | It stays delivered all through a run exactly when no call of the run picks it up again |
| `DeliveryInvariants.WhoCanPickUpAgain` | src/DELIVERY_COMPANY/delivery_company.service.ts:1058-1101 | That can be done exactly by an accepted driver of its company linked to it, with its pickup code |
| `DeliveryInvariants.DeliveredCanBePickedUpAgain` | src/DELIVERY_COMPANY/delivery_company.service.ts:1073-1075 | From a start, four calls deliver an order and pick it up again |
| `DeliveryRaces.RaceRunKeeps` | src/DELIVERY_COMPANY/delivery_company.service.ts:1234-1283 | In every interleaving two links of an order are in transit together only while one of their selects is midway |
| `DeliveryRaces.SerialIsSelect` | src/DELIVERY_COMPANY/delivery_company.service.ts:1234-1283 | A check, its mark and its clear without interleaving are one call |
| `DeliveryRaces.AtMostOneInTransit` | src/DELIVERY_COMPANY/delivery_company.service.ts:1268-1283 | So at most one link of an order is in transit once no select is midway on it |
| `DeliveryRaces.StillInTransit` | src/DELIVERY_COMPANY/delivery_company.service.ts:1234-1283 | In every interleaving, whole calls included, a link is in transit at the end exactly when a mark, pickup or select of its driver put it there, or it was so at the start, and no completed select, pickup or select of another driver, nor its delivery, has displaced it since |
| `DeliveryRaces.LastSelectOutcome` | src/DELIVERY_COMPANY/delivery_company.service.ts:1268-1283 | When a marked select completes, its driver is in transit exactly in that case and everyone else is unassigned, whatever came between |
| `DeliveryRaces.BothSelectsLost` | src/DELIVERY_COMPANY/delivery_company.service.ts:1268-1283 | From a start, two selects can both succeed and leave nobody in transit |
| `DeliveryRaces.PickerKeepsOrder` | src/DELIVERY_COMPANY/delivery_company.service.ts:1049-1131 | Through every interleaving in which no pickup of the order finds another driver's select past its check, the picker stays the order's only carrier until delivery |
| `DeliveryRaces.DeliveredByPickerInRaces` | src/DELIVERY_COMPANY/delivery_company.service.ts:1299-1358 | So from a start exactly the latest picker can then deliver the order while it is picked up, with its own OTP |
| `DeliveryRaces.ForeignSelectTakesOrder` | src/DELIVERY_COMPANY/delivery_company.service.ts:1268-1283 | Another driver's select past its check has a continuation that takes everyone else off the order |
| `DeliveryRaces.PickupIsSafeExactly` | src/DELIVERY_COMPANY/delivery_company.service.ts:1107-1283 | A pickup keeps its order in every such continuation exactly when no other driver's select is past its check at that moment |
| `DeliveryRaces.PickerLosesOrder` | src/DELIVERY_COMPANY/delivery_company.service.ts:1255-1283 | From a start, a select begun before the pickup takes the order, and its driver, not the picker, can deliver it |
| `DeliveryServices.DeliveryService.SendInvitation` | src/DELIVERY_COMPANY/delivery_company.service.ts:386-463 | The call does what its function says, keeps the invariant, goes through exactly when an approved driver and company have no live invitation between them, nor an inviting driver an employer, and only adds a pending row |
| `DeliveryServices.DeliveryService.AcceptInvitation` | src/DELIVERY_COMPANY/delivery_company.service.ts:466-507 | The same for pending invitations, which it accepts, cancelling the driver's others; it keeps one employer per driver |
| `DeliveryServices.DeliveryService.RejectInvitation` | src/DELIVERY_COMPANY/delivery_company.service.ts:510-536 | The same for pending invitations only, which it rejects |
| `DeliveryServices.DeliveryService.AcceptOrder` | src/DELIVERY_COMPANY/delivery_company.service.ts:638-696 | The same for orders without a company, which go out for delivery and are linked to each of its drivers, reporting the number of links made |
| `DeliveryServices.DeliveryService.ConfirmPickup` | src/DELIVERY_COMPANY/delivery_company.service.ts:1049-1149 | The same, exactly with the order's company and code by an employed, linked driver, leaving the order picked up and its driver alone in transit |
| `DeliveryServices.DeliveryService.DriverSelectOrder` | src/DELIVERY_COMPANY/delivery_company.service.ts:1234-1296 | The same, exactly while no one else is in transit, leaving its driver alone in transit and the order as it was |
| `DeliveryServices.DeliveryService.ConfirmDelivery` | src/DELIVERY_COMPANY/delivery_company.service.ts:1299-1376 | The same, exactly for a picked-up order with its own OTP and its driver in transit, leaving the order delivered by that driver |
| `FeaturedQueue.QueueShape` | src/FEATURED_PRODUCTS/featured-products.service.ts:772-800 | The queue holds each product of a running boost exactly once, a boost running from its approval for its days of 24 hours |
| `FeaturedQueue.QueueInOrder` | src/FEATURED_PRODUCTS/featured-products.service.ts:789-796 | Of two queued products the earlier one is mentioned by a running boost before any running boost mentions the other |
| `FeaturedQueue.BuildQueueForPosition` | src/FEATURED_PRODUCTS/featured-products.service.ts:745-801 | The loops build that queue, and nothing without an active plan |
| `FeaturedQueue.CollectQueue` | src/FEATURED_PRODUCTS/featured-products.service.ts:768-796 | The loop over boosts pushes unseen ids only |
| `FeaturedQueue.PushUnseen` | src/FEATURED_PRODUCTS/featured-products.service.ts:789-796 | The loop over one boost's products keeps the queue and the set of seen ids in step |
| `FeaturedQueue.Normalized` | src/FEATURED_PRODUCTS/featured-products.service.ts:814-815 | Taking the remainder twice maps any integer index, negative ones included, to its residue |
| `FeaturedQueue.BatchShape` | src/FEATURED_PRODUCTS/featured-products.service.ts:803-833 | A batch is the whole queue or exactly b distinct queue ids around the ring, for every integer index |
| `FeaturedQueue.InItsBatch` | src/FEATURED_PRODUCTS/featured-products.service.ts:814-821 | The product at place j of the queue is in batch j / b |
| `FeaturedQueue.BuildBatch` | src/FEATURED_PRODUCTS/featured-products.service.ts:803-833 | The code builds that batch |
| `FeaturedQueue.DropRepeats` | src/FEATURED_PRODUCTS/featured-products.service.ts:823-830 | Its last loop keeps first occurrences |
| `FeaturedQueue.Fallback` | src/FEATURED_PRODUCTS/featured-products.service.ts:835-864 | Fallbacks are at most `limit` distinct recent products outside the excluded set |
| `FeaturedQueue.FallbackCount` | src/FEATURED_PRODUCTS/featured-products.service.ts:843-861 | There are as many fallbacks as different fresh ids among the 4 times `limit` most recent products, up to the limit |
| `FeaturedQueue.FetchRecentFallbackIds` | src/FEATURED_PRODUCTS/featured-products.service.ts:835-864 | The code returns them, and none for a limit of zero or less |
| `FeaturedQueue.TakeFresh` | src/FEATURED_PRODUCTS/featured-products.service.ts:849-861 | The loop that stops early returns the first `limit` different fresh candidates |
| `FeaturedQueue.IsSameQueue` | src/FEATURED_PRODUCTS/featured-products.service.ts:893-903 | True exactly for equal queues |
| `FeaturedRotation.RotationKeepsActiveList` | src/FEATURED_PRODUCTS/featured-products.service.ts:564-613 | Every saved active list is the batch followed by the fallbacks, without repetitions, at most a batch long; fallbacks are outside the whole queue, and absent at position 1; the times saved are those of the rotation and of its end |
| `FeaturedRotation.SavedLength` | src/FEATURED_PRODUCTS/featured-products.service.ts:564-598 | A rotation saves a batch, or the whole of a shorter queue and, except at position 1, as many different unqueued products as the recent candidates hold and the batch has room for |
| `FeaturedRotation.RotatesAgainExactly` | src/FEATURED_PRODUCTS/featured-products.service.ts:486-499 | After a rotation a call with any queue, size and time rotates again exactly when it is forced, the queue differs, it asks for another number than was saved, or the period is over; a row never rotated always is |
| `FeaturedRotation.ChangedQueueStartsOver` | src/FEATURED_PRODUCTS/featured-products.service.ts:569-605 | A rotation of a changed queue saves index 0 and shows the first batch, or all of the queue |
| `FeaturedRotation.TenAfterFiveRotates` | src/FEATURED_PRODUCTS/featured-products.service.ts:491-499 | A call for 10 right after a rotation for 5 rotates every queue of at least 10 again |
| `FeaturedRotation.EveryVisitRotates` | src/FEATURED_PRODUCTS/featured-products.service.ts:491-499 | Callers that ask in turn for different numbers, none above the queue's length, rotate on every call, whatever the time |
| `FeaturedRotation.TwoSizesStarve` | src/FEATURED_PRODUCTS/featured-products.service.ts:569-605 | Callers that ask in turn for 2b and b products never show the first half of a queue of 4b, in any number of rotations |
| `FeaturedRotation.IndexWalk` | src/FEATURED_PRODUCTS/featured-products.service.ts:571-573 | k rotations move the stored index k places around the batches, whatever integer was stored |
| `FeaturedRotation.EveryProductShown` | src/FEATURED_PRODUCTS/featured-products.service.ts:569-605 | From any stored index, ceil(n/b) successive rotations show every queued product |
| `FeaturedRotation.ChooseActive` | src/FEATURED_PRODUCTS/featured-products.service.ts:564-598 | The code chooses the batch at the new index and pads it with fallbacks |
| `FeaturedRotation.RotationState.Rotate` | src/FEATURED_PRODUCTS/featured-products.service.ts:564-613 | The claimed part of a call saves the specified rotation |
| `FeaturedRotation.RotationState.RotatePositionIfDue` | src/FEATURED_PRODUCTS/featured-products.service.ts:470-642 | One call rotates exactly when forced, or the queue changed, or another number is asked for, or no due time is set or it has come; it leaves a proper active list, and otherwise changes nothing |
| `FeaturedRaces.SerialIsRotate` | src/FEATURED_PRODUCTS/featured-products.service.ts:483-613 | The moves of one instance without interleaving are one call at the time it began |
| `FeaturedRaces.ClaimIsOnCurrentRow` | src/FEATURED_PRODUCTS/featured-products.service.ts:524-549 | A successful claim was made from the current row with no other claim outstanding |
| `FeaturedRaces.RunKeeps` | src/FEATURED_PRODUCTS/featured-products.service.ts:483-613 | Every interleaving of begin, read, claim and save by any number of instances keeps the race invariant |
| `FeaturedRaces.ClaimedOnceAdvancedOnce` | src/FEATURED_PRODUCTS/featured-products.service.ts:524-613 | No due time is claimed twice, and the stored index advances exactly once per claim, when claimers save within the period |
| `FeaturedRaces.LateSaveLosesRotation` | src/FEATURED_PRODUCTS/featured-products.service.ts:524-613 | With several batches and a longer allowance, two claims can advance the index once, from every row that is due and for every queue, batch size and period |
| `FeaturedRaces.LateSaveRepeatsClaim` | src/FEATURED_PRODUCTS/featured-products.service.ts:524-613 | However many batches there are, a longer allowance lets one due time be claimed twice, from every row that is due |
| `FeaturedRaces.GraceBoundIsExact` | src/FEATURED_PRODUCTS/featured-products.service.ts:524-613 | So wherever saved lists can be full, every interleaving claims each due time once and advances the index once per claim exactly when the allowance is at most the period |
| `FeaturedListing.CategoriesAreRedundant` | src/FEATURED_PRODUCTS/featured-products.service.ts:646-707 | A product counts as electronics exactly when a keyword is mentioned |
| `FeaturedListing.ElectronicsExactly` | src/FEATURED_PRODUCTS/featured-products.service.ts:662-706 | It does when its name, category or sub-category mentions, in whatever case, one of fourteen words |
| `FeaturedListing.PassesExactly` | src/FEATURED_PRODUCTS/featured-products.service.ts:237-293 | A product passes a query exactly when it meets each part the query sets, texts mentioned in whatever case |
| `FeaturedListing.StableSortIsPartition` | src/FEATURED_PRODUCTS/featured-products.service.ts:709-721 | A stable sort by the comparator has one outcome: the sublist with the property, then the rest |
| `FeaturedListing.PartitionIsStableSort` | src/FEATURED_PRODUCTS/featured-products.service.ts:709-721 | And that outcome is a stable sort |
| `FeaturedListing.ElectronicsFirst` | src/FEATURED_PRODUCTS/featured-products.service.ts:709-721 | `sortByElectronicsFirst` gives the electronics in their order followed by the others in theirs, and nothing else |
| `FeaturedListing.ListingIsDetermined` | src/FEATURED_PRODUCTS/featured-products.service.ts:296-307 | Whatever the database's row order, the listing is electronics in queue order, then the others in queue order |
| `FeaturedListing.PagesCover` | src/FEATURED_PRODUCTS/featured-products.service.ts:309-311 | Pages laid end to end are the list |
| `FeaturedListing.PagesListEveryProductOnce` | src/FEATURED_PRODUCTS/featured-products.service.ts:237-311 | The primary pages of a position list each product that passes the filter exactly once, in that order |
| `FeaturedListing.AnswerHasNoRepeats` | src/FEATURED_PRODUCTS/featured-products.service.ts:309-446 | A whole answer, the fallbacks of a short first page included, holds no product twice, no more than asked for, and only products that pass the filter; its fallbacks are on no page's share of the queue, and there are none at position 1, after the first page or for an empty queue |
| `FeaturedListing.FirstPageFilled` | src/FEATURED_PRODUCTS/featured-products.service.ts:313-337 | Elsewhere a short first page asks for as many other products as are missing, or as there are among 4 times that many recent ones, and shows exactly those that pass: all of them where all pass |
| `Invoices.ChainedNamesDistinct` | src/INVOICE/invoice.service.ts:33-53 | Under the history invariant live names are pairwise distinct and the next name is free |
| `Invoices.CreateAppends` | src/INVOICE/invoice.service.ts:32-61 | A create takes one id; it appends the row of that id, named `NXME000125` and, in digits, the id of a row that none is newer than, if there is one; or it leaves the rows |
| `Invoices.CreateKeepsChain` | src/INVOICE/invoice.service.ts:33-86 | A create with a later clock keeps the invariant and is not rejected for its name |
| `Invoices.DeleteKeepsChain` | src/INVOICE/invoice.service.ts:182-188 | Any hard delete keeps the invariant and removes exactly that row |
| `Invoices.RunKeepsNamesDistinct` | src/INVOICE/invoice.service.ts:33-188 | In every run of creates and deletes under an advancing clock live invoices have pairwise distinct names |
| `Invoices.CreateAlwaysSucceeds` | src/INVOICE/invoice.service.ts:33-61 | In such a run the unique column never rejects a create |
| `Invoices.RejectedExactly` | src/INVOICE/invoice.service.ts:33-61 | Under any clock, a create is rejected exactly when a live invoice was created while the invoice that is the latest now was the latest then |
| `Invoices.ClockStepsBack` | src/INVOICE/invoice.service.ts:38-45 | A clock that steps back makes a create fail |
| `Invoices.InvoiceService.CreateInvoice` | src/INVOICE/invoice.service.ts:32-92 | A create appends one invoice with a free name or leaves the rows as they were, for any table and clock |
| `Invoices.InvoiceService.DeleteInvoice` | src/INVOICE/invoice.service.ts:182-194 | A delete removes exactly the row asked for, or reports that there is none |

## Left out

- HTTP controllers, guards, request validation, token signing, webhook signatures, mails, notifications, uploads and PDF rendering: inputs, or no effect on the modelled tables.
- Calls to payment gateways: their answers are parameters; only BudPay's own interpretation of an answer is modelled. The seller-profile check before a BudPay charge may only refuse it.
- Floating-point rounding: prices and charges are exact kobo; a share of a delivery amount is an exact real.
- `GuestOrders`: products are found by numeric id; the fallbacks by public id or by store, name and image are reached only for ids the pricing step has already refused. Order payment and status rows, delivery dates, addresses and notes are not kept.
- `GuestRaces.OneBatchExactly`: the check and the transaction are the two atomic moves of a call; the mails after the transaction, and reconciliations interleaved with calls, are not moves. Elsewhere one call is one atomic step.
- `GuestReconciliation.PendingIdsAre`: checkouts are known by position and listed oldest first; ties of creation time are not modelled. Changes to checkouts by webhooks are not events of the runs.
- `GuestCharges.ChargeBecomesOrder`: case folding is that of ASCII text. Request validation is not part of this model; it admits only e-mail addresses (src/ORDER/dto/create-guest-order.dto.ts:17-20), so that an address with spaces at its ends, which the gate would refuse, is not expected to reach the service.
- `GuestRuns.CreateKeepsNumbers`: a new order gets the id after the last one's; the source's sequence may also skip ids after a rollback, which leaves them distinct and growing, and the results about asking again need no more.
- `BudPay.AcceptedAnswers`: amounts are plain decimals without sign or exponent; other texts `Number` accepts count as no number.
- `DeliveryServices.DeliveryService.AcceptOrder`: duplicate-ignoring insertion is not modelled; the invariant shows a duplicate link is never inserted. Approval of drivers and companies does not change during a run, and ids compare as numbers.
- Delivery calls other than `driverSelectOrder` are atomic, also the two writes of an accepted invitation and of an accepted order. Status changes of delivery orders by other services are not part of the runs.
- `FeaturedRotation.RotationState.RotatePositionIfDue`: the whole row is written, where the object mapper writes changed columns only. A boost's day is 24 hours.
- `FeaturedRaces.ClaimedOnceAdvancedOnce`: the queue is fixed and saved lists are full, so that only the timer makes a rotation due; forced rotations skip the claim and are not moves, and all instances ask for the same batch size. With a queue short of a batch at position 1 no saved list is full.
- `FeaturedListing.PagesListEveryProductOnce`: primary products only; `FeaturedListing.AnswerHasNoRepeats` is about the fallbacks of a first page. The sort is any stable sort.
- `Invoices.RunKeepsNamesDistinct`: creates are serial; of rows with equal creation times the later one counts as latest. Amounts and addresses of invoices are not kept.
- Marketplace feeds, carts, addresses, banners, charge tables and the other services: plain reads and writes of rows.
