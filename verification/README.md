# Verified model of the shop backend

This project models the parts of a multi-vendor shop backend (Django) whose correctness spans several
tables or a whole run, and proves what those parts promise.

**The transaction core.** Stock rows, the append-only movement ledger, transfers between warehouses, orders
with items and seller fulfilments, payments, discounts with usages, and carts form one state (`Tables.Db`).
Each request is a function from a state to a result (`Operations`); a refused request leaves the state as it
was. `Shop.Database` is the same code in the form the source has it: a class whose methods loop over items,
change rows in place and restore them when a later step is refused. Every method is proved equal to its
request, and leads from a reachable state to a reachable one. `Invariants.Inv` collects what holds across the
tables, `Safety` proves that every request keeps it, and `Theorems` and `Lifecycles` state what follows for
every reachable state and for whole stretches of requests; `Effects` says for each request exactly when it is
accepted and what it then changes, in terms of the tables alone, and `Refusals` which reasons it is refused
for; `Examples` has runs from the empty shop. `Interleaving` runs checkouts, payments, cancellations and
movements at row-lock granularity instead, with uncommitted values, stale reads, commits and aborts;
`Contention` says what a buyer gets there, `Limits` runs the uses of one discount at its lock, `Attempts` the
payment attempts of one order, and `Joint` starts the row-lock machine at any reachable state. `Rereads` puts
other requests between the queries of one checkout; `Races` has runs of it from the empty shop.

**The report scheduler.** `Calendar` and `Scheduler` compute the next run with the source's arithmetic. The
source takes the UTC date of an instant but the local time of day, so a fixed offset is carried along, and
the promises ("strictly later", "least slot") are proved for exactly the offsets for which they hold, with a
failing instant for each of the others. `Workers` is the claim protocol of several workers.

**The permission cache.** `Permissions` proves that cached answers are the recomputed ones, over all runs of
role changes and time, and exactly how they can differ.

**Smaller parts.** `Cashflow` (partition of captured and refunded money by day, provider and currency),
`Slugs` (unique slugs) and `RecentlyViewed` (the list of the last twenty products).

Money columns hold whole units, while a percentage discount may be fractional. Exact amounts are kept in
hundredths (a percentage of a whole amount always is a whole number of hundredths) and the rounding of a
stored value is explicit: both half-up and half-even are modelled, and the bounds hold for any rounding to a
nearest unit. Table keys are positions; random order and payment numbers are therefore fresh by construction.

Results where the code does less than one might expect:

- A payment's amount equals the order's total when it is checked, but `mark_paid` recomputes the total from
  rounded parts, so a paid order's total can differ from its payment by one unit
  (`Theorems.PaidAmountAgainstTotal` says when, `Examples.PaidTotalDiffers` is a run).
- A checkout that leaves less than a unit that rounds up, through its discount or because every line costs
  nothing (`Lifecycles.FreeCheckoutExactly`), makes an order that no payment can be opened for
  (`Theorems.AttemptCompletes`) and that can only be cancelled (`Lifecycles.FreeOrderNeverPaid`, with a run of
  either kind in `Examples.FreeOrderStuck`).
- Checkout's summed availability check is necessary but not sufficient (`Checkout.PreCheckIsNotSufficient`),
  and under concurrency a stale read can refuse a cart that could be served
  (`Contention.StaleReadRefusesServable`). A refusal at a row that was read with room always goes back to a
  commit in between. A buyer that looks again before it gives up could not have been served at that moment by a
  checkout run alone (`Contention.GivesUpOnlyIfUnservable`), and while nobody else commits a row change first fit
  with fresh reads is complete (`Contention.FreshPicksComplete`).
- Checkout queries the cart again for the subtotal, the items and the discount, and locks nothing of it. A line
  added in between can be sold but not billed (`Races.AddedLineNotBilled`), an emptied cart billed but not sold
  (`Races.EmptiedCartBilled`), and a discount taken that exceeds the subtotal (`Races.DiscountExceedsSubtotal`).
  `Rereads.SubtotalExactly` and `Rereads.DiscountWithinExactly` say exactly when the money is right, in terms of
  the requests in between, and `Rereads.AmidKeepsOthers` that everything else is kept. One cart can become two
  orders (`Races.OneCartTwoOrders`; `Rereads.SecondCheckout` says when). The results on the money of reachable
  orders in `Theorems` and `Lifecycles` are about carts that do not change during their own checkout.
- East of UTC, a daily schedule before the offset, and a monthly one on the first, can fail to move forward
  (`Scheduler.AdvancesExactly`), and then one occurrence can be processed twice (`Workers.StalledPlanRepeats`).
  The configured timezone is UTC, where everything holds (`Scheduler.LeastInUtc`).
- A role that expires at the very instant at which its holder's permissions are cached is served for up to an
  hour (`Permissions.ExpiryAtFillServedForAnHour`); `Permissions.DisagreementExactly` says exactly when a cached
  answer is not the recomputed one.
- The daily series of a named period has no point for today at the stroke of local midnight
  (`Cashflow.PeriodDays`).

## Model

| member | source | states |
|---|---|---|
| `Inventory.RecordKeepsLedger` | apps/inventory/models.py:403-441 | saving a movement keeps the ledger: after = before + quantity, successive movements of a row chain, signs match kinds, and every row's quantity is the sum of its movements, with 0 ≤ reserved ≤ quantity |
| `Inventory.RecordMovesUnits` | apps/inventory/models.py:425-436 | a movement changes the product's units over all warehouses by its quantity, and no other product's |
| `Inventory.RecordAppends` | apps/inventory/models.py:381-441 | exactly one movement is appended, with the given product, warehouse, kind, quantity and reference; earlier ones are untouched |
| `Effects.RecordedExactly` | apps/inventory/models.py:403-441 | a movement is saved iff its quantity has its type's sign and leaves the row at least its reserved units; it records the row's units before and after, and no other row changes |
| `Refusals.MovementRefusals` | apps/inventory/models.py:363-436 | the reason that a movement is refused for is the true one |
| `Effects.MovedByHand` | apps/inventory/serializers.py:209-253 | by hand exactly purchases, returns, adjustments and damages can be moved |
| `Reservations.ReleaseItemsEffect` | apps/orders/models.py:316-330 | releasing covered items one by one never fails and lowers each row's reservation by exactly the items held there |
| `Reservations.PayItemsEffect` | apps/payments/models.py:203-226 | the release-and-sell loop over covered items never fails; each row loses its items from reservation and quantity, and one sale per item naming the payment is appended in order |
| `Checkout.FirstFitComplete` | apps/orders/serializers.py:765-789 | with each product once per cart, the item-by-item loop succeeds iff every line alone has an active row with room in the starting stocks, and each line gets the lowest such row |
| `Checkout.CartOrderIsIrrelevant` | apps/orders/serializers.py:711-727 | any order of the same cart lines succeeds or fails alike and reserves the same rows |
| `Checkout.PreCheckAdmitsServable` | apps/orders/serializers.py:643-648 | the summed-availability check never turns away a cart the loop could serve |
| `Checkout.PreCheckIsNotSufficient` | apps/orders/serializers.py:643-648 | a cart that passes the check and that the loop refuses |
| `Effects.DiscountAmountExactly` | apps/discounts/models.py:209-226 | a fixed discount takes its value or, of less, the whole eligible part; a percentage its hundredths of the eligible part or, when that is more, its cap; and the amount is positive and within the eligible part, that within the cart |
| `Effects.DiscountAdmittedExactly` | apps/discounts/models.py:228-252 | a check succeeds iff the discount is active, has begun and not ended (both ends included), was used less often than both limits say, the cart read first reaches the minimum and the cart read last has an eligible part to take from |
| `Refusals.DiscountRefusals` | apps/discounts/models.py:228-252 | the reason that a check gives is the true one: what it names does fail |
| `Effects.EligibleLineByLine` | apps/discounts/models.py:177-207 | a line counts iff its product or its category is named, or nothing is; it then counts with its price times its quantity |
| `Effects.DiscountCreated` | apps/discounts/models.py:135-148 | which terms are accepted, and that they are stored as given, unused |
| `Pricing.StoredMoneyBounds` | apps/orders/models.py:249-278 | for any rounding to a nearest unit of discount and total: the discount stays within the subtotal, the zero clamp never fires, stored and recomputed total differ by at most 1, and by 0 unless the fraction is one half |
| `Pricing.RecomputedTotalDiffers` | apps/orders/models.py:188-191 | under half-up they differ iff the discount's fraction is one half; under half-even iff also the gross amount is odd |
| `Safety.WaitingOrderSells` | apps/payments/models.py:203-226 | for a waiting order the sell loop succeeds in every state that satisfies the invariants, keeps the ledger and takes the order's units out |
| `Safety.WaitingOrderReleases` | apps/orders/models.py:316-330 | for a waiting order the release loop succeeds, and reservations again match the unpaid orders |
| `Safety.PlaceOrderKeeps` | apps/orders/serializers.py:631-763 | checkout keeps every invariant |
| `Safety.MarkSuccessKeeps` | apps/payments/models.py:163-328 | payment success keeps every invariant |
| `Safety.CancelOrderKeeps` | apps/orders/models.py:298-389 | cancellation keeps every invariant |
| `Safety.PerformKeeps` | apps/inventory/models.py:596-800 | every request, the transfer steps included, keeps every invariant |
| `Safety.RunsAreSafe` | apps/orders/serializers.py:631-763 | the invariants hold after every sequence of requests from the empty shop |
| `Theorems.ReservationsMatchOrders` | apps/inventory/models.py:215-265 | in every reachable state each row's reservation is the sum of its items in unpaid orders, between 0 and the quantity |
| `Theorems.UnitsAreConserved` | apps/inventory/models.py:629-768 | units in warehouses plus units in transit are the net manual movements minus the units of paid orders, for every product |
| `Theorems.LedgerChains` | apps/inventory/models.py:403-441 | successive movements of one row continue each other: next before = previous after |
| `Theorems.LedgerRefinesCounters` | apps/inventory/models.py:403-441 | a row's quantity is what its last movement recorded and the sum of all its movements |
| `Theorems.LedgerEntriesMatchWorkflows` | apps/inventory/models.py:665-749 | for every number: a successful payment has exactly one sale per item and any other number none; a transfer has none, its OUT, or its OUT and IN movement, by status |
| `Theorems.PaymentCompletes` | apps/payments/models.py:163-243 | completing a payment succeeds iff it is pending, the time is aware and the gateway reference is not taken: order state, amount, warehouses and stock never refuse it |
| `Refusals.SuccessRefusals` | apps/payments/models.py:163-243 | the four reasons for which a success is refused in a reachable state, each true; never the order, the amount or the stock |
| `Effects.ReferencesInUse` | apps/payments/models.py:124-141 | the references taken are the non-empty ones of the provider's other captures |
| `Effects.SuccessOnPayments` | apps/payments/models.py:228-319 | the attempt succeeds with the reference, the order's other pending attempts are cancelled, every other payment stays |
| `Effects.SuccessOnOrders` | apps/payments/models.py:240-290 | the order is paid with every fulfilment, its total recomputed and its history extended; other orders and tables stay |
| `Effects.SuccessOnRows` | apps/payments/models.py:203-226 | each row loses the order's units there, from quantity and reservation |
| `Effects.SuccessOnLedger` | apps/payments/models.py:203-226 | one sale per item, in order, in the item's product and warehouse and for its quantity, naming the payment |
| `Effects.AttemptEnds` | apps/payments/models.py:330-401 | only a pending attempt can fail, only a pending or failed one be cancelled; it becomes failed, or cancelled, and nothing else changes |
| `Theorems.CancellationCompletes` | apps/orders/views.py:282-309 | cancelling succeeds iff the order waits for payment and the caller is staff or its owner |
| `Refusals.CancelRefusals` | apps/orders/models.py:298-315 | a stranger is told that there is no such order, everyone else that it does not wait |
| `Effects.CancelledOrders` | apps/orders/models.py:298-389 | the order is cancelled with its history, its total recomputed, its fulfilments as they were; other orders, transfers, carts and movements stay |
| `Effects.CancelledAttempts` | apps/orders/models.py:345-365 | exactly its pending attempts become cancelled |
| `Effects.CancelledUses` | apps/orders/models.py:332-343 | its use is removed and counted down by one; without a use no discount changes |
| `Effects.CancelledRows` | apps/orders/models.py:316-330 | each row's reservation falls by the order's units there, no quantity changes |
| `Theorems.TransferLegsComplete` | apps/inventory/models.py:629-768 | receiving fails only for a wrong status or a user not assigned; shipping also exactly when unreserved units are missing |
| `Refusals.ShipRefusals` | apps/inventory/models.py:629-663 | goods issue is refused for its status, its user or missing unreserved units, each only when true |
| `Refusals.ReceiptRefusals` | apps/inventory/models.py:702-732 | goods receipt only for its status or its user |
| `Effects.TransferRequested` | apps/inventory/serializers.py:424-527 | a transfer can be requested iff both warehouses are active and different and the source has the units unreserved |
| `Effects.TransferDecided` | apps/inventory/models.py:596-627 | approving takes a requested transfer and someone other than its requester, cancelling a requested or approved one and again someone else; what they change and nothing more |
| `Effects.ShippedExactly` | apps/inventory/models.py:629-700 | goods issue lowers the source's row by the quantity with one OUT movement of the right counters, and moves the status; no other row, and no reservation |
| `Effects.ReceivedExactly` | apps/inventory/models.py:702-768 | goods receipt raises the destination's row likewise with one IN movement |
| `Effects.CheckoutExactly` | apps/orders/serializers.py:631-763 | checkout succeeds iff the cart has lines, each line alone has a row of its product in an active warehouse with enough unreserved units, and the discount is admitted at validation and again at creation |
| `Refusals.CheckoutRefusals` | apps/orders/serializers.py:631-675 | in every reachable state a checkout is refused only for a missing or empty cart, for a line that no row serves, or for a true reason of its discount at one of the two checks |
| `Effects.CheckoutItems` | apps/orders/serializers.py:711-740 | the order's items are the cart's lines in order, each with its product, seller, quantity and price, in the warehouse of the lowest row that serves it; the fulfilments are exactly those of the lines' sellers |
| `Effects.CheckoutOrder` | apps/orders/serializers.py:692-763 | the order is the user's, waits, unpaid, with every fulfilment; its subtotal, shipping, rounded discount, rounded total and first line of history |
| `Effects.CheckoutTables` | apps/orders/serializers.py:736-763 | the cart is emptied, the use is recorded with the stored amount and counted once; earlier orders, payments, transfers, movements, other discounts, uses and carts stay |
| `Theorems.AttemptCompletes` | apps/payments/serializers.py:158-235 | an attempt can be opened iff the order waits and its total is positive; the answer is pending, for that total, and new only if the provider had none pending |
| `Refusals.AttemptRefusals` | apps/payments/serializers.py:158-218 | the four reasons for which an attempt is refused, each true; never that a pending attempt has another amount |
| `Effects.AttemptOpened` | apps/payments/serializers.py:183-235 | a new attempt's payer is the order's owner, whoever opened it; it has no reference, and nothing else changes |
| `Theorems.StartsComplete` | apps/orders/serializers.py:548-579 | a seller can start exactly its paid fulfilments, an administrator exactly the paid orders |
| `Refusals.StartRefusals` | apps/orders/serializers.py:548-579 | a start is refused to who sells nothing in the order, before payment, or a second time, with the reason of its case |
| `Effects.StartEffect` | apps/orders/views.py:368-427 | the seller's own fulfilment is then in processing and the order with it; other fulfilments and orders stay, the history grows only if the order was paid, and the same seller cannot start again |
| `Effects.ProcessingEffect` | apps/orders/views.py:445-486 | an administrator's start moves the order and its history alone, no fulfilment, and cannot be repeated |
| `Theorems.PaidIffOneSuccess` | apps/payments/models.py:124-141 | an order is paid iff it has a successful payment, never two, and is then not cancelled |
| `Theorems.PendingAttempts` | apps/payments/serializers.py:183-218 | pending payments belong to waiting orders, one per order and provider, and ask for the current total |
| `Theorems.UsesWithinLimits` | apps/discounts/models.py:159-175 | used_count is the number of usages, and both limits hold |
| `Theorems.CountdownNeverSuppressed` | apps/orders/models.py:332-343 | cancelling always finds used_count positive, so the guard never suppresses the decrement |
| `Theorems.RunFreezes` | apps/orders/models.py:298-389 | over any run, an order that still waits is the same record with the same usage, and stock rows never disappear or change place |
| `Theorems.CheckoutThenCancel` | apps/orders/models.py:298-389 | checkout, any other requests, then cancelling: the cancellation takes back row by row what the checkout reserved, and its usage |
| `Theorems.CheckoutThenCancelCounters` | apps/orders/models.py:332-343 | and counts the discount down exactly where the checkout counted it up |
| `Theorems.CheckoutCancelRoundTrip` | apps/orders/models.py:298-389 | with nothing between, ledger, discounts and usages are restored |
| `Theorems.PayingKeepsAvailable` | apps/payments/models.py:203-226 | paying changes no row's available quantity |
| `Theorems.OrderMoney` | apps/orders/models.py:267-278 | every order's subtotal is the sum of its items, its discount within it, its total within 1 of the recomputed one and equal once paid or cancelled |
| `Theorems.CheckoutMoney` | apps/discounts/services.py:25-40 | what a checkout stores, with an exact discount or none: the rounded exact total, against gross minus the rounded discount |
| `Theorems.MoneyGap` | apps/orders/models.py:249-278 | the stored total is non-negative, within 1 of the recomputed one, and different exactly for lost halves |
| `Theorems.PaidAmountAgainstTotal` | apps/payments/models.py:198-199 | checkout, with a discount or without, any requests, payment: the paid amount is the total stored at checkout and within 1 of the order's final total, with the exact condition for equality, which always holds without a discount |
| `Examples.PaidTotalDiffers` | apps/orders/models.py:280-296 | a run from the empty shop, under either rounding, that ends with a payment of 2 for an order of total 1 |
| `Lifecycles.FreeCheckoutExactly` | apps/discounts/models.py:209-226 | exactly which checkouts leave nothing to pay; without a discount, those where every line and the shipping cost nothing |
| `Lifecycles.FreeOrderNeverPaid` | apps/payments/serializers.py:158-181 | over any run a waiting order with nothing to pay is the same record or cancelled |
| `Examples.FreeOrderStuck` | apps/payments/serializers.py:178-179 | such an order is reachable, with a discount of the whole amount and with a free product, and is never paid whatever follows |
| `Lifecycles.RunMovesOrders` | apps/orders/models.py:249-389 | over any run what was ordered stays, the history only grows at its end, a waiting order is the same record or waits no more, a paid one stays paid, a cancelled one stays as it is |
| `Rereads.AloneIsAtomic` | apps/orders/serializers.py:631-763 | a checkout with nothing committed between its queries is the atomic request |
| `Rereads.ChangesAddUp` | apps/orders/models.py:47-62 | over any run a cart's worth, in whole or for a discount, moves by exactly what its accepted requests add, remove, reprice or empty |
| `Rereads.ReadsUsed` | apps/orders/serializers.py:692-747 | which query decides what: the subtotal, the items (line by line), the discount's minimum and its amount |
| `Rereads.SubtotalExactly` | apps/orders/serializers.py:695-727 | for any requests in between, the items' sum exceeds the subtotal by exactly the changes between the two queries, so they agree iff these come to nothing |
| `Rereads.DiscountWithinExactly` | apps/discounts/services.py:25-40 | for any requests in between, exactly when the stored discount is within the stored subtotal, from what was eligible at the subtotal's query and what became eligible since; and exactly when the total is clamped at zero |
| `Rereads.WithinUnlessAdded` | apps/discounts/models.py:177-226 | it is within whenever nothing becomes eligible on balance |
| `Rereads.LockedTablesStay` | apps/orders/serializers.py:694-740 | from the stock's lock to the end nothing but carts changes, so stock and discount are those that were locked |
| `Rereads.AmidKeepsOthers` | apps/orders/serializers.py:694-763 | whatever commits in between, every invariant but the new order's own money and goods is kept: ledger, reservations, conservation, payments, counters and limits |
| `Rereads.SecondCheckout` | apps/orders/serializers.py:677-763 | when a second checkout of a cart gets an order: the goods exactly when it queried the items before the first one's commit and they still fit; later an order without items; with a discount never |
| `Races.AddedLineNotBilled` | apps/orders/serializers.py:695-727 | a run from the empty shop that sells goods for 13 and bills 3 |
| `Races.EmptiedCartBilled` | apps/orders/serializers.py:695-727 | a run that bills 3 for an order without items |
| `Races.DiscountExceedsSubtotal` | apps/discounts/services.py:31-35 | a run that takes 13 off a subtotal of 3 and clamps the total at 0 |
| `Races.OneCartTwoOrders` | apps/orders/serializers.py:711-761 | a run that makes two orders of one cart |
| `Theorems.FulfilmentsMatchOrder` | apps/orders/views.py:368-437 | one fulfilment per seller with an item, in a state the order's status allows; the history is a connected path from nothing to the current status |
| `Inventory.ReleaseUndoesReserve` | apps/inventory/models.py:223-243 | a reservation succeeds iff it is positive and within the available units, takes them from its row only, keeps 0 ≤ reserved ≤ quantity, and releasing as many undoes it |
| `Inventory.ReserveUndoesRelease` | apps/inventory/models.py:245-265 | a release succeeds iff it is positive and within the reserved units, frees them in its row only, keeps the bounds, and reserving as many undoes it |
| `Shop.Database.SaveMovement` | apps/inventory/models.py:403-441 | in place: the row is found or created, checked and changed, and the movement appended; or nothing changes |
| `Shop.Database.ReserveFromFirstAvailable` | apps/orders/serializers.py:765-789 | the loop reserves at the first fit, or changes nothing |
| `Shop.Database.ReserveLines` | apps/orders/serializers.py:711-727 | the loop over cart lines reserves all of them or restores the stock |
| `Shop.Database.CreateOrder` | apps/orders/serializers.py:677-763 | for whatever each query of the cart found: reservations, order, discount and emptied cart together, or everything restored |
| `Shop.Database.PlaceOrder` | apps/orders/serializers.py:631-763 | checkout is all or nothing, equals its request and leaves a reachable state |
| `Shop.Database.ValidateForCart` | apps/discounts/models.py:228-252 | the checks, with totals accumulated by the loops over the two queries of the cart, pass iff the discount is admitted, and give the amount it takes: the value or the whole eligible part, the hundredths or the cap |
| `Shop.Database.ApplyDiscount` | apps/discounts/services.py:25-49 | revalidates, reprices the order, records the usage and counts it, or changes nothing |
| `Shop.Database.CartSubtotal` | apps/orders/models.py:47-56 | the accumulating loop is the sum of the line totals |
| `Shop.Database.Eligible` | apps/discounts/models.py:177-207 | the accumulating loop is the sum over targeted lines, or the subtotal without targets |
| `Lifecycles.CartAdditionExact` | apps/orders/views.py:73-108 | adding succeeds iff the product is approved and its units in the cart stay within the summed availability; the cart gains exactly these units at the given price, other products and other carts keep theirs |
| `Effects.LineAdded` | apps/orders/views.py:86-108 | a new line goes in front as given; a line of the same product is raised and repriced where it is; only this cart changes |
| `Effects.LineUpdated` | apps/orders/views.py:129-141 | a quantity can be set iff the product is in the cart and has it available; quantity and price of that line change, and nothing else |
| `Effects.LineRemoved` | apps/orders/views.py:146-150 | a product in the cart can be removed, and only its line goes |
| `Shop.Database.MarkSuccess` | apps/payments/models.py:163-328 | payment success is all or nothing and equals its request |
| `Shop.Database.SellItems` | apps/payments/models.py:203-226 | releases and sells every item, or restores rows and ledger |
| `Shop.Database.PayFulfilments` | apps/payments/models.py:253-281 | each seller with an item has a fulfilment and none of these still waits |
| `Shop.Database.CancelOtherAttempts` | apps/payments/models.py:292-319 | exactly the other pending attempts of the order become cancelled |
| `Lifecycles.EndedAttemptCanBeRetried` | apps/payments/models.py:330-364 | a failed or cancelled pending attempt leaves stock, reservations and order as they were, and the owner can open a new one for the same amount at once |
| `Lifecycles.RunMovesAttempts` | apps/payments/models.py:330-401 | over any run an attempt keeps its order, payer, provider and amount; successes and cancellations are final, a failed attempt can only be cancelled |
| `Shop.Database.CreatePayment` | apps/payments/serializers.py:158-235 | the pending attempt is reused, or a new one added |
| `Shop.Database.CancelOrder` | apps/orders/models.py:298-389 | cancellation is all or nothing and equals its request |
| `Shop.Database.ReleaseOrder` | apps/orders/models.py:316-330 | releases every item with a warehouse, or restores the stock |
| `Shop.Database.StartFulfilment` | apps/orders/views.py:368-427 | the seller's own fulfilment is in processing afterwards, the other ones are as before, and a paid order starts with it |
| `Shop.Database.StartProcessing` | apps/orders/views.py:445-486 | a paid order starts, and its fulfilments stay |
| `Lifecycles.TransferEndToEnd` | apps/inventory/serializers.py:424-527 | a requested transfer approved by someone else ships and arrives at once, and end to end moves exactly its units from source to destination; no other row's quantity changes, and no reservation |
| `Lifecycles.ApprovedBySomeoneElse` | apps/inventory/models.py:596-627 | in every reachable state a transfer past its request was approved by someone other than its requester |
| `Shop.Database.ShipTransfer` | apps/inventory/models.py:629-700 | the OUT movement and the status change together or not at all |
| `Shop.Database.ReceiveTransfer` | apps/inventory/models.py:702-768 | the IN movement and the status change together or not at all |
| `Lifecycles.RunMovesTransfers` | apps/inventory/models.py:596-800 | over any run a transfer keeps what it moves and its approver, passes its stages in order, can be cancelled only before it leaves, and its end states are final |
| `Interleaving.StepKeeps` | apps/orders/serializers.py:711-727 | every event of the row-lock machine keeps its invariant |
| `Interleaving.InterleavingsAreSafe` | apps/orders/serializers.py:711-727 | so does every interleaving |
| `Interleaving.ReservationsUnderInterleaving` | apps/inventory/models.py:223-265 | in every interleaving a row's current reservation is what committed unpaid orders hold plus what transactions in flight added or released, within 0 and the quantity; the committed row matches the committed orders alone |
| `Interleaving.SettlementNeverFails` | apps/payments/models.py:203-226 | in every interleaving, a payment or cancellation that gets its next row lock is not refused there |
| `Interleaving.CommitsAreSerial` | apps/payments/models.py:171-226 | every commit changes the committed rows and orders as serial steps at that moment: a payment, cancellation or movement (to a row that exists or is created) as run alone; a checkout as reserving its cart's lines, in order, each at the row it picked |
| `Interleaving.OnlyCommitsPublish` | apps/orders/serializers.py:690-692 | no event but a commit changes committed rows or orders, and a transaction that is refused or aborted leaves no value, row or lock behind |
| `Contention.ProbeExact` | apps/inventory/models.py:228-236 | a buyer with the lock of a row is rolled back there iff the row has too little left under the lock |
| `Contention.StaleRefusalMeansCommit` | apps/orders/serializers.py:775-785 | in every interleaving a row read with room that refuses later lost it to another transaction's commit in between |
| `Contention.FreshPicksComplete` | apps/orders/serializers.py:765-789 | in every interleaving where a buyer picks from its current view and nobody else commits a row change, it gives up only if some line fitted no row, reaches its end only if every line did, then holds each at its first fit, and otherwise has a next pick |
| `Contention.FreshRunEnds` | apps/orders/serializers.py:711-727 | alone with the rows, such a run exists that comes to its end |
| `Contention.FreshPickIsCommitted` | apps/orders/serializers.py:775-785 | in every reachable interleaving state, whatever others commit, a fresh pick of a buyer of distinct products is the first fit of the committed rows |
| `Contention.GivesUpOnlyIfUnservable` | apps/orders/serializers.py:775-789 | in every interleaving a buyer that finds no row could not have been served then by a whole checkout run alone on the committed rows |
| `Contention.OneSettlement` | apps/payments/models.py:171-196 | no interleaving commits two settlements of one order: not two payments, nor a payment and a cancellation |
| `Contention.StaleReadRefusesServable` | apps/orders/serializers.py:775-785 | a run in which a stale availability read refuses a cart that another row could serve |
| `Limits.CountsExactly` | apps/discounts/services.py:25-40 | the recheck under the lock lets a checkout count iff both limits leave room, and refuses it otherwise |
| `Limits.UsesChangeExactly` | apps/discounts/services.py:24-49 | in every state the machine keeps, a commit adds or removes exactly one use and moves the counter with it, and nothing else changes either |
| `Limits.LimitsUnderInterleaving` | apps/discounts/services.py:24-49 | in every interleaving of checkouts and cancellations at the discount's lock, the counter is the number of usages, both limits hold and a cancellation always has something to count down |
| `Attempts.ChecksExactly` | apps/payments/models.py:171-196 | what the checks under the locks let through, for opening, completing, ending and cancelling the order |
| `Attempts.CommitsExactly` | apps/payments/models.py:228-319 | what each commit does to the attempts and to the order |
| `Attempts.AttemptsUnderInterleaving` | apps/payments/serializers.py:183-218 | in every interleaving of opening, completing, failing and cancelling attempts and cancelling the order, at their locks: never two pending attempts of one provider, never two successes, none pending once the order is paid or cancelled |
| `Joint.ReachableIsQuiet` | apps/inventory/models.py:215-265 | every reachable state of the requests is a starting point of the row-lock machine |
| `Joint.ReservationsFromReachable` | apps/inventory/models.py:223-265 | from every reachable state, every interleaving keeps the committed reservations equal to the committed unpaid orders, within the quantities |
| `Calendar.FirstDayIsOrdinal` | apps/analytics/models.py:232-237 | counting month by month agrees with the Gregorian ordinal formula for every year and month |
| `Calendar.DateInMonth` | apps/analytics/models.py:232-237 | the dates of a month, counted day by day with the twelve month lengths and the leap rule written out, are those its first day and length give |
| `Calendar.KnownWeekdays` | apps/analytics/models.py:188-199 | 1 January 2024 is a Monday, 29 February 2024 a Thursday and 1 January 2000 a Saturday, by dates counted day by day |
| `Scheduler.OneSlotEachMonth` | apps/analytics/models.py:232-237 | a monthly slot is at the plan's time on a local date whose day is the target, or below it and the last of its month; each month of each year has exactly one, the computed one |
| `Scheduler.DailyNextIs` | apps/analytics/models.py:180-186 | the daily next run is at the plan's local time on the date of the instant when that is later, else on the next date |
| `Scheduler.WeeklyNextIs` | apps/analytics/models.py:188-205 | the weekly one on the first such weekday from that date on when that is later, else seven days after it |
| `Scheduler.MonthlyNextIs` | apps/analytics/models.py:207-230 | the monthly one is the slot of the instant's month when that is later, else the slot of the month after |
| `Scheduler.FirstCandidateIs` | apps/analytics/models.py:239-250 | an every-N-days plan starts at its local time N days after the date of the last run, or on the date of the instant |
| `Scheduler.DailyExact` | apps/analytics/models.py:180-186 | exactly when the daily next run is strictly later, and exactly when it is the least slot, for any offset |
| `Scheduler.WeeklyExact` | apps/analytics/models.py:188-205 | the weekly next run is always strictly later, and exactly when it is the least slot |
| `Scheduler.MonthlyExact` | apps/analytics/models.py:207-230 | exactly when the monthly next run is strictly later |
| `Scheduler.MonthlyLeastExact` | apps/analytics/models.py:207-237 | exactly when it is the least monthly slot later than the instant, the slots defined by their local dates alone |
| `Scheduler.EveryExact` | apps/analytics/models.py:239-252 | start + k·N days: the least one strictly later, for any offset |
| `Scheduler.FirstCandidateSuffices` | apps/analytics/models.py:239-250 | exactly when the loop takes no iteration after a run; never at offset 0 does it take one |
| `Scheduler.AdvancesExactly` | apps/analytics/models.py:140-155 | the plans and offsets for which the next run is strictly later for every instant, as an if and only if |
| `Scheduler.PicksLeastExactly` | apps/analytics/models.py:140-155 | the plans and offsets for which it is the least slot for every instant, as an if and only if |
| `Scheduler.LeastInUtc` | apps/analytics/models.py:140-155 | at offset 0 every plan's next run is the least slot strictly later |
| `Scheduler.ReportSchedule.CalculateNextRun` | apps/analytics/models.py:140-155 | dispatch on the frequency, equal to the specification |
| `Scheduler.ReportSchedule.CalculateEveryNDays` | apps/analytics/models.py:239-252 | the loop terminates at the specified candidate |
| `Scheduler.ReportSchedule.UpdateNextRun` | apps/analytics/models.py:157-166 | the run is remembered and the next one computed from it, strictly later when the plan advances |
| `Workers.ProcessExactly` | apps/analytics/tasks.py:92-112 | a schedule still due at the worker's time is processed once, with its next run computed from the present; another one is passed over |
| `Workers.ListsExactly` | apps/analytics/tasks.py:76-86 | a worker starts with at most fifty schedules, all active and due then |
| `Workers.ProcessKeeps` | apps/analytics/tasks.py:92-112 | a recheck under the lock that finds the schedule due moves its next run strictly forward |
| `Workers.NoOccurrenceTwice` | apps/analytics/tasks.py:76-117 | with any number of workers and overlapping stale lists, no occurrence is processed twice |
| `Workers.StalledPlanRepeats` | apps/analytics/tasks.py:92-112 | for every plan that does not advance, a run that processes one occurrence twice |
| `Permissions.TablesAnswer` | apps/rbac/utils.py:45-58 | the tables, and a check without a live entry, allow a user exactly what some role gives: active, not past its expiry, and with the permission |
| `Permissions.AfterRemove` | apps/rbac/utils.py:128-137 | after a role is removed its user is allowed exactly what another role gives |
| `Permissions.RemovedGivesNothing` | apps/rbac/utils.py:128-137 | and after any events that do not give it back, cached or not, a yes comes from another role |
| `Permissions.AfterAssign` | apps/rbac/utils.py:97-125 | after a role is assigned until an instant its user is allowed what the role has until then, and what other roles give |
| `Permissions.AfterAllow` | apps/rbac/signals.py:28-34 | a permission added to a role is allowed at once to whoever has the role, cached entries included |
| `Permissions.AfterDisallow` | apps/rbac/signals.py:28-34 | a permission taken from a role is refused at once to whoever has it from no other role |
| `Permissions.WritesNameTheirs` | apps/rbac/utils.py:97-137 | a write changes no grant and no role permission but those it names |
| `Permissions.FixedAnswers` | apps/rbac/utils.py:86-94 | superusers are always allowed, anonymous users never |
| `Permissions.LifetimeExact` | apps/rbac/utils.py:60-68 | an entry lives an hour, or the whole seconds to the next expiry of an active role but at least one, whichever is less |
| `Permissions.AnswersAreCurrent` | apps/rbac/utils.py:23-94 | on whole seconds every cached answer after every run is the recomputed one, unless a role expires at the second of the fill |
| `Permissions.DisagreementExactly` | apps/rbac/utils.py:60-68 | on any clock, after every run, a cached answer differs from the recomputed one iff the entry is live, it outlived a role with the permission (expired at the fill, or within the fill's second), and no counting role gives it |
| `Permissions.WholeSecondDisagreementExactly` | apps/rbac/utils.py:60-68 | on whole seconds they differ iff the live, earlier entry was filled at the very second at which a role with the permission expired, and no counting role gives it |
| `Permissions.RolesSinceFill` | apps/rbac/models.py:148-153 | cached and recomputed roles differ exactly by the roles that expired since the fill |
| `Permissions.StaleRole` | apps/rbac/utils.py:60-68 | a live entry outlasts a role's expiry only in the clamped second or when the expiry is the fill instant |
| `Permissions.EntrySurvives` | apps/rbac/signals.py:15-34 | an entry stays right across writes that leave the user's roles and their permissions as they were |
| `Permissions.ExpiryAtFillServedForAnHour` | apps/rbac/utils.py:60-68 | the strict and non-strict comparisons meet: a role expiring at the fill instant is served for the whole hour |
| `Permissions.Service.Compute` | apps/rbac/utils.py:45-58 | the nested loops collect exactly the permissions of counting roles |
| `Permissions.Service.GetUserPermissions` | apps/rbac/utils.py:23-70 | the live entry, or a computed and stored one |
| `Permissions.Service.ClearRole` | apps/rbac/utils.py:78-83 | exactly the entries of users with an active grant of the role go |
| `Cashflow.DaysAddUp` | apps/analytics/financial_reporting.py:138-186 | for every bounded window the daily totals of a currency add up to its total, for captured and refunded money and counts |
| `Cashflow.EventsWithinDays` | apps/analytics/financial_reporting.py:144-152 | no event of the window falls outside first_day..last_day |
| `Cashflow.ProvidersAddUp` | apps/analytics/financial_reporting.py:189-202 | so do the provider rows, in any order |
| `Cashflow.GroupsAddUp` | apps/analytics/financial_reporting.py:23-68 | any distinct groups that catch every event of a currency partition its total |
| `Cashflow.BuildGroupedCashflow` | apps/analytics/financial_reporting.py:71-115 | every bucket is the exact total of its group, and only groups with events have one |
| `Cashflow.BuildDailySeries` | apps/analytics/financial_reporting.py:137-186 | one point per day in order, each the exact total of its day, refused without a start |
| `Cashflow.SeriesAddsUp` | apps/analytics/financial_reporting.py:137-186 | the points of a series sum to the summary's totals of its currency |
| `Cashflow.GetFinancialCashflow` | apps/analytics/financial.py:211-247 | the summary's buckets are the exact totals, for exactly the currencies with an event |
| `Cashflow.CustomDays` | apps/analytics/financial.py:38-59 | a custom window has exactly its dates |
| `Cashflow.CustomWindowExactly` | apps/analytics/financial.py:54-59 | an event is in a custom window iff its local date is within the two dates |
| `Cashflow.PeriodWindowExactly` | apps/analytics/financial.py:68-84 | and in a named period iff it is before now and its local date is among the last so many days |
| `Cashflow.TotalOneByOne` | apps/analytics/financial.py:87-119 | a payment adds its amount, or one, to the total of its currency iff its event is in the window |
| `Cashflow.PeriodDays` | apps/analytics/financial.py:68-84 | a named period ends today, except at the stroke of local midnight |
| `Slugs.GenerateUniqueSlug` | apps/content/models.py:7-18 | a slug no other row has, with the least counter, within one more probe than there are slugs |
| `Slugs.CandidatesDiffer` | apps/content/models.py:15-16 | different counters give different slugs |
| `Slugs.Pigeonhole` | apps/content/models.py:14-16 | if the first n slugs are taken, at least n slugs are |
| `RecentlyViewed.TableIsMostRecent` | apps/products/signals.py:13-27 | after any history at increasing times the rows are exactly the twenty products viewed last, each at its last time |
| `RecentlyViewed.MostRecentIsUnique` | apps/products/signals.py:13-27 | there is only one such table |
| `RecentlyViewed.Table.AddProduct` | apps/products/signals.py:13-27 | delete, insert and trim are one step of that history |

## Left out

- Shipping, settlements, refunds, returns, support and reviews: their order and payment states beyond
  processing and success are never reached here; `SETTLEMENTS_LEDGER_ENABLED` is off.
- Column widths: quantities and money are unbounded integers.
- Notifications, payment events, seller fulfilment history, free text and its required-ness, timestamps of
  rows, random numbers: no property depends on them.
- Request parsing, permission classes and querysets: product approval is the flag `listed`, a user's active
  warehouse membership (or superuser) the flag `member`, staff or superuser the flag `staff`.
- Product edits: the price that a request to a cart finds is a parameter of the request, and a line keeps the
  seller and category it was added with.
- Deleting products, warehouses or users, moving a role assignment to another user, editing permission names,
  demoting superusers; editing a discount after it exists, so limits are fixed during a run.
- Editing a movement: the source refuses a change of every field that is modelled.
- In the row-lock machine: the ledger, and payment rows (an attempt is a settlement of its order, a transfer leg a
  movement); deadlock and lock timeouts are aborts. Discounts and attempts have machines of their own, one
  discount and one order at a time.
- In `Rereads`: after the stock is locked only requests to carts commit, and all of a checkout's rows are locked
  at one moment; its validation reads the cart once. Requests after such a checkout are not followed further.
- Schedules: daylight saving (the offset is fixed), years beyond those of the calendar type, edits and
  deactivation during a run, the report rows and files themselves.
- `Permissions.AnswersAreCurrent`: does not cover a fill that races with a write, nor a clock that moves
  during a fill; a fill is one step at one instant, because the cache and the tables are different stores
  with no common transaction. Permission names are numbers and lists of them sets.
- The database's grouping query is taken as giving each group's sum and count once; the formatting of money
  as text and the order of the provider rows are not modelled.
- `slugify` is a parameter; numerals are the decimal ones.
- The recently viewed list is that of one user, with increasing times.
