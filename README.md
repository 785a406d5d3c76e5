# Gatherly backend core in Dafny

Gatherly is an event-ticketing backend. Companies register their admins, who
manage users, events with ticket tiers, promo codes and tasks. Buyers create
orders that reserve tier counts, apply promo codes and pay through a payment
gateway. This project models the bookkeeping behind those requests and proves
properties of it:

- tier inventory (create, edit and delete an order; add, merge, patch, buy and
  delete tiers);
- the promo engine (apply, create, update, set status, the active listing and
  the nightly expiry sweep);
- the payment state machine (create, verify, read);
- the role and ownership rules of tasks, managed users and companies;
- the registration schema and the JWT token extractor.

Each Mongo collection is a `seq` field of one `Store.Database` object, and each
handler is a method over it. A handler checks its guards in the source's order.
It then either changes exactly what its `modifies` clause names, or fails and
leaves the database as it was. Every handler's `ensures` ties the result and the
new state to a pure verdict function. The lemmas beside each verdict state what
the source promises. Loops (reserving lines, rebooking, restoring counts,
merging tiers, the batch user creation, the expiry sweep) are methods with
invariants, proved against recursive specification functions. The sweep works
in place on an `array`.

Modules:

- `Common`: ids, `Option`/`Result`, roles, the caller, and the first-match and
  filter helpers.
- `Models`: the documents.
- `Store`: the database.
- `Inventory`: signed tier moves.
- One module for each core file: `OrderController`, `PromoPricing` with
  `PromoController`, `CronJobs`, `EventController`, `PaymentController`,
  `TaskController`, `ManagedUserController`, `CompanyController`,
  `UserValidation` and `Passport`.

Numbers are `real`, so arithmetic is exact. Times are integers. Ids are
integers, and a lookup returns the first match. The caller (`Actor`) is what
middlewares/authMiddleware.js:23-27 puts in `req.user`: the user's id as an
ObjectId, the role and the company id.

Where the code and the intended behaviour disagree, the Findings section gives
each case in both forms: a member that follows the code as written, with the
input that shows the difference, and a corrected member. The handlers use the
corrected member. So `CompanyController.CreateCompany` links the named user
(as written, `LinkUnreachableAsWritten`: every body naming a user gets 400),
`ManagedUserController.DeleteManagedUser` refuses self-deletion (as written,
`SelfDeletionAllowedAsWritten`: the admin is removed), and
`PaymentController.GetPaymentById` serves the owner (as written,
`OwnerLockedOutAsWritten`: the owner gets 500). Everywhere else the model
follows the code, including these cases:

- A company rename propagates nothing. The `updateMany` calls of
  controllers/companyController.js:203-208 set a `companyName` path that no
  schema declares, and strict mode drops it, so `UpdateCompany` writes only the
  company.
- In getAllManagedUsers the logged-in user does not appear twice as written.
  The comparison `user._id.toString() === currentUserId` compares a string with
  an ObjectId and is never true.
- The self checks of updateManagedUser and deleteManagedUser compare an ObjectId
  with a string, so they never fire. For the update, the admin-target guard
  still refuses the request (403 instead of 400). For the delete, the self check is
  simply missing (see Findings).

## Model

| member | source | states |
|---|---|---|
| Common.ParseRole | models/userModel.js:7 | a role string falls outside the known roles exactly when it is none of admin, manager, employee, guest, and then keeps its text |
| Models.ParsePaymentStatus | models/orderModel.js:46-50 | a status string is accepted exactly when it is one of Pending, Completed, Failed, Refunded |
| Models.FreshEmailKeepsUnique | models/userModel.js:5 | appending a user whose email no user holds keeps emails unique (the schema's unique index) |
| Inventory.ShiftAt | controllers/orderController.js:88 | one move keeps the tier ids and adds its delta to the first tier with its id only |
| Inventory.ApplyMovesAt | controllers/orderController.js:88 | applying signed moves keeps every tier's id and shifts each tier's count by the net of the moves naming it |
| Inventory.ApplyMovesAppend | controllers/orderController.js:34-89 | applying two runs of moves one after the other is applying their concatenation |
| Inventory.NetNegated | controllers/orderController.js:315-316 | the net of negated moves is minus the net of the moves |
| Inventory.UndoMoves | controllers/orderController.js:311-318 | applying moves and then their negations restores every tier |
| Inventory.TierAtFirst | controllers/orderController.js:70-72 | the tier lookup returns the first tier with the id, and none exactly when no tier has it |
| OrderController.CheckLine | controllers/orderController.js:34-86 | a line passes exactly when all four fields are present, quantity is a number > 0, amount a number >= 0, the tier exists and holds at least the quantity; the stored line copies the request |
| OrderController.Reserve | controllers/orderController.js:34-89 | a successful reservation keeps the tier count and gives one order line per request line |
| OrderController.ReserveTickets | controllers/orderController.js:34-89 | the line loop computes exactly the recursive reservation |
| OrderController.ReserveSucceedsIff | controllers/orderController.js:63-89 | on tiers in stock, the reservation succeeds exactly when every line names a known tier and each line fits the count left by the earlier lines |
| OrderController.ReserveDebitsEachTier | controllers/orderController.js:81-91 | on success each tier keeps its id and loses exactly the total quantity requested for it; other tiers are unchanged |
| OrderController.ReserveDebits | controllers/orderController.js:88 | the reserved tiers are the original tiers with one debit per line applied |
| OrderController.ReserveLines | controllers/orderController.js:98-103 | the order's lines are the request's lines, all well formed |
| OrderController.ReserveKeepsInStock | controllers/orderController.js:81-88 | a reservation never drives a tier below zero |
| OrderController.FitsStep | controllers/orderController.js:81-88 | checking the rest of the lines against the reduced counts is checking all lines against the original ones |
| OrderController.RequestedNonNegative | controllers/orderController.js:49-54 | the quantity requested of a tier by well-formed lines is never negative |
| OrderController.RequestedSameIds | controllers/orderController.js:70-72 | the quantity requested of a tier depends only on the tier ids, not on the counts |
| OrderController.AllKnownSameIds | controllers/orderController.js:63-68 | whether all lines name known tiers depends only on the tier ids |
| OrderController.DebitsNet | controllers/orderController.js:88 | the net debit of a tier is minus the quantity requested of it |
| OrderController.Debits | controllers/orderController.js:88 | one move per line, taking the line's quantity off its tier |
| OrderController.Credits | controllers/orderController.js:315-316 | one move per line, giving the line's quantity back to its tier |
| OrderController.TotalNonNegative | controllers/orderController.js:93-96 | the sum of quantity times amount over lines with non-negative fields is non-negative |
| OrderController.PlaceOrderAccepts | controllers/orderController.js:9-105 | a placed order had an event id, a non-empty ticket list and a caller company; its lines match the request one to one, every quantity is positive, the lines fit the event and the total is non-negative |
| OrderController.PlaceOrder | controllers/orderController.js:9-30 | a placed order points at one of the stored events |
| OrderController.CreateOrderSummary | controllers/orderController.js:5-120 | a failing guard or line changes nothing; past the reservation the event is saved with the reserved tiers; then one Pending order with the request's lines and their total is appended, unless a line's name is empty, when the order schema refuses it with 500 and the debits stay saved |
| OrderController.ReserveStorableIff | controllers/orderController.js:38-42 | a reservation yields lines the order schema accepts exactly when no request line has the empty name, which the `== null` test lets through |
| OrderController.EmptyNameReservedExample | controllers/orderController.js:37-105 | example: a line named "" on a tier of 5 is reserved (2 left) but yields an order that cannot be saved |
| OrderController.PrefixedTwice | controllers/orderController.js:34-89 | helper for the loop proof, not a property of the source: prefixing the lines reserved earlier composes over concatenation |
| OrderController.GeneralAdmissionScenario | controllers/orderController.js:81-89 | example: a tier of 5: an order of 3 leaves 2 and totals 300, a second order of 3 is refused, and restoring the first gives 5 back |
| OrderController.LineAt | controllers/orderController.js:249 | the snapshot line found has the requested ticket id |
| OrderController.RebookTickets | controllers/orderController.js:248-269 | the edit loop computes exactly the recursive rebooking |
| OrderController.Rebook | controllers/orderController.js:248-269 | a successful rebooking keeps the tier count and gives one line per edit |
| OrderController.Adjustments | controllers/orderController.js:256-261 | one move per edit, of minus the difference between the new and the snapshot quantity |
| OrderController.RebookLines | controllers/orderController.js:249-268 | every edited line names a tier present in both the snapshot and the event, and is repriced at the tier's current price and name |
| OrderController.RebookAdjusts | controllers/orderController.js:256-261 | the rebooked tiers are the original tiers with every edit's adjustment applied |
| OrderController.RebookLeavesUnnamedTiers | controllers/orderController.js:273 | a tier that no edit names keeps its count, so lines omitted from the request are dropped without restoring their inventory |
| OrderController.NetUntouched | controllers/orderController.js:248-269 | moves that never name a tier leave its net at zero |
| OrderController.RebookKeepsInStock | controllers/orderController.js:257-261 | an increase is allowed only when the tier holds the difference, so rebooking keeps every tier in stock |
| OrderController.RepeatedEditMeasuredTwiceAgainstSnapshot | controllers/orderController.js:249-261 | example: two edits of the same tier each diff against the snapshot: a line of 2 edited twice to 3 takes 2 tickets while the order holds 6 |
| OrderController.PlanEdit | controllers/orderController.js:218-246 | a planned edit names an existing order and event |
| OrderController.EditNeedsBuyerOrAdmin | controllers/orderController.js:233-238 | only the buyer or an admin can edit an order |
| OrderController.EditRepricesAtCurrentPrice | controllers/orderController.js:263-268 | every new line keeps the requested ticket id and quantity and takes the tier's current price |
| OrderController.UpdateOrder | controllers/orderController.js:213-296 | failed guards change nothing; otherwise the event is saved with the rebooked tiers, then the order with the new lines, total and any supplied status; an invalid status, a negative total or a copied tier name that is empty fails the order save (500) after the event was saved |
| OrderController.RebookStorableIff | controllers/orderController.js:263-268 | a rebooking yields lines the order schema accepts exactly when every edited tier has a non-empty name in the event |
| OrderController.RestoreTickets | controllers/orderController.js:311-318 | the restore loop gives each line's quantity back to its tier |
| OrderController.RestoreCreditsEachTier | controllers/orderController.js:311-318 | each tier keeps its id and gains the net quantity of the lines naming it |
| OrderController.CreditsNegateDebits | controllers/orderController.js:315-316 | the credits of a deletion are the negated debits of the creation |
| OrderController.ReserveThenRestore | controllers/orderController.js:305-322 | deleting an order restores exactly the counts its creation reserved |
| OrderController.RestoreKeepsInStock | controllers/orderController.js:315-316 | restoring non-negative quantities keeps tiers in stock |
| OrderController.CreditsNonNegative | controllers/orderController.js:315-316 | a tier's restored quantity is never negative |
| OrderController.DeleteOrder | controllers/orderController.js:298-327 | an unknown order is a 404 and another user's order a 403, changing nothing; otherwise the event, if it still exists, gets every line back and the order is removed whatever its status |
| OrderController.Preview | controllers/orderController.js:395-469 | defines the preview: the order's line total, and with a truthy code the first promo carrying it, refused when expired, with its discount subtracted and no clamp; nothing is written |
| OrderController.PreviewRefusals | controllers/orderController.js:399-412 | a request without an order id is a 400 and one naming no stored order a 404 |
| OrderController.PreviewOfOrder | controllers/orderController.js:414-429 | for the first order with the id: no lines is a 400; without a code the quote is the line total, undiscounted; a code no promo carries, in any company, is a 404 |
| OrderController.PreviewQuotesFirstPromo | controllers/orderController.js:427-450 | with a code, the first promo carrying it decides: past its expiry a 400, otherwise the quote is the line total, that promo's flat or percent discount of it, and the total minus the discount, unclamped |
| OrderController.PreviewCanGoNegative | controllers/orderController.js:444-450 | example: a flat discount of 500 on a total of 300 previews -200 |
| OrderController.PreviewIgnoresActiveFlag | controllers/orderController.js:427-442 | the preview's answer does not depend on any promo's active flag |
| PromoPricing.Clamped | controllers/promoCodeController.js:198 | the final amount is never negative, is at least the amount minus the discount, and is one of the two |
| PromoPricing.PercentWithinAmount | controllers/promoCodeController.js:194-198 | a percent discount of 0 to 100 on a non-negative amount lies within the amount, so no clamp applies |
| PromoPricing.FlatFloorsAtZero | controllers/promoCodeController.js:192-198 | a flat discount at least the amount floors the final amount at 0 |
| PromoPricing.UntypedChangesNothing | controllers/promoCodeController.js:190-198 | a promo of any other type discounts nothing |
| PromoPricing.Discount | controllers/promoCodeController.js:190-196 | defines the discount: the flat amount, the percent of the base, or 0 for any other type |
| PromoController.ActivePromoAt | controllers/promoCodeController.js:161 | the promo found carries the code and is active |
| PromoController.ApplyCode | controllers/promoCodeController.js:147-227 | the verdict's indices point into the promos and orders |
| PromoController.ApplyPassesEveryGuard | controllers/promoCodeController.js:147-229 | an applied code had an order id and a caller, an active unexpired promo with the code, no earlier use by the caller, a Pending order of the caller whose total equals the original amount; the final amount is the clamped discount |
| PromoController.ExpiryRefusalIsPastExpiry | controllers/promoCodeController.js:170-179 | the expiry refusal happens exactly for a found active promo past its expiry, whatever the orders |
| PromoController.UsedCodeRefused | controllers/promoCodeController.js:181-188 | once a usage of the caller and the promo is recorded, the code is refused as already used |
| PromoController.ApplyPromoCode | controllers/promoCodeController.js:142-254 | refusals change nothing except the expiry refusal, which switches the promo off; success sets only the order's total and appends one usage |
| PromoController.SecondApplyRefused | controllers/promoCodeController.js:229-236 | after a successful apply, the same user applying the same code again is refused, whatever order and amount |
| PromoController.InitialActive | controllers/promoCodeController.js:54-57 | a new promo is active as requested (true by default) unless its expiry is already reached, then inactive |
| PromoController.CreatePromoCode | controllers/promoCodeController.js:28-83 | non-admins get 403 and a code already used within the caller's company 400; an empty code or a missing or non-numeric discount amount fails the save with 500; all three change nothing; otherwise one promo owned by the caller and company is appended |
| PromoController.PatchedOverwritesSuppliedFields | controllers/promoCodeController.js:115-124 | only supplied fields change, id, owner and company never do, and an expired promo ends inactive whatever the request said |
| PromoController.EmptyPatchOnlyExpires | controllers/promoCodeController.js:115-124 | an empty update only switches off an expired promo |
| PromoController.UpdatePromoCode | controllers/promoCodeController.js:85-140 | non-admins get 403, an unknown id 404, a new non-empty code held by any promo 400; otherwise the promo is replaced by its patched version |
| PromoController.SetPromoCodeStatus | controllers/promoCodeController.js:352-377 | a non-boolean flag is a 400 and an unknown id a 404; otherwise exactly the active flag is set |
| PromoController.ActiveCodes | controllers/promoCodeController.js:305-311 | the active listing holds exactly the promos that are active and do not expire or expire after now |
| PromoController.ListedNeverLapsed | controllers/promoCodeController.js:305-311 | a listed promo is never one the sweep would switch off, and a swept promo is never listed |
| PromoController.GetAllPromoCodes | controllers/promoCodeController.js:256-274 | the listing first runs the sweep and returns the swept promos |
| CronJobs.UpdateExpiredPromoCodes | utils/cronJobs.js:4-25 | the in-place loop leaves the array equal to the sweep of its old contents and counts the promos it switched off |
| CronJobs.SweepPromoCollection | utils/cronJobs.js:10-20 | the collection becomes its sweep and the count is the number of lapsed promos |
| CronJobs.SweepSwitchesOffExactlyLapsed | utils/cronJobs.js:10-18 | the sweep changes exactly the active promos whose expiry is before now, and changes nothing but their active flag |
| CronJobs.SweepNeverActivates | utils/cronJobs.js:16 | the sweep never switches a promo on |
| CronJobs.SweepIdempotent | utils/cronJobs.js:10-20 | after one sweep nothing is lapsed, so a second sweep with the same time changes nothing |
| CronJobs.CountLapsedCountsMatches | utils/cronJobs.js:20 | the modified count is the number of promos that match the filter |
| CronJobs.Sweep | utils/cronJobs.js:10-18 | the sweep keeps every promo in place, changes at most its active flag, and never switches a promo on |
| EventController.Stamped | controllers/eventcontroller.js:126 | the pushed tiers are one per requested tier |
| EventController.AddTiers | controllers/eventcontroller.js:102-128 | on success the tier list grows by the requested tiers |
| EventController.CountedTotalAppend | controllers/eventcontroller.js:106-110 | the counted sum splits over a concatenation of tier lists |
| EventController.CountedStamped | controllers/eventcontroller.js:106-112 | new tiers with whole counts are counted in full once stored |
| EventController.CountedTotal | controllers/eventcontroller.js:106-110 | the existing sum is zero when no tier has a whole count, and non-negative when no count is negative |
| EventController.RequestedTotalNaN | controllers/eventcontroller.js:112 | the requested sum is NaN exactly when some requested quantity is missing or not a number |
| EventController.AddTiersVerdict | controllers/eventcontroller.js:102-128 | an unset or zero capacity is refused; over capacity exactly when every requested quantity is a number and counted existing plus requested exceeds capacity, reporting capacity minus the existing sum; past the guard, a quantity that cannot be cast fails the save with 500; on success the old tiers come first, then the new ones in request order with fresh ids |
| EventController.AddTiersWithinCapacity | controllers/eventcontroller.js:106-120 | when every requested quantity is a whole number, a successful add keeps the counted sum within capacity |
| EventController.MissingQuantitySkipsCapacity | controllers/eventcontroller.js:112-126 | a request with a tier lacking a quantity, and none uncastable, is accepted on any event with a capacity, however much it asks for |
| EventController.MissingQuantityOverfillsExample | controllers/eventcontroller.js:112-128 | example: capacity 10 accepts a tier of 1000 beside a tier without a quantity, and then counts 1000 |
| EventController.FractionalTiersEscapeCapacity | controllers/eventcontroller.js:108-109 | example: a tier of 9.5 counts as 0, so capacity 10 admits another 10 |
| EventController.AddTickets | controllers/eventcontroller.js:93-133 | an unknown event is a 404; a refused add, including a failed save, changes nothing; otherwise the event is saved with the new tier list |
| EventController.TierNamed | controllers/eventcontroller.js:618 | the tier found has the name |
| EventController.Buy | controllers/eventcontroller.js:604-628 | a purchase names an existing event and keeps its tier count |
| EventController.BuyDecrementsExactly | controllers/eventcontroller.js:604-628 | a purchase takes a positive whole quantity from the first tier with the name, leaves it non-negative and changes no other tier |
| EventController.BuyRefusedIffShort | controllers/eventcontroller.js:624-626 | a valid purchase of a known tier is refused exactly when the tier holds less than the quantity |
| EventController.BuyKeepsInStock | controllers/eventcontroller.js:624-628 | buying never drives a tier below zero |
| EventController.BuyTicket | controllers/eventcontroller.js:599-635 | a refused purchase changes nothing; otherwise the event is saved with the decremented tier |
| EventController.KeyAt | controllers/eventcontroller.js:385-387 | the key map gives a position of a tier with that id |
| EventController.MergeStep | controllers/eventcontroller.js:390-398 | one turn never shortens the list below the original tiers |
| EventController.Merged | controllers/eventcontroller.js:389-399 | the merged list starts with as many tiers as the original |
| EventController.MergeTickets | controllers/eventcontroller.js:385-399 | the loop computes exactly the recursive merge |
| EventController.MergedKeepsOriginals | controllers/eventcontroller.js:390-395 | each original tier stays in place and takes the four fields of the last request tier with its id, or stays as it was |
| EventController.MergedAppendsUnknown | controllers/eventcontroller.js:396-397 | after the originals come exactly the request tiers with no known id, in order, keeping any id they came with |
| EventController.MergeIgnoresCapacity | controllers/eventcontroller.js:389-401 | the merge performs no capacity check |
| EventController.UpdateEventTickets | controllers/eventcontroller.js:371-412 | an unknown event is a 404; otherwise the event is saved with the merged tiers |
| EventController.PatchedTierChangesOnlySupplied | controllers/eventcontroller.js:430-433 | a field changes only when a non-null value is supplied, then to it; the id never changes |
| EventController.PatchedTier | controllers/eventcontroller.js:430-433 | the patch never changes the id, and an empty patch changes nothing |
| EventController.PatchedTierIdempotent | controllers/eventcontroller.js:430-433 | sending the same patch twice is sending it once |
| EventController.UpdateSingleEventTicket | controllers/eventcontroller.js:415-445 | an unknown event or tier is a 404 changing nothing; otherwise exactly that tier is patched |
| EventController.WithoutTier | controllers/eventcontroller.js:457-459 | filtering never lengthens the tier list |
| EventController.WithoutFaq | controllers/eventcontroller.js:524-526 | filtering never lengthens the FAQ list |
| EventController.WithoutTierRemovesExactly | controllers/eventcontroller.js:457-459 | exactly the tiers with the id go, the rest keep their order, and an absent id changes nothing |
| EventController.WithoutFaqRemovesExactly | controllers/eventcontroller.js:524-526 | exactly the FAQs with the id go, the rest keep their order, and an absent id changes nothing |
| EventController.DeleteEventTicket | controllers/eventcontroller.js:448-468 | an unknown event is a 404; otherwise the event is saved without the tiers of that id |
| EventController.DeleteEventFaq | controllers/eventcontroller.js:515-535 | an unknown event is a 404; otherwise the event is saved without the FAQs of that id |
| EventController.VisibleEvents | controllers/eventcontroller.js:249-274 | the listing fails, with the missing-company error, exactly when the token has no company |
| EventController.PopulatedCompany | controllers/eventcontroller.js:262-269 | a populated company id is the stored creator's company id, and a company with that id is stored |
| EventController.VisibleTo | controllers/eventcontroller.js:271-274 | a public event passes the filter, and a private one passes only when its creator's company is the caller's |
| EventController.VisibleEventsExactly | controllers/eventcontroller.js:255-274 | an event is listed exactly when it is public, or its stored creator belongs to the caller's company and that company is stored; no event is listed more often than stored |
| EventController.MayEdit | controllers/eventcontroller.js:303-306 | the creator may always edit; a caller who is not an admin or manager may edit only their own events |
| EventController.MayDelete | controllers/eventcontroller.js:555-558 | the creator may always delete; a caller who is not an admin may delete only their own events |
| EventController.UnstoredCompanyHidesPrivate | controllers/eventcontroller.js:262-274 | a private event whose creator's company id names no stored company is listed to no one |
| EventController.DeleteRightsImplyEditRights | controllers/eventcontroller.js:555-558 | whoever may delete an event may edit it (edit rule at lines 303-306) |
| EventController.ManagerMayEditButNotDelete | controllers/eventcontroller.js:303-306 | a manager who did not create an event may edit it exactly when it belongs to their company, and may never delete it |
| EventController.CompanylessLeadReachesOrphanedEvents | controllers/eventcontroller.js:303-306 | a lead without a company matches an event whose creator is gone (both companies undefined) |
| EventController.UpdateEventBasic | controllers/eventcontroller.js:284-332 | an invalid id is a 400, an unknown event a 404, an unauthorized caller a 403; otherwise the truthy name, description and view are written |
| EventController.DeleteEvent | controllers/eventcontroller.js:538-571 | an invalid id is a 400, an unknown event a 404, an unauthorized caller a 403; otherwise the event is removed |
| PaymentController.CheckMethod | controllers/paymentController.js:17-29 | a method is accepted exactly when present and one of card, upi, qr, netbanking, wallet; a missing one is its own error |
| PaymentController.MinorUnitsFaithful | controllers/paymentController.js:32 | the gateway amount is 100 times the amount, losing nothing and keeping order |
| PaymentController.CreateOrder | controllers/paymentController.js:7-65 | a bad method, a failed gateway call or a missing order id changes nothing; otherwise one created payment with the original amount, the gateway order id and the caller is stored |
| PaymentController.SignedBody | controllers/paymentController.js:79 | the signed body is one character longer than the two ids together (the bar between them) |
| PaymentController.SignedBodyDeterminesPair | controllers/paymentController.js:79 | for order ids without a bar, the signed body determines the id pair |
| PaymentController.BarEndsOrderId | controllers/paymentController.js:79 | the first bar of the body ends the order id |
| PaymentController.SignedBodyAt | controllers/paymentController.js:79 | the body's characters are those of the order id, then the bar |
| PaymentController.PaymentForGatewayOrder | controllers/paymentController.js:100-102 | the payment found carries the gateway order id |
| PaymentController.Settle | controllers/paymentController.js:79-146 | a settlement names an existing payment and order |
| PaymentController.SettleNeedsSignature | controllers/paymentController.js:85-94 | a signature mismatch fails verification; a settlement implies a match and a fetched gateway payment |
| PaymentController.SettleRecordsPaid | controllers/paymentController.js:96-135 | the first payment with the gateway order id gets the payment id, status paid and the gateway's method or "card", nothing else; the order is the payment's order |
| PaymentController.Recorded | controllers/paymentController.js:98-114 | the recorded payment keeps its id, order and gateway order id, is paid, carries the gateway payment id, and never has an empty method |
| PaymentController.SettleIgnoresOrderStatus | controllers/paymentController.js:128-135 | the verdict does not depend on the order's prior status |
| PaymentController.SettleAgainChangesNothing | controllers/paymentController.js:100-146 | settling again after a commit gives the same settlement and changes nothing |
| PaymentController.VerifyPayment | controllers/paymentController.js:67-165 | every failure leaves payments and orders as they were; a commit sets the payment paid and its order Completed together |
| PaymentController.PaymentAt | controllers/paymentController.js:169 | the payment found has the id |
| PaymentController.GetPaymentByIdAsWritten | controllers/paymentController.js:167-198 | as written, reading a payment always fails: 404 exactly when it is absent, 500 otherwise |
| PaymentController.OwnerLockedOutAsWritten | controllers/paymentController.js:178 | example: as written, the owner of a payment reading it gets the 500 error |
| PaymentController.GetPaymentById | controllers/paymentController.js:167-183 | a payment is returned only to its owner |
| PaymentController.GetPaymentByIdOwnerOnly | controllers/paymentController.js:171-183 | success exactly for an existing payment of the caller; another user's payment is a 403; an absent one a 404 |
| TaskController.TaskAt | controllers/taskController.js:84 | a task found has the id |
| TaskController.UserWithRole | controllers/taskController.js:15 | the user found has the id and one of the roles |
| TaskController.UserWithRoleNone | controllers/taskController.js:15-23 | no user is found exactly when no user has the id and one of the roles |
| TaskController.NewTaskNeedsLeadAndWorker | controllers/taskController.js:10-33 | a task is created exactly when the schema passes, assignBy is an admin or manager and assignTo an employee or guest; it starts neither completed nor verified |
| TaskController.NewTask | controllers/taskController.js:10-31 | a failed schema check is a 400; a created task has the new id, the named assigner and assignee, and is neither completed nor verified |
| TaskController.CreateTask | controllers/taskController.js:6-41 | a refused task changes nothing; otherwise one task is appended |
| TaskController.AssignedTaskAt | controllers/taskController.js:53 | a task found has the id and is assigned to the caller |
| TaskController.Completion | controllers/taskController.js:49-63 | a completion names an existing task |
| TaskController.CompletionByAssigneeOnly | controllers/taskController.js:49-63 | only an employee or guest completes, only a task assigned to them, never an already completed one again; exactly the completion flag is set |
| TaskController.CompletionCanUnsettleVerified | controllers/taskController.js:59-63 | an assignee can mark a verified task incomplete, leaving it verified but not completed |
| TaskController.TaskCompletion | controllers/taskController.js:43-72 | a refusal changes nothing; otherwise only that task is replaced |
| TaskController.Verification | controllers/taskController.js:80-101 | a verification names an existing task |
| TaskController.VerificationByAssigningAdmin | controllers/taskController.js:80-101 | only the assigning admin verifies, only a completed task; unverifying also clears completion; nothing else changes |
| TaskController.VerifyTask | controllers/taskController.js:74-115 | a refusal changes nothing; otherwise only that task is replaced |
| TaskController.DetailsUpdate | controllers/taskController.js:123-147 | an update names an existing task |
| TaskController.DetailsUpdateChangesThreeFields | controllers/taskController.js:131-147 | only an admin, manager or the assignee updates, others get 403, and only the supplied name, description and end date change |
| TaskController.DetailsUpdateMayEndBeforeStart | controllers/taskController.js:141-147 | the end date can be moved before the start date |
| TaskController.UpdateTaskDetails | controllers/taskController.js:117-164 | a refusal changes nothing; otherwise only that task is replaced |
| TaskController.DeletableAt | controllers/taskController.js:173-177 | a deletable task exists with the id |
| TaskController.DeletionRule | controllers/taskController.js:173-181 | an admin deletes any task and anyone else only tasks they assigned; no match is a 404 |
| TaskController.DeleteTask | controllers/taskController.js:166-191 | no deletable task is a 404 changing nothing; otherwise that task is removed |
| TaskController.GetTaskById | controllers/taskController.js:253-265 | a returned task has the id, and an employee or guest sees only a task assigned to them |
| TaskController.GetTaskByIdOpenToOthers | controllers/taskController.js:261 | any other caller sees any existing task |
| ManagedUserController.CallerMayEnrol | controllers/managedUserController.js:10-18 | enrolment is allowed only to a stored caller whose role is admin or manager |
| ManagedUserController.Admitted | controllers/managedUserController.js:21-38 | an admitted user has the fresh id, the entry's email and its company |
| ManagedUserController.Enrolled | controllers/managedUserController.js:20-40 | the batch adds at most one user per entry |
| ManagedUserController.CreateManagedUser | controllers/managedUserController.js:4-47 | the loop saves users one at a time and ends in exactly the state and answer of the recursive enrolment |
| ManagedUserController.EnrolledSavesPrefix | controllers/managedUserController.js:20-40 | the stored users stay first; success exactly when every entry was saved; on failure, the verdict is the first refused entry's |
| ManagedUserController.EnrolledEntry | controllers/managedUserController.js:23-38 | each saved user is its entry's admission against the users saved before it |
| ManagedUserController.EnrolledKeepsEmailsUnique | controllers/managedUserController.js:23-26 | a batch keeps emails unique |
| ManagedUserController.EarlierDuplicateStaysSaved | controllers/managedUserController.js:23-38 | of two entries with one email, the first stays saved and the second is refused as taken |
| ManagedUserController.EnrolmentNeedsLead | controllers/managedUserController.js:14-18 | a batch changes users only when the caller is a stored admin or manager |
| ManagedUserController.Rank | controllers/managedUserController.js:138-139 | ranks run from 1 to 5, and 5 exactly for roles outside the four |
| ManagedUserController.RankedCons | controllers/managedUserController.js:139 | a user ranked no later than an ordered list can lead it |
| ManagedUserController.InsertKeeps | controllers/managedUserController.js:139 | inserting adds exactly the user |
| ManagedUserController.InsertOrdered | controllers/managedUserController.js:139 | inserting into an ordered list keeps it ordered |
| ManagedUserController.InsertStable | controllers/managedUserController.js:139 | inserting puts the user before the users of its rank that follow it and leaves other ranks alone |
| ManagedUserController.SortedByRankSorts | controllers/managedUserController.js:138-139 | the sorted list is ordered by rank and a permutation of the users |
| ManagedUserController.SortedByRank | controllers/managedUserController.js:138-139 | sorting keeps the number of users |
| ManagedUserController.SortedByRankStable | controllers/managedUserController.js:139 | users of one rank keep their relative order (a stable sort) |
| ManagedUserController.CompanyUsersMembers | controllers/managedUserController.js:132-136 | the company's users are exactly the stored users with the company |
| ManagedUserController.MeIn | controllers/managedUserController.js:151 | the logged-in user found is a position in the list |
| ManagedUserController.UserListingBy | controllers/managedUserController.js:128-136 | the listing fails only for a token without a company or for no users |
| ManagedUserController.UserListingRefusals | controllers/managedUserController.js:128-136 | a token without a company is a 401; no users of the company is a 404; otherwise the list is exactly the company's users |
| ManagedUserController.MeInFinds | controllers/managedUserController.js:151 | the user found matches the caller, and none exactly when no user does |
| ManagedUserController.MineMembers | controllers/managedUserController.js:148 | the caller's own entries are exactly the users matching the caller |
| ManagedUserController.PickedWithoutMatch | controllers/managedUserController.js:144-158 | with an id comparison that never matches, an employee gets empty lists and a lead the two role partitions only |
| ManagedUserController.Picked | controllers/managedUserController.js:141-158 | the full list is the sorted users; every assigner offered is an admin or manager; a caller who is not one is offered at most one assigner |
| ManagedUserController.UserListingAsWrittenLeavesCallerOut | controllers/managedUserController.js:148-151 | as written, an employee's lists are empty and a lead's are exactly the role partitions of the company's users, with nothing appended |
| ManagedUserController.PickedListsCallerTwice | controllers/managedUserController.js:144-157 | with a working comparison, the caller's list ends with the caller and holds them earlier too |
| ManagedUserController.UserListingListsCallerTwice | controllers/managedUserController.js:144-157 | with a working comparison, the logged-in user appears twice in the list of their role |
| ManagedUserController.Update | controllers/managedUserController.js:54-85 | an update names an existing user |
| ManagedUserController.UpdateManagedUser | controllers/managedUserController.js:49-94 | a refusal changes nothing; otherwise only the target is replaced |
| ManagedUserController.UpdateStaysInCompany | controllers/managedUserController.js:54-85 | only an admin updates, a non-admin of the own company; id and company never change; a truthy password is stored hashed; fields not supplied stay |
| ManagedUserController.UpdateKeepsEmailsUnique | controllers/managedUserController.js:76-85 | an update keeps emails unique |
| ManagedUserController.UpdateMissingTargetIsServerError | controllers/managedUserController.js:62-67 | a missing target is a 500, not a 404 |
| ManagedUserController.UpdateSelfRefusedAsAdmin | controllers/managedUserController.js:58-69 | an admin updating themselves is refused by the admin-target guard with 403 |
| ManagedUserController.DeletionAsWritten | controllers/managedUserController.js:102-116 | as written, a deletion names an existing user |
| ManagedUserController.SelfDeletionAllowedAsWritten | controllers/managedUserController.js:108 | example: as written, an admin can delete themselves |
| ManagedUserController.Deletion | controllers/managedUserController.js:102-116 | a deletion names an existing user |
| ManagedUserController.DeletionRule | controllers/managedUserController.js:103-116 | deletion succeeds exactly for a stored admin caller, another target, and an existing target; self-deletion is refused before existence is checked |
| ManagedUserController.DeleteManagedUser | controllers/managedUserController.js:97-122 | follows the corrected rule of the Findings row for line 108: self-deletion is refused; any refusal changes nothing; otherwise exactly the target is removed |
| CompanyController.CompanyAt | controllers/companyController.js:131 | the company found has the id |
| CompanyController.CompanyNamed | controllers/companyController.js:20 | the company found has the name |
| CompanyController.RenameKeepsUnique | controllers/companyController.js:188-199 | replacing a company by one whose name no other company holds keeps names unique |
| CompanyController.LinkUnreachableAsWritten | validation/company-validation.js:4-8 | as written, a request naming a user is refused with 400 |
| CompanyController.FoundingAsWritten | validation/company-validation.js:4-8 | as written, a founding that succeeds named no user and changes no user |
| CompanyController.FoundingLinksOnlyNamedUser | controllers/companyController.js:20-42 | a company is founded only under an unused name; the named user, if stored, is moved to it, and no other user changes |
| CompanyController.Founding | controllers/companyController.js:12-41 | a founding succeeds only under an unused name and creates the company with the new id and the requested name; users keep their number and change at most their company |
| CompanyController.CreateCompany | controllers/companyController.js:11-53 | follows the corrected rule of the Findings row for validation/company-validation.js:4-8: a refusal changes nothing; otherwise the company is appended and the named user linked |
| CompanyController.FoundingKeepsNamesUnique | controllers/companyController.js:20-31 | founding keeps company names unique |
| CompanyController.RegistrationMakesAdmin | controllers/companyController.js:56-91 | a registered user is an admin of the named company, under an unused email, with the hash of a confirmed password that follows the rule |
| CompanyController.RegistrationIgnoresRole | controllers/companyController.js:83-89 | any of the four roles in the form gives the same verdict as no role: the user is an admin whatever the form says |
| CompanyController.RegistrationNeedsConfirmation | controllers/companyController.js:69-71 | a confirmation that differs from the password is refused |
| CompanyController.RegisterUser | controllers/companyController.js:55-102 | a refusal changes nothing; otherwise one user is appended |
| CompanyController.RegistrationKeepsEmailsUnique | controllers/companyController.js:64-67 | registration keeps emails unique |
| CompanyController.CascadeGuard | controllers/companyController.js:123-134 | the cascade proceeds only for an existing company with the id |
| CompanyController.CascadeGuardExactly | controllers/companyController.js:123-134 | the cascade proceeds exactly for an admin of that very company, when it exists |
| CompanyController.MemberIds | controllers/companyController.js:136-137 | every user of the company has their id among the member ids |
| CompanyController.Cascade | controllers/companyController.js:136-147 | the removed company is the one found, and one company fewer remains |
| CompanyController.DeleteCompanyAndData | controllers/companyController.js:114-164 | a refusal changes nothing; otherwise the cascade's kept records replace the five collections and its removed records are returned |
| CompanyController.CascadeSparesOthers | controllers/companyController.js:143-146 | exactly the other companies' users, orders and promo codes and the events no member created remain |
| CompanyController.CascadePartitions | controllers/companyController.js:139-146 | each collection splits into removed and kept records, with nothing lost or duplicated |
| CompanyController.Revision | controllers/companyController.js:175-199 | an edit names an existing company |
| CompanyController.UpdateCompany | controllers/companyController.js:165-219 | a refusal changes nothing; otherwise only the company record is written |
| CompanyController.RevisionKeepsNamesUnique | controllers/companyController.js:188-199 | the id stays, a truthy name is written, fields not supplied stay, and names stay unique |
| CompanyController.RevisionIgnoresCallerCompany | controllers/companyController.js:175-186 | the verdict does not depend on the caller's company |
| UserValidation.ScanSees | validation/user-validation.js:7 | the one-pass scan sees exactly which character classes occur and whether all characters are allowed |
| UserValidation.PasswordMatchesRule | validation/user-validation.js:7 | the pattern accepts exactly 8 to 16 allowed characters with an upper-case letter, a lower-case letter, a digit and a symbol |
| UserValidation.ValidateRegistrationExactly | validation/user-validation.js:3-18 | a form is accepted exactly when username, email and company id are given, the email is well formed, the password follows the rule and is confirmed, and any role is one of the four |
| UserValidation.ValidateRegistration | validation/user-validation.js:3-18 | a missing username is reported first; an accepted form has username, email and company id given and the password confirmed |
| UserValidation.AcceptedPasswordShape | validation/user-validation.js:7-12 | an accepted password has 8 to 16 allowed characters and is confirmed |
| UserValidation.PasswordJudgedFirst | validation/user-validation.js:7-11 | a password outside the rule is reported before its confirmation |
| Passport.Split | config/passport.js:18 | a split gives at least one piece |
| Passport.SplitJoin | config/passport.js:18 | joining the pieces gives the string back, and no piece holds the separator |
| Passport.SplitWhole | config/passport.js:18 | a string without a space is one piece |
| Passport.SplitAfterWord | config/passport.js:18 | a word followed by a space is the first piece |
| Passport.CookieExtractor | config/passport.js:12-21 | a token comes only from a non-empty cookie or header |
| Passport.CookieWins | config/passport.js:13-15 | a non-empty cookie is returned whatever the header |
| Passport.BearerTokenExtracted | config/passport.js:16-18 | "Bearer " and a token yields the token up to its first space |
| Passport.NoTokenWithoutBearer | config/passport.js:16-20 | without a cookie, a missing header or one not starting with "Bearer " gives no token |
| Passport.BearerHeaderYieldsToken | config/passport.js:16-18 | any bearer header yields a token without spaces |

## Left out

- I/O: MongoDB and Mongoose are left out. Each collection is a sequence, lookups return the first match, and a handler's responses are result values.
- Concurrency: requests are strictly sequential, so the read-modify-write race on tier counts is not modelled.
- Foreign calls are parameters. The model does not compute them.
  - HMAC-SHA256 is `sign`.
  - The Razorpay order create and payment fetch are `gateway` and `fetched`.
  - bcrypt is `hash`.
  - The Joi email check is `emailOk`.
  - The password validator of utils/validator.js is `passwordOk`. utils/validator.js is not part of this model.
  - Whether an id is a valid ObjectId is `validId`.
  - The schema verdict for a new task is `schemaOk`.
  - The cast of a registration's company id to an ObjectId is `companyObjectId`.
- models/companyModel.js and models/PromoCodeUsage.js are not part of this model. Companies and usages carry only the fields the controllers use.
- Floating point: numbers are exact reals, so the percent discount has no rounding.
- Image and base64 upload in updateEventBasic, moment-timezone dates, and the cron scheduling in `startPromoCodeCronJob` are left out.
- Dead branches:
  - The `!user` checks that answer 401 in deleteCompanyAndData and updateCompany sit behind the verifyToken middleware.
  - The same holds for updateCompany's missing-company-id 400.
- JavaScript typing: a body field is either absent or a value of the expected type, except for the fields `Field` types: the order request's quantities and amount, buyTicket's quantity, addTickets' quantities and createPromoCode's discount amount.
  - A `Field` that is not a number stands for a value that does not read as one. A numeral string or a boolean is modelled as `NonNumber`, which is exact for `typeof` but not for `Number()` or a Mongoose cast, which would read it.
  - updateOrder's edit quantities and updatePromoCode's amounts are plain numbers.
  - A string code in applyPromoCode is assumed.
  - null and undefined are one case.
- UpdateEventTickets: each request tier carries all four fields. The source writes a missing field as undefined; the model does not.
- PromoController.UpdatePromoCode:
  - does not model the schema's `trim` of code and description;
  - does not model the save failure that an empty or invalid code or discount type causes.
- PromoController.CreatePromoCode: a discount type outside the enum and the schema's `trim` of the code are not modelled. The first fails the save with 500; the second would also refuse a code of blanks. `Untyped` stands for a request without a type.
- EventController.Stamped: a tier pushed without a quantity is stored with count 0, whereas the source stores no count. A later addTickets counts both as 0. A purchase from such a tier differs: the source lets it past the stock check and then fails the save with 500, while the model refuses it as short with 400.
- OrderController.UpdateOrder: an edit without a numeric quantity is not modelled; the source's NaN count then fails the save with 500. A tier without a price is not modelled either: a stored tier always has a numeric price, and an unnamed tier is one named "".
- ManagedUserController.SortedByRankSorts: the in-place `Array.prototype.sort` is modelled as its stable result. It is not a step-by-step array algorithm.
- ManagedUserController.UserListingBy: the `select('-password')` projection is not modelled, so listed users keep their password hashes.
- ManagedUserController.Admitted: Mongoose validation of a new user is reduced to the rules the schema states. These are a required username and email, and a role in the enum or missing, in which case it defaults to guest. Anything else is the 500 path.
- Read-only handlers are not modelled, because their logic is a plain lookup:
  - getUserPayments, which reads `req.user._id` like getPaymentById;
  - getAllorders, getCompanyEvents, getEventById, getAllTasks, getAllCompanies and getSingleManagedUser.
- CronJobs.SweepPromoCollection: a failing `updateMany` is not modelled. The source logs the error and returns normally, so no failure reaches a caller, and the model's sweep always completes.
- CompanyController.UpdateCompany: the rename updates at controllers/companyController.js:203-208 are modelled as writing nothing. They set a `companyName` path that the user, event, order and promo schemas do not declare, and Mongoose strict mode drops such paths. Users, events, orders and promos therefore keep whatever they held.
- Passport.Split: models `String.prototype.split` with a one-character separator only.

## Findings

| source | as written | input that shows it | evidently intended | confidence | as-written member | corrected member |
|---|---|---|---|---|---|---|
| controllers/paymentController.js:178 | compares the owner with `req.user._id`, which the auth middleware never sets, so the dereference throws | the owner reads their own existing payment and gets 500 | compare with `req.user.id`: the owner is served, others get 403 | high, not executed | PaymentController.GetPaymentByIdAsWritten | PaymentController.GetPaymentById |
| controllers/managedUserController.js:108 | compares the route's string id with the caller's ObjectId using `===`, which is never true | an admin deletes their own id and is removed | refuse self-deletion with 403 | high, not executed | ManagedUserController.SelfDeletionAllowedAsWritten | ManagedUserController.DeletionRule |
| controllers/managedUserController.js:148-151 | `user._id.toString() === currentUserId` compares a string with an ObjectId, so it is never true | an employee lists users and gets empty assign lists | the caller is listed under their role, and then appended | high, not executed | ManagedUserController.UserListingAsWrittenLeavesCallerOut | ManagedUserController.UserListingListsCallerTwice |
| validation/company-validation.js:4-8 | the schema does not declare `userId`, and Joi refuses unknown keys | creating a company with a `userId` gets 400, so the link code at controllers/companyController.js:33-42 never runs | `userId` is an optional key and the named user is linked | high, not executed | CompanyController.LinkUnreachableAsWritten | CompanyController.FoundingLinksOnlyNamedUser |
