# The shop's stock-and-order engine, verified

A model, in Dafny, of the part of the shop's backend where goods and money have to agree:
the inventory with its holds and its movement ledger, the life of an order from the cart to
the refund, the payments that drive it, and the calendar that dates its delivery. The
repository's services are the system; nothing of it is executed here.

## How it is built

- **Stock** (`Tables`, `Allocation`, `StockSpec`). The value `Stock` holds the inventory rows,
  the reservation rows in creation order and the ledger. `StockSpec` gives each operation of
  `inventory.service.ts` as a function on that value. `InventoryService` is the class with the
  three tables and the loops that write them; every method is proved to compute its function,
  on any state whatever.
- **Laws of the stock** (`StockLaws`, `OperationLaws`, `ReleaseLaws`, `Catalogue`, `Served`). Everything an
  order does to the stock is a *shift*: some rows go from one reservation status to another, and
  inventory and ledger follow. One lemma shows that shifts keep the tables in agreement; each
  operation is shown to be one. Operations by hand and re-homing have laws of their own.
- **Orders, payments, refunds** (`Orders`, `Payments`, `Refunds`). Each service call is a function
  from a `Shop` to a `Shop` and an outcome; a call that is refused leaves the shop as it was.
  `ShopTables` holds the shared tables, and the classes in `OrdersService`, `PaymentsService`,
  `RefundsService` and `OrderExpiryService` carry the calls out on them, statement by statement
  and with their roll-backs, each proved equal to its function and to keep the invariant of the shop.
- **The shop as one transition system** (`OrderLaws`, `EditLaws`, `ShopLaws`). `ShopLaws.Step` is any
  call of any service with any arguments; `ShopLaws.RunKeeps` is the invariant over all runs.
- **What follows from it** (`Conservation`, `UndoLaws`, `LifecycleLaws`, `PaymentLaws`, `MoneyLaws`,
  `RefundLaws`, `SweepLaws`, `StampLaws`).
- **Each call in its own words** (`ShareLaws`, `CounterLaws`, `TransferLaws`, `PriceLaws`, `FieldLaws`, `MarkLaws`,
  `GatewayLaws`). What a whole call leaves, over the fields of the tables and the constants of the
  source, without the helpers the call is computed with: whose shelf a line is held on, whose holds
  a transfer brings home, at which price, in which status, on which date, under which mark.
- **Concurrent refunds** (`RefundRace`): requests taken apart into lock, read, insert and commit, and
  every interleaving shown to be a serial run of the whole calls.
- **The calendar** (`Calendar`): day numbers as in section 21.4.1 of ECMA-262, Easter, holidays,
  deadlines; and the cart (`Cart`).

`dafny verify dfyconfig.toml` checks the whole project.

## Where the code and what it says of itself part

Each of these is stated as a lemma, with the exact condition under which the code does what is said.

1. `src/inventory/inventory.service.ts:751-754` and
   `src/inventory/entities/inventory-operation.entity.ts:35-37` say the order number tells order-driven
   movements from manual ones. A manual operation may carry an order number too (line 491 of the
   service): after any run, reading an order's goods by the number is right at a storage and product
   exactly when what the accepted manual operations entered and took out there against that order
   adds up to zero (`StampLaws.StampsOverRuns`, `StampLaws.StampReadingFails`). The invariant therefore
   reads an order's goods from the movements its own calls wrote; `Movement.manual` is a mark of the
   model that the table does not have.
2. `src/payments/order-expiry.service.ts:65-67` says nothing the scan leaves out can be due. That
   holds exactly when the gateway's window is the shorter one, as it is by default, but nothing in
   the configuration asks for it (`PaymentLaws.ScanIsCompleteIff`). With equal windows, an order that
   nobody tried to pay waits one sweep more if it is due at this very instant
   (`PaymentLaws.ScanExaminesTheDue`).
3. `src/payments/order-expiry.service.ts:118-121` will not cancel an order under money in flight. It looks
   at the attempts when it scans; at the order's turn (lines 163-169) only at status and payment. An
   order whose client started to pay in between is cancelled all the same
   (`SweepLaws.CancelledUnderMoneyInFlight`), and so is one retried or reinstated since. What the scan
   found due is due all along exactly when no call in between gave it more time
   (`SweepLaws.SweepTurnsAreDue`, with those calls listed in `SweepLaws.Renews`).
4. `src/refunds/refunds.service.ts:59-60` promises that what is requested and returned never
   exceeds what was charged. An edit of the lines can lower the total below it, and does not look.
   The cap holds at every point of a run exactly when every edit of the order, at its turn, was
   refused or asked for lines still worth what had been promised (`RefundLaws.CapOverRuns`);
   `RefundLaws.EditCanBreakCap` reaches a broken one from an empty shop in three calls.
5. `src/orders/orders.service.ts:1799-1800` and `1901-1903` put the falls of an edit before its rises
   so that they free the stock a rise may need. What a fall frees is always of another product, so
   the order never decides: `Served.EditSucceeds`.
6. `src/payments/payments.service.ts:479-482` promises never to downgrade a paid order. True, but an
   order already refunded is not protected: a later event can make it paid or failed
   (`PaymentLaws.PropagateEffect` says exactly what each payment becomes).

## Model

| member | source | states |
|---|---|---|
| Catalogue.ReserveSucceeds | src/inventory/inventory.service.ts:587-635 | a reservation goes through if and only if the enabled and allowed storages have that much free between them, in whatever order they are ranked |
| Catalogue.ReserveIsOptimal | src/inventory/inventory.service.ts:606-656 | it holds exactly what was asked, only at usable storages; the preferred one gives all it can; any set of other storages able to cover the rest has at least as many members as were used |
| ShareLaws.ShareIs | src/inventory/inventory.service.ts:606-656 | exactly how many units each usable storage gives: all it has free, within what is left after those drawn from before it, which are the preferred one, the fuller ones and, of those alike, the ones listed first |
| Allocation.FewestStorages | src/inventory/inventory.service.ts:606-656 | drawing on the fullest first uses no more storages than any other choice that covers the quantity |
| Allocation.TakesWithinFree | src/inventory/inventory.service.ts:638-656 | no storage gives more than it has free |
| InventoryModule.InventoryService.Reserve | src/inventory/inventory.service.ts:580-656 | the allocation with its availability check; on refusal the tables are untouched |
| InventoryModule.InventoryService.DrawFrom | src/inventory/inventory.service.ts:636-655 | the draining loop inserts exactly the greedy rows and holds them in the inventory |
| InventoryModule.InventoryService.SettleReservations | src/inventory/inventory.service.ts:795-821 | every row of the query has its effect on its inventory row and its final status, no other row changes |
| InventoryModule.InventoryService.GroupByStorage | src/inventory/inventory.service.ts:764-770 | the accumulated maps hold, per storage in order of appearance, the sum of each product |
| InventoryModule.InventoryService.RecordOrderMovement | src/inventory/inventory.service.ts:755-791 | one ledger operation per storage with its merged lines, nothing for no rows |
| InventoryModule.InventoryService.ConfirmReservations | src/inventory/inventory.service.ts:661-685 | holds become physical decrements, recorded as exits |
| InventoryModule.InventoryService.ReleaseReservations | src/inventory/inventory.service.ts:692-749 | holds are let go and taken goods restocked as entries; it throws exactly when goods come back and nobody signs |
| InventoryModule.InventoryService.CutBackRows | src/inventory/inventory.service.ts:860-913 | one pass of the partial release: units freed oldest first, a row consumed in part cut in two |
| InventoryModule.InventoryService.ReleaseProductUnits | src/inventory/inventory.service.ts:838-928 | the two passes, held rows before taken ones, with the ledger entry and the unsigned throw |
| InventoryModule.InventoryService.ConfirmProductReservations | src/inventory/inventory.service.ts:935-966 | the holds of one product are taken and recorded, nothing if there are none |
| InventoryModule.InventoryService.MergeItems | src/inventory/inventory.service.ts:970-982 | one line per product, in order of appearance, with the product's total |
| InventoryModule.InventoryService.AddStock | src/inventory/inventory.service.ts:997-1014 | units are added, creating the row if it is missing |
| InventoryModule.InventoryService.RemoveStock | src/inventory/inventory.service.ts:1016-1038 | units are removed exactly when that many are not on hold |
| InventoryModule.InventoryService.RehomeReservations | src/inventory/inventory.service.ts:513-571 | the misplaced holds of the counter's pickup orders come home one by one while they fit |
| InventoryModule.InventoryService.CreateOperation | src/inventory/inventory.service.ts:414-506 | an entry, exit or transfer with its checks, its re-homing and its ledger line, or nothing at all |
| ShopTablesModule.ShopTables.CreateOperation | src/inventory/inventory.service.ts:414-506 | the same over the whole shop, with the pickup orders read from the orders: the whole new state or the old one, and the invariant is kept |
| Tables.NetOfMovements | src/inventory/inventory.service.ts:764-791 | replaying the grouped movements gives back the sum of the rows: grouping by storage loses nothing |
| Tables.PostedAt | src/inventory/inventory.service.ts:803-821 | posting rows one by one gives each inventory row its sum, whatever their order |
| StockLaws.ShiftKeepsValid | src/inventory/inventory.service.ts:661-749 | any legal move of rows between statuses keeps holds, shelves, ledger and sales in agreement |
| StockLaws.ShiftConservesGoods | src/inventory/inventory.service.ts:661-749 | on-hand plus taken goods is the same at every storage and product after any order-driven move |
| StockLaws.ReserveKeepsValid | src/inventory/inventory.service.ts:580-656 | reserving keeps the three tables in agreement |
| StockLaws.ConfirmKeepsValid | src/inventory/inventory.service.ts:661-685 | confirming keeps the three tables in agreement |
| StockLaws.ReleaseKeepsValid | src/inventory/inventory.service.ts:692-749 | releasing, with or without restock, keeps the three tables in agreement |
| StockLaws.ReleaseUnitsKeepsValid | src/inventory/inventory.service.ts:838-928 | so does the partial release, cut rows included |
| StockLaws.CutMoves | src/inventory/inventory.service.ts:876-904 | cutting a row moves exactly the freed units to CANCELLED and nothing else |
| ReleaseLaws.OldestFirst | src/inventory/inventory.service.ts:858-866 | when the pass reaches a row, every older row that fits has been released whole |
| ReleaseLaws.RestUntouched | src/inventory/inventory.service.ts:864-866 | once nothing is left to release, the remaining rows stay as they were and nothing more is split |
| ReleaseLaws.PartialRelease | src/inventory/inventory.service.ts:824-913 | it frees as many units as the order has up to what was asked, held before taken, and the order's history per storage and product keeps its sum |
| OperationLaws.MergedTotals | src/inventory/inventory.service.ts:970-982 | merging the lines keeps every product's total and leaves each product once |
| OperationLaws.MoveItemsSucceeds | src/inventory/inventory.service.ts:441-470 | an exit or transfer goes through exactly when every product has that much off hold where it leaves from |
| OperationLaws.OperateEffect | src/inventory/inventory.service.ts:414-506 | an operation changes physical stock by its own lines only, and moves only whole holds of its products to their own counter |
| OperationLaws.RehomeKeeps | src/inventory/inventory.service.ts:508-571 | re-homing moves holds whole and only to their own counter, keeps holds and shelves in agreement, and no hold still misplaced would fit |
| OperationLaws.RehomeClampIdle | src/inventory/inventory.service.ts:553-563 | a held row's inventory row exists and covers it, so the clamp at zero never acts |
| OperationLaws.RehomedTotals | src/inventory/inventory.service.ts:508-571 | any sum that does not look at the storage of a hold is the same after re-homing |
| OperationLaws.OperateKeepsValid | src/inventory/inventory.service.ts:414-506 | operations by hand keep the three tables in agreement |
| TransferLaws.ByHandSucceeds | src/inventory/inventory.service.ts:414-470 | an operation by hand goes through exactly when its products exist, a transfer goes to another enabled storage, and what leaves a storage is off hold there; anything else is a bad request |
| TransferLaws.ByHandMoves | src/inventory/inventory.service.ts:414-506 | it adds and takes exactly its lines at its storages, and one ledger line that says so |
| TransferLaws.TransferBringsHome | src/inventory/inventory.service.ts:508-571 | after a transfer to a counter the only rows that changed are holds of its products for orders that are pickups there, moved whole to it, and no such hold left elsewhere would fit |
| TransferLaws.OldestComeHomeFirst | src/inventory/inventory.service.ts:525-571 | each such hold comes home exactly if it fits in what was free at the counter and what arrived, less what older orders, and older holds of its order, took before it |
| TransferLaws.AskedAdds | src/inventory/inventory.service.ts:970-982 | the total asked of a product is a sum over the lines |
| OperationLaws.StampReading | src/inventory/inventory.service.ts:484-494 | while the tables agree, reading an order's goods by the number stamped on the ledger is right exactly where what was moved by hand against that order cancels out |
| StampLaws.StampsOverRuns | src/inventory/inventory.service.ts:484-494 | after any run, the movements stamped with an order say what it has taken at a storage and product exactly when what the accepted operations by hand moved there against it adds up to zero |
| StampLaws.StepAgainst | src/inventory/inventory.service.ts:414-506 | no call but an accepted operation by hand with the order's number changes that sum, and it by its own flow |
| StampLaws.StampReadingFails | src/inventory/inventory.service.ts:484-494 | a run of two calls after which the stamps are wrong |
| Catalogue.CandidatesCoverCatalogue | src/products/products.service.ts:262-339 | what the allocator can use is exactly what the catalogue shows for the area, plus the pickup counter when it lies outside |
| Catalogue.LinesDoNotCompete | src/orders/orders.service.ts:774-790 | lines of distinct products are all reserved if and only if each could be reserved alone |
| Catalogue.CatalogueIsServed | src/orders/orders.service.ts:545-576 | an order of distinct products within the catalogue's figures is created, every line reserved |
| Served.CreateSucceeds | src/orders/orders.service.ts:774-790 | a creation goes through exactly when its products are distinct and each has its quantity free in reach |
| Served.ReinstateSucceeds | src/orders/orders.service.ts:1469-1497 | a reinstatement goes through exactly for a cancelled order not flagged for refund whose every line is free in reach |
| Served.CorrectSucceeds | src/orders/orders.service.ts:1655-1724 | a correction that changes something fails only when the lines have to be held again and one does not fit, counting what it gave back itself |
| Served.EditSucceeds | src/orders/orders.service.ts:1900-1951 | an edit that changes something goes through exactly when every rise is free before the edit starts |
| CounterLaws.CreateServesTheCounter | src/orders/orders.service.ts:774-790 | of each product of a new order its pickup counter holds all it has free, up to the line; the rest comes from enabled storages of the area, each giving exactly its share of `ShareLaws.ShareIs`, and no smaller set of them could have covered it |
| CounterLaws.ReinstateServesTheCounter | src/orders/orders.service.ts:1607-1640 | a reinstated order is held the same way, its own counter first |
| CounterLaws.LatePaymentServesTheCounter | src/payments/payments.service.ts:533-640 | and so is one that a late payment brings back to life |
| CounterLaws.EditServesTheCounter | src/orders/orders.service.ts:1917-1951 | what an edit adds to a line of a live order is served the same way, held or taken by its phase |
| CounterLaws.CorrectServesTheCounter | src/orders/orders.service.ts:1688-1724 | a correction that holds the lines again serves them the same way, counting what it gave back itself |
| OrderLaws.ShiftLive | src/inventory/inventory.service.ts:661-749 | a move of rows changes what its order has of each product by the rows' sum, and nothing of any other order |
| OrderLaws.ReleaseUnitsLive | src/inventory/inventory.service.ts:838-928 | a partial release takes off the order's holds first and then its taken units, of that product only |
| OrderLaws.OperateLive | src/inventory/inventory.service.ts:508-571 | operations by hand, re-homing included, leave every order's units of every product as they were |
| OrderLaws.PendingReleaseNeverThrows | src/inventory/inventory.service.ts:734-741 | a pending order has nothing to restock, so its unsigned release cannot throw |
| MarkLaws.SignatureNeeded | src/inventory/inventory.service.ts:734-741 | an unsigned release throws exactly when the order has taken units of some product |
| MarkLaws.UnitsSignatureNeeded | src/inventory/inventory.service.ts:914-924 | an unsigned partial one exactly when the holds do not cover it and some of the rest was taken |
| MarkLaws.CancellationMarks | src/inventory/inventory.service.ts:692-749 | what the shop or the client cancels is marked cancelled, what expires expired: the whole of every line, and the other mark does not move |
| MarkLaws.CorrectionMarks | src/orders/orders.service.ts:1688-1724 | a correction marks as cancelled exactly what it lets go of |
| MarkLaws.MovementsAre | src/inventory/inventory.service.ts:755-791 | one operation per storage of the rows and no other, of the kind asked, for the order, to nowhere |
| MarkLaws.MovementItems | src/inventory/inventory.service.ts:764-791 | each lists exactly the products of its rows, with all their units |
| OrderLaws.ReserveLinesKeep | src/orders/orders.service.ts:774-790 | reserving a list of lines gives the order exactly those units on hold and touches no other order |
| EditLaws.EditedStockKeeps | src/orders/orders.service.ts:1900-1951 | after an edit the order has exactly its new lines, held or taken according to its phase, and the other orders what they had |
| EditLaws.SavedHoldsTheSame | src/orders/orders.service.ts:1953-1999 | removing, rewriting in place and appending the rows leaves the quantities and the money of the incoming lines |
| EditLaws.SameLinesOweNothing | src/orders/orders.service.ts:1841-1885 | an edit refused because nothing changed would have moved no stock: every product has the same quantity |
| ShopLaws.SubtotalIsSum | src/orders/orders.service.ts:717-736 | the header's own sum equals the sum of the stored, rounded line totals, at any price precision |
| ShopLaws.CreateKeeps | src/orders/orders.service.ts:711-825 | creating an order keeps the invariant of the shop |
| ShopLaws.StatusKeeps | src/orders/orders.service.ts:1308-1401 | steps and direct jumps keep it |
| ShopLaws.ClientCancelKeeps | src/orders/orders.service.ts:938-981 | a client's cancellation keeps it |
| ShopLaws.ExpireKeeps | src/payments/order-expiry.service.ts:155-204 | expiry keeps it |
| ShopLaws.ReinstateKeeps | src/orders/orders.service.ts:1469-1520 | reinstatement keeps it |
| ShopLaws.CorrectedStockKeeps | src/orders/orders.service.ts:1688-1724 | from any phase to any other, a correction leaves the stock the new status owes |
| ShopLaws.CorrectKeeps | src/orders/orders.service.ts:1655-1783 | a correction in any direction keeps the invariant, dates and money included |
| ShopLaws.PaymentKeeps | src/orders/orders.service.ts:1524-1560 | marking a payment by hand keeps it |
| ShopLaws.EditKeeps | src/orders/orders.service.ts:1803-2041 | editing the lines keeps it |
| ShopLaws.ByHandKeeps | src/inventory/inventory.service.ts:414-506 | operations by hand keep it |
| ShopLaws.ReinstateIfExpiredKeeps | src/payments/payments.service.ts:533-640 | a late payment keeps it, whichever way it ends |
| ShopLaws.RunKeeps | src/orders/orders.service.ts:86-127 | the invariant holds in every reachable state, whatever calls of whatever services led there |
| ShopLaws.CallKeepsInv | src/orders/orders.service.ts:711-712 | any call keeps the invariant, whatever stock the shop opened with; the service methods cite it in their contracts |
| ShopLaws.ReachableStock | src/inventory/inventory.service.ts:484-504 | in every reachable state reserved units are the held rows and within stock, the ledger rebuilds every shelf, an order's exits minus entries are what it has taken, and only operations by hand change on-hand plus taken |
| ShopLaws.ReachableOrder | src/orders/orders.service.ts:86-92 | in every reachable state a pending order holds exactly its lines, a confirmed or later one has taken exactly its lines, a cancelled one has neither |
| ShopLaws.DeadBranches | src/inventory/inventory.service.ts:734-821 | missing inventory rows, the re-homing clamp and the missing-user throw of a pending release never happen |
| ShopLaws.RefusedChangesNothing | src/orders/orders.service.ts:711-825 | a call that is refused leaves the whole shop as it was |
| Conservation.StockInClosedForm | src/inventory/inventory.service.ts:441-506 | over whole runs a product's stock is the opening stock plus entries minus exits by hand minus the lines of committed orders, and its held units are the lines of pending ones, whatever the path |
| Conservation.ShelvesInClosedForm | src/inventory/inventory.service.ts:661-749 | the same for the shelves, from the invariant alone |
| Conservation.HoldsInClosedForm | src/inventory/inventory.service.ts:580-656 | the same for the holds |
| Conservation.ByHandOverStorages | src/inventory/inventory.service.ts:441-506 | summed over all storages a transfer is nothing: only entries and exits count |
| UndoLaws.CancelledLeavesNoTrace | src/inventory/inventory.service.ts:687-749 | however an order was revived (by hand or by a late payment), confirmed, corrected or edited, once it is cancelled again every row of the inventory is what it was |
| UndoLaws.CreatedAndCancelled | src/orders/orders.service.ts:711-825 | the same from its creation to its cancellation |
| UndoLaws.RunIsOwn | src/orders/orders.service.ts:1308-1401 | calls about one order, polls and webhooks of its own charges included, move, shelf by shelf, only what that order holds or has taken |
| UndoLaws.PropagateIsOwn | src/payments/payments.service.ts:533-640 | a payment that reaches an order moves stock for that order only |
| LifecycleLaws.JumpIsWalk | src/orders/orders.service.ts:1342-1366 | a direct jump leaves the same shop as walking every intermediate status, at whatever times |
| LifecycleLaws.StepIsJump | src/orders/orders.service.ts:94-127 | a step of the table gives what the jump to that status gives; it goes one forward or cancels, and never leaves an end state |
| LifecycleLaws.TermsNeverChange | src/orders/orders.service.ts:733-766 | no run changes an order's fee, client, counter, promised days or creation, nor a delivery date once set |
| LifecycleLaws.StepKeepsDeals | src/orders/orders.service.ts:1524-1783 | no call but an edit changes an order's lines, subtotal or total |
| LifecycleLaws.TotalsAddUp | src/orders/orders.service.ts:1893-2010 | after any calls, subtotal is the sum of the rounded line totals and total is that plus the fee fixed at creation |
| FieldLaws.CreateSets | src/orders/orders.service.ts:711-825 | when a creation is refused and how; else one order at the end with every field from its request, and nothing else but the cart it was asked to empty |
| FieldLaws.StatusSets | src/orders/orders.service.ts:94-127 | which statuses follow which, by a step and by a jump, listed; the new status and the day of the first delivery are all that is written |
| FieldLaws.CancelRefusals | src/orders/orders.service.ts:938-956 | who may cancel what, and how the rest are refused; charges and refunds stay |
| FieldLaws.ReinstateSets | src/orders/orders.service.ts:1469-1520 | pending, the reason wiped, the clock started again, and nothing else |
| FieldLaws.CorrectSets | src/orders/orders.service.ts:1655-1783 | how a correction is refused; else exactly the fields it writes: a payment taken back loses its two dates, one put in is dated if it was not, the reason goes with the cancellation, the clock starts again for an order left to be paid |
| FieldLaws.MarkSets | src/orders/orders.service.ts:105-110 | which payment marks follow which, listed, and the two dates they leave |
| FieldLaws.EditSets | src/orders/orders.service.ts:1953-2010 | an edit writes the lines of its order, their sum as subtotal, and that plus the fee as total |
| FieldLaws.RowsInOrder | src/orders/orders.service.ts:1953-1999 | kept rows stay in the order they had, and new ones come after them in the order asked |
| FieldLaws.PromisesOverRuns | src/orders/payment-sealing.ts:13-31 | in every reachable state a delivery is promised exactly when there is a date of payment and a term; up to 312 days, for the business day that many business days later |
| FieldLaws.TotalsAdd | src/orders/orders.service.ts:717-736 | the money of lines is the sum of their totals |
| FieldLaws.QuantityIs | src/orders/orders.service.ts:774-790 | the units an order has of a product are its line's |
| LifecycleLaws.ExpireIsSafe | src/payments/order-expiry.service.ts:155-204 | expiry acts exactly on orders pending and unpaid at that moment, never throws, touches neither shelf nor ledger, and the cart ends with the larger quantity |
| LifecycleLaws.ClientCancelIsSafe | src/orders/orders.service.ts:938-981 | a client cancels exactly their own pending orders; it cannot throw, touches neither shelf nor ledger, and the cart ends with the larger quantity |
| LifecycleLaws.ReinstatedGetsAFreshWindow | src/orders/orders.service.ts:1499-1503 | a reinstated order is not due again before a whole window has gone by, whatever its attempts |
| LifecycleLaws.CorrectedGetsAFreshWindow | src/orders/orders.service.ts:1742-1750 | nor is one that a correction makes pending and unpaid |
| LifecycleLaws.SweepCancelsOnlyUnpaid | src/payments/order-expiry.service.ts:62-106 | with any calls between the scan and each order, what the sweep reports cancelled was pending and unpaid at its turn, and nothing was restocked |
| SweepLaws.StepIsDue | src/payments/order-expiry.service.ts:108-143 | a due order stays due through a call exactly when the call is not one of those that give it more time: a newer attempt that is cash, in flight or young, the removal of the latest, the news that it is in flight, a reinstatement or reopening less than a window ago |
| SweepLaws.DueUnlessRenewed | src/payments/order-expiry.service.ts:108-143 | over any calls, it is due after each of them exactly when none gives it more time at its turn |
| SweepLaws.SweepTurnsAreDue | src/payments/order-expiry.service.ts:85-93 | what the scan found due is due when its turn comes, unless a call in between gave it more time |
| SweepLaws.CancelledUnderMoneyInFlight | src/payments/order-expiry.service.ts:158-204 | with an attempt in flight since the scan an order is no longer due and its turn cancels it all the same |
| SweepLaws.LatestAfterRemoval | src/payments/payments.service.ts:132-150 | taking away an attempt that is not the latest leaves the latest as it was |
| PaymentLaws.PropagateEffect | src/payments/payments.service.ts:484-527 | exactly what each payment becomes after its charge is read; every other order, and a paid one, is left alone |
| PaymentLaws.GatewayNeverUnpays | src/payments/payments.service.ts:479-504 | no poll and no webhook changes anything of a paid order |
| PaymentLaws.RedeliveryChangesNothing | src/payments/payments.service.ts:285-309 | once a webhook or a poll reported that a charge ended, hearing it again and polling for it change nothing, whatever calls came in between, unless a webhook said it ended otherwise |
| PaymentLaws.EndedStaysEnded | src/payments/payments.service.ts:422-475 | the status a charge ended with survives a call exactly when the call is not a webhook that finds it and says otherwise |
| PaymentLaws.LatePayment | src/payments/payments.service.ts:522-640 | a payment on an order that expired ends in exactly one of two outcomes, told by whether every line can be held again: back to life, or flagged with one refund request and stock and cart untouched |
| PaymentLaws.PaidByIs | src/payments/payments.service.ts:484-504 | a charge that went through leaves the order paid, on its own date or today's unless it was dated before |
| GatewayLaws.WebhookSets | src/payments/payments.service.ts:422-475 | an unknown reference or an ended status said again changes nothing; any other webhook is written field by field on its charge, dated if it ended undated, and the order becomes what its charge makes of it, late payments included |
| GatewayLaws.PollSets | src/payments/payments.service.ts:285-309 | the same of a poll, which asks nothing of a charge that ended |
| GatewayLaws.RemoveSets | src/payments/payments.service.ts:85-106 | only the order's own attempt is taken away, and only if it did not succeed |
| GatewayLaws.ChargeSets | src/payments/payments.service.ts:249-276 | an attempt is stored after the others and nothing else changes |
| RefundLaws.StepKeepsCap | src/refunds/refunds.service.ts:54-63 | no call but an edit can take requested plus completed money past the total, and an edit keeps the cap exactly when it is refused or the lines it asks for, plus the fee, are worth what was promised |
| RefundLaws.CapOverRuns | src/refunds/refunds.service.ts:112-196 | over whole runs the cap holds at every point exactly when every edit of the order, at its turn, was refused or asked for enough |
| PaymentLaws.ScanExaminesTheDue | src/payments/order-expiry.service.ts:62-143 | with the gateway window not the longer one, a due order is missed exactly when the windows are equal, it has no attempt and it is due this instant; never one past its deadline |
| PaymentLaws.SweepMissesNothing | src/payments/order-expiry.service.ts:62-87 | with the gateway window the shorter one, the sweep goes on with exactly the unsettled orders that are due |
| PaymentLaws.ScanIsCompleteIff | src/payments/order-expiry.service.ts:64-76 | the scan examines everything due exactly when the gateway window is shorter than the manual one |
| PaymentLaws.DueOrdersAre | src/payments/order-expiry.service.ts:69-87 | the sweep goes on with exactly the examined orders that are due, each once |
| PaymentLaws.DueOrdersHaveWaited | src/payments/order-expiry.service.ts:108-143 | what the sweep expires is unsettled, not cash, not in flight, and a whole window has gone by since every attempt and any reinstatement |
| PaymentLaws.ExpiredIs | src/payments/order-expiry.service.ts:108-143 | an order is past its time never under cash or money in flight, after the gateway window since its latest attempt if that was a gateway one, after the manual window since it or since the order otherwise, and not before the same window since a reinstatement |
| PaymentLaws.SweepListIs | src/payments/order-expiry.service.ts:62-143 | the sweep goes on with exactly the pending orders, unpaid or failed, older than the gateway window, whose time is up in that sense |
| PaymentLaws.SweepListInFull | src/payments/order-expiry.service.ts:62-143 | with the gateway window the shorter one the age of the order decides nothing |
| PaymentLaws.LatestChargeIsLatest | src/payments/payments.service.ts:132-150 | the attempt the deadline is counted from is one of the order's newest |
| MoneyLaws.UntouchedLineStays | src/orders/orders.service.ts:2043-2065 | in every run whose outside prices have two decimals, a line an edit was not asked to change is there afterwards exactly as it was |
| MoneyLaws.LinesAreExact | src/orders/orders.service.ts:791-806 | in every such run every stored line's total is its unit price times its quantity |
| MoneyLaws.ResolvedInCents | src/orders/orders.service.ts:2050-2095 | a kept price and a price of the catalogue are whole cents by themselves |
| PriceLaws.CreatedLine | src/orders/orders.service.ts:791-806 | a stored line of a new order has the product and quantity asked, its unit price and its total each rounded to the cent on its own |
| PriceLaws.EditedLines | src/orders/orders.service.ts:2051-2095 | after an edit there is one line per request and none besides: at the typed price rounded to the cent, or the price it had, or the base price with the discount taken off, rounded to the cent |
| PriceLaws.ResolveOutcome | src/orders/orders.service.ts:2056-2071 | the lines resolve exactly when each is in the order or for sale; otherwise the first that is not decides between not found and conflict |
| PriceLaws.EditRefusals | src/orders/orders.service.ts:1814-1839 | a repeated product or an empty quantity is a bad request, an order that does not exist is not found, a product unknown or withdrawn answers for itself |
| PriceLaws.UnchangedIff | src/orders/orders.service.ts:1841-1885 | an edit is refused as changing nothing exactly when the rows it would leave are the ones there are |
| RefundLaws.EditCanBreakCap | src/orders/orders.service.ts:1893-1898 | from an empty shop, an order paid, asked back and edited to half its price leaves more promised than it is worth |
| Refunds.RequestKeepsCap | src/refunds/refunds.service.ts:137-191 | a request keeps requested plus completed within the total |
| Refunds.CompleteKeepsCap | src/refunds/refunds.service.ts:252-300 | so does completing one |
| Refunds.RejectKeepsCap | src/refunds/refunds.service.ts:313-348 | and rejecting one |
| Refunds.RequestTakes | src/refunds/refunds.service.ts:152-191 | a request takes its amount, or all there is, off what can still be returned |
| Refunds.CompleteLeaves | src/refunds/refunds.service.ts:252-266 | completing one leaves that as it was |
| Refunds.RejectGivesBack | src/refunds/refunds.service.ts:313-333 | rejecting one gives its amount back |
| Refunds.CompleteRefunds | src/refunds/refunds.service.ts:252-300 | completing leaves the order refunded exactly when the whole total has been returned; then no request is open and none can be made |
| GatewayLaws.RequestSets | src/refunds/refunds.service.ts:112-196 | when a request goes through and how it is refused otherwise, by the payment, what is not promised yet and the amount; it adds one row of that amount |
| GatewayLaws.SettleSets | src/refunds/refunds.service.ts:220-348 | how completing and rejecting are refused, and what they write; the order is refunded when what went back reaches its total |
| GatewayLaws.PromisedIs | src/refunds/refunds.service.ts:54-75 | what is promised of an order is the sum of its refunds that were not rejected |
| RefundRace.CapHolds | src/refunds/refunds.service.ts:112-196 | however many requests run at once, with completions, rejections and payment events between their steps, the cap holds |
| RefundRace.CommitIsARequest | src/refunds/refunds.service.ts:137-191 | each commit is a request that would go through for that amount, against the payment and the rows of that moment |
| RefundRace.InterleavingIsSerial | src/refunds/refunds.service.ts:112-191 | however requests, completions, rejections and payment events interleave, the outcome is that of whole calls one after the other, each request at the moment it reads; with no request under way the visible rows are exactly theirs |
| RefundRace.ReadIsWhole | src/refunds/refunds.service.ts:137-191 | a request is let through exactly when the whole call would be, for the same amount |
| RefundRace.CompleteAtTheTotal | src/refunds/refunds.service.ts:252-300 | in any interleaving the order becomes refunded exactly at the full total, with nothing open, visible or not |
| RefundRace.WithoutTheLock | src/refunds/refunds.service.ts:117-136 | without the lock two simultaneous requests promise twice the order |
| Calendar.DateRoundTrip | src/common/business-days.ts:100-106 | a civil date survives the way through its day number |
| Calendar.DayRoundTrip | src/common/business-days.ts:100-106 | a day number survives the way through its civil date, which exists |
| Calendar.NextDayIs | src/common/business-days.ts:100-106 | the day after is the next day number, over any month or year end |
| Calendar.MonthsAre | src/common/business-days.ts:100-106 | which dates exist: the lengths of the months, the leap years, and the Thursday days are numbered from |
| Calendar.EasterIsSunday | src/common/business-days.ts:31-47 | for every Gregorian year the algorithm gives an existing date from 22 March to 25 April that is a Sunday |
| Calendar.EasterFollowsFullMoon | src/common/business-days.ts:31-47 | and that Sunday is the first one strictly after the paschal full moon |
| Calendar.EasterByEpacts | src/common/business-days.ts:31-47 | the full moon of that algorithm is the one of the epact tables of the calendar, which are other constants and other divisions |
| Calendar.GoodFridayIsFriday | src/common/business-days.ts:52-64 | the moving holiday is a Friday of the same year |
| Calendar.TenHolidays | src/common/business-days.ts:52-64 | every year has ten different holidays |
| Calendar.HolidaysAre | src/common/business-days.ts:52-64 | the holidays of a year are the nine fixed dates and the day two days before Easter, and no other |
| Calendar.BusinessDaysAre | src/common/business-days.ts:91-98 | a business day is any but a Sunday and those ten |
| Calendar.CountIs | src/common/business-days.ts:117-129 | counting day by day gives the number of business days after one day and up to another |
| Calendar.EnoughBusinessDays | src/common/business-days.ts:123-129 | any 400 consecutive days have at least 312 business days |
| Calendar.FinDelPlazo | src/common/business-days.ts:117-129 | the loop ends on the deadline, an existing date one to 400 days after the start, or gives none exactly when there is no term |
| Calendar.DeadlineIs | src/common/business-days.ts:108-129 | the deadline is a business day with exactly that many business days up to it, always for 1 to 312 days, and beyond exactly when 400 days hold that many |
| Calendar.DeadlineMonotone | src/common/business-days.ts:117-129 | a longer term or a later start never ends earlier |
| Calendar.CapCutsLongTerms | src/common/business-days.ts:123-129 | past 400 days the cap decides: the deadline is 400 days after the start |
| CartModule.LargestPerProduct | src/cart/devolver-al-carrito.ts:58-63 | the useful lines reduced to the largest of each product |
| CartModule.ReturnToCart | src/cart/devolver-al-carrito.ts:39-79 | the cart ends with the larger quantity of each product, the count is of the products that changed, and is zero exactly when none did |
| CartModule.TakeFromCart | src/cart/devolver-al-carrito.ts:97-130 | the cart ends with what exceeds the lines, even when a product comes in several, and the count is of the useful lines found in it |
| CartModule.ReturnIdempotent | src/cart/devolver-al-carrito.ts:39-79 | returning twice is returning once |
| CartModule.ReturnOrderIndependent | src/cart/devolver-al-carrito.ts:39-79 | the order of the lines does not matter |
| CartModule.LargestIs | src/cart/devolver-al-carrito.ts:58-63 | the largest of a product is at least every line of it and is one of them, or zero without a useful line |
| CartModule.SumOfAdds | src/cart/devolver-al-carrito.ts:97-130 | what the lines take of a product is the sum of the useful ones |
| CartModule.CartsAfter | src/cart/devolver-al-carrito.ts:39-130 | which products and how many each of the two leaves in the cart |
| CartModule.CountsAre | src/cart/devolver-al-carrito.ts:39-79 | the count of a return is of the products whose quantity it changed |
| CartModule.MetAdds | src/cart/devolver-al-carrito.ts:97-130 | the count of lines taken is of the useful ones whose product is in the cart |
| CartModule.ReturnThenTake | src/cart/devolver-al-carrito.ts:97-130 | expiring and then paying leaves what the client had beyond the order, never a zero or negative line, and an empty cart empty |
| OrdersModule.OrdersService.ReserveOrderItems | src/orders/orders.service.ts:1607-1640 | the loop reserves every line, or stops at the first that cannot be |
| OrdersModule.OrdersService.TakeLines | src/orders/orders.service.ts:773-806 | the creation loop: a hold and a stored row for each line |
| OrdersModule.OrdersService.CrearPedido | src/orders/orders.service.ts:711-825 | the whole new state of the shop after a creation, or nothing |
| OrdersModule.OrdersService.CancelByClient | src/orders/orders.service.ts:938-981 | the whole new state after a client's cancellation, cart included, or nothing |
| OrdersModule.OrdersService.UpdateStatus | src/orders/orders.service.ts:1308-1401 | the whole new state after a step or a jump, delivery sealed once |
| OrdersModule.OrdersService.Reinstate | src/orders/orders.service.ts:1469-1520 | the whole new state after a reinstatement, or nothing |
| OrdersModule.OrdersService.CorrectStock | src/orders/orders.service.ts:1688-1724 | the stock movements between the phases |
| OrdersModule.OrdersService.CorrectedFields | src/orders/orders.service.ts:1725-1751 | the fields a correction writes, the reopened window included |
| OrdersModule.OrdersService.Correct | src/orders/orders.service.ts:1655-1783 | the whole new state after a correction, or nothing |
| OrdersModule.OrdersService.UpdatePaymentStatus | src/orders/orders.service.ts:1524-1560 | a mark by hand only goes forward (a paid order only to refunded, a refunded one nowhere), the date of the first payment and the promise counted from it stay, and the invariant is kept; refused, nothing changes |
| LifecycleLaws.MarkingPayment | src/orders/orders.service.ts:1524-1560 | the same of the call itself, with every other order and table untouched |
| OrdersModule.OrdersService.ApplyFalls | src/orders/orders.service.ts:1901-1916 | the loop that releases what the new lines no longer need |
| OrdersModule.OrdersService.ApplyRises | src/orders/orders.service.ts:1917-1951 | the loop that holds, and takes if committed, what they need more |
| OrdersModule.OrdersService.WriteLines | src/orders/orders.service.ts:1953-1999 | the rows after an edit: kept where they were with their new values, the new ones after |
| OrdersModule.OrdersService.Resolve | src/orders/orders.service.ts:2051-2085 | each requested line with its price, or the first refusal |
| OrdersModule.OrdersService.UpdateItems | src/orders/orders.service.ts:1803-2041 | the whole new state after an edit, or nothing |
| PaymentsModule.PaymentsService.SyncCharge | src/payments/payments.service.ts:285-309 | the whole new state after a poll |
| PaymentsModule.PaymentsService.RemoveAttempt | src/payments/payments.service.ts:85-106 | after it goes through nothing finds the attempt any more and every other one is as it was; one that succeeded survives whatever is asked, and a refusal changes nothing |
| PaymentsModule.PaymentsService.HandleWebhook | src/payments/payments.service.ts:422-475 | the whole new state after a webhook |
| PaymentsModule.PaymentsService.PropagateToOrder | src/payments/payments.service.ts:484-527 | the order follows its charge |
| PaymentsModule.PaymentsService.ReinstateIfExpired | src/payments/payments.service.ts:533-640 | the two endings of a late payment, the failed attempt rolled back |
| RefundsModule.RefundsService.Request | src/refunds/refunds.service.ts:112-196 | one positive request more, taken off what can still be returned (all of it if no amount was given); every order within its cap stays within it, and the invariant is kept |
| RefundsModule.RefundsService.Complete | src/refunds/refunds.service.ts:220-300 | what can still be returned does not change for any order, the order is refunded exactly when the whole total has been returned, and caps and invariant are kept |
| RefundsModule.RefundsService.Reject | src/refunds/refunds.service.ts:313-348 | the rejected amount can be returned again, and caps and invariant are kept |
| OrderExpiryModule.OrderExpiryService.Expire | src/payments/order-expiry.service.ts:155-204 | the per-order transaction of the sweep |
| OrderExpiryModule.OrderExpiryService.Sweep | src/payments/order-expiry.service.ts:62-106 | the loop over the due orders names exactly those it cancelled, and keeps the invariant |

## Left out

- Concurrency other than the sweep and the refund requests: each call is one atomic step, so what two overlapping calls read before their transactions open is not modelled.
- RefundRace: completing and rejecting a refund are single steps.
- Prices, promotions of the delivery fee, the choice of fulfilment, the covering storages of a municipality and the order in which a query lists rows: inputs of each call, chosen freely.
- Rows with equal free stock keep the order in which the query listed them, as a stable sort does; that order is an input.
- Floating point: prices are exact reals rounded half up, stored money is whole cents. That prices typed in or taken from a cart have two decimals, as the request objects ask, is a hypothesis of `MoneyLaws`.
- The database failure while a late payment is being served (neither of the two endings): not modelled.
- `find` without an order, over the rows of one order, is read in creation order.
- Orders deleted softly, permissions and roles, events of the order's history, mail, documents and notes.
- Fields that only describe (addresses, contacts, names, list price and discount, order numbers, references, who did it).
- The creation of a charge at a gateway: a charge with any content may appear; reading the gateway and checking its signature are not modelled. That an attempt is stored after its order is a hypothesis of the two laws about the scan that need it.
- Time zones: an instant comes with its civil date in Cuba, and a deadline stops at the civil date.
- Years before 1583.
- `llegoATiempo`, which compares two dates.
- The physical totals for the administration (`amountsFor`), listings, reports and dashboards.
