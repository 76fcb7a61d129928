/**
 * What holds across the calls of an order's life: direct jumps, expiry, payments
 * that arrive late or twice, and what no call ever rewrites.
 */
module LifecycleLaws {
  import opened Wrappers
  import opened Tables
  import opened Allocation
  import opened StockSpec
  import opened StockLaws
  import opened Calendar
  import opened CartModule
  import opened Orders
  import opened OrderLaws
  import opened EditLaws
  import opened Refunds
  import opened Payments
  import opened ShopLaws

  // ---------------- Jumping and walking ----------------

  function Before(s: OrderStatus): OrderStatus {
    match s
    case DELIVERED => SHIPPED
    case SHIPPED => PROCESSING
    case PROCESSING => CONFIRMED
    case _ => PENDING
  }

  /** Reaching a status through every intermediate one, each in its own call at its own time. */
  function StepByStep(shop: Shop, o: OrderId, to: OrderStatus, clock: OrderStatus -> Instant): (Shop, Outcome)
    requires o < |shop.orders|
    decreases ChainIndex(to)
  {
    if ChainIndex(to) <= ChainIndex(shop.orders[o].status) + 1 || to == PENDING
      then UpdateStatus(shop, o, to, false, clock(to))
    else
      var (mid, outcome) := StepByStep(shop, o, Before(to), clock);
      if outcome != Done then (mid, outcome) else UpdateStatus(mid, o, to, false, clock(to))
  }

  /**
   * A direct jump is the walk it skips: the same stock, the same ledger (goods
   * taken once), the same order, whatever the times of the steps in between.
   */
  lemma {:induction false} JumpIsWalk(shop: Shop, o: OrderId, to: OrderStatus, clock: OrderStatus -> Instant)
    requires o < |shop.orders| && to != CANCELLED && JumpAllowed(shop.orders[o].status, to)
    ensures UpdateStatus(shop, o, to, true, clock(to)).1 == Done
    ensures StepByStep(shop, o, to, clock) == UpdateStatus(shop, o, to, true, clock(to))
    decreases ChainIndex(to)
  {
    hide Confirm, Release;
    var from := shop.orders[o].status;
    if ChainIndex(to) > ChainIndex(from) + 1 {
      var b := Before(to);
      JumpIsWalk(shop, o, b, clock);
      var mid := UpdateStatus(shop, o, b, true, clock(b)).0;
      Rewritten(shop.orders, o, mid.orders[o], SealDelivery(mid.orders[o].(status := to), to, clock(to).day));
    }
  }

  /**
   * A step of the table is a jump too, with the same result; either moves forward along the chain
   * or cancels, and never leaves an end state.
   */
  lemma StepIsJump(shop: Shop, o: OrderId, to: OrderStatus, now: Instant)
    requires UpdateStatus(shop, o, to, false, now).1 == Done
    ensures UpdateStatus(shop, o, to, true, now) == UpdateStatus(shop, o, to, false, now)
    ensures var from := shop.orders[o].status;
            from != CANCELLED && from != DELIVERED && (to == CANCELLED || ChainIndex(to) == ChainIndex(from) + 1)
  {
    hide StatusStock;
  }

  // ---------------- What no call rewrites ----------------

  /**
   * The fee, the client, the pickup counter and the promised days are the ones the order was
   * created with; a delivery is dated once.
   */
  ghost predicate SameTerms(a: Order, b: Order) {
    b.fee == a.fee && b.client == a.client && b.isPickup == a.isPickup && b.pickup == a.pickup
    && b.promiseDays == a.promiseDays && b.createdAt == a.createdAt
    && (a.deliveredOn.Some? ==> b.deliveredOn == a.deliveredOn)
  }

  /** The same terms for the same lines at the same prices. */
  ghost predicate SameDeal(a: Order, b: Order) {
    SameTerms(a, b) && b.lines == a.lines && b.subtotal == a.subtotal && b.total == a.total
  }

  ghost predicate DealsKept(before: seq<Order>, after: seq<Order>) {
    |before| <= |after| && forall i :: 0 <= i < |before| ==> SameDeal(before[i], after[i])
  }

  ghost predicate TermsKept(before: seq<Order>, after: seq<Order>) {
    |before| <= |after| && forall i :: 0 <= i < |before| ==> SameTerms(before[i], after[i])
  }

  lemma SealKeepsDeal(o: Order, day: Civil)
    ensures SameDeal(o, SealPayment(o, day))
  {
    hide Deadline;
  }

  lemma CorrectedKeepsDeal(o: Order, to: OrderStatus, toPayment: PaymentStatus, now: Instant)
    ensures SameDeal(o, Corrected(o, to, toPayment, now))
  {
    hide SealPayment;
    SealKeepsDeal(Restated(o, to).(payment := toPayment), now.day);
  }

  lemma PropagateKeepsDeals(shop: Shop, c: Charge, area: Area, now: Instant)
    ensures DealsKept(shop.orders, Propagate(shop, c, area, now).orders)
  {
    hide ReserveLines, SealPayment, Cents, Removed;
    if c.order < |shop.orders| {
      SealKeepsDeal(shop.orders[c.order].(payment := Paid), c.completedOn.GetOr(now.day));
    }
  }

  lemma PaymentStepsKeepDeals(shop: Shop, s: ShopLaws.Step)
    requires s.SyncStep? || s.WebhookStep?
    ensures DealsKept(shop.orders, Apply(shop, s).0.orders)
  {
    hide Propagate;
    match s
    case SyncStep(id, notice, area, now) =>
      if id < |shop.charges| {
        var c := Noted(shop.charges[id], notice);
        PropagateKeepsDeals(shop.(charges := shop.charges[id := c]), c, area, now);
      }
    case WebhookStep(ref, notice, area, now) =>
      if ref.Some? && ref.value < |shop.charges| {
        var c := Settled(Noted(shop.charges[ref.value], notice), now);
        PropagateKeepsDeals(shop.(charges := shop.charges[ref.value := c]), c, area, now);
      }
  }

  lemma OneDealKept(orders: seq<Order>, o: OrderId, order: Order)
    requires o < |orders| && SameDeal(orders[o], order)
    ensures DealsKept(orders, orders[o := order])
  {
  }

  lemma NoDealTouched(orders: seq<Order>)
    ensures DealsKept(orders, orders)
  {
  }

  lemma CancelPendingKeepsDeals(shop: Shop, o: OrderId, final: ReservationStatus, reason: Option<CancellationReason>)
    requires o < |shop.orders|
    ensures DealsKept(shop.orders, CancelPending(shop, o, final, reason).0.orders)
  {
    hide Release, ReleaseThrows, Returned;
  }

  lemma StatusStepsKeepDeals(shop: Shop, s: ShopLaws.Step)
    requires s.StatusStep? || s.ClientCancelStep? || s.ExpireStep? || s.ReinstateStep?
    ensures DealsKept(shop.orders, Apply(shop, s).0.orders)
  {
    hide ReserveLines, StatusStock, CancelPending, JumpAllowed, StepAllowed, DealsKept;
    NoDealTouched(shop.orders);
    if s.o < |shop.orders| {
      CancelPendingKeepsDeals(shop, s.o, ReservationStatus.Cancelled, shop.orders[s.o].reason);
      CancelPendingKeepsDeals(shop, s.o, ReservationStatus.Expired, Some(PaymentNotReceived));
      if s.StatusStep? || s.ReinstateStep? {
        OneDealKept(shop.orders, s.o, Apply(shop, s).0.orders[s.o]);
      }
    }
  }

  lemma MarkStepsKeepDeals(shop: Shop, s: ShopLaws.Step)
    requires s.CorrectStep? || s.PaymentStep?
    ensures DealsKept(shop.orders, Apply(shop, s).0.orders)
  {
    hide CorrectedStock, SealPayment, Corrected, PaymentAllowed, DealsKept;
    if s.o < |shop.orders| {
      var order := shop.orders[s.o];
      if s.CorrectStep? {
        CorrectedKeepsDeal(order, s.status.GetOr(order.status), s.payment.GetOr(order.payment), s.now);
      } else {
        SealKeepsDeal(order.(payment := s.payTo), s.now.day);
      }
      OneDealKept(shop.orders, s.o, Apply(shop, s).0.orders[s.o]);
    }
    NoDealTouched(shop.orders);
  }

  /** No call but an edit of its lines changes what an order is for, and at what price. */
  lemma StepKeepsDeals(shop: Shop, s: ShopLaws.Step)
    requires !s.EditStep?
    ensures DealsKept(shop.orders, Apply(shop, s).0.orders)
  {
    hide ReserveLines, Operate, Cents, SealPayment, SyncCharge, HandleWebhook, WellFormed, Amount, Homes, UpdateStatus,
         CancelByClient, Expire, Reinstate, Correct, UpdatePayment;
    if s.SyncStep? || s.WebhookStep? {
      PaymentStepsKeepDeals(shop, s);
    } else if s.CorrectStep? || s.PaymentStep? {
      MarkStepsKeepDeals(shop, s);
    } else if s.StatusStep? || s.ClientCancelStep? || s.ExpireStep? || s.ReinstateStep? {
      StatusStepsKeepDeals(shop, s);
    }
  }

  /** An edit touches its own order only, and neither its terms nor any refund. */
  lemma EditTouchesOneOrder(shop: Shop, s: ShopLaws.Step)
    requires s.EditStep?
    ensures var shop' := Apply(shop, s).0;
            && TermsKept(shop.orders, shop'.orders) && |shop'.orders| == |shop.orders| && shop'.refunds == shop.refunds
            && forall i :: 0 <= i < |shop.orders| && i != s.o ==> shop'.orders[i] == shop.orders[i]
  {
    hide EditedStock, SameLines, ResolveLines;
  }

  lemma {:induction false} TermsNeverChange(shop: Shop, steps: seq<ShopLaws.Step>)
    ensures TermsKept(shop.orders, Run(shop, steps).orders)
  {
    if steps != [] {
      hide Apply;
      var before := Run(shop, steps[..|steps| - 1]);
      TermsNeverChange(shop, steps[..|steps| - 1]);
      if steps[|steps| - 1].EditStep? {
        EditTouchesOneOrder(before, steps[|steps| - 1]);
      } else {
        StepKeepsDeals(before, steps[|steps| - 1]);
      }
    }
  }

  /**
   * However often an order is edited, its subtotal is the sum of its rounded line
   * totals and its total is that plus the fee it was created with.
   */
  lemma TotalsAddUp(opening: Shop, before: seq<ShopLaws.Step>, after: seq<ShopLaws.Step>, o: OrderId)
    requires Opening(opening) && o < |Run(opening, before).orders|
    ensures o < |Run(opening, before + after).orders|
    ensures var order := Run(opening, before + after).orders[o];
            && order.subtotal == SumTotals(order.lines)
            && order.total == order.subtotal + Run(opening, before).orders[o].fee
  {
    hide Apply;
    RunKeeps(opening, before + after);
    RunAppend(opening, before, after);
    TermsNeverChange(Run(opening, before), after);
    assert OrderSound(Run(opening, before + after).orders[o]);
  }

  lemma {:induction false} RunAppend(shop: Shop, a: seq<ShopLaws.Step>, b: seq<ShopLaws.Step>)
    ensures Run(shop, a + b) == Run(Run(shop, a), b)
  {
    hide Apply;
    if b == [] {
      assert a + b == a;
    } else {
      assert (a + b)[..|a + b| - 1] == a + b[..|b| - 1];
      RunAppend(shop, a, b[..|b| - 1]);
    }
  }

  // ---------------- Expiry ----------------

  /** Physical stock and the ledger are as they were. */
  ghost predicate ShelvesUntouched(st: Stock, st': Stock) {
    st'.ledger == st.ledger && st'.inv.Keys == st.inv.Keys
      && forall k :: k in st.inv ==> st'.inv[k].quantity == st.inv[k].quantity
  }

  /** With nothing taken, a release only lets go of holds. */
  lemma PendingReleaseOnlyUnholds(st: Stock, init: Inventory, orders: seq<Order>, o: OrderId, final: ReservationStatus)
    requires Valid(st, init) && Coupled(st, orders) && Dead(final)
    requires o < |orders| && orders[o].status == PENDING
    ensures ShelvesUntouched(st, Release(st, o, final))
  {
    hide Coupled, Valid;
    PendingReleaseNeverThrows(st, init, orders, o, final);
    ValidSound(st, init);
    var st1 := DropHolds(st, o, final);
    var rows := Query(st.rs, OfOrder(o, Reserved));
    DropHoldsShifts(st, o, final);
    PostedAt(st.inv, rows, Unhold);
    assert Query(st1.rs, OfOrder(o, Confirmed)) == [];
    assert Movements(IN, o, []) == [];
    assert st1.ledger + [] == st1.ledger;
  }

  /** An order's lines, seen as cart lines, bring exactly the order's quantities. */
  lemma {:induction false} LinesInCart(ls: seq<Line>, p: ProductId)
    requires Orders.ProperLines(ls)
    ensures Largest(CartLines(ls), p) == LineQty(ls, p) == SumOf(CartLines(ls), p)
  {
    if ls != [] {
      var n := |ls| - 1;
      LinesInCart(ls[..n], p);
      assert CartLines(ls)[..n] == CartLines(ls[..n]);
      if ls[n].prod == p {
        NoLine(ls[..n], p);
      }
    }
  }

  lemma BackInCart(cart: Cart, ls: seq<Line>, p: ProductId)
    requires Orders.ProperLines(ls)
    ensures InCart(Returned(cart, CartLines(ls)), p) == Max(InCart(cart, p), LineQty(ls, p))
  {
    hide Largest, LineQty, CartLines, Useful, SumOf;
    LinesInCart(ls, p);
    LargestUseful(CartLines(ls), p);
  }

  /** What is left of a pending order once it is cancelled unsigned. */
  ghost predicate LetGo(shop: Shop, shop': Shop, o: OrderId)
    requires o < |shop.orders|
  {
    var order := shop.orders[o];
    && ShelvesUntouched(shop.stock, shop'.stock)
    && (forall p :: Live(shop'.stock, o, p, Reserved) == 0 && Live(shop'.stock, o, p, Confirmed) == 0)
    && (forall p :: InCart(CartOf(shop'.carts, order.client), p)
                    == Max(InCart(CartOf(shop.carts, order.client), p), LineQty(order.lines, p)))
    && (forall c :: c != order.client ==> CartOf(shop'.carts, c) == CartOf(shop.carts, c))
  }

  lemma CancelPendingLetsGo(shop: Shop, init: Inventory, o: OrderId, final: ReservationStatus,
                            reason: Option<CancellationReason>)
    requires Inv(shop, init) && o < |shop.orders| && shop.orders[o].status == PENDING && Dead(final)
    ensures CancelPending(shop, o, final, reason).1 == Done
    ensures LetGo(shop, CancelPending(shop, o, final, reason).0, o)
  {
    hide Live, Valid, Coupled, Release, ReleaseThrows, Returned, ShelvesUntouched, InCart, LineQty, CartLines,
         SumTotals, Deadline;
    var order := shop.orders[o];
    PendingReleaseNeverThrows(shop.stock, init, shop.orders, o, final);
    PendingReleaseOnlyUnholds(shop.stock, init, shop.orders, o, final);
    ValidSound(shop.stock, init);
    assert OrderSound(order);
    forall p ensures Live(Release(shop.stock, o, final), o, p, Reserved) == 0
      && Live(Release(shop.stock, o, final), o, p, Confirmed) == 0 {
      ReleaseLive(shop.stock, o, final, o, p);
    }
    forall p ensures InCart(Returned(CartOf(shop.carts, order.client), CartLines(order.lines)), p)
                     == Max(InCart(CartOf(shop.carts, order.client), p), LineQty(order.lines, p)) {
      BackInCart(CartOf(shop.carts, order.client), order.lines, p);
    }
  }

  /**
   * The expiry of one order, in any reachable state: it acts exactly on orders
   * that are pending and not paid at that moment, never throws, lets the holds go
   * without touching shelf or ledger, and gives the lines back to the cart.
   */
  lemma ExpireIsSafe(shop: Shop, init: Inventory, o: OrderId)
    requires Inv(shop, init)
    ensures var (shop', outcome) := Expire(shop, o);
            && outcome != Fault
            && (outcome == Done <==>
                o < |shop.orders| && shop.orders[o].status == PENDING && shop.orders[o].payment != Paid)
            && (outcome == Done ==>
                  && shop'.orders == shop.orders[o := shop.orders[o].(status := CANCELLED,
                                                                      reason := Some(PaymentNotReceived))]
                  && LetGo(shop, shop', o))
  {
    hide Inv, LetGo, Release, ReleaseThrows, Returned;
    if o < |shop.orders| && shop.orders[o].status == PENDING && shop.orders[o].payment != Paid {
      CancelPendingLetsGo(shop, init, o, ReservationStatus.Expired, Some(PaymentNotReceived));
    }
  }

  /** A client's cancellation acts exactly on their own pending orders, paid or not, in the same way. */
  lemma ClientCancelIsSafe(shop: Shop, init: Inventory, client: ClientId, o: OrderId)
    requires Inv(shop, init)
    ensures var (shop', outcome) := CancelByClient(shop, client, o);
            && outcome != Fault
            && (outcome == Done <==>
                o < |shop.orders| && shop.orders[o].client == client && shop.orders[o].status == PENDING)
            && (outcome == Done ==>
                  && shop'.orders == shop.orders[o := shop.orders[o].(status := CANCELLED)]
                  && LetGo(shop, shop', o))
  {
    hide Inv, LetGo, Release, ReleaseThrows, Returned;
    if o < |shop.orders| && shop.orders[o].status == PENDING {
      CancelPendingLetsGo(shop, init, o, ReservationStatus.Cancelled, shop.orders[o].reason);
    }
  }

  // ---------------- Marking a payment by hand ----------------

  /**
   * Marks by hand only go forward: a paid order can only become refunded, a refunded
   * one nothing else; the date of the first payment stays, and with it the promise.
   */
  ghost predicate MarkedBy(before: Order, after: Order, to: PaymentStatus, day: Civil) {
    && after.payment == to && before.payment != Refunded && (before.payment == Paid ==> to == Refunded)
    && (to == Refunded ==> before.payment == Paid)
    && after.paidOn == (if to == Paid && before.paidOn.None? then Some(day) else before.paidOn)
    && (before.promisedOn.Some? ==> after.promisedOn == before.promisedOn)
    && (before.promisedOn.None? && after.promisedOn.Some? ==>
          to == Paid && after.promisedOn == Deadline(after.paidOn.value, before.promiseDays))
    && after.status == before.status && SameDeal(before, after)
  }

  lemma MarkingPayment(shop: Shop, o: OrderId, to: PaymentStatus, now: Instant)
    requires UpdatePayment(shop, o, to, now).1 == Done
    ensures o < |shop.orders|
    ensures var shop' := UpdatePayment(shop, o, to, now).0;
            shop' == shop.(orders := shop'.orders) && |shop'.orders| == |shop.orders|
            && MarkedBy(shop.orders[o], shop'.orders[o], to, now.day)
            && forall i :: 0 <= i < |shop.orders| && i != o ==> shop'.orders[i] == shop.orders[i]
  {
    hide Deadline;
  }

  // ---------------- A fresh window to be paid in ----------------

  /** From `from` on, the order is not due before a whole window has gone by, whatever its attempts. */
  ghost predicate FreshWindow(o: Order, from: int) {
    forall charge: Option<Charge>, t: int, w: Windows :: IsExpired(o, charge, t, w) ==> t - from >= WindowOf(charge, w)
  }

  lemma ReinstatedGetsAFreshWindow(shop: Shop, o: OrderId, area: Area, now: Instant)
    requires Reinstate(shop, o, area, now).1 == Done
    ensures FreshWindow(Reinstate(shop, o, area, now).0.orders[o], now.ms)
  {
    hide ReserveLines;
  }

  /** A correction that leaves an order pending and unpaid gives it one too, unless it already was. */
  lemma CorrectedGetsAFreshWindow(order: Order, to: OrderStatus, toPayment: PaymentStatus, now: Instant)
    requires to == PENDING && toPayment != Paid && (order.status != PENDING || order.payment == Paid)
    ensures FreshWindow(Corrected(order, to, toPayment, now), now.ms)
  {
    hide Restated, Repaid;
    RepaidKeepsStatus(Restated(order, to), toPayment, now);
    assert Restated(order, to).status == PENDING by {
      RestatedStatus(order, to);
    }
  }

  lemma RestatedStatus(order: Order, to: OrderStatus)
    ensures Restated(order, to).status == to
  {
  }

  lemma RepaidKeepsStatus(order: Order, to: PaymentStatus, now: Instant)
    ensures Repaid(order, to, now).status == order.status && Repaid(order, to, now).payment == to
  {
    hide Deadline;
  }

  // ---------------- The sweep ----------------

  /** What was cancelled while the sweep went through the orders it found due, other calls coming in between. */
  function Sweep(shop: Shop, due: seq<OrderId>, between: seq<seq<ShopLaws.Step>>): (Shop, seq<OrderId>)
    requires |between| == |due|
  {
    if due == [] then (shop, [])
    else
      var n := |due| - 1;
      var (before, ids) := Sweep(shop, due[..n], between[..n]);
      var (after, outcome) := Expire(Run(before, between[n]), due[n]);
      (after, if outcome == Done then ids + [due[n]] else ids)
  }

  /** The calls a sweep amounts to, with those in between. */
  function SweepSteps(due: seq<OrderId>, between: seq<seq<ShopLaws.Step>>): seq<ShopLaws.Step>
    requires |between| == |due|
  {
    if due == [] then []
    else
      var n := |due| - 1;
      SweepSteps(due[..n], between[..n]) + between[n] + [ExpireStep(due[n])]
  }

  /** The state in which the sweep came to expire its `i`-th order. */
  function AtTurn(shop: Shop, due: seq<OrderId>, between: seq<seq<ShopLaws.Step>>, i: nat): Shop
    requires |between| == |due| && i < |due|
  {
    Run(Sweep(shop, due[..i], between[..i]).0, between[i])
  }

  lemma {:induction false} SweepIsRun(shop: Shop, due: seq<OrderId>, between: seq<seq<ShopLaws.Step>>)
    requires |between| == |due|
    ensures Sweep(shop, due, between).0 == Run(shop, SweepSteps(due, between))
  {
    if due != [] {
      hide Apply;
      var n := |due| - 1;
      var steps := SweepSteps(due[..n], between[..n]);
      SweepIsRun(shop, due[..n], between[..n]);
      RunAppend(shop, steps, between[n]);
      RunAppend(shop, steps + between[n], [ExpireStep(due[n])]);
      OneStep(Run(shop, steps + between[n]), due[n]);
    }
  }

  lemma OneStep(shop: Shop, o: OrderId)
    ensures Run(shop, [ExpireStep(o)]) == Expire(shop, o).0
  {
    hide Expire;
    assert [ExpireStep(o)][..0] == [];
    assert Run(shop, []) == shop;
  }

  /**
   * Whatever happened since the scan, and between one order and the next: an
   * order the sweep reports cancelled was pending and not paid when its turn came,
   * its release restocked nothing and could not throw; the others were left alone.
   */
  lemma {:induction false} SweepCancelsOnlyUnpaid(opening: Shop, history: seq<ShopLaws.Step>, due: seq<OrderId>,
                                                  between: seq<seq<ShopLaws.Step>>)
    requires Opening(opening) && |between| == |due|
    ensures var start := Run(opening, history);
            forall i :: 0 <= i < |due| ==>
              var before := AtTurn(start, due, between, i);
              var (after, outcome) := Expire(before, due[i]);
              && outcome != Fault
              && (outcome == Done ==>
                    && before.orders[due[i]].status == PENDING && before.orders[due[i]].payment != Paid
                    && ShelvesUntouched(before.stock, after.stock))
              && (outcome != Done ==> after == before)
    ensures forall o :: o in Sweep(Run(opening, history), due, between).1 ==>
              exists i :: 0 <= i < |due| && due[i] == o
                && Expire(AtTurn(Run(opening, history), due, between, i), o).1 == Done
  {
    hide Apply, Expire, ShelvesUntouched, Inv;
    var start := Run(opening, history);
    forall i | 0 <= i < |due|
      ensures var before := AtTurn(start, due, between, i);
              var (after, outcome) := Expire(before, due[i]);
              && outcome != Fault
              && (outcome == Done ==>
                    && due[i] < |before.orders| && before.orders[due[i]].status == PENDING
                       && before.orders[due[i]].payment != Paid
                    && ShelvesUntouched(before.stock, after.stock))
              && (outcome != Done ==> after == before)
    {
      TurnIsReachable(opening, history, due, between, i);
      var before := AtTurn(start, due, between, i);
      ExpireIsSafe(before, opening.stock.inv, due[i]);
      ExpireRefused(before, due[i]);
    }
    Reported(start, due, between);
  }

  lemma ExpireRefused(shop: Shop, o: OrderId)
    ensures Expire(shop, o).1 != Done ==> Expire(shop, o).0 == shop
  {
    hide Release, ReleaseThrows, Returned;
  }

  lemma TurnIsReachable(opening: Shop, history: seq<ShopLaws.Step>, due: seq<OrderId>, between: seq<seq<ShopLaws.Step>>,
                        i: nat)
    requires Opening(opening) && |between| == |due| && i < |due|
    ensures Inv(AtTurn(Run(opening, history), due, between, i), opening.stock.inv)
  {
    hide Apply, Inv;
    var steps := SweepSteps(due[..i], between[..i]);
    SweepIsRun(Run(opening, history), due[..i], between[..i]);
    RunAppend(opening, history, steps);
    RunAppend(opening, history + steps, between[i]);
    RunKeeps(opening, history + steps + between[i]);
  }

  lemma {:induction false} Reported(start: Shop, due: seq<OrderId>, between: seq<seq<ShopLaws.Step>>)
    requires |between| == |due|
    ensures forall o :: o in Sweep(start, due, between).1 ==>
              exists i :: 0 <= i < |due| && due[i] == o && Expire(AtTurn(start, due, between, i), o).1 == Done
  {
    hide Run, Expire;
    if due != [] {
      var n := |due| - 1;
      Reported(start, due[..n], between[..n]);
      forall o | o in Sweep(start, due, between).1
        ensures exists i :: 0 <= i < |due| && due[i] == o && Expire(AtTurn(start, due, between, i), o).1 == Done
      {
        if o in Sweep(start, due[..n], between[..n]).1 {
          var i :| 0 <= i < n && due[..n][i] == o && Expire(AtTurn(start, due[..n], between[..n], i), o).1 == Done;
          assert due[..n][..i] == due[..i] && between[..n][..i] == between[..i];
          assert due[i] == o && AtTurn(start, due, between, i) == AtTurn(start, due[..n], between[..n], i);
        } else {
          assert due[n] == o && Expire(AtTurn(start, due, between, n), o).1 == Done;
        }
      }
    }
  }
}
