/**
 * Laws of the payments: what a gateway can and cannot do to an order, the two
 * ways a late payment can end, and which orders the expiry scan hands over.
 */
module PaymentLaws {
  import opened Wrappers
  import opened Tables
  import opened Allocation
  import opened StockSpec
  import opened StockLaws
  import opened Calendar
  import opened CartModule
  import opened Orders
  import opened OrderLaws
  import opened EditLaws
  import opened Refunds
  import opened Payments
  import opened ShopLaws
  import opened LifecycleLaws
  import opened Catalogue

  // ---------------- What a gateway does to an order ----------------

  /** What a payment becomes once its charge reads `s`: only a paid order is out of reach, a refunded one is not. */
  function PaymentOnceCharged(before: PaymentStatus, s: ChargeStatus): PaymentStatus {
    if before == Paid then Paid
    else if s == Succeeded then Paid
    else if s == ChargeFailed then PaymentFailed
    else before
  }

  /**
   * An order that is paid, or not the one charged, is left alone altogether; the other gets the
   * payment of its charge.
   */
  lemma PropagateEffect(shop: Shop, c: Charge, area: Area, now: Instant)
    ensures var shop' := Propagate(shop, c, area, now);
            && |shop'.orders| == |shop.orders| && shop'.charges == shop.charges
            && (forall i :: 0 <= i < |shop.orders| && (i != c.order || shop.orders[i].payment == Paid) ==>
                  shop'.orders[i] == shop.orders[i])
            && (c.order < |shop.orders| ==>
                  shop'.orders[c.order].payment == PaymentOnceCharged(shop.orders[c.order].payment, c.status))
  {
    hide ReserveLines, SealPayment, Removed, RequestRefund;
    if c.order < |shop.orders| {
      var order := shop.orders[c.order];
      SealLeavesState(order.(payment := Paid), c.completedOn.GetOr(now.day));
      var flagged := PaidBy(order, c, now).(status := CANCELLED, reason := Some(PaidAfterExpiryOutOfStock));
      RequestLeavesOrders(shop.(orders := shop.orders[c.order := PaidBy(order, c, now)][c.order := flagged]), c.order);
    }
  }

  lemma SealLeavesState(o: Order, day: Civil)
    ensures var o' := SealPayment(o, day); o'.payment == o.payment && o'.status == o.status && o'.reason == o.reason
  {
    hide Deadline;
  }

  lemma RequestLeavesOrders(shop: Shop, o: OrderId)
    ensures var shop' := RequestRefund(shop, o, None).0; shop'.orders == shop.orders && shop'.charges == shop.charges
  {
    hide Refundable;
  }

  lemma GatewayNeverUnpays(shop: Shop, s: ShopLaws.Step, i: nat)
    requires s.SyncStep? || s.WebhookStep?
    requires i < |shop.orders| && shop.orders[i].payment == Paid
    ensures i < |Apply(shop, s).0.orders| && Apply(shop, s).0.orders[i] == shop.orders[i]
  {
    hide Propagate;
    match s
    case SyncStep(id, notice, area, now) =>
      if id < |shop.charges| {
        var c := Noted(shop.charges[id], notice);
        PropagateEffect(shop.(charges := shop.charges[id := c]), c, area, now);
      }
    case WebhookStep(ref, notice, area, now) =>
      if ref.Some? && ref.value < |shop.charges| {
        var c := Settled(Noted(shop.charges[ref.value], notice), now);
        PropagateEffect(shop.(charges := shop.charges[ref.value := c]), c, area, now);
      }
  }

  // ---------------- What adds orders ----------------

  lemma OnlyCreationAddsOrders(shop: Shop, s: ShopLaws.Step)
    requires !s.CreateStep?
    ensures |Apply(shop, s).0.orders| == |shop.orders|
  {
    hide ReserveLines, StatusStock, Release, ReleaseThrows, Returned, CorrectedStock, Corrected, EditedStock,
         SameLines, ResolveLines, Operate, SealPayment, JumpAllowed, StepAllowed, PaymentAllowed, Propagate, Cents;
    match s
    case SyncStep(id, notice, area, now) =>
      if Found(shop.charges, id) {
        var c := Noted(shop.charges[id], notice);
        PropagateEffect(shop.(charges := shop.charges[id := c]), c, area, now);
      }
    case WebhookStep(ref, notice, area, now) =>
      if ref.Some? && Found(shop.charges, ref.value) {
        var c := Settled(Noted(shop.charges[ref.value], notice), now);
        PropagateEffect(shop.(charges := shop.charges[ref.value := c]), c, area, now);
      }
    case _ =>
  }

  // ---------------- Hearing the same news again ----------------

  /** A webhook that names the charge with another status than `status`. */
  predicate Contradicts(s: ShopLaws.Step, id: nat, status: ChargeStatus) {
    s.WebhookStep? && s.ref == Some(id) && s.notice.status.Some? && s.notice.status.value != status
  }

  lemma OthersLeaveCharges(shop: Shop, s: ShopLaws.Step)
    requires !s.ChargeStep? && !s.RemoveStep? && !s.SyncStep? && !s.WebhookStep?
    ensures Apply(shop, s).0.charges == shop.charges
  {
    hide ReserveLines, StatusStock, Release, ReleaseThrows, Returned, CorrectedStock, Corrected, EditedStock, SameLines,
         ResolveLines, Operate, SealPayment, JumpAllowed, StepAllowed, PaymentAllowed, Cents;
  }

  /** The status a charge ended with survives every call but a webhook that finds it and says otherwise. */
  lemma EndedStaysEnded(shop: Shop, s: ShopLaws.Step, id: nat)
    requires id < |shop.charges| && Terminal(shop.charges[id].status)
    ensures var charges := Apply(shop, s).0.charges;
            && id < |charges|
            && (charges[id].status == shop.charges[id].status
                <==> !(Found(shop.charges, id) && Contradicts(s, id, shop.charges[id].status)))
  {
    hide SyncCharge, HandleWebhook, Create, UpdateStatus, CancelByClient, Expire, Reinstate, Correct, UpdatePayment,
         UpdateItems, Orders.ByHand, RequestRefund, CompleteRefund, RejectRefund, Contradicts;
    match s
    case SyncStep(i, notice, area, now) => PollAfterTheEnd(shop, i, notice, area, now, id);
    case WebhookStep(ref, notice, area, now) => WebhookAfterTheEnd(shop, ref, notice, area, now, id);
    case ChargeStep(_) => NoContradiction(s, id, shop.charges[id].status);
    case RemoveStep(_, _) => NoContradiction(s, id, shop.charges[id].status);
    case _ =>
      OthersLeaveCharges(shop, s);
      NoContradiction(s, id, shop.charges[id].status);
  }

  lemma NoContradiction(s: ShopLaws.Step, id: nat, status: ChargeStatus)
    requires !s.WebhookStep?
    ensures !Contradicts(s, id, status)
  {
  }

  lemma PollAfterTheEnd(shop: Shop, i: nat, notice: Notice, area: Area, now: Instant, id: nat)
    requires id < |shop.charges| && Terminal(shop.charges[id].status)
    ensures var charges := SyncCharge(shop, i, notice, area, now).0.charges;
            id < |charges| && charges[id].status == shop.charges[id].status
    ensures !Contradicts(SyncStep(i, notice, area, now), id, shop.charges[id].status)
  {
    hide Propagate;
    if Found(shop.charges, i) {
      var c := Noted(shop.charges[i], notice);
      PropagateEffect(shop.(charges := shop.charges[i := c]), c, area, now);
    }
  }

  lemma WebhookAfterTheEnd(shop: Shop, ref: Option<nat>, notice: Notice, area: Area, now: Instant, id: nat)
    requires id < |shop.charges| && Terminal(shop.charges[id].status)
    ensures var charges := HandleWebhook(shop, ref, notice, area, now).0.charges;
            && id < |charges|
            && (charges[id].status == shop.charges[id].status <==>
                !(Found(shop.charges, id)
                  && Contradicts(WebhookStep(ref, notice, area, now), id, shop.charges[id].status)))
  {
    hide Propagate;
    if ref.Some? && Found(shop.charges, ref.value) {
      var c := Settled(Noted(shop.charges[ref.value], notice), now);
      PropagateEffect(shop.(charges := shop.charges[ref.value := c]), c, area, now);
    }
  }

  lemma {:induction false} EndedOverRuns(shop: Shop, steps: seq<ShopLaws.Step>, id: nat)
    requires id < |shop.charges| && Terminal(shop.charges[id].status)
    requires forall i :: 0 <= i < |steps| ==> !Contradicts(steps[i], id, shop.charges[id].status)
    ensures var charges := Run(shop, steps).charges;
            id < |charges| && charges[id].status == shop.charges[id].status
  {
    if steps != [] {
      hide Apply, Contradicts;
      var n := |steps| - 1;
      EndedOverRuns(shop, steps[..n], id);
      EndedStaysEnded(Run(shop, steps[..n]), steps[n], id);
    }
  }

  /** The call by which the shop learns that a charge ended: a webhook, or a poll of one that had not. */
  predicate Reports(shop: Shop, s: ShopLaws.Step, id: nat, status: ChargeStatus) {
    && Found(shop.charges, id) && Terminal(status)
    && match s
       case WebhookStep(ref, notice, _, _) => ref == Some(id) && notice.status == Some(status)
       case SyncStep(i, notice, _, _) => i == id && notice.status == Some(status) && !Terminal(shop.charges[id].status)
       case _ => false
  }

  lemma ReportEnds(shop: Shop, s: ShopLaws.Step, id: nat, status: ChargeStatus)
    requires Reports(shop, s, id, status)
    ensures id < |Apply(shop, s).0.charges| && Apply(shop, s).0.charges[id].status == status
  {
    hide Propagate;
    match s
    case SyncStep(_, notice, area, now) =>
      var c := Noted(shop.charges[id], notice);
      PropagateEffect(shop.(charges := shop.charges[id := c]), c, area, now);
    case WebhookStep(_, notice, area, now) =>
      var c := Settled(Noted(shop.charges[id], notice), now);
      PropagateEffect(shop.(charges := shop.charges[id := c]), c, area, now);
  }

  /**
   * Once a charge is known to have ended, hearing it again and polling for it change
   * nothing, whatever other calls came in between, as long as no webhook said that
   * it ended otherwise.
   */
  lemma RedeliveryChangesNothing(shop: Shop, report: ShopLaws.Step, steps: seq<ShopLaws.Step>, id: nat,
                                 status: ChargeStatus, again: Notice, answer: Notice, area: Area, now: Instant)
    requires Reports(shop, report, id, status) && again.status == Some(status)
    requires forall i :: 0 <= i < |steps| ==> !Contradicts(steps[i], id, status)
    ensures var later := Run(Apply(shop, report).0, steps);
            && HandleWebhook(later, Some(id), again, area, now) == (later, Done)
            && SyncCharge(later, id, answer, area, now).0 == later
  {
    hide Apply, Run;
    ReportEnds(shop, report, id, status);
    EndedOverRuns(Apply(shop, report).0, steps, id);
  }

  // ---------------- The payment that arrives late ----------------

  /** Every line can be held again. */
  predicate Servable(shop: Shop, o: OrderId, area: Area)
    requires o < |shop.orders|
  {
    var order := shop.orders[o];
    forall i :: 0 <= i < |order.lines| ==>
        order.lines[i].quantity <= FreeFor(shop.stock, order.lines[i].prod, area, order.pickup)
  }

  /**
   * The order as a charge that went through leaves it: paid, on the charge's
   * date or today's if it was not paid before.
   */
  ghost predicate PaidFrom(before: Order, after: Order, c: Charge, today: Civil) {
    && after.payment == Paid
    && after.paidOn == (if before.paidOn.Some? then before.paidOn
                        else if c.completedOn.Some? then c.completedOn else Some(today))
    && after.promisedOn == (if before.promisedOn.Some? then before.promisedOn
                            else Deadline(after.paidOn.value, before.promiseDays))
  }

  lemma PaidByIs(o: Order, c: Charge, now: Instant)
    ensures var paid := PaidBy(o, c, now);
            && PaidFrom(o, paid, c, now.day)
            && paid == o.(payment := Paid, paidOn := paid.paidOn, promisedOn := paid.promisedOn)
  {
    hide Deadline;
  }

  /** Everything about an order but its status, its reason, its payment and what hangs from it. */
  ghost predicate SameElse(before: Order, after: Order) {
    after == before.(status := after.status, reason := after.reason, payment := after.payment, paidOn := after.paidOn,
                     promisedOn := after.promisedOn)
  }

  /** Back to life: every line held, pending and paid, the reason cleared, the lines out of the cart. */
  ghost predicate CameBack(shop: Shop, shop': Shop, o: OrderId, c: Charge, now: Instant)
    requires o < |shop.orders|
  {
    var order, client := shop.orders[o], shop.orders[o].client;
    && |shop'.orders| == |shop.orders| && SameElse(order, shop'.orders[o])
    && PaidFrom(order, shop'.orders[o], c, now.day)
    && shop'.orders[o].status == PENDING && shop'.orders[o].reason.None?
    && (forall i :: 0 <= i < |shop.orders| && i != o ==> shop'.orders[i] == shop.orders[i])
    && (forall p :: Live(shop'.stock, o, p, Reserved) == LineQty(order.lines, p))
    && shop'.refunds == shop.refunds
    && (forall p :: InCart(CartOf(shop'.carts, client), p)
                    == Max(0, InCart(CartOf(shop.carts, client), p) - LineQty(order.lines, p)))
    && (forall other :: other != client ==> CartOf(shop'.carts, other) == CartOf(shop.carts, other))
  }

  /** Nothing to serve it with: stock and carts untouched, flagged, one refund request for what was not promised yet. */
  ghost predicate StayedCancelled(shop: Shop, shop': Shop, o: OrderId, c: Charge, now: Instant)
    requires o < |shop.orders|
  {
    var order := shop.orders[o];
    var left := order.total - Promised(shop.refunds, o);
    && shop'.stock == shop.stock && shop'.carts == shop.carts
    && |shop'.orders| == |shop.orders| && SameElse(order, shop'.orders[o])
    && PaidFrom(order, shop'.orders[o], c, now.day)
    && shop'.orders[o].status == CANCELLED && shop'.orders[o].reason == Some(PaidAfterExpiryOutOfStock)
    && (forall i :: 0 <= i < |shop.orders| && i != o ==> shop'.orders[i] == shop.orders[i])
    && shop'.refunds == shop.refunds + if left > 0 then [Refund(o, left, Requested)] else []
  }

  /** What both endings start from: the order charged and sealed, before its stock is looked at. */
  lemma LateIsReinstated(shop: Shop, c: Charge, area: Area, now: Instant)
    requires c.order < |shop.orders| && c.status == Succeeded && shop.orders[c.order].payment != Paid
    ensures var paid := PaidBy(shop.orders[c.order], c, now);
            && Propagate(shop, c, area, now)
               == ReinstateIfExpired(shop.(orders := shop.orders[c.order := paid]), c.order, area)
            && paid.payment == Paid && paid.status == shop.orders[c.order].status
            && paid.reason == shop.orders[c.order].reason
            && paid.lines == shop.orders[c.order].lines && paid.pickup == shop.orders[c.order].pickup
            && paid.client == shop.orders[c.order].client && paid.total == shop.orders[c.order].total
  {
    hide ReinstateIfExpired, SealPayment;
    var order := shop.orders[c.order].(payment := Paid);
    SealKeepsDeal(order, c.completedOn.GetOr(now.day));
    SealLeavesState(order, c.completedOn.GetOr(now.day));
  }

  /** What the lines of an order leave in a cart. */
  lemma OutOfTheCart(carts: map<ClientId, Cart>, client: ClientId, ls: seq<Line>, p: ProductId)
    requires Orders.ProperLines(ls)
    ensures var after := carts[client := Removed(CartOf(carts, client), CartLines(ls))];
            InCart(CartOf(after, client), p) == Max(0, InCart(CartOf(carts, client), p) - LineQty(ls, p))
  {
    hide SumOf, LineQty, CartLines, Largest;
    LinesInCart(ls, p);
  }

  lemma LateAndServed(shop: Shop, init: Inventory, c: Charge, area: Area, now: Instant, st: Stock)
    requires Inv(shop, init) && c.order < |shop.orders| && c.status == Succeeded
    requires var order := shop.orders[c.order];
             order.status == CANCELLED && order.reason == Some(PaymentNotReceived) && order.payment != Paid
    requires ReserveLines(shop.stock, c.order, shop.orders[c.order].lines, area, shop.orders[c.order].pickup)
             == Some(st)
    ensures CameBack(shop, Propagate(shop, c, area, now), c.order, c, now)
  {
    hide Valid, Live, ReserveLines, PaidBy, Propagate, Removed, CartLines, OrdersSound, PaidFrom, InCart, LineQty;
    var o := c.order;
    var order, paid := shop.orders[o], PaidBy(shop.orders[o], c, now);
    LateIsReinstated(shop, c, area, now);
    PaidByIs(order, c, now);
    PaidFromCarries(order, paid, paid.(status := PENDING, reason := None), c, now.day);
    ReserveLinesKeep(shop.stock, init, o, order.lines, area, order.pickup);
    Rewritten(shop.orders, o, paid, paid.(status := PENDING, reason := None));
    LinesAreProper(shop, init, o);
    forall p ensures InCart(CartOf(Propagate(shop, c, area, now).carts, order.client), p)
                     == Max(0, InCart(CartOf(shop.carts, order.client), p) - LineQty(order.lines, p))
    {
      OutOfTheCart(shop.carts, order.client, order.lines, p);
    }
    assert forall p: ProductId :: Live(shop.stock, o, p, Reserved) == Due(shop.orders, o, p, Held);
  }

  lemma PaidFromCarries(before: Order, paid: Order, after: Order, c: Charge, today: Civil)
    requires PaidFrom(before, paid, c, today)
    requires after == paid.(status := after.status, reason := after.reason)
    ensures PaidFrom(before, after, c, today)
  {
  }

  lemma LateAndUnserved(shop: Shop, c: Charge, area: Area, now: Instant)
    requires c.order < |shop.orders| && c.status == Succeeded
    requires var order := shop.orders[c.order];
             order.status == CANCELLED && order.reason == Some(PaymentNotReceived) && order.payment != Paid
    requires ReserveLines(shop.stock, c.order, shop.orders[c.order].lines, area, shop.orders[c.order].pickup).None?
    ensures StayedCancelled(shop, Propagate(shop, c, area, now), c.order, c, now)
  {
    hide ReserveLines, PaidBy, Propagate, PaidFrom, Cents;
    var o, order, paid := c.order, shop.orders[c.order], PaidBy(shop.orders[c.order], c, now);
    LateIsReinstated(shop, c, area, now);
    PaidByIs(order, c, now);
    PaidFromCarries(order, paid, paid.(reason := Some(PaidAfterExpiryOutOfStock)), c, now.day);
    Rewritten(shop.orders, o, paid, paid.(reason := Some(PaidAfterExpiryOutOfStock)));
    PromisedSplits(shop.refunds, o);
    assert shop.refunds + [] == shop.refunds;
  }

  /**
   * A payment that lands on an order that expired unpaid ends in one of two ways,
   * and which one depends only on whether every line can be held again.
   */
  lemma LatePayment(shop: Shop, init: Inventory, c: Charge, area: Area, now: Instant)
    requires Inv(shop, init) && c.order < |shop.orders| && c.status == Succeeded
    requires var order := shop.orders[c.order];
             order.status == CANCELLED && order.reason == Some(PaymentNotReceived) && order.payment != Paid
    ensures var shop' := Propagate(shop, c, area, now);
            if Servable(shop, c.order, area) then CameBack(shop, shop', c.order, c, now)
            else StayedCancelled(shop, shop', c.order, c, now)
  {
    hide Valid, Coupled, ReserveLines, Propagate, CameBack, StayedCancelled, FreeFor, OrdersSound;
    var order := shop.orders[c.order];
    LinesAreProper(shop, init, c.order);
    LinesDoNotCompete(shop.stock, init, c.order, order.lines, area, order.pickup);
    var st := ReserveLines(shop.stock, c.order, order.lines, area, order.pickup);
    if st.Some? {
      LateAndServed(shop, init, c, area, now, st.value);
    } else {
      LateAndUnserved(shop, c, area, now);
    }
  }

  // ---------------- Which orders the scan hands over ----------------

  /** An attempt is stored after its order has been, and after its gateway answered. */
  predicate ChargedAfterwards(o: Order, charge: Option<Charge>) {
    charge.Some? ==> charge.value.createdAt > o.createdAt
  }

  /**
   * An unsettled order that is due is examined, unless the two windows are equal, nobody ever tried
   * to pay, and it is due this instant.
   */
  lemma ScanExaminesTheDue(o: Order, charge: Option<Charge>, now: int, w: Windows)
    requires Unsettled(o) && ChargedAfterwards(o, charge) && w.gateway <= w.manual && IsExpired(o, charge, now, w)
    ensures !WorthChecking(o, now, w) <==> charge.None? && w.gateway == w.manual && o.createdAt == now - w.gateway
    ensures ClockStart(o, charge) + WindowOf(charge, w) < now ==> WorthChecking(o, now, w)
  {
  }

  /** The scan examines everything that is due exactly when the gateway's window is the shorter one. */
  lemma ScanIsCompleteIff(w: Windows)
    ensures w.gateway < w.manual <==>
            forall o: Order, charge: Option<Charge>, now: int ::
              Unsettled(o) && ChargedAfterwards(o, charge) && IsExpired(o, charge, now, w) ==> WorthChecking(o, now, w)
  {
    if w.gateway >= w.manual {
      var o := Order(0, PENDING, Unpaid, None, [], 0, 0, 0, false, None, None, None, None, None, 0, None);
      assert IsExpired(o, None, w.manual, w) && !WorthChecking(o, w.manual, w);
    }
  }

  /** What the sweep goes on to expire: exactly the orders worth checking that are due, each once. */
  lemma {:induction false} DueOrdersAre(shop: Shop, now: int, w: Windows, n: nat)
    requires n <= |shop.orders|
    ensures NoRepeats(DueOrders(shop, now, w, n))
    ensures forall o: OrderId :: o in DueOrders(shop, now, w, n) <==>
              o < n && WorthChecking(shop.orders[o], now, w)
                && IsExpired(shop.orders[o], LatestCharge(shop.charges, o), now, w)
  {
    if n > 0 {
      DueOrdersAre(shop, now, w, n - 1);
    }
  }

  lemma {:induction false} LatestChargeIsLatest(charges: seq<Charge>, o: OrderId)
    ensures LatestCharge(charges, o).None? <==>
            forall i :: 0 <= i < |charges| ==> charges[i].order != o || charges[i].removed
    ensures LatestCharge(charges, o).Some? ==>
              var c := LatestCharge(charges, o).value;
              && c in charges && c.order == o && !c.removed
              && forall i :: 0 <= i < |charges| && charges[i].order == o && !charges[i].removed ==>
                   charges[i].createdAt <= c.createdAt
  {
    if charges != [] {
      assert charges == charges[..|charges| - 1] + [charges[|charges| - 1]];
      LatestChargeIsLatest(charges[..|charges| - 1], o);
    }
  }

  /**
   * What the sweep goes on to expire has waited: it is unsettled, its latest attempt
   * is neither cash nor in flight, and since that attempt, every earlier one and any
   * reinstatement the whole window has gone by.
   */
  lemma DueOrdersHaveWaited(shop: Shop, now: int, w: Windows, o: OrderId)
    requires o in DueOrders(shop, now, w, |shop.orders|)
    ensures o < |shop.orders| && Unsettled(shop.orders[o])
    ensures var charge := LatestCharge(shop.charges, o);
            && (charge.Some? ==> !charge.value.cash && charge.value.status != Processing)
            && (forall i :: 0 <= i < |shop.charges| && shop.charges[i].order == o && !shop.charges[i].removed ==>
                  now - shop.charges[i].createdAt >= WindowOf(charge, w))
            && (shop.orders[o].reinstatedAt.Some? ==> now - shop.orders[o].reinstatedAt.value >= WindowOf(charge, w))
  {
    hide DueOrders, LatestCharge;
    DueOrdersAre(shop, now, w, |shop.orders|);
    LatestChargeIsLatest(shop.charges, o);
  }

  /**
   * With the gateway's window the shorter one, as it is by default, the sweep goes
   * on with exactly the unsettled orders that are due: the scan loses none.
   */
  lemma SweepMissesNothing(shop: Shop, now: int, w: Windows)
    requires w.gateway < w.manual
    requires forall i :: 0 <= i < |shop.charges| && shop.charges[i].order < |shop.orders| ==>
               shop.charges[i].createdAt > shop.orders[shop.charges[i].order].createdAt
    ensures forall o: OrderId :: o in DueOrders(shop, now, w, |shop.orders|) <==>
              && o < |shop.orders| && Unsettled(shop.orders[o])
              && IsExpired(shop.orders[o], LatestCharge(shop.charges, o), now, w)
  {
    hide DueOrders, LatestCharge, IsExpired;
    DueOrdersAre(shop, now, w, |shop.orders|);
    forall o: OrderId | o < |shop.orders| && Unsettled(shop.orders[o])
                        && IsExpired(shop.orders[o], LatestCharge(shop.charges, o), now, w)
      ensures WorthChecking(shop.orders[o], now, w)
    {
      LatestChargeIsLatest(shop.charges, o);
      ScanExaminesTheDue(shop.orders[o], LatestCharge(shop.charges, o), now, w);
    }
  }

  /** The whole window has gone by since the instant and since any reinstatement. */
  predicate Elapsed(o: Order, since: int, window: int, now: int) {
    now - since >= window && (o.reinstatedAt.Some? ==> now - o.reinstatedAt.value >= window)
  }

  /**
   * Whether the order's time is up, by its latest attempt: never for cash or money in
   * flight; after the short window for a gateway; after the long one for a manual
   * method, or counted from the order itself if nobody tried to pay.
   */
  predicate TimeIsUp(o: Order, latest: Option<Charge>, now: int, w: Windows) {
    match latest
    case None => Elapsed(o, o.createdAt, w.manual, now)
    case Some(c) =>
      && !c.cash && c.status != Processing
      && (c.gateway ==> Elapsed(o, c.createdAt, w.gateway, now))
      && (!c.gateway ==> Elapsed(o, c.createdAt, w.manual, now))
  }

  lemma ExpiredIs(o: Order, latest: Option<Charge>, now: int, w: Windows)
    ensures IsExpired(o, latest, now, w) <==> TimeIsUp(o, latest, now, w)
  {
  }

  /** What the sweep goes on to expire: pending, unpaid or failed, older than the short window, and its time up. */
  lemma SweepListIs(shop: Shop, now: int, w: Windows)
    ensures forall o: OrderId :: o in DueOrders(shop, now, w, |shop.orders|) <==>
              && o < |shop.orders| && shop.orders[o].status == PENDING
              && (shop.orders[o].payment == Unpaid || shop.orders[o].payment == PaymentFailed)
              && shop.orders[o].createdAt < now - w.gateway
              && TimeIsUp(shop.orders[o], LatestCharge(shop.charges, o), now, w)
  {
    hide DueOrders, LatestCharge, IsExpired, TimeIsUp;
    DueOrdersAre(shop, now, w, |shop.orders|);
    forall o: OrderId | o < |shop.orders|
      ensures IsExpired(shop.orders[o], LatestCharge(shop.charges, o), now, w)
              <==> TimeIsUp(shop.orders[o], LatestCharge(shop.charges, o), now, w)
    {
      ExpiredIs(shop.orders[o], LatestCharge(shop.charges, o), now, w);
    }
  }

  /**
   * With the gateway's window the shorter one and attempts stored after their orders,
   * how old the order is decides nothing.
   */
  lemma SweepListInFull(shop: Shop, now: int, w: Windows)
    requires w.gateway < w.manual
    requires forall i :: 0 <= i < |shop.charges| && shop.charges[i].order < |shop.orders| ==>
               shop.charges[i].createdAt > shop.orders[shop.charges[i].order].createdAt
    ensures forall o: OrderId :: o in DueOrders(shop, now, w, |shop.orders|) <==>
              && o < |shop.orders| && shop.orders[o].status == PENDING
              && (shop.orders[o].payment == Unpaid || shop.orders[o].payment == PaymentFailed)
              && TimeIsUp(shop.orders[o], LatestCharge(shop.charges, o), now, w)
  {
    hide DueOrders, LatestCharge, IsExpired, TimeIsUp;
    SweepMissesNothing(shop, now, w);
    forall o: OrderId | o < |shop.orders|
      ensures IsExpired(shop.orders[o], LatestCharge(shop.charges, o), now, w)
              <==> TimeIsUp(shop.orders[o], LatestCharge(shop.charges, o), now, w)
    {
      ExpiredIs(shop.orders[o], LatestCharge(shop.charges, o), now, w);
    }
  }
}
