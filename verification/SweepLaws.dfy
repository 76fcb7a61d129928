/**
 * The sweep looks at the deadlines once, when it scans; an order's turn comes later.
 * Which calls in between give it more time, and what happens to it then.
 */
module SweepLaws {
  import opened Wrappers
  import opened Tables
  import opened Allocation
  import opened StockSpec
  import opened StockLaws
  import opened Calendar
  import opened CartModule
  import opened Orders
  import opened OrderLaws
  import opened Refunds
  import opened Payments
  import opened ShopLaws
  import opened LifecycleLaws
  import opened PaymentLaws

  // ---------------- The latest attempt ----------------

  /** Where the latest attempt of an order is. */
  function LatestIndex(charges: seq<Charge>, o: OrderId): (i: Option<nat>)
    ensures i.Some? ==> i.value < |charges|
  {
    if charges == [] then None
    else
      var n := |charges| - 1;
      var earlier := LatestIndex(charges[..n], o);
      if charges[n].order == o && !charges[n].removed
         && (earlier.None? || charges[earlier.value].createdAt <= charges[n].createdAt)
      then Some(n) else earlier
  }

  lemma {:induction false} LatestIs(charges: seq<Charge>, o: OrderId)
    ensures var i := LatestIndex(charges, o);
            && LatestCharge(charges, o) == (if i.Some? then Some(charges[i.value]) else None)
            && (i.Some? ==> Found(charges, i.value) && charges[i.value].order == o)
  {
    if charges != [] {
      LatestIs(charges[..|charges| - 1], o);
    }
  }

  /** News about a charge do not change which one is the latest. */
  lemma {:induction false} LatestAfterNews(charges: seq<Charge>, o: OrderId, id: nat, c: Charge)
    requires id < |charges| && c.order == charges[id].order
    requires c.createdAt == charges[id].createdAt && c.removed == charges[id].removed
    ensures LatestIndex(charges[id := c], o) == LatestIndex(charges, o)
  {
    var n := |charges| - 1;
    var after := charges[id := c];
    if id < n {
      LatestAfterNews(charges[..n], o, id, c);
      assert after[..n] == charges[..n][id := c];
    } else {
      assert after[..n] == charges[..n];
    }
  }

  /** Without one of the attempts, the latest is no newer. */
  lemma RemovalIsNoNewer(charges: seq<Charge>, o: OrderId, id: nat)
    requires id < |charges|
    ensures var latest := LatestCharge(charges[id := charges[id].(removed := true)], o);
            latest.Some? ==>
              LatestCharge(charges, o).Some? && latest.value.createdAt <= LatestCharge(charges, o).value.createdAt
  {
    hide LatestCharge;
    var after := charges[id := charges[id].(removed := true)];
    LatestChargeIsLatest(charges, o);
    LatestChargeIsLatest(after, o);
    var latest := LatestCharge(after, o);
    if latest.Some? {
      var i :| 0 <= i < |after| && after[i] == latest.value;
      assert charges[i] == after[i];
    }
  }

  /** Removing an attempt that is not the latest changes nothing. */
  lemma {:induction false} LatestAfterRemoval(charges: seq<Charge>, o: OrderId, id: nat)
    requires id < |charges| && LatestIndex(charges, o) != Some(id)
    ensures LatestCharge(charges[id := charges[id].(removed := true)], o) == LatestCharge(charges, o)
  {
    var n := |charges| - 1;
    var gone := charges[id].(removed := true);
    var after := charges[id := gone];
    LatestIs(charges[..n], o);
    if id < n {
      assert after[..n] == charges[..n][id := gone];
      RemovalIsNoNewer(charges[..n], o, id);
      if LatestIndex(charges[..n], o) != Some(id) {
        LatestAfterRemoval(charges[..n], o, id);
      }
    } else {
      assert after[..n] == charges[..n];
    }
  }

  // ---------------- What gives an order more time ----------------

  /** The deadline the scan looks at, at the scan's own instant. */
  predicate DueNow(shop: Shop, o: OrderId, now: int, w: Windows) {
    o < |shop.orders| && IsExpired(shop.orders[o], LatestCharge(shop.charges, o), now, w)
  }

  predicate Newest(charges: seq<Charge>, o: OrderId, createdAt: int) {
    var latest := LatestCharge(charges, o);
    latest.None? || latest.value.createdAt <= createdAt
  }

  /**
   * The calls that give a due order more time: a newer attempt that is cash, in flight
   * or young enough; the removal of its latest attempt, if the one before leaves it
   * time; the news that its latest attempt is in flight; a reinstatement, or a
   * correction that reopens it, less than a window ago.
   */
  predicate Renews(shop: Shop, s: ShopLaws.Step, o: OrderId, now: int, w: Windows)
    requires o < |shop.orders|
  {
    var order, latest := shop.orders[o], LatestIndex(shop.charges, o);
    match s
    case ChargeStep(c) =>
      c.order == o && Newest(shop.charges, o, c.createdAt) && !IsExpired(order, Some(c.(removed := false)), now, w)
    case RemoveStep(o', id) =>
      && o' == o && latest == Some(id) && shop.charges[id].status != Succeeded
      && !IsExpired(order, LatestCharge(shop.charges[id := shop.charges[id].(removed := true)], o), now, w)
    case SyncStep(id, notice, _, _) =>
      latest == Some(id) && !Terminal(shop.charges[id].status) && notice.status == Some(Processing)
    case WebhookStep(ref, notice, _, _) => ref.Some? && latest == ref && notice.status == Some(Processing)
    case ReinstateStep(o', _, at) => o' == o && Apply(shop, s).1 == Done && Recent(shop, o, at.ms, now, w)
    case CorrectStep(o', status, payment, _, at) =>
      && o' == o && Apply(shop, s).1 == Done
      && status.GetOr(order.status) == PENDING && payment.GetOr(order.payment) != Paid
      && (order.status != PENDING || order.payment == Paid) && Recent(shop, o, at.ms, now, w)
    case _ => false
  }

  predicate Recent(shop: Shop, o: OrderId, at: int, now: int, w: Windows) {
    now - at < WindowOf(LatestCharge(shop.charges, o), w)
  }

  // ---------------- Call by call ----------------

  ghost predicate SameClock(a: Order, b: Order) {
    b.createdAt == a.createdAt && b.reinstatedAt == a.reinstatedAt
  }

  lemma SealKeepsClock(o: Order, day: Civil)
    ensures SameClock(o, SealPayment(o, day))
  {
    hide Deadline;
  }

  lemma PropagateKeepsClock(shop: Shop, c: Charge, area: Area, now: Instant, o: OrderId)
    requires o < |shop.orders|
    ensures var shop' := Propagate(shop, c, area, now);
            && |shop'.orders| == |shop.orders| && SameClock(shop.orders[o], shop'.orders[o])
            && shop'.charges == shop.charges
  {
    hide ReserveLines, SealPayment, Removed, RequestRefund;
    if c.order < |shop.orders| {
      var paid := PaidBy(shop.orders[c.order], c, now);
      SealKeepsClock(shop.orders[c.order].(payment := Paid), c.completedOn.GetOr(now.day));
      RequestLeavesOrders(shop.(orders := shop.orders[c.order := paid][c.order := paid.(status := CANCELLED,
        reason := Some(PaidAfterExpiryOutOfStock))]), c.order);
    }
  }

  lemma CorrectedClock(order: Order, to: OrderStatus, toPayment: PaymentStatus, now: Instant)
    ensures var order' := Corrected(order, to, toPayment, now);
            && order'.createdAt == order.createdAt
            && order'.reinstatedAt
               == if to == PENDING && toPayment != Paid && (order.status != PENDING || order.payment == Paid)
                  then Some(now.ms) else order.reinstatedAt
  {
    hide SealPayment, Restated;
    RestatedStatus(order, to);
    RestatedClock(order, to);
    RepaidKeepsStatus(Restated(order, to), toPayment, now);
    SealKeepsClock(Restated(order, to).(payment := toPayment), now.day);
  }

  lemma RestatedClock(order: Order, to: OrderStatus)
    ensures SameClock(order, Restated(order, to)) && Restated(order, to).payment == order.payment
  {
  }

  /** No other call touches what the deadline is counted from. */
  lemma OthersKeepTheClock(shop: Shop, s: ShopLaws.Step, o: OrderId)
    requires o < |shop.orders| && !s.ReinstateStep? && !s.CorrectStep? && !s.SyncStep? && !s.WebhookStep?
    ensures var orders := Apply(shop, s).0.orders;
            o < |orders| && SameClock(shop.orders[o], orders[o])
  {
    hide ReserveLines, StatusStock, Release, ReleaseThrows, Returned, EditedStock, SameLines, ResolveLines, Operate,
         SealPayment, JumpAllowed, StepAllowed, PaymentAllowed, Cents, Saved, Subtotal, ToLines;
    if s.PaymentStep? && s.o < |shop.orders| {
      SealKeepsClock(shop.orders[s.o].(payment := s.payTo), s.now.day);
    }
  }

  lemma ChargeIsDue(shop: Shop, s: ShopLaws.Step, o: OrderId, now: int, w: Windows)
    requires DueNow(shop, o, now, w) && s.ChargeStep?
    ensures DueNow(Apply(shop, s).0, o, now, w) <==> !Renews(shop, s, o, now, w)
  {
    hide IsExpired;
    assert (shop.charges + [s.charge.(removed := false)])[..|shop.charges|] == shop.charges;
  }

  lemma RemovalIsDue(shop: Shop, s: ShopLaws.Step, o: OrderId, now: int, w: Windows)
    requires DueNow(shop, o, now, w) && s.RemoveStep?
    ensures DueNow(Apply(shop, s).0, o, now, w) <==> !Renews(shop, s, o, now, w)
  {
    hide IsExpired, LatestCharge, LatestIndex;
    LatestIs(shop.charges, o);
    if Found(shop.charges, s.id) && LatestIndex(shop.charges, o) != Some(s.id) {
      LatestAfterRemoval(shop.charges, o, s.id);
    }
  }

  /** News about a charge give time only if it is the latest and is in flight. */
  lemma NewsAreDue(shop: Shop, id: nat, c: Charge, o: OrderId, now: int, w: Windows)
    requires DueNow(shop, o, now, w) && Found(shop.charges, id)
    requires c == shop.charges[id].(status := c.status, completedOn := c.completedOn)
    ensures DueNow(shop.(charges := shop.charges[id := c]), o, now, w)
            <==> !(LatestIndex(shop.charges, o) == Some(id) && c.status == Processing)
  {
    hide LatestCharge, LatestIndex;
    LatestIs(shop.charges, o);
    LatestIs(shop.charges[id := c], o);
    LatestAfterNews(shop.charges, o, id, c);
  }

  /** What an order's deadline depends on. */
  lemma SameDeadline(a: Shop, b: Shop, o: OrderId, now: int, w: Windows)
    requires o < |a.orders| && o < |b.orders| && SameClock(a.orders[o], b.orders[o]) && b.charges == a.charges
    ensures DueNow(a, o, now, w) <==> DueNow(b, o, now, w)
  {
    hide LatestCharge;
  }

  lemma PollIsDue(shop: Shop, s: ShopLaws.Step, o: OrderId, now: int, w: Windows)
    requires DueNow(shop, o, now, w) && s.SyncStep?
    ensures DueNow(Apply(shop, s).0, o, now, w) <==> !Renews(shop, s, o, now, w)
  {
    hide DueNow, Propagate, LatestIndex;
    InFlightIsNotDue(shop, o, now, w);
    if Found(shop.charges, s.id) && !Terminal(shop.charges[s.id].status) {
      var c := Noted(shop.charges[s.id], s.notice);
      var mid := shop.(charges := shop.charges[s.id := c]);
      NewsAreDue(shop, s.id, c, o, now, w);
      PropagateKeepsClock(mid, c, s.area, s.now, o);
      SameDeadline(mid, Propagate(mid, c, s.area, s.now), o, now, w);
    }
  }

  lemma WebhookIsDue(shop: Shop, s: ShopLaws.Step, o: OrderId, now: int, w: Windows)
    requires DueNow(shop, o, now, w) && s.WebhookStep?
    ensures DueNow(Apply(shop, s).0, o, now, w) <==> !Renews(shop, s, o, now, w)
  {
    hide DueNow, Propagate, LatestIndex;
    InFlightIsNotDue(shop, o, now, w);
    if s.ref.Some? && Found(shop.charges, s.ref.value) {
      var id := s.ref.value;
      var c := Settled(Noted(shop.charges[id], s.notice), s.now);
      var mid := shop.(charges := shop.charges[id := c]);
      NewsAreDue(shop, id, c, o, now, w);
      PropagateKeepsClock(mid, c, s.area, s.now, o);
      SameDeadline(mid, Propagate(mid, c, s.area, s.now), o, now, w);
    }
  }

  lemma InFlightIsNotDue(shop: Shop, o: OrderId, now: int, w: Windows)
    requires DueNow(shop, o, now, w)
    ensures o < |shop.orders|
    ensures var i := LatestIndex(shop.charges, o);
            i.Some? ==> Found(shop.charges, i.value) && shop.charges[i.value].status != Processing
  {
    hide LatestCharge, LatestIndex;
    LatestIs(shop.charges, o);
  }

  lemma ReopeningIsDue(shop: Shop, s: ShopLaws.Step, o: OrderId, now: int, w: Windows)
    requires DueNow(shop, o, now, w) && (s.ReinstateStep? || s.CorrectStep?)
    ensures DueNow(Apply(shop, s).0, o, now, w) <==> !Renews(shop, s, o, now, w)
  {
    hide ReserveLines, CorrectedStock, Corrected, LatestCharge, LatestIndex;
    if s.CorrectStep? && s.o < |shop.orders| {
      var order := shop.orders[s.o];
      CorrectedClock(order, s.status.GetOr(order.status), s.payment.GetOr(order.payment), s.now);
    }
  }

  /** A due order stays due through a call exactly when the call does not give it more time. */
  lemma StepIsDue(shop: Shop, s: ShopLaws.Step, o: OrderId, now: int, w: Windows)
    requires DueNow(shop, o, now, w)
    ensures DueNow(Apply(shop, s).0, o, now, w) <==> !Renews(shop, s, o, now, w)
  {
    hide Apply, DueNow, Renews;
    assert o < |shop.orders| by {
      InFlightIsNotDue(shop, o, now, w);
    }
    if s.ChargeStep? {
      ChargeIsDue(shop, s, o, now, w);
    } else if s.RemoveStep? {
      RemovalIsDue(shop, s, o, now, w);
    } else if s.SyncStep? {
      PollIsDue(shop, s, o, now, w);
    } else if s.WebhookStep? {
      WebhookIsDue(shop, s, o, now, w);
    } else if s.ReinstateStep? || s.CorrectStep? {
      ReopeningIsDue(shop, s, o, now, w);
    } else {
      OthersKeepTheClock(shop, s, o);
      OthersLeaveCharges(shop, s);
      SameDeadline(shop, Apply(shop, s).0, o, now, w);
      OthersDoNotRenew(shop, s, o, now, w);
    }
  }

  lemma OthersDoNotRenew(shop: Shop, s: ShopLaws.Step, o: OrderId, now: int, w: Windows)
    requires o < |shop.orders| && !s.ReinstateStep? && !s.CorrectStep? && !s.SyncStep? && !s.WebhookStep?
    requires !s.ChargeStep? && !s.RemoveStep?
    ensures !Renews(shop, s, o, now, w)
  {
    hide Apply, IsExpired, LatestIndex;
  }

  // ---------------- From the scan to the turn ----------------

  /** Due before the calls and after each of them. */
  predicate DueThroughout(start: Shop, steps: seq<ShopLaws.Step>, o: OrderId, now: int, w: Windows) {
    if steps == [] then DueNow(start, o, now, w)
    else DueThroughout(start, steps[..|steps| - 1], o, now, w) && DueNow(Run(start, steps), o, now, w)
  }

  /** No call, at its turn, gives the order more time. */
  predicate NeverRenewed(start: Shop, steps: seq<ShopLaws.Step>, o: OrderId, now: int, w: Windows) {
    if steps == [] then true
    else
      var first := steps[..|steps| - 1];
      && NeverRenewed(start, first, o, now, w)
      && o < |Run(start, first).orders| && !Renews(Run(start, first), steps[|steps| - 1], o, now, w)
  }

  /** An order found due is due all along exactly when no call in between gives it more time. */
  lemma {:induction false} DueUnlessRenewed(start: Shop, steps: seq<ShopLaws.Step>, o: OrderId, now: int, w: Windows)
    requires DueNow(start, o, now, w)
    ensures DueThroughout(start, steps, o, now, w) <==> NeverRenewed(start, steps, o, now, w)
    ensures DueThroughout(start, steps, o, now, w) ==> DueNow(Run(start, steps), o, now, w)
  {
    if steps != [] {
      hide Apply, Renews, DueNow;
      var first := steps[..|steps| - 1];
      DueUnlessRenewed(start, first, o, now, w);
      if DueThroughout(start, first, o, now, w) {
        InFlightIsNotDue(Run(start, first), o, now, w);
        StepIsDue(Run(start, first), steps[|steps| - 1], o, now, w);
      }
    }
  }

  /** The calls between the scan and an order's turn, those of the sweep itself among them. */
  function UntilTurn(due: seq<OrderId>, between: seq<seq<ShopLaws.Step>>, i: nat): seq<ShopLaws.Step>
    requires |between| == |due| && i < |due|
  {
    SweepSteps(due[..i], between[..i]) + between[i]
  }

  /**
   * An order the scan found due is still due when its turn comes, unless a call in
   * between gave it more time; it was due all along exactly when none did.
   */
  lemma SweepTurnsAreDue(start: Shop, now: int, w: Windows, between: seq<seq<ShopLaws.Step>>, i: nat)
    requires |between| == |DueOrders(start, now, w, |start.orders|)| && i < |between|
    ensures var due := DueOrders(start, now, w, |start.orders|);
            var calls := UntilTurn(due, between, i);
            && (DueThroughout(start, calls, due[i], now, w) <==> NeverRenewed(start, calls, due[i], now, w))
            && (NeverRenewed(start, calls, due[i], now, w) ==> DueNow(AtTurn(start, due, between, i), due[i], now, w))
  {
    hide Apply, DueOrders, DueThroughout, NeverRenewed;
    var due := DueOrders(start, now, w, |start.orders|);
    DueOrdersAre(start, now, w, |start.orders|);
    assert due[i] in due;
    DueUnlessRenewed(start, UntilTurn(due, between, i), due[i], now, w);
    SweepIsRun(start, due[..i], between[..i]);
    RunAppend(start, SweepSteps(due[..i], between[..i]), between[i]);
  }

  /**
   * The turn looks at the status and the payment only. A due order whose client has
   * since started to pay, the money in flight, is no longer due and is cancelled all
   * the same.
   */
  lemma CancelledUnderMoneyInFlight(shop: Shop, init: Inventory, o: OrderId, c: Charge, now: int, w: Windows)
    requires Inv(shop, init) && DueNow(shop, o, now, w) && Unsettled(shop.orders[o])
    requires c.order == o && c.status == Processing && Newest(shop.charges, o, c.createdAt)
    ensures var later := Apply(shop, ChargeStep(c)).0;
            !DueNow(later, o, now, w) && Expire(later, o).1 == Done
  {
    hide Inv, DueNow, Expire, LatestIndex, Newest, LetGo;
    var s := ShopLaws.ChargeStep(c);
    InFlightIsNotDue(shop, o, now, w);
    ChargeIsDue(shop, s, o, now, w);
    StepKeeps(shop, init, s);
    ExpireIsSafe(Apply(shop, s).0, init, o);
  }
}
