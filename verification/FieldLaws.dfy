/**
 * What each call about an order writes, field by field, and to whom: when it is
 * refused and how, the order it leaves, and that it touches nothing else.
 */
module FieldLaws {
  import opened Wrappers
  import opened Tables
  import opened Allocation
  import opened StockSpec
  import opened StockLaws
  import opened Calendar
  import opened CartModule
  import opened Orders
  import opened OrderLaws
  import opened EditLaws
  import opened ShopLaws
  import opened LifecycleLaws
  import opened PriceLaws

  /** The other orders, the carts, the charges and the refunds are as they were. */
  ghost predicate OnlyOrder(shop: Shop, shop': Shop, o: OrderId) {
    && shop'.carts == shop.carts && shop'.charges == shop.charges && shop'.refunds == shop.refunds
    && |shop'.orders| == |shop.orders|
    && forall i :: 0 <= i < |shop.orders| && i != o ==> shop'.orders[i] == shop.orders[i]
  }

  /** A delivery was promised: there is a date of payment to count from, and a term to count. */
  predicate Promises(paidOn: Option<Civil>, promiseDays: Option<int>) {
    paidOn.Some? && promiseDays.Some? && promiseDays.value > 0
  }

  // ---------------- Sums over lines ----------------

  /** The money of two lists of lines is the sum of theirs, and that of one line its total. */
  lemma {:induction false} TotalsAdd(a: seq<Line>, b: seq<Line>)
    ensures SumTotals(a + b) == SumTotals(a) + SumTotals(b)
    ensures SumTotals([]) == 0 && forall l: Line :: SumTotals([l]) == l.lineTotal
  {
    forall l: Line ensures SumTotals([l]) == l.lineTotal {
      assert [l][..0] == [];
    }
    if b == [] {
      assert a + b == a;
    } else {
      assert (a + b)[..|a + b| - 1] == a + b[..|b| - 1];
      TotalsAdd(a, b[..|b| - 1]);
    }
  }

  /** An order's quantity of a product is what its line says, and nothing without a line. */
  lemma QuantityIs(ls: seq<Line>, p: ProductId)
    requires forall i, j :: 0 <= i < j < |ls| ==> ls[i].prod != ls[j].prod
    requires forall i :: 0 <= i < |ls| ==> ls[i].quantity > 0
    ensures forall i :: 0 <= i < |ls| && ls[i].prod == p ==> LineQty(ls, p) == ls[i].quantity
    ensures (forall i :: 0 <= i < |ls| ==> ls[i].prod != p) ==> LineQty(ls, p) == 0
  {
    hide LineQty;
    if i :| 0 <= i < |ls| && ls[i].prod == p {
      LineQtyAt(ls, i);
    } else {
      NoLine(ls, p);
    }
  }

  // ---------------- crearPedido ----------------

  /** A new order, as its request describes it. */
  ghost predicate BornFrom(order: Order, req: NewOrder, now: Instant) {
    && order.client == req.client && order.status == PENDING && order.reason.None?
    && order.payment == (if req.paidAlready then Paid else Unpaid)
    && order.subtotal == SumTotals(order.lines) && order.fee == req.fee && order.total == order.subtotal + req.fee
    && order.isPickup == req.isPickup && order.pickup == req.pickup && order.promiseDays == req.promiseDays
    && order.paidOn == (if req.paidAlready then Some(now.day) else None)
    && (order.promisedOn.Some? <==> Promises(order.paidOn, req.promiseDays))
    && order.deliveredOn.None? && order.createdAt == now.ms && order.reinstatedAt.None?
  }

  /**
   * A creation refuses a list that repeats a product or asks for none of one; otherwise
   * it adds one order at the end, empties the client's cart if asked to, and no more.
   */
  lemma CreateSets(shop: Shop, req: NewOrder, area: Area, now: Instant)
    ensures var (shop', outcome) := Create(shop, req, area, now);
            var ls, n := req.lines, |shop.orders|;
            && outcome in {Done, BadRequest, Conflict}
            && (outcome == BadRequest <==>
                || (exists i, j :: 0 <= i < j < |ls| && ls[i].prod == ls[j].prod)
                || (exists i :: 0 <= i < |ls| && ls[i].quantity == 0))
            && (outcome == Done ==>
                  && |shop'.orders| == n + 1 && shop'.orders[..n] == shop.orders && BornFrom(shop'.orders[n], req, now)
                  && shop'.charges == shop.charges && shop'.refunds == shop.refunds
                  && shop'.carts == if req.emptiesCart then shop.carts[req.client := map[]] else shop.carts)
  {
    hide ReserveLines, BornFrom, NewOrderOf, ToLine, Orders.ProperLines;
    ProperIff(req.lines);
    NewOrderIs(req, now);
  }

  lemma ProperIff(ls: seq<PricedLine>)
    ensures Orders.ProperLines(ToLines(ls)) <==>
            && (forall i, j :: 0 <= i < j < |ls| ==> ls[i].prod != ls[j].prod)
            && (forall i :: 0 <= i < |ls| ==> ls[i].quantity != 0)
  {
    hide ToLine;
    forall i | 0 <= i < |ls| ensures ToLines(ls)[i].prod == ls[i].prod && ToLines(ls)[i].quantity == ls[i].quantity {
      ToLineIs(ls[i]);
    }
  }

  lemma ToLineIs(l: PricedLine)
    ensures ToLine(l).prod == l.prod && ToLine(l).quantity == l.quantity
  {
    hide LineTotal, RoundHalfUp;
  }

  lemma NewOrderIs(req: NewOrder, now: Instant)
    ensures BornFrom(NewOrderOf(req, now), req, now)
  {
    hide Subtotal, SumTotals, ToLines;
    SubtotalIsSum(req.lines);
  }

  // ---------------- updateStatus ----------------

  /** Which statuses each can be left for, one step at a time. */
  predicate NextTo(from: OrderStatus, to: OrderStatus) {
    (from, to) in {(PENDING, CONFIRMED), (PENDING, CANCELLED), (CONFIRMED, PROCESSING), (CONFIRMED, CANCELLED),
                   (PROCESSING, SHIPPED), (PROCESSING, CANCELLED), (SHIPPED, DELIVERED), (SHIPPED, CANCELLED)}
  }

  /** Which it can be left for at once. */
  predicate AheadOf(from: OrderStatus, to: OrderStatus) {
    || NextTo(from, to)
    || (from, to) in {(PENDING, PROCESSING), (PENDING, SHIPPED), (PENDING, DELIVERED), (CONFIRMED, SHIPPED),
                      (CONFIRMED, DELIVERED), (PROCESSING, DELIVERED)}
  }

  /** A new status is written, and the day of the first delivery. */
  lemma StatusSets(shop: Shop, o: OrderId, to: OrderStatus, direct: bool, now: Instant)
    ensures var (shop', outcome) := UpdateStatus(shop, o, to, direct, now);
            && (o >= |shop.orders| ==> outcome == NotFound)
            && (o < |shop.orders| ==>
                  var order := shop.orders[o];
                  && outcome == (if (if direct then AheadOf(order.status, to) else NextTo(order.status, to)) then Done
                                 else Conflict)
                  && (outcome == Done ==>
                        && OnlyOrder(shop, shop', o)
                        && shop'.orders[o] == order.(status := to,
                                                     deliveredOn := if to == DELIVERED && order.deliveredOn.None?
                                                       then Some(now.day) else order.deliveredOn)))
  {
    hide StatusStock, JumpAllowed, StepAllowed, AheadOf, NextTo;
    if o < |shop.orders| {
      StepsAre(shop.orders[o].status, to);
      assert SealDelivery(shop.orders[o].(status := to), to, now.day).status == to;
    }
  }

  lemma StepsAre(from: OrderStatus, to: OrderStatus)
    ensures StepAllowed(from, to) <==> NextTo(from, to)
    ensures JumpAllowed(from, to) <==> AheadOf(from, to)
  {
  }

  // ---------------- cancelByClient, expire ----------------

  /** Nobody cancels but the client, and nothing but what is pending; how else each is refused. */
  lemma CancelRefusals(shop: Shop, init: Inventory, client: ClientId, o: OrderId)
    requires Inv(shop, init)
    ensures CancelByClient(shop, client, o).1
            == if o >= |shop.orders| || shop.orders[o].client != client then NotFound
               else if shop.orders[o].status != PENDING then Conflict else Done
    ensures Expire(shop, o).1
            == if o < |shop.orders| && shop.orders[o].status == PENDING && shop.orders[o].payment != Paid then Done
               else Conflict
    ensures CancelByClient(shop, client, o).0.charges == Expire(shop, o).0.charges == shop.charges
    ensures CancelByClient(shop, client, o).0.refunds == Expire(shop, o).0.refunds == shop.refunds
  {
    hide Valid, Coupled, OrdersSound, Release, ReleaseThrows, Returned;
    if o < |shop.orders| && shop.orders[o].status == PENDING {
      PendingReleaseNeverThrows(shop.stock, init, shop.orders, o, ReservationStatus.Cancelled);
      PendingReleaseNeverThrows(shop.stock, init, shop.orders, o, ReservationStatus.Expired);
    }
  }

  // ---------------- reinstate ----------------

  /** Back to pending, with the reason wiped and the clock started again. */
  lemma ReinstateSets(shop: Shop, o: OrderId, area: Area, now: Instant)
    ensures var (shop', outcome) := Reinstate(shop, o, area, now);
            && (outcome == NotFound <==> o >= |shop.orders|) && outcome in {Done, NotFound, Conflict}
            && (outcome == Done ==>
                  && OnlyOrder(shop, shop', o)
                  && shop'.orders[o]
                     == shop.orders[o].(status := PENDING, reason := None, reinstatedAt := Some(now.ms)))
  {
    hide ReserveLines;
  }

  // ---------------- correct ----------------

  /** What a correction writes: a payment taken back takes its dates with it, one put in dates what was not dated. */
  ghost predicate CorrectedFrom(before: Order, after: Order, to: OrderStatus, payment: PaymentStatus, now: Instant) {
    && after == before.(status := to, payment := payment, reason := after.reason, paidOn := after.paidOn,
                        promisedOn := after.promisedOn, reinstatedAt := after.reinstatedAt)
    && after.reason == (if to != before.status && CANCELLED in {to, before.status} then None else before.reason)
    && (payment == before.payment ==> after.paidOn == before.paidOn && after.promisedOn == before.promisedOn)
    && (payment != before.payment && payment == Paid ==>
          && after.paidOn == (if before.paidOn.Some? then before.paidOn else Some(now.day))
          && (before.promisedOn.Some? ==> after.promisedOn == before.promisedOn)
          && (before.promisedOn.None? ==> (after.promisedOn.Some? <==> Promises(after.paidOn, before.promiseDays))))
    && (payment != before.payment && before.payment == Paid ==> after.paidOn.None? && after.promisedOn.None?)
    && (payment != before.payment && Paid !in {payment, before.payment} ==>
          after.paidOn == before.paidOn && after.promisedOn == before.promisedOn)
    && after.reinstatedAt
       == if to == PENDING && payment != Paid && (before.status != PENDING || before.payment == Paid)
          then Some(now.ms) else before.reinstatedAt
  }

  lemma CorrectSets(shop: Shop, o: OrderId, status: Option<OrderStatus>, payment: Option<PaymentStatus>,
                    area: Area, now: Instant)
    ensures var (shop', outcome) := Correct(shop, o, status, payment, area, now);
            && outcome in {Done, BadRequest, NotFound, Conflict}
            && (outcome == BadRequest <==> status.None? && payment.None?)
            && (outcome == NotFound <==> (status.Some? || payment.Some?) && o >= |shop.orders|)
            && (outcome == Done ==>
                  var before := shop.orders[o];
                  && OnlyOrder(shop, shop', o)
                  && CorrectedFrom(before, shop'.orders[o], if status.Some? then status.value else before.status,
                                   if payment.Some? then payment.value else before.payment, now))
  {
    hide CorrectedStock, Corrected, CorrectedFrom;
    if o < |shop.orders| {
      var before := shop.orders[o];
      CorrectedIs(before, status.GetOr(before.status), payment.GetOr(before.payment), now);
    }
  }

  lemma CorrectedIs(before: Order, to: OrderStatus, payment: PaymentStatus, now: Instant)
    ensures CorrectedFrom(before, Corrected(before, to, payment, now), to, payment, now)
  {
    hide SealPayment, Restated, Promises;
    RestatedIs(before, to);
    SealIs(Restated(before, to).(payment := payment), now.day);
  }

  lemma RestatedIs(before: Order, to: OrderStatus)
    ensures Restated(before, to)
            == before.(status := to,
                       reason := if to != before.status && CANCELLED in {to, before.status} then None
                                  else before.reason)
  {
  }

  /** Sealing dates the payment if nobody had, and the promise with it. */
  lemma SealIs(o: Order, day: Civil)
    ensures var sealed := SealPayment(o, day);
            && sealed == o.(paidOn := sealed.paidOn, promisedOn := sealed.promisedOn)
            && sealed.paidOn == (if o.paidOn.Some? then o.paidOn else Some(day))
            && (o.promisedOn.Some? ==> sealed.promisedOn == o.promisedOn)
            && (o.promisedOn.None? ==> (sealed.promisedOn.Some? <==> Promises(sealed.paidOn, o.promiseDays)))
  {
    hide Deadline;
  }

  // ---------------- updatePaymentStatus ----------------

  /** Which marks go through, and the two dates a payment leaves. */
  lemma MarkSets(shop: Shop, o: OrderId, to: PaymentStatus, now: Instant)
    ensures var (shop', outcome) := UpdatePayment(shop, o, to, now);
            && (o >= |shop.orders| ==> outcome == NotFound)
            && (o < |shop.orders| ==>
                  var before := shop.orders[o];
                  && outcome == (if (before.payment, to) in {(Unpaid, Paid), (Unpaid, PaymentFailed),
                                                             (PaymentFailed, Paid),
                                                             (PaymentFailed, Unpaid), (Paid, Refunded)}
                                 then Done else Conflict)
                  && (outcome == Done ==>
                        var after := shop'.orders[o];
                        && OnlyOrder(shop, shop', o) && shop'.stock == shop.stock
                        && after == before.(payment := to, paidOn := after.paidOn, promisedOn := after.promisedOn)
                        && (to != Paid ==> after.paidOn == before.paidOn && after.promisedOn == before.promisedOn)
                        && (to == Paid ==>
                              && after.paidOn == (if before.paidOn.Some? then before.paidOn else Some(now.day))
                              && (before.promisedOn.Some? ==> after.promisedOn == before.promisedOn)
                              && (before.promisedOn.None? ==>
                                    (after.promisedOn.Some? <==> Promises(after.paidOn, before.promiseDays))))))
  {
    hide SealPayment, PaymentAllowed, Promises;
    if o < |shop.orders| {
      SealIs(shop.orders[o].(payment := to), now.day);
      MarksAre(shop.orders[o].payment, to);
    }
  }

  lemma MarksAre(from: PaymentStatus, to: PaymentStatus)
    ensures PaymentAllowed(from, to) <==>
            (from, to) in {(Unpaid, Paid), (Unpaid, PaymentFailed), (PaymentFailed, Paid), (PaymentFailed, Unpaid),
                           (Paid, Refunded)}
  {
  }

  // ---------------- updateItems ----------------

  /** An edit rewrites the lines and the money that hangs from them. */
  lemma EditSets(shop: Shop, o: OrderId, reqs: seq<LineRequest>, offers: map<ProductId, Offer>, area: Area)
    requires UpdateItems(shop, o, reqs, offers, area).1 == Done
    ensures var shop' := UpdateItems(shop, o, reqs, offers, area).0;
            && o < |shop.orders| && OnlyOrder(shop, shop', o)
            && var before, after := shop.orders[o], shop'.orders[o];
            && after == before.(lines := after.lines, subtotal := after.subtotal, total := after.total)
            && after.total == after.subtotal + before.fee
            && (Orders.ProperLines(before.lines) ==> after.subtotal == SumTotals(after.lines))
  {
    hide EditedStock, SameLines, Saved, Subtotal, SumTotals, ResolveLine, Orders.ProperLines;
    var before := shop.orders[o];
    var priced := ResolveLines(reqs, before.lines, offers).1;
    if Orders.ProperLines(before.lines) {
      SubtotalIsSum(priced);
      SentIsProper(reqs, ToLines(priced)) by {
        forall i | 0 <= i < |priced|
          ensures ToLines(priced)[i].prod == reqs[i].prod && ToLines(priced)[i].quantity == reqs[i].quantity
        {
          ToLineIs(priced[i]);
        }
      }
      SavedHoldsTheSame(before.lines, ToLines(priced), 0);
    }
  }

  /** The rows that stay keep the order they had; the new ones come after them, in the order they were asked in. */
  lemma RowsInOrder(cur: seq<Line>, inc: seq<Line>, a: nat, b: nat)
    requires Orders.ProperLines(cur) && Orders.ProperLines(inc) && a < b < |Saved(cur, inc)|
    ensures var p, q := Saved(cur, inc)[a].prod, Saved(cur, inc)[b].prod;
            && (HasLine(cur, q) ==> HasLine(cur, p))
            && (forall i, j :: 0 <= i < |cur| && 0 <= j < |cur| && cur[i].prod == p && cur[j].prod == q ==> i < j)
            && (!HasLine(cur, p) ==>
                  forall i, j :: 0 <= i < |inc| && 0 <= j < |inc| && inc[i].prod == p && inc[j].prod == q ==> i < j)
  {
    hide Kept, Added, HasLine;
    var kept := Kept(cur, inc);
    KeptInOrder(cur, inc);
    AddedInOrder(inc, cur);
    if b < |kept| {
      assert Saved(cur, inc)[a] == kept[a] && Saved(cur, inc)[b] == kept[b];
    } else {
      assert Saved(cur, inc)[b] == Added(inc, cur)[b - |kept|];
      NotThere(cur, Saved(cur, inc)[b].prod);
      if a < |kept| {
        assert Saved(cur, inc)[a] == kept[a];
      } else {
        assert Saved(cur, inc)[a] == Added(inc, cur)[a - |kept|];
      }
    }
  }

  lemma NotThere(ls: seq<Line>, p: ProductId)
    requires !HasLine(ls, p)
    ensures forall i :: 0 <= i < |ls| ==> ls[i].prod != p
  {
  }

  lemma HasLineSnoc(ls: seq<Line>, p: ProductId)
    requires ls != []
    ensures HasLine(ls, p) <==> HasLine(ls[..|ls| - 1], p) || ls[|ls| - 1].prod == p
  {
    var n := |ls| - 1;
    if HasLine(ls[..n], p) {
      var i :| 0 <= i < n && ls[..n][i].prod == p;
      assert ls[i].prod == p;
    }
    if HasLine(ls, p) && ls[n].prod != p {
      var i :| 0 <= i < |ls| && ls[i].prod == p;
      assert ls[..n][i].prod == p;
    }
    if ls[n].prod == p {
      assert HasLine(ls, p);
    }
  }

  /** Rows `a` and after it `b` come from rows in that order. */
  ghost predicate SameOrder(from: seq<Line>, p: ProductId, q: ProductId) {
    forall i, j :: 0 <= i < |from| && 0 <= j < |from| && from[i].prod == p && from[j].prod == q ==> i < j
  }

  lemma {:induction false} KeptInOrder(cur: seq<Line>, inc: seq<Line>)
    requires Orders.ProperLines(cur)
    ensures forall a :: 0 <= a < |Kept(cur, inc)| ==> HasLine(cur, Kept(cur, inc)[a].prod)
    ensures forall a, b :: 0 <= a < b < |Kept(cur, inc)| ==>
              SameOrder(cur, Kept(cur, inc)[a].prod, Kept(cur, inc)[b].prod)
  {
    hide HasLine;
    if cur != [] {
      var n := |cur| - 1;
      KeptInOrder(cur[..n], inc);
      if FindLine(inc, cur[n].prod).Some? {
        FoundIsThere(inc, cur[n].prod);
      }
      forall p ensures HasLine(cur, p) <==> HasLine(cur[..n], p) || cur[n].prod == p {
        HasLineSnoc(cur, p);
      }
      forall a, b | 0 <= a < b < |Kept(cur, inc)|
        ensures SameOrder(cur, Kept(cur, inc)[a].prod, Kept(cur, inc)[b].prod)
      {
        OrderGrows(cur, Kept(cur, inc)[a].prod, Kept(cur, inc)[b].prod, b == |Kept(cur[..n], inc)|);
      }
    }
  }

  /** With one more row: the order of two earlier ones stays, and the new one comes last. */
  lemma OrderGrows(from: seq<Line>, p: ProductId, q: ProductId, last: bool)
    requires Orders.ProperLines(from) && from != [] && HasLine(from[..|from| - 1], p)
    requires if last then q == from[|from| - 1].prod
             else HasLine(from[..|from| - 1], q) && SameOrder(from[..|from| - 1], p, q)
    ensures SameOrder(from, p, q)
  {
    var n := |from| - 1;
    var i :| 0 <= i < n && from[..n][i].prod == p;
    assert from[i].prod == p;
    if !last {
      var j :| 0 <= j < n && from[..n][j].prod == q;
      assert from[j].prod == q;
    }
  }

  lemma {:induction false} AddedInOrder(inc: seq<Line>, cur: seq<Line>)
    requires Orders.ProperLines(inc)
    ensures forall a :: 0 <= a < |Added(inc, cur)| ==>
              HasLine(inc, Added(inc, cur)[a].prod) && !HasLine(cur, Added(inc, cur)[a].prod)
    ensures forall a, b :: 0 <= a < b < |Added(inc, cur)| ==>
              SameOrder(inc, Added(inc, cur)[a].prod, Added(inc, cur)[b].prod)
  {
    hide HasLine, FindLine;
    if inc != [] {
      var n := |inc| - 1;
      AddedInOrder(inc[..n], cur);
      FoundIff(cur, inc[n].prod);
      forall p ensures HasLine(inc, p) <==> HasLine(inc[..n], p) || inc[n].prod == p {
        HasLineSnoc(inc, p);
      }
      forall a, b | 0 <= a < b < |Added(inc, cur)|
        ensures SameOrder(inc, Added(inc, cur)[a].prod, Added(inc, cur)[b].prod)
      {
        OrderGrows(inc, Added(inc, cur)[a].prod, Added(inc, cur)[b].prod, b == |Added(inc[..n], cur)|);
      }
    }
  }

  // ---------------- Promises, over runs ----------------

  /**
   * In every reachable state a delivery is promised exactly when there is a payment to
   * count from and a term to count; up to 312 days, for the business day that many
   * business days after the payment.
   */
  lemma PromisesOverRuns(opening: Shop, steps: seq<ShopLaws.Step>, o: OrderId)
    requires Opening(opening) && o < |Run(opening, steps).orders|
    ensures var order := Run(opening, steps).orders[o];
            && (order.payment == Paid ==> order.paidOn.Some?)
            && (order.promisedOn.Some? <==>
                order.paidOn.Some? && order.promiseDays.Some? && order.promiseDays.value > 0)
            && (order.promisedOn.Some? && Exists(order.paidOn.value) && order.promiseDays.value <= 312 ==>
                  var from, to := DayNumber(order.paidOn.value), DayNumber(order.promisedOn.value);
                  && Exists(order.promisedOn.value) && Business(order.promisedOn.value)
                  && from < to && Count(from, to) == order.promiseDays.value)
  {
    hide Run, Valid, Coupled, Deadline, Orders.ProperLines, SumTotals, Exists, Business, Count;
    RunKeeps(opening, steps);
    var order := Run(opening, steps).orders[o];
    assert OrderSound(order);
    if order.promisedOn.Some? && Exists(order.paidOn.value) {
      DeadlineIs(order.paidOn.value, order.promiseDays.value);
    }
  }
}
