/**
 * The shop as one transition system: every call of every service keeps the
 * invariant, whatever the order they come in.
 */
module ShopLaws {
  import opened Wrappers
  import opened Tables
  import opened Allocation
  import opened StockSpec
  import opened StockLaws
  import opened OperationLaws
  import opened Calendar
  import opened CartModule
  import opened Orders
  import opened OrderLaws
  import opened EditLaws
  import opened Refunds
  import opened Payments

  datatype Step =
    | CreateStep(req: NewOrder, area: Area, now: Instant)
    | StatusStep(o: OrderId, to: OrderStatus, direct: bool, now: Instant)
    | ClientCancelStep(client: ClientId, o: OrderId)
    | ExpireStep(o: OrderId)
    | ReinstateStep(o: OrderId, area: Area, now: Instant)
    | CorrectStep(o: OrderId, status: Option<OrderStatus>, payment: Option<PaymentStatus>, area: Area, now: Instant)
    | PaymentStep(o: OrderId, payTo: PaymentStatus, now: Instant)
    | EditStep(o: OrderId, reqs: seq<LineRequest>, offers: map<ProductId, Offer>, area: Area)
    | ByHandStep(op: Operation, products: set<ProductId>, active: set<LocationId>)
    | ChargeStep(charge: Charge)
    | RemoveStep(o: OrderId, id: nat)
    | SyncStep(id: nat, notice: Notice, area: Area, now: Instant)
    | WebhookStep(ref: Option<nat>, notice: Notice, area: Area, now: Instant)
    | RequestStep(o: OrderId, asked: Option<int>)
    | CompleteStep(r: nat, reachable: bool)
    | RejectStep(r: nat)
    | CartStep(client: ClientId, cart: Cart)

  function Apply(shop: Shop, s: Step): (Shop, Outcome) {
    match s
    case CreateStep(req, area, now) => Create(shop, req, area, now)
    case StatusStep(o, to, direct, now) => UpdateStatus(shop, o, to, direct, now)
    case ClientCancelStep(client, o) => CancelByClient(shop, client, o)
    case ExpireStep(o) => Expire(shop, o)
    case ReinstateStep(o, area, now) => Reinstate(shop, o, area, now)
    case CorrectStep(o, status, payment, area, now) => Correct(shop, o, status, payment, area, now)
    case PaymentStep(o, to, now) => UpdatePayment(shop, o, to, now)
    case EditStep(o, reqs, offers, area) => UpdateItems(shop, o, reqs, offers, area)
    case ByHandStep(op, products, active) => Orders.ByHand(shop, op, products, active)
    case ChargeStep(charge) => NewCharge(shop, charge)
    case RemoveStep(o, id) => RemoveAttempt(shop, o, id)
    case SyncStep(id, notice, area, now) => SyncCharge(shop, id, notice, area, now)
    case WebhookStep(id, notice, area, now) => HandleWebhook(shop, id, notice, area, now)
    case RequestStep(o, asked) => RequestRefund(shop, o, asked)
    case CompleteStep(r, reachable) => CompleteRefund(shop, r, reachable)
    case RejectStep(r) => RejectRefund(shop, r)
    case CartStep(client, cart) => (WithCart(shop, client, cart), Done)
  }

  function Run(shop: Shop, steps: seq<Step>): Shop {
    if steps == [] then shop
    else Apply(Run(shop, steps[..|steps| - 1]), steps[|steps| - 1]).0
  }

  // ---------------- Money ----------------

  lemma {:induction false} SubtotalIsSum(ls: seq<PricedLine>)
    ensures Subtotal(ls) == SumTotals(ToLines(ls))
  {
    if ls != [] {
      var n := |ls| - 1;
      SubtotalIsSum(ls[..n]);
      assert ToLines(ls)[..n] == ToLines(ls[..n]);
    }
  }

  // ---------------- Putting an order back ----------------

  /** Replacing one order, with the stock that goes with it. */
  lemma OrderPut(shop: Shop, init: Inventory, st: Stock, o: OrderId, order: Order, shop': Shop)
    requires Inv(shop, init) && o < |shop.orders|
    requires Valid(st, init) && Coupled(st, shop.orders[o := order]) && OrderSound(order)
    requires shop'.stock == st && shop'.orders == shop.orders[o := order] && shop'.refunds == shop.refunds
    ensures Inv(shop', init)
  {
    hide Valid, Coupled, OrderSound, Positive;
  }

  lemma LinesAreProper(shop: Shop, init: Inventory, o: OrderId)
    requires Inv(shop, init) && o < |shop.orders|
    ensures Orders.ProperLines(shop.orders[o].lines)
  {
    assert OrderSound(shop.orders[o]);
  }

  /** A change that touches neither status nor lines owes no stock. */
  lemma SameStock(shop: Shop, init: Inventory, o: OrderId, order: Order, shop': Shop)
    requires Inv(shop, init) && o < |shop.orders| && OrderSound(order)
    requires order.status == shop.orders[o].status && order.lines == shop.orders[o].lines
    requires shop'.stock == shop.stock && shop'.orders == shop.orders[o := order] && shop'.refunds == shop.refunds
    ensures Inv(shop', init)
  {
    hide Valid, OrderSound, Positive, Live;
    SamePhase(shop.stock, shop.orders, o, order);
    OrderPut(shop, init, shop.stock, o, order, shop');
  }

  lemma SamePhase(st: Stock, orders: seq<Order>, o: OrderId, order: Order)
    requires Coupled(st, orders) && o < |orders|
    requires StockPhase(order.status) == StockPhase(orders[o].status)
    requires forall p :: LineQty(order.lines, p) == LineQty(orders[o].lines, p)
    ensures Coupled(st, orders[o := order])
  {
    hide Live;
    forall o': OrderId, p: ProductId, phase
      ensures Due(orders[o := order], o', p, phase) == Due(orders, o', p, phase)
    {
    }
  }

  // ---------------- Step by step ----------------

  lemma CreateKeeps(shop: Shop, init: Inventory, req: NewOrder, area: Area, now: Instant)
    requires Inv(shop, init)
    ensures Inv(Create(shop, req, area, now).0, init)
  {
    hide Valid, Live, Orders.ProperLines, ReserveLines, Subtotal, SumTotals, ToLines, Positive, Deadline;
    var (shop', outcome) := Create(shop, req, area, now);
    if outcome == Done {
      var o, ls := |shop.orders|, ToLines(req.lines);
      ReserveLinesKeep(shop.stock, init, o, ls, area, req.pickup);
      SubtotalIsSum(req.lines);
      var order := NewOrderOf(req, now);
      assert OrderSound(order);
      CoupledCreate(shop.stock, shop'.stock, shop.orders, order);
    }
  }

  lemma CoupledCreate(st: Stock, st': Stock, orders: seq<Order>, order: Order)
    requires Coupled(st, orders) && HoldsMore(st, st', |orders|, order.lines) && order.status == PENDING
    ensures Coupled(st', orders + [order])
  {
    hide Live;
    forall o: OrderId, p: ProductId
      ensures Live(st', o, p, Reserved) == Due(orders + [order], o, p, Held)
              && Live(st', o, p, Confirmed) == Due(orders + [order], o, p, Committed)
    {
      assert Live(st, o, p, Reserved) == Due(orders, o, p, Held);
    }
  }

  lemma StatusKeeps(shop: Shop, init: Inventory, o: OrderId, to: OrderStatus, direct: bool, now: Instant)
    requires Inv(shop, init)
    ensures Inv(UpdateStatus(shop, o, to, direct, now).0, init)
  {
    hide Valid, Coupled, Live, Orders.ProperLines, SumTotals, Positive, Deadline, Confirm, Release;
    var (shop', outcome) := UpdateStatus(shop, o, to, direct, now);
    if outcome == Done {
      var order, order' := shop.orders[o], shop'.orders[o];
      ValidSound(shop.stock, init);
      if CrossesConfirmed(order.status, to) {
        ConfirmKeepsValid(shop.stock, init, o);
        ConfirmCoupled(shop.stock, shop.orders, o, order');
      } else if to == CANCELLED {
        ReleaseKeepsValid(shop.stock, init, o, ReservationStatus.Cancelled);
        ReleaseCoupled(shop.stock, shop.orders, o, ReservationStatus.Cancelled, order');
      } else {
        SamePhase(shop.stock, shop.orders, o, order');
      }
      OrderPut(shop, init, shop'.stock, o, order', shop');
    }
  }

  lemma CancelPendingKeeps(shop: Shop, init: Inventory, o: OrderId, final: ReservationStatus,
                           reason: Option<CancellationReason>)
    requires Inv(shop, init) && o < |shop.orders| && shop.orders[o].status == PENDING && Dead(final)
    ensures CancelPending(shop, o, final, reason).1 == Done
    ensures Inv(CancelPending(shop, o, final, reason).0, init)
  {
    hide Valid, Coupled, Live, Orders.ProperLines, SumTotals, Positive, Deadline, Release, ReleaseThrows;
    PendingReleaseNeverThrows(shop.stock, init, shop.orders, o, final);
    var (shop', outcome) := CancelPending(shop, o, final, reason);
    ValidSound(shop.stock, init);
    ReleaseKeepsValid(shop.stock, init, o, final);
    ReleaseCoupled(shop.stock, shop.orders, o, final, shop'.orders[o]);
    OrderPut(shop, init, shop'.stock, o, shop'.orders[o], shop');
  }

  /** Coming back from the cancelled: exactly the lines are held again. */
  lemma ReserveAgain(shop: Shop, init: Inventory, o: OrderId, area: Area, order: Order, shop': Shop)
    requires Inv(shop, init) && o < |shop.orders| && shop.orders[o].status == CANCELLED
    requires var st := ReserveLines(shop.stock, o, order.lines, area, order.pickup);
             st.Some? && shop'.stock == st.value && shop'.orders == shop.orders[o := order]
               && shop'.refunds == shop.refunds
    requires order.status == PENDING && OrderSound(order)
    ensures Inv(shop', init)
  {
    hide Valid, Coupled, HoldsMore, Positive, OrderSound, ReserveLines;
    ReserveLinesKeep(shop.stock, init, o, order.lines, area, order.pickup);
    ReserveCoupled(shop.stock, shop'.stock, shop.orders, o, order);
    OrderPut(shop, init, shop'.stock, o, order, shop');
  }

  lemma ReinstateKeeps(shop: Shop, init: Inventory, o: OrderId, area: Area, now: Instant)
    requires Inv(shop, init)
    ensures Inv(Reinstate(shop, o, area, now).0, init)
  {
    hide Valid, Coupled, Orders.ProperLines, SumTotals, Positive, Deadline, ReserveLines;
    var (shop', outcome) := Reinstate(shop, o, area, now);
    if outcome == Done {
      ReserveAgain(shop, init, o, area, shop'.orders[o], shop');
    }
  }

  // ---------------- correct ----------------

  lemma Rewritten<T>(s: seq<T>, i: nat, x: T, y: T)
    requires i < |s|
    ensures s[i := x][i := y] == s[i := y]
  {
  }

  lemma ReleasedStock(st: Stock, init: Inventory, orders: seq<Order>, o: OrderId)
    requires Valid(st, init) && Coupled(st, orders) && o < |orders|
    ensures var st' := Release(st, o, ReservationStatus.Cancelled);
            Valid(st', init) && Coupled(st', orders[o := orders[o].(status := CANCELLED)])
  {
    hide Valid, Coupled, Release;
    ValidSound(st, init);
    ReleaseKeepsValid(st, init, o, ReservationStatus.Cancelled);
    ReleaseCoupled(st, orders, o, ReservationStatus.Cancelled, orders[o].(status := CANCELLED));
  }

  lemma ReservedStock(st: Stock, init: Inventory, orders: seq<Order>, o: OrderId, area: Area)
    requires Valid(st, init) && Coupled(st, orders) && o < |orders| && orders[o].status == CANCELLED
    requires ReserveLines(st, o, orders[o].lines, area, orders[o].pickup).Some?
    ensures var st' := ReserveLines(st, o, orders[o].lines, area, orders[o].pickup).value;
            Valid(st', init) && Coupled(st', orders[o := orders[o].(status := PENDING)])
  {
    hide Valid, Coupled, HoldsMore, ReserveLines;
    var order := orders[o];
    ReserveLinesKeep(st, init, o, order.lines, area, order.pickup);
    ReserveCoupled(st, ReserveLines(st, o, order.lines, area, order.pickup).value, orders, o,
                   order.(status := PENDING));
  }

  lemma ConfirmedStock(st: Stock, init: Inventory, orders: seq<Order>, o: OrderId, to: OrderStatus)
    requires Valid(st, init) && Coupled(st, orders) && o < |orders| && orders[o].status == PENDING
    requires StockPhase(to) == Committed
    ensures Valid(Confirm(st, o), init) && Coupled(Confirm(st, o), orders[o := orders[o].(status := to)])
  {
    hide Valid, Coupled, Confirm;
    ValidSound(st, init);
    ConfirmKeepsValid(st, init, o);
    ConfirmCoupled(st, orders, o, orders[o].(status := to));
  }

  /** From any phase to any other, a correction leaves the stock the new status owes. */
  lemma CorrectedStockKeeps(st: Stock, init: Inventory, orders: seq<Order>, o: OrderId, to: OrderStatus, area: Area)
    requires Valid(st, init) && Coupled(st, orders) && o < |orders|
    requires CorrectedStock(st, o, StockPhase(orders[o].status), StockPhase(to), orders[o], area).Some?
    ensures var st' := CorrectedStock(st, o, StockPhase(orders[o].status), StockPhase(to), orders[o], area).value;
            Valid(st', init) && Coupled(st', orders[o := orders[o].(status := to)])
  {
    hide Valid, Coupled, Release, Confirm, ReserveLines;
    var order := orders[o];
    var from, phase := StockPhase(order.status), StockPhase(to);
    if from == phase {
      SamePhase(st, orders, o, order.(status := to));
    } else {
      var cancelled, pending := order.(status := CANCELLED), order.(status := PENDING);
      var st1, orders1 := st, orders;
      if from != Phase.Released && !(from == Held && phase == Committed) {
        ReleasedStock(st, init, orders, o);
        st1, orders1 := Release(st, o, ReservationStatus.Cancelled), orders[o := cancelled];
      }
      if phase != Phase.Released {
        var st2, orders2 := st1, orders1;
        if from != Held {
          ReservedStock(st1, init, orders1, o, area);
          Rewritten(orders, o, cancelled, pending);
          st2, orders2 := ReserveLines(st1, o, order.lines, area, order.pickup).value, orders[o := pending];
        }
        if phase == Committed {
          ConfirmedStock(st2, init, orders2, o, to);
          Rewritten(orders, o, pending, order.(status := to));
        }
      }
    }
  }

  lemma CorrectKeeps(shop: Shop, init: Inventory, o: OrderId, status: Option<OrderStatus>,
                     payment: Option<PaymentStatus>, area: Area, now: Instant)
    requires Inv(shop, init)
    ensures Inv(Correct(shop, o, status, payment, area, now).0, init)
  {
    hide Valid, Coupled, Live, OrderSound, CorrectedStock, Corrected, Positive;
    var (shop', outcome) := Correct(shop, o, status, payment, area, now);
    if outcome == Done {
      var order := shop.orders[o];
      var to, toPayment := status.GetOr(order.status), payment.GetOr(order.payment);
      CorrectedStockKeeps(shop.stock, init, shop.orders, o, to, area);
      CorrectedSound(order, to, toPayment, now);
      var mid := shop.orders[o := order.(status := to)];
      SamePhase(shop'.stock, mid, o, shop'.orders[o]);
      Rewritten(shop.orders, o, order.(status := to), shop'.orders[o]);
      OrderPut(shop, init, shop'.stock, o, shop'.orders[o], shop');
    }
  }

  lemma CorrectedSound(order: Order, to: OrderStatus, toPayment: PaymentStatus, now: Instant)
    requires OrderSound(order)
    ensures var order' := Corrected(order, to, toPayment, now);
            OrderSound(order') && order'.status == to && order'.lines == order.lines && order'.payment == toPayment
  {
    hide OrderSound, Restated, Repaid;
    RestatedSound(order, to);
    RepaidSound(Restated(order, to), toPayment, now);
    var order' := Repaid(Restated(order, to), toPayment, now);
    assert OrderSound(order'.(reinstatedAt := Some(now.ms))) by {
      ClockOnly(order', now.ms);
    }
  }

  lemma RestatedSound(order: Order, to: OrderStatus)
    requires OrderSound(order)
    ensures var order' := Restated(order, to);
            OrderSound(order') && order'.status == to && order'.lines == order.lines && order'.payment == order.payment
  {
    hide Deadline, SumTotals, Orders.ProperLines;
  }

  lemma RepaidSound(order: Order, to: PaymentStatus, now: Instant)
    requires OrderSound(order)
    ensures var order' := Repaid(order, to, now);
            OrderSound(order') && order'.status == order.status && order'.lines == order.lines && order'.payment == to
  {
    hide Deadline, SumTotals, Orders.ProperLines;
  }

  lemma ClockOnly(order: Order, ms: int)
    requires OrderSound(order)
    ensures OrderSound(order.(reinstatedAt := Some(ms)))
  {
  }

  lemma PaymentKeeps(shop: Shop, init: Inventory, o: OrderId, to: PaymentStatus, now: Instant)
    requires Inv(shop, init)
    ensures Inv(UpdatePayment(shop, o, to, now).0, init)
  {
    hide Valid, Coupled, Orders.ProperLines, SumTotals, Positive, Deadline;
    var (shop', outcome) := UpdatePayment(shop, o, to, now);
    if outcome == Done {
      SameStock(shop, init, o, shop'.orders[o], shop');
    }
  }

  // ---------------- updateItems ----------------

  lemma EditKeeps(shop: Shop, init: Inventory, o: OrderId, reqs: seq<LineRequest>, offers: map<ProductId, Offer>,
                  area: Area)
    requires Inv(shop, init)
    ensures Inv(UpdateItems(shop, o, reqs, offers, area).0, init)
  {
    hide Valid, Coupled, SumTotals, Subtotal, Positive, Deadline, EditedStock, SameLines, ResolveLine, Saved;
    var (shop', outcome) := UpdateItems(shop, o, reqs, offers, area);
    if outcome == Done {
      var order, order' := shop.orders[o], shop'.orders[o];
      var incoming := ResolveLines(reqs, order.lines, offers).1;
      var inc := ToLines(incoming);
      SubtotalIsSum(incoming);
      assert OrderSound(order);
      SavedIsProper(order.lines, inc);
      SavedHoldsTheSame(order.lines, inc, 0);
      EditedStockKeeps(shop.stock, init, shop.orders, o, inc, area);
      EditedRest(shop'.stock, shop.orders, o, inc, order');
      OrderPut(shop, init, shop'.stock, o, order', shop');
    }
  }

  lemma EditedRest(st: Stock, orders: seq<Order>, o: OrderId, inc: seq<Line>, order': Order)
    requires o < |orders| && Coupled(st, orders[o := orders[o].(lines := inc)])
    requires order'.status == orders[o].status && order'.lines == Saved(orders[o].lines, inc)
    requires Orders.ProperLines(inc) && Orders.ProperLines(orders[o].lines)
    ensures Coupled(st, orders[o := order'])
  {
    hide Coupled, Saved, LineQty;
    var mid := orders[o := orders[o].(lines := inc)];
    forall p ensures LineQty(order'.lines, p) == LineQty(inc, p) {
      SavedHoldsTheSame(orders[o].lines, inc, p);
    }
    SamePhase(st, mid, o, order');
    Rewritten(orders, o, orders[o].(lines := inc), order');
  }

  // ---------------- createOperation ----------------

  lemma ByHandKeeps(shop: Shop, init: Inventory, op: Operation, products: set<ProductId>, active: set<LocationId>)
    requires Inv(shop, init)
    ensures Inv(Orders.ByHand(shop, op, products, active).0, init)
  {
    hide Valid, Live, Operate, OrderSound, Positive;
    var (shop', outcome) := Orders.ByHand(shop, op, products, active);
    if outcome == Done {
      var homes := Homes(shop.orders);
      ValidSound(shop.stock, init);
      OperateKeepsValid(shop.stock, init, op, homes);
      forall o: OrderId, p: ProductId
        ensures Live(shop'.stock, o, p, Reserved) == Due(shop.orders, o, p, Held)
                && Live(shop'.stock, o, p, Confirmed) == Due(shop.orders, o, p, Committed)
      {
        OperateLive(shop.stock, op, homes, o, p, Reserved);
        OperateLive(shop.stock, op, homes, o, p, Confirmed);
        assert Live(shop.stock, o, p, Reserved) == Due(shop.orders, o, p, Held);
      }
    }
  }

  // ---------------- Payments and refunds ----------------

  /** A request adds one row, and only for an order that exists. */
  lemma RequestKeeps(shop: Shop, init: Inventory, o: OrderId, asked: Option<int>)
    requires Inv(shop, init)
    ensures Inv(RequestRefund(shop, o, asked).0, init)
  {
    hide Valid, Coupled, OrdersSound, Refundable;
  }

  lemma CompleteKeeps(shop: Shop, init: Inventory, r: nat, reachable: bool)
    requires Inv(shop, init)
    ensures Inv(CompleteRefund(shop, r, reachable).0, init)
  {
    hide Valid, Coupled, Orders.ProperLines, SumTotals, Deadline, Cents;
    var (shop', outcome) := CompleteRefund(shop, r, reachable);
    if outcome == Done {
      var o := shop.refunds[r].order;
      var order' := shop'.orders[o];
      SamePhase(shop.stock, shop.orders, o, order');
      assert shop.orders[o := shop.orders[o]] == shop.orders;
      assert OrderSound(shop.orders[o]);
    }
  }

  lemma RejectKeeps(shop: Shop, init: Inventory, r: nat)
    requires Inv(shop, init)
    ensures Inv(RejectRefund(shop, r).0, init)
  {
    hide Valid, Coupled, OrdersSound;
  }

  /** Charges and carts are not part of what has to agree. */
  lemma ElsewhereKeeps(shop: Shop, init: Inventory, shop': Shop)
    requires Inv(shop, init)
    requires shop'.stock == shop.stock && shop'.orders == shop.orders && shop'.refunds == shop.refunds
    ensures Inv(shop', init)
  {
    hide Valid, Coupled, OrdersSound;
  }

  lemma ReinstateIfExpiredKeeps(shop: Shop, init: Inventory, o: OrderId, area: Area)
    requires Inv(shop, init) && o < |shop.orders|
    ensures Inv(ReinstateIfExpired(shop, o, area), init)
  {
    hide Valid, Coupled, Orders.ProperLines, SumTotals, Positive, Deadline, ReserveLines, RequestRefund;
    var order := shop.orders[o];
    var shop' := ReinstateIfExpired(shop, o, area);
    if order.status == CANCELLED && order.reason == Some(PaymentNotReceived) {
      if ReserveLines(shop.stock, o, order.lines, area, order.pickup).Some? {
        ReserveAgain(shop, init, o, area, shop'.orders[o], shop');
      } else {
        var flagged := order.(reason := Some(PaidAfterExpiryOutOfStock));
        var mid := shop.(orders := shop.orders[o := flagged]);
        SameStock(shop, init, o, flagged, mid);
        RequestKeeps(mid, init, o, None);
      }
    }
  }

  lemma PropagateKeeps(shop: Shop, init: Inventory, c: Charge, area: Area, now: Instant)
    requires Inv(shop, init)
    ensures Inv(Propagate(shop, c, area, now), init)
  {
    hide Valid, Coupled, Orders.ProperLines, SumTotals, Positive, Deadline, ReinstateIfExpired;
    if c.order < |shop.orders| && shop.orders[c.order].payment != Paid {
      var order := shop.orders[c.order];
      if c.status == Succeeded {
        var mid := shop.(orders := shop.orders[c.order := PaidBy(order, c, now)]);
        SameStock(shop, init, c.order, PaidBy(order, c, now), mid);
        ReinstateIfExpiredKeeps(mid, init, c.order, area);
      } else if c.status == ChargeFailed {
        var failed := order.(payment := PaymentFailed);
        SameStock(shop, init, c.order, failed, shop.(orders := shop.orders[c.order := failed]));
      }
    }
  }

  lemma ClientCancelKeeps(shop: Shop, init: Inventory, client: ClientId, o: OrderId)
    requires Inv(shop, init)
    ensures Inv(CancelByClient(shop, client, o).0, init)
  {
    hide Inv, CancelPending;
    if o < |shop.orders| && shop.orders[o].status == PENDING {
      CancelPendingKeeps(shop, init, o, ReservationStatus.Cancelled, shop.orders[o].reason);
    }
  }

  lemma ExpireKeeps(shop: Shop, init: Inventory, o: OrderId)
    requires Inv(shop, init)
    ensures Inv(Expire(shop, o).0, init)
  {
    hide Inv, CancelPending;
    if o < |shop.orders| && shop.orders[o].status == PENDING {
      CancelPendingKeeps(shop, init, o, ReservationStatus.Expired, Some(PaymentNotReceived));
    }
  }

  lemma SyncKeeps(shop: Shop, init: Inventory, id: nat, notice: Notice, area: Area, now: Instant)
    requires Inv(shop, init)
    ensures Inv(SyncCharge(shop, id, notice, area, now).0, init)
  {
    hide Inv, Propagate;
    if id < |shop.charges| {
      var c := Noted(shop.charges[id], notice);
      var mid := shop.(charges := shop.charges[id := c]);
      ElsewhereKeeps(shop, init, mid);
      PropagateKeeps(mid, init, c, area, now);
    }
  }

  lemma WebhookKeeps(shop: Shop, init: Inventory, id: Option<nat>, notice: Notice, area: Area, now: Instant)
    requires Inv(shop, init)
    ensures Inv(HandleWebhook(shop, id, notice, area, now).0, init)
  {
    hide Inv, Propagate;
    if id.Some? && id.value < |shop.charges| {
      var c := Settled(Noted(shop.charges[id.value], notice), now);
      var mid := shop.(charges := shop.charges[id.value := c]);
      ElsewhereKeeps(shop, init, mid);
      PropagateKeeps(mid, init, c, area, now);
    }
  }

  // ---------------- Every run ----------------

  lemma StepKeeps(shop: Shop, init: Inventory, s: Step)
    requires Inv(shop, init)
    ensures Inv(Apply(shop, s).0, init)
  {
    hide Inv, Create, UpdateStatus, CancelByClient, Expire, Reinstate, Correct, UpdatePayment, UpdateItems,
         Orders.ByHand, SyncCharge, HandleWebhook, RequestRefund, CompleteRefund, RejectRefund;
    match s
    case CreateStep(req, area, now) => CreateKeeps(shop, init, req, area, now);
    case StatusStep(o, to, direct, now) => StatusKeeps(shop, init, o, to, direct, now);
    case ClientCancelStep(client, o) => ClientCancelKeeps(shop, init, client, o);
    case ExpireStep(o) => ExpireKeeps(shop, init, o);
    case ReinstateStep(o, area, now) => ReinstateKeeps(shop, init, o, area, now);
    case CorrectStep(o, status, payment, area, now) => CorrectKeeps(shop, init, o, status, payment, area, now);
    case PaymentStep(o, to, now) => PaymentKeeps(shop, init, o, to, now);
    case EditStep(o, reqs, offers, area) => EditKeeps(shop, init, o, reqs, offers, area);
    case ByHandStep(op, products, active) => ByHandKeeps(shop, init, op, products, active);
    case ChargeStep(charge) => ElsewhereKeeps(shop, init, NewCharge(shop, charge).0);
    case RemoveStep(o, id) => ElsewhereKeeps(shop, init, RemoveAttempt(shop, o, id).0);
    case SyncStep(id, notice, area, now) => SyncKeeps(shop, init, id, notice, area, now);
    case WebhookStep(id, notice, area, now) => WebhookKeeps(shop, init, id, notice, area, now);
    case RequestStep(o, asked) => RequestKeeps(shop, init, o, asked);
    case CompleteStep(r, reachable) => CompleteKeeps(shop, init, r, reachable);
    case RejectStep(r) => RejectKeeps(shop, init, r);
    case CartStep(client, cart) => ElsewhereKeeps(shop, init, WithCart(shop, client, cart));
  }

  /** Whatever the shop opened with, the invariant holds afterwards if it held before. */
  ghost predicate InvKept(before: Shop, after: Shop) {
    forall init: Inventory :: Inv(before, init) ==> Inv(after, init)
  }

  lemma InvKeptByNothing(shop: Shop)
    ensures InvKept(shop, shop)
  {
  }

  lemma InvKeptTransitive(a: Shop, b: Shop, c: Shop)
    requires InvKept(a, b) && InvKept(b, c)
    ensures InvKept(a, c)
  {
    hide Inv;
  }

  lemma CallKeepsInv(shop: Shop, s: Step)
    ensures InvKept(shop, Apply(shop, s).0)
  {
    hide Inv, Apply;
    forall init: Inventory | Inv(shop, init) ensures Inv(Apply(shop, s).0, init) {
      StepKeeps(shop, init, s);
    }
  }

  /** A shop on its first day: stock on the shelves, nothing sold, nothing held. */
  ghost predicate Opening(shop: Shop) {
    Initial(shop.stock) && shop.orders == [] && shop.refunds == []
  }

  lemma OpeningHolds(shop: Shop)
    requires Opening(shop)
    ensures Inv(shop, shop.stock.inv)
  {
    InitialValid(shop.stock);
    assert forall o: OrderId, p: ProductId, s :: Live(shop.stock, o, p, s) == 0;
  }

  /**
   * In every reachable state, whatever calls led there: the three stock tables
   * agree, every order has the stock its status and lines say, its money adds up,
   * and its promise is counted from its payment.
   */
  lemma {:induction false} RunKeeps(shop: Shop, steps: seq<Step>)
    requires Opening(shop)
    ensures Inv(Run(shop, steps), shop.stock.inv)
  {
    hide Inv, Apply;
    if steps == [] {
      OpeningHolds(shop);
    } else {
      RunKeeps(shop, steps[..|steps| - 1]);
      StepKeeps(Run(shop, steps[..|steps| - 1]), shop.stock.inv, steps[|steps| - 1]);
    }
  }

  /**
   * The stock, spelled out: holds are exactly the held rows and never more than
   * there is; the ledger rebuilds every shelf; what it says an order took and has
   * not brought back is what the order has; only operations by hand bring goods in
   * or take them out.
   */
  lemma ReachableStock(opening: Shop, steps: seq<Step>, k: Key, o: OrderId)
    requires Opening(opening)
    ensures var st, init := Run(opening, steps).stock, opening.stock.inv;
            && (k in st.inv ==> 0 <= st.inv[k].reserved == Total(st.rs, HeldAt(k)) <= st.inv[k].quantity)
            && OnHand(st.inv, k) == OnHand(init, k) + Net(st.ledger, All, k)
            && Net(st.ledger, Sales(o), k) == -(Total(st.rs, OfOrderAt(o, k, Confirmed)) as int)
            && OnHand(st.inv, k) + Total(st.rs, TakenAt(k)) == OnHand(init, k) + Net(st.ledger, Reading.ByHand, k)
  {
    hide Coupled, OrdersSound, Apply;
    RunKeeps(opening, steps);
    assert Goods(Run(opening, steps).stock, k)
           == OnHand(opening.stock.inv, k) + Net(Run(opening, steps).stock.ledger, Reading.ByHand, k);
  }

  /** The orders, spelled out. */
  lemma ReachableOrder(opening: Shop, steps: seq<Step>, o: OrderId, p: ProductId)
    requires Opening(opening) && o < |Run(opening, steps).orders|
    ensures var order := Run(opening, steps).orders[o];
            var held := Total(Run(opening, steps).stock.rs, OfLine(o, p, Reserved));
            var taken := Total(Run(opening, steps).stock.rs, OfLine(o, p, Confirmed));
            && (order.status == PENDING ==> held == LineQty(order.lines, p) && taken == 0)
            && (order.status == CANCELLED ==> held == 0 && taken == 0)
            && (order.status != PENDING && order.status != CANCELLED ==> held == 0 && taken == LineQty(order.lines, p))
  {
    hide Valid, OrdersSound, Apply;
    RunKeeps(opening, steps);
    var st, orders := Run(opening, steps).stock, Run(opening, steps).orders;
    assert Live(st, o, p, Reserved) == Due(orders, o, p, Held)
           && Live(st, o, p, Confirmed) == Due(orders, o, p, Committed);
  }

  /**
   * Branches that never run in a reachable state: settling a row whose inventory
   * row is missing, the clamp at zero while re-homing, the throw of an unsigned
   * release of a pending order.
   */
  lemma DeadBranches(opening: Shop, steps: seq<Step>, i: nat, o: OrderId, final: ReservationStatus)
    requires Opening(opening) && Dead(final)
    ensures var shop := Run(opening, steps);
            var st := shop.stock;
            && (i < |st.rs| && st.rs[i].Live() ==> st.rs[i].At() in st.inv)
            && (i < |st.rs| && st.rs[i].status.Reserved? ==>
                  st.rs[i].At() in st.inv && st.inv[st.rs[i].At()].reserved >= st.rs[i].quantity)
            && (o < |shop.orders| && shop.orders[o].status == PENDING ==> !ReleaseThrows(st, o, false, final))
  {
    hide OrdersSound, Apply, Coupled, ReleaseThrows;
    RunKeeps(opening, steps);
    var shop := Run(opening, steps);
    if i < |shop.stock.rs| && shop.stock.rs[i].status.Reserved? {
      RehomeClampIdle(shop.stock, i);
    }
    if o < |shop.orders| && shop.orders[o].status == PENDING {
      PendingReleaseNeverThrows(shop.stock, opening.stock.inv, shop.orders, o, final);
    }
  }

  /** A call that is refused leaves the whole shop as it was. */
  lemma RefusedChangesNothing(shop: Shop, s: Step)
    ensures Apply(shop, s).1 != Done ==> Apply(shop, s).0 == shop
  {
    hide ReserveLines, StatusStock, Release, ReleaseThrows, Returned, CorrectedStock, Corrected, EditedStock, SameLines,
         ResolveLines, Operate, Propagate, SealPayment, JumpAllowed, StepAllowed, PaymentAllowed, Cents;
  }
}
