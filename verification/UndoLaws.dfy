/**
 * What one order does to the stock is undone when it is cancelled: at every single
 * storage, not only in the sums.
 */
module UndoLaws {
  import opened Wrappers
  import opened Tables
  import opened Allocation
  import opened StockSpec
  import opened StockLaws
  import opened CartModule
  import opened Orders
  import opened OrderLaws
  import opened EditLaws
  import opened Refunds
  import opened Payments
  import opened ShopLaws
  import opened LifecycleLaws

  /** What an order has at a storage, of a product, in a status. */
  function Own(st: Stock, o: OrderId, k: Key, s: ReservationStatus): nat {
    Total(st.rs, OfOrderAt(o, k, s))
  }

  /** Only order `o` moved, shelf by shelf: what left a shelf it has as taken, what is newly held it holds. */
  ghost predicate OwnMoves(st: Stock, st': Stock, o: OrderId) {
    && st'.inv.Keys == st.inv.Keys
    && (forall k :: k in st.inv ==>
          && st'.inv[k].quantity + Own(st', o, k, Confirmed) == st.inv[k].quantity + Own(st, o, k, Confirmed)
          && st'.inv[k].reserved - Own(st', o, k, Reserved) == st.inv[k].reserved - Own(st, o, k, Reserved))
    && (forall o', k, s :: o' != o ==> Own(st', o', k, s) == Own(st, o', k, s))
    && (forall o', k :: ByHandAgainst(st', o', k) == ByHandAgainst(st, o', k))
  }

  /** What was entered minus taken out by hand against an order, at a storage and product. */
  function ByHandAgainst(st: Stock, o: OrderId, k: Key): int {
    Net(st.ledger, HandStamped(o), k)
  }

  lemma OwnMovesNothing(st: Stock, o: OrderId)
    ensures OwnMoves(st, st, o)
  {
  }

  lemma OwnMovesTransitive(a: Stock, b: Stock, c: Stock, o: OrderId)
    requires OwnMoves(a, b, o) && OwnMoves(b, c, o)
    ensures OwnMoves(a, c, o)
  {
    hide Own, ByHandAgainst;
  }

  lemma OwnRowsAt(rows: seq<Reservation>, o: OrderId, o': OrderId, k: Key, s: ReservationStatus)
    requires forall r :: r in rows ==> r.order == o
    ensures Total(rows, OfOrderAt(o', k, s).Any()) == if o' == o then Total(rows, AtKey(k)) else 0
  {
    assert forall i :: 0 <= i < |rows| ==> rows[i] in rows;
    if o' == o {
      TotalSame(rows, OfOrderAt(o', k, s).Any(), AtKey(k));
    } else {
      TotalZero(rows, OfOrderAt(o', k, s).Any());
    }
  }

  /** Every shift of an order's rows is a move of its own. */
  lemma ShiftIsOwn(st: Stock, st': Stock, o: OrderId, rows: seq<Reservation>, from: Option<ReservationStatus>,
                   to: ReservationStatus)
    requires Shift(st, st', o, rows, from, to)
    ensures OwnMoves(st, st', o)
  {
    hide Posted, Own, Moved, RowsSound, Booked, ByHandAgainst;
    PostedAt(st.inv, rows, EffectOf(from, to));
    forall o', k ensures ByHandAgainst(st', o', k) == ByHandAgainst(st, o', k) {
      NotByHand(st, st', o, rows, from, to, o', k);
    }
    forall o', k, s
      ensures Own(st', o', k, s) == Own(st, o', k, s) + (if o' == o && s == to then Total(rows, AtKey(k)) else 0)
                                    - (if o' == o && Some(s) == from then Total(rows, AtKey(k)) else 0)
    {
      OwnAfterShift(st, st', o, rows, from, to, o', k, s);
    }
  }

  lemma NotByHand(st: Stock, st': Stock, o: OrderId, rows: seq<Reservation>, from: Option<ReservationStatus>,
                  to: ReservationStatus, o': OrderId, k: Key)
    requires Legal(from, to) && st'.ledger == st.ledger + Booked(from, to, o, rows)
    ensures ByHandAgainst(st', o', k) == ByHandAgainst(st, o', k)
  {
    hide Net, Booked;
    NetOfBooked(from, to, o, rows, st.ledger, HandStamped(o'), k);
  }

  /** What a shift does to what one order has at one place, in one status. */
  lemma OwnAfterShift(st: Stock, st': Stock, o: OrderId, rows: seq<Reservation>, from: Option<ReservationStatus>,
                      to: ReservationStatus, o': OrderId, k: Key, s: ReservationStatus)
    requires (forall r :: r in rows ==> r.order == o) && Moved(st.rs, st'.rs, rows, from, to)
    ensures Own(st', o', k, s) == Own(st, o', k, s) + (if o' == o && s == to then Total(rows, AtKey(k)) else 0)
                                  - (if o' == o && Some(s) == from then Total(rows, AtKey(k)) else 0)
  {
    hide Total;
    OwnRowsAt(rows, o, o', k, s);
  }

  // ---------------- The stock operations ----------------

  lemma ReserveIsOwn(st: Stock, init: Inventory, o: OrderId, p: ProductId, q: nat, at: Reach)
    requires Valid(st, init) && Reserve(st, o, p, q, at).Some?
    ensures OwnMoves(st, Reserve(st, o, p, q, at).value, o)
  {
    hide Shift, OwnMoves, Reserve, TakesFor;
    ReserveShifts(st, o, p, q, at);
    ShiftIsOwn(st, Reserve(st, o, p, q, at).value, o, TakesFor(st, o, p, q, at), None, Reserved);
  }

  lemma ConfirmIsOwn(st: Stock, init: Inventory, o: OrderId)
    requires Valid(st, init)
    ensures OwnMoves(st, Confirm(st, o), o)
  {
    hide Shift, OwnMoves, Confirm, Query;
    ConfirmShifts(st, o);
    ShiftIsOwn(st, Confirm(st, o), o, Query(st.rs, OfOrder(o, Reserved)), Some(Reserved), Confirmed);
  }

  lemma ConfirmProductIsOwn(st: Stock, init: Inventory, o: OrderId, p: ProductId)
    requires Valid(st, init)
    ensures OwnMoves(st, ConfirmProduct(st, o, p), o)
  {
    hide Shift, OwnMoves, ConfirmProduct, Query;
    ConfirmProductShifts(st, o, p);
    ShiftIsOwn(st, ConfirmProduct(st, o, p), o, Query(st.rs, OfLine(o, p, Reserved)), Some(Reserved), Confirmed);
  }

  lemma ReleaseIsOwn(st: Stock, init: Inventory, o: OrderId, final: ReservationStatus)
    requires Valid(st, init) && Dead(final)
    ensures OwnMoves(st, Release(st, o, final), o)
  {
    hide OwnMoves, DropHolds, TakeBack, Query, Moved, Posted;
    var st1 := DropHolds(st, o, final);
    DropHoldsShifts(st, o, final);
    ShiftIsOwn(st, st1, o, Query(st.rs, OfOrder(o, Reserved)), Some(Reserved), final);
    TakeBackShifts(st1, o, final);
    ShiftIsOwn(st1, TakeBack(st1, o, final), o, Query(st1.rs, OfOrder(o, Confirmed)), Some(Confirmed), final);
    OwnMovesTransitive(st, st1, TakeBack(st1, o, final), o);
  }

  lemma ReleaseUnitsIsOwn(st: Stock, init: Inventory, o: OrderId, p: ProductId, q: nat)
    requires Valid(st, init)
    ensures OwnMoves(st, ReleaseUnits(st, o, p, q), o)
  {
    hide OwnMoves, CutHeld, CutSold, FreedRows, Moved, Posted;
    var st1, left := CutHeld(st, o, p, q), AfterHeld(st, o, p, q);
    CutHeldShifts(st, o, p, q);
    ShiftIsOwn(st, st1, o, FreedRows(st.rs, OfLine(o, p, Reserved), q, |st.rs|), Some(Reserved), Cancelled);
    FreedTotal(st.rs, OfLine(o, p, Reserved), q, |st.rs|);
    CutSoldShifts(st1, o, p, left);
    ShiftIsOwn(st1, CutSold(st1, o, p, left), o, FreedRows(st1.rs, OfLine(o, p, Confirmed), left, |st1.rs|),
               Some(Confirmed), Cancelled);
    OwnMovesTransitive(st, st1, CutSold(st1, o, p, left), o);
  }

  lemma {:induction false} ReserveLinesIsOwn(st: Stock, init: Inventory, o: OrderId, ls: seq<Line>, area: Area,
                                             pickup: Option<LocationId>)
    requires Valid(st, init) && ReserveLines(st, o, ls, area, pickup).Some?
    ensures OwnMoves(st, ReserveLines(st, o, ls, area, pickup).value, o)
  {
    hide Valid, OwnMoves, Reserve;
    if ls == [] {
      OwnMovesNothing(st, o);
    } else {
      var l, first := ls[|ls| - 1], ls[..|ls| - 1];
      var st1 := ReserveLines(st, o, first, area, pickup).value;
      ReserveLinesIsOwn(st, init, o, first, area, pickup);
      ReserveLinesKeep(st, init, o, first, area, pickup);
      ReserveIsOwn(st1, init, o, l.prod, l.quantity, ReachFor(area, pickup, l.prod));
      OwnMovesTransitive(st, st1, ReserveLines(st, o, ls, area, pickup).value, o);
    }
  }

  /** Dropping lines is one partial release after another. */
  lemma {:induction false} DropLinesIsOwn(st: Stock, init: Inventory, o: OrderId, cur: seq<Line>, inc: seq<Line>)
    requires Valid(st, init)
    ensures Valid(DropLines(st, o, cur, inc), init) && OwnMoves(st, DropLines(st, o, cur, inc), o)
  {
    hide Valid, OwnMoves, ReleaseUnits;
    if cur == [] {
      OwnMovesNothing(st, o);
    } else {
      var l, first := cur[|cur| - 1], cur[..|cur| - 1];
      var st1 := DropLines(st, o, first, inc);
      DropLinesIsOwn(st, init, o, first, inc);
      var drop := l.quantity - LineQty(inc, l.prod);
      if drop > 0 {
        ReleaseUnitsKeepsValid(st1, init, o, l.prod, drop);
        ReleaseUnitsIsOwn(st1, init, o, l.prod, drop);
        OwnMovesTransitive(st, st1, DropLines(st, o, cur, inc), o);
      }
    }
  }

  lemma RaiseLineIsOwn(st: Stock, init: Inventory, o: OrderId, l: Line, had: nat, committed: bool, area: Area,
                       pickup: Option<LocationId>)
    requires Valid(st, init) && RaiseLine(st, o, l, had, committed, area, pickup).Some?
    ensures var st' := RaiseLine(st, o, l, had, committed, area, pickup).value;
            Valid(st', init) && OwnMoves(st, st', o)
  {
    hide Valid, OwnMoves, Reserve, ConfirmProduct;
    if l.quantity <= had {
      OwnMovesNothing(st, o);
    } else {
      var at, n := ReachFor(area, pickup, l.prod), l.quantity - had;
      var st1 := Reserve(st, o, l.prod, n, at).value;
      ReserveKeepsValid(st, init, o, l.prod, n, at);
      ReserveIsOwn(st, init, o, l.prod, n, at);
      if committed {
        ConfirmProductKeepsValid(st1, init, o, l.prod);
        ConfirmProductIsOwn(st1, init, o, l.prod);
        OwnMovesTransitive(st, st1, ConfirmProduct(st1, o, l.prod), o);
      }
    }
  }

  lemma {:induction false} RaiseLinesIsOwn(st: Stock, init: Inventory, o: OrderId, inc: seq<Line>, cur: seq<Line>,
                                           committed: bool, area: Area, pickup: Option<LocationId>)
    requires Valid(st, init) && RaiseLines(st, o, inc, cur, committed, area, pickup).Some?
    ensures var st' := RaiseLines(st, o, inc, cur, committed, area, pickup).value;
            Valid(st', init) && OwnMoves(st, st', o)
  {
    hide Valid, OwnMoves, RaiseLine;
    if inc == [] {
      OwnMovesNothing(st, o);
    } else {
      var l, first := inc[|inc| - 1], inc[..|inc| - 1];
      var st1 := RaiseLines(st, o, first, cur, committed, area, pickup).value;
      RaiseLinesIsOwn(st, init, o, first, cur, committed, area, pickup);
      RaiseLineIsOwn(st1, init, o, l, LineQty(cur, l.prod), committed, area, pickup);
      OwnMovesTransitive(st, st1, RaiseLines(st, o, inc, cur, committed, area, pickup).value, o);
    }
  }

  lemma CorrectedStockIsOwn(st: Stock, init: Inventory, o: OrderId, from: Phase, to: Phase, order: Order, area: Area)
    requires Valid(st, init) && CorrectedStock(st, o, from, to, order, area).Some?
    ensures OwnMoves(st, CorrectedStock(st, o, from, to, order, area).value, o)
  {
    hide Valid, OwnMoves, HoldsMore, Release, Confirm, ReserveLines;
    OwnMovesNothing(st, o);
    var st1 := st;
    if from == Committed || (from == Held && to == Phase.Released) {
      st1 := Release(st, o, ReservationStatus.Cancelled);
      ReleaseKeepsValid(st, init, o, ReservationStatus.Cancelled);
      ReleaseIsOwn(st, init, o, ReservationStatus.Cancelled);
    }
    if from != to && to != Phase.Released {
      var st2 := st1;
      if from != Held {
        ReserveLinesKeep(st1, init, o, order.lines, area, order.pickup);
        ReserveLinesIsOwn(st1, init, o, order.lines, area, order.pickup);
        st2 := ReserveLines(st1, o, order.lines, area, order.pickup).value;
        OwnMovesTransitive(st, st1, st2, o);
      }
      if to == Committed {
        ConfirmIsOwn(st2, init, o);
        OwnMovesTransitive(st, st2, Confirm(st2, o), o);
      }
    }
  }

  // ---------------- The calls about one order ----------------

  /** The calls that concern order `o`, a payment of its own among them, or no stock at all. */
  predicate About(shop: Shop, s: ShopLaws.Step, o: OrderId) {
    match s
    case CreateStep(_, _, _) => false
    case ByHandStep(_, _, _) => false
    case StatusStep(o', _, _, _) => o' == o
    case ClientCancelStep(_, o') => o' == o
    case ExpireStep(o') => o' == o
    case ReinstateStep(o', _, _) => o' == o
    case CorrectStep(o', _, _, _, _) => o' == o
    case EditStep(o', _, _, _) => o' == o
    case SyncStep(id, _, _, _) => Found(shop.charges, id) ==> shop.charges[id].order == o
    case WebhookStep(ref, _, _, _) => ref.Some? && Found(shop.charges, ref.value) ==> shop.charges[ref.value].order == o
    case _ => true
  }

  lemma CancelPendingIsOwn(shop: Shop, init: Inventory, o: OrderId, final: ReservationStatus,
                           reason: Option<CancellationReason>)
    requires Inv(shop, init) && o < |shop.orders| && Dead(final)
    ensures OwnMoves(shop.stock, CancelPending(shop, o, final, reason).0.stock, o)
  {
    hide Valid, OwnMoves, Release, ReleaseThrows;
    OwnMovesNothing(shop.stock, o);
    ReleaseIsOwn(shop.stock, init, o, final);
  }

  lemma StatusIsOwn(shop: Shop, init: Inventory, o: OrderId, to: OrderStatus, direct: bool, now: Instant)
    requires Inv(shop, init)
    ensures OwnMoves(shop.stock, UpdateStatus(shop, o, to, direct, now).0.stock, o)
  {
    hide Valid, OwnMoves, Release, Confirm;
    OwnMovesNothing(shop.stock, o);
    ConfirmIsOwn(shop.stock, init, o);
    ReleaseIsOwn(shop.stock, init, o, ReservationStatus.Cancelled);
  }

  lemma EditIsOwn(shop: Shop, init: Inventory, o: OrderId, reqs: seq<LineRequest>, offers: map<ProductId, Offer>,
                  area: Area)
    requires Inv(shop, init)
    ensures OwnMoves(shop.stock, UpdateItems(shop, o, reqs, offers, area).0.stock, o)
  {
    hide Valid, OwnMoves, DropLines, RaiseLines, ResolveLines, SameLines;
    OwnMovesNothing(shop.stock, o);
    if UpdateItems(shop, o, reqs, offers, area).1 == Done {
      var order := shop.orders[o];
      var inc := ToLines(ResolveLines(reqs, order.lines, offers).1);
      if StockPhase(order.status) != Phase.Released {
        var st1 := DropLines(shop.stock, o, order.lines, inc);
        var committed := StockPhase(order.status) == Committed;
        DropLinesIsOwn(shop.stock, init, o, order.lines, inc);
        RaiseLinesIsOwn(st1, init, o, inc, order.lines, committed, area, order.pickup);
        OwnMovesTransitive(shop.stock, st1, RaiseLines(st1, o, inc, order.lines, committed, area, order.pickup).value,
                           o);
      }
    }
  }

  /** A late payment takes back for its order what it can, and nothing of anybody else's. */
  lemma PropagateIsOwn(shop: Shop, init: Inventory, c: Charge, area: Area, now: Instant)
    requires Inv(shop, init)
    ensures OwnMoves(shop.stock, Propagate(shop, c, area, now).stock, c.order)
  {
    hide OwnMoves, ReserveLines, SealPayment, Removed, RequestRefund;
    OwnMovesNothing(shop.stock, c.order);
    if c.order < |shop.orders| {
      var order := shop.orders[c.order];
      var paid := PaidBy(order, c, now);
      InvIsValid(shop, init);
      SealKeepsDeal(order.(payment := Paid), c.completedOn.GetOr(now.day));
      if ReserveLines(shop.stock, c.order, order.lines, area, order.pickup).Some? {
        ReserveLinesIsOwn(shop.stock, init, c.order, order.lines, area, order.pickup);
      }
      RequestLeavesStock(shop.(orders := shop.orders[c.order := paid][c.order := paid.(status := CANCELLED,
        reason := Some(PaidAfterExpiryOutOfStock))]), c.order);
    }
  }

  lemma RequestLeavesStock(shop: Shop, o: OrderId)
    ensures RequestRefund(shop, o, None).0.stock == shop.stock
  {
    hide Refundable;
  }

  lemma PaymentIsOwn(shop: Shop, init: Inventory, s: ShopLaws.Step, o: OrderId)
    requires Inv(shop, init) && About(shop, s, o) && (s.SyncStep? || s.WebhookStep?)
    ensures OwnMoves(shop.stock, Apply(shop, s).0.stock, o)
  {
    hide Inv, OwnMoves, Propagate;
    OwnMovesNothing(shop.stock, o);
    match s
    case SyncStep(id, notice, area, now) =>
      if Found(shop.charges, id) {
        var c := Noted(shop.charges[id], notice);
        ElsewhereKeeps(shop, init, shop.(charges := shop.charges[id := c]));
        PropagateIsOwn(shop.(charges := shop.charges[id := c]), init, c, area, now);
      }
    case WebhookStep(ref, notice, area, now) =>
      if ref.Some? && Found(shop.charges, ref.value) {
        var c := Settled(Noted(shop.charges[ref.value], notice), now);
        ElsewhereKeeps(shop, init, shop.(charges := shop.charges[ref.value := c]));
        PropagateIsOwn(shop.(charges := shop.charges[ref.value := c]), init, c, area, now);
      }
  }

  lemma StepIsOwn(shop: Shop, init: Inventory, s: ShopLaws.Step, o: OrderId)
    requires Inv(shop, init) && About(shop, s, o)
    ensures OwnMoves(shop.stock, Apply(shop, s).0.stock, o)
  {
    hide Inv, OwnMoves, UpdateStatus, CancelPending, ReserveLines, CorrectedStock, Corrected, UpdateItems, Cents,
         Refundable, SyncCharge, HandleWebhook;
    OwnMovesNothing(shop.stock, o);
    match s
    case SyncStep(_, _, _, _) => PaymentIsOwn(shop, init, s, o);
    case WebhookStep(_, _, _, _) => PaymentIsOwn(shop, init, s, o);
    case StatusStep(_, to, direct, now) => StatusIsOwn(shop, init, o, to, direct, now);
    case EditStep(_, reqs, offers, area) => EditIsOwn(shop, init, o, reqs, offers, area);
    case ClientCancelStep(_, _) =>
      if o < |shop.orders| {
        CancelPendingIsOwn(shop, init, o, ReservationStatus.Cancelled, shop.orders[o].reason);
      }
    case ExpireStep(_) =>
      if o < |shop.orders| {
        CancelPendingIsOwn(shop, init, o, ReservationStatus.Expired, Some(PaymentNotReceived));
      }
    case ReinstateStep(_, area, now) =>
      if o < |shop.orders| && ReserveLines(shop.stock, o, shop.orders[o].lines, area, shop.orders[o].pickup).Some? {
        InvIsValid(shop, init);
        ReserveLinesIsOwn(shop.stock, init, o, shop.orders[o].lines, area, shop.orders[o].pickup);
      }
    case CorrectStep(_, status, payment, area, now) =>
      if o < |shop.orders| {
        var order := shop.orders[o];
        var to := StockPhase(status.GetOr(order.status));
        InvIsValid(shop, init);
        if CorrectedStock(shop.stock, o, StockPhase(order.status), to, order, area).Some? {
          CorrectedStockIsOwn(shop.stock, init, o, StockPhase(order.status), to, order, area);
        }
      }
    case _ =>
  }

  lemma InvIsValid(shop: Shop, init: Inventory)
    requires Inv(shop, init)
    ensures Valid(shop.stock, init) && Coupled(shop.stock, shop.orders)
  {
  }

  // ---------------- Nothing left behind ----------------

  lemma {:induction false} RunIsOwn(shop: Shop, init: Inventory, steps: seq<ShopLaws.Step>, o: OrderId)
    requires Inv(shop, init) && forall i :: 0 <= i < |steps| ==> About(Run(shop, steps[..i]), steps[i], o)
    ensures Inv(Run(shop, steps), init) && OwnMoves(shop.stock, Run(shop, steps).stock, o)
  {
    hide Inv, OwnMoves, Apply, About;
    if steps == [] {
      OwnMovesNothing(shop.stock, o);
    } else {
      var n := |steps| - 1;
      var before := Run(shop, steps[..n]);
      var first := steps[..n];
      assert forall i :: 0 <= i < n ==> first[i] == steps[i] && first[..i] == steps[..i];
      RunIsOwn(shop, init, steps[..n], o);
      StepKeeps(before, init, steps[n]);
      StepIsOwn(before, init, steps[n], o);
      OwnMovesTransitive(shop.stock, before.stock, Run(shop, steps).stock, o);
    }
  }

  /** A cancelled order, or one not made yet, has nothing anywhere. */
  lemma NothingOwned(shop: Shop, init: Inventory, o: OrderId, k: Key)
    requires Inv(shop, init) && (o < |shop.orders| ==> shop.orders[o].status == CANCELLED)
    ensures Own(shop.stock, o, k, Reserved) == 0 && Own(shop.stock, o, k, Confirmed) == 0
  {
    hide Valid, OrdersSound;
    var rs := shop.stock.rs;
    assert Live(shop.stock, o, k.prod, Reserved) == 0 && Live(shop.stock, o, k.prod, Confirmed) == 0;
    TotalWithin(rs, OfOrderAt(o, k, Reserved), OfLine(o, k.prod, Reserved));
    TotalWithin(rs, OfOrderAt(o, k, Confirmed), OfLine(o, k.prod, Confirmed));
  }

  lemma {:induction false} TotalWithin(rs: seq<Reservation>, j: Pick, wider: Pick)
    requires forall i :: 0 <= i < |rs| && Fits(rs[i], j) ==> Fits(rs[i], wider)
    ensures Total(rs, j) <= Total(rs, wider)
  {
    if rs != [] {
      TotalWithin(rs[..|rs| - 1], j, wider);
    }
  }

  /**
   * However an order came back to life, was confirmed, corrected or edited: once
   * it is cancelled again every shelf and every hold, storage by storage, is
   * exactly what it was before.
   */
  lemma CancelledLeavesNoTrace(shop: Shop, init: Inventory, steps: seq<ShopLaws.Step>, o: OrderId)
    requires Inv(shop, init) && forall i :: 0 <= i < |steps| ==> About(Run(shop, steps[..i]), steps[i], o)
    requires o < |shop.orders| && shop.orders[o].status == CANCELLED
    requires o < |Run(shop, steps).orders| && Run(shop, steps).orders[o].status == CANCELLED
    ensures Run(shop, steps).stock.inv == shop.stock.inv
  {
    hide Inv, Own, Run;
    RunIsOwn(shop, init, steps, o);
    var st, st' := shop.stock, Run(shop, steps).stock;
    forall k | k in st.inv ensures st'.inv[k] == st.inv[k] {
      NothingOwned(shop, init, o, k);
      NothingOwned(Run(shop, steps), init, o, k);
    }
  }

  /** The same for an order from its creation on. */
  lemma CreatedAndCancelled(shop: Shop, init: Inventory, req: NewOrder, area: Area, now: Instant,
                            steps: seq<ShopLaws.Step>)
    requires Inv(shop, init) && Create(shop, req, area, now).1 == Done
    requires forall i :: 0 <= i < |steps| ==>
               About(Run(Create(shop, req, area, now).0, steps[..i]), steps[i], |shop.orders|)
    requires var shop' := Run(Create(shop, req, area, now).0, steps);
             |shop.orders| < |shop'.orders| && shop'.orders[|shop.orders|].status == CANCELLED
    ensures Run(Create(shop, req, area, now).0, steps).stock.inv == shop.stock.inv
  {
    hide Inv, Own, Run, ReserveLines, NewOrderOf;
    var o := |shop.orders|;
    var made := Create(shop, req, area, now).0;
    InvIsValid(shop, init);
    CreateKeeps(shop, init, req, area, now);
    ReserveLinesIsOwn(shop.stock, init, o, ToLines(req.lines), area, req.pickup);
    RunIsOwn(made, init, steps, o);
    var st, st' := shop.stock, Run(made, steps).stock;
    OwnMovesTransitive(st, made.stock, st', o);
    forall k | k in st.inv ensures st'.inv[k] == st.inv[k] {
      NothingOwned(shop, init, o, k);
      NothingOwned(Run(made, steps), init, o, k);
    }
  }
}
