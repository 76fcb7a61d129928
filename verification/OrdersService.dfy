/**
 * The orders service. Every method does to the tables exactly what the function of
 * `Orders` its contract names says, and leaves them alone when it is refused.
 */
module OrdersModule {
  import opened Wrappers
  import opened Tables
  import opened Allocation
  import opened StockSpec
  import opened Calendar
  import opened CartModule
  import opened InventoryModule
  import opened Orders
  import opened ShopTablesModule
  import opened ShopLaws
  import opened LifecycleLaws

  lemma ReserveLinesSnoc(st: Stock, o: OrderId, ls: seq<Line>, n: nat, area: Area, pickup: Option<LocationId>)
    requires n < |ls|
    ensures ReserveLines(st, o, ls[..0], area, pickup) == Some(st)
    ensures var earlier := ReserveLines(st, o, ls[..n], area, pickup);
            ReserveLines(st, o, ls[..n + 1], area, pickup)
            == if earlier.None? then None
               else Reserve(earlier.value, o, ls[n].prod, ls[n].quantity, ReachFor(area, pickup, ls[n].prod))
  {
    assert ls[..n + 1][..n] == ls[..n];
  }

  lemma {:induction false} ReserveLinesStops(st: Stock, o: OrderId, ls: seq<Line>, n: nat, area: Area,
                                             pickup: Option<LocationId>)
    requires n <= |ls| && ReserveLines(st, o, ls[..n], area, pickup).None?
    ensures ReserveLines(st, o, ls, area, pickup).None?
    decreases |ls| - n
  {
    hide ReserveLines;
    if n < |ls| {
      ReserveLinesSnoc(st, o, ls, n, area, pickup);
      ReserveLinesStops(st, o, ls, n + 1, area, pickup);
    } else {
      assert ls[..n] == ls;
    }
  }

  lemma ReserveNoLines(st: Stock, o: OrderId, area: Area, pickup: Option<LocationId>)
    ensures ReserveLines(st, o, [], area, pickup) == Some(st)
  {
  }

  class OrdersService {
    const db: ShopTables

    constructor (db: ShopTables)
      ensures this.db == db
    {
      this.db := db;
    }

    /** Sets every line aside again; false, and some of them perhaps set aside, if one cannot be. */
    method ReserveOrderItems(o: OrderId, lines: seq<Line>, area: Area, pickup: Option<LocationId>) returns (ok: bool)
      modifies db.inventory
      ensures ok <==> ReserveLines(old(db.inventory.State()), o, lines, area, pickup).Some?
      ensures ok ==> ReserveLines(old(db.inventory.State()), o, lines, area, pickup) == Some(db.inventory.State())
    {
      hide ReserveLines;
      ghost var st := db.inventory.State();
      ReserveNoLines(st, o, area, pickup);
      assert lines[..0] == [];
      for i := 0 to |lines|
        invariant ReserveLines(st, o, lines[..i], area, pickup) == Some(db.inventory.State())
      {
        ReserveLinesSnoc(st, o, lines, i, area, pickup);
        var reserved := db.inventory.Reserve(o, lines[i].prod, lines[i].quantity,
                                             ReachFor(area, pickup, lines[i].prod));
        if !reserved {
          ReserveLinesStops(st, o, lines, i + 1, area, pickup);
          return false;
        }
      }
      assert lines[..|lines|] == lines;
      ok := true;
    }

    /** Line by line: its hold, then its row. */
    method TakeLines(o: OrderId, priced: seq<PricedLine>, area: Area, pickup: Option<LocationId>)
      returns (ok: bool, lines: seq<Line>)
      modifies db.inventory
      ensures ok <==> ReserveLines(old(db.inventory.State()), o, ToLines(priced), area, pickup).Some?
      ensures ok ==>
                ReserveLines(old(db.inventory.State()), o, ToLines(priced), area, pickup) == Some(db.inventory.State())
      ensures ok ==> lines == ToLines(priced)
    {
      hide ReserveLines, ToLine, ReachFor, StockSpec.Reserve;
      ghost var stored := ToLines(priced);
      ghost var st := db.inventory.State();
      lines := [];
      ReserveNoLines(st, o, area, pickup);
      assert stored[..0] == [];
      for i := 0 to |priced|
        invariant ReserveLines(st, o, stored[..i], area, pickup) == Some(db.inventory.State())
        invariant |lines| == i && forall j :: 0 <= j < i ==> lines[j] == stored[j]
      {
        var line := ToLine(priced[i]);
        ReserveLinesSnoc(st, o, stored, i, area, pickup);
        var reserved := db.inventory.Reserve(o, line.prod, line.quantity, ReachFor(area, pickup, line.prod));
        if !reserved {
          ReserveLinesStops(st, o, stored, i + 1, area, pickup);
          return false, [];
        }
        lines := lines + [line];
      }
      assert stored[..|stored|] == stored;
      ok := true;
    }

    /** Where every order is born: the header, and line by line its hold and its row. */
    method CrearPedido(req: NewOrder, area: Area, now: Instant) returns (outcome: Outcome)
      modifies db, db.inventory
      ensures (db.State(), outcome) == Create(old(db.State()), req, area, now)
      ensures InvKept(old(db.State()), db.State())
    {
      hide ReserveLines, Subtotal, SealPayment, LineTotal, Orders.ProperLines, ToLines, InvKept;
      CallKeepsInv(db.State(), CreateStep(req, area, now));
      if !Orders.ProperLines(ToLines(req.lines)) {
        return BadRequest;
      }
      var before := db.State();
      var subtotal := Subtotal(req.lines);
      var ok, lines := TakeLines(|db.orders|, req.lines, area, req.pickup);
      if !ok {
        db.Rollback(before);
        return Conflict;
      }
      var order := Order(req.client, PENDING, Unpaid, None, lines, subtotal, req.fee, subtotal + req.fee,
                         req.isPickup, req.pickup, req.promiseDays, None, None, None, now.ms, None);
      if req.paidAlready {
        order := SealPayment(order.(payment := Paid), now.day);
      }
      db.orders := db.orders + [order];
      if req.emptiesCart {
        db.carts := db.carts[req.client := map[]];
      }
      outcome := Done;
    }

    /** A customer backs out while the order is pending; nobody signs, for nothing has left the shelves. */
    method CancelByClient(client: ClientId, o: OrderId) returns (outcome: Outcome)
      modifies db, db.inventory
      ensures (db.State(), outcome) == Orders.CancelByClient(old(db.State()), client, o)
      ensures InvKept(old(db.State()), db.State())
    {
      hide Release, ReleaseThrows, Returned, CartLines, InvKept;
      CallKeepsInv(db.State(), ClientCancelStep(client, o));
      if o >= |db.orders| || db.orders[o].client != client {
        return NotFound;
      }
      var order := db.orders[o];
      if order.status != PENDING {
        return Conflict;
      }
      var before := db.State();
      outcome := db.inventory.ReleaseReservations(o, false, ReservationStatus.Cancelled);
      if outcome != Done {
        db.Rollback(before);
        return;
      }
      db.SaveOrder(o, order.(status := CANCELLED));
      db.BackToCart(order.client, order.lines);
    }

    /** A step along the table, or a direct jump: the stock is committed when the order passes `CONFIRMED`. */
    method UpdateStatus(o: OrderId, to: OrderStatus, direct: bool, now: Instant) returns (outcome: Outcome)
      modifies db, db.inventory
      ensures (db.State(), outcome) == Orders.UpdateStatus(old(db.State()), o, to, direct, now)
      ensures InvKept(old(db.State()), db.State())
    {
      hide Release, ReleaseThrows, Confirm, InvKept;
      CallKeepsInv(db.State(), StatusStep(o, to, direct, now));
      if o >= |db.orders| {
        return NotFound;
      }
      var order := db.orders[o];
      if direct {
        if !JumpAllowed(order.status, to) {
          return Conflict;
        }
      } else if !StepAllowed(order.status, to) {
        return Conflict;
      }
      if CrossesConfirmed(order.status, to) {
        db.inventory.ConfirmReservations(o);
      } else if to == CANCELLED {
        SignedRelease(o);
      }
      order := order.(status := to);
      if to == DELIVERED && order.deliveredOn.None? {
        order := order.(deliveredOn := Some(now.day));
      }
      db.SaveOrder(o, order);
      outcome := Done;
    }

    /** With a user to sign for the restock, a release cannot fail. */
    method SignedRelease(o: OrderId)
      modifies db.inventory
      ensures db.inventory.State() == Release(old(db.inventory.State()), o, ReservationStatus.Cancelled)
    {
      hide Release;
      var outcome := db.inventory.ReleaseReservations(o, true, ReservationStatus.Cancelled);
    }

    /** Back to pending, with its stock set aside again and a fresh window to be paid in. */
    method Reinstate(o: OrderId, area: Area, now: Instant) returns (outcome: Outcome)
      modifies db, db.inventory
      ensures (db.State(), outcome) == Orders.Reinstate(old(db.State()), o, area, now)
      ensures InvKept(old(db.State()), db.State())
    {
      hide ReserveLines, InvKept;
      CallKeepsInv(db.State(), ReinstateStep(o, area, now));
      if o >= |db.orders| {
        return NotFound;
      }
      var order := db.orders[o];
      if order.status != CANCELLED || order.reason == Some(PaidAfterExpiryOutOfStock) {
        return Conflict;
      }
      var before := db.State();
      var reserved := ReserveOrderItems(o, order.lines, area, order.pickup);
      if !reserved {
        db.Rollback(before);
        return Conflict;
      }
      db.SaveOrder(o, order.(status := PENDING, reason := None, reinstatedAt := Some(now.ms)));
      outcome := Done;
    }

    /** The stock a correction owes when it moves an order between phases. */
    method CorrectStock(o: OrderId, from: Phase, to: Phase, order: Order, area: Area) returns (ok: bool)
      modifies db.inventory
      ensures ok <==> CorrectedStock(old(db.inventory.State()), o, from, to, order, area).Some?
      ensures ok ==> CorrectedStock(old(db.inventory.State()), o, from, to, order, area) == Some(db.inventory.State())
    {
      hide ReserveLines, Release, Confirm;
      if from == to {
        return true;
      }
      if from == Committed {
        SignedRelease(o);
      } else if from == Held && to == Phase.Released {
        SignedRelease(o);
      }
      if to == Held || to == Committed {
        if from != Held {
          var reserved := ReserveOrderItems(o, order.lines, area, order.pickup);
          if !reserved {
            return false;
          }
        }
        if to == Committed {
          db.inventory.ConfirmReservations(o);
        }
      }
      ok := true;
    }

    /** Any status and any payment status, in any direction. */
    method Correct(o: OrderId, status: Option<OrderStatus>, payment: Option<PaymentStatus>, area: Area, now: Instant)
      returns (outcome: Outcome)
      modifies db, db.inventory
      ensures (db.State(), outcome) == Orders.Correct(old(db.State()), o, status, payment, area, now)
      ensures InvKept(old(db.State()), db.State())
    {
      hide CorrectedStock, SealPayment, InvKept;
      CallKeepsInv(db.State(), CorrectStep(o, status, payment, area, now));
      if status.None? && payment.None? {
        return BadRequest;
      }
      if o >= |db.orders| {
        return NotFound;
      }
      var order := db.orders[o];
      var fromStatus, toStatus := order.status, status.GetOr(order.status);
      var fromPayment, toPayment := order.payment, payment.GetOr(order.payment);
      if fromStatus == toStatus && fromPayment == toPayment {
        return Conflict;
      }
      var before := db.State();
      var ok := CorrectStock(o, StockPhase(fromStatus), StockPhase(toStatus), order, area);
      if !ok {
        db.Rollback(before);
        return Conflict;
      }
      order := CorrectedFields(order, toStatus, toPayment, now);
      db.SaveOrder(o, order);
      outcome := Done;
    }

    /** The fields a correction writes. */
    static method CorrectedFields(before: Order, toStatus: OrderStatus, toPayment: PaymentStatus, now: Instant)
      returns (order: Order)
      ensures order == Corrected(before, toStatus, toPayment, now)
    {
      hide SealPayment;
      order := before;
      if before.status != toStatus {
        order := order.(status := toStatus);
        if toStatus == CANCELLED || before.status == CANCELLED {
          order := order.(reason := None);
        }
      }
      assert order == Restated(before, toStatus);
      if before.payment != toPayment {
        order := order.(payment := toPayment);
        if toPayment == Paid {
          order := SealPayment(order, now.day);
        } else if before.payment == Paid {
          order := UndoPayment(order);
        }
      }
      assert order == Repaid(Restated(before, toStatus), toPayment, now);
      if order.status == PENDING && order.payment != Paid && (before.status != PENDING || before.payment == Paid) {
        order := order.(reinstatedAt := Some(now.ms));
      }
    }

    method UpdatePaymentStatus(o: OrderId, to: PaymentStatus, now: Instant) returns (outcome: Outcome)
      modifies db
      ensures (db.State(), outcome) == UpdatePayment(old(db.State()), o, to, now)
      ensures outcome == Done ==>
                o < |db.orders| == |old(db.orders)| && MarkedBy(old(db.orders)[o], db.orders[o], to, now.day)
      ensures outcome != Done ==> db.State() == old(db.State())
      ensures InvKept(old(db.State()), db.State())
    {
      hide SealPayment, MarkedBy, InvKept;
      CallKeepsInv(db.State(), PaymentStep(o, to, now));
      if UpdatePayment(db.State(), o, to, now).1 == Done {
        MarkingPayment(db.State(), o, to, now);
      }
      if o >= |db.orders| {
        return NotFound;
      }
      var order := db.orders[o];
      if !PaymentAllowed(order.payment, to) {
        return Conflict;
      }
      order := order.(payment := to);
      if to == Paid {
        order := SealPayment(order, now.day);
      }
      db.SaveOrder(o, order);
      outcome := Done;
    }

    // ---------------- Editing the lines ----------------

    /** What the current lines no longer need is released, one product at a time. */
    method ApplyFalls(o: OrderId, current: seq<Line>, incoming: seq<Line>)
      modifies db.inventory
      ensures db.inventory.State() == DropLines(old(db.inventory.State()), o, current, incoming)
    {
      hide LineQty, ReleaseUnits;
      ghost var st := db.inventory.State();
      for i := 0 to |current|
        invariant db.inventory.State() == DropLines(st, o, current[..i], incoming)
      {
        assert current[..i + 1][..i] == current[..i];
        var drop := current[i].quantity - LineQty(incoming, current[i].prod);
        if drop > 0 {
          SignedUnits(o, current[i].prod, drop);
        }
      }
      assert current[..|current|] == current;
    }

    method SignedUnits(o: OrderId, p: ProductId, q: int)
      requires q > 0
      modifies db.inventory
      ensures db.inventory.State() == ReleaseUnits(old(db.inventory.State()), o, p, q)
    {
      hide ReleaseUnits;
      var outcome := db.inventory.ReleaseProductUnits(o, p, q, true);
    }

    /** What the incoming lines need more is held, and taken at once if the order is committed. */
    method ApplyRises(o: OrderId, incoming: seq<Line>, current: seq<Line>, committed: bool, area: Area,
                      pickup: Option<LocationId>)
      returns (ok: bool)
      modifies db.inventory
      ensures ok <==> RaiseLines(old(db.inventory.State()), o, incoming, current, committed, area, pickup).Some?
      ensures ok ==>
                RaiseLines(old(db.inventory.State()), o, incoming, current, committed, area, pickup)
                == Some(db.inventory.State())
    {
      hide LineQty, RaiseLine, RaiseLines;
      ghost var st := db.inventory.State();
      RaiseNoLines(st, o, current, committed, area, pickup);
      assert incoming[..0] == [];
      for i := 0 to |incoming|
        invariant RaiseLines(st, o, incoming[..i], current, committed, area, pickup) == Some(db.inventory.State())
      {
        RaiseLinesSnoc(st, o, incoming, i, current, committed, area, pickup);
        ok := RaiseOne(o, incoming[i], LineQty(current, incoming[i].prod), committed, area, pickup);
        if !ok {
          RaiseLinesStops(st, o, incoming, i + 1, current, committed, area, pickup);
          return false;
        }
      }
      assert incoming[..|incoming|] == incoming;
      ok := true;
    }

    method RaiseOne(o: OrderId, l: Line, had: nat, committed: bool, area: Area, pickup: Option<LocationId>)
      returns (ok: bool)
      modifies db.inventory
      ensures ok <==> RaiseLine(old(db.inventory.State()), o, l, had, committed, area, pickup).Some?
      ensures ok ==>
                RaiseLine(old(db.inventory.State()), o, l, had, committed, area, pickup) == Some(db.inventory.State())
    {
      hide StockSpec.Reserve, ConfirmProduct;
      var rise := l.quantity - had;
      if rise <= 0 {
        return true;
      }
      ok := db.inventory.Reserve(o, l.prod, rise, ReachFor(area, pickup, l.prod));
      if ok && committed {
        db.inventory.ConfirmProductReservations(o, l.prod);
      }
    }

    /** Each requested line with the price it takes: its own if it was there, the catalogue's if it is new. */
    static method Resolve(reqs: seq<LineRequest>, current: seq<Line>, offers: map<ProductId, Offer>)
      returns (outcome: Outcome, resolved: seq<PricedLine>)
      ensures outcome == ResolveLines(reqs, current, offers).0
      ensures outcome == Done ==> resolved == ResolveLines(reqs, current, offers).1
    {
      hide ResolveLine;
      resolved := [];
      for i := 0 to |reqs|
        invariant ResolveLines(reqs[..i], current, offers).0 == Done
        invariant resolved == ResolveLines(reqs[..i], current, offers).1
      {
        assert reqs[..i + 1][..i] == reqs[..i];
        var (one, line) := ResolveLine(reqs[i], current, offers);
        if one != Done {
          ResolveStops(reqs, i + 1, current, offers);
          return one, [];
        }
        resolved := resolved + [line];
      }
      assert reqs[..|reqs|] == reqs;
      outcome := Done;
    }

    /** The rows that are gone are removed, the others rewritten where they are, and the new ones go after. */
    static method WriteLines(current: seq<Line>, incoming: seq<Line>) returns (rows: seq<Line>)
      ensures rows == Saved(current, incoming)
    {
      hide FindLine;
      rows := [];
      for i := 0 to |current|
        invariant rows == Kept(current[..i], incoming)
      {
        assert current[..i + 1][..i] == current[..i];
        var line := FindLine(incoming, current[i].prod);
        if line.Some? {
          rows := rows + [line.value];
        }
      }
      assert current[..|current|] == current;
      for i := 0 to |incoming|
        invariant rows == Kept(current, incoming) + Added(incoming[..i], current)
      {
        assert incoming[..i + 1][..i] == incoming[..i];
        if FindLine(current, incoming[i].prod).None? {
          rows := rows + [incoming[i]];
        }
      }
      assert incoming[..|incoming|] == incoming;
    }

    /** The order as it should be left; what changed is worked out here. */
    method UpdateItems(o: OrderId, reqs: seq<LineRequest>, offers: map<ProductId, Offer>, area: Area)
      returns (outcome: Outcome)
      modifies db, db.inventory
      ensures (db.State(), outcome) == Orders.UpdateItems(old(db.State()), o, reqs, offers, area)
      ensures InvKept(old(db.State()), db.State())
    {
      hide SameLines, DropLines, RaiseLines, Subtotal, Saved, ResolveLine, InvKept;
      CallKeepsInv(db.State(), EditStep(o, reqs, offers, area));
      if !WellAsked(reqs) {
        return BadRequest;
      }
      if o >= |db.orders| {
        return NotFound;
      }
      var order := db.orders[o];
      var resolved, incoming := Resolve(reqs, order.lines, offers);
      if resolved != Done {
        return resolved;
      }
      if SameLines(order.lines, incoming) {
        return Conflict;
      }
      var before := db.State();
      var phase := StockPhase(order.status);
      if phase != Phase.Released {
        ApplyFalls(o, order.lines, ToLines(incoming));
        var ok := ApplyRises(o, ToLines(incoming), order.lines, phase == Committed, area, order.pickup);
        if !ok {
          db.Rollback(before);
          return Conflict;
        }
      }
      var lines := WriteLines(order.lines, ToLines(incoming));
      var subtotal := Subtotal(incoming);
      db.SaveOrder(o, order.(lines := lines, subtotal := subtotal, total := subtotal + order.fee));
      outcome := Done;
    }
  }

  lemma RaiseNoLines(st: Stock, o: OrderId, current: seq<Line>, committed: bool, area: Area, pickup: Option<LocationId>)
    ensures RaiseLines(st, o, [], current, committed, area, pickup) == Some(st)
  {
  }

  lemma RaiseLinesSnoc(st: Stock, o: OrderId, ls: seq<Line>, n: nat, current: seq<Line>, committed: bool, area: Area,
                       pickup: Option<LocationId>)
    requires n < |ls|
    ensures var earlier := RaiseLines(st, o, ls[..n], current, committed, area, pickup);
            RaiseLines(st, o, ls[..n + 1], current, committed, area, pickup)
            == if earlier.None? then None
               else RaiseLine(earlier.value, o, ls[n], LineQty(current, ls[n].prod), committed, area, pickup)
  {
    hide RaiseLine, LineQty;
    assert ls[..n + 1][..n] == ls[..n];
  }

  lemma {:induction false} RaiseLinesStops(st: Stock, o: OrderId, ls: seq<Line>, n: nat, current: seq<Line>,
                                           committed: bool, area: Area, pickup: Option<LocationId>)
    requires n <= |ls| && RaiseLines(st, o, ls[..n], current, committed, area, pickup).None?
    ensures RaiseLines(st, o, ls, current, committed, area, pickup).None?
    decreases |ls| - n
  {
    hide RaiseLines;
    if n < |ls| {
      RaiseLinesSnoc(st, o, ls, n, current, committed, area, pickup);
      RaiseLinesStops(st, o, ls, n + 1, current, committed, area, pickup);
    } else {
      assert ls[..n] == ls;
    }
  }

  lemma {:induction false} ResolveStops(reqs: seq<LineRequest>, n: nat, current: seq<Line>, offers: map<ProductId,
                                        Offer>)
    requires n <= |reqs| && ResolveLines(reqs[..n], current, offers).0 != Done
    ensures ResolveLines(reqs, current, offers).0 == ResolveLines(reqs[..n], current, offers).0
    decreases |reqs| - n
  {
    hide ResolveLine;
    if n < |reqs| {
      assert reqs[..n + 1][..n] == reqs[..n];
      ResolveStops(reqs, n + 1, current, offers);
    } else {
      assert reqs[..n] == reqs;
    }
  }
}
