/**
 * When the calls that need stock go through: product by product, what is asked
 * against what is free, and nothing else.
 */
module Served {
  import opened Wrappers
  import opened Tables
  import opened Allocation
  import opened StockSpec
  import opened StockLaws
  import opened Orders
  import opened OrderLaws
  import opened EditLaws
  import opened UndoLaws
  import opened ShopLaws
  import opened Catalogue

  // ---------------- New orders and reinstatements ----------------

  lemma CreateSucceeds(shop: Shop, init: Inventory, req: NewOrder, area: Area, now: Instant)
    requires Inv(shop, init)
    ensures Create(shop, req, area, now).1 == Done <==>
            var ls := ToLines(req.lines);
            && Orders.ProperLines(ls)
            && forall i :: 0 <= i < |ls| ==> ls[i].quantity <= FreeFor(shop.stock, ls[i].prod, area, req.pickup)
  {
    hide Valid, Coupled, OrdersSound, ReserveLines, FreeFor;
    if Orders.ProperLines(ToLines(req.lines)) {
      LinesDoNotCompete(shop.stock, init, |shop.orders|, ToLines(req.lines), area, req.pickup);
    }
  }

  lemma ReinstateSucceeds(shop: Shop, init: Inventory, o: OrderId, area: Area, now: Instant)
    requires Inv(shop, init) && o < |shop.orders|
    ensures var order := shop.orders[o];
            Reinstate(shop, o, area, now).1 == Done <==>
            && order.status == CANCELLED && order.reason != Some(PaidAfterExpiryOutOfStock)
            && forall i :: 0 <= i < |order.lines| ==>
                 order.lines[i].quantity <= FreeFor(shop.stock, order.lines[i].prod, area, order.pickup)
  {
    hide Valid, Coupled, ReserveLines, FreeFor;
    assert OrderSound(shop.orders[o]);
    LinesDoNotCompete(shop.stock, init, o, shop.orders[o].lines, area, shop.orders[o].pickup);
  }

  /**
   * A correction only fails for stock when the order has to be held again; what it had taken is
   * back on the shelves by then.
   */
  lemma CorrectSucceeds(shop: Shop, init: Inventory, o: OrderId, status: Option<OrderStatus>,
                        payment: Option<PaymentStatus>, area: Area, now: Instant)
    requires Inv(shop, init) && o < |shop.orders|
    ensures var order := shop.orders[o];
            var from, to := StockPhase(order.status), StockPhase(status.GetOr(order.status));
            var st := if from == Committed then Release(shop.stock, o, ReservationStatus.Cancelled) else shop.stock;
            Correct(shop, o, status, payment, area, now).1 == Done <==>
            && (status.GetOr(order.status) != order.status || payment.GetOr(order.payment) != order.payment)
            && (from == to || from == Held || to == Phase.Released
                || forall i :: 0 <= i < |order.lines| ==>
                     order.lines[i].quantity <= FreeFor(st, order.lines[i].prod, area, order.pickup))
  {
    hide Valid, Coupled, ReserveLines, FreeFor, Release, Confirm, Corrected;
    var order := shop.orders[o];
    assert OrderSound(order);
    LinesDoNotCompete(shop.stock, init, o, order.lines, area, order.pickup);
    ReleaseKeepsValid(shop.stock, init, o, ReservationStatus.Cancelled);
    LinesDoNotCompete(Release(shop.stock, o, ReservationStatus.Cancelled), init, o, order.lines, area, order.pickup);
  }

  // ---------------- Edits ----------------

  lemma PostedElsewhere(inv: Inventory, rows: seq<Reservation>, e: Effect, p: ProductId)
    requires forall r :: r in rows ==> r.At() in inv && r.prod != p
    ensures SameForProduct(inv, Posted(inv, rows, e), p)
  {
    hide Total;
    PostedAt(inv, rows, e);
    forall l: LocationId ensures Total(rows, AtKey(Key(l, p))) == 0 {
      assert forall i :: 0 <= i < |rows| ==> rows[i] in rows;
      TotalZero(rows, AtKey(Key(l, p)));
    }
  }

  lemma ReleaseUnitsElsewhere(st: Stock, o: OrderId, q: ProductId, n: nat, p: ProductId)
    requires RowsSound(st) && p != q
    ensures SameForProduct(st.inv, ReleaseUnits(st, o, q, n).inv, p)
  {
    hide CutHeld, CutSold, FreedRows, Moved, Posted, RowsSound, SameForProduct;
    var st1, left := CutHeld(st, o, q, n), AfterHeld(st, o, q, n);
    var j, k := OfLine(o, q, Reserved), OfLine(o, q, Confirmed);
    CutHeldShifts(st, o, q, n);
    RowsArePositive(st);
    FreedRowsFit(st.rs, j, n, |st.rs|);
    PostedElsewhere(st.inv, FreedRows(st.rs, j, n, |st.rs|), Unhold, p);
    FreedTotal(st.rs, j, n, |st.rs|);
    CutSoldShifts(st1, o, q, left);
    RowsArePositive(st1);
    FreedRowsFit(st1.rs, k, left, |st1.rs|);
    PostedElsewhere(st1.inv, FreedRows(st1.rs, k, left, |st1.rs|), Restock, p);
    SameForProductTransitive(st.inv, st1.inv, CutSold(st1, o, q, left).inv, p);
  }

  lemma RowsArePositive(st: Stock)
    requires RowsSound(st)
    ensures forall i :: 0 <= i < |st.rs| ==> st.rs[i].quantity > 0
  {
  }

  lemma SameForProductTransitive(a: Inventory, b: Inventory, c: Inventory, p: ProductId)
    requires SameForProduct(a, b, p) && SameForProduct(b, c, p)
    ensures SameForProduct(a, c, p)
  {
  }

  lemma ConfirmProductElsewhere(st: Stock, o: OrderId, q: ProductId, p: ProductId)
    requires RowsSound(st) && p != q
    ensures SameForProduct(st.inv, ConfirmProduct(st, o, q).inv, p)
  {
    hide Query, Moved, Posted, SameForProduct, ConfirmProduct;
    ConfirmProductShifts(st, o, q);
    QueryRows(st.rs, OfLine(o, q, Reserved));
    PostedElsewhere(st.inv, Query(st.rs, OfLine(o, q, Reserved)), Ship, p);
  }

  /** The falls free nothing of a product that does not fall. */
  lemma {:induction false} FallsElsewhere(st: Stock, init: Inventory, o: OrderId, cur: seq<Line>, inc: seq<Line>,
                                          p: ProductId)
    requires Valid(st, init)
    requires forall i :: 0 <= i < |cur| && cur[i].prod == p ==> cur[i].quantity <= LineQty(inc, p)
    ensures SameForProduct(st.inv, DropLines(st, o, cur, inc).inv, p)
  {
    hide Valid, ReleaseUnits, LineQty;
    if cur != [] {
      var l, first := cur[|cur| - 1], cur[..|cur| - 1];
      var st1 := DropLines(st, o, first, inc);
      FallsElsewhere(st, init, o, first, inc, p);
      DropLinesIsOwn(st, init, o, first, inc);
      ValidSound(st1, init);
      var drop := l.quantity - LineQty(inc, l.prod);
      if drop > 0 {
        ReleaseUnitsElsewhere(st1, o, l.prod, drop, p);
        SameForProductTransitive(st.inv, st1.inv, DropLines(st, o, cur, inc).inv, p);
      }
    }
  }

  /** What a line asks beyond what the order already had of its product. */
  function Rise(l: Line, cur: seq<Line>): int {
    l.quantity - LineQty(cur, l.prod)
  }

  lemma RaiseLineServed(st: Stock, init: Inventory, o: OrderId, l: Line, had: nat, committed: bool, area: Area,
                        pickup: Option<LocationId>, p: ProductId)
    requires Valid(st, init)
    ensures RaiseLine(st, o, l, had, committed, area, pickup).Some? <==>
            l.quantity <= had || l.quantity - had <= FreeFor(st, l.prod, area, pickup)
    ensures p != l.prod && RaiseLine(st, o, l, had, committed, area, pickup).Some? ==>
            SameForProduct(st.inv, RaiseLine(st, o, l, had, committed, area, pickup).value.inv, p)
  {
    hide Valid, Reserve, ConfirmProduct, SumFree, Candidates;
    if l.quantity > had {
      var at, n := ReachFor(area, pickup, l.prod), l.quantity - had;
      ReserveSucceeds(st, o, l.prod, n, at);
      if Reserve(st, o, l.prod, n, at).Some? && p != l.prod {
        var st1 := Reserve(st, o, l.prod, n, at).value;
        ValidSound(st, init);
        ReserveElsewhere(st, o, l.prod, n, at, p);
        if committed {
          ReserveKeepsValid(st, init, o, l.prod, n, at);
          ValidSound(st1, init);
          ConfirmProductElsewhere(st1, o, l.prod, p);
          SameForProductTransitive(st.inv, st1.inv, ConfirmProduct(st1, o, l.prod).inv, p);
        }
      }
    }
  }

  /** Rises of distinct products do not compete either. */
  lemma {:induction false} RisesDoNotCompete(st: Stock, init: Inventory, o: OrderId, inc: seq<Line>, cur: seq<Line>,
                                             committed: bool, area: Area, pickup: Option<LocationId>)
    requires Valid(st, init) && forall i, j :: 0 <= i < j < |inc| ==> inc[i].prod != inc[j].prod
    ensures RaiseLines(st, o, inc, cur, committed, area, pickup).Some? <==>
            forall i :: 0 <= i < |inc| ==>
                Rise(inc[i], cur) <= 0 || Rise(inc[i], cur) <= FreeFor(st, inc[i].prod, area, pickup)
    ensures RaiseLines(st, o, inc, cur, committed, area, pickup).Some? ==>
            forall p :: (forall i :: 0 <= i < |inc| ==> inc[i].prod != p) ==>
              SameForProduct(st.inv, RaiseLines(st, o, inc, cur, committed, area, pickup).value.inv, p)
  {
    hide Valid, RaiseLine, LineQty, FreeFor;
    if inc != [] {
      var n := |inc| - 1;
      var l, had := inc[n], LineQty(cur, inc[n].prod);
      RisesDoNotCompete(st, init, o, inc[..n], cur, committed, area, pickup);
      var earlier := RaiseLines(st, o, inc[..n], cur, committed, area, pickup);
      if earlier.Some? {
        RaiseLinesIsOwn(st, init, o, inc[..n], cur, committed, area, pickup);
        SameFree(st, earlier.value, l.prod, area, pickup);
        RaiseLineServed(earlier.value, init, o, l, had, committed, area, pickup, l.prod);
        if RaiseLine(earlier.value, o, l, had, committed, area, pickup).Some? {
          forall p | forall i :: 0 <= i < |inc| ==> inc[i].prod != p
            ensures SameForProduct(st.inv, RaiseLines(st, o, inc, cur, committed, area, pickup).value.inv, p)
          {
            RaiseLineServed(earlier.value, init, o, l, had, committed, area, pickup, p);
            assert SameForProduct(st.inv, earlier.value.inv, p);
            SameForProductTransitive(st.inv, earlier.value.inv,
                                     RaiseLines(st, o, inc, cur, committed, area, pickup).value.inv, p);
          }
        }
      }
    }
  }

  lemma SameFree(st: Stock, st': Stock, p: ProductId, area: Area, pickup: Option<LocationId>)
    requires SameForProduct(st.inv, st'.inv, p)
    ensures FreeFor(st', p, area, pickup) == FreeFor(st, p, area, pickup)
  {
    hide SumFree, Candidates;
    SameCandidates(st.inv, st'.inv, p, area.rows(p), AllowedIn(area.covering, pickup));
  }

  /**
   * An edit that changes something goes through exactly when each product that
   * rises has its rise free before the edit starts: what the falls release is
   * always of other products.
   */
  lemma EditSucceeds(shop: Shop, init: Inventory, o: OrderId, reqs: seq<LineRequest>, offers: map<ProductId, Offer>,
                     area: Area)
    requires Inv(shop, init) && o < |shop.orders| && WellAsked(reqs)
    requires var (outcome, incoming) := ResolveLines(reqs, shop.orders[o].lines, offers);
             outcome == Done && !SameLines(shop.orders[o].lines, incoming)
    ensures var order := shop.orders[o];
            var inc := ToLines(ResolveLines(reqs, order.lines, offers).1);
            UpdateItems(shop, o, reqs, offers, area).1 == Done <==>
            || order.status == CANCELLED
            || forall i :: 0 <= i < |inc| ==>
                 Rise(inc[i], order.lines) <= 0
                 || Rise(inc[i], order.lines) <= FreeFor(shop.stock, inc[i].prod, area, order.pickup)
  {
    hide Valid, Coupled, OrdersSound, SameLines, ResolveLines, EditedStock, Rise, FreeFor, UpdateItems,
         Orders.ProperLines, ToLines;
    var order := shop.orders[o];
    var incoming := ResolveLines(reqs, order.lines, offers).1;
    AskedIsProper(reqs, order.lines, offers);
    LinesAreProper(shop, init, o);
    EditIsItsStock(shop, o, reqs, offers, area);
    StockIsServed(shop.stock, init, o, order, ToLines(incoming), area);
  }

  lemma AskedIsProper(reqs: seq<LineRequest>, current: seq<Line>, offers: map<ProductId, Offer>)
    requires WellAsked(reqs) && ResolveLines(reqs, current, offers).0 == Done
    ensures Orders.ProperLines(ToLines(ResolveLines(reqs, current, offers).1))
  {
    hide ResolveLine;
  }

  /** A well-formed edit that changes something goes through exactly when its stock does. */
  lemma EditIsItsStock(shop: Shop, o: OrderId, reqs: seq<LineRequest>, offers: map<ProductId, Offer>, area: Area)
    requires o < |shop.orders| && WellAsked(reqs)
    requires var (outcome, incoming) := ResolveLines(reqs, shop.orders[o].lines, offers);
             outcome == Done && !SameLines(shop.orders[o].lines, incoming)
    ensures UpdateItems(shop, o, reqs, offers, area).1 == Done <==>
            var order := shop.orders[o];
            EditedStock(shop.stock, o, order, ToLines(ResolveLines(reqs, order.lines, offers).1), area).Some?
  {
    hide EditedStock, SameLines, ResolveLines, ToLines, Saved, Subtotal;
  }

  /** What the falls release is never of a product that rises. */
  lemma FallsFreeNoRise(st: Stock, init: Inventory, o: OrderId, cur: seq<Line>, inc: seq<Line>, i: nat, area: Area,
                        pickup: Option<LocationId>)
    requires Valid(st, init) && Orders.ProperLines(cur) && Orders.ProperLines(inc)
    requires i < |inc| && Rise(inc[i], cur) > 0
    ensures FreeFor(DropLines(st, o, cur, inc), inc[i].prod, area, pickup) == FreeFor(st, inc[i].prod, area, pickup)
  {
    hide Valid, DropLines, FreeFor, LineQty, Orders.ProperLines;
    var p := inc[i].prod;
    LineQtyAt(inc, i);
    forall k | 0 <= k < |cur| && cur[k].prod == p ensures cur[k].quantity <= LineQty(inc, p) {
      LineQtyAt(cur, k);
    }
    FallsElsewhere(st, init, o, cur, inc, p);
    SameFree(st, DropLines(st, o, cur, inc), p, area, pickup);
  }

  lemma StockIsServed(st: Stock, init: Inventory, o: OrderId, order: Order, inc: seq<Line>, area: Area)
    requires Valid(st, init) && Orders.ProperLines(order.lines) && Orders.ProperLines(inc)
    ensures EditedStock(st, o, order, inc, area).Some? <==>
            || order.status == CANCELLED
            || forall i :: 0 <= i < |inc| ==>
                 Rise(inc[i], order.lines) <= 0
                 || Rise(inc[i], order.lines) <= FreeFor(st, inc[i].prod, area, order.pickup)
  {
    hide Valid, RaiseLines, DropLines, Rise, FreeFor;
    if order.status != CANCELLED {
      var cur := order.lines;
      var st1 := DropLines(st, o, cur, inc);
      DropLinesIsOwn(st, init, o, cur, inc);
      RisesDoNotCompete(st1, init, o, inc, cur, StockPhase(order.status) == Committed, area, order.pickup);
      forall i | 0 <= i < |inc| && Rise(inc[i], cur) > 0
        ensures FreeFor(st1, inc[i].prod, area, order.pickup) == FreeFor(st, inc[i].prod, area, order.pickup)
      {
        FallsFreeNoRise(st, init, o, cur, inc, i, area, order.pickup);
      }
    }
  }
}
