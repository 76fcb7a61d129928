/**
 * Orders and stock stay coupled: what each order holds or has taken is, product
 * by product, what its status and lines say.
 */
module OrderLaws {
  import opened Wrappers
  import opened Tables
  import opened Allocation
  import opened StockSpec
  import opened StockLaws
  import opened OperationLaws
  import opened Calendar
  import opened Orders
  import opened Refunds

  /** Units of a product an order has in a live status. */
  function Live(st: Stock, o: OrderId, p: ProductId, s: ReservationStatus): nat {
    Total(st.rs, OfLine(o, p, s))
  }

  /** Units of a product an order should have while its stock is in a phase. */
  function Due(orders: seq<Order>, o: OrderId, p: ProductId, phase: Phase): nat {
    if o < |orders| && StockPhase(orders[o].status) == phase then LineQty(orders[o].lines, p) else 0
  }

  /**
   * A pending order holds exactly its lines and has taken nothing; a confirmed or
   * later one has taken exactly its lines and holds nothing; a cancelled one has
   * neither, and so has an order that does not exist.
   */
  ghost predicate Coupled(st: Stock, orders: seq<Order>) {
    forall o: OrderId, p: ProductId ::
      Live(st, o, p, Reserved) == Due(orders, o, p, Held) && Live(st, o, p, Confirmed) == Due(orders, o, p, Committed)
  }

  // ---------------- What each stock operation does to the live units ----------------

  function OfProduct(p: ProductId): Pick {
    Pick(None, None, Some(p), None)
  }

  lemma ShiftLive(st: Stock, st': Stock, o: OrderId, rows: seq<Reservation>, from: Option<ReservationStatus>,
                  to: ReservationStatus, o': OrderId, p: ProductId, s: ReservationStatus)
    requires Shift(st, st', o, rows, from, to)
    ensures Live(st', o', p, s) == Live(st, o', p, s)
              + (if o' == o && s == to then Total(rows, OfProduct(p)) else 0)
              - (if o' == o && Some(s) == from then Total(rows, OfProduct(p)) else 0)
  {
    assert forall i :: 0 <= i < |rows| ==> rows[i] in rows;
    if o' == o {
      TotalSame(rows, OfLine(o', p, s).Any(), OfProduct(p));
    } else {
      TotalZero(rows, OfLine(o', p, s).Any());
    }
  }

  lemma ConfirmLive(st: Stock, o: OrderId, o': OrderId, p: ProductId)
    requires RowsSound(st)
    ensures var st' := Confirm(st, o);
            && Live(st', o', p, Reserved) == (if o' == o then 0 else Live(st, o', p, Reserved))
            && Live(st', o', p, Confirmed) == Live(st, o', p, Confirmed) + if o' == o then Live(st, o', p, Reserved)
               else 0
  {
    hide Shift, Total, Query, Confirm;
    var rows := Query(st.rs, OfOrder(o, Reserved));
    ConfirmShifts(st, o);
    ShiftLive(st, Confirm(st, o), o, rows, Some(Reserved), Confirmed, o', p, Reserved);
    ShiftLive(st, Confirm(st, o), o, rows, Some(Reserved), Confirmed, o', p, Confirmed);
    TotalOfQuery(st.rs, OfOrder(o, Reserved), OfProduct(p), OfLine(o, p, Reserved));
  }

  lemma ConfirmProductLive(st: Stock, o: OrderId, q: ProductId, o': OrderId, p: ProductId)
    requires RowsSound(st)
    ensures var st', own := ConfirmProduct(st, o, q), o' == o && p == q;
            && Live(st', o', p, Reserved) == (if own then 0 else Live(st, o', p, Reserved))
            && Live(st', o', p, Confirmed) == Live(st, o', p, Confirmed) + if own then Live(st, o', p, Reserved) else 0
  {
    hide Shift, Total, Query, ConfirmProduct;
    var rows := Query(st.rs, OfLine(o, q, Reserved));
    ConfirmProductShifts(st, o, q);
    ShiftLive(st, ConfirmProduct(st, o, q), o, rows, Some(Reserved), Confirmed, o', p, Reserved);
    ShiftLive(st, ConfirmProduct(st, o, q), o, rows, Some(Reserved), Confirmed, o', p, Confirmed);
    QueryOfLine(st.rs, o, q, Reserved, p);
  }

  lemma QueryOfLine(rs: seq<Reservation>, o: OrderId, q: ProductId, s: ReservationStatus, p: ProductId)
    ensures Total(Query(rs, OfLine(o, q, s)), OfProduct(p)) == if p == q then Total(rs, OfLine(o, q, s)) else 0
  {
    hide Total, Query;
    if p == q {
      TotalOfQuery(rs, OfLine(o, q, s), OfProduct(p), OfLine(o, q, s));
    } else {
      var rows := Query(rs, OfLine(o, q, s));
      QueryRows(rs, OfLine(o, q, s));
      assert forall i :: 0 <= i < |rows| ==> rows[i] in rows;
      TotalZero(rows, OfProduct(p));
    }
  }

  lemma DropHoldsLive(st: Stock, o: OrderId, final: ReservationStatus, o': OrderId, p: ProductId)
    requires RowsSound(st) && Dead(final)
    ensures var st' := DropHolds(st, o, final);
            && Live(st', o', p, Reserved) == (if o' == o then 0 else Live(st, o', p, Reserved))
            && Live(st', o', p, Confirmed) == Live(st, o', p, Confirmed)
  {
    hide Shift, Total, Query, DropHolds;
    var rows := Query(st.rs, OfOrder(o, Reserved));
    DropHoldsShifts(st, o, final);
    ShiftLive(st, DropHolds(st, o, final), o, rows, Some(Reserved), final, o', p, Reserved);
    ShiftLive(st, DropHolds(st, o, final), o, rows, Some(Reserved), final, o', p, Confirmed);
    TotalOfQuery(st.rs, OfOrder(o, Reserved), OfProduct(p), OfLine(o, p, Reserved));
  }

  lemma TakeBackLive(st: Stock, o: OrderId, final: ReservationStatus, o': OrderId, p: ProductId)
    requires RowsSound(st) && Dead(final)
    ensures var st' := TakeBack(st, o, final);
            && Live(st', o', p, Reserved) == Live(st, o', p, Reserved)
            && Live(st', o', p, Confirmed) == if o' == o then 0 else Live(st, o', p, Confirmed)
  {
    hide Shift, Total, Query, TakeBack;
    var rows := Query(st.rs, OfOrder(o, Confirmed));
    TakeBackShifts(st, o, final);
    ShiftLive(st, TakeBack(st, o, final), o, rows, Some(Confirmed), final, o', p, Reserved);
    ShiftLive(st, TakeBack(st, o, final), o, rows, Some(Confirmed), final, o', p, Confirmed);
    TotalOfQuery(st.rs, OfOrder(o, Confirmed), OfProduct(p), OfLine(o, p, Confirmed));
  }

  lemma ReleaseLive(st: Stock, o: OrderId, final: ReservationStatus, o': OrderId, p: ProductId)
    requires RowsSound(st) && Dead(final)
    ensures var st' := Release(st, o, final);
            && Live(st', o', p, Reserved) == (if o' == o then 0 else Live(st, o', p, Reserved))
            && Live(st', o', p, Confirmed) == if o' == o then 0 else Live(st, o', p, Confirmed)
  {
    DropHoldsShifts(st, o, final);
    DropHoldsLive(st, o, final, o', p);
    TakeBackLive(DropHolds(st, o, final), o, final, o', p);
  }

  lemma ReserveLive(st: Stock, o: OrderId, q: ProductId, n: nat, at: Reach, o': OrderId, p: ProductId)
    requires RowsSound(st) && HoldsAgree(st) && Reserve(st, o, q, n, at).Some?
    ensures var st' := Reserve(st, o, q, n, at).value;
            && Live(st', o', p, Reserved) == Live(st, o', p, Reserved) + (if o' == o && p == q then n else 0)
            && Live(st', o', p, Confirmed) == Live(st, o', p, Confirmed)
  {
    hide Shift, Total, Reserve, TakesFor;
    var st' := Reserve(st, o, q, n, at).value;
    var rows := TakesFor(st, o, q, n, at);
    ReserveShifts(st, o, q, n, at);
    ShiftLive(st, st', o, rows, None, Reserved, o', p, Reserved);
    ShiftLive(st, st', o, rows, None, Reserved, o', p, Confirmed);
    TakesOfProduct(st, o, q, n, at, p);
  }

  lemma TakesOfProduct(st: Stock, o: OrderId, q: ProductId, n: nat, at: Reach, p: ProductId)
    requires RowsSound(st) && HoldsAgree(st) && Reserve(st, o, q, n, at).Some?
    ensures Total(TakesFor(st, o, q, n, at), OfProduct(p)) == if p == q then n else 0
  {
    hide Reserve, Takes, Total;
    ReserveShifts(st, o, q, n, at);
    var rows := TakesFor(st, o, q, n, at);
    TakesRows(st.inv, o, q, RankedFor(st.inv, q, at), n);
    if p != q {
      assert forall i :: 0 <= i < |rows| ==> rows[i] in rows;
      TotalZero(rows, OfProduct(p));
    }
  }

  /** A partial release takes off the holds first and then the taken units, and nothing of any other line. */
  lemma ReleaseUnitsLive(st: Stock, o: OrderId, q: ProductId, n: nat, o': OrderId, p: ProductId)
    requires RowsSound(st)
    ensures var st', own := ReleaseUnits(st, o, q, n), o' == o && p == q;
            var held := Min(n, Live(st, o, q, Reserved));
            && Live(st', o', p, Reserved) == Live(st, o', p, Reserved) - (if own then held else 0)
            && Live(st', o', p, Confirmed)
               == Live(st, o', p, Confirmed) - if own then Min(n - held, Live(st, o, q, Confirmed)) else 0
  {
    hide Shift, Total, CutHeld, CutSold, FreedRows, ToFree;
    var st1, left := CutHeld(st, o, q, n), AfterHeld(st, o, q, n);
    CutHeldShifts(st, o, q, n);
    FreedOfProduct(st.rs, o, q, Reserved, n, p);
    FreedOfProduct(st.rs, o, q, Reserved, n, q);
    var rows := FreedRows(st.rs, OfLine(o, q, Reserved), n, |st.rs|);
    ShiftLive(st, st1, o, rows, Some(Reserved), ReservationStatus.Cancelled, o', p, Reserved);
    ShiftLive(st, st1, o, rows, Some(Reserved), ReservationStatus.Cancelled, o', p, Confirmed);
    ShiftLive(st, st1, o, rows, Some(Reserved), ReservationStatus.Cancelled, o, q, Confirmed);
    CutSoldShifts(st1, o, q, left);
    FreedOfProduct(st1.rs, o, q, Confirmed, left, p);
    var rows1 := FreedRows(st1.rs, OfLine(o, q, Confirmed), left, |st1.rs|);
    ShiftLive(st1, CutSold(st1, o, q, left), o, rows1, Some(Confirmed), ReservationStatus.Cancelled, o', p, Reserved);
    ShiftLive(st1, CutSold(st1, o, q, left), o, rows1, Some(Confirmed), ReservationStatus.Cancelled, o', p, Confirmed);
  }

  lemma FreedOfProduct(rs: seq<Reservation>, o: OrderId, q: ProductId, s: ReservationStatus, n: nat, p: ProductId)
    requires forall i :: 0 <= i < |rs| ==> rs[i].quantity > 0
    ensures var j, live := OfLine(o, q, s), Total(rs, OfLine(o, q, s));
            && ToFree(rs, j, n, |rs|) == n - Min(n, live) >= 0
            && Total(FreedRows(rs, j, n, |rs|), OfProduct(p)) == if p == q then Min(n, live) else 0
  {
    hide Total, FreedRows, ToFree;
    var j := OfLine(o, q, s);
    var rows := FreedRows(rs, j, n, |rs|);
    assert rs[..|rs|] == rs;
    ToFreeIs(rs, j, n, |rs|);
    FreedTotal(rs, j, n, |rs|);
    FreedRowsFit(rs, j, n, |rs|);
    assert forall i :: 0 <= i < |rows| ==> rows[i] in rows;
    if p == q {
      TotalSame(rows, j, OfProduct(p));
    } else {
      TotalZero(rows, OfProduct(p));
    }
  }

  lemma OperateLive(st: Stock, op: Operation, homes: seq<Option<LocationId>>, o: OrderId, p: ProductId,
                    s: ReservationStatus)
    requires RowsSound(st) && HoldsAgree(st) && OperationLaws.Proper(op) && Operate(st, op, homes).Some?
    ensures Live(Operate(st, op, homes).value, o, p, s) == Live(st, o, p, s)
  {
    OperateEffect(st, op, homes);
    OperatedTotals(st, Operate(st, op, homes).value, op, homes, OfLine(o, p, s));
  }

  // ---------------- The invariant of the shop ----------------

  /** What one order keeps: its lines, its money, its dates. */
  ghost predicate OrderSound(o: Order) {
    && Orders.ProperLines(o.lines)
    && o.subtotal == SumTotals(o.lines) && o.total == o.subtotal + o.fee
    && (o.reason.Some? ==> o.status == CANCELLED)
    && (o.payment == Paid ==> o.paidOn.Some?)
    && o.promisedOn == (if o.paidOn.Some? then Deadline(o.paidOn.value, o.promiseDays) else None)
  }

  ghost predicate OrdersSound(orders: seq<Order>) {
    forall i :: 0 <= i < |orders| ==> OrderSound(orders[i])
  }

  /** Everything that holds in every reachable state; `init` is the stock the shop opened with. */
  ghost predicate Inv(shop: Shop, init: Inventory) {
    && Valid(shop.stock, init) && Coupled(shop.stock, shop.orders) && OrdersSound(shop.orders)
    && Positive(shop.refunds) && forall i :: 0 <= i < |shop.refunds| ==> shop.refunds[i].order < |shop.orders|
  }

  // ---------------- Order by order ----------------

  /** Nothing changed for the other orders, and order `o` has what its new status and lines say. */
  lemma CoupledUpdate(st: Stock, st': Stock, orders: seq<Order>, o: OrderId, order: Order)
    requires Coupled(st, orders) && o < |orders|
    requires forall o': OrderId, p: ProductId :: o' != o ==>
               Live(st', o', p, Reserved) == Live(st, o', p, Reserved)
                 && Live(st', o', p, Confirmed) == Live(st, o', p, Confirmed)
    requires forall p: ProductId ::
               Live(st', o, p, Reserved) == (if StockPhase(order.status) == Held then LineQty(order.lines, p) else 0)
               && Live(st', o, p, Confirmed)
                  == (if StockPhase(order.status) == Committed then LineQty(order.lines, p) else 0)
    ensures Coupled(st', orders[o := order])
  {
    hide Live;
  }

  /** An order with no taken units of any product has no CONFIRMED row: nothing to restock, nobody has to sign. */
  lemma NothingTaken(st: Stock, o: OrderId, s: ReservationStatus)
    requires RowsSound(st) && forall p :: Live(st, o, p, s) == 0
    ensures Query(st.rs, OfOrder(o, s)) == []
  {
    var rows := Query(st.rs, OfOrder(o, s));
    if rows != [] {
      QueryRows(st.rs, OfOrder(o, s));
      assert rows[0] in st.rs;
      var i :| 0 <= i < |st.rs| && st.rs[i] == rows[0];
      assert Live(st, o, rows[0].prod, s) == 0;
      TotalAtLeast(st.rs, i, OfLine(o, rows[0].prod, s));
    }
  }

  /** A pending order can always be cancelled unsigned. */
  lemma PendingReleaseNeverThrows(st: Stock, init: Inventory, orders: seq<Order>, o: OrderId, final: ReservationStatus)
    requires Valid(st, init) && Coupled(st, orders) && Dead(final)
    requires o < |orders| && orders[o].status == PENDING
    ensures Query(DropHolds(st, o, final).rs, OfOrder(o, Confirmed)) == []
    ensures !ReleaseThrows(st, o, false, final)
  {
    ReleaseKeepsValid(st, init, o, final);
    forall p ensures Live(DropHolds(st, o, final), o, p, Confirmed) == 0 {
      DropHoldsLive(st, o, final, o, p);
      assert Live(st, o, p, Confirmed) == Due(orders, o, p, Committed);
    }
    NothingTaken(DropHolds(st, o, final), o, Confirmed);
  }

  lemma ReleaseCoupled(st: Stock, orders: seq<Order>, o: OrderId, final: ReservationStatus, order: Order)
    requires RowsSound(st) && Coupled(st, orders) && Dead(final)
    requires o < |orders| && order.status == CANCELLED
    ensures Coupled(Release(st, o, final), orders[o := order])
  {
    hide Live, Release, RowsSound, Coupled;
    var st' := Release(st, o, final);
    forall o', p
      ensures Live(st', o', p, Reserved) == (if o' == o then 0 else Live(st, o', p, Reserved))
              && Live(st', o', p, Confirmed) == if o' == o then 0 else Live(st, o', p, Confirmed)
    {
      ReleaseLive(st, o, final, o', p);
    }
    CoupledUpdate(st, st', orders, o, order);
  }

  lemma ConfirmCoupled(st: Stock, orders: seq<Order>, o: OrderId, order: Order)
    requires RowsSound(st) && Coupled(st, orders)
    requires o < |orders| && orders[o].status == PENDING
    requires StockPhase(order.status) == Committed && order.lines == orders[o].lines
    ensures Coupled(Confirm(st, o), orders[o := order])
  {
    hide Live, Confirm, RowsSound;
    var st' := Confirm(st, o);
    forall o', p
      ensures Live(st', o', p, Reserved) == (if o' == o then 0 else Live(st, o', p, Reserved))
              && Live(st', o', p, Confirmed) == Live(st, o', p, Confirmed) + if o' == o then Live(st, o', p, Reserved)
                 else 0
    {
      ConfirmLive(st, o, o', p);
    }
    CoupledUpdate(st, st', orders, o, order);
  }

  // ---------------- Reserving a list of lines ----------------

  ghost predicate HoldsMore(st: Stock, st': Stock, o: OrderId, ls: seq<Line>) {
    forall o': OrderId, p: ProductId ::
      Live(st', o', p, Reserved) == Live(st, o', p, Reserved) + (if o' == o then LineQty(ls, p) else 0)
      && Live(st', o', p, Confirmed) == Live(st, o', p, Confirmed)
  }

  lemma HoldsMoreStep(st: Stock, st1: Stock, st2: Stock, o: OrderId, ls: seq<Line>, at: Reach)
    requires ls != [] && HoldsMore(st, st1, o, ls[..|ls| - 1]) && RowsSound(st1) && HoldsAgree(st1)
    requires var l := ls[|ls| - 1]; Reserve(st1, o, l.prod, l.quantity, at) == Some(st2)
    ensures HoldsMore(st, st2, o, ls)
  {
    hide Live, Reserve, RowsSound, HoldsAgree;
    var l := ls[|ls| - 1];
    forall o': OrderId, p: ProductId
      ensures Live(st2, o', p, Reserved) == Live(st, o', p, Reserved) + (if o' == o then LineQty(ls, p) else 0)
              && Live(st2, o', p, Confirmed) == Live(st, o', p, Confirmed)
    {
      ReserveLive(st1, o, l.prod, l.quantity, at, o', p);
      assert Live(st1, o', p, Reserved)
             == Live(st, o', p, Reserved) + (if o' == o then LineQty(ls[..|ls| - 1], p) else 0);
    }
  }

  lemma {:induction false} ReserveLinesKeep(st: Stock, init: Inventory, o: OrderId, ls: seq<Line>, area: Area,
                                            pickup: Option<LocationId>)
    requires Valid(st, init) && ReserveLines(st, o, ls, area, pickup).Some?
    ensures var st' := ReserveLines(st, o, ls, area, pickup).value;
            Valid(st', init) && HoldsMore(st, st', o, ls)
  {
    if ls == [] {
      assert forall p :: LineQty(ls, p) == 0;
    } else {
      hide HoldsMore, Reserve;
      var l := ls[|ls| - 1];
      var st1 := ReserveLines(st, o, ls[..|ls| - 1], area, pickup).value;
      ReserveLinesKeep(st, init, o, ls[..|ls| - 1], area, pickup);
      ReserveKeepsValid(st1, init, o, l.prod, l.quantity, ReachFor(area, pickup, l.prod));
      HoldsMoreStep(st, st1, ReserveLines(st, o, ls, area, pickup).value, o, ls, ReachFor(area, pickup, l.prod));
    }
  }

  /** Reserving the lines of an order that had nothing makes it a pending one. */
  lemma ReserveCoupled(st: Stock, st': Stock, orders: seq<Order>, o: OrderId, order: Order)
    requires Coupled(st, orders) && HoldsMore(st, st', o, order.lines)
    requires o < |orders| && orders[o].status == CANCELLED && order.status == PENDING
    ensures Coupled(st', orders[o := order])
  {
    hide Live;
    CoupledUpdate(st, st', orders, o, order);
  }
}
