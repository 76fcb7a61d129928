/**
 * How stock that was let go is marked, and when somebody has to sign for it: the
 * history the reservations of an order leave behind.
 */
module MarkLaws {
  import opened Wrappers
  import opened Tables
  import opened Allocation
  import opened StockSpec
  import opened StockLaws
  import opened Calendar
  import opened CartModule
  import opened Orders
  import opened OrderLaws
  import opened EditLaws
  import opened ShopLaws

  /** Of a product, `n` more units of the order are marked `s`, and of the two end marks no other changed. */
  ghost predicate EndedAs(st: Stock, st': Stock, o: OrderId, p: ProductId, s: ReservationStatus, n: nat) {
    && Live(st', o, p, s) == Live(st, o, p, s) + n
    && forall other :: other in {Cancelled, Expired} && other != s ==> Live(st', o, p, other) == Live(st, o, p, other)
  }

  lemma EndedAsTwice(a: Stock, b: Stock, c: Stock, o: OrderId, p: ProductId, s: ReservationStatus, n: nat, m: nat)
    requires EndedAs(a, b, o, p, s, n) && EndedAs(b, c, o, p, s, m)
    ensures EndedAs(a, c, o, p, s, n + m)
  {
    hide Live;
  }

  /** Shifting rows to an end mark adds them there; shifting live rows to another live status adds none. */
  lemma ShiftEnds(st: Stock, st': Stock, o: OrderId, rows: seq<Reservation>, from: Option<ReservationStatus>,
                  to: ReservationStatus, p: ProductId, s: ReservationStatus)
    requires Shift(st, st', o, rows, from, to) && s in {Cancelled, Expired} && (to == s || !Dead(to))
    ensures EndedAs(st, st', o, p, s, if to == s then Total(rows, OfProduct(p)) else 0)
  {
    hide Shift, Live, Total;
    assert Legal(from, to) && from != Some(Cancelled) && from != Some(Expired) by {
      ShiftIsLegal(st, st', o, rows, from, to);
    }
    ShiftLive(st, st', o, rows, from, to, o, p, Cancelled);
    ShiftLive(st, st', o, rows, from, to, o, p, Expired);
  }

  lemma ShiftIsLegal(st: Stock, st': Stock, o: OrderId, rows: seq<Reservation>, from: Option<ReservationStatus>,
                     to: ReservationStatus)
    requires Shift(st, st', o, rows, from, to)
    ensures Legal(from, to)
  {
  }

  /** A release marks all the order had of the product with the status it was told. */
  lemma ReleaseEnds(st: Stock, o: OrderId, final: ReservationStatus, p: ProductId)
    requires RowsSound(st) && final in {Cancelled, Expired}
    ensures EndedAs(st, Release(st, o, final), o, p, final, Live(st, o, p, Reserved) + Live(st, o, p, Confirmed))
  {
    hide Shift, Total, Query, DropHolds, TakeBack, EndedAs, RowsSound;
    var st1 := DropHolds(st, o, final);
    DropHoldsShifts(st, o, final);
    ShiftRowsSound(st, st1, o, Query(st.rs, OfOrder(o, Reserved)), Some(Reserved), final);
    TakeBackShifts(st1, o, final);
    ShiftEnds(st, st1, o, Query(st.rs, OfOrder(o, Reserved)), Some(Reserved), final, p, final);
    ShiftEnds(st1, TakeBack(st1, o, final), o, Query(st1.rs, OfOrder(o, Confirmed)), Some(Confirmed), final, p, final);
    TotalOfQuery(st.rs, OfOrder(o, Reserved), OfProduct(p), OfLine(o, p, Reserved));
    TotalOfQuery(st1.rs, OfOrder(o, Confirmed), OfProduct(p), OfLine(o, p, Confirmed));
    DropHoldsLive(st, o, final, o, p);
    EndedAsTwice(st, st1, Release(st, o, final), o, p, final, Live(st, o, p, Reserved), Live(st, o, p, Confirmed));
  }

  lemma ShiftRowsSound(st: Stock, st': Stock, o: OrderId, rows: seq<Reservation>, from: Option<ReservationStatus>,
                       to: ReservationStatus)
    requires Shift(st, st', o, rows, from, to)
    ensures RowsSound(st')
  {
  }

  lemma ConfirmEnds(st: Stock, o: OrderId, p: ProductId, s: ReservationStatus)
    requires RowsSound(st) && s in {Cancelled, Expired}
    ensures EndedAs(st, Confirm(st, o), o, p, s, 0)
  {
    hide Shift, EndedAs, Confirm, Query;
    ConfirmShifts(st, o);
    ShiftEnds(st, Confirm(st, o), o, Query(st.rs, OfOrder(o, Reserved)), Some(Reserved), Confirmed, p, s);
  }

  lemma {:induction false} ReserveLinesEnd(st: Stock, init: Inventory, o: OrderId, ls: seq<Line>, area: Area,
                                           pickup: Option<LocationId>, p: ProductId, s: ReservationStatus)
    requires Valid(st, init) && ReserveLines(st, o, ls, area, pickup).Some? && s in {Cancelled, Expired}
    ensures EndedAs(st, ReserveLines(st, o, ls, area, pickup).value, o, p, s, 0)
    ensures Valid(ReserveLines(st, o, ls, area, pickup).value, init)
  {
    hide EndedAs, Valid, StockSpec.Reserve;
    if ls == [] {
      EndedAsNothing(st, o, p, s);
    } else {
      var l, n := ls[|ls| - 1], |ls| - 1;
      ReserveLinesEnd(st, init, o, ls[..n], area, pickup, p, s);
      var st1 := ReserveLines(st, o, ls[..n], area, pickup).value;
      ReserveEnds(st1, init, o, l.prod, l.quantity, ReachFor(area, pickup, l.prod), p, s);
      EndedAsTwice(st, st1, ReserveLines(st, o, ls, area, pickup).value, o, p, s, 0, 0);
    }
  }

  lemma ReserveEnds(st: Stock, init: Inventory, o: OrderId, q: ProductId, n: nat, at: Reach, p: ProductId,
                    s: ReservationStatus)
    requires Valid(st, init) && StockSpec.Reserve(st, o, q, n, at).Some? && s in {Cancelled, Expired}
    ensures EndedAs(st, StockSpec.Reserve(st, o, q, n, at).value, o, p, s, 0)
    ensures Valid(StockSpec.Reserve(st, o, q, n, at).value, init)
  {
    hide Shift, EndedAs, Valid, StockSpec.Reserve, TakesFor, RowsSound, HoldsAgree;
    ValidSound(st, init);
    ReserveShifts(st, o, q, n, at);
    ReserveKeepsValid(st, init, o, q, n, at);
    ShiftEnds(st, StockSpec.Reserve(st, o, q, n, at).value, o, TakesFor(st, o, q, n, at), None, Reserved, p, s);
  }

  lemma EndedAsNothing(st: Stock, o: OrderId, p: ProductId, s: ReservationStatus)
    ensures EndedAs(st, st, o, p, s, 0)
  {
  }

  // ---------------- Which mark each call leaves ----------------

  /** What an order that is not cancelled has of a product is what its lines say. */
  lemma HasItsLines(shop: Shop, init: Inventory, o: OrderId, p: ProductId)
    requires Inv(shop, init) && o < |shop.orders|
    ensures Live(shop.stock, o, p, Reserved) + Live(shop.stock, o, p, Confirmed)
            == if shop.orders[o].status == CANCELLED then 0 else LineQty(shop.orders[o].lines, p)
    ensures RowsSound(shop.stock)
  {
    hide Live, LineQty, OrdersSound, HoldsAgree, LedgerAgrees, SalesAgree, GoodsAgree;
    assert Live(shop.stock, o, p, Reserved) == Due(shop.orders, o, p, Held);
  }

  /** An order cancelled by the shop or its client leaves its lines marked cancelled; one that expired, expired. */
  lemma CancellationMarks(shop: Shop, init: Inventory, o: OrderId, p: ProductId, direct: bool, client: ClientId,
                          now: Instant)
    requires Inv(shop, init) && o < |shop.orders|
    ensures var (shop', outcome) := UpdateStatus(shop, o, CANCELLED, direct, now);
            outcome == Done ==>
              EndedAs(shop.stock, shop'.stock, o, p, Cancelled, LineQty(shop.orders[o].lines, p))
    ensures var (shop', outcome) := CancelByClient(shop, client, o);
            outcome == Done ==>
              EndedAs(shop.stock, shop'.stock, o, p, Cancelled, LineQty(shop.orders[o].lines, p))
    ensures var (shop', outcome) := Expire(shop, o);
            outcome == Done ==>
              EndedAs(shop.stock, shop'.stock, o, p, Expired, LineQty(shop.orders[o].lines, p))
  {
    hide Release, ReleaseThrows, Live, LineQty, EndedAs, Inv, RowsSound, Returned;
    HasItsLines(shop, init, o, p);
    ReleaseEnds(shop.stock, o, Cancelled, p);
    ReleaseEnds(shop.stock, o, Expired, p);
  }

  /** A correction that has to let go of stock marks it cancelled, all of it, even if it holds it again at once. */
  lemma CorrectionMarks(shop: Shop, init: Inventory, o: OrderId, status: Option<OrderStatus>,
                        payment: Option<PaymentStatus>, area: Area, now: Instant, p: ProductId)
    requires Inv(shop, init) && Correct(shop, o, status, payment, area, now).1 == Done
    ensures var order, to := shop.orders[o], status.GetOr(shop.orders[o].status);
            var lets := order.status != CANCELLED && (to == CANCELLED || (to == PENDING && order.status != PENDING));
            EndedAs(shop.stock, Correct(shop, o, status, payment, area, now).0.stock, o, p, Cancelled,
                    if lets && to != order.status then LineQty(order.lines, p) else 0)
  {
    hide Release, ReserveLines, Confirm, Live, LineQty, EndedAs, Valid, Coupled, OrdersSound, RowsSound, Corrected;
    var order := shop.orders[o];
    var st := shop.stock;
    HasItsLines(shop, init, o, p);
    EndedAsNothing(st, o, p, Cancelled);
    ReleaseEnds(st, o, Cancelled, p);
    ReleaseKeepsValid(st, init, o, Cancelled);
    ConfirmEnds(st, o, p, Cancelled);
    var st1 := if StockPhase(order.status) == Committed then Release(st, o, Cancelled) else st;
    if ReserveLines(st1, o, order.lines, area, order.pickup).Some? {
      var st2 := ReserveLines(st1, o, order.lines, area, order.pickup).value;
      ReserveLinesEnd(st1, init, o, order.lines, area, order.pickup, p, Cancelled);
      ValidSound(st2, init);
      ConfirmEnds(st2, o, p, Cancelled);
      var n := if StockPhase(order.status) == Committed then LineQty(order.lines, p) else 0;
      EndedAsTwice(st, st1, st2, o, p, Cancelled, n, 0);
      EndedAsTwice(st, st2, Confirm(st2, o), o, p, Cancelled, n, 0);
    }
  }

  // ---------------- Who signs ----------------

  /** A release needs somebody to sign for it exactly when the order has taken goods that must come back. */
  lemma SignatureNeeded(st: Stock, o: OrderId, signed: bool, final: ReservationStatus)
    requires RowsSound(st) && final in {Cancelled, Expired}
    ensures ReleaseThrows(st, o, signed, final) <==> !signed && exists p :: Live(st, o, p, Confirmed) > 0
  {
    hide DropHolds, Live, Query, RowsSound;
    var st1 := DropHolds(st, o, final);
    DropHoldsShifts(st, o, final);
    ShiftRowsSound(st, st1, o, Query(st.rs, OfOrder(o, Reserved)), Some(Reserved), final);
    forall p ensures Live(st1, o, p, Confirmed) == Live(st, o, p, Confirmed) {
      DropHoldsLive(st, o, final, o, p);
    }
    if p :| Live(st, o, p, Confirmed) > 0 {
      SomethingTaken(st1, o, p);
    } else {
      NothingTaken(st1, o, Confirmed);
    }
  }

  lemma SomethingTaken(st: Stock, o: OrderId, p: ProductId)
    requires Live(st, o, p, Confirmed) > 0
    ensures Query(st.rs, OfOrder(o, Confirmed)) != []
  {
    hide Query;
    TotalOfQuery(st.rs, OfOrder(o, Confirmed), OfProduct(p), OfLine(o, p, Confirmed));
  }

  /** A partial one, exactly when the holds do not cover it and some of the rest was taken. */
  lemma UnitsSignatureNeeded(st: Stock, o: OrderId, p: ProductId, q: nat, signed: bool)
    requires RowsSound(st)
    ensures UnitsThrow(st, o, p, q, signed)
            <==> !signed && q > Live(st, o, p, Reserved) && Live(st, o, p, Confirmed) > 0
  {
    hide Total, FreedRows, ToFree, CutHeld, Shift;
    var st1, left := CutHeld(st, o, p, q), AfterHeld(st, o, p, q);
    var held := FreedRows(st.rs, OfLine(o, p, Reserved), q, |st.rs|);
    FreedOfProduct(st.rs, o, p, Reserved, q, p);
    CutHeldShifts(st, o, p, q);
    ShiftLive(st, st1, o, held, Some(Reserved), Cancelled, o, p, Confirmed);
    FreedOfProduct(st1.rs, o, p, Confirmed, left, p);
    var rows := FreedRows(st1.rs, OfLine(o, p, Confirmed), left, |st1.rs|);
    FreedRowsFit(st1.rs, OfLine(o, p, Confirmed), left, |st1.rs|);
    NoRows(OfProduct(p));
    if rows != [] {
      assert rows[0] in rows;
      TotalAtLeast(rows, 0, OfProduct(p));
    }
  }

  // ---------------- What is written in the ledger ----------------

  /** One operation per storage of the rows and no other, of the kind asked, for the order, to nowhere. */
  lemma MovementsAre(kind: OperationType, o: OrderId, rows: seq<Reservation>, l: LocationId)
    ensures var ms := Movements(kind, o, rows);
            && (forall i, j :: 0 <= i < j < |ms| ==> ms[i].loc != ms[j].loc)
            && (forall i :: 0 <= i < |ms| ==>
                  ms[i].kind == kind && ms[i].order == Some(o) && ms[i].target.None? && !ms[i].manual)
            && ((exists i :: 0 <= i < |ms| && ms[i].loc == l) <==> (exists r :: r in rows && r.loc == l))
  {
    hide StoragesOf, ItemsAt;
    var ms, ls := Movements(kind, o, rows), StoragesOf(rows);
    OnlyTheirStorages(rows);
    if i :| 0 <= i < |ms| && ms[i].loc == l {
      assert ls[i] in ls;
    }
    if r :| r in rows && r.loc == l {
      assert l in ls;
      var i :| 0 <= i < |ls| && ls[i] == l;
      assert ms[i].loc == l;
    }
  }

  /** It lists exactly the products of the rows there, each once with all its units. */
  lemma MovementItems(kind: OperationType, o: OrderId, rows: seq<Reservation>, i: nat, p: ProductId)
    requires i < |Movements(kind, o, rows)|
    ensures var m := Movements(kind, o, rows)[i];
            && (p in m.items <==> exists r :: r in rows && r.loc == m.loc && r.prod == p)
            && (p in m.items ==> m.items[p] == Total(rows, AtKey(Key(m.loc, p))))
  {
    hide StoragesOf, Total;
  }

  lemma {:induction false} OnlyTheirStorages(rows: seq<Reservation>)
    ensures forall l :: l in StoragesOf(rows) ==> exists r :: r in rows && r.loc == l
  {
    if rows != [] {
      var n := |rows| - 1;
      OnlyTheirStorages(rows[..n]);
      assert rows == rows[..n] + [rows[n]];
      forall l | l in StoragesOf(rows) ensures exists r :: r in rows && r.loc == l {
        if l in StoragesOf(rows[..n]) {
          var r :| r in rows[..n] && r.loc == l;
          assert r in rows;
        } else {
          assert rows[n].loc == l;
        }
      }
    }
  }
}
