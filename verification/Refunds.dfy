/**
 * Refunds: the cap on committed money, and the moment an order becomes refunded.
 */
module Refunds {
  import opened Wrappers
  import opened Tables
  import opened StockSpec
  import opened Orders

  // ---------------- The sums behind the summary ----------------

  predicate Counts(r: Refund, o: OrderId, statuses: set<RefundStatus>) {
    r.order == o && r.status in statuses
  }

  /** Cents of an order's refunds in the given statuses. */
  function Cents(rows: seq<Refund>, o: OrderId, statuses: set<RefundStatus>): int {
    if rows == [] then 0
    else
      var r := rows[|rows| - 1];
      Cents(rows[..|rows| - 1], o, statuses) + if Counts(r, o, statuses) then r.amount else 0
  }

  function Promised(rows: seq<Refund>, o: OrderId): int {
    Cents(rows, o, {Requested, Completed})
  }

  function Refundable(rows: seq<Refund>, o: OrderId, total: int): int {
    Max(0, total - Cents(rows, o, {Completed}) - Cents(rows, o, {Requested}))
  }

  // ---------------- The three calls ----------------

  /** What a request is worth, or why it is refused. */
  function Amount(payment: PaymentStatus, refundable: int, asked: Option<int>): (Outcome, int) {
    if payment != Paid || refundable <= 0 then (Conflict, 0)
    else
      var amount := asked.GetOr(refundable);
      if amount <= 0 then (BadRequest, 0)
      else if amount > refundable then (Conflict, 0)
      else (Done, amount)
  }

  function RequestRefund(shop: Shop, o: OrderId, asked: Option<int>): (Shop, Outcome) {
    if o >= |shop.orders| then (shop, NotFound)
    else
      var (outcome, amount) := Amount(shop.orders[o].payment, Refundable(shop.refunds, o, shop.orders[o].total), asked);
      if outcome != Done then (shop, outcome)
      else (shop.(refunds := shop.refunds + [Refund(o, amount, Requested)]), Done)
  }

  /** `reachable`: somewhere to send the money is known, or the method needs none. */
  function CompleteRefund(shop: Shop, r: nat, reachable: bool): (Shop, Outcome) {
    if r >= |shop.refunds| then (shop, NotFound)
    else if shop.refunds[r].status != Requested then (shop, Conflict)
    else if !reachable then (shop, BadRequest)
    else if shop.refunds[r].order >= |shop.orders| then (shop, NotFound)
    else
      var o := shop.refunds[r].order;
      var refunds := shop.refunds[r := shop.refunds[r].(status := Completed)];
      var full := Cents(refunds, o, {Completed}) >= shop.orders[o].total;
      var order := shop.orders[o];
      (shop.(refunds := refunds,
             orders := if full && order.payment != Refunded then shop.orders[o := order.(payment := Refunded)]
               else shop.orders), Done)
  }

  function RejectRefund(shop: Shop, r: nat): (Shop, Outcome) {
    if r >= |shop.refunds| then (shop, NotFound)
    else if shop.refunds[r].status != Requested then (shop, Conflict)
    else (shop.(refunds := shop.refunds[r := shop.refunds[r].(status := Rejected)]), Done)
  }

  // ---------------- Laws of the sums ----------------

  lemma {:induction false} CentsAppend(a: seq<Refund>, b: seq<Refund>, o: OrderId, statuses: set<RefundStatus>)
    ensures Cents(a + b, o, statuses) == Cents(a, o, statuses) + Cents(b, o, statuses)
  {
    if b == [] {
      assert a + b == a;
    } else {
      assert (a + b)[..|a + b| - 1] == a + b[..|b| - 1];
      CentsAppend(a, b[..|b| - 1], o, statuses);
    }
  }

  lemma CentsOne(r: Refund, o: OrderId, statuses: set<RefundStatus>)
    ensures Cents([r], o, statuses) == if Counts(r, o, statuses) then r.amount else 0
  {
    assert [r][..0] == [];
  }

  lemma CentsUpdate(rows: seq<Refund>, i: nat, r: Refund, o: OrderId, statuses: set<RefundStatus>)
    requires i < |rows|
    ensures Cents(rows[i := r], o, statuses) == Cents(rows, o, statuses)
            - (if Counts(rows[i], o, statuses) then rows[i].amount else 0)
            + (if Counts(r, o, statuses) then r.amount else 0)
  {
    hide Cents;
    assert rows == rows[..i] + [rows[i]] + rows[i + 1..];
    assert rows[i := r] == rows[..i] + [r] + rows[i + 1..];
    CentsAppend(rows[..i] + [rows[i]], rows[i + 1..], o, statuses);
    CentsAppend(rows[..i] + [r], rows[i + 1..], o, statuses);
    CentsAppend(rows[..i], [rows[i]], o, statuses);
    CentsAppend(rows[..i], [r], o, statuses);
    CentsOne(rows[i], o, statuses);
    CentsOne(r, o, statuses);
  }

  /** Requested and completed are counted apart or together alike. */
  lemma {:induction false} PromisedSplits(rows: seq<Refund>, o: OrderId)
    ensures Promised(rows, o) == Cents(rows, o, {Requested}) + Cents(rows, o, {Completed})
  {
    if rows != [] {
      PromisedSplits(rows[..|rows| - 1], o);
    }
  }

  ghost predicate Positive(rows: seq<Refund>) {
    forall i :: 0 <= i < |rows| ==> rows[i].amount > 0
  }

  lemma {:induction false} NothingOpen(rows: seq<Refund>, o: OrderId, statuses: set<RefundStatus>)
    requires Positive(rows)
    ensures Cents(rows, o, statuses) >= 0
    ensures Cents(rows, o, statuses) == 0 <==> forall i :: 0 <= i < |rows| ==> !Counts(rows[i], o, statuses)
  {
    if rows != [] {
      NothingOpen(rows[..|rows| - 1], o, statuses);
    }
  }

  // ---------------- The cap ----------------

  /** What an order has requested and completed never exceeds its total. */
  ghost predicate Capped(rows: seq<Refund>, o: OrderId, total: int) {
    Promised(rows, o) <= Max(0, total)
  }

  lemma RequestKeepsCap(shop: Shop, o: OrderId, asked: Option<int>, o': OrderId)
    requires o' < |shop.orders| && Positive(shop.refunds) && Capped(shop.refunds, o', shop.orders[o'].total)
    ensures var shop' := RequestRefund(shop, o, asked).0;
            Positive(shop'.refunds) && shop'.orders == shop.orders && Capped(shop'.refunds, o', shop.orders[o'].total)
  {
    hide Cents;
    var (shop', outcome) := RequestRefund(shop, o, asked);
    if outcome == Done {
      var r := shop'.refunds[|shop.refunds|];
      CentsAppend(shop.refunds, [r], o', {Requested, Completed});
      CentsOne(r, o', {Requested, Completed});
      PromisedSplits(shop.refunds, o);
    }
  }

  lemma CompleteKeepsCap(shop: Shop, r: nat, reachable: bool, o: OrderId)
    requires o < |shop.orders| && Positive(shop.refunds) && Capped(shop.refunds, o, shop.orders[o].total)
    ensures var shop' := CompleteRefund(shop, r, reachable).0;
            && Positive(shop'.refunds) && |shop'.orders| == |shop.orders|
            && shop'.orders[o].total == shop.orders[o].total && Capped(shop'.refunds, o, shop.orders[o].total)
  {
    hide Cents;
    if CompleteRefund(shop, r, reachable).1 == Done {
      CentsUpdate(shop.refunds, r, shop.refunds[r].(status := Completed), o, {Requested, Completed});
    }
  }

  lemma RejectKeepsCap(shop: Shop, r: nat, o: OrderId)
    requires o < |shop.orders| && Positive(shop.refunds) && Capped(shop.refunds, o, shop.orders[o].total)
    ensures var shop' := RejectRefund(shop, r).0;
            Positive(shop'.refunds) && shop'.orders == shop.orders && Capped(shop'.refunds, o, shop.orders[o].total)
  {
    hide Cents;
    if RejectRefund(shop, r).1 == Done {
      CentsUpdate(shop.refunds, r, shop.refunds[r].(status := Rejected), o, {Requested, Completed});
    }
  }

  /**
   * Completing a refund leaves its order refunded exactly when the money returned
   * is the whole total (or it was refunded already); then no request is still
   * open, and no new one can be made even if the order were marked paid again.
   */
  lemma CompleteRefunds(shop: Shop, r: nat, reachable: bool)
    requires Positive(shop.refunds) && CompleteRefund(shop, r, reachable).1 == Done
    requires var o := shop.refunds[r].order; Capped(shop.refunds, o, shop.orders[o].total)
    ensures var o := shop.refunds[r].order;
            var (shop', _) := CompleteRefund(shop, r, reachable);
            var full := Cents(shop'.refunds, o, {Completed}) == shop.orders[o].total;
            && (shop'.orders[o].payment == Refunded <==> full || shop.orders[o].payment == Refunded)
            && (full ==>
                  forall i :: 0 <= i < |shop'.refunds| && shop'.refunds[i].order == o ==>
                    shop'.refunds[i].status != Requested)
            && (full ==>
                  forall payment, asked ::
                    Amount(payment, Refundable(shop'.refunds, o, shop.orders[o].total), asked).0 == Conflict)
  {
    hide Cents;
    var o := shop.refunds[r].order;
    var (shop', _) := CompleteRefund(shop, r, reachable);
    var rows := shop'.refunds;
    CompleteKeepsCap(shop, r, reachable, o);
    PromisedSplits(rows, o);
    NothingOpen(rows, o, {Requested});
    NothingOpen(rows, o, {Completed});
    assert Counts(rows[r], o, {Completed});
    if Cents(rows, o, {Completed}) == shop.orders[o].total {
      assert Cents(rows, o, {Requested}) == 0;
      forall i | 0 <= i < |rows| && rows[i].order == o ensures rows[i].status != Requested {
        assert !Counts(rows[i], o, {Requested});
      }
    }
  }

  // ---------------- What each call does to the money left ----------------

  /** A request takes its amount, or all there is, off what can still be returned. */
  lemma RequestTakes(shop: Shop, o: OrderId, asked: Option<int>)
    requires RequestRefund(shop, o, asked).1 == Done
    ensures var rows, total := RequestRefund(shop, o, asked).0.refunds, shop.orders[o].total;
            && |rows| == |shop.refunds| + 1 && rows[..|shop.refunds|] == shop.refunds
            && var r := rows[|shop.refunds|];
            && r.order == o && r.status == Requested && r.amount > 0
            && Refundable(rows, o, total) == Refundable(shop.refunds, o, total) - r.amount
            && (if asked.Some? then r.amount == asked.value else Refundable(rows, o, total) == 0)
  {
    hide Cents;
    var r := RequestRefund(shop, o, asked).0.refunds[|shop.refunds|];
    CentsAppend(shop.refunds, [r], o, {Requested});
    CentsAppend(shop.refunds, [r], o, {Completed});
    CentsOne(r, o, {Requested});
    CentsOne(r, o, {Completed});
  }

  /** Completing one leaves that as it was: the money was already promised. */
  lemma CompleteLeaves(shop: Shop, r: nat, reachable: bool, o: OrderId, total: int)
    requires CompleteRefund(shop, r, reachable).1 == Done
    ensures Refundable(CompleteRefund(shop, r, reachable).0.refunds, o, total) == Refundable(shop.refunds, o, total)
  {
    hide Cents;
    var done := shop.refunds[r].(status := Completed);
    CentsUpdate(shop.refunds, r, done, o, {Requested});
    CentsUpdate(shop.refunds, r, done, o, {Completed});
  }

  /** Rejecting one gives its amount back. */
  lemma RejectGivesBack(shop: Shop, r: nat)
    requires RejectRefund(shop, r).1 == Done && Positive(shop.refunds) && shop.refunds[r].order < |shop.orders|
    requires var o := shop.refunds[r].order; Capped(shop.refunds, o, shop.orders[o].total)
    ensures var o := shop.refunds[r].order;
            Refundable(RejectRefund(shop, r).0.refunds, o, shop.orders[o].total)
            == Refundable(shop.refunds, o, shop.orders[o].total) + shop.refunds[r].amount
  {
    hide Cents;
    var o, gone := shop.refunds[r].order, shop.refunds[r].(status := Rejected);
    CentsUpdate(shop.refunds, r, gone, o, {Requested});
    CentsUpdate(shop.refunds, r, gone, o, {Completed});
    PromisedSplits(shop.refunds, o);
    NothingOpen(shop.refunds, o, {Requested, Completed});
    assert Counts(shop.refunds[r], o, {Requested, Completed});
  }

  /** Every order that was within its cap still is. */
  ghost predicate CapsKept(before: Shop, after: Shop) {
    Positive(before.refunds) ==>
      && Positive(after.refunds) && |after.orders| == |before.orders|
      && forall o :: 0 <= o < |before.orders| && Capped(before.refunds, o, before.orders[o].total) ==>
           Capped(after.refunds, o, after.orders[o].total)
  }

  lemma RequestKeepsCaps(shop: Shop, o: OrderId, asked: Option<int>)
    ensures CapsKept(shop, RequestRefund(shop, o, asked).0)
  {
    hide RequestRefund, Capped;
    RequestKeepsRows(shop, o, asked);
    forall o' | 0 <= o' < |shop.orders| && Positive(shop.refunds) && Capped(shop.refunds, o', shop.orders[o'].total)
      ensures Capped(RequestRefund(shop, o, asked).0.refunds, o', shop.orders[o'].total)
    {
      RequestKeepsCap(shop, o, asked, o');
    }
  }

  lemma RequestKeepsRows(shop: Shop, o: OrderId, asked: Option<int>)
    ensures var shop' := RequestRefund(shop, o, asked).0;
            shop'.orders == shop.orders && (Positive(shop.refunds) ==> Positive(shop'.refunds))
  {
    hide Refundable;
  }

  lemma CompleteKeepsCaps(shop: Shop, r: nat, reachable: bool)
    ensures CapsKept(shop, CompleteRefund(shop, r, reachable).0)
  {
    hide Cents, Capped;
    var shop' := CompleteRefund(shop, r, reachable).0;
    forall o | 0 <= o < |shop.orders| && Positive(shop.refunds) && Capped(shop.refunds, o, shop.orders[o].total)
      ensures Capped(shop'.refunds, o, shop'.orders[o].total)
    {
      CompleteKeepsCap(shop, r, reachable, o);
    }
  }

  lemma RejectKeepsCaps(shop: Shop, r: nat)
    ensures CapsKept(shop, RejectRefund(shop, r).0)
  {
    hide Capped;
    forall o | 0 <= o < |shop.orders| && Positive(shop.refunds) && Capped(shop.refunds, o, shop.orders[o].total)
      ensures Capped(RejectRefund(shop, r).0.refunds, o, shop.orders[o].total)
    {
      RejectKeepsCap(shop, r, o);
    }
  }
}
