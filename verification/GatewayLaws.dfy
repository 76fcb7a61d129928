/**
 * What a charge, its news and a refund write, field by field: the calls of the
 * payments and refunds services over the whole shop.
 */
module GatewayLaws {
  import opened Wrappers
  import opened Tables
  import opened Allocation
  import opened StockSpec
  import opened StockLaws
  import opened Calendar
  import opened CartModule
  import opened Orders
  import opened OrderLaws
  import opened Refunds
  import opened Payments
  import opened ShopLaws
  import opened Catalogue
  import opened PaymentLaws

  // ---------------- Attempts ----------------

  /** The charge has ended: nothing more is expected of it. */
  predicate HasEnded(s: ChargeStatus) {
    s in {Succeeded, ChargeFailed, ChargeExpired, ChargeCancelled}
  }

  /** The reference names a charge that is still there. */
  predicate Names(shop: Shop, ref: Option<nat>) {
    ref.Some? && ref.value < |shop.charges| && !shop.charges[ref.value].removed
  }

  /** An attempt is stored after the others, as it came; nothing else changes. */
  lemma ChargeSets(shop: Shop, c: Charge)
    ensures var (shop', outcome) := NewCharge(shop, c);
            && outcome == (if c.order < |shop.orders| then Done else NotFound)
            && (outcome == Done ==>
                  shop' == shop.(charges := shop'.charges) && shop'.charges == shop.charges + [c.(removed := false)])
  {
  }

  /** Only the order's own attempt, and only one that did not go through, is taken away. */
  lemma RemoveSets(shop: Shop, o: OrderId, id: nat)
    ensures var (shop', outcome) := RemoveAttempt(shop, o, id);
            var found := o < |shop.orders| && Names(shop, Some(id)) && shop.charges[id].order == o;
            && outcome == (if !found then NotFound else if shop.charges[id].status == Succeeded then Conflict else Done)
            && (outcome == Done ==>
                  shop' == shop.(charges := shop.charges[id := shop.charges[id].(removed := true)]))
  {
  }

  // ---------------- What the order makes of its charge ----------------

  /** A success for an order that expired unpaid. */
  predicate Late(shop: Shop, c: Charge) {
    && c.order < |shop.orders| && c.status == Succeeded
    && shop.orders[c.order].payment != Paid
    && shop.orders[c.order].status == CANCELLED && shop.orders[c.order].reason == Some(PaymentNotReceived)
  }

  /** The charge is paid for, or failed, or neither: any order but a late one keeps its status and its stock. */
  ghost predicate Follows(shop: Shop, shop': Shop, c: Charge, today: Civil) {
    && shop'.stock == shop.stock && shop'.carts == shop.carts && shop'.refunds == shop.refunds
    && |shop'.orders| == |shop.orders|
    && (forall i :: 0 <= i < |shop.orders| && i != c.order ==> shop'.orders[i] == shop.orders[i])
    && (c.order < |shop.orders| ==>
          var before, after := shop.orders[c.order], shop'.orders[c.order];
          && (before.payment == Paid || c.status !in {Succeeded, ChargeFailed} ==> after == before)
          && (before.payment != Paid && c.status == ChargeFailed ==> after == before.(payment := PaymentFailed))
          && (before.payment != Paid && c.status == Succeeded ==>
                && PaidFrom(before, after, c, today)
                && after == before.(payment := Paid, paidOn := after.paidOn, promisedOn := after.promisedOn)))
  }

  /** The order after news of its charge, whatever they find it in. */
  ghost predicate Heard(shop: Shop, shop': Shop, c: Charge, area: Area, now: Instant) {
    if Late(shop, c) then
      if Servable(shop, c.order, area) then CameBack(shop, shop', c.order, c, now)
      else StayedCancelled(shop, shop', c.order, c, now)
    else Follows(shop, shop', c, now.day)
  }

  lemma PropagateFollows(shop: Shop, c: Charge, area: Area, now: Instant)
    requires !Late(shop, c)
    ensures Follows(shop, Propagate(shop, c, area, now), c, now.day)
  {
    hide PaidBy, PaidFrom, ReserveLines, Revived, Unserved;
    if c.order < |shop.orders| {
      PaidByIs(shop.orders[c.order], c, now);
    }
  }

  lemma PropagateIsHeard(shop: Shop, init: Inventory, c: Charge, area: Area, now: Instant)
    requires Inv(shop, init)
    ensures Heard(shop, Propagate(shop, c, area, now), c, area, now)
  {
    hide Inv, Propagate, CameBack, StayedCancelled, Servable, Follows;
    if Late(shop, c) {
      LatePayment(shop, init, c, area, now);
    } else {
      PropagateFollows(shop, c, area, now);
    }
  }

  /** The order does not look at the list of charges. */
  lemma ChargesAside(shop: Shop, charges: seq<Charge>, shop': Shop, c: Charge, area: Area, now: Instant)
    requires Heard(shop.(charges := charges), shop', c, area, now)
    ensures Heard(shop, shop', c, area, now)
  {
    hide PaidFrom, SameElse, LineQty, InCart, Live, Catalogue.FreeFor;
  }

  // ---------------- News of a charge ----------------

  /**
   * What the news say is written over the charge; what they leave out stays.
   * One that ends undated may be `stamped`.
   */
  ghost predicate Rewrote(before: Charge, after: Charge, news: Notice, stamped: Option<Civil>) {
    var given := if news.completedOn.Some? then news.completedOn.value else before.completedOn;
    && after == before.(status := after.status, completedOn := after.completedOn)
    && after.status == (if news.status.Some? then news.status.value else before.status)
    && after.completedOn == (if given.None? && HasEnded(after.status) then stamped else given)
  }

  /** No other charge changes. */
  ghost predicate OneCharge(shop: Shop, shop': Shop, id: nat) {
    && |shop'.charges| == |shop.charges|
    && forall i :: 0 <= i < |shop.charges| && i != id ==> shop'.charges[i] == shop.charges[i]
  }

  /**
   * A webhook that names no charge, or says again how one ended, changes nothing. Any
   * other is written on the charge, dated today if it ended undated, and the order hears it.
   */
  lemma WebhookSets(shop: Shop, init: Inventory, ref: Option<nat>, news: Notice, area: Area, now: Instant)
    requires Inv(shop, init)
    ensures var (shop', outcome) := HandleWebhook(shop, ref, news, area, now);
            && outcome == Done
            && (!Names(shop, ref) ==> shop' == shop)
            && (Names(shop, ref) ==>
                  var before := shop.charges[ref.value];
                  var again := HasEnded(before.status) && news.status == Some(before.status);
                  && (again ==> shop' == shop)
                  && (!again ==>
                        && OneCharge(shop, shop', ref.value)
                        && var after := shop'.charges[ref.value];
                        && Rewrote(before, after, news, Some(now.day))
                        && Heard(shop, shop', after, area, now)))
  {
    hide Inv, Propagate, Heard;
    if Found(shop.charges, ref.GetOr(|shop.charges|)) {
      var id := ref.value;
      var c := Settled(Noted(shop.charges[id], news), now);
      NewsAreHeard(shop, init, id, c, area, now);
    }
  }

  /**
   * A poll of a charge that has ended changes nothing; of any other, the answer is written
   * and the order hears it.
   */
  lemma PollSets(shop: Shop, init: Inventory, id: nat, answer: Notice, area: Area, now: Instant)
    requires Inv(shop, init)
    ensures var (shop', outcome) := SyncCharge(shop, id, answer, area, now);
            && outcome == (if Names(shop, Some(id)) then Done else NotFound)
            && (outcome == Done ==>
                  var before := shop.charges[id];
                  && (HasEnded(before.status) ==> shop' == shop)
                  && (!HasEnded(before.status) ==>
                        && OneCharge(shop, shop', id)
                        && var after := shop'.charges[id];
                        && Rewrote(before, after, answer, None)
                        && Heard(shop, shop', after, area, now)))
  {
    hide Inv, Propagate, Heard;
    if Found(shop.charges, id) {
      NewsAreHeard(shop, init, id, Noted(shop.charges[id], answer), area, now);
    }
  }

  lemma NewsAreHeard(shop: Shop, init: Inventory, id: nat, c: Charge, area: Area, now: Instant)
    requires Inv(shop, init) && id < |shop.charges|
    ensures var charges := shop.charges[id := c];
            var shop' := Propagate(shop.(charges := charges), c, area, now);
            shop'.charges == charges && Heard(shop, shop', c, area, now)
  {
    hide Inv, Propagate, Heard;
    var mid := shop.(charges := shop.charges[id := c]);
    ElsewhereKeeps(shop, init, mid);
    PropagateEffect(mid, c, area, now);
    PropagateIsHeard(mid, init, c, area, now);
    ChargesAside(shop, mid.charges, Propagate(mid, c, area, now), c, area, now);
  }

  // ---------------- Refunds ----------------

  /** What is promised of an order: its requests and what was returned, not what was rejected or is another's. */
  lemma PromisedIs(rows: seq<Refund>, r: Refund, o: OrderId)
    ensures Promised([], o) == 0
    ensures Promised(rows + [r], o) == Promised(rows, o) + if r.order == o && r.status != Rejected then r.amount else 0
    ensures Cents(rows + [r], o, {Completed})
            == Cents(rows, o, {Completed}) + if r.order == o && r.status == Completed then r.amount else 0
  {
    hide Cents;
    CentsAppend(rows, [r], o, {Requested, Completed});
    CentsAppend(rows, [r], o, {Completed});
    CentsOne(r, o, {Requested, Completed});
    CentsOne(r, o, {Completed});
    NoCents(o);
  }

  lemma NoCents(o: OrderId)
    ensures Promised([], o) == 0
  {
  }

  /**
   * A request goes through exactly for a paid order, for a positive amount within what
   * was not promised yet, which is all of it if none is named.
   */
  lemma RequestSets(shop: Shop, o: OrderId, asked: Option<int>)
    ensures var (shop', outcome) := RequestRefund(shop, o, asked);
            && (outcome == NotFound <==> o >= |shop.orders|)
            && (o < |shop.orders| ==>
                  var left := shop.orders[o].total - Promised(shop.refunds, o);
                  var open := shop.orders[o].payment == Paid && left > 0;
                  && (outcome == Done <==> open && (asked.Some? ==> 0 < asked.value <= left))
                  && (outcome == BadRequest <==> open && asked.Some? && asked.value <= 0)
                  && outcome in {Done, BadRequest, Conflict}
                  && (outcome == Done ==>
                        && shop' == shop.(refunds := shop'.refunds)
                        && shop'.refunds
                           == shop.refunds + [Refund(o, if asked.Some? then asked.value else left, Requested)]))
  {
    hide Cents;
    PromisedSplits(shop.refunds, o);
  }

  /** Completing and rejecting act on requests only; the order is refunded once all its total went back. */
  lemma SettleSets(shop: Shop, r: nat, reachable: bool)
    requires forall i :: 0 <= i < |shop.refunds| ==> shop.refunds[i].order < |shop.orders|
    ensures var (shop', outcome) := CompleteRefund(shop, r, reachable);
            && outcome == (if r >= |shop.refunds| then NotFound
                           else if shop.refunds[r].status != Requested then Conflict
                           else if !reachable then BadRequest else Done)
            && (outcome == Done ==>
                  var o := shop.refunds[r].order;
                  && shop' == shop.(refunds := shop'.refunds, orders := shop'.orders)
                  && shop'.refunds == shop.refunds[r := shop.refunds[r].(status := Completed)]
                  && shop'.orders
                     == if Cents(shop'.refunds, o, {Completed}) >= shop.orders[o].total
                        then shop.orders[o := shop.orders[o].(payment := Refunded)] else shop.orders)
    ensures var (shop', outcome) := RejectRefund(shop, r);
            && outcome == (if r >= |shop.refunds| then NotFound
                           else if shop.refunds[r].status != Requested then Conflict else Done)
            && (outcome == Done ==>
                  shop' == shop.(refunds := shop.refunds[r := shop.refunds[r].(status := Rejected)]))
  {
    hide Cents;
    if r < |shop.refunds| {
      var o := shop.refunds[r].order;
      assert shop.orders[o].payment == Refunded ==>
               shop.orders[o := shop.orders[o].(payment := Refunded)] == shop.orders;
    }
  }
}
