/**
 * Payments: what a gateway says about a charge, what that does to the order, and
 * the payment that lands after its order expired.
 */
module Payments {
  import opened Wrappers
  import opened Tables
  import opened StockSpec
  import opened Calendar
  import opened CartModule
  import opened Orders
  import opened Refunds

  predicate Terminal(s: ChargeStatus) {
    s == Succeeded || s == ChargeFailed || s == ChargeExpired || s == ChargeCancelled
  }

  /** What a gateway reports: only the fields it sends are written. */
  datatype Notice = Notice(status: Option<ChargeStatus>, completedOn: Option<Option<Civil>>)

  function Noted(c: Charge, n: Notice): Charge {
    c.(status := n.status.GetOr(c.status), completedOn := n.completedOn.GetOr(c.completedOn))
  }

  /** A webhook also stamps the moment, if the gateway gave none. */
  function Settled(c: Charge, now: Instant): Charge {
    if Terminal(c.status) && c.completedOn.None? then c.(completedOn := Some(now.day)) else c
  }

  // ---------------- The order follows the charge ----------------

  function PaidBy(o: Order, c: Charge, now: Instant): Order {
    SealPayment(o.(payment := Paid), c.completedOn.GetOr(now.day))
  }

  /** The hold is taken again, the order comes back to life and its lines leave the cart. */
  function Revived(shop: Shop, o: OrderId, st: Stock): Shop
    requires o < |shop.orders|
  {
    var order := shop.orders[o];
    WithCart(shop.(stock := st, orders := shop.orders[o := order.(status := PENDING, reason := None)]),
             order.client, Removed(CartOf(shop.carts, order.client), CartLines(order.lines)))
  }

  /** No stock left: the order stays cancelled, flagged, and a refund is opened for what is refundable. */
  function Unserved(shop: Shop, o: OrderId): Shop
    requires o < |shop.orders|
  {
    var flagged := shop.orders[o].(status := CANCELLED, reason := Some(PaidAfterExpiryOutOfStock));
    RequestRefund(shop.(orders := shop.orders[o := flagged]), o, None).0
  }

  function ReinstateIfExpired(shop: Shop, o: OrderId, area: Area): Shop
    requires o < |shop.orders|
  {
    var order := shop.orders[o];
    if order.status != CANCELLED || order.reason != Some(PaymentNotReceived) then shop
    else
      var st := ReserveLines(shop.stock, o, order.lines, area, order.pickup);
      if st.Some? then Revived(shop, o, st.value) else Unserved(shop, o)
  }

  /** A paid order is never touched; only success and failure reach an order. */
  function Propagate(shop: Shop, c: Charge, area: Area, now: Instant): Shop {
    if c.order >= |shop.orders| || shop.orders[c.order].payment == Paid then shop
    else
      var order := shop.orders[c.order];
      if c.status == Succeeded then
        ReinstateIfExpired(shop.(orders := shop.orders[c.order := PaidBy(order, c, now)]), c.order, area)
      else if c.status == ChargeFailed then
        shop.(orders := shop.orders[c.order := order.(payment := PaymentFailed)])
      else shop
  }

  // ---------------- The calls ----------------

  /** What a query by identifier finds. */
  predicate Found(charges: seq<Charge>, id: nat) {
    id < |charges| && !charges[id].removed
  }

  function NewCharge(shop: Shop, c: Charge): (Shop, Outcome) {
    if c.order >= |shop.orders| then (shop, NotFound)
    else (shop.(charges := shop.charges + [c.(removed := false)]), Done)
  }

  /** A terminal charge is returned as it is; `notice` is what the gateway answers otherwise. */
  function SyncCharge(shop: Shop, id: nat, notice: Notice, area: Area, now: Instant): (Shop, Outcome) {
    if !Found(shop.charges, id) then (shop, NotFound)
    else if Terminal(shop.charges[id].status) then (shop, Done)
    else
      var c := Noted(shop.charges[id], notice);
      (Propagate(shop.(charges := shop.charges[id := c]), c, area, now), Done)
  }

  /** `id` is the charge the event's reference names, if any. An unknown one is accepted and ignored. */
  function HandleWebhook(shop: Shop, id: Option<nat>, notice: Notice, area: Area, now: Instant): (Shop, Outcome) {
    if id.None? || !Found(shop.charges, id.value) then (shop, Done)
    else
      var before := shop.charges[id.value];
      if Terminal(before.status) && notice.status == Some(before.status) then (shop, Done)
      else
        var c := Settled(Noted(before, notice), now);
        (Propagate(shop.(charges := shop.charges[id.value := c]), c, area, now), Done)
  }

  /** An attempt that never succeeded is taken away. */
  function RemoveAttempt(shop: Shop, o: OrderId, id: nat): (Shop, Outcome) {
    if o >= |shop.orders| || !Found(shop.charges, id) || shop.charges[id].order != o then (shop, NotFound)
    else if shop.charges[id].status == Succeeded then (shop, Conflict)
    else (shop.(charges := shop.charges[id := shop.charges[id].(removed := true)]), Done)
  }

  // ---------------- Expiry ----------------

  /** The two windows, in milliseconds. */
  datatype Windows = Windows(gateway: nat, manual: nat)

  /** The newest attempt; of two at the same instant, the later one. */
  function LatestCharge(charges: seq<Charge>, o: OrderId): Option<Charge> {
    if charges == [] then None
    else
      var earlier := LatestCharge(charges[..|charges| - 1], o);
      var c := charges[|charges| - 1];
      if c.order == o && !c.removed && (earlier.None? || earlier.value.createdAt <= c.createdAt) then Some(c)
      else earlier
  }

  function WindowOf(charge: Option<Charge>, w: Windows): nat {
    if charge.Some? && charge.value.gateway then w.gateway else w.manual
  }

  function ClockStart(o: Order, charge: Option<Charge>): int {
    var base := if charge.Some? then charge.value.createdAt else o.createdAt;
    if o.reinstatedAt.Some? && o.reinstatedAt.value > base then o.reinstatedAt.value else base
  }

  /** `isExpired`. */
  predicate IsExpired(o: Order, charge: Option<Charge>, now: int, w: Windows) {
    && !(charge.Some? && charge.value.cash)
    && !(charge.Some? && charge.value.status == Processing)
    && now - ClockStart(o, charge) >= WindowOf(charge, w)
  }

  predicate Unsettled(o: Order) {
    o.status == PENDING && (o.payment == Unpaid || o.payment == PaymentFailed)
  }

  /** What the scan's query hands over. */
  predicate WorthChecking(o: Order, now: int, w: Windows) {
    Unsettled(o) && o.createdAt < now - w.gateway
  }

  /** The orders the sweep goes on to expire, in the order the query lists them. */
  function DueOrders(shop: Shop, now: int, w: Windows, n: nat): seq<OrderId>
    requires n <= |shop.orders|
  {
    if n == 0 then []
    else
      var o := n - 1;
      var earlier := DueOrders(shop, now, w, o);
      if WorthChecking(shop.orders[o], now, w) && IsExpired(shop.orders[o], LatestCharge(shop.charges, o), now, w)
      then earlier + [o] else earlier
  }
}
