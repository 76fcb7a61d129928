/**
 * The payments service: a charge follows its gateway, and the order its charge.
 */
module PaymentsModule {
  import opened Wrappers
  import opened Tables
  import opened StockSpec
  import opened Calendar
  import opened CartModule
  import opened Orders
  import opened Refunds
  import opened Payments
  import opened ShopTablesModule
  import opened ShopLaws
  import opened OrdersModule
  import opened RefundsModule

  class PaymentsService {
    const db: ShopTables
    const orders: OrdersService
    const refunds: RefundsService

    ghost predicate Wired()
    {
      orders.db == db && refunds.db == db
    }

    constructor (db: ShopTables)
      ensures this.db == db && Wired()
    {
      this.db := db;
      orders := new OrdersService(db);
      refunds := new RefundsService(db);
    }

    /** A poll: a charge that has ended is returned as it is. */
    method SyncCharge(id: nat, answer: Notice, area: Area, now: Instant) returns (outcome: Outcome)
      requires Wired()
      modifies db, db.inventory
      ensures (db.State(), outcome) == Payments.SyncCharge(old(db.State()), id, answer, area, now)
      ensures InvKept(old(db.State()), db.State())
    {
      hide Propagate, InvKept;
      CallKeepsInv(db.State(), SyncStep(id, answer, area, now));
      if !Found(db.charges, id) {
        return NotFound;
      }
      var charge := db.charges[id];
      if Terminal(charge.status) {
        return Done;
      }
      charge := Noted(charge, answer);
      db.charges := db.charges[id := charge];
      PropagateToOrder(charge, area, now);
      outcome := Done;
    }

    /** An attempt that never succeeded is taken away. */
    method RemoveAttempt(o: OrderId, id: nat) returns (outcome: Outcome)
      modifies db`charges
      ensures (db.State(), outcome) == Payments.RemoveAttempt(old(db.State()), o, id)
      ensures outcome == Done ==>
                && !Found(db.charges, id) && old(db.charges)[id].status != Succeeded
                && |db.charges| == |old(db.charges)|
                && forall i :: 0 <= i < |db.charges| && i != id ==> db.charges[i] == old(db.charges)[i]
      ensures forall i: nat :: Found(old(db.charges), i) && old(db.charges)[i].status == Succeeded ==>
                Found(db.charges, i) && db.charges[i] == old(db.charges)[i]
      ensures outcome != Done ==> db.State() == old(db.State())
      ensures InvKept(old(db.State()), db.State())
    {
      hide InvKept;
      CallKeepsInv(db.State(), RemoveStep(o, id));
      if o >= |db.orders| || !Found(db.charges, id) || db.charges[id].order != o {
        return NotFound;
      }
      if db.charges[id].status == Succeeded {
        return Conflict;
      }
      db.charges := db.charges[id := db.charges[id].(removed := true)];
      outcome := Done;
    }

    /** A signed callback, found by its reference alone. */
    method HandleWebhook(id: Option<nat>, event: Notice, area: Area, now: Instant) returns (outcome: Outcome)
      requires Wired()
      modifies db, db.inventory
      ensures (db.State(), outcome) == Payments.HandleWebhook(old(db.State()), id, event, area, now)
      ensures InvKept(old(db.State()), db.State())
    {
      hide Propagate, InvKept;
      CallKeepsInv(db.State(), WebhookStep(id, event, area, now));
      if id.None? || !Found(db.charges, id.value) {
        return Done;
      }
      var charge := db.charges[id.value];
      if Terminal(charge.status) && event.status == Some(charge.status) {
        return Done;
      }
      charge := Noted(charge, event);
      if Terminal(charge.status) && charge.completedOn.None? {
        charge := charge.(completedOn := Some(now.day));
      }
      db.charges := db.charges[id.value := charge];
      PropagateToOrder(charge, area, now);
      outcome := Done;
    }

    /** Payment follows the charge, but a paid order is never touched. */
    method PropagateToOrder(charge: Charge, area: Area, now: Instant)
      requires Wired()
      modifies db, db.inventory
      ensures db.State() == Propagate(old(db.State()), charge, area, now)
    {
      hide Payments.ReinstateIfExpired, Deadline;
      if charge.order >= |db.orders| || db.orders[charge.order].payment == Paid {
        return;
      }
      var order := db.orders[charge.order];
      if charge.status == Succeeded {
        order := order.(payment := Paid);
        order := SealPayment(order, charge.completedOn.GetOr(now.day));
      } else if charge.status == ChargeFailed {
        order := order.(payment := PaymentFailed);
      } else {
        return;
      }
      db.SaveOrder(charge.order, order);
      if order.payment == Paid {
        ReinstateIfExpired(charge.order, area);
      }
    }

    /**
     * The payment that arrives after its order expired: back to life if it can be served, flagged
     * and refunded if not.
     */
    method ReinstateIfExpired(o: OrderId, area: Area)
      requires Wired() && o < |db.orders|
      modifies db, db.inventory
      ensures db.State() == Payments.ReinstateIfExpired(old(db.State()), o, area)
    {
      hide ReserveLines, Cents, Removed, CartLines, Refundable;
      var order := db.orders[o];
      if order.status != CANCELLED || order.reason != Some(PaymentNotReceived) {
        return;
      }
      var before := db.State();
      var reserved := orders.ReserveOrderItems(o, order.lines, area, order.pickup);
      if reserved {
        db.SaveOrder(o, order.(status := PENDING, reason := None));
        db.OutOfCart(order.client, order.lines);
        return;
      }
      db.Rollback(before);
      db.SaveOrder(o, order.(status := CANCELLED, reason := Some(PaidAfterExpiryOutOfStock)));
      var outcome := refunds.Request(o, None);
    }
  }
}
