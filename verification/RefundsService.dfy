/**
 * The refunds service over the shared tables, one call at a time. `RefundRace`
 * takes a request apart to see what happens when several run at once.
 */
module RefundsModule {
  import opened Wrappers
  import opened Tables
  import opened StockSpec
  import opened Orders
  import opened Refunds
  import opened ShopTablesModule
  import opened ShopLaws

  class RefundsService {
    const db: ShopTables

    constructor (db: ShopTables)
      ensures this.db == db
    {
      this.db := db;
    }

    method Request(o: OrderId, asked: Option<int>) returns (outcome: Outcome)
      modifies db`refunds
      ensures (db.State(), outcome) == RequestRefund(old(db.State()), o, asked)
      ensures outcome == Done ==>
                && o < |db.orders| && |db.refunds| == |old(db.refunds)| + 1
                && var r, total := db.refunds[|old(db.refunds)|], db.orders[o].total;
                && r.order == o && r.status == Requested && r.amount > 0
                && Refundable(db.refunds, o, total) == Refundable(old(db.refunds), o, total) - r.amount
                && (if asked.Some? then r.amount == asked.value else Refundable(db.refunds, o, total) == 0)
      ensures CapsKept(old(db.State()), db.State()) && InvKept(old(db.State()), db.State())
    {
      hide Refundable, CapsKept, InvKept;
      RequestKeepsCaps(db.State(), o, asked);
      CallKeepsInv(db.State(), RequestStep(o, asked));
      if RequestRefund(db.State(), o, asked).1 == Done {
        RequestTakes(db.State(), o, asked);
      }
      if o >= |db.orders| {
        return NotFound;
      }
      if db.orders[o].payment != Paid {
        return Conflict;
      }
      var refundable := Refundable(db.refunds, o, db.orders[o].total);
      if refundable <= 0 {
        return Conflict;
      }
      var amount := asked.GetOr(refundable);
      if amount <= 0 {
        return BadRequest;
      }
      if amount > refundable {
        return Conflict;
      }
      db.refunds := db.refunds + [Refund(o, amount, Requested)];
      outcome := Done;
    }

    method Complete(r: nat, reachable: bool) returns (outcome: Outcome)
      modifies db`refunds, db`orders
      ensures (db.State(), outcome) == CompleteRefund(old(db.State()), r, reachable)
      ensures outcome == Done ==>
                forall o, total :: Refundable(db.refunds, o, total) == Refundable(old(db.refunds), o, total)
      ensures outcome == Done && Positive(old(db.refunds)) ==>
                var o := old(db.refunds)[r].order;
                Capped(old(db.refunds), o, old(db.orders)[o].total) ==>
                  (db.orders[o].payment == Refunded <==>
                   Cents(db.refunds, o, {Completed}) == db.orders[o].total || old(db.orders)[o].payment == Refunded)
      ensures CapsKept(old(db.State()), db.State()) && InvKept(old(db.State()), db.State())
    {
      hide Cents, Refundable, Capped, CapsKept, InvKept;
      CompleteKeepsCaps(db.State(), r, reachable);
      CallKeepsInv(db.State(), CompleteStep(r, reachable));
      if CompleteRefund(db.State(), r, reachable).1 == Done {
        forall o, total
          ensures Refundable(CompleteRefund(db.State(), r, reachable).0.refunds, o, total)
                  == Refundable(db.refunds, o, total)
        {
          CompleteLeaves(db.State(), r, reachable, o, total);
        }
        var o := db.refunds[r].order;
        if Positive(db.refunds) && Capped(db.refunds, o, db.orders[o].total) {
          CompleteRefunds(db.State(), r, reachable);
        }
      }
      if r >= |db.refunds| {
        return NotFound;
      }
      var refund := db.refunds[r];
      if refund.status != Requested {
        return Conflict;
      }
      if !reachable {
        return BadRequest;
      }
      var o := refund.order;
      if o >= |db.orders| {
        return NotFound;
      }
      db.refunds := db.refunds[r := refund.(status := Completed)];
      var completed := Cents(db.refunds, o, {Completed});
      var fullyRefunded := completed >= db.orders[o].total;
      if fullyRefunded && db.orders[o].payment != Refunded {
        db.orders := db.orders[o := db.orders[o].(payment := Refunded)];
      }
      outcome := Done;
    }

    method Reject(r: nat) returns (outcome: Outcome)
      modifies db`refunds
      ensures (db.State(), outcome) == RejectRefund(old(db.State()), r)
      ensures outcome == Done && Positive(old(db.refunds)) && old(db.refunds)[r].order < |db.orders| ==>
                var o, amount := old(db.refunds)[r].order, old(db.refunds)[r].amount;
                Capped(old(db.refunds), o, db.orders[o].total) ==>
                  Refundable(db.refunds, o, db.orders[o].total)
                    == Refundable(old(db.refunds), o, db.orders[o].total) + amount
      ensures CapsKept(old(db.State()), db.State()) && InvKept(old(db.State()), db.State())
    {
      hide Cents, Refundable, Capped, CapsKept, InvKept;
      RejectKeepsCaps(db.State(), r);
      CallKeepsInv(db.State(), RejectStep(r));
      if && RejectRefund(db.State(), r).1 == Done && Positive(db.refunds) && db.refunds[r].order < |db.orders|
         && Capped(db.refunds, db.refunds[r].order, db.orders[db.refunds[r].order].total) {
        RejectGivesBack(db.State(), r);
      }
      if r >= |db.refunds| {
        return NotFound;
      }
      if db.refunds[r].status != Requested {
        return Conflict;
      }
      db.refunds := db.refunds[r := db.refunds[r].(status := Rejected)];
      outcome := Done;
    }
  }
}
