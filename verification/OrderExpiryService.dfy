/**
 * The expiry sweep: a scan, then one transaction for each order it found due.
 */
module OrderExpiryModule {
  import opened Wrappers
  import opened Tables
  import opened StockSpec
  import opened CartModule
  import opened Orders
  import opened Payments
  import opened ShopTablesModule
  import opened ShopLaws
  import opened LifecycleLaws

  class OrderExpiryService {
    const db: ShopTables
    const windows: Windows

    constructor (db: ShopTables, windows: Windows)
      ensures this.db == db && this.windows == windows
    {
      this.db := db;
      this.windows := windows;
    }

    /** One transaction; the status is looked at again inside it. */
    method Expire(o: OrderId) returns (expired: bool)
      modifies db, db.inventory
      ensures db.State() == Orders.Expire(old(db.State()), o).0
      ensures expired <==> Orders.Expire(old(db.State()), o).1 == Done
      ensures InvKept(old(db.State()), db.State())
    {
      hide Release, ReleaseThrows, Returned, CartLines, InvKept;
      CallKeepsInv(db.State(), ExpireStep(o));
      if o >= |db.orders| || db.orders[o].status != PENDING || db.orders[o].payment == Paid {
        return false;
      }
      var current := db.orders[o];
      var before := db.State();
      var outcome := db.inventory.ReleaseReservations(o, false, ReservationStatus.Expired);
      if outcome != Done {
        db.Rollback(before);
        return false;
      }
      db.SaveOrder(o, current.(status := CANCELLED, reason := Some(PaymentNotReceived)));
      db.BackToCart(current.client, current.lines);
      expired := true;
    }

    /**
     * Names the orders it cancelled, which may be fewer than were due. Here nothing comes between
     * two of them; in `LifecycleLaws` anything may.
     */
    method Sweep(now: int) returns (orderIds: seq<OrderId>)
      modifies db, db.inventory
      ensures var due := DueOrders(old(db.State()), now, windows, |old(db.State()).orders|);
              (db.State(), orderIds) == LifecycleLaws.Sweep(old(db.State()), due, Undisturbed(|due|))
      ensures InvKept(old(db.State()), db.State())
    {
      hide Orders.Expire, DueOrders, Apply, InvKept;
      ghost var start := db.State();
      var due := DueOrders(db.State(), now, windows, |db.orders|);
      orderIds := [];
      InvKeptByNothing(start);
      for i := 0 to |due|
        invariant (db.State(), orderIds) == LifecycleLaws.Sweep(start, due[..i], Undisturbed(i))
        invariant InvKept(start, db.State())
      {
        assert due[..i + 1][..i] == due[..i] && Undisturbed(i + 1)[..i] == Undisturbed(i);
        assert Run(db.State(), []) == db.State();
        ghost var before := db.State();
        var expired := Expire(due[i]);
        InvKeptTransitive(start, before, db.State());
        if expired {
          orderIds := orderIds + [due[i]];
        }
      }
      assert due[..|due|] == due;
    }
  }

  function Undisturbed(n: nat): (between: seq<seq<ShopLaws.Step>>)
    ensures |between| == n && forall i :: 0 <= i < n ==> between[i] == []
  {
    seq(n, _ => [])
  }
}
