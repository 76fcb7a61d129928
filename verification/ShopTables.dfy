/**
 * The tables the services share, and the transactions over them.
 */
module ShopTablesModule {
  import opened Wrappers
  import opened Tables
  import opened StockSpec
  import opened InventoryModule
  import opened CartModule
  import opened Orders
  import opened ShopLaws

  class ShopTables {
    const inventory: InventoryService
    var orders: seq<Order>
    var carts: map<ClientId, Cart>
    var charges: seq<Charge>
    var refunds: seq<Refund>

    function State(): Shop
      reads this, inventory
    {
      Shop(inventory.State(), orders, carts, charges, refunds)
    }

    /** A shop on its first day. */
    constructor (stock: Inventory)
      ensures State() == Shop(Stock(stock, [], []), [], map[], [], [])
      ensures fresh(this) && fresh(inventory)
    {
      inventory := new InventoryService(stock);
      orders, carts, charges, refunds := [], map[], [], [];
    }

    /** A transaction that fails leaves every table as it found it. */
    method Rollback(shop: Shop)
      modifies this, inventory
      ensures State() == shop
    {
      inventory.Rollback(shop.stock);
      orders, carts, charges, refunds := shop.orders, shop.carts, shop.charges, shop.refunds;
    }

    /** An operation by hand. The pickup orders whose holds a transfer may bring home are read from the orders. */
    method CreateOperation(op: Operation, catalogue: set<ProductId>, active: set<LocationId>) returns (outcome: Outcome)
      requires forall i :: 0 <= i < |op.items| ==> op.items[i].quantity > 0
      modifies inventory
      ensures (State(), outcome) == Orders.ByHand(old(State()), op, catalogue, active)
      ensures outcome != Done ==> State() == old(State())
      ensures InvKept(old(State()), State())
    {
      hide WellFormed, Operate, Homes, InvKept;
      CallKeepsInv(State(), ByHandStep(op, catalogue, active));
      outcome := inventory.CreateOperation(op, catalogue, active, Homes(orders));
    }

    method SaveOrder(o: OrderId, order: Order)
      requires o < |orders|
      modifies this`orders
      ensures orders == old(orders)[o := order]
    {
      orders := orders[o := order];
    }

    /** The lines of an order that dies go back to its client's cart. */
    method BackToCart(client: ClientId, lines: seq<Line>)
      modifies this`carts
      ensures carts == old(carts)[client := Returned(CartOf(old(carts), client), CartLines(lines))]
    {
      var cart, _ := ReturnToCart(CartOf(carts, client), CartLines(lines));
      carts := carts[client := cart];
    }

    /** The lines of an order that comes back to life leave it. */
    method OutOfCart(client: ClientId, lines: seq<Line>)
      modifies this`carts
      ensures carts == old(carts)[client := Removed(CartOf(old(carts), client), CartLines(lines))]
    {
      var cart, _ := TakeFromCart(CartOf(carts, client), CartLines(lines));
      carts := carts[client := cart];
    }
  }
}
