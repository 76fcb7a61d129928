/**
 * The order number stamped on the ledger: when it tells what an order has taken,
 * by the calls that were made.
 */
module StampLaws {
  import opened Wrappers
  import opened Tables
  import opened StockSpec
  import opened StockLaws
  import opened OperationLaws
  import opened Calendar
  import opened Orders
  import opened OrderLaws
  import opened Payments
  import opened ShopLaws
  import opened UndoLaws
  import opened RefundLaws

  /** The order a call is about, if it is about one. */
  function OrderOf(shop: Shop, s: ShopLaws.Step): OrderId {
    match s
    case StatusStep(o, _, _, _) => o
    case ClientCancelStep(_, o) => o
    case ExpireStep(o) => o
    case ReinstateStep(o, _, _) => o
    case CorrectStep(o, _, _, _, _) => o
    case EditStep(o, _, _, _) => o
    case SyncStep(id, _, _, _) => if Found(shop.charges, id) then shop.charges[id].order else 0
    case WebhookStep(ref, _, _, _) =>
      if ref.Some? && Found(shop.charges, ref.value) then shop.charges[ref.value].order else 0
    case _ => 0
  }

  /** What a call enters or takes out by hand against an order, at a storage and product. */
  function HandFlowOf(shop: Shop, s: ShopLaws.Step, o: OrderId, k: Key): int {
    if s.ByHandStep? && s.op.order == Some(o) && Apply(shop, s).1 == Done then OperationFlow(s.op, k) else 0
  }

  /** The same for all the calls of a run. */
  function HandFlow(opening: Shop, steps: seq<ShopLaws.Step>, o: OrderId, k: Key): int {
    if steps == [] then 0
    else
      var first := steps[..|steps| - 1];
      HandFlow(opening, first, o, k) + HandFlowOf(Run(opening, first), steps[|steps| - 1], o, k)
  }

  lemma OperationAgainst(st: Stock, op: Operation, homes: seq<Option<LocationId>>, o: OrderId, k: Key)
    requires RowsSound(st) && HoldsAgree(st) && OperationLaws.Proper(op) && Operate(st, op, homes).Some?
    ensures ByHandAgainst(Operate(st, op, homes).value, o, k)
            == ByHandAgainst(st, o, k) + if op.order == Some(o) then OperationFlow(op, k) else 0
  {
    hide Operate, OperationFlow, Flow;
    OperateEffect(st, op, homes);
    OperationLine(op, k);
    assert Operate(st, op, homes).value.ledger[..|st.ledger|] == st.ledger;
  }

  lemma ByHandStepAgainst(shop: Shop, init: Inventory, s: ShopLaws.Step, o: OrderId, k: Key)
    requires Inv(shop, init) && s.ByHandStep?
    ensures ByHandAgainst(Apply(shop, s).0.stock, o, k) == ByHandAgainst(shop.stock, o, k) + HandFlowOf(shop, s, o, k)
  {
    hide Operate, OperationFlow, ByHandAgainst, Coupled, OrdersSound, Homes;
    if Apply(shop, s).1 == Done {
      OperationAgainst(shop.stock, s.op, Homes(shop.orders), o, k);
    }
  }

  lemma CreateAgainst(shop: Shop, init: Inventory, s: ShopLaws.Step, o: OrderId, k: Key)
    requires Inv(shop, init) && s.CreateStep?
    ensures ByHandAgainst(Apply(shop, s).0.stock, o, k) == ByHandAgainst(shop.stock, o, k)
  {
    hide ReserveLines, ByHandAgainst, Valid, Coupled, OrdersSound, ToLines, NewOrderOf, Own;
    var ls := ToLines(s.req.lines);
    if Create(shop, s.req, s.area, s.now).1 == Done {
      ReserveLinesIsOwn(shop.stock, init, |shop.orders|, ls, s.area, s.req.pickup);
    }
  }

  /** No call but an operation by hand moves anything against an order by hand. */
  lemma StepAgainst(shop: Shop, init: Inventory, s: ShopLaws.Step, o: OrderId, k: Key)
    requires Inv(shop, init)
    ensures ByHandAgainst(Apply(shop, s).0.stock, o, k) == ByHandAgainst(shop.stock, o, k) + HandFlowOf(shop, s, o, k)
  {
    hide Inv, Apply, ByHandAgainst, Own;
    if s.ByHandStep? {
      ByHandStepAgainst(shop, init, s, o, k);
    } else if s.CreateStep? {
      CreateAgainst(shop, init, s, o, k);
    } else {
      StepIsOwn(shop, init, s, OrderOf(shop, s));
    }
  }

  lemma {:induction false} AgainstOverRuns(opening: Shop, steps: seq<ShopLaws.Step>, o: OrderId, k: Key)
    requires Opening(opening)
    ensures ByHandAgainst(Run(opening, steps).stock, o, k) == HandFlow(opening, steps, o, k)
  {
    if steps != [] {
      hide Inv, Apply, ByHandAgainst, HandFlowOf;
      var first := steps[..|steps| - 1];
      AgainstOverRuns(opening, first, o, k);
      RunKeeps(opening, first);
      StepAgainst(Run(opening, first), opening.stock.inv, steps[|steps| - 1], o, k);
    }
  }

  /**
   * After any run, the movements stamped with an order say what it has taken at a
   * storage and product exactly when what the accepted operations by hand entered and
   * took out there against that order adds up to zero.
   */
  lemma StampsOverRuns(opening: Shop, steps: seq<ShopLaws.Step>, o: OrderId, k: Key)
    requires Opening(opening)
    ensures var st := Run(opening, steps).stock;
            Net(st.ledger, Stamped(o), k) == -(Total(st.rs, OfOrderAt(o, k, Confirmed)) as int)
            <==> HandFlow(opening, steps, o, k) == 0
  {
    hide Coupled, OrdersSound, Apply, Valid, HandFlow, Run;
    RunKeeps(opening, steps);
    AgainstOverRuns(opening, steps, o, k);
    StampReading(Run(opening, steps).stock, opening.stock.inv, o, k);
  }

  // ---------------- Where it goes wrong ----------------

  /** Five units entered by hand with an order's number on them. */
  function Entry(): Operation {
    Operation(IN, 1, None, Some(0), [Item(1, 5)])
  }

  lemma EntryIsAccepted(shop: Shop)
    ensures Apply(shop, ByHandStep(Entry(), {1}, {})).1 == Done
    ensures OperationFlow(Entry(), Key(1, 1)) == 5
  {
    hide Merged;
    var op := Entry();
    MergedTotals(op.items, 1);
    EntriesAlwaysFit(shop.stock.inv, op.loc, Merged(op.items));
    OneItem();
  }

  lemma OneItem()
    ensures Asked([Item(1, 5)], 1) == 5
  {
    assert [Item(1, 5)][..0] == [];
  }

  lemma {:induction false} EntriesAlwaysFit(inv: Inventory, loc: LocationId, items: seq<Item>)
    ensures MoveItems(inv, IN, loc, loc, items).Some?
  {
    if items != [] {
      EntriesAlwaysFit(inv, loc, items[..|items| - 1]);
    }
  }

  /** A paid order that has taken nothing, and goods entered by hand against it: the stamps say it gave back five. */
  lemma StampReadingFails(now: Instant)
    ensures Opening(SmallShop())
    ensures var st := Run(SmallShop(), [Creation(now), ByHandStep(Entry(), {1}, {})]).stock;
            Net(st.ledger, Stamped(0), Key(1, 1)) != -(Total(st.rs, OfOrderAt(0, Key(1, 1), Confirmed)) as int)
  {
    hide Apply, Run, OperationFlow;
    var create, entry := Creation(now), ByHandStep(Entry(), {1}, {});
    var steps := [create, entry];
    SmallOrderIsMade(now);
    EntryIsAccepted(Run(SmallShop(), [create]));
    assert steps[..1] == [create] && [create][..0] == [];
    assert HandFlow(SmallShop(), [], 0, Key(1, 1)) == 0;
    assert HandFlow(SmallShop(), [create], 0, Key(1, 1)) == 0;
    StampsOverRuns(SmallShop(), steps, 0, Key(1, 1));
  }
}
