/**
 * The cap on refunds over whole runs: what is requested and returned of an order
 * against its total, and the one call that does not look at it.
 */
module RefundLaws {
  import opened Wrappers
  import opened Tables
  import opened Allocation
  import opened StockSpec
  import opened StockLaws
  import opened Calendar
  import opened CartModule
  import opened Orders
  import opened OrderLaws
  import opened Refunds
  import opened Payments
  import opened ShopLaws
  import opened LifecycleLaws
  import opened PaymentLaws
  import opened Catalogue
  import opened Served
  import opened MoneyLaws

  // ---------------- One call ----------------

  lemma UnsolicitedRefund(shop: Shop, o: OrderId, c: Charge, area: Area, now: Instant)
    requires o < |shop.orders| && Positive(shop.refunds) && Capped(shop.refunds, o, shop.orders[o].total)
    ensures Capped(Propagate(shop, c, area, now).refunds, o, shop.orders[o].total)
  {
    hide ReserveLines, SealPayment, Cents, Removed, RequestRefund, Capped;
    if c.order < |shop.orders| && c.status == Succeeded && shop.orders[c.order].payment != Paid {
      var paid := PaidBy(shop.orders[c.order], c, now);
      var mid := shop.orders[c.order := paid];
      var flagged := mid[c.order := paid.(status := CANCELLED, reason := Some(PaidAfterExpiryOutOfStock))];
      SealKeepsDeal(shop.orders[c.order].(payment := Paid), c.completedOn.GetOr(now.day));
      RequestKeepsCap(shop.(orders := flagged), c.order, None, o);
    }
  }

  lemma StepKeepsRefunds(shop: Shop, init: Inventory, s: ShopLaws.Step, o: OrderId)
    requires Inv(shop, init) && o < |shop.orders| && Capped(shop.refunds, o, shop.orders[o].total)
    ensures Capped(Apply(shop, s).0.refunds, o, shop.orders[o].total)
  {
    hide Valid, Coupled, OrdersSound, Create, UpdateStatus, CancelByClient, Expire, Reinstate, Correct, UpdatePayment,
         UpdateItems, Orders.ByHand, RequestRefund, CompleteRefund, RejectRefund, Propagate, Capped;
    match s
    case RequestStep(o', asked) => RequestKeepsCap(shop, o', asked, o);
    case CompleteStep(r, reachable) => CompleteKeepsCap(shop, r, reachable, o);
    case RejectStep(r) => RejectKeepsCap(shop, r, o);
    case SyncStep(id, notice, area, now) =>
      if Found(shop.charges, id) {
        var c := Noted(shop.charges[id], notice);
        UnsolicitedRefund(shop.(charges := shop.charges[id := c]), o, c, area, now);
      }
    case WebhookStep(ref, notice, area, now) =>
      if ref.Some? && Found(shop.charges, ref.value) {
        var c := Settled(Noted(shop.charges[ref.value], notice), now);
        UnsolicitedRefund(shop.(charges := shop.charges[ref.value := c]), o, c, area, now);
      }
    case _ => OthersLeaveRefunds(shop, s);
  }

  lemma OthersLeaveRefunds(shop: Shop, s: ShopLaws.Step)
    requires !s.RequestStep? && !s.CompleteStep? && !s.RejectStep? && !s.SyncStep? && !s.WebhookStep?
    ensures Apply(shop, s).0.refunds == shop.refunds
  {
    hide ReserveLines, StatusStock, Release, ReleaseThrows, Returned, CorrectedStock, Corrected, EditedStock,
         SameLines, ResolveLines, Operate, SealPayment, JumpAllowed, StepAllowed, PaymentAllowed;
  }

  /** What the order would come to with the lines asked for. */
  function EditedTotal(order: Order, reqs: seq<LineRequest>, offers: map<ProductId, Offer>): int {
    Subtotal(ResolveLines(reqs, order.lines, offers).1) + order.fee
  }

  /** What a caller would have to look at before an edit: the lines asked for still cover what was promised back. */
  predicate Affordable(shop: Shop, s: ShopLaws.Step)
    requires s.EditStep? && s.o < |shop.orders|
  {
    Promised(shop.refunds, s.o) <= Max(0, EditedTotal(shop.orders[s.o], s.reqs, s.offers))
  }

  lemma EditTotal(shop: Shop, s: ShopLaws.Step)
    requires s.EditStep? && s.o < |shop.orders|
    ensures var (shop', outcome) := Apply(shop, s);
            && s.o < |shop'.orders|
            && shop'.orders[s.o].total == if outcome == Done then EditedTotal(shop.orders[s.o], s.reqs, s.offers)
                                          else shop.orders[s.o].total
  {
    hide EditedStock, SameLines, ResolveLines, Subtotal, Saved, WellAsked;
  }

  /**
   * No call but an edit of the order's lines can break the cap, and an edit keeps it
   * exactly when it is refused or what it asks for is still worth what was promised.
   */
  lemma StepKeepsCap(shop: Shop, init: Inventory, s: ShopLaws.Step, o: OrderId)
    requires Inv(shop, init) && o < |shop.orders| && Capped(shop.refunds, o, shop.orders[o].total)
    ensures o < |Apply(shop, s).0.orders|
    ensures var (shop', outcome) := Apply(shop, s);
            Capped(shop'.refunds, o, shop'.orders[o].total)
            <==> (s.EditStep? && s.o == o ==> outcome != Done || Affordable(shop, s))
  {
    hide Inv, Apply, Cents, EditedTotal;
    StepKeepsRefunds(shop, init, s, o);
    if s.EditStep? {
      EditTouchesOneOrder(shop, s);
      if s.o == o {
        EditTotal(shop, s);
      }
    } else {
      StepKeepsDeals(shop, s);
    }
  }

  // ---------------- Whole runs ----------------

  ghost predicate CappedNow(shop: Shop, o: OrderId) {
    o < |shop.orders| ==> Capped(shop.refunds, o, shop.orders[o].total)
  }

  /** The call is no edit of the order, is refused, or leaves it worth what was promised back. */
  predicate Respects(shop: Shop, s: ShopLaws.Step, o: OrderId) {
    s.EditStep? && s.o == o && o < |shop.orders| ==> Apply(shop, s).1 != Done || Affordable(shop, s)
  }

  lemma StepIsCappedIff(shop: Shop, init: Inventory, s: ShopLaws.Step, o: OrderId)
    requires Inv(shop, init) && CappedNow(shop, o)
    ensures CappedNow(Apply(shop, s).0, o) <==> Respects(shop, s, o)
  {
    hide Inv, Apply, Cents, Affordable;
    if o < |shop.orders| {
      StepKeepsCap(shop, init, s, o);
    } else if o < |Apply(shop, s).0.orders| {
      NewOrderHasNoRefunds(shop, init, s, o);
    }
  }

  ghost predicate CappedAfter(opening: Shop, steps: seq<ShopLaws.Step>, n: nat, o: OrderId)
    requires n <= |steps|
  {
    CappedNow(Run(opening, steps[..n]), o)
  }

  predicate RespectsAt(opening: Shop, steps: seq<ShopLaws.Step>, i: nat, o: OrderId)
    requires i < |steps|
  {
    Respects(Run(opening, steps[..i]), steps[i], o)
  }

  /** Within the cap before the run and after each of its calls. */
  ghost predicate AlwaysCapped(opening: Shop, steps: seq<ShopLaws.Step>, o: OrderId) {
    forall n :: 0 <= n <= |steps| ==> CappedAfter(opening, steps, n, o)
  }

  /** Every call respects what was promised back, at its turn. */
  ghost predicate AllRespect(opening: Shop, steps: seq<ShopLaws.Step>, o: OrderId) {
    forall i :: 0 <= i < |steps| ==> RespectsAt(opening, steps, i, o)
  }

  /** A shorter run reads the same up to its end. */
  lemma SamePrefix(opening: Shop, steps: seq<ShopLaws.Step>, m: nat, n: nat, o: OrderId)
    requires n <= m <= |steps|
    ensures CappedAfter(opening, steps[..m], n, o) <==> CappedAfter(opening, steps, n, o)
    ensures n < m ==> (RespectsAt(opening, steps[..m], n, o) <==> RespectsAt(opening, steps, n, o))
  {
    hide Run, CappedNow, Respects;
    assert steps[..m][..n] == steps[..n];
  }

  lemma AlwaysCappedSnoc(opening: Shop, steps: seq<ShopLaws.Step>, o: OrderId)
    requires steps != []
    ensures AlwaysCapped(opening, steps, o) <==>
            AlwaysCapped(opening, steps[..|steps| - 1], o) && CappedNow(Run(opening, steps), o)
  {
    hide CappedAfter, Run, CappedNow;
    var m := |steps| - 1;
    forall n | 0 <= n <= m ensures CappedAfter(opening, steps[..m], n, o) <==> CappedAfter(opening, steps, n, o) {
      SamePrefix(opening, steps, m, n, o);
    }
    WholeRun(opening, steps, o);
  }

  lemma WholeRun(opening: Shop, steps: seq<ShopLaws.Step>, o: OrderId)
    ensures CappedAfter(opening, steps, |steps|, o) <==> CappedNow(Run(opening, steps), o)
  {
    hide Run, CappedNow;
    assert steps[..|steps|] == steps;
  }

  lemma AllRespectSnoc(opening: Shop, steps: seq<ShopLaws.Step>, o: OrderId)
    requires steps != []
    ensures var m := |steps| - 1;
            AllRespect(opening, steps, o) <==>
            AllRespect(opening, steps[..m], o) && Respects(Run(opening, steps[..m]), steps[m], o)
  {
    hide Run, Respects, CappedAfter;
    var m := |steps| - 1;
    forall i | 0 <= i < m ensures RespectsAt(opening, steps[..m], i, o) <==> RespectsAt(opening, steps, i, o) {
      SamePrefix(opening, steps, m, i, o);
    }
    assert RespectsAt(opening, steps, m, o) <==> Respects(Run(opening, steps[..m]), steps[m], o);
  }

  /**
   * Over whole runs, whoever asks and however often: what is promised back never
   * exceeds the total, at any point of the run, exactly when every edit of the order,
   * at its turn, was refused or asked for enough to cover it.
   */
  lemma {:induction false} CapOverRuns(opening: Shop, steps: seq<ShopLaws.Step>, o: OrderId)
    requires Opening(opening)
    ensures AlwaysCapped(opening, steps, o) <==> AllRespect(opening, steps, o)
    ensures AlwaysCapped(opening, steps, o) ==> CappedNow(Run(opening, steps), o)
  {
    hide Apply, Inv, CappedNow, Respects, AlwaysCapped, AllRespect;
    if steps == [] {
      StartsCapped(opening, o);
    } else {
      var m := |steps| - 1;
      var first, before := steps[..m], Run(opening, steps[..m]);
      CapOverRuns(opening, first, o);
      AlwaysCappedSnoc(opening, steps, o);
      AllRespectSnoc(opening, steps, o);
      RunKeeps(opening, first);
      if CappedNow(before, o) {
        StepIsCappedIff(before, opening.stock.inv, steps[m], o);
      }
    }
  }

  lemma StartsCapped(opening: Shop, o: OrderId)
    requires Opening(opening)
    ensures AlwaysCapped(opening, [], o) && AllRespect(opening, [], o) && CappedNow(Run(opening, []), o)
  {
    hide CappedNow, Apply;
    NothingPromised(opening, o);
  }

  lemma NothingPromised(opening: Shop, o: OrderId)
    requires Opening(opening)
    ensures CappedNow(opening, o)
  {
  }

  lemma NewOrderHasNoRefunds(shop: Shop, init: Inventory, s: ShopLaws.Step, o: OrderId)
    requires Inv(shop, init) && |shop.orders| <= o < |Apply(shop, s).0.orders|
    ensures Promised(Apply(shop, s).0.refunds, o) == 0
  {
    hide Valid, Coupled, OrdersSound, Apply, Cents;
    if s.CreateStep? {
      OthersLeaveRefunds(shop, s);
    } else {
      OnlyCreationAddsOrders(shop, s);
    }
    NothingOpen(shop.refunds, o, {Requested, Completed});
  }

  // ---------------- How the cap is broken ----------------

  /** One unit of one product at one storage. */
  function SmallShop(): Shop {
    Shop(Stock(map[Key(1, 1) := Row(1, 0)], [], []), [], map[], [], [])
  }

  function SmallArea(): Area {
    Area(_ => [1], None)
  }

  /** An order of that unit for 10, created paid. */
  function SmallOrder(): NewOrder {
    NewOrder(0, [PricedLine(1, 1, 10.0)], 0, false, None, None, true, false)
  }

  function Creation(now: Instant): ShopLaws.Step {
    CreateStep(SmallOrder(), SmallArea(), now)
  }

  /** The same line, at half the price. */
  function HalfPrice(): ShopLaws.Step {
    EditStep(0, [LineRequest(1, 1, Some(5.0))], map[], SmallArea())
  }

  lemma CreatedOrder(shop: Shop, req: NewOrder, area: Area, now: Instant)
    requires Create(shop, req, area, now).1 == Done
    ensures var shop' := Create(shop, req, area, now).0;
            shop'.orders == shop.orders + [NewOrderOf(req, now)] && shop'.refunds == shop.refunds
  {
    hide ReserveLines, NewOrderOf, Orders.ProperLines, ToLines;
  }

  lemma SmallOrderStored(now: Instant)
    ensures var o := NewOrderOf(SmallOrder(), now);
            && o.lines == [Line(1, 1, 1000, 1000)] && o.total == 1000 && o.payment == Paid && o.fee == 0
    ensures ToLines(SmallOrder().lines) == [Line(1, 1, 1000, 1000)]
  {
    hide SealPayment;
    var req := SmallOrder();
    var priced := PricedLine(1, 1, 10.0);
    assert req.lines[..0] == [] && ToLine(priced) == Line(1, 1, 1000, 1000);
    assert Subtotal(req.lines[..0]) == 0;
    assert ToLines(req.lines)[0] == ToLine(req.lines[0]);
    var o := NewOrderOf(req.(paidAlready := false), now).(payment := Paid);
    SealKeepsDeal(o, now.day);
    SealLeavesState(o, now.day);
  }

  lemma OneUsable(inv: Inventory, p: ProductId, l: LocationId)
    requires Key(l, p) in inv
    ensures SumFree(inv, p, Candidates(inv, p, [l], None)) == FreeAt(inv, p, l)
  {
    var active := [l];
    assert active[..0] == [] && Candidates(inv, p, active[..0], None) == [];
    assert Candidates(inv, p, active, None) == [l];
    assert SumFree(inv, p, active[..0]) == 0;
  }

  lemma SmallOrderIsMade(now: Instant)
    ensures Opening(SmallShop())
    ensures var (shop, outcome) := Apply(SmallShop(), Creation(now));
            && outcome == Done && |shop.orders| == 1 && shop.refunds == []
            && shop.orders[0].lines == [Line(1, 1, 1000, 1000)] && shop.orders[0].total == 1000
            && shop.orders[0].payment == Paid && shop.orders[0].fee == 0
  {
    hide Create, NewOrderOf, ToLines, SumFree, Candidates, Inv;
    var inv := SmallShop().stock.inv;
    OpeningHolds(SmallShop());
    SmallOrderStored(now);
    OneUsable(inv, 1, 1);
    assert FreeFor(SmallShop().stock, 1, SmallArea(), None) == 1;
    CreateSucceeds(SmallShop(), inv, SmallOrder(), SmallArea(), now);
    CreatedOrder(SmallShop(), SmallOrder(), SmallArea(), now);
  }

  /**
   * Nothing in an edit looks at the refunds. From an empty shop: an order paid on the
   * spot, the whole of it asked back, its price halved, and more is promised than it
   * is worth.
   */
  lemma EditCanBreakCap(now: Instant)
    ensures Opening(SmallShop())
    ensures var steps := [Creation(now), RequestStep(0, None), HalfPrice()];
            CappedNow(Run(SmallShop(), steps[..2]), 0) && !CappedNow(Run(SmallShop(), steps), 0)
  {
    hide Apply, Cents, Inv;
    var steps := [Creation(now), RequestStep(0, None), HalfPrice()];
    SmallOrderIsMade(now);
    OpeningHolds(SmallShop());
    var made := Apply(SmallShop(), Creation(now)).0;
    RequestsItAll(made);
    var asked := Apply(made, RequestStep(0, None)).0;
    StepKeeps(SmallShop(), SmallShop().stock.inv, Creation(now));
    StepKeeps(made, SmallShop().stock.inv, RequestStep(0, None));
    HalvesIt(asked);
    ThreeSteps(SmallShop(), steps);
  }

  lemma ThreeSteps(shop: Shop, steps: seq<ShopLaws.Step>)
    requires |steps| == 3
    ensures Run(shop, steps[..2]) == Apply(Apply(shop, steps[0]).0, steps[1]).0
    ensures Run(shop, steps) == Apply(Run(shop, steps[..2]), steps[2]).0
  {
    hide Apply;
    assert steps[..2][..1] == steps[..1] && steps[..1][..0] == [];
    assert Run(shop, steps[..1]) == Apply(shop, steps[0]).0;
  }

  lemma RequestsItAll(shop: Shop)
    requires |shop.orders| == 1 && shop.refunds == [] && shop.orders[0].total == 1000 && shop.orders[0].payment == Paid
    ensures Apply(shop, RequestStep(0, None)) == (shop.(refunds := [Refund(0, 1000, Requested)]), Done)
    ensures Promised([Refund(0, 1000, Requested)], 0) == 1000
  {
    hide Cents;
    NothingAsked();
    assert shop.refunds + [Refund(0, 1000, Requested)] == [Refund(0, 1000, Requested)];
    CentsOne(Refund(0, 1000, Requested), 0, {Requested, Completed});
  }

  lemma NothingAsked()
    ensures Refundable([], 0, 1000) == 1000
  {
  }

  lemma HalvesIt(shop: Shop)
    requires Inv(shop, SmallShop().stock.inv) && |shop.orders| == 1 && shop.orders[0].fee == 0
    requires shop.orders[0].lines == [Line(1, 1, 1000, 1000)]
    ensures var shop' := Apply(shop, HalfPrice()).0;
            |shop'.orders| == 1 && shop'.orders[0].total == 500 && shop'.refunds == shop.refunds
  {
    hide Inv, ResolveLines, ResolveLine, SameLines, FreeFor, EditedStock, Saved, Subtotal;
    var order, reqs := shop.orders[0], [LineRequest(1, 1, Some(5.0))];
    Repriced(map[]);
    OneLine(reqs[0], order.lines, map[], PricedLine(1, 1, 5.0));
    assert LineQty(order.lines, 1) == 1 by {
      assert order.lines[..0] == [];
    }
    EditSucceeds(shop, SmallShop().stock.inv, 0, reqs, map[], SmallArea());
    EditTotal(shop, HalfPrice());
    EditTouchesOneOrder(shop, HalfPrice());
  }
}
