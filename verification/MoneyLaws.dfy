/**
 * Laws of the money on the lines: in whole cents, a line's total is its price times
 * its quantity, and an edit leaves a line it does not change exactly as it was.
 */
module MoneyLaws {
  import opened Wrappers
  import opened Tables
  import opened StockSpec
  import opened Calendar
  import opened Orders
  import opened OrderLaws
  import opened EditLaws
  import opened Refunds
  import opened Payments
  import opened ShopLaws
  import opened LifecycleLaws
  import opened PaymentLaws

  lemma RoundWhole(n: int)
    ensures RoundHalfUp(n as real) == n
  {
  }

  lemma WholePrice(l: Line)
    ensures RoundHalfUp(PriceOf(l) * 100.0) == l.unitPrice
    ensures RoundHalfUp(PriceOf(l) * l.quantity as real * 100.0) == l.unitPrice * l.quantity
  {
    var u, q := l.unitPrice as real, l.quantity as real;
    assert u / 100.0 * 100.0 == u;
    assert u / 100.0 * q * 100.0 == u * q;
    assert u * q == (l.unitPrice * l.quantity) as real;
    RoundWhole(l.unitPrice);
    RoundWhole(l.unitPrice * l.quantity);
  }

  // ---------------- Whole cents ----------------

  predicate WholeCents(x: real) {
    x * 100.0 == (x * 100.0).Floor as real
  }

  lemma CentsOver100(n: int)
    ensures WholeCents(n as real / 100.0)
  {
    assert n as real / 100.0 * 100.0 == n as real;
  }

  /** At a price in whole cents the line's total is the stored price times the quantity. */
  lemma WholeCentsAreExact(l: PricedLine)
    requires WholeCents(l.price)
    ensures ToLine(l).lineTotal == ToLine(l).unitPrice * l.quantity
  {
    var q, cents := l.quantity as real, (l.price * 100.0).Floor;
    assert l.price * q * 100.0 == l.price * 100.0 * q;
    assert l.price * 100.0 * q == (cents * l.quantity) as real;
    RoundWhole(cents);
    RoundWhole(cents * l.quantity);
  }

  lemma CatalogInCents(offer: Offer)
    ensures WholeCents(CatalogPrice(offer))
  {
    hide RoundHalfUp;
    CentsOver100(RoundHalfUp(DiscountedCents(offer)));
  }

  /** A kept price and a price of the catalogue are whole cents by themselves. */
  lemma ResolvedInCents(req: LineRequest, current: seq<Line>, offers: map<ProductId, Offer>)
    requires req.price.Some? ==> WholeCents(req.price.value)
    ensures ResolveLine(req, current, offers).0 == Done ==> WholeCents(ResolveLine(req, current, offers).1.price)
  {
    hide WholeCents, CatalogPrice;
    var existing := FindLine(current, req.prod);
    if existing.Some? {
      CentsOver100(existing.value.unitPrice);
    } else if req.prod in offers {
      CatalogInCents(offers[req.prod]);
    }
  }

  /** The prices that come from outside, at the creation or typed into an edit, have two decimals. */
  predicate TwoDecimals(s: ShopLaws.Step) {
    match s
    case CreateStep(req, _, _) => forall i :: 0 <= i < |req.lines| ==> WholeCents(req.lines[i].price)
    case EditStep(_, reqs, _, _) => forall i ::
                                      0 <= i < |reqs| && reqs[i].price.Some? ==> WholeCents(reqs[i].price.value)
    case _ => true
  }

  ghost predicate ExactLines(ls: seq<Line>) {
    forall l :: l in ls ==> l.lineTotal == l.unitPrice * l.quantity
  }

  ghost predicate ExactOrders(orders: seq<Order>) {
    forall i :: 0 <= i < |orders| ==> ExactLines(orders[i].lines)
  }

  lemma ExactToLines(ls: seq<PricedLine>)
    requires forall i :: 0 <= i < |ls| ==> WholeCents(ls[i].price)
    ensures ExactLines(ToLines(ls))
  {
    hide WholeCents, ToLine;
    forall l | l in ToLines(ls) ensures l.lineTotal == l.unitPrice * l.quantity {
      var i :| 0 <= i < |ls| && ToLines(ls)[i] == l;
      WholeCentsAreExact(ls[i]);
      ToLineProduct(ls[i]);
    }
  }

  lemma EditKeepsExact(shop: Shop, s: ShopLaws.Step)
    requires s.EditStep? && TwoDecimals(s) && ExactOrders(shop.orders)
    ensures ExactOrders(Apply(shop, s).0.orders)
  {
    hide WholeCents, ResolveLine, EditedStock, SameLines, Subtotal, Kept, Added, ToLines;
    var (shop', outcome) := Apply(shop, s);
    if outcome == Done {
      var cur := shop.orders[s.o].lines;
      var priced := ResolveLines(s.reqs, cur, s.offers).1;
      forall i | 0 <= i < |priced| ensures WholeCents(priced[i].price) {
        ResolvedInCents(s.reqs[i], cur, s.offers);
      }
      ExactToLines(priced);
      KeptComeFrom(cur, ToLines(priced));
      AddedComeFrom(ToLines(priced), cur);
      assert ExactLines(shop'.orders[s.o].lines);
    }
  }

  lemma CreateKeepsExact(shop: Shop, s: ShopLaws.Step)
    requires s.CreateStep? && TwoDecimals(s) && ExactOrders(shop.orders)
    ensures ExactOrders(Apply(shop, s).0.orders)
  {
    hide WholeCents, ReserveLines, SealPayment, ToLines, Subtotal, Orders.ProperLines, ExactLines;
    ExactToLines(s.req.lines);
    SealKeepsDeal(NewOrderOf(s.req.(paidAlready := false), s.now).(payment := Paid), s.now.day);
  }

  lemma StepKeepsExact(shop: Shop, s: ShopLaws.Step)
    requires TwoDecimals(s) && ExactOrders(shop.orders)
    ensures ExactOrders(Apply(shop, s).0.orders)
  {
    hide Apply, TwoDecimals, ExactLines;
    if s.EditStep? {
      EditKeepsExact(shop, s);
    } else if s.CreateStep? {
      CreateKeepsExact(shop, s);
    } else {
      StepKeepsDeals(shop, s);
      OnlyCreationAddsOrders(shop, s);
    }
  }

  /** In every run whose outside prices have two decimals, every stored line's total is its price times its quantity. */
  lemma {:induction false} LinesAreExact(opening: Shop, steps: seq<ShopLaws.Step>)
    requires Opening(opening) && forall i :: 0 <= i < |steps| ==> TwoDecimals(steps[i])
    ensures ExactOrders(Run(opening, steps).orders)
  {
    if steps != [] {
      hide Apply, TwoDecimals, ExactOrders;
      LinesAreExact(opening, steps[..|steps| - 1]);
      StepKeepsExact(Run(opening, steps[..|steps| - 1]), steps[|steps| - 1]);
    }
  }

  // ---------------- The line an edit does not change ----------------

  lemma {:induction false} FindsIt(ls: seq<Line>, i: nat)
    requires Orders.ProperLines(ls) && i < |ls|
    ensures FindLine(ls, ls[i].prod) == Some(ls[i])
  {
    if i < |ls| - 1 {
      FindsIt(ls[..|ls| - 1], i);
    }
  }

  lemma {:induction false} KeptHas(cur: seq<Line>, inc: seq<Line>, k: nat)
    requires k < |cur| && FindLine(inc, cur[k].prod).Some?
    ensures FindLine(inc, cur[k].prod).value in Kept(cur, inc)
  {
    if k < |cur| - 1 {
      KeptHas(cur[..|cur| - 1], inc, k);
    }
  }

  /** The request that leaves a line as it is: the same quantity, and no price or the one it has. */
  predicate AsItWas(req: LineRequest, l: Line) {
    req.prod == l.prod && req.quantity == l.quantity && (req.price.None? || req.price.value == PriceOf(l))
  }

  lemma ValuedTheSame(req: LineRequest, cur: seq<Line>, l: Line, offers: map<ProductId, Offer>)
    requires FindLine(cur, l.prod) == Some(l) && AsItWas(req, l) && l.lineTotal == l.unitPrice * l.quantity
    ensures ResolveLine(req, cur, offers).0 == Done && ToLine(ResolveLine(req, cur, offers).1) == l
  {
    WholePrice(l);
  }

  /**
   * An edit values every line again, from the stored price. In every run whose
   * outside prices have two decimals, a line it was not asked to change is still
   * there afterwards exactly as it was: price, quantity and total.
   */
  lemma UntouchedLineStays(opening: Shop, steps: seq<ShopLaws.Step>, s: ShopLaws.Step, k: nat, i: nat)
    requires Opening(opening) && forall n :: 0 <= n < |steps| ==> TwoDecimals(steps[n])
    requires s.EditStep? && Apply(Run(opening, steps), s).1 == Done && i < |s.reqs|
    requires s.o < |Run(opening, steps).orders| && k < |Run(opening, steps).orders[s.o].lines|
    requires AsItWas(s.reqs[i], Run(opening, steps).orders[s.o].lines[k])
    ensures var after := Apply(Run(opening, steps), s).0.orders;
            s.o < |after| && Run(opening, steps).orders[s.o].lines[k] in after[s.o].lines
  {
    hide Run, ResolveLine, EditedStock, SameLines, Subtotal, Kept, Added, ToLine, TwoDecimals, AsItWas, FindLine,
         PriceOf, Inv;
    var shop := Run(opening, steps);
    var cur := shop.orders[s.o].lines;
    var l := cur[k];
    LinesAreExact(opening, steps);
    RunKeeps(opening, steps);
    LinesAreProper(shop, opening.stock.inv, s.o);
    FindsIt(cur, k);
    assert ExactLines(cur);
    var priced := ResolveLines(s.reqs, cur, s.offers).1;
    ValuedTheSame(s.reqs[i], cur, l, s.offers);
    var inc := ToLines(priced);
    assert inc[i] == l;
    forall j ensures 0 <= j < |inc| ==> inc[j].prod == s.reqs[j].prod && inc[j].quantity == s.reqs[j].quantity {
      if 0 <= j < |inc| {
        ToLineProduct(priced[j]);
      }
    }
    FindsIt(inc, i);
    KeptHas(cur, inc, k);
  }

  lemma ToLineProduct(l: PricedLine)
    ensures ToLine(l).prod == l.prod && ToLine(l).quantity == l.quantity
  {
  }

  // ---------------- One line ----------------

  lemma OneLine(req: LineRequest, current: seq<Line>, offers: map<ProductId, Offer>, priced: PricedLine)
    requires ResolveLine(req, current, offers) == (Done, priced)
    ensures ResolveLines([req], current, offers).0 == Done && ResolveLines([req], current, offers).1 == [priced]
    ensures Subtotal([priced]) == LineTotal(priced) && ToLines([priced]) == [ToLine(priced)]
  {
    hide ResolveLine, LineTotal, ToLine;
    var reqs, ls := [req], [priced];
    assert ls[..|ls| - 1] == [];
    assert ResolveLines(reqs[..|reqs| - 1], current, offers) == (Done, []);
    assert reqs[|reqs| - 1] == req;
    assert ResolveLines(reqs, current, offers).1 == [] + [priced];
  }

  lemma Repriced(offers: map<ProductId, Offer>)
    ensures var l, priced := Line(1, 1, 1000, 1000), PricedLine(1, 1, 5.0);
            && ResolveLine(LineRequest(1, 1, Some(5.0)), [l], offers) == (Done, priced)
            && ToLine(priced) == Line(1, 1, 500, 500) && !SameLines([l], [priced])
  {
    var l, priced := Line(1, 1, 1000, 1000), PricedLine(1, 1, 5.0);
    assert FindLine([l], 1) == Some(l);
    assert PriceOf(l) != [priced][0].price;
  }
}
