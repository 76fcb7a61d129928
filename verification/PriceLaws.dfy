/**
 * Prices and rows of an order, from what was asked: which price a line takes, how it
 * is rounded, which edits are refused and why.
 */
module PriceLaws {
  import opened Wrappers
  import opened Tables
  import opened StockSpec
  import opened StockLaws
  import opened Calendar
  import opened Orders
  import opened OrderLaws
  import opened EditLaws
  import opened ShopLaws
  import opened MoneyLaws

  /** `u` cents is `v` cents rounded, halves up. */
  predicate RoundsTo(v: real, u: int) {
    u as real - 0.5 <= v < u as real + 0.5
  }

  lemma Rounds(v: real)
    ensures RoundsTo(v, RoundHalfUp(v))
  {
  }

  lemma RoundsToOne(v: real, u: int)
    requires RoundsTo(v, u)
    ensures RoundHalfUp(v) == u
  {
  }

  // ---------------- New orders ----------------

  /** A stored line: the product and quantity asked, unit price and total in cents, each rounded on its own. */
  lemma CreatedLine(shop: Shop, req: NewOrder, area: Area, now: Instant, i: nat)
    requires Create(shop, req, area, now).1 == Done && i < |req.lines|
    ensures var orders, asked := Create(shop, req, area, now).0.orders, req.lines[i];
            && |orders| == |shop.orders| + 1 && |orders[|shop.orders|].lines| == |req.lines|
            && var l := orders[|shop.orders|].lines[i];
            && l.prod == asked.prod && l.quantity == asked.quantity
            && RoundsTo(asked.price * 100.0, l.unitPrice)
            && RoundsTo(asked.price * asked.quantity as real * 100.0, l.lineTotal)
  {
    hide ReserveLines, ToLine, SealPayment, Subtotal, Orders.ProperLines;
    TypedLine(req.lines[i]);
    SealKeepsLines(NewOrderOf(req.(paidAlready := false), now).(payment := Paid), now.day);
  }

  lemma SealKeepsLines(o: Order, day: Civil)
    ensures SealPayment(o, day).lines == o.lines
  {
    hide Deadline;
  }

  // ---------------- Which price an edit takes ----------------

  predicate HasLine(ls: seq<Line>, p: ProductId) {
    exists i :: 0 <= i < |ls| && ls[i].prod == p
  }

  lemma {:induction false} FoundIff(ls: seq<Line>, p: ProductId)
    ensures FindLine(ls, p).Some? <==> HasLine(ls, p)
  {
    if ls != [] {
      var n := |ls| - 1;
      FoundIff(ls[..n], p);
      if HasLine(ls, p) && ls[n].prod != p {
        var i :| 0 <= i < |ls| && ls[i].prod == p;
        assert ls[..n][i].prod == p;
      }
      if HasLine(ls[..n], p) {
        var i :| 0 <= i < n && ls[..n][i].prod == p;
        assert ls[i].prod == p;
      }
    }
  }

  /** The discount is taken off: in cents, the base price times what is left of a hundred. */
  lemma DiscountTakenOff(base: real, discount: real)
    ensures base * (1.0 - discount / 100.0) * 100.0 == base * (100.0 - discount)
  {
    var left := 1.0 - discount / 100.0;
    assert left * 100.0 == 100.0 - discount;
    assert base * left * 100.0 == base * (left * 100.0);
  }

  lemma CentsBack(n: int)
    ensures n as real / 100.0 * 100.0 == n as real
  {
  }

  lemma CatalogRounds(offer: Offer)
    ensures RoundsTo(offer.basePrice * (100.0 - offer.discount), RoundHalfUp(CatalogPrice(offer) * 100.0))
  {
    hide RoundHalfUp;
    DiscountTakenOff(offer.basePrice, offer.discount);
    CentsTwice(DiscountedCents(offer), CatalogPrice(offer));
  }

  /** Rounding whole cents again changes nothing. */
  lemma CentsTwice(v: real, price: real)
    requires price == RoundHalfUp(v) as real / 100.0
    ensures RoundHalfUp(price * 100.0) == RoundHalfUp(v) && RoundsTo(v, RoundHalfUp(price * 100.0))
  {
    var n := RoundHalfUp(v);
    assert price * 100.0 == n as real;
    Rounds(v);
    RoundWhole(n);
  }

  /**
   * What a stored line owes to the request that asked for it: the typed price rounded,
   * or else the price it had, or else the catalogue's with its discount taken off. The
   * total is the price times the quantity, rounded from the typed price if there was one.
   */
  ghost predicate PricedFor(l: Line, req: LineRequest, current: seq<Line>, offers: map<ProductId, Offer>) {
    && l.prod == req.prod && l.quantity == req.quantity
    && (req.price.Some? ==>
          && RoundsTo(req.price.value * 100.0, l.unitPrice)
          && RoundsTo(req.price.value * req.quantity as real * 100.0, l.lineTotal))
    && (req.price.None? ==> l.lineTotal == l.unitPrice * l.quantity)
    && (req.price.None? && HasLine(current, req.prod) ==>
          exists j :: 0 <= j < |current| && current[j].prod == req.prod && l.unitPrice == current[j].unitPrice)
    && (req.price.None? && !HasLine(current, req.prod) ==>
          && req.prod in offers
          && RoundsTo(offers[req.prod].basePrice * (100.0 - offers[req.prod].discount), l.unitPrice))
  }

  lemma WholeTotal(l: PricedLine)
    requires WholeCents(l.price)
    ensures ToLine(l).lineTotal == ToLine(l).unitPrice * ToLine(l).quantity
  {
    hide ToLine;
    WholeCentsAreExact(l);
    ToLineProduct(l);
  }

  lemma TypedLine(l: PricedLine)
    ensures RoundsTo(l.price * 100.0, ToLine(l).unitPrice)
    ensures RoundsTo(l.price * l.quantity as real * 100.0, ToLine(l).lineTotal)
    ensures ToLine(l).prod == l.prod && ToLine(l).quantity == l.quantity
  {
    TotalRounds(l);
  }

  lemma TotalRounds(l: PricedLine)
    ensures RoundsTo(l.price * l.quantity as real * 100.0, LineTotal(l))
  {
    var v := l.price * l.quantity as real * 100.0;
    assert LineTotal(l) == (v + 0.5).Floor;
  }

  lemma KeptPrice(current: seq<Line>, p: ProductId)
    requires FindLine(current, p).Some?
    ensures RoundHalfUp(PriceOf(FindLine(current, p).value) * 100.0) == FindLine(current, p).value.unitPrice
    ensures exists j :: 0 <= j < |current| && current[j].prod == p
              && current[j].unitPrice == FindLine(current, p).value.unitPrice
  {
    hide FindLine, RoundHalfUp, PriceOf;
    WholePrice(FindLine(current, p).value);
    FoundIsThere(current, p);
    var j :| 0 <= j < |current| && current[j] == FindLine(current, p).value;
  }

  lemma ToLineUnit(l: PricedLine)
    ensures ToLine(l).unitPrice == RoundHalfUp(l.price * 100.0)
  {
  }

  lemma ResolvedLine(req: LineRequest, current: seq<Line>, offers: map<ProductId, Offer>)
    requires ResolveLine(req, current, offers).0 == Done
    ensures PricedFor(ToLine(ResolveLine(req, current, offers).1), req, current, offers)
  {
    hide RoundHalfUp, FindLine, PriceOf, CatalogPrice, ToLine, HasLine, WholeCents;
    var l := ResolveLine(req, current, offers).1;
    FoundIff(current, req.prod);
    TypedLine(l);
    if req.price.None? {
      ResolvedInCents(req, current, offers);
      WholeTotal(l);
      ToLineUnit(l);
      if FindLine(current, req.prod).Some? {
        KeptPrice(current, req.prod);
      } else {
        CatalogRounds(offers[req.prod]);
      }
    }
  }

  lemma {:induction false} AddedHas(inc: seq<Line>, cur: seq<Line>, i: nat)
    requires i < |inc| && FindLine(cur, inc[i].prod).None?
    ensures inc[i] in Added(inc, cur)
  {
    if i < |inc| - 1 {
      AddedHas(inc[..|inc| - 1], cur, i);
    }
  }

  lemma {:induction false} KeptHasLine(cur: seq<Line>, inc: seq<Line>, p: ProductId)
    requires FindLine(inc, p).Some? && FindLine(cur, p).Some?
    ensures FindLine(inc, p).value in Kept(cur, inc)
  {
    if cur[|cur| - 1].prod != p {
      KeptHasLine(cur[..|cur| - 1], inc, p);
    }
  }

  /** Every incoming line is stored. */
  lemma StoredAsSent(cur: seq<Line>, inc: seq<Line>, i: nat)
    requires Orders.ProperLines(inc) && i < |inc|
    ensures inc[i] in Saved(cur, inc)
  {
    hide Kept, Added, FindLine, Orders.ProperLines;
    FindsIt(inc, i);
    if FindLine(cur, inc[i].prod).None? {
      AddedHas(inc, cur, i);
    } else {
      KeptHasLine(cur, inc, inc[i].prod);
    }
  }

  lemma SentIsProper(reqs: seq<LineRequest>, inc: seq<Line>)
    requires WellAsked(reqs) && |inc| == |reqs|
    requires forall i :: 0 <= i < |inc| ==> inc[i].prod == reqs[i].prod && inc[i].quantity == reqs[i].quantity
    ensures Orders.ProperLines(inc)
  {
  }

  /** After an edit, the order has a line for each request, at the price it takes, and none besides. */
  lemma EditedLines(shop: Shop, o: OrderId, reqs: seq<LineRequest>, offers: map<ProductId, Offer>, area: Area)
    requires UpdateItems(shop, o, reqs, offers, area).1 == Done
    ensures var before, after := shop.orders[o].lines, UpdateItems(shop, o, reqs, offers, area).0.orders[o].lines;
            && (forall i :: 0 <= i < |reqs| ==> exists l :: l in after && PricedFor(l, reqs[i], before, offers))
            && (forall l :: l in after ==> exists i :: 0 <= i < |reqs| && l.prod == reqs[i].prod)
  {
    hide EditedStock, SameLines, Subtotal, ResolveLine, ToLine, Kept, Added, PricedFor, Orders.ProperLines, WellAsked;
    var before := shop.orders[o].lines;
    var priced := ResolveLines(reqs, before, offers).1;
    var inc := ToLines(priced);
    var after := Saved(before, inc);
    forall i | 0 <= i < |inc| ensures inc[i].prod == reqs[i].prod && inc[i].quantity == reqs[i].quantity {
      ToLineProduct(priced[i]);
    }
    SentIsProper(reqs, inc);
    forall i | 0 <= i < |reqs| ensures exists l :: l in after && PricedFor(l, reqs[i], before, offers) {
      StoredAsSent(before, inc, i);
      ResolvedLine(reqs[i], before, offers);
      assert inc[i] in after;
    }
    KeptComeFrom(before, inc);
    AddedComeFrom(inc, before);
    forall l | l in after ensures exists i :: 0 <= i < |reqs| && l.prod == reqs[i].prod {
      assert l in inc;
      var i :| 0 <= i < |inc| && inc[i] == l;
    }
  }

  // ---------------- Which edits are refused ----------------

  /** A product that is neither in the order nor in the catalogue. */
  predicate Unknown(req: LineRequest, current: seq<Line>, offers: map<ProductId, Offer>) {
    !HasLine(current, req.prod) && req.prod !in offers
  }

  /** One that is in the catalogue, but not for sale. */
  predicate Withdrawn(req: LineRequest, current: seq<Line>, offers: map<ProductId, Offer>) {
    !HasLine(current, req.prod) && req.prod in offers && !offers[req.prod].forSale
  }

  lemma ResolveOne(req: LineRequest, current: seq<Line>, offers: map<ProductId, Offer>)
    ensures ResolveLine(req, current, offers).0
            == if Unknown(req, current, offers) then NotFound
               else if Withdrawn(req, current, offers) then Conflict else Done
  {
    hide FindLine, HasLine;
    FoundIff(current, req.prod);
  }

  /** The first request that cannot be met decides. */
  ghost predicate FirstRefused(reqs: seq<LineRequest>, current: seq<Line>, offers: map<ProductId, Offer>, i: nat)
    requires i < |reqs|
  {
    && (Unknown(reqs[i], current, offers) || Withdrawn(reqs[i], current, offers))
    && forall j :: 0 <= j < i ==> !Unknown(reqs[j], current, offers) && !Withdrawn(reqs[j], current, offers)
  }

  lemma {:induction false} ResolveOutcome(reqs: seq<LineRequest>, current: seq<Line>, offers: map<ProductId, Offer>)
    ensures var outcome := ResolveLines(reqs, current, offers).0;
            && (outcome == Done <==>
                forall i :: 0 <= i < |reqs| ==>
                  !Unknown(reqs[i], current, offers) && !Withdrawn(reqs[i], current, offers))
            && (forall i :: 0 <= i < |reqs| && FirstRefused(reqs, current, offers, i) ==>
                  outcome == if Unknown(reqs[i], current, offers) then NotFound else Conflict)
  {
    hide Unknown, Withdrawn, ResolveLine;
    if reqs != [] {
      var n := |reqs| - 1;
      var first := reqs[..n];
      ResolveOutcome(first, current, offers);
      ResolveOne(reqs[n], current, offers);
      UnknownIsNotWithdrawn(reqs[n], current, offers);
      forall i | 0 <= i < |reqs| && FirstRefused(reqs, current, offers, i)
        ensures ResolveLines(reqs, current, offers).0
                == if Unknown(reqs[i], current, offers) then NotFound else Conflict
      {
        if i < n {
          assert FirstRefused(first, current, offers, i);
        } else {
          assert forall j :: 0 <= j < n ==> first[j] == reqs[j];
        }
      }
    }
  }

  lemma UnknownIsNotWithdrawn(req: LineRequest, current: seq<Line>, offers: map<ProductId, Offer>)
    ensures !(Unknown(req, current, offers) && Withdrawn(req, current, offers))
  {
  }

  /**
   * Before anything is written: a request that names a product twice or in no quantity
   * is bad, an order or product that does not exist is not found, a product not for sale
   * conflicts.
   */
  lemma EditRefusals(shop: Shop, o: OrderId, reqs: seq<LineRequest>, offers: map<ProductId, Offer>, area: Area)
    ensures var outcome := UpdateItems(shop, o, reqs, offers, area).1;
            var twice := exists i, j :: 0 <= i < j < |reqs| && reqs[i].prod == reqs[j].prod;
            var empty := exists i :: 0 <= i < |reqs| && reqs[i].quantity == 0;
            && (outcome == BadRequest <==> twice || empty)
            && (!twice && !empty && o >= |shop.orders| ==> outcome == NotFound)
            && (!twice && !empty && o < |shop.orders| ==>
                  && (forall i :: 0 <= i < |reqs| && FirstRefused(reqs, shop.orders[o].lines, offers, i) ==>
                        outcome == if Unknown(reqs[i], shop.orders[o].lines, offers) then NotFound else Conflict)
                  && (outcome == Done ==>
                        forall i :: 0 <= i < |reqs| ==>
                          !Unknown(reqs[i], shop.orders[o].lines, offers)
                          && !Withdrawn(reqs[i], shop.orders[o].lines, offers)))
  {
    hide EditedStock, SameLines, Saved, Subtotal, ToLines, ResolveLines, Unknown, Withdrawn;
    if o < |shop.orders| {
      ResolveOutcome(reqs, shop.orders[o].lines, offers);
      ResolveIsOrdinary(reqs, shop.orders[o].lines, offers);
    }
  }

  lemma {:induction false} ResolveIsOrdinary(reqs: seq<LineRequest>, current: seq<Line>, offers: map<ProductId, Offer>)
    ensures ResolveLines(reqs, current, offers).0 in {Done, NotFound, Conflict}
  {
    if reqs != [] {
      hide FindLine;
      ResolveIsOrdinary(reqs[..|reqs| - 1], current, offers);
    }
  }

  // ---------------- The edit that changes nothing ----------------

  lemma {:induction false} KeptWhole(cur: seq<Line>, inc: seq<Line>)
    requires forall k :: 0 <= k < |cur| ==> FindLine(inc, cur[k].prod) == Some(cur[k])
    ensures Kept(cur, inc) == cur
  {
    if cur != [] {
      KeptWhole(cur[..|cur| - 1], inc);
    }
  }

  lemma {:induction false} NoneAdded(inc: seq<Line>, cur: seq<Line>)
    requires forall i :: 0 <= i < |inc| ==> FindLine(cur, inc[i].prod).Some?
    ensures Added(inc, cur) == []
  {
    if inc != [] {
      hide FindLine;
      NoneAdded(inc[..|inc| - 1], cur);
    }
  }

  /** The same quantity at the stored price is the same line. */
  lemma SameLine(l: Line, asked: PricedLine)
    requires l.lineTotal == l.unitPrice * l.quantity && l.prod == asked.prod
    requires WholeCents(asked.price)
    ensures ToLine(asked) == l <==> l.quantity == asked.quantity && PriceOf(l) == asked.price
  {
    WholePrice(l);
    var cents := (asked.price * 100.0).Floor;
    RoundWhole(cents);
    if ToLine(asked) == l {
      assert l.unitPrice == cents;
    }
  }

  lemma SameMeansKept(cur: seq<Line>, priced: seq<PricedLine>)
    requires Orders.ProperLines(cur) && Orders.ProperLines(ToLines(priced)) && ExactLines(cur)
    requires (forall i :: 0 <= i < |priced| ==> WholeCents(priced[i].price)) && SameLines(cur, priced)
    ensures Saved(cur, ToLines(priced)) == cur
  {
    hide FindLine, ToLine, WholeCents, PriceOf, Kept, Added, LineQty, Orders.ProperLines;
    var inc := ToLines(priced);
    forall i | 0 <= i < |inc| ensures FindLine(cur, inc[i].prod) == Some(inc[i]) {
      ToLineProduct(priced[i]);
      var l := FindLine(cur, priced[i].prod).value;
      FoundIsThere(cur, priced[i].prod);
      SameLine(l, priced[i]);
    }
    forall k | 0 <= k < |cur| ensures FindLine(inc, cur[k].prod) == Some(cur[k]) {
      assert LineQty(inc, cur[k].prod) > 0;
      QtyIsThere(inc, cur[k].prod);
      var i :| 0 <= i < |inc| && inc[i].prod == cur[k].prod;
      FindsIt(inc, i);
      FindsIt(cur, k);
    }
    KeptWhole(cur, inc);
    NoneAdded(inc, cur);
  }

  lemma QtyIsThere(ls: seq<Line>, p: ProductId)
    requires LineQty(ls, p) > 0
    ensures exists i :: 0 <= i < |ls| && ls[i].prod == p
  {
    if forall i :: 0 <= i < |ls| ==> ls[i].prod != p {
      NoLine(ls, p);
    }
  }

  lemma KeptMeansSame(cur: seq<Line>, priced: seq<PricedLine>)
    requires Orders.ProperLines(cur) && Orders.ProperLines(ToLines(priced)) && ExactLines(cur)
    requires (forall i :: 0 <= i < |priced| ==> WholeCents(priced[i].price)) && Saved(cur, ToLines(priced)) == cur
    ensures SameLines(cur, priced)
  {
    hide FindLine, ToLine, WholeCents, PriceOf, Kept, Added, LineQty, Orders.ProperLines;
    var inc := ToLines(priced);
    forall i | 0 <= i < |priced|
      ensures var l := FindLine(cur, priced[i].prod);
              l.Some? && l.value.quantity == priced[i].quantity && PriceOf(l.value) == priced[i].price
    {
      StoredAsSent(cur, inc, i);
      ToLineProduct(priced[i]);
      var k :| 0 <= k < |cur| && cur[k] == inc[i];
      FindsIt(cur, k);
      SameLine(cur[k], priced[i]);
    }
    KeptComeFrom(cur, inc);
    AddedComeFrom(inc, cur);
    forall k | 0 <= k < |cur| ensures LineQty(inc, cur[k].prod) > 0 {
      assert cur[k] in Kept(cur, inc) + Added(inc, cur);
      assert cur[k] in inc;
      var i :| 0 <= i < |inc| && inc[i] == cur[k];
      LineQtyAt(inc, i);
    }
  }

  /**
   * In every run whose outside prices have two decimals, an edit that can be priced is
   * refused as changing nothing exactly when its rows would be the ones already stored.
   */
  lemma UnchangedIff(opening: Shop, steps: seq<ShopLaws.Step>, s: ShopLaws.Step)
    requires Opening(opening) && (forall n :: 0 <= n < |steps| ==> TwoDecimals(steps[n])) && TwoDecimals(s)
    requires s.EditStep? && s.o < |Run(opening, steps).orders| && WellAsked(s.reqs)
    requires ResolveLines(s.reqs, Run(opening, steps).orders[s.o].lines, s.offers).0 == Done
    ensures var cur := Run(opening, steps).orders[s.o].lines;
            var priced := ResolveLines(s.reqs, cur, s.offers).1;
            SameLines(cur, priced) <==> Saved(cur, ToLines(priced)) == cur
  {
    hide Run, ResolveLine, SameLines, Saved, ToLine, WholeCents, Inv, ExactLines;
    var cur := Run(opening, steps).orders[s.o].lines;
    var priced := ResolveLines(s.reqs, cur, s.offers).1;
    LinesAreExact(opening, steps);
    RunKeeps(opening, steps);
    LinesAreProper(Run(opening, steps), opening.stock.inv, s.o);
    forall i | 0 <= i < |priced| ensures WholeCents(priced[i].price) && ToLines(priced)[i].prod == s.reqs[i].prod
                                         && ToLines(priced)[i].quantity == s.reqs[i].quantity
    {
      ResolvedInCents(s.reqs[i], cur, s.offers);
      ToLineProduct(priced[i]);
    }
    if SameLines(cur, priced) {
      SameMeansKept(cur, priced);
    }
    if Saved(cur, ToLines(priced)) == cur {
      KeptMeansSame(cur, priced);
    }
  }
}
