/**
 * The shop's stock in closed form: whatever path of calls led to a state, the
 * physical and the held units of a product follow from the opening stock, what
 * was entered and taken out by hand, and the lines of the orders as they stand.
 */
module Conservation {
  import opened Wrappers
  import opened Tables
  import opened Allocation
  import opened StockSpec
  import opened StockLaws
  import opened Orders
  import opened OrderLaws
  import opened ShopLaws

  // ---------------- Sums over a list of storages or of orders ----------------

  function SumOver(xs: seq<nat>, f: nat -> int): int {
    if xs == [] then 0 else SumOver(xs[..|xs| - 1], f) + f(xs[|xs| - 1])
  }

  lemma {:induction false} SumOverAdds(xs: seq<nat>, f: nat -> int, g: nat -> int, h: nat -> int)
    requires forall x :: x in xs ==> h(x) == f(x) + g(x)
    ensures SumOver(xs, h) == SumOver(xs, f) + SumOver(xs, g)
  {
    if xs != [] {
      assert xs == xs[..|xs| - 1] + [xs[|xs| - 1]];
      SumOverAdds(xs[..|xs| - 1], f, g, h);
    }
  }

  lemma {:induction false} SumOverSame(xs: seq<nat>, f: nat -> int, g: nat -> int)
    requires forall x :: x in xs ==> f(x) == g(x)
    ensures SumOver(xs, f) == SumOver(xs, g)
  {
    if xs != [] {
      assert xs == xs[..|xs| - 1] + [xs[|xs| - 1]];
      SumOverSame(xs[..|xs| - 1], f, g);
    }
  }

  /** A function that is `n` at one element and nothing at the others. */
  lemma {:induction false} SumOverOne(xs: seq<nat>, f: nat -> int, y: nat, n: int)
    requires NoRepeats(xs) && forall x :: x in xs ==> f(x) == if x == y then n else 0
    ensures SumOver(xs, f) == if y in xs then n else 0
  {
    if xs != [] {
      assert xs == xs[..|xs| - 1] + [xs[|xs| - 1]];
      SumOverOne(xs[..|xs| - 1], f, y, n);
    }
  }

  /** Splitting a query by storage or by order, over a list that names every one it meets. */
  lemma {:induction false} TotalSplits(rs: seq<Reservation>, xs: seq<nat>, whole: Pick, part: nat -> Pick,
                                       tag: Reservation -> nat)
    requires NoRepeats(xs)
    requires forall x, r: Reservation :: Fits(r, part(x)) <==> Fits(r, whole) && tag(r) == x
    requires forall i :: 0 <= i < |rs| && Fits(rs[i], whole) ==> tag(rs[i]) in xs
    ensures SumOver(xs, (x: nat) => Total(rs, part(x))) == Total(rs, whole)
  {
    if rs == [] {
      SumOverOne(xs, (x: nat) => Total(rs, part(x)), 0, 0);
    } else {
      var n := |rs| - 1;
      TotalSplits(rs[..n], xs, whole, part, tag);
      SumOverOne(xs, (x: nat) => Weight(rs[n], part(x)), tag(rs[n]), Weight(rs[n], whole));
      SumOverAdds(xs, (x: nat) => Total(rs[..n], part(x)), (x: nat) => Weight(rs[n], part(x)),
                  (x: nat) => Total(rs, part(x)));
    }
  }

  // ---------------- The ledger of operations by hand ----------------

  /** Entered minus taken out by hand; a transfer changes no total. */
  function ByHandNet(ledger: seq<Movement>, p: ProductId): int {
    if ledger == [] then 0
    else
      var m := ledger[|ledger| - 1];
      ByHandNet(ledger[..|ledger| - 1], p) +
      if !m.manual || m.kind.TRANSFER? then 0 else if m.kind.IN? then ItemCount(m, p) else -ItemCount(m, p)
  }

  /** A list of all the storages there are. */
  ghost predicate AllStorages(ls: seq<LocationId>, st: Stock) {
    && NoRepeats(ls)
    && (forall k :: k in st.inv ==> k.loc in ls)
    && (forall i :: 0 <= i < |st.ledger| ==>
          st.ledger[i].loc in ls && (st.ledger[i].target.Some? ==> st.ledger[i].target.value in ls))
  }

  lemma FlowOverStorages(m: Movement, p: ProductId, ls: seq<LocationId>)
    requires NoRepeats(ls) && m.loc in ls && (m.target.Some? ==> m.target.value in ls)
             && (m.kind.TRANSFER? ==> m.target.Some?)
    ensures SumOver(ls, (l: nat) => Flow(m, Key(l, p)))
            == if m.kind.TRANSFER? then 0 else if m.kind.IN? then ItemCount(m, p) else -ItemCount(m, p)
  {
    var n := ItemCount(m, p);
    var flow := (l: nat) => Flow(m, Key(l, p));
    var gone := (l: nat) => if l == m.loc then -n else 0;
    if m.kind.TRANSFER? {
      var come := (l: nat) => if l == m.target.value then n else 0;
      SumOverOne(ls, gone, m.loc, -n);
      SumOverOne(ls, come, m.target.value, n);
      SumOverAdds(ls, gone, come, flow);
    } else {
      SumOverOne(ls, flow, m.loc, if m.kind.IN? then n else -n);
    }
  }

  lemma {:induction false} ByHandOverStorages(ledger: seq<Movement>, p: ProductId, ls: seq<LocationId>)
    requires NoRepeats(ls)
    requires forall i :: 0 <= i < |ledger| ==>
               ledger[i].loc in ls && (ledger[i].target.Some? ==> ledger[i].target.value in ls)
               && (ledger[i].kind.TRANSFER? ==> ledger[i].target.Some?)
    ensures SumOver(ls, (l: nat) => Net(ledger, Reading.ByHand, Key(l, p))) == ByHandNet(ledger, p)
  {
    var net := (l: nat) => Net(ledger, Reading.ByHand, Key(l, p));
    if ledger == [] {
      SumOverOne(ls, net, 0, 0);
    } else {
      hide Flow, ItemCount;
      var n := |ledger| - 1;
      var m := ledger[n];
      ByHandOverStorages(ledger[..n], p, ls);
      FlowOverStorages(m, p, ls);
      var before := (l: nat) => Net(ledger[..n], Reading.ByHand, Key(l, p));
      if m.manual {
        SumOverAdds(ls, before, (l: nat) => Flow(m, Key(l, p)), net);
      } else {
        SumOverSame(ls, before, net);
      }
    }
  }

  // ---------------- By storage and by order ----------------

  function OfProductIn(p: ProductId, s: ReservationStatus): Pick {
    Pick(None, None, Some(p), Some(s))
  }

  lemma ByStorage(st: Stock, p: ProductId, s: ReservationStatus, ls: seq<LocationId>)
    requires RowsSound(st) && AllStorages(ls, st) && (s.Reserved? || s.Confirmed?)
    ensures SumOver(ls, (l: nat) => Total(st.rs, Pick(None, Some(l), Some(p), Some(s))))
            == Total(st.rs, OfProductIn(p, s))
  {
    var part := (l: nat) => Pick(None, Some(l), Some(p), Some(s));
    TotalSplits(st.rs, ls, OfProductIn(p, s), part, (r: Reservation) => r.loc);
    SumOverSame(ls, (l: nat) => Total(st.rs, part(l)), (l: nat) => Total(st.rs, Pick(None, Some(l), Some(p), Some(s))));
  }

  function Ids(n: nat): (ids: seq<nat>)
    ensures |ids| == n && forall i :: 0 <= i < n ==> ids[i] == i
  {
    seq(n, i requires 0 <= i < n => i)
  }

  /** What the orders in a phase have of a product, by their lines. */
  function LinesOf(orders: seq<Order>, p: ProductId, phase: Phase): int {
    SumOver(Ids(|orders|), (o: nat) => Due(orders, o, p, phase))
  }

  lemma ByOrder(st: Stock, orders: seq<Order>, p: ProductId, s: ReservationStatus)
    requires RowsSound(st) && Coupled(st, orders) && (s.Reserved? || s.Confirmed?)
    ensures Total(st.rs, OfProductIn(p, s)) == LinesOf(orders, p, if s.Reserved? then Held else Committed)
  {
    var ids := Ids(|orders|);
    var part := (o: nat) => OfLine(o, p, s);
    forall i | 0 <= i < |st.rs| && Fits(st.rs[i], OfProductIn(p, s)) ensures st.rs[i].order in ids {
      var o := st.rs[i].order;
      TotalAtLeast(st.rs, i, OfLine(o, p, s));
      assert Live(st, o, p, s) > 0;
      assert ids[o] == o;
    }
    TotalSplits(st.rs, ids, OfProductIn(p, s), part, (r: Reservation) => r.order);
    var phase := if s.Reserved? then Held else Committed;
    forall o | o in ids ensures Total(st.rs, part(o)) == Due(orders, o, p, phase) {
      assert Live(st, o, p, s) == Due(orders, o, p, phase);
    }
    SumOverSame(ids, (o: nat) => Total(st.rs, part(o)), (o: nat) => Due(orders, o, p, phase));
  }

  // ---------------- The closed form ----------------

  function OnShelves(inv: Inventory, p: ProductId, ls: seq<LocationId>): int {
    SumOver(ls, (l: nat) => OnHand(inv, Key(l, p)))
  }

  function HeldUnits(inv: Inventory, k: Key): int {
    if k in inv then inv[k].reserved else 0
  }

  lemma ShelvesInClosedForm(shop: Shop, init: Inventory, p: ProductId, ls: seq<LocationId>)
    requires Inv(shop, init) && AllStorages(ls, shop.stock)
    ensures OnShelves(shop.stock.inv, p, ls)
            == OnShelves(init, p, ls) + ByHandNet(shop.stock.ledger, p) - LinesOf(shop.orders, p, Committed)
  {
    hide Live, Due, SumOver, OrdersSound, Total, Net, ByHandNet;
    var st := shop.stock;
    var shelf := (l: nat) => OnHand(st.inv, Key(l, p));
    var opening := (l: nat) => OnHand(init, Key(l, p));
    var hand := (l: nat) => Net(st.ledger, Reading.ByHand, Key(l, p));
    var taken: nat -> int := (l: nat) => Total(st.rs, Pick(None, Some(l), Some(p), Some(Confirmed)));
    var goods := (l: nat) => Goods(st, Key(l, p));
    forall l: nat ensures goods(l) == shelf(l) + taken(l) && goods(l) == opening(l) + hand(l) {
      assert Goods(st, Key(l, p)) == OnHand(init, Key(l, p)) + Net(st.ledger, Reading.ByHand, Key(l, p));
    }
    SumOverAdds(ls, shelf, taken, goods);
    SumOverAdds(ls, opening, hand, goods);
    ByHandOverStorages(st.ledger, p, ls);
    ByStorage(st, p, Confirmed, ls);
    SumOverSame(ls, taken, (l: nat) => Total(st.rs, Pick(None, Some(l), Some(p), Some(Confirmed))));
    ByOrder(st, shop.orders, p, Confirmed);
  }

  lemma HoldsInClosedForm(shop: Shop, init: Inventory, p: ProductId, ls: seq<LocationId>)
    requires Inv(shop, init) && AllStorages(ls, shop.stock)
    ensures SumOver(ls, (l: nat) => HeldUnits(shop.stock.inv, Key(l, p))) == LinesOf(shop.orders, p, Held)
  {
    hide Live, Due, SumOver, OrdersSound, Total;
    var st := shop.stock;
    forall l | l in ls ensures HeldUnits(st.inv, Key(l, p))
      == Total(st.rs, Pick(None, Some(l), Some(p), Some(Reserved))) {
      if Key(l, p) !in st.inv {
        TotalZero(st.rs, HeldAt(Key(l, p)));
      }
    }
    SumOverSame(ls, (l: nat) => HeldUnits(st.inv, Key(l, p)),
                (l: nat) => Total(st.rs, Pick(None, Some(l), Some(p), Some(Reserved))));
    ByStorage(st, p, Reserved, ls);
    ByOrder(st, shop.orders, p, Reserved);
  }

  /**
   * Over whole runs: the physical stock of a product is the opening stock, plus
   * entries, minus exits by hand, minus the lines of the committed orders, and the
   * held stock is the lines of the pending ones. The path does not matter.
   */
  lemma StockInClosedForm(shop: Shop, steps: seq<ShopLaws.Step>, p: ProductId, ls: seq<LocationId>)
    requires Opening(shop) && AllStorages(ls, Run(shop, steps).stock)
    ensures var shop' := Run(shop, steps);
            && OnShelves(shop'.stock.inv, p, ls)
               == OnShelves(shop.stock.inv, p, ls) + ByHandNet(shop'.stock.ledger, p)
                  - LinesOf(shop'.orders, p, Committed)
            && SumOver(ls, (l: nat) => HeldUnits(shop'.stock.inv, Key(l, p))) == LinesOf(shop'.orders, p, Held)
  {
    RunKeeps(shop, steps);
    ShelvesInClosedForm(Run(shop, steps), shop.stock.inv, p, ls);
    HoldsInClosedForm(Run(shop, steps), shop.stock.inv, p, ls);
  }
}
