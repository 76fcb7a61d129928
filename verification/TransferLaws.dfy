/**
 * The operations by hand, over the whole shop: when they go through, what they move,
 * and whose holds a transfer brings home, in which order.
 */
module TransferLaws {
  import opened Wrappers
  import opened Tables
  import opened Allocation
  import opened StockSpec
  import opened StockLaws
  import opened OperationLaws
  import opened Orders
  import opened OrderLaws
  import opened EditLaws
  import opened ShopLaws
  import opened InventoryModule

  // ---------------- What is asked ----------------

  /** The total asked of a product is a sum: over one line its quantity, over two lists the two totals. */
  lemma {:induction false} AskedAdds(a: seq<Item>, b: seq<Item>, p: ProductId)
    ensures Asked(a + b, p) == Asked(a, p) + Asked(b, p)
    ensures forall it: Item :: Asked([it], p) == if it.prod == p then it.quantity else 0
  {
    forall it: Item ensures Asked([it], p) == if it.prod == p then it.quantity else 0 {
      assert [it][..0] == [];
    }
    if b == [] {
      assert a + b == a;
    } else {
      assert (a + b)[..|a + b| - 1] == a + b[..|b| - 1];
      AskedAdds(a, b[..|b| - 1], p);
    }
  }

  /** The product is on one of the lines. */
  predicate Names(op: Operation, p: ProductId) {
    exists i :: 0 <= i < |op.items| && op.items[i].prod == p
  }

  lemma NamedIsMapped(op: Operation, p: ProductId)
    ensures p in ItemMap(op.items).Keys <==> Names(op, p)
  {
  }

  /**
   * An operation goes through exactly when it is well formed (products that exist, and
   * for a transfer another, enabled storage) and what leaves a storage is off hold there.
   */
  lemma ByHandSucceeds(shop: Shop, op: Operation, products: set<ProductId>, active: set<LocationId>)
    requires forall i :: 0 <= i < |op.items| ==> op.items[i].quantity > 0
    ensures Orders.ByHand(shop, op, products, active).1 == Done <==>
            && (forall i :: 0 <= i < |op.items| ==> op.items[i].prod in products)
            && (op.kind == TRANSFER ==>
                  op.target.Some? && op.target.value != op.loc && op.target.value in active)
            && (op.kind != IN ==> forall p :: Names(op, p) ==> Asked(op.items, p) <= FreeAt(shop.stock.inv, p, op.loc))
    ensures Orders.ByHand(shop, op, products, active).1 in {Done, BadRequest}
  {
    hide Asked, Homes, FreeAt, Rehome;
    var inv, items := shop.stock.inv, Merged(op.items);
    var target := op.target.GetOr(op.loc);
    if WellFormed(op, products, active) {
      MergedTotals(op.items, 0);
      forall i | 0 <= i < |items| ensures items[i].quantity > 0 {
        MergedPositive(op.items, i);
      }
      MoveItemsSucceeds(inv, op.kind, op.loc, target, items);
      MergedFits(op, inv);
    }
  }

  lemma MergedFits(op: Operation, inv: Inventory)
    ensures (forall i :: 0 <= i < |Merged(op.items)| ==>
               Merged(op.items)[i].quantity <= FreeAt(inv, Merged(op.items)[i].prod, op.loc))
            <==> forall p :: Names(op, p) ==> Asked(op.items, p) <= FreeAt(inv, p, op.loc)
  {
    hide Asked, FreeAt;
    var ps := ProductsOf(op.items);
    forall p ensures Names(op, p) <==> p in ps {
    }
    forall p | p in ps && forall i :: 0 <= i < |Merged(op.items)| ==>
                 Merged(op.items)[i].quantity <= FreeAt(inv, Merged(op.items)[i].prod, op.loc)
      ensures Asked(op.items, p) <= FreeAt(inv, p, op.loc)
    {
      var i :| 0 <= i < |ps| && ps[i] == p;
      assert Merged(op.items)[i] == Item(p, Asked(op.items, p));
    }
    forall i | 0 <= i < |ps| ensures ps[i] in ps {
    }
  }

  /** Goods move by what the operation says, and its line in the ledger says the same. */
  lemma ByHandMoves(shop: Shop, init: Inventory, op: Operation, products: set<ProductId>, active: set<LocationId>,
                    k: Key)
    requires Inv(shop, init) && Orders.ByHand(shop, op, products, active).1 == Done
    ensures var shop' := Orders.ByHand(shop, op, products, active).0;
            var n, m := Asked(op.items, k.prod), shop'.stock.ledger[|shop'.stock.ledger| - 1];
            && shop' == shop.(stock := shop'.stock)
            && OnHand(shop'.stock.inv, k)
               == OnHand(shop.stock.inv, k)
                  + (if (op.kind == IN && k.loc == op.loc) || (op.kind == TRANSFER && op.target == Some(k.loc))
                     then n else 0)
                  - (if op.kind != IN && k.loc == op.loc then n else 0)
            && |shop'.stock.ledger| == |shop.stock.ledger| + 1
            && shop'.stock.ledger[..|shop.stock.ledger|] == shop.stock.ledger
            && m.kind == op.kind && m.loc == op.loc && m.order == op.order && m.manual
            && m.target == (if op.kind == TRANSFER then op.target else None) && ItemCount(m, k.prod) == n
  {
    hide Operate, Homes, Asked, Coupled, OrdersSound;
    OperateEffect(shop.stock, op, Homes(shop.orders));
    MergedTotals(op.items, k.prod);
  }

  // ---------------- Whose holds come home ----------------

  /** The order is picked up at that counter. */
  predicate PickedUpAt(orders: seq<Order>, o: OrderId, t: LocationId) {
    o < |orders| && orders[o].isPickup && orders[o].pickup == Some(t)
  }

  lemma HomesAre(orders: seq<Order>, o: OrderId, t: LocationId)
    ensures HomeOf(Homes(orders), o, t) <==> PickedUpAt(orders, o, t)
  {
  }

  /** A hold of a named product, for that counter's own pickups, on another shelf. */
  predicate Astray(shop: Shop, op: Operation, t: LocationId, r: Reservation) {
    r.status == Reserved && r.loc != t && Names(op, r.prod) && PickedUpAt(shop.orders, r.order, t)
  }

  /**
   * After a transfer to a counter, the only rows that changed are holds of its products
   * for orders picked up there, whole and only in where they are; and none that is still
   * astray would fit. Nothing else moves a hold.
   */
  lemma TransferBringsHome(shop: Shop, init: Inventory, op: Operation, products: set<ProductId>,
                           active: set<LocationId>)
    requires Inv(shop, init) && Orders.ByHand(shop, op, products, active).1 == Done
    ensures var rs, st' := shop.stock.rs, Orders.ByHand(shop, op, products, active).0.stock;
            && |st'.rs| == |rs|
            && (op.kind != TRANSFER ==> st'.rs == rs)
            && (op.kind == TRANSFER ==>
                  && op.target.Some?
                  && (forall i :: 0 <= i < |rs| && st'.rs[i] != rs[i] ==>
                        Astray(shop, op, op.target.value, rs[i]) && st'.rs[i] == rs[i].(loc := op.target.value))
                  && (forall i :: 0 <= i < |rs| && Astray(shop, op, op.target.value, st'.rs[i]) ==>
                        FreeAt(st'.inv, rs[i].prod, op.target.value) < rs[i].quantity))
  {
    hide Operate, Homes, Asked, Coupled, OrdersSound, FreeAt, PickedUpAt, Names;
    var st' := Orders.ByHand(shop, op, products, active).0.stock;
    var rs := shop.stock.rs;
    OperateEffect(shop.stock, op, Homes(shop.orders));
    if op.kind == TRANSFER {
      var t := op.target.value;
      forall i | 0 <= i < |rs| && st'.rs[i] != rs[i]
        ensures Astray(shop, op, t, rs[i]) && st'.rs[i] == rs[i].(loc := t)
      {
        HomesAre(shop.orders, rs[i].order, t);
        NamedIsMapped(op, rs[i].prod);
      }
      forall i | 0 <= i < |rs| && Astray(shop, op, t, st'.rs[i])
        ensures FreeAt(st'.inv, rs[i].prod, t) < rs[i].quantity
      {
        HomesAre(shop.orders, rs[i].order, t);
        NamedIsMapped(op, rs[i].prod);
        assert Exhausted(st', rs[i].order, |st'.rs|, t, ItemMap(op.items).Keys);
      }
    } else {
      assert st'.rs == rs;
    }
  }

  // ---------------- In which order ----------------

  /** Row `j` of order `oj` comes before row `n` of order `o`: older orders first, then older rows. */
  predicate Sooner(oj: OrderId, j: nat, o: OrderId, n: nat) {
    oj < o || (oj == o && j < n)
  }

  /** Units of a product that changed shelf, of the rows that come before. */
  function MovedBefore(rs: seq<Reservation>, rs': seq<Reservation>, p: ProductId, o: OrderId, n: nat): nat
    requires |rs'| == |rs|
  {
    if rs == [] then 0
    else
      var m := |rs| - 1;
      MovedBefore(rs[..m], rs'[..m], p, o, n)
      + if rs'[m] != rs[m] && rs[m].prod == p && Sooner(rs[m].order, m, o, n) then rs[m].quantity else 0
  }

  /** Only the rows that come before matter. */
  lemma {:induction false} SameBefore(rs: seq<Reservation>, a: seq<Reservation>, b: seq<Reservation>, p: ProductId,
                                      o: OrderId, n: nat, o': OrderId, n': nat)
    requires |a| == |rs| == |b|
    requires forall j :: 0 <= j < |rs| && (a[j] != rs[j] || b[j] != rs[j]) ==>
               (Sooner(rs[j].order, j, o, n) <==> Sooner(rs[j].order, j, o', n'))
    requires forall j :: 0 <= j < |rs| && Sooner(rs[j].order, j, o, n) ==> a[j] == b[j]
    ensures MovedBefore(rs, a, p, o, n) == MovedBefore(rs, b, p, o', n')
  {
    if rs != [] {
      var m := |rs| - 1;
      SameBefore(rs[..m], a[..m], b[..m], p, o, n, o', n');
    }
  }

  /** One row more. */
  lemma {:induction false} OneMoreMoved(rs: seq<Reservation>, a: seq<Reservation>, m: nat, r: Reservation, p: ProductId,
                                        o: OrderId)
    requires |a| == |rs| && m < |rs| && rs[m].order == o && a[m] == rs[m] && r != rs[m]
    ensures MovedBefore(rs, a[m := r], p, o, m + 1)
            == MovedBefore(rs, a, p, o, m) + if rs[m].prod == p then rs[m].quantity else 0
  {
    var k := |rs| - 1;
    var b := a[m := r];
    if m < k {
      OneMoreMoved(rs[..k], a[..k], m, r, p, o);
      assert b[..k] == a[..k][m := r];
    } else {
      assert b[..k] == a[..k];
      SameBefore(rs[..k], a[..k], a[..k], p, o, m, o, m + 1);
    }
  }

  ghost predicate Eligible(r: Reservation, homes: seq<Option<LocationId>>, t: LocationId, prods: set<ProductId>) {
    HomeOf(homes, r.order, t) && Misplaced(r, r.order, t, prods)
  }

  /** Row `i` went home exactly if it fitted in what the rows before it had left. */
  ghost predicate WentIfFitted(st: Stock, st': Stock, t: LocationId, i: nat)
    requires i < |st.rs| == |st'.rs|
  {
    var r := st.rs[i];
    st'.rs[i] != r <==> r.quantity <= FreeAt(st.inv, r.prod, t) - MovedBefore(st.rs, st'.rs, r.prod, r.order, i)
  }

  /** The rows that come before row `n` of order `o` have been seen to, the others not. */
  ghost predicate SeenTo(st: Stock, st': Stock, homes: seq<Option<LocationId>>, t: LocationId, prods: set<ProductId>,
                         o: OrderId, n: nat) {
    && |st'.rs| == |st.rs|
    && (forall p :: FreeAt(st'.inv, p, t) == FreeAt(st.inv, p, t) - MovedBefore(st.rs, st'.rs, p, o, n))
    && (forall i :: 0 <= i < |st.rs| && st'.rs[i] != st.rs[i] ==>
          && Eligible(st.rs[i], homes, t, prods) && Sooner(st.rs[i].order, i, o, n)
          && st'.rs[i] == st.rs[i].(loc := t))
    && (forall i :: 0 <= i < |st.rs| && Eligible(st.rs[i], homes, t, prods) && Sooner(st.rs[i].order, i, o, n) ==>
          WentIfFitted(st, st', t, i))
  }

  /** Moving on to a place before which nothing else was to be seen to. */
  lemma SeenToMovesOn(st: Stock, st': Stock, homes: seq<Option<LocationId>>, t: LocationId, prods: set<ProductId>,
                      o: OrderId, n: nat, o': OrderId, n': nat)
    requires SeenTo(st, st', homes, t, prods, o, n)
    requires forall i :: 0 <= i < |st.rs| && Eligible(st.rs[i], homes, t, prods) ==>
               (Sooner(st.rs[i].order, i, o, n) <==> Sooner(st.rs[i].order, i, o', n'))
    ensures SeenTo(st, st', homes, t, prods, o', n')
  {
    hide FreeAt, Eligible, WentIfFitted;
    forall p ensures MovedBefore(st.rs, st'.rs, p, o, n) == MovedBefore(st.rs, st'.rs, p, o', n') {
      SameBefore(st.rs, st'.rs, st'.rs, p, o, n, o', n');
    }
  }

  lemma LengthKept(st: Stock, st': Stock, homes: seq<Option<LocationId>>, t: LocationId, prods: set<ProductId>,
                   o: OrderId, n: nat)
    requires SeenTo(st, st', homes, t, prods, o, n)
    ensures |st'.rs| == |st.rs|
  {
  }

  /** What a hold that moves takes off its new shelf. */
  lemma OneMoves(st: Stock, m: nat, t: LocationId, p: ProductId)
    requires RowsSound(st) && HoldsAgree(st) && m < |st.rs| && st.rs[m].status.Reserved? && st.rs[m].loc != t
    ensures var st', r := RehomeOne(st, m, t), st.rs[m];
            && |st'.rs| == |st.rs|
            && (st'.rs[m] != r <==> r.quantity <= FreeAt(st.inv, r.prod, t))
            && (st'.rs[m] != r ==> st'.rs == st.rs[m := r.(loc := t)])
            && (st'.rs[m] == r ==> st' == st)
            && FreeAt(st'.inv, p, t)
               == FreeAt(st.inv, p, t) - if st'.rs[m] != r && p == r.prod then r.quantity else 0
  {
  }

  lemma SeeToOne(st: Stock, st1: Stock, homes: seq<Option<LocationId>>, t: LocationId, prods: set<ProductId>,
                 o: OrderId, m: nat)
    requires RowsSound(st1) && HoldsAgree(st1) && m < |st.rs| && SeenTo(st, st1, homes, t, prods, o, m)
    requires Eligible(st.rs[m], homes, t, prods) && st.rs[m].order == o
    ensures SeenTo(st, RehomeOne(st1, m, t), homes, t, prods, o, m + 1)
  {
    hide FreeAt, RehomeOne, HomeOf, RowsSound, HoldsAgree, MovedBefore;
    var st2 := RehomeOne(st1, m, t);
    var r := st.rs[m];
    assert st1.rs[m] == r;
    OneMoves(st1, m, t, r.prod);
    forall p
      ensures FreeAt(st2.inv, p, t) == FreeAt(st.inv, p, t) - MovedBefore(st.rs, st2.rs, p, o, m + 1)
    {
      OneMoves(st1, m, t, p);
      if st2.rs[m] != r {
        OneMoreMoved(st.rs, st1.rs, m, r.(loc := t), p, o);
      } else {
        SameBefore(st.rs, st1.rs, st1.rs, p, o, m, o, m + 1);
      }
    }
    forall i | 0 <= i < |st.rs| && Eligible(st.rs[i], homes, t, prods) && Sooner(st.rs[i].order, i, o, m + 1)
      ensures WentIfFitted(st, st2, t, i)
    {
      SameBefore(st.rs, st1.rs, st2.rs, st.rs[i].prod, st.rs[i].order, i, st.rs[i].order, i);
      if i != m {
        assert WentIfFitted(st, st1, t, i);
      }
    }
  }

  /** Row `m`, if it is the order's own, has not been seen to yet. */
  lemma RowOfOrder(st: Stock, st1: Stock, homes: seq<Option<LocationId>>, t: LocationId, prods: set<ProductId>,
                   o: OrderId, m: nat)
    requires SeenTo(st, st1, homes, t, prods, o, m) && m < |st.rs| && HomeOf(homes, o, t)
    ensures st1.rs[m].order == o <==> st.rs[m].order == o
    ensures st.rs[m].order == o ==> st1.rs[m] == st.rs[m]
    ensures Misplaced(st1.rs[m], o, t, prods) <==> Eligible(st.rs[m], homes, t, prods) && st.rs[m].order == o
  {
    hide FreeAt, MovedBefore, WentIfFitted;
  }

  lemma {:induction false} RowsSeenTo(st: Stock, st1: Stock, homes: seq<Option<LocationId>>, t: LocationId,
                                      prods: set<ProductId>, o: OrderId, n: nat)
    requires RowsSound(st1) && HoldsAgree(st1) && SeenTo(st, st1, homes, t, prods, o, 0)
    requires HomeOf(homes, o, t) && n <= |st1.rs|
    ensures var st' := RehomeRows(st1, o, n, t, prods);
            RowsSound(st') && HoldsAgree(st') && SeenTo(st, st', homes, t, prods, o, n)
  {
    hide RehomeOne, RowsSound, HoldsAgree, SeenTo, Eligible, Misplaced, Exhausted, Rehomed;
    if n > 0 {
      var m := n - 1;
      var st2 := RehomeRows(st1, o, m, t, prods);
      RowsSeenTo(st, st1, homes, t, prods, o, m);
      LengthKept(st, st1, homes, t, prods, o, 0);
      LengthKept(st, st2, homes, t, prods, o, m);
      RehomeRowsKeeps(st1, homes, o, n, t, prods);
      RowOfOrder(st, st2, homes, t, prods, o, m);
      if Misplaced(st2.rs[m], o, t, prods) {
        SeeToOne(st, st2, homes, t, prods, o, m);
      } else {
        SeenToMovesOn(st, st2, homes, t, prods, o, m, o, n);
      }
    }
  }

  lemma {:induction false} OrdersSeenTo(st: Stock, homes: seq<Option<LocationId>>, m: nat, t: LocationId,
                                        prods: set<ProductId>)
    requires RowsSound(st) && HoldsAgree(st) && m <= |homes|
    ensures var st' := Rehome(st, homes[..m], t, prods);
            RowsSound(st') && HoldsAgree(st') && SeenTo(st, st', homes, t, prods, m, 0)
  {
    hide RehomeRows, RowsSound, HoldsAgree, FreeAt, MovedBefore;
    if m == 0 {
      assert homes[..0] == [];
      NothingSeenTo(st, homes, t, prods);
    } else {
      var o := m - 1;
      assert homes[..m][..o] == homes[..o];
      OrdersSeenTo(st, homes, o, t, prods);
      var st1 := Rehome(st, homes[..o], t, prods);
      if homes[o] == Some(t) {
        RowsSeenTo(st, st1, homes, t, prods, o, |st1.rs|);
        SeenToMovesOn(st, RehomeRows(st1, o, |st1.rs|, t, prods), homes, t, prods, o, |st1.rs|, m, 0);
      } else {
        SeenToMovesOn(st, st1, homes, t, prods, o, 0, m, 0);
      }
    }
  }

  lemma NothingSeenTo(st: Stock, homes: seq<Option<LocationId>>, t: LocationId, prods: set<ProductId>)
    ensures SeenTo(st, st, homes, t, prods, 0, 0)
  {
    forall p ensures MovedBefore(st.rs, st.rs, p, 0, 0) == 0 {
      NoneMoved(st.rs, p, 0, 0);
    }
  }

  lemma {:induction false} NoneMoved(rs: seq<Reservation>, p: ProductId, o: OrderId, n: nat)
    ensures MovedBefore(rs, rs, p, o, n) == 0
  {
    if rs != [] {
      NoneMoved(rs[..|rs| - 1], p, o, n);
    }
  }

  /**
   * The holds astray come home oldest order first, and within an order oldest hold
   * first: each one exactly if it fits in what was free at the counter, with what the
   * transfer brought, less what the ones before it took.
   */
  lemma OldestComeHomeFirst(shop: Shop, init: Inventory, op: Operation, products: set<ProductId>,
                            active: set<LocationId>, i: nat)
    requires Inv(shop, init) && Orders.ByHand(shop, op, products, active).1 == Done && op.kind == TRANSFER
    requires i < |shop.stock.rs| && op.target.Some? && Astray(shop, op, op.target.value, shop.stock.rs[i])
    ensures var st, st', r, t := shop.stock, Orders.ByHand(shop, op, products, active).0.stock,
            shop.stock.rs[i], op.target.value;
            && |st'.rs| == |st.rs|
            && (st'.rs[i].loc == t <==>
                r.quantity <= FreeAt(st.inv, r.prod, t) + Asked(op.items, r.prod)
                              - MovedBefore(st.rs, st'.rs, r.prod, r.order, i))
  {
    hide Homes, Asked, Coupled, OrdersSound, FreeAt, MoveItems, Rehome, MovedBefore, RowsSound, HoldsAgree;
    var st, st', r, t := shop.stock, Orders.ByHand(shop, op, products, active).0.stock,
      shop.stock.rs[i], op.target.value;
    var homes, prods := Homes(shop.orders), ItemMap(op.items).Keys;
    TransferBringsHome(shop, init, op, products, active);
    ValidSound(st, init);
    AfterMoveKeeps(st, op);
    var st1 := AfterMove(st, op).value;
    assert homes[..|homes|] == homes;
    OrdersSeenTo(st1, homes, |homes|, t, prods);
    assert st'.rs == Rehome(st1, homes, t, prods).rs;
    HomesAre(shop.orders, r.order, t);
    NamedIsMapped(op, r.prod);
    ArrivesFree(st, op, r.prod);
    assert Eligible(st1.rs[i], homes, t, prods) && Sooner(r.order, i, |homes|, 0);
    assert WentIfFitted(st1, Rehome(st1, homes, t, prods), t, i);
  }

  /** What a transfer brings arrives free. */
  lemma ArrivesFree(st: Stock, op: Operation, p: ProductId)
    requires RowsSound(st) && HoldsAgree(st) && OperationLaws.Proper(op) && op.kind == TRANSFER
             && AfterMove(st, op).Some?
    ensures FreeAt(AfterMove(st, op).value.inv, p, op.target.value)
            == FreeAt(st.inv, p, op.target.value) + Asked(op.items, p)
  {
    hide Asked;
    var loc, target := op.loc, op.target.value;
    MoveItemsEffect(st.inv, op.kind, loc, target, Merged(op.items));
    MergedTotals(op.items, p);
    assert OnHand(AfterMove(st, op).value.inv, Key(target, p)) == OnHand(st.inv, Key(target, p)) + Asked(op.items, p);
  }
}
