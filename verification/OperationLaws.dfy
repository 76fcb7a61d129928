/**
 * Laws of the operations made by hand (entries, exits, transfers) and of the
 * re-homing that follows a transfer.
 */
module OperationLaws {
  import opened Wrappers
  import opened Tables
  import opened Allocation
  import opened StockSpec
  import opened StockLaws

  // ---------------- Merging the item lines ----------------

  lemma {:induction false} AskedOfTotals(ps: seq<ProductId>, totals: seq<Item>, items: seq<Item>, p: ProductId)
    requires |totals| == |ps| && NoRepeats(ps)
    requires forall i :: 0 <= i < |ps| ==> totals[i] == Item(ps[i], Asked(items, ps[i]))
    ensures Asked(totals, p) == if p in ps then Asked(items, p) else 0
  {
    if ps != [] {
      var n := |ps| - 1;
      assert ps == ps[..n] + [ps[n]];
      AskedOfTotals(ps[..n], totals[..n], items, p);
    }
  }

  lemma {:induction false} NotAsked(items: seq<Item>, p: ProductId)
    requires forall i :: 0 <= i < |items| ==> items[i].prod != p
    ensures Asked(items, p) == 0
  {
    if items != [] {
      NotAsked(items[..|items| - 1], p);
    }
  }

  /** Merging the lines loses and invents nothing, and leaves each product once. */
  lemma MergedTotals(items: seq<Item>, p: ProductId)
    ensures Asked(Merged(items), p) == Asked(items, p)
    ensures Asked(items, p) == if p in ItemMap(items) then ItemMap(items)[p] else 0
    ensures forall i, j :: 0 <= i < j < |Merged(items)| ==> Merged(items)[i].prod != Merged(items)[j].prod
  {
    AskedOfTotals(ProductsOf(items), Merged(items), items, p);
    if p !in ProductsOf(items) {
      NotAsked(items, p);
    }
  }

  // ---------------- Entries, exits and transfers ----------------

  function ItemFlow(kind: OperationType, loc: LocationId, target: LocationId, n: int, k: Key): int {
    match kind
    case IN => if k.loc == loc then n else 0
    case OUT => if k.loc == loc then -n else 0
    case TRANSFER => (if k.loc == target then n else 0) - (if k.loc == loc then n else 0)
  }

  /** `inv'` is `inv` with free stock moved by the given amount per product: no hold changes. */
  ghost predicate FreeStockMoved(inv: Inventory, inv': Inventory, kind: OperationType, loc: LocationId,
                                 target: LocationId, items: seq<Item>) {
    && inv.Keys <= inv'.Keys
    && NothingOversold(inv')
    && (forall k :: k in inv' ==> inv'[k].reserved == if k in inv then inv[k].reserved else 0)
    && (forall k :: OnHand(inv', k) == OnHand(inv, k) + ItemFlow(kind, loc, target, Asked(items, k.prod), k))
  }

  lemma MoveItemEffect(inv: Inventory, kind: OperationType, loc: LocationId, target: LocationId, it: Item)
    requires NothingOversold(inv) && (kind.TRANSFER? ==> loc != target)
    requires MoveItem(inv, kind, loc, target, it).Some?
    ensures FreeStockMoved(inv, MoveItem(inv, kind, loc, target, it).value, kind, loc, target, [it])
  {
    assert forall p :: Asked([it], p) == if p == it.prod then it.quantity else 0 by {
      assert [it][..0] == [];
    }
  }

  lemma AskedSnoc(items: seq<Item>, p: ProductId)
    requires items != []
    ensures var n := |items| - 1; Asked(items, p) == Asked(items[..n], p) + Asked([items[n]], p)
  {
    assert [items[|items| - 1]][..0] == [];
  }

  lemma FreeStockMovedTwice(inv: Inventory, inv1: Inventory, inv2: Inventory, kind: OperationType,
                            loc: LocationId, target: LocationId, items: seq<Item>)
    requires items != []
    requires FreeStockMoved(inv, inv1, kind, loc, target, items[..|items| - 1])
    requires FreeStockMoved(inv1, inv2, kind, loc, target, [items[|items| - 1]])
    ensures FreeStockMoved(inv, inv2, kind, loc, target, items)
  {
    hide Asked;
    var n := |items| - 1;
    forall k: Key ensures OnHand(inv2, k) == OnHand(inv, k) + ItemFlow(kind, loc, target, Asked(items, k.prod), k) {
      AskedSnoc(items, k.prod);
      assert OnHand(inv1, k) == OnHand(inv, k) + ItemFlow(kind, loc, target, Asked(items[..n], k.prod), k);
    }
  }

  /** An operation by hand moves free stock and leaves every hold alone. */
  lemma {:induction false} MoveItemsEffect(inv: Inventory, kind: OperationType, loc: LocationId, target: LocationId,
                                           items: seq<Item>)
    requires NothingOversold(inv) && (kind.TRANSFER? ==> loc != target)
    requires MoveItems(inv, kind, loc, target, items).Some?
    ensures FreeStockMoved(inv, MoveItems(inv, kind, loc, target, items).value, kind, loc, target, items)
  {
    if items != [] {
      var n := |items| - 1;
      MoveItemsEffect(inv, kind, loc, target, items[..n]);
      var inv1 := MoveItems(inv, kind, loc, target, items[..n]).value;
      MoveItemEffect(inv1, kind, loc, target, items[n]);
      FreeStockMovedTwice(inv, inv1, MoveItem(inv1, kind, loc, target, items[n]).value, kind, loc, target, items);
    }
  }

  /** Exits and transfers go through exactly when every product has that much free where it leaves from. */
  lemma {:induction false} MoveItemsSucceeds(inv: Inventory, kind: OperationType, loc: LocationId, target: LocationId,
                                             items: seq<Item>)
    requires kind.TRANSFER? ==> loc != target
    requires forall i, j :: 0 <= i < j < |items| ==> items[i].prod != items[j].prod
    requires forall i :: 0 <= i < |items| ==> items[i].quantity > 0
    ensures MoveItems(inv, kind, loc, target, items).Some? <==>
            kind.IN? || forall i :: 0 <= i < |items| ==> items[i].quantity <= FreeAt(inv, items[i].prod, loc)
    ensures MoveItems(inv, kind, loc, target, items).Some? ==>
            forall p :: (forall i :: 0 <= i < |items| ==> items[i].prod != p) ==>
              FreeAt(MoveItems(inv, kind, loc, target, items).value, p, loc) == FreeAt(inv, p, loc)
  {
    if items != [] {
      var n := |items| - 1;
      MoveItemsSucceeds(inv, kind, loc, target, items[..n]);
      var earlier := MoveItems(inv, kind, loc, target, items[..n]);
      if earlier.Some? {
        assert FreeAt(earlier.value, items[n].prod, loc) == FreeAt(inv, items[n].prod, loc);
      }
    }
  }

  // ---------------- Re-homing ----------------

  ghost predicate HomeOf(homes: seq<Option<LocationId>>, o: OrderId, target: LocationId) {
    o < |homes| && homes[o] == Some(target)
  }

  /** Holds moved whole, from wherever they were to their own counter, and nothing else changed. */
  ghost predicate Rehomed(st: Stock, st': Stock, homes: seq<Option<LocationId>>, target: LocationId,
                          prods: set<ProductId>) {
    && st'.ledger == st.ledger
    && st'.inv.Keys == st.inv.Keys
    && (forall k :: k in st.inv ==> st'.inv[k].quantity == st.inv[k].quantity)
    && (forall p :: FreeAt(st'.inv, p, target) <= FreeAt(st.inv, p, target))
    && |st'.rs| == |st.rs|
    && (forall i :: 0 <= i < |st.rs| ==>
          st'.rs[i] == st.rs[i]
          || (Misplaced(st.rs[i], st.rs[i].order, target, prods) && HomeOf(homes, st.rs[i].order, target)
              && st'.rs[i] == st.rs[i].(loc := target)))
  }

  /** A hold the counter's shelf has no room for. */
  ghost predicate NoRoom(st: Stock, r: Reservation, target: LocationId) {
    FreeAt(st.inv, r.prod, target) < r.quantity
  }

  /** No misplaced hold of order `o` below row `n` would fit on the counter's shelf. */
  ghost predicate Exhausted(st: Stock, o: OrderId, n: nat, target: LocationId, prods: set<ProductId>)
    requires n <= |st.rs|
  {
    forall i :: 0 <= i < n ==> Misplaced(st.rs[i], o, target, prods) ==> NoRoom(st, st.rs[i], target)
  }

  lemma HoldMovesWhole(st: Stock, i: nat, target: LocationId, k: Key)
    requires RowsSound(st) && HoldsAgree(st)
    requires i < |st.rs| && st.rs[i].status.Reserved? && st.rs[i].loc != target
    requires k in st.inv
    ensures var st' := RehomeOne(st, i, target);
            st'.inv.Keys == st.inv.Keys && st'.inv[k].quantity == st.inv[k].quantity
            && st'.inv[k].reserved == Total(st'.rs, HeldAt(k)) && st'.inv[k].reserved <= st'.inv[k].quantity
  {
    var r := st.rs[i];
    TotalUpdate(st.rs, i, r.(loc := target), HeldAt(k));
    TotalAtLeast(st.rs, i, HeldAt(r.At()));
  }

  lemma RehomeOneKeeps(st: Stock, i: nat, homes: seq<Option<LocationId>>, target: LocationId, prods: set<ProductId>)
    requires RowsSound(st) && HoldsAgree(st) && i < |st.rs|
    requires Misplaced(st.rs[i], st.rs[i].order, target, prods) && HomeOf(homes, st.rs[i].order, target)
    ensures var st' := RehomeOne(st, i, target);
            && RowsSound(st') && HoldsAgree(st') && Rehomed(st, st', homes, target, prods)
            && (st'.rs[i].loc == target || NoRoom(st', st'.rs[i], target))
  {
    var st' := RehomeOne(st, i, target);
    if st' != st {
      forall k | k in st.inv
        ensures st'.inv[k].quantity == st.inv[k].quantity
                && st'.inv[k].reserved == Total(st'.rs, HeldAt(k)) && st'.inv[k].reserved <= st'.inv[k].quantity
      {
        HoldMovesWhole(st, i, target, k);
      }
      assert st'.inv.Keys == st.inv.Keys;
    }
  }

  /** Under the invariant a held row has its inventory row and that row covers it: the clamp at zero never acts. */
  lemma RehomeClampIdle(st: Stock, i: nat)
    requires RowsSound(st) && HoldsAgree(st) && i < |st.rs| && st.rs[i].status.Reserved?
    ensures st.rs[i].At() in st.inv && st.inv[st.rs[i].At()].reserved >= st.rs[i].quantity
  {
    TotalAtLeast(st.rs, i, HeldAt(st.rs[i].At()));
  }

  lemma RehomedTransitive(st: Stock, st1: Stock, st2: Stock, homes: seq<Option<LocationId>>,
                          target: LocationId, prods: set<ProductId>)
    requires Rehomed(st, st1, homes, target, prods) && Rehomed(st1, st2, homes, target, prods)
    ensures Rehomed(st, st2, homes, target, prods)
  {
    forall p ensures FreeAt(st2.inv, p, target) <= FreeAt(st.inv, p, target) {
      assert FreeAt(st1.inv, p, target) <= FreeAt(st.inv, p, target);
    }
  }

  lemma ExhaustedStays(st: Stock, st': Stock, homes: seq<Option<LocationId>>, o: OrderId, n: nat,
                       target: LocationId, prods: set<ProductId>)
    requires Rehomed(st, st', homes, target, prods)
    requires n <= |st.rs| && Exhausted(st, o, n, target, prods)
    ensures Exhausted(st', o, n, target, prods)
  {
  }

  lemma RehomeStep(st: Stock, homes: seq<Option<LocationId>>, o: OrderId, m: nat, target: LocationId,
                   prods: set<ProductId>)
    requires RowsSound(st) && HoldsAgree(st) && m < |st.rs| && HomeOf(homes, o, target)
    requires Exhausted(st, o, m, target, prods)
    ensures var st' := if Misplaced(st.rs[m], o, target, prods) then RehomeOne(st, m, target) else st;
            && RowsSound(st') && HoldsAgree(st') && Rehomed(st, st', homes, target, prods)
            && Exhausted(st', o, m + 1, target, prods)
  {
    if Misplaced(st.rs[m], o, target, prods) {
      RehomeOneKeeps(st, m, homes, target, prods);
      ExhaustedStays(st, RehomeOne(st, m, target), homes, o, m, target, prods);
    }
  }

  lemma {:induction false} RehomeRowsKeeps(st: Stock, homes: seq<Option<LocationId>>, o: OrderId, n: nat,
                                           target: LocationId, prods: set<ProductId>)
    requires RowsSound(st) && HoldsAgree(st) && n <= |st.rs| && HomeOf(homes, o, target)
    ensures var st' := RehomeRows(st, o, n, target, prods);
            && RowsSound(st') && HoldsAgree(st') && Rehomed(st, st', homes, target, prods)
            && Exhausted(st', o, n, target, prods)
  {
    if n > 0 {
      hide Rehomed, Exhausted, RowsSound, HoldsAgree;
      var st1 := RehomeRows(st, o, n - 1, target, prods);
      RehomeRowsKeeps(st, homes, o, n - 1, target, prods);
      RehomeStep(st1, homes, o, n - 1, target, prods);
      RehomedTransitive(st, st1, RehomeRows(st, o, n, target, prods), homes, target, prods);
    }
  }

  /**
   * Re-homing after a transfer: holds move whole and only to their own counter,
   * and when it ends no hold still misplaced for that counter would fit there.
   */
  lemma {:induction false} RehomeKeeps(st: Stock, homes: seq<Option<LocationId>>, m: nat, target: LocationId,
                                       prods: set<ProductId>)
    requires RowsSound(st) && HoldsAgree(st) && m <= |homes|
    ensures var st' := Rehome(st, homes[..m], target, prods);
            && RowsSound(st') && HoldsAgree(st') && Rehomed(st, st', homes, target, prods)
            && (forall o: OrderId :: o < m && HomeOf(homes, o, target) ==> Exhausted(st', o, |st'.rs|, target, prods))
  {
    if m > 0 {
      var o := m - 1;
      assert homes[..m][..o] == homes[..o];
      RehomeKeeps(st, homes, o, target, prods);
      var st1 := Rehome(st, homes[..o], target, prods);
      if homes[o] == Some(target) {
        RehomeRowsKeeps(st1, homes, o, |st1.rs|, target, prods);
        var st2 := RehomeRows(st1, o, |st1.rs|, target, prods);
        RehomedTransitive(st, st1, st2, homes, target, prods);
        forall o': OrderId | o' < o && HomeOf(homes, o', target) ensures Exhausted(st2, o', |st2.rs|, target, prods) {
          ExhaustedStays(st1, st2, homes, o', |st1.rs|, target, prods);
        }
      }
    }
  }

  /** A pick that does not look at storages, or looks at goods already taken, sums the same after re-homing. */
  lemma {:induction false} RehomedTotals(rs: seq<Reservation>, rs': seq<Reservation>, target: LocationId, j: Pick)
    requires |rs'| == |rs|
    requires forall i :: 0 <= i < |rs| ==>
               rs'[i] == rs[i] || (rs[i].status.Reserved? && rs'[i] == rs[i].(loc := target))
    requires j.loc.None? || (j.status.Some? && !j.status.value.Reserved?)
    ensures Total(rs', j) == Total(rs, j)
  {
    if rs != [] {
      RehomedTotals(rs[..|rs| - 1], rs'[..|rs| - 1], target, j);
    }
  }

  // ---------------- The whole operation ----------------

  function OperationFlow(op: Operation, k: Key): int {
    ItemFlow(op.kind, op.loc, op.target.GetOr(op.loc), Asked(op.items, k.prod), k)
  }

  function AfterMove(st: Stock, op: Operation): Option<Stock> {
    var moved := MoveItems(st.inv, op.kind, op.loc, op.target.GetOr(op.loc), Merged(op.items));
    if moved.None? then None else Some(st.(inv := moved.value))
  }

  predicate Proper(op: Operation) {
    op.kind.TRANSFER? ==> op.target.Some? && op.target.value != op.loc
  }

  /** The stock part: holds untouched, physical stock moved by exactly what the operation says. */
  lemma AfterMoveKeeps(st: Stock, op: Operation)
    requires RowsSound(st) && HoldsAgree(st) && Proper(op) && AfterMove(st, op).Some?
    ensures var st1 := AfterMove(st, op).value;
            && RowsSound(st1) && HoldsAgree(st1) && st1.rs == st.rs && st1.ledger == st.ledger
            && (forall k :: OnHand(st1.inv, k) == OnHand(st.inv, k) + OperationFlow(op, k))
  {
    var loc, target := op.loc, op.target.GetOr(op.loc);
    MoveItemsEffect(st.inv, op.kind, loc, target, Merged(op.items));
    var st1 := AfterMove(st, op).value;
    forall k: Key ensures Asked(Merged(op.items), k.prod) == Asked(op.items, k.prod) {
      MergedTotals(op.items, k.prod);
    }
    forall k | k in st1.inv && k !in st.inv ensures Total(st.rs, HeldAt(k)) == 0 {
      TotalZero(st.rs, HeldAt(k));
    }
  }

  /** What the ledger line of an operation says is what the operation did. */
  lemma OperationLine(op: Operation, k: Key)
    requires Proper(op)
    ensures Flow(Movement(op.kind, op.loc, TargetOf(op), op.order, ItemMap(op.items), true), k) == OperationFlow(op, k)
  {
    MergedTotals(op.items, k.prod);
  }

  ghost predicate Operated(st: Stock, st': Stock, op: Operation, homes: seq<Option<LocationId>>) {
    && (forall k :: OnHand(st'.inv, k) == OnHand(st.inv, k) + OperationFlow(op, k))
    && st'.ledger == st.ledger + [Movement(op.kind, op.loc, TargetOf(op), op.order, ItemMap(op.items), true)]
    && |st'.rs| == |st.rs|
    && (forall i :: 0 <= i < |st.rs| ==>
          st'.rs[i] == st.rs[i]
          || (op.kind.TRANSFER? && op.target.Some?
              && Misplaced(st.rs[i], st.rs[i].order, op.target.value, ItemMap(op.items).Keys)
              && HomeOf(homes, st.rs[i].order, op.target.value)
              && st'.rs[i] == st.rs[i].(loc := op.target.value)))
    && (op.kind.TRANSFER? && op.target.Some? ==>
          forall o :: HomeOf(homes, o, op.target.value) ==>
            Exhausted(st', o, |st'.rs|, op.target.value, ItemMap(op.items).Keys))
  }

  /**
   * An operation by hand changes the physical stock by its own lines and nothing
   * else; a transfer also brings home every hold of its products that fits at the
   * counter that received them, whole, and no other row.
   */
  lemma OperateEffect(st: Stock, op: Operation, homes: seq<Option<LocationId>>)
    requires RowsSound(st) && HoldsAgree(st) && Proper(op) && Operate(st, op, homes).Some?
    ensures var st' := Operate(st, op, homes).value;
            RowsSound(st') && HoldsAgree(st') && Operated(st, st', op, homes)
  {
    AfterMoveKeeps(st, op);
    var st1 := AfterMove(st, op).value;
    if op.kind.TRANSFER? {
      assert homes[..|homes|] == homes;
      RehomeKeeps(st1, homes, |homes|, op.target.value, ItemMap(op.items).Keys);
    }
  }

  lemma OperatedTotals(st: Stock, st': Stock, op: Operation, homes: seq<Option<LocationId>>, j: Pick)
    requires Operated(st, st', op, homes)
    requires j.loc.None? || (j.status.Some? && !j.status.value.Reserved?)
    ensures Total(st'.rs, j) == Total(st.rs, j)
  {
    RehomedTotals(st.rs, st'.rs, op.target.GetOr(op.loc), j);
  }

  lemma OperateKeepsValid(st: Stock, init: Inventory, op: Operation, homes: seq<Option<LocationId>>)
    requires Valid(st, init) && Proper(op) && Operate(st, op, homes).Some?
    ensures Valid(Operate(st, op, homes).value, init)
  {
    OperateEffect(st, op, homes);
    var st' := Operate(st, op, homes).value;
    var line := Movement(op.kind, op.loc, TargetOf(op), op.order, ItemMap(op.items), true);
    assert st'.ledger[..|st.ledger|] == st.ledger;
    forall k ensures OnHand(st'.inv, k) == OnHand(init, k) + Net(st'.ledger, All, k) {
      OperationLine(op, k);
    }
    forall o, k ensures Net(st'.ledger, Sales(o), k) == -(Total(st'.rs, OfOrderAt(o, k, Confirmed)) as int) {
      OperatedTotals(st, st', op, homes, OfOrderAt(o, k, Confirmed));
    }
    forall k ensures Goods(st', k) == OnHand(init, k) + Net(st'.ledger, ByHand, k) {
      OperationLine(op, k);
      OperatedTotals(st, st', op, homes, TakenAt(k));
    }
  }

  // ---------------- Reading the ledger by order number ----------------

  /**
   * The order stamped on a ledger line does not tell a sale from an operation made
   * by hand, because an operation may carry an order too. While the tables agree,
   * reading an order's goods by the stamp is right at a storage and product exactly
   * when what was entered and taken out there by hand against that order cancels out.
   */
  lemma StampReading(st: Stock, init: Inventory, o: OrderId, k: Key)
    requires Valid(st, init)
    ensures Net(st.ledger, Stamped(o), k) == -(Total(st.rs, OfOrderAt(o, k, Confirmed)) as int)
            <==> Net(st.ledger, HandStamped(o), k) == 0
  {
    StampSplits(st.ledger, o, k);
  }
}
