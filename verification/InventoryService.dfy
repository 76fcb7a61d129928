/**
 * The inventory service: the three stock tables and the loops that write them.
 * Every method computes the function of `StockSpec` its contract names, on any
 * state whatever; the callers' transactions roll back what a failed call wrote.
 */
module InventoryModule {
  import opened Wrappers
  import opened Tables
  import opened Allocation
  import opened StockSpec

  lemma ItemsAtSnoc(rows: seq<Reservation>, r: Reservation, l: LocationId)
    ensures ItemsAt(rows + [r], l)
            == if l != r.loc then ItemsAt(rows, l)
               else ItemsAt(rows, l)[r.prod := (if r.prod in ItemsAt(rows, l) then ItemsAt(rows, l)[r.prod] else 0)
                                     + r.quantity]
  {
    hide Total;
    var before, after := ItemsAt(rows, l), ItemsAt(rows + [r], l);
    forall p: ProductId
      ensures p in after <==> p in before || (l == r.loc && p == r.prod)
    {
      if s :| s in rows && s.loc == l && s.prod == p {
        assert s in rows + [r];
      } else if l == r.loc && p == r.prod {
        assert r in rows + [r];
      }
    }
    forall p | p in after ensures after[p] == (if p in before then before[p] else 0) + Weight(r, AtKey(Key(l, p))) {
      TotalSnoc(rows, r, AtKey(Key(l, p)));
      if p !in before {
        assert forall i :: 0 <= i < |rows| ==> rows[i] in rows;
        TotalZero(rows, AtKey(Key(l, p)));
      }
    }
  }

  lemma StoragesOfSnoc(rows: seq<Reservation>, r: Reservation)
    ensures StoragesOf(rows + [r]) == if r.loc in StoragesOf(rows) then StoragesOf(rows) else StoragesOf(rows) + [r.loc]
    ensures forall l :: l in StoragesOf(rows) || l == r.loc <==> l in StoragesOf(rows + [r])
  {
    assert (rows + [r])[..|rows|] == rows;
  }

  lemma QueryStart(j: Pick)
    ensures Query([], j) == []
  {
  }

  lemma QuerySnoc(rs: seq<Reservation>, n: nat, j: Pick)
    requires n < |rs|
    ensures Query(rs[..n + 1], j) == if Fits(rs[n], j) then Query(rs[..n], j) + [rs[n]] else Query(rs[..n], j)
  {
    assert rs[..n + 1][..n] == rs[..n];
  }

  lemma PostedStart(inv: Inventory, e: Effect)
    ensures Posted(inv, [], e) == inv
  {
  }

  lemma PostedSnoc(inv: Inventory, rows: seq<Reservation>, r: Reservation, e: Effect)
    ensures Posted(inv, rows + [r], e) == Post(Posted(inv, rows, e), r.At(), e, r.quantity)
  {
    assert (rows + [r])[..|rows|] == rows;
  }

  lemma CutStart(rows: seq<Reservation>, j: Pick, q: int)
    ensures ToFree(rows, j, q, 0) == q && FreedRows(rows, j, q, 0) == []
    ensures KeptRows(rows, j, q, 0) + rows[0..] + Splits(rows, j, q, 0) == rows
  {
  }

  /** Cutting row `n` in place, in a table whose rows before it are already cut and whose splits sit at the end. */
  lemma CutStep(rows: seq<Reservation>, j: Pick, q: int, n: nat, kept: seq<Reservation>, split: seq<Reservation>)
    requires n < |rows| && kept == KeptRows(rows, j, q, n) && split == Splits(rows, j, q, n)
    ensures |kept| == n
    ensures var left := ToFree(rows, j, q, n);
            && (kept + rows[n..] + split)[n := KeptOf(rows[n], j, left)] + SplitOf(rows[n], j, left)
               == KeptRows(rows, j, q, n + 1) + rows[n + 1..] + Splits(rows, j, q, n + 1)
            && ToFree(rows, j, q, n + 1) == left - FreedOf(rows[n], j, left)
            && FreedRows(rows, j, q, n + 1) == FreedRows(rows, j, q, n) + FreedRowOf(rows[n], j, left)
  {
    assert rows[n..] == [rows[n]] + rows[n + 1..];
  }

  /** The merging map after some lines. */
  ghost predicate MergedSoFar(totals: map<ProductId, nat>, items: seq<Item>) {
    && (forall p :: p in totals <==> p in ProductsOf(items))
    && (forall p :: Asked(items, p) == if p in totals then totals[p] else 0)
  }

  lemma MergeStart()
    ensures ProductsOf([]) == [] && MergedSoFar(map[], [])
  {
  }

  lemma MergeStep(totals: map<ProductId, nat>, items: seq<Item>, n: nat)
    requires n < |items| && MergedSoFar(totals, items[..n])
    ensures var it := items[n];
            var units: nat := (if it.prod in totals then totals[it.prod] else 0) + it.quantity;
            && ProductsOf(items[..n + 1])
               == (if it.prod in totals then ProductsOf(items[..n]) else ProductsOf(items[..n]) + [it.prod])
            && MergedSoFar(totals[it.prod := units], items[..n + 1])
  {
    assert items[..n + 1][..n] == items[..n];
  }

  /** The grouping map after some rows. */
  ghost predicate Grouped(byLocation: map<LocationId, map<ProductId, nat>>, rows: seq<Reservation>) {
    && (forall l :: l in byLocation <==> l in StoragesOf(rows))
    && (forall l :: l in byLocation ==> byLocation[l] == ItemsAt(rows, l))
  }

  lemma GroupingStart()
    ensures StoragesOf([]) == [] && Grouped(map[], [])
  {
  }

  lemma GroupingStep(byLocation: map<LocationId, map<ProductId, nat>>, rows: seq<Reservation>, r: Reservation)
    requires Grouped(byLocation, rows)
    ensures var items := if r.loc in byLocation then byLocation[r.loc] else map[];
            var units: nat := (if r.prod in items then items[r.prod] else 0) + r.quantity;
            Grouped(byLocation[r.loc := items[r.prod := units]], rows + [r])
  {
    hide ItemsAt, StoragesOf;
    StoragesOfSnoc(rows, r);
    if r.loc !in byLocation {
      NoItemsYet(rows, r.loc);
    }
    var items: map<ProductId, nat> := if r.loc in byLocation then byLocation[r.loc] else map[];
    var units: nat := (if r.prod in items then items[r.prod] else 0) + r.quantity;
    var after: map<LocationId, map<ProductId, nat>> := byLocation[r.loc := items[r.prod := units]];
    forall l | l in after ensures after[l] == ItemsAt(rows + [r], l) {
      ItemsAtSnoc(rows, r, l);
    }
  }

  lemma NoItemsYet(rows: seq<Reservation>, l: LocationId)
    requires l !in StoragesOf(rows)
    ensures ItemsAt(rows, l) == map[]
  {
  }

  class InventoryService {
    var inv: Inventory
    var rs: seq<Reservation>
    var ledger: seq<Movement>

    function State(): Stock
      reads this
    {
      Stock(inv, rs, ledger)
    }

    constructor (stock: Inventory)
      ensures State() == Stock(stock, [], [])
    {
      inv, rs, ledger := stock, [], [];
    }

    /** A transaction that fails leaves the tables as it found them. */
    method Rollback(st: Stock)
      modifies this
      ensures State() == st
    {
      inv, rs, ledger := st.inv, st.rs, st.ledger;
    }

    /** Holds `q` units for an order, drawing on the preferred storage first and then on the fullest. */
    method Reserve(o: OrderId, p: ProductId, q: int, at: Reach) returns (ok: bool)
      modifies this
      ensures ok <==> StockSpec.Reserve(old(State()), o, p, q, at).Some?
      ensures State() == StockSpec.Reserve(old(State()), o, p, q, at).GetOr(old(State()))
    {
      var rows := Ranked(inv, p, at.preferred, Candidates(inv, p, at.active, at.allowed));
      if SumFree(inv, p, rows) < q {
        return false;
      }
      DrawFrom(o, p, q, rows);
      ok := true;
    }

    /** The allocation loop over the storages' rows, as loaded before it starts. */
    method DrawFrom(o: OrderId, p: ProductId, q: int, rows: seq<LocationId>)
      modifies this`inv, this`rs
      ensures rs == old(rs) + Takes(old(inv), o, p, rows, q)
      ensures inv == Posted(old(inv), Takes(old(inv), o, p, rows, q), Hold)
    {
      hide Posted, Takes, Left;
      var loaded := inv;
      var remaining := q;
      var n := 0;
      TakesStart(loaded, o, p, q);
      PostedStart(inv, Hold);
      while n < |rows|
        invariant n <= |rows|
        invariant remaining == Left(loaded, p, rows[..n], q)
        invariant rs == old(rs) + Takes(loaded, o, p, rows[..n], q)
        invariant inv == Posted(loaded, Takes(loaded, o, p, rows[..n], q), Hold)
      {
        if remaining <= 0 {
          NothingLeft(loaded, o, p, rows[..n], rows[n..], q);
          assert rows[..n] + rows[n..] == rows;
          return;
        }
        TakesSnoc(loaded, o, p, rows, q, n);
        var available := FreeAt(loaded, p, rows[n]);
        if available > 0 {
          var take := Min(available, remaining);
          var r := Reservation(o, rows[n], p, take, Reserved);
          PostedSnoc(loaded, Takes(loaded, o, p, rows[..n], q), r, Hold);
          inv := Post(inv, r.At(), Hold, take);
          rs := rs + [r];
          remaining := remaining - take;
        }
        n := n + 1;
      }
      assert rows[..|rows|] == rows;
    }

    /** Applies an effect to the inventory row of every row of the query, then gives each its final status. */
    method SettleReservations(where: Pick, final: ReservationStatus, e: Effect)
      modifies this`inv, this`rs
      ensures State() == Settle(old(State()), where, final, e)
    {
      hide Query, Posted;
      var found := rs;
      QueryStart(where);
      PostedStart(inv, e);
      for id := 0 to |found|
        invariant |rs| == |found|
        invariant forall i :: 0 <= i < id ==> rs[i] == Mark(found[i], where, final)
        invariant forall i :: id <= i < |found| ==> rs[i] == found[i]
        invariant inv == Posted(old(inv), Query(found[..id], where), e)
      {
        QuerySnoc(found, id, where);
        if Fits(found[id], where) {
          PostedSnoc(old(inv), Query(found[..id], where), found[id], e);
          inv := Post(inv, found[id].At(), e, found[id].quantity);
          rs := rs[id := rs[id].(status := final)];
        }
      }
      assert found[..|found|] == found;
    }

    /** Groups the rows by storage, in order of first appearance, merging quantities per product. */
    static method GroupByStorage(rows: seq<Reservation>)
      returns (order: seq<LocationId>, byLocation: map<LocationId, map<ProductId, nat>>)
      ensures order == StoragesOf(rows)
      ensures forall l :: l in byLocation <==> l in order
      ensures forall l :: l in byLocation ==> byLocation[l] == ItemsAt(rows, l)
    {
      hide ItemsAt, StoragesOf;
      order, byLocation := [], map[];
      GroupingStart();
      for i := 0 to |rows|
        invariant order == StoragesOf(rows[..i])
        invariant Grouped(byLocation, rows[..i])
      {
        var r := rows[i];
        assert rows[..i + 1] == rows[..i] + [r];
        StoragesOfSnoc(rows[..i], r);
        GroupingStep(byLocation, rows[..i], r);
        if r.loc !in byLocation {
          order := order + [r.loc];
          byLocation := byLocation[r.loc := map[]];
        }
        var items := byLocation[r.loc];
        var units: nat := (if r.prod in items then items[r.prod] else 0) + r.quantity;
        items := items[r.prod := units];
        byLocation := byLocation[r.loc := items];
      }
      assert rows[..|rows|] == rows;
    }

    /** One ledger operation per storage, with its item lines. */
    method RecordOrderMovement(kind: OperationType, o: OrderId, rows: seq<Reservation>)
      modifies this`ledger
      ensures State() == Record(old(State()), kind, o, rows)
    {
      hide ItemsAt, StoragesOf;
      var order, byLocation := GroupByStorage(rows);
      ghost var ms := Movements(kind, o, rows);
      for i := 0 to |order|
        invariant ledger == old(ledger) + ms[..i]
      {
        ledger := ledger + [Movement(kind, order[i], None, Some(o), byLocation[order[i]], false)];
      }
      assert ms[..|order|] == ms;
    }

    /** The hold becomes a physical decrement, written to the ledger as an exit. */
    method ConfirmReservations(o: OrderId)
      modifies this
      ensures State() == Confirm(old(State()), o)
    {
      var toConfirm := Query(rs, OfOrder(o, Reserved));
      SettleReservations(OfOrder(o, Reserved), Confirmed, Ship);
      RecordOrderMovement(OUT, o, toConfirm);
    }

    /** The same for what the order holds of one product. */
    method ConfirmProductReservations(o: OrderId, p: ProductId)
      modifies this
      ensures State() == ConfirmProduct(old(State()), o, p)
    {
      var toConfirm := Query(rs, OfLine(o, p, Reserved));
      if toConfirm == [] {
        NothingToSettle(rs, OfLine(o, p, Reserved), Confirmed);
        assert ledger + [] == ledger;
        return;
      }
      SettleReservations(OfLine(o, p, Reserved), Confirmed, Ship);
      RecordOrderMovement(OUT, o, toConfirm);
    }

    /** Drops the holds and puts back what was already taken, written to the ledger as an entry. */
    method ReleaseReservations(o: OrderId, signed: bool, final: ReservationStatus) returns (outcome: Outcome)
      modifies this
      ensures outcome == if ReleaseThrows(old(State()), o, signed, final) then Fault else Done
      ensures outcome.Done? ==> State() == Release(old(State()), o, final)
    {
      SettleReservations(OfOrder(o, Reserved), final, Unhold);
      var confirmed := Query(rs, OfOrder(o, Confirmed));
      SettleReservations(OfOrder(o, Confirmed), final, Restock);
      if confirmed != [] && !signed {
        return Fault;
      }
      RecordOrderMovement(IN, o, confirmed);
      outcome := Done;
    }

    /** One pass of the partial release: frees up to `q` units of the rows that fit, oldest first. */
    method CutBackRows(where: Pick, q: int, e: Effect) returns (left: int, freed: seq<Reservation>)
      modifies this`inv, this`rs
      ensures State() == CutBack(old(State()), where, q, e)
      ensures left == ToFree(old(rs), where, q, |old(rs)|) && freed == FreedRows(old(rs), where, q, |old(rs)|)
    {
      hide Posted, ToFree, FreedRows, KeptRows, Splits;
      var rows := rs;
      left, freed := q, [];
      PostedStart(inv, e);
      CutStart(rows, where, q);
      for id := 0 to |rows|
        invariant left == ToFree(rows, where, q, id)
        invariant freed == FreedRows(rows, where, q, id)
        invariant rs == KeptRows(rows, where, q, id) + rows[id..] + Splits(rows, where, q, id)
        invariant inv == Posted(old(inv), freed, e)
      {
        var r := rows[id];
        CutStep(rows, where, q, id, KeptRows(rows, where, q, id), Splits(rows, where, q, id));
        if left > 0 && Fits(r, where) {
          var take := Min(r.quantity, left);
          var given := r.(quantity := take);
          PostedSnoc(old(inv), freed, given, e);
          inv := Post(inv, r.At(), e, take);
          if take == r.quantity {
            rs := rs[id := r.(status := Cancelled)];
          } else {
            rs := rs[id := r.(quantity := r.quantity - take)] + [r.(quantity := take, status := Cancelled)];
          }
          freed := freed + [given];
          left := left - take;
        }
      }
    }

    /** Releases `q` units of one product: the held rows first, then the taken ones, which go back to the shelf. */
    method ReleaseProductUnits(o: OrderId, p: ProductId, q: int, signed: bool) returns (outcome: Outcome)
      modifies this
      ensures q <= 0 ==> outcome == Done && State() == old(State())
      ensures q > 0 ==> outcome == if UnitsThrow(old(State()), o, p, q, signed) then Fault else Done
      ensures q > 0 && outcome.Done? ==> State() == ReleaseUnits(old(State()), o, p, q)
    {
      if q <= 0 {
        return Done;
      }
      var left, _ := CutBackRows(OfLine(o, p, Reserved), q, Unhold);
      if left <= 0 {
        NothingToCut(State(), o, p, left);
        return Done;
      }
      var restocked;
      left, restocked := CutBackRows(OfLine(o, p, Confirmed), left, Restock);
      if restocked != [] && !signed {
        return Fault;
      }
      RecordOrderMovement(IN, o, restocked);
      outcome := Done;
    }

    method AddStock(k: Key, n: int)
      modifies this`inv
      ensures inv == StockSpec.AddStock(old(inv), k, n)
    {
      if k in inv {
        inv := inv[k := Row(inv[k].quantity + n, inv[k].reserved)];
      } else {
        inv := inv[k := Row(n, 0)];
      }
    }

    method RemoveStock(k: Key, n: int) returns (ok: bool)
      requires n > 0
      modifies this`inv
      ensures ok <==> StockSpec.RemoveStock(old(inv), k, n).Some?
      ensures inv == StockSpec.RemoveStock(old(inv), k, n).GetOr(old(inv))
    {
      var current := (if k in inv then inv[k].quantity else 0) - (if k in inv then inv[k].reserved else 0);
      if current < n {
        return false;
      }
      inv := inv[k := Row(inv[k].quantity - n, inv[k].reserved)];
      ok := true;
    }

    /** Adds up the lines of the same product. */
    method MergeItems(items: seq<Item>) returns (merged: seq<Item>)
      ensures merged == Merged(items)
    {
      hide ProductsOf, Asked;
      var totals: map<ProductId, nat> := map[];
      var order: seq<ProductId> := [];
      MergeStart();
      for i := 0 to |items|
        invariant order == ProductsOf(items[..i])
        invariant MergedSoFar(totals, items[..i])
      {
        var it := items[i];
        MergeStep(totals, items, i);
        if it.prod !in totals {
          order := order + [it.prod];
        }
        var units: nat := (if it.prod in totals then totals[it.prod] else 0) + it.quantity;
        totals := totals[it.prod := units];
      }
      assert items[..|items|] == items;
      merged := [];
      for i := 0 to |order|
        invariant merged == Merged(items)[..i]
      {
        merged := merged + [Item(order[i], totals[order[i]])];
      }
    }

    /** Stock just arrived at a counter: the holds of its pickup orders come home while they fit, oldest order first. */
    method RehomeReservations(homes: seq<Option<LocationId>>, target: LocationId, prods: set<ProductId>)
      modifies this`inv, this`rs
      ensures State() == Rehome(old(State()), homes, target, prods)
    {
      for o := 0 to |homes|
        invariant State() == Rehome(old(State()), homes[..o], target, prods)
      {
        assert homes[..o + 1][..o] == homes[..o];
        if homes[o] == Some(target) {
          ghost var st := State();
          var rows := |rs|;
          for id := 0 to rows
            invariant |rs| == rows
            invariant ledger == old(ledger)
            invariant State() == RehomeRows(st, o, id, target, prods)
          {
            var r := rs[id];
            if Misplaced(r, o, target, prods) {
              var home, source := Key(target, r.prod), r.At();
              if home in inv && inv[home].quantity - inv[home].reserved >= r.quantity {
                inv := inv[home := Row(inv[home].quantity, inv[home].reserved + r.quantity)];
                if source in inv {
                  inv := inv[source := Row(inv[source].quantity, Max(0, inv[source].reserved - r.quantity))];
                }
                rs := rs[id := r.(loc := target)];
              }
            }
          }
        }
      }
      assert homes[..|homes|] == homes;
    }

    /** An operation by hand, in one transaction. */
    method CreateOperation(op: Operation, catalogue: set<ProductId>, active: set<LocationId>,
                           homes: seq<Option<LocationId>>)
      returns (outcome: Outcome)
      requires forall i :: 0 <= i < |op.items| ==> op.items[i].quantity > 0
      modifies this
      ensures outcome.Done? <==> WellFormed(op, catalogue, active) && Operate(old(State()), op, homes).Some?
      ensures outcome.Done? || outcome.BadRequest?
      ensures State() == if outcome.Done? then Operate(old(State()), op, homes).value else old(State())
    {
      if !WellFormed(op, catalogue, active) {
        return BadRequest;
      }
      var items := MergeItems(op.items);
      var target := op.target.GetOr(op.loc);
      var before := State();
      for i := 0 to |items|
        invariant rs == old(rs) && ledger == old(ledger)
        invariant MoveItems(old(inv), op.kind, op.loc, target, items[..i]) == Some(inv)
      {
        assert items[..i + 1][..i] == items[..i];
        var k, n := Key(op.loc, items[i].prod), items[i].quantity;
        MergedPositive(op.items, i);
        var ok := true;
        if op.kind.IN? {
          AddStock(k, n);
        } else {
          ok := RemoveStock(k, n);
          if ok && op.kind.TRANSFER? {
            AddStock(Key(target, items[i].prod), n);
          }
        }
        if !ok {
          MoveItemsStops(old(inv), op.kind, op.loc, target, items, i + 1);
          Rollback(before);
          return BadRequest;
        }
      }
      assert items[..|items|] == items;
      if op.kind.TRANSFER? {
        RehomeReservations(homes, target, ItemMap(op.items).Keys);
      }
      ledger := ledger + [Movement(op.kind, op.loc, TargetOf(op), op.order, ItemMap(op.items), true)];
      outcome := Done;
    }
  }

  lemma {:induction false} NothingToSettle(rs: seq<Reservation>, j: Pick, to: ReservationStatus)
    requires Query(rs, j) == []
    ensures Marked(rs, j, to) == rs
  {
    if rs != [] {
      var n := |rs| - 1;
      NothingToSettle(rs[..n], j, to);
      assert Marked(rs[..n], j, to) == Marked(rs, j, to)[..n];
      assert rs == rs[..n] + [rs[n]];
    }
  }

  lemma {:induction false} NothingCut(rs: seq<Reservation>, j: Pick, q: int, n: nat)
    requires q <= 0 && n <= |rs|
    ensures ToFree(rs, j, q, n) == q && FreedRows(rs, j, q, n) == []
    ensures KeptRows(rs, j, q, n) == rs[..n] && Splits(rs, j, q, n) == []
  {
    if n > 0 {
      NothingCut(rs, j, q, n - 1);
    }
  }

  lemma NothingToCut(st: Stock, o: OrderId, p: ProductId, q: int)
    requires q <= 0
    ensures CutSold(st, o, p, q) == st
  {
    NothingCut(st.rs, OfLine(o, p, Confirmed), q, |st.rs|);
    assert st.rs[..|st.rs|] + [] == st.rs;
    assert st.ledger + [] == st.ledger;
  }

  lemma {:induction false} AskedAtLeast(items: seq<Item>, i: nat)
    requires i < |items|
    ensures Asked(items, items[i].prod) >= items[i].quantity
  {
    if i < |items| - 1 {
      AskedAtLeast(items[..|items| - 1], i);
    }
  }

  lemma MergedPositive(items: seq<Item>, i: nat)
    requires i < |Merged(items)|
    requires forall i :: 0 <= i < |items| ==> items[i].quantity > 0
    ensures Merged(items)[i].quantity > 0
  {
    assert ProductsOf(items)[i] in ProductsOf(items);
    var n :| 0 <= n < |items| && items[n].prod == ProductsOf(items)[i];
    AskedAtLeast(items, n);
  }

  lemma {:induction false} MoveItemsStops(inv: Inventory, kind: OperationType, loc: LocationId, target: LocationId,
                                          items: seq<Item>, n: nat)
    requires n <= |items| && MoveItems(inv, kind, loc, target, items[..n]).None?
    ensures MoveItems(inv, kind, loc, target, items).None?
    decreases |items| - n
  {
    if n < |items| {
      assert items[..n + 1][..n] == items[..n];
      MoveItemsStops(inv, kind, loc, target, items, n + 1);
    } else {
      assert items[..n] == items;
    }
  }
}
