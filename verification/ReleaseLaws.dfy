/**
 * Laws of the partial release: which rows give, in which order, and that cutting
 * a row in two loses nothing of the order's history.
 */
module ReleaseLaws {
  import opened Wrappers
  import opened Tables
  import opened Allocation
  import opened StockSpec
  import opened StockLaws
  import opened OrderLaws

  /** Oldest first: when a row is reached, every earlier row that fits has been cancelled whole. */
  lemma {:induction false} OldestFirst(rs: seq<Reservation>, j: Pick, q: int, n: nat, i: nat)
    requires i < n <= |rs| && Fits(rs[i], j) && ToFree(rs, j, q, n) > 0
    ensures KeptRows(rs, j, q, n)[i] == rs[i].(status := Cancelled)
  {
    if i < n - 1 {
      OldestFirst(rs, j, q, n - 1, i);
    }
  }

  /** At most one row is cut: those after it are as they were. */
  lemma {:induction false} RestUntouched(rs: seq<Reservation>, j: Pick, q: int, n: nat, i: nat)
    requires i < n <= |rs| && ToFree(rs, j, q, i) <= 0
    ensures KeptRows(rs, j, q, n)[i] == rs[i] && ToFree(rs, j, q, n) == ToFree(rs, j, q, i)
    ensures Splits(rs, j, q, n) == Splits(rs, j, q, i)
  {
    if i < n - 1 {
      RestUntouched(rs, j, q, n - 1, i);
    }
  }

  lemma HistoryOfOne(r: Reservation, j: Pick, left: int, k: Pick)
    requires k.status.None?
    ensures Weight(KeptOf(r, j, left), k) + Total(SplitOf(r, j, left), k) == Weight(r, k)
  {
    OneRowTotal(r.(quantity := FreedOf(r, j, left), status := Cancelled), k);
  }

  lemma {:induction false} HistoryKeptUpTo(rs: seq<Reservation>, j: Pick, q: int, n: nat, k: Pick)
    requires n <= |rs| && k.status.None?
    ensures Total(KeptRows(rs, j, q, n), k) + Total(Splits(rs, j, q, n), k) == Total(rs[..n], k)
  {
    hide Total, Weight, KeptOf, SplitOf, ToFree;
    if n == 0 {
      assert rs[..0] == [];
      NoRows(k);
    } else {
      var m := n - 1;
      var left := ToFree(rs, j, q, m);
      HistoryKeptUpTo(rs, j, q, m, k);
      HistoryOfOne(rs[m], j, left, k);
      TotalUpTo(rs, m, k);
      TotalSnoc(KeptRows(rs, j, q, m), KeptOf(rs[m], j, left), k);
      TotalAppend(Splits(rs, j, q, m), SplitOf(rs[m], j, left), k);
    }
  }

  lemma PassKeepsHistory(st: Stock, j: Pick, q: int, e: Effect, k: Pick)
    requires k.status.None?
    ensures Total(CutBack(st, j, q, e).rs, k) == Total(st.rs, k)
  {
    hide KeptRows, Splits, Total, Posted, FreedRows;
    HistoryKeptUpTo(st.rs, j, q, |st.rs|, k);
    assert st.rs[..|st.rs|] == st.rs;
    TotalAppend(KeptRows(st.rs, j, q, |st.rs|), Splits(st.rs, j, q, |st.rs|), k);
  }

  /**
   * A partial release of `q` units frees as many as the order has, the held before
   * the taken, and leaves its reservation history, counted over every status, the
   * same at every storage and product.
   */
  lemma PartialRelease(st: Stock, o: OrderId, p: ProductId, q: nat, loc: Option<LocationId>, o': OrderId, p': ProductId)
    requires RowsSound(st)
    ensures var st' := ReleaseUnits(st, o, p, q);
            var held, taken := Live(st, o, p, Reserved), Live(st, o, p, Confirmed);
            && Live(st', o, p, Reserved) == held - Min(q, held)
            && Live(st', o, p, Reserved) + Live(st', o, p, Confirmed) == held + taken - Min(q, held + taken)
            && Total(st'.rs, Pick(Some(o'), loc, Some(p'), None)) == Total(st.rs, Pick(Some(o'), loc, Some(p'), None))
  {
    hide CutBack, Total, Live;
    var k := Pick(Some(o'), loc, Some(p'), None);
    ReleaseUnitsLive(st, o, p, q, o, p);
    PassKeepsHistory(st, OfLine(o, p, Reserved), q, Unhold, k);
    PassKeepsHistory(CutHeld(st, o, p, q), OfLine(o, p, Confirmed), AfterHeld(st, o, p, q), Restock, k);
  }
}
