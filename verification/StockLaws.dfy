/**
 * The invariant of the three stock tables, and the one law behind every
 * order-driven operation: each of them moves some rows from one reservation
 * status to another, and the inventory and the ledger follow.
 */
module StockLaws {
  import opened Wrappers
  import opened Tables
  import opened Allocation
  import opened StockSpec

  // ---------------- The invariant ----------------

  /** Rows are positive, and every live one has its inventory row. */
  ghost predicate RowsSound(st: Stock) {
    forall i :: 0 <= i < |st.rs| ==> st.rs[i].quantity > 0 && (st.rs[i].Live() ==> st.rs[i].At() in st.inv)
  }

  /** `reservedQuantity` is exactly what is on hold there, and never more than there is. */
  ghost predicate HoldsAgree(st: Stock) {
    forall k :: k in st.inv ==>
      st.inv[k].reserved == Total(st.rs, HeldAt(k)) && st.inv[k].reserved <= st.inv[k].quantity
  }

  function OnHand(inv: Inventory, k: Key): int {
    if k in inv then inv[k].quantity else 0
  }

  /** Replaying the whole ledger from the initial stock rebuilds the physical stock. */
  ghost predicate LedgerAgrees(st: Stock, init: Inventory) {
    forall k :: OnHand(st.inv, k) == OnHand(init, k) + Net(st.ledger, All, k)
  }

  /** For each order and key, goods out minus goods back is what the order now has as CONFIRMED. */
  ghost predicate SalesAgree(st: Stock) {
    forall o, k :: Net(st.ledger, Sales(o), k) == -(Total(st.rs, OfOrderAt(o, k, Confirmed)) as int)
  }

  /** Units on the shelf plus units taken: what no order-driven operation changes, at any storage and product. */
  function Goods(st: Stock, k: Key): int {
    OnHand(st.inv, k) + Total(st.rs, TakenAt(k))
  }

  function TakenAt(k: Key): Pick {
    Pick(None, Some(k.loc), Some(k.prod), Some(Confirmed))
  }

  /** Only operations by hand bring goods in or out. */
  ghost predicate GoodsAgree(st: Stock, init: Inventory) {
    forall k :: Goods(st, k) == OnHand(init, k) + Net(st.ledger, ByHand, k)
  }

  ghost predicate TransfersArrive(st: Stock) {
    forall i :: 0 <= i < |st.ledger| && st.ledger[i].kind.TRANSFER? ==> st.ledger[i].target.Some?
  }

  ghost predicate Valid(st: Stock, init: Inventory) {
    && RowsSound(st) && HoldsAgree(st) && LedgerAgrees(st, init) && SalesAgree(st)
    && GoodsAgree(st, init) && TransfersArrive(st)
  }

  /** The state before any order or operation. */
  ghost predicate Initial(st: Stock) {
    st.rs == [] && st.ledger == [] && forall k :: k in st.inv ==> st.inv[k].reserved == 0 <= st.inv[k].quantity
  }

  lemma InitialValid(st: Stock)
    requires Initial(st)
    ensures Valid(st, st.inv)
  {
  }

  // ---------------- Shifts ----------------

  /** `rows` went from status `from` (nowhere, if None) to status `to`; no other sum changed. */
  ghost predicate Moved(rs: seq<Reservation>, rs': seq<Reservation>, rows: seq<Reservation>,
                        from: Option<ReservationStatus>, to: ReservationStatus) {
    forall j: Pick :: j.status.Some? ==>
      Total(rs', j) == Total(rs, j)
                       + (if j.status == Some(to) then Total(rows, j.Any()) else 0)
                       - (if j.status == from then Total(rows, j.Any()) else 0)
  }

  predicate Dead(s: ReservationStatus) {
    s.Cancelled? || s.Expired?
  }

  predicate Legal(from: Option<ReservationStatus>, to: ReservationStatus) {
    match from
    case None => to.Reserved?
    case Some(Reserved) => to.Confirmed? || Dead(to)
    case Some(Confirmed) => Dead(to)
    case _ => false
  }

  function EffectOf(from: Option<ReservationStatus>, to: ReservationStatus): Effect
    requires Legal(from, to)
  {
    if from.None? then Hold
    else if from.value.Confirmed? then Restock
    else if to.Confirmed? then Ship
    else Unhold
  }

  function Booked(from: Option<ReservationStatus>, to: ReservationStatus, o: OrderId,
                  rows: seq<Reservation>): seq<Movement>
    requires Legal(from, to)
  {
    match EffectOf(from, to)
    case Ship => Movements(OUT, o, rows)
    case Restock => Movements(IN, o, rows)
    case _ => []
  }

  ghost predicate Shift(st: Stock, st': Stock, o: OrderId, rows: seq<Reservation>,
                        from: Option<ReservationStatus>, to: ReservationStatus) {
    && Legal(from, to)
    && (forall r :: r in rows ==> r.order == o && r.At() in st.inv)
    && Moved(st.rs, st'.rs, rows, from, to)
    && st'.inv == Posted(st.inv, rows, EffectOf(from, to))
    && st'.ledger == st.ledger + Booked(from, to, o, rows)
    && RowsSound(st')
  }

  /** Rows of one order weigh for that order and for no other. */
  lemma {:induction false} OwnRows(rows: seq<Reservation>, o: OrderId, o': OrderId, k: Key)
    requires forall r :: r in rows ==> r.order == o
    ensures Total(rows, OfOrderAt(o', k, Confirmed).Any()) == if o' == o then Total(rows, AtKey(k)) else 0
  {
    assert forall i :: 0 <= i < |rows| ==> rows[i] in rows;
    if o' == o {
      TotalSame(rows, OfOrderAt(o', k, Confirmed).Any(), AtKey(k));
    } else {
      TotalZero(rows, OfOrderAt(o', k, Confirmed).Any());
    }
  }

  lemma NetOfBooked(from: Option<ReservationStatus>, to: ReservationStatus, o: OrderId,
                    rows: seq<Reservation>, ledger: seq<Movement>, rd: Reading, k: Key)
    requires Legal(from, to)
    ensures Net(ledger + Booked(from, to, o, rows), rd, k) - Net(ledger, rd, k)
            == if !(rd == All || rd == Sales(o) || rd == Stamped(o)) then 0
               else if EffectOf(from, to).Ship? then -(Total(rows, AtKey(k)) as int)
               else if EffectOf(from, to).Restock? then Total(rows, AtKey(k)) as int
               else 0
  {
    NetAppend(ledger, Booked(from, to, o, rows), rd, k);
    NetOfMovements(OUT, o, rows, rd, k);
    NetOfMovements(IN, o, rows, rd, k);
  }

  lemma ShiftRow(st: Stock, st': Stock, o: OrderId, rows: seq<Reservation>,
                 from: Option<ReservationStatus>, to: ReservationStatus, k: Key)
    requires HoldsAgree(st) && Shift(st, st', o, rows, from, to)
    requires k in st.inv && (from.None? ==> Total(rows, AtKey(k)) <= st.inv[k].Free())
    ensures st'.inv.Keys == st.inv.Keys
    ensures st'.inv[k].reserved == Total(st'.rs, HeldAt(k)) && st'.inv[k].reserved <= st'.inv[k].quantity
  {
    PostedAt(st.inv, rows, EffectOf(from, to));
    assert HeldAt(k).Any() == AtKey(k);
  }

  lemma ShiftOnHand(st: Stock, st': Stock, o: OrderId, rows: seq<Reservation>,
                    from: Option<ReservationStatus>, to: ReservationStatus, k: Key)
    requires Shift(st, st', o, rows, from, to)
    ensures OnHand(st'.inv, k) - OnHand(st.inv, k) == Net(st'.ledger, All, k) - Net(st.ledger, All, k)
  {
    PostedAt(st.inv, rows, EffectOf(from, to));
    NetOfBooked(from, to, o, rows, st.ledger, All, k);
    if k !in st.inv {
      assert forall i :: 0 <= i < |rows| ==> rows[i] in rows;
      TotalZero(rows, AtKey(k));
    }
  }

  lemma ShiftSales(st: Stock, st': Stock, o: OrderId, rows: seq<Reservation>,
                   from: Option<ReservationStatus>, to: ReservationStatus, o': OrderId, k: Key)
    requires Shift(st, st', o, rows, from, to)
    ensures Net(st'.ledger, Sales(o'), k) - Net(st.ledger, Sales(o'), k)
            == Total(st.rs, OfOrderAt(o', k, Confirmed)) - Total(st'.rs, OfOrderAt(o', k, Confirmed))
  {
    NetOfBooked(from, to, o, rows, st.ledger, Sales(o'), k);
    OwnRows(rows, o, o', k);
  }

  /** Every legal shift keeps the tables in agreement. */
  lemma ShiftKeepsValid(st: Stock, st': Stock, init: Inventory, o: OrderId, rows: seq<Reservation>,
                        from: Option<ReservationStatus>, to: ReservationStatus)
    requires Valid(st, init)
    requires Shift(st, st', o, rows, from, to)
    requires from.None? ==> forall k :: k in st.inv ==> Total(rows, AtKey(k)) <= st.inv[k].Free()
    ensures Valid(st', init)
  {
    assert HoldsAgree(st') by {
      PostedAt(st.inv, rows, EffectOf(from, to));
      forall k | k in st.inv
        ensures st'.inv[k].reserved == Total(st'.rs, HeldAt(k)) && st'.inv[k].reserved <= st'.inv[k].quantity
      {
        ShiftRow(st, st', o, rows, from, to, k);
      }
    }
    assert LedgerAgrees(st', init) by {
      forall k ensures OnHand(st'.inv, k) == OnHand(init, k) + Net(st'.ledger, All, k) {
        ShiftOnHand(st, st', o, rows, from, to, k);
      }
    }
    assert SalesAgree(st') by {
      forall o', k ensures Net(st'.ledger, Sales(o'), k) == -(Total(st'.rs, OfOrderAt(o', k, Confirmed)) as int) {
        ShiftSales(st, st', o, rows, from, to, o', k);
      }
    }
    assert GoodsAgree(st', init) by {
      forall k ensures Goods(st', k) == OnHand(init, k) + Net(st'.ledger, ByHand, k) {
        ShiftConservesGoods(st, st', o, rows, from, to, k);
        NetOfBooked(from, to, o, rows, st.ledger, ByHand, k);
      }
    }
  }

  lemma ShiftConservesGoods(st: Stock, st': Stock, o: OrderId, rows: seq<Reservation>,
                            from: Option<ReservationStatus>, to: ReservationStatus, k: Key)
    requires Shift(st, st', o, rows, from, to)
    ensures Goods(st', k) == Goods(st, k)
  {
    PostedAt(st.inv, rows, EffectOf(from, to));
    assert TakenAt(k).Any() == AtKey(k);
    if k !in st.inv {
      assert forall i :: 0 <= i < |rows| ==> rows[i] in rows;
      TotalZero(rows, AtKey(k));
    }
  }

  // ---------------- The operations as shifts ----------------

  lemma {:induction false} MarkedMoves(rs: seq<Reservation>, j: Pick, to: ReservationStatus, k: Pick)
    requires j.status.Some? && j.status.value != to && k.status.Some?
    ensures Total(Marked(rs, j, to), k) == Total(rs, k)
                                           + (if k.status == Some(to) then Total(Query(rs, j), k.Any()) else 0)
                                           - (if k.status == j.status then Total(Query(rs, j), k.Any()) else 0)
  {
    if rs != [] {
      var n := |rs| - 1;
      var moved := Query(rs[..n], j);
      MarkedMoves(rs[..n], j, to, k);
      assert Total(Marked(rs, j, to), k) == Total(Marked(rs[..n], j, to), k) + Weight(Mark(rs[n], j, to), k) by {
        assert Marked(rs, j, to)[..n] == Marked(rs[..n], j, to);
      }
      assert Total(Query(rs, j), k.Any()) == Total(moved, k.Any()) + if Fits(rs[n], j) then Weight(rs[n], k.Any())
             else 0 by {
        TotalSnoc(moved, rs[n], k.Any());
      }
    }
  }

  /** Settling a query of one order is a shift. */
  lemma SettleShifts(st: Stock, j: Pick, to: ReservationStatus, o: OrderId)
    requires RowsSound(st)
    requires j.order == Some(o) && j.status.Some? && Legal(j.status, to)
    ensures var rows, e := Query(st.rs, j), EffectOf(j.status, to);
            Shift(st, Settle(st, j, to, e).(ledger := st.ledger + Booked(j.status, to, o, rows)), o, rows, j.status, to)
  {
    var rows := Query(st.rs, j);
    QueryRows(st.rs, j);
    forall k: Pick | k.status.Some?
      ensures Total(Marked(st.rs, j, to), k) == Total(st.rs, k)
              + (if k.status == Some(to) then Total(rows, k.Any()) else 0)
              - (if k.status == j.status then Total(rows, k.Any()) else 0)
    {
      MarkedMoves(st.rs, j, to, k);
    }
    PostedAt(st.inv, rows, EffectOf(j.status, to));
  }

  lemma ConfirmShifts(st: Stock, o: OrderId)
    requires RowsSound(st)
    ensures Shift(st, Confirm(st, o), o, Query(st.rs, OfOrder(o, Reserved)), Some(Reserved), Confirmed)
  {
    SettleShifts(st, OfOrder(o, Reserved), Confirmed, o);
  }

  lemma ConfirmProductShifts(st: Stock, o: OrderId, p: ProductId)
    requires RowsSound(st)
    ensures Shift(st, ConfirmProduct(st, o, p), o, Query(st.rs, OfLine(o, p, Reserved)), Some(Reserved), Confirmed)
  {
    SettleShifts(st, OfLine(o, p, Reserved), Confirmed, o);
  }

  lemma DropHoldsShifts(st: Stock, o: OrderId, final: ReservationStatus)
    requires RowsSound(st) && Dead(final)
    ensures Shift(st, DropHolds(st, o, final), o, Query(st.rs, OfOrder(o, Reserved)), Some(Reserved), final)
  {
    SettleShifts(st, OfOrder(o, Reserved), final, o);
    assert st.ledger + [] == st.ledger;
  }

  lemma TakeBackShifts(st: Stock, o: OrderId, final: ReservationStatus)
    requires RowsSound(st) && Dead(final)
    ensures Shift(st, TakeBack(st, o, final), o, Query(st.rs, OfOrder(o, Confirmed)), Some(Confirmed), final)
  {
    SettleShifts(st, OfOrder(o, Confirmed), final, o);
  }

  // ---------------- reserve ----------------

  /** The storages a query lists, once each, whatever the sort did to them. */
  lemma RankedCandidates(inv: Inventory, p: ProductId, at: Reach)
    ensures NoRepeats(RankedFor(inv, p, at))
    ensures forall l :: l in RankedFor(inv, p, at) <==> l in at.active && Usable(inv, p, at.allowed, l)
    ensures Available(inv, p, at) == SumFree(inv, p, Candidates(inv, p, at.active, at.allowed))
  {
    var c := Candidates(inv, p, at.active, at.allowed);
    NoRepeatsPermuted(c, RankedFor(inv, p, at));
    SameElements(c, RankedFor(inv, p, at));
    SumFreePermuted(inv, p, c, RankedFor(inv, p, at));
  }

  function TakesFor(st: Stock, o: OrderId, p: ProductId, q: int, at: Reach): seq<Reservation> {
    Takes(st.inv, o, p, RankedFor(st.inv, p, at), q)
  }

  /** A reservation that goes through is a shift of new holds, within what was free everywhere. */
  lemma ReserveShifts(st: Stock, o: OrderId, p: ProductId, q: nat, at: Reach)
    requires RowsSound(st) && HoldsAgree(st)
    requires Reserve(st, o, p, q, at).Some?
    ensures Shift(st, Reserve(st, o, p, q, at).value, o, TakesFor(st, o, p, q, at), None, Reserved)
    ensures forall k :: k in st.inv ==> Total(TakesFor(st, o, p, q, at), AtKey(k)) <= st.inv[k].Free()
    ensures forall j ::
              (forall l :: Fits(Reservation(o, l, p, 1, Reserved), j)) ==>
                Total(TakesFor(st, o, p, q, at), j) == q
  {
    hide Candidates, Ranked, Takes, SumFree, Left, Posted, Total, Moved, Fits, RankedFor;
    var ls := RankedFor(st.inv, p, at);
    var rows := TakesFor(st, o, p, q, at);
    RankedCandidates(st.inv, p, at);
    TakesRows(st.inv, o, p, ls, q);
    LeftIs(st.inv, p, ls, q);
    NewHoldsMove(st.rs, rows);
    forall k | k in st.inv ensures Total(rows, AtKey(k)) <= st.inv[k].Free() {
      TakesWithinFree(st.inv, o, p, ls, q, k);
    }
    forall j | forall l :: Fits(Reservation(o, l, p, 1, Reserved), j) ensures Total(rows, j) == q {
      TakesTotal(st.inv, o, p, ls, q, j);
    }
    HeldRowsSound(st, rows);
    assert st.ledger + [] == st.ledger;
  }

  /** Rows appended as held come from nowhere. */
  lemma NewHoldsMove(rs: seq<Reservation>, rows: seq<Reservation>)
    requires forall r :: r in rows ==> r.status == Reserved
    ensures Moved(rs, rs + rows, rows, None, Reserved)
  {
    hide Total;
    assert forall i :: 0 <= i < |rows| ==> rows[i] in rows;
    forall j: Pick | j.status.Some?
      ensures Total(rs + rows, j) == Total(rs, j) + if j.status == Some(Reserved) then Total(rows, j.Any()) else 0
    {
      TotalAppend(rs, rows, j);
      if j.status == Some(Reserved) {
        TotalSame(rows, j, j.Any());
      } else {
        TotalZero(rows, j);
      }
    }
  }

  lemma HeldRowsSound(st: Stock, rows: seq<Reservation>)
    requires RowsSound(st) && forall r :: r in rows ==> r.quantity > 0 && r.At() in st.inv
    ensures RowsSound(st.(inv := Posted(st.inv, rows, Hold), rs := st.rs + rows))
  {
    hide Total, Posted;
    PostedAt(st.inv, rows, Hold);
    assert forall i :: 0 <= i < |rows| ==> rows[i] in rows;
  }

  // ---------------- releaseProductUnits ----------------

  /** The pass frees what it can: everything that fits, up to what was asked. */
  lemma {:induction false} ToFreeIs(rs: seq<Reservation>, j: Pick, q: nat, n: nat)
    requires n <= |rs|
    ensures ToFree(rs, j, q, n) == Max(0, q - Total(rs[..n], j))
  {
    if n > 0 {
      ToFreeIs(rs, j, q, n - 1);
      assert rs[..n][..n - 1] == rs[..n - 1];
    }
  }

  lemma OneRowTotal(r: Reservation, k: Pick)
    ensures Total([r], k) == Weight(r, k)
  {
    assert [r][..0] == [];
  }

  lemma {:induction false} FreedTotal(rs: seq<Reservation>, j: Pick, q: nat, n: nat)
    requires n <= |rs|
    ensures Total(FreedRows(rs, j, q, n), j) == q - ToFree(rs, j, q, n)
    ensures ToFree(rs, j, q, n) >= 0
  {
    if n > 0 {
      var left := ToFree(rs, j, q, n - 1);
      FreedTotal(rs, j, q, n - 1);
      TotalAppend(FreedRows(rs, j, q, n - 1), FreedRowOf(rs[n - 1], j, left), j);
      OneRowTotal(rs[n - 1].(quantity := FreedOf(rs[n - 1], j, left)), j);
    }
  }

  lemma {:induction false} FreedRowsFit(rs: seq<Reservation>, j: Pick, q: nat, n: nat)
    requires n <= |rs| && forall i :: 0 <= i < |rs| ==> rs[i].quantity > 0
    ensures forall r :: r in FreedRows(rs, j, q, n) ==>
              r.quantity > 0 && Fits(r, j) && exists i :: 0 <= i < n && rs[i].At() == r.At() && rs[i].status == r.status
  {
    if n > 0 {
      var left := ToFree(rs, j, q, n - 1);
      FreedRowsFit(rs, j, q, n - 1);
      forall r | r in FreedRows(rs, j, q, n)
        ensures r.quantity > 0 && Fits(r, j)
                && exists i :: 0 <= i < n && rs[i].At() == r.At() && rs[i].status == r.status
      {
        if r !in FreedRows(rs, j, q, n - 1) {
          assert r in FreedRowOf(rs[n - 1], j, left);
          assert rs[n - 1].At() == r.At();
        }
      }
    }
  }

  /** What is left of each row stays where it was, and only cancelled rows are added. */
  lemma {:induction false} CutRowsSound(rs: seq<Reservation>, j: Pick, q: nat, n: nat)
    requires n <= |rs| && forall i :: 0 <= i < |rs| ==> rs[i].quantity > 0
    ensures forall i :: 0 <= i < n ==>
              KeptRows(rs, j, q, n)[i].quantity > 0 && KeptRows(rs, j, q, n)[i].At() == rs[i].At()
              && (KeptRows(rs, j, q, n)[i].Live() ==> rs[i].Live())
    ensures forall r :: r in Splits(rs, j, q, n) ==> r.quantity > 0 && r.status.Cancelled?
  {
    if n > 0 {
      var left := ToFree(rs, j, q, n - 1);
      CutRowsSound(rs, j, q, n - 1);
      forall r | r in Splits(rs, j, q, n) ensures r.quantity > 0 && r.status.Cancelled? {
        if r !in Splits(rs, j, q, n - 1) {
          assert r in SplitOf(rs[n - 1], j, left);
        }
      }
    }
  }

  /** One step of the cut: what stays plus what was split off is what was there, the freed units re-marked. */
  lemma CutOne(r: Reservation, j: Pick, left: int, k: Pick)
    requires k.status.Some? && j.status.Some? && !j.status.value.Cancelled?
    ensures Weight(KeptOf(r, j, left), k) + Total(SplitOf(r, j, left), k)
            == Weight(r, k)
               + (if k.status == Some(Cancelled) then Total(FreedRowOf(r, j, left), k.Any()) else 0)
               - (if k.status == j.status then Total(FreedRowOf(r, j, left), k.Any()) else 0)
  {
    OneRowTotal(r.(quantity := FreedOf(r, j, left), status := Cancelled), k);
    OneRowTotal(r.(quantity := FreedOf(r, j, left)), k.Any());
  }

  /** Cutting and splitting moves the freed units to CANCELLED and nothing else. */
  lemma {:induction false} CutMoves(rs: seq<Reservation>, j: Pick, q: nat, n: nat, k: Pick)
    requires n <= |rs| && k.status.Some? && j.status.Some? && !j.status.value.Cancelled?
    ensures Total(KeptRows(rs, j, q, n), k) + Total(Splits(rs, j, q, n), k)
            == Total(rs[..n], k)
               + (if k.status == Some(Cancelled) then Total(FreedRows(rs, j, q, n), k.Any()) else 0)
               - (if k.status == j.status then Total(FreedRows(rs, j, q, n), k.Any()) else 0)
  {
    hide Total, Weight, KeptOf, SplitOf, FreedRowOf, ToFree;
    if n == 0 {
      assert rs[..0] == [];
      NoRows(k);
      NoRows(k.Any());
    } else {
      var m := n - 1;
      var left := ToFree(rs, j, q, m);
      CutMoves(rs, j, q, m, k);
      CutOne(rs[m], j, left, k);
      TotalUpTo(rs, m, k);
      TotalSnoc(KeptRows(rs, j, q, m), KeptOf(rs[m], j, left), k);
      TotalAppend(Splits(rs, j, q, m), SplitOf(rs[m], j, left), k);
      TotalAppend(FreedRows(rs, j, q, m), FreedRowOf(rs[m], j, left), k.Any());
    }
  }

  lemma NoRows(k: Pick)
    ensures Total([], k) == 0
  {
  }

  lemma TotalUpTo(rs: seq<Reservation>, m: nat, k: Pick)
    requires m < |rs|
    ensures Total(rs[..m + 1], k) == Total(rs[..m], k) + Weight(rs[m], k)
  {
    hide Weight;
    assert rs[..m + 1][..m] == rs[..m];
  }

  lemma CutMoved(rs: seq<Reservation>, j: Pick, q: nat)
    requires j.status.Some? && !j.status.value.Cancelled?
    ensures Moved(rs, KeptRows(rs, j, q, |rs|) + Splits(rs, j, q, |rs|), FreedRows(rs, j, q, |rs|), j.status, Cancelled)
  {
    var n := |rs|;
    var rows, kept, split := FreedRows(rs, j, q, n), KeptRows(rs, j, q, n), Splits(rs, j, q, n);
    forall k: Pick | k.status.Some?
      ensures Total(kept + split, k) == Total(rs, k)
              + (if k.status == Some(Cancelled) then Total(rows, k.Any()) else 0)
              - (if k.status == j.status then Total(rows, k.Any()) else 0)
    {
      CutMoves(rs, j, q, n, k);
      assert rs[..n] == rs;
      TotalAppend(kept, split, k);
    }
  }

  lemma CutShifts(st: Stock, o: OrderId, p: ProductId, s: ReservationStatus, q: nat)
    requires RowsSound(st) && (s.Reserved? || s.Confirmed?)
    ensures var j, e := OfLine(o, p, s), EffectOf(Some(s), Cancelled);
            var rows := FreedRows(st.rs, j, q, |st.rs|);
            Shift(st, CutBack(st, j, q, e).(ledger := st.ledger + Booked(Some(s), Cancelled, o, rows)), o, rows,
                  Some(s), Cancelled)
  {
    var j, n := OfLine(o, p, s), |st.rs|;
    var rows, kept, split := FreedRows(st.rs, j, q, n), KeptRows(st.rs, j, q, n), Splits(st.rs, j, q, n);
    FreedRowsFit(st.rs, j, q, n);
    CutRowsSound(st.rs, j, q, n);
    forall r | r in rows ensures r.order == o && r.At() in st.inv {
      var i :| 0 <= i < n && st.rs[i].At() == r.At() && st.rs[i].status == r.status;
    }
    CutMoved(st.rs, j, q);
    PostedAt(st.inv, rows, EffectOf(Some(s), Cancelled));
    forall i | 0 <= i < |kept + split|
      ensures var r: Reservation := (kept + split)[i]; r.quantity > 0 && (r.Live() ==> r.At() in st.inv)
    {
      if i >= n {
        assert split[i - n] in split;
      }
    }
  }

  lemma CutHeldShifts(st: Stock, o: OrderId, p: ProductId, q: nat)
    requires RowsSound(st)
    ensures RowsSound(CutHeld(st, o, p, q))
    ensures Shift(st, CutHeld(st, o, p, q), o, FreedRows(st.rs, OfLine(o, p, Reserved), q, |st.rs|), Some(Reserved),
                  Cancelled)
  {
    hide RowsSound, Moved, Posted, KeptRows, Splits, FreedRows;
    CutShifts(st, o, p, Reserved, q);
    assert st.ledger + [] == st.ledger;
  }

  lemma CutSoldShifts(st: Stock, o: OrderId, p: ProductId, q: nat)
    requires RowsSound(st)
    ensures Shift(st, CutSold(st, o, p, q), o, FreedRows(st.rs, OfLine(o, p, Confirmed), q, |st.rs|), Some(Confirmed),
                  Cancelled)
  {
    hide Shift, RowsSound, Posted, KeptRows, Splits, FreedRows, Movements;
    CutShifts(st, o, p, Confirmed, q);
    var j := OfLine(o, p, Confirmed);
    assert CutSold(st, o, p, q)
           == CutBack(st, j, q, Restock).(ledger := st.ledger
                                          + Booked(Some(Confirmed), Cancelled, o, FreedRows(st.rs, j, q, |st.rs|)));
  }

  // ---------------- What the public operations keep ----------------

  lemma ReserveKeepsValid(st: Stock, init: Inventory, o: OrderId, p: ProductId, q: nat, at: Reach)
    requires Valid(st, init) && Reserve(st, o, p, q, at).Some?
    ensures Valid(Reserve(st, o, p, q, at).value, init)
  {
    ReserveShifts(st, o, p, q, at);
    ShiftKeepsValid(st, Reserve(st, o, p, q, at).value, init, o, TakesFor(st, o, p, q, at), None, Reserved);
  }

  lemma ConfirmKeepsValid(st: Stock, init: Inventory, o: OrderId)
    requires Valid(st, init)
    ensures Valid(Confirm(st, o), init)
  {
    ConfirmShifts(st, o);
    ShiftKeepsValid(st, Confirm(st, o), init, o, Query(st.rs, OfOrder(o, Reserved)), Some(Reserved), Confirmed);
  }

  lemma ConfirmProductKeepsValid(st: Stock, init: Inventory, o: OrderId, p: ProductId)
    requires Valid(st, init)
    ensures Valid(ConfirmProduct(st, o, p), init)
  {
    ConfirmProductShifts(st, o, p);
    ShiftKeepsValid(st, ConfirmProduct(st, o, p), init, o, Query(st.rs, OfLine(o, p, Reserved)), Some(Reserved),
                    Confirmed);
  }

  lemma ReleaseKeepsValid(st: Stock, init: Inventory, o: OrderId, final: ReservationStatus)
    requires Valid(st, init) && Dead(final)
    ensures Valid(DropHolds(st, o, final), init)
    ensures Valid(Release(st, o, final), init)
  {
    var st1 := DropHolds(st, o, final);
    DropHoldsShifts(st, o, final);
    ShiftKeepsValid(st, st1, init, o, Query(st.rs, OfOrder(o, Reserved)), Some(Reserved), final);
    TakeBackShifts(st1, o, final);
    ShiftKeepsValid(st1, TakeBack(st1, o, final), init, o, Query(st1.rs, OfOrder(o, Confirmed)), Some(Confirmed),
                    final);
  }

  lemma ReleaseUnitsKeepsValid(st: Stock, init: Inventory, o: OrderId, p: ProductId, q: nat)
    requires Valid(st, init)
    ensures Valid(CutHeld(st, o, p, q), init)
    ensures Valid(ReleaseUnits(st, o, p, q), init)
  {
    var st1, q1 := CutHeld(st, o, p, q), AfterHeld(st, o, p, q);
    CutHeldShifts(st, o, p, q);
    ShiftKeepsValid(st, st1, init, o, FreedRows(st.rs, OfLine(o, p, Reserved), q, |st.rs|), Some(Reserved), Cancelled);
    FreedTotal(st.rs, OfLine(o, p, Reserved), q, |st.rs|);
    CutSoldShifts(st1, o, p, q1);
    ShiftKeepsValid(st1, CutSold(st1, o, p, q1), init, o, FreedRows(st1.rs, OfLine(o, p, Confirmed), q1, |st1.rs|),
                    Some(Confirmed), Cancelled);
  }
}
