/**
 * Where the stock of an order is taken from, call by call: its pickup counter first,
 * as much as there is, and of the other storages of the area as few as will do.
 */
module CounterLaws {
  import opened Wrappers
  import opened Tables
  import opened Allocation
  import opened StockSpec
  import opened StockLaws
  import opened Calendar
  import opened Orders
  import opened OrderLaws
  import opened EditLaws
  import opened Refunds
  import opened Payments
  import opened ShopLaws
  import opened UndoLaws
  import opened Catalogue
  import opened ShareLaws
  import opened Served
  import opened PaymentLaws

  // ---------------- What being served means ----------------

  function Gained(st: Stock, st': Stock, o: OrderId, p: ProductId, l: LocationId, s: ReservationStatus): int {
    Own(st', o, Key(l, p), s) - Own(st, o, Key(l, p), s)
  }

  /** What the pickup counter can give of `n` units. */
  function CounterPart(inv: Inventory, p: ProductId, n: nat, active: seq<LocationId>, pickup: Option<LocationId>): int {
    if pickup.Some? && pickup.value in active then Min(n, FreeAt(inv, p, pickup.value)) else 0
  }

  /** The storages, other than the counter, that gave something. */
  function OthersUsed(st: Stock, st': Stock, o: OrderId, p: ProductId, active: seq<LocationId>,
                      pickup: Option<LocationId>, s: ReservationStatus): set<LocationId> {
    set l | l in active && pickup != Some(l) && Gained(st, st', o, p, l, s) > 0
  }

  /**
   * Of the product, the counter gave all it could; what else was gained came from
   * enabled storages of the area, none giving more than it had free and each exactly its
   * share; and no smaller set of them could have covered it.
   */
  ghost predicate CounterFirst(st: Stock, st': Stock, o: OrderId, p: ProductId, n: nat, active: seq<LocationId>,
                               covering: Option<set<LocationId>>, pickup: Option<LocationId>, s: ReservationStatus) {
    var first := CounterPart(st.inv, p, n, active, pickup);
    && (pickup.Some? && pickup.value in active ==> Gained(st, st', o, p, pickup.value, s) == first)
    && (forall l: LocationId ::
          && 0 <= Gained(st, st', o, p, l, s) <= FreeAt(st.inv, p, l)
          && (Gained(st, st', o, p, l, s) > 0 ==> l in active && (pickup == Some(l) || Serves(covering, l))))
    && (forall l: LocationId :: l in active && (pickup == Some(l) || Serves(covering, l)) ==>
          Gained(st, st', o, p, l, s) == Share(st.inv, p, n, active, covering, pickup, l))
    && (forall chosen: set<LocationId> ::
          (forall l :: l in chosen ==> l in active && pickup != Some(l) && Serves(covering, l))
          && FreeIn(st.inv, p, active, chosen) >= n - first
          ==> |OthersUsed(st, st', o, p, active, pickup, s)| <= |chosen|)
  }

  // ---------------- One reservation ----------------

  /** Each storage used elsewhere has a row of its own. */
  lemma {:induction false} UsedWithinRows(rows: seq<Reservation>, preferred: Option<LocationId>, used: set<LocationId>)
    requires forall l :: l in used ==> preferred != Some(l) && exists r :: r in rows && r.loc == l
    ensures |used| <= Elsewhere(rows, preferred)
  {
    if rows == [] {
      assert used == {};
    } else {
      var n := |rows| - 1;
      var last := rows[n].loc;
      assert rows == rows[..n] + [rows[n]];
      forall l | l in used - {last} ensures exists r :: r in rows[..n] && r.loc == l {
        var r :| r in rows && r.loc == l;
        assert r in rows[..n];
      }
      UsedWithinRows(rows[..n], preferred, used - {last});
    }
  }

  lemma SomeRowThere(rows: seq<Reservation>, k: Key)
    requires Total(rows, AtKey(k)) > 0
    ensures exists r :: r in rows && r.loc == k.loc
  {
    if forall r :: r in rows ==> r.loc != k.loc {
      assert forall i :: 0 <= i < |rows| ==> rows[i] in rows;
      TotalZero(rows, AtKey(k));
    }
  }

  /** What a reservation gains at a storage is what its rows hold there. */
  lemma ReserveGains(st: Stock, o: OrderId, p: ProductId, q: nat, at: Reach, l: LocationId)
    requires RowsSound(st) && HoldsAgree(st) && Reserve(st, o, p, q, at).Some?
    ensures Gained(st, Reserve(st, o, p, q, at).value, o, p, l, Reserved)
            == Total(TakesFor(st, o, p, q, at), AtKey(Key(l, p)))
  {
    hide Reserve, TakesFor, Posted, RowsSound, HoldsAgree, Own;
    ReserveShifts(st, o, p, q, at);
    OwnAfterShift(st, Reserve(st, o, p, q, at).value, o, TakesFor(st, o, p, q, at),
                  None, Reserved, o, Key(l, p), Reserved);
  }

  lemma HeldAtIsAtKey(rows: seq<Reservation>, k: Key)
    requires forall r :: r in rows ==> r.status == Reserved
    ensures Total(rows, HeldAt(k)) == Total(rows, AtKey(k))
  {
    assert forall i :: 0 <= i < |rows| ==> rows[i] in rows;
    TotalSame(rows, HeldAt(k), AtKey(k));
  }

  lemma FewestOthers(st: Stock, o: OrderId, p: ProductId, q: nat, at: Reach, covering: Option<set<LocationId>>,
                     chosen: set<LocationId>)
    requires RowsSound(st) && HoldsAgree(st) && Reserve(st, o, p, q, at).Some?
    requires at.allowed == AllowedIn(covering, at.preferred)
    requires forall l :: l in chosen ==> l in at.active && at.preferred != Some(l) && Serves(covering, l)
    requires FreeIn(st.inv, p, at.active, chosen) >= q - CounterPart(st.inv, p, q, at.active, at.preferred)
    ensures |OthersUsed(st, Reserve(st, o, p, q, at).value, o, p, at.active, at.preferred, Reserved)| <= |chosen|
  {
    hide Reserve, TakesFor, RankedFor, Candidates, FreeIn, Elsewhere, RowsSound, HoldsAgree, Gained, FreeAt, Total;
    var st' := Reserve(st, o, p, q, at).value;
    var rows := TakesFor(st, o, p, q, at);
    var usable := set l | l in chosen && Key(l, p) in st.inv;
    ReserveIsOptimal(st, o, p, q, at);
    CounterPartIs(st.inv, p, q, at, covering);
    FreeInUsable(st.inv, p, at.active, chosen);
    RankedFrees(st.inv, p, at, usable);
    SubsetCard(usable, chosen);
    var used := OthersUsed(st, st', o, p, at.active, at.preferred, Reserved);
    forall l | l in used ensures at.preferred != Some(l) && exists r :: r in rows && r.loc == l {
      ReserveGains(st, o, p, q, at, l);
      SomeRowThere(rows, Key(l, p));
    }
    UsedWithinRows(rows, at.preferred, used);
  }

  lemma SubsetCard(a: set<LocationId>, b: set<LocationId>)
    requires a <= b
    ensures |a| <= |b|
  {
    assert b == a + (b - a);
  }

  /** The counter is always allowed, so only a missing row keeps it from giving. */
  lemma CounterPartIs(inv: Inventory, p: ProductId, q: nat, at: Reach, covering: Option<set<LocationId>>)
    requires at.allowed == AllowedIn(covering, at.preferred)
    ensures CounterPart(inv, p, q, at.active, at.preferred) == Min(q, FreeAtPreferred(inv, p, at))
  {
  }

  /** A reservation serves the counter first. */
  lemma ReserveServes(st: Stock, o: OrderId, p: ProductId, q: nat, at: Reach, covering: Option<set<LocationId>>)
    requires RowsSound(st) && HoldsAgree(st) && Reserve(st, o, p, q, at).Some?
    requires at.allowed == AllowedIn(covering, at.preferred)
    ensures CounterFirst(st, Reserve(st, o, p, q, at).value, o, p, q, at.active, covering, at.preferred, Reserved)
  {
    hide Reserve, TakesFor, FreeIn, RowsSound, HoldsAgree, Gained, OthersUsed, Total, CounterPart, FreeAt, Share;
    var st' := Reserve(st, o, p, q, at).value;
    var rows := TakesFor(st, o, p, q, at);
    forall l: LocationId
      ensures 0 <= Gained(st, st', o, p, l, Reserved) <= FreeAt(st.inv, p, l)
      ensures Gained(st, st', o, p, l, Reserved) > 0 ==>
                l in at.active && (at.preferred == Some(l) || Serves(covering, l))
    {
      ReserveGains(st, o, p, q, at, l);
      GainsFit(st, o, p, q, at, l);
    }
    forall l: LocationId | l in at.active && (at.preferred == Some(l) || Serves(covering, l))
      ensures Gained(st, st', o, p, l, Reserved) == Share(st.inv, p, q, at.active, covering, at.preferred, l)
    {
      ReserveGains(st, o, p, q, at, l);
      ShareIs(st, o, p, q, at, covering, l);
    }
    CounterGain(st, o, p, q, at, covering);
    forall chosen: set<LocationId> |
      (forall l :: l in chosen ==> l in at.active && at.preferred != Some(l) && Serves(covering, l))
      && FreeIn(st.inv, p, at.active, chosen) >= q - CounterPart(st.inv, p, q, at.active, at.preferred)
      ensures |OthersUsed(st, st', o, p, at.active, at.preferred, Reserved)| <= |chosen|
    {
      FewestOthers(st, o, p, q, at, covering, chosen);
    }
  }

  lemma CounterGain(st: Stock, o: OrderId, p: ProductId, q: nat, at: Reach, covering: Option<set<LocationId>>)
    requires RowsSound(st) && HoldsAgree(st) && Reserve(st, o, p, q, at).Some?
    requires at.allowed == AllowedIn(covering, at.preferred)
    ensures at.preferred.Some? ==>
              Gained(st, Reserve(st, o, p, q, at).value, o, p, at.preferred.value, Reserved)
              == CounterPart(st.inv, p, q, at.active, at.preferred)
  {
    hide Reserve, TakesFor, RankedFor, FreeIn, Elsewhere, RowsSound, HoldsAgree, Gained, Total,
         CounterPart, FreeAtPreferred;
    ReserveIsOptimal(st, o, p, q, at);
    CounterPartIs(st.inv, p, q, at, covering);
    HeldRows(st, o, p, q, at);
    if at.preferred.Some? {
      ReserveGains(st, o, p, q, at, at.preferred.value);
      HeldAtIsAtKey(TakesFor(st, o, p, q, at), Key(at.preferred.value, p));
    }
  }

  lemma HeldRows(st: Stock, o: OrderId, p: ProductId, q: nat, at: Reach)
    ensures forall r :: r in TakesFor(st, o, p, q, at) ==> r.status == Reserved
  {
    TakesRows(st.inv, o, p, RankedFor(st.inv, p, at), q);
  }

  lemma GainsFit(st: Stock, o: OrderId, p: ProductId, q: nat, at: Reach, l: LocationId)
    requires RowsSound(st) && HoldsAgree(st) && Reserve(st, o, p, q, at).Some?
    ensures Total(TakesFor(st, o, p, q, at), AtKey(Key(l, p))) <= FreeAt(st.inv, p, l)
    ensures Total(TakesFor(st, o, p, q, at), AtKey(Key(l, p))) > 0 ==>
              l in at.active && Usable(st.inv, p, at.allowed, l)
  {
    hide Takes, Total, Reserve, RankedFor, Candidates;
    RankedCandidates(st.inv, p, at);
    SoundIsNotOversold(st);
    TakesWithinFree(st.inv, o, p, RankedFor(st.inv, p, at), q, Key(l, p));
  }

  // ---------------- What does not touch a product ----------------

  ghost predicate SameOwn(st: Stock, st': Stock, o: OrderId, p: ProductId) {
    forall l: LocationId, s :: Own(st', o, Key(l, p), s) == Own(st, o, Key(l, p), s)
  }

  /** For this product and order, nothing is different: neither what is free nor what it has. */
  ghost predicate Untouched(st: Stock, st': Stock, o: OrderId, p: ProductId) {
    SameForProduct(st.inv, st'.inv, p) && SameOwn(st, st', o, p)
  }

  lemma UntouchedTransitive(a: Stock, b: Stock, c: Stock, o: OrderId, p: ProductId)
    requires Untouched(a, b, o, p) && Untouched(b, c, o, p)
    ensures Untouched(a, c, o, p)
  {
    hide Own;
  }

  /** A shift of another product's rows. */
  lemma ShiftElsewhere(st: Stock, st': Stock, o: OrderId, rows: seq<Reservation>, from: Option<ReservationStatus>,
                       to: ReservationStatus, p: ProductId)
    requires Shift(st, st', o, rows, from, to) && forall r :: r in rows ==> r.prod != p
    ensures Untouched(st, st', o, p)
  {
    hide Posted, Moved, RowsSound, Booked, Own, Total;
    PostedElsewhere(st.inv, rows, EffectOf(from, to), p);
    forall l: LocationId, s ensures Own(st', o, Key(l, p), s) == Own(st, o, Key(l, p), s) {
      OwnAfterShift(st, st', o, rows, from, to, o, Key(l, p), s);
      NoneOfProduct(rows, Key(l, p));
    }
  }

  lemma NoneOfProduct(rows: seq<Reservation>, k: Key)
    requires forall r :: r in rows ==> r.prod != k.prod
    ensures Total(rows, AtKey(k)) == 0
  {
    assert forall i :: 0 <= i < |rows| ==> rows[i] in rows;
    TotalZero(rows, AtKey(k));
  }

  lemma ReserveUntouched(st: Stock, o: OrderId, q: ProductId, n: nat, at: Reach, p: ProductId)
    requires RowsSound(st) && HoldsAgree(st) && Reserve(st, o, q, n, at).Some? && p != q
    ensures Untouched(st, Reserve(st, o, q, n, at).value, o, p)
  {
    hide Reserve, Takes, Shift, RankedFor, RowsSound, HoldsAgree;
    ReserveShifts(st, o, q, n, at);
    TakesRows(st.inv, o, q, RankedFor(st.inv, q, at), n);
    ShiftElsewhere(st, Reserve(st, o, q, n, at).value, o, TakesFor(st, o, q, n, at), None, Reserved, p);
  }

  lemma ConfirmProductUntouched(st: Stock, o: OrderId, q: ProductId, p: ProductId)
    requires RowsSound(st) && p != q
    ensures Untouched(st, ConfirmProduct(st, o, q), o, p)
  {
    hide Query, Shift, ConfirmProduct, RowsSound;
    ConfirmProductShifts(st, o, q);
    QueryRows(st.rs, OfLine(o, q, Reserved));
    ShiftElsewhere(st, ConfirmProduct(st, o, q), o, Query(st.rs, OfLine(o, q, Reserved)), Some(Reserved), Confirmed, p);
  }

  lemma ReleaseUnitsUntouched(st: Stock, o: OrderId, q: ProductId, n: nat, p: ProductId)
    requires RowsSound(st) && p != q
    ensures Untouched(st, ReleaseUnits(st, o, q, n), o, p)
  {
    hide CutHeld, CutSold, FreedRows, Moved, Posted, RowsSound, Untouched;
    var st1, left := CutHeld(st, o, q, n), AfterHeld(st, o, q, n);
    var j, k := OfLine(o, q, Reserved), OfLine(o, q, Confirmed);
    CutHeldShifts(st, o, q, n);
    RowsArePositive(st);
    FreedRowsFit(st.rs, j, n, |st.rs|);
    ShiftElsewhere(st, st1, o, FreedRows(st.rs, j, n, |st.rs|), Some(Reserved), Cancelled, p);
    FreedTotal(st.rs, j, n, |st.rs|);
    CutSoldShifts(st1, o, q, left);
    RowsArePositive(st1);
    FreedRowsFit(st1.rs, k, left, |st1.rs|);
    ShiftElsewhere(st1, CutSold(st1, o, q, left), o, FreedRows(st1.rs, k, left, |st1.rs|),
                  Some(Confirmed), Cancelled, p);
    UntouchedTransitive(st, st1, CutSold(st1, o, q, left), o, p);
  }

  /** Being served depends only on the product's own rows. */
  lemma CounterFirstCarries(a: Stock, b: Stock, a': Stock, b': Stock, o: OrderId, p: ProductId, n: nat,
                            active: seq<LocationId>, covering: Option<set<LocationId>>, pickup: Option<LocationId>,
                            s: ReservationStatus)
    requires CounterFirst(a, b, o, p, n, active, covering, pickup, s)
    requires Untouched(a, a', o, p) && Untouched(b, b', o, p)
    ensures CounterFirst(a', b', o, p, n, active, covering, pickup, s)
  {
    hide Own, FreeIn, FreeAt, OthersUsed, Gained, CounterPart, SameForProduct, SameOwn, Share;
    SameGains(a, b, a', b', o, p, s);
    SameParts(a.inv, a'.inv, p, n, active, pickup);
    SameOthers(a, b, a', b', o, p, active, pickup, s);
    forall chosen: set<LocationId> ensures FreeIn(a'.inv, p, active, chosen) == FreeIn(a.inv, p, active, chosen) {
      SameFreeIn(a.inv, a'.inv, p, active, chosen);
    }
    forall l: LocationId
      ensures Share(a'.inv, p, n, active, covering, pickup, l) == Share(a.inv, p, n, active, covering, pickup, l)
    {
      SameShare(a.inv, a'.inv, p, n, active, covering, pickup, l);
    }
  }

  lemma SameShare(inv: Inventory, inv': Inventory, p: ProductId, n: nat, active: seq<LocationId>,
                  covering: Option<set<LocationId>>, pickup: Option<LocationId>, l: LocationId)
    requires SameForProduct(inv, inv', p)
    ensures Share(inv', p, n, active, covering, pickup, l) == Share(inv, p, n, active, covering, pickup, l)
  {
    hide FreeAt, FreeIn, ListedBefore;
    SameParts(inv, inv', p, n, active, pickup);
    var before := set m | m in active && (pickup == Some(m) || Serves(covering, m))
                          && DrawnBefore(inv, p, active, pickup, m, l);
    assert before == set m | m in active && (pickup == Some(m) || Serves(covering, m))
                             && DrawnBefore(inv', p, active, pickup, m, l);
    SameFreeIn(inv, inv', p, active, before);
  }

  lemma SameGains(a: Stock, b: Stock, a': Stock, b': Stock, o: OrderId, p: ProductId, s: ReservationStatus)
    requires SameOwn(a, a', o, p) && SameOwn(b, b', o, p)
    ensures forall l: LocationId :: Gained(a', b', o, p, l, s) == Gained(a, b, o, p, l, s)
  {
    hide Own;
  }

  lemma SameParts(inv: Inventory, inv': Inventory, p: ProductId, n: nat, active: seq<LocationId>,
                  pickup: Option<LocationId>)
    requires SameForProduct(inv, inv', p)
    ensures CounterPart(inv', p, n, active, pickup) == CounterPart(inv, p, n, active, pickup)
    ensures forall l: LocationId :: FreeAt(inv', p, l) == FreeAt(inv, p, l)
  {
  }

  lemma SameOthers(a: Stock, b: Stock, a': Stock, b': Stock, o: OrderId, p: ProductId, active: seq<LocationId>,
                   pickup: Option<LocationId>, s: ReservationStatus)
    requires forall l: LocationId :: Gained(a', b', o, p, l, s) == Gained(a, b, o, p, l, s)
    ensures OthersUsed(a', b', o, p, active, pickup, s) == OthersUsed(a, b, o, p, active, pickup, s)
  {
    hide Gained;
  }

  lemma {:induction false} SameFreeIn(inv: Inventory, inv': Inventory, p: ProductId, ls: seq<LocationId>,
                                      chosen: set<LocationId>)
    requires SameForProduct(inv, inv', p)
    ensures FreeIn(inv', p, ls, chosen) == FreeIn(inv, p, ls, chosen)
  {
    if ls != [] {
      SameFreeIn(inv, inv', p, ls[..|ls| - 1], chosen);
    }
  }

  lemma UntouchedByNothing(st: Stock, o: OrderId, p: ProductId)
    ensures Untouched(st, st, o, p)
  {
  }

  // ---------------- All the lines of an order ----------------

  ghost predicate LineServed(st: Stock, st': Stock, o: OrderId, l: Line, area: Area, pickup: Option<LocationId>) {
    CounterFirst(st, st', o, l.prod, l.quantity, area.rows(l.prod), area.covering, pickup, Reserved)
  }

  lemma LastLineServed(st: Stock, init: Inventory, o: OrderId, l: Line, area: Area, pickup: Option<LocationId>)
    requires Valid(st, init) && Reserve(st, o, l.prod, l.quantity, ReachFor(area, pickup, l.prod)).Some?
    ensures LineServed(st, Reserve(st, o, l.prod, l.quantity, ReachFor(area, pickup, l.prod)).value, o, l, area, pickup)
  {
    hide Reserve, CounterFirst, RowsSound, HoldsAgree;
    ValidSound(st, init);
    ReserveServes(st, o, l.prod, l.quantity, ReachFor(area, pickup, l.prod), area.covering);
  }

  /** Every line of an order reserved is served at the counter first, and nothing of other products is touched. */
  lemma {:induction false} LinesServed(st: Stock, init: Inventory, o: OrderId, ls: seq<Line>, area: Area,
                                       pickup: Option<LocationId>)
    requires Valid(st, init) && ReserveLines(st, o, ls, area, pickup).Some?
    requires forall i, j :: 0 <= i < j < |ls| ==> ls[i].prod != ls[j].prod
    ensures var st' := ReserveLines(st, o, ls, area, pickup).value;
            && (forall i :: 0 <= i < |ls| ==> LineServed(st, st', o, ls[i], area, pickup))
            && (forall p :: (forall i :: 0 <= i < |ls| ==> ls[i].prod != p) ==> Untouched(st, st', o, p))
  {
    hide Valid, Reserve, LineServed, Untouched;
    if ls == [] {
      forall p ensures Untouched(st, st, o, p) {
        UntouchedByNothing(st, o, p);
      }
    } else {
      var n := |ls| - 1;
      var l, first := ls[n], ls[..n];
      var st1 := ReserveLines(st, o, first, area, pickup).value;
      var st' := ReserveLines(st, o, ls, area, pickup).value;
      LinesServed(st, init, o, first, area, pickup);
      ReserveLinesKeep(st, init, o, first, area, pickup);
      LastLineServed(st1, init, o, l, area, pickup);
      forall p | p != l.prod ensures Untouched(st1, st', o, p) {
        LastLineUntouched(st1, init, o, l, area, pickup, p);
      }
      LineServedCarries(st1, st', st, st', o, l, area, pickup);
      forall i | 0 <= i < n ensures LineServed(st, st', o, ls[i], area, pickup) {
        assert first[i] == ls[i];
        LineServedCarries(st, st1, st, st', o, ls[i], area, pickup);
      }
      forall p | forall i :: 0 <= i < |ls| ==> ls[i].prod != p ensures Untouched(st, st', o, p) {
        UntouchedTransitive(st, st1, st', o, p);
      }
    }
  }

  lemma LastLineUntouched(st: Stock, init: Inventory, o: OrderId, l: Line, area: Area, pickup: Option<LocationId>,
                          p: ProductId)
    requires Valid(st, init) && Reserve(st, o, l.prod, l.quantity, ReachFor(area, pickup, l.prod)).Some? && p != l.prod
    ensures Untouched(st, Reserve(st, o, l.prod, l.quantity, ReachFor(area, pickup, l.prod)).value, o, p)
  {
    hide Reserve, Untouched, RowsSound, HoldsAgree;
    ValidSound(st, init);
    ReserveUntouched(st, o, l.prod, l.quantity, ReachFor(area, pickup, l.prod), p);
  }

  lemma LineServedCarries(a: Stock, b: Stock, a': Stock, b': Stock, o: OrderId, l: Line, area: Area,
                          pickup: Option<LocationId>)
    requires LineServed(a, b, o, l, area, pickup)
    requires (a' == a || Untouched(a', a, o, l.prod)) && (b' == b || Untouched(b, b', o, l.prod))
    ensures LineServed(a', b', o, l, area, pickup)
  {
    hide CounterFirst, SameForProduct, SameOwn;
    UntouchedByNothing(a, o, l.prod);
    UntouchedByNothing(b, o, l.prod);
    if a' != a {
      UntouchedBack(a', a, o, l.prod);
    }
    CounterFirstCarries(a, b, a', b', o, l.prod, l.quantity, area.rows(l.prod), area.covering, pickup, Reserved);
  }

  lemma UntouchedBack(a: Stock, b: Stock, o: OrderId, p: ProductId)
    requires Untouched(a, b, o, p)
    ensures Untouched(b, a, o, p)
  {
    hide Own;
  }

  // ---------------- Held, then taken ----------------

  /** The order holds nothing of the product anywhere. */
  ghost predicate HoldsNone(st: Stock, o: OrderId, p: ProductId) {
    forall l: LocationId :: Own(st, o, Key(l, p), Reserved) == 0
  }

  /** What was held is taken from where it was held. */
  ghost predicate TakenWhereHeld(st: Stock, st': Stock, o: OrderId, p: ProductId) {
    forall l: LocationId ::
      Own(st', o, Key(l, p), Confirmed) == Own(st, o, Key(l, p), Confirmed) + Own(st, o, Key(l, p), Reserved)
  }

  lemma QueryAt(rs: seq<Reservation>, j: Pick, o: OrderId, k: Key)
    requires j == OfOrder(o, Reserved) || j == OfLine(o, k.prod, Reserved)
    ensures Total(Query(rs, j), AtKey(k)) == Total(rs, OfOrderAt(o, k, Reserved))
  {
    hide Total, Query;
    TotalOfQuery(rs, j, AtKey(k), OfOrderAt(o, k, Reserved));
  }

  lemma ConfirmTakes(st: Stock, o: OrderId, p: ProductId)
    requires RowsSound(st)
    ensures TakenWhereHeld(st, Confirm(st, o), o, p)
  {
    hide Query, Confirm, RowsSound, Posted, Booked, Moved, Own;
    var rows := Query(st.rs, OfOrder(o, Reserved));
    ConfirmShifts(st, o);
    forall l: LocationId
      ensures Own(Confirm(st, o), o, Key(l, p), Confirmed)
              == Own(st, o, Key(l, p), Confirmed) + Own(st, o, Key(l, p), Reserved)
    {
      OwnAfterShift(st, Confirm(st, o), o, rows, Some(Reserved), Confirmed, o, Key(l, p), Confirmed);
      QueryAt(st.rs, OfOrder(o, Reserved), o, Key(l, p));
      OwnIs(st, o, Key(l, p), Reserved);
    }
  }

  lemma OwnIs(st: Stock, o: OrderId, k: Key, s: ReservationStatus)
    ensures Own(st, o, k, s) == Total(st.rs, OfOrderAt(o, k, s))
  {
  }

  lemma ConfirmProductTakes(st: Stock, o: OrderId, p: ProductId)
    requires RowsSound(st)
    ensures TakenWhereHeld(st, ConfirmProduct(st, o, p), o, p)
  {
    hide Query, ConfirmProduct, RowsSound, Posted, Booked, Moved, Own;
    var rows := Query(st.rs, OfLine(o, p, Reserved));
    ConfirmProductShifts(st, o, p);
    forall l: LocationId
      ensures Own(ConfirmProduct(st, o, p), o, Key(l, p), Confirmed)
              == Own(st, o, Key(l, p), Confirmed) + Own(st, o, Key(l, p), Reserved)
    {
      OwnAfterShift(st, ConfirmProduct(st, o, p), o, rows, Some(Reserved), Confirmed, o, Key(l, p), Confirmed);
      QueryAt(st.rs, OfLine(o, p, Reserved), o, Key(l, p));
      OwnIs(st, o, Key(l, p), Reserved);
    }
  }

  /** A reservation leaves what was taken as it was. */
  lemma ReserveTakesNothing(st: Stock, o: OrderId, q: ProductId, n: nat, at: Reach, k: Key)
    requires RowsSound(st) && HoldsAgree(st) && Reserve(st, o, q, n, at).Some?
    ensures Own(Reserve(st, o, q, n, at).value, o, k, Confirmed) == Own(st, o, k, Confirmed)
  {
    hide Reserve, TakesFor, Posted, RowsSound, HoldsAgree, Own, Moved;
    ReserveShifts(st, o, q, n, at);
    OwnAfterShift(st, Reserve(st, o, q, n, at).value, o, TakesFor(st, o, q, n, at), None, Reserved, o, k, Confirmed);
  }

  lemma {:induction false} LinesTakeNothing(st: Stock, init: Inventory, o: OrderId, ls: seq<Line>, area: Area,
                                            pickup: Option<LocationId>, k: Key)
    requires Valid(st, init) && ReserveLines(st, o, ls, area, pickup).Some?
    ensures Own(ReserveLines(st, o, ls, area, pickup).value, o, k, Confirmed) == Own(st, o, k, Confirmed)
  {
    hide Valid, Reserve, RowsSound, HoldsAgree, Own;
    if ls != [] {
      var l, first := ls[|ls| - 1], ls[..|ls| - 1];
      var st1 := ReserveLines(st, o, first, area, pickup).value;
      LinesTakeNothing(st, init, o, first, area, pickup, k);
      ReserveLinesKeep(st, init, o, first, area, pickup);
      ValidSound(st1, init);
      ReserveTakesNothing(st1, o, l.prod, l.quantity, ReachFor(area, pickup, l.prod), k);
    }
  }

  /** Held where the counter comes first, and then taken: taken where the counter came first. */
  lemma ThenTaken(st: Stock, st1: Stock, st2: Stock, o: OrderId, p: ProductId, n: nat, active: seq<LocationId>,
                  covering: Option<set<LocationId>>, pickup: Option<LocationId>)
    requires CounterFirst(st, st1, o, p, n, active, covering, pickup, Reserved)
    requires HoldsNone(st, o, p) && TakenWhereHeld(st1, st2, o, p)
    requires forall l: LocationId :: Own(st1, o, Key(l, p), Confirmed) == Own(st, o, Key(l, p), Confirmed)
    ensures CounterFirst(st, st2, o, p, n, active, covering, pickup, Confirmed)
  {
    hide Own, FreeIn, FreeAt, CounterPart, Share;
    forall l: LocationId ensures Gained(st, st2, o, p, l, Confirmed) == Gained(st, st1, o, p, l, Reserved) {
      assert Own(st1, o, Key(l, p), Confirmed) == Own(st, o, Key(l, p), Confirmed);
    }
    assert OthersUsed(st, st2, o, p, active, pickup, Confirmed) == OthersUsed(st, st1, o, p, active, pickup, Reserved);
  }

  lemma NoneHeld(st: Stock, o: OrderId, p: ProductId)
    requires Live(st, o, p, Reserved) == 0
    ensures HoldsNone(st, o, p)
  {
    hide Total;
    forall l: LocationId ensures Own(st, o, Key(l, p), Reserved) == 0 {
      TotalWithin(st.rs, OfOrderAt(o, Key(l, p), Reserved), OfLine(o, p, Reserved));
    }
  }

  // ---------------- The rises of an edit ----------------

  lemma {:induction false} FallsUntouched(st: Stock, init: Inventory, o: OrderId, cur: seq<Line>, inc: seq<Line>,
                                          p: ProductId)
    requires Valid(st, init)
    requires forall i :: 0 <= i < |cur| && cur[i].prod == p ==> cur[i].quantity <= LineQty(inc, p)
    ensures Untouched(st, DropLines(st, o, cur, inc), o, p)
  {
    hide Valid, ReleaseUnits, LineQty, Untouched;
    if cur == [] {
      UntouchedByNothing(st, o, p);
    } else {
      var l, first := cur[|cur| - 1], cur[..|cur| - 1];
      var st1 := DropLines(st, o, first, inc);
      FallsUntouched(st, init, o, first, inc, p);
      DropLinesIsOwn(st, init, o, first, inc);
      ValidSound(st1, init);
      var drop := l.quantity - LineQty(inc, l.prod);
      if drop > 0 {
        ReleaseUnitsUntouched(st1, o, l.prod, drop, p);
        UntouchedTransitive(st, st1, DropLines(st, o, cur, inc), o, p);
      }
    }
  }

  lemma RiseUntouched(st: Stock, init: Inventory, o: OrderId, l: Line, had: nat, committed: bool, area: Area,
                      pickup: Option<LocationId>, p: ProductId)
    requires Valid(st, init) && RaiseLine(st, o, l, had, committed, area, pickup).Some? && p != l.prod
    ensures Untouched(st, RaiseLine(st, o, l, had, committed, area, pickup).value, o, p)
  {
    hide Valid, Reserve, ConfirmProduct, Untouched, RowsSound, HoldsAgree;
    if l.quantity <= had {
      UntouchedByNothing(st, o, p);
    } else {
      var at, n := ReachFor(area, pickup, l.prod), l.quantity - had;
      var st1 := Reserve(st, o, l.prod, n, at).value;
      ValidSound(st, init);
      ReserveUntouched(st, o, l.prod, n, at, p);
      if committed {
        ReserveKeepsValid(st, init, o, l.prod, n, at);
        ValidSound(st1, init);
        ConfirmProductUntouched(st1, o, l.prod, p);
        UntouchedTransitive(st, st1, ConfirmProduct(st1, o, l.prod), o, p);
      }
    }
  }

  function StatusOf(committed: bool): ReservationStatus {
    if committed then Confirmed else Reserved
  }

  ghost predicate RiseServed(st: Stock, st': Stock, o: OrderId, p: ProductId, n: int, committed: bool, area: Area,
                             pickup: Option<LocationId>) {
    n > 0 ==> CounterFirst(st, st', o, p, n, area.rows(p), area.covering, pickup, StatusOf(committed))
  }

  lemma OneRiseServed(st: Stock, init: Inventory, o: OrderId, l: Line, had: nat, committed: bool, area: Area,
                      pickup: Option<LocationId>)
    requires Valid(st, init) && RaiseLine(st, o, l, had, committed, area, pickup).Some?
    requires committed ==> HoldsNone(st, o, l.prod)
    ensures RiseServed(st, RaiseLine(st, o, l, had, committed, area, pickup).value, o, l.prod, l.quantity - had,
                       committed, area, pickup)
  {
    hide Valid, Reserve, ConfirmProduct, CounterFirst, RowsSound, HoldsAgree, HoldsNone, TakenWhereHeld, Own;
    if l.quantity > had {
      var p, at, n := l.prod, ReachFor(area, pickup, l.prod), l.quantity - had;
      var st1 := Reserve(st, o, p, n, at).value;
      ValidSound(st, init);
      ReserveServes(st, o, p, n, at, area.covering);
      if committed {
        ReserveKeepsValid(st, init, o, p, n, at);
        ValidSound(st1, init);
        ConfirmProductTakes(st1, o, p);
        forall k: LocationId ensures Own(st1, o, Key(k, p), Confirmed) == Own(st, o, Key(k, p), Confirmed) {
          ReserveTakesNothing(st, o, p, n, at, Key(k, p));
        }
        ThenTaken(st, st1, ConfirmProduct(st1, o, p), o, p, n, area.rows(p), area.covering, pickup);
      }
    }
  }

  lemma RiseServedCarries(a: Stock, b: Stock, a': Stock, b': Stock, o: OrderId, p: ProductId, n: int, committed: bool,
                          area: Area, pickup: Option<LocationId>)
    requires RiseServed(a, b, o, p, n, committed, area, pickup)
    requires Untouched(a', a, o, p) && Untouched(b, b', o, p)
    ensures RiseServed(a', b', o, p, n, committed, area, pickup)
  {
    hide CounterFirst, Untouched;
    UntouchedBack(a', a, o, p);
    if n > 0 {
      CounterFirstCarries(a, b, a', b', o, p, n, area.rows(p), area.covering, pickup, StatusOf(committed));
    }
  }

  lemma HoldsNoneCarries(st: Stock, st': Stock, o: OrderId, p: ProductId)
    requires HoldsNone(st, o, p) && Untouched(st, st', o, p)
    ensures HoldsNone(st', o, p)
  {
    hide Own;
  }

  lemma {:induction false} RisesServed(st: Stock, init: Inventory, o: OrderId, inc: seq<Line>, cur: seq<Line>,
                                       committed: bool, area: Area, pickup: Option<LocationId>)
    requires Valid(st, init) && RaiseLines(st, o, inc, cur, committed, area, pickup).Some?
    requires forall i, j :: 0 <= i < j < |inc| ==> inc[i].prod != inc[j].prod
    requires committed ==> forall i :: 0 <= i < |inc| && Rise(inc[i], cur) > 0 ==> HoldsNone(st, o, inc[i].prod)
    ensures var st' := RaiseLines(st, o, inc, cur, committed, area, pickup).value;
            && (forall i :: 0 <= i < |inc| ==>
                  RiseServed(st, st', o, inc[i].prod, Rise(inc[i], cur), committed, area, pickup))
            && (forall p :: (forall i :: 0 <= i < |inc| ==> inc[i].prod != p) ==> Untouched(st, st', o, p))
  {
    hide Valid, RaiseLine, RiseServed, Untouched, HoldsNone, LineQty;
    if inc == [] {
      forall p ensures Untouched(st, st, o, p) {
        UntouchedByNothing(st, o, p);
      }
    } else {
      var n := |inc| - 1;
      var l, first := inc[n], inc[..n];
      var had := LineQty(cur, l.prod);
      var st1 := RaiseLines(st, o, first, cur, committed, area, pickup).value;
      var st' := RaiseLines(st, o, inc, cur, committed, area, pickup).value;
      assert forall i :: 0 <= i < n ==> first[i] == inc[i];
      RisesServed(st, init, o, first, cur, committed, area, pickup);
      RaiseLinesIsOwn(st, init, o, first, cur, committed, area, pickup);
      if Rise(l, cur) > 0 {
        if committed {
          HoldsNoneCarries(st, st1, o, l.prod);
        }
        OneRiseServed(st1, init, o, l, had, committed, area, pickup);
        UntouchedByNothing(st', o, l.prod);
        RiseServedCarries(st1, st', st, st', o, l.prod, Rise(l, cur), committed, area, pickup);
      } else {
        NothingToServe(st, st', o, l.prod, Rise(l, cur), committed, area, pickup);
      }
      forall p | p != l.prod ensures Untouched(st1, st', o, p) {
        RiseUntouched(st1, init, o, l, had, committed, area, pickup, p);
      }
      forall i | 0 <= i < n ensures RiseServed(st, st', o, inc[i].prod, Rise(inc[i], cur), committed, area, pickup) {
        UntouchedByNothing(st, o, inc[i].prod);
        RiseServedCarries(st, st1, st, st', o, inc[i].prod, Rise(inc[i], cur), committed, area, pickup);
      }
      forall p | forall i :: 0 <= i < |inc| ==> inc[i].prod != p ensures Untouched(st, st', o, p) {
        UntouchedTransitive(st, st1, st', o, p);
      }
    }
  }

  lemma NothingToServe(st: Stock, st': Stock, o: OrderId, p: ProductId, n: int, committed: bool, area: Area,
                       pickup: Option<LocationId>)
    requires n <= 0
    ensures RiseServed(st, st', o, p, n, committed, area, pickup)
  {
  }

  // ---------------- Whole calls ----------------

  /** What an order that had nothing of a product now holds or has taken at its counter: all the counter could give. */
  ghost predicate AtCounter(st: Stock, st': Stock, o: OrderId, p: ProductId, n: nat, active: seq<LocationId>,
                            pickup: Option<LocationId>, s: ReservationStatus) {
    forall c: LocationId :: pickup == Some(c) && c in active ==>
      Total(st'.rs, OfOrderAt(o, Key(c, p), s)) == Min(n, FreeAt(st.inv, p, c))
  }

  lemma FromNothing(st: Stock, st': Stock, o: OrderId, p: ProductId, n: nat, active: seq<LocationId>,
                    covering: Option<set<LocationId>>, pickup: Option<LocationId>, s: ReservationStatus)
    requires CounterFirst(st, st', o, p, n, active, covering, pickup, s)
    requires forall l: LocationId :: Own(st, o, Key(l, p), s) == 0
    ensures AtCounter(st, st', o, p, n, active, pickup, s)
  {
    hide FreeIn, FreeAt, Total, OthersUsed, Share;
    forall c: LocationId | pickup == Some(c) && c in active
      ensures Total(st'.rs, OfOrderAt(o, Key(c, p), s)) == Min(n, FreeAt(st.inv, p, c))
    {
      OwnIs(st', o, Key(c, p), s);
      assert Own(st, o, Key(c, p), s) == 0;
    }
  }

  lemma OwnsNothing(shop: Shop, init: Inventory, o: OrderId, p: ProductId)
    requires Inv(shop, init) && (o < |shop.orders| ==> shop.orders[o].status == CANCELLED)
    ensures forall l: LocationId ::
              Own(shop.stock, o, Key(l, p), Reserved) == 0 && Own(shop.stock, o, Key(l, p), Confirmed) == 0
  {
    hide Inv, Own;
    forall l: LocationId
      ensures Own(shop.stock, o, Key(l, p), Reserved) == 0 && Own(shop.stock, o, Key(l, p), Confirmed) == 0
    {
      NothingOwned(shop, init, o, Key(l, p));
    }
  }

  /** A new order holds each of its lines at its counter first, and beyond it at as few storages as will do. */
  lemma CreateServesTheCounter(shop: Shop, init: Inventory, req: NewOrder, area: Area, now: Instant, i: nat)
    requires Inv(shop, init) && Create(shop, req, area, now).1 == Done && i < |req.lines|
    ensures var st', p, n := Create(shop, req, area, now).0.stock, req.lines[i].prod, req.lines[i].quantity;
            && CounterFirst(shop.stock, st', |shop.orders|, p, n, area.rows(p), area.covering, req.pickup, Reserved)
            && AtCounter(shop.stock, st', |shop.orders|, p, n, area.rows(p), req.pickup, Reserved)
  {
    hide Inv, ReserveLines, CounterFirst, AtCounter, NewOrderOf, Own, ToLine;
    var o, ls := |shop.orders|, ToLines(req.lines);
    InvIsValid(shop, init);
    LinesServed(shop.stock, init, o, ls, area, req.pickup);
    LineIsAsked(req.lines[i]);
    assert ls[i] == ToLine(req.lines[i]);
    assert LineServed(shop.stock, ReserveLines(shop.stock, o, ls, area, req.pickup).value, o, ls[i], area, req.pickup);
    OwnsNothing(shop, init, o, ls[i].prod);
    FromNothing(shop.stock, Create(shop, req, area, now).0.stock, o, ls[i].prod, ls[i].quantity, area.rows(ls[i].prod),
                area.covering, req.pickup, Reserved);
  }

  lemma LineIsAsked(l: PricedLine)
    ensures ToLine(l).prod == l.prod && ToLine(l).quantity == l.quantity
  {
  }

  /** Line `i` of a cancelled order whose lines have just been held again. */
  lemma HeldAgainAtCounter(shop: Shop, init: Inventory, o: OrderId, area: Area, st': Stock, i: nat)
    requires Inv(shop, init) && o < |shop.orders| && shop.orders[o].status == CANCELLED
    requires ReserveLines(shop.stock, o, shop.orders[o].lines, area, shop.orders[o].pickup) == Some(st')
    requires i < |shop.orders[o].lines|
    ensures var order, l := shop.orders[o], shop.orders[o].lines[i];
            && CounterFirst(shop.stock, st', o, l.prod, l.quantity, area.rows(l.prod), area.covering,
                            order.pickup, Reserved)
            && AtCounter(shop.stock, st', o, l.prod, l.quantity, area.rows(l.prod), order.pickup, Reserved)
  {
    hide Inv, ReserveLines, CounterFirst, AtCounter, Own;
    var order, l := shop.orders[o], shop.orders[o].lines[i];
    InvIsValid(shop, init);
    LinesAreProper(shop, init, o);
    LinesServed(shop.stock, init, o, order.lines, area, order.pickup);
    assert LineServed(shop.stock, st', o, l, area, order.pickup);
    OwnsNothing(shop, init, o, l.prod);
    FromNothing(shop.stock, st', o, l.prod, l.quantity, area.rows(l.prod), area.covering, order.pickup, Reserved);
  }

  /** So does a reinstated one. */
  lemma ReinstateServesTheCounter(shop: Shop, init: Inventory, o: OrderId, area: Area, now: Instant, i: nat)
    requires Inv(shop, init) && Reinstate(shop, o, area, now).1 == Done && i < |shop.orders[o].lines|
    ensures var st', order, l := Reinstate(shop, o, area, now).0.stock, shop.orders[o], shop.orders[o].lines[i];
            && CounterFirst(shop.stock, st', o, l.prod, l.quantity, area.rows(l.prod), area.covering,
                            order.pickup, Reserved)
            && AtCounter(shop.stock, st', o, l.prod, l.quantity, area.rows(l.prod), order.pickup, Reserved)
  {
    hide Inv, ReserveLines, CounterFirst, AtCounter;
    HeldAgainAtCounter(shop, init, o, area, Reinstate(shop, o, area, now).0.stock, i);
  }

  /** And one that a late payment brings back to life. */
  lemma LatePaymentServesTheCounter(shop: Shop, init: Inventory, c: Charge, area: Area, now: Instant, i: nat)
    requires Inv(shop, init) && c.order < |shop.orders| && c.status == Succeeded
    requires var order := shop.orders[c.order];
             order.status == CANCELLED && order.reason == Some(PaymentNotReceived) && order.payment != Paid
    requires Propagate(shop, c, area, now).orders[c.order].status == PENDING
    requires i < |shop.orders[c.order].lines|
    ensures var st', order, l := Propagate(shop, c, area, now).stock,
            shop.orders[c.order], shop.orders[c.order].lines[i];
            && CounterFirst(shop.stock, st', c.order, l.prod, l.quantity, area.rows(l.prod), area.covering,
                            order.pickup, Reserved)
            && AtCounter(shop.stock, st', c.order, l.prod, l.quantity, area.rows(l.prod), order.pickup, Reserved)
  {
    hide Inv, ReserveLines, CounterFirst, AtCounter, Propagate, PaidBy, StayedCancelled, CartLines;
    var o, order := c.order, shop.orders[c.order];
    var st' := ReserveLines(shop.stock, o, order.lines, area, order.pickup);
    LateIsReinstated(shop, c, area, now);
    if st'.None? {
      LateAndUnserved(shop, c, area, now);
      CancelledStays(shop, Propagate(shop, c, area, now), o, c, now);
    } else {
      HeldAgainAtCounter(shop, init, o, area, st'.value, i);
    }
  }

  lemma CancelledStays(shop: Shop, shop': Shop, o: OrderId, c: Charge, now: Instant)
    requires o < |shop.orders| && StayedCancelled(shop, shop', o, c, now)
    ensures shop'.orders[o].status == CANCELLED
  {
  }

  /** What an edit adds to a line is served the same way: held, or taken if the order is committed. */
  lemma EditServesTheCounter(shop: Shop, init: Inventory, o: OrderId, reqs: seq<LineRequest>,
                             offers: map<ProductId, Offer>, area: Area, i: nat)
    requires Inv(shop, init) && UpdateItems(shop, o, reqs, offers, area).1 == Done && i < |reqs|
    requires shop.orders[o].status != CANCELLED
    requires reqs[i].quantity > LineQty(shop.orders[o].lines, reqs[i].prod)
    ensures var st', order, p := UpdateItems(shop, o, reqs, offers, area).0.stock, shop.orders[o], reqs[i].prod;
            CounterFirst(shop.stock, st', o, p, reqs[i].quantity - LineQty(order.lines, p), area.rows(p), area.covering,
                         order.pickup, if order.status == PENDING then Reserved else Confirmed)
  {
    hide Inv, CounterFirst, EditedStock, SameLines, Saved, Subtotal, ToLine, ResolveLine, LineQty;
    var order, cur := shop.orders[o], shop.orders[o].lines;
    var priced := ResolveLines(reqs, cur, offers).1;
    var inc := ToLines(priced);
    forall k | 0 <= k < |inc| ensures inc[k].prod == reqs[k].prod && inc[k].quantity == reqs[k].quantity {
      LineIsAsked(priced[k]);
    }
    InvIsValid(shop, init);
    LinesAreProper(shop, init, o);
    EditedRiseServed(shop.stock, init, shop.orders, o, inc, area, i);
  }

  lemma EditedRiseServed(st: Stock, init: Inventory, orders: seq<Order>, o: OrderId, inc: seq<Line>, area: Area, i: nat)
    requires Valid(st, init) && Coupled(st, orders) && o < |orders| && orders[o].status != CANCELLED
    requires Orders.ProperLines(orders[o].lines) && Orders.ProperLines(inc)
    requires EditedStock(st, o, orders[o], inc, area).Some?
    requires i < |inc| && Rise(inc[i], orders[o].lines) > 0
    ensures var order, p := orders[o], inc[i].prod;
            CounterFirst(st, EditedStock(st, o, order, inc, area).value, o, p, Rise(inc[i], order.lines), area.rows(p),
                         area.covering, order.pickup, if order.status == PENDING then Reserved else Confirmed)
  {
    hide Valid, DropLines, RaiseLines, CounterFirst, LineQty, Untouched, HoldsNone, Live, Orders.ProperLines;
    var order, cur := orders[o], orders[o].lines;
    var committed := StockPhase(order.status) == Committed;
    var st1 := DropLines(st, o, cur, inc);
    var st' := EditedStock(st, o, order, inc, area).value;
    DropLinesIsOwn(st, init, o, cur, inc);
    forall k | 0 <= k < |inc| && Rise(inc[k], cur) > 0
      ensures Untouched(st, st1, o, inc[k].prod) && (committed ==> HoldsNone(st1, o, inc[k].prod))
    {
      RisingIsUntouched(st, init, o, cur, inc, k);
      if committed {
        assert Live(st, o, inc[k].prod, Reserved) == Due(orders, o, inc[k].prod, Held);
        NoneHeld(st, o, inc[k].prod);
        HoldsNoneCarries(st, st1, o, inc[k].prod);
      }
    }
    ProductsDiffer(inc);
    RisesServed(st1, init, o, inc, cur, committed, area, order.pickup);
    UntouchedByNothing(st', o, inc[i].prod);
    RiseServedCarries(st1, st', st, st', o, inc[i].prod, Rise(inc[i], cur), committed, area, order.pickup);
  }

  lemma ProductsDiffer(ls: seq<Line>)
    requires Orders.ProperLines(ls)
    ensures forall i, j :: 0 <= i < j < |ls| ==> ls[i].prod != ls[j].prod
  {
  }

  lemma RisingIsUntouched(st: Stock, init: Inventory, o: OrderId, cur: seq<Line>, inc: seq<Line>, i: nat)
    requires Valid(st, init) && Orders.ProperLines(cur) && Orders.ProperLines(inc)
    requires i < |inc| && Rise(inc[i], cur) > 0
    ensures Untouched(st, DropLines(st, o, cur, inc), o, inc[i].prod)
  {
    hide Valid, DropLines, LineQty, Untouched, Orders.ProperLines;
    var p := inc[i].prod;
    LineQtyAt(inc, i);
    forall k | 0 <= k < |cur| && cur[k].prod == p ensures cur[k].quantity <= LineQty(inc, p) {
      LineQtyAt(cur, k);
    }
    FallsUntouched(st, init, o, cur, inc, p);
  }

  /**
   * A correction that has to hold the lines again serves them the same way, counting
   * what it gave back itself, and takes them from there if the new status is committed.
   */
  lemma CorrectServesTheCounter(shop: Shop, init: Inventory, o: OrderId, to: OrderStatus,
                                payment: Option<PaymentStatus>, area: Area, now: Instant, i: nat)
    requires Inv(shop, init) && Correct(shop, o, Some(to), payment, area, now).1 == Done
    requires to != CANCELLED && shop.orders[o].status != PENDING && i < |shop.orders[o].lines|
    requires shop.orders[o].status == CANCELLED || to == PENDING
    ensures var order, l := shop.orders[o], shop.orders[o].lines[i];
            var st := if order.status == CANCELLED then shop.stock
                      else Release(shop.stock, o, ReservationStatus.Cancelled);
            var st' := Correct(shop, o, Some(to), payment, area, now).0.stock;
            var s := if to == PENDING then Reserved else Confirmed;
            && CounterFirst(st, st', o, l.prod, l.quantity, area.rows(l.prod), area.covering, order.pickup, s)
            && AtCounter(st, st', o, l.prod, l.quantity, area.rows(l.prod), order.pickup, s)
  {
    hide Inv, ReserveLines, CounterFirst, AtCounter, Release, Confirm, Corrected, Own, HoldsNone, TakenWhereHeld,
         RowsSound, Valid, Coupled;
    var order, l := shop.orders[o], shop.orders[o].lines[i];
    var mid := if order.status == CANCELLED then shop
               else shop.(stock := Release(shop.stock, o, ReservationStatus.Cancelled),
                          orders := shop.orders[o := order.(status := CANCELLED)]);
    CancelledFirst(shop, init, o);
    var st' := Correct(shop, o, Some(to), payment, area, now).0.stock;
    var held := ReserveLines(mid.stock, o, order.lines, area, order.pickup).value;
    HeldAgainAtCounter(mid, init, o, area, held, i);
    OwnsNothing(mid, init, o, l.prod);
    if to != PENDING {
      InvIsValid(mid, init);
      ReserveLinesKeep(mid.stock, init, o, order.lines, area, order.pickup);
      ValidSound(held, init);
      ConfirmTakes(held, o, l.prod);
      forall k: LocationId
        ensures Own(held, o, Key(k, l.prod), Confirmed) == Own(mid.stock, o, Key(k, l.prod), Confirmed)
      {
        LinesTakeNothing(mid.stock, init, o, order.lines, area, order.pickup, Key(k, l.prod));
      }
      NoneOwnedIsNoneHeld(mid.stock, o, l.prod);
      ThenTaken(mid.stock, held, st', o, l.prod, l.quantity, area.rows(l.prod), area.covering, order.pickup);
      FromNothing(mid.stock, st', o, l.prod, l.quantity, area.rows(l.prod), area.covering, order.pickup, Confirmed);
    }
  }

  lemma NoneOwnedIsNoneHeld(st: Stock, o: OrderId, p: ProductId)
    requires forall l: LocationId :: Own(st, o, Key(l, p), Reserved) == 0 && Own(st, o, Key(l, p), Confirmed) == 0
    ensures HoldsNone(st, o, p)
  {
    hide Own;
  }

  /** Giving everything back first is what cancelling the order would do to the stock. */
  lemma CancelledFirst(shop: Shop, init: Inventory, o: OrderId)
    requires Inv(shop, init) && o < |shop.orders| && shop.orders[o].status != PENDING
    ensures var mid := if shop.orders[o].status == CANCELLED then shop
                       else shop.(stock := Release(shop.stock, o, ReservationStatus.Cancelled),
                                  orders := shop.orders[o := shop.orders[o].(status := CANCELLED)]);
            && Inv(mid, init) && mid.orders[o].status == CANCELLED && mid.orders[o].lines == shop.orders[o].lines
            && mid.orders[o].pickup == shop.orders[o].pickup
  {
    hide Valid, Coupled, Release;
    if shop.orders[o].status != CANCELLED {
      var order := shop.orders[o].(status := CANCELLED);
      ReleasedStock(shop.stock, init, shop.orders, o);
      assert OrderSound(shop.orders[o]);
      OrderPut(shop, init, Release(shop.stock, o, ReservationStatus.Cancelled), o, order,
               shop.(stock := Release(shop.stock, o, ReservationStatus.Cancelled), orders := shop.orders[o := order]));
    }
  }
}
