/**
 * Editing the lines of an order: product by product, exactly the difference
 * between the old line and the new one is released or reserved (and taken at
 * once, if the order is committed).
 */
module EditLaws {
  import opened Wrappers
  import opened Tables
  import opened Allocation
  import opened StockSpec
  import opened StockLaws
  import opened Orders
  import opened OrderLaws

  lemma {:induction false} LineQtyAt(ls: seq<Line>, i: nat)
    requires Orders.ProperLines(ls) && i < |ls|
    ensures LineQty(ls, ls[i].prod) == ls[i].quantity > 0
  {
    var n := |ls| - 1;
    if i < n {
      LineQtyAt(ls[..n], i);
    } else {
      NoLine(ls[..n], ls[n].prod);
    }
  }

  lemma {:induction false} NoLine(ls: seq<Line>, p: ProductId)
    requires forall i :: 0 <= i < |ls| ==> ls[i].prod != p
    ensures LineQty(ls, p) == 0
  {
    if ls != [] {
      NoLine(ls[..|ls| - 1], p);
    }
  }

  /** What line `n` adds to the lines before it, none of which is of its product. */
  lemma LineStep(ls: seq<Line>, n: nat, p: ProductId)
    requires Orders.ProperLines(ls) && n < |ls|
    ensures LineQty(ls[..n + 1], p) == if p == ls[n].prod then ls[n].quantity else LineQty(ls[..n], p)
    ensures p == ls[n].prod ==> LineQty(ls[..n], p) == 0
    ensures ls[n].quantity > 0 && LineQty(ls, ls[n].prod) == ls[n].quantity
  {
    assert ls[..n + 1][..n] == ls[..n];
    NoLine(ls[..n], ls[n].prod);
    LineQtyAt(ls, n);
  }

  /** Units the order has of each product, in the one live status of its phase; the other orders are as they were. */
  ghost predicate HasUnits(st: Stock, st': Stock, o: OrderId, committed: bool, want: ProductId -> nat) {
    && (forall p: ProductId ::
          Live(st', o, p, Reserved) == (if committed then 0 else want(p))
          && Live(st', o, p, Confirmed) == (if committed then want(p) else 0))
    && (forall o': OrderId, p: ProductId :: o' != o ==>
          Live(st', o', p, Reserved) == Live(st, o', p, Reserved)
            && Live(st', o', p, Confirmed) == Live(st, o', p, Confirmed))
  }

  /** After the falls of the first lines: of those products, no more than both orders have. */
  function AfterDrop(cur: seq<Line>, inc: seq<Line>, done: seq<Line>, p: ProductId): nat {
    if LineQty(done, p) > 0 then Min(LineQty(cur, p), LineQty(inc, p)) else LineQty(cur, p)
  }

  /** After the rises of the first lines: of those products, what the new order asks. */
  function AfterRaise(cur: seq<Line>, inc: seq<Line>, done: seq<Line>, p: ProductId): nat {
    if LineQty(done, p) > 0 then LineQty(inc, p) else Min(LineQty(cur, p), LineQty(inc, p))
  }

  lemma ValidSound(st: Stock, init: Inventory)
    requires Valid(st, init)
    ensures RowsSound(st) && HoldsAgree(st)
  {
  }

  lemma ReleaseStep(st: Stock, init: Inventory, st1: Stock, o: OrderId, committed: bool, want: ProductId -> nat,
                    want': ProductId -> nat, q: ProductId, drop: nat)
    requires Valid(st1, init) && HasUnits(st, st1, o, committed, want)
    requires drop <= want(q) && forall p: ProductId :: want'(p) == if p == q then want(p) - drop else want(p)
    ensures Valid(ReleaseUnits(st1, o, q, drop), init)
    ensures HasUnits(st, ReleaseUnits(st1, o, q, drop), o, committed, want')
  {
    hide Live, ReleaseUnits, RowsSound, Valid;
    ReleaseUnitsKeepsValid(st1, init, o, q, drop);
    ValidSound(st1, init);
    var st2 := ReleaseUnits(st1, o, q, drop);
    forall o': OrderId, p: ProductId
      ensures Live(st2, o', p, Reserved)
              == Live(st1, o', p, Reserved) - (if o' == o && p == q && !committed then drop else 0)
      ensures Live(st2, o', p, Confirmed)
              == Live(st1, o', p, Confirmed) - (if o' == o && p == q && committed then drop else 0)
    {
      ReleaseUnitsLive(st1, o, q, drop, o', p);
      assert Live(st1, o, q, Reserved) == (if committed then 0 else want(q));
    }
  }

  /** What raising a line adds: held or, if the order is committed, already taken. */
  ghost predicate Raised(st: Stock, st': Stock, o: OrderId, q: ProductId, committed: bool, n: nat) {
    forall o': OrderId, p: ProductId ::
      Live(st', o', p, Reserved) == Live(st, o', p, Reserved) + (if o' == o && p == q && !committed then n else 0)
      && Live(st', o', p, Confirmed) == Live(st, o', p, Confirmed) + (if o' == o && p == q && committed then n else 0)
  }

  lemma RaiseLineKeeps(st: Stock, init: Inventory, o: OrderId, l: Line, had: nat, committed: bool, area: Area,
                       pickup: Option<LocationId>)
    requires Valid(st, init) && (committed ==> Live(st, o, l.prod, Reserved) == 0)
    requires RaiseLine(st, o, l, had, committed, area, pickup).Some?
    ensures var st' := RaiseLine(st, o, l, had, committed, area, pickup).value;
            Valid(st', init) && Raised(st, st', o, l.prod, committed, if l.quantity > had then l.quantity - had else 0)
  {
    hide Live, Reserve, ConfirmProduct, Valid, Raised;
    if l.quantity > had {
      var at, n := ReachFor(area, pickup, l.prod), l.quantity - had;
      HeldFirst(st, init, o, l.prod, n, at);
      if committed {
        TakenAtOnce(st, Reserve(st, o, l.prod, n, at).value, init, o, l.prod, n);
      }
    } else {
      RaisedNothing(st, o, l.prod, committed);
    }
  }

  lemma RaisedNothing(st: Stock, o: OrderId, q: ProductId, committed: bool)
    ensures Raised(st, st, o, q, committed, 0)
  {
  }

  lemma HeldFirst(st: Stock, init: Inventory, o: OrderId, q: ProductId, n: nat, at: Reach)
    requires Valid(st, init) && Reserve(st, o, q, n, at).Some?
    ensures var st' := Reserve(st, o, q, n, at).value;
            Valid(st', init) && Raised(st, st', o, q, false, n)
  {
    hide Live, Reserve, RowsSound, HoldsAgree, Valid;
    ReserveKeepsValid(st, init, o, q, n, at);
    ValidSound(st, init);
    var st' := Reserve(st, o, q, n, at).value;
    forall o', p
      ensures Live(st', o', p, Reserved) == Live(st, o', p, Reserved) + (if o' == o && p == q then n else 0)
              && Live(st', o', p, Confirmed) == Live(st, o', p, Confirmed)
    {
      ReserveLive(st, o, q, n, at, o', p);
    }
  }

  lemma TakenAtOnce(st: Stock, st2: Stock, init: Inventory, o: OrderId, q: ProductId, n: nat)
    requires Valid(st2, init) && Live(st, o, q, Reserved) == 0 && Raised(st, st2, o, q, false, n)
    ensures Valid(ConfirmProduct(st2, o, q), init) && Raised(st, ConfirmProduct(st2, o, q), o, q, true, n)
  {
    hide Live, ConfirmProduct, RowsSound, HoldsAgree, Valid;
    ConfirmProductKeepsValid(st2, init, o, q);
    ValidSound(st2, init);
    var st3 := ConfirmProduct(st2, o, q);
    forall o', p
      ensures Live(st3, o', p, Reserved) == Live(st, o', p, Reserved)
              && Live(st3, o', p, Confirmed) == Live(st, o', p, Confirmed) + if o' == o && p == q then n else 0
    {
      ConfirmProductLive(st2, o, q, o', p);
    }
  }

  lemma RaiseStep(st: Stock, init: Inventory, st1: Stock, o: OrderId, committed: bool, want: ProductId -> nat,
                  want': ProductId -> nat, l: Line, had: nat, area: Area, pickup: Option<LocationId>)
    requires Valid(st1, init) && HasUnits(st, st1, o, committed, want)
    requires RaiseLine(st1, o, l, had, committed, area, pickup).Some?
    requires forall p: ProductId ::
               want'(p) == if p == l.prod && l.quantity > had then want(p) + l.quantity - had else want(p)
    ensures Valid(RaiseLine(st1, o, l, had, committed, area, pickup).value, init)
    ensures HasUnits(st, RaiseLine(st1, o, l, had, committed, area, pickup).value, o, committed, want')
  {
    hide Live, RaiseLine, Valid;
    assert Live(st1, o, l.prod, Reserved) == (if committed then 0 else want(l.prod));
    RaiseLineKeeps(st1, init, o, l, had, committed, area, pickup);
  }

  lemma {:induction false} DropLinesKeep(st: Stock, init: Inventory, o: OrderId, cur: seq<Line>, inc: seq<Line>, n: nat,
                                         committed: bool)
    requires Valid(st, init) && Orders.ProperLines(cur) && n <= |cur|
    requires HasUnits(st, st, o, committed, p => LineQty(cur, p))
    ensures var st' := DropLines(st, o, cur[..n], inc);
            Valid(st', init) && HasUnits(st, st', o, committed, p => AfterDrop(cur, inc, cur[..n], p))
  {
    hide Valid, HasUnits, ReleaseUnits, AfterDrop, LineQty, Live, Orders.ProperLines;
    if n == 0 {
      AfterNone(cur, inc, cur);
      SameUnits(st, st, o, committed, p => LineQty(cur, p), p => AfterDrop(cur, inc, cur[..n], p));
    } else {
      var m := n - 1;
      var l := cur[m];
      DropLinesKeep(st, init, o, cur, inc, m, committed);
      assert cur[..n][..m] == cur[..m];
      var st1 := DropLines(st, o, cur[..m], inc);
      var drop := l.quantity - LineQty(inc, l.prod);
      AfterDropStep(cur, inc, m);
      if drop > 0 {
        ReleaseStep(st, init, st1, o, committed, p => AfterDrop(cur, inc, cur[..m], p),
                    p => AfterDrop(cur, inc, cur[..n], p), l.prod, drop);
      } else {
        SameUnits(st, st1, o, committed, p => AfterDrop(cur, inc, cur[..m], p), p => AfterDrop(cur, inc, cur[..n], p));
      }
    }
  }

  lemma AfterDropStep(cur: seq<Line>, inc: seq<Line>, m: nat)
    requires Orders.ProperLines(cur) && m < |cur|
    ensures var l := cur[m];
            var drop := l.quantity - LineQty(inc, l.prod);
            && AfterDrop(cur, inc, cur[..m], l.prod) == l.quantity
            && forall p :: AfterDrop(cur, inc, cur[..m + 1], p)
                           == AfterDrop(cur, inc, cur[..m], p) - if p == l.prod && drop > 0 then drop else 0
  {
    hide LineQty;
    LineStep(cur, m, cur[m].prod);
    forall p ensures LineQty(cur[..m + 1], p) == if p == cur[m].prod then cur[m].quantity else LineQty(cur[..m], p) {
      LineStep(cur, m, p);
    }
  }

  lemma AfterRaiseStep(cur: seq<Line>, inc: seq<Line>, m: nat)
    requires Orders.ProperLines(inc) && m < |inc|
    ensures var l := inc[m];
            var had := LineQty(cur, l.prod);
            forall p :: AfterRaise(cur, inc, inc[..m + 1], p)
                        == AfterRaise(cur, inc, inc[..m], p) + if p == l.prod && l.quantity > had
                           then l.quantity - had else 0
  {
    hide LineQty;
    forall p ensures LineQty(inc[..m + 1], p) == if p == inc[m].prod then inc[m].quantity else LineQty(inc[..m], p) {
      LineStep(inc, m, p);
    }
    LineStep(inc, m, inc[m].prod);
  }

  lemma AfterNone(cur: seq<Line>, inc: seq<Line>, lines: seq<Line>)
    ensures forall p :: AfterDrop(cur, inc, lines[..0], p) == LineQty(cur, p)
    ensures forall p :: AfterRaise(cur, inc, lines[..0], p) == Min(LineQty(cur, p), LineQty(inc, p))
  {
    assert forall p :: LineQty(lines[..0], p) == 0;
  }

  lemma SameUnits(st: Stock, st': Stock, o: OrderId, committed: bool, want: ProductId -> nat, want': ProductId -> nat)
    requires HasUnits(st, st', o, committed, want) && forall p: ProductId :: want'(p) == want(p)
    ensures HasUnits(st, st', o, committed, want')
  {
  }

  lemma {:induction false} RaiseLinesKeep(st: Stock, st0: Stock, init: Inventory, o: OrderId, cur: seq<Line>,
                                          inc: seq<Line>, n: nat,
                                          committed: bool, area: Area, pickup: Option<LocationId>)
    requires Valid(st0, init) && Orders.ProperLines(inc) && n <= |inc|
    requires HasUnits(st, st0, o, committed, p => Min(LineQty(cur, p), LineQty(inc, p)))
    requires RaiseLines(st0, o, inc[..n], cur, committed, area, pickup).Some?
    ensures var st' := RaiseLines(st0, o, inc[..n], cur, committed, area, pickup).value;
            Valid(st', init) && HasUnits(st, st', o, committed, p => AfterRaise(cur, inc, inc[..n], p))
  {
    hide Live, RaiseLine, Valid, HasUnits, AfterRaise, LineQty;
    if n == 0 {
      AfterNone(cur, inc, inc);
      SameUnits(st, st0, o, committed, p => Min(LineQty(cur, p), LineQty(inc, p)),
                p => AfterRaise(cur, inc, inc[..n], p));
    } else {
      var m := n - 1;
      var l := inc[m];
      assert inc[..n][..m] == inc[..m];
      RaiseLinesKeep(st, st0, init, o, cur, inc, m, committed, area, pickup);
      var st1 := RaiseLines(st0, o, inc[..m], cur, committed, area, pickup).value;
      var had := LineQty(cur, l.prod);
      AfterRaiseStep(cur, inc, m);
      RaiseStep(st, init, st1, o, committed, p => AfterRaise(cur, inc, inc[..m], p),
                p => AfterRaise(cur, inc, inc[..n], p), l, had, area, pickup);
    }
  }

  /** After the whole edit the order has exactly its new lines, and the other orders what they had. */
  lemma EditedStockKeeps(st: Stock, init: Inventory, orders: seq<Order>, o: OrderId, inc: seq<Line>, area: Area)
    requires Valid(st, init) && Coupled(st, orders) && o < |orders|
    requires Orders.ProperLines(orders[o].lines) && Orders.ProperLines(inc)
    requires EditedStock(st, o, orders[o], inc, area).Some?
    ensures var st' := EditedStock(st, o, orders[o], inc, area).value;
            Valid(st', init) && Coupled(st', orders[o := orders[o].(lines := inc)])
  {
    hide Live, Valid, DropLines, RaiseLines;
    var order := orders[o];
    var cur := order.lines;
    var phase := StockPhase(order.status);
    var committed := phase == Committed;
    var st' := EditedStock(st, o, order, inc, area).value;
    if phase != Phase.Released {
      assert HasUnits(st, st, o, committed, p => LineQty(cur, p)) by {
        assert forall p: ProductId :: Live(st, o, p, Reserved) == Due(orders, o, p, Held);
      }
      DropLinesKeep(st, init, o, cur, inc, |cur|, committed);
      assert cur[..|cur|] == cur && inc[..|inc|] == inc;
      var st1 := DropLines(st, o, cur, inc);
      assert forall p :: AfterDrop(cur, inc, cur, p) == Min(LineQty(cur, p), LineQty(inc, p));
      assert HasUnits(st, st1, o, committed, p => Min(LineQty(cur, p), LineQty(inc, p)));
      RaiseLinesKeep(st, st1, init, o, cur, inc, |inc|, committed, area, order.pickup);
      assert forall p :: AfterRaise(cur, inc, inc, p) == LineQty(inc, p);
      assert HasUnits(st, st', o, committed, p => LineQty(inc, p));
    } else {
      assert forall p: ProductId :: Live(st, o, p, Reserved) == Due(orders, o, p, Held);
    }
    CoupledUpdate(st, st', orders, o, order.(lines := inc));
  }

  lemma {:induction false} FoundLine(ls: seq<Line>, p: ProductId)
    requires Orders.ProperLines(ls)
    ensures LineQty(ls, p) == if FindLine(ls, p).Some? then FindLine(ls, p).value.quantity else 0
    ensures FindLine(ls, p).Some? <==> exists i :: 0 <= i < |ls| && ls[i].prod == p
  {
    if ls != [] {
      var n := |ls| - 1;
      FoundLine(ls[..n], p);
      if ls[n].prod == p {
        NoLine(ls[..n], p);
      }
    }
  }

  /** An edit refused because nothing changed owed no stock: the quantities of every product are the same. */
  lemma SameLinesOweNothing(current: seq<Line>, incoming: seq<PricedLine>, p: ProductId)
    requires Orders.ProperLines(current) && Orders.ProperLines(ToLines(incoming)) && SameLines(current, incoming)
    ensures LineQty(ToLines(incoming), p) == LineQty(current, p)
  {
    hide LineQty, FindLine;
    var inc := ToLines(incoming);
    FoundLine(current, p);
    FoundLine(inc, p);
    if i :| 0 <= i < |inc| && inc[i].prod == p {
      LineQtyAt(inc, i);
    }
  }

  // ---------------- The rows after an edit ----------------

  lemma SumSnoc(ls: seq<Line>, l: Line, p: ProductId)
    ensures SumTotals(ls + [l]) == SumTotals(ls) + l.lineTotal
    ensures LineQty(ls + [l], p) == LineQty(ls, p) + if l.prod == p then l.quantity else 0
  {
    assert (ls + [l])[..|ls|] == ls;
  }

  lemma {:induction false} SumAppend(a: seq<Line>, b: seq<Line>, p: ProductId)
    ensures SumTotals(a + b) == SumTotals(a) + SumTotals(b)
    ensures LineQty(a + b, p) == LineQty(a, p) + LineQty(b, p)
  {
    if b == [] {
      assert a + b == a;
    } else {
      assert (a + b)[..|a + b| - 1] == a + b[..|b| - 1];
      SumAppend(a, b[..|b| - 1], p);
    }
  }

  /** A product already there is one fewer to add, by exactly its incoming line. */
  lemma {:induction false} AddedStep(inc: seq<Line>, cur: seq<Line>, p: ProductId)
    requires Orders.ProperLines(inc) && Orders.ProperLines(cur) && cur != []
    ensures var q, first := cur[|cur| - 1].prod, cur[..|cur| - 1];
            var line := FindLine(inc, q);
            && SumTotals(Added(inc, first))
               == SumTotals(Added(inc, cur)) + (if line.Some? then line.value.lineTotal else 0)
            && LineQty(Added(inc, first), p) == LineQty(Added(inc, cur), p)
                                              + (if line.Some? && line.value.prod == p then line.value.quantity else 0)
  {
    hide SumTotals, LineQty, Orders.ProperLines;
    if inc != [] {
      var q, first := cur[|cur| - 1].prod, cur[..|cur| - 1];
      var m := |inc| - 1;
      var l := inc[m];
      ProperSoFar(inc);
      ProperSoFar(cur);
      AddedStep(inc[..m], cur, p);
      if l.prod == q {
        FoundLine(first, q);
        FoundLine(inc[..m], q);
        SumSnoc(Added(inc[..m], first), l, p);
      } else if FindLine(cur, l.prod).None? {
        SumSnoc(Added(inc[..m], first), l, p);
        SumSnoc(Added(inc[..m], cur), l, p);
      }
    }
  }

  lemma ProperSoFar(ls: seq<Line>)
    requires Orders.ProperLines(ls) && ls != []
    ensures Orders.ProperLines(ls[..|ls| - 1])
    ensures var first := ls[..|ls| - 1]; forall i :: 0 <= i < |first| ==> first[i].prod != ls[|ls| - 1].prod
  {
  }

  lemma {:induction false} AddedToNothing(inc: seq<Line>)
    ensures Added(inc, []) == inc
  {
    if inc != [] {
      AddedToNothing(inc[..|inc| - 1]);
    }
  }

  lemma {:induction false} KeptAndAdded(cur: seq<Line>, inc: seq<Line>, p: ProductId)
    requires Orders.ProperLines(inc) && Orders.ProperLines(cur)
    ensures SumTotals(Kept(cur, inc)) + SumTotals(Added(inc, cur)) == SumTotals(inc)
    ensures LineQty(Kept(cur, inc), p) + LineQty(Added(inc, cur), p) == LineQty(inc, p)
  {
    if cur == [] {
      AddedToNothing(inc);
    } else {
      hide SumTotals, LineQty;
      var n := |cur| - 1;
      KeptAndAdded(cur[..n], inc, p);
      AddedStep(inc, cur, p);
      var line := FindLine(inc, cur[n].prod);
      if line.Some? {
        SumSnoc(Kept(cur[..n], inc), line.value, p);
      }
    }
  }

  /** Keeping rows where they are loses nothing: the rows of the order hold the same quantities and the same money. */
  lemma SavedHoldsTheSame(cur: seq<Line>, inc: seq<Line>, p: ProductId)
    requires Orders.ProperLines(inc) && Orders.ProperLines(cur)
    ensures SumTotals(Saved(cur, inc)) == SumTotals(inc) && LineQty(Saved(cur, inc), p) == LineQty(inc, p)
  {
    hide SumTotals, LineQty, Kept, Added;
    SumAppend(Kept(cur, inc), Added(inc, cur), p);
    KeptAndAdded(cur, inc, p);
  }

  lemma {:induction false} FoundIsThere(ls: seq<Line>, p: ProductId)
    requires FindLine(ls, p).Some?
    ensures FindLine(ls, p).value in ls && FindLine(ls, p).value.prod == p
  {
    if ls[|ls| - 1].prod != p {
      FoundIsThere(ls[..|ls| - 1], p);
    }
  }

  /** The rows kept are incoming lines of products that were there. */
  lemma {:induction false} KeptComeFrom(cur: seq<Line>, inc: seq<Line>)
    ensures forall l :: l in Kept(cur, inc) ==> l in inc && FindLine(cur, l.prod).Some?
  {
    if cur != [] {
      var q, first := cur[|cur| - 1].prod, cur[..|cur| - 1];
      KeptComeFrom(first, inc);
      FindGrows(cur);
      if FindLine(inc, q).Some? {
        FoundIsThere(inc, q);
      }
    }
  }

  lemma FindGrows(ls: seq<Line>)
    requires ls != []
    ensures FindLine(ls, ls[|ls| - 1].prod).Some?
    ensures forall p :: FindLine(ls[..|ls| - 1], p).Some? ==> FindLine(ls, p).Some?
  {
  }

  /** The rows added are incoming lines of products that were not. */
  lemma {:induction false} AddedComeFrom(inc: seq<Line>, cur: seq<Line>)
    ensures forall l :: l in Added(inc, cur) ==> l in inc && FindLine(cur, l.prod).None?
  {
    if inc != [] {
      hide FindLine;
      AddedComeFrom(inc[..|inc| - 1], cur);
    }
  }

  lemma ProperSnoc(ls: seq<Line>, l: Line)
    requires Orders.ProperLines(ls) && l.quantity > 0 && forall m :: m in ls ==> m.prod != l.prod
    ensures Orders.ProperLines(ls + [l])
  {
    assert forall i :: 0 <= i < |ls| ==> ls[i] in ls;
  }

  lemma ProperMember(ls: seq<Line>, l: Line)
    requires Orders.ProperLines(ls) && l in ls
    ensures l.quantity > 0
  {
  }

  lemma {:induction false} KeptIsProper(cur: seq<Line>, inc: seq<Line>)
    requires Orders.ProperLines(inc) && Orders.ProperLines(cur)
    ensures Orders.ProperLines(Kept(cur, inc))
  {
    if cur != [] {
      hide Orders.ProperLines, FindLine;
      var q, first := cur[|cur| - 1].prod, cur[..|cur| - 1];
      ProperSoFar(cur);
      KeptIsProper(first, inc);
      KeptComeFrom(first, inc);
      if FindLine(inc, q).Some? {
        FoundIsThere(inc, q);
        FoundLine(first, q);
        ProperMember(inc, FindLine(inc, q).value);
        ProperSnoc(Kept(first, inc), FindLine(inc, q).value);
      }
    }
  }

  lemma {:induction false} AddedIsProper(inc: seq<Line>, cur: seq<Line>)
    requires Orders.ProperLines(inc)
    ensures Orders.ProperLines(Added(inc, cur))
  {
    if inc != [] {
      hide Orders.ProperLines, FindLine;
      var l, first := inc[|inc| - 1], inc[..|inc| - 1];
      ProperSoFar(inc);
      AddedIsProper(first, cur);
      AddedComeFrom(first, cur);
      ProperMember(inc, l);
      if FindLine(cur, l.prod).None? {
        assert forall m :: m in first ==> m.prod != l.prod;
        ProperSnoc(Added(first, cur), l);
      }
    }
  }

  lemma SavedIsProper(cur: seq<Line>, inc: seq<Line>)
    requires Orders.ProperLines(inc) && Orders.ProperLines(cur)
    ensures Orders.ProperLines(Saved(cur, inc))
  {
    hide Kept, Added, FindLine;
    KeptIsProper(cur, inc);
    KeptComeFrom(cur, inc);
    AddedIsProper(inc, cur);
    AddedComeFrom(inc, cur);
    var a, b := Kept(cur, inc), Added(inc, cur);
    assert forall i :: 0 <= i < |a| ==> a[i] in a;
    assert forall i :: 0 <= i < |b| ==> b[i] in b;
    forall i, j | 0 <= i < j < |a + b| ensures (a + b)[i].prod != (a + b)[j].prod {
      if i < |a| <= j {
        assert FindLine(cur, a[i].prod).Some? && FindLine(cur, b[j - |a|].prod).None?;
      }
    }
  }
}
