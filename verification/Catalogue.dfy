/**
 * What the shop window promises and what the allocator can give: how `reserve`
 * chooses, when it succeeds, and why an order that fits the catalogue is served.
 */
module Catalogue {
  import opened Wrappers
  import opened Tables
  import opened Allocation
  import opened StockSpec
  import opened StockLaws
  import opened Orders
  import opened OrderLaws

  // ---------------- How reserve chooses ----------------

  lemma SoundIsNotOversold(st: Stock)
    requires HoldsAgree(st)
    ensures NothingOversold(st.inv)
  {
  }

  function FreeAtPreferred(inv: Inventory, p: ProductId, at: Reach): int {
    if at.preferred.Some? && at.preferred.value in at.active && Usable(inv, p, at.allowed, at.preferred.value)
    then FreeAt(inv, p, at.preferred.value) else 0
  }

  /** Rows that are not at the preferred storage; the rows of one reservation are at different storages. */
  function Elsewhere(rows: seq<Reservation>, preferred: Option<LocationId>): nat {
    if rows == [] then 0
    else Elsewhere(rows[..|rows| - 1], preferred) + if preferred == Some(rows[|rows| - 1].loc) then 0 else 1
  }

  lemma {:induction false} AllElsewhere(rows: seq<Reservation>, preferred: Option<LocationId>)
    requires forall r :: r in rows ==> preferred != Some(r.loc)
    ensures Elsewhere(rows, preferred) == |rows|
  {
    if rows != [] {
      assert rows == rows[..|rows| - 1] + [rows[|rows| - 1]];
      AllElsewhere(rows[..|rows| - 1], preferred);
    }
  }

  lemma {:induction false} ElsewhereAfterFirst(first: Reservation, rows: seq<Reservation>,
                                               preferred: Option<LocationId>)
    requires preferred == Some(first.loc)
    ensures Elsewhere([first] + rows, preferred) == Elsewhere(rows, preferred)
  {
    if rows == [] {
      assert [first] + rows == [first] && [first][..0] == [];
    } else {
      assert ([first] + rows)[..|rows|] == [first] + rows[..|rows| - 1];
      ElsewhereAfterFirst(first, rows[..|rows| - 1], preferred);
    }
  }

  /** The ranking is the preferred storage, if it can be used, and then the others from the fullest down. */
  lemma RankedShape(inv: Inventory, p: ProductId, at: Reach) returns (others: seq<LocationId>)
    ensures NoRepeats(others) && Descending(inv, p, others)
    ensures forall l :: l in others <==> l in at.active && Usable(inv, p, at.allowed, l) && at.preferred != Some(l)
    ensures var ls := RankedFor(inv, p, at);
            if at.preferred.Some? && at.preferred.value in ls then ls == [at.preferred.value] + others else ls == others
  {
    hide Ranked, Candidates;
    RankedCandidates(inv, p, at);
    var ls := RankedFor(inv, p, at);
    assert Sorted(inv, p, at.preferred, ls);
    if at.preferred.Some? && at.preferred.value in ls {
      var i :| 0 <= i < |ls| && ls[i] == at.preferred.value;
      assert i == 0 by {
        assert i > 0 ==> !Earlier(inv, p, at.preferred, ls[i], ls[0]);
      }
      others := ls[1..];
      assert ls == [at.preferred.value] + others;
    } else {
      others := ls;
    }
    forall i, j | 0 <= i < j < |others| ensures FreeAt(inv, p, others[i]) >= FreeAt(inv, p, others[j]) {
      var d := |ls| - |others|;
      assert others[i] == ls[i + d] && others[j] == ls[j + d];
      assert !Earlier(inv, p, at.preferred, ls[j + d], ls[i + d]);
    }
  }

  /** It goes through exactly when the storages it may use have enough free between them. */
  lemma ReserveSucceeds(st: Stock, o: OrderId, p: ProductId, q: int, at: Reach)
    ensures Reserve(st, o, p, q, at).Some? <==> SumFree(st.inv, p, Candidates(st.inv, p, at.active, at.allowed)) >= q
  {
    hide Ranked, Takes, SumFree;
    RankedCandidates(st.inv, p, at);
  }

  lemma {:induction false} FreeInTail(inv: Inventory, p: ProductId, l: LocationId, others: seq<LocationId>,
                                      chosen: set<LocationId>)
    requires l !in chosen
    ensures FreeIn(inv, p, [l] + others, chosen) == FreeIn(inv, p, others, chosen)
  {
    if others == [] {
      assert [l] + others == [l] && [l][..0] == [];
    } else {
      assert ([l] + others)[..|others|] == [l] + others[..|others| - 1];
      FreeInTail(inv, p, l, others[..|others| - 1], chosen);
    }
  }

  lemma FreeIsNonNegative(st: Stock, p: ProductId, at: Reach)
    requires HoldsAgree(st)
    ensures FreeAtPreferred(st.inv, p, at) >= 0
  {
  }

  /** The preferred storage's part, then the part of the others. */
  lemma ReserveSplits(st: Stock, o: OrderId, p: ProductId, q: nat, at: Reach)
    returns (first: seq<Reservation>, others: seq<LocationId>)
    requires HoldsAgree(st)
    ensures NoRepeats(others) && Descending(st.inv, p, others)
    ensures forall l :: l in others <==> l in at.active && Usable(st.inv, p, at.allowed, l) && at.preferred != Some(l)
    ensures forall chosen :: (at.preferred.Some? ==> at.preferred.value !in chosen) ==>
              FreeIn(st.inv, p, RankedFor(st.inv, p, at), chosen) == FreeIn(st.inv, p, others, chosen)
    ensures var take := Min(q, FreeAtPreferred(st.inv, p, at));
            && take >= 0
            && TakesFor(st, o, p, q, at) == first + Takes(st.inv, o, p, others, q - take)
            && first == if take > 0 then [Reservation(o, at.preferred.value, p, take, Reserved)] else []
  {
    hide RankedFor, Takes, FreeIn, Descending, NoRepeats, FreeAt, HoldsAgree;
    FreeIsNonNegative(st, p, at);
    others := RankedShape(st.inv, p, at);
    RankedCandidates(st.inv, p, at);
    var ls := RankedFor(st.inv, p, at);
    var take := Min(q, FreeAtPreferred(st.inv, p, at));
    first := [];
    if at.preferred.Some? && at.preferred.value in ls {
      var l := at.preferred.value;
      if take > 0 {
        first := [Reservation(o, l, p, take, Reserved)];
      }
      PreferredFirst(st.inv, o, p, l, others, q);
      forall chosen | l !in chosen ensures FreeIn(st.inv, p, ls, chosen) == FreeIn(st.inv, p, others, chosen) {
        FreeInTail(st.inv, p, l, others, chosen);
      }
    }
  }

  /** What one reservation holds at its preferred storage, and how many others it uses. */
  lemma SplitCounts(inv: Inventory, o: OrderId, p: ProductId, first: seq<Reservation>, others: seq<LocationId>,
                    left: int, take: nat, at: Reach)
    requires forall l :: l in others ==> at.preferred != Some(l)
    requires take > 0 ==> at.preferred.Some?
    requires first == if take > 0 then [Reservation(o, at.preferred.value, p, take, Reserved)] else []
    ensures var rows := first + Takes(inv, o, p, others, left);
            && Elsewhere(rows, at.preferred) == |Takes(inv, o, p, others, left)|
            && (at.preferred.Some? ==> Total(rows, HeldAt(Key(at.preferred.value, p))) == take)
  {
    hide Takes, Total, Elsewhere;
    var rest := Takes(inv, o, p, others, left);
    TakesRows(inv, o, p, others, left);
    AllElsewhere(rest, at.preferred);
    if take > 0 {
      ElsewhereAfterFirst(first[0], rest, at.preferred);
    } else {
      assert first + rest == rest;
    }
    if at.preferred.Some? {
      var j := HeldAt(Key(at.preferred.value, p));
      assert forall i :: 0 <= i < |rest| ==> rest[i] in rest;
      TotalAppend(first, rest, j);
      TotalZero(rest, j);
      if take > 0 {
        OneRowTotal(first[0], j);
      } else {
        TotalZero(first, j);
      }
    }
  }

  /**
   * What `reserve` then promises: exactly what was asked is held, all of it at
   * enabled and allowed storages; the preferred storage gives all it can, so no
   * other choice holds less elsewhere; and what is left goes to as few of the
   * others as could possibly cover it.
   */
  lemma ReserveIsOptimal(st: Stock, o: OrderId, p: ProductId, q: nat, at: Reach)
    requires RowsSound(st) && HoldsAgree(st) && Reserve(st, o, p, q, at).Some?
    ensures var rows := TakesFor(st, o, p, q, at);
            var overflow := q - Min(q, FreeAtPreferred(st.inv, p, at));
            && (forall r :: r in rows ==>
                  r.loc in at.active && Usable(st.inv, p, at.allowed, r.loc) && r.prod == p && r.order == o
                    && r.quantity > 0)
            && Total(rows, OfLine(o, p, Reserved)) == q
            && (at.preferred.Some? ==> Total(rows, HeldAt(Key(at.preferred.value, p))) == q - overflow)
            && (forall chosen: set<LocationId> ::
                  (forall l :: l in chosen ==>
                     l in at.active && Usable(st.inv, p, at.allowed, l) && at.preferred != Some(l))
                  && FreeIn(st.inv, p, RankedFor(st.inv, p, at), chosen) >= overflow
                  ==> Elsewhere(rows, at.preferred) <= |chosen|)
  {
    hide Reserve, Takes, Ranked, Candidates, FreeIn, Elsewhere, Total, RowsSound, Usable, Shift;
    SoundIsNotOversold(st);
    ReserveShifts(st, o, p, q, at);
    TakesRows(st.inv, o, p, RankedFor(st.inv, p, at), q);
    RankedCandidates(st.inv, p, at);
    var first, others := ReserveSplits(st, o, p, q, at);
    var take := Min(q, FreeAtPreferred(st.inv, p, at));
    SplitCounts(st.inv, o, p, first, others, q - take, take, at);
    forall chosen: set<LocationId> |
      (forall l :: l in chosen ==> l in at.active && Usable(st.inv, p, at.allowed, l) && at.preferred != Some(l))
      && FreeIn(st.inv, p, RankedFor(st.inv, p, at), chosen) >= q - take
      ensures Elsewhere(TakesFor(st, o, p, q, at), at.preferred) <= |chosen|
    {
      assert at.preferred.Some? ==> at.preferred.value !in chosen;
      FewestStorages(st.inv, o, p, others, q - take, chosen);
    }
  }

  // ---------------- The catalogue ----------------

  /** `availableForArea`: what the shop shows as sellable, summed over the enabled storages of the area. */
  function Sellable(inv: Inventory, p: ProductId, active: seq<LocationId>, covering: Option<set<LocationId>>): int {
    if active == [] then 0
    else
      var l := active[|active| - 1];
      Sellable(inv, p, active[..|active| - 1], covering)
      + if covering.None? || l in covering.value then FreeAt(inv, p, l) else 0
  }

  /**
   * The allocator looks at what the catalogue shows and, for a pickup at a counter
   * outside the area, at that counter too: never at less.
   */
  lemma {:induction false} CandidatesCoverCatalogue(inv: Inventory, p: ProductId, active: seq<LocationId>,
                                                    covering: Option<set<LocationId>>, pickup: Option<LocationId>)
    requires NoRepeats(active)
    ensures SumFree(inv, p, Candidates(inv, p, active, AllowedIn(covering, pickup)))
            == Sellable(inv, p, active, covering)
               + if covering.Some? && pickup.Some? && pickup.value !in covering.value && pickup.value in active
                 then FreeAt(inv, p, pickup.value) else 0
  {
    if active != [] {
      hide SumFree, FreeAt, Usable, AllowedIn, NoRepeats;
      var n := |active| - 1;
      var l, first, allowed := active[n], active[..n], AllowedIn(covering, pickup);
      LastIsNew(active);
      CandidatesCoverCatalogue(inv, p, first, covering, pickup);
      SumFreeLast(inv, p, first, l, allowed);
      LastCovers(inv, p, l, covering, pickup);
    } else {
      NothingFree(inv, p);
    }
  }

  lemma LastIsNew(active: seq<LocationId>)
    requires NoRepeats(active) && active != []
    ensures var first := active[..|active| - 1];
            && NoRepeats(first) && active[|active| - 1] !in first
            && forall l :: l in active <==> l in first || l == active[|active| - 1]
  {
    assert active == active[..|active| - 1] + [active[|active| - 1]];
  }

  lemma NothingFree(inv: Inventory, p: ProductId)
    ensures SumFree(inv, p, []) == 0
  {
  }

  /** What the last storage adds to the sum over the candidates. */
  lemma SumFreeLast(inv: Inventory, p: ProductId, first: seq<LocationId>, l: LocationId,
                    allowed: Option<set<LocationId>>)
    ensures var earlier := Candidates(inv, p, first, allowed);
            SumFree(inv, p, if Usable(inv, p, allowed, l) then earlier + [l] else earlier)
            == SumFree(inv, p, earlier) + if Usable(inv, p, allowed, l) then FreeAt(inv, p, l) else 0
  {
    var earlier := Candidates(inv, p, first, allowed);
    assert (earlier + [l])[..|earlier|] == earlier;
  }

  /** A storage counts for the allocator if it counts for the catalogue or is the counter. */
  lemma LastCovers(inv: Inventory, p: ProductId, l: LocationId, covering: Option<set<LocationId>>,
                   pickup: Option<LocationId>)
    ensures (if Usable(inv, p, AllowedIn(covering, pickup), l) then FreeAt(inv, p, l) else 0)
            == if covering.None? || l in covering.value || pickup == Some(l) then FreeAt(inv, p, l) else 0
  {
  }

  // ---------------- Serving a whole order ----------------

  ghost predicate SameForProduct(inv: Inventory, inv': Inventory, p: ProductId) {
    forall l: LocationId :: (Key(l, p) in inv <==> Key(l, p) in inv')
      && (Key(l, p) in inv ==> inv'[Key(l, p)] == inv[Key(l, p)])
  }

  lemma {:induction false} SameCandidates(inv: Inventory, inv': Inventory, p: ProductId, active: seq<LocationId>,
                                          allowed: Option<set<LocationId>>)
    requires SameForProduct(inv, inv', p)
    ensures Candidates(inv', p, active, allowed) == Candidates(inv, p, active, allowed)
    ensures SumFree(inv', p, Candidates(inv', p, active, allowed))
            == SumFree(inv, p, Candidates(inv, p, active, allowed))
  {
    if active != [] {
      SameCandidates(inv, inv', p, active[..|active| - 1], allowed);
    }
  }

  /** Reserving one product leaves the others exactly as free as they were. */
  lemma ReserveElsewhere(st: Stock, o: OrderId, p: ProductId, q: nat, at: Reach, p': ProductId)
    requires RowsSound(st) && HoldsAgree(st) && Reserve(st, o, p, q, at).Some? && p' != p
    ensures SameForProduct(st.inv, Reserve(st, o, p, q, at).value.inv, p')
  {
    hide Candidates, Ranked, Takes, SumFree, Posted, Total;
    var rows := TakesFor(st, o, p, q, at);
    ReserveShifts(st, o, p, q, at);
    TakesRows(st.inv, o, p, RankedFor(st.inv, p, at), q);
    PostedAt(st.inv, rows, Hold);
    forall l: LocationId ensures Total(rows, AtKey(Key(l, p'))) == 0 {
      assert forall i :: 0 <= i < |rows| ==> rows[i] in rows;
      TotalZero(rows, AtKey(Key(l, p')));
    }
  }

  function FreeFor(st: Stock, p: ProductId, area: Area, pickup: Option<LocationId>): int {
    SumFree(st.inv, p, Candidates(st.inv, p, area.rows(p), AllowedIn(area.covering, pickup)))
  }

  /** Lines of distinct products do not compete: all are reserved exactly when each could be reserved alone. */
  lemma {:induction false} LinesDoNotCompete(st: Stock, init: Inventory, o: OrderId, ls: seq<Line>, area: Area,
                                             pickup: Option<LocationId>)
    requires Valid(st, init) && forall i, j :: 0 <= i < j < |ls| ==> ls[i].prod != ls[j].prod
    ensures ReserveLines(st, o, ls, area, pickup).Some? <==>
            forall i :: 0 <= i < |ls| ==> ls[i].quantity <= FreeFor(st, ls[i].prod, area, pickup)
    ensures ReserveLines(st, o, ls, area, pickup).Some? ==>
            forall p :: (forall i :: 0 <= i < |ls| ==> ls[i].prod != p) ==>
              SameForProduct(st.inv, ReserveLines(st, o, ls, area, pickup).value.inv, p)
  {
    hide Valid, Reserve, SumFree, Candidates;
    if ls != [] {
      var n := |ls| - 1;
      var l := ls[n];
      LinesDoNotCompete(st, init, o, ls[..n], area, pickup);
      var earlier := ReserveLines(st, o, ls[..n], area, pickup);
      if earlier.Some? {
        var at := ReachFor(area, pickup, l.prod);
        ReserveLinesKeep(st, init, o, ls[..n], area, pickup);
        ValidIsSound(earlier.value, init);
        SameCandidates(st.inv, earlier.value.inv, l.prod, area.rows(l.prod), AllowedIn(area.covering, pickup));
        ReserveSucceeds(earlier.value, o, l.prod, l.quantity, at);
        if Reserve(earlier.value, o, l.prod, l.quantity, at).Some? {
          forall p | forall i :: 0 <= i < |ls| ==> ls[i].prod != p
            ensures SameForProduct(st.inv, ReserveLines(st, o, ls, area, pickup).value.inv, p)
          {
            ReserveElsewhere(earlier.value, o, l.prod, l.quantity, at, p);
            assert SameForProduct(st.inv, earlier.value.inv, p);
          }
        }
      }
    }
  }

  lemma ValidIsSound(st: Stock, init: Inventory)
    requires Valid(st, init)
    ensures RowsSound(st) && HoldsAgree(st)
  {
  }

  /**
   * An order of distinct products, each within what the catalogue shows for its
   * area, is created: every line is reserved, however many there are.
   */
  lemma CatalogueIsServed(shop: Shop, init: Inventory, req: NewOrder, area: Area, now: Instant)
    requires Inv(shop, init) && Orders.ProperLines(ToLines(req.lines))
    requires forall i :: 0 <= i < |req.lines| ==>
               req.lines[i].quantity <= Sellable(shop.stock.inv, req.lines[i].prod, area.rows(req.lines[i].prod),
                                                 area.covering)
    ensures Create(shop, req, area, now).1 == Done
  {
    hide Valid, Coupled, OrdersSound, ReserveLines, Sellable, SumFree, Candidates;
    var st, ls := shop.stock, ToLines(req.lines);
    ValidIsSound(st, init);
    LinesDoNotCompete(st, init, |shop.orders|, ls, area, req.pickup);
    forall i | 0 <= i < |ls| ensures ls[i].quantity <= FreeFor(st, ls[i].prod, area, req.pickup) {
      var p := ls[i].prod;
      CandidatesCoverCatalogue(st.inv, p, area.rows(p), area.covering, req.pickup);
      SoundIsNotOversold(st);
    }
  }
}
