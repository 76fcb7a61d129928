/**
 * How a reservation is shared out: in which order the storages are drawn from, and
 * with it exactly how many units each one gives.
 */
module ShareLaws {
  import opened Wrappers
  import opened Tables
  import opened Allocation
  import opened StockSpec
  import opened StockLaws
  import opened Orders

  // ---------------- What a set of storages has free ----------------

  lemma FreeInAppend(inv: Inventory, p: ProductId, a: seq<LocationId>, l: LocationId, chosen: set<LocationId>)
    ensures FreeIn(inv, p, a + [l], chosen) == FreeIn(inv, p, a, chosen) + if l in chosen then FreeAt(inv, p, l) else 0
  {
    assert (a + [l])[..|a|] == a;
  }

  lemma {:induction false} FreeInJoin(inv: Inventory, p: ProductId, a: seq<LocationId>, b: seq<LocationId>,
                                      chosen: set<LocationId>)
    ensures FreeIn(inv, p, a + b, chosen) == FreeIn(inv, p, a, chosen) + FreeIn(inv, p, b, chosen)
  {
    if b == [] {
      assert a + b == a;
    } else {
      hide FreeAt;
      assert (a + b)[..|a + b| - 1] == a + b[..|b| - 1];
      FreeInJoin(inv, p, a, b[..|b| - 1], chosen);
    }
  }

  /** The order in which storages are listed does not matter. */
  lemma {:induction false} FreeInPermuted(inv: Inventory, p: ProductId, a: seq<LocationId>, b: seq<LocationId>,
                                          chosen: set<LocationId>)
    requires multiset(a) == multiset(b)
    ensures FreeIn(inv, p, a, chosen) == FreeIn(inv, p, b, chosen)
  {
    hide FreeIn, FreeAt;
    if a == [] {
      assert |multiset(a)| == 0 && |multiset(b)| == |b|;
    } else {
      var n := |a| - 1;
      SameElements(a, b);
      assert a[n] in a;
      var i :| 0 <= i < |b| && b[i] == a[n];
      TakenOut(a, n);
      TakenOut(b, i);
      assert a[..n] + a[n + 1..] == a[..n];
      FreeInPermuted(inv, p, a[..n], b[..i] + b[i + 1..], chosen);
      FreeInTakenOut(inv, p, a, n, chosen);
      FreeInTakenOut(inv, p, b, i, chosen);
    }
  }

  lemma FreeInTakenOut(inv: Inventory, p: ProductId, ls: seq<LocationId>, i: nat, chosen: set<LocationId>)
    requires i < |ls|
    ensures FreeIn(inv, p, ls, chosen)
            == FreeIn(inv, p, ls[..i] + ls[i + 1..], chosen) + if ls[i] in chosen then FreeAt(inv, p, ls[i]) else 0
  {
    hide FreeIn, FreeAt;
    assert ls == ls[..i] + [ls[i]] + ls[i + 1..];
    FreeInAppend(inv, p, ls[..i], ls[i], chosen);
    FreeInJoin(inv, p, ls[..i] + [ls[i]], ls[i + 1..], chosen);
    FreeInJoin(inv, p, ls[..i], ls[i + 1..], chosen);
  }

  /** Storages without a row for the product, or not allowed, have nothing to add. */
  lemma {:induction false} FreeInCandidates(inv: Inventory, p: ProductId, active: seq<LocationId>,
                                            allowed: Option<set<LocationId>>, chosen: set<LocationId>)
    requires forall l :: l in chosen ==> allowed.None? || l in allowed.value
    ensures FreeIn(inv, p, Candidates(inv, p, active, allowed), chosen) == FreeIn(inv, p, active, chosen)
  {
    if active != [] {
      var n := |active| - 1;
      FreeInCandidates(inv, p, active[..n], allowed, chosen);
      FreeInAppend(inv, p, Candidates(inv, p, active[..n], allowed), active[n], chosen);
    }
  }

  /** Only storages with a row count. */
  lemma {:induction false} FreeInUsable(inv: Inventory, p: ProductId, ls: seq<LocationId>, chosen: set<LocationId>)
    ensures FreeIn(inv, p, ls, chosen) == FreeIn(inv, p, ls, set l | l in chosen && Key(l, p) in inv)
  {
    if ls != [] {
      FreeInUsable(inv, p, ls[..|ls| - 1], chosen);
    }
  }

  lemma RankedFrees(inv: Inventory, p: ProductId, at: Reach, chosen: set<LocationId>)
    requires forall l :: l in chosen ==> at.allowed.None? || l in at.allowed.value
    ensures FreeIn(inv, p, RankedFor(inv, p, at), chosen) == FreeIn(inv, p, at.active, chosen)
  {
    hide FreeIn;
    FreeInCandidates(inv, p, at.active, at.allowed, chosen);
    FreeInPermuted(inv, p, Candidates(inv, p, at.active, at.allowed), RankedFor(inv, p, at), chosen);
  }

  /** The first storages of a list. */
  lemma {:induction false} FreeInPrefix(inv: Inventory, p: ProductId, ls: seq<LocationId>, k: nat,
                                        first: set<LocationId>)
    requires NoRepeats(ls) && k <= |ls| && forall m :: m in first <==> m in ls[..k]
    ensures FreeIn(inv, p, ls, first) == SumFree(inv, p, ls[..k])
    decreases |ls|
  {
    hide FreeAt;
    if ls != [] {
      var n := |ls| - 1;
      if k <= n {
        assert ls[..n][..k] == ls[..k];
        FreeInPrefix(inv, p, ls[..n], k, first);
        assert ls[n] !in first;
      } else {
        var all := set m | m in ls[..n];
        assert ls[..n][..n] == ls[..n] && ls[..k] == ls && ls[n] in first;
        FreeInPrefix(inv, p, ls[..n], n, all);
        FreeInSame(inv, p, ls[..n], first, all);
      }
    }
  }

  // ---------------- In which order they are drawn from ----------------

  predicate Serves(covering: Option<set<LocationId>>, l: LocationId) {
    covering.None? || l in covering.value
  }

  ghost predicate ListedBefore(ls: seq<LocationId>, m: LocationId, l: LocationId) {
    exists i, j :: 0 <= i < j < |ls| && ls[i] == m && ls[j] == l
  }

  /** The counter comes first, then the fuller storage, and of two alike the one listed first. */
  ghost predicate DrawnBefore(inv: Inventory, p: ProductId, active: seq<LocationId>, pickup: Option<LocationId>,
                              m: LocationId, l: LocationId) {
    && pickup != Some(l) && m != l
    && (|| pickup == Some(m)
        || FreeAt(inv, p, m) > FreeAt(inv, p, l)
        || (FreeAt(inv, p, m) == FreeAt(inv, p, l) && ListedBefore(active, m, l)))
  }

  /** What the storages of the area, and the counter, have free that are drawn from before this one. */
  ghost function FreeBefore(inv: Inventory, p: ProductId, active: seq<LocationId>, covering: Option<set<LocationId>>,
                            pickup: Option<LocationId>, l: LocationId): int {
    FreeIn(inv, p, active, set m | m in active && (pickup == Some(m) || Serves(covering, m))
                                   && DrawnBefore(inv, p, active, pickup, m, l))
  }

  /** Of `n` units, what a storage gives: all it has free, within what the ones before it could not cover. */
  ghost function Share(inv: Inventory, p: ProductId, n: int, active: seq<LocationId>,
                       covering: Option<set<LocationId>>, pickup: Option<LocationId>, l: LocationId): int {
    Min(FreeAt(inv, p, l), StockSpec.Max(0, n - FreeBefore(inv, p, active, covering, pickup, l)))
  }

  lemma ListedGrows(ls: seq<LocationId>, m: LocationId, l: LocationId)
    requires ls != [] && ListedBefore(ls[..|ls| - 1], m, l)
    ensures ListedBefore(ls, m, l)
  {
    var n := |ls| - 1;
    var i, j :| 0 <= i < j < n && ls[..n][i] == m && ls[..n][j] == l;
    assert ls[i] == m && ls[j] == l;
  }

  lemma ListedLast(ls: seq<LocationId>, m: LocationId)
    requires ls != [] && m in ls[..|ls| - 1]
    ensures ListedBefore(ls, m, ls[|ls| - 1])
  {
    var i :| 0 <= i < |ls| - 1 && ls[i] == m;
  }

  lemma ListedOnce(ls: seq<LocationId>, m: LocationId, l: LocationId)
    requires NoRepeats(ls) && ListedBefore(ls, m, l)
    ensures !ListedBefore(ls, l, m)
  {
  }

  /** Rows the sort tells apart by nothing are in the order they were listed in. */
  ghost predicate Stable(inv: Inventory, p: ProductId, preferred: Option<LocationId>, ls: seq<LocationId>,
                         out: seq<LocationId>) {
    forall a, b :: 0 <= a < b < |out| && !Earlier(inv, p, preferred, out[a], out[b]) ==>
      ListedBefore(ls, out[a], out[b])
  }

  /** An insertion puts the row in between: everything after it is strictly later. */
  lemma {:induction false} InsertSplits(inv: Inventory, p: ProductId, preferred: Option<LocationId>,
                                        ls: seq<LocationId>, l: LocationId) returns (k: nat)
    ensures k <= |ls| && Insert(inv, p, preferred, ls, l) == ls[..k] + [l] + ls[k..]
    ensures forall i :: k <= i < |ls| ==> Earlier(inv, p, preferred, l, ls[i])
  {
    hide Earlier, Insert;
    k := |ls|;
    InsertStep(inv, p, preferred, ls, l);
    if ls != [] && Earlier(inv, p, preferred, l, ls[|ls| - 1]) {
      k := InsertSplits(inv, p, preferred, ls[..|ls| - 1], l);
      PutBetween(inv, p, preferred, ls, l, k);
    }
  }

  lemma InsertStep(inv: Inventory, p: ProductId, preferred: Option<LocationId>, ls: seq<LocationId>, l: LocationId)
    ensures Insert(inv, p, preferred, ls, l)
            == if ls != [] && Earlier(inv, p, preferred, l, ls[|ls| - 1])
               then Insert(inv, p, preferred, ls[..|ls| - 1], l) + [ls[|ls| - 1]] else ls[..|ls|] + [l] + ls[|ls|..]
  {
    hide Earlier;
    assert ls[..|ls|] == ls && ls[|ls|..] == [];
  }

  lemma PutBetween(inv: Inventory, p: ProductId, preferred: Option<LocationId>, ls: seq<LocationId>, l: LocationId,
                   k: nat)
    requires k < |ls| && Earlier(inv, p, preferred, l, ls[|ls| - 1])
    requires var first := ls[..|ls| - 1]; forall i :: k <= i < |first| ==> Earlier(inv, p, preferred, l, first[i])
    ensures var first := ls[..|ls| - 1]; first[..k] + [l] + first[k..] + [ls[|ls| - 1]] == ls[..k] + [l] + ls[k..]
    ensures forall i :: k <= i < |ls| ==> Earlier(inv, p, preferred, l, ls[i])
  {
    hide Earlier;
    var first := ls[..|ls| - 1];
    assert forall i :: k <= i < |first| ==> ls[i] == first[i];
  }

  lemma {:induction false} RankedStable(inv: Inventory, p: ProductId, preferred: Option<LocationId>,
                                        ls: seq<LocationId>)
    ensures Stable(inv, p, preferred, ls, Ranked(inv, p, preferred, ls))
  {
    hide Earlier, ListedBefore, Insert;
    if ls != [] {
      var n := |ls| - 1;
      var before, out := Ranked(inv, p, preferred, ls[..n]), Ranked(inv, p, preferred, ls);
      RankedStable(inv, p, preferred, ls[..n]);
      SameElements(ls[..n], before);
      var k := InsertSplits(inv, p, preferred, before, ls[n]);
      forall a, b | 0 <= a < b < |out| && !Earlier(inv, p, preferred, out[a], out[b])
        ensures ListedBefore(ls, out[a], out[b])
      {
        StableStep(inv, p, preferred, ls, before, k, a, b);
      }
    }
  }

  lemma StableStep(inv: Inventory, p: ProductId, preferred: Option<LocationId>, ls: seq<LocationId>,
                   before: seq<LocationId>, k: nat, a: nat, b: nat)
    requires ls != [] && k <= |before| && a < b <= |before|
    requires Stable(inv, p, preferred, ls[..|ls| - 1], before) && forall m :: m in before ==> m in ls[..|ls| - 1]
    requires forall i :: k <= i < |before| ==> Earlier(inv, p, preferred, ls[|ls| - 1], before[i])
    requires var out := before[..k] + [ls[|ls| - 1]] + before[k..]; !Earlier(inv, p, preferred, out[a], out[b])
    ensures var out := before[..k] + [ls[|ls| - 1]] + before[k..]; ListedBefore(ls, out[a], out[b])
  {
    hide Earlier, ListedBefore;
    var out := before[..k] + [ls[|ls| - 1]] + before[k..];
    if b == k {
      assert out[a] == before[a] && before[a] in before;
      ListedLast(ls, out[a]);
    } else {
      var i, j := if a < k then a else a - 1, if b < k then b else b - 1;
      assert out[b] == before[j];
      assert a != k;
      assert out[a] == before[i];
      ListedGrows(ls, out[a], out[b]);
    }
  }

  lemma {:induction false} CandidatesListed(inv: Inventory, p: ProductId, active: seq<LocationId>,
                                            allowed: Option<set<LocationId>>, m: LocationId, l: LocationId)
    requires ListedBefore(Candidates(inv, p, active, allowed), m, l)
    ensures ListedBefore(active, m, l)
  {
    hide ListedBefore;
    if active == [] {
      assert !ListedBefore([], m, l) by {
        NothingListed(m, l);
      }
    } else {
      var n := |active| - 1;
      var first := Candidates(inv, p, active[..n], allowed);
      if ListedBefore(first, m, l) {
        CandidatesListed(inv, p, active[..n], allowed, m, l);
        ListedGrows(active, m, l);
      } else {
        NewlyListed(first, active[n], m, l);
        ListedLast(active, m);
      }
    }
  }

  lemma NothingListed(m: LocationId, l: LocationId)
    ensures !ListedBefore([], m, l)
  {
  }

  lemma NewlyListed(first: seq<LocationId>, last: LocationId, m: LocationId, l: LocationId)
    requires ListedBefore(first + [last], m, l)
    ensures ListedBefore(first, m, l) || (l == last && m in first)
  {
    var i, j :| 0 <= i < j < |first + [last]| && (first + [last])[i] == m && (first + [last])[j] == l;
    assert first[i] == m && (j < |first| ==> first[j] == l);
  }

  /** The ranking puts one usable storage before another exactly when it is drawn from before it. */
  lemma RankedBefore(inv: Inventory, p: ProductId, at: Reach, i: nat, k: nat)
    requires i < |RankedFor(inv, p, at)| && k < |RankedFor(inv, p, at)| && i != k
    ensures i < k <==> DrawnBefore(inv, p, at.active, at.preferred, RankedFor(inv, p, at)[i], RankedFor(inv, p, at)[k])
  {
    hide Candidates, Ranked, ListedBefore, FreeAt;
    var ls, cs := RankedFor(inv, p, at), Candidates(inv, p, at.active, at.allowed);
    RankedCandidates(inv, p, at);
    RankedStable(inv, p, at.preferred, cs);
    assert Sorted(inv, p, at.preferred, ls) && Stable(inv, p, at.preferred, cs, ls);
    var a, b := if i < k then i else k, if i < k then k else i;
    assert !Earlier(inv, p, at.preferred, ls[b], ls[a]) && ls[a] != ls[b];
    if !Earlier(inv, p, at.preferred, ls[a], ls[b]) {
      CandidatesListed(inv, p, at.active, at.allowed, ls[a], ls[b]);
      ListedOnce(at.active, ls[a], ls[b]);
    }
  }

  // ---------------- How much each one gives ----------------

  /** A storage gives what it can of what the ones before it left to be found. */
  lemma {:induction false} TakenAt(inv: Inventory, o: OrderId, p: ProductId, ls: seq<LocationId>, q: int, k: nat)
    requires NoRepeats(ls) && NothingOversold(inv) && k < |ls|
    ensures Total(Takes(inv, o, p, ls, q), AtKey(Key(ls[k], p)))
            == TakeOf(Left(inv, p, ls[..k], q), FreeAt(inv, p, ls[k]))
  {
    hide Total, Takes, Left, TakeOf, FreeAt;
    var n, key := |ls| - 1, Key(ls[k], p);
    var take := TakeOf(Left(inv, p, ls[..n], q), FreeAt(inv, p, ls[n]));
    TakesSnoc(inv, o, p, ls, q, n);
    assert ls[..n + 1] == ls;
    if take > 0 {
      TotalSnoc(Takes(inv, o, p, ls[..n], q), Reservation(o, ls[n], p, take, Reserved), AtKey(key));
    }
    if k < n {
      assert ls[..n][..k] == ls[..k] && ls[..n][k] == ls[k];
      TakenAt(inv, o, p, ls[..n], q, k);
    } else {
      TakesWithinFree(inv, o, p, ls[..n], q, key);
      TakesOne(ls[n], p, o, take);
    }
  }

  lemma TakesOne(l: LocationId, p: ProductId, o: OrderId, take: nat)
    ensures Weight(Reservation(o, l, p, take, Reserved), AtKey(Key(l, p))) == take
  {
  }

  /** A reservation holds at each storage its share. */
  lemma ShareIs(st: Stock, o: OrderId, p: ProductId, q: nat, at: Reach, covering: Option<set<LocationId>>,
                l: LocationId)
    requires HoldsAgree(st) && at.allowed == AllowedIn(covering, at.preferred)
    requires l in at.active && (at.preferred == Some(l) || Serves(covering, l))
    ensures Total(TakesFor(st, o, p, q, at), AtKey(Key(l, p)))
            == Share(st.inv, p, q, at.active, covering, at.preferred, l)
  {
    hide RankedFor, Takes, Total, Left, FreeIn, FreeBefore, SumFree, HoldsAgree, Candidates;
    var inv, ls := st.inv, RankedFor(st.inv, p, at);
    RankedCandidates(inv, p, at);
    FreesAreFree(st);
    if Key(l, p) in inv {
      var k :| 0 <= k < |ls| && ls[k] == l;
      TakenAt(inv, o, p, ls, q, k);
      LeftIs(inv, p, ls[..k], q);
      FreeBeforeIs(inv, p, at, covering, k);
    } else {
      TakesWithinFree(inv, o, p, ls, q, Key(l, p));
    }
  }

  lemma FreesAreFree(st: Stock)
    requires HoldsAgree(st)
    ensures NothingOversold(st.inv)
  {
  }

  lemma FreeBeforeIs(inv: Inventory, p: ProductId, at: Reach, covering: Option<set<LocationId>>, k: nat)
    requires at.allowed == AllowedIn(covering, at.preferred) && k < |RankedFor(inv, p, at)|
    ensures FreeBefore(inv, p, at.active, covering, at.preferred, RankedFor(inv, p, at)[k])
            == SumFree(inv, p, RankedFor(inv, p, at)[..k])
  {
    hide RankedFor, FreeIn, SumFree, DrawnBefore, Candidates;
    var ls, l := RankedFor(inv, p, at), RankedFor(inv, p, at)[k];
    RankedCandidates(inv, p, at);
    var before := set m | m in at.active && (at.preferred == Some(m) || Serves(covering, m))
                          && DrawnBefore(inv, p, at.active, at.preferred, m, l);
    var usable := set m | m in before && Key(m, p) in inv;
    forall m ensures m in usable <==> m in ls[..k] {
      if m in ls {
        var i :| 0 <= i < |ls| && ls[i] == m;
        if i != k {
          RankedBefore(inv, p, at, i, k);
        } else {
          NotBeforeItself(inv, p, at, l);
        }
        assert m in ls[..k] <==> i < k;
      }
    }
    assert FreeBefore(inv, p, at.active, covering, at.preferred, l) == FreeIn(inv, p, at.active, before);
    FreeInUsable(inv, p, at.active, before);
    assert FreeIn(inv, p, at.active, before) == FreeIn(inv, p, at.active, usable);
    RankedFrees(inv, p, at, usable);
    FreeInPrefix(inv, p, ls, k, usable);
  }

  lemma NotBeforeItself(inv: Inventory, p: ProductId, at: Reach, l: LocationId)
    ensures !DrawnBefore(inv, p, at.active, at.preferred, l, l)
  {
  }
}
