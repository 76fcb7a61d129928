/**
 * The greedy allocation behind `reserve`: which storages are looked at, in which
 * order, and how many units each one gives.
 */
module Allocation {
  import opened Wrappers
  import opened Tables

  ghost predicate NoRepeats<T>(s: seq<T>) {
    forall i, j :: 0 <= i < j < |s| ==> s[i] != s[j]
  }

  /** The enabled storages in the order the database lists their rows. */
  type Storages = s: seq<LocationId> | NoRepeats(s)

  /** The storages `reserve` may use: enabled, allowed, and with a row for the product. */
  predicate Usable(inv: Inventory, p: ProductId, allowed: Option<set<LocationId>>, l: LocationId) {
    (allowed.None? || l in allowed.value) && Key(l, p) in inv
  }

  function Candidates(inv: Inventory, p: ProductId, active: seq<LocationId>,
                      allowed: Option<set<LocationId>>): (ls: seq<LocationId>)
    ensures forall l :: l in ls <==> l in active && Usable(inv, p, allowed, l)
    ensures NoRepeats(active) ==> NoRepeats(ls)
  {
    if active == [] then []
    else
      var n := |active| - 1;
      assert active == active[..n] + [active[n]];
      var earlier := Candidates(inv, p, active[..n], allowed);
      if Usable(inv, p, allowed, active[n]) then earlier + [active[n]] else earlier
  }

  function FreeAt(inv: Inventory, p: ProductId, l: LocationId): int {
    if Key(l, p) in inv then inv[Key(l, p)].Free() else 0
  }

  function SumFree(inv: Inventory, p: ProductId, ls: seq<LocationId>): int {
    if ls == [] then 0
    else SumFree(inv, p, ls[..|ls| - 1]) + FreeAt(inv, p, ls[|ls| - 1])
  }

  /** The comparator of the sort: the preferred storage first, then the fullest. */
  predicate Earlier(inv: Inventory, p: ProductId, preferred: Option<LocationId>, a: LocationId, b: LocationId) {
    if (preferred == Some(a)) != (preferred == Some(b)) then preferred == Some(a)
    else FreeAt(inv, p, a) > FreeAt(inv, p, b)
  }

  ghost predicate Sorted(inv: Inventory, p: ProductId, preferred: Option<LocationId>, ls: seq<LocationId>) {
    forall i, j :: 0 <= i < j < |ls| ==> !Earlier(inv, p, preferred, ls[j], ls[i])
  }

  /** After every row that is not strictly later: equal rows keep their order. */
  function Insert(inv: Inventory, p: ProductId, preferred: Option<LocationId>,
                  ls: seq<LocationId>, l: LocationId): (out: seq<LocationId>)
    ensures multiset(out) == multiset(ls) + multiset{l}
  {
    if ls == [] then [l]
    else
      var n := |ls| - 1;
      assert ls == ls[..n] + [ls[n]];
      if Earlier(inv, p, preferred, l, ls[n]) then Insert(inv, p, preferred, ls[..n], l) + [ls[n]]
      else ls + [l]
  }

  lemma {:induction false} InsertSorted(inv: Inventory, p: ProductId, preferred: Option<LocationId>,
                                        ls: seq<LocationId>, l: LocationId)
    requires Sorted(inv, p, preferred, ls)
    ensures Sorted(inv, p, preferred, Insert(inv, p, preferred, ls, l))
  {
    if ls != [] {
      var n := |ls| - 1;
      if Earlier(inv, p, preferred, l, ls[n]) {
        InsertSorted(inv, p, preferred, ls[..n], l);
        var out := Insert(inv, p, preferred, ls[..n], l);
        SameElements(out, ls[..n] + [l]);
        forall e | e in out ensures !Earlier(inv, p, preferred, ls[n], e) {
          assert e == l || e in ls[..n];
        }
      }
    }
  }

  /** `rows.sort`: a stable sort with the comparator above. */
  function Ranked(inv: Inventory, p: ProductId, preferred: Option<LocationId>,
                  ls: seq<LocationId>): (out: seq<LocationId>)
    ensures multiset(out) == multiset(ls)
    ensures Sorted(inv, p, preferred, out)
  {
    if ls == [] then []
    else
      var n := |ls| - 1;
      var earlier := Ranked(inv, p, preferred, ls[..n]);
      assert ls == ls[..n] + [ls[n]];
      InsertSorted(inv, p, preferred, earlier, ls[n]);
      Insert(inv, p, preferred, earlier, ls[n])
  }

  function Min(a: int, b: int): int {
    if a < b then a else b
  }

  function TakeOf(left: int, free: int): nat {
    if left <= 0 || free <= 0 then 0 else Min(free, left)
  }

  /** What is still to be found after the first storages gave theirs. */
  function Left(inv: Inventory, p: ProductId, ls: seq<LocationId>, q: int): int {
    if ls == [] then q
    else
      var left := Left(inv, p, ls[..|ls| - 1], q);
      left - TakeOf(left, FreeAt(inv, p, ls[|ls| - 1]))
  }

  /** The reservation rows the loop inserts, one per storage it draws from. */
  function Takes(inv: Inventory, o: OrderId, p: ProductId, ls: seq<LocationId>, q: int): seq<Reservation> {
    if ls == [] then []
    else
      var n := |ls| - 1;
      var take := TakeOf(Left(inv, p, ls[..n], q), FreeAt(inv, p, ls[n]));
      Takes(inv, o, p, ls[..n], q) + if take > 0 then [Reservation(o, ls[n], p, take, Reserved)] else []
  }

  // ---------------- One step of the allocation ----------------

  lemma TakesStart(inv: Inventory, o: OrderId, p: ProductId, q: int)
    ensures Left(inv, p, [], q) == q && Takes(inv, o, p, [], q) == []
  {
  }

  lemma TakesSnoc(inv: Inventory, o: OrderId, p: ProductId, ls: seq<LocationId>, q: int, n: nat)
    requires n < |ls|
    ensures var left := Left(inv, p, ls[..n], q);
            var take := TakeOf(left, FreeAt(inv, p, ls[n]));
            && Left(inv, p, ls[..n + 1], q) == left - take
            && Takes(inv, o, p, ls[..n + 1], q)
               == if take > 0 then Takes(inv, o, p, ls[..n], q) + [Reservation(o, ls[n], p, take, Reserved)]
                  else Takes(inv, o, p, ls[..n], q)
  {
    assert ls[..n + 1][..n] == ls[..n];
  }

  // ---------------- What the allocation guarantees ----------------

  /** No row over-reserved: the part of the stock invariant allocation relies on. */
  ghost predicate NothingOversold(inv: Inventory) {
    forall k :: k in inv ==> inv[k].Free() >= 0
  }

  lemma {:induction false} NoRepeatsCount<T>(s: seq<T>, x: T)
    requires NoRepeats(s)
    ensures multiset(s)[x] <= 1
  {
    if s != [] {
      var n := |s| - 1;
      assert s == s[..n] + [s[n]];
      NoRepeatsCount(s[..n], x);
      if s[n] == x {
        assert x !in s[..n];
      }
    }
  }

  lemma TwiceCounted<T>(t: seq<T>, i: nat, j: nat)
    requires i < j < |t| && t[i] == t[j]
    ensures multiset(t)[t[i]] >= 2
  {
    assert t == t[..i] + [t[i]] + t[i + 1..j] + [t[j]] + t[j + 1..];
  }

  lemma NoRepeatsPermuted<T>(s: seq<T>, t: seq<T>)
    requires multiset(s) == multiset(t)
    requires NoRepeats(s)
    ensures NoRepeats(t)
  {
    forall i, j | 0 <= i < j < |t| ensures t[i] != t[j] {
      NoRepeatsCount(s, t[i]);
      if t[i] == t[j] {
        TwiceCounted(t, i, j);
      }
    }
  }

  lemma SameElements<T>(s: seq<T>, t: seq<T>)
    requires multiset(s) == multiset(t)
    ensures forall x :: x in s <==> x in t
  {
    assert forall x :: x in s <==> x in multiset(s);
    assert forall x :: x in t <==> x in multiset(t);
  }

  lemma {:induction false} SumFreeAppend(inv: Inventory, p: ProductId, a: seq<LocationId>, b: seq<LocationId>)
    ensures SumFree(inv, p, a + b) == SumFree(inv, p, a) + SumFree(inv, p, b)
  {
    if b == [] {
      assert a + b == a;
    } else {
      assert (a + b)[..|a + b| - 1] == a + b[..|b| - 1];
      SumFreeAppend(inv, p, a, b[..|b| - 1]);
    }
  }

  lemma TakenOut<T>(s: seq<T>, i: nat)
    requires i < |s|
    ensures multiset(s[..i] + s[i + 1..]) == multiset(s) - multiset{s[i]}
  {
    assert s == s[..i] + [s[i]] + s[i + 1..];
  }

  lemma SumFreeTakenOut(inv: Inventory, p: ProductId, ls: seq<LocationId>, i: nat)
    requires i < |ls|
    ensures SumFree(inv, p, ls) == SumFree(inv, p, ls[..i] + ls[i + 1..]) + FreeAt(inv, p, ls[i])
  {
    assert ls == ls[..i] + [ls[i]] + ls[i + 1..];
    SumFreeAppend(inv, p, ls[..i], ls[i + 1..]);
    SumFreeAppend(inv, p, ls[..i] + [ls[i]], ls[i + 1..]);
    assert (ls[..i] + [ls[i]])[..i] == ls[..i];
  }

  /** The sum the availability check computes does not depend on the order of the rows. */
  lemma {:induction false} SumFreePermuted(inv: Inventory, p: ProductId, a: seq<LocationId>, b: seq<LocationId>)
    requires multiset(a) == multiset(b)
    ensures SumFree(inv, p, a) == SumFree(inv, p, b)
  {
    if a == [] {
      assert |multiset(a)| == 0 && |multiset(b)| == |b|;
    } else {
      var n := |a| - 1;
      SameElements(a, b);
      assert a[n] in a;
      var i :| 0 <= i < |b| && b[i] == a[n];
      TakenOut(a, n);
      TakenOut(b, i);
      assert a[..n] + a[n + 1..] == a[..n];
      SumFreePermuted(inv, p, a[..n], b[..i] + b[i + 1..]);
      SumFreeTakenOut(inv, p, b, i);
    }
  }

  lemma {:induction false} SumFreeNonNegative(inv: Inventory, p: ProductId, ls: seq<LocationId>)
    requires NothingOversold(inv)
    ensures SumFree(inv, p, ls) >= 0
  {
    if ls != [] {
      SumFreeNonNegative(inv, p, ls[..|ls| - 1]);
    }
  }

  lemma {:induction false} LeftIs(inv: Inventory, p: ProductId, ls: seq<LocationId>, q: nat)
    requires NothingOversold(inv)
    ensures Left(inv, p, ls, q) == if SumFree(inv, p, ls) <= q then q - SumFree(inv, p, ls) else 0
  {
    if ls != [] {
      LeftIs(inv, p, ls[..|ls| - 1], q);
      SumFreeNonNegative(inv, p, ls[..|ls| - 1]);
    }
  }

  /** Once nothing is left to find, the remaining storages give nothing. */
  lemma {:induction false} NothingLeft(inv: Inventory, o: OrderId, p: ProductId,
                                       ls: seq<LocationId>, more: seq<LocationId>, q: int)
    requires Left(inv, p, ls, q) <= 0
    ensures Left(inv, p, ls + more, q) == Left(inv, p, ls, q)
    ensures Takes(inv, o, p, ls + more, q) == Takes(inv, o, p, ls, q)
  {
    if more == [] {
      assert ls + more == ls;
    } else {
      assert (ls + more)[..|ls + more| - 1] == ls + more[..|more| - 1];
      NothingLeft(inv, o, p, ls, more[..|more| - 1], q);
    }
  }

  /** Every inserted row is a positive hold of this order and product at one of the storages. */
  lemma {:induction false} TakesRows(inv: Inventory, o: OrderId, p: ProductId, ls: seq<LocationId>, q: int)
    ensures forall r :: r in Takes(inv, o, p, ls, q) ==>
              r.order == o && r.prod == p && r.status == Reserved && r.quantity > 0
              && r.loc in ls && r.At() in inv
  {
    if ls != [] {
      assert ls == ls[..|ls| - 1] + [ls[|ls| - 1]];
      TakesRows(inv, o, p, ls[..|ls| - 1], q);
    }
  }

  /** All the takes together are what was asked for minus what is left. */
  lemma {:induction false} TakesTotal(inv: Inventory, o: OrderId, p: ProductId,
                                      ls: seq<LocationId>, q: int, j: Pick)
    requires forall l :: Fits(Reservation(o, l, p, 1, Reserved), j)
    ensures Total(Takes(inv, o, p, ls, q), j) == q - Left(inv, p, ls, q)
  {
    hide Total, Takes, Left, TakeOf, FreeAt;
    if ls == [] {
      TakesStart(inv, o, p, q);
      TotalZero([], j);
    } else {
      var n := |ls| - 1;
      TakesTotal(inv, o, p, ls[..n], q, j);
      TakesSnoc(inv, o, p, ls, q, n);
      assert ls[..n + 1] == ls;
      assert Fits(Reservation(o, ls[n], p, 1, Reserved), j);
      var take := TakeOf(Left(inv, p, ls[..n], q), FreeAt(inv, p, ls[n]));
      if take > 0 {
        TotalSnoc(Takes(inv, o, p, ls[..n], q), Reservation(o, ls[n], p, take, Reserved), j);
      }
    }
  }

  /** No storage gives more than it has free. */
  lemma {:induction false} TakesWithinFree(inv: Inventory, o: OrderId, p: ProductId,
                                           ls: seq<LocationId>, q: int, k: Key)
    requires NoRepeats(ls)
    requires NothingOversold(inv)
    ensures Total(Takes(inv, o, p, ls, q), AtKey(k)) <= FreeAt(inv, k.prod, k.loc)
    ensures k.loc !in ls ==> Total(Takes(inv, o, p, ls, q), AtKey(k)) == 0
  {
    if ls != [] {
      var n := |ls| - 1;
      assert ls == ls[..n] + [ls[n]];
      TakesWithinFree(inv, o, p, ls[..n], q, k);
      assert ls[n] !in ls[..n];
      var take := TakeOf(Left(inv, p, ls[..n], q), FreeAt(inv, p, ls[n]));
      if take > 0 {
        TotalSnoc(Takes(inv, o, p, ls[..n], q), Reservation(o, ls[n], p, take, Reserved), AtKey(k));
      } else {
        assert Takes(inv, o, p, ls, q) == Takes(inv, o, p, ls[..n], q);
      }
    }
  }

  // ---------------- Optimality ----------------

  /** What a set of storages could give between them. */
  function FreeIn(inv: Inventory, p: ProductId, ls: seq<LocationId>, chosen: set<LocationId>): int {
    if ls == [] then 0
    else FreeIn(inv, p, ls[..|ls| - 1], chosen)
         + if ls[|ls| - 1] in chosen then FreeAt(inv, p, ls[|ls| - 1]) else 0
  }

  ghost predicate Descending(inv: Inventory, p: ProductId, ls: seq<LocationId>) {
    forall i, j :: 0 <= i < j < |ls| ==> FreeAt(inv, p, ls[i]) >= FreeAt(inv, p, ls[j])
  }

  /** The fullest `m` storages give at least what any other `m` give. */
  lemma {:induction false} FullestGiveMost(inv: Inventory, p: ProductId, ls: seq<LocationId>,
                                           chosen: set<LocationId>, m: nat)
    requires NoRepeats(ls) && Descending(inv, p, ls)
    requires |chosen| == m && forall l :: l in chosen ==> l in ls
    ensures m <= |ls|
    ensures FreeIn(inv, p, ls, chosen) <= SumFree(inv, p, ls[..m])
  {
    if ls == [] {
      assert chosen == {};
    } else {
      hide *;
      var n := |ls| - 1;
      var rest := chosen - {ls[n]};
      var r := if ls[n] in chosen then m - 1 else m;
      WithoutLast(ls, chosen);
      PrefixKeeps(inv, p, ls, n);
      FullestGiveMost(inv, p, ls[..n], rest, r);
      FreeInLast(inv, p, ls, chosen);
      PrefixOfPrefix(ls, n, r);
      if ls[n] in chosen {
        PrefixSum(inv, p, ls, r);
        LastIsLeast(inv, p, ls, r);
      }
    }
  }

  lemma PrefixKeeps(inv: Inventory, p: ProductId, ls: seq<LocationId>, n: nat)
    requires NoRepeats(ls) && Descending(inv, p, ls) && n <= |ls|
    ensures NoRepeats(ls[..n]) && Descending(inv, p, ls[..n])
    ensures n < |ls| ==> ls[n] !in ls[..n]
  {
  }

  lemma LastIsLeast(inv: Inventory, p: ProductId, ls: seq<LocationId>, i: nat)
    requires Descending(inv, p, ls) && i < |ls|
    ensures FreeAt(inv, p, ls[i]) >= FreeAt(inv, p, ls[|ls| - 1])
  {
  }

  lemma FreeInLast(inv: Inventory, p: ProductId, ls: seq<LocationId>, chosen: set<LocationId>)
    requires NoRepeats(ls) && ls != []
    ensures var n := |ls| - 1;
            FreeIn(inv, p, ls, chosen) == FreeIn(inv, p, ls[..n], chosen - {ls[n]})
                                          + if ls[n] in chosen then FreeAt(inv, p, ls[n]) else 0
  {
    var n := |ls| - 1;
    FreeInSame(inv, p, ls[..n], chosen, chosen - {ls[n]});
  }

  lemma WithoutLast(ls: seq<LocationId>, chosen: set<LocationId>)
    requires ls != [] && forall l :: l in chosen ==> l in ls
    ensures var n, rest := |ls| - 1, chosen - {ls[|ls| - 1]};
            && (forall l :: l in rest ==> l in ls[..n])
            && |rest| == if ls[n] in chosen then |chosen| - 1 else |chosen|
  {
    assert ls == ls[..|ls| - 1] + [ls[|ls| - 1]];
    assert ls[|ls| - 1] !in chosen ==> chosen - {ls[|ls| - 1]} == chosen;
  }

  lemma PrefixOfPrefix<T>(s: seq<T>, n: nat, m: nat)
    requires m <= n <= |s|
    ensures s[..n][..m] == s[..m]
  {
  }

  lemma PrefixSum(inv: Inventory, p: ProductId, ls: seq<LocationId>, c: nat)
    requires c < |ls|
    ensures SumFree(inv, p, ls[..c + 1]) == SumFree(inv, p, ls[..c]) + FreeAt(inv, p, ls[c])
  {
    assert ls[..c + 1][..c] == ls[..c];
  }

  lemma {:induction false} FreeInSame(inv: Inventory, p: ProductId, ls: seq<LocationId>,
                                      a: set<LocationId>, b: set<LocationId>)
    requires forall l :: l in ls ==> (l in a <==> l in b)
    ensures FreeIn(inv, p, ls, a) == FreeIn(inv, p, ls, b)
  {
    if ls != [] {
      assert ls == ls[..|ls| - 1] + [ls[|ls| - 1]];
      FreeInSame(inv, p, ls[..|ls| - 1], a, b);
    }
  }

  /** Greedy from the fullest: all storages before the last one used were drained without sufficing. */
  lemma {:induction false} DrainedBeforeLast(inv: Inventory, o: OrderId, p: ProductId, ls: seq<LocationId>, q: nat)
    requires NothingOversold(inv) && Descending(inv, p, ls)
    ensures |Takes(inv, o, p, ls, q)| <= |ls|
    ensures Left(inv, p, ls, q) > 0 && (forall i :: 0 <= i < |ls| ==> FreeAt(inv, p, ls[i]) > 0) ==>
              |Takes(inv, o, p, ls, q)| == |ls|
    ensures var c := |Takes(inv, o, p, ls, q)|; c > 0 ==> SumFree(inv, p, ls[..c - 1]) < q
  {
    hide SumFree, Takes, Left;
    if ls == [] {
      TakesStart(inv, o, p, q);
    } else {
      var n := |ls| - 1;
      assert ls[..n + 1] == ls;
      TakesSnoc(inv, o, p, ls, q, n);
      DrainedBeforeLast(inv, o, p, ls[..n], q);
      LeftIs(inv, p, ls[..n], q);
      var c := |Takes(inv, o, p, ls[..n], q)|;
      if c > 0 {
        PrefixOfPrefix(ls, n, c - 1);
      }
    }
  }

  /**
   * The overflow goes to as few storages as possible: any set of storages that
   * could cover `q` between them has at least as many members as were used.
   */
  lemma FewestStorages(inv: Inventory, o: OrderId, p: ProductId, ls: seq<LocationId>, q: nat, chosen: set<LocationId>)
    requires NoRepeats(ls) && NothingOversold(inv) && Descending(inv, p, ls)
    requires forall l :: l in chosen ==> l in ls
    requires FreeIn(inv, p, ls, chosen) >= q
    ensures |Takes(inv, o, p, ls, q)| <= |chosen|
  {
    hide Takes, FreeIn, SumFree;
    var c := |Takes(inv, o, p, ls, q)|;
    if |chosen| < c {
      FullestGiveMost(inv, p, ls, chosen, |chosen|);
      DrainedBeforeLast(inv, o, p, ls, q);
      var s := ls[..c - 1];
      assert s == s[..|chosen|] + s[|chosen|..] && s[..|chosen|] == ls[..|chosen|];
      SumFreeAppend(inv, p, s[..|chosen|], s[|chosen|..]);
      SumFreeNonNegative(inv, p, s[|chosen|..]);
    }
  }

  /** The preferred storage is served first; the others share what it could not hold. */
  lemma {:induction false} PreferredFirst(inv: Inventory, o: OrderId, p: ProductId, l: LocationId,
                                          others: seq<LocationId>, q: int)
    ensures var take := TakeOf(q, FreeAt(inv, p, l));
            && Left(inv, p, [l] + others, q) == Left(inv, p, others, q - take)
            && Takes(inv, o, p, [l] + others, q)
               == (if take > 0 then [Reservation(o, l, p, take, Reserved)] else []) + Takes(inv, o, p, others, q - take)
  {
    if others == [] {
      assert [l] + others == [l] && [l][..0] == [];
    } else {
      assert ([l] + others)[..|others|] == [l] + others[..|others| - 1];
      PreferredFirst(inv, o, p, l, others[..|others| - 1], q);
    }
  }
}
