/**
 * The cart of a client while an order of theirs dies or comes back to life: the
 * lines go back to the cart (the larger quantity wins) and come out again (they
 * are subtracted).
 */
module CartModule {
  import opened Wrappers
  import opened Tables
  import opened Allocation

  type Cart = map<ProductId, nat>

  datatype CartLine = CartLine(prod: ProductId, quantity: int)

  function InCart(cart: Cart, p: ProductId): nat {
    if p in cart then cart[p] else 0
  }

  /** No line at zero. */
  ghost predicate Proper(cart: Cart) {
    forall p :: p in cart ==> cart[p] > 0
  }

  /** The largest quantity a list brings of a product; zero if none of its lines is useful. */
  function Largest(lines: seq<CartLine>, p: ProductId): nat {
    if lines == [] then 0
    else
      var earlier := Largest(lines[..|lines| - 1], p);
      var l := lines[|lines| - 1];
      if l.prod == p && l.quantity > earlier then l.quantity else earlier
  }

  /** All it takes of a product. */
  function SumOf(lines: seq<CartLine>, p: ProductId): nat {
    if lines == [] then 0
    else
      var l := lines[|lines| - 1];
      SumOf(lines[..|lines| - 1], p) + if l.prod == p && l.quantity > 0 then l.quantity else 0
  }

  function Useful(lines: seq<CartLine>): set<ProductId> {
    set l | l in lines && l.quantity > 0 :: l.prod
  }

  /** The cart after the lines came back: of each product, whichever is more. */
  function Returned(cart: Cart, lines: seq<CartLine>): Cart {
    map p | p in cart.Keys + Useful(lines) ::
      if InCart(cart, p) < Largest(lines, p) then Largest(lines, p) else InCart(cart, p)
  }

  /** The cart after the lines came out: of each product, what exceeds them. */
  function Removed(cart: Cart, lines: seq<CartLine>): Cart {
    map p | p in cart && (SumOf(lines, p) == 0 || cart[p] > SumOf(lines, p)) :: cart[p] - SumOf(lines, p)
  }

  lemma {:induction false} LargestUseful(lines: seq<CartLine>, p: ProductId)
    ensures Largest(lines, p) > 0 <==> p in Useful(lines)
  {
    if lines != [] {
      var n := |lines| - 1;
      LargestUseful(lines[..n], p);
      assert lines == lines[..n] + [lines[n]];
      if p in Useful(lines) && p !in Useful(lines[..n]) {
        assert lines[n].prod == p && lines[n].quantity > 0;
      }
      if p in Useful(lines[..n]) {
        var l :| l in lines[..n] && l.quantity > 0 && l.prod == p;
        assert l in lines;
      }
    }
  }

  /** The products the returning lines change. */
  function Changed(cart: Cart, lines: seq<CartLine>): set<ProductId> {
    set p | p in Useful(lines) && InCart(cart, p) < Largest(lines, p)
  }

  /** The useful lines of products that are in the cart: each counts, even two of the same product. */
  function Met(cart: Cart, lines: seq<CartLine>): nat {
    if lines == [] then 0
    else
      var l := lines[|lines| - 1];
      Met(cart, lines[..|lines| - 1]) + if l.quantity > 0 && l.prod in cart then 1 else 0
  }

  // ---------------- The loops ----------------

  /** The largest useful line of each product, with the products in order of appearance. */
  method LargestPerProduct(lines: seq<CartLine>) returns (order: seq<ProductId>, largest: map<ProductId, nat>)
    ensures forall p :: p in largest <==> p in order
    ensures forall p :: Largest(lines, p) == if p in largest then largest[p] else 0
    ensures forall p :: p in largest ==> largest[p] > 0
    ensures NoRepeats(order)
  {
    order, largest := [], map[];
    for i := 0 to |lines|
      invariant forall p :: p in largest <==> p in order
      invariant forall p :: Largest(lines[..i], p) == if p in largest then largest[p] else 0
      invariant forall p :: p in largest ==> largest[p] > 0
      invariant NoRepeats(order)
    {
      var l := lines[i];
      assert lines[..i + 1][..i] == lines[..i];
      if l.quantity > 0 {
        if l.prod !in largest {
          order := order + [l.prod];
          largest := largest[l.prod := l.quantity];
        } else if largest[l.prod] < l.quantity {
          largest := largest[l.prod := l.quantity];
        }
      }
    }
    assert lines[..|lines|] == lines;
  }

  /** The cart once some of the products have been seen to. */
  ghost predicate Raising(cart: Cart, cart': Cart, largest: map<ProductId, nat>, done: set<ProductId>,
                          changed: set<ProductId>) {
    && done <= largest.Keys
    && (forall p :: p in cart' <==> p in cart || p in done)
    && (forall p :: p in changed <==> p in done && InCart(cart, p) < largest[p])
    && (forall p :: p in cart' ==> cart'[p] == if p in changed then largest[p] else InCart(cart, p))
  }

  lemma RaisingStep(cart: Cart, cart': Cart, largest: map<ProductId, nat>, done: set<ProductId>,
                    changed: set<ProductId>, p: ProductId)
    requires Raising(cart, cart', largest, done, changed) && p in largest && p !in done && largest[p] > 0
    ensures if p !in cart || cart[p] < largest[p]
            then Raising(cart, cart'[p := largest[p]], largest, done + {p}, changed + {p})
              && |changed + {p}| == |changed| + 1
            else Raising(cart, cart', largest, done + {p}, changed)
  {
    if p !in cart || cart[p] < largest[p] {
      var after := cart'[p := largest[p]];
      forall q | q in after ensures after[q] == if q in changed + {p} then largest[q] else InCart(cart, q) {
        assert q == p || after[q] == cart'[q];
      }
      assert forall q :: q in after <==> q in cart || q in done + {p};
    }
  }

  /** Saves each product whose line is missing or falls short. */
  method RaiseTo(cart: Cart, order: seq<ProductId>, largest: map<ProductId, nat>)
    returns (cart': Cart, touched: nat, ghost changed: set<ProductId>)
    requires NoRepeats(order) && (forall p :: p in largest <==> p in order)
             && forall p :: p in largest ==> largest[p] > 0
    ensures touched == |changed| && Raising(cart, cart', largest, largest.Keys, changed)
  {
    hide NoRepeats, Raising;
    ghost var done: set<ProductId> := {};
    cart', touched, changed := cart, 0, {};
    RaisingStarts(cart, largest);
    for n := 0 to |order|
      invariant forall p :: p in done <==> p in order[..n]
      invariant Raising(cart, cart', largest, done, changed) && touched == |changed|
    {
      var p := order[n];
      Reached(order, n);
      assert p in order;
      RaisingStep(cart, cart', largest, done, changed, p);
      if p !in cart || cart[p] < largest[p] {
        cart', touched, changed := cart'[p := largest[p]], touched + 1, changed + {p};
      }
      done := done + {p};
    }
    assert order[..|order|] == order;
    assert done == largest.Keys;
  }

  lemma RaisingStarts(cart: Cart, largest: map<ProductId, nat>)
    ensures Raising(cart, cart, largest, {}, {})
  {
  }

  lemma Reached(order: seq<ProductId>, n: nat)
    requires NoRepeats(order) && n < |order|
    ensures order[n] !in order[..n]
    ensures forall p :: p in order[..n + 1] <==> p in order[..n] || p == order[n]
  {
    assert order[..n + 1] == order[..n] + [order[n]];
  }

  /** `devolverAlCarrito`: the useful lines come back, the larger quantity winning. */
  method ReturnToCart(cart: Cart, lines: seq<CartLine>) returns (cart': Cart, touched: nat)
    ensures cart' == Returned(cart, lines)
    ensures touched == |Changed(cart, lines)|
    ensures touched == 0 <==> cart' == cart
  {
    hide Largest, Useful, Returned, Changed;
    var order, largest := LargestPerProduct(lines);
    ghost var changed;
    cart', touched, changed := RaiseTo(cart, order, largest);
    ChangedIs(cart, lines, largest, changed);
    ReturnedIs(cart, lines, largest, cart');
    assert changed == {} <==> forall p :: p in largest ==> largest[p] <= InCart(cart, p);
  }

  lemma ChangedIs(cart: Cart, lines: seq<CartLine>, largest: map<ProductId, nat>, changed: set<ProductId>)
    requires forall p :: Largest(lines, p) == if p in largest then largest[p] else 0
    requires forall p :: p in changed <==> p in largest && InCart(cart, p) < largest[p]
    ensures changed == Changed(cart, lines)
  {
    hide Largest;
    forall p ensures p in changed <==> p in Changed(cart, lines) {
      LargestUseful(lines, p);
    }
  }

  lemma ReturnedIs(cart: Cart, lines: seq<CartLine>, largest: map<ProductId, nat>, cart': Cart)
    requires forall p :: Largest(lines, p) == if p in largest then largest[p] else 0
    requires forall p :: p in largest ==> largest[p] > 0
    requires cart'.Keys == cart.Keys + largest.Keys
    requires forall p :: p in cart' ==>
               cart'[p] == (if p in largest && InCart(cart, p) < largest[p] then largest[p] else InCart(cart, p))
    ensures cart' == Returned(cart, lines)
    ensures (forall p :: p in largest ==> largest[p] <= InCart(cart, p)) <==> cart' == cart
  {
    hide Largest;
    forall p ensures p in Useful(lines) <==> p in largest {
      LargestUseful(lines, p);
    }
    if p :| p in largest && largest[p] > InCart(cart, p) {
      assert InCart(cart', p) != InCart(cart, p);
    } else {
      assert forall p :: p in largest ==> p in cart;
    }
  }

  /** What the loop has left of a product: its quantity is only written while something remains. */
  function LeftAfter(cart: Cart, lines: seq<CartLine>, p: ProductId): (int, bool) {
    if lines == [] then (InCart(cart, p), false)
    else
      var (left, gone) := LeftAfter(cart, lines[..|lines| - 1], p);
      var l := lines[|lines| - 1];
      if l.prod != p || l.quantity <= 0 then (left, gone)
      else if left - l.quantity > 0 then (left - l.quantity, gone)
      else (left, true)
  }

  /** A product is deleted exactly when the lines take all there was, however they are split. */
  lemma {:induction false} LeftAfterIs(cart: Cart, lines: seq<CartLine>, p: ProductId)
    ensures var (left, gone) := LeftAfter(cart, lines, p);
            && (gone <==> SumOf(lines, p) > 0 && SumOf(lines, p) >= InCart(cart, p))
            && (!gone ==> left == InCart(cart, p) - SumOf(lines, p))
            && InCart(cart, p) - SumOf(lines, p) <= left <= InCart(cart, p)
            && (SumOf(lines, p) == 0 ==> left == InCart(cart, p))
  {
    if lines != [] {
      LeftAfterIs(cart, lines[..|lines| - 1], p);
    }
  }

  /** `quitarDelCarrito`: the lines come out; a line goes away only when nothing of its own is left. */
  method TakeFromCart(cart: Cart, lines: seq<CartLine>) returns (cart': Cart, touched: nat)
    ensures cart' == Removed(cart, lines)
    ensures touched == Met(cart, lines)
  {
    touched := 0;
    var byProduct := cart;
    var toDelete: set<ProductId> := {};
    for i := 0 to |lines|
      invariant byProduct.Keys == cart.Keys && touched == Met(cart, lines[..i])
      invariant forall p :: p in cart ==> LeftAfter(cart, lines[..i], p) == (byProduct[p], p in toDelete)
    {
      var l := lines[i];
      assert lines[..i + 1][..i] == lines[..i];
      if l.quantity > 0 && l.prod in byProduct {
        touched := touched + 1;
        var rest := byProduct[l.prod] - l.quantity;
        if rest > 0 {
          byProduct := byProduct[l.prod := rest];
        } else {
          toDelete := toDelete + {l.prod};
        }
      }
    }
    assert lines[..|lines|] == lines;
    cart' := byProduct - toDelete;
    forall p ensures p in cart' <==> p in Removed(cart, lines)
             ensures p in cart' ==> cart'[p] == Removed(cart, lines)[p]
    {
      LeftAfterIs(cart, lines, p);
    }
  }

  // ---------------- What the two compute ----------------

  /** The largest useful line of a product: as large as each of them, and one of them. */
  lemma {:induction false} LargestIs(lines: seq<CartLine>, p: ProductId)
    ensures forall i :: 0 <= i < |lines| && lines[i].prod == p ==> lines[i].quantity <= Largest(lines, p)
    ensures Largest(lines, p) == 0
            || exists i :: 0 <= i < |lines| && lines[i].prod == p && lines[i].quantity == Largest(lines, p)
  {
    if lines != [] {
      var n := |lines| - 1;
      LargestIs(lines[..n], p);
      if i :| 0 <= i < n && lines[..n][i].prod == p && lines[..n][i].quantity == Largest(lines[..n], p) {
        assert lines[i].prod == p && lines[i].quantity == Largest(lines[..n], p);
      }
    }
  }

  /** What the lines take of a product is a sum: over one line its quantity if it is useful, over two lists both. */
  lemma {:induction false} SumOfAdds(a: seq<CartLine>, b: seq<CartLine>, p: ProductId)
    ensures SumOf(a + b, p) == SumOf(a, p) + SumOf(b, p)
    ensures forall l: CartLine :: SumOf([l], p) == if l.prod == p && l.quantity > 0 then l.quantity else 0
  {
    forall l: CartLine ensures SumOf([l], p) == if l.prod == p && l.quantity > 0 then l.quantity else 0 {
      assert [l][..0] == [];
    }
    if b == [] {
      assert a + b == a;
    } else {
      assert (a + b)[..|a + b| - 1] == a + b[..|b| - 1];
      SumOfAdds(a, b[..|b| - 1], p);
    }
  }

  /** Of each product, the returning lines leave whichever is more, and the ones that come out what exceeds them. */
  lemma CartsAfter(cart: Cart, lines: seq<CartLine>, p: ProductId)
    ensures InCart(Returned(cart, lines), p) == if InCart(cart, p) < Largest(lines, p)
            then Largest(lines, p) else InCart(cart, p)
    ensures InCart(Removed(cart, lines), p) == if InCart(cart, p) > SumOf(lines, p)
            then InCart(cart, p) - SumOf(lines, p) else 0
    ensures p in Returned(cart, lines) <==> p in cart || Largest(lines, p) > 0
    ensures p in Removed(cart, lines) <==> p in cart && (SumOf(lines, p) == 0 || cart[p] > SumOf(lines, p))
  {
    LargestUseful(lines, p);
  }

  /** The counts: the products whose quantity the return changed, and the useful lines found in the cart. */
  lemma CountsAre(cart: Cart, lines: seq<CartLine>, p: ProductId)
    ensures p in Changed(cart, lines) <==> InCart(Returned(cart, lines), p) != InCart(cart, p)
  {
    LargestUseful(lines, p);
  }

  lemma {:induction false} MetAdds(cart: Cart, a: seq<CartLine>, b: seq<CartLine>)
    ensures Met(cart, a + b) == Met(cart, a) + Met(cart, b)
    ensures forall l: CartLine :: Met(cart, [l]) == if l.quantity > 0 && l.prod in cart then 1 else 0
  {
    forall l: CartLine ensures Met(cart, [l]) == if l.quantity > 0 && l.prod in cart then 1 else 0 {
      assert [l][..0] == [];
    }
    if b == [] {
      assert a + b == a;
    } else {
      assert (a + b)[..|a + b| - 1] == a + b[..|b| - 1];
      MetAdds(cart, a, b[..|b| - 1]);
    }
  }

  // ---------------- What the two guarantee ----------------

  /** Returning the same lines twice is returning them once. */
  lemma ReturnIdempotent(cart: Cart, lines: seq<CartLine>)
    ensures Returned(Returned(cart, lines), lines) == Returned(cart, lines)
  {
    var once := Returned(cart, lines);
    forall p | p in once ensures Returned(once, lines)[p] == once[p] {
      assert InCart(once, p) == once[p];
    }
  }

  lemma {:induction false} LargestWithout(lines: seq<CartLine>, i: nat, p: ProductId)
    requires i < |lines|
    ensures var rest, l := lines[..i] + lines[i + 1..], lines[i];
            Largest(lines, p) == if l.prod == p && l.quantity > Largest(rest, p) then l.quantity else Largest(rest, p)
  {
    var n := |lines| - 1;
    if i == n {
      assert lines[..i] + lines[i + 1..] == lines[..n];
    } else {
      LargestWithout(lines[..n], i, p);
      var rest, first := lines[..i] + lines[i + 1..], lines[..n][..i] + lines[..n][i + 1..];
      assert rest[..|rest| - 1] == first && rest[|rest| - 1] == lines[n];
    }
  }

  /** The order of the lines does not matter. */
  lemma {:induction false} LargestPermuted(a: seq<CartLine>, b: seq<CartLine>, p: ProductId)
    requires multiset(a) == multiset(b)
    ensures Largest(a, p) == Largest(b, p)
  {
    if a == [] {
      assert |multiset(b)| == |b|;
    } else {
      var n := |a| - 1;
      assert a[n] in multiset(b);
      var i :| 0 <= i < |b| && b[i] == a[n];
      TakenOut(a, n);
      TakenOut(b, i);
      assert a[..n] + a[n + 1..] == a[..n];
      LargestPermuted(a[..n], b[..i] + b[i + 1..], p);
      LargestWithout(b, i, p);
    }
  }

  lemma ReturnOrderIndependent(cart: Cart, a: seq<CartLine>, b: seq<CartLine>)
    requires multiset(a) == multiset(b)
    ensures Returned(cart, a) == Returned(cart, b)
  {
    forall p ensures Largest(a, p) == Largest(b, p) {
      LargestPermuted(a, b, p);
    }
    forall p ensures p in Useful(a) <==> p in Useful(b) {
      LargestUseful(a, p);
      LargestUseful(b, p);
    }
    assert Useful(a) == Useful(b);
  }

  lemma {:induction false} LargestWithinSum(lines: seq<CartLine>, p: ProductId)
    ensures Largest(lines, p) <= SumOf(lines, p)
    ensures Largest(lines, p) == 0 <==> SumOf(lines, p) == 0
  {
    if lines != [] {
      LargestWithinSum(lines[..|lines| - 1], p);
    }
  }

  /**
   * An order that expires and is then paid leaves of each product what the client
   * had beyond the order, never a line at zero, and gives an empty cart back empty.
   */
  lemma ReturnThenTake(cart: Cart, lines: seq<CartLine>)
    requires Proper(cart)
    ensures var after := Removed(Returned(cart, lines), lines);
            && Proper(after)
            && (forall p :: InCart(after, p) == if InCart(cart, p) > SumOf(lines, p)
                then InCart(cart, p) - SumOf(lines, p) else 0)
            && (cart == map[] ==> after == map[])
  {
    var back := Returned(cart, lines);
    var after := Removed(back, lines);
    forall p
      ensures InCart(after, p) == if InCart(cart, p) > SumOf(lines, p) then InCart(cart, p) - SumOf(lines, p) else 0
      ensures p in after ==> after[p] > 0
    {
      LargestWithinSum(lines, p);
      LargestUseful(lines, p);
    }
    if cart == map[] {
      assert forall p :: InCart(after, p) == 0;
      assert forall p :: p in after ==> InCart(after, p) > 0;
    }
  }
}
