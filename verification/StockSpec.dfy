/**
 * What each operation of the inventory service does to the three tables, as
 * functions on their value. `InventoryService` computes these with its loops; the
 * laws about them are in `StockLaws` and after.
 */
module StockSpec {
  import opened Wrappers
  import opened Tables
  import opened Allocation

  /**
   * Where the shop may draw stock from: the enabled storages, in the order a query lists them, and
   * the allowed ones.
   */
  datatype Reach = Reach(active: Storages, allowed: Option<set<LocationId>>, preferred: Option<LocationId>)

  // ---------------- reserve ----------------

  function RankedFor(inv: Inventory, p: ProductId, at: Reach): seq<LocationId> {
    Ranked(inv, p, at.preferred, Candidates(inv, p, at.active, at.allowed))
  }

  function Available(inv: Inventory, p: ProductId, at: Reach): int {
    SumFree(inv, p, RankedFor(inv, p, at))
  }

  function Reserve(st: Stock, o: OrderId, p: ProductId, q: int, at: Reach): Option<Stock> {
    if Available(st.inv, p, at) < q then None
    else
      var rows := Takes(st.inv, o, p, RankedFor(st.inv, p, at), q);
      Some(st.(inv := Posted(st.inv, rows, Hold), rs := st.rs + rows))
  }

  // ---------------- confirm, release ----------------

  /** Settles every row of a query: its effect on the inventory and its final status. */
  function Settle(st: Stock, j: Pick, to: ReservationStatus, e: Effect): Stock {
    st.(inv := Posted(st.inv, Query(st.rs, j), e), rs := Marked(st.rs, j, to))
  }

  function Record(st: Stock, kind: OperationType, o: OrderId, rows: seq<Reservation>): Stock {
    st.(ledger := st.ledger + Movements(kind, o, rows))
  }

  function Confirm(st: Stock, o: OrderId): Stock {
    Record(Settle(st, OfOrder(o, Reserved), Confirmed, Ship), OUT, o, Query(st.rs, OfOrder(o, Reserved)))
  }

  function ConfirmProduct(st: Stock, o: OrderId, p: ProductId): Stock {
    Record(Settle(st, OfLine(o, p, Reserved), Confirmed, Ship), OUT, o, Query(st.rs, OfLine(o, p, Reserved)))
  }

  function DropHolds(st: Stock, o: OrderId, final: ReservationStatus): Stock {
    Settle(st, OfOrder(o, Reserved), final, Unhold)
  }

  function TakeBack(st: Stock, o: OrderId, final: ReservationStatus): Stock {
    Record(Settle(st, OfOrder(o, Confirmed), final, Restock), IN, o, Query(st.rs, OfOrder(o, Confirmed)))
  }

  function Release(st: Stock, o: OrderId, final: ReservationStatus): Stock {
    TakeBack(DropHolds(st, o, final), o, final)
  }

  /** The release throws when goods have to come back and nobody signs for them. */
  predicate ReleaseThrows(st: Stock, o: OrderId, signed: bool, final: ReservationStatus) {
    !signed && Query(DropHolds(st, o, final).rs, OfOrder(o, Confirmed)) != []
  }

  // ---------------- releaseProductUnits ----------------

  /** Units the loop takes off a row when `left` are still to be released. */
  function FreedOf(r: Reservation, j: Pick, left: int): nat {
    if left > 0 && Fits(r, j) then Min(r.quantity, left) else 0
  }

  /** What stays in its place: the row untouched, cancelled whole, or cut down. */
  function KeptOf(r: Reservation, j: Pick, left: int): Reservation {
    if !(left > 0 && Fits(r, j)) then r
    else if FreedOf(r, j, left) == r.quantity then r.(status := Cancelled)
    else r.(quantity := r.quantity - FreedOf(r, j, left))
  }

  /** The cancelled half of a row that was cut. */
  function SplitOf(r: Reservation, j: Pick, left: int): seq<Reservation> {
    if left > 0 && Fits(r, j) && FreedOf(r, j, left) != r.quantity
    then [r.(quantity := FreedOf(r, j, left), status := Cancelled)] else []
  }

  /** The row with the units it gave, if the loop reached it. */
  function FreedRowOf(r: Reservation, j: Pick, left: int): seq<Reservation> {
    if left > 0 && Fits(r, j) then [r.(quantity := FreedOf(r, j, left))] else []
  }

  /** Units still to release when the loop reaches row `n`. */
  function ToFree(rs: seq<Reservation>, j: Pick, q: int, n: nat): int
    requires n <= |rs|
  {
    if n == 0 then q
    else ToFree(rs, j, q, n - 1) - FreedOf(rs[n - 1], j, ToFree(rs, j, q, n - 1))
  }

  function KeptRows(rs: seq<Reservation>, j: Pick, q: int, n: nat): (out: seq<Reservation>)
    requires n <= |rs|
    ensures |out| == n
  {
    if n == 0 then []
    else KeptRows(rs, j, q, n - 1) + [KeptOf(rs[n - 1], j, ToFree(rs, j, q, n - 1))]
  }

  function Splits(rs: seq<Reservation>, j: Pick, q: int, n: nat): seq<Reservation>
    requires n <= |rs|
  {
    if n == 0 then []
    else Splits(rs, j, q, n - 1) + SplitOf(rs[n - 1], j, ToFree(rs, j, q, n - 1))
  }

  function FreedRows(rs: seq<Reservation>, j: Pick, q: int, n: nat): seq<Reservation>
    requires n <= |rs|
  {
    if n == 0 then []
    else FreedRows(rs, j, q, n - 1) + FreedRowOf(rs[n - 1], j, ToFree(rs, j, q, n - 1))
  }

  /** One pass of the loop over the statuses. */
  function CutBack(st: Stock, j: Pick, q: int, e: Effect): Stock {
    st.(inv := Posted(st.inv, FreedRows(st.rs, j, q, |st.rs|), e),
        rs := KeptRows(st.rs, j, q, |st.rs|) + Splits(st.rs, j, q, |st.rs|))
  }

  /** What the first pass, over the held rows, could not free. */
  function AfterHeld(st: Stock, o: OrderId, p: ProductId, q: int): int {
    ToFree(st.rs, OfLine(o, p, Reserved), q, |st.rs|)
  }

  function CutHeld(st: Stock, o: OrderId, p: ProductId, q: int): Stock {
    CutBack(st, OfLine(o, p, Reserved), q, Unhold)
  }

  function CutSold(st: Stock, o: OrderId, p: ProductId, q: int): Stock {
    Record(CutBack(st, OfLine(o, p, Confirmed), q, Restock), IN, o,
           FreedRows(st.rs, OfLine(o, p, Confirmed), q, |st.rs|))
  }

  function ReleaseUnits(st: Stock, o: OrderId, p: ProductId, q: int): Stock {
    CutSold(CutHeld(st, o, p, q), o, p, AfterHeld(st, o, p, q))
  }

  /** The partial release throws when goods have to come back and nobody signs for them. */
  predicate UnitsThrow(st: Stock, o: OrderId, p: ProductId, q: int, signed: bool) {
    var st1, left := CutHeld(st, o, p, q), AfterHeld(st, o, p, q);
    !signed && FreedRows(st1.rs, OfLine(o, p, Confirmed), left, |st1.rs|) != []
  }

  // ---------------- createOperation ----------------

  datatype Item = Item(prod: ProductId, quantity: nat)

  /** Total asked per product: `mergeItems`. */
  function Asked(items: seq<Item>, p: ProductId): nat {
    if items == [] then 0
    else Asked(items[..|items| - 1], p) + if items[|items| - 1].prod == p then items[|items| - 1].quantity else 0
  }

  function ProductsOf(items: seq<Item>): (ps: seq<ProductId>)
    ensures forall i, j :: 0 <= i < j < |ps| ==> ps[i] != ps[j]
    ensures forall p :: p in ps <==> exists i :: 0 <= i < |items| && items[i].prod == p
  {
    if items == [] then []
    else
      var n := |items| - 1;
      var earlier := ProductsOf(items[..n]);
      assert forall i :: 0 <= i < n ==> items[..n][i] == items[i];
      if items[n].prod in earlier then earlier else earlier + [items[n].prod]
  }

  /** One line per product, with the product's total. */
  function Merged(items: seq<Item>): seq<Item> {
    var ps := ProductsOf(items);
    seq(|ps|, i requires 0 <= i < |ps| => Item(ps[i], Asked(items, ps[i])))
  }

  function ItemMap(items: seq<Item>): map<ProductId, nat> {
    map p | p in ProductsOf(items) :: Asked(items, p)
  }

  function AddStock(inv: Inventory, k: Key, n: int): Inventory {
    Post(inv, k, Restock, n)
  }

  /** Only what is not on hold can be moved by hand. */
  function RemoveStock(inv: Inventory, k: Key, n: int): Option<Inventory> {
    if FreeAt(inv, k.prod, k.loc) < n || k !in inv then None
    else Some(inv[k := Row(inv[k].quantity - n, inv[k].reserved)])
  }

  function MoveItem(inv: Inventory, kind: OperationType, loc: LocationId, target: LocationId,
                    it: Item): Option<Inventory> {
    match kind
    case IN => Some(AddStock(inv, Key(loc, it.prod), it.quantity))
    case OUT => RemoveStock(inv, Key(loc, it.prod), it.quantity)
    case TRANSFER =>
      var removed := RemoveStock(inv, Key(loc, it.prod), it.quantity);
      if removed.None? then None
      else Some(AddStock(removed.value, Key(target, it.prod), it.quantity))
  }

  function MoveItems(inv: Inventory, kind: OperationType, loc: LocationId, target: LocationId,
                     items: seq<Item>): Option<Inventory> {
    if items == [] then Some(inv)
    else
      var earlier := MoveItems(inv, kind, loc, target, items[..|items| - 1]);
      if earlier.None? then None
      else MoveItem(earlier.value, kind, loc, target, items[|items| - 1])
  }

  // ---------------- rehomeReservations ----------------

  /** A hold of a pickup order for this counter that sits on another shelf. */
  predicate Misplaced(r: Reservation, o: OrderId, target: LocationId, prods: set<ProductId>) {
    r.order == o && r.status.Reserved? && r.prod in prods && r.loc != target
  }

  /** Moves a hold to the counter, whole or not at all. */
  function RehomeOne(st: Stock, i: nat, target: LocationId): Stock
    requires i < |st.rs|
  {
    var r := st.rs[i];
    var home := Key(target, r.prod);
    if home !in st.inv || st.inv[home].Free() < r.quantity then st
    else
      var held := st.inv[home := Applied(st.inv[home], Hold, r.quantity)];
      st.(inv := if r.At() in held
                 then held[r.At() := Row(held[r.At()].quantity, Max(0, held[r.At()].reserved - r.quantity))]
                 else held,
          rs := st.rs[i := r.(loc := target)])
  }

  function Max(a: int, b: int): int {
    if a < b then b else a
  }

  /** The rows of order `o` below index `n`, oldest first. */
  function RehomeRows(st: Stock, o: OrderId, n: nat, target: LocationId, prods: set<ProductId>): (out: Stock)
    requires n <= |st.rs|
    ensures |out.rs| == |st.rs|
  {
    if n == 0 then st
    else
      var earlier := RehomeRows(st, o, n - 1, target, prods);
      if Misplaced(earlier.rs[n - 1], o, target, prods) then RehomeOne(earlier, n - 1, target) else earlier
  }

  /** `homes[o]` is the pickup counter of order `o`, if it is a pickup; orders are in creation order. */
  function Rehome(st: Stock, homes: seq<Option<LocationId>>, target: LocationId, prods: set<ProductId>): (out: Stock)
    ensures |out.rs| == |st.rs|
  {
    if homes == [] then st
    else
      var o := |homes| - 1;
      var earlier := Rehome(st, homes[..o], target, prods);
      if homes[o] == Some(target) then RehomeRows(earlier, o, |earlier.rs|, target, prods) else earlier
  }

  datatype Operation = Operation(kind: OperationType, loc: LocationId, target: Option<LocationId>,
                                 order: Option<OrderId>, items: seq<Item>)

  /** The checks made before the transaction opens. */
  predicate WellFormed(op: Operation, catalogue: set<ProductId>, active: set<LocationId>) {
    && (forall i :: 0 <= i < |op.items| ==> op.items[i].prod in catalogue)
    && (op.kind.TRANSFER? ==> op.target.Some? && op.target.value != op.loc && op.target.value in active)
  }

  function TargetOf(op: Operation): Option<LocationId> {
    if op.kind.TRANSFER? then op.target else None
  }

  function Operate(st: Stock, op: Operation, homes: seq<Option<LocationId>>): Option<Stock> {
    var moved := MoveItems(st.inv, op.kind, op.loc, op.target.GetOr(op.loc), Merged(op.items));
    if moved.None? then None
    else
      var st1 := st.(inv := moved.value);
      var st2 := if op.kind.TRANSFER? && op.target.Some?
                 then Rehome(st1, homes, op.target.value, ItemMap(op.items).Keys) else st1;
      Some(st2.(ledger := st2.ledger + [Movement(op.kind, op.loc, TargetOf(op), op.order, ItemMap(op.items), true)]))
  }
}
