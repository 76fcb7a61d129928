/**
 * The stock tables and the sums over them.
 *
 * Three tables describe the same goods: `inventory` (physical and held units per
 * storage and product), `inventory_reservations` (what each order holds or has
 * taken) and the movement ledger (`inventory_operations` with its items).
 */
module Tables {
  import opened Wrappers

  type LocationId = nat
  type ProductId = nat
  type OrderId = nat

  datatype Key = Key(loc: LocationId, prod: ProductId)

  /** `quantity` is physical stock, `reserved` what pending orders hold of it. */
  datatype Row = Row(quantity: int, reserved: int) {
    function Free(): int {
      quantity - reserved
    }
  }

  type Inventory = map<Key, Row>

  datatype ReservationStatus = Reserved | Confirmed | Cancelled | Expired

  datatype Reservation = Reservation(order: OrderId, loc: LocationId, prod: ProductId,
                                     quantity: nat, status: ReservationStatus) {
    function At(): Key {
      Key(loc, prod)
    }
    predicate Live() {
      status.Reserved? || status.Confirmed?
    }
  }

  datatype OperationType = IN | OUT | TRANSFER

  /**
   * One operation of the ledger with its item lines. `manual` tells who wrote it:
   * the operations wizard (true) or an order-driven movement (false). The source
   * keeps no such column; here it only serves to state what each writer adds.
   */
  datatype Movement = Movement(kind: OperationType, loc: LocationId, target: Option<LocationId>,
                               order: Option<OrderId>, items: map<ProductId, nat>, manual: bool)

  /** `rs` is in creation order: a row's index is its age. */
  datatype Stock = Stock(inv: Inventory, rs: seq<Reservation>, ledger: seq<Movement>)

  // ---------------- Queries ----------------

  /** A `where` clause: each field either matches a value or is left out. */
  datatype Pick = Pick(order: Option<OrderId>, loc: Option<LocationId>,
                       prod: Option<ProductId>, status: Option<ReservationStatus>) {
    function Any(): Pick {
      this.(status := None)
    }
  }

  function AtKey(k: Key): Pick {
    Pick(None, Some(k.loc), Some(k.prod), None)
  }

  function HeldAt(k: Key): Pick {
    Pick(None, Some(k.loc), Some(k.prod), Some(Reserved))
  }

  function OfOrder(o: OrderId, s: ReservationStatus): Pick {
    Pick(Some(o), None, None, Some(s))
  }

  function OfLine(o: OrderId, p: ProductId, s: ReservationStatus): Pick {
    Pick(Some(o), None, Some(p), Some(s))
  }

  function OfOrderAt(o: OrderId, k: Key, s: ReservationStatus): Pick {
    Pick(Some(o), Some(k.loc), Some(k.prod), Some(s))
  }

  predicate Fits(r: Reservation, j: Pick) {
    && (j.order.None? || j.order.value == r.order)
    && (j.loc.None? || j.loc.value == r.loc)
    && (j.prod.None? || j.prod.value == r.prod)
    && (j.status.None? || j.status.value == r.status)
  }

  function Weight(r: Reservation, j: Pick): nat {
    if Fits(r, j) then r.quantity else 0
  }

  /** `SUM(quantity)` over the rows that fit. */
  function Total(rs: seq<Reservation>, j: Pick): nat {
    if rs == [] then 0
    else Total(rs[..|rs| - 1], j) + Weight(rs[|rs| - 1], j)
  }

  /** The rows that fit, oldest first. */
  function Query(rs: seq<Reservation>, j: Pick): seq<Reservation> {
    if rs == [] then []
    else
      var earlier := Query(rs[..|rs| - 1], j);
      if Fits(rs[|rs| - 1], j) then earlier + [rs[|rs| - 1]] else earlier
  }

  lemma {:induction false} TotalAppend(a: seq<Reservation>, b: seq<Reservation>, j: Pick)
    ensures Total(a + b, j) == Total(a, j) + Total(b, j)
  {
    if b == [] {
      assert a + b == a;
    } else {
      assert (a + b)[..|a + b| - 1] == a + b[..|b| - 1];
      TotalAppend(a, b[..|b| - 1], j);
    }
  }

  lemma TotalSnoc(rs: seq<Reservation>, r: Reservation, j: Pick)
    ensures Total(rs + [r], j) == Total(rs, j) + Weight(r, j)
  {
    assert (rs + [r])[..|rs|] == rs;
  }

  lemma {:induction false} TotalUpdate(rs: seq<Reservation>, i: nat, r: Reservation, j: Pick)
    requires i < |rs|
    ensures Total(rs[i := r], j) == Total(rs, j) - Weight(rs[i], j) + Weight(r, j)
  {
    assert rs == rs[..i] + [rs[i]] + rs[i + 1..];
    assert rs[i := r] == rs[..i] + [r] + rs[i + 1..];
    TotalAppend(rs[..i] + [rs[i]], rs[i + 1..], j);
    TotalAppend(rs[..i] + [r], rs[i + 1..], j);
    TotalSnoc(rs[..i], rs[i], j);
    TotalSnoc(rs[..i], r, j);
  }

  lemma {:induction false} TotalAtLeast(rs: seq<Reservation>, i: nat, j: Pick)
    requires i < |rs|
    ensures Total(rs, j) >= Weight(rs[i], j)
  {
    assert rs == rs[..i] + [rs[i]] + rs[i + 1..];
    TotalAppend(rs[..i] + [rs[i]], rs[i + 1..], j);
    TotalSnoc(rs[..i], rs[i], j);
  }

  lemma {:induction false} TotalZero(rs: seq<Reservation>, j: Pick)
    requires forall i :: 0 <= i < |rs| ==> !Fits(rs[i], j)
    ensures Total(rs, j) == 0
  {
    if rs != [] {
      TotalZero(rs[..|rs| - 1], j);
    }
  }

  /** Two picks that weigh every row alike have the same sum. */
  lemma {:induction false} TotalSame(rs: seq<Reservation>, j: Pick, j': Pick)
    requires forall i :: 0 <= i < |rs| ==> (Fits(rs[i], j) <==> Fits(rs[i], j'))
    ensures Total(rs, j) == Total(rs, j')
  {
    if rs != [] {
      TotalSame(rs[..|rs| - 1], j, j');
    }
  }

  /** Summing a query is summing the table with both conditions. */
  lemma {:induction false} TotalOfQuery(rs: seq<Reservation>, j: Pick, k: Pick, both: Pick)
    requires forall i :: 0 <= i < |rs| ==> (Fits(rs[i], both) <==> Fits(rs[i], j) && Fits(rs[i], k))
    ensures Total(Query(rs, j), k) == Total(rs, both)
  {
    if rs != [] {
      var n := |rs| - 1;
      TotalOfQuery(rs[..n], j, k, both);
      if Fits(rs[n], j) {
        TotalSnoc(Query(rs[..n], j), rs[n], k);
      }
    }
  }

  lemma {:induction false} QueryRows(rs: seq<Reservation>, j: Pick)
    ensures forall r :: r in Query(rs, j) <==> r in rs && Fits(r, j)
  {
    if rs != [] {
      QueryRows(rs[..|rs| - 1], j);
      assert rs == rs[..|rs| - 1] + [rs[|rs| - 1]];
    }
  }

  // ---------------- Writes ----------------

  /** What one reservation row does to the inventory row of its storage and product. */
  datatype Effect = Hold | Unhold | Ship | Restock

  function Applied(row: Row, e: Effect, n: int): Row {
    match e
    case Hold => Row(row.quantity, row.reserved + n)
    case Unhold => Row(row.quantity, row.reserved - n)
    case Ship => Row(row.quantity - n, row.reserved - n)
    case Restock => Row(row.quantity + n, row.reserved)
  }

  /** A missing row is created by a restock and left missing by anything else. */
  function Post(inv: Inventory, k: Key, e: Effect, n: int): Inventory {
    if k in inv then inv[k := Applied(inv[k], e, n)]
    else if e.Restock? then inv[k := Row(n, 0)]
    else inv
  }

  /** `Post` for every row, in order. */
  function Posted(inv: Inventory, rows: seq<Reservation>, e: Effect): Inventory {
    if rows == [] then inv
    else
      var r := rows[|rows| - 1];
      Post(Posted(inv, rows[..|rows| - 1], e), r.At(), e, r.quantity)
  }

  function Mark(r: Reservation, j: Pick, to: ReservationStatus): Reservation {
    if Fits(r, j) then r.(status := to) else r
  }

  /** `UPDATE ... SET status = to WHERE j`. */
  function Marked(rs: seq<Reservation>, j: Pick, to: ReservationStatus): (out: seq<Reservation>)
    ensures |out| == |rs|
    ensures forall i :: 0 <= i < |rs| ==> out[i] == Mark(rs[i], j, to)
  {
    seq(|rs|, i requires 0 <= i < |rs| => Mark(rs[i], j, to))
  }

  /** The order in which the rows are posted does not matter: each key gets its sum. */
  lemma {:induction false} PostedAt(inv: Inventory, rows: seq<Reservation>, e: Effect)
    requires forall r :: r in rows ==> r.At() in inv
    ensures Posted(inv, rows, e).Keys == inv.Keys
    ensures forall k :: k in inv ==> Posted(inv, rows, e)[k] == Applied(inv[k], e, Total(rows, AtKey(k)))
  {
    if rows != [] {
      hide Total, Applied;
      var n := |rows| - 1;
      var r := rows[n];
      assert r in rows;
      PostedAt(inv, rows[..n], e);
      forall k | k in inv ensures Posted(inv, rows, e)[k] == Applied(inv[k], e, Total(rows, AtKey(k))) {
        PostedLast(inv, rows, e, k);
      }
    } else {
      NothingPosted(inv, e);
    }
  }

  lemma NothingPosted(inv: Inventory, e: Effect)
    ensures forall k :: k in inv ==> Posted(inv, [], e)[k] == Applied(inv[k], e, Total([], AtKey(k)))
  {
  }

  /** The last row adds its units at its own key and nowhere else. */
  lemma PostedLast(inv: Inventory, rows: seq<Reservation>, e: Effect, k: Key)
    requires rows != [] && k in inv && rows[|rows| - 1].At() in inv
    requires var before := Posted(inv, rows[..|rows| - 1], e);
             before.Keys == inv.Keys && before[k] == Applied(inv[k], e, Total(rows[..|rows| - 1], AtKey(k)))
    ensures k in Posted(inv, rows, e)
    ensures Posted(inv, rows, e)[k] == Applied(inv[k], e, Total(rows, AtKey(k)))
  {
  }

  // ---------------- The movement ledger ----------------

  function ItemCount(m: Movement, p: ProductId): int {
    if p in m.items then m.items[p] else 0
  }

  /** Units the movement brings to (positive) or takes from (negative) a key. */
  function Flow(m: Movement, k: Key): int {
    match m.kind
    case IN => if m.loc == k.loc then ItemCount(m, k.prod) else 0
    case OUT => if m.loc == k.loc then -ItemCount(m, k.prod) else 0
    case TRANSFER =>
      (if m.target == Some(k.loc) then ItemCount(m, k.prod) else 0)
      - (if m.loc == k.loc then ItemCount(m, k.prod) else 0)
  }

  /** Which movements a reading of the ledger looks at. */
  datatype Reading = All | Sales(order: OrderId) | Stamped(order: OrderId) | HandStamped(order: OrderId) | ByHand {
    predicate Sees(m: Movement) {
      match this
      case All => true
      case Sales(o) => !m.manual && m.order == Some(o)
      case Stamped(o) => m.order == Some(o)
      case HandStamped(o) => m.manual && m.order == Some(o)
      case ByHand => m.manual
    }
  }

  /** Replaying the ledger: the net units a reading saw move at a key. */
  function Net(ledger: seq<Movement>, rd: Reading, k: Key): int {
    if ledger == [] then 0
    else
      var m := ledger[|ledger| - 1];
      Net(ledger[..|ledger| - 1], rd, k) + if rd.Sees(m) then Flow(m, k) else 0
  }

  lemma {:induction false} NetAppend(a: seq<Movement>, b: seq<Movement>, rd: Reading, k: Key)
    ensures Net(a + b, rd, k) == Net(a, rd, k) + Net(b, rd, k)
  {
    if b == [] {
      assert a + b == a;
    } else {
      assert (a + b)[..|a + b| - 1] == a + b[..|b| - 1];
      NetAppend(a, b[..|b| - 1], rd, k);
    }
  }

  /** What is stamped with an order is its sales and what was entered or taken out by hand against it. */
  lemma {:induction false} StampSplits(ledger: seq<Movement>, o: OrderId, k: Key)
    ensures Net(ledger, Stamped(o), k) == Net(ledger, Sales(o), k) + Net(ledger, HandStamped(o), k)
  {
    if ledger != [] {
      StampSplits(ledger[..|ledger| - 1], o, k);
    }
  }

  /** The storages of a list of rows, each once, in order of first appearance. */
  function StoragesOf(rows: seq<Reservation>): (ls: seq<LocationId>)
    ensures forall r :: r in rows ==> r.loc in ls
    ensures forall i, j :: 0 <= i < j < |ls| ==> ls[i] != ls[j]
  {
    if rows == [] then []
    else
      var earlier := StoragesOf(rows[..|rows| - 1]);
      var l := rows[|rows| - 1].loc;
      assert rows == rows[..|rows| - 1] + [rows[|rows| - 1]];
      if l in earlier then earlier else earlier + [l]
  }

  /** The merged item lines of one storage. */
  function ItemsAt(rows: seq<Reservation>, l: LocationId): map<ProductId, nat> {
    map p | p in (set r | r in rows && r.loc == l :: r.prod) :: Total(rows, AtKey(Key(l, p)))
  }

  /** One operation per storage, with the quantities merged per product. */
  function Movements(kind: OperationType, o: OrderId, rows: seq<Reservation>): seq<Movement> {
    var ls := StoragesOf(rows);
    seq(|ls|, i requires 0 <= i < |ls| =>
      Movement(kind, ls[i], None, Some(o), ItemsAt(rows, ls[i]), false))
  }

  lemma {:induction false} NetOneStorage(ms: seq<Movement>, rd: Reading, k: Key, n: int)
    requires forall i :: 0 <= i < |ms| ==> rd.Sees(ms[i])
    requires forall i, j :: 0 <= i < j < |ms| ==> ms[i].loc != ms[j].loc
    requires forall i :: 0 <= i < |ms| ==> Flow(ms[i], k) == if ms[i].loc == k.loc then n else 0
    ensures Net(ms, rd, k) == if exists i :: 0 <= i < |ms| && ms[i].loc == k.loc then n else 0
  {
    if ms != [] {
      NetOneStorage(ms[..|ms| - 1], rd, k, n);
    }
  }

  lemma {:induction false} NetUnseen(ms: seq<Movement>, rd: Reading, k: Key)
    requires forall i :: 0 <= i < |ms| ==> !rd.Sees(ms[i])
    ensures Net(ms, rd, k) == 0
  {
    if ms != [] {
      NetUnseen(ms[..|ms| - 1], rd, k);
    }
  }

  /** Grouping loses nothing: replaying the grouped movements gives back the rows' sums. */
  lemma NetOfMovements(kind: OperationType, o: OrderId, rows: seq<Reservation>, rd: Reading, k: Key)
    requires kind != TRANSFER
    ensures Net(Movements(kind, o, rows), rd, k) ==
            if rd == All || rd == Sales(o) || rd == Stamped(o)
            then Total(rows, AtKey(k)) * (if kind.IN? then 1 else -1)
            else 0
  {
    var ms := Movements(kind, o, rows);
    if rd == All || rd == Sales(o) || rd == Stamped(o) {
      var n: int := Total(rows, AtKey(k));
      if !exists r :: r in rows && r.At() == k {
        assert forall i :: 0 <= i < |rows| && Fits(rows[i], AtKey(k)) ==> rows[i] in rows && rows[i].At() == k;
        TotalZero(rows, AtKey(k));
      }
      NetOneStorage(ms, rd, k, if kind.IN? then n else -n);
      if r :| r in rows && r.At() == k {
        var i :| 0 <= i < |ms| && StoragesOf(rows)[i] == k.loc;
        assert ms[i].loc == k.loc;
      }
    } else {
      NetUnseen(ms, rd, k);
    }
  }
}
