/**
 * Refund requests that run at the same time. A request is four steps of a worker
 * (lock the order, read the summary, insert the row, commit); completing,
 * rejecting and whatever the gateway does to the payment come in between.
 */
module RefundRace {
  import opened Wrappers
  import opened Tables
  import opened StockSpec
  import opened Orders
  import opened Refunds

  type WorkerId = nat

  /** Where a worker is in its transaction; `payment` is what it read with the lock. */
  datatype Worker = Idle | Holding(payment: PaymentStatus) | Decided(amount: int) | Inserted(row: Refund)

  /** One order and its refunds. A row is only visible once its worker commits. */
  datatype World = World(total: int, payment: PaymentStatus, rows: seq<Refund>,
                         lock: Option<WorkerId>, workers: map<WorkerId, Worker>)

  const ORDER: OrderId := 0

  function Of(w: World, id: WorkerId): Worker {
    if id in w.workers then w.workers[id] else Idle
  }

  datatype Step =
    | Lock(id: WorkerId)
    | Read(id: WorkerId, asked: Option<int>)
    | Insert(id: WorkerId)
    | Commit(id: WorkerId)
    | Complete(row: nat)
    | Reject(row: nat)
    | Gateway(payment: PaymentStatus)

  /** What a completion makes of the payment. */
  function PaymentAfter(w: World, rows: seq<Refund>): PaymentStatus {
    if Cents(rows, ORDER, {Completed}) >= w.total then Refunded else w.payment
  }

  /**
   * While a worker has the order's row, whoever wants it too or wants to write it
   * waits; without `locking` nobody does. Rows of refunds are nobody's.
   */
  predicate Enabled(w: World, s: Step, locking: bool) {
    match s
    case Lock(id) => Of(w, id).Idle? && (locking ==> w.lock.None?)
    case Read(id, _) => Of(w, id).Holding?
    case Insert(id) => Of(w, id).Decided?
    case Commit(id) => Of(w, id).Inserted?
    case Complete(row) =>
      && row < |w.rows| && w.rows[row].status == Requested
      && (locking && PaymentAfter(w, w.rows[row := w.rows[row].(status := Completed)]) != w.payment ==> w.lock.None?)
    case Reject(row) => row < |w.rows| && w.rows[row].status == Requested
    case Gateway(_) => locking ==> w.lock.None?
  }

  /** A worker that is refused goes back to idle with nothing written. */
  function Next(w: World, s: Step, locking: bool): World
    requires Enabled(w, s, locking)
  {
    match s
    case Lock(id) => w.(lock := Some(id), workers := w.workers[id := Holding(w.payment)])
    case Read(id, asked) =>
      var (outcome, amount) := Amount(Of(w, id).payment, Refundable(w.rows, ORDER, w.total), asked);
      if outcome == Done then w.(workers := w.workers[id := Decided(amount)])
      else w.(lock := None, workers := w.workers[id := Idle])
    case Insert(id) => w.(workers := w.workers[id := Inserted(Refund(ORDER, Of(w, id).amount, Requested))])
    case Commit(id) => w.(lock := None, rows := w.rows + [Of(w, id).row], workers := w.workers[id := Idle])
    case Complete(row) =>
      var rows := w.rows[row := w.rows[row].(status := Completed)];
      w.(rows := rows, payment := PaymentAfter(w, rows))
    case Reject(row) => w.(rows := w.rows[row := w.rows[row].(status := Rejected)])
    case Gateway(payment) => w.(payment := payment)
  }

  /** The state after a run, if every step was possible when its turn came. */
  function Run(w: World, steps: seq<Step>, locking: bool): Option<World> {
    if steps == [] then Some(w)
    else
      var before := Run(w, steps[..|steps| - 1], locking);
      var s := steps[|steps| - 1];
      if before.Some? && Enabled(before.value, s, locking) then Some(Next(before.value, s, locking)) else None
  }

  function Start(total: int): World {
    World(total, Paid, [], None, map[])
  }

  /** Money a worker has decided on and nobody else can see yet. */
  function Hidden(k: Worker): int {
    match k
    case Decided(amount) => amount
    case Inserted(row) => row.amount
    case _ => 0
  }

  /** Only the holder of the lock is under way, and what it decided still fits. */
  ghost predicate Safe(w: World, id: WorkerId) {
    var k := Of(w, id);
    && (!k.Idle? ==> w.lock == Some(id))
    && (k.Holding? ==> k.payment == w.payment)
    && (k.Decided? || k.Inserted? ==> w.payment == Paid)
    && (k.Decided? ==> k.amount > 0)
    && (k.Inserted? ==> k.row == Refund(ORDER, k.row.amount, Requested) && k.row.amount > 0)
    && Promised(w.rows, ORDER) + Hidden(k) <= Max(0, w.total)
  }

  ghost predicate Sound(w: World) {
    && Positive(w.rows)
    && (forall i :: 0 <= i < |w.rows| ==> w.rows[i].order == ORDER)
    && (forall id: WorkerId :: Safe(w, id))
  }

  lemma RowsAfter(w: World, s: Step)
    requires Sound(w) && Enabled(w, s, true)
    ensures var w' := Next(w, s, true);
            Promised(w'.rows, ORDER)
            == Promised(w.rows, ORDER)
               + (if s.Commit? then Of(w, s.id).row.amount else if s.Reject? then -w.rows[s.row].amount else 0)
  {
    hide Cents;
    match s
    case Commit(id) =>
      assert Safe(w, id);
      CentsAppend(w.rows, [Of(w, id).row], ORDER, {Requested, Completed});
      CentsOne(Of(w, id).row, ORDER, {Requested, Completed});
    case Complete(row) => CentsUpdate(w.rows, row, w.rows[row].(status := Completed), ORDER, {Requested, Completed});
    case Reject(row) => CentsUpdate(w.rows, row, w.rows[row].(status := Rejected), ORDER, {Requested, Completed});
    case _ =>
  }

  lemma StepKeepsSound(w: World, s: Step)
    requires Sound(w) && Enabled(w, s, true)
    ensures Sound(Next(w, s, true)) && Next(w, s, true).total == w.total
  {
    hide Cents;
    var w' := Next(w, s, true);
    RowsAfter(w, s);
    PromisedSplits(w.rows, ORDER);
    forall id: WorkerId ensures Safe(w', id) {
      assert Safe(w, id);
      if s.Read? || s.Insert? || s.Commit? {
        assert Safe(w, s.id);
      }
    }
    if s.Commit? {
      assert Safe(w, s.id);
    }
  }

  /**
   * However many requests run at once, with completions, rejections and payment
   * events in between, requested plus completed money never exceeds the total.
   */
  lemma {:induction false} CapHolds(total: int, steps: seq<Step>)
    requires Run(Start(total), steps, true).Some?
    ensures var w := Run(Start(total), steps, true).value;
            Sound(w) && w.total == total && Capped(w.rows, ORDER, total)
  {
    if steps != [] {
      var before := Run(Start(total), steps[..|steps| - 1], true).value;
      CapHolds(total, steps[..|steps| - 1]);
      StepKeepsSound(before, steps[|steps| - 1]);
    }
    var w := Run(Start(total), steps, true).value;
    assert Safe(w, 0);
  }

  /** Each commit is a request that would go through for that amount if it were made whole at that moment. */
  lemma CommitIsARequest(total: int, steps: seq<Step>, id: WorkerId)
    requires Run(Start(total), steps, true).Some?
    requires Enabled(Run(Start(total), steps, true).value, Commit(id), true)
    ensures var w := Run(Start(total), steps, true).value;
            var row := Of(w, id).row;
            && Next(w, Commit(id), true).rows == w.rows + [Refund(ORDER, row.amount, Requested)]
            && Amount(w.payment, Refundable(w.rows, ORDER, total), Some(row.amount)) == (Done, row.amount)
  {
    hide Cents;
    var w := Run(Start(total), steps, true).value;
    CapHolds(total, steps);
    assert Safe(w, id);
    PromisedSplits(w.rows, ORDER);
    NothingOpen(w.rows, ORDER, {Requested, Completed});
  }

  /**
   * In any reachable state, completing a refund makes the order refunded exactly
   * when everything charged has been returned, and at that moment nothing is open,
   * visible or not.
   */
  lemma CompleteAtTheTotal(total: int, steps: seq<Step>, row: nat)
    requires Run(Start(total), steps, true).Some?
    requires var w := Run(Start(total), steps, true).value; w.payment != Refunded && Enabled(w, Complete(row), true)
    ensures var w' := Next(Run(Start(total), steps, true).value, Complete(row), true);
            && (w'.payment == Refunded <==> Cents(w'.rows, ORDER, {Completed}) == total)
            && (w'.payment == Refunded ==>
                  && (forall i :: 0 <= i < |w'.rows| ==> w'.rows[i].status != Requested)
                  && (forall id: WorkerId :: Hidden(Of(w', id)) == 0))
  {
    hide Cents;
    var w := Run(Start(total), steps, true).value;
    CapHolds(total, steps);
    StepKeepsSound(w, Complete(row));
    var w' := Next(w, Complete(row), true);
    PromisedSplits(w'.rows, ORDER);
    NothingOpen(w'.rows, ORDER, {Requested});
    NothingOpen(w'.rows, ORDER, {Completed});
    assert Counts(w'.rows[row], ORDER, {Completed});
    assert Safe(w', 0);
    if w'.payment == Refunded {
      forall i | 0 <= i < |w'.rows| ensures w'.rows[i].status != Requested {
        assert !Counts(w'.rows[i], ORDER, {Requested});
      }
      forall id: WorkerId ensures Hidden(Of(w', id)) == 0 {
        assert Safe(w', id);
      }
    }
  }

  // ---------------- Every interleaving is a serial run ----------------

  /** The row the holder of the lock has decided on, before anybody else sees it. */
  function HiddenRows(w: World): seq<Refund> {
    if w.lock.None? then []
    else
      match Of(w, w.lock.value)
      case Decided(amount) => [Refund(ORDER, amount, Requested)]
      case Inserted(row) => [row]
      case _ => []
  }

  function TheOrder(total: int, payment: PaymentStatus): Order {
    Order(0, PENDING, payment, None, [], total, 0, total, false, None, None, None, None, None, 0, None)
  }

  /** The shop as it would be if each request had been made whole when it read the summary. */
  function AsShop(w: World): Shop {
    Shop(Stock(map[], [], []), [TheOrder(w.total, w.payment)], map[], [], w.rows + HiddenRows(w))
  }

  /** What each step is worth as a whole call. Locking, inserting and committing are worth nothing more. */
  function Whole(shop: Shop, s: Step): (Shop, Outcome) {
    match s
    case Read(_, asked) => RequestRefund(shop, ORDER, asked)
    case Complete(row) => CompleteRefund(shop, row, true)
    case Reject(row) => RejectRefund(shop, row)
    case Gateway(payment) =>
      if shop.orders == [] then (shop, NotFound)
      else (shop.(orders := shop.orders[0 := shop.orders[0].(payment := payment)]), Done)
    case _ => (shop, Done)
  }

  function Serial(shop: Shop, steps: seq<Step>): Shop {
    if steps == [] then shop else Whole(Serial(shop, steps[..|steps| - 1]), steps[|steps| - 1]).0
  }

  /** A hidden row is asked for, not returned: it changes no sum of what was returned. */
  lemma HiddenIsRequested(rows: seq<Refund>, amount: int)
    ensures Cents(rows + [Refund(ORDER, amount, Requested)], ORDER, {Completed}) == Cents(rows, ORDER, {Completed})
  {
    CentsAppend(rows, [Refund(ORDER, amount, Requested)], ORDER, {Completed});
    CentsOne(Refund(ORDER, amount, Requested), ORDER, {Completed});
  }

  lemma HolderIsSafe(w: World)
    requires Sound(w)
    ensures w.lock.Some? ==> Safe(w, w.lock.value)
    ensures forall id: WorkerId :: !Of(w, id).Idle? ==> w.lock == Some(id)
  {
    forall id: WorkerId ensures !Of(w, id).Idle? ==> w.lock == Some(id) {
      assert Safe(w, id);
    }
  }

  lemma CompleteIsWhole(w: World, row: nat)
    requires Sound(w) && Enabled(w, Complete(row), true)
    ensures Whole(AsShop(w), Complete(row)) == (AsShop(Next(w, Complete(row), true)), Done)
  {
    hide Cents;
    HolderIsSafe(w);
    var hidden := HiddenRows(w);
    var rows := w.rows[row := w.rows[row].(status := Completed)];
    assert (w.rows + hidden)[row := w.rows[row].(status := Completed)] == rows + hidden;
    assert Cents(rows + hidden, ORDER, {Completed}) == Cents(rows, ORDER, {Completed}) by {
      if hidden == [] {
        assert rows + hidden == rows;
      } else {
        HiddenIsRequested(rows, hidden[0].amount);
        assert hidden == [Refund(ORDER, hidden[0].amount, Requested)];
      }
    }
    var order := TheOrder(w.total, w.payment);
    assert [order][0 := order.(payment := Refunded)] == [TheOrder(w.total, Refunded)];
    assert AsShop(w).refunds[row] == w.rows[row] && w.rows[row].order == ORDER;
  }

  lemma RejectIsWhole(w: World, row: nat)
    requires Sound(w) && Enabled(w, Reject(row), true)
    ensures Whole(AsShop(w), Reject(row)) == (AsShop(Next(w, Reject(row), true)), Done)
  {
    var hidden := HiddenRows(w);
    assert (w.rows + hidden)[row := w.rows[row].(status := Rejected)]
           == w.rows[row := w.rows[row].(status := Rejected)] + hidden;
  }

  /** A worker is let through exactly when the whole request would be, for the same amount. */
  lemma ReadIsWhole(w: World, s: Step)
    requires Sound(w) && s.Read? && Enabled(w, s, true)
    ensures Whole(AsShop(w), s).0 == AsShop(Next(w, s, true))
    ensures Of(Next(w, s, true), s.id).Decided? <==> Whole(AsShop(w), s).1 == Done
  {
    hide Cents;
    HolderIsSafe(w);
    assert Safe(w, s.id);
    assert w.rows + [] == w.rows;
  }

  lemma StepIsWhole(w: World, s: Step)
    requires Sound(w) && Enabled(w, s, true)
    ensures Whole(AsShop(w), s).0 == AsShop(Next(w, s, true))
    ensures Whole(AsShop(w), s).1 == Done || s.Read?
  {
    hide Cents;
    match s
    case Complete(row) => CompleteIsWhole(w, row);
    case Reject(row) => RejectIsWhole(w, row);
    case Read(_, _) => ReadIsWhole(w, s);
    case Lock(id) => assert w.rows + [] == w.rows;
    case Insert(id) =>
      HolderIsSafe(w);
    case Commit(id) =>
      HolderIsSafe(w);
      assert w.rows + [Of(w, id).row] == w.rows + [Of(w, id).row] + [];
    case Gateway(_) => assert w.rows + [] == w.rows;
  }

  /**
   * However the steps of the requests interleave with completions, rejections and
   * payment events, the outcome is that of whole calls made one after the other,
   * each request at the moment it reads; and whenever no request is under way, the
   * rows everybody sees are exactly theirs.
   */
  lemma {:induction false} InterleavingIsSerial(total: int, steps: seq<Step>)
    requires Run(Start(total), steps, true).Some?
    ensures var w := Run(Start(total), steps, true).value;
            && Serial(AsShop(Start(total)), steps) == AsShop(w)
            && (w.lock.None? ==> Serial(AsShop(Start(total)), steps).refunds == w.rows)
  {
    hide Whole, Next, Enabled, Sound;
    var w := Run(Start(total), steps, true).value;
    if steps != [] {
      var before := Run(Start(total), steps[..|steps| - 1], true).value;
      InterleavingIsSerial(total, steps[..|steps| - 1]);
      CapHolds(total, steps[..|steps| - 1]);
      StepIsWhole(before, steps[|steps| - 1]);
    }
    assert w.rows + [] == w.rows;
  }

  // ---------------- What the lock is for ----------------

  const TWO_CLICKS := [Lock(1), Lock(2), Read(1, None), Read(2, None), Insert(1), Insert(2), Commit(1), Commit(2)]

  lemma BothRead()
    ensures Run(Start(6000), TWO_CLICKS[..4], false)
            == Some(World(6000, Paid, [], Some(2), map[1 := Decided(6000), 2 := Decided(6000)]))
  {
    hide Run, Cents;
    NothingYet(6000);
    RunSnoc(6000, TWO_CLICKS, 0);
    RunSnoc(6000, TWO_CLICKS, 1);
    assert Run(Start(6000), TWO_CLICKS[..2], false).value.workers == map[1 := Holding(Paid), 2 := Holding(Paid)];
    RunSnoc(6000, TWO_CLICKS, 2);
    RunSnoc(6000, TWO_CLICKS, 3);
    assert Run(Start(6000), TWO_CLICKS[..4], false).value.workers == map[1 := Decided(6000), 2 := Decided(6000)];
  }

  /** What the lock is for: two clicks at once on an order of 60 without it, and 120 are promised. */
  lemma WithoutTheLock()
    ensures Run(Start(6000), TWO_CLICKS, false).Some?
    ensures Promised(Run(Start(6000), TWO_CLICKS, false).value.rows, ORDER) == 12000
  {
    hide Run, Cents;
    var r := Refund(ORDER, 6000, Requested);
    BothRead();
    RunSnoc(6000, TWO_CLICKS, 4);
    RunSnoc(6000, TWO_CLICKS, 5);
    assert Run(Start(6000), TWO_CLICKS[..6], false).value.workers == map[1 := Inserted(r), 2 := Inserted(r)];
    RunSnoc(6000, TWO_CLICKS, 6);
    RunSnoc(6000, TWO_CLICKS, 7);
    assert TWO_CLICKS[..8] == TWO_CLICKS;
    assert Run(Start(6000), TWO_CLICKS, false).value.rows == [r] + [r];
    CentsAppend([r], [r], ORDER, {Requested, Completed});
    CentsOne(r, ORDER, {Requested, Completed});
  }

  lemma NothingYet(total: nat)
    requires total > 0
    ensures Amount(Paid, Refundable([], ORDER, total), None) == (Done, total)
  {
  }

  lemma RunSnoc(total: int, s: seq<Step>, n: nat)
    requires n < |s|
    ensures Run(Start(total), s[..0], false) == Some(Start(total))
    ensures var before := Run(Start(total), s[..n], false);
            Run(Start(total), s[..n + 1], false)
            == if before.Some? && Enabled(before.value, s[n], false) then Some(Next(before.value, s[n], false))
               else None
  {
    assert s[..n + 1][..n] == s[..n];
  }
}
