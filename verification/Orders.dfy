/**
 * The orders: their two state machines, their lines and money, and what each
 * service call does to the shop as a whole. A call that does not end in `Done`
 * leaves the shop as it was, as its transaction does.
 */
module Orders {
  import opened Wrappers
  import opened Tables
  import opened Allocation
  import opened StockSpec
  import opened Calendar
  import opened CartModule

  type ClientId = nat

  datatype OrderStatus = PENDING | CONFIRMED | PROCESSING | SHIPPED | DELIVERED | CANCELLED
  datatype PaymentStatus = Unpaid | PaymentFailed | Paid | Refunded
  datatype CancellationReason = PaymentNotReceived | PaidAfterExpiryOutOfStock

  /** An instant, and the civil date it is in Cuba. */
  datatype Instant = Instant(ms: int, day: Civil)

  /** A stored line; money in cents. */
  datatype Line = Line(prod: ProductId, quantity: nat, unitPrice: int, lineTotal: int)

  datatype Order = Order(
    client: ClientId, status: OrderStatus, payment: PaymentStatus, reason: Option<CancellationReason>,
    lines: seq<Line>, subtotal: int, fee: int, total: int,
    isPickup: bool, pickup: Option<LocationId>, promiseDays: Option<int>,
    paidOn: Option<Civil>, promisedOn: Option<Civil>, deliveredOn: Option<Civil>,
    createdAt: int, reinstatedAt: Option<int>)

  datatype ChargeStatus =
    | ChargePending | RequiresAction | Processing | Succeeded | ChargeFailed | ChargeExpired | ChargeCancelled

  /**
   * One payment attempt. `gateway` is false for manual methods and for providers no
   * longer known. A removed attempt keeps its place, so that the others keep their
   * numbers, but nothing finds it any more.
   */
  datatype Charge = Charge(order: OrderId, status: ChargeStatus, completedOn: Option<Civil>,
                           createdAt: int, gateway: bool, cash: bool, removed: bool)

  datatype RefundStatus = Requested | Completed | Rejected
  datatype Refund = Refund(order: OrderId, amount: int, status: RefundStatus)

  /** Orders and charges are numbered by their place in the sequence, oldest first. */
  datatype Shop = Shop(stock: Stock, orders: seq<Order>, carts: map<ClientId, Cart>,
                       charges: seq<Charge>, refunds: seq<Refund>)

  // ---------------- Money ----------------

  /** `Math.round`. */
  function RoundHalfUp(x: real): int {
    (x + 0.5).Floor
  }

  /** A line already valued: quantity and unit price, of any precision. */
  datatype PricedLine = PricedLine(prod: ProductId, quantity: nat, price: real)

  function LineTotal(l: PricedLine): int {
    RoundHalfUp(l.price * l.quantity as real * 100.0)
  }

  function ToLine(l: PricedLine): Line {
    Line(l.prod, l.quantity, RoundHalfUp(l.price * 100.0), LineTotal(l))
  }

  function ToLines(ls: seq<PricedLine>): (out: seq<Line>)
    ensures |out| == |ls|
    ensures forall i :: 0 <= i < |ls| ==> out[i] == ToLine(ls[i])
  {
    seq(|ls|, i requires 0 <= i < |ls| => ToLine(ls[i]))
  }

  /** The header's subtotal: a sum of its own, over the valued lines. */
  function Subtotal(ls: seq<PricedLine>): int {
    if ls == [] then 0 else Subtotal(ls[..|ls| - 1]) + LineTotal(ls[|ls| - 1])
  }

  /** What the stored lines add up to. */
  function SumTotals(ls: seq<Line>): int {
    if ls == [] then 0 else SumTotals(ls[..|ls| - 1]) + ls[|ls| - 1].lineTotal
  }

  // ---------------- Lines ----------------

  function LineQty(ls: seq<Line>, p: ProductId): nat {
    if ls == [] then 0
    else LineQty(ls[..|ls| - 1], p) + if ls[|ls| - 1].prod == p then ls[|ls| - 1].quantity else 0
  }

  /** Each product once, in a positive quantity: what the duplicate checks and the DTOs leave through. */
  predicate ProperLines(ls: seq<Line>) {
    && (forall i, j :: 0 <= i < j < |ls| ==> ls[i].prod != ls[j].prod)
    && (forall i :: 0 <= i < |ls| ==> ls[i].quantity > 0)
  }

  function CartLines(ls: seq<Line>): seq<CartLine> {
    seq(|ls|, i requires 0 <= i < |ls| => CartLine(ls[i].prod, ls[i].quantity))
  }

  function CartOf(carts: map<ClientId, Cart>, c: ClientId): Cart {
    if c in carts then carts[c] else map[]
  }

  // ---------------- The state machines ----------------

  datatype Phase = Held | Committed | Released

  function StockPhase(s: OrderStatus): Phase {
    match s
    case PENDING => Held
    case CANCELLED => Released
    case _ => Committed
  }

  /** The `TRANSITIONS` table. */
  predicate StepAllowed(from: OrderStatus, to: OrderStatus) {
    match from
    case PENDING => to == CONFIRMED || to == CANCELLED
    case CONFIRMED => to == PROCESSING || to == CANCELLED
    case PROCESSING => to == SHIPPED || to == CANCELLED
    case SHIPPED => to == DELIVERED || to == CANCELLED
    case DELIVERED => false
    case CANCELLED => false
  }

  /** `FORWARD_CHAIN.indexOf`. */
  function ChainIndex(s: OrderStatus): int {
    match s
    case PENDING => 0
    case CONFIRMED => 1
    case PROCESSING => 2
    case SHIPPED => 3
    case DELIVERED => 4
    case CANCELLED => -1
  }

  /** `assertDirectJump`, once the permission is there. */
  predicate JumpAllowed(from: OrderStatus, to: OrderStatus) {
    && from != DELIVERED && from != CANCELLED && to != from
    && (to == CANCELLED || ChainIndex(to) > ChainIndex(from))
  }

  /** The `PAYMENT_TRANSITIONS` table. */
  predicate PaymentAllowed(from: PaymentStatus, to: PaymentStatus) {
    match from
    case Unpaid => to == Paid || to == PaymentFailed
    case PaymentFailed => to == Paid || to == Unpaid
    case Paid => to == Refunded
    case Refunded => false
  }

  // ---------------- Sealing ----------------

  /** `sellarCobro`: the date of the payment, and with it the date the delivery is promised for. */
  function SealPayment(o: Order, day: Civil): Order {
    var paid := if o.paidOn.None? then o.(paidOn := Some(day)) else o;
    if paid.promisedOn.None? then paid.(promisedOn := Deadline(paid.paidOn.value, paid.promiseDays)) else paid
  }

  /** `deshacerCobro`. */
  function UndoPayment(o: Order): Order {
    o.(paidOn := None, promisedOn := None)
  }

  function SealDelivery(o: Order, to: OrderStatus, day: Civil): Order {
    if to == DELIVERED && o.deliveredOn.None? then o.(deliveredOn := Some(day)) else o
  }

  // ---------------- Reserving an order's lines ----------------

  /**
   * What the catalogue and the storages look like during a call: rows listed in some order per
   * product, and the covering storages.
   */
  datatype Area = Area(rows: ProductId -> Storages, covering: Option<set<LocationId>>)

  /** `resolveAllowedLocationIds`: the covering storages, and the pickup counter with them. */
  function AllowedIn(covering: Option<set<LocationId>>, pickup: Option<LocationId>): Option<set<LocationId>> {
    if covering.Some? && pickup.Some? then Some(covering.value + {pickup.value}) else covering
  }

  function ReachFor(area: Area, pickup: Option<LocationId>, p: ProductId): Reach {
    Reach(area.rows(p), AllowedIn(area.covering, pickup), pickup)
  }

  function ReserveLines(st: Stock, o: OrderId, ls: seq<Line>, area: Area, pickup: Option<LocationId>): Option<Stock> {
    if ls == [] then Some(st)
    else
      var l := ls[|ls| - 1];
      var earlier := ReserveLines(st, o, ls[..|ls| - 1], area, pickup);
      if earlier.None? then None
      else Reserve(earlier.value, o, l.prod, l.quantity, ReachFor(area, pickup, l.prod))
  }

  // ---------------- crearPedido ----------------

  datatype NewOrder = NewOrder(client: ClientId, lines: seq<PricedLine>, fee: int, isPickup: bool,
                               pickup: Option<LocationId>, promiseDays: Option<int>,
                               paidAlready: bool, emptiesCart: bool)

  function NewOrderOf(req: NewOrder, now: Instant): Order {
    var subtotal := Subtotal(req.lines);
    var o := Order(req.client, PENDING, Unpaid, None, ToLines(req.lines), subtotal, req.fee, subtotal + req.fee,
                   req.isPickup, req.pickup, req.promiseDays, None, None, None, now.ms, None);
    if req.paidAlready then SealPayment(o.(payment := Paid), now.day) else o
  }

  function Create(shop: Shop, req: NewOrder, area: Area, now: Instant): (Shop, Outcome) {
    if !ProperLines(ToLines(req.lines)) then (shop, BadRequest)
    else
      var st := ReserveLines(shop.stock, |shop.orders|, ToLines(req.lines), area, req.pickup);
      if st.None? then (shop, Conflict)
      else
        (shop.(stock := st.value, orders := shop.orders + [NewOrderOf(req, now)],
               carts := if req.emptiesCart then shop.carts[req.client := map[]] else shop.carts), Done)
  }

  // ---------------- updateStatus ----------------

  predicate CrossesConfirmed(from: OrderStatus, to: OrderStatus) {
    from == PENDING && to != CANCELLED && ChainIndex(to) >= ChainIndex(CONFIRMED)
  }

  function StatusStock(st: Stock, o: OrderId, from: OrderStatus, to: OrderStatus): Stock {
    if CrossesConfirmed(from, to) then Confirm(st, o)
    else if to == CANCELLED then Release(st, o, ReservationStatus.Cancelled)
    else st
  }

  function UpdateStatus(shop: Shop, o: OrderId, to: OrderStatus, direct: bool, now: Instant): (Shop, Outcome) {
    if o >= |shop.orders| then (shop, NotFound)
    else
      var order := shop.orders[o];
      if !(if direct then JumpAllowed(order.status, to) else StepAllowed(order.status, to)) then (shop, Conflict)
      else
        (shop.(stock := StatusStock(shop.stock, o, order.status, to),
               orders := shop.orders[o := SealDelivery(order.(status := to), to, now.day)]), Done)
  }

  // ---------------- cancelByClient, expire ----------------

  function WithCart(shop: Shop, c: ClientId, cart: Cart): Shop {
    shop.(carts := shop.carts[c := cart])
  }

  /** Cancels a pending order without anybody signing for a restock; its lines go back to the cart. */
  function CancelPending(shop: Shop, o: OrderId, final: ReservationStatus, reason: Option<CancellationReason>)
    : (Shop, Outcome)
    requires o < |shop.orders|
  {
    var order := shop.orders[o];
    if ReleaseThrows(shop.stock, o, false, final) then (shop, Fault)
    else
      (WithCart(shop.(stock := Release(shop.stock, o, final),
                      orders := shop.orders[o := order.(status := CANCELLED, reason := reason)]),
                order.client, Returned(CartOf(shop.carts, order.client), CartLines(order.lines))), Done)
  }

  function CancelByClient(shop: Shop, c: ClientId, o: OrderId): (Shop, Outcome) {
    if o >= |shop.orders| || shop.orders[o].client != c then (shop, NotFound)
    else if shop.orders[o].status != PENDING then (shop, Conflict)
    else CancelPending(shop, o, ReservationStatus.Cancelled, shop.orders[o].reason)
  }

  /** The per-order transaction of the expiry sweep: what it finds then, not what the scan saw, decides. */
  function Expire(shop: Shop, o: OrderId): (Shop, Outcome) {
    if o >= |shop.orders| || shop.orders[o].status != PENDING || shop.orders[o].payment == Paid then (shop, Conflict)
    else CancelPending(shop, o, ReservationStatus.Expired, Some(PaymentNotReceived))
  }

  // ---------------- reinstate ----------------

  function Reinstate(shop: Shop, o: OrderId, area: Area, now: Instant): (Shop, Outcome) {
    if o >= |shop.orders| then (shop, NotFound)
    else
      var order := shop.orders[o];
      if order.status != CANCELLED || order.reason == Some(PaidAfterExpiryOutOfStock) then (shop, Conflict)
      else
        var st := ReserveLines(shop.stock, o, order.lines, area, order.pickup);
        if st.None? then (shop, Conflict)
        else
          (shop.(stock := st.value,
                 orders := shop.orders[o := order.(status := PENDING, reason := None,
                                                   reinstatedAt := Some(now.ms))]), Done)
  }

  // ---------------- correct ----------------

  /** The stock a correction owes, by phases. */
  function CorrectedStock(st: Stock, o: OrderId, from: Phase, to: Phase, order: Order, area: Area): Option<Stock> {
    if from == to then Some(st)
    else
      var st1 := if from == Committed || (from == Held && to == Phase.Released)
                 then Release(st, o, ReservationStatus.Cancelled) else st;
      if to == Phase.Released then Some(st1)
      else
        var st2 := if from != Held then ReserveLines(st1, o, order.lines, area, order.pickup) else Some(st1);
        if st2.None? then None
        else if to == Committed then Some(Confirm(st2.value, o))
        else st2
  }

  function Restated(order: Order, to: OrderStatus): Order {
    if order.status == to then order
    else order.(status := to, reason := if to == CANCELLED || order.status == CANCELLED then None else order.reason)
  }

  function Repaid(order: Order, to: PaymentStatus, now: Instant): Order {
    var paid := order.(payment := to);
    if order.payment == to then order
    else if to == Paid then SealPayment(paid, now.day)
    else if order.payment == Paid then UndoPayment(paid)
    else paid
  }

  /** Left pending and unpaid by the correction, an order gets a fresh window to be paid in. */
  function Corrected(order: Order, toStatus: OrderStatus, toPayment: PaymentStatus, now: Instant): Order {
    var order' := Repaid(Restated(order, toStatus), toPayment, now);
    if order'.status == PENDING && order'.payment != Paid && (order.status != PENDING || order.payment == Paid)
    then order'.(reinstatedAt := Some(now.ms)) else order'
  }

  function Correct(shop: Shop, o: OrderId, status: Option<OrderStatus>, payment: Option<PaymentStatus>,
                   area: Area, now: Instant): (Shop, Outcome) {
    if status.None? && payment.None? then (shop, BadRequest)
    else if o >= |shop.orders| then (shop, NotFound)
    else
      var order := shop.orders[o];
      var toStatus, toPayment := status.GetOr(order.status), payment.GetOr(order.payment);
      if toStatus == order.status && toPayment == order.payment then (shop, Conflict)
      else
        var st := CorrectedStock(shop.stock, o, StockPhase(order.status), StockPhase(toStatus), order, area);
        if st.None? then (shop, Conflict)
        else (shop.(stock := st.value, orders := shop.orders[o := Corrected(order, toStatus, toPayment, now)]), Done)
  }

  function UpdatePayment(shop: Shop, o: OrderId, to: PaymentStatus, now: Instant): (Shop, Outcome) {
    if o >= |shop.orders| then (shop, NotFound)
    else
      var order := shop.orders[o];
      if !PaymentAllowed(order.payment, to) then (shop, Conflict)
      else
        var paid := order.(payment := to);
        (shop.(orders := shop.orders[o := if to == Paid then SealPayment(paid, now.day) else paid]), Done)
  }

  // ---------------- updateItems ----------------

  datatype LineRequest = LineRequest(prod: ProductId, quantity: nat, price: Option<real>)
  /** A product as the catalogue has it; the discount is a percentage. */
  datatype Offer = Offer(forSale: bool, basePrice: real, discount: real)

  /** The price of the catalogue, rounded to cents. */
  function CatalogPrice(offer: Offer): real {
    RoundHalfUp(DiscountedCents(offer)) as real / 100.0
  }

  function DiscountedCents(offer: Offer): real {
    offer.basePrice * (1.0 - offer.discount / 100.0) * 100.0
  }

  /** Each product once, in a positive quantity. */
  predicate WellAsked(reqs: seq<LineRequest>) {
    && (forall i, j :: 0 <= i < j < |reqs| ==> reqs[i].prod != reqs[j].prod)
    && (forall i :: 0 <= i < |reqs| ==> reqs[i].quantity > 0)
  }

  function FindLine(ls: seq<Line>, p: ProductId): Option<Line> {
    if ls == [] then None
    else if ls[|ls| - 1].prod == p then Some(ls[|ls| - 1])
    else FindLine(ls[..|ls| - 1], p)
  }

  /** The rows an edit keeps, each where it was, with its new values. */
  function Kept(current: seq<Line>, incoming: seq<Line>): seq<Line> {
    if current == [] then []
    else
      var earlier := Kept(current[..|current| - 1], incoming);
      var line := FindLine(incoming, current[|current| - 1].prod);
      if line.Some? then earlier + [line.value] else earlier
  }

  /** The rows it adds, after those. */
  function Added(incoming: seq<Line>, current: seq<Line>): seq<Line> {
    if incoming == [] then []
    else
      var earlier := Added(incoming[..|incoming| - 1], current);
      var l := incoming[|incoming| - 1];
      if FindLine(current, l.prod).None? then earlier + [l] else earlier
  }

  function Saved(current: seq<Line>, incoming: seq<Line>): seq<Line> {
    Kept(current, incoming) + Added(incoming, current)
  }

  function PriceOf(l: Line): real {
    l.unitPrice as real / 100.0
  }

  /** Lines already in the order keep their price unless another is given; new ones take the catalogue's. */
  function ResolveLine(req: LineRequest, current: seq<Line>, catalogue: map<ProductId, Offer>): (Outcome, PricedLine) {
    var existing := FindLine(current, req.prod);
    if existing.Some? then (Done, PricedLine(req.prod, req.quantity, req.price.GetOr(PriceOf(existing.value))))
    else if req.prod !in catalogue then (NotFound, PricedLine(req.prod, 0, 0.0))
    else if !catalogue[req.prod].forSale then (Conflict, PricedLine(req.prod, 0, 0.0))
    else (Done, PricedLine(req.prod, req.quantity, req.price.GetOr(CatalogPrice(catalogue[req.prod]))))
  }

  function ResolveLines(reqs: seq<LineRequest>, current: seq<Line>, catalogue: map<ProductId, Offer>)
    : (r: (Outcome, seq<PricedLine>))
    ensures r.0 == Done ==> |r.1| == |reqs|
    ensures r.0 == Done ==> forall i :: 0 <= i < |reqs| ==>
              ResolveLine(reqs[i], current, catalogue) == (Done, r.1[i])
              && r.1[i].prod == reqs[i].prod && r.1[i].quantity == reqs[i].quantity
  {
    if reqs == [] then (Done, [])
    else
      var (outcome, earlier) := ResolveLines(reqs[..|reqs| - 1], current, catalogue);
      if outcome != Done then (outcome, [])
      else
        var (last, l) := ResolveLine(reqs[|reqs| - 1], current, catalogue);
        if last != Done then (last, []) else (Done, earlier + [l])
  }

  /** Nothing added, removed, resized or repriced. */
  predicate SameLines(current: seq<Line>, incoming: seq<PricedLine>) {
    && (forall i :: 0 <= i < |incoming| ==>
          var l := FindLine(current, incoming[i].prod);
          l.Some? && l.value.quantity == incoming[i].quantity && PriceOf(l.value) == incoming[i].price)
    && (forall i :: 0 <= i < |current| ==> LineQty(ToLines(incoming), current[i].prod) > 0)
  }

  /** First the falls: what the new lines no longer need is released. */
  function DropLines(st: Stock, o: OrderId, current: seq<Line>, incoming: seq<Line>): Stock {
    if current == [] then st
    else
      var l := current[|current| - 1];
      var earlier := DropLines(st, o, current[..|current| - 1], incoming);
      var drop := l.quantity - LineQty(incoming, l.prod);
      if drop > 0 then ReleaseUnits(earlier, o, l.prod, drop) else earlier
  }

  /** Then the rises: held, and taken at once if the order is already committed. */
  function RaiseLine(st: Stock, o: OrderId, l: Line, had: nat, committed: bool, area: Area,
                     pickup: Option<LocationId>): Option<Stock> {
    if l.quantity <= had then Some(st)
    else
      var st1 := Reserve(st, o, l.prod, l.quantity - had, ReachFor(area, pickup, l.prod));
      if st1.None? then None
      else if committed then Some(ConfirmProduct(st1.value, o, l.prod))
      else st1
  }

  function RaiseLines(st: Stock, o: OrderId, incoming: seq<Line>, current: seq<Line>, committed: bool,
                      area: Area, pickup: Option<LocationId>): Option<Stock> {
    if incoming == [] then Some(st)
    else
      var l := incoming[|incoming| - 1];
      var earlier := RaiseLines(st, o, incoming[..|incoming| - 1], current, committed, area, pickup);
      if earlier.None? then None
      else RaiseLine(earlier.value, o, l, LineQty(current, l.prod), committed, area, pickup)
  }

  function EditedStock(st: Stock, o: OrderId, order: Order, incoming: seq<Line>, area: Area): Option<Stock> {
    var phase := StockPhase(order.status);
    if phase == Phase.Released then Some(st)
    else RaiseLines(DropLines(st, o, order.lines, incoming), o, incoming, order.lines, phase == Committed,
                    area, order.pickup)
  }

  function UpdateItems(shop: Shop, o: OrderId, reqs: seq<LineRequest>, catalogue: map<ProductId, Offer>,
                       area: Area): (Shop, Outcome) {
    if !WellAsked(reqs) then (shop, BadRequest)
    else if o >= |shop.orders| then (shop, NotFound)
    else
      var order := shop.orders[o];
      var (outcome, incoming) := ResolveLines(reqs, order.lines, catalogue);
      if outcome != Done then (shop, outcome)
      else if SameLines(order.lines, incoming) then (shop, Conflict)
      else
        var st := EditedStock(shop.stock, o, order, ToLines(incoming), area);
        if st.None? then (shop, Conflict)
        else
          var subtotal := Subtotal(incoming);
          (shop.(stock := st.value,
                 orders := shop.orders[o := order.(lines := Saved(order.lines, ToLines(incoming)), subtotal := subtotal,
                                                   total := subtotal + order.fee)]), Done)
  }

  // ---------------- createOperation ----------------

  /** The pickup counter of each order. */
  function Homes(orders: seq<Order>): seq<Option<LocationId>> {
    seq(|orders|, i requires 0 <= i < |orders| => if orders[i].isPickup then orders[i].pickup else None)
  }

  function ByHand(shop: Shop, op: Operation, catalogue: set<ProductId>, active: set<LocationId>): (Shop, Outcome) {
    if !WellFormed(op, catalogue, active) then (shop, BadRequest)
    else
      var st := Operate(shop.stock, op, Homes(shop.orders));
      if st.None? then (shop, BadRequest) else (shop.(stock := st.value), Done)
  }
}
