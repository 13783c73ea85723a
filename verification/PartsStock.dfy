/**
 * Parts stock and orders as values: what one committed transaction of src/services/parts.ts does
 * to the inventory and order tables, and what every run of such transactions keeps. Field service
 * (src/http/routes/field-service.ts) reserves and uses up the same inventory.
 *
 * An inventory row is named by its unique key (supplier, sku, location). Orders are numbered in
 * order of creation, and an order carries its items in order of creation.
 */
module PartsStock {
  import opened Prelude

  datatype RowKey = RowKey(supplier: ActorId, sku: string, location: Option<Id>)

  datatype Stock = Stock(onHand: int, reserved: int, active: bool, updatedAt: nat)

  type Shelf = map<RowKey, Stock>

  datatype Status =
    | Requested | SupplierAssigned | Reserved | Ordered | Shipped | Delivered | Cancelled | Failed

  type Quantity = q: int | q > 0 witness 1

  datatype Item = Item(sku: string, quantity: Quantity, status: Status, row: Option<RowKey>)

  datatype Order = Order(caseId: Id, supplier: Option<ActorId>, status: Status, items: seq<Item>)

  /**
   * A field-service decision appears in `fieldwork` once it is started, as a holder of stock like an
   * order: reserved while in progress, delivered once completed, cancelled when escalated.
   */
  datatype State = State(now: nat, shelf: Shelf, orders: seq<Order>, fieldwork: seq<Order>)

  // ---------------------------------------------------------------------------------------------
  // Statuses

  /** The item statuses that hold stock. */
  predicate Live(s: Status) { s == Reserved || s == Ordered || s == Shipped }

  /** The item statuses that a status change skips. */
  predicate Closed(s: Status) { s == Delivered || s == Cancelled || s == Failed }

  predicate Assignable(s: Status) { s == Requested || s == SupplierAssigned || s == Failed }

  predicate Reservable(s: Status) { s == SupplierAssigned || s == Requested }

  predicate Allowed(from: Status, to: Status) {
    match from
    case Reserved => to == Ordered || to == Cancelled || to == Failed
    case Ordered => to == Shipped || to == Delivered || to == Cancelled || to == Failed
    case Shipped => to == Delivered || to == Failed
    case _ => false
  }

  function WithStatus(items: seq<Item>, to: Status): (r: seq<Item>)
    ensures |r| == |items|
    ensures forall i :: 0 <= i < |items| ==> r[i] == items[i].(status := to)
  {
    seq(|items|, i requires 0 <= i < |items| => items[i].(status := to))
  }

  /** The bulk update that leaves closed items alone. */
  function AdvanceOpen(items: seq<Item>, to: Status): (r: seq<Item>)
    ensures |r| == |items|
    ensures forall i :: 0 <= i < |items| ==>
      r[i] == if Closed(items[i].status) then items[i] else items[i].(status := to)
  {
    seq(|items|, i requires 0 <= i < |items| =>
      if Closed(items[i].status) then items[i] else items[i].(status := to))
  }

  // ---------------------------------------------------------------------------------------------
  // Reserving

  function Available(s: Stock): int { s.onHand - s.reserved }

  predicate Sufficient(shelf: Shelf, supplier: ActorId, item: Item, key: RowKey) {
    && key in shelf && key.supplier == supplier && key.sku == item.sku
    && shelf[key].active && Available(shelf[key]) >= item.quantity
  }

  /** The row the locked read returns: sufficient, and none sufficient was updated earlier. */
  predicate OldestSufficient(shelf: Shelf, supplier: ActorId, item: Item, key: RowKey) {
    && Sufficient(shelf, supplier, item, key)
    && forall k | k in shelf :: Sufficient(shelf, supplier, item, k) ==> shelf[key].updatedAt <= shelf[k].updatedAt
  }

  function Take(shelf: Shelf, key: RowKey, quantity: int, now: nat): Shelf {
    if key in shelf
    then shelf[key := shelf[key].(reserved := shelf[key].reserved + quantity, updatedAt := now)]
    else shelf
  }

  function TakeAll(shelf: Shelf, items: seq<Item>, picks: seq<RowKey>, now: nat): Shelf
    requires |items| == |picks|
  {
    if items == [] then shelf
    else
      var n := |items| - 1;
      Take(TakeAll(shelf, items[..n], picks[..n], now), picks[n], items[n].quantity, now)
  }

  /** The shelf that the reservation of item number n sees, after the rows picked before it. */
  function ShelfBefore(shelf: Shelf, items: seq<Item>, picks: seq<RowKey>, n: nat, now: nat): Shelf
    requires n <= |items| && n <= |picks|
  {
    TakeAll(shelf, items[..n], picks[..n], now)
  }

  /** Every picked row was sufficient when it was picked, whichever sufficient row that was. */
  ghost predicate SufficientPicks(shelf: Shelf, supplier: ActorId, items: seq<Item>, picks: seq<RowKey>, now: nat) {
    && |picks| <= |items|
    && forall n :: 0 <= n < |picks| ==>
      Sufficient(ShelfBefore(shelf, items, picks, n, now), supplier, items[n], picks[n])
  }

  /** The picks that the source's own row order makes. */
  ghost predicate OldestPicks(shelf: Shelf, supplier: ActorId, items: seq<Item>, picks: seq<RowKey>, now: nat) {
    && |picks| <= |items|
    && forall n :: 0 <= n < |picks| ==>
      OldestSufficient(ShelfBefore(shelf, items, picks, n, now), supplier, items[n], picks[n])
  }

  function Placed(items: seq<Item>, picks: seq<RowKey>): (r: seq<Item>)
    requires |items| == |picks|
    ensures |r| == |items|
    ensures forall i :: 0 <= i < |items| ==> r[i] == items[i].(status := Reserved, row := Some(picks[i]))
  {
    seq(|items|, i requires 0 <= i < |items| => items[i].(status := Reserved, row := Some(picks[i])))
  }

  // ---------------------------------------------------------------------------------------------
  // The eligibility query

  /** Total quantity wanted of one sku. */
  function Wanted(items: seq<Item>, sku: string): nat {
    if items == [] then 0
    else
      var n := |items| - 1;
      Wanted(items[..n], sku) + if items[n].sku == sku then items[n].quantity else 0
  }

  /** Row `key` alone covers everything the items want of its sku. */
  predicate Fulfils(shelf: Shelf, supplier: ActorId, items: seq<Item>, sku: string, key: RowKey) {
    && key in shelf && key.supplier == supplier && key.sku == sku
    && shelf[key].active && Available(shelf[key]) >= Wanted(items, sku)
  }

  predicate HasFulfillingRow(shelf: Shelf, supplier: ActorId, items: seq<Item>, sku: string) {
    exists key | key in shelf :: Fulfils(shelf, supplier, items, sku, key)
  }

  /** The supplier has a fulfilling row for every wanted sku; an order without items has no candidate. */
  predicate Eligible(shelf: Shelf, supplier: ActorId, items: seq<Item>) {
    && items != []
    && forall i | 0 <= i < |items| :: HasFulfillingRow(shelf, supplier, items, items[i].sku)
  }

  /** The suppliers the candidate query returns, before the actor and sourcing filters. */
  function Candidates(shelf: Shelf, items: seq<Item>): (suppliers: set<ActorId>)
    ensures forall a :: a in suppliers <==> Eligible(shelf, a, items)
  {
    var all := set k | k in shelf && Eligible(shelf, k.supplier, items) :: k.supplier;
    assert forall a | Eligible(shelf, a, items) :: a in all by {
      forall a | Eligible(shelf, a, items) ensures a in all {
        assert HasFulfillingRow(shelf, a, items, items[0].sku);
        var key :| key in shelf && Fulfils(shelf, a, items, items[0].sku, key);
      }
    }
    all
  }

  // ---------------------------------------------------------------------------------------------
  // Releasing and delivering

  /** One step of the release loop, with the source's clamp at zero. */
  function Release(shelf: Shelf, item: Item, now: nat): Shelf {
    if Live(item.status) && item.row.Some? && item.row.value in shelf then
      var key := item.row.value;
      shelf[key := shelf[key].(reserved := Max(shelf[key].reserved - item.quantity, 0), updatedAt := now)]
    else shelf
  }

  function ReleaseAll(shelf: Shelf, items: seq<Item>, now: nat): Shelf {
    if items == [] then shelf
    else Release(ReleaseAll(shelf, items[..|items| - 1], now), items[|items| - 1], now)
  }

  /** The guard of the delivery update. */
  predicate Deliverable(shelf: Shelf, item: Item) {
    item.row.Some? ==>
      && item.row.value in shelf
      && shelf[item.row.value].onHand >= item.quantity
      && shelf[item.row.value].reserved >= item.quantity
  }

  function Deliver(shelf: Shelf, item: Item, now: nat): Shelf {
    if item.row.Some? && item.row.value in shelf then
      var key := item.row.value;
      shelf[key := shelf[key].(onHand := shelf[key].onHand - item.quantity,
      reserved := shelf[key].reserved - item.quantity, updatedAt := now)]
    else shelf
  }

  /** The delivery loop: None when some row fails the guard, which rolls the transaction back. */
  function DeliverAll(shelf: Shelf, items: seq<Item>, now: nat): Option<Shelf> {
    if items == [] then Some(shelf)
    else
      var n := |items| - 1;
      match DeliverAll(shelf, items[..n], now)
      case None => None
      case Some(before) => if Deliverable(before, items[n]) then Some(Deliver(before, items[n], now)) else None
  }

  // ---------------------------------------------------------------------------------------------
  // Field service

  /** Using up the stock of a completed decision: both counters fall, neither below zero. */
  function Consume(shelf: Shelf, item: Item, now: nat): Shelf {
    if item.row.Some? && item.row.value in shelf then
      var key := item.row.value;
      shelf[key := shelf[key].(onHand := Max(shelf[key].onHand - item.quantity, 0),
      reserved := Max(shelf[key].reserved - item.quantity, 0), updatedAt := now)]
    else shelf
  }

  function ConsumeAll(shelf: Shelf, items: seq<Item>, now: nat): Shelf {
    if items == [] then shelf
    else Consume(ConsumeAll(shelf, items[..|items| - 1], now), items[|items| - 1], now)
  }

  // ---------------------------------------------------------------------------------------------
  // Transactions

  datatype Action =
    | Create(caseId: Id, wanted: seq<(string, Quantity)>)
    | Assign(order: nat, supplier: ActorId)
    | Reserve(order: nat, picks: seq<RowKey>)
    | Mark(order: nat, to: Status)
    | Declare(key: RowKey, quantity: int)
    | StartField(caseId: Id, supplier: ActorId, wanted: seq<(string, Quantity)>, picks: seq<RowKey>)
    | FinishField(job: nat, completed: bool)
    | Tick(seconds: nat)

  function NewItems(wanted: seq<(string, Quantity)>): (r: seq<Item>)
    ensures |r| == |wanted|
    ensures forall i :: 0 <= i < |wanted| ==> r[i] == Item(wanted[i].0, wanted[i].1, Requested, None)
  {
    seq(|wanted|, i requires 0 <= i < |wanted| => Item(wanted[i].0, wanted[i].1, Requested, None))
  }

  predicate CanReserve(s: State, o: nat) {
    o < |s.orders| && s.orders[o].supplier.Some? && Reservable(s.orders[o].status)
  }

  ghost predicate ReserveOutcome(s: State, o: nat, picks: seq<RowKey>) {
    && CanReserve(s, o) && |picks| == |s.orders[o].items|
    && SufficientPicks(s.shelf, s.orders[o].supplier.value, s.orders[o].items, picks, s.now)
  }

  /** The start of a decision takes any sufficient rows of its supplier, not the oldest ones. */
  ghost predicate StartOutcome(s: State, supplier: ActorId, items: seq<Item>, picks: seq<RowKey>) {
    |picks| == |items| && SufficientPicks(s.shelf, supplier, items, picks, s.now)
  }

  predicate InProgress(s: State, j: nat) { j < |s.fieldwork| && s.fieldwork[j].status == Reserved }

  function FinishOutcome(s: State, j: nat, completed: bool): State
    requires j < |s.fieldwork|
  {
    var job := s.fieldwork[j];
    if completed then
      s.(shelf := ConsumeAll(s.shelf, job.items, s.now),
      fieldwork := s.fieldwork[j := job.(status := Delivered, items := WithStatus(job.items, Delivered))])
    else
      s.(shelf := ReleaseAll(s.shelf, job.items, s.now),
      fieldwork := s.fieldwork[j := job.(status := Cancelled, items := WithStatus(job.items, Cancelled))])
  }

  function Declared(shelf: Shelf, key: RowKey, quantity: int, now: nat): Shelf {
    shelf[key := if key in shelf
    then shelf[key].(onHand := quantity, active := true, updatedAt := now)
    else Stock(quantity, 0, true, now)]
  }

  /** One committed transaction; an action the source rejects leaves the tables as they were. */
  ghost function Next(s: State, a: Action): State {
    match a
    case Create(c, wanted) =>
      s.(orders := s.orders + [Order(c, None, Requested, NewItems(wanted))])
    case Assign(o, supplier) =>
      if o < |s.orders| && Assignable(s.orders[o].status)
      then s.(orders := s.orders[o := s.orders[o].(supplier := Some(supplier), status := SupplierAssigned)])
      else s
    case Reserve(o, picks) =>
      if ReserveOutcome(s, o, picks) then
        s.(shelf := TakeAll(s.shelf, s.orders[o].items, picks, s.now),
        orders := s.orders[o := s.orders[o].(status := Reserved, items := Placed(s.orders[o].items, picks))])
      else s
    case Mark(o, to) =>
      if o < |s.orders| && Allowed(s.orders[o].status, to) then MarkOutcome(s, o, to) else s
    case Declare(key, quantity) => s.(shelf := Declared(s.shelf, key, quantity, s.now))
    case StartField(c, supplier, wanted, picks) =>
      var items := NewItems(wanted);
      if StartOutcome(s, supplier, items, picks) then
        s.(shelf := TakeAll(s.shelf, items, picks, s.now),
        fieldwork := s.fieldwork + [Order(c, Some(supplier), Reserved, Placed(items, picks))])
      else s
    case FinishField(j, completed) => if InProgress(s, j) then FinishOutcome(s, j, completed) else s
    case Tick(d) => s.(now := s.now + d)
  }

  function MarkOutcome(s: State, o: nat, to: Status): State
    requires o < |s.orders|
  {
    var order := s.orders[o];
    if to == Cancelled || to == Failed then
      s.(shelf := ReleaseAll(s.shelf, order.items, s.now),
      orders := s.orders[o := order.(status := to, items := AdvanceOpen(order.items, to))])
    else if to == Delivered then
      match DeliverAll(s.shelf, order.items, s.now)
      case None => s
      case Some(after) =>
        s.(shelf := after, orders := s.orders[o := order.(status := to, items := WithStatus(order.items, to))])
    else
      s.(orders := s.orders[o := order.(status := to, items := AdvanceOpen(order.items, to))])
  }

  ghost function Run(s: State, actions: seq<Action>): State {
    if actions == [] then s else Next(Run(s, actions[..|actions| - 1]), actions[|actions| - 1])
  }

  const Empty := State(0, map[], [], [])

  // ---------------------------------------------------------------------------------------------
  // What is held

  /** Quantity that live items among `items` hold on one row. */
  function HeldBy(items: seq<Item>, key: RowKey): nat {
    if items == [] then 0
    else
      var last := items[|items| - 1];
      HeldBy(items[..|items| - 1], key) + if Live(last.status) && last.row == Some(key) then last.quantity else 0
  }

  /** Quantity that all orders hold on one row. */
  function Held(orders: seq<Order>, key: RowKey): nat {
    if orders == [] then 0 else Held(orders[..|orders| - 1], key) + HeldBy(orders[|orders| - 1].items, key)
  }

  /** Quantity delivered from one row. */
  function DeliveredBy(items: seq<Item>, key: RowKey): nat {
    if items == [] then 0
    else
      var last := items[|items| - 1];
      DeliveredBy(items[..|items| - 1], key) + if last.status == Delivered && last.row == Some(key) then last.quantity else 0
  }

  function DeliveredFrom(orders: seq<Order>, key: RowKey): nat {
    if orders == [] then 0 else DeliveredFrom(orders[..|orders| - 1], key) + DeliveredBy(orders[|orders| - 1].items, key)
  }

  /** Items of a live order carry its status and point at a row of its supplier; others hold nothing. */
  ghost predicate OrderConsistent(shelf: Shelf, o: Order) {
    && (Live(o.status) ==>
      && o.supplier.Some?
      && forall i :: 0 <= i < |o.items| ==>
        && o.items[i].status == o.status && o.items[i].row.Some? && o.items[i].row.value in shelf
        && o.items[i].row.value.supplier == o.supplier.value && o.items[i].row.value.sku == o.items[i].sku)
    && (!Live(o.status) ==> forall i :: 0 <= i < |o.items| ==> !Live(o.items[i].status))
    && (o.status != Delivered ==> forall i :: 0 <= i < |o.items| ==> o.items[i].status != Delivered)
  }

  ghost predicate AllConsistent(shelf: Shelf, orders: seq<Order>) {
    forall o :: 0 <= o < |orders| ==> OrderConsistent(shelf, orders[o])
  }

  /** What a row has promised is what orders and field service hold on it. */
  ghost predicate Balanced(s: State) {
    forall key :: key in s.shelf ==> s.shelf[key].reserved == Held(s.orders, key) + Held(s.fieldwork, key)
  }

  ghost predicate Inv(s: State) {
    AllConsistent(s.shelf, s.orders) && AllConsistent(s.shelf, s.fieldwork) && Balanced(s)
  }

  /** No row has promised more than it has. */
  ghost predicate Covered(s: State) {
    forall key :: key in s.shelf ==> s.shelf[key].reserved <= s.shelf[key].onHand
  }

  /** The run never re-declares the quantity of an existing row, and declares no negative quantity. */
  ghost predicate NoRedeclaration(s: State, actions: seq<Action>) {
    forall i :: 0 <= i < |actions| && actions[i].Declare? ==>
      actions[i].key !in Run(s, actions[..i]).shelf && actions[i].quantity >= 0
  }
}
