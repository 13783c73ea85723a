/**
 * The parts service with its tables updated row by row. Every method is one transaction: it is
 * proved to take the tables to the state that PartsStock.Next names, or to leave them untouched.
 */
module PartsStore {
  import opened Prelude
  import opened PartsStock
  import PartsProofs
  import PartsLifecycle

  datatype PartsError =
    | OrderNotFound
    | OrderNotAssignable
    | SupplierNotAssigned
    | OrderNotReservable
    | InventoryUnavailable(sku: string)
    | InvalidPartsTransition
    | InventoryReservationMismatch
    | FieldServicePartsUnavailable
    | FieldServiceNotInProgress

  /** After the oldest rows picked for the first items no row has enough of the next item, which is of the given sku. */
  ghost predicate Stuck(shelf: Shelf, supplier: ActorId, items: seq<Item>, picks: seq<RowKey>, sku: string, now: nat) {
    && |picks| < |items| && OldestPicks(shelf, supplier, items, picks, now) && items[|picks|].sku == sku
    && var left := ShelfBefore(shelf, items, picks, |picks|, now);
    forall k :: k in left && k.supplier == supplier && k.sku == sku && left[k].active ==>
      left[k].onHand - left[k].reserved < items[|picks|].quantity
  }

  lemma NothingPicked(shelf: Shelf, supplier: ActorId, items: seq<Item>, now: nat)
    ensures OldestPicks(shelf, supplier, items, [], now) && ShelfBefore(shelf, items, [], 0, now) == shelf
  {
  }

  lemma NoRowLeft(shelf: Shelf, supplier: ActorId, items: seq<Item>, picks: seq<RowKey>, now: nat)
    requires OldestPicks(shelf, supplier, items, picks, now) && |picks| < |items|
    requires
      var left := ShelfBefore(shelf, items, picks, |picks|, now);
      !exists k | k in left :: Sufficient(left, supplier, items[|picks|], k)
    ensures Stuck(shelf, supplier, items, picks, items[|picks|].sku, now)
    ensures !Eligible(shelf, supplier, items)
  {
    hide Eligible, ShelfBefore, TakeAll;
    PartsProofs.OldestAreSufficient(shelf, supplier, items, picks, now);
    if Eligible(shelf, supplier, items) {
      PartsProofs.EligibleNeverStuck(shelf, supplier, items, picks, now);
      assert false;
    }
    var left := ShelfBefore(shelf, items, picks, |picks|, now);
    forall k | k in left && k.supplier == supplier && k.sku == items[|picks|].sku && left[k].active
      ensures left[k].onHand - left[k].reserved < items[|picks|].quantity
    {
      assert !Sufficient(left, supplier, items[|picks|], k);
    }
  }

  class Store {
    var now: nat
    var inventory: Shelf
    var orders: seq<Order>
    var fieldwork: seq<Order>

    ghost function State(): State
      reads this
    {
      PartsStock.State(now, inventory, orders, fieldwork)
    }

    constructor ()
      ensures State() == Empty
    {
      now, inventory, orders, fieldwork := 0, map[], [], [];
    }

    method CreatePartsOrder(caseId: Id, wanted: seq<(string, Quantity)>) returns (order: nat)
      modifies this
      ensures State() == Next(old(State()), Create(caseId, wanted))
      ensures order == |old(orders)| && |orders| == order + 1 && orders[..order] == old(orders)
      ensures inventory == old(inventory) && fieldwork == old(fieldwork)
      ensures orders[order].caseId == caseId && orders[order].supplier.None? && orders[order].status == Requested
      ensures |orders[order].items| == |wanted|
      ensures forall i :: 0 <= i < |wanted| ==> orders[order].items[i] == Item(wanted[i].0, wanted[i].1, Requested, None)
    {
      var items: seq<Item> := [];
      for i := 0 to |wanted|
        invariant items == NewItems(wanted)[..i]
      {
        items := items + [Item(wanted[i].0, wanted[i].1, Requested, None)];
      }
      assert NewItems(wanted)[..|wanted|] == NewItems(wanted);
      order := |orders|;
      orders := orders + [Order(caseId, None, Requested, items)];
    }

    method AssignSupplier(o: nat, supplier: ActorId) returns (r: Result<(), PartsError>)
      modifies this
      ensures State() == Next(old(State()), Assign(o, supplier))
      ensures r == Err(OrderNotFound) <==> o >= |old(orders)|
      ensures r.Ok? <==> o < |old(orders)| && old(orders)[o].status in {Requested, SupplierAssigned, Failed}
      ensures r.Ok? ==> orders[o] == old(orders)[o].(supplier := Some(supplier), status := SupplierAssigned)
    {
      if o >= |orders| { return Err(OrderNotFound); }
      if !Assignable(orders[o].status) { return Err(OrderNotAssignable); }
      orders := orders[o := orders[o].(supplier := Some(supplier), status := SupplierAssigned)];
      return Ok(());
    }

    /**
     * Reserves every item of an order, one row per item, or nothing at all. The rows taken are
     * reported; each was the least recently updated row that sufficed when it was taken. An order
     * whose supplier the candidate query admits is never refused for lack of stock.
     */
    method ReserveOrderInventory(o: nat) returns (r: Result<seq<RowKey>, PartsError>)
      modifies this
      ensures r.Ok? ==>
        && ReserveOutcome(old(State()), o, r.value)
        && OldestPicks(old(inventory), old(orders)[o].supplier.value, old(orders)[o].items, r.value, old(now))
        && State() == Next(old(State()), Reserve(o, r.value))
      ensures r.Err? ==> State() == old(State())
      ensures r.Err? && r.error == OrderNotFound <==> o >= |old(orders)|
      ensures r.Err? && r.error == SupplierNotAssigned <==> o < |old(orders)| && old(orders)[o].supplier.None?
      ensures r.Err? && r.error == OrderNotReservable <==>
        o < |old(orders)| && old(orders)[o].supplier.Some? && old(orders)[o].status !in {Requested, SupplierAssigned}
      ensures r.Err? && !r.error.InventoryUnavailable? <==> !CanReserve(old(State()), o)
      ensures r.Err? && r.error.InventoryUnavailable? ==>
        exists picks :: Stuck(old(inventory), old(orders)[o].supplier.value, old(orders)[o].items, picks, r.error.sku, old(now))
      ensures r.Ok? ==> orders[o].status == Status.Reserved
      ensures CanReserve(old(State()), o) && Eligible(old(inventory), old(orders)[o].supplier.value, old(orders)[o].items) ==> r.Ok?
    {
      if o >= |orders| { return Err(OrderNotFound); }
      var order := orders[o];
      if order.supplier.None? { return Err(SupplierNotAssigned); }
      if !Reservable(order.status) { return Err(OrderNotReservable); }
      var picks, missing := TakeItems(order.supplier.value, order.items);
      if missing.Some? { return Err(InventoryUnavailable(missing.value)); }
      PartsProofs.OldestAreSufficient(old(inventory), order.supplier.value, order.items, picks, now);
      orders := orders[o := order.(status := Reserved, items := Placed(order.items, picks))];
      return Ok(picks);
    }

    /** The reservation loop: a row for every item, or the shelf as it was and the sku that has none. */
    method TakeItems(supplier: ActorId, items: seq<Item>) returns (picks: seq<RowKey>, missing: Option<string>)
      modifies this`inventory
      ensures missing.None? ==>
        && |picks| == |items|
        && OldestPicks(old(inventory), supplier, items, picks, now)
        && inventory == TakeAll(old(inventory), items, picks, now)
      ensures missing.Some? ==> inventory == old(inventory) && Stuck(inventory, supplier, items, picks, missing.value, now)
      ensures Eligible(old(inventory), supplier, items) ==> missing.None?
    {
      hide TakeAll, Eligible, Stuck, OldestPicks;
      var before := inventory;
      picks := [];
      NothingPicked(before, supplier, items, now);
      for i := 0 to |items|
        invariant |picks| == i
        invariant inventory == ShelfBefore(before, items, picks, i, now)
        invariant OldestPicks(before, supplier, items, picks, now)
      {
        if !exists k | k in inventory :: Sufficient(inventory, supplier, items[i], k) {
          NoRowLeft(before, supplier, items, picks, now);
          inventory := before;
          return picks, Some(items[i].sku);
        }
        ghost var some :| some in inventory && Sufficient(inventory, supplier, items[i], some);
        PartsProofs.OldestExists(inventory, supplier, items[i], some);
        var key :| key in inventory && OldestSufficient(inventory, supplier, items[i], key);
        PartsProofs.OneMorePick(before, supplier, items, picks, key, now);
        inventory := inventory[key := inventory[key].(reserved := inventory[key].reserved + items[i].quantity, updatedAt := now)];
        picks := picks + [key];
      }
      assert items[..|items|] == items && picks[..|items|] == picks;
      return picks, None;
    }

    /** Moves an order on; a delivery that meets a short row changes nothing. */
    method MarkPartsOrderStatus(o: nat, to: Status) returns (r: Result<(), PartsError>)
      modifies this
      ensures r.Ok? ==> State() == Next(old(State()), Mark(o, to)) && o < |orders| && orders[o].status == to
      ensures r.Err? ==> State() == old(State()) && Next(old(State()), Mark(o, to)) == old(State())
      ensures r == Err(OrderNotFound) <==> o >= |old(orders)|
      ensures r == Err(InvalidPartsTransition) <==> o < |old(orders)| && (old(orders)[o].status, to) !in PartsLifecycle.MOVES
      ensures r == Err(InventoryReservationMismatch) <==>
        && o < |old(orders)| && (old(orders)[o].status, to) in PartsLifecycle.MOVES && to == Delivered
        && DeliverAll(old(inventory), old(orders)[o].items, old(now)).None?
    {
      if o >= |orders| { return Err(OrderNotFound); }
      var order := orders[o];
      if !Allowed(order.status, to) { return Err(InvalidPartsTransition); }
      var items := order.items;
      if to == Cancelled || to == Failed {
        ReleaseItems(items);
        orders := orders[o := order.(status := to, items := AdvanceOpen(items, to))];
      } else if to == Delivered {
        var delivered := DeliverItems(items);
        if !delivered { return Err(InventoryReservationMismatch); }
        orders := orders[o := order.(status := to, items := WithStatus(items, to))];
      } else {
        orders := orders[o := order.(status := to, items := AdvanceOpen(items, to))];
      }
      return Ok(());
    }

    method ReleaseItems(items: seq<Item>)
      modifies this`inventory
      ensures inventory == ReleaseAll(old(inventory), items, now)
    {
      for i := 0 to |items|
        invariant inventory == ReleaseAll(old(inventory), items[..i], now)
      {
        assert items[..i + 1][..i] == items[..i];
        if Live(items[i].status) && items[i].row.Some? && items[i].row.value in inventory {
          var key := items[i].row.value;
          var left := inventory[key].reserved - items[i].quantity;
          inventory := inventory[key := inventory[key].(reserved := if left >= 0 then left else 0, updatedAt := now)];
        }
      }
      assert items[..|items|] == items;
    }

    method DeliverItems(items: seq<Item>) returns (done: bool)
      modifies this`inventory
      ensures done <==> DeliverAll(old(inventory), items, now).Some?
      ensures inventory == if done then DeliverAll(old(inventory), items, now).value else old(inventory)
    {
      var before := inventory;
      for i := 0 to |items|
        invariant DeliverAll(before, items[..i], now) == Some(inventory)
      {
        assert items[..i + 1][..i] == items[..i];
        if items[i].row.Some? {
          var key := items[i].row.value;
          if key !in inventory || inventory[key].onHand < items[i].quantity || inventory[key].reserved < items[i].quantity {
            assert DeliverAll(before, items[..i + 1], now).None?;
            NoneLasts(before, items, i + 1, now);
            inventory := before;
            return false;
          }
          inventory := inventory[key := inventory[key].(onHand := inventory[key].onHand - items[i].quantity,
          reserved := inventory[key].reserved - items[i].quantity, updatedAt := now)];
        }
      }
      assert items[..|items|] == items;
      return true;
    }

    /** A supplier states how much of a part is on hand; what is reserved is not touched. */
    method UpsertInventory(key: RowKey, quantityOnHand: int)
      modifies this
      ensures State() == Next(old(State()), Declare(key, quantityOnHand))
      ensures key in inventory && inventory[key].onHand == quantityOnHand && inventory[key].active
      ensures inventory[key].reserved == if key in old(inventory) then old(inventory)[key].reserved else 0
    {
      if key in inventory {
        inventory := inventory[key := inventory[key].(onHand := quantityOnHand, active := true, updatedAt := now)];
      } else {
        inventory := inventory[key := Stock(quantityOnHand, 0, true, now)];
      }
    }

    /** The loop of a field-service start: some sufficient row for every item, or the shelf as it was. */
    method TakeAnyItems(supplier: ActorId, items: seq<Item>) returns (picks: seq<RowKey>, found: bool)
      modifies this`inventory
      ensures found ==>
        && |picks| == |items|
        && SufficientPicks(old(inventory), supplier, items, picks, now)
        && inventory == TakeAll(old(inventory), items, picks, now)
      ensures !found ==> inventory == old(inventory)
    {
      hide TakeAll;
      var before := inventory;
      picks := [];
      PartsProofs.NothingTaken(before, items, picks, now, "");
      for i := 0 to |items|
        invariant |picks| == i
        invariant inventory == ShelfBefore(before, items, picks, i, now)
        invariant SufficientPicks(before, supplier, items, picks, now)
      {
        if !exists k | k in inventory :: Sufficient(inventory, supplier, items[i], k) {
          inventory := before;
          return picks, false;
        }
        var key :| key in inventory && Sufficient(inventory, supplier, items[i], key);
        OneMoreSufficient(before, supplier, items, picks, key, now);
        inventory := inventory[key := inventory[key].(reserved := inventory[key].reserved + items[i].quantity, updatedAt := now)];
        picks := picks + [key];
      }
      assert items[..|items|] == items && picks[..|items|] == picks;
      return picks, true;
    }

    /**
     * Starts a field-service decision: every required part is reserved from some row of the supplier
     * that suffices when its turn comes, or nothing is.
     */
    method StartFieldService(caseId: Id, supplier: ActorId, wanted: seq<(string, Quantity)>)
      returns (r: Result<seq<RowKey>, PartsError>)
      modifies this
      ensures r.Ok? ==>
        && StartOutcome(old(State()), supplier, NewItems(wanted), r.value)
        && State() == Next(old(State()), StartField(caseId, supplier, wanted, r.value))
      ensures r.Err? ==> State() == old(State())
    {
      hide TakeAll, SufficientPicks;
      var items := NewItems(wanted);
      var picks, found := TakeAnyItems(supplier, items);
      if !found { return Err(FieldServicePartsUnavailable); }
      fieldwork := fieldwork + [Order(caseId, Some(supplier), Reserved, Placed(items, picks))];
      return Ok(picks);
    }

    /** Ends a decision in progress: its parts are used up, or given back when the work is escalated. */
    method CompleteFieldService(j: nat, completed: bool) returns (r: Result<(), PartsError>)
      modifies this
      ensures r.Ok? <==> InProgress(old(State()), j)
      ensures State() == Next(old(State()), FinishField(j, completed))
    {
      if j >= |fieldwork| || fieldwork[j].status != Reserved { return Err(FieldServiceNotInProgress); }
      var job := fieldwork[j];
      if completed {
        UseUp(job.items);
        fieldwork := fieldwork[j := job.(status := Delivered, items := WithStatus(job.items, Delivered))];
      } else {
        ReleaseItems(job.items);
        fieldwork := fieldwork[j := job.(status := Cancelled, items := WithStatus(job.items, Cancelled))];
      }
      return Ok(());
    }

    method UseUp(items: seq<Item>)
      modifies this`inventory
      ensures inventory == ConsumeAll(old(inventory), items, now)
    {
      for i := 0 to |items|
        invariant inventory == ConsumeAll(old(inventory), items[..i], now)
      {
        assert items[..i + 1][..i] == items[..i];
        if items[i].row.Some? && items[i].row.value in inventory {
          var key := items[i].row.value;
          var onHand, reserved := inventory[key].onHand - items[i].quantity, inventory[key].reserved - items[i].quantity;
          inventory := inventory[key := inventory[key].(
            onHand := if onHand >= 0 then onHand else 0, reserved := if reserved >= 0 then reserved else 0, updatedAt := now)];
        }
      }
      assert items[..|items|] == items;
    }
  }

  /** One more row that suffices, whichever it is. */
  lemma OneMoreSufficient(shelf: Shelf, supplier: ActorId, items: seq<Item>, picks: seq<RowKey>, key: RowKey, now: nat)
    requires SufficientPicks(shelf, supplier, items, picks, now) && |picks| < |items|
    requires Sufficient(ShelfBefore(shelf, items, picks, |picks|, now), supplier, items[|picks|], key)
    ensures SufficientPicks(shelf, supplier, items, picks + [key], now)
    ensures ShelfBefore(shelf, items, picks + [key], |picks| + 1, now)
         == Take(ShelfBefore(shelf, items, picks, |picks|, now), key, items[|picks|].quantity, now)
  {
    var more := picks + [key];
    forall n | 0 <= n < |more|
      ensures Sufficient(ShelfBefore(shelf, items, more, n, now), supplier, items[n], more[n])
    {
      assert more[..n] == picks[..n];
      assert ShelfBefore(shelf, items, more, n, now) == ShelfBefore(shelf, items, picks, n, now);
    }
    var n := |picks|;
    assert more[..n] == picks[..n];
    PartsProofs.ShelfStep(shelf, items, more, n, now);
  }

  lemma {:induction false} NoneLasts(shelf: Shelf, items: seq<Item>, n: nat, now: nat)
    requires n <= |items| && DeliverAll(shelf, items[..n], now).None?
    ensures DeliverAll(shelf, items, now).None?
    decreases |items| - n
  {
    if n == |items| {
      assert items[..n] == items;
    } else {
      assert items[..n + 1][..n] == items[..n];
      NoneLasts(shelf, items, n + 1, now);
    }
  }
}
