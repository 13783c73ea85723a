/** How orders move through their statuses, item by item, and in which order the stock of a part is used. */
module PartsLifecycle {
  import opened Prelude
  import opened PartsStock
  import opened PartsProofs

  /** Every status change an order can be given by its supplier. */
  const MOVES: set<(Status, Status)> := {
    (Status.Reserved, Ordered), (Status.Reserved, Cancelled), (Status.Reserved, Failed),
    (Ordered, Shipped), (Ordered, Delivered), (Ordered, Cancelled), (Ordered, Failed),
    (Shipped, Delivered), (Shipped, Failed)}

  /**
   * A status change happens exactly along the table, unless it is a delivery that the stock does not
   * cover; it moves the order and its open items, and no other order.
   */
  lemma MarkEffect(s: State, o: nat, to: Status)
    requires o < |s.orders|
    ensures
      var t := Next(s, Mark(o, to));
      var order := s.orders[o];
      var moved := (order.status, to) in MOVES && (to == Delivered ==> DeliverAll(s.shelf, order.items, s.now).Some?);
      && t.now == s.now && t.fieldwork == s.fieldwork && (!moved ==> t == s)
      && (moved ==>
        && |t.orders| == |s.orders| && (forall p :: 0 <= p < |s.orders| && p != o ==> t.orders[p] == s.orders[p])
        && t.orders[o] == order.(status := to, items := t.orders[o].items) && |t.orders[o].items| == |order.items|
        && (forall i :: 0 <= i < |order.items| ==>
          t.orders[o].items[i] == order.items[i].(status :=
            if to != Delivered && order.items[i].status in {Delivered, Cancelled, Failed} then order.items[i].status else to))
        && (to in {Ordered, Shipped} ==> t.shelf == s.shelf))
  {
  }

  /** A supplier is assigned to orders that are requested, assigned or failed, and reserving needs one of the first two. */
  lemma AssignEffect(s: State, o: nat, supplier: ActorId)
    requires o < |s.orders|
    ensures
      var t, order := Next(s, Assign(o, supplier)), s.orders[o];
      t == if order.status in {Requested, SupplierAssigned, Failed}
           then s.(orders := s.orders[o := Order(order.caseId, Some(supplier), SupplierAssigned, order.items)]) else s
    ensures CanReserve(s, o) <==> s.orders[o].supplier != None && s.orders[o].status in {Requested, SupplierAssigned}
  {
  }

  /** A declaration puts the row on the shelf, active and dated now, and leaves its reservations and every other row alone. */
  lemma DeclareEffect(s: State, key: RowKey, quantity: int)
    ensures
      var t := Next(s, Declare(key, quantity));
      && t.orders == s.orders && t.fieldwork == s.fieldwork && t.now == s.now
      && t.shelf == s.shelf[key := Stock(quantity, if key in s.shelf then s.shelf[key].reserved else 0, true, s.now)]
  {
  }

  // ---------------------------------------------------------------------------------------------
  // Orders and their items

  ghost predicate ItemsFollow(order: Order) {
    order.status in {Status.Reserved, Ordered, Shipped, Delivered, Cancelled, Failed} ==>
      forall i :: 0 <= i < |order.items| ==> order.items[i].status == order.status
  }

  lemma StepKeepsItemsFollowing(s: State, a: Action, p: nat)
    requires forall o :: 0 <= o < |s.orders| ==> ItemsFollow(s.orders[o])
    requires p < |Next(s, a).orders|
    ensures ItemsFollow(Next(s, a).orders[p])
  {
    match a
    case Mark(o, to) =>
      if o < |s.orders| {
        MarkEffect(s, o, to);
        assert ItemsFollow(s.orders[p]);
      }
    case _ =>
      if p < |s.orders| { assert ItemsFollow(s.orders[p]); }
  }

  /** In every run, from reservation on, all items of an order have the order's own status. */
  lemma {:induction false} ItemsFollowOrder(actions: seq<Action>, p: nat)
    requires p < |Run(Empty, actions).orders|
    ensures ItemsFollow(Run(Empty, actions).orders[p])
  {
    if actions != [] {
      var s := Run(Empty, actions[..|actions| - 1]);
      forall o | 0 <= o < |s.orders| ensures ItemsFollow(s.orders[o]) {
        ItemsFollowOrder(actions[..|actions| - 1], o);
      }
      StepKeepsItemsFollowing(s, actions[|actions| - 1], p);
    }
  }

  lemma EndedStays(s: State, a: Action, o: nat)
    requires o < |s.orders| && s.orders[o].status in {Delivered, Cancelled}
    ensures o < |Next(s, a).orders| && Next(s, a).orders[o] == s.orders[o]
  {
    if a.Mark? && a.order < |s.orders| { MarkEffect(s, a.order, a.to); }
  }

  /** A delivered or cancelled order never changes again. */
  lemma {:induction false} EndedForever(s: State, actions: seq<Action>, o: nat)
    requires o < |s.orders| && s.orders[o].status in {Delivered, Cancelled}
    ensures o < |Run(s, actions).orders| && Run(s, actions).orders[o] == s.orders[o]
  {
    if actions != [] {
      EndedForever(s, actions[..|actions| - 1], o);
      EndedStays(Run(s, actions[..|actions| - 1]), actions[|actions| - 1], o);
    }
  }

  /** A row declared once has on hand what was declared less everything delivered from it and used up since. */
  lemma DeclaredOnce(key: RowKey, quantity: nat, actions: seq<Action>)
    requires NotDeclared(actions, key)
    ensures
      var s := Run(Next(Empty, Declare(key, quantity)), actions);
      key in s.shelf && s.shelf[key].onHand == quantity - TakenFrom(s, key) && s.shelf[key].reserved <= s.shelf[key].onHand
  {
    EmptyInv();
    StepKeepsInv(Empty, Declare(key, quantity));
    DeclareEffect(Empty, key, quantity);
    assert TakenFrom(Empty, key) == 0;
    hide Inv, Next;
    StockConserved(Next(Empty, Declare(key, quantity)), actions, key);
  }

  // ---------------------------------------------------------------------------------------------
  // Which row is used first

  /** A row that the picks do not name is untouched; one that they name was updated now. */
  lemma {:induction false} RowsSoFar(shelf: Shelf, items: seq<Item>, picks: seq<RowKey>, now: nat, n: nat, k: RowKey)
    requires n <= |items| && n <= |picks| && k in shelf
    ensures k in ShelfBefore(shelf, items, picks, n, now)
    ensures k !in picks[..n] ==> ShelfBefore(shelf, items, picks, n, now)[k] == shelf[k]
    ensures k in picks[..n] ==> ShelfBefore(shelf, items, picks, n, now)[k].updatedAt == now
  {
    if n == 0 {
      NothingTaken(shelf, items, picks, now, k.sku);
    } else {
      hide ShelfBefore, TakeAll;
      RowsSoFar(shelf, items, picks, now, n - 1, k);
      ShelfStep(shelf, items, picks, n - 1, now);
      assert picks[..n] == picks[..n - 1] + [picks[n - 1]];
    }
  }

  /** Each pick is the row that has gone longest without an update among the rows that have enough. */
  lemma PickIsOldest(shelf: Shelf, supplier: ActorId, items: seq<Item>, picks: seq<RowKey>, now: nat, n: nat, k: RowKey)
    requires OldestPicks(shelf, supplier, items, picks, now) && n < |picks|
    requires
      var before := ShelfBefore(shelf, items, picks, n, now);
      && k in before && k.supplier == supplier && k.sku == items[n].sku && before[k].active
      && before[k].onHand - before[k].reserved >= items[n].quantity
    ensures
      var before := ShelfBefore(shelf, items, picks, n, now);
      picks[n] in before && before[picks[n]].updatedAt <= before[k].updatedAt
  {
    hide ShelfBefore;
    var before := ShelfBefore(shelf, items, picks, n, now);
    assert OldestSufficient(before, supplier, items[n], picks[n]);
    assert Sufficient(before, supplier, items[n], k);
  }

  /**
   * Stock rotates: an order goes back to a row it has taken from already only when every row it has not
   * touched and that has enough was itself updated at this very moment.
   */
  lemma UntouchedRowsGoFirst(shelf: Shelf, supplier: ActorId, items: seq<Item>, picks: seq<RowKey>, now: nat, m: nat, n: nat, k: RowKey)
    requires OldestPicks(shelf, supplier, items, picks, now) && m < n < |picks| && picks[m] == picks[n]
    requires k in shelf && k !in picks[..n] && k.supplier == supplier && k.sku == items[n].sku && shelf[k].active
    requires shelf[k].onHand - shelf[k].reserved >= items[n].quantity
    ensures shelf[k].updatedAt >= now
  {
    RowsSoFar(shelf, items, picks, now, n, k);
    PickIsOldest(shelf, supplier, items, picks, now, n, k);
    OldestAreSufficient(shelf, supplier, items, picks, now);
    PicksOnShelf(shelf, supplier, items, picks, now);
    RowsSoFar(shelf, items, picks, now, n, picks[n]);
    assert picks[..n][m] == picks[n];
  }
}
