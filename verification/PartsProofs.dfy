/** What the parts transactions keep: eligibility implies reservation, and stock is conserved. */
module PartsProofs {
  import opened Prelude
  import opened PartsStock

  // ---------------------------------------------------------------------------------------------
  // Eligibility and reservation agree

  lemma {:induction false} WantedGrows(items: seq<Item>, n: nat, sku: string)
    requires n < |items|
    ensures Wanted(items[..n + 1], sku) == Wanted(items[..n], sku) + if items[n].sku == sku then items[n].quantity else 0
    ensures Wanted(items[..n + 1], sku) <= Wanted(items, sku)
    decreases |items| - n
  {
    assert items[..n + 1][..n] == items[..n];
    if n + 1 == |items| {
      assert items[..n + 1] == items;
    } else {
      WantedGrows(items, n + 1, sku);
    }
  }

  lemma NothingTaken(shelf: Shelf, items: seq<Item>, picks: seq<RowKey>, now: nat, sku: string)
    ensures ShelfBefore(shelf, items, picks, 0, now) == shelf && Wanted(items[..0], sku) == 0
  {
  }

  lemma ShelfStep(shelf: Shelf, items: seq<Item>, picks: seq<RowKey>, n: nat, now: nat)
    requires n < |items| && n < |picks|
    ensures ShelfBefore(shelf, items, picks, n + 1, now)
         == Take(ShelfBefore(shelf, items, picks, n, now), picks[n], items[n].quantity, now)
  {
    assert items[..n + 1][..n] == items[..n] && picks[..n + 1][..n] == picks[..n];
  }

  /** After any sufficient picks, a row that covered the whole order still covers what is left. */
  lemma {:induction false} CoverLasts(shelf: Shelf, supplier: ActorId, items: seq<Item>, picks: seq<RowKey>, now: nat, sku: string, key: RowKey, n: nat)
    requires SufficientPicks(shelf, supplier, items, picks, now) && n <= |picks|
    requires Fulfils(shelf, supplier, items, sku, key)
    ensures key in ShelfBefore(shelf, items, picks, n, now)
    ensures ShelfBefore(shelf, items, picks, n, now)[key].active
    ensures Available(ShelfBefore(shelf, items, picks, n, now)[key]) >= Wanted(items, sku) - Wanted(items[..n], sku)
  {
    if n == 0 {
      NothingTaken(shelf, items, picks, now, sku);
    } else {
      hide ShelfBefore, Wanted;
      CoverLasts(shelf, supplier, items, picks, now, sku, key, n - 1);
      WantedGrows(items, n - 1, sku);
      ShelfStep(shelf, items, picks, n - 1, now);
      assert Sufficient(ShelfBefore(shelf, items, picks, n - 1, now), supplier, items[n - 1], picks[n - 1]);
    }
  }

  /** The reservation loop never gets stuck on stock that made the supplier eligible. */
  lemma EligibleNeverStuck(shelf: Shelf, supplier: ActorId, items: seq<Item>, picks: seq<RowKey>, now: nat)
    requires Eligible(shelf, supplier, items)
    requires SufficientPicks(shelf, supplier, items, picks, now) && |picks| < |items|
    ensures exists key :: Sufficient(ShelfBefore(shelf, items, picks, |picks|, now), supplier, items[|picks|], key)
  {
    var n := |picks|;
    assert HasFulfillingRow(shelf, supplier, items, items[n].sku);
    var key :| key in shelf && Fulfils(shelf, supplier, items, items[n].sku, key);
    CoverLasts(shelf, supplier, items, picks, now, items[n].sku, key, n);
    WantedGrows(items, n, items[n].sku);
    assert Sufficient(ShelfBefore(shelf, items, picks, n, now), supplier, items[n], key);
  }

  /** A finite shelf with a sufficient row has an oldest sufficient row. */
  lemma {:induction false} OldestExists(shelf: Shelf, supplier: ActorId, item: Item, key: RowKey)
    requires Sufficient(shelf, supplier, item, key)
    ensures exists k :: k in shelf && OldestSufficient(shelf, supplier, item, k)
    decreases shelf[key].updatedAt
  {
    if !OldestSufficient(shelf, supplier, item, key) {
      var k :| k in shelf && Sufficient(shelf, supplier, item, k) && shelf[k].updatedAt < shelf[key].updatedAt;
      OldestExists(shelf, supplier, item, k);
    }
  }

  /** The picks of the source's row order are among the picks the eligibility theorem covers. */
  lemma OldestAreSufficient(shelf: Shelf, supplier: ActorId, items: seq<Item>, picks: seq<RowKey>, now: nat)
    requires OldestPicks(shelf, supplier, items, picks, now)
    ensures SufficientPicks(shelf, supplier, items, picks, now)
  {
    forall n | 0 <= n < |picks|
      ensures Sufficient(ShelfBefore(shelf, items, picks, n, now), supplier, items[n], picks[n])
    {
      assert OldestSufficient(ShelfBefore(shelf, items, picks, n, now), supplier, items[n], picks[n]);
    }
  }

  lemma OneMorePick(shelf: Shelf, supplier: ActorId, items: seq<Item>, picks: seq<RowKey>, key: RowKey, now: nat)
    requires OldestPicks(shelf, supplier, items, picks, now) && |picks| < |items|
    requires OldestSufficient(ShelfBefore(shelf, items, picks, |picks|, now), supplier, items[|picks|], key)
    ensures OldestPicks(shelf, supplier, items, picks + [key], now)
    ensures ShelfBefore(shelf, items, picks + [key], |picks| + 1, now)
         == Take(ShelfBefore(shelf, items, picks, |picks|, now), key, items[|picks|].quantity, now)
  {
    var more := picks + [key];
    forall n | 0 <= n < |more|
      ensures OldestSufficient(ShelfBefore(shelf, items, more, n, now), supplier, items[n], more[n])
    {
      assert more[..n] == picks[..n];
      assert ShelfBefore(shelf, items, more, n, now) == ShelfBefore(shelf, items, picks, n, now);
    }
    var n := |picks|;
    assert items[..n + 1][..n] == items[..n] && more[..n + 1][..n] == picks[..n];
  }

  // ---------------------------------------------------------------------------------------------
  // Sums over items and orders

  lemma {:induction false} HeldUpdate(orders: seq<Order>, o: nat, order: Order, key: RowKey)
    requires o < |orders|
    ensures Held(orders[o := order], key) == Held(orders, key) - HeldBy(orders[o].items, key) + HeldBy(order.items, key)
    ensures DeliveredFrom(orders[o := order], key)
         == DeliveredFrom(orders, key) - DeliveredBy(orders[o].items, key) + DeliveredBy(order.items, key)
  {
    var n := |orders| - 1;
    if o == n {
      assert orders[o := order][..n] == orders[..n];
    } else {
      HeldUpdate(orders[..n], o, order, key);
      assert orders[o := order][..n] == orders[..n][o := order];
    }
  }

  lemma {:induction false} HeldCoversOrder(orders: seq<Order>, o: nat, key: RowKey)
    requires o < |orders|
    ensures HeldBy(orders[o].items, key) <= Held(orders, key)
  {
    if o < |orders| - 1 { HeldCoversOrder(orders[..|orders| - 1], o, key); }
  }

  lemma {:induction false} NothingHeld(items: seq<Item>, key: RowKey)
    requires forall i :: 0 <= i < |items| ==> !Live(items[i].status)
    ensures HeldBy(items, key) == 0
  {
    if items != [] { NothingHeld(items[..|items| - 1], key); }
  }

  lemma {:induction false} NothingDelivered(items: seq<Item>, key: RowKey)
    requires forall i :: 0 <= i < |items| ==> items[i].status != Delivered
    ensures DeliveredBy(items, key) == 0
  {
    if items != [] { NothingDelivered(items[..|items| - 1], key); }
  }

  /** Items that differ only in which live status they have hold the same. */
  lemma {:induction false} HeldSame(items: seq<Item>, moved: seq<Item>, key: RowKey)
    requires |items| == |moved|
    requires forall i :: 0 <= i < |items| ==>
      Live(items[i].status) && Live(moved[i].status) && items[i].row == moved[i].row && items[i].quantity == moved[i].quantity
    ensures HeldBy(items, key) == HeldBy(moved, key)
  {
    if items != [] { HeldSame(items[..|items| - 1], moved[..|items| - 1], key); }
  }

  lemma {:induction false} DeliveredIsHeld(items: seq<Item>, moved: seq<Item>, key: RowKey)
    requires |items| == |moved|
    requires forall i :: 0 <= i < |items| ==>
      Live(items[i].status) && moved[i].status == Delivered && items[i].row == moved[i].row && items[i].quantity == moved[i].quantity
    ensures HeldBy(items, key) == DeliveredBy(moved, key)
  {
    if items != [] { DeliveredIsHeld(items[..|items| - 1], moved[..|items| - 1], key); }
  }

  lemma {:induction false} HeldPrefix(items: seq<Item>, n: nat, key: RowKey)
    requires n < |items|
    ensures HeldBy(items[..n + 1], key)
         == HeldBy(items[..n], key) + if Live(items[n].status) && items[n].row == Some(key) then items[n].quantity else 0
    ensures HeldBy(items[..n + 1], key) <= HeldBy(items, key)
    decreases |items| - n
  {
    assert items[..n + 1][..n] == items[..n];
    if n + 1 == |items| {
      assert items[..n + 1] == items;
    } else {
      HeldPrefix(items, n + 1, key);
    }
  }

  // ---------------------------------------------------------------------------------------------
  // The three loops, row by row

  /** Reserving adds to each row exactly what the placed items then hold on it. */
  lemma {:induction false} TakeAllHolds(shelf: Shelf, items: seq<Item>, picks: seq<RowKey>, now: nat, key: RowKey)
    requires |items| == |picks| && key in shelf
    ensures TakeAll(shelf, items, picks, now).Keys == shelf.Keys
    ensures TakeAll(shelf, items, picks, now)[key].onHand == shelf[key].onHand
    ensures TakeAll(shelf, items, picks, now)[key].active == shelf[key].active
    ensures TakeAll(shelf, items, picks, now)[key].reserved == shelf[key].reserved + HeldBy(Placed(items, picks), key)
  {
    if items != [] {
      var n := |items| - 1;
      TakeAllHolds(shelf, items[..n], picks[..n], now, key);
      assert Placed(items, picks)[..n] == Placed(items[..n], picks[..n]);
    }
  }

  lemma {:induction false} TakeAllKeepsCover(shelf: Shelf, supplier: ActorId, items: seq<Item>, picks: seq<RowKey>, now: nat, n: nat, key: RowKey)
    requires SufficientPicks(shelf, supplier, items, picks, now) && n <= |picks|
    requires key in shelf && shelf[key].reserved <= shelf[key].onHand
    ensures ShelfBefore(shelf, items, picks, n, now).Keys == shelf.Keys
    ensures ShelfBefore(shelf, items, picks, n, now)[key].reserved <= ShelfBefore(shelf, items, picks, n, now)[key].onHand
  {
    if n > 0 {
      TakeAllKeepsCover(shelf, supplier, items, picks, now, n - 1, key);
      assert items[..n][..n - 1] == items[..n - 1] && picks[..n][..n - 1] == picks[..n - 1];
      assert Sufficient(ShelfBefore(shelf, items, picks, n - 1, now), supplier, items[n - 1], picks[n - 1]);
    }
  }

  /** Released stock: as long as a row's reserved count covers the items, the clamp subtracts exactly. */
  lemma {:induction false} ReleaseAllExact(shelf: Shelf, items: seq<Item>, now: nat, key: RowKey)
    requires key in shelf && HeldBy(items, key) <= shelf[key].reserved
    ensures ReleaseAll(shelf, items, now).Keys == shelf.Keys
    ensures ReleaseAll(shelf, items, now)[key].onHand == shelf[key].onHand
    ensures ReleaseAll(shelf, items, now)[key].reserved == shelf[key].reserved - HeldBy(items, key)
  {
    if items != [] { ReleaseAllExact(shelf, items[..|items| - 1], now, key); }
  }

  ghost predicate AllLive(items: seq<Item>) {
    forall i :: 0 <= i < |items| ==> Live(items[i].status) && items[i].row.Some?
  }

  /** The delivery loop subtracts what the items hold from both counters of every row. */
  lemma {:induction false} DeliverAllExact(shelf: Shelf, items: seq<Item>, now: nat, key: RowKey)
    requires AllLive(items) && DeliverAll(shelf, items, now).Some? && key in shelf
    ensures DeliverAll(shelf, items, now).value.Keys == shelf.Keys
    ensures DeliverAll(shelf, items, now).value[key].onHand == shelf[key].onHand - HeldBy(items, key)
    ensures DeliverAll(shelf, items, now).value[key].reserved == shelf[key].reserved - HeldBy(items, key)
    ensures HeldBy(items, key) > 0 ==> HeldBy(items, key) <= shelf[key].onHand && HeldBy(items, key) <= shelf[key].reserved
  {
    if items != [] { DeliverAllExact(shelf, items[..|items| - 1], now, key); }
  }

  /** Enough of everything makes the delivery loop run to its end. */
  lemma {:induction false} DeliverAllSucceeds(shelf: Shelf, items: seq<Item>, now: nat, n: nat)
    requires AllLive(items) && n <= |items|
    requires forall i :: 0 <= i < |items| ==> items[i].row.value in shelf
    requires forall key :: key in shelf ==> HeldBy(items, key) == 0 || (HeldBy(items, key) <= shelf[key].onHand && HeldBy(items, key) <= shelf[key].reserved)
    ensures DeliverAll(shelf, items[..n], now).Some?
  {
    if n > 0 {
      DeliverAllSucceeds(shelf, items, now, n - 1);
      var key := items[n - 1].row.value;
      assert items[..n][..n - 1] == items[..n - 1];
      DeliverAllExact(shelf, items[..n - 1], now, key);
      HeldPrefix(items, n - 1, key);
    }
  }

  // ---------------------------------------------------------------------------------------------
  // The invariant

  lemma CreateKeepsInv(s: State, c: Id, wanted: seq<(string, Quantity)>)
    requires Inv(s)
    ensures Inv(Next(s, Create(c, wanted)))
  {
    var t := Next(s, Create(c, wanted));
    assert t.orders[..|s.orders|] == s.orders;
    forall key | key in t.shelf ensures Held(t.orders, key) == Held(s.orders, key) {
      NothingHeld(NewItems(wanted), key);
    }
  }

  lemma AssignKeepsInv(s: State, o: nat, supplier: ActorId)
    requires Inv(s) && o < |s.orders| && Assignable(s.orders[o].status)
    ensures Inv(Next(s, Assign(o, supplier)))
  {
    var t := Next(s, Assign(o, supplier));
    assert OrderConsistent(s.shelf, s.orders[o]);
    ReplaceKeepsInv(s, o, t.orders[o], s.shelf);
  }

  lemma DeclareKeepsInv(s: State, key: RowKey, quantity: int)
    requires Inv(s)
    ensures Inv(Next(s, Declare(key, quantity)))
  {
    hide OrderConsistent;
    if key !in s.shelf {
      RowUnused(s.shelf, s.orders, key);
      RowUnused(s.shelf, s.fieldwork, key);
    }
    ConsistentOnSameRows(s.shelf, Next(s, Declare(key, quantity)).shelf, s.orders);
    ConsistentOnSameRows(s.shelf, Next(s, Declare(key, quantity)).shelf, s.fieldwork);
  }

  lemma StepKeepsInv(s: State, a: Action)
    requires Inv(s)
    ensures Inv(Next(s, a))
    ensures s.shelf.Keys <= Next(s, a).shelf.Keys
  {
    hide Inv, TakeAll, MarkOutcome, FinishOutcome, ReserveOutcome, StartOutcome, Placed;
    match a
    case Create(c, wanted) => CreateKeepsInv(s, c, wanted);
    case Assign(o, supplier) => if o < |s.orders| && Assignable(s.orders[o].status) { AssignKeepsInv(s, o, supplier); }
    case Reserve(o, picks) => if ReserveOutcome(s, o, picks) { ReserveKeepsInv(s, o, picks); }
    case Mark(o, to) => if o < |s.orders| && Allowed(s.orders[o].status, to) { MarkKeepsInv(s, o, to); }
    case Declare(key, quantity) => DeclareKeepsInv(s, key, quantity);
    case StartField(c, supplier, wanted, picks) =>
      if StartOutcome(s, supplier, NewItems(wanted), picks) { StartKeepsInv(s, c, supplier, wanted, picks); }
    case FinishField(j, completed) => if InProgress(s, j) { FinishKeepsInv(s, j, completed); }
    case Tick(d) => TickKeepsInv(s, d);
  }

  lemma TickKeepsInv(s: State, d: nat)
    requires Inv(s)
    ensures Inv(Next(s, Tick(d)))
  {
  }

  /** A row that does not exist yet is held by nobody. */
  lemma {:induction false} RowUnused(shelf: Shelf, orders: seq<Order>, key: RowKey)
    requires AllConsistent(shelf, orders)
    requires key !in shelf
    ensures Held(orders, key) == 0
  {
    if orders != [] {
      RowUnused(shelf, orders[..|orders| - 1], key);
      var last := orders[|orders| - 1];
      if Live(last.status) {
        NoItemOn(last.items, key);
      } else {
        NothingHeld(last.items, key);
      }
    }
  }

  lemma {:induction false} NoItemOn(items: seq<Item>, key: RowKey)
    requires forall i :: 0 <= i < |items| ==> items[i].row != Some(key)
    ensures HeldBy(items, key) == 0
  {
    if items != [] { NoItemOn(items[..|items| - 1], key); }
  }

  /** An order stays consistent while the shelf keeps its rows. */
  lemma ConsistentOnSameRows(before: Shelf, after: Shelf, orders: seq<Order>)
    requires before.Keys <= after.Keys
    requires AllConsistent(before, orders)
    ensures AllConsistent(after, orders)
  {
    forall o | 0 <= o < |orders| ensures OrderConsistent(after, orders[o]) {
      assert OrderConsistent(before, orders[o]);
    }
  }

  /** Replacing one order by a consistent one, with the rows changed accordingly, keeps the invariant. */
  lemma ReplaceKeepsInv(s: State, o: nat, order: Order, shelf: Shelf)
    requires Inv(s) && o < |s.orders| && shelf.Keys == s.shelf.Keys
    requires OrderConsistent(shelf, order)
    requires forall key :: key in shelf ==>
      shelf[key].reserved == s.shelf[key].reserved - HeldBy(s.orders[o].items, key) + HeldBy(order.items, key)
    ensures Inv(s.(shelf := shelf, orders := s.orders[o := order]))
  {
    hide OrderConsistent;
    ConsistentOnSameRows(s.shelf, shelf, s.orders);
    ConsistentOnSameRows(s.shelf, shelf, s.fieldwork);
    forall key | key in shelf ensures Held(s.orders[o := order], key) + Held(s.fieldwork, key) == shelf[key].reserved {
      HeldUpdate(s.orders, o, order, key);
    }
  }

  /** The same for a decision of field service. */
  lemma ReplaceFieldKeepsInv(s: State, j: nat, job: Order, shelf: Shelf)
    requires Inv(s) && j < |s.fieldwork| && shelf.Keys == s.shelf.Keys
    requires OrderConsistent(shelf, job)
    requires forall key :: key in shelf ==>
      shelf[key].reserved == s.shelf[key].reserved - HeldBy(s.fieldwork[j].items, key) + HeldBy(job.items, key)
    ensures Inv(s.(shelf := shelf, fieldwork := s.fieldwork[j := job]))
  {
    hide OrderConsistent;
    ConsistentOnSameRows(s.shelf, shelf, s.orders);
    ConsistentOnSameRows(s.shelf, shelf, s.fieldwork);
    forall key | key in shelf ensures Held(s.orders, key) + Held(s.fieldwork[j := job], key) == shelf[key].reserved {
      HeldUpdate(s.fieldwork, j, job, key);
    }
  }

  lemma StartedConsistent(shelf: Shelf, c: Id, supplier: ActorId, items: seq<Item>, picks: seq<RowKey>, now: nat)
    requires |picks| == |items| && SufficientPicks(shelf, supplier, items, picks, now)
    ensures OrderConsistent(TakeAll(shelf, items, picks, now), Order(c, Some(supplier), Reserved, Placed(items, picks)))
  {
    PicksOnShelf(shelf, supplier, items, picks, now);
    TakeAllKeys(shelf, items, picks, now);
    hide TakeAll, SufficientPicks;
  }

  lemma StartKeepsInv(s: State, c: Id, supplier: ActorId, wanted: seq<(string, Quantity)>, picks: seq<RowKey>)
    requires Inv(s) && StartOutcome(s, supplier, NewItems(wanted), picks)
    ensures Inv(Next(s, StartField(c, supplier, wanted, picks)))
    ensures Next(s, StartField(c, supplier, wanted, picks)).shelf.Keys == s.shelf.Keys
  {
    hide TakeAll, HeldBy, Held, SufficientPicks, OrderConsistent;
    var items := NewItems(wanted);
    var shelf := TakeAll(s.shelf, items, picks, s.now);
    var job := Order(c, Some(supplier), Reserved, Placed(items, picks));
    TakeAllKeys(s.shelf, items, picks, s.now);
    StartedConsistent(s.shelf, c, supplier, items, picks, s.now);
    ConsistentOnSameRows(s.shelf, shelf, s.orders);
    ConsistentOnSameRows(s.shelf, shelf, s.fieldwork);
    forall key | key in shelf ensures Held(s.orders, key) + Held(s.fieldwork + [job], key) == shelf[key].reserved {
      TakeAllHolds(s.shelf, items, picks, s.now, key);
      HeldPush(s.fieldwork, job, key);
    }
  }

  lemma HeldPush(orders: seq<Order>, order: Order, key: RowKey)
    ensures Held(orders + [order], key) == Held(orders, key) + HeldBy(order.items, key)
    ensures DeliveredFrom(orders + [order], key) == DeliveredFrom(orders, key) + DeliveredBy(order.items, key)
  {
    assert (orders + [order])[..|orders|] == orders;
  }

  /** Using up stock: exact on the reserved counter, and on hand down to zero at most. */
  lemma {:induction false} ConsumeAllExact(shelf: Shelf, items: seq<Item>, now: nat, key: RowKey)
    requires AllLive(items) && key in shelf && HeldBy(items, key) <= shelf[key].reserved
    ensures ConsumeAll(shelf, items, now).Keys == shelf.Keys
    ensures ConsumeAll(shelf, items, now)[key].reserved == shelf[key].reserved - HeldBy(items, key)
    ensures ConsumeAll(shelf, items, now)[key].onHand
         == if HeldBy(items, key) == 0 then shelf[key].onHand else Max(shelf[key].onHand - HeldBy(items, key), 0)
  {
    if items != [] { ConsumeAllExact(shelf, items[..|items| - 1], now, key); }
  }

  lemma {:induction false} ConsumeAllKeys(shelf: Shelf, items: seq<Item>, now: nat)
    ensures ConsumeAll(shelf, items, now).Keys == shelf.Keys
  {
    if items != [] { ConsumeAllKeys(shelf, items[..|items| - 1], now); }
  }

  /** A decision in progress holds no more on a row than the row has promised. */
  lemma FieldHeld(s: State, j: nat, key: RowKey)
    requires Inv(s) && InProgress(s, j) && key in s.shelf
    ensures AllLive(s.fieldwork[j].items) && HeldBy(s.fieldwork[j].items, key) <= s.shelf[key].reserved
  {
    assert OrderConsistent(s.shelf, s.fieldwork[j]);
    HeldCoversOrder(s.fieldwork, j, key);
  }

  lemma FinishKeepsInv(s: State, j: nat, completed: bool)
    requires Inv(s) && InProgress(s, j)
    ensures Inv(FinishOutcome(s, j, completed))
    ensures FinishOutcome(s, j, completed).shelf.Keys == s.shelf.Keys
  {
    var items := s.fieldwork[j].items;
    var t := FinishOutcome(s, j, completed);
    var job := t.fieldwork[j];
    ReleaseAllKeys(s.shelf, items, s.now);
    ConsumeAllKeys(s.shelf, items, s.now);
    assert OrderConsistent(t.shelf, job);
    hide Inv, OrderConsistent;
    forall key | key in t.shelf
      ensures t.shelf[key].reserved == s.shelf[key].reserved - HeldBy(items, key) + HeldBy(job.items, key)
    {
      FieldHeld(s, j, key);
      ReleaseAllExact(s.shelf, items, s.now, key);
      ConsumeAllExact(s.shelf, items, s.now, key);
      NothingHeld(job.items, key);
    }
    ReplaceFieldKeepsInv(s, j, job, t.shelf);
  }

  lemma PlacedConsistent(s: State, o: nat, picks: seq<RowKey>)
    requires Inv(s) && ReserveOutcome(s, o, picks)
    ensures var order := s.orders[o].(status := Reserved, items := Placed(s.orders[o].items, picks));
      OrderConsistent(TakeAll(s.shelf, s.orders[o].items, picks, s.now), order)
    ensures forall i :: 0 <= i < |s.orders[o].items| ==> !Live(s.orders[o].items[i].status)
  {
    hide SufficientPicks, TakeAll;
    PicksOnShelf(s.shelf, s.orders[o].supplier.value, s.orders[o].items, picks, s.now);
    TakeAllKeys(s.shelf, s.orders[o].items, picks, s.now);
    assert OrderConsistent(s.shelf, s.orders[o]);
  }

  lemma ReserveKeepsInv(s: State, o: nat, picks: seq<RowKey>)
    requires Inv(s) && ReserveOutcome(s, o, picks)
    ensures Inv(Next(s, Reserve(o, picks)))
    ensures Next(s, Reserve(o, picks)).shelf.Keys == s.shelf.Keys
  {
    hide Inv, TakeAll, HeldBy, OrderConsistent, SufficientPicks;
    var items := s.orders[o].items;
    var order := s.orders[o].(status := Reserved, items := Placed(items, picks));
    var shelf := TakeAll(s.shelf, items, picks, s.now);
    TakeAllKeys(s.shelf, items, picks, s.now);
    PlacedConsistent(s, o, picks);
    forall key | key in shelf
      ensures shelf[key].reserved == s.shelf[key].reserved - HeldBy(items, key) + HeldBy(order.items, key)
    {
      TakeAllHolds(s.shelf, items, picks, s.now, key);
      NothingHeld(items, key);
    }
    ReplaceKeepsInv(s, o, order, shelf);
  }

  lemma PicksOnShelf(shelf: Shelf, supplier: ActorId, items: seq<Item>, picks: seq<RowKey>, now: nat)
    requires SufficientPicks(shelf, supplier, items, picks, now)
    ensures forall n :: 0 <= n < |picks| ==> picks[n] in shelf && picks[n].supplier == supplier && picks[n].sku == items[n].sku
  {
    forall n | 0 <= n < |picks|
      ensures picks[n] in shelf && picks[n].supplier == supplier && picks[n].sku == items[n].sku
    {
      assert Sufficient(ShelfBefore(shelf, items, picks, n, now), supplier, items[n], picks[n]);
      TakeAllKeys(shelf, items[..n], picks[..n], now);
    }
  }

  lemma {:induction false} TakeAllKeys(shelf: Shelf, items: seq<Item>, picks: seq<RowKey>, now: nat)
    requires |items| == |picks|
    ensures TakeAll(shelf, items, picks, now).Keys == shelf.Keys
  {
    if items != [] { TakeAllKeys(shelf, items[..|items| - 1], picks[..|items| - 1], now); }
  }

  lemma {:induction false} ReleaseAllKeys(shelf: Shelf, items: seq<Item>, now: nat)
    ensures ReleaseAll(shelf, items, now).Keys == shelf.Keys
  {
    if items != [] { ReleaseAllKeys(shelf, items[..|items| - 1], now); }
  }

  lemma {:induction false} DeliverAllKeys(shelf: Shelf, items: seq<Item>, now: nat)
    requires DeliverAll(shelf, items, now).Some?
    ensures DeliverAll(shelf, items, now).value.Keys == shelf.Keys
  {
    if items != [] { DeliverAllKeys(shelf, items[..|items| - 1], now); }
  }

  lemma MarkKeepsInv(s: State, o: nat, to: Status)
    requires Inv(s) && o < |s.orders| && Allowed(s.orders[o].status, to)
    ensures Inv(MarkOutcome(s, o, to))
    ensures MarkOutcome(s, o, to).shelf.Keys == s.shelf.Keys
  {
    assert OrderConsistent(s.shelf, s.orders[o]);
    if to == Cancelled || to == Failed {
      CloseKeepsInv(s, o, to);
    } else if to == Delivered {
      if DeliverAll(s.shelf, s.orders[o].items, s.now).Some? { DeliverKeepsInv(s, o); }
    } else {
      var order := s.orders[o].(status := to, items := AdvanceOpen(s.orders[o].items, to));
      forall key { HeldSame(s.orders[o].items, order.items, key); }
      ReplaceKeepsInv(s, o, order, s.shelf);
    }
  }

  lemma ClosedConsistent(shelf: Shelf, after: Shelf, order: Order, to: Status)
    requires OrderConsistent(shelf, order) && Live(order.status) && (to == Cancelled || to == Failed)
    ensures OrderConsistent(after, order.(status := to, items := AdvanceOpen(order.items, to)))
    ensures forall i :: 0 <= i < |order.items| ==> !Live(AdvanceOpen(order.items, to)[i].status)
  {
  }

  lemma CloseKeepsInv(s: State, o: nat, to: Status)
    requires Inv(s) && o < |s.orders| && Live(s.orders[o].status) && (to == Cancelled || to == Failed)
    ensures Inv(MarkOutcome(s, o, to))
    ensures MarkOutcome(s, o, to).shelf.Keys == s.shelf.Keys
  {
    hide OrderConsistent, HeldBy, ReleaseAll, Held;
    var items := s.orders[o].items;
    var order := s.orders[o].(status := to, items := AdvanceOpen(items, to));
    var shelf := ReleaseAll(s.shelf, items, s.now);
    ReleaseAllKeys(s.shelf, items, s.now);
    ClosedConsistent(s.shelf, shelf, s.orders[o], to);
    forall key | key in shelf
      ensures shelf[key].reserved == s.shelf[key].reserved - HeldBy(items, key) + HeldBy(order.items, key)
    {
      HeldCoversOrder(s.orders, o, key);
      ReleaseAllExact(s.shelf, items, s.now, key);
      NothingHeld(order.items, key);
    }
    hide Inv;
    ReplaceKeepsInv(s, o, order, shelf);
  }

  lemma DeliverKeepsInv(s: State, o: nat)
    requires Inv(s) && o < |s.orders| && Live(s.orders[o].status)
    requires DeliverAll(s.shelf, s.orders[o].items, s.now).Some?
    ensures Inv(MarkOutcome(s, o, Delivered))
    ensures MarkOutcome(s, o, Delivered).shelf.Keys == s.shelf.Keys
  {
    var items := s.orders[o].items;
    var order := s.orders[o].(status := Delivered, items := WithStatus(items, Delivered));
    var shelf := DeliverAll(s.shelf, items, s.now).value;
    assert OrderConsistent(s.shelf, s.orders[o]);
    DeliverAllKeys(s.shelf, items, s.now);
    forall key | key in shelf
      ensures shelf[key].reserved == s.shelf[key].reserved - HeldBy(items, key) + HeldBy(order.items, key)
    {
      DeliverAllExact(s.shelf, items, s.now, key);
      NothingHeld(order.items, key);
    }
    ReplaceKeepsInv(s, o, order, shelf);
  }

  /** Every run keeps each row's reserved count equal to what live items hold on it. */
  lemma {:induction false} RunKeepsInv(s: State, actions: seq<Action>)
    requires Inv(s)
    ensures Inv(Run(s, actions))
  {
    if actions != [] {
      RunKeepsInv(s, actions[..|actions| - 1]);
      StepKeepsInv(Run(s, actions[..|actions| - 1]), actions[|actions| - 1]);
    }
  }

  /** In every run of both services: what a row has promised is what live order items and decisions in progress hold on it. */
  lemma ReservedEqualsHeld(actions: seq<Action>, key: RowKey)
    requires key in Run(Empty, actions).shelf
    ensures Run(Empty, actions).shelf[key].reserved
         == Held(Run(Empty, actions).orders, key) + Held(Run(Empty, actions).fieldwork, key)
  {
    RunKeepsInv(Empty, actions);
  }

  /** In every reachable state, cancelling or failing any order releases item by item without the clamp. */
  lemma ClampNeverFires(actions: seq<Action>, o: nat, n: nat)
    requires o < |Run(Empty, actions).orders|
    requires n < |Run(Empty, actions).orders[o].items|
    requires Live(Run(Empty, actions).orders[o].items[n].status)
    ensures
      var s := Run(Empty, actions);
      var item := s.orders[o].items[n];
      && item.row.Some?
      && item.row.value in ReleaseAll(s.shelf, s.orders[o].items[..n], s.now)
      && ReleaseAll(s.shelf, s.orders[o].items[..n], s.now)[item.row.value].reserved >= item.quantity
  {
    RunKeepsInv(Empty, actions);
    var s := Run(Empty, actions);
    var items := s.orders[o].items;
    assert OrderConsistent(s.shelf, s.orders[o]);
    var key := items[n].row.value;
    HeldPrefix(items, n, key);
    HeldCoversOrder(s.orders, o, key);
    ReleaseAllExact(s.shelf, items[..n], s.now, key);
  }

  /**
   * Completing a decision: the clamp on the reserved counter never matters, and the one on the shelf
   * matters exactly when the row has less on hand than the decision holds on it.
   */
  lemma FieldClampCondition(actions: seq<Action>, j: nat, key: RowKey)
    requires InProgress(Run(Empty, actions), j) && key in Run(Empty, actions).shelf
    requires HeldBy(Run(Empty, actions).fieldwork[j].items, key) > 0
    ensures
      var s := Run(Empty, actions);
      var held := HeldBy(s.fieldwork[j].items, key);
      var t := Next(s, FinishField(j, true));
      && key in t.shelf && t.shelf[key].reserved == s.shelf[key].reserved - held
      && (t.shelf[key].onHand == s.shelf[key].onHand - held <==> held <= s.shelf[key].onHand)
  {
    hide Run, Inv, ConsumeAll, HeldBy, OrderConsistent;
    EmptyInv();
    RunKeepsInv(Empty, actions);
    var s := Run(Empty, actions);
    FieldHeld(s, j, key);
    ConsumeAllExact(s.shelf, s.fieldwork[j].items, s.now, key);
  }

  lemma EmptyInv()
    ensures Inv(Empty)
  {
  }

  /** Delivery passes its guard exactly when every row still has on hand what the order holds on it. */
  lemma DeliveryCondition(s: State, o: nat)
    requires Inv(s) && o < |s.orders| && Allowed(s.orders[o].status, Delivered)
    ensures DeliverAll(s.shelf, s.orders[o].items, s.now).Some?
       <==> forall key :: key in s.shelf && HeldBy(s.orders[o].items, key) > 0 ==> HeldBy(s.orders[o].items, key) <= s.shelf[key].onHand
  {
    var items := s.orders[o].items;
    assert OrderConsistent(s.shelf, s.orders[o]);
    if DeliverAll(s.shelf, items, s.now).Some? {
      forall key | key in s.shelf && HeldBy(items, key) > 0 ensures HeldBy(items, key) <= s.shelf[key].onHand {
        DeliverAllExact(s.shelf, items, s.now, key);
      }
    }
    if forall key :: key in s.shelf && HeldBy(items, key) > 0 ==> HeldBy(items, key) <= s.shelf[key].onHand {
      forall key | key in s.shelf ensures HeldBy(items, key) <= s.shelf[key].reserved {
        HeldCoversOrder(s.orders, o, key);
      }
      DeliverAllSucceeds(s.shelf, items, s.now, |items|);
      assert items[..|items|] == items;
    }
  }

  /** A row that has not promised more than it has stays so while it is not declared anew. */
  lemma StepKeepsRowCovered(s: State, a: Action, key: RowKey)
    requires Inv(s) && key in s.shelf && s.shelf[key].reserved <= s.shelf[key].onHand
    requires !(a.Declare? && a.key == key)
    ensures key in Next(s, a).shelf && Next(s, a).shelf[key].reserved <= Next(s, a).shelf[key].onHand
  {
    hide Inv, MarkOutcome, FinishOutcome, TakeAll;
    match a
    case Reserve(o, picks) =>
      if ReserveOutcome(s, o, picks) {
        var order := s.orders[o];
        TakeCovered(s.shelf, order.supplier.value, order.items, picks, s.now, key);
      }
    case Mark(o, to) =>
      if o < |s.orders| && Allowed(s.orders[o].status, to) { MarkKeepsCovered(s, o, to, key); }
    case StartField(c, supplier, wanted, picks) =>
      if StartOutcome(s, supplier, NewItems(wanted), picks) {
        TakeCovered(s.shelf, supplier, NewItems(wanted), picks, s.now, key);
      }
    case FinishField(j, completed) => if InProgress(s, j) { FinishKeepsCovered(s, j, completed, key); }
    case _ =>
  }

  lemma TakeCovered(shelf: Shelf, supplier: ActorId, items: seq<Item>, picks: seq<RowKey>, now: nat, key: RowKey)
    requires |picks| == |items| && SufficientPicks(shelf, supplier, items, picks, now)
    requires key in shelf && shelf[key].reserved <= shelf[key].onHand
    ensures key in TakeAll(shelf, items, picks, now)
    ensures TakeAll(shelf, items, picks, now)[key].reserved <= TakeAll(shelf, items, picks, now)[key].onHand
  {
    TakeAllKeepsCover(shelf, supplier, items, picks, now, |picks|, key);
    assert items[..|picks|] == items && picks[..|picks|] == picks;
  }

  lemma FinishKeepsCovered(s: State, j: nat, completed: bool, key: RowKey)
    requires Inv(s) && InProgress(s, j) && key in s.shelf && s.shelf[key].reserved <= s.shelf[key].onHand
    ensures key in FinishOutcome(s, j, completed).shelf
    ensures FinishOutcome(s, j, completed).shelf[key].reserved <= FinishOutcome(s, j, completed).shelf[key].onHand
  {
    var items := s.fieldwork[j].items;
    FieldHeld(s, j, key);
    ConsumeAllExact(s.shelf, items, s.now, key);
    ReleaseAllExact(s.shelf, items, s.now, key);
  }

  lemma StepKeepsCovered(s: State, a: Action)
    requires Inv(s) && Covered(s)
    requires a.Declare? ==> a.key !in s.shelf && a.quantity >= 0
    ensures Covered(Next(s, a))
  {
    var t := Next(s, a);
    StepKeepsKeys(s, a);
    hide Inv, MarkOutcome, FinishOutcome, TakeAll;
    forall key | key in t.shelf ensures t.shelf[key].reserved <= t.shelf[key].onHand {
      if key in s.shelf { StepKeepsRowCovered(s, a, key); }
    }
  }

  /** Only a declaration adds a row. */
  lemma StepKeepsKeys(s: State, a: Action)
    requires Inv(s)
    ensures Next(s, a).shelf.Keys == if a.Declare? then s.shelf.Keys + {a.key} else s.shelf.Keys
  {
    hide Inv, MarkOutcome, FinishOutcome;
    match a
    case Reserve(o, picks) => if ReserveOutcome(s, o, picks) { ReserveKeepsInv(s, o, picks); }
    case Mark(o, to) => if o < |s.orders| && Allowed(s.orders[o].status, to) { MarkKeepsInv(s, o, to); }
    case StartField(c, supplier, wanted, picks) =>
      if StartOutcome(s, supplier, NewItems(wanted), picks) { StartKeepsInv(s, c, supplier, wanted, picks); }
    case FinishField(j, completed) => if InProgress(s, j) { FinishKeepsInv(s, j, completed); }
    case _ =>
  }

  lemma MarkKeepsCovered(s: State, o: nat, to: Status, key: RowKey)
    requires Inv(s) && o < |s.orders| && Allowed(s.orders[o].status, to)
    requires key in s.shelf && s.shelf[key].reserved <= s.shelf[key].onHand
    ensures key in MarkOutcome(s, o, to).shelf
    ensures MarkOutcome(s, o, to).shelf[key].reserved <= MarkOutcome(s, o, to).shelf[key].onHand
  {
    var items := s.orders[o].items;
    assert OrderConsistent(s.shelf, s.orders[o]);
    HeldCoversOrder(s.orders, o, key);
    ReleaseAllExact(s.shelf, items, s.now, key);
    if DeliverAll(s.shelf, items, s.now).Some? { DeliverAllExact(s.shelf, items, s.now, key); }
  }

  lemma NoRedeclarationBefore(s: State, actions: seq<Action>)
    requires NoRedeclaration(s, actions) && actions != []
    ensures NoRedeclaration(s, actions[..|actions| - 1])
    ensures var last := actions[|actions| - 1];
      last.Declare? ==> last.key !in Run(s, actions[..|actions| - 1]).shelf && last.quantity >= 0
  {
    hide Run;
    var front := actions[..|actions| - 1];
    forall i | 0 <= i < |front| ensures front[..i] == actions[..i] && front[i] == actions[i] { }
  }

  lemma {:induction false} RunKeepsCovered(s: State, actions: seq<Action>)
    requires Inv(s) && Covered(s) && NoRedeclaration(s, actions)
    ensures Inv(Run(s, actions)) && Covered(Run(s, actions))
  {
    if actions != [] {
      hide Inv, Covered, Next, NoRedeclaration;
      var front := actions[..|actions| - 1];
      NoRedeclarationBefore(s, actions);
      RunKeepsCovered(s, front);
      StepKeepsInv(Run(s, front), actions[|actions| - 1]);
      StepKeepsCovered(Run(s, front), actions[|actions| - 1]);
    }
  }

  /** Without a re-declaration of stock, no reachable delivery ever hits the mismatch guard. */
  lemma DeliveryNeverMismatches(actions: seq<Action>, o: nat)
    requires NoRedeclaration(Empty, actions)
    requires o < |Run(Empty, actions).orders| && Allowed(Run(Empty, actions).orders[o].status, Delivered)
    ensures DeliverAll(Run(Empty, actions).shelf, Run(Empty, actions).orders[o].items, Run(Empty, actions).now).Some?
  {
    RunKeepsCovered(Empty, actions);
    var s := Run(Empty, actions);
    forall key | key in s.shelf ensures HeldBy(s.orders[o].items, key) <= s.shelf[key].onHand {
      HeldCoversOrder(s.orders, o, key);
    }
    DeliveryCondition(s, o);
  }

  /** A re-declaration below what is promised makes deliveries fail: any declared amount short of the hold does. */
  lemma RedeclarationCanMismatch(s: State, o: nat, key: RowKey, quantity: int)
    requires Inv(s) && o < |s.orders| && Allowed(s.orders[o].status, Delivered) && key in s.shelf
    requires 0 < HeldBy(s.orders[o].items, key) && quantity < HeldBy(s.orders[o].items, key)
    ensures DeliverAll(Next(s, Declare(key, quantity)).shelf, s.orders[o].items, s.now) == None
    ensures Next(Next(s, Declare(key, quantity)), Mark(o, Delivered)) == Next(s, Declare(key, quantity))
  {
    hide Inv, DeliverAll, HeldBy;
    var t := Next(s, Declare(key, quantity));
    StepKeepsInv(s, Declare(key, quantity));
    DeliveryCondition(t, o);
    assert HeldBy(t.orders[o].items, key) > t.shelf[key].onHand;
  }

  lemma RunPush(s: State, actions: seq<Action>, a: Action)
    ensures Run(s, actions + [a]) == Next(Run(s, actions), a)
  {
    assert (actions + [a])[..|actions|] == actions;
  }

  /** The story of the next lemma up to the shipment: stock declared, ordered from, and promised in full. */
  function Promised(key: RowKey, quantity: Quantity, c: Id): State {
    State(0, map[key := Stock(quantity, quantity, true, 0)],
          [Order(c, Some(key.supplier), Ordered, [Item(key.sku, quantity, Ordered, Some(key))])], [])
  }

  lemma PromisedIsReached(key: RowKey, quantity: Quantity, c: Id)
    ensures
      var actions := [Declare(key, quantity), Create(c, [(key.sku, quantity)]), Assign(0, key.supplier), Reserve(0, [key]), Mark(0, Ordered)];
      Run(Empty, actions) == Promised(key, quantity, c)
  {
    hide Run;
    var a, b, d, e, f := Declare(key, quantity), Create(c, [(key.sku, quantity)]), Assign(0, key.supplier), Reserve(0, [key]), Mark(0, Ordered);
    var items := [Item(key.sku, quantity, Requested, None)];
    var declared := State(0, map[key := Stock(quantity, 0, true, 0)], [], []);
    var created := declared.(orders := [Order(c, None, Requested, items)]);
    var supplied := declared.(orders := [Order(c, Some(key.supplier), SupplierAssigned, items)]);
    var reserved := State(0, map[key := Stock(quantity, quantity, true, 0)],
                          [Order(c, Some(key.supplier), Reserved, [Item(key.sku, quantity, Reserved, Some(key))])], []);
    assert Next(Empty, a) == declared;
    assert Next(declared, b) == created by { assert NewItems([(key.sku, quantity)]) == items; }
    assert Next(created, d) == supplied;
    ReserveOne(key, quantity, c);
    OrderOne(key, quantity, c);
    hide Next;
    RunFive(Empty, a, b, d, e, f);
  }

  lemma RunFive(s: State, a: Action, b: Action, c: Action, d: Action, e: Action)
    ensures Run(s, [a, b, c, d, e]) == Next(Next(Next(Next(Next(s, a), b), c), d), e)
  {
    hide Next, Run;
    NoSteps(s);
    RunPush(s, [], a);
    RunPush(s, [a], b);
    RunPush(s, [a, b], c);
    RunPush(s, [a, b, c], d);
    RunPush(s, [a, b, c, d], e);
    assert [] + [a] == [a] && [a] + [b] == [a, b] && [a, b] + [c] == [a, b, c] && [a, b, c] + [d] == [a, b, c, d]
      && [a, b, c, d] + [e] == [a, b, c, d, e];
  }

  lemma NoSteps(s: State)
    ensures Run(s, []) == s
  {
  }

  lemma OrderOne(key: RowKey, quantity: Quantity, c: Id)
    ensures
      var reserved := State(0, map[key := Stock(quantity, quantity, true, 0)],
        [Order(c, Some(key.supplier), Reserved, [Item(key.sku, quantity, Reserved, Some(key))])], []);
      Next(reserved, Mark(0, Ordered)) == Promised(key, quantity, c)
  {
    var items := [Item(key.sku, quantity, Reserved, Some(key))];
    assert AdvanceOpen(items, Ordered) == [Item(key.sku, quantity, Ordered, Some(key))];
  }

  lemma ReserveOne(key: RowKey, quantity: Quantity, c: Id)
    ensures
      var items := [Item(key.sku, quantity, Requested, None)];
      var before := State(0, map[key := Stock(quantity, 0, true, 0)], [Order(c, Some(key.supplier), SupplierAssigned, items)], []);
      Next(before, Reserve(0, [key])) == State(0, map[key := Stock(quantity, quantity, true, 0)],
        [Order(c, Some(key.supplier), Reserved, [Item(key.sku, quantity, Reserved, Some(key))])], [])
  {
    var items := [Item(key.sku, quantity, Requested, None)];
    var shelf := map[key := Stock(quantity, 0, true, 0)];
    assert ShelfBefore(shelf, items, [key], 0, 0) == shelf;
    assert SufficientPicks(shelf, key.supplier, items, [key], 0);
    assert items[..0] == [] && [key][..0] == [];
    assert TakeAll(shelf, items, [key], 0) == map[key := Stock(quantity, quantity, true, 0)];
    assert Placed(items, [key]) == [Item(key.sku, quantity, Reserved, Some(key))];
  }

  /**
   * From the empty tables: a supplier declares stock, all of it is ordered, and the supplier declares
   * less; the delivery is refused, for any quantity and any smaller declaration.
   */
  lemma MismatchIsReachable(key: RowKey, quantity: Quantity, less: int, c: Id)
    requires less < quantity
    ensures
      var actions := [Declare(key, quantity), Create(c, [(key.sku, quantity)]), Assign(0, key.supplier), Reserve(0, [key]), Mark(0, Ordered)];
      var s := Run(Empty, actions + [Declare(key, less)]);
      && |s.orders| == 1 && Allowed(s.orders[0].status, Delivered)
      && DeliverAll(s.shelf, s.orders[0].items, s.now) == None
      && Next(s, Mark(0, Delivered)) == s
  {
    hide Run;
    var actions := [Declare(key, quantity), Create(c, [(key.sku, quantity)]), Assign(0, key.supplier), Reserve(0, [key]), Mark(0, Ordered)];
    var s := Promised(key, quantity, c);
    PromisedIsReached(key, quantity, c);
    RunPush(Empty, actions, Declare(key, less));
    EmptyInv();
    RunKeepsInv(Empty, actions);
    assert s.orders[0].items[..0] == [];
    assert HeldBy(s.orders[0].items, key) == quantity;
    RedeclarationCanMismatch(s, 0, key, less);
  }

  /** What left a row: delivered with orders, or used up by field service. */
  function TakenFrom(s: State, key: RowKey): nat { DeliveredFrom(s.orders, key) + DeliveredFrom(s.fieldwork, key) }

  /** The step does not complete a decision, or the row has everything it has promised. */
  predicate UseIsBacked(s: State, a: Action, key: RowKey)
    requires key in s.shelf
  {
    (a.FinishField? && a.completed) ==> s.shelf[key].reserved <= s.shelf[key].onHand
  }

  /** One transaction: what a row has on hand plus what was taken from it changes only when it is declared. */
  lemma StepConservesStock(s: State, a: Action, key: RowKey)
    requires Inv(s) && key in s.shelf && !(a.Declare? && a.key == key) && UseIsBacked(s, a, key)
    ensures key in Next(s, a).shelf
    ensures Next(s, a).shelf[key].onHand + TakenFrom(Next(s, a), key) == s.shelf[key].onHand + TakenFrom(s, key)
  {
    hide Inv, MarkOutcome, FinishOutcome, TakeAll, DeliveredFrom, DeliveredBy;
    match a
    case Create(c, wanted) =>
      HeldPush(s.orders, Order(c, None, Requested, NewItems(wanted)), key);
      NothingDelivered(NewItems(wanted), key);
    case Assign(o, supplier) =>
      if o < |s.orders| { HeldUpdate(s.orders, o, Next(s, a).orders[o], key); }
    case Reserve(o, picks) =>
      if ReserveOutcome(s, o, picks) { ReserveConserves(s, o, picks, key); }
    case Mark(o, to) =>
      if o < |s.orders| && Allowed(s.orders[o].status, to) { MarkConserves(s, o, to, key); }
    case StartField(c, supplier, wanted, picks) =>
      if StartOutcome(s, supplier, NewItems(wanted), picks) { StartConserves(s, c, supplier, wanted, picks, key); }
    case FinishField(j, completed) =>
      if InProgress(s, j) { FinishConserves(s, j, completed, key); }
    case _ =>
  }

  lemma StartConserves(s: State, c: Id, supplier: ActorId, wanted: seq<(string, Quantity)>, picks: seq<RowKey>, key: RowKey)
    requires key in s.shelf && StartOutcome(s, supplier, NewItems(wanted), picks)
    ensures
      var t := Next(s, StartField(c, supplier, wanted, picks));
      key in t.shelf && t.shelf[key].onHand == s.shelf[key].onHand && TakenFrom(t, key) == TakenFrom(s, key)
  {
    hide TakeAll, HeldBy, Held, DeliveredBy, DeliveredFrom, SufficientPicks;
    var items := NewItems(wanted);
    var job := Order(c, Some(supplier), Reserved, Placed(items, picks));
    TakeAllHolds(s.shelf, items, picks, s.now, key);
    HeldPush(s.fieldwork, job, key);
    NothingDelivered(job.items, key);
  }

  lemma FinishConserves(s: State, j: nat, completed: bool, key: RowKey)
    requires Inv(s) && InProgress(s, j) && key in s.shelf
    requires completed ==> s.shelf[key].reserved <= s.shelf[key].onHand
    ensures
      var t := FinishOutcome(s, j, completed);
      key in t.shelf && t.shelf[key].onHand + TakenFrom(t, key) == s.shelf[key].onHand + TakenFrom(s, key)
  {
    var items := s.fieldwork[j].items;
    var t := FinishOutcome(s, j, completed);
    var job := t.fieldwork[j];
    FieldHeld(s, j, key);
    hide Inv;
    HeldUpdate(s.fieldwork, j, job, key);
    NothingDelivered(items, key);
    if completed {
      ConsumeAllExact(s.shelf, items, s.now, key);
      DeliveredIsHeld(items, job.items, key);
    } else {
      ReleaseAllExact(s.shelf, items, s.now, key);
      NothingDelivered(job.items, key);
    }
  }

  lemma ReserveConserves(s: State, o: nat, picks: seq<RowKey>, key: RowKey)
    requires Inv(s) && key in s.shelf && ReserveOutcome(s, o, picks)
    ensures key in Next(s, Reserve(o, picks)).shelf
    ensures Next(s, Reserve(o, picks)).shelf[key].onHand == s.shelf[key].onHand
    ensures DeliveredFrom(Next(s, Reserve(o, picks)).orders, key) == DeliveredFrom(s.orders, key)
  {
    var order := s.orders[o].(status := Reserved, items := Placed(s.orders[o].items, picks));
    TakeAllHolds(s.shelf, s.orders[o].items, picks, s.now, key);
    HeldUpdate(s.orders, o, order, key);
    assert OrderConsistent(s.shelf, s.orders[o]);
    NothingDelivered(s.orders[o].items, key);
    NothingDelivered(order.items, key);
  }

  lemma MarkConserves(s: State, o: nat, to: Status, key: RowKey)
    requires Inv(s) && key in s.shelf && o < |s.orders| && Allowed(s.orders[o].status, to)
    ensures key in MarkOutcome(s, o, to).shelf
    ensures MarkOutcome(s, o, to).shelf[key].onHand + DeliveredFrom(MarkOutcome(s, o, to).orders, key)
         == s.shelf[key].onHand + DeliveredFrom(s.orders, key)
    ensures MarkOutcome(s, o, to).fieldwork == s.fieldwork
  {
    var items := s.orders[o].items;
    assert OrderConsistent(s.shelf, s.orders[o]);
    NothingDelivered(items, key);
    if to == Delivered {
      if DeliverAll(s.shelf, items, s.now).Some? {
        var order := s.orders[o].(status := to, items := WithStatus(items, to));
        DeliverAllExact(s.shelf, items, s.now, key);
        DeliveredIsHeld(items, order.items, key);
        HeldUpdate(s.orders, o, order, key);
      }
    } else {
      var order := s.orders[o].(status := to, items := AdvanceOpen(items, to));
      HeldUpdate(s.orders, o, order, key);
      HeldCoversOrder(s.orders, o, key);
      ReleaseAllExact(s.shelf, items, s.now, key);
      NothingDelivered(order.items, key);
    }
  }

  predicate NotDeclared(actions: seq<Action>, key: RowKey) {
    forall i :: 0 <= i < |actions| ==> !(actions[i].Declare? && actions[i].key == key)
  }

  /** The row starts with everything it has promised, or the run completes no decision. */
  predicate UsesBacked(s: State, actions: seq<Action>, key: RowKey)
    requires key in s.shelf
  {
    || s.shelf[key].reserved <= s.shelf[key].onHand
    || forall i :: 0 <= i < |actions| ==> !(actions[i].FinishField? && actions[i].completed)
  }

  /**
   * Over any run that does not declare a row, on-hand falls by exactly what was taken from it: delivered
   * with orders, or used up by decisions when the row can back what it has promised.
   */
  lemma {:induction false} StockConserved(s: State, actions: seq<Action>, key: RowKey)
    requires Inv(s) && key in s.shelf && NotDeclared(actions, key) && UsesBacked(s, actions, key)
    ensures key in Run(s, actions).shelf
    ensures Run(s, actions).shelf[key].onHand == s.shelf[key].onHand - (TakenFrom(Run(s, actions), key) - TakenFrom(s, key))
    ensures s.shelf[key].reserved <= s.shelf[key].onHand ==>
      Run(s, actions).shelf[key].reserved <= Run(s, actions).shelf[key].onHand
  {
    if actions != [] {
      hide Inv, Next, TakenFrom;
      var front, last := actions[..|actions| - 1], actions[|actions| - 1];
      StockConserved(s, front, key);
      RunKeepsInv(s, front);
      StepConservesStock(Run(s, front), last, key);
      if s.shelf[key].reserved <= s.shelf[key].onHand { StepKeepsRowCovered(Run(s, front), last, key); }
    }
  }
}
