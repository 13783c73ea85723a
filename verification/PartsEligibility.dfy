/** Whom the candidate query admits, told by what its stock can serve rather than by the query. */
module PartsEligibility {
  import opened Prelude
  import opened PartsStock
  import opened PartsProofs

  /** Everything wanted of one sku comes from one row. */
  ghost predicate OneRowPerSku(items: seq<Item>, picks: seq<RowKey>)
    requires |picks| == |items|
  {
    forall i, j :: 0 <= i < |items| && 0 <= j < |items| && items[i].sku == items[j].sku ==> picks[i] == picks[j]
  }

  // ---------------------------------------------------------------------------------------------
  // An admitted supplier can serve the order

  ghost function FulfillingRow(shelf: Shelf, supplier: ActorId, items: seq<Item>, sku: string): (key: RowKey)
    requires HasFulfillingRow(shelf, supplier, items, sku)
    ensures key in shelf && Fulfils(shelf, supplier, items, sku, key)
  {
    var key :| key in shelf && Fulfils(shelf, supplier, items, sku, key);
    key
  }

  ghost function FulfillingPicks(shelf: Shelf, supplier: ActorId, items: seq<Item>): (picks: seq<RowKey>)
    requires Eligible(shelf, supplier, items)
    ensures |picks| == |items|
    ensures forall i :: 0 <= i < |items| ==>
      HasFulfillingRow(shelf, supplier, items, items[i].sku) && picks[i] == FulfillingRow(shelf, supplier, items, items[i].sku)
  {
    assert forall i :: 0 <= i < |items| ==> HasFulfillingRow(shelf, supplier, items, items[i].sku);
    seq(|items|, i requires 0 <= i < |items| => FulfillingRow(shelf, supplier, items, items[i].sku))
  }

  lemma {:induction false} FulfillingPicksSuffice(shelf: Shelf, supplier: ActorId, items: seq<Item>, now: nat, n: nat)
    requires Eligible(shelf, supplier, items) && n <= |items|
    ensures SufficientPicks(shelf, supplier, items, FulfillingPicks(shelf, supplier, items)[..n], now)
  {
    hide Eligible, FulfillingPicks, FulfillingRow, TakeAll;
    if n > 0 {
      var picks := FulfillingPicks(shelf, supplier, items);
      var front, m := picks[..n - 1], n - 1;
      FulfillingPicksSuffice(shelf, supplier, items, now, m);
      CoverLasts(shelf, supplier, items, front, now, items[m].sku, picks[m], m);
      WantedGrows(items, m, items[m].sku);
      assert picks[..n] == front + [picks[m]];
      forall k | 0 <= k < n ensures Sufficient(ShelfBefore(shelf, items, picks[..n], k, now), supplier, items[k], picks[..n][k]) {
        assert picks[..n][..k] == front[..k];
        assert ShelfBefore(shelf, items, picks[..n], k, now) == ShelfBefore(shelf, items, front, k, now);
      }
    }
  }

  // ---------------------------------------------------------------------------------------------
  // A supplier that can serve the order is admitted

  /** What the picks so far took from the row of one sku, and that the row had it. */
  ghost predicate TakenSoFar(shelf: Shelf, items: seq<Item>, picks: seq<RowKey>, now: nat, sku: string, key: RowKey, n: nat)
    requires n <= |items| && n <= |picks| && key in shelf
  {
    var wanted, after := Wanted(items[..n], sku), ShelfBefore(shelf, items, picks, n, now);
    && key in after && after[key].reserved == shelf[key].reserved + wanted
    && after[key].onHand == shelf[key].onHand && after[key].active == shelf[key].active
    && (wanted > 0 ==> wanted <= Available(shelf[key]) && shelf[key].active)
  }

  lemma {:induction false} OneRowServes(shelf: Shelf, supplier: ActorId, items: seq<Item>, picks: seq<RowKey>, now: nat, i: nat, n: nat)
    requires |picks| == |items| && SufficientPicks(shelf, supplier, items, picks, now) && OneRowPerSku(items, picks)
    requires i < |items| && n <= |items| && picks[i] in shelf
    ensures TakenSoFar(shelf, items, picks, now, items[i].sku, picks[i], n)
  {
    if n == 0 {
      NothingTaken(shelf, items, picks, now, items[i].sku);
    } else {
      var m := n - 1;
      OneRowServes(shelf, supplier, items, picks, now, i, m);
      hide ShelfBefore, Wanted, TakeAll;
      ShelfStep(shelf, items, picks, m, now);
      WantedGrows(items, m, items[i].sku);
      assert Sufficient(ShelfBefore(shelf, items, picks, m, now), supplier, items[m], picks[m]);
      PicksOnShelf(shelf, supplier, items, picks, now);
    }
  }

  lemma ServedIsFulfilled(shelf: Shelf, supplier: ActorId, items: seq<Item>, picks: seq<RowKey>, now: nat, i: nat)
    requires |picks| == |items| && SufficientPicks(shelf, supplier, items, picks, now) && OneRowPerSku(items, picks)
    requires i < |items|
    ensures HasFulfillingRow(shelf, supplier, items, items[i].sku)
  {
    PicksOnShelf(shelf, supplier, items, picks, now);
    OneRowServes(shelf, supplier, items, picks, now, i, |items|);
    WantedGrows(items, i, items[i].sku);
    assert items[..|items|] == items;
    assert Fulfils(shelf, supplier, items, items[i].sku, picks[i]);
  }

  /**
   * The query admits a supplier exactly when the order is not empty and the reservation loop could
   * serve all of it from the supplier's stock, taking each sku from a single row.
   */
  lemma CandidateIffServable(shelf: Shelf, items: seq<Item>, supplier: ActorId, now: nat)
    ensures supplier in Candidates(shelf, items)
       <==> items != [] && exists picks: seq<RowKey> ::
              |picks| == |items| && SufficientPicks(shelf, supplier, items, picks, now) && OneRowPerSku(items, picks)
  {
    hide SufficientPicks;
    if Eligible(shelf, supplier, items) {
      var picks := FulfillingPicks(shelf, supplier, items);
      FulfillingPicksSuffice(shelf, supplier, items, now, |items|);
      assert picks[..|items|] == picks;
      assert OneRowPerSku(items, picks);
    }
    if picks: seq<RowKey> :| items != [] && |picks| == |items| && SufficientPicks(shelf, supplier, items, picks, now) && OneRowPerSku(items, picks) {
      forall i | 0 <= i < |items| ensures HasFulfillingRow(shelf, supplier, items, items[i].sku) {
        ServedIsFulfilled(shelf, supplier, items, picks, now, i);
      }
    }
  }

  /** For a single line: exactly the suppliers with an active row of that sku that has the quantity free. */
  lemma SingleLineCandidates(shelf: Shelf, item: Item, supplier: ActorId)
    ensures supplier in Candidates(shelf, [item])
       <==> exists key: RowKey :: key in shelf && key.supplier == supplier && key.sku == item.sku && shelf[key].active
                               && shelf[key].onHand - shelf[key].reserved >= item.quantity
  {
    assert [item][..0] == [];
    assert Wanted([item], item.sku) == item.quantity;
    if Eligible(shelf, supplier, [item]) {
      assert HasFulfillingRow(shelf, supplier, [item], [item][0].sku);
    }
    if key: RowKey :| key in shelf && key.supplier == supplier && key.sku == item.sku && shelf[key].active
                      && shelf[key].onHand - shelf[key].reserved >= item.quantity
    {
      assert Fulfils(shelf, supplier, [item], item.sku, key);
    }
  }
}
