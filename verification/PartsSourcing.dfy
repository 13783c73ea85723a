/**
 * Automatic sourcing across the services: the eligibility query, the ranking and the reservation
 * loop agree, so an order assigned to the recommended supplier can be reserved in full.
 */
module PartsSourcing {
  import opened Prelude
  import opened PartsStock
  import PartsStore
  import Ranking
  import RankingProofs
  import RankingEngine

  /** The candidates handed to the engine are suppliers that the query returned, in some order. */
  ghost predicate FromQuery(all: seq<Ranking.Candidate>, shelf: Shelf, items: seq<Item>) {
    forall c :: c in all ==> c.actorId in Candidates(shelf, items)
  }

  /** The recommendation for an order, if there is a candidate at all. */
  ghost function Recommended(all: seq<Ranking.Candidate>, p: Ranking.Policy, seed: string): Option<ActorId> {
    var ranked := Ranking.Rank(all, p, seed);
    if ranked == [] then None else Some(ranked[0].row.candidate.actorId)
  }

  /** Whatever the policy weighs, the recommended supplier covers the whole order. */
  lemma RecommendedIsEligible(all: seq<Ranking.Candidate>, p: Ranking.Policy, seed: string, shelf: Shelf, items: seq<Item>)
    requires FromQuery(all, shelf, items)
    ensures Recommended(all, p, seed).None? <==> all == []
    ensures Recommended(all, p, seed).Some? ==> Eligible(shelf, Recommended(all, p, seed).value, items)
  {
    RankingProofs.RankIsSortedPermutation(all, p, seed);
    if all != [] {
      RankingProofs.RecommendationIsCandidate(all, p, seed);
      assert Ranking.Rank(all, p, seed)[0].row.candidate.actorId in Candidates(shelf, items);
    }
  }

  /** Assigns the recommendation and then reserves on the same stock: nothing can be unavailable. */
  method AutoAssignAndReserve(store: PartsStore.Store, o: nat, all: seq<Ranking.Candidate>, p: Ranking.Policy, seed: string)
    returns (r: Option<seq<RowKey>>)
    requires o < |store.orders| && Assignable(store.orders[o].status)
    requires FromQuery(all, store.inventory, store.orders[o].items)
    modifies store
    ensures r.None? <==> all == []
    ensures r.None? ==> store.State() == old(store.State())
    ensures r.Some? ==> o < |store.orders| && store.orders[o].status == Reserved
    ensures r.Some? ==> store.orders[o].supplier == Recommended(all, p, seed)
    ensures r.Some? ==> store.orders[o].items == (if |r.value| == |old(store.orders[o].items)| then Placed(old(store.orders[o].items), r.value) else [])
  {
    var ranked := RankingEngine.RankCoordinationCandidates(all, p, seed);
    RecommendedIsEligible(all, p, seed, store.inventory, store.orders[o].items);
    if ranked == [] { return None; }
    var outcome := store.AssignSupplier(o, ranked[0].row.candidate.actorId);
    var taken := store.ReserveOrderInventory(o);
    return Some(taken.value);
  }
}
