/**
 * The open job board (src/services/open-jobs.ts). Publishing checks and inserts in separate
 * statements, so an insertion may follow any interleaving; only the unique index guards it.
 */
module OpenJobs {
  import opened Prelude
  import opened Standing
  import Sorting

  const RADIUS_KM := 50.0

  datatype CaseState = Intake | Triage | DiagnosticPending | DiagnosticInProgress | LaterState

  datatype Outcome = Offered | Accepted | Declined

  /** An offer of a case to an actor; the board makes its own offers when a listing is claimed. */
  datatype Offer = Offer(caseId: Id, actor: ActorId, outcome: Outcome, byBoard: bool)

  datatype ListingState = Open | Claimed | Withdrawn

  datatype Listing = Listing(
    caseId: Id, state: ListingState, rank: JobRank, emergency: bool, publishedAt: nat,
    claimant: Option<ActorId>, offer: Option<nat>)

  datatype State = State(now: nat, cases: map<Id, CaseState>, offers: seq<Offer>, listings: seq<Listing>)

  /** A technician as the board sees it: tier, distance to the job, and whether qualified for the case. */
  datatype Technician = Technician(actor: ActorId, tier: Tier, km: real, qualified: bool)

  datatype Action =
    | Insert(caseId: Id, rank: JobRank, emergency: bool)
    | Claim(listing: nat, who: Technician)
    | Withdraw(caseId: Id)
    | MoveCase(caseId: Id, to: CaseState)
    | OtherOffer(caseId: Id, actor: ActorId)
    | Decide(offer: nat, accept: bool)
    | Tick(seconds: nat)

  // ---------------------------------------------------------------------------------------------
  // Steps

  predicate HasOpen(listings: seq<Listing>, caseId: Id) {
    exists i :: 0 <= i < |listings| && listings[i].caseId == caseId && listings[i].state == Open
  }

  predicate LiveOffer(o: Offer, caseId: Id) { o.caseId == caseId && o.outcome != Declined }

  predicate HasLiveOffer(offers: seq<Offer>, caseId: Id) {
    exists i :: 0 <= i < |offers| && LiveOffer(offers[i], caseId)
  }

  predicate Reachable(l: Listing, who: Technician, now: nat) {
    l.state == Open && l.publishedAt + ReleaseDelay(l.rank, who.tier, l.emergency) <= now && who.km <= RADIUS_KM
  }

  predicate StillWaiting(s: State, caseId: Id) {
    caseId in s.cases && s.cases[caseId] == DiagnosticPending && !HasLiveOffer(s.offers, caseId)
  }

  /** A claim of a listing the technician may see: granted, or the listing is withdrawn as overtaken. */
  function ClaimStep(s: State, i: nat, who: Technician): State
    requires i < |s.listings|
  {
    var l := s.listings[i];
    if !StillWaiting(s, l.caseId) then s.(listings := s.listings[i := l.(state := Withdrawn)])
    else if !who.qualified then s
    else
      s.(offers := s.offers + [Offer(l.caseId, who.actor, Accepted, true)],
      listings := s.listings[i := l.(state := Claimed, claimant := Some(who.actor), offer := Some(|s.offers|))])
  }

  function WithdrawAll(listings: seq<Listing>, caseId: Id): (r: seq<Listing>)
    ensures |r| == |listings|
    ensures forall i :: 0 <= i < |listings| ==>
      r[i] == if listings[i].caseId == caseId && listings[i].state == Open then listings[i].(state := Withdrawn) else listings[i]
  {
    seq(|listings|, i requires 0 <= i < |listings| =>
      if listings[i].caseId == caseId && listings[i].state == Open then listings[i].(state := Withdrawn) else listings[i])
  }

  function Next(s: State, a: Action): State {
    match a
    case Insert(c, rank, emergency) =>
      if HasOpen(s.listings, c) then s
      else s.(listings := s.listings + [Listing(c, Open, rank, emergency, s.now, None, None)])
    case Claim(i, who) =>
      if i < |s.listings| && Reachable(s.listings[i], who, s.now) then ClaimStep(s, i, who) else s
    case Withdraw(c) => s.(listings := WithdrawAll(s.listings, c))
    case MoveCase(c, to) => s.(cases := s.cases[c := to])
    case OtherOffer(c, actor) => s.(offers := s.offers + [Offer(c, actor, Offered, false)])
    case Decide(o, accept) =>
      // Every update of an outcome is guarded by the offer still being offered.
      if o < |s.offers| && s.offers[o].outcome == Offered
      then s.(offers := s.offers[o := s.offers[o].(outcome := if accept then Accepted else Declined)])
      else s
    case Tick(d) => s.(now := s.now + d)
  }

  function Run(s: State, actions: seq<Action>): State {
    if actions == [] then s else Next(Run(s, actions[..|actions| - 1]), actions[|actions| - 1])
  }

  // ---------------------------------------------------------------------------------------------
  // The invariant

  ghost predicate ListingOk(s: State, l: Listing) {
    && (l.state == Claimed <==> l.offer.Some?) && (l.offer.Some? <==> l.claimant.Some?)
    && (l.offer.Some? ==>
      && l.offer.value < |s.offers|
      && var o := s.offers[l.offer.value];
      o.byBoard && o.caseId == l.caseId && o.actor == l.claimant.value && o.outcome == Accepted)
  }

  ghost predicate Inv(s: State) {
    && (forall i :: 0 <= i < |s.listings| ==> ListingOk(s, s.listings[i]))
    && (forall i, j :: 0 <= i < j < |s.listings| && s.listings[i].state == Open && s.listings[j].state == Open ==>
      s.listings[i].caseId != s.listings[j].caseId)
    && (forall i, j :: 0 <= i < j < |s.listings| && s.listings[i].offer.Some? ==> s.listings[i].offer != s.listings[j].offer)
    && (forall k :: 0 <= k < |s.offers| && s.offers[k].byBoard ==> s.offers[k].outcome != Offered)
    && (forall k, l :: 0 <= k < l < |s.offers| && s.offers[k].byBoard && s.offers[l].byBoard && s.offers[k].caseId == s.offers[l].caseId ==>
      !(s.offers[k].outcome == Accepted && s.offers[l].outcome == Accepted))
  }

  lemma InsertKeepsInv(s: State, c: Id, rank: JobRank, emergency: bool)
    requires Inv(s)
    ensures Inv(Next(s, Insert(c, rank, emergency)))
  {
    var t := Next(s, Insert(c, rank, emergency));
    forall i | 0 <= i < |t.listings| ensures ListingOk(t, t.listings[i]) {
      if i < |s.listings| { assert ListingOk(s, s.listings[i]); }
    }
  }

  lemma DecideKeepsInv(s: State, o: nat, accept: bool)
    requires Inv(s)
    ensures Inv(Next(s, Decide(o, accept)))
  {
    var t := Next(s, Decide(o, accept));
    forall i | 0 <= i < |t.listings| ensures ListingOk(t, t.listings[i]) { assert ListingOk(s, s.listings[i]); }
  }

  lemma WithdrawKeepsInv(s: State, c: Id)
    requires Inv(s)
    ensures Inv(Next(s, Withdraw(c)))
  {
    var t := Next(s, Withdraw(c));
    forall i | 0 <= i < |t.listings| ensures ListingOk(t, t.listings[i]) { assert ListingOk(s, s.listings[i]); }
  }

  lemma OtherOfferKeepsInv(s: State, c: Id, actor: ActorId)
    requires Inv(s)
    ensures Inv(Next(s, OtherOffer(c, actor)))
  {
    var t := Next(s, OtherOffer(c, actor));
    forall i | 0 <= i < |t.listings| ensures ListingOk(t, t.listings[i]) { assert ListingOk(s, s.listings[i]); }
  }

  lemma StepKeepsInv(s: State, a: Action)
    requires Inv(s)
    ensures Inv(Next(s, a))
  {
    match a
    case Insert(c, rank, emergency) => InsertKeepsInv(s, c, rank, emergency);
    case Claim(i, who) =>
      if i < |s.listings| && Reachable(s.listings[i], who, s.now) { ClaimKeepsInv(s, i, who); }
    case Withdraw(c) => WithdrawKeepsInv(s, c);
    case OtherOffer(c, actor) => OtherOfferKeepsInv(s, c, actor);
    case Decide(o, accept) => DecideKeepsInv(s, o, accept);
    case MoveCase(c, to) =>
      forall i | 0 <= i < |s.listings| ensures ListingOk(Next(s, a), s.listings[i]) { assert ListingOk(s, s.listings[i]); }
    case Tick(seconds) =>
      forall i | 0 <= i < |s.listings| ensures ListingOk(Next(s, a), s.listings[i]) { assert ListingOk(s, s.listings[i]); }
  }

  lemma ClaimKeepsInv(s: State, i: nat, who: Technician)
    requires Inv(s) && i < |s.listings| && s.listings[i].state == Open
    ensures Inv(ClaimStep(s, i, who))
  {
    var t := ClaimStep(s, i, who);
    assert ListingOk(s, s.listings[i]);
    forall j | 0 <= j < |t.listings| ensures ListingOk(t, t.listings[j]) { assert ListingOk(s, s.listings[j]); }
    forall j | 0 <= j < |s.listings| && s.listings[j].offer.Some? ensures s.listings[j].offer.value < |s.offers| {
      assert ListingOk(s, s.listings[j]);
    }
    if StillWaiting(s, s.listings[i].caseId) {
      assert forall k :: 0 <= k < |s.offers| ==> !LiveOffer(s.offers[k], s.listings[i].caseId);
    }
  }

  lemma {:induction false} RunKeepsInv(s: State, actions: seq<Action>)
    requires Inv(s)
    ensures Inv(Run(s, actions))
  {
    if actions != [] {
      RunKeepsInv(s, actions[..|actions| - 1]);
      StepKeepsInv(Run(s, actions[..|actions| - 1]), actions[|actions| - 1]);
    }
  }

  // ---------------------------------------------------------------------------------------------
  // First claim wins

  /** A granted claim makes the technician's offer the only live offer of the case. */
  lemma ClaimGrantsTheOnlyOffer(s: State, i: nat, who: Technician)
    requires i < |s.listings| && Reachable(s.listings[i], who, s.now)
    requires StillWaiting(s, s.listings[i].caseId) && who.qualified
    ensures
      var t := Next(s, Claim(i, who));
      var c := s.listings[i].caseId;
      && t.listings[i].state == Claimed && t.listings[i].claimant == Some(who.actor) && t.listings[i].offer == Some(|s.offers|)
      && t.offers[|s.offers|] == Offer(c, who.actor, Accepted, true)
      && forall k :: 0 <= k < |t.offers| && LiveOffer(t.offers[k], c) ==> k == |s.offers|
  {
    assert forall k :: 0 <= k < |s.offers| ==> !LiveOffer(s.offers[k], s.listings[i].caseId);
  }

  /** A listing that is claimed or withdrawn never changes again: nobody claims it a second time. */
  lemma {:induction false} ClosedListingIsFinal(s: State, actions: seq<Action>, i: nat)
    requires i < |s.listings| && s.listings[i].state != Open
    ensures i < |Run(s, actions).listings| && Run(s, actions).listings[i] == s.listings[i]
  {
    if actions != [] { ClosedListingIsFinal(s, actions[..|actions| - 1], i); }
  }

  /**
   * Over every interleaving from an empty board: a case has at most one open listing, a claimed
   * listing names an accepted offer of its own case to its claimant, and no two listings share an offer.
   */
  lemma FirstClaimWins(cases: map<Id, CaseState>, actions: seq<Action>, i: nat, j: nat)
    requires i < |Run(State(0, cases, [], []), actions).listings| && j < |Run(State(0, cases, [], []), actions).listings| && i != j
    ensures
      var s := Run(State(0, cases, [], []), actions);
      && !(s.listings[i].state == Open && s.listings[j].state == Open && s.listings[i].caseId == s.listings[j].caseId)
      && ListingOk(s, s.listings[i])
      && (s.listings[i].offer.Some? ==> s.listings[i].offer != s.listings[j].offer)
  {
    RunKeepsInv(State(0, cases, [], []), actions);
  }

  lemma BoardAcceptsOncePerCase(cases: map<Id, CaseState>, actions: seq<Action>, k: nat, l: nat)
    requires k < |Run(State(0, cases, [], []), actions).offers| && l < |Run(State(0, cases, [], []), actions).offers|
    requires
      var s := Run(State(0, cases, [], []), actions);
      && s.offers[k].byBoard && s.offers[l].byBoard && s.offers[k].caseId == s.offers[l].caseId
      && s.offers[k].outcome == Accepted && s.offers[l].outcome == Accepted
    ensures k == l
  {
    RunKeepsInv(State(0, cases, [], []), actions);
  }

  // ---------------------------------------------------------------------------------------------
  // What a technician sees

  function RankOrder(r: JobRank): nat { match r case Premium => 0 case Standard => 1 case Basic => 2 }

  /** A listing with the technician's distance to it. */
  datatype Seen = Seen(listing: nat, rank: JobRank, km: real)

  predicate ShownFirst(a: Seen, b: Seen) {
    RankOrder(a.rank) < RankOrder(b.rank) || (RankOrder(a.rank) == RankOrder(b.rank) && a.km < b.km)
  }

  predicate Shows(s: State, tier: Tier, km: seq<real>, blocked: set<Id>, i: nat)
    requires |km| == |s.listings|
  {
    && i < |s.listings| && s.listings[i].caseId !in blocked
    && s.listings[i].state == Open
    && s.listings[i].publishedAt + ReleaseDelay(s.listings[i].rank, tier, s.listings[i].emergency) <= s.now
    && km[i] <= RADIUS_KM
  }

  /** The filter over the first `n` listings. */
  function Visible(s: State, tier: Tier, km: seq<real>, blocked: set<Id>, n: nat): seq<Seen>
    requires |km| == |s.listings| && n <= |s.listings|
  {
    if n == 0 then []
    else
      Visible(s, tier, km, blocked, n - 1)
      + if Shows(s, tier, km, blocked, n - 1) then [Seen(n - 1, s.listings[n - 1].rank, km[n - 1])] else []
  }

  /** The board of one technician at one place: visible listings, best rank first, nearest first. */
  function ListOpenJobs(s: State, tier: Tier, km: seq<real>, blocked: set<Id>): seq<Seen>
    requires |km| == |s.listings|
  {
    Sorting.Sorted(ShownFirst, Visible(s, tier, km, blocked, |s.listings|))
  }

  lemma {:induction false} VisibleMeaning(s: State, tier: Tier, km: seq<real>, blocked: set<Id>, n: nat, v: Seen)
    requires |km| == |s.listings| && n <= |s.listings|
    ensures v in Visible(s, tier, km, blocked, n)
       <==> v.listing < n && Shows(s, tier, km, blocked, v.listing) && v == Seen(v.listing, s.listings[v.listing].rank, km[v.listing])
  {
    if n > 0 { VisibleMeaning(s, tier, km, blocked, n - 1, v); }
  }

  lemma ShownFirstIsOrder()
    ensures Sorting.StrictWeakOrder(ShownFirst)
  {
  }

  /** A claim is granted: the open listing becomes the technician's, with an accepted offer. */
  predicate Granted(s: State, i: nat, who: Technician) {
    && i < |s.listings| && s.listings[i].state == Open
    && var t := Next(s, Claim(i, who));
    && t.listings[i] == s.listings[i].(state := Claimed, claimant := Some(who.actor), offer := Some(|s.offers|))
    && t.offers == s.offers + [Offer(s.listings[i].caseId, who.actor, Accepted, true)]
  }

  lemma ListedIffReachable(s: State, who: Technician, km: seq<real>, blocked: set<Id>, i: nat)
    requires |km| == |s.listings| && i < |s.listings| && who.km == km[i]
    ensures Seen(i, s.listings[i].rank, km[i]) in ListOpenJobs(s, who.tier, km, blocked)
       <==> Reachable(s.listings[i], who, s.now) && s.listings[i].caseId !in blocked
  {
    ShownFirstIsOrder();
    Sorting.SortedMembers(ShownFirst, Visible(s, who.tier, km, blocked, |s.listings|));
    VisibleMeaning(s, who.tier, km, blocked, |s.listings|, Seen(i, s.listings[i].rank, km[i]));
  }

  /**
   * Apart from the cases whose qualifications the technician lacks, a claim is granted exactly when
   * the listing is on the technician's board, its case is still waiting, and the technician qualifies.
   */
  lemma ListedIffClaimable(s: State, who: Technician, km: seq<real>, blocked: set<Id>, i: nat)
    requires |km| == |s.listings| && i < |s.listings| && who.km == km[i]
    ensures Seen(i, s.listings[i].rank, km[i]) in ListOpenJobs(s, who.tier, km, blocked)
       <==> Reachable(s.listings[i], who, s.now) && s.listings[i].caseId !in blocked
    ensures s.listings[i].caseId !in blocked ==>
      (Granted(s, i, who) <==>
        && Seen(i, s.listings[i].rank, km[i]) in ListOpenJobs(s, who.tier, km, blocked)
        && StillWaiting(s, s.listings[i].caseId) && who.qualified)
  {
    ListedIffReachable(s, who, km, blocked, i);
    hide ListOpenJobs;
    var t := Next(s, Claim(i, who));
    if Reachable(s.listings[i], who, s.now) && StillWaiting(s, s.listings[i].caseId) && who.qualified {
      assert Granted(s, i, who);
    } else {
      assert |t.offers| == |s.offers|;
    }
  }

  /**
   * A listing may stand on the board although nobody can have it: published, overtaken by another
   * offer of the case, still shown to a gold technician next door, and withdrawn by the claim.
   */
  lemma OvertakenIsStillListed(s: State, c: Id, rank: JobRank, other: ActorId, who: Technician)
    requires c in s.cases && s.cases[c] == DiagnosticPending && !HasOpen(s.listings, c)
    requires who.tier == Gold && who.km <= RADIUS_KM
    ensures
      var t := Run(s, [Insert(c, rank, false), OtherOffer(c, other)]);
      var i := |s.listings|;
      && |t.listings| == i + 1 && Reachable(t.listings[i], who, t.now)
      && !StillWaiting(t, c) && !Granted(t, i, who)
      && Next(t, Claim(i, who)).listings[i].state == Withdrawn
      && Next(t, Claim(i, who)).offers == t.offers
  {
    var a, b := Insert(c, rank, false), OtherOffer(c, other);
    assert [a, b][..1] == [a] && [a][..0] == [];
    assert Run(s, [a]) == Next(Run(s, []), a);
    var t := Run(s, [a, b]);
    assert LiveOffer(t.offers[|s.offers|], c);
  }

  /** The board is ordered by job rank and then by distance. */
  lemma BoardInOrder(s: State, tier: Tier, km: seq<real>, blocked: set<Id>)
    requires |km| == |s.listings|
    ensures Sorting.InOrder(ShownFirst, ListOpenJobs(s, tier, km, blocked))
    ensures forall i, j :: 0 <= i < j < |ListOpenJobs(s, tier, km, blocked)| ==>
      var a, b := ListOpenJobs(s, tier, km, blocked)[i], ListOpenJobs(s, tier, km, blocked)[j];
      && (b.rank == Premium ==> a.rank == Premium) && (a.rank == Basic ==> b.rank == Basic)
      && (a.rank == b.rank ==> a.km <= b.km)
  {
    ShownFirstIsOrder();
    Sorting.SortedSorts(ShownFirst, Visible(s, tier, km, blocked, |s.listings|));
  }

  /** At the same place, time and qualifications, a better tier sees everything a worse tier sees. */
  lemma BetterTierSeesMore(s: State, better: Tier, worse: Tier, km: seq<real>, blocked: set<Id>, v: Seen)
    requires |km| == |s.listings| && Order(better) <= Order(worse)
    requires v in ListOpenJobs(s, worse, km, blocked)
    ensures v in ListOpenJobs(s, better, km, blocked)
  {
    ShownFirstIsOrder();
    Sorting.SortedMembers(ShownFirst, Visible(s, worse, km, blocked, |s.listings|));
    Sorting.SortedMembers(ShownFirst, Visible(s, better, km, blocked, |s.listings|));
    VisibleMeaning(s, worse, km, blocked, |s.listings|, v);
    VisibleMeaning(s, better, km, blocked, |s.listings|, v);
    BetterTierSooner(v.rank, better, worse, s.listings[v.listing].emergency);
  }

  /** A better score never has a worse tier, so a better standing never shows less. */
  lemma BetterScoreSeesMore(s: State, better: int, worse: int, km: seq<real>, blocked: set<Id>, v: Seen)
    requires |km| == |s.listings| && better >= worse
    requires v in ListOpenJobs(s, TierOf(worse), km, blocked)
    ensures v in ListOpenJobs(s, TierOf(better), km, blocked)
  {
    BetterTierSeesMore(s, TierOf(better), TierOf(worse), km, blocked, v);
  }

  // ---------------------------------------------------------------------------------------------
  // What every step does

  /** An offer that was accepted or can still be. */
  ghost predicate Taken(s: State, c: Id) {
    exists k :: 0 <= k < |s.offers| && s.offers[k].caseId == c && (s.offers[k].outcome == Offered || s.offers[k].outcome == Accepted)
  }

  lemma TakenIsLive(s: State, c: Id)
    ensures HasLiveOffer(s.offers, c) <==> Taken(s, c)
  {
    if HasLiveOffer(s.offers, c) {
      var k :| 0 <= k < |s.offers| && LiveOffer(s.offers[k], c);
      assert s.offers[k].caseId == c;
    }
    if Taken(s, c) {
      var k :| 0 <= k < |s.offers| && s.offers[k].caseId == c && (s.offers[k].outcome == Offered || s.offers[k].outcome == Accepted);
      assert LiveOffer(s.offers[k], c);
    }
  }

  /** The head start of the technician's tier is over and the job is within fifty kilometres. */
  ghost predicate InReach(l: Listing, who: Technician, now: nat) {
    l.state == Open && now - l.publishedAt >= ReleaseDelay(l.rank, who.tier, l.emergency) && who.km <= 50.0
  }

  /** A claim is granted exactly for a listing in reach of a qualified technician whose case waits for a diagnosis and has no offer. */
  lemma GrantedIff(s: State, i: nat, who: Technician)
    requires i < |s.listings|
    ensures Granted(s, i, who) <==>
      && InReach(s.listings[i], who, s.now) && who.qualified
      && s.listings[i].caseId in s.cases && s.cases[s.listings[i].caseId] == DiagnosticPending
      && !Taken(s, s.listings[i].caseId)
  {
    TakenIsLive(s, s.listings[i].caseId);
    if StillWaiting(s, s.listings[i].caseId) && Reachable(s.listings[i], who, s.now) && who.qualified {
      assert Granted(s, i, who);
    } else {
      assert |Next(s, Claim(i, who)).offers| == |s.offers|;
    }
  }

  /** A claim that is not granted makes no offer; it withdraws a listing in reach whose case moved on, and else changes nothing. */
  lemma RefusedClaim(s: State, i: nat, who: Technician)
    requires i < |s.listings| && !Granted(s, i, who)
    ensures
      var c := s.listings[i].caseId;
      var overtaken := InReach(s.listings[i], who, s.now) && (c !in s.cases || s.cases[c] != DiagnosticPending || Taken(s, c));
      Next(s, Claim(i, who)) == if overtaken then s.(listings := s.listings[i := s.listings[i].(state := Withdrawn)]) else s
  {
    GrantedIff(s, i, who);
    TakenIsLive(s, s.listings[i].caseId);
  }

  /** Publishing adds one open listing, dated now, unless the case has one. */
  lemma InsertEffect(s: State, c: Id, rank: JobRank, emergency: bool)
    ensures
      var t := Next(s, Insert(c, rank, emergency));
      && t.cases == s.cases && t.offers == s.offers && t.now == s.now
      && ((exists i :: 0 <= i < |s.listings| && s.listings[i].caseId == c && s.listings[i].state == Open) ==> t == s)
      && ((forall i :: 0 <= i < |s.listings| && s.listings[i].caseId == c ==> s.listings[i].state != Open) ==>
        t.listings == s.listings + [Listing(c, Open, rank, emergency, s.now, None, None)])
  {
  }

  /** An offer is decided once: accepted or declined, and never again. */
  lemma DecideEffect(s: State, o: nat, accept: bool, again: bool)
    requires o < |s.offers|
    ensures
      var t := Next(s, Decide(o, accept));
      && t.listings == s.listings && t.cases == s.cases && |t.offers| == |s.offers|
      && (forall k :: 0 <= k < |s.offers| && k != o ==> t.offers[k] == s.offers[k])
      && (s.offers[o].outcome == Offered ==> t.offers[o] == s.offers[o].(outcome := if accept then Accepted else Declined))
      && (s.offers[o].outcome != Offered ==> t == s)
      && Next(t, Decide(o, again)) == t
  {
  }
}
