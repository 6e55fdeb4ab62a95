/** The board depends on who signed up, not on the order their rows were read in. */
module OrderIndependence {
  import opened Options
  import opened Sequences
  import opened Comp
  import opened Placing
  import opened SeatingRules
  import opened Board

  /** Two listings of one pool. */
  ghost predicate SamePool(p: seq<Raider>, q: seq<Raider>) {
    DistinctIds(p) && multiset(p) == multiset(q)
  }

  lemma SamePoolBothWays(p: seq<Raider>, q: seq<Raider>)
    requires SamePool(p, q)
    ensures DistinctIds(q) && |p| == |q|
    ensures forall r :: r in p <==> r in q
  {
    SortedStaysDistinct(p, q);
    assert |multiset(p)| == |multiset(q)|;
    forall r ensures r in p <==> r in q { assert r in multiset(p) <==> r in multiset(q); }
  }

  lemma RanksAgree(p: seq<Raider>, q: seq<Raider>)
    requires SamePool(p, q)
    ensures SignupRanks(p) == SignupRanks(q)
  {
    SignupOrderIsTotal(Elements(p));
    SortIgnoresOrder(p, q, SignedUpBefore(), Elements(p));
  }

  lemma CandidatesAgree(p: seq<Raider>, q: seq<Raider>, f: Raider -> Option<Candidate>, ranks: Ranks)
    requires SamePool(p, q)
    requires forall r :: f(r).Some? ==> f(r).value.raider == r
    ensures Ranked(FilterMap(p, f), ranks) == Ranked(FilterMap(q, f), ranks)
  {
    var cands := FilterMap(p, f);
    forall c ensures c in cands ==> c.raider in p && f(c.raider) == Some(c) { FilterMapIn(p, f, c); }
    FilterMapPermutes(p, q, f);
    RankingIsTotal(ranks, Elements(cands));
    SortIgnoresOrder(cands, FilterMap(q, f), ByRank(ranks), Elements(cands));
  }

  lemma EligibleAgree(p: seq<Raider>, q: seq<Raider>, seats: Seats, g: Group, ranks: Ranks)
    requires SamePool(p, q)
    ensures Eligible(p, seats, g, ranks) == Eligible(q, seats, g, ranks)
  {
    CandidatesAgree(p, q, EligibleFor(seats, g), ranks);
  }

  lemma MovableAgree(p: seq<Raider>, q: seq<Raider>, seats: Seats, g: Group, ranks: Ranks)
    requires SamePool(p, q)
    ensures Movable(p, seats, g, ranks) == Movable(q, seats, g, ranks)
  {
    CandidatesAgree(p, q, MovableInto(seats, g), ranks);
  }

  lemma {:induction false} FillGroupsAgree(
    order: seq<Group>, p: seq<Raider>, q: seq<Raider>, seats: Seats, needs: Needs, ranks: Ranks)
    requires SamePool(p, q)
    ensures FillGroups(order, p, seats, needs, ranks) == FillGroups(order, q, seats, needs, ranks)
    decreases |order|
  {
    if order == [] {
    } else {
      EligibleAgree(p, q, seats, order[0], ranks);
      FillGroupsAgree(order[1..], p, q, FillGroup(p, seats, order[0], needs, ranks).0, needs, ranks);
    }
  }

  lemma {:induction false} TrySwapAgrees(
    movable: seq<Candidate>, p: seq<Raider>, q: seq<Raider>, seats: Seats, short: Group, needs: Needs, ranks: Ranks)
    requires SamePool(p, q)
    requires forall c | c in movable :: c.raider.id in seats
    ensures TrySwap(movable, p, seats, short, needs, ranks) == TrySwap(movable, q, seats, short, needs, ranks)
    decreases |movable|
  {
    if movable == [] {
    } else {
      var m := movable[0].raider;
      var moved := Moved(m, seats, short, needs);
      if moved.Some? { EligibleAgree(p, q, moved.value, seats[m.id].group, ranks); }
      TrySwapAgrees(movable[1..], p, q, seats, short, needs, ranks);
    }
  }

  lemma {:induction false} RepairStepAgrees(
    order: seq<Group>, p: seq<Raider>, q: seq<Raider>, seats: Seats, needs: Needs, ranks: Ranks)
    requires SamePool(p, q)
    ensures RepairStep(order, p, seats, needs, ranks) == RepairStep(order, q, seats, needs, ranks)
    decreases |order|
  {
    if order == [] {
    } else {
      MovableAgree(p, q, seats, order[0], ranks);
      MovableAreSeated(p, seats, order[0], ranks);
      TrySwapAgrees(Movable(p, seats, order[0], ranks), p, q, seats, order[0], needs, ranks);
      RepairStepAgrees(order[1..], p, q, seats, needs, ranks);
    }
  }

  lemma {:induction false} RepairAgrees(
    passes: nat, order: seq<Group>, p: seq<Raider>, q: seq<Raider>, seats: Seats, needs: Needs, ranks: Ranks)
    requires SamePool(p, q)
    ensures Repair(passes, order, p, seats, needs, ranks) == Repair(passes, order, q, seats, needs, ranks)
    decreases passes
  {
    if passes == 0 {
    } else {
      RepairStepAgrees(order, p, q, seats, needs, ranks);
      var next := RepairStep(order, p, seats, needs, ranks);
      if next.Some? { RepairAgrees(passes - 1, order, p, q, next.value, needs, ranks); }
    }
  }

  lemma SeatingsAgree(p: seq<Raider>, q: seq<Raider>, needs: Needs)
    requires SamePool(p, q)
    ensures Seating(p, needs) == Seating(q, needs)
  {
    SamePoolBothWays(p, q);
    RanksAgree(p, q);
    var ranks := SignupRanks(p);
    FillGroupsAgree(ScarcestFirst(needs), p, q, map[], needs, ranks);
    RepairAgrees(|p|, GROUPS, p, q, FillGroups(ScarcestFirst(needs), p, map[], needs, ranks), needs, ranks);
  }

  lemma ListsAgree(p: seq<Raider>, q: seq<Raider>, f: Raider -> Option<Raider>, less: (Raider, Raider) -> bool)
    requires SamePool(p, q) && StrictTotalOn(less, Elements(p))
    requires forall r :: f(r) == None || f(r) == Some(r)
    ensures Sort(FilterMap(p, f), less) == Sort(FilterMap(q, f), less)
  {
    FilterMapPermutes(p, q, f);
    forall r | r in FilterMap(p, f) ensures r in Elements(p) { FilterMapIn(p, f, r); }
    SortIgnoresOrder(FilterMap(p, f), FilterMap(q, f), less, Elements(p));
  }

  lemma RowsAgree(p: seq<Raider>, q: seq<Raider>, seats: Seats, ranks: Ranks)
    requires SamePool(p, q)
    ensures Rows(p, seats, ranks) == Rows(q, seats, ranks)
  {
    SeatOrderIsTotal(seats, ranks, Elements(p));
    BenchOrderIsTotal(ranks, Elements(p));
    ListsAgree(p, q, SeatedOnly(seats), SeatOrder(seats, ranks));
    ListsAgree(p, q, BenchedOnly(seats), BenchOrder(ranks));
  }

  /** Any two listings of the same signups are answered with the same assignment list. */
  lemma AssignIgnoresOrder(raiders: seq<Raider>, shuffled: seq<Raider>, t: Template, mode: Mode)
    requires SamePool(raiders, shuffled)
    ensures AssignResult(raiders, t, mode).assignments == AssignResult(shuffled, t, mode).assignments
  {
    var p, q := FilterMap(raiders, Playable()), FilterMap(shuffled, Playable());
    FilterMapPermutes(raiders, shuffled, Playable());
    PlayablePool(raiders);
    SamePoolBothWays(p, q);
    var needs := ResolvedNeeds(t, mode, |p|);
    SeatingsAgree(p, q, needs);
    RanksAgree(p, q);
    RowsAgree(p, q, Seating(p, needs), SignupRanks(p));
  }
}
