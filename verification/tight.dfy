/** Two thirds cannot be improved on: three raiders, a five-man group, and one seat lost. */
module TwoThirdsIsTight {
  import opened Options
  import opened Sequences
  import opened Comp
  import opened Placing
  import opened SeatingQuality

  const A := Raider(1, "a", [RoleChoice(Tank, 2)], true, 0.0, 1)
  const B := Raider(2, "b", [RoleChoice(Tank, 1), RoleChoice(Healer, 2)], true, 0.0, 2)
  const C := Raider(3, "c", [RoleChoice(Healer, 1), RoleChoice(MeleeDps, 2)], true, 0.0, 3)
  const POOL: seq<Raider> := [A, B, C]
  const NEEDS := Needs(1, 1, 3, None, None)

  const B_TANKS: Seats := map[2 := Placement(Tank, TankGroup, 1)]
  const BOTH: Seats := map[2 := Placement(Tank, TankGroup, 1), 3 := Placement(Healer, HealerGroup, 1)]

  lemma FilterThree(f: Raider -> Option<Candidate>)
    ensures FilterMap(POOL, f) == Opt(f(A)) + Opt(f(B)) + Opt(f(C))
  {
    assert POOL[..0] == [] && POOL[..1] == [A] && POOL[..2] == [A, B] && POOL[..3] == POOL;
    FilterMapStep(POOL, 0, f);
    FilterMapStep(POOL, 1, f);
    FilterMapStep(POOL, 2, f);
  }

  function Opt<T>(o: Option<T>): seq<T> { if o.None? then [] else [o.value] }

  lemma Menus()
    ensures GroupPriority(A, TankGroup) == Some(2) && GroupPriority(A, HealerGroup).None?
          && GroupPriority(A, DpsGroup).None?
    ensures GroupPriority(B, TankGroup) == Some(1) && GroupPriority(B, HealerGroup) == Some(2)
          && GroupPriority(B, DpsGroup).None?
    ensures GroupPriority(C, TankGroup).None? && GroupPriority(C, HealerGroup) == Some(1)
          && GroupPriority(C, DpsGroup) == Some(2)
  {
    assert B.roles[1..] == [RoleChoice(Healer, 2)] && C.roles[1..] == [RoleChoice(MeleeDps, 2)];
  }

  lemma SortOne<T>(x: T, less: (T, T) -> bool)
    ensures Sort([x], less) == [x]
  {
    assert [x][1..] == [];
  }

  lemma SortSwaps<T>(x: T, y: T, less: (T, T) -> bool)
    requires less(y, x)
    ensures Sort([x, y], less) == [y, x]
  {
    assert [x, y][1..] == [y] && [y][1..] == [];
    SortOne(y, less);
    assert Insert(x, [], less) == [x];
  }

  lemma SortKeeps<T>(x: T, ys: seq<T>, less: (T, T) -> bool)
    requires Sort(ys, less) == ys && (ys == [] || !less(ys[0], x))
    ensures Sort([x] + ys, less) == [x] + ys
  {
    assert ([x] + ys)[1..] == ys;
  }

  lemma FillTakes(c: Candidate, rest: seq<Candidate>, seats: Seats, g: Group, need: int, needs: Needs, pl: Placement)
    requires need == 1 && Place(c.raider, g, needs, seats) == Some(pl)
    ensures Fill([c] + rest, seats, g, need, 0, needs) == (seats[c.raider.id := pl], 1)
  {
    assert ([c] + rest)[1..] == rest;
  }

  lemma FillTanks(ranks: Ranks)
    ensures FillGroup(POOL, map[], TankGroup, NEEDS, ranks).0 == B_TANKS
  {
    Menus();
    FilterThree(EligibleFor(map[], TankGroup));
    var a, b := Candidate(A, 2), Candidate(B, 1);
    assert FilterMap(POOL, EligibleFor(map[], TankGroup)) == [a, b];
    SortSwaps(a, b, ByRank(ranks));
    FillTakes(b, [a], map[], TankGroup, 1, NEEDS, Placement(Tank, TankGroup, 1));
    assert [b] + [a] == [b, a];
  }

  lemma FillHealers(ranks: Ranks)
    ensures FillGroup(POOL, B_TANKS, HealerGroup, NEEDS, ranks).0 == BOTH
  {
    Menus();
    FilterThree(EligibleFor(B_TANKS, HealerGroup));
    var c := Candidate(C, 1);
    assert FilterMap(POOL, EligibleFor(B_TANKS, HealerGroup)) == [c];
    SortOne(c, ByRank(ranks));
    FillTakes(c, [], B_TANKS, HealerGroup, 1, NEEDS, Placement(Healer, HealerGroup, 1));
    assert [c] + [] == [c];
    assert B_TANKS[3 := Placement(Healer, HealerGroup, 1)] == BOTH;
  }

  lemma FillDps(ranks: Ranks)
    ensures FillGroup(POOL, BOTH, DpsGroup, NEEDS, ranks).0 == BOTH
  {
    Menus();
    FilterThree(EligibleFor(BOTH, DpsGroup));
    assert FilterMap(POOL, EligibleFor(BOTH, DpsGroup)) == [];
  }

  lemma Order(needs: Needs)
    requires needs.tanks == 1 && needs.healers == 1 && needs.dps == 3
    ensures ScarcestFirst(needs) == [TankGroup, HealerGroup, DpsGroup]
  {
    var less := Scarcer(needs);
    SortOne(DpsGroup, less);
    SortKeeps(HealerGroup, [DpsGroup], less);
    assert [HealerGroup] + [DpsGroup] == [HealerGroup, DpsGroup];
    SortKeeps(TankGroup, [HealerGroup, DpsGroup], less);
    assert [TankGroup] + [HealerGroup, DpsGroup] == GROUPS;
  }

  lemma NobodyBackfills(seats: Seats, ranks: Ranks, needs: Needs)
    requires 2 in seats && 3 in seats
    ensures Backfill(Eligible(POOL, seats, HealerGroup, ranks), seats, HealerGroup, needs).None?
  {
    Menus();
    FilterThree(EligibleFor(seats, HealerGroup));
    assert FilterMap(POOL, EligibleFor(seats, HealerGroup)) == [];
  }

  lemma SwapFails(c: Candidate, seats: Seats, needs: Needs, ranks: Ranks)
    requires c.raider == C && 2 in seats && 3 in seats && seats[3].group == HealerGroup
    ensures TrySwap([c], POOL, seats, DpsGroup, needs, ranks).None?
  {
    var moved := Moved(C, seats, DpsGroup, needs);
    if moved.Some? { NobodyBackfills(moved.value, ranks, needs); }
    assert [c][1..] == [];
  }

  lemma NoSwap(ranks: Ranks)
    ensures SwapInto(POOL, BOTH, DpsGroup, NEEDS, ranks).None?
  {
    Menus();
    FilterThree(MovableInto(BOTH, DpsGroup));
    var c := Candidate(C, 2);
    assert FilterMap(POOL, MovableInto(BOTH, DpsGroup)) == [c];
    MovableAreSeated(POOL, BOTH, DpsGroup, ranks);
    SortOne(c, ByRank(ranks));
    SwapFails(c, BOTH, NEEDS, ranks);
  }

  lemma CountsOfBoth()
    ensures Count(BOTH, TankGroup) == 1 && Count(BOTH, HealerGroup) == 1 && Count(BOTH, DpsGroup) == 0
  {
    assert Members(BOTH, TankGroup) == {2} && Members(BOTH, HealerGroup) == {3} && Members(BOTH, DpsGroup) == {};
  }

  lemma NothingToRepair(order: seq<Group>, seats: Seats, needs: Needs, ranks: Ranks)
    requires order == [TankGroup, HealerGroup, DpsGroup] && seats == BOTH && needs == NEEDS
    ensures RepairStep(order, POOL, seats, needs, ranks).None?
  {
    CountsOfBoth();
    NoSwap(ranks);
    var rest := order[1..];
    assert rest == [HealerGroup, DpsGroup] && rest[1..] == [DpsGroup] && [DpsGroup][1..] == [];
    assert RepairStep([DpsGroup], POOL, seats, needs, ranks).None?;
    assert RepairStep(rest, POOL, seats, needs, ranks).None?;
  }

  lemma FillsBoth(order: seq<Group>, ranks: Ranks, needs: Needs)
    requires order == [TankGroup, HealerGroup, DpsGroup] && needs == NEEDS
    ensures FillGroups(order, POOL, map[], needs, ranks) == BOTH
  {
    FillTanks(ranks);
    FillHealers(ranks);
    FillDps(ranks);
    var rest := order[1..];
    assert rest == [HealerGroup, DpsGroup] && rest[1..] == [DpsGroup] && [DpsGroup][1..] == [];
    assert FillGroups([DpsGroup], POOL, BOTH, needs, ranks) == BOTH;
    assert FillGroups(rest, POOL, B_TANKS, needs, ranks) == BOTH;
  }

  lemma SeatsBoth(needs: Needs)
    requires needs == NEEDS
    ensures Seating(POOL, needs) == BOTH
  {
    var ranks := SignupRanks(POOL);
    Order(needs);
    FillsBoth(ScarcestFirst(needs), ranks, needs);
    NothingToRepair(GROUPS, BOTH, needs, ranks);
  }

  const PLAN: Plan := map[1 := TankGroup, 2 := HealerGroup, 3 := DpsGroup]

  lemma PlanIsLegal()
    ensures Legal(POOL, PLAN, NEEDS) && |PLAN| == 3
  {
    Menus();
    assert A in POOL && B in POOL && C in POOL;
    assert In(PLAN, {TankGroup}) == {1} && In(PLAN, {HealerGroup}) == {2} && In(PLAN, {DpsGroup}) == {3};
  }

  /** The suggested five-man needs and three raiders: two seats filled where three could be. */
  lemma TwoOfThreeSeated()
    ensures ResolvedNeeds(Template(None, None, None, None), MythicPlus, 3) == NEEDS
    ensures Legal(POOL, PLAN, NEEDS) && |PLAN| == 3 && |Seating(POOL, NEEDS)| == 2
  {
    PlanIsLegal();
    SeatsBoth(NEEDS);
  }
}

/** Under caps two thirds is false and one half exact: a main takes the one melee seat, and an
    alt who plays nothing else stays out while the ranged seat is empty. */
module HalfIsTight {
  import TwoThirdsIsTight
  import opened Options
  import opened Sequences
  import opened Comp
  import opened Placing
  import opened SeatingQuality
  import opened CappedQuality

  const A := Raider(1, "a", [RoleChoice(MeleeDps, 1), RoleChoice(RangedDps, 2)], true, 0.0, 1)
  const B := Raider(2, "b", [RoleChoice(MeleeDps, 1)], false, 0.0, 2)
  const POOL: seq<Raider> := [A, B]
  const CAPPED := Template(None, None, Some(1), Some(1))
  const NEEDS := Needs(1, 1, 3, Some(1), Some(1))
  const A_MELEE: Seats := map[1 := Placement(MeleeDps, DpsGroup, 1)]
  const PLAN: RolePlan := map[1 := RangedDps, 2 := MeleeDps]

  lemma FilterTwo(f: Raider -> Option<Candidate>)
    ensures FilterMap(POOL, f)
         == (if f(A).Some? then [f(A).value] else []) + (if f(B).Some? then [f(B).value] else [])
  {
    assert POOL[..0] == [] && POOL[..1] == [A] && POOL[..2] == POOL;
    FilterMapStep(POOL, 0, f);
    FilterMapStep(POOL, 1, f);
  }

  lemma Menus()
    ensures CanPlay(A, MeleeDps) == Some(1) && CanPlay(A, RangedDps) == Some(2)
    ensures CanPlay(B, MeleeDps) == Some(1) && CanPlay(B, RangedDps).None?
    ensures forall r | r in POOL :: CanPlay(r, Tank).None? && CanPlay(r, Healer).None?
  {
    assert A.roles[1..] == [RoleChoice(RangedDps, 2)] && A.roles[1..][1..] == [] && B.roles[1..] == [];
  }

  lemma SidesHeld()
    ensures Held(map[], MeleeDps) == 0 && Held(map[], RangedDps) == 0
    ensures Held(A_MELEE, MeleeDps) == 1 && Held(A_MELEE, RangedDps) == 0
  {
    assert Holders(map[], MeleeDps) == {} && Holders(map[], RangedDps) == {};
    assert Holders(A_MELEE, MeleeDps) == {1} && Holders(A_MELEE, RangedDps) == {};
  }

  lemma NobodyElse(seats: Seats, g: Group, ranks: Ranks)
    requires g != DpsGroup
    ensures Eligible(POOL, seats, g, ranks) == [] && Movable(POOL, seats, g, ranks) == []
  {
    Menus();
    FilterTwo(EligibleFor(seats, g));
    FilterTwo(MovableInto(seats, g));
    assert A in POOL && B in POOL;
  }

  lemma RankedAsListed(a: Candidate, b: Candidate, ranks: Ranks)
    requires a.priority == b.priority && a.raider.isMain && !b.raider.isMain
    ensures Ranked([a, b], ranks) == [a, b]
  {
    assert [a, b][1..] == [b] && [b][1..] == [];
    assert Sort([b], ByRank(ranks)) == [b];
  }

  lemma FillDps(ranks: Ranks)
    ensures FillGroup(POOL, map[], DpsGroup, NEEDS, ranks).0 == A_MELEE
  {
    Menus();
    SidesHeld();
    FilterTwo(EligibleFor(map[], DpsGroup));
    var a, b := Candidate(A, 1), Candidate(B, 1);
    assert FilterMap(POOL, EligibleFor(map[], DpsGroup)) == [a, b];
    RankedAsListed(a, b, ranks);
    var cands := Eligible(POOL, map[], DpsGroup, ranks);
    assert cands[1..] == [b] && [b][1..] == [];
    assert Place(A, DpsGroup, NEEDS, map[]) == Some(Placement(MeleeDps, DpsGroup, 1));
    assert Place(B, DpsGroup, NEEDS, A_MELEE).None?;
    assert Fill([b], A_MELEE, DpsGroup, 3, 1, NEEDS).0 == A_MELEE;
  }

  lemma FillsOne(order: seq<Group>, ranks: Ranks, needs: Needs)
    requires order == [TankGroup, HealerGroup, DpsGroup] && needs == NEEDS
    ensures FillGroups(order, POOL, map[], needs, ranks) == A_MELEE
  {
    NobodyElse(map[], TankGroup, ranks);
    NobodyElse(map[], HealerGroup, ranks);
    FillDps(ranks);
    var rest := order[1..];
    assert rest == [HealerGroup, DpsGroup] && rest[1..] == [DpsGroup] && [DpsGroup][1..] == [];
    assert FillGroups([DpsGroup], POOL, map[], needs, ranks) == A_MELEE;
    assert FillGroups(rest, POOL, map[], needs, ranks) == A_MELEE;
  }

  lemma NobodyMoves(g: Group, ranks: Ranks, needs: Needs)
    ensures SwapInto(POOL, A_MELEE, g, needs, ranks).None?
  {
    MovableAreSeated(POOL, A_MELEE, g, ranks);
    if g == DpsGroup {
      FilterTwo(MovableInto(A_MELEE, g));
      assert Movable(POOL, A_MELEE, g, ranks) == [];
    } else {
      NobodyElse(A_MELEE, g, ranks);
    }
  }

  lemma NothingToRepair(order: seq<Group>, ranks: Ranks, needs: Needs)
    ensures RepairStep(order, POOL, A_MELEE, needs, ranks).None?
    decreases |order|
  {
    if order == [] {
    } else {
      NobodyMoves(order[0], ranks, needs);
      NothingToRepair(order[1..], ranks, needs);
    }
  }

  lemma SeatsOne(needs: Needs)
    requires needs == NEEDS
    ensures Seating(POOL, needs) == A_MELEE
  {
    var ranks := SignupRanks(POOL);
    TwoThirdsIsTight.Order(needs);
    FillsOne(ScarcestFirst(needs), ranks, needs);
    NothingToRepair(GROUPS, ranks, needs);
  }

  lemma PlanIsPlayed(plan: RolePlan)
    requires plan == PLAN
    ensures forall id | id in plan :: PlaysRole(POOL, id, plan[id])
  {
    Menus();
    assert A in POOL && B in POOL;
    assert PlaysRole(POOL, 1, RangedDps) && PlaysRole(POOL, 2, MeleeDps);
  }

  lemma PlanFits(plan: RolePlan, needs: Needs)
    requires plan == PLAN && needs == NEEDS
    ensures |Playing(plan, MeleeDps)| == 1 && |Playing(plan, RangedDps)| == 1
    ensures forall g: Group :: |In(Grouped(plan), {g})| <= NeedOf(needs, g)
  {
    assert Playing(plan, MeleeDps) == {2} && Playing(plan, RangedDps) == {1};
    var grouped := Grouped(plan);
    assert grouped == map[1 := DpsGroup, 2 := DpsGroup];
    assert In(grouped, {TankGroup}) == {} && In(grouped, {HealerGroup}) == {} && In(grouped, {DpsGroup}) == {1, 2};
  }

  lemma PlanIsLegal(plan: RolePlan, needs: Needs)
    requires plan == PLAN && needs == NEEDS
    ensures LegalRoles(POOL, plan, needs) && |plan| == 2
  {
    PlanIsPlayed(plan);
    PlanFits(plan, needs);
    assert plan.Keys == {1, 2} && |plan.Keys| == |plan|;
  }

  /** The five-man needs under caps of one: one of two seated, which half allows and two
      thirds does not. */
  lemma OneOfTwoSeated()
    ensures ResolvedNeeds(CAPPED, MythicPlus, 2) == NEEDS
    ensures LegalRoles(POOL, PLAN, NEEDS) && |PLAN| == 2 && |Seating(POOL, NEEDS)| == 1
    ensures 3 * |Seating(POOL, NEEDS)| < 2 * |PLAN|
  {
    PlanIsLegal(PLAN, NEEDS);
    SeatsOne(NEEDS);
  }
}
