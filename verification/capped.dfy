/** How good the seating is when melee or ranged seats are capped: never below half of the
    best possible one. */
module CappedQuality {
  import opened Options
  import opened Sequences
  import opened Comp
  import opened Placing
  import opened SeatingRules
  import opened SeatingQuality

  /** Who plays which role; the caps speak of sides, so groups are not enough. */
  type RolePlan = map<CharacterId, Role>

  function Playing(plan: RolePlan, role: Role): set<CharacterId> { set id | id in plan && plan[id] == role }

  function Grouped(plan: RolePlan): Plan { map id | id in plan :: GroupForRole(plan[id]) }

  ghost predicate PlaysRole(pool: seq<Raider>, id: CharacterId, role: Role) {
    exists r :: r in pool && r.id == id && CanPlay(r, role).Some?
  }

  /** A seating a raid lead could write down: raiders of the pool in roles of their menus,
      nobody twice, no group above its need and no side above its cap. */
  ghost predicate LegalRoles(pool: seq<Raider>, plan: RolePlan, needs: Needs) {
    && (forall id | id in plan :: PlaysRole(pool, id, plan[id]))
    && (forall g: Group :: |In(Grouped(plan), {g})| <= NeedOf(needs, g))
    && WithinCap(needs.maxMelee, |Playing(plan, MeleeDps)|)
    && WithinCap(needs.maxRanged, |Playing(plan, RangedDps)|)
  }

  /** The raiders a plan seats and the seating does not. */
  function Newcomers(plan: RolePlan, seats: Seats): RolePlan { map id | id in plan && id !in seats :: plan[id] }

  lemma NewcomersAreFewer(plan: RolePlan, seats: Seats)
    ensures forall g: Group :: |In(Grouped(Newcomers(plan, seats)), {g})| <= |In(Grouped(plan), {g})|
    ensures forall role: Role :: |Playing(Newcomers(plan, seats), role)| <= |Playing(plan, role)|
  {
    var joining := Newcomers(plan, seats);
    forall g: Group ensures |In(Grouped(joining), {g})| <= |In(Grouped(plan), {g})| {
      SubsetSize(In(Grouped(joining), {g}), In(Grouped(plan), {g}));
    }
    forall role: Role ensures |Playing(joining, role)| <= |Playing(plan, role)| {
      SubsetSize(Playing(joining, role), Playing(plan, role));
    }
  }

  /** A newcomer to a short group is kept out by a closed side alone. */
  lemma NewcomerMeetsAClosedSide(pool: seq<Raider>, seats: Seats, needs: Needs, id: CharacterId, role: Role)
    requires PlaysRole(pool, id, role) && id !in seats
    requires NoneFits(pool, seats, GroupForRole(role), needs)
    ensures !SideOpen(role, needs, Held(seats, MeleeDps), Held(seats, RangedDps))
  {
    var r :| r in pool && r.id == id && CanPlay(r, role).Some?;
    assert Place(r, GroupForRole(role), needs, seats).None?;
    PlacementIsBestOpenRole(r, GroupForRole(role), needs, Held(seats, MeleeDps), Held(seats, RangedDps));
  }

  lemma ClosedSideHoldsTheCap(
    pool: seq<Raider>, plan: RolePlan, seats: Seats, needs: Needs, role: Role)
    requires LegalRoles(pool, plan, needs) && NoneFits(pool, seats, DpsGroup, needs) && GroupForRole(role) == DpsGroup
    ensures |Playing(Newcomers(plan, seats), role)| <= Held(seats, role)
  {
    var joining := Newcomers(plan, seats);
    NewcomersAreFewer(plan, seats);
    if SideOpen(role, needs, Held(seats, MeleeDps), Held(seats, RangedDps)) {
      forall id | id in joining ensures joining[id] != role {
        if joining[id] == role { NewcomerMeetsAClosedSide(pool, seats, needs, id, role); }
      }
      assert Playing(joining, role) == {};
    }
  }

  lemma SidesFillTheGroup(pool: seq<Raider>, seats: Seats, needs: Needs)
    requires Sound(pool, seats, needs)
    ensures Held(seats, MeleeDps) + Held(seats, RangedDps) == Count(seats, DpsGroup)
  {
    forall id | id in seats ensures seats[id].group == GroupForRole(seats[id].role) {
      assert id in Ids(pool);
      var r :| r in pool && r.id == id;
      assert Fits(r, seats[id]);
    }
    assert Members(seats, DpsGroup) == Holders(seats, MeleeDps) + Holders(seats, RangedDps);
    assert Holders(seats, MeleeDps) !! Holders(seats, RangedDps);
  }

  lemma DpsIsTwoSides(plan: RolePlan)
    ensures |In(Grouped(plan), {DpsGroup})| <= |Playing(plan, MeleeDps)| + |Playing(plan, RangedDps)|
  {
    forall id | id in plan
      ensures GroupForRole(plan[id]) == DpsGroup <==> plan[id] == MeleeDps || plan[id] == RangedDps
    {
    }
    assert In(Grouped(plan), {DpsGroup}) == Playing(plan, MeleeDps) + Playing(plan, RangedDps);
    UnionSize(Playing(plan, MeleeDps), Playing(plan, RangedDps));
  }

  /** However a group ended, no more raiders can join it than it seats. */
  lemma JoinersAtMostSeats(pool: seq<Raider>, plan: RolePlan, seats: Seats, needs: Needs, g: Group)
    requires LegalRoles(pool, plan, needs) && Sound(pool, seats, needs) && AllSettled(pool, seats, needs)
    ensures |In(Grouped(Newcomers(plan, seats)), {g})| <= Count(seats, g)
  {
    var joining := Newcomers(plan, seats);
    assert Settled(pool, seats, g, needs);
    NewcomersAreFewer(plan, seats);
    if Short(seats, g, needs) {
      if g == DpsGroup {
        ClosedSideHoldsTheCap(pool, plan, seats, needs, MeleeDps);
        ClosedSideHoldsTheCap(pool, plan, seats, needs, RangedDps);
        SidesFillTheGroup(pool, seats, needs);
        DpsIsTwoSides(joining);
      } else {
        forall id | id in joining ensures GroupForRole(joining[id]) != g {
          if GroupForRole(joining[id]) == g { NewcomerMeetsAClosedSide(pool, seats, needs, id, plan[id]); }
        }
        assert In(Grouped(joining), {g}) == {};
      }
    }
  }

  lemma BySum(plan: Plan)
    ensures |plan| == |In(plan, {TankGroup})| + |In(plan, {HealerGroup})| + |In(plan, {DpsGroup})|
  {
    AllIn(plan);
    InSplits(plan, {TankGroup}, {HealerGroup});
    InSplits(plan, {TankGroup} + {HealerGroup}, {DpsGroup});
    assert {TankGroup} + {HealerGroup} + {DpsGroup} == EVERY_GROUP;
  }

  lemma SettledBounds(pool: seq<Raider>, plan: RolePlan, seats: Seats, needs: Needs)
    requires LegalRoles(pool, plan, needs) && Sound(pool, seats, needs) && AllSettled(pool, seats, needs)
    ensures |plan| <= 2 * |seats|
  {
    var joining := Newcomers(plan, seats);
    forall g: Group ensures |In(Grouped(joining), {g})| <= |In(PlanOf(seats), {g})| {
      JoinersAtMostSeats(pool, plan, seats, needs, g);
      GroupCount(seats, g);
    }
    BySum(Grouped(joining));
    BySum(PlanOf(seats));
    SameSize(Grouped(joining), joining.Keys);
    SameSize(PlanOf(seats), seats.Keys);
    assert |plan.Keys| == |plan| && |seats.Keys| == |seats|;
    SubsetSize(plan.Keys, seats.Keys + joining.Keys);
    UnionSize(seats.Keys, joining.Keys);
  }

  lemma SameSize(plan: Plan, keys: set<CharacterId>)
    requires plan.Keys == keys
    ensures |plan| == |keys|
  {
    assert |plan.Keys| == |plan|;
  }

  /** Whatever the caps, Assign seats at least half of what any legal plan seats. */
  lemma SeatingIsWithinHalf(pool: seq<Raider>, needs: Needs, plan: RolePlan)
    requires DistinctIds(pool) && WithinCap(needs.maxMelee, 0) && WithinCap(needs.maxRanged, 0)
    requires LegalRoles(pool, plan, needs)
    ensures |plan| <= 2 * |Seating(pool, needs)|
  {
    SeatingIsAtRest(pool, needs);
    SettledBounds(pool, plan, Seating(pool, needs), needs);
  }
}
