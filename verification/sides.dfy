/** The two thirds bound under caps, when nobody plays both melee and ranged. */
module SidesQuality {
  import opened Options
  import opened Comp
  import opened Placing
  import opened SeatingRules
  import opened SeatingQuality
  import opened CappedQuality

  function RolesOf(seats: Seats): RolePlan { map id | id in seats :: seats[id].role }

  function PlayingIn(plan: RolePlan, roles: set<Role>): set<CharacterId> { set id | id in plan && plan[id] in roles }

  const EVERY_ROLE: set<Role> := {Tank, Healer, MeleeDps, RangedDps}

  lemma EveryRoleIn(role: Role)
    ensures role in EVERY_ROLE
  {
    match role
    case Tank =>
    case Healer =>
    case MeleeDps =>
    case RangedDps =>
  }

  lemma AllPlay(plan: RolePlan)
    ensures PlayingIn(plan, EVERY_ROLE) == plan.Keys && |PlayingIn(plan, EVERY_ROLE)| == |plan|
  {
    forall id | id in plan ensures plan[id] in EVERY_ROLE { EveryRoleIn(plan[id]); }
    assert PlayingIn(plan, EVERY_ROLE) == plan.Keys;
    assert |plan.Keys| == |plan|;
  }

  lemma PlayingSplits(plan: RolePlan, a: set<Role>, b: set<Role>)
    requires a !! b
    ensures |PlayingIn(plan, a + b)| == |PlayingIn(plan, a)| + |PlayingIn(plan, b)|
  {
    assert PlayingIn(plan, a + b) == PlayingIn(plan, a) + PlayingIn(plan, b);
    assert PlayingIn(plan, a) !! PlayingIn(plan, b);
  }

  /** Roles of three kinds: the plan holds no more than the seating in w, nor in w and u
      together, all its newcomers go to w, and its people in l already sit outside w. */
  lemma ThreeKindsBound(plan: RolePlan, held: RolePlan, w: set<Role>, u: set<Role>, l: set<Role>)
    requires w !! u && w + u !! l && w + u + l == EVERY_ROLE
    requires |PlayingIn(plan, w)| <= |PlayingIn(held, w)|
    requires |PlayingIn(plan, w + u)| <= |PlayingIn(held, w + u)|
    requires forall id | id in plan && id !in held :: plan[id] in w
    requires forall id | id in plan && plan[id] in l :: id in held && held[id] in u + l
    ensures 2 * |plan| <= 3 * |held|
  {
    AllPlay(plan);
    AllPlay(held);
    PlayingSplits(plan, w + u, l);
    PlayingSplits(held, w + u, l);
    PlayingSplits(held, w, u);
    PlayingSplits(held, u, l);
    forall id | id in PlayingIn(plan, l) ensures id in PlayingIn(held, u + l) {
      assert id in plan && plan[id] in l;
    }
    SubsetSize(PlayingIn(plan, l), PlayingIn(held, u + l));
    forall id | id in plan ensures id in held.Keys + PlayingIn(plan, w) {
      if id !in held { assert plan[id] in w; }
    }
    SubsetSize(plan.Keys, held.Keys + PlayingIn(plan, w));
    UnionSize(held.Keys, PlayingIn(plan, w));
    assert |plan.Keys| == |plan| && |held.Keys| == |held|;
  }

  // ----- The three kinds of a seating at rest

  ghost predicate WantedRole(pool: seq<Raider>, seats: Seats, role: Role) {
    exists b :: b in pool && b.id !in seats && CanPlay(b, role).Some?
  }

  predicate RoleOpen(seats: Seats, role: Role, needs: Needs) {
    SideOpen(role, needs, Held(seats, MeleeDps), Held(seats, RangedDps))
  }

  predicate IsSide(role: Role) { role.MeleeDps? || role.RangedDps? }

  /** A full DPS group in which whoever leaves is replaced from the bench, whichever side they leave. */
  ghost predicate Loose(pool: seq<Raider>, seats: Seats, needs: Needs) {
    && !Short(seats, DpsGroup, needs)
    && exists side: Role :: IsSide(side) && WantedRole(pool, seats, side) && RoleOpen(seats, side, needs)
  }

  ghost predicate IsWanted(pool: seq<Raider>, seats: Seats, needs: Needs, role: Role) {
    WantedRole(pool, seats, role) || (IsSide(role) && Loose(pool, seats, needs))
  }

  ghost predicate IsFull(seats: Seats, needs: Needs, role: Role) {
    !Short(seats, GroupForRole(role), needs) || !RoleOpen(seats, role, needs)
  }

  ghost function WantedRoles(pool: seq<Raider>, seats: Seats, needs: Needs): set<Role> {
    set role | role in EVERY_ROLE && IsWanted(pool, seats, needs, role)
  }

  ghost function UnwantedRoles(pool: seq<Raider>, seats: Seats, needs: Needs): set<Role> {
    set role | role in EVERY_ROLE && !IsWanted(pool, seats, needs, role) && IsFull(seats, needs, role)
  }

  ghost function LackingRoles(pool: seq<Raider>, seats: Seats, needs: Needs): set<Role> {
    set role | role in EVERY_ROLE && !IsWanted(pool, seats, needs, role) && !IsFull(seats, needs, role)
  }

  /** A role the bench wants is full: its group is, or its side is closed. */
  lemma WantedIsFull(pool: seq<Raider>, seats: Seats, needs: Needs, role: Role)
    requires AllSettled(pool, seats, needs) && IsWanted(pool, seats, needs, role)
    ensures IsFull(seats, needs, role)
  {
    var g := GroupForRole(role);
    assert Settled(pool, seats, g, needs);
    if Short(seats, g, needs) && WantedRole(pool, seats, role) {
      var b :| b in pool && b.id !in seats && CanPlay(b, role).Some?;
      assert Place(b, g, needs, seats).None?;
      PlacementIsBestOpenRole(b, g, needs, Held(seats, MeleeDps), Held(seats, RangedDps));
    }
  }

  lemma SameRole(plan: RolePlan, role: Role)
    ensures PlayingIn(plan, {role}) == Playing(plan, role)
  {
  }

  lemma HeldIsPlaying(seats: Seats, role: Role)
    ensures |PlayingIn(RolesOf(seats), {role})| == Held(seats, role)
  {
    assert PlayingIn(RolesOf(seats), {role}) == Holders(seats, role);
  }

  /** A closed side holds at least what any legal plan puts there. */
  lemma ClosedHoldsMore(pool: seq<Raider>, plan: RolePlan, seats: Seats, needs: Needs, role: Role)
    requires LegalRoles(pool, plan, needs) && !RoleOpen(seats, role, needs)
    ensures |PlayingIn(plan, {role})| <= |PlayingIn(RolesOf(seats), {role})|
  {
    SameRole(plan, role);
    HeldIsPlaying(seats, role);
  }

  /** So does a full group. */
  lemma FullGroupHoldsMore(pool: seq<Raider>, plan: RolePlan, seats: Seats, needs: Needs, g: Group, roles: set<Role>)
    requires LegalRoles(pool, plan, needs) && Sound(pool, seats, needs) && !Short(seats, g, needs)
    requires forall role :: role in roles <==> GroupForRole(role) == g
    ensures |PlayingIn(plan, roles)| <= |PlayingIn(RolesOf(seats), roles)|
  {
    assert PlayingIn(plan, roles) == In(Grouped(plan), {g});
    forall id | id in seats ensures seats[id].group == GroupForRole(seats[id].role) {
      assert id in Ids(pool);
      var r :| r in pool && r.id == id;
      assert Fits(r, seats[id]);
    }
    assert PlayingIn(RolesOf(seats), roles) == Members(seats, g);
  }

  lemma PlayingInParts(plan: RolePlan, roles: set<Role>)
    ensures |PlayingIn(plan, roles)|
         == |PlayingIn(plan, roles * {Tank})| + |PlayingIn(plan, roles * {Healer})|
            + |PlayingIn(plan, roles * {MeleeDps, RangedDps})|
  {
    var t, h, d := roles * {Tank}, roles * {Healer}, roles * {MeleeDps, RangedDps};
    forall role | role in roles ensures role in t + h + d { EveryRoleIn(role); }
    assert roles == t + h + d;
    PlayingSplits(plan, t + h, d);
    PlayingSplits(plan, t, h);
  }

  lemma NobodyPlays(plan: RolePlan)
    ensures PlayingIn(plan, {}) == {}
  {
  }

  /** A full tank or healer role is a full group. */
  lemma SingleHoldsMore(pool: seq<Raider>, plan: RolePlan, seats: Seats, needs: Needs, roles: set<Role>, role: Role)
    requires LegalRoles(pool, plan, needs) && Sound(pool, seats, needs) && !IsSide(role)
    requires role in roles ==> IsFull(seats, needs, role)
    ensures |PlayingIn(plan, roles * {role})| <= |PlayingIn(RolesOf(seats), roles * {role})|
  {
    if role in roles {
      assert roles * {role} == {role};
      FullGroupHoldsMore(pool, plan, seats, needs, GroupForRole(role), {role});
    } else {
      assert roles * {role} == {};
      NobodyPlays(plan);
    }
  }

  /** A full DPS group with an open side among these roles has both its sides among them. */
  ghost predicate TakenTogether(seats: Seats, needs: Needs, roles: set<Role>) {
    forall side | side in roles && IsSide(side) && RoleOpen(seats, side, needs) && !Short(seats, DpsGroup, needs) ::
      MeleeDps in roles && RangedDps in roles
  }

  /** A plan puts no more raiders in full roles than the seating does. */
  lemma FullRolesHoldMore(pool: seq<Raider>, plan: RolePlan, seats: Seats, needs: Needs, roles: set<Role>)
    requires LegalRoles(pool, plan, needs) && Sound(pool, seats, needs)
    requires (forall role | role in roles :: IsFull(seats, needs, role)) && TakenTogether(seats, needs, roles)
    ensures |PlayingIn(plan, roles)| <= |PlayingIn(RolesOf(seats), roles)|
  {
    PlayingInParts(plan, roles);
    PlayingInParts(RolesOf(seats), roles);
    SingleHoldsMore(pool, plan, seats, needs, roles, Tank);
    SingleHoldsMore(pool, plan, seats, needs, roles, Healer);
    SidesHoldMore(pool, plan, seats, needs, roles);
  }

  lemma SidesHoldMore(pool: seq<Raider>, plan: RolePlan, seats: Seats, needs: Needs, roles: set<Role>)
    requires LegalRoles(pool, plan, needs) && Sound(pool, seats, needs)
    requires (forall role | role in roles :: IsFull(seats, needs, role)) && TakenTogether(seats, needs, roles)
    ensures var d := roles * {MeleeDps, RangedDps};
      |PlayingIn(plan, d)| <= |PlayingIn(RolesOf(seats), d)|
  {
    if side :| side in roles && IsSide(side) && RoleOpen(seats, side, needs) {
      assert roles * {MeleeDps, RangedDps} == {MeleeDps, RangedDps};
      FullGroupHoldsMore(pool, plan, seats, needs, DpsGroup, {MeleeDps, RangedDps});
    } else {
      SideHoldsMore(pool, plan, seats, needs, roles, MeleeDps);
      SideHoldsMore(pool, plan, seats, needs, roles, RangedDps);
      TwoSides(plan, roles);
      TwoSides(RolesOf(seats), roles);
    }
  }

  lemma SideHoldsMore(pool: seq<Raider>, plan: RolePlan, seats: Seats, needs: Needs, roles: set<Role>, side: Role)
    requires LegalRoles(pool, plan, needs)
    requires side in roles ==> !RoleOpen(seats, side, needs)
    ensures |PlayingIn(plan, roles * {side})| <= |PlayingIn(RolesOf(seats), roles * {side})|
  {
    if side in roles {
      assert roles * {side} == {side};
      ClosedHoldsMore(pool, plan, seats, needs, side);
    } else {
      assert roles * {side} == {};
      NobodyPlays(plan);
    }
  }

  lemma TwoSides(plan: RolePlan, roles: set<Role>)
    ensures |PlayingIn(plan, roles * {MeleeDps, RangedDps})|
         == |PlayingIn(plan, roles * {MeleeDps})| + |PlayingIn(plan, roles * {RangedDps})|
  {
    PlayingSplits(plan, roles * {MeleeDps}, roles * {RangedDps});
    assert roles * {MeleeDps} + roles * {RangedDps} == roles * {MeleeDps, RangedDps};
  }

  // ----- Who sits where a newcomer could go

  predicate Hybrid(r: Raider) { CanPlay(r, MeleeDps).Some? && CanPlay(r, RangedDps).Some? }

  lemma TakesAnOpenRole(r: Raider, role: Role, needs: Needs, seats: Seats)
    requires CanPlay(r, role).Some? && RoleOpen(seats, role, needs)
    ensures Place(r, GroupForRole(role), needs, seats).Some?
  {
    PlacementIsBestOpenRole(r, GroupForRole(role), needs, Held(seats, MeleeDps), Held(seats, RangedDps));
    assert CanTake(r, role, needs, Held(seats, MeleeDps), Held(seats, RangedDps));
  }

  /** A raider who sits in a wanted role can always be replaced by somebody benched. */
  lemma WantedIsReplaced(pool: seq<Raider>, seats: Seats, needs: Needs, m: Raider, short: Group) returns (b: Raider)
    requires Sound(pool, seats, needs) && m in pool && m.id in seats
    requires seats[m.id].group != short && Moved(m, seats, short, needs).Some?
    requires IsWanted(pool, seats, needs, seats[m.id].role)
    ensures IsSwap(pool, seats, short, needs, m, b)
  {
    var from, moved := seats[m.id].role, Moved(m, seats, short, needs).value;
    assert Fits(m, seats[m.id]);
    var role := from;
    if WantedRole(pool, seats, from) {
      b :| b in pool && b.id !in seats && CanPlay(b, from).Some?;
    } else {
      role :| IsSide(role) && WantedRole(pool, seats, role) && RoleOpen(seats, role, needs);
      b :| b in pool && b.id !in seats && CanPlay(b, role).Some?;
    }
    UnseatOne(seats, m.id);
    PlaceFits(m, short, needs, seats - {m.id});
    SeatOne(seats - {m.id}, m.id, moved[m.id]);
    TakesAnOpenRole(b, role, needs, moved);
  }

  /** Nobody who sits in a wanted role plays a lacking one. */
  lemma LackingIsNotWanted(pool: seq<Raider>, seats: Seats, needs: Needs, r: Raider, role: Role)
    requires Sound(pool, seats, needs) && AtRest(pool, seats, needs)
    requires r in pool && r.id in seats && CanPlay(r, role).Some? && !Hybrid(r)
    requires !IsWanted(pool, seats, needs, role) && !IsFull(seats, needs, role)
    ensures !IsWanted(pool, seats, needs, seats[r.id].role)
  {
    var short := GroupForRole(role);
    assert Fits(r, seats[r.id]);
    if IsWanted(pool, seats, needs, seats[r.id].role) && seats[r.id].group != short {
      UnseatOne(seats, r.id);
      TakesAnOpenRole(r, role, needs, seats - {r.id});
      var b := WantedIsReplaced(pool, seats, needs, r, short);
    }
  }

  lemma KindsTakeBothSides(pool: seq<Raider>, seats: Seats, needs: Needs)
    requires AllSettled(pool, seats, needs)
    ensures TakenTogether(seats, needs, WantedRoles(pool, seats, needs))
    ensures TakenTogether(seats, needs, WantedRoles(pool, seats, needs) + UnwantedRoles(pool, seats, needs))
  {
    EveryRoleIn(MeleeDps);
    EveryRoleIn(RangedDps);
    if !Short(seats, DpsGroup, needs) {
      assert IsFull(seats, needs, MeleeDps) && IsFull(seats, needs, RangedDps);
      forall side | side in WantedRoles(pool, seats, needs) && IsSide(side) && RoleOpen(seats, side, needs)
        ensures MeleeDps in WantedRoles(pool, seats, needs) && RangedDps in WantedRoles(pool, seats, needs)
      {
        assert Loose(pool, seats, needs);
      }
    }
  }

  lemma RestBoundsSides(pool: seq<Raider>, plan: RolePlan, seats: Seats, needs: Needs)
    requires LegalRoles(pool, plan, needs) && Sound(pool, seats, needs)
    requires AllSettled(pool, seats, needs) && AtRest(pool, seats, needs)
    requires forall r | r in pool :: !Hybrid(r)
    ensures 2 * |plan| <= 3 * |seats|
  {
    var w, u, l := WantedRoles(pool, seats, needs), UnwantedRoles(pool, seats, needs), LackingRoles(pool, seats, needs);
    var held := RolesOf(seats);
    assert w + u + l == EVERY_ROLE;
    forall role | role in w ensures IsFull(seats, needs, role) { WantedIsFull(pool, seats, needs, role); }
    assert TakenTogether(seats, needs, w) && TakenTogether(seats, needs, w + u) by {
      KindsTakeBothSides(pool, seats, needs);
    }
    FullRolesHoldMore(pool, plan, seats, needs, w);
    FullRolesHoldMore(pool, plan, seats, needs, w + u);
    forall id | id in plan
      ensures id !in held ==> plan[id] in w
      ensures plan[id] in l ==> id in held && held[id] in u + l
    {
      var r :| r in pool && r.id == id && CanPlay(r, plan[id]).Some?;
      EveryRoleIn(plan[id]);
      if id in seats {
        EveryRoleIn(seats[id].role);
        if plan[id] in l { LackingIsNotWanted(pool, seats, needs, r, plan[id]); }
      } else {
        assert WantedRole(pool, seats, plan[id]);
      }
    }
    ThreeKindsBound(plan, held, w, u, l);
    assert held.Keys == seats.Keys && |held.Keys| == |held| && |seats.Keys| == |seats|;
  }

  /** Whatever the caps, with no raider on both sides Assign seats at least two thirds of what
      any legal plan seats. */
  lemma TwoThirdsWithoutHybrids(pool: seq<Raider>, needs: Needs, plan: RolePlan)
    requires DistinctIds(pool) && WithinCap(needs.maxMelee, 0) && WithinCap(needs.maxRanged, 0)
    requires LegalRoles(pool, plan, needs) && forall r | r in pool :: !Hybrid(r)
    ensures 3 * |Seating(pool, needs)| >= 2 * |plan|
  {
    SeatingIsAtRest(pool, needs);
    RestBoundsSides(pool, plan, Seating(pool, needs), needs);
  }
}
