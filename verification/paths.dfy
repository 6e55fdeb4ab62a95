/** Exactly when a seating is the largest there is, melee and ranged caps included: when no
    chain of moves from the bench, of any length, ends in a seat still free. */
module AugmentingPaths {
  import opened Options
  import opened Comp
  import opened Placing
  import opened SeatingRules
  import opened SeatingQuality
  import opened CappedQuality
  import opened SidesQuality

  function PlaysIn(plan: RolePlan, g: Group): nat { |In(Grouped(plan), {g})| }

  function PlaysAs(plan: RolePlan, role: Role): nat { |Playing(plan, role)| }

  predicate SideFree(plan: RolePlan, role: Role, needs: Needs) {
    SideOpen(role, needs, PlaysAs(plan, MeleeDps), PlaysAs(plan, RangedDps))
  }

  predicate GroupFree(plan: RolePlan, g: Group, needs: Needs) { PlaysIn(plan, g) < NeedOf(needs, g) }

  /** x plays a role with a seat still free. */
  predicate CanJoin(plan: RolePlan, needs: Needs, x: Raider) {
    exists role: Role ::
      CanPlay(x, role).Some? && SideFree(plan, role, needs) && GroupFree(plan, GroupForRole(role), needs)
  }

  /** If y left their seat somebody else could take this role: it is y's, or another of the
      same group whose side has room. */
  predicate MakesRoom(plan: RolePlan, needs: Needs, y: Raider, role: Role) {
    && y.id in plan
    && (plan[y.id] == role || (GroupForRole(plan[y.id]) == GroupForRole(role) && SideFree(plan, role, needs)))
  }

  predicate Follows(plan: RolePlan, needs: Needs, x: Raider, y: Raider) {
    exists role: Role :: CanPlay(x, role).Some? && MakesRoom(plan, needs, y, role)
  }

  /** From somebody benched, each raider could take a seat if the next one left. */
  ghost predicate IsPath(pool: seq<Raider>, plan: RolePlan, needs: Needs, xs: seq<Raider>) {
    && xs != [] && (forall x | x in xs :: x in pool)
    && xs[0].id !in plan
    && (forall i | 0 <= i < |xs| - 1 :: Follows(plan, needs, xs[i], xs[i + 1]))
  }

  ghost predicate Augments(pool: seq<Raider>, plan: RolePlan, needs: Needs, xs: seq<Raider>) {
    IsPath(pool, plan, needs, xs) && CanJoin(plan, needs, xs[|xs| - 1])
  }

  // ----- A path makes the plan larger

  lemma PutRole(plan: RolePlan, id: CharacterId, role: Role, other: Role)
    requires id !in plan
    ensures PlaysAs(plan[id := role], other) == PlaysAs(plan, other) + (if role == other then 1 else 0)
  {
    var before, after := Playing(plan, other), Playing(plan[id := role], other);
    forall x ensures x in after <==> x in before || (x == id && role == other) {
      assert x in plan[id := role] <==> x in plan || x == id;
    }
    if role == other {
      assert after == before + {id};
    } else {
      assert after == before;
    }
  }

  lemma PlayOne(plan: RolePlan, id: CharacterId, role: Role, other: Role)
    ensures PlaysAs(plan[id := role], other)
         == PlaysAs(plan, other) - (if id in plan && plan[id] == other then 1 else 0) + (if role == other then 1 else 0)
  {
    if id in plan {
      var without := plan - {id};
      assert without[id := plan[id]] == plan;
      assert without[id := role] == plan[id := role];
      PutRole(without, id, plan[id], other);
      PutRole(without, id, role, other);
    } else {
      PutRole(plan, id, role, other);
    }
  }

  lemma GroupOne(plan: RolePlan, id: CharacterId, role: Role, g: Group)
    ensures PlaysIn(plan[id := role], g)
         == PlaysIn(plan, g) - (if id in plan && GroupForRole(plan[id]) == g then 1 else 0)
            + (if GroupForRole(role) == g then 1 else 0)
  {
    Reassign(Grouped(plan), id, GroupForRole(role), g);
    assert Grouped(plan[id := role]) == Grouped(plan)[id := GroupForRole(role)];
  }

  lemma JoinIsLegal(pool: seq<Raider>, plan: RolePlan, needs: Needs, x: Raider, role: Role)
    requires LegalRoles(pool, plan, needs) && x in pool && CanPlay(x, role).Some?
    requires SideFree(plan, role, needs) && GroupFree(plan, GroupForRole(role), needs)
    ensures LegalRoles(pool, plan[x.id := role], needs)
  {
    var after := plan[x.id := role];
    PlayOne(plan, x.id, role, MeleeDps);
    PlayOne(plan, x.id, role, RangedDps);
    forall g: Group ensures |In(Grouped(after), {g})| <= NeedOf(needs, g) { GroupOne(plan, x.id, role, g); }
    forall id | id in after ensures PlaysRole(pool, id, after[id]) {
      if id != x.id { assert PlaysRole(pool, id, plan[id]); }
    }
  }

  /** The last of a path moves to the free seat, and then the one before can join. */
  lemma LastMakesRoom(pool: seq<Raider>, plan: RolePlan, needs: Needs, p: Raider, z: Raider, role: Role)
    requires LegalRoles(pool, plan, needs) && p.id != z.id
    requires Follows(plan, needs, p, z) && !CanJoin(plan, needs, p)
    requires SideFree(plan, role, needs) && GroupFree(plan, GroupForRole(role), needs)
    ensures CanJoin(plan[z.id := role], needs, p)
  {
    var w: Role :| CanPlay(p, w).Some? && MakesRoom(plan, needs, z, w);
    PlayOne(plan, z.id, role, MeleeDps);
    PlayOne(plan, z.id, role, RangedDps);
    GroupOne(plan, z.id, role, GroupForRole(w));
    assert !(SideFree(plan, w, needs) && GroupFree(plan, GroupForRole(w), needs));
    assert |In(Grouped(plan), {GroupForRole(w)})| <= NeedOf(needs, GroupForRole(w));
    assert SideFree(plan[z.id := role], w, needs);
    assert GroupFree(plan[z.id := role], GroupForRole(w), needs);
  }

  lemma LinkStays(plan: RolePlan, needs: Needs, x: Raider, y: Raider, z: Raider, role: Role)
    requires Follows(plan, needs, x, y) && !CanJoin(plan, needs, x) && y.id != z.id
    requires SideFree(plan, role, needs) && GroupFree(plan, GroupForRole(role), needs)
    ensures Follows(plan[z.id := role], needs, x, y)
  {
    var w: Role :| CanPlay(x, w).Some? && MakesRoom(plan, needs, y, w);
    PlayOne(plan, z.id, role, MeleeDps);
    PlayOne(plan, z.id, role, RangedDps);
    assert !(SideFree(plan, w, needs) && GroupFree(plan, GroupForRole(w), needs));
    assert MakesRoom(plan[z.id := role], needs, y, w);
  }

  /** Once the last has moved, the rest of the path still is one. */
  lemma RestIsPath(pool: seq<Raider>, plan: RolePlan, needs: Needs, xs: seq<Raider>, role: Role)
    requires DistinctIds(pool) && IsPath(pool, plan, needs, xs) && |xs| > 1
    requires CanPlay(xs[|xs| - 1], role).Some?
    requires SideFree(plan, role, needs) && GroupFree(plan, GroupForRole(role), needs)
    requires forall i | 0 <= i < |xs| - 1 :: !CanJoin(plan, needs, xs[i])
    ensures IsPath(pool, plan[xs[|xs| - 1].id := role], needs, xs[..|xs| - 1])
    ensures forall i | 0 <= i < |xs| - 1 :: xs[i].id != xs[|xs| - 1].id
  {
    var z, front := xs[|xs| - 1], xs[..|xs| - 1];
    assert CanJoin(plan, needs, z);
    forall i | 0 <= i < |front| ensures xs[i].id != z.id {
      assert xs[i] in xs && z in xs;
      SameIdSameRaider(pool, xs[i], z);
    }
    forall i | 0 <= i < |front| - 1 ensures Follows(plan[z.id := role], needs, front[i], front[i + 1]) {
      LinkStays(plan, needs, xs[i], xs[i + 1], z, role);
    }
    assert Follows(plan, needs, xs[|xs| - 2], xs[|xs| - 1]);
    assert z.id in plan;
  }

  lemma PathPrefix(pool: seq<Raider>, plan: RolePlan, needs: Needs, xs: seq<Raider>, n: nat)
    requires IsPath(pool, plan, needs, xs) && 0 < n <= |xs|
    ensures IsPath(pool, plan, needs, xs[..n])
  {
    assert forall i | 0 <= i < n :: xs[..n][i] == xs[i];
  }

  /** A path in which only the last can join is shortened by one: the last takes the free
      seat, and the one before can join. */
  lemma PathShortens(pool: seq<Raider>, plan: RolePlan, needs: Needs, xs: seq<Raider>, role: Role)
    requires DistinctIds(pool) && LegalRoles(pool, plan, needs) && IsPath(pool, plan, needs, xs) && |xs| > 1
    requires forall i | 0 <= i < |xs| - 1 :: !CanJoin(plan, needs, xs[i])
    requires CanPlay(xs[|xs| - 1], role).Some?
    requires SideFree(plan, role, needs) && GroupFree(plan, GroupForRole(role), needs)
    ensures var moved := plan[xs[|xs| - 1].id := role];
      LegalRoles(pool, moved, needs) && Augments(pool, moved, needs, xs[..|xs| - 1]) && |moved| == |plan|
  {
    var last := |xs| - 1;
    var z, moved := xs[last], plan[xs[last].id := role];
    assert z in xs;
    JoinIsLegal(pool, plan, needs, z, role);
    RestIsPath(pool, plan, needs, xs, role);
    LastMakesRoom(pool, plan, needs, xs[last - 1], z, role);
    assert xs[..last][|xs[..last]| - 1] == xs[last - 1];
    assert Follows(plan, needs, xs[last - 1], z);
    assert moved.Keys == plan.Keys && |moved.Keys| == |moved| && |plan.Keys| == |plan|;
  }

  lemma JoinIsLarger(plan: RolePlan, id: CharacterId, role: Role)
    requires id !in plan
    ensures |plan[id := role]| == |plan| + 1
  {
    var after := plan[id := role];
    assert after.Keys == plan.Keys + {id} && |after.Keys| == |after| && |plan.Keys| == |plan|;
  }

  /** A path leads to a legal plan with one more raider in it. */
  lemma {:induction false} Augmented(pool: seq<Raider>, plan: RolePlan, needs: Needs, xs: seq<Raider>)
    returns (larger: RolePlan)
    requires DistinctIds(pool) && LegalRoles(pool, plan, needs) && Augments(pool, plan, needs, xs)
    ensures LegalRoles(pool, larger, needs) && |larger| == |plan| + 1
    decreases |xs|
  {
    var last := |xs| - 1;
    if j :| 0 <= j < last && CanJoin(plan, needs, xs[j]) {
      PathPrefix(pool, plan, needs, xs, j + 1);
      larger := Augmented(pool, plan, needs, xs[..j + 1]);
    } else {
      var z := xs[last];
      assert z in xs;
      var role: Role :|
        CanPlay(z, role).Some? && SideFree(plan, role, needs) && GroupFree(plan, GroupForRole(role), needs);
      if last == 0 {
        larger := plan[z.id := role];
        JoinIsLegal(pool, plan, needs, z, role);
        JoinIsLarger(plan, z.id, role);
      } else {
        PathShortens(pool, plan, needs, xs, role);
        larger := Augmented(pool, plan[z.id := role], needs, xs[..last]);
      }
    }
  }

  // ----- No path, no larger plan

  ghost predicate Reached(pool: seq<Raider>, plan: RolePlan, needs: Needs, r: Raider) {
    exists xs :: IsPath(pool, plan, needs, xs) && xs[|xs| - 1] == r
  }

  ghost function ReachedIds(pool: seq<Raider>, plan: RolePlan, needs: Needs): set<CharacterId> {
    set r | r in pool && Reached(pool, plan, needs, r) :: r.id
  }

  lemma ReachGoesOn(pool: seq<Raider>, plan: RolePlan, needs: Needs, x: Raider, y: Raider)
    requires Reached(pool, plan, needs, x) && y in pool && Follows(plan, needs, x, y)
    ensures Reached(pool, plan, needs, y)
  {
    var xs :| IsPath(pool, plan, needs, xs) && xs[|xs| - 1] == x;
    assert IsPath(pool, plan, needs, xs + [y]);
    assert (xs + [y])[|xs + [y]| - 1] == y;
  }

  lemma BenchIsReached(pool: seq<Raider>, plan: RolePlan, needs: Needs, b: Raider)
    requires b in pool && b.id !in plan
    ensures Reached(pool, plan, needs, b)
  {
    assert IsPath(pool, plan, needs, [b]);
    assert [b][|[b]| - 1] == b;
  }

  /** Some reached raider plays the role. */
  ghost predicate RoleReached(pool: seq<Raider>, plan: RolePlan, needs: Needs, role: Role) {
    exists x :: x in pool && Reached(pool, plan, needs, x) && CanPlay(x, role).Some?
  }

  /** Those of ids a plan puts in these roles. */
  function Among(plan: RolePlan, ids: set<CharacterId>, roles: set<Role>): set<CharacterId> {
    set id | id in plan && id in ids && plan[id] in roles
  }

  ghost predicate NoPath(pool: seq<Raider>, plan: RolePlan, needs: Needs) {
    forall xs :: !Augments(pool, plan, needs, xs)
  }

  lemma ReachedCannotJoin(pool: seq<Raider>, plan: RolePlan, needs: Needs, role: Role)
    requires NoPath(pool, plan, needs) && RoleReached(pool, plan, needs, role)
    ensures !(SideFree(plan, role, needs) && GroupFree(plan, GroupForRole(role), needs))
  {
    var x :| x in pool && Reached(pool, plan, needs, x) && CanPlay(x, role).Some?;
    var xs :| IsPath(pool, plan, needs, xs) && xs[|xs| - 1] == x;
    assert !Augments(pool, plan, needs, xs);
  }

  /** Whoever would make room at a reached role is reached. */
  lemma RoomIsReached(pool: seq<Raider>, plan: RolePlan, needs: Needs, role: Role, id: CharacterId)
    requires LegalRoles(pool, plan, needs) && RoleReached(pool, plan, needs, role) && id in plan
    requires plan[id] == role || (GroupForRole(plan[id]) == GroupForRole(role) && SideFree(plan, role, needs))
    ensures id in ReachedIds(pool, plan, needs)
  {
    var x :| x in pool && Reached(pool, plan, needs, x) && CanPlay(x, role).Some?;
    assert PlaysRole(pool, id, plan[id]);
    var y :| y in pool && y.id == id && CanPlay(y, plan[id]).Some?;
    assert MakesRoom(plan, needs, y, role);
    ReachGoesOn(pool, plan, needs, x, y);
  }

  lemma PlanIsReached(pool: seq<Raider>, plan: RolePlan, needs: Needs, other: RolePlan, id: CharacterId)
    requires DistinctIds(pool) && LegalRoles(pool, other, needs)
    requires id in other && id in ReachedIds(pool, plan, needs)
    ensures RoleReached(pool, plan, needs, other[id])
  {
    assert PlaysRole(pool, id, other[id]);
    var r :| r in pool && r.id == id && CanPlay(r, other[id]).Some?;
    var x :| x in pool && Reached(pool, plan, needs, x) && x.id == id;
    SameIdSameRaider(pool, r, x);
  }

  /** A reached role whose side is closed holds no more in another plan. */
  lemma RoleIsNoLarger(pool: seq<Raider>, plan: RolePlan, needs: Needs, other: RolePlan, role: Role)
    requires LegalRoles(pool, plan, needs) && LegalRoles(pool, other, needs)
    requires RoleReached(pool, plan, needs, role) && !SideFree(plan, role, needs)
    ensures var ids := ReachedIds(pool, plan, needs); |Among(other, ids, {role})| <= |Among(plan, ids, {role})|
  {
    var ids := ReachedIds(pool, plan, needs);
    forall id | id in Playing(plan, role) ensures id in ids { RoomIsReached(pool, plan, needs, role, id); }
    assert Among(plan, ids, {role}) == Playing(plan, role);
    SubsetSize(Among(other, ids, {role}), Playing(other, role));
  }

  lemma NobodyGoes(pool: seq<Raider>, plan: RolePlan, needs: Needs, other: RolePlan, roles: set<Role>)
    requires DistinctIds(pool) && LegalRoles(pool, other, needs)
    requires forall role | role in roles :: !RoleReached(pool, plan, needs, role)
    ensures Among(other, ReachedIds(pool, plan, needs), roles) == {}
  {
    forall id | id in other && id in ReachedIds(pool, plan, needs) ensures other[id] !in roles {
      PlanIsReached(pool, plan, needs, other, id);
    }
  }

  /** A group with a reached role that has a free side is full, and all of it is reached. */
  lemma GroupIsNoLarger(
    pool: seq<Raider>, plan: RolePlan, needs: Needs, other: RolePlan, role: Role, roles: set<Role>)
    requires DistinctIds(pool) && LegalRoles(pool, plan, needs) && LegalRoles(pool, other, needs)
    requires NoPath(pool, plan, needs) && RoleReached(pool, plan, needs, role) && SideFree(plan, role, needs)
    requires forall r :: r in roles <==> GroupForRole(r) == GroupForRole(role)
    ensures var ids := ReachedIds(pool, plan, needs); |Among(other, ids, roles)| <= |Among(plan, ids, roles)|
  {
    var ids, g := ReachedIds(pool, plan, needs), GroupForRole(role);
    ReachedCannotJoin(pool, plan, needs, role);
    forall id | id in In(Grouped(plan), {g}) ensures id in ids { RoomIsReached(pool, plan, needs, role, id); }
    assert Among(plan, ids, roles) == In(Grouped(plan), {g});
    SubsetSize(Among(other, ids, roles), In(Grouped(other), {g}));
  }

  lemma AmongSplits(plan: RolePlan, ids: set<CharacterId>, a: set<Role>, b: set<Role>)
    requires a !! b
    ensures |Among(plan, ids, a + b)| == |Among(plan, ids, a)| + |Among(plan, ids, b)|
  {
    assert Among(plan, ids, a + b) == Among(plan, ids, a) + Among(plan, ids, b);
    assert Among(plan, ids, a) !! Among(plan, ids, b);
  }

  lemma SingleIsNoLarger(pool: seq<Raider>, plan: RolePlan, needs: Needs, other: RolePlan, role: Role)
    requires DistinctIds(pool) && LegalRoles(pool, plan, needs) && LegalRoles(pool, other, needs)
    requires NoPath(pool, plan, needs) && !IsSide(role)
    ensures var ids := ReachedIds(pool, plan, needs); |Among(other, ids, {role})| <= |Among(plan, ids, {role})|
  {
    if RoleReached(pool, plan, needs, role) {
      GroupIsNoLarger(pool, plan, needs, other, role, {role});
    } else {
      NobodyGoes(pool, plan, needs, other, {role});
    }
  }

  lemma SidesAreNoLarger(pool: seq<Raider>, plan: RolePlan, needs: Needs, other: RolePlan)
    requires DistinctIds(pool) && LegalRoles(pool, plan, needs) && LegalRoles(pool, other, needs)
    requires NoPath(pool, plan, needs)
    ensures var ids, d := ReachedIds(pool, plan, needs), {MeleeDps, RangedDps};
      |Among(other, ids, d)| <= |Among(plan, ids, d)|
  {
    var ids := ReachedIds(pool, plan, needs);
    if side: Role :| IsSide(side) && RoleReached(pool, plan, needs, side) && SideFree(plan, side, needs) {
      GroupIsNoLarger(pool, plan, needs, other, side, {MeleeDps, RangedDps});
    } else {
      ClosedOrUnreached(pool, plan, needs, other, MeleeDps);
      ClosedOrUnreached(pool, plan, needs, other, RangedDps);
      AmongSplits(plan, ids, {MeleeDps}, {RangedDps});
      AmongSplits(other, ids, {MeleeDps}, {RangedDps});
      assert {MeleeDps} + {RangedDps} == {MeleeDps, RangedDps};
    }
  }

  lemma ClosedOrUnreached(pool: seq<Raider>, plan: RolePlan, needs: Needs, other: RolePlan, role: Role)
    requires DistinctIds(pool) && LegalRoles(pool, plan, needs) && LegalRoles(pool, other, needs)
    requires !(RoleReached(pool, plan, needs, role) && SideFree(plan, role, needs))
    ensures var ids := ReachedIds(pool, plan, needs); |Among(other, ids, {role})| <= |Among(plan, ids, {role})|
  {
    if RoleReached(pool, plan, needs, role) {
      RoleIsNoLarger(pool, plan, needs, other, role);
    } else {
      NobodyGoes(pool, plan, needs, other, {role});
    }
  }

  lemma AmongAll(plan: RolePlan, ids: set<CharacterId>)
    ensures |plan| == |Among(plan, ids, {Tank})| + |Among(plan, ids, {Healer})|
                      + |Among(plan, ids, {MeleeDps, RangedDps})| + |plan.Keys - ids|
  {
    var among := Among(plan, ids, EVERY_ROLE);
    forall id | id in plan ensures plan[id] in EVERY_ROLE { EveryRoleIn(plan[id]); }
    assert plan.Keys == among + (plan.Keys - ids);
    assert |plan.Keys| == |plan|;
    AmongSplits(plan, ids, {Tank}, {Healer});
    AmongSplits(plan, ids, {Tank} + {Healer}, {MeleeDps, RangedDps});
    assert {Tank} + {Healer} + {MeleeDps, RangedDps} == EVERY_ROLE;
  }

  lemma NoPathMeansLargest(pool: seq<Raider>, plan: RolePlan, needs: Needs, other: RolePlan)
    requires DistinctIds(pool) && LegalRoles(pool, plan, needs) && LegalRoles(pool, other, needs)
    requires NoPath(pool, plan, needs)
    ensures |other| <= |plan|
  {
    var ids := ReachedIds(pool, plan, needs);
    SingleIsNoLarger(pool, plan, needs, other, Tank);
    SingleIsNoLarger(pool, plan, needs, other, Healer);
    SidesAreNoLarger(pool, plan, needs, other);
    AmongAll(plan, ids);
    AmongAll(other, ids);
    forall id | id in other.Keys - ids ensures id in plan.Keys - ids {
      assert PlaysRole(pool, id, other[id]);
      var r :| r in pool && r.id == id && CanPlay(r, other[id]).Some?;
      if id !in plan { BenchIsReached(pool, plan, needs, r); }
    }
    SubsetSize(other.Keys - ids, plan.Keys - ids);
  }

  /** A legal plan is the largest there is if and only if no path augments it. */
  lemma LargestExactlyWithoutPaths(pool: seq<Raider>, plan: RolePlan, needs: Needs)
    requires DistinctIds(pool) && LegalRoles(pool, plan, needs)
    ensures (forall other | LegalRoles(pool, other, needs) :: |other| <= |plan|) <==> NoPath(pool, plan, needs)
  {
    if NoPath(pool, plan, needs) {
      forall other | LegalRoles(pool, other, needs) ensures |other| <= |plan| {
        NoPathMeansLargest(pool, plan, needs, other);
      }
    } else {
      var xs :| Augments(pool, plan, needs, xs);
      var larger := Augmented(pool, plan, needs, xs);
      assert |larger| > |plan|;
    }
  }

  // ----- Of the assigner's seating

  lemma CountIsPlays(pool: seq<Raider>, seats: Seats, needs: Needs, g: Group)
    requires Sound(pool, seats, needs)
    ensures PlaysIn(RolesOf(seats), g) == Count(seats, g)
  {
    forall id | id in seats ensures GroupForRole(seats[id].role) == seats[id].group {
      assert id in Ids(pool);
      var r :| r in pool && r.id == id;
      assert Fits(r, seats[id]);
    }
    assert In(Grouped(RolesOf(seats)), {g}) == Members(seats, g);
  }

  lemma RolesAreHeld(seats: Seats)
    ensures forall role :: PlaysAs(RolesOf(seats), role) == Held(seats, role)
    ensures RolesOf(seats).Keys == seats.Keys && |RolesOf(seats)| == |seats|
  {
    var plan := RolesOf(seats);
    assert plan.Keys == seats.Keys && |plan.Keys| == |plan| && |seats.Keys| == |seats|;
    forall role ensures PlaysAs(plan, role) == Held(seats, role) { assert Playing(plan, role) == Holders(seats, role); }
  }

  lemma SeatingIsLegal(pool: seq<Raider>, seats: Seats, needs: Needs)
    requires Sound(pool, seats, needs) && AllSettled(pool, seats, needs) && forall g: Group :: 0 <= NeedOf(needs, g)
    ensures LegalRoles(pool, RolesOf(seats), needs) && |RolesOf(seats)| == |seats|
  {
    var plan := RolesOf(seats);
    RolesAreHeld(seats);
    forall id | id in plan ensures PlaysRole(pool, id, plan[id]) {
      assert id in Ids(pool);
      var r :| r in pool && r.id == id;
      assert Fits(r, seats[id]);
    }
    forall g: Group ensures |In(Grouped(plan), {g})| <= NeedOf(needs, g) {
      assert Settled(pool, seats, g, needs);
      CountIsPlays(pool, seats, needs, g);
    }
  }

  /** Whatever the caps, Assign seats as many as any legal plan if and only if no path augments
      the seating it settles on. */
  lemma SeatingIsLargestExactly(pool: seq<Raider>, needs: Needs)
    requires DistinctIds(pool) && WithinCap(needs.maxMelee, 0) && WithinCap(needs.maxRanged, 0)
    requires forall g: Group :: 0 <= NeedOf(needs, g)
    ensures (forall plan | LegalRoles(pool, plan, needs) :: |plan| <= |Seating(pool, needs)|)
        <==> NoPath(pool, RolesOf(Seating(pool, needs)), needs)
  {
    SeatingIsAtRest(pool, needs);
    SeatingIsLegal(pool, Seating(pool, needs), needs);
    LargestExactlyWithoutPaths(pool, RolesOf(Seating(pool, needs)), needs);
  }

  // ----- What can be read off the pool

  lemma SeatedInTheirRole(pool: seq<Raider>, plan: RolePlan, needs: Needs, y: Raider)
    requires DistinctIds(pool) && LegalRoles(pool, plan, needs) && y in pool && y.id in plan
    ensures CanPlay(y, plan[y.id]).Some?
  {
    assert PlaysRole(pool, y.id, plan[y.id]);
    var r :| r in pool && r.id == y.id && CanPlay(r, plan[y.id]).Some?;
    SameIdSameRaider(pool, r, y);
  }

  lemma BenchCannotJoin(pool: seq<Raider>, seats: Seats, needs: Needs, b: Raider)
    requires Sound(pool, seats, needs) && AllSettled(pool, seats, needs) && b in pool && b.id !in seats
    requires LegalRoles(pool, RolesOf(seats), needs)
    ensures !CanJoin(RolesOf(seats), needs, b)
  {
    var plan := RolesOf(seats);
    RolesAreHeld(seats);
    forall role: Role | CanPlay(b, role).Some? && SideFree(plan, role, needs)
      ensures !GroupFree(plan, GroupForRole(role), needs)
    {
      var g := GroupForRole(role);
      assert Settled(pool, seats, g, needs);
      TakesAnOpenRole(b, role, needs, seats);
      CountIsPlays(pool, seats, needs, g);
    }
  }

  /** Three raiders who could pass seats along: b and y share a group, y and z another one, and
      z can leave that one for a third, or for DPS whence the chain came. */
  ghost predicate IsTangle(pool: seq<Raider>, b: Raider, y: Raider, z: Raider, p: Group, q: Group, role: Role) {
    && b in pool && y in pool && z in pool && b != y && y != z && b != z && p != q
    && GroupPriority(b, p).Some?
    && GroupPriority(y, p).Some? && GroupPriority(y, q).Some?
    && GroupPriority(z, q).Some? && CanPlay(z, role).Some?
    && GroupForRole(role) != q && (GroupForRole(role) != p || p == DpsGroup)
  }

  lemma RoleOfSeat(r: Raider, a: Role, b: Role)
    requires CanPlay(r, a).Some? && CanPlay(r, b).Some? && !Hybrid(r)
    requires GroupForRole(a) == GroupForRole(b)
    ensures a == b
  {
  }

  /** A path of one move, to another group, is a swap the repair would have found. */
  lemma OneMoveIsASwap(pool: seq<Raider>, seats: Seats, needs: Needs, b: Raider, m: Raider, v: Role, role: Role)
    requires Sound(pool, seats, needs) && b in pool && b.id !in seats && m in pool && m.id in seats
    requires CanPlay(b, v).Some? && CanPlay(m, role).Some? && RoleOpen(seats, role, needs)
    requires seats[m.id].role == v || (GroupForRole(v) == seats[m.id].group && RoleOpen(seats, v, needs))
    requires GroupForRole(role) != seats[m.id].group
    ensures IsSwap(pool, seats, GroupForRole(role), needs, m, b)
  {
    var short := GroupForRole(role);
    assert Fits(m, seats[m.id]);
    UnseatOne(seats, m.id);
    TakesAnOpenRole(m, role, needs, seats - {m.id});
    var moved := Moved(m, seats, short, needs).value;
    PlaceFits(m, short, needs, seats - {m.id});
    SeatOne(seats - {m.id}, m.id, moved[m.id]);
    TakesAnOpenRole(b, v, needs, moved);
  }

  lemma SidesAreHeld(seats: Seats, needs: Needs, role: Role)
    ensures SideFree(RolesOf(seats), role, needs) <==> RoleOpen(seats, role, needs)
  {
    RolesAreHeld(seats);
  }

  /** What the next raider of a path would leave, somebody else who plays it can take too. */
  lemma FollowsAlike(plan: RolePlan, needs: Needs, x: Raider, y: Raider, role: Role)
    requires CanPlay(x, role).Some? && MakesRoom(plan, needs, y, role)
    ensures Follows(plan, needs, x, y)
  {
  }

  lemma JoinsAlike(plan: RolePlan, needs: Needs, x: Raider, role: Role)
    requires CanPlay(x, role).Some? && SideFree(plan, role, needs) && GroupFree(plan, GroupForRole(role), needs)
    ensures CanJoin(plan, needs, x)
  {
  }

  /** If x could take y's seat, and y's next move stays in the group of that seat, it is a move
      x could make. */
  lemma MoveWithinAGroup(plan: RolePlan, needs: Needs, x: Raider, y: Raider, v: Role, w: Role)
    requires CanPlay(x, v).Some? && MakesRoom(plan, needs, y, v) && !Hybrid(y)
    requires CanPlay(y, plan[y.id]).Some? && CanPlay(y, w).Some? && GroupForRole(w) == GroupForRole(plan[y.id])
    ensures SideFree(plan, w, needs) && GroupFree(plan, GroupForRole(w), needs) ==> CanJoin(plan, needs, x)
    ensures forall z :: MakesRoom(plan, needs, z, w) ==> Follows(plan, needs, x, z)
  {
    RoleOfSeat(y, w, plan[y.id]);
    if SideFree(plan, w, needs) && GroupFree(plan, GroupForRole(w), needs) { JoinsAlike(plan, needs, x, v); }
    forall z | MakesRoom(plan, needs, z, w) ensures Follows(plan, needs, x, z) { FollowsAlike(plan, needs, x, z, v); }
  }

  lemma PathWithout(pool: seq<Raider>, plan: RolePlan, needs: Needs, xs: seq<Raider>, i: nat, j: nat)
    requires IsPath(pool, plan, needs, xs) && i < j < |xs| && Follows(plan, needs, xs[i], xs[j])
    ensures IsPath(pool, plan, needs, xs[..i + 1] + xs[j..])
    ensures (xs[..i + 1] + xs[j..])[|xs[..i + 1] + xs[j..]| - 1] == xs[|xs| - 1]
  {
    var ys := xs[..i + 1] + xs[j..];
    forall k | 0 <= k < |ys| - 1 ensures Follows(plan, needs, ys[k], ys[k + 1]) {
      if k < i {
        assert ys[k] == xs[k] && ys[k + 1] == xs[k + 1];
      } else if k == i {
        assert ys[k] == xs[i] && ys[k + 1] == xs[j];
      } else {
        assert ys[k] == xs[k - i - 1 + j] && ys[k + 1] == xs[k - i + j];
      }
    }
  }

  /** What is needed of a seating below: at rest, and of a pool with no hybrid and no tangle. */
  ghost predicate Untangled(pool: seq<Raider>, seats: Seats, needs: Needs) {
    && DistinctIds(pool) && Sound(pool, seats, needs) && AllSettled(pool, seats, needs) && AtRest(pool, seats, needs)
    && LegalRoles(pool, RolesOf(seats), needs)
    && (forall r | r in pool :: !Hybrid(r))
    && (forall b, y, z, p, q, role :: !IsTangle(pool, b, y, z, p, q, role))
  }

  lemma NoPathOfOneMove(pool: seq<Raider>, seats: Seats, needs: Needs, b: Raider, y: Raider)
    requires Untangled(pool, seats, needs) && b in pool && y in pool && b.id !in seats && y.id in seats
    requires Follows(RolesOf(seats), needs, b, y)
    ensures !CanJoin(RolesOf(seats), needs, y)
  {
    var plan := RolesOf(seats);
    BenchCannotJoin(pool, seats, needs, b);
    SeatedInTheirRole(pool, plan, needs, y);
    var v: Role :| CanPlay(b, v).Some? && MakesRoom(plan, needs, y, v);
    assert Fits(y, seats[y.id]);
    SidesAreHeld(seats, needs, v);
    forall role: Role | CanPlay(y, role).Some? && SideFree(plan, role, needs)
      ensures !GroupFree(plan, GroupForRole(role), needs)
    {
      SidesAreHeld(seats, needs, role);
      CountIsPlays(pool, seats, needs, GroupForRole(role));
      if GroupForRole(role) == seats[y.id].group {
        MoveWithinAGroup(plan, needs, b, y, v, role);
      } else {
        OneMoveIsASwap(pool, seats, needs, b, y, v, role);
      }
    }
  }

  /** Without a tangle the third of a path can leave their group only for the very role the
      first could take, in a group of one role. */
  lemma ThirdMoveIsSpare(
    pool: seq<Raider>, seats: Seats, needs: Needs, b: Raider, y: Raider, z: Raider, v: Role, u: Role, w: Role)
    requires Untangled(pool, seats, needs) && b in pool && y in pool && z in pool
    requires b.id !in seats && CanPlay(b, v).Some? && MakesRoom(RolesOf(seats), needs, y, v)
    requires CanPlay(y, u).Some? && MakesRoom(RolesOf(seats), needs, z, u) && CanPlay(z, w).Some?
    requires GroupForRole(u) != GroupForRole(v) && GroupForRole(w) != GroupForRole(u)
    ensures w == v
  {
    var plan := RolesOf(seats);
    SeatedInTheirRole(pool, plan, needs, y);
    SeatedInTheirRole(pool, plan, needs, z);
    PlaysItsGroup(b, v);
    PlaysItsGroup(y, plan[y.id]);
    PlaysItsGroup(y, u);
    PlaysItsGroup(z, plan[z.id]);
    assert !IsTangle(pool, b, y, z, GroupForRole(v), GroupForRole(u), w);
  }

  lemma PlaysItsGroup(r: Raider, role: Role)
    requires CanPlay(r, role).Some?
    ensures GroupPriority(r, GroupForRole(role)).Some?
  {
  }

  lemma ThirdJoinsEarlier(
    pool: seq<Raider>, seats: Seats, needs: Needs, b: Raider, y: Raider, z: Raider, v: Role, u: Role)
    requires Untangled(pool, seats, needs) && b in pool && y in pool && z in pool
    requires b.id !in seats && CanPlay(b, v).Some? && MakesRoom(RolesOf(seats), needs, y, v)
    requires CanPlay(y, u).Some? && MakesRoom(RolesOf(seats), needs, z, u) && GroupForRole(u) != GroupForRole(v)
    ensures var plan := RolesOf(seats);
      CanJoin(plan, needs, z) ==> CanJoin(plan, needs, b) || CanJoin(plan, needs, y)
  {
    var plan := RolesOf(seats);
    SeatedInTheirRole(pool, plan, needs, z);
    if CanJoin(plan, needs, z) {
      var w: Role :| CanPlay(z, w).Some? && SideFree(plan, w, needs) && GroupFree(plan, GroupForRole(w), needs);
      if GroupForRole(w) == GroupForRole(u) {
        MoveWithinAGroup(plan, needs, y, z, u, w);
      } else {
        ThirdMoveIsSpare(pool, seats, needs, b, y, z, v, u, w);
        JoinsAlike(plan, needs, b, v);
      }
    }
  }

  /** A shorter path leads to the same raider. */
  ghost predicate HasShortcut(pool: seq<Raider>, plan: RolePlan, needs: Needs, xs: seq<Raider>)
    requires xs != []
  {
    exists ys :: |ys| < |xs| && IsPath(pool, plan, needs, ys) && ys[|ys| - 1] == xs[|xs| - 1]
  }

  lemma Shortcut(pool: seq<Raider>, plan: RolePlan, needs: Needs, xs: seq<Raider>, i: nat, j: nat)
    requires IsPath(pool, plan, needs, xs) && i + 1 < j < |xs| && Follows(plan, needs, xs[i], xs[j])
    ensures HasShortcut(pool, plan, needs, xs)
  {
    var ys := xs[..i + 1] + xs[j..];
    PathWithout(pool, plan, needs, xs, i, j);
    assert |ys| < |xs|;
  }

  /** Whoever follows the third of a path follows the first or the second already. */
  lemma FourthFollowsEarlier(
    pool: seq<Raider>, seats: Seats, needs: Needs, b: Raider, y: Raider, z: Raider, x: Raider, v: Role, u: Role)
    requires Untangled(pool, seats, needs) && b in pool && y in pool && z in pool
    requires b.id !in seats && CanPlay(b, v).Some? && MakesRoom(RolesOf(seats), needs, y, v)
    requires CanPlay(y, u).Some? && MakesRoom(RolesOf(seats), needs, z, u) && GroupForRole(u) != GroupForRole(v)
    requires Follows(RolesOf(seats), needs, z, x)
    ensures Follows(RolesOf(seats), needs, b, x) || Follows(RolesOf(seats), needs, y, x)
  {
    var plan := RolesOf(seats);
    var w: Role :| CanPlay(z, w).Some? && MakesRoom(plan, needs, x, w);
    SeatedInTheirRole(pool, plan, needs, z);
    if GroupForRole(w) == GroupForRole(u) {
      MoveWithinAGroup(plan, needs, y, z, u, w);
    } else {
      ThirdMoveIsSpare(pool, seats, needs, b, y, z, v, u, w);
      FollowsAlike(plan, needs, b, x, v);
    }
  }

  /** Of the first three of a path, the third follows the first already, or nothing beyond it
      is out of reach of the first two. */
  lemma FirstThree(pool: seq<Raider>, seats: Seats, needs: Needs, b: Raider, y: Raider, z: Raider)
    requires Untangled(pool, seats, needs) && b in pool && y in pool && z in pool && b.id !in seats
    requires Follows(RolesOf(seats), needs, b, y) && Follows(RolesOf(seats), needs, y, z)
    ensures var plan := RolesOf(seats);
      || Follows(plan, needs, b, z)
      || ((CanJoin(plan, needs, z) ==> CanJoin(plan, needs, b) || CanJoin(plan, needs, y))
          && forall x | Follows(plan, needs, z, x) :: Follows(plan, needs, b, x) || Follows(plan, needs, y, x))
  {
    var plan := RolesOf(seats);
    var v: Role :| CanPlay(b, v).Some? && MakesRoom(plan, needs, y, v);
    var u: Role :| CanPlay(y, u).Some? && MakesRoom(plan, needs, z, u);
    SeatedInTheirRole(pool, plan, needs, y);
    if GroupForRole(u) == GroupForRole(v) {
      MoveWithinAGroup(plan, needs, b, y, v, u);
    } else {
      ThirdJoinsEarlier(pool, seats, needs, b, y, z, v, u);
      forall x | Follows(plan, needs, z, x) ensures Follows(plan, needs, b, x) || Follows(plan, needs, y, x) {
        FourthFollowsEarlier(pool, seats, needs, b, y, z, x, v, u);
      }
    }
  }

  /** No path augments such a seating: a longer one could be cut shorter, down to one move. */
  lemma {:induction false} NoPathUntangled(pool: seq<Raider>, seats: Seats, needs: Needs, xs: seq<Raider>)
    requires Untangled(pool, seats, needs) && IsPath(pool, RolesOf(seats), needs, xs)
    ensures !CanJoin(RolesOf(seats), needs, xs[|xs| - 1])
    decreases |xs|
  {
    var plan := RolesOf(seats);
    assert xs[0] in xs;
    BenchCannotJoin(pool, seats, needs, xs[0]);
    if |xs| == 1 {
    } else {
      assert xs[1] in xs && Follows(plan, needs, xs[0], xs[1]);
      NoPathOfOneMove(pool, seats, needs, xs[0], xs[1]);
      if |xs| > 2 {
        assert xs[2] in xs && Follows(plan, needs, xs[1], xs[2]);
        FirstThree(pool, seats, needs, xs[0], xs[1], xs[2]);
        if |xs| > 3 || Follows(plan, needs, xs[0], xs[2]) {
          LongPathIsShorter(pool, plan, needs, xs);
          var ys :| |ys| < |xs| && IsPath(pool, plan, needs, ys) && ys[|ys| - 1] == xs[|xs| - 1];
          NoPathUntangled(pool, seats, needs, ys);
        }
      }
    }
  }

  lemma LongPathIsShorter(pool: seq<Raider>, plan: RolePlan, needs: Needs, xs: seq<Raider>)
    requires IsPath(pool, plan, needs, xs) && |xs| > 2
    requires Follows(plan, needs, xs[0], xs[2])
             || (|xs| > 3 && forall x | Follows(plan, needs, xs[2], x) ::
                   Follows(plan, needs, xs[0], x) || Follows(plan, needs, xs[1], x))
    ensures HasShortcut(pool, plan, needs, xs)
  {
    if Follows(plan, needs, xs[0], xs[2]) {
      Shortcut(pool, plan, needs, xs, 0, 2);
    } else {
      assert Follows(plan, needs, xs[2], xs[3]);
      if Follows(plan, needs, xs[0], xs[3]) {
        Shortcut(pool, plan, needs, xs, 0, 3);
      } else {
        Shortcut(pool, plan, needs, xs, 1, 3);
      }
    }
  }

  /** Readable off the pool beforehand: with nobody on both sides and no tangle, no legal plan
      seats more than Assign, whatever the caps. */
  lemma LargestWithoutTangles(pool: seq<Raider>, needs: Needs, plan: RolePlan)
    requires DistinctIds(pool) && WithinCap(needs.maxMelee, 0) && WithinCap(needs.maxRanged, 0)
    requires LegalRoles(pool, plan, needs) && forall r | r in pool :: !Hybrid(r)
    requires forall b, y, z, p, q, role :: !IsTangle(pool, b, y, z, p, q, role)
    ensures |plan| <= |Seating(pool, needs)|
  {
    var seats := Seating(pool, needs);
    assert forall g: Group :: 0 <= |In(Grouped(plan), {g})| <= NeedOf(needs, g);
    SeatingIsAtRest(pool, needs);
    SeatingIsLegal(pool, seats, needs);
    forall xs ensures !Augments(pool, RolesOf(seats), needs, xs) {
      if IsPath(pool, RolesOf(seats), needs, xs) { NoPathUntangled(pool, seats, needs, xs); }
    }
    NoPathMeansLargest(pool, RolesOf(seats), needs, plan);
  }

  predicate OneRole(r: Raider) {
    forall i, j | 0 <= i < |r.roles| && 0 <= j < |r.roles| :: r.roles[i].role == r.roles[j].role
  }

  lemma OneRoleIsTheirs(r: Raider, a: Role, b: Role)
    requires OneRole(r) && CanPlay(r, a).Some? && CanPlay(r, b).Some?
    ensures a == b
  {
    PriorityIsListed(r.roles, a);
    PriorityIsListed(r.roles, b);
  }

  lemma OneRoleOneGroup(r: Raider, p: Group, q: Group)
    requires OneRole(r) && GroupPriority(r, p).Some? && GroupPriority(r, q).Some?
    ensures p == q
  {
    var a: Role :| CanPlay(r, a).Some? && GroupForRole(a) == p;
    var b: Role :| CanPlay(r, b).Some? && GroupForRole(b) == q;
    OneRoleIsTheirs(r, a, b);
  }

  /** In particular with one role to a raider. */
  lemma LargestWithOneRoleEach(pool: seq<Raider>, needs: Needs, plan: RolePlan)
    requires DistinctIds(pool) && WithinCap(needs.maxMelee, 0) && WithinCap(needs.maxRanged, 0)
    requires LegalRoles(pool, plan, needs) && forall r | r in pool :: OneRole(r)
    ensures |plan| <= |Seating(pool, needs)|
  {
    forall r | r in pool ensures !Hybrid(r) {
      if Hybrid(r) { OneRoleIsTheirs(r, MeleeDps, RangedDps); }
    }
    forall b, y, z, p, q, role ensures !IsTangle(pool, b, y, z, p, q, role) {
      if IsTangle(pool, b, y, z, p, q, role) { OneRoleOneGroup(y, p, q); }
    }
    LargestWithoutTangles(pool, needs, plan);
  }
}
