/** What a board leaves open, counted on its rows by role: no group over its need, no side over
    its cap, nobody on the bench beside a seat they could take, and every gap reported. */
module OpenSeats {
  import opened Options
  import opened Sequences
  import opened Comp
  import opened Placing
  import opened SeatingRules
  import opened Board
  import Advice

  /** The rows that seat somebody in the role. */
  function SeatsAs(rows: seq<Assignment>, role: Role): set<int> {
    set i | 0 <= i < |rows| && !rows[i].isBench && rows[i].role == role
  }

  /** How many sit as tanks, as healers, and as either side of the DPS. */
  function Seated(rows: seq<Assignment>, g: Group): nat {
    match g
    case TankGroup => |SeatsAs(rows, Tank)|
    case HealerGroup => |SeatsAs(rows, Healer)|
    case DpsGroup => |SeatsAs(rows, MeleeDps)| + |SeatsAs(rows, RangedDps)|
  }

  // ----- Rows against the seating they were written from

  lemma SeatsGrow(slots: seq<Assignment>, role: Role)
    requires slots != []
    ensures var n := |slots| - 1;
      |SeatsAs(slots, role)|
      == |SeatsAs(slots[..n], role)| + (if !slots[n].isBench && slots[n].role == role then 1 else 0)
  {
    SeatAdded(slots[..|slots| - 1], slots[|slots| - 1], role);
    assert slots == slots[..|slots| - 1] + [slots[|slots| - 1]];
  }

  lemma SeatAdded(front: seq<Assignment>, last: Assignment, role: Role)
    ensures SeatsAs(front + [last], role)
         == if !last.isBench && last.role == role then SeatsAs(front, role) + {|front|} else SeatsAs(front, role)
    ensures |SeatsAs(front + [last], role)|
         == |SeatsAs(front, role)| + (if !last.isBench && last.role == role then 1 else 0)
  {
    var rows := front + [last];
    assert rows[|front|] == last && forall i | 0 <= i < |front| :: rows[i] == front[i];
  }

  function IdsSeated(rows: seq<Assignment>, role: Role): set<CharacterId> {
    set i | i in SeatsAs(rows, role) :: rows[i].id
  }

  lemma {:induction false} DistinctRowsCount(rows: seq<Assignment>, role: Role)
    requires forall i, j | 0 <= i < j < |rows| :: rows[i].id != rows[j].id
    ensures |IdsSeated(rows, role)| == |SeatsAs(rows, role)|
  {
    if rows == [] {
      assert SeatsAs(rows, role) == {} && IdsSeated(rows, role) == {};
    } else {
      var n := |rows| - 1;
      var front, last := rows[..n], rows[n];
      DistinctRowsCount(front, role);
      SeatsGrow(rows, role);
      assert last.id !in IdsSeated(front, role);
      forall id ensures id in IdsSeated(rows, role)
                    <==> id in IdsSeated(front, role) || (id == last.id && !last.isBench && last.role == role)
      {
        if i :| i in SeatsAs(front, role) && front[i].id == id { assert i in SeatsAs(rows, role) && rows[i].id == id; }
        if id == last.id && !last.isBench && last.role == role { assert n in SeatsAs(rows, role); }
      }
      if !last.isBench && last.role == role {
        assert IdsSeated(rows, role) == IdsSeated(front, role) + {last.id};
      } else {
        assert IdsSeated(rows, role) == IdsSeated(front, role);
      }
    }
  }

  /** These rows are the board of this seating. */
  ghost predicate Writes(rows: seq<Assignment>, seats: Seats) {
    && (forall i, j | 0 <= i < j < |rows| :: rows[i].id != rows[j].id)
    && (forall i | 0 <= i < |rows| ::
          (rows[i].isBench <==> rows[i].id !in seats) && (!rows[i].isBench ==> rows[i].role == seats[rows[i].id].role))
    && (forall id | id in seats :: HasRow(rows, id))
  }

  lemma BoardWrites(pool: seq<Raider>, seats: Seats, needs: Needs, ranks: Ranks)
    requires DistinctIds(pool) && Sound(pool, seats, needs)
    ensures Writes(Rows(pool, seats, ranks), seats)
  {
    var rows := Rows(pool, seats, ranks);
    var seated, benched := SeatedList(pool, seats, ranks), BenchList(pool, seats, ranks);
    ListsSplitThePool(pool, seats, ranks);
    SplitSizes(pool, seats, seated, benched);
    forall i, j | 0 <= i < j < |rows| ensures rows[i].id != rows[j].id {
      RowsAreDistinct(pool, seats, seated, benched, ranks, i, j);
    }
    forall i | 0 <= i < |rows|
      ensures (rows[i].isBench <==> rows[i].id !in seats)
           && (!rows[i].isBench ==> rows[i].role == seats[rows[i].id].role)
    {
      var r := RowAt(pool, seats, seated, benched, ranks, i);
    }
    forall id | id in seats ensures HasRow(rows, id) {
      assert id in Ids(pool);
      var r :| r in pool && r.id == id;
      var i := RowOf(pool, seats, seated, benched, ranks, r);
    }
  }

  lemma WrittenSeatsAreHolders(rows: seq<Assignment>, seats: Seats, role: Role)
    requires Writes(rows, seats)
    ensures |SeatsAs(rows, role)| == Held(seats, role)
  {
    DistinctRowsCount(rows, role);
    forall id | id in Holders(seats, role) ensures id in IdsSeated(rows, role) {
      assert HasRow(rows, id);
      var i :| 0 <= i < |rows| && rows[i].id == id;
      assert i in SeatsAs(rows, role);
    }
    assert IdsSeated(rows, role) == Holders(seats, role);
  }

  lemma SeatsAreHolders(pool: seq<Raider>, seats: Seats, needs: Needs, ranks: Ranks, role: Role)
    requires DistinctIds(pool) && Sound(pool, seats, needs)
    ensures |SeatsAs(Rows(pool, seats, ranks), role)| == Held(seats, role)
  {
    BoardWrites(pool, seats, needs, ranks);
    WrittenSeatsAreHolders(Rows(pool, seats, ranks), seats, role);
  }

  lemma SeatsAreInTheirGroup(pool: seq<Raider>, seats: Seats, needs: Needs, id: CharacterId)
    requires Sound(pool, seats, needs) && id in seats
    ensures seats[id].group == GroupForRole(seats[id].role)
  {
    assert id in Ids(pool);
    var r :| r in pool && r.id == id;
    assert Fits(r, seats[id]);
  }

  lemma RoleIsItsGroup(pool: seq<Raider>, seats: Seats, needs: Needs, role: Role)
    requires Sound(pool, seats, needs) && !GroupForRole(role).DpsGroup?
    ensures Members(seats, GroupForRole(role)) == Holders(seats, role)
  {
    forall id | id in seats { SeatsAreInTheirGroup(pool, seats, needs, id); }
  }

  lemma SidesAreTheGroup(pool: seq<Raider>, seats: Seats, needs: Needs)
    requires Sound(pool, seats, needs)
    ensures Members(seats, DpsGroup) == Holders(seats, MeleeDps) + Holders(seats, RangedDps)
    ensures Holders(seats, MeleeDps) !! Holders(seats, RangedDps)
  {
    forall id | id in seats { SeatsAreInTheirGroup(pool, seats, needs, id); }
  }

  lemma GroupsAreTheirRoles(pool: seq<Raider>, seats: Seats, needs: Needs, g: Group)
    requires Sound(pool, seats, needs)
    ensures Count(seats, g)
         == match g
            case TankGroup => Held(seats, Tank)
            case HealerGroup => Held(seats, Healer)
            case DpsGroup => Held(seats, MeleeDps) + Held(seats, RangedDps)
  {
    match g {
      case TankGroup => RoleIsItsGroup(pool, seats, needs, Tank);
      case HealerGroup => RoleIsItsGroup(pool, seats, needs, Healer);
      case DpsGroup => SidesAreTheGroup(pool, seats, needs);
    }
  }

  lemma SeatedIsCount(pool: seq<Raider>, seats: Seats, needs: Needs, ranks: Ranks, g: Group)
    requires DistinctIds(pool) && Sound(pool, seats, needs)
    ensures Seated(Rows(pool, seats, ranks), g) == Count(seats, g)
  {
    forall role: Role ensures |SeatsAs(Rows(pool, seats, ranks), role)| == Held(seats, role) {
      SeatsAreHolders(pool, seats, needs, ranks, role);
    }
    GroupsAreTheirRoles(pool, seats, needs, g);
  }

  /** What Assign sizes the raid to: everybody with a menu turns up. */
  function NeedsOf(raiders: seq<Raider>, t: Template, mode: Mode): Needs {
    ResolvedNeeds(t, mode, |FilterMap(raiders, Playable())|)
  }

  lemma BoardCounts(raiders: seq<Raider>, t: Template, mode: Mode) returns (seats: Seats)
    requires DistinctIds(raiders)
    ensures var pool, needs := FilterMap(raiders, Playable()), NeedsOf(raiders, t, mode);
      && seats == Seating(pool, needs)
      && Sound(pool, seats, needs) && AllSettled(pool, seats, needs)
    ensures var rows := AssignResult(raiders, t, mode).assignments;
      && (forall g: Group :: Seated(rows, g) == Count(seats, g))
      && (forall role: Role :: |SeatsAs(rows, role)| == Held(seats, role))
  {
    var pool, needs := FilterMap(raiders, Playable()), NeedsOf(raiders, t, mode);
    var rows := AssignResult(raiders, t, mode).assignments;
    seats := Seating(pool, needs);
    PlayablePool(raiders);
    SeatingIsAtRest(pool, needs);
    forall g: Group ensures Seated(rows, g) == Count(seats, g) {
      SeatedIsCount(pool, seats, needs, SignupRanks(pool), g);
    }
    forall role: Role ensures |SeatsAs(rows, role)| == Held(seats, role) {
      SeatsAreHolders(pool, seats, needs, SignupRanks(pool), role);
    }
  }

  // ----- What the board promises

  lemma GroupsKeepTheirNeed(raiders: seq<Raider>, t: Template, mode: Mode, g: Group)
    requires DistinctIds(raiders)
    ensures Seated(AssignResult(raiders, t, mode).assignments, g) <= Max(NeedOf(NeedsOf(raiders, t, mode), g), 0)
  {
    var seats := BoardCounts(raiders, t, mode);
    assert Settled(FilterMap(raiders, Playable()), seats, g, NeedsOf(raiders, t, mode));
    assert Seated(AssignResult(raiders, t, mode).assignments, g) == Count(seats, g);
  }

  lemma SidesKeepTheirCap(raiders: seq<Raider>, t: Template, mode: Mode)
    requires DistinctIds(raiders)
    ensures var rows, needs := AssignResult(raiders, t, mode).assignments, NeedsOf(raiders, t, mode);
      && (needs.maxMelee.Some? ==> |SeatsAs(rows, MeleeDps)| <= needs.maxMelee.value)
      && (needs.maxRanged.Some? ==> |SeatsAs(rows, RangedDps)| <= needs.maxRanged.value)
  {
    var seats := BoardCounts(raiders, t, mode);
    assert |SeatsAs(AssignResult(raiders, t, mode).assignments, MeleeDps)| == Held(seats, MeleeDps);
    assert |SeatsAs(AssignResult(raiders, t, mode).assignments, RangedDps)| == Held(seats, RangedDps);
  }

  /** No more tanks, healers or DPS than the raid needs, and neither side over its cap. */
  lemma NoSeatTooMany(raiders: seq<Raider>, t: Template, mode: Mode)
    requires DistinctIds(raiders)
    ensures var rows, needs := AssignResult(raiders, t, mode).assignments, NeedsOf(raiders, t, mode);
      && |SeatsAs(rows, Tank)| <= needs.tanks && |SeatsAs(rows, Healer)| <= needs.healers
      && (needs.dps >= 0 ==> |SeatsAs(rows, MeleeDps)| + |SeatsAs(rows, RangedDps)| <= needs.dps)
      && (needs.dps < 0 ==> SeatsAs(rows, MeleeDps) == {} && SeatsAs(rows, RangedDps) == {})
      && (needs.maxMelee.Some? ==> |SeatsAs(rows, MeleeDps)| <= needs.maxMelee.value)
      && (needs.maxRanged.Some? ==> |SeatsAs(rows, RangedDps)| <= needs.maxRanged.value)
  {
    NeedsFillTheRaid(t, mode, |FilterMap(raiders, Playable())|);
    GroupsKeepTheirNeed(raiders, t, mode, TankGroup);
    GroupsKeepTheirNeed(raiders, t, mode, HealerGroup);
    GroupsKeepTheirNeed(raiders, t, mode, DpsGroup);
    SidesKeepTheirCap(raiders, t, mode);
  }

  /** Nobody is benched beside a seat they could take: if a benched raider plays a role, its
      group is full, or its side of the DPS is. */
  lemma NobodyWaitsBesideAnOpenSeat(raiders: seq<Raider>, t: Template, mode: Mode, j: nat, b: Raider, role: Role)
    requires DistinctIds(raiders) && b in raiders && CanPlay(b, role).Some?
    requires var rows := AssignResult(raiders, t, mode).assignments;
      j < |rows| && rows[j].isBench && rows[j].id == b.id
    ensures var rows, needs := AssignResult(raiders, t, mode).assignments, NeedsOf(raiders, t, mode);
      match role
      case Tank => |SeatsAs(rows, Tank)| >= needs.tanks
      case Healer => |SeatsAs(rows, Healer)| >= needs.healers
      case MeleeDps =>
        |SeatsAs(rows, MeleeDps)| + |SeatsAs(rows, RangedDps)| >= needs.dps
        || (needs.maxMelee.Some? && |SeatsAs(rows, MeleeDps)| >= needs.maxMelee.value)
      case RangedDps =>
        |SeatsAs(rows, MeleeDps)| + |SeatsAs(rows, RangedDps)| >= needs.dps
        || (needs.maxRanged.Some? && |SeatsAs(rows, RangedDps)| >= needs.maxRanged.value)
  {
    var seats := BoardCounts(raiders, t, mode);
    var pool, needs, g := FilterMap(raiders, Playable()), NeedsOf(raiders, t, mode), GroupForRole(role);
    BenchedIsUnseated(raiders, t, mode, j, b);
    RoomIsTaken(pool, seats, needs, b, role);
    var rows := AssignResult(raiders, t, mode).assignments;
    assert Seated(rows, g) == Count(seats, g);
  }

  /** A raider left out plays only roles whose group has its need or whose side is closed. */
  lemma RoomIsTaken(pool: seq<Raider>, seats: Seats, needs: Needs, b: Raider, role: Role)
    requires AllSettled(pool, seats, needs) && b in pool && b.id !in seats && CanPlay(b, role).Some?
    ensures Count(seats, GroupForRole(role)) >= NeedOf(needs, GroupForRole(role))
         || !SideOpen(role, needs, Held(seats, MeleeDps), Held(seats, RangedDps))
  {
    var g := GroupForRole(role);
    assert Settled(pool, seats, g, needs);
    if Short(seats, g, needs) {
      assert NoneFits(pool, seats, g, needs) && Place(b, g, needs, seats).None?;
      PlacementIsBestOpenRole(b, g, needs, Held(seats, MeleeDps), Held(seats, RangedDps));
      assert !CanTake(b, role, needs, Held(seats, MeleeDps), Held(seats, RangedDps));
    }
  }

  lemma BenchedIsUnseated(raiders: seq<Raider>, t: Template, mode: Mode, j: nat, b: Raider)
    requires DistinctIds(raiders) && b in raiders
    requires var rows := AssignResult(raiders, t, mode).assignments;
      j < |rows| && rows[j].isBench && rows[j].id == b.id
    ensures var pool := FilterMap(raiders, Playable());
      b in pool && b.id !in Seating(pool, NeedsOf(raiders, t, mode))
  {
    var pool, needs := FilterMap(raiders, Playable()), NeedsOf(raiders, t, mode);
    var seats, ranks := Seating(pool, needs), SignupRanks(pool);
    PlayablePool(raiders);
    SeatingIsAtRest(pool, needs);
    ListsSplitThePool(pool, seats, ranks);
    SplitSizes(pool, seats, SeatedList(pool, seats, ranks), BenchList(pool, seats, ranks));
    var r := RowAt(pool, seats, SeatedList(pool, seats, ranks), BenchList(pool, seats, ranks), ranks, j);
    SameIdSameRaider(raiders, b, r);
  }

  // ----- What is reported

  lemma {:induction false} ShortfallsAre(order: seq<Group>, seats: Seats, needs: Needs, a: Advisory)
    ensures a in Shortfalls(order, seats, needs)
        <==> a.Shortfall? && a.group in order
             && a.got == Count(seats, a.group) && a.need == NeedOf(needs, a.group) && a.got < a.need
    decreases |order|
  {
    if order == [] {
    } else {
      ShortfallsAre(order[1..], seats, needs, a);
    }
  }

  /** A lock says of each group how short it is, with the seats it has and the seats it needs;
      it names everybody without a menu; and besides that it says what the template says. */
  lemma LockReports(raiders: seq<Raider>, t: Template, mode: Mode, a: Advisory)
    requires DistinctIds(raiders)
    ensures var rows, needs := AssignResult(raiders, t, mode).assignments, NeedsOf(raiders, t, mode);
      a in AssignResult(raiders, t, mode).advisories
      <==> match a
           case Shortfall(g, got, need) =>
             got < need
             && (match g
                 case TankGroup => got == |SeatsAs(rows, Tank)| && need == needs.tanks
                 case HealerGroup => got == |SeatsAs(rows, Healer)| && need == needs.healers
                 case DpsGroup =>
                   got == |SeatsAs(rows, MeleeDps)| + |SeatsAs(rows, RangedDps)| && need == needs.dps)
           case NoRolesSet(name) => exists r :: r in raiders && r.roles == [] && r.name == name
           case _ => a in ResolveAdvisories(t, mode, |FilterMap(raiders, Playable())|)
  {
    var pool, needs := FilterMap(raiders, Playable()), NeedsOf(raiders, t, mode);
    var seats := BoardCounts(raiders, t, mode);
    assert forall g: Group :: Seated(AssignResult(raiders, t, mode).assignments, g) == Count(seats, g);
    EveryGroupIsListed();
    ShortfallsAre(GROUPS, seats, needs, a);
    RolelessAreNamed(raiders, a);
    CountPartSays(t, mode, |pool|, a);
    AdvisoriesInParts(t, mode, |pool|, a);
  }

  lemma RolelessAreNamed(raiders: seq<Raider>, a: Advisory)
    ensures a in NoRoleAdvisories(FilterMap(raiders, Roleless()))
        <==> a.NoRolesSet? && exists r :: r in raiders && r.roles == [] && r.name == a.name
  {
    var roleless := FilterMap(raiders, Roleless());
    forall r ensures r in roleless <==> r in raiders && r.roles == [] { FilterMapIn(raiders, Roleless(), r); }
    if a.NoRolesSet? && exists r :: r in raiders && r.roles == [] && r.name == a.name {
      var r :| r in raiders && r.roles == [] && r.name == a.name;
      assert r in roleless;
      var i :| 0 <= i < |roleless| && roleless[i] == r;
      assert NoRoleAdvisories(roleless)[i] == a;
    }
  }

  lemma {:induction false} SeatCountIsSeated(slots: seq<Assignment>, g: Group)
    ensures Advice.SeatCount(slots, g) == Seated(slots, g)
  {
    if slots == [] {
      assert forall role: Role :: SeatsAs(slots, role) == {};
    } else {
      SeatCountIsSeated(slots[..|slots| - 1], g);
      forall role: Role { SeatsGrow(slots, role); }
    }
  }

  lemma {:induction false} GapsAre(order: seq<Group>, slots: seq<Assignment>, needs: Needs, a: Advisory)
    ensures a in Advice.Gaps(order, slots, needs)
        <==> a.Gap? && a.group in order
             && a.seated == Advice.SeatCount(slots, a.group) && a.need == NeedOf(needs, a.group) && a.seated < a.need
    decreases |order|
  {
    if order == [] {
    } else {
      GapsAre(order[1..], slots, needs, a);
    }
  }

  /** A board read back, by hand or locked, says of each group how many seats are still open in
      the raid its rows are sized to, and what the template says; an empty one says nothing. */
  lemma ReadBackReports(slots: seq<Assignment>, t: Template, mode: Mode, a: Advisory)
    ensures var needs := ResolvedNeeds(t, mode, |slots|);
      a in Advice.AdviseResult(slots, t, mode)
      <==> slots != []
           && match a
              case Gap(g, seated, need) =>
                seated < need
                && (match g
                    case TankGroup => seated == |SeatsAs(slots, Tank)| && need == needs.tanks
                    case HealerGroup => seated == |SeatsAs(slots, Healer)| && need == needs.healers
                    case DpsGroup =>
                      seated == |SeatsAs(slots, MeleeDps)| + |SeatsAs(slots, RangedDps)| && need == needs.dps)
              case _ => a in ResolveAdvisories(t, mode, |slots|)
  {
    EveryGroupIsListed();
    GapsAre(GROUPS, slots, ResolvedNeeds(t, mode, |slots|), a);
    if a.Gap? { SeatCountIsSeated(slots, a.group); }
    CountPartSays(t, mode, |slots|, a);
    AdvisoriesInParts(t, mode, |slots|, a);
  }
}
