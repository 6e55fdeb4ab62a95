/** internal/comp/advise.go: what a board says about itself when it is read back, and that a
    freshly locked board says what the lock said. */
module Advice {
  import opened Options
  import opened Sequences
  import opened Comp
  import opened Placing
  import opened SeatingRules
  import opened SeatingQuality
  import opened CappedQuality
  import opened SidesQuality
  import opened Board

  /** Seats of a board held in a group; the bench is not in the raid. */
  function SeatCount(slots: seq<Assignment>, g: Group): nat {
    if slots == [] then 0
    else
      var last := slots[|slots| - 1];
      SeatCount(slots[..|slots| - 1], g) + (if !last.isBench && GroupForRole(last.role) == g then 1 else 0)
  }

  function Gaps(order: seq<Group>, slots: seq<Assignment>, needs: Needs): seq<Advisory> {
    if order == [] then []
    else
      (if SeatCount(slots, order[0]) < NeedOf(needs, order[0])
       then [Gap(order[0], SeatCount(slots, order[0]), NeedOf(needs, order[0]))] else [])
      + Gaps(order[1..], slots, needs)
  }

  function AdviseResult(slots: seq<Assignment>, t: Template, mode: Mode): seq<Advisory> {
    if slots == [] then []
    else
      ResolveAdvisories(t, mode, |slots|) + Gaps(GROUPS, slots, ResolvedNeeds(t, mode, |slots|))
  }

  method CountSeats(slots: seq<Assignment>) returns (seated: map<Group, int>)
    ensures forall g: Group :: g in seated && seated[g] == SeatCount(slots, g)
  {
    seated := map[TankGroup := 0, HealerGroup := 0, DpsGroup := 0];
    forall g: Group ensures g in seated && seated[g] == 0 {
      match g
      case TankGroup =>
      case HealerGroup =>
      case DpsGroup =>
    }
    for i := 0 to |slots|
      invariant forall g: Group :: g in seated && seated[g] == SeatCount(slots[..i], g)
    {
      assert slots[..i + 1][..i] == slots[..i];
      if !slots[i].isBench {
        var g := GroupForRole(slots[i].role);
        seated := seated[g := seated[g] + 1];
      }
    }
    assert slots[..|slots|] == slots;
  }

  method ReportGaps(order: seq<Group>, slots: seq<Assignment>, needs: Needs, seated: map<Group, int>)
    returns (said: seq<Advisory>)
    requires forall g: Group :: g in seated && seated[g] == SeatCount(slots, g)
    ensures said == Gaps(order, slots, needs)
  {
    said := [];
    for k := 0 to |order|
      invariant said + Gaps(order[k..], slots, needs) == Gaps(order, slots, needs)
    {
      var g := order[k];
      assert order[k..][0] == g && order[k..][1..] == order[k + 1..];
      if seated[g] < NeedOf(needs, g) { said := said + [Gap(g, seated[g], NeedOf(needs, g))]; }
    }
  }

  method Advise(slots: seq<Assignment>, t: Template, mode: Mode) returns (said: seq<Advisory>)
    ensures said == AdviseResult(slots, t, mode)
  {
    if |slots| == 0 { return []; }
    var needs;
    needs, said := Resolve(t, mode, |slots|);
    var seated := CountSeats(slots);
    var gaps := ReportGaps(GROUPS, slots, needs, seated);
    said := said + gaps;
  }

  // ----- Reading back what a lock wrote

  lemma {:induction false} SeatCountSplits(a: seq<Assignment>, b: seq<Assignment>, g: Group)
    ensures SeatCount(a + b, g) == SeatCount(a, g) + SeatCount(b, g)
  {
    if b == [] {
      assert a + b == a;
    } else {
      SeatCountSplits(a, b[..|b| - 1], g);
      assert (a + b)[..|a + b| - 1] == a + b[..|b| - 1];
    }
  }

  lemma {:induction false} BenchCountsNothing(benched: seq<Raider>, ranks: Ranks, g: Group)
    ensures SeatCount(BenchRows(benched, ranks), g) == 0
  {
    if benched == [] {
    } else {
      var front := benched[..|benched| - 1];
      BenchCountsNothing(front, ranks, g);
      assert BenchRows(benched, ranks)[..|front|] == BenchRows(front, ranks);
    }
  }

  function SeatedIn(seated: seq<Raider>, seats: Seats, g: Group): set<CharacterId> {
    InGroup(Ids(seated), seats, g)
  }

  lemma IdsGrow(front: seq<Raider>, last: Raider)
    ensures Ids(front + [last]) == Ids(front) + {last.id}
  {
    forall id ensures id in Ids(front + [last]) <==> id in Ids(front) || id == last.id {
      assert last in front + [last];
      assert forall r :: r in front + [last] <==> r in front || r == last;
    }
  }

  lemma SeatedInGrows(front: seq<Raider>, last: Raider, seats: Seats, g: Group)
    requires last.id in seats && forall r | r in front :: r.id != last.id
    ensures |SeatedIn(front + [last], seats, g)|
         == |SeatedIn(front, seats, g)| + (if seats[last.id].group == g then 1 else 0)
  {
    IdsGrow(front, last);
    assert last.id !in Ids(front);
    InGroupGrows(Ids(front), last.id, seats, g);
  }

  function InGroup(ids: set<CharacterId>, seats: Seats, g: Group): set<CharacterId> {
    set id | id in ids && id in seats && seats[id].group == g
  }

  lemma InGroupGrows(ids: set<CharacterId>, id: CharacterId, seats: Seats, g: Group)
    requires id !in ids && id in seats
    ensures |InGroup(ids + {id}, seats, g)| == |InGroup(ids, seats, g)| + (if seats[id].group == g then 1 else 0)
  {
    if seats[id].group == g {
      assert InGroup(ids + {id}, seats, g) == InGroup(ids, seats, g) + {id};
    } else {
      assert InGroup(ids + {id}, seats, g) == InGroup(ids, seats, g);
    }
  }

  lemma {:induction false} SeatRowsCount(seated: seq<Raider>, seats: Seats, ranks: Ranks, g: Group)
    requires DistinctIds(seated)
    requires forall r | r in seated :: r.id in seats && GroupForRole(seats[r.id].role) == seats[r.id].group
    ensures SeatCount(SeatRows(seated, seats, ranks), g) == |SeatedIn(seated, seats, g)|
  {
    if seated == [] {
      assert SeatedIn(seated, seats, g) == {};
    } else {
      var front, last := seated[..|seated| - 1], seated[|seated| - 1];
      SeatRowsCount(front, seats, ranks, g);
      assert SeatRows(seated, seats, ranks)[..|front|] == SeatRows(front, seats, ranks);
      SeatedInGrows(front, last, seats, g);
      assert seated == front + [last];
    }
  }

  /** The seats of a board written from a seating are the counts of that seating. */
  lemma RowsCount(pool: seq<Raider>, seats: Seats, needs: Needs, ranks: Ranks, g: Group)
    requires DistinctIds(pool) && Sound(pool, seats, needs)
    ensures SeatCount(Rows(pool, seats, ranks), g) == Count(seats, g)
  {
    var seated, benched := SeatedList(pool, seats, ranks), BenchList(pool, seats, ranks);
    ListsSplitThePool(pool, seats, ranks);
    SeatedIds(pool, seats, seated);
    SeatCountSplits(SeatRows(seated, seats, ranks), BenchRows(benched, ranks), g);
    BenchCountsNothing(benched, ranks, g);
    forall r | r in seated ensures r.id in seats && GroupForRole(seats[r.id].role) == seats[r.id].group {
      assert Fits(r, seats[r.id]);
    }
    SeatRowsCount(seated, seats, ranks, g);
    SeatedInIsMembers(seated, seats, g);
  }

  lemma SeatedInIsMembers(seated: seq<Raider>, seats: Seats, g: Group)
    requires Ids(seated) == seats.Keys
    ensures SeatedIn(seated, seats, g) == Members(seats, g)
  {
    forall id | id in Members(seats, g) ensures id in SeatedIn(seated, seats, g) {
      assert id in Ids(seated);
    }
  }

  /** The gap a shortfall reads back as: same group, same two numbers. */
  function AsGap(a: Advisory): Advisory {
    match a
    case Shortfall(g, got, need) => Gap(g, got, need)
    case _ => a
  }

  function AsGaps(said: seq<Advisory>): seq<Advisory> {
    seq(|said|, i requires 0 <= i < |said| => AsGap(said[i]))
  }

  lemma {:induction false} GapsAreShortfalls(order: seq<Group>, slots: seq<Assignment>, seats: Seats, needs: Needs)
    requires forall g: Group :: SeatCount(slots, g) == Count(seats, g)
    ensures Gaps(order, slots, needs) == AsGaps(Shortfalls(order, seats, needs))
    decreases |order|
  {
    if order == [] {
    } else {
      GapsAreShortfalls(order[1..], slots, seats, needs);
    }
  }

  lemma AdviseFromCounts(slots: seq<Assignment>, seats: Seats, t: Template, mode: Mode)
    requires slots != [] && forall g: Group :: SeatCount(slots, g) == Count(seats, g)
    ensures AdviseResult(slots, t, mode)
         == ResolveAdvisories(t, mode, |slots|) + AsGaps(Shortfalls(GROUPS, seats, ResolvedNeeds(t, mode, |slots|)))
  {
    var order := GROUPS;
    GapsAreShortfalls(order, slots, seats, ResolvedNeeds(t, mode, |slots|));
  }

  lemma LockedCounts(pool: seq<Raider>, needs: Needs)
    requires DistinctIds(pool)
    requires WithinCap(needs.maxMelee, 0) && WithinCap(needs.maxRanged, 0)
    ensures var rows := Rows(pool, Seating(pool, needs), SignupRanks(pool));
      |rows| == |pool| && forall g: Group :: SeatCount(rows, g) == Count(Seating(pool, needs), g)
  {
    var seats, ranks := Seating(pool, needs), SignupRanks(pool);
    SeatingIsAtRest(pool, needs);
    ListsSplitThePool(pool, seats, ranks);
    SplitSizes(pool, seats, SeatedList(pool, seats, ranks), BenchList(pool, seats, ranks));
    forall g: Group ensures SeatCount(Rows(pool, seats, ranks), g) == Count(seats, g) {
      RowsCount(pool, seats, needs, ranks, g);
    }
  }

  /** Read back, a freshly locked board repeats the template's advisories and reports a gap
      for each shortfall the lock reported and no other, with the same two numbers. */
  lemma AdviseRepeatsTheLock(raiders: seq<Raider>, t: Template, mode: Mode)
    requires DistinctIds(raiders) && exists r :: r in raiders && r.roles != []
    ensures var pool := FilterMap(raiders, Playable());
      var locked := AssignResult(raiders, t, mode);
      var needs := ResolvedNeeds(t, mode, |pool|);
      var shortfalls := Shortfalls(GROUPS, Seating(pool, needs), needs);
      && locked.advisories == ResolveAdvisories(t, mode, |pool|)
                              + NoRoleAdvisories(FilterMap(raiders, Roleless())) + shortfalls
      && AdviseResult(locked.assignments, t, mode) == ResolveAdvisories(t, mode, |pool|) + AsGaps(shortfalls)
  {
    var pool := FilterMap(raiders, Playable());
    var needs := ResolvedNeeds(t, mode, |pool|);
    PlayablePool(raiders);
    LockedCounts(pool, needs);
    var r :| r in raiders && r.roles != [];
    assert r in pool;
    AdviseFromCounts(Rows(pool, Seating(pool, needs), SignupRanks(pool)), Seating(pool, needs), t, mode);
  }

  /** With no side capped, the board Assign answers seats at least two thirds of the raiders
      any legal plan for the same pool seats. */
  lemma AssignSeatsTwoThirds(raiders: seq<Raider>, t: Template, mode: Mode, plan: Plan)
    requires DistinctIds(raiders) && t.maxMelee.None? && t.maxRanged.None?
    requires var pool := FilterMap(raiders, Playable());
      Legal(pool, plan, ResolvedNeeds(t, mode, |pool|))
    ensures var rows := AssignResult(raiders, t, mode).assignments;
      3 * (SeatCount(rows, TankGroup) + SeatCount(rows, HealerGroup) + SeatCount(rows, DpsGroup)) >= 2 * |plan|
  {
    var pool := FilterMap(raiders, Playable());
    var needs := ResolvedNeeds(t, mode, |pool|);
    var seats := Seating(pool, needs);
    PlayablePool(raiders);
    SeatingIsWithinTwoThirds(pool, needs, plan);
    LockedCounts(pool, needs);
    SeatsByGroup(seats);
  }

  /** Whatever the caps of the template, that board seats at least half of the raiders any
      plan within needs and caps seats. */
  lemma AssignSeatsHalf(raiders: seq<Raider>, t: Template, mode: Mode, plan: RolePlan)
    requires DistinctIds(raiders)
    requires var pool := FilterMap(raiders, Playable());
      LegalRoles(pool, plan, ResolvedNeeds(t, mode, |pool|))
    ensures var rows := AssignResult(raiders, t, mode).assignments;
      |plan| <= 2 * (SeatCount(rows, TankGroup) + SeatCount(rows, HealerGroup) + SeatCount(rows, DpsGroup))
  {
    var pool := FilterMap(raiders, Playable());
    var needs := ResolvedNeeds(t, mode, |pool|);
    var seats := Seating(pool, needs);
    PlayablePool(raiders);
    SeatingIsWithinHalf(pool, needs, plan);
    LockedCounts(pool, needs);
    SeatsByGroup(seats);
  }

  /** And two thirds of it when no raider plays both melee and ranged. */
  lemma AssignSeatsTwoThirdsWithoutHybrids(raiders: seq<Raider>, t: Template, mode: Mode, plan: RolePlan)
    requires DistinctIds(raiders) && forall r | r in raiders :: !Hybrid(r)
    requires var pool := FilterMap(raiders, Playable());
      LegalRoles(pool, plan, ResolvedNeeds(t, mode, |pool|))
    ensures var rows := AssignResult(raiders, t, mode).assignments;
      3 * (SeatCount(rows, TankGroup) + SeatCount(rows, HealerGroup) + SeatCount(rows, DpsGroup)) >= 2 * |plan|
  {
    var pool := FilterMap(raiders, Playable());
    var needs := ResolvedNeeds(t, mode, |pool|);
    var seats := Seating(pool, needs);
    PlayablePool(raiders);
    TwoThirdsWithoutHybrids(pool, needs, plan);
    LockedCounts(pool, needs);
    SeatsByGroup(seats);
  }

  lemma SeatsByGroup(seats: Seats)
    ensures |seats| == Count(seats, TankGroup) + Count(seats, HealerGroup) + Count(seats, DpsGroup)
  {
    var q := PlanOf(seats);
    assert q.Keys == seats.Keys;
    assert |q.Keys| == |seats.Keys|;
    AllIn(q);
    InSplits(q, {TankGroup, HealerGroup}, {DpsGroup});
    InSplits(q, {TankGroup}, {HealerGroup});
    GroupCount(seats, TankGroup);
    GroupCount(seats, HealerGroup);
    GroupCount(seats, DpsGroup);
    assert {TankGroup} + {HealerGroup} == {TankGroup, HealerGroup};
    assert {TankGroup, HealerGroup} + {DpsGroup} == EVERY_GROUP;
  }
}
