/** How good the seating is, when no side is capped: never below two thirds of the best
    possible one, and best possible exactly when no chain of two moves is left. */
module SeatingQuality {
  import opened Options
  import opened Comp
  import opened Placing
  import opened SeatingRules

  /** Who plays in which group: a seating without its roles and priorities. */
  type Plan = map<CharacterId, Group>

  function PlanOf(seats: Seats): Plan { map id | id in seats :: seats[id].group }

  ghost predicate Plays(pool: seq<Raider>, id: CharacterId, g: Group) {
    exists r :: r in pool && r.id == id && GroupPriority(r, g).Some?
  }

  function In(plan: Plan, groups: set<Group>): set<CharacterId> {
    set id | id in plan && plan[id] in groups
  }

  /** A seating a raid lead could write down: raiders of the pool, in groups they play,
      nobody twice, and no group above its need. */
  ghost predicate Legal(pool: seq<Raider>, plan: Plan, needs: Needs) {
    && (forall id | id in plan :: Plays(pool, id, plan[id]))
    && (forall g: Group :: |In(plan, {g})| <= NeedOf(needs, g))
  }

  predicate Uncapped(needs: Needs) { needs.maxMelee.None? && needs.maxRanged.None? }

  const EVERY_GROUP: set<Group> := {TankGroup, HealerGroup, DpsGroup}

  lemma EveryGroupIn(g: Group)
    ensures g in EVERY_GROUP
  {
    match g
    case TankGroup =>
    case HealerGroup =>
    case DpsGroup =>
  }

  lemma AllIn(plan: Plan)
    ensures In(plan, EVERY_GROUP) == plan.Keys
    ensures |In(plan, EVERY_GROUP)| == |plan|
  {
    forall id | id in plan ensures plan[id] in EVERY_GROUP { EveryGroupIn(plan[id]); }
    assert In(plan, EVERY_GROUP) == plan.Keys;
  }

  lemma InSplits(plan: Plan, a: set<Group>, b: set<Group>)
    requires a !! b
    ensures |In(plan, a + b)| == |In(plan, a)| + |In(plan, b)|
  {
    assert In(plan, a + b) == In(plan, a) + In(plan, b);
    assert In(plan, a) !! In(plan, b);
  }

  lemma GroupCount(seats: Seats, g: Group)
    ensures |In(PlanOf(seats), {g})| == Count(seats, g)
  {
    assert In(PlanOf(seats), {g}) == Members(seats, g);
  }

  /** Groups that are full hold at least what any legal plan puts in them. */
  lemma {:induction false} FullGroupsHoldMore(
    pool: seq<Raider>, plan: Plan, seats: Seats, needs: Needs, groups: set<Group>)
    requires Legal(pool, plan, needs)
    requires forall g | g in groups :: !Short(seats, g, needs)
    ensures |In(plan, groups)| <= |In(PlanOf(seats), groups)|
    decreases groups
  {
    if groups == {} {
      assert In(plan, groups) == {};
    } else {
      var g :| g in groups;
      var rest := groups - {g};
      assert groups == rest + {g};
      FullGroupsHoldMore(pool, plan, seats, needs, rest);
      InSplits(plan, rest, {g});
      InSplits(PlanOf(seats), rest, {g});
      GroupCount(seats, g);
    }
  }

  // ----- What a seating at rest looks like from a benched raider

  lemma UncappedPlace(r: Raider, g: Group, needs: Needs, seats: Seats)
    requires Uncapped(needs)
    ensures Place(r, g, needs, seats).Some? <==> GroupPriority(r, g).Some?
  {
  }

  ghost predicate PlayedFromBench(pool: seq<Raider>, seats: Seats, g: Group) {
    exists b :: b in pool && b.id !in seats && GroupPriority(b, g).Some?
  }

  lemma BenchPlaysOnlyFullGroups(pool: seq<Raider>, seats: Seats, needs: Needs, g: Group)
    requires Uncapped(needs) && AllSettled(pool, seats, needs)
    requires PlayedFromBench(pool, seats, g)
    ensures !Short(seats, g, needs)
  {
    assert Settled(pool, seats, g, needs);
    var b :| b in pool && b.id !in seats && GroupPriority(b, g).Some?;
    UncappedPlace(b, g, needs, seats);
  }

  /** Whoever sits where a benched raider could sit plays no short group. */
  lemma ReplaceableStayPut(pool: seq<Raider>, seats: Seats, needs: Needs, m: Raider, g: Group)
    requires Uncapped(needs) && AtRest(pool, seats, needs)
    requires m in pool && m.id in seats && PlayedFromBench(pool, seats, seats[m.id].group)
    requires seats[m.id].group != g && GroupPriority(m, g).Some?
    ensures !Short(seats, g, needs)
  {
    var b :| b in pool && b.id !in seats && GroupPriority(b, seats[m.id].group).Some?;
    UncappedPlace(m, g, needs, seats - {m.id});
    UncappedPlace(b, seats[m.id].group, needs, Moved(m, seats, g, needs).value);
    if Short(seats, g, needs) {
      assert IsSwap(pool, seats, g, needs, m, b);
    }
  }

  // ----- Two thirds

  /** The groups a benched raider plays, and the full groups no benched raider plays. */
  ghost function Wanted(pool: seq<Raider>, seats: Seats): set<Group> {
    set g | g in EVERY_GROUP && PlayedFromBench(pool, seats, g)
  }

  ghost function Unwanted(pool: seq<Raider>, seats: Seats, needs: Needs): set<Group> {
    set g | g in EVERY_GROUP && !PlayedFromBench(pool, seats, g) && !Short(seats, g, needs)
  }

  ghost function Lacking(pool: seq<Raider>, seats: Seats, needs: Needs): set<Group> {
    set g | g in EVERY_GROUP && !PlayedFromBench(pool, seats, g) && Short(seats, g, needs)
  }

  lemma ThreeKinds(pool: seq<Raider>, seats: Seats, needs: Needs, plan: Plan)
    ensures |plan| == |In(plan, Wanted(pool, seats))| + |In(plan, Unwanted(pool, seats, needs))|
                      + |In(plan, Lacking(pool, seats, needs))|
  {
    var w, u, l := Wanted(pool, seats), Unwanted(pool, seats, needs), Lacking(pool, seats, needs);
    assert EVERY_GROUP == w + u + l;
    AllIn(plan);
    InSplits(plan, w + u, l);
    InSplits(plan, w, u);
  }

  /** Any raider a legal plan puts in a short group already holds a seat nobody benched wants. */
  lemma LackingFilledFromTheRest(pool: seq<Raider>, plan: Plan, seats: Seats, needs: Needs)
    requires DistinctIds(pool) && Uncapped(needs) && Legal(pool, plan, needs)
    requires AtRest(pool, seats, needs)
    ensures In(plan, Lacking(pool, seats, needs))
         <= In(PlanOf(seats), Unwanted(pool, seats, needs) + Lacking(pool, seats, needs))
  {
    var lacking := Lacking(pool, seats, needs);
    forall id | id in In(plan, lacking)
      ensures id in In(PlanOf(seats), Unwanted(pool, seats, needs) + lacking)
    {
      var r :| r in pool && r.id == id && GroupPriority(r, plan[id]).Some?;
      assert !PlayedFromBench(pool, seats, plan[id]);
      assert id in seats;
      EveryGroupIn(seats[id].group);
      if PlayedFromBench(pool, seats, seats[id].group) {
        ReplaceableStayPut(pool, seats, needs, r, plan[id]);
      }
    }
  }

  /** Any raider a legal plan adds to those seated goes where a benched raider could sit. */
  lemma NewcomersAreWanted(pool: seq<Raider>, plan: Plan, seats: Seats, needs: Needs)
    requires Legal(pool, plan, needs)
    ensures plan.Keys <= seats.Keys + In(plan, Wanted(pool, seats))
  {
    forall id | id in plan && id !in seats ensures id in In(plan, Wanted(pool, seats)) {
      var r :| r in pool && r.id == id && GroupPriority(r, plan[id]).Some?;
      assert PlayedFromBench(pool, seats, plan[id]);
      EveryGroupIn(plan[id]);
    }
  }

  lemma RestBounds(pool: seq<Raider>, plan: Plan, seats: Seats, needs: Needs)
    requires DistinctIds(pool) && Uncapped(needs) && Legal(pool, plan, needs)
    requires AllSettled(pool, seats, needs) && AtRest(pool, seats, needs)
    ensures 2 * |plan| <= 3 * |seats|
  {
    var w, u, l := Wanted(pool, seats), Unwanted(pool, seats, needs), Lacking(pool, seats, needs);
    forall g | g in w ensures !Short(seats, g, needs) { BenchPlaysOnlyFullGroups(pool, seats, needs, g); }
    var q := PlanOf(seats);
    assert |q| == |seats| by { assert q.Keys == seats.Keys; assert |q.Keys| == |seats.Keys|; }
    ThreeKinds(pool, seats, needs, plan);
    ThreeKinds(pool, seats, needs, q);
    FullGroupsHoldMore(pool, plan, seats, needs, w);
    FullGroupsHoldMore(pool, plan, seats, needs, u);
    LackingFilledFromTheRest(pool, plan, seats, needs);
    SubsetSize(In(plan, l), In(q, u + l));
    InSplits(q, u, l);
    NewcomersAreWanted(pool, plan, seats, needs);
    SubsetSize(plan.Keys, seats.Keys + In(plan, w));
    UnionSize(seats.Keys, In(plan, w));
  }

  lemma UnionSize<T>(a: set<T>, b: set<T>)
    ensures |a + b| <= |a| + |b|
  {
    assert a + b == a + (b - a);
    SubsetSize(b - a, b);
  }

  /** With no side capped, Assign seats at least two thirds of what any legal plan seats. */
  lemma SeatingIsWithinTwoThirds(pool: seq<Raider>, needs: Needs, plan: Plan)
    requires DistinctIds(pool) && Uncapped(needs) && Legal(pool, plan, needs)
    ensures 3 * |Seating(pool, needs)| >= 2 * |plan|
  {
    SeatingIsAtRest(pool, needs);
    RestBounds(pool, plan, Seating(pool, needs), needs);
  }

  // ----- Exactly when it is best possible

  /** A benched raider could take y's seat, y could take z's, and z's move would fill a short
      group: two moves, where the repair only ever tries one. */
  ghost predicate IsChain(pool: seq<Raider>, seats: Seats, needs: Needs, b: Raider, y: Raider, z: Raider, g: Group) {
    && b in pool && y in pool && z in pool
    && b.id !in seats && y.id in seats && z.id in seats
    && seats[y.id].group != seats[z.id].group
    && GroupPriority(b, seats[y.id].group).Some?
    && GroupPriority(y, seats[z.id].group).Some?
    && GroupPriority(z, g).Some?
    && Short(seats, g, needs)
  }

  /** groups is closed: whoever is benched or sits in it plays only groups of it. */
  ghost predicate Closed(pool: seq<Raider>, seats: Seats, groups: set<Group>) {
    forall r, g: Group | r in pool && (r.id in seats ==> seats[r.id].group in groups) && GroupPriority(r, g).Some?
      :: g in groups
  }

  /** A closed set of full groups is a cut no legal plan gets past. */
  lemma CutBounds(pool: seq<Raider>, plan: Plan, seats: Seats, needs: Needs, groups: set<Group>)
    requires Legal(pool, plan, needs) && Closed(pool, seats, groups)
    requires forall g | g in groups :: !Short(seats, g, needs)
    ensures |plan| <= |seats|
  {
    var others := EVERY_GROUP - groups;
    var q := PlanOf(seats);
    forall g | g in groups ensures g in EVERY_GROUP { EveryGroupIn(g); }
    assert EVERY_GROUP == groups + others;
    AllIn(plan);
    AllIn(q);
    InSplits(plan, groups, others);
    InSplits(q, groups, others);
    FullGroupsHoldMore(pool, plan, seats, needs, groups);
    forall id | id in In(plan, others) ensures id in In(q, others) {
      var r :| r in pool && r.id == id && GroupPriority(r, plan[id]).Some?;
      if id in seats { EveryGroupIn(seats[id].group); }
    }
    SubsetSize(In(plan, others), In(q, others));
    assert q.Keys == seats.Keys;
    assert |q.Keys| == |seats.Keys|;
  }

  /** The groups somebody sitting in one of these could move to, added to them. */
  ghost function Reach(pool: seq<Raider>, seats: Seats, groups: set<Group>): set<Group> {
    groups + set g | g in EVERY_GROUP && exists y :: y in pool && y.id in seats
                                               && seats[y.id].group in groups && GroupPriority(y, g).Some?
  }

  lemma ReachCloses(pool: seq<Raider>, seats: Seats, groups: set<Group>)
    requires Reach(pool, seats, groups) == groups && Wanted(pool, seats) <= groups
    ensures Closed(pool, seats, groups)
  {
    forall r, g: Group | r in pool && (r.id in seats ==> seats[r.id].group in groups) && GroupPriority(r, g).Some?
      ensures g in groups
    {
      EveryGroupIn(g);
      if r.id in seats {
        assert g in Reach(pool, seats, groups);
      } else {
        assert PlayedFromBench(pool, seats, g);
      }
    }
  }

  lemma TwoStepsFillThree(r1: set<Group>, r2: set<Group>, r3: set<Group>)
    requires {} < r1 < r2 < r3 <= EVERY_GROUP
    ensures r3 == EVERY_GROUP
  {
    ProperSubsetSize({}, r1);
    ProperSubsetSize(r1, r2);
    ProperSubsetSize(r2, r3);
    assert |EVERY_GROUP| == 3;
    if r3 != EVERY_GROUP { ProperSubsetSize(r3, EVERY_GROUP); }
  }

  /** With three groups, two moves from the bench reach everything that can be reached. */
  lemma TwoMovesReachAll(pool: seq<Raider>, seats: Seats)
    ensures var r3 := Reach(pool, seats, Reach(pool, seats, Wanted(pool, seats)));
      Reach(pool, seats, r3) == r3
  {
    var r1 := Wanted(pool, seats);
    var r2 := Reach(pool, seats, r1);
    var r3 := Reach(pool, seats, r2);
    if r1 == {} {
      assert r2 == r1;
    } else if r2 != r1 && r3 != r2 {
      TwoStepsFillThree(r1, r2, r3);
    }
  }

  lemma ProperSubsetSize<T>(a: set<T>, b: set<T>)
    requires a < b
    ensures |a| < |b|
  {
    assert b == a + (b - a);
  }

  lemma NoChainMeansFull(pool: seq<Raider>, seats: Seats, needs: Needs, g: Group)
    requires DistinctIds(pool) && Uncapped(needs)
    requires AllSettled(pool, seats, needs) && AtRest(pool, seats, needs)
    requires forall b, y, z, h: Group :: !IsChain(pool, seats, needs, b, y, z, h)
    requires g in Reach(pool, seats, Reach(pool, seats, Wanted(pool, seats)))
    ensures !Short(seats, g, needs)
  {
    var r1 := Wanted(pool, seats);
    var r2 := Reach(pool, seats, r1);
    if g in r1 {
      BenchPlaysOnlyFullGroups(pool, seats, needs, g);
    } else if g in r2 {
      var m :| m in pool && m.id in seats && seats[m.id].group in r1 && GroupPriority(m, g).Some?;
      ReplaceableStayPut(pool, seats, needs, m, g);
    } else {
      var z :| z in pool && z.id in seats && seats[z.id].group in r2 && GroupPriority(z, g).Some?;
      assert seats[z.id].group !in r1;
      var y :| y in pool && y.id in seats && seats[y.id].group in r1 && GroupPriority(y, seats[z.id].group).Some?;
      var b :| b in pool && b.id !in seats && GroupPriority(b, seats[y.id].group).Some?;
      assert !IsChain(pool, seats, needs, b, y, z, g);
    }
  }

  lemma NoChainMeansBest(pool: seq<Raider>, seats: Seats, needs: Needs, plan: Plan)
    requires DistinctIds(pool) && Uncapped(needs) && Legal(pool, plan, needs)
    requires AllSettled(pool, seats, needs) && AtRest(pool, seats, needs)
    requires forall b, y, z, h: Group :: !IsChain(pool, seats, needs, b, y, z, h)
    ensures |plan| <= |seats|
  {
    var groups := Reach(pool, seats, Reach(pool, seats, Wanted(pool, seats)));
    forall g | g in groups ensures !Short(seats, g, needs) { NoChainMeansFull(pool, seats, needs, g); }
    TwoMovesReachAll(pool, seats);
    ReachCloses(pool, seats, groups);
    CutBounds(pool, plan, seats, needs, groups);
  }

  /** Following a chain gives a legal plan with one more raider in it. */
  function ChainPlan(seats: Seats, b: Raider, y: Raider, z: Raider, g: Group): Plan
    requires y.id in seats && z.id in seats
  {
    PlanOf(seats)[z.id := g][y.id := seats[z.id].group][b.id := seats[y.id].group]
  }

  lemma PutIn(plan: Plan, id: CharacterId, g: Group, h: Group)
    requires id !in plan
    ensures |In(plan[id := g], {h})| == |In(plan, {h})| + (if g == h then 1 else 0)
  {
    if g == h {
      assert In(plan[id := g], {h}) == In(plan, {h}) + {id};
    } else {
      assert In(plan[id := g], {h}) == In(plan, {h});
    }
  }

  lemma Reassign(plan: Plan, id: CharacterId, g: Group, h: Group)
    ensures |In(plan[id := g], {h})|
         == |In(plan, {h})| - (if id in plan && plan[id] == h then 1 else 0) + (if g == h then 1 else 0)
  {
    if id in plan {
      var without := plan - {id};
      assert without[id := plan[id]] == plan;
      assert without[id := g] == plan[id := g];
      PutIn(without, id, plan[id], h);
      PutIn(without, id, g, h);
    } else {
      PutIn(plan, id, g, h);
    }
  }

  lemma ChainCounts(seats: Seats, b: Raider, y: Raider, z: Raider, g: Group, h: Group)
    requires b.id !in seats && y.id in seats && z.id in seats
    requires seats[y.id].group != seats[z.id].group
    ensures |In(ChainPlan(seats, b, y, z, g), {h})| == Count(seats, h) + (if h == g then 1 else 0)
  {
    var q := PlanOf(seats);
    var q1 := q[z.id := g];
    var q2 := q1[y.id := seats[z.id].group];
    GroupCount(seats, h);
    Reassign(q, z.id, g, h);
    Reassign(q1, y.id, seats[z.id].group, h);
    Reassign(q2, b.id, seats[y.id].group, h);
  }

  lemma ChainPlays(pool: seq<Raider>, seats: Seats, needs: Needs, b: Raider, y: Raider, z: Raider, g: Group)
    requires Sound(pool, seats, needs) && IsChain(pool, seats, needs, b, y, z, g)
    ensures var plan := ChainPlan(seats, b, y, z, g);
      forall id | id in plan :: Plays(pool, id, plan[id])
  {
    var plan := ChainPlan(seats, b, y, z, g);
    forall id | id in plan ensures Plays(pool, id, plan[id]) {
      if id != b.id && id != y.id && id != z.id { SeatedPlays(pool, seats, needs, id); }
    }
  }

  lemma ChainIsLegal(pool: seq<Raider>, seats: Seats, needs: Needs, b: Raider, y: Raider, z: Raider, g: Group)
    requires Sound(pool, seats, needs) && AllSettled(pool, seats, needs)
    requires forall h: Group :: 0 <= NeedOf(needs, h)
    requires IsChain(pool, seats, needs, b, y, z, g)
    ensures Legal(pool, ChainPlan(seats, b, y, z, g), needs)
    ensures |ChainPlan(seats, b, y, z, g)| == |seats| + 1
  {
    var plan := ChainPlan(seats, b, y, z, g);
    ChainPlays(pool, seats, needs, b, y, z, g);
    forall h: Group ensures |In(plan, {h})| <= NeedOf(needs, h) {
      assert Settled(pool, seats, h, needs);
      ChainCounts(seats, b, y, z, g, h);
    }
    assert plan.Keys == seats.Keys + {b.id};
    assert |plan.Keys| == |seats.Keys| + 1;
  }

  lemma SeatedPlays(pool: seq<Raider>, seats: Seats, needs: Needs, id: CharacterId)
    requires Sound(pool, seats, needs) && id in seats
    ensures Plays(pool, id, seats[id].group)
  {
    assert id in Ids(pool);
    var r :| r in pool && r.id == id;
    assert Fits(r, seats[id]);
  }

  /** A seating at rest is as large as any legal one exactly when no two-move chain is left. */
  lemma BestExactlyWithoutChains(pool: seq<Raider>, needs: Needs)
    requires DistinctIds(pool) && Uncapped(needs) && forall g: Group :: 0 <= NeedOf(needs, g)
    ensures var seats := Seating(pool, needs);
      (forall plan | Legal(pool, plan, needs) :: |plan| <= |seats|)
      <==> (forall b, y, z, g: Group :: !IsChain(pool, seats, needs, b, y, z, g))
  {
    var seats := Seating(pool, needs);
    SeatingIsAtRest(pool, needs);
    if forall b, y, z, g: Group :: !IsChain(pool, seats, needs, b, y, z, g) {
      forall plan | Legal(pool, plan, needs) ensures |plan| <= |seats| {
        NoChainMeansBest(pool, seats, needs, plan);
      }
    } else {
      var b, y, z, g: Group :| IsChain(pool, seats, needs, b, y, z, g);
      ChainIsLegal(pool, seats, needs, b, y, z, g);
      assert |ChainPlan(seats, b, y, z, g)| > |seats|;
    }
  }

  /** Three raiders of the pool who could form a chain whatever the seating: b plays p, y plays
      p and q, z plays q and g, raiders and groups all different. */
  ghost predicate IsLink(pool: seq<Raider>, b: Raider, y: Raider, z: Raider, p: Group, q: Group, g: Group) {
    && b in pool && y in pool && z in pool && b != y && y != z && b != z
    && p != q && q != g && p != g
    && GroupPriority(b, p).Some?
    && GroupPriority(y, p).Some? && GroupPriority(y, q).Some?
    && GroupPriority(z, q).Some? && GroupPriority(z, g).Some?
  }

  /** A chain left in a seating at rest is made of such a link. */
  lemma ChainsAreLinks(pool: seq<Raider>, seats: Seats, needs: Needs, b: Raider, y: Raider, z: Raider, g: Group)
    requires DistinctIds(pool) && Uncapped(needs) && Sound(pool, seats, needs)
    requires AllSettled(pool, seats, needs) && AtRest(pool, seats, needs)
    requires IsChain(pool, seats, needs, b, y, z, g)
    ensures IsLink(pool, b, y, z, seats[y.id].group, seats[z.id].group, g)
  {
    var p, q := seats[y.id].group, seats[z.id].group;
    assert Fits(y, seats[y.id]) && Fits(z, seats[z.id]);
    assert PlayedFromBench(pool, seats, p);
    BenchPlaysOnlyFullGroups(pool, seats, needs, p);
    ReplaceableStayPut(pool, seats, needs, y, q);
  }

  /** What a raid lead can see before asking: with no such link in the pool, and no side capped,
      the seating is as large as any legal one. */
  lemma BestWithoutLinks(pool: seq<Raider>, needs: Needs, plan: Plan)
    requires DistinctIds(pool) && Uncapped(needs) && Legal(pool, plan, needs)
    requires forall b, y, z, p, q, g :: !IsLink(pool, b, y, z, p, q, g)
    ensures |plan| <= |Seating(pool, needs)|
  {
    var seats := Seating(pool, needs);
    SeatingIsAtRest(pool, needs);
    forall b, y, z, h: Group ensures !IsChain(pool, seats, needs, b, y, z, h) {
      if IsChain(pool, seats, needs, b, y, z, h) {
        ChainsAreLinks(pool, seats, needs, b, y, z, h);
      }
    }
    NoChainMeansBest(pool, seats, needs, plan);
  }
}
