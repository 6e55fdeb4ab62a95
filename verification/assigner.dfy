/** The one mutable structure of an assignment. */
module SeatMaps {
  import opened Comp
  import opened Placing

  /** The map of placements, shared by reference and updated in place. */
  class SeatMap {
    var placed: Seats

    constructor (copied: Seats)
      ensures placed == copied
    {
      placed := copied;
    }

    /** Counts both sides in whatever order the map yields its entries. */
    method Recount() returns (melee: nat, ranged: nat)
      ensures melee == Held(placed, MeleeDps) && ranged == Held(placed, RangedDps)
    {
      melee, ranged := 0, 0;
      var left := placed.Items;
      ghost var seen: set<CharacterId> := {};
      while left != {}
        invariant left <= placed.Items
        invariant forall id | id in placed :: id in seen <==> (id, placed[id]) !in left
        invariant melee == |Holders(placed, MeleeDps) * seen|
        invariant ranged == |Holders(placed, RangedDps) * seen|
        invariant seen <= placed.Keys
        decreases left
      {
        var item :| item in left;
        assert item in placed.Items && item == (item.0, placed[item.0]);
        left := left - {item};
        match item.1.role {
          case MeleeDps => melee := melee + 1;
          case RangedDps => ranged := ranged + 1;
          case _ =>
        }
        SeenGrows(placed, seen, item.0, MeleeDps);
        SeenGrows(placed, seen, item.0, RangedDps);
        seen := seen + {item.0};
      }
      forall id | id in placed ensures id in seen { assert (id, placed[id]) !in left; }
      assert Holders(placed, MeleeDps) * seen == Holders(placed, MeleeDps);
      assert Holders(placed, RangedDps) * seen == Holders(placed, RangedDps);
    }
  }

  lemma SeenGrows(placed: Seats, seen: set<CharacterId>, id: CharacterId, role: Role)
    requires id in placed && id !in seen
    ensures |Holders(placed, role) * (seen + {id})|
         == |Holders(placed, role) * seen| + (if placed[id].role == role then 1 else 0)
  {
    if placed[id].role == role {
      assert Holders(placed, role) * (seen + {id}) == Holders(placed, role) * seen + {id};
    } else {
      assert Holders(placed, role) * (seen + {id}) == Holders(placed, role) * seen;
    }
  }
}

/** internal/comp/assign.go and advise.go as they run: loops over slices and one map of
    placements updated in place, each proved to compute what the functions of Placing and
    Board say. */
module Assigner {
  import opened Options
  import opened Sequences
  import opened Comp
  import opened Placing
  import opened SeatingRules
  import opened SeatMaps
  import opened Board

  method PartitionByRoleMenu(raiders: seq<Raider>) returns (playable: seq<Raider>, roleless: seq<Raider>)
    ensures playable == FilterMap(raiders, Playable())
    ensures roleless == FilterMap(raiders, Roleless())
  {
    playable, roleless := [], [];
    for i := 0 to |raiders|
      invariant playable == FilterMap(raiders[..i], Playable())
      invariant roleless == FilterMap(raiders[..i], Roleless())
    {
      FilterMapStep(raiders, i, Playable());
      FilterMapStep(raiders, i, Roleless());
      if raiders[i].roles == [] {
        roleless := roleless + [raiders[i]];
      } else {
        playable := playable + [raiders[i]];
      }
    }
    assert raiders[..|raiders|] == raiders;
  }

  method RankSignups(raiders: seq<Raider>) returns (ranks: Ranks)
    ensures ranks == SignupRanks(raiders)
  {
    var sorted := Sort(raiders, SignedUpBefore());
    ranks := map[];
    for i := 0 to |sorted|
      invariant ranks == RankMap(sorted[..i])
    {
      assert sorted[..i + 1][..i] == sorted[..i];
      ranks := ranks[sorted[i].id := i];
    }
    assert sorted[..|sorted|] == sorted;
  }

  method CollectCandidates(raiders: seq<Raider>, seating: SeatMap, g: Group, ranks: Ranks)
    returns (cands: seq<Candidate>)
    ensures cands == Eligible(raiders, seating.placed, g, ranks)
  {
    cands := [];
    for i := 0 to |raiders|
      invariant cands == FilterMap(raiders[..i], EligibleFor(seating.placed, g))
    {
      FilterMapStep(raiders, i, EligibleFor(seating.placed, g));
      var r := raiders[i];
      if r.id !in seating.placed {
        var p := GroupPriority(r, g);
        if p.Some? { cands := cands + [Candidate(r, p.value)]; }
      }
    }
    assert raiders[..|raiders|] == raiders;
    cands := Ranked(cands, ranks);
  }

  method FillGroupSeats(raiders: seq<Raider>, seating: SeatMap, g: Group, need: int, needs: Needs, ranks: Ranks)
    returns (took: int)
    requires need == NeedOf(needs, g)
    modifies seating
    ensures (seating.placed, took) == FillGroup(raiders, old(seating.placed), g, needs, ranks)
  {
    var cands := CollectCandidates(raiders, seating, g, ranks);
    took := 0;
    for i := 0 to |cands|
      invariant Fill(cands[i..], seating.placed, g, need, took, needs)
             == Fill(cands, old(seating.placed), g, need, 0, needs)
    {
      if took >= need { return; }
      assert cands[i..][0] == cands[i] && cands[i..][1..] == cands[i + 1..];
      var melee, ranged := seating.Recount();
      var pl := PlaceInGroup(cands[i].raider, g, needs, melee, ranged);
      if pl.Some? {
        seating.placed := seating.placed[cands[i].raider.id := pl.value];
        took := took + 1;
      }
    }
  }

  method BackfillSeat(raiders: seq<Raider>, scratch: SeatMap, g: Group, needs: Needs, ranks: Ranks)
    returns (placed: bool)
    modifies scratch
    ensures var filled := Backfill(Eligible(raiders, old(scratch.placed), g, ranks), old(scratch.placed), g, needs);
      && (placed <==> filled.Some?)
      && scratch.placed == if placed then filled.value else old(scratch.placed)
  {
    var cands := CollectCandidates(raiders, scratch, g, ranks);
    var melee, ranged := scratch.Recount();
    for i := 0 to |cands|
      invariant scratch.placed == old(scratch.placed)
      invariant Backfill(cands[i..], scratch.placed, g, needs) == Backfill(cands, scratch.placed, g, needs)
    {
      assert cands[i..][0] == cands[i] && cands[i..][1..] == cands[i + 1..];
      var pl := PlaceInGroup(cands[i].raider, g, needs, melee, ranged);
      if pl.Some? {
        scratch.placed := scratch.placed[cands[i].raider.id := pl.value];
        return true;
      }
    }
    return false;
  }

  method CollectMovable(raiders: seq<Raider>, seating: SeatMap, short: Group, ranks: Ranks)
    returns (movable: seq<Candidate>)
    ensures movable == Movable(raiders, seating.placed, short, ranks)
  {
    movable := [];
    for i := 0 to |raiders|
      invariant movable == FilterMap(raiders[..i], MovableInto(seating.placed, short))
    {
      FilterMapStep(raiders, i, MovableInto(seating.placed, short));
      var r := raiders[i];
      if r.id in seating.placed && seating.placed[r.id].group != short {
        var p := GroupPriority(r, short);
        if p.Some? { movable := movable + [Candidate(r, p.value)]; }
      }
    }
    assert raiders[..|raiders|] == raiders;
    movable := Ranked(movable, ranks);
  }

  /** Tries one raider on a scratch copy, which the caller's map never sees unless it works. */
  method TrySwapOne(raiders: seq<Raider>, seating: SeatMap, m: Raider, short: Group, needs: Needs, ranks: Ranks)
    returns (swapped: bool)
    requires m.id in seating.placed
    modifies seating
    ensures var before := old(seating.placed);
      var moved := Moved(m, before, short, needs);
      var out := if moved.None? then None
                 else Backfill(Eligible(raiders, moved.value, before[m.id].group, ranks),
                               moved.value, before[m.id].group, needs);
      && (swapped <==> out.Some?)
      && seating.placed == if swapped then out.value else before
  {
    var from := seating.placed[m.id];
    var scratch := new SeatMap(seating.placed);
    scratch.placed := scratch.placed - {m.id};
    var melee, ranged := scratch.Recount();
    var pl := PlaceInGroup(m, short, needs, melee, ranged);
    if pl.None? { return false; }
    scratch.placed := scratch.placed[m.id := pl.value];
    swapped := BackfillSeat(raiders, scratch, from.group, needs, ranks);
    if swapped { seating.placed := scratch.placed; }
  }

  /** Commits the first ranked swap that resolves on both sides, or leaves the map alone. */
  method TrySwapInto(raiders: seq<Raider>, seating: SeatMap, short: Group, needs: Needs, ranks: Ranks)
    returns (swapped: bool)
    modifies seating
    ensures var out := SwapInto(raiders, old(seating.placed), short, needs, ranks);
      && (swapped <==> out.Some?)
      && seating.placed == if swapped then out.value else old(seating.placed)
  {
    var movable := CollectMovable(raiders, seating, short, ranks);
    MovableAreSeated(raiders, seating.placed, short, ranks);
    for i := 0 to |movable|
      invariant seating.placed == old(seating.placed)
      invariant forall c | c in movable :: c.raider.id in seating.placed
      invariant TrySwap(movable[i..], raiders, seating.placed, short, needs, ranks)
             == SwapInto(raiders, old(seating.placed), short, needs, ranks)
    {
      assert movable[i..][0] == movable[i] && movable[i..][1..] == movable[i + 1..];
      swapped := TrySwapOne(raiders, seating, movable[i].raider, short, needs, ranks);
      if swapped { return; }
    }
    return false;
  }

  /** The loop over choices that keeps the first one no other beats. */
  method PickBenchRole(r: Raider) returns (role: Role)
    requires r.roles != []
    ensures role == BenchRole(r)
  {
    var best := r.roles[0];
    for i := 1 to |r.roles|
      invariant best == Favourite(r.roles[..i])
    {
      assert r.roles[..i + 1][..i] == r.roles[..i];
      if r.roles[i].priority < best.priority { best := r.roles[i]; }
    }
    assert r.roles[..|r.roles|] == r.roles;
    role := best.role;
  }

  method SplitBySeat(raiders: seq<Raider>, seating: SeatMap) returns (seated: seq<Raider>, benched: seq<Raider>)
    ensures seated == FilterMap(raiders, SeatedOnly(seating.placed))
    ensures benched == FilterMap(raiders, BenchedOnly(seating.placed))
    ensures forall r | r in benched :: r in raiders
  {
    seated, benched := [], [];
    for i := 0 to |raiders|
      invariant seated == FilterMap(raiders[..i], SeatedOnly(seating.placed))
      invariant benched == FilterMap(raiders[..i], BenchedOnly(seating.placed))
      invariant forall r | r in benched :: r in raiders
    {
      FilterMapStep(raiders, i, SeatedOnly(seating.placed));
      FilterMapStep(raiders, i, BenchedOnly(seating.placed));
      if raiders[i].id in seating.placed {
        seated := seated + [raiders[i]];
      } else {
        benched := benched + [raiders[i]];
      }
    }
    assert raiders[..|raiders|] == raiders;
  }

  method NumberSeats(seated: seq<Raider>, seating: SeatMap, ranks: Ranks) returns (out: seq<Assignment>)
    ensures out == SeatRows(seated, seating.placed, ranks)
  {
    out := [];
    for i := 0 to |seated|
      invariant out == SeatRows(seated[..i], seating.placed, ranks)
    {
      out := out + [SeatRow(seated[i], i, seating.placed, ranks)];
    }
    assert seated[..|seated|] == seated;
  }

  method NumberBench(benched: seq<Raider>, ranks: Ranks) returns (out: seq<Assignment>)
    requires forall r | r in benched :: r.roles != []
    ensures out == BenchRows(benched, ranks)
  {
    out := [];
    for i := 0 to |benched|
      invariant out == BenchRows(benched[..i], ranks)
    {
      var role := PickBenchRole(benched[i]);
      out := out + [Assignment(benched[i].id, role, Int16(i), true, Benched(RankOf(ranks, benched[i].id)))];
    }
    assert benched[..|benched|] == benched;
  }

  method BuildAssignments(raiders: seq<Raider>, seating: SeatMap, ranks: Ranks) returns (out: seq<Assignment>)
    requires forall r | r in raiders :: r.roles != []
    ensures out == Rows(raiders, seating.placed, ranks)
  {
    var seated, benched := SplitBySeat(raiders, seating);
    SortPermutes(benched, BenchOrder(ranks));
    seated := Sort(seated, SeatOrder(seating.placed, ranks));
    benched := Sort(benched, BenchOrder(ranks));
    var seats := NumberSeats(seated, seating, ranks);
    var bench := NumberBench(benched, ranks);
    out := seats + bench;
  }

  /** What the running tallies say: each group's count as it stands. */
  ghost predicate Tallies(got: map<Group, int>, seats: Seats) {
    forall g: Group :: g in got && got[g] == Count(seats, g)
  }

  /** Passes 1 and 2: one fill per group, in the order given. */
  method FillAll(
    order: seq<Group>, raiders: seq<Raider>, seating: SeatMap, needs: Needs, ranks: Ranks)
    returns (got: map<Group, int>)
    requires DistinctIds(raiders) && Sound(raiders, seating.placed, needs)
    requires NoDup(order) && forall g: Group :: g in order && Count(seating.placed, g) == 0
    modifies seating
    ensures seating.placed == FillGroups(order, raiders, old(seating.placed), needs, ranks)
    ensures Sound(raiders, seating.placed, needs) && Tallies(got, seating.placed)
  {
    got := map[];
    for i := 0 to |order|
      invariant FillGroups(order[i..], raiders, seating.placed, needs, ranks)
             == FillGroups(order, raiders, old(seating.placed), needs, ranks)
      invariant Sound(raiders, seating.placed, needs)
      invariant forall g | g in order[..i] :: g in got && got[g] == Count(seating.placed, g)
      invariant forall g | g in order[i..] :: Count(seating.placed, g) == 0
    {
      var g := order[i];
      assert order[i..][0] == g && order[i..][1..] == order[i + 1..];
      FillGroupSettles(raiders, seating.placed, g, needs, ranks);
      var took := FillGroupSeats(raiders, seating, g, NeedOf(needs, g), needs, ranks);
      got := got[g := took];
      assert g !in order[i + 1..];
      assert order[..i + 1] == order[..i] + [g];
    }
    assert order[..|order|] == order;
  }

  lemma NobodySeated()
    ensures Held(map[], MeleeDps) == 0 && Held(map[], RangedDps) == 0
    ensures forall g: Group :: Count(map[], g) == 0
  {
    assert Holders(map[], MeleeDps) == {} && Holders(map[], RangedDps) == {};
    assert forall g: Group :: Members(map[], g) == {};
  }

  lemma SwapTallies(raiders: seq<Raider>, seats: Seats, g: Group, needs: Needs, got: map<Group, int>, next: Seats)
    requires DistinctIds(raiders) && Sound(raiders, seats, needs) && Tallies(got, seats)
    requires exists m, b :: IsSwap(raiders, seats, g, needs, m, b) && next == Swapped(seats, g, needs, m, b)
    ensures Sound(raiders, next, needs) && Tallies(got[g := got[g] + 1], next)
  {
    var m, b :| IsSwap(raiders, seats, g, needs, m, b) && next == Swapped(seats, g, needs, m, b);
    SwapEffect(raiders, seats, g, needs, m, b);
    OneMoreTallies(got, seats, next, g);
  }

  lemma OneMoreTallies(got: map<Group, int>, seats: Seats, next: Seats, g: Group)
    requires Tallies(got, seats)
    requires forall h: Group :: Count(next, h) == Count(seats, h) + (if h == g then 1 else 0)
    ensures Tallies(got[g := got[g] + 1], next)
  {
  }

  /** One pass of the repair: swaps into the first short group that a swap helps. */
  method RepairOnce(
    order: seq<Group>, raiders: seq<Raider>, seating: SeatMap, needs: Needs, ranks: Ranks, got: map<Group, int>)
    returns (swapped: bool, got': map<Group, int>)
    requires DistinctIds(raiders) && Sound(raiders, seating.placed, needs) && Tallies(got, seating.placed)
    modifies seating
    ensures var next := RepairStep(order, raiders, old(seating.placed), needs, ranks);
      && (swapped <==> next.Some?)
      && seating.placed == if swapped then next.value else old(seating.placed)
    ensures Sound(raiders, seating.placed, needs) && Tallies(got', seating.placed)
  {
    for k := 0 to |order|
      invariant seating.placed == old(seating.placed)
      invariant RepairStep(order[k..], raiders, seating.placed, needs, ranks)
             == RepairStep(order, raiders, seating.placed, needs, ranks)
    {
      var g := order[k];
      assert order[k..][0] == g && order[k..][1..] == order[k + 1..];
      if got[g] < NeedOf(needs, g) {
        swapped := TrySwapInto(raiders, seating, g, needs, ranks);
        if swapped {
          SwapIntoFinds(raiders, old(seating.placed), g, needs, ranks);
          SwapTallies(raiders, old(seating.placed), g, needs, got, seating.placed);
          return true, got[g := got[g] + 1];
        }
      }
    }
    return false, got;
  }

  /** Pass 3: repair, bounded by the number of raiders. */
  method RepairAll(raiders: seq<Raider>, seating: SeatMap, needs: Needs, ranks: Ranks, got: map<Group, int>)
    returns (got': map<Group, int>)
    requires DistinctIds(raiders) && Sound(raiders, seating.placed, needs) && Tallies(got, seating.placed)
    modifies seating
    ensures seating.placed == Repair(|raiders|, GROUPS, raiders, old(seating.placed), needs, ranks)
    ensures Tallies(got', seating.placed)
  {
    got' := got;
    for n := 0 to |raiders|
      invariant Sound(raiders, seating.placed, needs) && Tallies(got', seating.placed)
      invariant Repair(|raiders| - n, GROUPS, raiders, seating.placed, needs, ranks)
             == Repair(|raiders|, GROUPS, raiders, old(seating.placed), needs, ranks)
    {
      var swapped;
      swapped, got' := RepairOnce(GROUPS, raiders, seating, needs, ranks, got');
      if !swapped { break; }
    }
  }

  lemma ShortfallsNext(order: seq<Group>, k: nat, seats: Seats, needs: Needs)
    requires k < |order|
    ensures Shortfalls(order[k..], seats, needs)
         == (if Count(seats, order[k]) < NeedOf(needs, order[k])
             then [Shortfall(order[k], Count(seats, order[k]), NeedOf(needs, order[k]))] else [])
            + Shortfalls(order[k + 1..], seats, needs)
  {
    assert order[k..][0] == order[k] && order[k..][1..] == order[k + 1..];
  }

  method ReportShortfalls(order: seq<Group>, got: map<Group, int>, needs: Needs, ghost seats: Seats)
    returns (said: seq<Advisory>)
    requires Tallies(got, seats)
    ensures said == Shortfalls(order, seats, needs)
  {
    said := [];
    for k := 0 to |order|
      invariant said + Shortfalls(order[k..], seats, needs) == Shortfalls(order, seats, needs)
    {
      var g := order[k];
      var rest := Shortfalls(order[k + 1..], seats, needs);
      ShortfallsNext(order, k, seats, needs);
      if got[g] < NeedOf(needs, g) {
        var short := [Shortfall(g, got[g], NeedOf(needs, g))];
        assert said + (short + rest) == said + short + rest;
        said := said + short;
      } else {
        assert [] + rest == rest;
      }
    }
  }

  /** Turns a pool of signups into a composition. It never fails. */
  method Assign(raiders: seq<Raider>, t: Template, mode: Mode) returns (result: Result)
    requires DistinctIds(raiders)
    ensures result == AssignResult(raiders, t, mode)
  {
    var pool, roleless := PartitionByRoleMenu(raiders);
    PlayablePool(raiders);
    var needs, advisories := Resolve(t, mode, |pool|);
    advisories := advisories + NoRoleAdvisories(roleless);
    var ranks := RankSignups(pool);

    var seating := new SeatMap(map[]);
    var order := ScarcestFirst(needs);
    SortPermutes(GROUPS, Scarcer(needs));
    NoDupPermutes(GROUPS, order);
    EveryGroupIsListed();
    NobodySeated();
    var got := FillAll(order, pool, seating, needs, ranks);
    got := RepairAll(pool, seating, needs, ranks, got);
    var said := ReportShortfalls(GROUPS, got, needs, seating.placed);
    var rows := BuildAssignments(pool, seating, ranks);
    result := Result(rows, advisories + said);
  }
}
