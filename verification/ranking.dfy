/** Who gets the seats: nobody on the bench outranks the holder of a seat they could take. */
module Ranking {
  import opened Options
  import opened Sequences
  import opened Comp
  import opened Placing
  import opened SeatingRules
  import Board

  function AsRanked(r: Raider, g: Group): Candidate
    requires GroupPriority(r, g).Some?
  {
    Candidate(r, GroupPriority(r, g).value)
  }

  /** a comes before b in the ranking that hands out the seats of g. */
  predicate Outranks(a: Raider, b: Raider, g: Group, ranks: Ranks) {
    && GroupPriority(a, g).Some? && GroupPriority(b, g).Some?
    && LessCandidate(AsRanked(a, g), AsRanked(b, g), ranks)
  }

  /** Nobody benched who plays the role of this seat outranks its holder. */
  ghost predicate Earned(pool: seq<Raider>, seats: Seats, s: Raider, ranks: Ranks)
    requires s.id in seats
  {
    forall b | b in pool && b.id !in seats && CanPlay(b, seats[s.id].role).Some? ::
      !Outranks(b, s, seats[s.id].group, ranks)
  }

  ghost predicate AllEarned(pool: seq<Raider>, seats: Seats, ranks: Ranks) {
    forall s | s in pool && s.id in seats :: Earned(pool, seats, s, ranks)
  }

  /** cands is what is left of a ranked listing of a group: in order, and everybody benched
      who plays the group and is not in it has been refused a seat. */
  ghost predicate RankedRest(
    cands: seq<Candidate>, pool: seq<Raider>, seats: Seats, g: Group, needs: Needs, ranks: Ranks)
  {
    && (forall i, j | 0 <= i < j < |cands| :: !LessCandidate(cands[j], cands[i], ranks))
    && (forall c | c in cands :: AsCandidate(c.raider, g) == Some(c))
    && (forall b | b in pool && b.id !in seats && GroupPriority(b, g).Some? ::
          AsRanked(b, g) in cands || Place(b, g, needs, seats).None?)
  }

  lemma EligibleIsRanked(pool: seq<Raider>, seats: Seats, g: Group, needs: Needs, ranks: Ranks)
    requires DistinctIds(pool)
    ensures RankedRest(Eligible(pool, seats, g, ranks), pool, seats, g, needs, ranks)
    ensures Lineup(Eligible(pool, seats, g, ranks), pool, seats)
  {
    var listed := FilterMap(pool, EligibleFor(seats, g));
    var cands := Eligible(pool, seats, g, ranks);
    EligibleLineup(pool, seats, g, ranks);
    EligibleAreBenched(pool, seats, g, ranks);
    SortPermutes(listed, ByRank(ranks));
    var dom := Board.Elements(listed);
    forall a, b | a in dom && b in dom && a.raider.id == b.raider.id ensures a == b {
      assert a in cands && b in cands;
      SameIdSameRaider(pool, a.raider, b.raider);
    }
    Board.RankingIsTotal(ranks, dom);
    SortOrders(listed, ByRank(ranks), dom);
    forall i, j | 0 <= i < j < |cands| ensures !LessCandidate(cands[j], cands[i], ranks) {
      assert !ByRank(ranks)(cands[j], cands[i]);
    }
  }

  lemma PlaysTheGroup(r: Raider, role: Role)
    requires CanPlay(r, role).Some?
    ensures GroupPriority(r, GroupForRole(role)).Some?
  {
  }

  /** A role somebody is given is one nobody refused plays. */
  lemma RefusedCannotPlay(r: Raider, b: Raider, g: Group, needs: Needs, seats: Seats)
    requires Place(r, g, needs, seats).Some? && Place(b, g, needs, seats).None?
    ensures CanPlay(b, Place(r, g, needs, seats).value.role).None?
  {
    var melee, ranged := Held(seats, MeleeDps), Held(seats, RangedDps);
    PlacementIsBestOpenRole(r, g, needs, melee, ranged);
    PlacementIsBestOpenRole(b, g, needs, melee, ranged);
    assert !CanTake(b, Place(r, g, needs, seats).value.role, needs, melee, ranged);
  }

  // ----- Filling

  /** Seating the first of the rest is deserved by the order, and by who was refused. */
  lemma FirstEarnsTheSeat(
    cands: seq<Candidate>, pool: seq<Raider>, seats: Seats, g: Group, needs: Needs, ranks: Ranks)
    requires DistinctIds(pool) && cands != [] && Lineup(cands, pool, seats)
    requires RankedRest(cands, pool, seats, g, needs, ranks) && AllEarned(pool, seats, ranks)
    requires Place(cands[0].raider, g, needs, seats).Some?
    ensures AllEarned(pool, seats[cands[0].raider.id := Place(cands[0].raider, g, needs, seats).value], ranks)
  {
    var r, pl := cands[0].raider, Place(cands[0].raider, g, needs, seats).value;
    var after := seats[r.id := pl];
    PlaceFits(r, g, needs, seats);
    assert cands[0] in cands;
    forall s | s in pool && s.id in after ensures Earned(pool, after, s, ranks) {
      if s.id == r.id {
        SameIdSameRaider(pool, s, r);
        forall b | b in pool && b.id !in after && CanPlay(b, pl.role).Some? ensures !Outranks(b, r, g, ranks) {
          BenchedIsBehind(cands, pool, seats, g, needs, ranks, b, pl);
        }
      } else {
        assert Earned(pool, seats, s, ranks) && after[s.id] == seats[s.id];
      }
    }
  }

  lemma BenchedIsBehind(
    cands: seq<Candidate>, pool: seq<Raider>, seats: Seats, g: Group, needs: Needs, ranks: Ranks,
    b: Raider, pl: Placement)
    requires cands != [] && RankedRest(cands, pool, seats, g, needs, ranks)
    requires Place(cands[0].raider, g, needs, seats) == Some(pl) && pl.group == g == GroupForRole(pl.role)
    requires b in pool && b.id !in seats && b.id != cands[0].raider.id && CanPlay(b, pl.role).Some?
    ensures !Outranks(b, cands[0].raider, g, ranks)
  {
    PlaysTheGroup(b, pl.role);
    if Place(b, g, needs, seats).None? {
      RefusedCannotPlay(cands[0].raider, b, g, needs, seats);
      assert false;
    } else {
      var j :| 0 <= j < |cands| && cands[j] == AsRanked(b, g);
      assert cands[0] in cands && !LessCandidate(cands[j], cands[0], ranks);
    }
  }

  lemma RestAfterRefusal(
    cands: seq<Candidate>, pool: seq<Raider>, seats: Seats, g: Group, needs: Needs, ranks: Ranks)
    requires cands != [] && RankedRest(cands, pool, seats, g, needs, ranks)
    requires Place(cands[0].raider, g, needs, seats).None?
    ensures RankedRest(cands[1..], pool, seats, g, needs, ranks)
  {
    assert cands == [cands[0]] + cands[1..];
  }

  lemma RestAfterSeat(
    cands: seq<Candidate>, pool: seq<Raider>, seats: Seats, g: Group, needs: Needs, ranks: Ranks)
    requires cands != [] && Lineup(cands, pool, seats) && RankedRest(cands, pool, seats, g, needs, ranks)
    requires Place(cands[0].raider, g, needs, seats).Some?
    ensures var after := seats[cands[0].raider.id := Place(cands[0].raider, g, needs, seats).value];
      RankedRest(cands[1..], pool, after, g, needs, ranks)
  {
    var r, pl := cands[0].raider, Place(cands[0].raider, g, needs, seats).value;
    var after := seats[r.id := pl];
    assert cands == [cands[0]] + cands[1..] && cands[0] in cands;
    forall b | b in pool && b.id !in after && GroupPriority(b, g).Some?
      ensures AsRanked(b, g) in cands[1..] || Place(b, g, needs, after).None?
    {
      if Place(b, g, needs, seats).None? { NoRoomStays(b, g, needs, seats, after); }
    }
  }

  lemma {:induction false} FillEarns(
    cands: seq<Candidate>, pool: seq<Raider>, seats: Seats, g: Group, need: int, took: int, needs: Needs, ranks: Ranks)
    requires DistinctIds(pool) && Lineup(cands, pool, seats)
    requires RankedRest(cands, pool, seats, g, needs, ranks) && AllEarned(pool, seats, ranks)
    ensures AllEarned(pool, Fill(cands, seats, g, need, took, needs).0, ranks)
    decreases |cands|
  {
    if cands == [] || took >= need {
    } else {
      var r, rest := cands[0].raider, cands[1..];
      var pl := Place(r, g, needs, seats);
      LineupRest(cands, pool, seats, Placement(Tank, g, 0));
      if pl.None? {
        RestAfterRefusal(cands, pool, seats, g, needs, ranks);
        FillEarns(rest, pool, seats, g, need, took, needs, ranks);
      } else {
        LineupRest(cands, pool, seats, pl.value);
        FirstEarnsTheSeat(cands, pool, seats, g, needs, ranks);
        RestAfterSeat(cands, pool, seats, g, needs, ranks);
        FillEarns(rest, pool, seats[r.id := pl.value], g, need, took + 1, needs, ranks);
      }
    }
  }

  lemma {:induction false} FillGroupsEarn(
    order: seq<Group>, pool: seq<Raider>, seats: Seats, needs: Needs, ranks: Ranks)
    requires DistinctIds(pool) && AllEarned(pool, seats, ranks)
    ensures AllEarned(pool, FillGroups(order, pool, seats, needs, ranks), ranks)
    decreases |order|
  {
    if order == [] {
    } else {
      var g := order[0];
      EligibleIsRanked(pool, seats, g, needs, ranks);
      FillEarns(Eligible(pool, seats, g, ranks), pool, seats, g, NeedOf(needs, g), 0, needs, ranks);
      FillGroupsEarn(order[1..], pool, FillGroup(pool, seats, g, needs, ranks).0, needs, ranks);
    }
  }

  // ----- Repairing

  /** Whoever moves into a short group takes a role nobody on the bench plays. */
  lemma MoveIsUnrivalled(pool: seq<Raider>, seats: Seats, needs: Needs, m: Raider, short: Group, b: Raider)
    requires Sound(pool, seats, needs) && NoneFits(pool, seats, short, needs)
    requires m in pool && m.id in seats && seats[m.id].group != short
    requires Place(m, short, needs, seats - {m.id}).Some?
    requires b in pool && b.id !in seats
    ensures CanPlay(b, Place(m, short, needs, seats - {m.id}).value.role).None?
  {
    var scratch := seats - {m.id};
    UnseatOne(seats, m.id);
    assert Fits(m, seats[m.id]);
    assert Place(b, short, needs, seats).None?;
    assert Place(b, short, needs, scratch).None?;
    RefusedCannotPlay(m, b, short, needs, scratch);
  }

  lemma MoveEarns(pool: seq<Raider>, seats: Seats, needs: Needs, ranks: Ranks, m: Raider, short: Group)
    requires DistinctIds(pool) && Sound(pool, seats, needs) && AllEarned(pool, seats, ranks)
    requires NoneFits(pool, seats, short, needs)
    requires m in pool && m.id in seats && seats[m.id].group != short && Moved(m, seats, short, needs).Some?
    ensures AllEarned(pool, Moved(m, seats, short, needs).value, ranks)
  {
    var moved := Moved(m, seats, short, needs).value;
    forall s | s in pool && s.id in moved ensures Earned(pool, moved, s, ranks) {
      if s.id == m.id {
        forall b | b in pool && b.id !in moved ensures CanPlay(b, moved[m.id].role).None? {
          MoveIsUnrivalled(pool, seats, needs, m, short, b);
        }
      } else {
        assert Earned(pool, seats, s, ranks) && moved[s.id] == seats[s.id];
      }
    }
  }

  lemma {:induction false} BackfillEarns(
    cands: seq<Candidate>, pool: seq<Raider>, seats: Seats, g: Group, needs: Needs, ranks: Ranks)
    requires DistinctIds(pool) && Lineup(cands, pool, seats)
    requires RankedRest(cands, pool, seats, g, needs, ranks) && AllEarned(pool, seats, ranks)
    ensures Backfill(cands, seats, g, needs).Some? ==>
      AllEarned(pool, Backfill(cands, seats, g, needs).value, ranks)
    decreases |cands|
  {
    if cands == [] {
    } else {
      LineupRest(cands, pool, seats, Placement(Tank, g, 0));
      if Place(cands[0].raider, g, needs, seats).None? {
        RestAfterRefusal(cands, pool, seats, g, needs, ranks);
        BackfillEarns(cands[1..], pool, seats, g, needs, ranks);
      } else {
        FirstEarnsTheSeat(cands, pool, seats, g, needs, ranks);
      }
    }
  }

  lemma {:induction false} TrySwapEarns(
    movable: seq<Candidate>, pool: seq<Raider>, seats: Seats, short: Group, needs: Needs, ranks: Ranks)
    requires DistinctIds(pool) && Sound(pool, seats, needs) && AllEarned(pool, seats, ranks)
    requires NoneFits(pool, seats, short, needs)
    requires forall c | c in movable :: c.raider in pool && c.raider.id in seats && seats[c.raider.id].group != short
    ensures var out := TrySwap(movable, pool, seats, short, needs, ranks);
      out.Some? ==> AllEarned(pool, out.value, ranks)
    decreases |movable|
  {
    if movable == [] {
    } else {
      var m := movable[0].raider;
      assert movable == [movable[0]] + movable[1..] && movable[0] in movable;
      var moved := Moved(m, seats, short, needs);
      if moved.Some? {
        MoveEarns(pool, seats, needs, ranks, m, short);
        EligibleIsRanked(pool, moved.value, seats[m.id].group, needs, ranks);
        var cands := Eligible(pool, moved.value, seats[m.id].group, ranks);
        BackfillEarns(cands, pool, moved.value, seats[m.id].group, needs, ranks);
      }
      TrySwapEarns(movable[1..], pool, seats, short, needs, ranks);
    }
  }

  lemma {:induction false} RepairStepEarns(
    order: seq<Group>, pool: seq<Raider>, seats: Seats, needs: Needs, ranks: Ranks)
    requires DistinctIds(pool) && Sound(pool, seats, needs) && AllSettled(pool, seats, needs)
    requires AllEarned(pool, seats, ranks)
    ensures var out := RepairStep(order, pool, seats, needs, ranks);
      out.Some? ==> AllEarned(pool, out.value, ranks)
    decreases |order|
  {
    if order == [] {
    } else {
      var g := order[0];
      assert Settled(pool, seats, g, needs);
      if Short(seats, g, needs) {
        MovableAreSeated(pool, seats, g, ranks);
        TrySwapEarns(Movable(pool, seats, g, ranks), pool, seats, g, needs, ranks);
      }
      RepairStepEarns(order[1..], pool, seats, needs, ranks);
    }
  }

  lemma {:induction false} RepairEarns(
    passes: nat, order: seq<Group>, pool: seq<Raider>, seats: Seats, needs: Needs, ranks: Ranks)
    requires DistinctIds(pool) && Sound(pool, seats, needs) && AllSettled(pool, seats, needs)
    requires AllEarned(pool, seats, ranks)
    ensures AllEarned(pool, Repair(passes, order, pool, seats, needs, ranks), ranks)
    decreases passes
  {
    if passes == 0 {
    } else {
      var next := RepairStep(order, pool, seats, needs, ranks);
      RepairStepEarns(order, pool, seats, needs, ranks);
      if next.Some? {
        RepairStepKeeps(order, pool, seats, needs, ranks);
        RepairEarns(passes - 1, order, pool, next.value, needs, ranks);
      }
    }
  }

  lemma SeatingIsEarned(pool: seq<Raider>, needs: Needs)
    requires DistinctIds(pool) && WithinCap(needs.maxMelee, 0) && WithinCap(needs.maxRanged, 0)
    ensures AllEarned(pool, Seating(pool, needs), SignupRanks(pool))
  {
    var ranks := SignupRanks(pool);
    var filled := FillGroups(ScarcestFirst(needs), pool, map[], needs, ranks);
    FillGroupsEarn(ScarcestFirst(needs), pool, map[], needs, ranks);
    FillingSettles(pool, needs, ranks);
    RepairEarns(|pool|, GROUPS, pool, filled, needs, ranks);
  }

  lemma RankingDecides(a: Raider, b: Raider, g: Group, ranks: Ranks)
    requires a.id != b.id && GroupPriority(a, g).Some? && GroupPriority(b, g).Some?
    ensures Outranks(a, b, g, ranks) || Outranks(b, a, g, ranks)
  {
  }

  /** Whatever the caps and whatever the repair moved: the holder of a seat outranks everybody
      on the bench with that seat's role on their menu. */
  lemma HoldersOutrankTheBench(pool: seq<Raider>, needs: Needs, s: Raider, b: Raider)
    requires DistinctIds(pool) && WithinCap(needs.maxMelee, 0) && WithinCap(needs.maxRanged, 0)
    requires s in pool && b in pool && s.id in Seating(pool, needs) && b.id !in Seating(pool, needs)
    requires CanPlay(b, Seating(pool, needs)[s.id].role).Some?
    ensures Outranks(s, b, Seating(pool, needs)[s.id].group, SignupRanks(pool))
  {
    var seats, ranks := Seating(pool, needs), SignupRanks(pool);
    SeatingIsEarned(pool, needs);
    SeatingIsAtRest(pool, needs);
    assert Fits(s, seats[s.id]) && Earned(pool, seats, s, ranks);
    PlaysTheGroup(s, seats[s.id].role);
    PlaysTheGroup(b, seats[s.id].role);
    RankingDecides(s, b, seats[s.id].group, ranks);
  }

  /** The same of the board Assign answers: no bench row names a raider who plays a seat row's
      role and outranks the raider it names. */
  lemma BoardSeatsTheBetter(raiders: seq<Raider>, t: Template, mode: Mode, i: nat, j: nat, a: Raider, b: Raider)
    requires DistinctIds(raiders) && a in raiders && b in raiders
    requires var rows := AssignedRows(raiders, t, mode);
      && i < |rows| && j < |rows| && rows[i].id == a.id && rows[j].id == b.id
      && !rows[i].isBench && rows[j].isBench && CanPlay(b, rows[i].role).Some?
    ensures Outranks(a, b, GroupForRole(AssignedRows(raiders, t, mode)[i].role),
                     SignupRanks(FilterMap(raiders, Board.Playable())))
  {
    var pool := FilterMap(raiders, Board.Playable());
    var needs := ResolvedNeeds(t, mode, |pool|);
    var seats, ranks := Seating(pool, needs), SignupRanks(pool);
    Board.PlayablePool(raiders);
    SeatingIsAtRest(pool, needs);
    RowSaysTheSeat(pool, seats, needs, ranks, raiders, i, a);
    RowSaysTheSeat(pool, seats, needs, ranks, raiders, j, b);
    assert Fits(a, seats[a.id]);
    HoldersOutrankTheBench(pool, needs, a, b);
  }

  function AssignedRows(raiders: seq<Raider>, t: Template, mode: Mode): seq<Assignment> {
    Board.AssignResult(raiders, t, mode).assignments
  }

  lemma RowSaysTheSeat(
    pool: seq<Raider>, seats: Seats, needs: Needs, ranks: Ranks, raiders: seq<Raider>, i: nat, a: Raider)
    requires DistinctIds(raiders) && DistinctIds(pool) && Sound(pool, seats, needs) && a in raiders
    requires forall r | r in pool :: r in raiders
    requires i < |Board.Rows(pool, seats, ranks)| && Board.Rows(pool, seats, ranks)[i].id == a.id
    ensures var row := Board.Rows(pool, seats, ranks)[i];
      && a in pool
      && (row.isBench <==> a.id !in seats)
      && (!row.isBench ==> row.role == seats[a.id].role)
  {
    var seated, benched := Board.SeatedList(pool, seats, ranks), Board.BenchList(pool, seats, ranks);
    Board.ListsSplitThePool(pool, seats, ranks);
    Board.SplitSizes(pool, seats, seated, benched);
    var r := Board.RowAt(pool, seats, seated, benched, ranks, i);
    SameIdSameRaider(raiders, r, a);
  }
}
