/** The ranking in its own terms: priority, mains before alts, score, signup time, id. What it
    decides is read off the rows a lock writes. */
module FiveKeys {
  import opened Options
  import opened Sequences
  import opened Comp
  import opened Placing
  import opened SeatingRules
  import opened Ranking
  import Board

  /** p is the best priority at which r plays the group. */
  ghost predicate BestIn(r: Raider, g: Group, p: int) {
    && (exists role :: GroupForRole(role) == g && CanPlay(r, role) == Some(p))
    && (forall role | GroupForRole(role) == g && CanPlay(r, role).Some? :: p <= CanPlay(r, role).value)
  }

  /** a, liking a seat this much, comes before b, who likes it that much. */
  predicate Ahead(a: Raider, p: int, b: Raider, q: int) {
    || p < q
    || (p == q && a.isMain && !b.isMain)
    || (p == q && a.isMain == b.isMain && a.score > b.score)
    || (p == q && a.isMain == b.isMain && a.score == b.score && Earlier(a, b))
  }

  predicate Earlier(a: Raider, b: Raider) {
    a.signedUpAt < b.signedUpAt || (a.signedUpAt == b.signedUpAt && a.id < b.id)
  }

  lemma RankingIsFiveKeys(pool: seq<Raider>, a: Raider, p: int, b: Raider, q: int)
    requires DistinctIds(pool) && a in pool && b in pool && a.id != b.id
    ensures LessCandidate(Candidate(a, p), Candidate(b, q), SignupRanks(pool)) <==> Ahead(a, p, b, q)
  {
    Board.RanksFollowSignup(pool, a, b);
    Board.RanksFollowSignup(pool, b, a);
  }

  lemma BestIsGroupPriority(r: Raider, g: Group, p: int)
    requires BestIn(r, g, p)
    ensures GroupPriority(r, g) == Some(p)
  {
    assert GroupForRole(Tank) == TankGroup && GroupForRole(Healer) == HealerGroup;
    assert GroupForRole(MeleeDps) == DpsGroup && GroupForRole(RangedDps) == DpsGroup;
  }

  /** Whoever plays a role has such a priority for its group. */
  lemma PlayersHaveABest(r: Raider, role: Role)
    requires CanPlay(r, role).Some?
    ensures exists p :: BestIn(r, GroupForRole(role), p)
  {
    var g := GroupForRole(role);
    var p := GroupPriority(r, g).value;
    assert exists best :: GroupForRole(best) == g && CanPlay(r, best) == Some(p) by {
      var best := if g.DpsGroup? && CanPlay(r, MeleeDps) == Some(p) then MeleeDps
                  else if g.DpsGroup? then RangedDps else role;
      assert GroupForRole(best) == g && CanPlay(r, best) == Some(p);
    }
    assert BestIn(r, g, p);
  }

  /** A raider on the bench who plays the role of a seat is behind its holder: liking the group
      less, or an alt behind a main, or with the lower score, or signed up later. */
  lemma SeatsGoToThoseAhead(
    raiders: seq<Raider>, t: Template, mode: Mode, i: nat, j: nat, a: Raider, b: Raider, p: int, q: int)
    requires DistinctIds(raiders) && a in raiders && b in raiders
    requires var rows := AssignedRows(raiders, t, mode);
      && i < |rows| && j < |rows| && rows[i].id == a.id && rows[j].id == b.id
      && !rows[i].isBench && rows[j].isBench && CanPlay(b, rows[i].role).Some?
      && BestIn(a, GroupForRole(rows[i].role), p) && BestIn(b, GroupForRole(rows[i].role), q)
    ensures || p < q
            || (p == q && a.isMain && !b.isMain)
            || (p == q && a.isMain == b.isMain && a.score > b.score)
            || (p == q && a.isMain == b.isMain && a.score == b.score && a.signedUpAt < b.signedUpAt)
            || (p == q && a.isMain == b.isMain && a.score == b.score && a.signedUpAt == b.signedUpAt && a.id < b.id)
  {
    var pool, g := FilterMap(raiders, Board.Playable()), GroupForRole(AssignedRows(raiders, t, mode)[i].role);
    BoardSeatsTheBetter(raiders, t, mode, i, j, a, b);
    Board.PlayablePool(raiders);
    BestIsGroupPriority(a, g, p);
    BestIsGroupPriority(b, g, q);
    MenusAreNotEmpty(a);
    MenusAreNotEmpty(b);
    assert a.id != b.id by { NobodySitsTwice(raiders, t, mode, i, j); }
    RankingIsFiveKeys(pool, a, p, b, q);
  }

  lemma MenusAreNotEmpty(r: Raider)
    ensures r.roles == [] ==> forall g: Group :: GroupPriority(r, g).None?
  {
  }

  lemma NobodySitsTwice(raiders: seq<Raider>, t: Template, mode: Mode, i: nat, j: nat)
    requires DistinctIds(raiders) && i < |AssignedRows(raiders, t, mode)| && j < |AssignedRows(raiders, t, mode)|
    ensures i != j ==> AssignedRows(raiders, t, mode)[i].id != AssignedRows(raiders, t, mode)[j].id
  {
    Board.BoardIsWellFormed(raiders, t, mode);
  }

  predicate IsDps(role: Role) { role.MeleeDps? || role.RangedDps? }

  /** Of two rows the first: a seat rather than the bench, tanks before healers before DPS, and
      within them the raider ahead by the priorities of the rows' own roles; on the bench the
      one who signed up first. */
  lemma RowsGoByTheFiveKeys(
    raiders: seq<Raider>, t: Template, mode: Mode, i: nat, j: nat, a: Raider, b: Raider)
    requires DistinctIds(raiders) && a in raiders && b in raiders
    requires var rows := AssignedRows(raiders, t, mode);
      i < j < |rows| && rows[i].id == a.id && rows[j].id == b.id
    ensures var x, y := AssignedRows(raiders, t, mode)[i], AssignedRows(raiders, t, mode)[j];
      && (x.isBench ==> y.isBench)
      && (x.isBench ==> Earlier(a, b))
      && (!y.isBench ==>
            && (y.role.Tank? ==> x.role.Tank?) && (IsDps(x.role) ==> IsDps(y.role))
            && x.reason.Seated? && Some(x.reason.priority) == CanPlay(a, x.role)
            && y.reason.Seated? && Some(y.reason.priority) == CanPlay(b, y.role)
            && (GroupForRole(x.role) == GroupForRole(y.role) ==>
                  Ahead(a, x.reason.priority, b, y.reason.priority)))
  {
    var pool := FilterMap(raiders, Board.Playable());
    var ranks := SignupRanks(pool);
    var rows := AssignedRows(raiders, t, mode);
    Board.BoardIsInOrder(raiders, t, mode, i, j, a, b);
    NobodySitsTwice(raiders, t, mode, i, j);
    Board.PlayablePool(raiders);
    RowSaysItsRole(raiders, t, mode, i, a);
    RowSaysItsRole(raiders, t, mode, j, b);
    if !rows[j].isBench {
      RankingIsFiveKeys(pool, a, rows[i].reason.priority, b, rows[j].reason.priority);
    }
  }

  lemma RowSaysItsRole(raiders: seq<Raider>, t: Template, mode: Mode, i: nat, a: Raider)
    requires DistinctIds(raiders) && a in raiders
    requires i < |AssignedRows(raiders, t, mode)| && AssignedRows(raiders, t, mode)[i].id == a.id
    ensures var row := AssignedRows(raiders, t, mode)[i];
      && a in FilterMap(raiders, Board.Playable())
      && (!row.isBench ==> row.reason.Seated? && row.reason.group == GroupForRole(row.role)
                           && CanPlay(a, row.role) == Some(row.reason.priority))
  {
    var pool := FilterMap(raiders, Board.Playable());
    var seated, ranks := |Seating(pool, ResolvedNeeds(t, mode, |pool|))|, SignupRanks(pool);
    Board.BoardIsWellFormed(raiders, t, mode);
    Board.PlayablePool(raiders);
    var r := Board.RowNamesRaider(AssignedRows(raiders, t, mode), raiders, seated, ranks, i);
    SameIdSameRaider(raiders, a, r);
    assert Board.HasRow(AssignedRows(raiders, t, mode), a.id);
  }

  // ----- Who is asked first

  lemma ListedInOrder(pool: seq<Raider>, f: Raider -> Option<Candidate>, i: nat, j: nat)
    requires DistinctIds(pool) && forall r :: f(r).Some? ==> f(r).value.raider == r
    requires i < j < |Ranked(FilterMap(pool, f), SignupRanks(pool))|
    ensures var listed := Ranked(FilterMap(pool, f), SignupRanks(pool));
      Ahead(listed[i].raider, listed[i].priority, listed[j].raider, listed[j].priority)
  {
    var ranks, kept := SignupRanks(pool), FilterMap(pool, f);
    var listed, dom := Ranked(kept, ranks), Board.Elements(kept);
    forall c ensures c in kept ==> c.raider in pool && f(c.raider) == Some(c) { FilterMapIn(pool, f, c); }
    FilterMapNoDup(pool, f);
    SortPermutes(kept, ByRank(ranks));
    NoDupPermutes(kept, listed);
    Board.RankingIsTotal(ranks, dom);
    SortOrders(kept, ByRank(ranks), dom);
    var a, b := listed[i], listed[j];
    assert a in listed && b in listed && !ByRank(ranks)(b, a) && a != b;
    assert a.raider.id != b.raider.id by { SameIdSameRaider(pool, a.raider, b.raider); }
    RankingIsFiveKeys(pool, b.raider, b.priority, a.raider, a.priority);
  }

  /** Seats, backfills and swaps are offered to whoever is ahead first. */
  lemma CandidatesGoByTheFiveKeys(pool: seq<Raider>, seats: Seats, g: Group, moving: bool, i: nat, j: nat)
    requires DistinctIds(pool)
    requires var ranks := SignupRanks(pool);
      i < j < |if moving then Movable(pool, seats, g, ranks) else Eligible(pool, seats, g, ranks)|
    ensures var ranks := SignupRanks(pool);
      var listed := if moving then Movable(pool, seats, g, ranks) else Eligible(pool, seats, g, ranks);
      Ahead(listed[i].raider, listed[i].priority, listed[j].raider, listed[j].priority)
  {
    ListedInOrder(pool, if moving then MovableInto(seats, g) else EligibleFor(seats, g), i, j);
  }

  /** Nothing needs fewer, and of those that need as few none comes first by name. */
  predicate Scarcest(g: Group, needs: Needs) {
    forall h: Group | h != g ::
      NeedOf(needs, g) < NeedOf(needs, h) || (NeedOf(needs, g) == NeedOf(needs, h) && (g.TankGroup? || h.DpsGroup?))
  }

  lemma ScarcestComesFirst(g: Group, needs: Needs)
    requires Scarcest(g, needs)
    ensures ScarcestFirst(needs) != [] && ScarcestFirst(needs)[0] == g
  {
    var less := Scarcer(needs);
    var two := Insert(HealerGroup, [DpsGroup], less);
    assert GROUPS == [TankGroup] + [HealerGroup, DpsGroup] && GROUPS[1..] == [HealerGroup, DpsGroup];
    assert GROUPS[1..][1..] == [DpsGroup] && GROUPS[1..][1..][1..] == [];
    assert Sort([DpsGroup], less) == [DpsGroup];
    assert Sort(GROUPS[1..], less) == two;
    assert Sort(GROUPS, less) == Insert(TankGroup, two, less);
    if g != TankGroup { assert NeedOf(needs, g) < NeedOf(needs, TankGroup); }
  }

  lemma {:induction false} LaterFillsKeep(
    order: seq<Group>, pool: seq<Raider>, seats: Seats, needs: Needs, ranks: Ranks, g: Group, id: CharacterId)
    requires DistinctIds(pool) && g !in order
    ensures var filled := FillGroups(order, pool, seats, needs, ranks);
      && (id in seats ==> id in filled && filled[id] == seats[id])
      && (id in filled && id !in seats ==> filled[id].group != g)
    decreases |order|
  {
    if order == [] {
    } else {
      EligibleLineup(pool, seats, order[0], ranks);
      FillKeeps(Eligible(pool, seats, order[0], ranks), seats, order[0], NeedOf(needs, order[0]), 0, needs, id);
      var next := FillGroup(pool, seats, order[0], needs, ranks).0;
      LaterFillsKeep(order[1..], pool, next, needs, ranks, g, id);
    }
  }

  lemma {:induction false} FillKeeps(
    cands: seq<Candidate>, seats: Seats, g: Group, need: int, took: int, needs: Needs, id: CharacterId)
    requires forall c | c in cands :: c.raider.id !in seats
    requires forall i, j | 0 <= i < j < |cands| :: cands[i].raider.id != cands[j].raider.id
    ensures var filled := Fill(cands, seats, g, need, took, needs).0;
      && (id in seats ==> id in filled && filled[id] == seats[id])
      && (id in filled && id !in seats ==> filled[id].group == g)
    decreases |cands|
  {
    if cands == [] || took >= need {
    } else {
      var r, pl := cands[0].raider, Place(cands[0].raider, g, needs, seats);
      assert cands[0] in cands && forall c | c in cands[1..] :: c in cands;
      match pl
      case None => FillKeeps(cands[1..], seats, g, need, took, needs, id);
      case Some(seat) =>
        PlaceFits(r, g, needs, seats);
        FillKeeps(cands[1..], seats[r.id := seat], g, need, took + 1, needs, id);
    }
  }

  /** The scarcest group has its pick of the whole pool: before any repair, whoever sits in it
      is ahead of everybody outside it, seated elsewhere or benched, who plays their role. */
  lemma ScarcestGroupPicksFirst(pool: seq<Raider>, needs: Needs, g: Group, s: Raider, b: Raider, p: int, q: int)
    requires DistinctIds(pool) && s in pool && b in pool && Scarcest(g, needs)
    requires var filled := FillGroups(ScarcestFirst(needs), pool, map[], needs, SignupRanks(pool));
      && s.id in filled && filled[s.id].group == g && !(b.id in filled && filled[b.id].group == g)
      && CanPlay(b, filled[s.id].role).Some?
    requires BestIn(s, g, p) && BestIn(b, g, q)
    ensures Ahead(s, p, b, q)
  {
    var ranks := SignupRanks(pool);
    ScarcestFillStands(pool, needs, ranks, g, s.id);
    ScarcestFillStands(pool, needs, ranks, g, b.id);
    FirstFillIsEarned(pool, needs, g, s, b);
    BestIsGroupPriority(s, g, p);
    BestIsGroupPriority(b, g, q);
    RankingDecides(s, b, g, ranks);
    RankingIsFiveKeys(pool, s, p, b, q);
  }

  /** What the fill of the scarcest group did is still there when the fills are over. */
  lemma ScarcestFillStands(pool: seq<Raider>, needs: Needs, ranks: Ranks, g: Group, id: CharacterId)
    requires DistinctIds(pool) && Scarcest(g, needs)
    ensures var first, filled := FillGroup(pool, map[], g, needs, ranks).0,
              FillGroups(ScarcestFirst(needs), pool, map[], needs, ranks);
      && (id in first ==> id in filled && filled[id] == first[id])
      && (id in filled && id !in first ==> filled[id].group != g)
  {
    var order := ScarcestFirst(needs);
    ScarcestComesFirst(g, needs);
    SortPermutes(GROUPS, Scarcer(needs));
    NoDupPermutes(GROUPS, order);
    assert g !in order[1..] by { assert forall k | 0 <= k < |order[1..]| :: order[1..][k] == order[k + 1]; }
    LaterFillsKeep(order[1..], pool, FillGroup(pool, map[], g, needs, ranks).0, needs, ranks, g, id);
  }

  lemma FirstFillIsEarned(pool: seq<Raider>, needs: Needs, g: Group, s: Raider, b: Raider)
    requires DistinctIds(pool) && s in pool && s.id in FillGroup(pool, map[], g, needs, SignupRanks(pool)).0
    ensures var first := FillGroup(pool, map[], g, needs, SignupRanks(pool)).0;
      Earned(pool, first, s, SignupRanks(pool)) && (b.id in first ==> first[b.id].group == g)
  {
    var ranks := SignupRanks(pool);
    var cands := Eligible(pool, map[], g, ranks);
    assert AllEarned(pool, map[], ranks);
    EligibleIsRanked(pool, map[], g, needs, ranks);
    EligibleLineup(pool, map[], g, ranks);
    FillEarns(cands, pool, map[], g, NeedOf(needs, g), 0, needs, ranks);
    FillKeeps(cands, map[], g, NeedOf(needs, g), 0, needs, b.id);
  }
}
