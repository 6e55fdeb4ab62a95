/** internal/comp/assign.go, the result: the rows a lock writes and what they say. */
module Board {
  import opened Options
  import opened Sequences
  import opened Comp
  import opened Placing
  import opened SeatingRules

  function SeatedOnly(seats: Seats): Raider -> Option<Raider> {
    (r: Raider) => if r.id in seats then Some(r) else None
  }

  function BenchedOnly(seats: Seats): Raider -> Option<Raider> {
    (r: Raider) => if r.id in seats then None else Some(r)
  }

  function GroupOrder(g: Group): int {
    match g
    case TankGroup => 0
    case HealerGroup => 1
    case DpsGroup => 2
  }

  function PlacedPriority(seats: Seats, r: Raider): int {
    if r.id in seats then seats[r.id].priority else 0
  }

  function PlacedGroup(seats: Seats, r: Raider): Group {
    if r.id in seats then seats[r.id].group else DpsGroup
  }

  /** Group first, then the ranking that handed out the seats. */
  function SeatOrder(seats: Seats, ranks: Ranks): (Raider, Raider) -> bool {
    (a: Raider, b: Raider) =>
      if PlacedGroup(seats, a) != PlacedGroup(seats, b)
      then GroupOrder(PlacedGroup(seats, a)) < GroupOrder(PlacedGroup(seats, b))
      else LessCandidate(Candidate(a, PlacedPriority(seats, a)), Candidate(b, PlacedPriority(seats, b)), ranks)
  }

  function BenchOrder(ranks: Ranks): (Raider, Raider) -> bool {
    (a: Raider, b: Raider) =>
      if RankOf(ranks, a.id) != RankOf(ranks, b.id) then RankOf(ranks, a.id) < RankOf(ranks, b.id)
      else a.id < b.id
  }

  function SeatedList(pool: seq<Raider>, seats: Seats, ranks: Ranks): seq<Raider> {
    Sort(FilterMap(pool, SeatedOnly(seats)), SeatOrder(seats, ranks))
  }

  function BenchList(pool: seq<Raider>, seats: Seats, ranks: Ranks): seq<Raider> {
    Sort(FilterMap(pool, BenchedOnly(seats)), BenchOrder(ranks))
  }

  /** The conversion to a 16-bit slot index. */
  function Int16(i: int): int { (i + 0x8000) % 0x1_0000 - 0x8000 }

  /** The first of the choices no other beats. */
  function Favourite(menu: seq<RoleChoice>): RoleChoice
    requires menu != []
  {
    if |menu| == 1 then menu[0]
    else
      var best := Favourite(menu[..|menu| - 1]);
      if menu[|menu| - 1].priority < best.priority then menu[|menu| - 1] else best
  }

  /** What a benched raider would have played: raiders with no menu never get here. */
  function BenchRole(r: Raider): Role { if r.roles == [] then Tank else Favourite(r.roles).role }

  function SeatRow(r: Raider, i: int, seats: Seats, ranks: Ranks): Assignment {
    var pl := if r.id in seats then seats[r.id] else Placement(Tank, TankGroup, 0);
    Assignment(r.id, pl.role, Int16(i), false, Seated(pl.group, pl.priority, r.isMain, RankOf(ranks, r.id)))
  }

  function BenchRow(r: Raider, i: int, ranks: Ranks): Assignment {
    Assignment(r.id, BenchRole(r), Int16(i), true, Benched(RankOf(ranks, r.id)))
  }

  function SeatRows(seated: seq<Raider>, seats: Seats, ranks: Ranks): seq<Assignment> {
    seq(|seated|, i requires 0 <= i < |seated| => SeatRow(seated[i], i, seats, ranks))
  }

  function BenchRows(benched: seq<Raider>, ranks: Ranks): seq<Assignment> {
    seq(|benched|, i requires 0 <= i < |benched| => BenchRow(benched[i], i, ranks))
  }

  function Listed(seated: seq<Raider>, benched: seq<Raider>, seats: Seats, ranks: Ranks): seq<Assignment> {
    SeatRows(seated, seats, ranks) + BenchRows(benched, ranks)
  }

  function Rows(pool: seq<Raider>, seats: Seats, ranks: Ranks): seq<Assignment> {
    Listed(SeatedList(pool, seats, ranks), BenchList(pool, seats, ranks), seats, ranks)
  }

  function Playable(): Raider -> Option<Raider> {
    (r: Raider) => if r.roles == [] then None else Some(r)
  }

  function Roleless(): Raider -> Option<Raider> {
    (r: Raider) => if r.roles == [] then Some(r) else None
  }

  function NoRoleAdvisories(roleless: seq<Raider>): seq<Advisory> {
    seq(|roleless|, i requires 0 <= i < |roleless| => NoRolesSet(roleless[i].name))
  }

  function Shortfalls(order: seq<Group>, seats: Seats, needs: Needs): seq<Advisory> {
    if order == [] then []
    else
      (if Short(seats, order[0], needs)
       then [Shortfall(order[0], Count(seats, order[0]), NeedOf(needs, order[0]))] else [])
      + Shortfalls(order[1..], seats, needs)
  }

  /** What Assign answers for a pool, a template and a mode. */
  function AssignResult(raiders: seq<Raider>, t: Template, mode: Mode): Result {
    var pool := FilterMap(raiders, Playable());
    var needs := ResolvedNeeds(t, mode, |pool|);
    var seats := Seating(pool, needs);
    Result(
      Rows(pool, seats, SignupRanks(pool)),
      ResolveAdvisories(t, mode, |pool|)
      + NoRoleAdvisories(FilterMap(raiders, Roleless()))
      + Shortfalls(GROUPS, seats, needs))
  }

  // ----- Strict total orders

  lemma SignupOrderIsTotal(dom: set<Raider>)
    requires forall a, b | a in dom && b in dom && a.id == b.id :: a == b
    ensures StrictTotalOn(SignedUpBefore(), dom)
  {
  }

  lemma RankingIsTotal(ranks: Ranks, dom: set<Candidate>)
    requires forall a, b | a in dom && b in dom && a.raider.id == b.raider.id :: a == b
    ensures StrictTotalOn(ByRank(ranks), dom)
  {
    forall a, b, c | a in dom && b in dom && c in dom && LessCandidate(a, b, ranks) && LessCandidate(b, c, ranks)
      ensures LessCandidate(a, c, ranks)
    {
      LessIsTransitive(a, b, c, ranks);
    }
  }

  lemma LessIsTransitive(a: Candidate, b: Candidate, c: Candidate, ranks: Ranks)
    requires LessCandidate(a, b, ranks) && LessCandidate(b, c, ranks)
    ensures LessCandidate(a, c, ranks)
  {
  }

  lemma SeatOrderIsTotal(seats: Seats, ranks: Ranks, dom: set<Raider>)
    requires forall a, b | a in dom && b in dom && a.id == b.id :: a == b
    ensures StrictTotalOn(SeatOrder(seats, ranks), dom)
  {
    forall a, b, c | a in dom && b in dom && c in dom
                     && SeatOrder(seats, ranks)(a, b) && SeatOrder(seats, ranks)(b, c)
      ensures SeatOrder(seats, ranks)(a, c)
    {
      var ca, cb := Candidate(a, PlacedPriority(seats, a)), Candidate(b, PlacedPriority(seats, b));
      var cc := Candidate(c, PlacedPriority(seats, c));
      if PlacedGroup(seats, a) == PlacedGroup(seats, b) == PlacedGroup(seats, c) {
        LessIsTransitive(ca, cb, cc, ranks);
      }
    }
  }

  lemma BenchOrderIsTotal(ranks: Ranks, dom: set<Raider>)
    requires forall a, b | a in dom && b in dom && a.id == b.id :: a == b
    ensures StrictTotalOn(BenchOrder(ranks), dom)
  {
  }

  function Elements<T>(xs: seq<T>): set<T> { set x | x in xs }

  // ----- Ranks

  /** A raider's rank is their position in signup order. */
  lemma {:induction false} RankIsPosition(sorted: seq<Raider>, i: nat)
    requires DistinctIds(sorted) && i < |sorted|
    ensures sorted[i].id in RankMap(sorted) && RankMap(sorted)[sorted[i].id] == i
  {
    var last := |sorted| - 1;
    if i == last {
    } else {
      RankIsPosition(sorted[..last], i);
      assert sorted[..last][i] == sorted[i];
    }
  }

  lemma SortedStaysDistinct(pool: seq<Raider>, listed: seq<Raider>)
    requires DistinctIds(pool) && multiset(pool) == multiset(listed)
    ensures DistinctIds(listed)
  {
    NoDupPermutes(pool, listed);
    forall i, j | 0 <= i < j < |listed| ensures listed[i].id != listed[j].id {
      assert listed[i] in multiset(pool) && listed[j] in multiset(pool);
      SameIdSameRaider(pool, listed[i], listed[j]);
    }
  }

  /** Ranks follow the clock: an earlier signup has the lower rank, ids breaking ties. */
  lemma RanksFollowSignup(pool: seq<Raider>, a: Raider, b: Raider)
    requires DistinctIds(pool) && a in pool && b in pool
    ensures var ranks := SignupRanks(pool);
      && a.id in ranks && b.id in ranks
      && (ranks[a.id] < ranks[b.id] <==> SignedUpBefore()(a, b))
  {
    var sorted := Sort(pool, SignedUpBefore());
    var dom := Elements(pool);
    SortPermutes(pool, SignedUpBefore());
    SortedStaysDistinct(pool, sorted);
    SignupOrderIsTotal(dom);
    SortOrders(pool, SignedUpBefore(), dom);
    var i :| 0 <= i < |sorted| && sorted[i] == a;
    var j :| 0 <= j < |sorted| && sorted[j] == b;
    RankIsPosition(sorted, i);
    RankIsPosition(sorted, j);
    if i < j {
      assert !SignedUpBefore()(sorted[j], sorted[i]);
    } else if j < i {
      assert !SignedUpBefore()(sorted[i], sorted[j]);
    }
  }

  // ----- The board

  lemma {:induction false} FavouriteIsBest(menu: seq<RoleChoice>)
    requires menu != []
    ensures Favourite(menu) in menu
    ensures forall c | c in menu :: Favourite(menu).priority <= c.priority
    ensures exists k :: 0 <= k < |menu| && menu[k] == Favourite(menu)
                        && forall j | 0 <= j < k :: menu[k].priority < menu[j].priority
  {
    if |menu| == 1 {
    } else {
      FavouriteIsBest(menu[..|menu| - 1]);
      assert menu == menu[..|menu| - 1] + [menu[|menu| - 1]];
      assert forall j | 0 <= j < |menu| - 1 :: menu[j] in menu[..|menu| - 1] && menu[j] == menu[..|menu| - 1][j];
    }
  }

  /** The two lists hold the pool between them, the seated in one and the bench in the other. */
  ghost predicate Splits(pool: seq<Raider>, seats: Seats, seated: seq<Raider>, benched: seq<Raider>) {
    && DistinctIds(seated) && DistinctIds(benched)
    && (forall r :: r in seated <==> r in pool && r.id in seats)
    && (forall r :: r in benched <==> r in pool && r.id !in seats)
  }

  lemma ListsSplitThePool(pool: seq<Raider>, seats: Seats, ranks: Ranks)
    requires DistinctIds(pool)
    ensures Splits(pool, seats, SeatedList(pool, seats, ranks), BenchList(pool, seats, ranks))
  {
    ListIsDistinct(pool, SeatedOnly(seats), SeatedList(pool, seats, ranks), SeatOrder(seats, ranks));
    ListIsDistinct(pool, BenchedOnly(seats), BenchList(pool, seats, ranks), BenchOrder(ranks));
  }

  lemma SplitSizes(pool: seq<Raider>, seats: Seats, seated: seq<Raider>, benched: seq<Raider>)
    requires DistinctIds(pool) && seats.Keys <= Ids(pool) && Splits(pool, seats, seated, benched)
    ensures |seated| == |seats| && |seated| + |benched| == |pool|
  {
    DistinctSize(seated);
    DistinctSize(benched);
    DistinctSize(pool);
    SeatedIds(pool, seats, seated);
    BenchedIds(pool, seats, benched);
    assert |seats.Keys| == |seats|;
  }

  lemma SeatedIds(pool: seq<Raider>, seats: Seats, seated: seq<Raider>)
    requires seats.Keys <= Ids(pool)
    requires forall r :: r in seated <==> r in pool && r.id in seats
    ensures Ids(seated) == seats.Keys
  {
    forall id | id in seats ensures id in Ids(seated) {
      assert id in Ids(pool);
      var r :| r in pool && r.id == id;
      assert r in seated;
    }
  }

  lemma BenchedIds(pool: seq<Raider>, seats: Seats, benched: seq<Raider>)
    requires seats.Keys <= Ids(pool)
    requires forall r :: r in benched <==> r in pool && r.id !in seats
    ensures |Ids(pool)| == |seats.Keys| + |Ids(benched)|
  {
    assert Ids(pool) == seats.Keys + Ids(benched);
    assert seats.Keys !! Ids(benched);
  }

  lemma ListIsDistinct(
      pool: seq<Raider>, f: Raider -> Option<Raider>, listed: seq<Raider>, less: (Raider, Raider) -> bool)
    requires DistinctIds(pool) && listed == Sort(FilterMap(pool, f), less)
    requires forall r :: f(r) == None || f(r) == Some(r)
    ensures DistinctIds(listed)
    ensures forall r :: r in listed <==> r in pool && f(r) == Some(r)
  {
    var kept := FilterMap(pool, f);
    SortPermutes(kept, less);
    forall r ensures r in listed <==> r in pool && f(r) == Some(r) { FilterMapIn(pool, f, r); }
    FilterMapNoDup(pool, f);
    NoDupPermutes(kept, listed);
    forall i, j | 0 <= i < j < |listed| ensures listed[i].id != listed[j].id {
      assert listed[i] in listed && listed[j] in listed;
      SameIdSameRaider(pool, listed[i], listed[j]);
    }
  }

  lemma {:induction false} DistinctSize(pool: seq<Raider>)
    requires DistinctIds(pool)
    ensures |Ids(pool)| == |pool|
  {
    if pool == [] {
    } else {
      var front := pool[..|pool| - 1];
      DistinctSize(front);
      assert Ids(pool) == Ids(front) + {pool[|pool| - 1].id};
      forall r | r in front ensures r.id != pool[|pool| - 1].id {}
    }
  }

  /** Where the row of a seated or a benched raider is, and what it says. */
  ghost predicate IsRowOf(row: Assignment, i: int, r: Raider, seats: Seats, ranks: Ranks) {
    if r.id in seats
    then row == Assignment(r.id, seats[r.id].role, Int16(i), false,
                           Seated(seats[r.id].group, seats[r.id].priority, r.isMain, RankOf(ranks, r.id)))
    else row == Assignment(r.id, BenchRole(r), Int16(i - |seats|), true, Benched(RankOf(ranks, r.id)))
  }

  lemma RowAt(pool: seq<Raider>, seats: Seats, seated: seq<Raider>, benched: seq<Raider>, ranks: Ranks, i: nat)
    returns (r: Raider)
    requires Splits(pool, seats, seated, benched) && |seated| == |seats|
    requires i < |Listed(seated, benched, seats, ranks)|
    ensures r in pool && IsRowOf(Listed(seated, benched, seats, ranks)[i], i, r, seats, ranks)
    ensures Listed(seated, benched, seats, ranks)[i].isBench <==> |seats| <= i
  {
    if i < |seats| {
      r := seated[i];
      assert r in seated;
    } else {
      r := benched[i - |seats|];
      assert r in benched;
    }
  }

  lemma RowOf(pool: seq<Raider>, seats: Seats, seated: seq<Raider>, benched: seq<Raider>, ranks: Ranks, r: Raider)
    returns (i: nat)
    requires Splits(pool, seats, seated, benched) && |seated| == |seats| && r in pool
    ensures i < |Listed(seated, benched, seats, ranks)|
    ensures IsRowOf(Listed(seated, benched, seats, ranks)[i], i, r, seats, ranks)
  {
    if r.id in seats {
      assert r in seated;
      i :| 0 <= i < |seated| && seated[i] == r;
    } else {
      assert r in benched;
      var k :| 0 <= k < |benched| && benched[k] == r;
      i := |seated| + k;
    }
  }

  /** Nobody has two rows. */
  lemma RowsAreDistinct(
    pool: seq<Raider>, seats: Seats, seated: seq<Raider>, benched: seq<Raider>, ranks: Ranks, i: nat, j: nat)
    requires Splits(pool, seats, seated, benched)
    requires i < j < |Listed(seated, benched, seats, ranks)|
    ensures Listed(seated, benched, seats, ranks)[i].id != Listed(seated, benched, seats, ranks)[j].id
  {
    if i < |seated| { assert seated[i] in seated; }
    if |seated| <= j { assert benched[j - |seated|] in benched; }
  }

  lemma SortedListOrdered(
    pool: seq<Raider>, f: Raider -> Option<Raider>, less: (Raider, Raider) -> bool, i: nat, j: nat)
    requires DistinctIds(pool) && StrictTotalOn(less, Elements(pool))
    requires forall r :: f(r) == None || f(r) == Some(r)
    requires i < j < |Sort(FilterMap(pool, f), less)|
    ensures var listed := Sort(FilterMap(pool, f), less); less(listed[i], listed[j])
  {
    var kept := FilterMap(pool, f);
    var listed := Sort(kept, less);
    forall r | r in kept ensures r in Elements(pool) { FilterMapIn(pool, f, r); }
    SortOrders(kept, less, Elements(pool));
    ListIsDistinct(pool, f, listed, less);
    assert listed[i] in listed && listed[j] in listed && !less(listed[j], listed[i]);
  }

  /** Two seat rows are in the order of their groups, then of the ranking. */
  lemma SeatRowsOrdered(pool: seq<Raider>, seats: Seats, ranks: Ranks, listed: seq<Raider>, i: nat, j: nat)
    requires DistinctIds(pool) && listed == SeatedList(pool, seats, ranks) && i < j < |listed|
    ensures listed[i].id in seats && listed[j].id in seats
    ensures var p, q := seats[listed[i].id], seats[listed[j].id];
      && GroupOrder(p.group) <= GroupOrder(q.group)
      && (p.group == q.group
          ==> LessCandidate(Candidate(listed[i], p.priority), Candidate(listed[j], q.priority), ranks))
  {
    ListIsDistinct(pool, SeatedOnly(seats), listed, SeatOrder(seats, ranks));
    assert listed[i] in listed && listed[j] in listed;
    SeatOrderIsTotal(seats, ranks, Elements(pool));
    SortedListOrdered(pool, SeatedOnly(seats), SeatOrder(seats, ranks), i, j);
  }

  /** Two bench rows are in the order the raiders signed up. */
  lemma BenchRowsOrdered(pool: seq<Raider>, seats: Seats, listed: seq<Raider>, i: nat, j: nat)
    requires DistinctIds(pool) && listed == BenchList(pool, seats, SignupRanks(pool)) && i < j < |listed|
    ensures SignedUpBefore()(listed[i], listed[j])
  {
    var ranks := SignupRanks(pool);
    ListIsDistinct(pool, BenchedOnly(seats), listed, BenchOrder(ranks));
    assert listed[i] in listed && listed[j] in listed;
    BenchOrderIsTotal(ranks, Elements(pool));
    SortedListOrdered(pool, BenchedOnly(seats), BenchOrder(ranks), i, j);
    RanksFollowSignup(pool, listed[i], listed[j]);
    RanksFollowSignup(pool, listed[j], listed[i]);
  }

  // ----- Assign as a whole

  lemma PlayablePool(raiders: seq<Raider>)
    requires DistinctIds(raiders)
    ensures var pool := FilterMap(raiders, Playable());
      && DistinctIds(pool)
      && forall r :: r in pool <==> r in raiders && r.roles != []
  {
    var pool := FilterMap(raiders, Playable());
    forall r ensures r in pool <==> r in raiders && r.roles != [] { FilterMapIn(raiders, Playable(), r); }
    FilterMapNoDup(raiders, Playable());
    forall i, j | 0 <= i < j < |pool| ensures pool[i].id != pool[j].id {
      assert pool[i] in pool && pool[j] in pool && pool[i] != pool[j];
      SameIdSameRaider(raiders, pool[i], pool[j]);
    }
  }

  /** What one row of a board promises about the raider it names. */
  ghost predicate RowIsHonest(row: Assignment, i: int, seated: nat, ranks: Ranks, r: Raider) {
    && row.id == r.id
    && row.slotIndex == Int16(if row.isBench then i - seated else i)
    && (exists p :: RoleChoice(row.role, p) in r.roles
          && (row.isBench ==> row.reason == Benched(RankOf(ranks, r.id)) && forall c | c in r.roles :: p <= c.priority)
          && (!row.isBench ==> row.reason == Seated(GroupForRole(row.role), p, r.isMain, RankOf(ranks, r.id))
                               && CanPlay(r, row.role) == Some(p)))
  }

  /** The first part of the board, as long as the seating, is the seats; the rest is the bench. */
  ghost predicate WellFormed(rows: seq<Assignment>, raiders: seq<Raider>, seated: nat, ranks: Ranks) {
    && seated <= |rows|
    && (forall i, j | 0 <= i < j < |rows| :: rows[i].id != rows[j].id)
    && (forall r {:trigger HasRow(rows, r.id)} | r in raiders :: HasRow(rows, r.id) <==> r.roles != [])
    && (forall i | 0 <= i < |rows| ::
          (rows[i].isBench <==> seated <= i) && NamesOneOf(rows[i], i, seated, ranks, raiders))
  }

  ghost predicate HasRow(rows: seq<Assignment>, id: CharacterId) {
    exists i :: 0 <= i < |rows| && rows[i].id == id
  }

  ghost predicate NamesOneOf(row: Assignment, i: int, seated: nat, ranks: Ranks, raiders: seq<Raider>) {
    exists r :: r in raiders && r.roles != [] && RowIsHonest(row, i, seated, ranks, r)
  }

  lemma RowNamesRaider(
      rows: seq<Assignment>, raiders: seq<Raider>, seated: nat, ranks: Ranks, i: nat) returns (r: Raider)
    requires WellFormed(rows, raiders, seated, ranks) && i < |rows|
    ensures r in raiders && RowIsHonest(rows[i], i, seated, ranks, r)
    ensures r.id == rows[i].id && !rows[i].reason.ByRaidLead?
  {
    assert NamesOneOf(rows[i], i, seated, ranks, raiders);
    r :| r in raiders && r.roles != [] && RowIsHonest(rows[i], i, seated, ranks, r);
  }

  lemma ListedIsWellFormed(
    raiders: seq<Raider>, pool: seq<Raider>, seats: Seats, needs: Needs, ranks: Ranks,
    seated: seq<Raider>, benched: seq<Raider>)
    requires DistinctIds(raiders) && Sound(pool, seats, needs)
    requires forall r :: r in pool <==> r in raiders && r.roles != []
    requires Splits(pool, seats, seated, benched) && |seated| == |seats|
    ensures WellFormed(Listed(seated, benched, seats, ranks), raiders, |seats|, ranks)
  {
    var rows := Listed(seated, benched, seats, ranks);
    forall i, j | 0 <= i < j < |rows| ensures rows[i].id != rows[j].id {
      RowsAreDistinct(pool, seats, seated, benched, ranks, i, j);
    }
    forall i | 0 <= i < |rows|
      ensures (rows[i].isBench <==> |seats| <= i)
      ensures NamesOneOf(rows[i], i, |seats|, ranks, raiders)
    {
      var r := RowAt(pool, seats, seated, benched, ranks, i);
      HonestRow(pool, seats, needs, ranks, rows[i], i, r);
    }
    forall r | r in raiders
      ensures HasRow(rows, r.id) <==> r.roles != []
    {
      if r.roles != [] { var i := RowOf(pool, seats, seated, benched, ranks, r); }
      if i :| 0 <= i < |rows| && rows[i].id == r.id {
        var q := RowAt(pool, seats, seated, benched, ranks, i);
        SameIdSameRaider(raiders, r, q);
      }
    }
  }

  lemma HonestRow(pool: seq<Raider>, seats: Seats, needs: Needs, ranks: Ranks, row: Assignment, i: nat, r: Raider)
    requires Sound(pool, seats, needs)
    requires r in pool && r.roles != [] && IsRowOf(row, i, r, seats, ranks)
    ensures RowIsHonest(row, i, |seats|, ranks, r)
  {
    if r.id in seats {
      assert Fits(r, seats[r.id]);
      PriorityIsListed(r.roles, row.role);
      assert RoleChoice(row.role, seats[r.id].priority) in r.roles;
    } else {
      FavouriteIsBest(r.roles);
      assert RoleChoice(row.role, Favourite(r.roles).priority) in r.roles;
    }
  }

  /** The order in which rows are listed: seats before the bench, seats by group and then by
      the ranking that handed them out, the bench by signup. */
  predicate ListedBefore(x: Assignment, y: Assignment, a: Raider, b: Raider, ranks: Ranks) {
    && (x.isBench ==> y.isBench)
    && (x.isBench && y.isBench ==> SignedUpBefore()(a, b))
    && (!x.isBench && !y.isBench ==>
          && x.reason.Seated? && y.reason.Seated?
          && GroupOrder(x.reason.group) <= GroupOrder(y.reason.group)
          && (x.reason.group == y.reason.group
              ==> LessCandidate(Candidate(a, x.reason.priority), Candidate(b, y.reason.priority), ranks)))
  }

  lemma SeatsInOrder(pool: seq<Raider>, seats: Seats, ranks: Ranks, i: nat, j: nat, a: Raider, b: Raider)
    requires DistinctIds(pool) && a in pool && b in pool && i < j < |SeatedList(pool, seats, ranks)|
    requires var seated := SeatedList(pool, seats, ranks); seated[i].id == a.id && seated[j].id == b.id
    ensures ListedBefore(SeatRow(a, i, seats, ranks), SeatRow(b, j, seats, ranks), a, b, ranks)
    ensures SeatedList(pool, seats, ranks)[i] == a && SeatedList(pool, seats, ranks)[j] == b
  {
    var seated := SeatedList(pool, seats, ranks);
    ListIsDistinct(pool, SeatedOnly(seats), seated, SeatOrder(seats, ranks));
    assert seated[i] in seated && seated[j] in seated;
    SameIdSameRaider(pool, a, seated[i]);
    SameIdSameRaider(pool, b, seated[j]);
    SeatRowsOrdered(pool, seats, ranks, seated, i, j);
  }

  lemma BenchInOrder(pool: seq<Raider>, seats: Seats, ranks: Ranks, i: nat, j: nat, a: Raider, b: Raider)
    requires DistinctIds(pool) && a in pool && b in pool && ranks == SignupRanks(pool)
    requires i < j < |BenchList(pool, seats, ranks)|
    requires var benched := BenchList(pool, seats, ranks); benched[i].id == a.id && benched[j].id == b.id
    ensures SignedUpBefore()(a, b)
    ensures BenchList(pool, seats, ranks)[i] == a && BenchList(pool, seats, ranks)[j] == b
  {
    var benched := BenchList(pool, seats, ranks);
    ListIsDistinct(pool, BenchedOnly(seats), benched, BenchOrder(ranks));
    assert benched[i] in benched && benched[j] in benched;
    SameIdSameRaider(pool, a, benched[i]);
    SameIdSameRaider(pool, b, benched[j]);
    BenchRowsOrdered(pool, seats, benched, i, j);
  }

  lemma RowsInOrder(pool: seq<Raider>, seats: Seats, ranks: Ranks, i: nat, j: nat, a: Raider, b: Raider)
    requires DistinctIds(pool) && a in pool && b in pool && ranks == SignupRanks(pool)
    requires i < j < |Rows(pool, seats, ranks)|
    requires Rows(pool, seats, ranks)[i].id == a.id && Rows(pool, seats, ranks)[j].id == b.id
    ensures ListedBefore(Rows(pool, seats, ranks)[i], Rows(pool, seats, ranks)[j], a, b, ranks)
  {
    var n := |SeatedList(pool, seats, ranks)|;
    if j < n {
      SeatsInOrder(pool, seats, ranks, i, j, a, b);
    } else if n <= i {
      BenchInOrder(pool, seats, ranks, i - n, j - n, a, b);
    }
  }

  /** The board Assign answers: each raider with a menu has exactly one row and each without
      has none, seats come first, each part is numbered from zero, and every row gives its
      raider a role of their menu, a seat with that very role's priority, and their signup rank. */
  lemma BoardIsWellFormed(raiders: seq<Raider>, t: Template, mode: Mode)
    requires DistinctIds(raiders)
    ensures var pool := FilterMap(raiders, Playable());
      WellFormed(AssignResult(raiders, t, mode).assignments, raiders,
                 |Seating(pool, ResolvedNeeds(t, mode, |pool|))|, SignupRanks(pool))
  {
    var pool := FilterMap(raiders, Playable());
    var needs := ResolvedNeeds(t, mode, |pool|);
    var seats, ranks := Seating(pool, needs), SignupRanks(pool);
    PlayablePool(raiders);
    SeatingIsAtRest(pool, needs);
    ListsSplitThePool(pool, seats, ranks);
    SplitSizes(pool, seats, SeatedList(pool, seats, ranks), BenchList(pool, seats, ranks));
    var seated, benched := SeatedList(pool, seats, ranks), BenchList(pool, seats, ranks);
    ListedIsWellFormed(raiders, pool, seats, needs, ranks, seated, benched);
  }

  /** The order of that board: of any two of its rows, the first is listed before the second. */
  lemma BoardIsInOrder(raiders: seq<Raider>, t: Template, mode: Mode, i: nat, j: nat, a: Raider, b: Raider)
    requires DistinctIds(raiders) && a in raiders && b in raiders
    requires var rows := AssignResult(raiders, t, mode).assignments;
      i < j < |rows| && rows[i].id == a.id && rows[j].id == b.id
    ensures var rows := AssignResult(raiders, t, mode).assignments;
      ListedBefore(rows[i], rows[j], a, b, SignupRanks(FilterMap(raiders, Playable())))
  {
    var pool := FilterMap(raiders, Playable());
    var needs := ResolvedNeeds(t, mode, |pool|);
    var seats, ranks := Seating(pool, needs), SignupRanks(pool);
    PlayablePool(raiders);
    BoardIsWellFormed(raiders, t, mode);
    var rows := AssignResult(raiders, t, mode).assignments;
    var q := RowNamesRaider(rows, raiders, |seats|, ranks, i);
    var r := RowNamesRaider(rows, raiders, |seats|, ranks, j);
    SameIdSameRaider(raiders, a, q);
    SameIdSameRaider(raiders, b, r);
    assert HasRow(rows, a.id) && HasRow(rows, b.id);
    RowsInOrder(pool, seats, ranks, i, j, a, b);
  }
}
