/** internal/comp/assign.go, the decisions: who can play what, who ranks first, which seat a
    raider takes, and the seating these decisions add up to. */
module Placing {
  import opened Options
  import opened Sequences
  import opened Comp

  datatype Placement = Placement(role: Role, group: Group, priority: int)
  datatype Candidate = Candidate(raider: Raider, priority: int)

  type Seats = map<CharacterId, Placement>
  type Ranks = map<CharacterId, int>

  // ----- Menus

  function PriorityOn(menu: seq<RoleChoice>, role: Role): Option<int> {
    if menu == [] then None
    else if menu[0].role == role then Some(menu[0].priority)
    else PriorityOn(menu[1..], role)
  }

  lemma {:induction false} PriorityIsListed(menu: seq<RoleChoice>, role: Role)
    ensures PriorityOn(menu, role).None? <==> forall c | c in menu :: c.role != role
    ensures PriorityOn(menu, role).Some? ==> RoleChoice(role, PriorityOn(menu, role).value) in menu
  {
    if menu == [] || menu[0].role == role {
    } else {
      PriorityIsListed(menu[1..], role);
      assert forall c :: c in menu <==> c == menu[0] || c in menu[1..];
    }
  }

  function CanPlay(r: Raider, role: Role): Option<int> { PriorityOn(r.roles, role) }

  function BestDpsPriority(r: Raider): Option<int> {
    var m, d := CanPlay(r, MeleeDps), CanPlay(r, RangedDps);
    if m.Some? && d.Some? && m.value <= d.value then m
    else if d.Some? then d
    else m
  }

  function GroupPriority(r: Raider, g: Group): Option<int> {
    match g
    case TankGroup => CanPlay(r, Tank)
    case HealerGroup => CanPlay(r, Healer)
    case DpsGroup => BestDpsPriority(r)
  }

  predicate Open(limit: Option<Int64>, count: int) { limit.None? || count < limit.value }

  predicate SideOpen(role: Role, needs: Needs, melee: int, ranged: int) {
    match role
    case MeleeDps => Open(needs.maxMelee, melee)
    case RangedDps => Open(needs.maxRanged, ranged)
    case _ => true
  }

  /** Melee or ranged: the side a raider prefers while it has room, else their other side. */
  function ChooseDpsRole(r: Raider, needs: Needs, melee: int, ranged: int): Option<Role> {
    var m, d := CanPlay(r, MeleeDps), CanPlay(r, RangedDps);
    var preferMelee := m.Some? && (d.None? || m.value <= d.value);
    if preferMelee && Open(needs.maxMelee, melee) then Some(MeleeDps)
    else if d.Some? && Open(needs.maxRanged, ranged) then Some(RangedDps)
    else if m.Some? && Open(needs.maxMelee, melee) then Some(MeleeDps)
    else None
  }

  function PlaceInGroup(r: Raider, g: Group, needs: Needs, melee: int, ranged: int): Option<Placement> {
    match g
    case TankGroup =>
      var p := CanPlay(r, Tank);
      if p.Some? then Some(Placement(Tank, g, p.value)) else None
    case HealerGroup =>
      var p := CanPlay(r, Healer);
      if p.Some? then Some(Placement(Healer, g, p.value)) else None
    case DpsGroup =>
      var role := ChooseDpsRole(r, needs, melee, ranged);
      if role.Some? then Some(Placement(role.value, g, CanPlay(r, role.value).value)) else None
  }

  /** r can take this role now: it is on their menu and its side is below its cap. */
  predicate CanTake(r: Raider, role: Role, needs: Needs, melee: int, ranged: int) {
    CanPlay(r, role).Some? && SideOpen(role, needs, melee, ranged)
  }

  /** A raider is refused a group exactly when they can take no role of it; placed, they get
      the role they like best of those they can take, melee first on a tie. */
  lemma PlacementIsBestOpenRole(r: Raider, g: Group, needs: Needs, melee: int, ranged: int)
    ensures var pl := PlaceInGroup(r, g, needs, melee, ranged);
      && (pl.None? <==> forall role | GroupForRole(role) == g :: !CanTake(r, role, needs, melee, ranged))
      && (pl.Some? ==>
            && pl.value.group == g == GroupForRole(pl.value.role)
            && CanTake(r, pl.value.role, needs, melee, ranged)
            && CanPlay(r, pl.value.role) == Some(pl.value.priority)
            && (forall role | GroupForRole(role) == g && CanTake(r, role, needs, melee, ranged)
                  :: pl.value.priority <= CanPlay(r, role).value
                     && (role.MeleeDps? && pl.value.role.RangedDps? ==> pl.value.priority < CanPlay(r, role).value)))
  {
    match g
    case TankGroup => assert GroupForRole(Tank) == g;
    case HealerGroup => assert GroupForRole(Healer) == g;
    case DpsGroup => assert GroupForRole(MeleeDps) == g && GroupForRole(RangedDps) == g;
    if PlaceInGroup(r, g, needs, melee, ranged).Some? {
      assert CanTake(r, PlaceInGroup(r, g, needs, melee, ranged).value.role, needs, melee, ranged);
    }
  }

  // ----- Counting a seating

  function Members(seats: Seats, g: Group): set<CharacterId> {
    set id | id in seats && seats[id].group == g
  }

  function Count(seats: Seats, g: Group): nat { |Members(seats, g)| }

  function Holders(seats: Seats, role: Role): set<CharacterId> {
    set id | id in seats && seats[id].role == role
  }

  function Held(seats: Seats, role: Role): nat { |Holders(seats, role)| }

  /** The seat r takes in g beside the raiders already seated, if any side has room. */
  function Place(r: Raider, g: Group, needs: Needs, seats: Seats): Option<Placement> {
    PlaceInGroup(r, g, needs, Held(seats, MeleeDps), Held(seats, RangedDps))
  }

  // ----- Ranking

  function SignedUpBefore(): (Raider, Raider) -> bool {
    (a: Raider, b: Raider) =>
      if a.signedUpAt != b.signedUpAt then a.signedUpAt < b.signedUpAt else a.id < b.id
  }

  function RankMap(sorted: seq<Raider>): Ranks {
    if sorted == [] then map[]
    else RankMap(sorted[..|sorted| - 1])[sorted[|sorted| - 1].id := |sorted| - 1]
  }

  function SignupRanks(pool: seq<Raider>): Ranks { RankMap(Sort(pool, SignedUpBefore())) }

  function RankOf(ranks: Ranks, id: CharacterId): int { if id in ranks then ranks[id] else 0 }

  /** Role priority, mains before alts, score descending, earliest signup, then the id. */
  predicate LessCandidate(a: Candidate, b: Candidate, ranks: Ranks) {
    if a.priority != b.priority then a.priority < b.priority
    else if a.raider.isMain != b.raider.isMain then a.raider.isMain
    else if a.raider.score != b.raider.score then a.raider.score > b.raider.score
    else if RankOf(ranks, a.raider.id) != RankOf(ranks, b.raider.id)
    then RankOf(ranks, a.raider.id) < RankOf(ranks, b.raider.id)
    else a.raider.id < b.raider.id
  }

  function ByRank(ranks: Ranks): (Candidate, Candidate) -> bool {
    (a: Candidate, b: Candidate) => LessCandidate(a, b, ranks)
  }

  function Ranked(cands: seq<Candidate>, ranks: Ranks): seq<Candidate> {
    Sort(cands, ByRank(ranks))
  }

  // ----- Filling, swapping and repairing

  function AsCandidate(r: Raider, g: Group): Option<Candidate> {
    match GroupPriority(r, g)
    case None => None
    case Some(p) => Some(Candidate(r, p))
  }

  function EligibleFor(seats: Seats, g: Group): Raider -> Option<Candidate> {
    (r: Raider) => if r.id in seats then None else AsCandidate(r, g)
  }

  function MovableInto(seats: Seats, g: Group): Raider -> Option<Candidate> {
    (r: Raider) => if r.id !in seats || seats[r.id].group == g then None else AsCandidate(r, g)
  }

  function Eligible(pool: seq<Raider>, seats: Seats, g: Group, ranks: Ranks): seq<Candidate> {
    Ranked(FilterMap(pool, EligibleFor(seats, g)), ranks)
  }

  function Movable(pool: seq<Raider>, seats: Seats, g: Group, ranks: Ranks): seq<Candidate> {
    Ranked(FilterMap(pool, MovableInto(seats, g)), ranks)
  }

  /** Takes candidates in rank order until need of them hold a seat. */
  function Fill(cands: seq<Candidate>, seats: Seats, g: Group, need: int, took: int, needs: Needs): (Seats, int) {
    if cands == [] || took >= need then (seats, took)
    else
      match Place(cands[0].raider, g, needs, seats)
      case None => Fill(cands[1..], seats, g, need, took, needs)
      case Some(pl) => Fill(cands[1..], seats[cands[0].raider.id := pl], g, need, took + 1, needs)
  }

  function FillGroup(pool: seq<Raider>, seats: Seats, g: Group, needs: Needs, ranks: Ranks): (Seats, int) {
    Fill(Eligible(pool, seats, g, ranks), seats, g, NeedOf(needs, g), 0, needs)
  }

  function FillGroups(order: seq<Group>, pool: seq<Raider>, seats: Seats, needs: Needs, ranks: Ranks): Seats {
    if order == [] then seats
    else FillGroups(order[1..], pool, FillGroup(pool, seats, order[0], needs, ranks).0, needs, ranks)
  }

  const GROUPS: seq<Group> := [TankGroup, HealerGroup, DpsGroup]

  function Scarcer(needs: Needs): (Group, Group) -> bool {
    (a: Group, b: Group) => NeedOf(needs, a) < NeedOf(needs, b)
  }

  function ScarcestFirst(needs: Needs): seq<Group> { Sort(GROUPS, Scarcer(needs)) }

  /** The first candidate who fits takes the seat. */
  function Backfill(cands: seq<Candidate>, seats: Seats, g: Group, needs: Needs): Option<Seats> {
    if cands == [] then None
    else
      match Place(cands[0].raider, g, needs, seats)
      case None => Backfill(cands[1..], seats, g, needs)
      case Some(pl) => Some(seats[cands[0].raider.id := pl])
  }

  /** The seating with m moved into short, when that seat has room for them. */
  function Moved(m: Raider, seats: Seats, short: Group, needs: Needs): Option<Seats> {
    match Place(m, short, needs, seats - {m.id})
    case None => None
    case Some(pl) => Some((seats - {m.id})[m.id := pl])
  }

  function TrySwap(movable: seq<Candidate>, pool: seq<Raider>, seats: Seats, short: Group, needs: Needs, ranks: Ranks)
    : Option<Seats>
    requires forall c | c in movable :: c.raider.id in seats
  {
    if movable == [] then None
    else
      var m := movable[0].raider;
      var moved := Moved(m, seats, short, needs);
      var swapped :=
        if moved.None? then None
        else Backfill(Eligible(pool, moved.value, seats[m.id].group, ranks), moved.value, seats[m.id].group, needs);
      if swapped.Some? then swapped
      else TrySwap(movable[1..], pool, seats, short, needs, ranks)
  }

  lemma MovableAreSeated(pool: seq<Raider>, seats: Seats, g: Group, ranks: Ranks)
    ensures forall c :: c in Movable(pool, seats, g, ranks)
              <==> c.raider in pool && MovableInto(seats, g)(c.raider) == Some(c)
  {
    SortPermutes(FilterMap(pool, MovableInto(seats, g)), ByRank(ranks));
    forall c ensures c in Movable(pool, seats, g, ranks)
                  <==> c.raider in pool && MovableInto(seats, g)(c.raider) == Some(c)
    {
      FilterMapIn(pool, MovableInto(seats, g), c);
    }
  }

  lemma EligibleAreBenched(pool: seq<Raider>, seats: Seats, g: Group, ranks: Ranks)
    ensures forall c :: c in Eligible(pool, seats, g, ranks)
              <==> c.raider in pool && EligibleFor(seats, g)(c.raider) == Some(c)
  {
    SortPermutes(FilterMap(pool, EligibleFor(seats, g)), ByRank(ranks));
    forall c ensures c in Eligible(pool, seats, g, ranks)
                  <==> c.raider in pool && EligibleFor(seats, g)(c.raider) == Some(c)
    {
      FilterMapIn(pool, EligibleFor(seats, g), c);
    }
  }

  function SwapInto(pool: seq<Raider>, seats: Seats, short: Group, needs: Needs, ranks: Ranks): Option<Seats> {
    MovableAreSeated(pool, seats, short, ranks);
    TrySwap(Movable(pool, seats, short, ranks), pool, seats, short, needs, ranks)
  }

  /** One pass over the groups: the first short one a swap helps. */
  function RepairStep(order: seq<Group>, pool: seq<Raider>, seats: Seats, needs: Needs, ranks: Ranks): Option<Seats> {
    if order == [] then None
    else if Count(seats, order[0]) < NeedOf(needs, order[0])
            && SwapInto(pool, seats, order[0], needs, ranks).Some?
    then SwapInto(pool, seats, order[0], needs, ranks)
    else RepairStep(order[1..], pool, seats, needs, ranks)
  }

  function Repair(passes: nat, order: seq<Group>, pool: seq<Raider>, seats: Seats, needs: Needs, ranks: Ranks): Seats {
    if passes == 0 then seats
    else
      match RepairStep(order, pool, seats, needs, ranks)
      case None => seats
      case Some(next) => Repair(passes - 1, order, pool, next, needs, ranks)
  }

  /** The seating Assign settles on for a pool in which everybody can play something. */
  function Seating(pool: seq<Raider>, needs: Needs): Seats {
    var ranks := SignupRanks(pool);
    Repair(|pool|, GROUPS, pool, FillGroups(ScarcestFirst(needs), pool, map[], needs, ranks), needs, ranks)
  }
}
