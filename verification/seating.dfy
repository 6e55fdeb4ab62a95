/** What filling and repairing keep: a sound seating, nobody left out who would fit, and a
    repair loop that stops only when no swap helps. */
module SeatingRules {
  import opened Options
  import opened Sequences
  import opened Comp
  import opened Placing

  ghost predicate DistinctIds(pool: seq<Raider>) {
    forall i, j | 0 <= i < j < |pool| :: pool[i].id != pool[j].id
  }

  function Ids(pool: seq<Raider>): set<CharacterId> { set r | r in pool :: r.id }

  ghost predicate Fits(r: Raider, pl: Placement) {
    pl.group == GroupForRole(pl.role) && CanPlay(r, pl.role) == Some(pl.priority)
  }

  ghost predicate WithinCap(limit: Option<Int64>, held: int) { limit.Some? ==> held <= limit.value }

  /** Only raiders of the pool sit, each in a role of their menu, and no side is over its cap. */
  ghost predicate Sound(pool: seq<Raider>, seats: Seats, needs: Needs) {
    && seats.Keys <= Ids(pool)
    && (forall r | r in pool && r.id in seats :: Fits(r, seats[r.id]))
    && WithinCap(needs.maxMelee, Held(seats, MeleeDps))
    && WithinCap(needs.maxRanged, Held(seats, RangedDps))
  }

  predicate Short(seats: Seats, g: Group, needs: Needs) { Count(seats, g) < NeedOf(needs, g) }

  /** No benched raider could take a seat in g as the seating stands. */
  ghost predicate NoneFits(pool: seq<Raider>, seats: Seats, g: Group, needs: Needs) {
    forall r | r in pool && r.id !in seats :: Place(r, g, needs, seats).None?
  }

  /** g holds no more than its need, and is short only for want of anybody who fits. */
  ghost predicate Settled(pool: seq<Raider>, seats: Seats, g: Group, needs: Needs) {
    && Count(seats, g) <= Max(NeedOf(needs, g), 0)
    && (Short(seats, g, needs) ==> NoneFits(pool, seats, g, needs))
  }

  ghost predicate AllSettled(pool: seq<Raider>, seats: Seats, needs: Needs) {
    forall g: Group :: Settled(pool, seats, g, needs)
  }

  /** m can leave their group for the short one, and b can take the seat m leaves. */
  ghost predicate IsSwap(pool: seq<Raider>, seats: Seats, short: Group, needs: Needs, m: Raider, b: Raider) {
    && m in pool && b in pool
    && m.id in seats && b.id !in seats
    && seats[m.id].group != short
    && Moved(m, seats, short, needs).Some?
    && Place(b, seats[m.id].group, needs, Moved(m, seats, short, needs).value).Some?
  }

  function Swapped(seats: Seats, short: Group, needs: Needs, m: Raider, b: Raider): Seats
    requires m.id in seats && Moved(m, seats, short, needs).Some?
    requires Place(b, seats[m.id].group, needs, Moved(m, seats, short, needs).value).Some?
  {
    var moved := Moved(m, seats, short, needs).value;
    moved[b.id := Place(b, seats[m.id].group, needs, moved).value]
  }

  /** No short group admits any single swap plus backfill. */
  ghost predicate AtRest(pool: seq<Raider>, seats: Seats, needs: Needs) {
    forall g: Group, m, b | Short(seats, g, needs) :: !IsSwap(pool, seats, g, needs, m, b)
  }

  lemma EveryGroupIsListed()
    ensures forall g: Group :: g in GROUPS
  {
    forall g: Group ensures g in GROUPS {
      match g
      case TankGroup => assert GROUPS[0] == g;
      case HealerGroup => assert GROUPS[1] == g;
      case DpsGroup => assert GROUPS[2] == g;
    }
  }

  // ----- Counting

  lemma SeatInGroup(seats: Seats, id: CharacterId, pl: Placement, g: Group)
    requires id !in seats
    ensures Count(seats[id := pl], g) == Count(seats, g) + (if g == pl.group then 1 else 0)
  {
    if g == pl.group {
      assert Members(seats[id := pl], g) == Members(seats, g) + {id};
    } else {
      assert Members(seats[id := pl], g) == Members(seats, g);
    }
  }

  lemma SeatInRole(seats: Seats, id: CharacterId, pl: Placement, role: Role)
    requires id !in seats
    ensures Held(seats[id := pl], role) == Held(seats, role) + (if role == pl.role then 1 else 0)
  {
    if role == pl.role {
      assert Holders(seats[id := pl], role) == Holders(seats, role) + {id};
    } else {
      assert Holders(seats[id := pl], role) == Holders(seats, role);
    }
  }

  lemma SeatOne(seats: Seats, id: CharacterId, pl: Placement)
    requires id !in seats
    ensures forall g: Group ::
      Count(seats[id := pl], g) == Count(seats, g) + (if g == pl.group then 1 else 0)
    ensures forall role: Role ::
      Held(seats[id := pl], role) == Held(seats, role) + (if role == pl.role then 1 else 0)
  {
    forall g: Group ensures Count(seats[id := pl], g) == Count(seats, g) + (if g == pl.group then 1 else 0) {
      SeatInGroup(seats, id, pl, g);
    }
    forall role: Role
      ensures Held(seats[id := pl], role) == Held(seats, role) + (if role == pl.role then 1 else 0)
    {
      SeatInRole(seats, id, pl, role);
    }
  }

  lemma UnseatOne(seats: Seats, id: CharacterId)
    requires id in seats
    ensures forall g: Group ::
      Count(seats - {id}, g) == Count(seats, g) - (if g == seats[id].group then 1 else 0)
    ensures forall role: Role ::
      Held(seats - {id}, role) == Held(seats, role) - (if role == seats[id].role then 1 else 0)
  {
    var before := seats - {id};
    SeatOne(before, id, seats[id]);
    assert before[id := seats[id]] == seats;
  }

  lemma SameIdSameRaider(pool: seq<Raider>, r: Raider, q: Raider)
    requires DistinctIds(pool) && r in pool && q in pool
    ensures r.id == q.id ==> r == q
  {
  }

  // ----- Filling

  /** Candidates of the pool who hold no seat, nobody listed twice. */
  ghost predicate Lineup(cands: seq<Candidate>, pool: seq<Raider>, seats: Seats) {
    && (forall c | c in cands :: c.raider in pool && c.raider.id !in seats)
    && (forall i, j | 0 <= i < j < |cands| :: cands[i].raider.id != cands[j].raider.id)
  }

  lemma EligibleLineup(pool: seq<Raider>, seats: Seats, g: Group, ranks: Ranks)
    requires DistinctIds(pool)
    ensures Lineup(Eligible(pool, seats, g, ranks), pool, seats)
  {
    var listed := FilterMap(pool, EligibleFor(seats, g));
    var cands := Eligible(pool, seats, g, ranks);
    EligibleAreBenched(pool, seats, g, ranks);
    FilterMapNoDup(pool, EligibleFor(seats, g));
    SortPermutes(listed, ByRank(ranks));
    NoDupPermutes(listed, cands);
    forall i, j | 0 <= i < j < |cands| ensures cands[i].raider.id != cands[j].raider.id {
      assert cands[i] in cands && cands[j] in cands && cands[i] != cands[j];
      SameIdSameRaider(pool, cands[i].raider, cands[j].raider);
    }
  }

  ghost predicate Extends(seats: Seats, more: Seats) {
    seats.Keys <= more.Keys && forall id | id in seats :: more[id] == seats[id]
  }

  lemma ExtendingOnlyAdds(seats: Seats, more: Seats)
    requires Extends(seats, more)
    ensures forall role: Role :: Held(seats, role) <= Held(more, role)
  {
    forall role: Role ensures Held(seats, role) <= Held(more, role) {
      assert forall id | id in Holders(seats, role) :: more[id] == seats[id];
      SubsetSize(Holders(seats, role), Holders(more, role));
    }
  }

  lemma SubsetSize<T>(a: set<T>, b: set<T>)
    requires a <= b
    ensures |a| <= |b|
  {
    assert b == a + (b - a);
  }

  lemma NoRoomStays(r: Raider, g: Group, needs: Needs, seats: Seats, more: Seats)
    requires Extends(seats, more) && Place(r, g, needs, seats).None?
    ensures Place(r, g, needs, more).None?
  {
    ExtendingOnlyAdds(seats, more);
  }

  /** Fewer open seats on each side never makes room for anybody. */
  lemma NoneFitsStays(pool: seq<Raider>, seats: Seats, after: Seats, g: Group, needs: Needs)
    requires NoneFits(pool, seats, g, needs)
    requires seats.Keys <= after.Keys
    requires g != DpsGroup || (Held(seats, MeleeDps) <= Held(after, MeleeDps)
                               && Held(seats, RangedDps) <= Held(after, RangedDps))
    ensures NoneFits(pool, after, g, needs)
  {
    forall r | r in pool && r.id !in after ensures Place(r, g, needs, after).None? {
      assert Place(r, g, needs, seats).None?;
    }
  }

  ghost predicate Room(seats: Seats, pl: Placement, needs: Needs) {
    SideOpen(pl.role, needs, Held(seats, MeleeDps), Held(seats, RangedDps))
  }

  lemma PlaceFits(r: Raider, g: Group, needs: Needs, seats: Seats)
    requires Place(r, g, needs, seats).Some?
    ensures var pl := Place(r, g, needs, seats).value;
      Fits(r, pl) && pl.group == g && Room(seats, pl, needs)
  {
  }

  /** Seating one benched raider who fits keeps the seating sound and adds one to g alone. */
  lemma SeatEffect(pool: seq<Raider>, seats: Seats, needs: Needs, r: Raider, pl: Placement)
    requires DistinctIds(pool) && Sound(pool, seats, needs)
    requires r in pool && r.id !in seats && Fits(r, pl) && Room(seats, pl, needs)
    ensures var after := seats[r.id := pl];
      && Sound(pool, after, needs)
      && Extends(seats, after)
      && Count(after, pl.group) == Count(seats, pl.group) + 1
      && (forall h: Group | h != pl.group :: Count(after, h) == Count(seats, h))
  {
    SeatOne(seats, r.id, pl);
    forall q | q in pool && q.id in seats[r.id := pl] ensures Fits(q, seats[r.id := pl][q.id]) {
      SameIdSameRaider(pool, q, r);
    }
  }

  lemma UnseatEffect(pool: seq<Raider>, seats: Seats, needs: Needs, id: CharacterId)
    requires Sound(pool, seats, needs) && id in seats
    ensures Sound(pool, seats - {id}, needs)
    ensures Count(seats - {id}, seats[id].group) == Count(seats, seats[id].group) - 1
    ensures forall h: Group | h != seats[id].group :: Count(seats - {id}, h) == Count(seats, h)
  {
    UnseatOne(seats, id);
  }

  lemma LineupRest(cands: seq<Candidate>, pool: seq<Raider>, seats: Seats, pl: Placement)
    requires cands != [] && Lineup(cands, pool, seats)
    ensures cands[0].raider in pool && cands[0].raider.id !in seats
    ensures Lineup(cands[1..], pool, seats)
    ensures Lineup(cands[1..], pool, seats[cands[0].raider.id := pl])
  {
    assert cands[0] in cands;
    forall c | c in cands[1..] ensures c in cands && c.raider.id != cands[0].raider.id {
      var k :| 0 <= k < |cands[1..]| && cands[1..][k] == c;
      assert cands[k + 1] == c;
    }
  }

  /** A fill seats exactly who it counts, and never beyond the need. */
  lemma {:induction false} FillSeats(
    cands: seq<Candidate>, pool: seq<Raider>, seats: Seats, g: Group, need: int, took: int, needs: Needs)
    requires DistinctIds(pool) && Sound(pool, seats, needs) && Lineup(cands, pool, seats)
    ensures var (filled, total) := Fill(cands, seats, g, need, took, needs);
      && Sound(pool, filled, needs)
      && Extends(seats, filled)
      && Count(filled, g) == Count(seats, g) + total - took
      && (forall h: Group | h != g :: Count(filled, h) == Count(seats, h))
      && took <= total <= Max(took, need)
    decreases |cands|
  {
    if cands == [] || took >= need {
    } else {
      var r, rest := cands[0].raider, cands[1..];
      var pl := Place(r, g, needs, seats);
      LineupRest(cands, pool, seats, Placement(Tank, g, 0));
      if pl.None? {
        FillSeats(rest, pool, seats, g, need, took, needs);
      } else {
        LineupRest(cands, pool, seats, pl.value);
        PlaceFits(r, g, needs, seats);
        SeatEffect(pool, seats, needs, r, pl.value);
        FillSeats(rest, pool, seats[r.id := pl.value], g, need, took + 1, needs);
      }
    }
  }

  /** Whoever a fill that ends short passed over still has no room when it ends. */
  lemma {:induction false} FillLeavesNoRoom(
    cands: seq<Candidate>, pool: seq<Raider>, seats: Seats, g: Group, need: int, took: int, needs: Needs, c: Candidate)
    requires DistinctIds(pool) && Sound(pool, seats, needs) && Lineup(cands, pool, seats)
    requires c in cands && Fill(cands, seats, g, need, took, needs).1 < need
    requires c.raider.id !in Fill(cands, seats, g, need, took, needs).0
    ensures Place(c.raider, g, needs, Fill(cands, seats, g, need, took, needs).0).None?
    decreases |cands|
  {
    var r, rest := cands[0].raider, cands[1..];
    var pl := Place(r, g, needs, seats);
    LineupRest(cands, pool, seats, Placement(Tank, g, 0));
    assert cands == [cands[0]] + rest;
    if pl.None? {
      FillSeats(cands, pool, seats, g, need, took, needs);
      if c == cands[0] {
        NoRoomStays(r, g, needs, seats, Fill(cands, seats, g, need, took, needs).0);
      } else {
        FillLeavesNoRoom(rest, pool, seats, g, need, took, needs, c);
      }
    } else {
      LineupRest(cands, pool, seats, pl.value);
      PlaceFits(r, g, needs, seats);
      SeatEffect(pool, seats, needs, r, pl.value);
      var after := seats[r.id := pl.value];
      FillSeats(rest, pool, after, g, need, took + 1, needs);
      assert r.id in after;
      FillLeavesNoRoom(rest, pool, after, g, need, took + 1, needs, c);
    }
  }

  lemma FillGroupSettles(pool: seq<Raider>, seats: Seats, g: Group, needs: Needs, ranks: Ranks)
    requires DistinctIds(pool) && Sound(pool, seats, needs) && Count(seats, g) == 0
    ensures var (filled, took) := FillGroup(pool, seats, g, needs, ranks);
      && Sound(pool, filled, needs)
      && took == Count(filled, g)
      && Settled(pool, filled, g, needs)
      && (forall h: Group | h != g :: Count(filled, h) == Count(seats, h))
      && (forall h: Group | h != g && Settled(pool, seats, h, needs) :: Settled(pool, filled, h, needs))
  {
    var cands := Eligible(pool, seats, g, ranks);
    EligibleLineup(pool, seats, g, ranks);
    FillSeats(cands, pool, seats, g, NeedOf(needs, g), 0, needs);
    var (filled, took) := FillGroup(pool, seats, g, needs, ranks);
    ExtendingOnlyAdds(seats, filled);
    if Short(filled, g, needs) {
      forall r | r in pool && r.id !in filled ensures Place(r, g, needs, filled).None? {
        EligibleAreBenched(pool, seats, g, ranks);
        if Place(r, g, needs, filled).Some? {
          FillLeavesNoRoom(cands, pool, seats, g, NeedOf(needs, g), 0, needs, Candidate(r, GroupPriority(r, g).value));
        }
      }
    }
    forall h: Group | h != g && Settled(pool, seats, h, needs) ensures Settled(pool, filled, h, needs) {
      if Short(filled, h, needs) { NoneFitsStays(pool, seats, filled, h, needs); }
    }
  }

  lemma {:induction false} FillGroupsSettle(
    order: seq<Group>, pool: seq<Raider>, seats: Seats, needs: Needs, ranks: Ranks)
    requires DistinctIds(pool) && Sound(pool, seats, needs) && NoDup(order)
    requires forall g | g in order :: Count(seats, g) == 0
    requires forall g: Group | g !in order :: Settled(pool, seats, g, needs)
    ensures var filled := FillGroups(order, pool, seats, needs, ranks);
      Sound(pool, filled, needs) && AllSettled(pool, filled, needs)
    decreases |order|
  {
    if order == [] {
    } else {
      FillGroupSettles(pool, seats, order[0], needs, ranks);
      FillGroupsSettle(order[1..], pool, FillGroup(pool, seats, order[0], needs, ranks).0, needs, ranks);
    }
  }

  // ----- Swapping

  lemma {:induction false} BackfillFinds(cands: seq<Candidate>, seats: Seats, g: Group, needs: Needs)
    ensures Backfill(cands, seats, g, needs).None?
        <==> forall c | c in cands :: Place(c.raider, g, needs, seats).None?
    ensures Backfill(cands, seats, g, needs).Some? ==>
      exists c :: c in cands && Place(c.raider, g, needs, seats).Some?
        && Backfill(cands, seats, g, needs).value == seats[c.raider.id := Place(c.raider, g, needs, seats).value]
  {
    if cands == [] {
    } else {
      BackfillFinds(cands[1..], seats, g, needs);
      assert cands == [cands[0]] + cands[1..] && cands[0] in cands;
    }
  }

  lemma BackfillsExactly(pool: seq<Raider>, seats: Seats, short: Group, needs: Needs, ranks: Ranks, m: Raider)
    requires m in pool && m.id in seats && seats[m.id].group != short
    requires Moved(m, seats, short, needs).Some?
    ensures var moved := Moved(m, seats, short, needs).value;
      var from := seats[m.id].group;
      var filled := Backfill(Eligible(pool, moved, from, ranks), moved, from, needs);
      && (filled.Some? <==> exists b :: IsSwap(pool, seats, short, needs, m, b))
      && (filled.Some? ==> exists b :: IsSwap(pool, seats, short, needs, m, b)
                                    && filled.value == Swapped(seats, short, needs, m, b))
  {
    var moved := Moved(m, seats, short, needs).value;
    var from := seats[m.id].group;
    var cands := Eligible(pool, moved, from, ranks);
    EligibleAreBenched(pool, moved, from, ranks);
    BackfillFinds(cands, moved, from, needs);
    forall b | IsSwap(pool, seats, short, needs, m, b)
      ensures Candidate(b, GroupPriority(b, from).value) in cands
    {
    }
    var filled := Backfill(cands, moved, from, needs);
    if filled.Some? {
      var c :| c in cands && Place(c.raider, from, needs, moved).Some?
               && filled.value == moved[c.raider.id := Place(c.raider, from, needs, moved).value];
      assert IsSwap(pool, seats, short, needs, m, c.raider);
    }
  }

  lemma {:induction false} TrySwapFinds(
    movable: seq<Candidate>, pool: seq<Raider>, seats: Seats, short: Group, needs: Needs, ranks: Ranks)
    requires forall c | c in movable :: c.raider in pool && c.raider.id in seats && seats[c.raider.id].group != short
    ensures var out := TrySwap(movable, pool, seats, short, needs, ranks);
      && (out.None? ==> forall c, b | c in movable :: !IsSwap(pool, seats, short, needs, c.raider, b))
      && (out.Some? ==> exists m, b :: IsSwap(pool, seats, short, needs, m, b)
                                    && out.value == Swapped(seats, short, needs, m, b))
  {
    if movable == [] {
    } else {
      var m := movable[0].raider;
      assert movable == [movable[0]] + movable[1..] && movable[0] in movable;
      if Moved(m, seats, short, needs).Some? {
        BackfillsExactly(pool, seats, short, needs, ranks, m);
      }
      TrySwapFinds(movable[1..], pool, seats, short, needs, ranks);
    }
  }

  /** The ranked search commits to some swap exactly when the pool admits one. */
  lemma SwapIntoFinds(pool: seq<Raider>, seats: Seats, short: Group, needs: Needs, ranks: Ranks)
    ensures var out := SwapInto(pool, seats, short, needs, ranks);
      && (out.Some? <==> exists m, b :: IsSwap(pool, seats, short, needs, m, b))
      && (out.Some? ==> exists m, b :: IsSwap(pool, seats, short, needs, m, b)
                                    && out.value == Swapped(seats, short, needs, m, b))
  {
    var movable := Movable(pool, seats, short, ranks);
    MovableAreSeated(pool, seats, short, ranks);
    TrySwapFinds(movable, pool, seats, short, needs, ranks);
    var out := SwapInto(pool, seats, short, needs, ranks);
    forall m, b | IsSwap(pool, seats, short, needs, m, b) ensures out.Some? {
      var c := Candidate(m, GroupPriority(m, short).value);
      assert c in movable && c.raider == m;
    }
  }

  function Exchanged(seats: Seats, m: Raider, pl: Placement, b: Raider, fill: Placement): Seats {
    (seats - {m.id})[m.id := pl][b.id := fill]
  }

  lemma ExchangeKeys(seats: Seats, m: Raider, pl: Placement, b: Raider, fill: Placement)
    requires m.id in seats && b.id !in seats
    ensures var after := Exchanged(seats, m, pl, b, fill);
      after.Keys == seats.Keys + {b.id} && |after| == |seats| + 1
  {
    var after := Exchanged(seats, m, pl, b, fill);
    assert after.Keys == seats.Keys + {b.id};
    assert |after.Keys| == |after| && |seats.Keys| == |seats|;
  }

  lemma ExchangeEffect(
      pool: seq<Raider>, seats: Seats, needs: Needs, m: Raider, pl: Placement, b: Raider, fill: Placement)
    requires DistinctIds(pool) && Sound(pool, seats, needs)
    requires m in pool && b in pool && m.id in seats && b.id !in seats
    requires Fits(m, pl) && Room(seats - {m.id}, pl, needs)
    requires Fits(b, fill) && Room((seats - {m.id})[m.id := pl], fill, needs)
    requires fill.group == seats[m.id].group != pl.group
    ensures var after := Exchanged(seats, m, pl, b, fill);
      && Sound(pool, after, needs)
      && Count(after, pl.group) == Count(seats, pl.group) + 1
      && (forall g: Group | g != pl.group :: Count(after, g) == Count(seats, g))
  {
    UnseatEffect(pool, seats, needs, m.id);
    SeatEffect(pool, seats - {m.id}, needs, m, pl);
    SeatEffect(pool, (seats - {m.id})[m.id := pl], needs, b, fill);
  }

  /** A swap seats exactly one raider more. */
  lemma SwapSeatsOneMore(pool: seq<Raider>, seats: Seats, short: Group, needs: Needs, m: Raider, b: Raider)
    requires IsSwap(pool, seats, short, needs, m, b)
    ensures |Swapped(seats, short, needs, m, b)| == |seats| + 1
  {
    var moved := Moved(m, seats, short, needs).value;
    var pl := Place(m, short, needs, seats - {m.id}).value;
    ExchangeKeys(seats, m, pl, b, Place(b, seats[m.id].group, needs, moved).value);
  }

  /** A swap benches nobody, fills one seat of the short group and leaves every other count
      alone, the vacated group's among them. */
  lemma SwapEffect(pool: seq<Raider>, seats: Seats, short: Group, needs: Needs, m: Raider, b: Raider)
    requires DistinctIds(pool) && Sound(pool, seats, needs) && IsSwap(pool, seats, short, needs, m, b)
    ensures var after := Swapped(seats, short, needs, m, b);
      && after.Keys == seats.Keys + {b.id}
      && Count(after, short) == Count(seats, short) + 1
      && (forall g: Group | g != short :: Count(after, g) == Count(seats, g))
      && Sound(pool, after, needs)
  {
    var moved := Moved(m, seats, short, needs).value;
    var pl := Place(m, short, needs, seats - {m.id}).value;
    var fill := Place(b, seats[m.id].group, needs, moved).value;
    PlaceFits(m, short, needs, seats - {m.id});
    PlaceFits(b, seats[m.id].group, needs, moved);
    ExchangeKeys(seats, m, pl, b, fill);
    ExchangeEffect(pool, seats, needs, m, pl, b, fill);
  }

  /** When DPS is short nobody benched fits it, so a raider who leaves it is replaced on
      the very side they left: the melee and ranged counts come out as they were. */
  lemma SwapKeepsSides(pool: seq<Raider>, seats: Seats, short: Group, needs: Needs, m: Raider, b: Raider)
    requires DistinctIds(pool) && Sound(pool, seats, needs) && IsSwap(pool, seats, short, needs, m, b)
    requires NoneFits(pool, seats, DpsGroup, needs)
    ensures var after := Swapped(seats, short, needs, m, b);
      && Held(seats, MeleeDps) <= Held(after, MeleeDps)
      && Held(seats, RangedDps) <= Held(after, RangedDps)
  {
    var scratch, moved := seats - {m.id}, Moved(m, seats, short, needs).value;
    var from := seats[m.id].group;
    var pl := Place(b, from, needs, moved).value;
    UnseatOne(seats, m.id);
    SeatOne(scratch, m.id, moved[m.id]);
    SeatOne(moved, b.id, pl);
    assert Fits(m, seats[m.id]);
    if from == DpsGroup {
      assert Place(b, DpsGroup, needs, seats).None?;
      assert pl.role == seats[m.id].role;
    }
  }

  lemma SwapKeepsNoneFits(
    pool: seq<Raider>, seats: Seats, short: Group, needs: Needs, m: Raider, b: Raider, g: Group)
    requires DistinctIds(pool) && Sound(pool, seats, needs) && IsSwap(pool, seats, short, needs, m, b)
    requires NoneFits(pool, seats, g, needs)
    ensures NoneFits(pool, Swapped(seats, short, needs, m, b), g, needs)
  {
    SwapEffect(pool, seats, short, needs, m, b);
    if g == DpsGroup { SwapKeepsSides(pool, seats, short, needs, m, b); }
    NoneFitsStays(pool, seats, Swapped(seats, short, needs, m, b), g, needs);
  }

  lemma SwapKeepsSettled(pool: seq<Raider>, seats: Seats, short: Group, needs: Needs, m: Raider, b: Raider)
    requires DistinctIds(pool) && Sound(pool, seats, needs) && AllSettled(pool, seats, needs)
    requires Short(seats, short, needs) && IsSwap(pool, seats, short, needs, m, b)
    ensures AllSettled(pool, Swapped(seats, short, needs, m, b), needs)
  {
    var after := Swapped(seats, short, needs, m, b);
    forall g: Group ensures Settled(pool, after, g, needs) {
      assert Settled(pool, seats, g, needs);
      SwapEffect(pool, seats, short, needs, m, b);
      if Short(after, g, needs) { SwapKeepsNoneFits(pool, seats, short, needs, m, b, g); }
    }
  }

  // ----- Repairing

  lemma {:induction false} RepairStepFinds(
    order: seq<Group>, pool: seq<Raider>, seats: Seats, needs: Needs, ranks: Ranks)
    ensures var out := RepairStep(order, pool, seats, needs, ranks);
      && (out.None? ==>
            forall g, m, b | g in order && Short(seats, g, needs) :: !IsSwap(pool, seats, g, needs, m, b))
      && (out.Some? ==>
            exists g, m, b :: Short(seats, g, needs) && IsSwap(pool, seats, g, needs, m, b)
                           && out.value == Swapped(seats, g, needs, m, b))
  {
    if order == [] {
    } else {
      SwapIntoFinds(pool, seats, order[0], needs, ranks);
      RepairStepFinds(order[1..], pool, seats, needs, ranks);
      assert order == [order[0]] + order[1..];
    }
  }

  /** A pass of the repair loop that swaps benches nobody and leaves fewer without a seat. */
  lemma RepairStepSeatsOne(order: seq<Group>, pool: seq<Raider>, seats: Seats, needs: Needs, ranks: Ranks)
    requires DistinctIds(pool) && Sound(pool, seats, needs)
    requires RepairStep(order, pool, seats, needs, ranks).Some?
    ensures var next := RepairStep(order, pool, seats, needs, ranks).value;
      Sound(pool, next, needs) && seats.Keys <= next.Keys && Unseated(pool, next) < Unseated(pool, seats)
  {
    RepairStepFinds(order, pool, seats, needs, ranks);
    var next := RepairStep(order, pool, seats, needs, ranks).value;
    var g, m, q :| Short(seats, g, needs) && IsSwap(pool, seats, g, needs, m, q)
                   && next == Swapped(seats, g, needs, m, q);
    SwapEffect(pool, seats, g, needs, m, q);
    assert q in pool && q.id !in seats && q.id in next;
    UnseatedFalls(pool, seats, next);
  }

  lemma RepairStepKeeps(order: seq<Group>, pool: seq<Raider>, seats: Seats, needs: Needs, ranks: Ranks)
    requires DistinctIds(pool) && Sound(pool, seats, needs) && AllSettled(pool, seats, needs)
    requires RepairStep(order, pool, seats, needs, ranks).Some?
    ensures var next := RepairStep(order, pool, seats, needs, ranks).value;
      Sound(pool, next, needs) && AllSettled(pool, next, needs) && seats.Keys <= next.Keys
  {
    RepairStepFinds(order, pool, seats, needs, ranks);
    var next := RepairStep(order, pool, seats, needs, ranks).value;
    var g, m, b :| Short(seats, g, needs) && IsSwap(pool, seats, g, needs, m, b)
                   && next == Swapped(seats, g, needs, m, b);
    SwapEffect(pool, seats, g, needs, m, b);
    SwapKeepsSettled(pool, seats, g, needs, m, b);
  }

  /** A pass that finds nothing leaves no swap to be found. */
  lemma RepairStepRests(order: seq<Group>, pool: seq<Raider>, seats: Seats, needs: Needs, ranks: Ranks)
    requires forall g: Group :: g in order
    requires RepairStep(order, pool, seats, needs, ranks).None?
    ensures AtRest(pool, seats, needs)
  {
    RepairStepFinds(order, pool, seats, needs, ranks);
  }

  /** The repair loop benches nobody and keeps what the fill established. */
  lemma {:induction false} RepairKeeps(
    passes: nat, order: seq<Group>, pool: seq<Raider>, seats: Seats, needs: Needs, ranks: Ranks, done: Seats)
    requires DistinctIds(pool) && Sound(pool, seats, needs) && AllSettled(pool, seats, needs)
    requires done == Repair(passes, order, pool, seats, needs, ranks)
    ensures Sound(pool, done, needs) && AllSettled(pool, done, needs)
    ensures seats.Keys <= done.Keys
  {
    if passes == 0 {
    } else {
      var next := RepairStep(order, pool, seats, needs, ranks);
      if next.Some? {
        RepairStepKeeps(order, pool, seats, needs, ranks);
        RepairKeeps(passes - 1, order, pool, next.value, needs, ranks, done);
      }
    }
  }

  /** How many raiders of the pool hold no seat. */
  function Unseated(pool: seq<Raider>, seats: Seats): nat {
    if pool == [] then 0
    else (if pool[0].id in seats then 0 else 1) + Unseated(pool[1..], seats)
  }

  lemma {:induction false} UnseatedFalls(pool: seq<Raider>, seats: Seats, next: Seats)
    requires seats.Keys <= next.Keys
    ensures Unseated(pool, next) <= Unseated(pool, seats) <= |pool|
    ensures (exists r :: r in pool && r.id !in seats && r.id in next) ==> Unseated(pool, next) < Unseated(pool, seats)
    ensures Unseated(pool, seats) == 0 ==> forall r | r in pool :: r.id in seats
  {
    if pool == [] {
    } else {
      UnseatedFalls(pool[1..], seats, next);
      assert pool == [pool[0]] + pool[1..];
    }
  }

  /** As many passes as there are benched raiders bring the repair to rest. */
  lemma {:induction false} RepairRests(
    passes: nat, order: seq<Group>, pool: seq<Raider>, seats: Seats, needs: Needs, ranks: Ranks, done: Seats)
    requires forall g: Group :: g in order
    requires DistinctIds(pool) && Sound(pool, seats, needs)
    requires done == Repair(passes, order, pool, seats, needs, ranks)
    requires Unseated(pool, seats) <= passes
    ensures AtRest(pool, done, needs)
  {
    if passes == 0 {
      UnseatedFalls(pool, seats, seats);
    } else {
      var next := RepairStep(order, pool, seats, needs, ranks);
      if next.Some? {
        RepairStepSeatsOne(order, pool, seats, needs, ranks);
        RepairRests(passes - 1, order, pool, next.value, needs, ranks, done);
      } else {
        RepairStepRests(order, pool, seats, needs, ranks);
      }
    }
  }

  lemma FillingSettles(pool: seq<Raider>, needs: Needs, ranks: Ranks)
    requires DistinctIds(pool)
    requires WithinCap(needs.maxMelee, 0) && WithinCap(needs.maxRanged, 0)
    ensures var filled := FillGroups(ScarcestFirst(needs), pool, map[], needs, ranks);
      Sound(pool, filled, needs) && AllSettled(pool, filled, needs)
  {
    SortPermutes(GROUPS, Scarcer(needs));
    NoDupPermutes(GROUPS, ScarcestFirst(needs));
    EveryGroupIsListed();
    assert Holders(map[], MeleeDps) == {} && Holders(map[], RangedDps) == {};
    forall g: Group ensures g in ScarcestFirst(needs) && Count(map[], g) == 0 {
      assert g in GROUPS;
      assert Members(map[], g) == {};
    }
    FillGroupsSettle(ScarcestFirst(needs), pool, map[], needs, ranks);
  }

  /** The seating Assign settles on is sound, leaves nobody benched who would fit a short
      group, caps included, and admits no swap: the pass bound never cuts the repair off. */
  lemma SeatingIsAtRest(pool: seq<Raider>, needs: Needs)
    requires DistinctIds(pool)
    requires WithinCap(needs.maxMelee, 0) && WithinCap(needs.maxRanged, 0)
    ensures var seats := Seating(pool, needs);
      && Sound(pool, seats, needs)
      && AllSettled(pool, seats, needs)
      && AtRest(pool, seats, needs)
  {
    var ranks := SignupRanks(pool);
    var filled := FillGroups(ScarcestFirst(needs), pool, map[], needs, ranks);
    FillingSettles(pool, needs, ranks);
    RepairKeeps(|pool|, GROUPS, pool, filled, needs, ranks, Seating(pool, needs));
    UnseatedFalls(pool, filled, filled);
    EveryGroupIsListed();
    RepairRests(|pool|, GROUPS, pool, filled, needs, ranks, Seating(pool, needs));
  }
}
