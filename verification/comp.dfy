/** internal/comp/comp.go: the vocabulary of a composition and the sizing of a raid. */
module Comp {
  import opened Options

  /** A character id. Ids are compared only through their text form, so an id is
      represented by its position in that order. */
  type CharacterId = int

  datatype Role = Tank | Healer | MeleeDps | RangedDps
  datatype Group = TankGroup | HealerGroup | DpsGroup
  datatype Mode = RaidFlex | RaidMythic | MythicPlus

  datatype RoleChoice = RoleChoice(role: Role, priority: int)

  datatype Raider = Raider(
    id: CharacterId,
    name: string,
    roles: seq<RoleChoice>,
    isMain: bool,
    score: real,
    signedUpAt: int)

  const MAX_INT: int := 0x7FFF_FFFF_FFFF_FFFF

  /** Go's int on a 64-bit platform, which is what a template override decodes into. */
  type Int64 = x: int | -MAX_INT - 1 <= x <= MAX_INT

  /** The wrap-around of one 64-bit addition or subtraction. */
  function Wrap64(x: int): (r: Int64)
    requires -2 * (MAX_INT + 1) <= x <= 2 * MAX_INT
    ensures r == x || r == x + 2 * (MAX_INT + 1) || r == x - 2 * (MAX_INT + 1)
  {
    if x > MAX_INT then x - 2 * (MAX_INT + 1)
    else if x < -MAX_INT - 1 then x + 2 * (MAX_INT + 1)
    else x
  }

  datatype Template = Template(
    tanks: Option<Int64>,
    healers: Option<Int64>,
    maxMelee: Option<Int64>,
    maxRanged: Option<Int64>)

  datatype Needs = Needs(
    tanks: Int64,
    healers: Int64,
    dps: Int64,
    maxMelee: Option<Int64>,
    maxRanged: Option<Int64>)

  /** One sentence for the raid lead, kept as the facts it is printed from. */
  datatype Advisory =
    | Departs(role: Role, count: int, size: int, suggested: int)
    | NegativeCount(role: Role, count: int)
    | TanksTrimmed(wanted: int, size: int)
    | HealersTrimmed(wanted: int, size: int, tanks: int, trimmed: int)
    | NoDps(tanksAndHealers: int, size: int)
    | NegativeCap(side: Role, limit: int)
    | CapsTooTight(capacity: int, need: int)
    | NoRolesSet(name: string)
    | Shortfall(group: Group, got: int, need: int)
    | Gap(group: Group, seated: int, need: int)

  /** Why a slot holds who it holds. ByRaidLead is the reason of every hand-placed slot. */
  datatype Reason =
    | Seated(group: Group, priority: int, isMain: bool, rank: int)
    | Benched(rank: int)
    | ByRaidLead

  datatype Assignment = Assignment(
    id: CharacterId,
    role: Role,
    slotIndex: int,
    isBench: bool,
    reason: Reason)

  datatype Result = Result(assignments: seq<Assignment>, advisories: seq<Advisory>)

  function NeedOf(needs: Needs, g: Group): Int64 {
    match g
    case TankGroup => needs.tanks
    case HealerGroup => needs.healers
    case DpsGroup => needs.dps
  }

  function GroupForRole(role: Role): Group {
    match role
    case Tank => TankGroup
    case Healer => HealerGroup
    case _ => DpsGroup
  }

  function Max(a: int, b: int): int { if a < b then b else a }

  function Min(a: int, b: int): int { if a < b then a else b }

  function SizeFor(mode: Mode, turnout: nat): (size: nat)
    ensures 5 <= size <= 30
  {
    match mode
    case RaidMythic => 20
    case MythicPlus => 5
    case RaidFlex => Max(10, Min(turnout, 30))
  }

  function SuggestedTanks(mode: Mode): nat { if mode.MythicPlus? then 1 else 2 }

  function SuggestedHealers(mode: Mode, turnout: nat): nat { (SizeFor(mode, turnout) + 4) / 5 }

  // ----- What Resolve answers, in closed form

  /** An override read as a head count: the suggestion when unset, never below zero. */
  function Wanted(override: Option<Int64>, suggested: nat): nat {
    match override
    case None => suggested
    case Some(count) => Max(count, 0)
  }

  /** The size test adds the two counts in 64 bits, and the sum is past the largest int. */
  predicate HealersOverflow(t: Template, mode: Mode, turnout: nat) {
    Min(Wanted(t.tanks, SuggestedTanks(mode)), SizeFor(mode, turnout))
    + Wanted(t.healers, SuggestedHealers(mode, turnout)) > MAX_INT
  }

  function ClampCap(limit: Option<Int64>): Option<Int64> {
    match limit
    case None => None
    case Some(n) => Some(Max(n, 0))
  }

  function ResolvedNeeds(t: Template, mode: Mode, turnout: nat): Needs {
    var size := SizeFor(mode, turnout);
    var tanks := Min(Wanted(t.tanks, SuggestedTanks(mode)), size);
    var wanted := Wanted(t.healers, SuggestedHealers(mode, turnout));
    var healers := if HealersOverflow(t, mode, turnout) then wanted else Min(wanted, size - tanks);
    Needs(tanks, healers, size - tanks - healers, ClampCap(t.maxMelee), ClampCap(t.maxRanged))
  }

  function CountAdvisories(override: Option<Int64>, suggested: nat, size: nat, role: Role): seq<Advisory> {
    match override
    case None => []
    case Some(count) =>
      (if count != suggested then [Departs(role, count, size, suggested)] else [])
      + (if count < 0 then [NegativeCount(role, count)] else [])
  }

  function CapAdvisories(limit: Option<Int64>, side: Role): seq<Advisory> {
    if limit.Some? && limit.value < 0 then [NegativeCap(side, limit.value)] else []
  }

  function AppendIf(said: seq<Advisory>, condition: bool, a: Advisory): seq<Advisory> {
    if condition then said + [a] else said
  }

  predicate CapsTight(needs: Needs) {
    && needs.maxMelee.Some?
    && needs.maxRanged.Some?
    && Capacity(needs) < needs.dps
  }

  function Capacity(needs: Needs): Int64
    requires needs.maxMelee.Some? && needs.maxRanged.Some?
  {
    Wrap64(needs.maxMelee.value as int + needs.maxRanged.value as int)
  }

  /** What is said about the two counts and how they were trimmed. */
  function CountPart(t: Template, mode: Mode, turnout: nat): seq<Advisory> {
    var size, needs := SizeFor(mode, turnout), ResolvedNeeds(t, mode, turnout);
    var tanks, healers := Wanted(t.tanks, SuggestedTanks(mode)), Wanted(t.healers, SuggestedHealers(mode, turnout));
    var counts := CountAdvisories(t.tanks, SuggestedTanks(mode), size, Tank)
                  + CountAdvisories(t.healers, SuggestedHealers(mode, turnout), size, Healer);
    AppendIf(AppendIf(AppendIf(counts, needs.tanks < tanks, TanksTrimmed(tanks, size)),
                      needs.healers < healers, HealersTrimmed(healers, size, needs.tanks, needs.healers)),
             needs.dps == 0, NoDps(size, size))
  }

  function ResolveAdvisories(t: Template, mode: Mode, turnout: nat): seq<Advisory> {
    var needs := ResolvedNeeds(t, mode, turnout);
    var capped := CountPart(t, mode, turnout) + CapAdvisories(t.maxMelee, MeleeDps)
                  + CapAdvisories(t.maxRanged, RangedDps);
    if CapsTight(needs) then capped + [CapsTooTight(Capacity(needs), needs.dps)] else capped
  }

  // ----- Resolve itself

  method ResolveCount(override: Option<Int64>, suggested: nat, size: nat, role: Role)
    returns (count: Int64, advisories: seq<Advisory>)
    requires suggested <= 30
    ensures count == Wanted(override, suggested)
    ensures advisories == CountAdvisories(override, suggested, size, role)
  {
    count, advisories := suggested, [];
    if override.Some? {
      count := override.value;
      if count != suggested {
        advisories := advisories + [Departs(role, count, size, suggested)];
      }
    }
    if count < 0 {
      advisories := advisories + [NegativeCount(role, count)];
      count := 0;
    }
  }

  method ResolveCap(limit: Option<Int64>, side: Role) returns (cap: Option<Int64>, advisories: seq<Advisory>)
    ensures cap == ClampCap(limit)
    ensures advisories == CapAdvisories(limit, side)
  {
    if limit.None? || limit.value >= 0 {
      return limit, [];
    }
    return Some(0), [NegativeCap(side, limit.value)];
  }

  /** The seat counts of Resolve: trimmed in fill order, so the scarcest role keeps its seats. */
  method TrimToSize(wantedTanks: Int64, wantedHealers: Int64, size: nat, said: seq<Advisory>)
    returns (tanks: Int64, healers: Int64, dps: Int64, advisories: seq<Advisory>)
    requires 0 <= wantedTanks && 0 <= wantedHealers && 0 < size <= 30
    ensures tanks == Min(wantedTanks, size)
    ensures healers == if tanks + wantedHealers > MAX_INT then wantedHealers
                       else Min(wantedHealers, size - tanks)
    ensures dps == size - tanks - healers
    ensures advisories == AppendIf(
                            AppendIf(
                              AppendIf(said, tanks < wantedTanks, TanksTrimmed(wantedTanks, size)),
                              healers < wantedHealers, HealersTrimmed(wantedHealers, size, tanks, healers)),
                            dps == 0, NoDps(size, size))
  {
    tanks, healers, advisories := wantedTanks, wantedHealers, said;
    if tanks > size {
      advisories := advisories + [TanksTrimmed(tanks, size)];
      tanks := size;
    }
    if Wrap64(tanks as int + healers as int) > size {
      var trimmed := size - tanks;
      advisories := advisories + [HealersTrimmed(healers, size, tanks, trimmed)];
      healers := trimmed;
    }
    dps := Wrap64(Wrap64(size - tanks) - healers);
    if dps == 0 && size > 0 {
      advisories := advisories + [NoDps(Wrap64(tanks as int + healers as int), size)];
    }
  }

  /** Derives a composition for turnout raiders, then applies the template on top. */
  method Resolve(t: Template, mode: Mode, turnout: nat) returns (needs: Needs, advisories: seq<Advisory>)
    ensures needs == ResolvedNeeds(t, mode, turnout)
    ensures advisories == ResolveAdvisories(t, mode, turnout)
  {
    var size := SizeFor(mode, turnout);
    var tanks, a := ResolveCount(t.tanks, SuggestedTanks(mode), size, Tank);
    advisories := a;
    var healers, b := ResolveCount(t.healers, SuggestedHealers(mode, turnout), size, Healer);
    advisories := advisories + b;
    var dps;
    tanks, healers, dps, advisories := TrimToSize(tanks, healers, size, advisories);

    var maxMelee, c := ResolveCap(t.maxMelee, MeleeDps);
    advisories := advisories + c;
    var maxRanged, d := ResolveCap(t.maxRanged, RangedDps);
    advisories := advisories + d;
    needs := Needs(tanks, healers, dps, maxMelee, maxRanged);
    if maxMelee.Some? && maxRanged.Some? {
      var capacity := Capacity(needs);
      if capacity < dps {
        advisories := advisories + [CapsTooTight(capacity, dps)];
      }
    }
  }

  /** The three needs add up to the raid size for every template, and they are a head
      count of that raid exactly when the 64-bit size test did not wrap. */
  lemma NeedsFillTheRaid(t: Template, mode: Mode, turnout: nat)
    ensures var n := ResolvedNeeds(t, mode, turnout);
      && n.tanks + n.healers + n.dps == SizeFor(mode, turnout)
      && 0 <= n.tanks <= SizeFor(mode, turnout)
      && 0 <= n.healers
      && (0 <= n.dps <==> !HealersOverflow(t, mode, turnout))
      && (n.healers <= SizeFor(mode, turnout) <==> !HealersOverflow(t, mode, turnout))
      && (n.maxMelee.Some? ==> 0 <= n.maxMelee.value)
      && (n.maxRanged.Some? ==> 0 <= n.maxRanged.value)
  {
  }

  /** Only a healer override within one raid of the largest int can wrap the test. */
  lemma OverflowNeedsAHugeOverride(t: Template, mode: Mode, turnout: nat)
    ensures HealersOverflow(t, mode, turnout)
        ==> t.healers.Some? && t.healers.value > MAX_INT - SizeFor(mode, turnout)
  {
  }

  /** A template nothing rejects, for which the raid is asked for a negative number of
      DPS and more healers than it has seats. */
  lemma OversizedHealersAreNotTrimmed()
    ensures var n := ResolvedNeeds(Template(None, Some(MAX_INT), None, None), RaidMythic, 20);
      n.tanks == 2 && n.healers == MAX_INT && n.dps == 18 - MAX_INT
  {
  }

  /** The raid sizes themselves: 20, 5, or the turnout between ten and thirty. */
  lemma RaidsHaveTheirSize(t: Template, mode: Mode, turnout: nat)
    ensures var n := ResolvedNeeds(t, mode, turnout);
      var size := n.tanks + n.healers + n.dps;
      && (mode.RaidMythic? ==> size == 20)
      && (mode.MythicPlus? ==> size == 5)
      && (mode.RaidFlex? ==>
            && (turnout < 10 ==> size == 10) && (turnout > 30 ==> size == 30)
            && (10 <= turnout <= 30 ==> size == turnout))
  {
  }

  /** What a count override asks of a seat count: nothing, no seats, as written, or all there are. */
  predicate Honours(count: int, override: Option<Int64>, suggested: int, room: int) {
    var asked := if override.None? then suggested else override.value;
    count == if asked < 0 then 0 else if asked <= room then asked else room
  }

  /** The least number of healers with one to every five of the raid. */
  predicate OneInFive(healers: int, size: int) { 5 * healers >= size && 5 * (healers - 1) < size }

  /** Unset counts are one tank in five-man groups and two elsewhere, and a healer to every
      five; a count that is set is honoured as written while the raid has room for it. Tanks
      may take the whole raid, healers what the tanks leave, unless the size test wraps. */
  lemma CountsAreHonoured(t: Template, mode: Mode, turnout: nat, suggested: int)
    requires var n := ResolvedNeeds(t, mode, turnout); OneInFive(suggested, n.tanks + n.healers + n.dps)
    ensures var n := ResolvedNeeds(t, mode, turnout);
      var size := n.tanks + n.healers + n.dps;
      && Honours(n.tanks, t.tanks, if mode.MythicPlus? then 1 else 2, size)
      && (t.healers.Some? && n.tanks + t.healers.value > MAX_INT ==> n.healers == t.healers.value)
      && (t.healers.None? || n.tanks + t.healers.value <= MAX_INT ==>
            Honours(n.healers, t.healers, suggested, size - n.tanks))
      && Limits(n.maxMelee, t.maxMelee) && Limits(n.maxRanged, t.maxRanged)
  {
    NeedsFillTheRaid(t, mode, turnout);
  }

  /** A cap as set, never below zero; an unset one stays unset. */
  predicate Limits(cap: Option<Int64>, asked: Option<Int64>) {
    && (cap.None? <==> asked.None?)
    && (asked.Some? ==> cap.value >= 0 && (cap.value == asked.value || (asked.value < 0 && cap.value == 0)))
  }

  lemma AppendedIf(said: seq<Advisory>, condition: bool, a: Advisory, b: Advisory)
    ensures b in AppendIf(said, condition, a) <==> b in said || (condition && b == a)
  {
  }

  /** What is said about the two counts. */
  predicate CountsSay(a: Advisory, t: Template, n: Needs, size: int, usualTanks: int, usualHealers: int) {
    match a
    case Departs(role, count, of, usual) =>
      of == size && usual != count
      && ((role.Tank? && t.tanks == Some(count) && usual == usualTanks)
          || (role.Healer? && t.healers == Some(count) && usual == usualHealers))
    case NegativeCount(role, count) =>
      count < 0 && ((role.Tank? && t.tanks == Some(count)) || (role.Healer? && t.healers == Some(count)))
    case TanksTrimmed(wanted, of) => of == size && wanted > size && t.tanks == Some(wanted)
    case HealersTrimmed(wanted, of, tanks, trimmed) =>
      of == size && tanks == n.tanks && trimmed == n.healers < wanted
      && wanted == if t.healers.None? then usualHealers else t.healers.value
    case NoDps(full, of) => n.dps == 0 && full == of == size
    case _ => false
  }

  /** And about the two caps. */
  predicate CapsSay(a: Advisory, t: Template, n: Needs) {
    match a
    case NegativeCap(side, limit) =>
      limit < 0 && ((side.MeleeDps? && t.maxMelee == Some(limit)) || (side.RangedDps? && t.maxRanged == Some(limit)))
    case CapsTooTight(capacity, need) =>
      n.maxMelee.Some? && n.maxRanged.Some? && capacity < need == n.dps
      && capacity == Wrap64(n.maxMelee.value as int + n.maxRanged.value as int)
    case _ => false
  }

  lemma CountPartSays(t: Template, mode: Mode, turnout: nat, a: Advisory)
    ensures a in CountPart(t, mode, turnout)
        <==> CountsSay(a, t, ResolvedNeeds(t, mode, turnout), SizeFor(mode, turnout), SuggestedTanks(mode),
                       SuggestedHealers(mode, turnout))
  {
    var size, n := SizeFor(mode, turnout), ResolvedNeeds(t, mode, turnout);
    var tanks, healers := Wanted(t.tanks, SuggestedTanks(mode)), Wanted(t.healers, SuggestedHealers(mode, turnout));
    var counts := CountAdvisories(t.tanks, SuggestedTanks(mode), size, Tank)
                  + CountAdvisories(t.healers, SuggestedHealers(mode, turnout), size, Healer);
    var first := AppendIf(counts, n.tanks < tanks, TanksTrimmed(tanks, size));
    var second := AppendIf(first, n.healers < healers, HealersTrimmed(healers, size, n.tanks, n.healers));
    AppendedIf(counts, n.tanks < tanks, TanksTrimmed(tanks, size), a);
    AppendedIf(first, n.healers < healers, HealersTrimmed(healers, size, n.tanks, n.healers), a);
    AppendedIf(second, n.dps == 0, NoDps(size, size), a);
  }

  lemma AdvisoriesInParts(t: Template, mode: Mode, turnout: nat, a: Advisory)
    ensures var n := ResolvedNeeds(t, mode, turnout);
      a in ResolveAdvisories(t, mode, turnout)
      <==> a in CountPart(t, mode, turnout) || CapsSay(a, t, n)
  {
    var n := ResolvedNeeds(t, mode, turnout);
    var counted := CountPart(t, mode, turnout);
    var capped := counted + CapAdvisories(t.maxMelee, MeleeDps) + CapAdvisories(t.maxRanged, RangedDps);
    assert a in capped
        <==> a in counted || a in CapAdvisories(t.maxMelee, MeleeDps) || a in CapAdvisories(t.maxRanged, RangedDps);
  }

  /** What is said about a sizing: each departure, clamp and trim there was, and nothing else. */
  lemma SaysEveryDeparture(t: Template, mode: Mode, turnout: nat, usual: int, a: Advisory)
    requires var n := ResolvedNeeds(t, mode, turnout); OneInFive(usual, n.tanks + n.healers + n.dps)
    ensures var n := ResolvedNeeds(t, mode, turnout);
      a in ResolveAdvisories(t, mode, turnout)
      <==> CountsSay(a, t, n, n.tanks + n.healers + n.dps, if mode.MythicPlus? then 1 else 2, usual)
           || CapsSay(a, t, n)
  {
    NeedsFillTheRaid(t, mode, turnout);
    CountPartSays(t, mode, turnout, a);
    AdvisoriesInParts(t, mode, turnout, a);
  }
}
