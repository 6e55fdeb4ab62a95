/** internal/roster/sync.go, gear.go and the statements a sync runs: when a fetched profile is
    worth writing. Item level and score are exact values. */
module Sync {
  import opened Options
  import opened Sequences
  import opened Notices
  import Board

  datatype GearItem = GearItem(slot: string, itemId: int, itemLevel: int, enchantId: int, gemIds: seq<int>)
  datatype RaidProgress = RaidProgress(slug: string, bosses: int, normalKilled: int, heroicKilled: int,
      mythicKilled: int)

  /** A field the answer left out is the empty string. */
  datatype Profile = Profile(
    wowClass: string, spec: string, itemLevel: real, score: real, gear: seq<GearItem>, progression: seq<RaidProgress>)

  datatype Rules = Rules(tierSetItemIds: set<int>, currentRaidSlug: string)

  /** None is "not established", which is not zero. */
  datatype Detail = Detail(
    enchantsMissing: Option<int>, enchantsExpected: Option<int>, tierPieces: Option<int>, raid: Option<RaidProgress>)

  datatype Row = Row(
    wowClass: Option<string>,
    spec: Option<string>,
    ilvl: Option<real>,
    score: Option<real>,
    enchantsMissing: Option<int>,
    enchantsExpected: Option<int>,
    tierPieces: Option<int>,
    raidSlug: Option<string>,
    raidBosses: Option<int>,
    raidNormal: Option<int>,
    raidHeroic: Option<int>,
    raidMythic: Option<int>,
    lastSynced: Option<int>,
    attemptedAt: Option<int>,
    notFoundSince: Option<int>)

  datatype Snapshot = Snapshot(ilvl: Option<real>, score: Option<real>, gear: seq<GearItem>)

  /** Snapshots in the order they were captured. */
  datatype Character = Character(row: Row, snapshots: seq<Snapshot>)

  // ----- Reading the season's rules over a profile

  const ENCHANTABLE: set<string> := {"back", "chest", "wrist", "legs", "feet", "finger1", "finger2", "mainhand"}

  function CountItems(gear: seq<GearItem>, p: GearItem -> bool): nat {
    if gear == [] then 0
    else CountItems(gear[..|gear| - 1], p) + (if p(gear[|gear| - 1]) then 1 else 0)
  }

  function TakesEnchant(): GearItem -> bool { (item: GearItem) => item.slot in ENCHANTABLE }

  function LacksEnchant(): GearItem -> bool { (item: GearItem) => item.slot in ENCHANTABLE && item.enchantId == 0 }

  function InSet(ids: set<int>): GearItem -> bool { (item: GearItem) => item.itemId in ids }

  method EnchantCompliance(gear: seq<GearItem>) returns (missing: nat, expected: nat)
    ensures missing == CountItems(gear, LacksEnchant()) && expected == CountItems(gear, TakesEnchant())
  {
    missing, expected := 0, 0;
    for i := 0 to |gear|
      invariant missing == CountItems(gear[..i], LacksEnchant())
      invariant expected == CountItems(gear[..i], TakesEnchant())
    {
      assert gear[..i + 1][..i] == gear[..i];
      if gear[i].slot !in ENCHANTABLE { continue; }
      expected := expected + 1;
      if gear[i].enchantId == 0 { missing := missing + 1; }
    }
    assert gear[..|gear|] == gear;
  }

  method TierPieces(rules: Rules, gear: seq<GearItem>) returns (pieces: Option<nat>)
    ensures pieces == if rules.tierSetItemIds == {} then None else Some(CountItems(gear, InSet(rules.tierSetItemIds)))
  {
    if rules.tierSetItemIds == {} { return None; }
    var n := 0;
    for i := 0 to |gear|
      invariant n == CountItems(gear[..i], InSet(rules.tierSetItemIds))
    {
      assert gear[..i + 1][..i] == gear[..i];
      if gear[i].itemId in rules.tierSetItemIds { n := n + 1; }
    }
    assert gear[..|gear|] == gear;
    return Some(n);
  }

  /** The first raid under the slug. */
  function RaidNamed(progression: seq<RaidProgress>, slug: string): Option<RaidProgress> {
    if progression == [] then None
    else if progression[0].slug == slug then Some(progression[0])
    else RaidNamed(progression[1..], slug)
  }

  method CurrentRaid(rules: Rules, progression: seq<RaidProgress>) returns (raid: Option<RaidProgress>)
    ensures raid == if rules.currentRaidSlug == "" then None else RaidNamed(progression, rules.currentRaidSlug)
  {
    if rules.currentRaidSlug == "" { return None; }
    for i := 0 to |progression|
      invariant RaidNamed(progression, rules.currentRaidSlug) == RaidNamed(progression[i..], rules.currentRaidSlug)
    {
      if progression[i].slug == rules.currentRaidSlug { return Some(progression[i]); }
    }
    return None;
  }

  function Derived(rules: Rules, p: Profile): Detail {
    var expected := CountItems(p.gear, TakesEnchant());
    Detail(
      if expected > 0 then Some(Board.Int16(CountItems(p.gear, LacksEnchant()))) else None,
      if expected > 0 then Some(Board.Int16(expected)) else None,
      if rules.tierSetItemIds == {} then None else Some(Board.Int16(CountItems(p.gear, InSet(rules.tierSetItemIds)))),
      if rules.currentRaidSlug == "" then None else RaidNamed(p.progression, rules.currentRaidSlug))
  }

  method DeriveGear(rules: Rules, p: Profile) returns (d: Detail)
    ensures d == Derived(rules, p)
  {
    d := Detail(None, None, None, None);
    var missing, expected := EnchantCompliance(p.gear);
    if expected > 0 {
      d := d.(enchantsMissing := Some(Board.Int16(missing)), enchantsExpected := Some(Board.Int16(expected)));
    }
    var pieces := TierPieces(rules, p.gear);
    if pieces.Some? { d := d.(tierPieces := Some(Board.Int16(pieces.value))); }
    var raid := CurrentRaid(rules, p.progression);
    d := d.(raid := raid);
  }

  // ----- What a write does

  /** COALESCE over a value that is NULL when the answer left it out. */
  function Kept(stored: Option<string>, incoming: string): Option<string> {
    if incoming == "" then stored else Some(incoming)
  }

  function RaidInt(raid: Option<RaidProgress>, n: int): Option<int> {
    if raid.None? then None else Some(Board.Int16(n))
  }

  function Updated(row: Row, p: Profile, d: Detail, now: int): Row {
    var raid := if d.raid.None? then RaidProgress("", 0, 0, 0, 0) else d.raid.value;
    Row(Kept(row.wowClass, p.wowClass), Kept(row.spec, p.spec), Some(p.itemLevel), Some(p.score),
        d.enchantsMissing, d.enchantsExpected, d.tierPieces,
        if d.raid.None? then None else Some(raid.slug),
        RaidInt(d.raid, raid.bosses), RaidInt(d.raid, raid.normalKilled),
        RaidInt(d.raid, raid.heroicKilled), RaidInt(d.raid, raid.mythicKilled),
        Some(now), Some(now), None)
  }

  function Applied(c: Character, p: Profile, d: Detail, now: int): Character {
    Character(Updated(c.row, p, d, now), c.snapshots + [Snapshot(Some(p.itemLevel), Some(p.score), p.gear)])
  }

  function Touched(c: Character, now: int): Character {
    c.(row := c.row.(lastSynced := Some(now), attemptedAt := Some(now), notFoundSince := None))
  }

  function Missed(c: Character, now: int): Character {
    c.(row := c.row.(attemptedAt := Some(now),
                     notFoundSince := if c.row.notFoundSince.Some? then c.row.notFoundSince else Some(now)))
  }

  function Attempted(c: Character, now: int): Character { c.(row := c.row.(attemptedAt := Some(now))) }

  // ----- Whether to write

  /** A snapshot with a number missing is no snapshot to compare against. */
  function UsableSnapshot(c: Character): Option<Snapshot> {
    if c.snapshots == [] then None
    else
      var last := c.snapshots[|c.snapshots| - 1];
      if last.ilvl.None? || last.score.None? then None else Some(last)
  }

  predicate SameString(stored: Option<string>, incoming: string) {
    incoming == "" || stored == Some(incoming)
  }

  predicate SameRaid(row: Row, raid: Option<RaidProgress>) {
    if raid.None? then row.raidSlug.None?
    else
      && row.raidSlug == Some(raid.value.slug)
      && row.raidBosses == Some(Board.Int16(raid.value.bosses))
      && row.raidNormal == Some(Board.Int16(raid.value.normalKilled))
      && row.raidHeroic == Some(Board.Int16(raid.value.heroicKilled))
      && row.raidMythic == Some(Board.Int16(raid.value.mythicKilled))
  }

  predicate SameDetail(row: Row, d: Detail) {
    && row.enchantsMissing == d.enchantsMissing
    && row.enchantsExpected == d.enchantsExpected
    && row.tierPieces == d.tierPieces
    && SameRaid(row, d.raid)
  }

  predicate Unchanged(c: Character, p: Profile, d: Detail) {
    var snapshot := UsableSnapshot(c);
    && snapshot.Some?
    && snapshot.value.ilvl == Some(p.itemLevel) && snapshot.value.score == Some(p.score)
    && SameString(c.row.wowClass, p.wowClass) && SameString(c.row.spec, p.spec)
    && SameDetail(c.row, d)
    && snapshot.value.gear == p.gear
  }

  datatype Fetch = Found(profile: Profile) | NotFound | AccessRefused | Failed

  /** One character's turn: None when the answer was about our access and not about them. */
  function Synced(c: Character, fetch: Fetch, rules: Rules, now: int): Option<Character> {
    match fetch
    case NotFound => Some(Missed(c, now))
    case AccessRefused => None
    case Failed => Some(Attempted(c, now))
    case Found(p) =>
      var d := Derived(rules, p);
      Some(if Unchanged(c, p, d) then Touched(c, now) else Applied(c, p, d, now))
  }

  function SyncedAll(cs: map<CharacterId, Character>, batch: seq<CharacterId>, answers: CharacterId -> Fetch,
                     rules: Rules, now: int): map<CharacterId, Character> {
    if batch == [] then cs
    else if batch[0] !in cs then SyncedAll(cs, batch[1..], answers, rules, now)
    else
      match Synced(cs[batch[0]], answers(batch[0]), rules, now)
      case None => cs
      case Some(c) => SyncedAll(cs[batch[0] := c], batch[1..], answers, rules, now)
  }

  // ----- Redraws

  /** What a redraw needs of an event, and who is signed up to it. */
  datatype Posting = Posting(
    guild: int, startsAt: int, channel: Option<int>, message: Option<int>, signedUp: set<CharacterId>)

  type Postings = map<EventId, Posting>

  /** A message that is up, of an event still ahead, with the character on it. */
  predicate Shows(post: Posting, id: CharacterId, now: int) {
    id in post.signedUp && now < post.startsAt && post.message.Some? && post.channel.Some?
  }

  function RedrawOf(event: EventId, post: Posting): Notice {
    var channel := if post.channel.Some? then post.channel.value else 0;
    Notice(post.guild, event, RosterUpdated, ToMessage(channel), Nothing)
  }

  /** One redraw for each message the character shows on. */
  function RedrawsFor(posts: set<(EventId, Posting)>, id: CharacterId, now: int): set<Notice> {
    set p | p in posts && Shows(p.1, id, now) :: RedrawOf(p.0, p.1)
  }

  predicate Writes(c: Character, fetch: Fetch, rules: Rules) {
    fetch.Found? && !Unchanged(c, fetch.profile, Derived(rules, fetch.profile))
  }

  function RedrawsOfTurn(posts: Postings, c: Character, id: CharacterId, fetch: Fetch, rules: Rules, now: int)
    : multiset<Notice>
  {
    if Writes(c, fetch, rules) then multiset(RedrawsFor(posts.Items, id, now)) else multiset{}
  }

  /** Everything a batch queues: each turn's redraws, up to the answer that ends it. */
  function RedrawsOfBatch(posts: Postings, cs: map<CharacterId, Character>, batch: seq<CharacterId>,
                          answers: CharacterId -> Fetch, rules: Rules, now: int): multiset<Notice> {
    if batch == [] then multiset{}
    else if batch[0] !in cs then RedrawsOfBatch(posts, cs, batch[1..], answers, rules, now)
    else
      match Synced(cs[batch[0]], answers(batch[0]), rules, now)
      case None => multiset{}
      case Some(c) =>
        RedrawsOfTurn(posts, cs[batch[0]], batch[0], answers(batch[0]), rules, now)
        + RedrawsOfBatch(posts, cs[batch[0] := c], batch[1..], answers, rules, now)
  }

  class Syncer {
    var characters: map<CharacterId, Character>
    var redraws: multiset<Notice>
    const rules: Rules

    constructor (characters: map<CharacterId, Character>, rules: Rules)
      ensures this.characters == characters && this.rules == rules && redraws == multiset{}
    {
      this.characters, this.rules, redraws := characters, rules, multiset{};
    }

    method QueueRedraws(posts: Postings, id: CharacterId, now: int)
      modifies this`redraws
      ensures redraws == old(redraws) + multiset(RedrawsFor(posts.Items, id, now))
    {
      var left := posts.Items;
      assert RedrawsFor(posts.Items - left, id, now) == {};
      while left != {}
        invariant left <= posts.Items
        invariant redraws == old(redraws) + multiset(RedrawsFor(posts.Items - left, id, now))
        decreases left
      {
        var item :| item in left;
        assert item in posts.Items && item == (item.0, posts[item.0]);
        RedrawsGrow(posts, posts.Items - left, item, id, now);
        assert posts.Items - (left - {item}) == posts.Items - left + {item};
        if Shows(item.1, id, now) { redraws := redraws + multiset{RedrawOf(item.0, item.1)}; }
        left := left - {item};
      }
      assert posts.Items - left == posts.Items;
    }

    method SameGear(a: seq<GearItem>, b: seq<GearItem>) returns (same: bool)
      ensures same <==> a == b
    {
      if |a| != |b| { return false; }
      for i := 0 to |a|
        invariant a[..i] == b[..i]
      {
        if !(a[i].slot == b[i].slot && a[i].itemId == b[i].itemId && a[i].itemLevel == b[i].itemLevel
             && a[i].enchantId == b[i].enchantId && a[i].gemIds == b[i].gemIds)
        {
          return false;
        }
      }
      assert a[..|a|] == a && b[..|b|] == b;
      return true;
    }

    method IsUnchanged(id: CharacterId, p: Profile, d: Detail) returns (same: bool)
      requires id in characters
      ensures same <==> Unchanged(characters[id], p, d)
    {
      var c := characters[id];
      var snapshot := UsableSnapshot(c);
      if snapshot.None? { return false; }
      if snapshot.value.ilvl != Some(p.itemLevel) || snapshot.value.score != Some(p.score) { return false; }
      if !SameString(c.row.wowClass, p.wowClass) || !SameString(c.row.spec, p.spec) { return false; }
      if !SameDetail(c.row, d) { return false; }
      same := SameGear(snapshot.value.gear, p.gear);
    }

    /** One character's turn: a write and its redraws happen together. */
    method SyncOne(posts: Postings, id: CharacterId, fetch: Fetch, now: int) returns (refused: bool)
      requires id in characters
      modifies this`characters, this`redraws
      ensures refused <==> Synced(old(characters)[id], fetch, rules, now).None?
      ensures characters == if refused then old(characters)
                            else old(characters)[id := Synced(old(characters)[id], fetch, rules, now).value]
      ensures redraws == old(redraws) + RedrawsOfTurn(posts, old(characters)[id], id, fetch, rules, now)
    {
      match fetch {
        case NotFound =>
          characters := characters[id := Missed(characters[id], now)];
          return false;
        case AccessRefused => return true;
        case Failed =>
          characters := characters[id := Attempted(characters[id], now)];
          return false;
        case Found(p) =>
          var detail := DeriveGear(rules, p);
          var same := IsUnchanged(id, p, detail);
          if same {
            characters := characters[id := Touched(characters[id], now)];
          } else {
            characters := characters[id := Applied(characters[id], p, detail, now)];
            QueueRedraws(posts, id, now);
          }
          return false;
      }
    }

    /** A refused access abandons the rest of the batch. */
    method SyncDue(posts: Postings, batch: seq<CharacterId>, answers: CharacterId -> Fetch, now: int)
      returns (abandoned: bool)
      modifies this`characters, this`redraws
      ensures characters == SyncedAll(old(characters), batch, answers, rules, now)
      ensures redraws == old(redraws) + RedrawsOfBatch(posts, old(characters), batch, answers, rules, now)
    {
      for i := 0 to |batch|
        invariant redraws + RedrawsOfBatch(posts, characters, batch[i..], answers, rules, now)
               == old(redraws) + RedrawsOfBatch(posts, old(characters), batch, answers, rules, now)
        invariant SyncedAll(characters, batch[i..], answers, rules, now) == SyncedAll(old(characters), batch,
            answers, rules, now)
      {
        assert batch[i..][0] == batch[i] && batch[i..][1..] == batch[i + 1..];
        if batch[i] !in characters { continue; }
        var refused := SyncOne(posts, batch[i], answers(batch[i]), now);
        if refused { return true; }
      }
      return false;
    }
  }

  lemma RedrawsGrow(
    posts: Postings, among: set<(EventId, Posting)>, item: (EventId, Posting), id: CharacterId, now: int)
    requires item in posts.Items && item !in among && among <= posts.Items
    ensures multiset(RedrawsFor(among + {item}, id, now))
         == multiset(RedrawsFor(among, id, now))
            + (if Shows(item.1, id, now) then multiset{RedrawOf(item.0, item.1)} else multiset{})
  {
    var redraw := RedrawOf(item.0, item.1);
    if Shows(item.1, id, now) {
      assert RedrawsFor(among + {item}, id, now) == RedrawsFor(among, id, now) + {redraw};
      assert forall p | p in among :: p.0 == item.0 ==> p.1 == posts[p.0];
    } else {
      assert RedrawsFor(among + {item}, id, now) == RedrawsFor(among, id, now);
    }
  }

  // ----- A skip is a write that would change nothing

  /** The same but for the three time columns. */
  predicate SameData(a: Row, b: Row) {
    a == b.(lastSynced := a.lastSynced, attemptedAt := a.attemptedAt, notFoundSince := a.notFoundSince)
  }

  /** The five progression columns are all set or all empty. */
  predicate RaidWhole(row: Row) {
    && row.raidBosses.Some? == row.raidSlug.Some? && row.raidNormal.Some? == row.raidSlug.Some?
    && row.raidHeroic.Some? == row.raidSlug.Some? && row.raidMythic.Some? == row.raidSlug.Some?
  }

  /** The row and the latest snapshot were written together. */
  predicate InStep(c: Character) {
    && (c.snapshots != [] ==> c.row.ilvl == c.snapshots[|c.snapshots| - 1].ilvl)
    && (c.snapshots != [] ==> c.row.score == c.snapshots[|c.snapshots| - 1].score)
  }

  predicate Whole(c: Character) { RaidWhole(c.row) && InStep(c) }

  ghost predicate AllWhole(cs: map<CharacterId, Character>) { forall id {:trigger cs[id]} | id in cs :: Whole(cs[id]) }

  /** Nothing a write could do would show: the row keeps its data, and the snapshot it would
      add repeats the one there is. */
  predicate WriteShowsNothing(c: Character, p: Profile, d: Detail, now: int) {
    var after := Applied(c, p, d, now);
    && SameData(c.row, after.row)
    && c.snapshots != []
    && after.snapshots[|after.snapshots| - 1] == c.snapshots[|c.snapshots| - 1]
  }

  /** A sync is skipped exactly when the write would show nothing. */
  lemma SkipsExactlyNoOps(c: Character, p: Profile, rules: Rules, now: int)
    requires Whole(c)
    ensures Unchanged(c, p, Derived(rules, p)) <==> WriteShowsNothing(c, p, Derived(rules, p), now)
  {
    var d := Derived(rules, p);
    if Unchanged(c, p, d) {
      assert Kept(c.row.wowClass, p.wowClass) == c.row.wowClass && Kept(c.row.spec, p.spec) == c.row.spec;
    }
    if WriteShowsNothing(c, p, d, now) {
      assert c.row.wowClass == Kept(c.row.wowClass, p.wowClass) && c.row.spec == Kept(c.row.spec, p.spec);
    }
  }

  /** Whatever a character's turn answers, the two columns rules hold again afterwards. */
  lemma SyncedStaysWhole(c: Character, fetch: Fetch, rules: Rules, now: int)
    requires Whole(c)
    ensures Synced(c, fetch, rules, now).Some? ==> Whole(Synced(c, fetch, rules, now).value)
  {
  }

  lemma {:induction false} BatchesStayWhole(
    cs: map<CharacterId, Character>, batch: seq<CharacterId>, answers: CharacterId -> Fetch, rules: Rules, now: int)
    requires AllWhole(cs)
    ensures AllWhole(SyncedAll(cs, batch, answers, rules, now))
    decreases |batch|
  {
    if batch == [] {
    } else {
      if batch[0] !in cs {
        BatchesStayWhole(cs, batch[1..], answers, rules, now);
      } else {
        var id := batch[0];
        assert Whole(cs[id]);
        SyncedStaysWhole(cs[id], answers(id), rules, now);
        var next := Synced(cs[id], answers(id), rules, now);
        if next.Some? { BatchesStayWhole(cs[id := next.value], batch[1..], answers, rules, now); }
      }
    }
  }

  datatype Tick = Tick(batch: seq<CharacterId>, answers: CharacterId -> Fetch, now: int)

  function SyncRun(cs: map<CharacterId, Character>, ticks: seq<Tick>, rules: seq<Rules>): map<CharacterId, Character>
    requires |ticks| == |rules|
  {
    if ticks == [] then cs
    else
      var last := |ticks| - 1;
      SyncedAll(SyncRun(cs, ticks[..last], rules[..last]), ticks[last].batch, ticks[last].answers, rules[last],
          ticks[last].now)
  }

  function Registered(): Character {
    Character(Row(None, None, None, None, None, None, None, None, None, None, None, None, None, None, None), [])
  }

  /** In every state a run of ticks reaches from freshly registered characters, under rules
      that may change between ticks, a sync is skipped exactly when its write shows nothing. */
  lemma EverySkipIsANoOp(
    cs: map<CharacterId, Character>, ticks: seq<Tick>, rules: seq<Rules>, id: CharacterId, p: Profile, r: Rules,
        now: int)
    requires |ticks| == |rules| && forall c | c in cs :: cs[c] == Registered()
    requires id in SyncRun(cs, ticks, rules)
    ensures var c := SyncRun(cs, ticks, rules)[id];
      Unchanged(c, p, Derived(r, p)) <==> WriteShowsNothing(c, p, Derived(r, p), now)
  {
    SyncRunStaysWhole(cs, ticks, rules);
    SkipsExactlyNoOps(SyncRun(cs, ticks, rules)[id], p, r, now);
  }

  lemma {:induction false} SyncRunStaysWhole(cs: map<CharacterId, Character>, ticks: seq<Tick>, rules: seq<Rules>)
    requires |ticks| == |rules| && AllWhole(cs)
    ensures AllWhole(SyncRun(cs, ticks, rules))
  {
    if ticks == [] {
    } else {
      var last := |ticks| - 1;
      SyncRunStaysWhole(cs, ticks[..last], rules[..last]);
      BatchesStayWhole(SyncRun(cs, ticks[..last], rules[..last]), ticks[last].batch, ticks[last].answers,
          rules[last], ticks[last].now);
    }
  }

  /** Syncing the same profile a second time is a skip, whatever the first one was. */
  lemma SecondSyncIsASkip(c: Character, p: Profile, rules: Rules, now: int)
    requires Whole(c)
    ensures Unchanged(Synced(c, Found(p), rules, now).value, p, Derived(rules, p))
  {
    var d := Derived(rules, p);
    if !Unchanged(c, p, d) {
      var after := Applied(c, p, d, now);
      assert UsableSnapshot(after) == Some(Snapshot(Some(p.itemLevel), Some(p.score), p.gear));
    }
  }

  /** Without the row and its snapshot in step, a skip can hide a write: the numbers compared
      are the snapshot's, the numbers written are the row's. */
  lemma SkipNeedsTheRowInStep(p: Profile, rules: Rules, now: int)
    requires p.itemLevel != 0.0
    ensures var c := Character(Updated(Registered().row, p, Derived(rules, p), now).(ilvl := Some(0.0)),
                               [Snapshot(Some(p.itemLevel), Some(p.score), p.gear)]);
      Unchanged(c, p, Derived(rules, p)) && !WriteShowsNothing(c, p, Derived(rules, p), now)
  {
  }

  // ----- Batches

  /** The answer that ends a batch: the first about our access rather than a character. */
  function Reached(
      cs: map<CharacterId, Character>, batch: seq<CharacterId>, answers: CharacterId -> Fetch): seq<CharacterId> {
    if batch == [] || (batch[0] in cs && answers(batch[0]).AccessRefused?) then []
    else [batch[0]] + Reached(cs, batch[1..], answers)
  }

  /** One character's failure does not touch another, and past a refused access nobody is
      touched: each character is synced once, on its own, if the batch reaches it. */
  lemma {:induction false} BatchSyncsEachAlone(
    cs: map<CharacterId, Character>, batch: seq<CharacterId>, answers: CharacterId -> Fetch, rules: Rules, now: int,
        id: CharacterId)
    requires NoDup(batch) && id in cs
    ensures var after := SyncedAll(cs, batch, answers, rules, now);
      && after.Keys == cs.Keys
      && (if id in Reached(cs, batch, answers)
          then Some(after[id]) == Synced(cs[id], answers(id), rules, now)
          else after[id] == cs[id])
    decreases |batch|
  {
    if batch == [] {
    } else {
      var rest := batch[1..];
      assert batch[0] !in rest by { assert forall i | 0 <= i < |rest| :: rest[i] == batch[i + 1]; }
      if batch[0] !in cs {
        BatchSyncsEachAlone(cs, rest, answers, rules, now, id);
      } else if !answers(batch[0]).AccessRefused? {
        var next := cs[batch[0] := Synced(cs[batch[0]], answers(batch[0]), rules, now).value];
        ReachedAlike(cs, next, rest, answers);
        ReachedIsListed(cs, rest, answers);
        BatchSyncsEachAlone(next, rest, answers, rules, now, id);
      }
    }
  }

  // ----- Redraws follow changes

  /** The fetched profile would change something a reader of the character could see. */
  predicate ChangeShows(c: Character, fetch: Fetch, rules: Rules, now: int) {
    fetch.Found? && !WriteShowsNothing(c, fetch.profile, Derived(rules, fetch.profile), now)
  }

  /** Those of a batch on this message whose turn comes and whose profile has changed. */
  function ChangedOn(post: Posting, cs: map<CharacterId, Character>, batch: seq<CharacterId>,
                     answers: CharacterId -> Fetch, rules: Rules, now: int): set<CharacterId> {
    set id | id in Reached(cs, batch, answers) && id in cs
             && ChangeShows(cs[id], answers(id), rules, now) && Shows(post, id, now)
  }

  lemma RedrawOfTurn(
    posts: Postings, event: EventId, c: Character, id: CharacterId, fetch: Fetch, rules: Rules, now: int)
    requires Whole(c) && event in posts
    ensures RedrawsOfTurn(posts, c, id, fetch, rules, now)[RedrawOf(event, posts[event])]
         == if ChangeShows(c, fetch, rules, now) && Shows(posts[event], id, now) then 1 else 0
  {
    if fetch.Found? { SkipsExactlyNoOps(c, fetch.profile, rules, now); }
    var redraws := RedrawsFor(posts.Items, id, now);
    assert (event, posts[event]) in posts.Items;
    assert RedrawOf(event, posts[event]) in redraws <==> Shows(posts[event], id, now);
  }

  /** A batch asks for a message to be redrawn once for each character on it whose data really
      changed, and for nothing else: no redraw without a change, no change without a redraw. */
  lemma {:induction false} RedrawsFollowChanges(
    posts: Postings, event: EventId, cs: map<CharacterId, Character>, batch: seq<CharacterId>,
        answers: CharacterId -> Fetch, rules: Rules, now: int)
    requires NoDup(batch) && AllWhole(cs) && event in posts
    ensures RedrawsOfBatch(posts, cs, batch, answers, rules, now)[RedrawOf(event, posts[event])]
         == |ChangedOn(posts[event], cs, batch, answers, rules, now)|
    decreases |batch|
  {
    if batch == [] {
    } else {
      var first, rest := batch[0], batch[1..];
      assert first !in rest by { assert forall i | 0 <= i < |rest| :: rest[i] == batch[i + 1]; }
      if first !in cs {
        RedrawsFollowChanges(posts, event, cs, rest, answers, rules, now);
        assert ChangedOn(posts[event], cs, batch, answers, rules, now)
            == ChangedOn(posts[event], cs, rest, answers, rules, now);
      } else if !answers(first).AccessRefused? {
        SyncedStaysWhole(cs[first], answers(first), rules, now);
        var next := cs[first := Synced(cs[first], answers(first), rules, now).value];
        RedrawsFollowChanges(posts, event, next, rest, answers, rules, now);
        RedrawOfTurn(posts, event, cs[first], first, answers(first), rules, now);
        ChangedGrows(posts[event], cs, next, first, rest, answers, rules, now);
        assert [first] + rest == batch;
      }
    }
  }

  lemma ChangedGrows(
    post: Posting, cs: map<CharacterId, Character>, next: map<CharacterId, Character>, first: CharacterId,
        rest: seq<CharacterId>, answers: CharacterId -> Fetch, rules: Rules, now: int)
    requires first in cs && first !in rest && !answers(first).AccessRefused?
    requires next.Keys == cs.Keys && forall id | id in cs && id != first :: next[id] == cs[id]
    ensures |ChangedOn(post, cs, [first] + rest, answers, rules, now)|
         == |ChangedOn(post, next, rest, answers, rules, now)|
            + (if ChangeShows(cs[first], answers(first), rules, now) && Shows(post, first, now) then 1 else 0)
  {
    ReachedAlike(cs, next, rest, answers);
    ReachedIsListed(cs, rest, answers);
    assert ([first] + rest)[1..] == rest;
    assert Reached(cs, [first] + rest, answers) == [first] + Reached(next, rest, answers);
    var others := ChangedOn(post, next, rest, answers, rules, now);
    var all := ChangedOn(post, cs, [first] + rest, answers, rules, now);
    var counts := ChangeShows(cs[first], answers(first), rules, now) && Shows(post, first, now);
    assert first !in others;
    forall id ensures id in all <==> id in others || (id == first && counts) {
      assert id in [first] + Reached(next, rest, answers) <==> id == first || id in Reached(next, rest, answers);
    }
    assert all == others + if counts then {first} else {};
  }

  lemma {:induction false} ReachedAlike(
    cs: map<CharacterId, Character>, ds: map<CharacterId, Character>, batch: seq<CharacterId>,
        answers: CharacterId -> Fetch)
    requires cs.Keys == ds.Keys
    ensures Reached(cs, batch, answers) == Reached(ds, batch, answers)
    decreases |batch|
  {
    if batch == [] {
    } else {
      ReachedAlike(cs, ds, batch[1..], answers);
    }
  }

  lemma {:induction false} ReachedIsListed(
      cs: map<CharacterId, Character>, batch: seq<CharacterId>, answers: CharacterId -> Fetch)
    ensures forall id | id in Reached(cs, batch, answers) :: id in batch
    decreases |batch|
  {
    if batch == [] {
    } else {
      ReachedIsListed(cs, batch[1..], answers);
    }
  }

  // ----- The columns, spelled out

  lemma {:induction false} CountIsASet(gear: seq<GearItem>, p: GearItem -> bool)
    ensures CountItems(gear, p) == |set i | 0 <= i < |gear| && p(gear[i])|
  {
    var all := set i | 0 <= i < |gear| && p(gear[i]);
    if gear == [] {
      assert all == {};
    } else {
      var n := |gear| - 1;
      var front := gear[..n];
      CountIsASet(front, p);
      var before := set i | 0 <= i < n && p(front[i]);
      if p(gear[n]) {
        assert all == before + {n};
      } else {
        assert all == before;
      }
    }
  }

  lemma {:induction false} RaidNamedIsFirst(progression: seq<RaidProgress>, slug: string)
    ensures RaidNamed(progression, slug).None? <==> forall i | 0 <= i < |progression| :: progression[i].slug != slug
    ensures forall i | 0 <= i < |progression| && progression[i].slug == slug
                       && (forall j | 0 <= j < i :: progression[j].slug != slug) ::
              RaidNamed(progression, slug) == Some(progression[i])
  {
    if progression == [] {
    } else {
      var rest := progression[1..];
      RaidNamedIsFirst(rest, slug);
      assert forall i | 0 <= i < |rest| :: rest[i] == progression[i + 1];
      if progression[0].slug != slug {
        if i :| 0 <= i < |progression| && progression[i].slug == slug { assert rest[i - 1] == progression[i]; }
        forall i | 0 <= i < |progression| && progression[i].slug == slug
                   && (forall j | 0 <= j < i :: progression[j].slug != slug)
          ensures RaidNamed(progression, slug) == Some(progression[i])
        {
          assert rest[i - 1] == progression[i];
          assert forall j | 0 <= j < i - 1 :: rest[j] == progression[j + 1];
        }
      }
    }
  }

  /** The enchant columns: of the pieces in a slot that takes one, how many there are and how
      many go without, both unknown when there is no such piece. */
  lemma EnchantsCounted(rules: Rules, p: Profile)
    ensures var d := Derived(rules, p);
      var takes := set i | 0 <= i < |p.gear|
        && p.gear[i].slot in {"back", "chest", "wrist", "legs", "feet", "finger1", "finger2", "mainhand"};
      var lacks := set i | i in takes && p.gear[i].enchantId == 0;
      if takes == {} then d.enchantsExpected.None? && d.enchantsMissing.None?
      else d.enchantsExpected == Some(Board.Int16(|takes|)) && d.enchantsMissing == Some(Board.Int16(|lacks|))
  {
    CountIsASet(p.gear, TakesEnchant());
    CountIsASet(p.gear, LacksEnchant());
    var takes := set i | 0 <= i < |p.gear|
      && p.gear[i].slot in {"back", "chest", "wrist", "legs", "feet", "finger1", "finger2", "mainhand"};
    var lacks := set i | i in takes && p.gear[i].enchantId == 0;
    assert takes == set i | 0 <= i < |p.gear| && TakesEnchant()(p.gear[i]);
    assert lacks == set i | 0 <= i < |p.gear| && LacksEnchant()(p.gear[i]);
  }

  /** The tier column counts set items, once a season names some; the raid is the first one
      under the season's slug. */
  lemma SeasonRead(rules: Rules, p: Profile)
    ensures var d := Derived(rules, p);
      var pieces := set i | 0 <= i < |p.gear| && p.gear[i].itemId in rules.tierSetItemIds;
      && d.tierPieces == (if rules.tierSetItemIds == {} then None else Some(Board.Int16(|pieces|)))
      && (d.raid.None? <==>
            rules.currentRaidSlug == ""
            || forall i | 0 <= i < |p.progression| :: p.progression[i].slug != rules.currentRaidSlug)
      && (rules.currentRaidSlug != "" ==>
            forall i | 0 <= i < |p.progression| && p.progression[i].slug == rules.currentRaidSlug
                       && (forall j | 0 <= j < i :: p.progression[j].slug != rules.currentRaidSlug) ::
              d.raid == Some(p.progression[i]))
  {
    CountIsASet(p.gear, InSet(rules.tierSetItemIds));
    assert (set i | 0 <= i < |p.gear| && p.gear[i].itemId in rules.tierSetItemIds)
        == set i | 0 <= i < |p.gear| && InSet(rules.tierSetItemIds)(p.gear[i]);
    RaidNamedIsFirst(p.progression, rules.currentRaidSlug);
  }

  /** What a turn writes. A changed profile fills every column, keeping the class and the spec
      it leaves out, and adds its snapshot; any other turn leaves data and snapshots alone and
      stamps the times: a profile when it was read, a character not found since when. */
  lemma TurnsWrite(c: Character, fetch: Fetch, rules: Rules, now: int)
    requires !fetch.AccessRefused?
    ensures Synced(c, fetch, rules, now).Some?
    ensures var after := Synced(c, fetch, rules, now).value;
      && after.row.attemptedAt == Some(now)
      && after.row.lastSynced == (if fetch.Found? then Some(now) else c.row.lastSynced)
      && after.row.notFoundSince
         == (match fetch
             case Found(_) => None
             case NotFound => if c.row.notFoundSince.Some? then c.row.notFoundSince else Some(now)
             case _ => c.row.notFoundSince)
      && (!Writes(c, fetch, rules) ==> SameData(c.row, after.row) && after.snapshots == c.snapshots)
      && (Writes(c, fetch, rules) ==>
            var p, d := fetch.profile, Derived(rules, fetch.profile);
            && after.snapshots == c.snapshots + [Snapshot(Some(p.itemLevel), Some(p.score), p.gear)]
            && after.row.wowClass == (if p.wowClass != "" then Some(p.wowClass) else c.row.wowClass)
            && after.row.spec == (if p.spec != "" then Some(p.spec) else c.row.spec)
            && after.row.ilvl == Some(p.itemLevel) && after.row.score == Some(p.score)
            && after.row.enchantsMissing == d.enchantsMissing && after.row.enchantsExpected == d.enchantsExpected
            && after.row.tierPieces == d.tierPieces
            && RaidColumns(after.row, d.raid))
  {
  }

  /** The five progression columns hold this raid, its counts in 16 bits, or nothing. */
  predicate RaidColumns(row: Row, raid: Option<RaidProgress>) {
    match raid
    case None =>
      row.raidSlug.None? && row.raidBosses.None? && row.raidNormal.None? && row.raidHeroic.None?
      && row.raidMythic.None?
    case Some(r) =>
      && row.raidSlug == Some(r.slug) && row.raidBosses == Some(Board.Int16(r.bosses))
      && row.raidNormal == Some(Board.Int16(r.normalKilled)) && row.raidHeroic == Some(Board.Int16(r.heroicKilled))
      && row.raidMythic == Some(Board.Int16(r.mythicKilled))
  }

  /** A turn that writes asks for one edit of each posted message of an event still ahead that
      the character is signed up to; a turn that does not asks for none. */
  lemma TurnsRedraw(
    posts: Postings, c: Character, id: CharacterId, fetch: Fetch, rules: Rules, now: int, event: EventId, n: Notice)
    requires n.event == event
    ensures RedrawsOfTurn(posts, c, id, fetch, rules, now)[n]
         == if Writes(c, fetch, rules) && event in posts && id in posts[event].signedUp
               && now < posts[event].startsAt && posts[event].channel.Some? && posts[event].message.Some?
               && n == Notice(posts[event].guild, event, RosterUpdated, ToMessage(posts[event].channel.value), Nothing)
            then 1 else 0
  {
    if event in posts { assert (event, posts[event]) in posts.Items; }
    assert n in RedrawsFor(posts.Items, id, now)
        <==> event in posts && Shows(posts[event], id, now) && n == RedrawOf(event, posts[event]);
  }
}
