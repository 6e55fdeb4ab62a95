/** What every run of signup and board operations keeps. */
module Runs {
  import opened Options
  import opened Sequences
  import opened Comp
  import opened Notices
  import opened Tables
  import opened SeatingRules
  import Board
  import Placing

  datatype Op =
    | Write(k: SignupKey, a: Answer, owned: bool, isRaidLead: bool)
    | Withdraw(k: SignupKey, isRaidLead: bool)
    | File(k: SignupKey, a: Answer, newId: RequestId)
    | Approve(id: RequestId)
    | Reject(id: RequestId)
    | Lock(c: CompKey)
    | Save(c: CompKey, seats: seq<Seat>)
    | SetMode(c: CompKey, mode: CompMode)
    | Rename(c: CompKey, name: CompName)
    | Resheet(id: CharacterId, s: Sheet)

  ghost function Apply(t: Tables, op: Op, now: int): (Tables, Outcome) {
    match op
    case Write(k, a, owned, isRaidLead) => WriteStep(t, k, a, owned, isRaidLead, now)
    case Withdraw(k, isRaidLead) => WithdrawStep(t, k, isRaidLead, now)
    case File(k, a, newId) => FileStep(t, k, a, newId, now)
    case Approve(id) => ApproveStep(t, id, now)
    case Reject(id) => RejectStep(t, id, now)
    case Lock(c) => LockStep(t, c)
    case Save(c, seats) => SaveStep(t, c, seats)
    case SetMode(c, mode) => SetModeStep(t, c, mode)
    case Rename(c, name) => RenameStep(t, c, name)
    case Resheet(id, s) => ResheetStep(t, id, s)
  }

  /** The tables, and the comp most recently written for each event under its current name. */
  datatype World = World(tables: Tables, latest: map<EventId, CompName>)

  ghost function Latest(w: World, op: Op): map<EventId, CompName> {
    match op
    case Lock(c) => w.latest[c.event := c.name]
    case Save(c, _) => w.latest[c.event := c.name]
    case Rename(c, name) => LatestRenamed(w.latest, c, TrimSpace(name))
    case _ => w.latest
  }

  ghost function Step(w: World, op: Op, now: int): World {
    var (after, outcome) := Apply(w.tables, op, now);
    if outcome.Done? then World(after, Latest(w, op)) else w
  }

  ghost function Run(w: World, ops: seq<(Op, int)>): World {
    if ops == [] then w else Step(Run(w, ops[..|ops| - 1]), ops[|ops| - 1].0, ops[|ops| - 1].1)
  }

  // ----- Boards hold only people who are coming

  ghost predicate SlotsHaveComps(t: Tables) {
    forall s | s in t.slots :: CompKey(s.event, s.comp) in t.comps
  }

  /** Every slot the assigner placed is held by a CONFIRMED or LATE signup. */
  ghost predicate AssignedArePresent(t: Tables) {
    forall s | s in t.slots && !t.slots[s].reason.ByRaidLead? :: HoldsPlace(t.signups, SignupKey(s.event, s.character))
  }

  /** A present raider's assigned role is the seat they hold in the latest board. */
  ghost predicate RolesMatchLatest(w: World) { RolesIn(w.tables.signups, w.tables.slots, w.latest) }

  ghost predicate RolesIn(signups: map<SignupKey, Signup>, slots: map<SlotKey, Slot>, latest: map<EventId, CompName>) {
    forall k | HoldsPlace(signups, k) && signups[k].assignedRole.Some? ::
      && k.event in latest
      && SitsAs(slots, SlotKey(k.event, latest[k.event], k.character), signups[k].assignedRole.value)
  }

  predicate SitsAs(slots: map<SlotKey, Slot>, s: SlotKey, role: Role) {
    s in slots && !slots[s].isBench && slots[s].role == role
  }

  ghost predicate OneRequestEach(t: Tables) {
    && (forall id | id in t.requests :: t.requests[id].key in t.requestOf && t.requestOf[t.requests[id].key] == id)
    && (forall k | k in t.requestOf :: t.requestOf[k] in t.requests && t.requests[t.requestOf[k]].key == k)
  }

  ghost predicate Consistent(w: World) {
    && SlotsHaveComps(w.tables)
    && AssignedArePresent(w.tables)
    && RolesMatchLatest(w)
    && OneRequestEach(w.tables)
  }

  lemma AnsweredKeeps(w: World, k: SignupKey, a: Answer, now: int)
    requires k.event in w.tables.events && Consistent(w)
    ensures Consistent(World(Answered(w.tables, k, a, now), w.latest))
  {
  }

  lemma WithdrawnKeeps(w: World, k: SignupKey)
    requires k.event in w.tables.events && Consistent(w)
    ensures Consistent(World(Withdrawn(w.tables, k), w.latest))
  {
  }

  lemma {:induction false} BoardSlotsListed(c: CompKey, rows: seq<Assignment>, s: SlotKey)
    ensures s in BoardSlots(c, rows) ==>
      && SlotIn(s, c)
      && exists i :: 0 <= i < |rows| && rows[i].id == s.character
                     && BoardSlots(c, rows)[s] == Slot(rows[i].role, rows[i].slotIndex, rows[i].isBench, rows[i].reason)
    ensures SlotIn(s, c) && (exists i :: 0 <= i < |rows| && rows[i].id == s.character) ==> s in BoardSlots(c, rows)
  {
    if rows == [] {
    } else {
      var last, front := |rows| - 1, rows[..|rows| - 1];
      BoardSlotsListed(c, front, s);
      assert forall i | 0 <= i < last :: front[i] == rows[i];
      if s in BoardSlots(c, rows) {
        if s == SlotKey(c.event, c.name, rows[last].id) {
          assert rows[last].id == s.character;
        } else {
          var i :| 0 <= i < |front| && front[i].id == s.character
                   && BoardSlots(c, front)[s] == Slot(front[i].role, front[i].slotIndex, front[i].isBench,
                       front[i].reason);
          assert rows[i] == front[i];
        }
      }
    }
  }

  /** With one slot to a character, the role a board gives is the role of its seat. */
  lemma {:induction false} RoleGivenIsSeat(c: CompKey, rows: seq<Assignment>, id: CharacterId)
    requires forall i, j | 0 <= i < j < |rows| :: rows[i].id != rows[j].id
    ensures forall role :: RoleGiven(rows, id) == Some(role)
              <==> SitsAs(BoardSlots(c, rows), SlotKey(c.event, c.name, id), role)
  {
    if rows == [] {
    } else {
      var last, front := |rows| - 1, rows[..|rows| - 1];
      RoleGivenIsSeat(c, front, id);
      if rows[last].id == id {
        BoardSlotsListed(c, front, SlotKey(c.event, c.name, id));
      }
    }
  }

  lemma ReplaceKeeps(w: World, c: CompKey, mode: CompMode, rows: seq<Assignment>)
    requires Consistent(w)
    requires forall row | row in rows ::
      row.reason.ByRaidLead? || HoldsPlace(w.tables.signups, SignupKey(c.event, row.id))
    ensures var (after, outcome) := ReplaceStep(w.tables, c, mode, rows);
      outcome.Done? ==> Consistent(World(after, w.latest[c.event := c.name]))
  {
    var (after, outcome) := ReplaceStep(w.tables, c, mode, rows);
    if outcome.Done? {
      var next := World(after, w.latest[c.event := c.name]);
      var t := w.tables;
      forall s | s in after.slots
        ensures CompKey(s.event, s.comp) in after.comps
        ensures after.slots[s].reason.ByRaidLead? || HoldsPlace(after.signups, SignupKey(s.event, s.character))
      {
        BoardSlotsListed(c, rows, s);
      }
      forall k | HoldsPlace(after.signups, k) && after.signups[k].assignedRole.Some?
        ensures k.event in next.latest
        ensures SitsAs(after.slots, SlotKey(k.event, next.latest[k.event], k.character),
            after.signups[k].assignedRole.value)
      {
        if k.event == c.event {
          RoleGivenIsSeat(c, rows, k.character);
        } else {
          assert t.signups[k] == after.signups[k];
          assert HoldsPlace(t.signups, k);
          BoardSlotsListed(c, rows, SlotKey(k.event, next.latest[k.event], k.character));
        }
      }
    }
  }

  lemma SlotsRenamedAt(slots: map<SlotKey, Slot>, c: CompKey, to: CompName, s: SlotKey)
    requires to != c.name && forall x | x in slots :: !SlotIn(x, CompKey(c.event, to))
    ensures var was := if SlotIn(s, CompKey(c.event, to)) then s.(comp := c.name) else s;
      && (s in SlotsRenamed(slots, c, to) <==> was in slots && !SlotIn(s, c))
      && (s in SlotsRenamed(slots, c, to) ==> SlotsRenamed(slots, c, to)[s] == slots[was])
  {
  }

  lemma RenamedSlotsKeep(t: Tables, c: CompKey, name: CompName)
    requires SlotsHaveComps(t) && AssignedArePresent(t)
    requires RenameStep(t, c, name).1.Done? && TrimSpace(name) != c.name
    ensures SlotsHaveComps(RenameStep(t, c, name).0) && AssignedArePresent(RenameStep(t, c, name).0)
  {
    var after, to := RenameStep(t, c, name).0, TrimSpace(name);
    forall s | s in after.slots
      ensures CompKey(s.event, s.comp) in after.comps
      ensures after.slots[s].reason.ByRaidLead? || HoldsPlace(t.signups, SignupKey(s.event, s.character))
    {
      SlotsRenamedAt(t.slots, c, to, s);
    }
  }

  function Renamed(s: SlotKey, c: CompKey, to: CompName): SlotKey {
    if SlotIn(s, c) then s.(comp := to) else s
  }

  lemma RenamedSeat(slots: map<SlotKey, Slot>, c: CompKey, to: CompName, s: SlotKey, role: Role)
    requires to != c.name && forall x | x in slots :: !SlotIn(x, CompKey(c.event, to))
    requires SitsAs(slots, s, role)
    ensures SitsAs(SlotsRenamed(slots, c, to), Renamed(s, c, to), role)
  {
    SlotsRenamedAt(slots, c, to, Renamed(s, c, to));
  }

  function LatestRenamed(latest: map<EventId, CompName>, c: CompKey, to: CompName): map<EventId, CompName> {
    if c.event in latest && latest[c.event] == c.name then latest[c.event := to] else latest
  }

  lemma RolesFollowTheRename(signups: map<SignupKey, Signup>, slots: map<SlotKey, Slot>, latest: map<EventId, CompName>,
                             c: CompKey, to: CompName)
    requires RolesIn(signups, slots, latest)
    requires to != c.name && forall x | x in slots :: !SlotIn(x, CompKey(c.event, to))
    ensures RolesIn(signups, SlotsRenamed(slots, c, to), LatestRenamed(latest, c, to))
  {
    var renamed := LatestRenamed(latest, c, to);
    forall k | HoldsPlace(signups, k) && signups[k].assignedRole.Some?
      ensures k.event in renamed
      ensures SitsAs(SlotsRenamed(slots, c, to), SlotKey(k.event, renamed[k.event], k.character),
          signups[k].assignedRole.value)
    {
      RenamedSeat(slots, c, to, SlotKey(k.event, latest[k.event], k.character), signups[k].assignedRole.value);
    }
  }

  lemma RenameKeeps(w: World, c: CompKey, name: CompName)
    requires Consistent(w) && RenameStep(w.tables, c, name).1.Done?
    ensures Consistent(World(RenameStep(w.tables, c, name).0, Latest(w, Rename(c, name))))
  {
    if TrimSpace(name) != c.name {
      RenamedSlotsKeep(w.tables, c, name);
      RolesFollowTheRename(w.tables.signups, w.tables.slots, w.latest, c, TrimSpace(name));
    }
  }

  lemma PoolIsDistinct(t: Tables, event: EventId)
    requires event in t.events
    ensures DistinctIds(Listing(PoolOf(t, event)))
  {
    var xs := Listing(PoolOf(t, event));
    forall i, j | 0 <= i < j < |xs| ensures xs[i].id != xs[j].id {
      assert xs[i] in xs && xs[j] in xs;
    }
  }

  lemma PoolMembersArePresent(t: Tables, event: EventId, r: Raider)
    requires event in t.events && r in PoolOf(t, event)
    ensures HoldsPlace(t.signups, SignupKey(event, r.id)) && r.id in t.roster
  {
  }

  ghost predicate FromThePool(t: Tables, event: EventId, row: Assignment) {
    HoldsPlace(t.signups, SignupKey(event, row.id)) && row.id in t.roster && !row.reason.ByRaidLead?
  }

  /** A lock seats and benches nobody but members of the pool. */
  lemma LockedRowsAreFromThePool(t: Tables, event: EventId)
    requires event in t.events && t.events[event].template.Some?
    ensures forall row | row in LockedRows(t, event) :: FromThePool(t, event, row)
  {
    var pool, template, mode := Listing(PoolOf(t, event)), t.events[event].template.value, ModeFor(t.events[event]);
    var rows := LockedRows(t, event);
    assert rows == Board.AssignResult(pool, template, mode).assignments;
    PoolIsDistinct(t, event);
    var seated, ranks := LockIsWellFormed(pool, template, mode);
    PoolRows(t, event, pool, rows, seated, ranks);
  }

  lemma LockIsWellFormed(pool: seq<Raider>, t: Template, mode: Mode) returns (seated: nat, ranks: Placing.Ranks)
    requires DistinctIds(pool)
    ensures Board.WellFormed(Board.AssignResult(pool, t, mode).assignments, pool, seated, ranks)
  {
    Board.BoardIsWellFormed(pool, t, mode);
    var playable := FilterMap(pool, Board.Playable());
    seated, ranks := |Placing.Seating(playable, ResolvedNeeds(t, mode, |playable|))|, Placing.SignupRanks(playable);
  }

  lemma PoolRows(t: Tables, event: EventId, pool: seq<Raider>, rows: seq<Assignment>, seated: nat, ranks: Placing.Ranks)
    requires event in t.events && Board.WellFormed(rows, pool, seated, ranks)
    requires forall r | r in pool :: r in PoolOf(t, event)
    ensures forall row | row in rows :: FromThePool(t, event, row)
  {
    forall row | row in rows ensures FromThePool(t, event, row) {
      var i :| 0 <= i < |rows| && rows[i] == row;
      var r := Board.RowNamesRaider(rows, pool, seated, ranks, i);
      PoolMembersArePresent(t, event, r);
    }
  }

  lemma LockKeeps(w: World, c: CompKey)
    requires Consistent(w) && LockStep(w.tables, c).1.Done?
    ensures Consistent(World(LockStep(w.tables, c).0, w.latest[c.event := c.name]))
  {
    LockedRowsAreFromThePool(w.tables, c.event);
    assert forall row | row in LockedRows(w.tables, c.event) :: FromThePool(w.tables, c.event, row);
    ReplaceKeeps(w, c, Auto, LockedRows(w.tables, c.event));
  }

  lemma StepKeeps(w: World, op: Op, now: int)
    requires Consistent(w)
    ensures Consistent(Step(w, op, now))
  {
    var t := w.tables;
    if Apply(t, op, now).1.Done? {
      match op {
        case Write(k, a, _, _) => AnsweredKeeps(w, k, if a.status.Late? then a else a.(lateUntil := None), now);
        case Withdraw(k, _) => WithdrawnKeeps(w, k);
        case File(k, a, newId) => FileKeeps(w, k, a, newId, now);
        case Approve(id) => ApproveKeeps(w, id, now);
        case Reject(id) => RejectKeeps(w, id, now);
        case Lock(c) => LockKeeps(w, c);
        case Save(c, seats) => SaveKeeps(w, c, seats);
        case SetMode(c, mode) => SetModeKeeps(w, c, mode);
        case Rename(c, name) => RenameKeeps(w, c, name);
        case Resheet(id, s) => ResheetKeeps(w, id, s);
      }
    }
  }

  lemma RejectKeeps(w: World, id: RequestId, now: int)
    requires Consistent(w)
    ensures Consistent(World(RejectStep(w.tables, id, now).0, w.latest))
  {
  }

  lemma SetModeKeeps(w: World, c: CompKey, mode: CompMode)
    requires Consistent(w)
    ensures Consistent(World(SetModeStep(w.tables, c, mode).0, w.latest))
  {
  }

  lemma ResheetKeeps(w: World, id: CharacterId, s: Sheet)
    requires Consistent(w)
    ensures Consistent(World(ResheetStep(w.tables, id, s).0, w.latest))
  {
  }

  lemma SaveKeeps(w: World, c: CompKey, seats: seq<Seat>)
    requires Consistent(w) && SaveStep(w.tables, c, seats).1.Done?
    ensures Consistent(World(SaveStep(w.tables, c, seats).0, w.latest[c.event := c.name]))
  {
    ReplaceKeeps(w, c, Manual, ManualRows(seats));
  }

  lemma FileKeeps(w: World, k: SignupKey, a: Answer, newId: RequestId, now: int)
    requires Consistent(w)
    ensures Consistent(World(FileStep(w.tables, k, a, newId, now).0, w.latest))
  {
  }

  lemma ApproveKeeps(w: World, id: RequestId, now: int)
    requires Consistent(w) && ApproveStep(w.tables, id, now).1.Done?
    ensures Consistent(World(ApproveStep(w.tables, id, now).0, w.latest))
  {
    var req := w.tables.requests[id];
    AnsweredKeeps(w, req.key, req.answer, now);
  }

  /** In every state a run reaches, slots the assigner placed belong to raiders who are
      coming, and assigned roles are the seats of the board most recently written. */
  lemma {:induction false} RunsStayConsistent(w: World, ops: seq<(Op, int)>)
    requires Consistent(w)
    ensures Consistent(Run(w, ops))
  {
    if ops == [] {
    } else {
      RunsStayConsistent(w, ops[..|ops| - 1]);
      StepKeeps(Run(w, ops[..|ops| - 1]), ops[|ops| - 1].0, ops[|ops| - 1].1);
    }
  }

  /** A database with events and characters but no signups yet. */
  function Fresh(events: map<EventId, Event>, leads: LeadRoles, roster: map<CharacterId, Sheet>): World {
    World(Tables(events, leads, roster, map[], map[], map[], map[], map[], []), map[])
  }

  /** Every state a run reaches from such a database. */
  lemma ReachableIsConsistent(
    events: map<EventId, Event>, leads: LeadRoles, roster: map<CharacterId, Sheet>, ops: seq<(Op, int)>)
    ensures Consistent(Run(Fresh(events, leads, roster), ops))
  {
    RunsStayConsistent(Fresh(events, leads, roster), ops);
  }

  // ----- What a lock writes

  const POSITIONS := 0x1_0000

  /** The constraints of comp_slots accept a lock exactly when neither its seats nor its bench
      outnumber the positions a 16-bit index can tell apart. */
  lemma LockFitsExactlyTheIndex(t: Tables, event: EventId) returns (seated: nat)
    requires event in t.events && t.events[event].template.Some?
    ensures SeatsFirst(LockedRows(t, event), seated)
    ensures Insertable(t.roster, LockedRows(t, event))
        <==> seated <= POSITIONS && |LockedRows(t, event)| - seated <= POSITIONS
  {
    var pool, template, mode := Listing(PoolOf(t, event)), t.events[event].template.value, ModeFor(t.events[event]);
    PoolIsDistinct(t, event);
    LockedRowsAreFromThePool(t, event);
    var ranks;
    seated, ranks := LockIsWellFormed(pool, template, mode);
    InsertableExactlyOnFit(t, event, LockedRows(t, event), pool, seated, ranks);
  }

  /** The first rows, this many of them, are the seats, and the rest the bench. */
  ghost predicate SeatsFirst(rows: seq<Assignment>, seated: nat) {
    seated <= |rows| && forall i | 0 <= i < |rows| :: rows[i].isBench <==> seated <= i
  }

  lemma InsertableExactlyOnFit(
      t: Tables, event: EventId, rows: seq<Assignment>, pool: seq<Raider>, seated: nat, ranks: Placing.Ranks)
    requires Board.WellFormed(rows, pool, seated, ranks) && forall row | row in rows :: FromThePool(t, event, row)
    ensures SeatsFirst(rows, seated)
    ensures Insertable(t.roster, rows) <==> seated <= POSITIONS && |rows| - seated <= POSITIONS
  {
    RowsFitTheIndex(rows, pool, seated, ranks);
    forall i | 0 <= i < |rows| ensures rows[i].id in t.roster { assert FromThePool(t, event, rows[i]); }
  }

  predicate SamePosition(a: Assignment, b: Assignment) { a.isBench == b.isBench && a.slotIndex == b.slotIndex }

  lemma RowsFitTheIndex(rows: seq<Assignment>, pool: seq<Raider>, seated: nat, ranks: Placing.Ranks)
    requires Board.WellFormed(rows, pool, seated, ranks)
    ensures forall i | 0 <= i < |rows| :: rows[i].isBench <==> seated <= i
    ensures NoneClash(rows) <==> seated <= POSITIONS && |rows| - seated <= POSITIONS
  {
    if seated > POSITIONS {
      PositionOf(rows, pool, seated, ranks, 0);
      PositionOf(rows, pool, seated, ranks, POSITIONS);
      assert SamePosition(rows[0], rows[POSITIONS]);
    } else if |rows| - seated > POSITIONS {
      PositionOf(rows, pool, seated, ranks, seated);
      PositionOf(rows, pool, seated, ranks, seated + POSITIONS);
      assert SamePosition(rows[seated], rows[seated + POSITIONS]);
    } else {
      forall i, j | 0 <= i < j < |rows| && rows[i].isBench == rows[j].isBench
        ensures rows[i].slotIndex != rows[j].slotIndex
      {
        PositionOf(rows, pool, seated, ranks, i);
        PositionOf(rows, pool, seated, ranks, j);
      }
    }
  }

  lemma PositionOf(rows: seq<Assignment>, pool: seq<Raider>, seated: nat, ranks: Placing.Ranks, i: nat)
    requires Board.WellFormed(rows, pool, seated, ranks) && i < |rows|
    ensures rows[i].isBench <==> seated <= i
    ensures rows[i].slotIndex == Board.Int16(if seated <= i then i - seated else i)
  {
    var r := Board.RowNamesRaider(rows, pool, seated, ranks, i);
  }

  /** Right after a lock the comp holds a slot for each member of the pool with a role menu
      and for nobody else, and a raider is assigned a role exactly when that slot is a seat. */
  lemma LockHoldsThePool(t: Tables, c: CompKey, id: CharacterId)
    requires LockStep(t, c).1.Done?
    ensures var after := LockStep(t, c).0;
      var s, k := SlotKey(c.event, c.name, id), SignupKey(c.event, id);
      && (s in after.slots <==> Joins(t, k, c.event) && t.roster[id].roles != [])
      && (k in after.signups ==>
            forall role :: after.signups[k].assignedRole == Some(role) <==> SitsAs(after.slots, s, role))
  {
    var e := t.events[c.event];
    var pool := Listing(PoolOf(t, c.event));
    var rows := LockedRows(t, c.event);
    var s, k := SlotKey(c.event, c.name, id), SignupKey(c.event, id);
    PoolIsDistinct(t, c.event);
    var seated, ranks := LockIsWellFormed(pool, e.template.value, ModeFor(e));
    BoardSlotsListed(c, rows, s);
    RoleGivenIsSeat(c, rows, id);
    if Joins(t, k, c.event) {
      var r := RaiderOf(e, id, t.roster[id], t.signups[k].createdAt);
      assert k in t.signups && r in PoolOf(t, c.event);
      assert Board.HasRow(rows, r.id) <==> r.roles != [];
    }
    if Board.HasRow(rows, id) {
      var i :| 0 <= i < |rows| && rows[i].id == id;
      assert rows[i] in rows;
      LockedRowsAreFromThePool(t, c.event);
      assert FromThePool(t, c.event, rows[i]);
    }
  }

  // ----- Nobody leaves a board unannounced

  /** The notice that a character lost their slot in this comp. */
  predicate Announces(n: Notice, s: SlotKey) {
    && n.kind.CompSlotDropped? && n.event == s.event
    && n.payload.SlotsDropped? && n.payload.character == s.character && s.comp in n.payload.comps
  }

  /** Operations that rewrite a whole comp, or move it to another name. */
  predicate RewritesComp(op: Op, s: SlotKey) {
    ((op.Lock? || op.Save?) && SlotIn(s, op.c)) || (op.Rename? && SlotIn(s, op.c))
  }

  /** What this step queues. */
  ghost function Queued(t: Tables, after: Tables): seq<Notice> {
    if t.outbox <= after.outbox then after.outbox[|t.outbox|..] else []
  }

  /** The slot goes if and only if a notice naming it is queued. */
  ghost predicate LosesExactlyWhatIsAnnounced(t: Tables, after: Tables, s: SlotKey) {
    s in t.slots && s !in after.slots <==> exists n :: n in Queued(t, after) && Announces(n, s)
  }

  lemma EvictionIsAnnounced(
    leads: LeadRoles, e: Event, k: SignupKey, left: Option<Status>, signups: map<SignupKey, Signup>,
    slots: map<SlotKey, Slot>, s: SlotKey)
    requires k.event == s.event ==> e.channel.Some?
    ensures (exists n :: n in DroppedNotices(leads, e, k, left, Evicted(signups, slots, k)) && Announces(n, s))
        <==> s in slots && s !in Remaining(signups, slots, k)
  {
    var notices := DroppedNotices(leads, e, k, left, Evicted(signups, slots, k));
    if s in slots && s !in Remaining(signups, slots, k) {
      assert s.comp in Evicted(signups, slots, k);
      assert notices[0] in notices && Announces(notices[0], s);
    }
    if n :| n in notices && Announces(n, s) {
      var x :| x in slots && SlotOf(x, k) && x.comp == s.comp;
      assert x == s;
    }
  }

  lemma AnsweredAnnounces(t: Tables, k: SignupKey, a: Answer, now: int, s: SlotKey)
    requires k.event in t.events && (k.event == s.event ==> t.events[k.event].channel.Some?)
    ensures t.outbox <= Answered(t, k, a, now).outbox && LosesExactlyWhatIsAnnounced(t, Answered(t, k, a, now), s)
  {
    var e, signups := t.events[k.event], t.signups[k := Upserted(t.signups, k, a, now)];
    EvictionIsAnnounced(t.leads, e, k, Some(a.status), signups, t.slots, s);
    var dropped := DroppedNotices(t.leads, e, k, Some(a.status), Evicted(signups, t.slots, k));
    QueuedSplit(t.outbox, SignupChangedNotices(e, k.event), dropped, s);
  }

  lemma QueuedSplit(before: seq<Notice>, changed: seq<Notice>, dropped: seq<Notice>, s: SlotKey)
    requires forall n | n in changed :: !n.kind.CompSlotDropped?
    ensures (before + changed + dropped)[|before|..] == changed + dropped
    ensures (exists n :: n in changed + dropped && Announces(n, s)) <==> exists n :: n in dropped && Announces(n, s)
  {
    assert forall n :: n in changed + dropped <==> n in changed || n in dropped;
  }

  lemma WithdrawnAnnounces(t: Tables, k: SignupKey, s: SlotKey)
    requires k.event in t.events && (k.event == s.event ==> t.events[k.event].channel.Some?)
    ensures t.outbox <= Withdrawn(t, k).outbox && LosesExactlyWhatIsAnnounced(t, Withdrawn(t, k), s)
  {
    var e, signups := t.events[k.event], t.signups - {k};
    EvictionIsAnnounced(t.leads, e, k, None, signups, t.slots, s);
    var dropped := DroppedNotices(t.leads, e, k, None, Evicted(signups, t.slots, k));
    QueuedSplit(t.outbox, SignupChangedNotices(e, k.event), dropped, s);
  }

  /** On an event with a channel, a signup operation takes a slot out of a comp if and only if
      it queues the notice naming that character and that comp. */
  lemma LostSlotsAreAnnounced(t: Tables, op: Op, now: int, s: SlotKey)
    requires op.Write? || op.Withdraw? || op.Approve?
    requires s.event in t.events ==> t.events[s.event].channel.Some?
    ensures LosesExactlyWhatIsAnnounced(t, Apply(t, op, now).0, s)
  {
    match op {
      case Write(k, a, owned, isRaidLead) => WriteAnnounces(t, k, a, owned, isRaidLead, now, s);
      case Withdraw(k, isRaidLead) =>
        if WithdrawStep(t, k, isRaidLead, now).1.Done? { WithdrawnAnnounces(t, k, s); }
      case Approve(id) => ApproveAnnounces(t, id, now, s);
    }
  }

  lemma WriteAnnounces(t: Tables, k: SignupKey, a: Answer, owned: bool, isRaidLead: bool, now: int, s: SlotKey)
    requires s.event in t.events ==> t.events[s.event].channel.Some?
    ensures LosesExactlyWhatIsAnnounced(t, WriteStep(t, k, a, owned, isRaidLead, now).0, s)
  {
    if WriteStep(t, k, a, owned, isRaidLead, now).1.Done? {
      AnsweredAnnounces(t, k, if a.status.Late? then a else a.(lateUntil := None), now, s);
    }
  }

  lemma ApproveAnnounces(t: Tables, id: RequestId, now: int, s: SlotKey)
    requires s.event in t.events ==> t.events[s.event].channel.Some?
    ensures LosesExactlyWhatIsAnnounced(t, ApproveStep(t, id, now).0, s)
  {
    if ApproveStep(t, id, now).1.Done? {
      AnsweredAnnounces(t, t.requests[id].key, t.requests[id].answer, now, s);
    }
  }

  lemma OthersKeepSlots(t: Tables, c: CompKey, mode: CompMode, rows: seq<Assignment>, s: SlotKey)
    requires s in t.slots && !SlotIn(s, c)
    ensures s in ReplaceStep(t, c, mode, rows).0.slots && ReplaceStep(t, c, mode, rows).0.slots[s] == t.slots[s]
  {
    if ReplaceStep(t, c, mode, rows).1.Done? { BoardSlotsListed(c, rows, s); }
  }

  /** Any other operation leaves every slot of every comp it does not rewrite. */
  lemma OtherSlotsStay(t: Tables, op: Op, now: int, s: SlotKey)
    requires s in t.slots && !RewritesComp(op, s) && !(op.Write? || op.Withdraw? || op.Approve?)
    requires op.Rename? ==> !SlotIn(s, CompKey(op.c.event, TrimSpace(op.name)))
    ensures s in Apply(t, op, now).0.slots && Apply(t, op, now).0.slots[s] == t.slots[s]
  {
    match op {
      case Lock(c) =>
        if LockStep(t, c).1.Done? { OthersKeepSlots(t, c, Auto, LockedRows(t, c.event), s); }
      case Save(c, seats) =>
        if SaveStep(t, c, seats).1.Done? { OthersKeepSlots(t, c, Manual, ManualRows(seats), s); }
      case _ =>
    }
  }

  // ----- Decisions a raid lead made

  /** A decision stands: a decided request changes only by being filed again. */
  lemma DecisionsStand(t: Tables, op: Op, now: int, id: RequestId)
    requires OneRequestEach(t) && id in t.requests && !t.requests[id].state.Pending?
    requires op.File? ==> op.k != t.requests[id].key
    ensures id in Apply(t, op, now).0.requests && Apply(t, op, now).0.requests[id] == t.requests[id]
  {
  }

  // ----- Who can still change a signup

  function StatusAt(t: Tables, k: SignupKey): Option<Status> {
    if k in t.signups then Some(t.signups[k].answer.status) else None
  }

  /** The clock's say in a write: a raid lead is never late, and LATE and ABSENT stay open
      until the pull. */
  predicate StillOpen(e: Event, status: Option<Status>, isRaidLead: bool, now: int) {
    isRaidLead || now <= e.deadline || (now < e.startsAt && (status == Some(Late) || status == Some(Absent)))
  }

  /** Whose status it is to write: one's own answer before the start, a no-show otherwise. */
  predicate TheirsToWrite(status: Status, owned: bool, isRaidLead: bool, started: bool) {
    if owned && !started then !status.NoShow? else isRaidLead && status.NoShow?
  }

  predicate MayWrite(e: Event, status: Status, owned: bool, isRaidLead: bool, now: int) {
    && TheirsToWrite(status, owned, isRaidLead, Started(e, now))
    && StillOpen(e, Some(status), isRaidLead, now)
  }

  predicate MayWithdraw(e: Event, isRaidLead: bool, now: int) {
    !Started(e, now) && StillOpen(e, None, isRaidLead, now)
  }

  lemma ListedStatus(status: Status, owned: bool, isRaidLead: bool, started: bool)
    ensures status in AllowedStatuses(owned, isRaidLead, started) <==> TheirsToWrite(status, owned, isRaidLead, started)
  {
    assert SELF_REPORTED[0].Confirmed? && SELF_REPORTED[1].Tentative? && SELF_REPORTED[2].Declined?
        && SELF_REPORTED[3].Late? && SELF_REPORTED[4].Absent?;
  }

  /** A write goes through exactly when the event and the character exist, the status is the
      caller's to write, and the clock still allows it. */
  lemma WriteGoesThrough(t: Tables, k: SignupKey, a: Answer, owned: bool, isRaidLead: bool, now: int)
    ensures WriteStep(t, k, a, owned, isRaidLead, now).1.Done?
        <==> k.event in t.events && k.character in t.roster
              && MayWrite(t.events[k.event], a.status, owned, isRaidLead, now)
  {
    if k.event in t.events { ListedStatus(a.status, owned, isRaidLead, Started(t.events[k.event], now)); }
  }

  /** Why a signup's status changed, if it did: these three are the only ways. */
  predicate Explains(t: Tables, op: Op, now: int, k: SignupKey, to: Option<Status>)
    requires k.event in t.events
  {
    var e := t.events[k.event];
    match op
    case Write(wk, a, owned, isRaidLead) =>
      wk == k && to == Some(a.status) && MayWrite(e, a.status, owned, isRaidLead, now)
    case Withdraw(wk, isRaidLead) =>
      wk == k && to == None && MayWithdraw(e, isRaidLead, now)
    case Approve(id) =>
      id in t.requests && t.requests[id].state.Pending? && t.requests[id].key == k
      && to == Some(t.requests[id].answer.status) && !Started(e, now)
    case _ => false
  }

  lemma BoardsLeaveStatuses(t: Tables, c: CompKey, mode: CompMode, rows: seq<Assignment>, k: SignupKey)
    ensures StatusAt(ReplaceStep(t, c, mode, rows).0, k) == StatusAt(t, k)
  {
  }

  lemma AnsweredChangesOne(t: Tables, wk: SignupKey, a: Answer, now: int, k: SignupKey)
    requires wk.event in t.events
    ensures StatusAt(Answered(t, wk, a, now), k) == if k == wk then Some(a.status) else StatusAt(t, k)
  {
  }

  lemma WriteExplained(t: Tables, wk: SignupKey, a: Answer, owned: bool, isRaidLead: bool, now: int, k: SignupKey)
    requires StatusAt(WriteStep(t, wk, a, owned, isRaidLead, now).0, k) != StatusAt(t, k)
    ensures wk == k && k.event in t.events && MayWrite(t.events[k.event], a.status, owned, isRaidLead, now)
    ensures StatusAt(WriteStep(t, wk, a, owned, isRaidLead, now).0, k) == Some(a.status)
  {
    WriteGoesThrough(t, wk, a, owned, isRaidLead, now);
    if wk.event in t.events {
      AnsweredChangesOne(t, wk, if a.status.Late? then a else a.(lateUntil := None), now, k);
    }
  }

  lemma ApproveExplained(t: Tables, id: RequestId, now: int, k: SignupKey)
    requires StatusAt(ApproveStep(t, id, now).0, k) != StatusAt(t, k)
    ensures k.event in t.events && Explains(t, Approve(id), now, k, StatusAt(ApproveStep(t, id, now).0, k))
  {
    var req := t.requests[id];
    AnsweredChangesOne(t, req.key, req.answer, now, k);
  }

  /** A status changes only by a write or a withdrawal the gates let through, or by the
      approval, before the start, of a pending request for that very status. */
  lemma OnlyThesePathsChangeASignup(t: Tables, op: Op, now: int, k: SignupKey)
    requires StatusAt(Apply(t, op, now).0, k) != StatusAt(t, k)
    ensures k.event in t.events && Explains(t, op, now, k, StatusAt(Apply(t, op, now).0, k))
  {
    match op {
      case Write(wk, a, owned, isRaidLead) => WriteExplained(t, wk, a, owned, isRaidLead, now, k);
      case Approve(id) => ApproveExplained(t, id, now, k);
      case Lock(c) =>
        if LockStep(t, c).1.Done? { BoardsLeaveStatuses(t, c, Auto, LockedRows(t, c.event), k); }
      case Save(c, seats) =>
        if SaveStep(t, c, seats).1.Done? { BoardsLeaveStatuses(t, c, Manual, ManualRows(seats), k); }
      case _ =>
    }
  }

  /** Past the deadline, a raider with no raid lead behind them moves a signup only to LATE
      or ABSENT, before the start; anything else they want is a request somebody approves. */
  lemma AfterTheDeadline(t: Tables, op: Op, now: int, k: SignupKey)
    requires k.event in t.events && t.events[k.event].deadline < now
    requires StatusAt(Apply(t, op, now).0, k) != StatusAt(t, k)
    requires op.Write? || op.Withdraw? ==> !op.isRaidLead
    ensures now < t.events[k.event].startsAt
    ensures op.Approve? || StatusAt(Apply(t, op, now).0, k) in {Some(Late), Some(Absent)}
  {
    OnlyThesePathsChangeASignup(t, op, now, k);
  }

  // ----- How late

  predicate LateUntilMeansLate(a: Answer) { a.lateUntil.Some? ==> a.status.Late? }

  /** late_until is set only beside LATE, on every signup. */
  ghost predicate LateUntilTidy(t: Tables) {
    forall k | k in t.signups :: LateUntilMeansLate(t.signups[k].answer)
  }

  /** A request carrying a time with some other status is filed and approved as it stands. */
  predicate ApprovesUntidy(t: Tables, op: Op) {
    op.Approve? && op.id in t.requests && !LateUntilMeansLate(t.requests[op.id].answer)
  }

  lemma BoardsLeaveAnswers(t: Tables, c: CompKey, mode: CompMode, rows: seq<Assignment>)
    requires LateUntilTidy(t)
    ensures LateUntilTidy(ReplaceStep(t, c, mode, rows).0)
  {
  }

  lemma AnsweredTidies(t: Tables, k: SignupKey, a: Answer, now: int)
    requires LateUntilTidy(t) && k.event in t.events
    ensures LateUntilTidy(Answered(t, k, a, now)) <==> LateUntilMeansLate(a)
  {
    assert k in Answered(t, k, a, now).signups;
  }

  /** The rule that late_until belongs to LATE is kept by every operation but the approval of
      such a request, which always breaks it. */
  lemma LateUntilIsKeptUnlessApprovedAsFiled(t: Tables, op: Op, now: int)
    requires LateUntilTidy(t) && Apply(t, op, now).1.Done?
    ensures LateUntilTidy(Apply(t, op, now).0) <==> !ApprovesUntidy(t, op)
  {
    match op {
      case Lock(c) => BoardsLeaveAnswers(t, c, Auto, LockedRows(t, c.event));
      case Save(c, seats) => BoardsLeaveAnswers(t, c, Manual, ManualRows(seats));
      case Write(k, a, _, _) => AnsweredTidies(t, k, if a.status.Late? then a else a.(lateUntil := None), now);
      case Approve(id) => AnsweredTidies(t, t.requests[id].key, t.requests[id].answer, now);
      case _ =>
    }
  }

  lemma RunOfTwo(w: World, first: (Op, int), second: (Op, int))
    ensures Run(w, [first, second]) == Step(Step(w, first.0, first.1), second.0, second.1)
  {
    assert [first, second][..1] == [first] && [first][..0] == [];
    assert Run(w, [first]) == Step(Run(w, []), first.0, first.1);
  }

  /** Such a run: a request for TENTATIVE that names a time is filed, then approved before the
      start, on a database that held no signup. */
  lemma LateUntilOutlivesLate(
    events: map<EventId, Event>, leads: LeadRoles, roster: map<CharacterId, Sheet>,
    k: SignupKey, until: int, filed: int, approved: int)
    requires k.event in events && k.character in roster
    requires filed <= approved < events[k.event].startsAt
    ensures var a := Answer(Tentative, None, Some(until));
      var ops := [(File(k, a, 7), filed), (Approve(7), approved)];
      !LateUntilTidy(Run(Fresh(events, leads, roster), ops).tables)
  {
    var a := Answer(Tentative, None, Some(until));
    var ops := [(File(k, a, 7), filed), (Approve(7), approved)];
    var start := Fresh(events, leads, roster);
    RunOfTwo(start, ops[0], ops[1]);
    var one := Step(start, File(k, a, 7), filed);
    assert one.tables.requests[7] == LateRequest(k, a, Pending, filed, None);
    LateUntilIsKeptUnlessApprovedAsFiled(one.tables, Approve(7), approved);
  }

  // ----- After the start

  /** No signup of the event is gone, and each has the status it had or is a no-show. */
  ghost predicate OnlyNoShows(before: Tables, after: Tables, event: EventId) {
    forall k: SignupKey | k.event == event ::
      StatusAt(after, k) == StatusAt(before, k) || StatusAt(after, k) == Some(NoShow)
  }

  lemma EventsStay(t: Tables, op: Op, now: int)
    ensures Apply(t, op, now).0.events == t.events
  {
  }

  lemma StartedStep(w: World, op: Op, now: int, event: EventId)
    requires event in w.tables.events && Started(w.tables.events[event], now)
    ensures OnlyNoShows(w.tables, Step(w, op, now).tables, event)
  {
    forall k: SignupKey | k.event == event
      ensures StatusAt(Step(w, op, now).tables, k) == StatusAt(w.tables, k)
           || StatusAt(Step(w, op, now).tables, k) == Some(NoShow)
    {
      if StatusAt(Apply(w.tables, op, now).0, k) != StatusAt(w.tables, k) {
        OnlyThesePathsChangeASignup(w.tables, op, now, k);
      }
    }
  }

  /** Over any run whose clock has passed the start: nothing anyone signed up is removed,
      and the only status that appears is NO_SHOW, which never goes away again. */
  lemma {:induction false} StartedEventsOnlyRecordNoShows(w: World, ops: seq<(Op, int)>, event: EventId)
    requires event in w.tables.events
    requires forall i | 0 <= i < |ops| :: Started(w.tables.events[event], ops[i].1)
    ensures Run(w, ops).tables.events == w.tables.events
    ensures OnlyNoShows(w.tables, Run(w, ops).tables, event)
  {
    if ops == [] {
    } else {
      var front, op, now := ops[..|ops| - 1], ops[|ops| - 1].0, ops[|ops| - 1].1;
      assert forall i | 0 <= i < |front| :: ops[i] == front[i];
      StartedEventsOnlyRecordNoShows(w, front, event);
      var mid := Run(w, front);
      EventsStay(mid.tables, op, now);
      StartedStep(mid, op, now, event);
    }
  }
}
