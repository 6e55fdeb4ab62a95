/** signups.assigned_role: exactly who has the role of their seat assigned. */
module AssignedRoles {
  import opened Options
  import opened Comp
  import opened Notices
  import opened Tables
  import opened Runs
  import ManualBoards

  /** The role k sits in on the board most recently written for its event, if it sits at all. */
  function SeatIn(slots: map<SlotKey, Slot>, latest: map<EventId, CompName>, k: SignupKey): Option<Role> {
    if k.event in latest && SlotKey(k.event, latest[k.event], k.character) in slots
    then
      var slot := slots[SlotKey(k.event, latest[k.event], k.character)];
      if slot.isBench then None else Some(slot.role)
    else None
  }

  function SeatOf(w: World, k: SignupKey): Option<Role> { SeatIn(w.tables.slots, w.latest, k) }

  ghost predicate WritesBoard(w: World, op: Op, now: int, event: EventId) {
    (op.Lock? || op.Save?) && op.c.event == event && Apply(w.tables, op, now).1.Done?
  }

  /** The status of k has changed since the board of its event was last written. */
  ghost predicate MovedSince(w: World, ops: seq<(Op, int)>, k: SignupKey) {
    ops != [] &&
    var mid, last := Run(w, ops[..|ops| - 1]), ops[|ops| - 1];
    && !WritesBoard(mid, last.0, last.1, k.event)
    && (MovedSince(w, ops[..|ops| - 1], k)
        || StatusAt(Run(w, ops).tables, k) != StatusAt(mid.tables, k))
  }

  ghost predicate AllListed(latest: map<EventId, CompName>, comps: map<CompKey, CompMode>) {
    forall event | event in latest :: CompKey(event, latest[event]) in comps
  }

  ghost predicate LatestHasComp(w: World) { AllListed(w.latest, w.tables.comps) }

  // ----- One operation

  lemma BoardGivesSeats(w: World, c: CompKey, mode: CompMode, rows: seq<Assignment>, k: SignupKey)
    requires ReplaceStep(w.tables, c, mode, rows).1.Done? && k.event == c.event
    requires k in ReplaceStep(w.tables, c, mode, rows).0.signups
    ensures var after := ReplaceStep(w.tables, c, mode, rows).0;
      after.signups[k].assignedRole == SeatIn(after.slots, w.latest[c.event := c.name], k)
  {
    var s := SlotKey(c.event, c.name, k.character);
    RoleGivenIsSeat(c, rows, k.character);
    var after := ReplaceStep(w.tables, c, mode, rows).0;
    assert s in after.slots <==> s in BoardSlots(c, rows);
    var seat := SeatIn(after.slots, w.latest[c.event := c.name], k);
    assert after.signups[k].assignedRole == RoleGiven(rows, k.character);
    if seat.Some? { assert SitsAs(BoardSlots(c, rows), s, seat.value); }
    if RoleGiven(rows, k.character).Some? {
      assert SitsAs(BoardSlots(c, rows), s, RoleGiven(rows, k.character).value);
    }
  }

  /** The signup's role, and the seat behind it, are as they were. */
  ghost predicate RoleStays(w: World, after: World, k: SignupKey) {
    && HoldsPlace(w.tables.signups, k) && HoldsPlace(after.tables.signups, k)
    && after.tables.signups[k].assignedRole == w.tables.signups[k].assignedRole
    && SeatOf(after, k) == SeatOf(w, k)
  }

  lemma BoardElsewhereKeepsRole(w: World, c: CompKey, mode: CompMode, rows: seq<Assignment>, k: SignupKey)
    requires ReplaceStep(w.tables, c, mode, rows).1.Done? && k.event != c.event && HoldsPlace(w.tables.signups, k)
    ensures RoleStays(w, World(ReplaceStep(w.tables, c, mode, rows).0, w.latest[c.event := c.name]), k)
  {
    if k.event in w.latest {
      BoardSlotsListed(c, rows, SlotKey(k.event, w.latest[k.event], k.character));
    }
  }

  lemma AnsweredKeepsRole(w: World, wk: SignupKey, a: Answer, now: int, k: SignupKey)
    requires wk.event in w.tables.events && HoldsPlace(Answered(w.tables, wk, a, now).signups, k)
    ensures var after := World(Answered(w.tables, wk, a, now), w.latest);
      if StatusAt(after.tables, k) == StatusAt(w.tables, k) then RoleStays(w, after, k)
      else after.tables.signups[k].assignedRole == None
  {
  }

  lemma WithdrawnKeepsRole(w: World, wk: SignupKey, k: SignupKey)
    requires wk.event in w.tables.events && HoldsPlace(Withdrawn(w.tables, wk).signups, k)
    ensures RoleStays(w, World(Withdrawn(w.tables, wk), w.latest), k)
  {
  }

  lemma RenameKeepsRole(w: World, c: CompKey, name: CompName, k: SignupKey)
    requires SlotsHaveComps(w.tables) && LatestHasComp(w) && HoldsPlace(w.tables.signups, k)
    requires RenameStep(w.tables, c, name).1.Done?
    ensures RoleStays(w, World(RenameStep(w.tables, c, name).0, Latest(w, Rename(c, name))), k)
  {
    var to := TrimSpace(name);
    if to != c.name && k.event in w.latest {
      var s := SlotKey(k.event, w.latest[k.event], k.character);
      var now := SlotKey(k.event, LatestRenamed(w.latest, c, to)[k.event], k.character);
      assert CompKey(k.event, w.latest[k.event]) in w.tables.comps;
      SlotsRenamedAt(w.tables.slots, c, to, now);
    }
  }

  lemma OthersKeepRole(w: World, op: Op, now: int, k: SignupKey)
    requires op.File? || op.Reject? || op.SetMode? || op.Resheet?
    requires HoldsPlace(Step(w, op, now).tables.signups, k)
    ensures RoleStays(w, Step(w, op, now), k)
  {
  }

  /** What one operation does to the assigned role of a raider who holds a place after it. */
  ghost predicate RoleFollows(w: World, op: Op, now: int, k: SignupKey) {
    var after := Step(w, op, now);
    HoldsPlace(after.tables.signups, k) ==>
      if WritesBoard(w, op, now, k.event) then after.tables.signups[k].assignedRole == SeatOf(after, k)
      else if StatusAt(after.tables, k) == StatusAt(w.tables, k) then RoleStays(w, after, k)
      else after.tables.signups[k].assignedRole == None
  }

  lemma BoardFollows(w: World, op: Op, now: int, k: SignupKey)
    requires op.Lock? || op.Save?
    ensures RoleFollows(w, op, now, k)
  {
    if Apply(w.tables, op, now).1.Done? && HoldsPlace(Step(w, op, now).tables.signups, k) {
      var rows := if op.Lock? then LockedRows(w.tables, op.c.event) else ManualRows(op.seats);
      var mode := if op.Lock? then Auto else Manual;
      assert Apply(w.tables, op, now) == ReplaceStep(w.tables, op.c, mode, rows);
      if op.c.event == k.event {
        BoardGivesSeats(w, op.c, mode, rows, k);
      } else {
        assert HoldsPlace(w.tables.signups, k);
        BoardElsewhereKeepsRole(w, op.c, mode, rows, k);
      }
    }
  }

  lemma SignupFollows(w: World, op: Op, now: int, k: SignupKey)
    requires op.Write? || op.Withdraw? || op.Approve?
    ensures RoleFollows(w, op, now, k)
  {
    if Apply(w.tables, op, now).1.Done? && HoldsPlace(Step(w, op, now).tables.signups, k) {
      match op {
        case Write(wk, a, _, _) =>
          AnsweredKeepsRole(w, wk, if a.status.Late? then a else a.(lateUntil := None), now, k);
        case Withdraw(wk, _) => WithdrawnKeepsRole(w, wk, k);
        case Approve(id) => AnsweredKeepsRole(w, w.tables.requests[id].key, w.tables.requests[id].answer, now, k);
      }
    }
  }

  lemma StepFollows(w: World, op: Op, now: int, k: SignupKey)
    requires SlotsHaveComps(w.tables) && LatestHasComp(w)
    ensures RoleFollows(w, op, now, k)
  {
    if op.Lock? || op.Save? {
      BoardFollows(w, op, now, k);
    } else if op.Write? || op.Withdraw? || op.Approve? {
      SignupFollows(w, op, now, k);
    } else if op.Rename? {
      RenameFollows(w, op, now, k);
    } else if HoldsPlace(Step(w, op, now).tables.signups, k) {
      OthersKeepRole(w, op, now, k);
    }
  }

  lemma RenameFollows(w: World, op: Op, now: int, k: SignupKey)
    requires op.Rename? && SlotsHaveComps(w.tables) && LatestHasComp(w)
    ensures RoleFollows(w, op, now, k)
  {
    if RenameStep(w.tables, op.c, op.name).1.Done? && HoldsPlace(w.tables.signups, k) {
      RenameKeepsRole(w, op.c, op.name, k);
    }
  }

  // ----- Over runs

  lemma BoardKeepsLatest(w: World, c: CompKey, mode: CompMode, rows: seq<Assignment>)
    requires LatestHasComp(w) && ReplaceStep(w.tables, c, mode, rows).1.Done?
    ensures LatestHasComp(World(ReplaceStep(w.tables, c, mode, rows).0, w.latest[c.event := c.name]))
  {
  }

  lemma LatestFollowsTheComp(
    latest: map<EventId, CompName>, comps: map<CompKey, CompMode>, c: CompKey, to: CompName)
    requires AllListed(latest, comps) && c in comps
    ensures AllListed(LatestRenamed(latest, c, to), (comps - {c})[CompKey(c.event, to) := comps[c]])
  {
    var renamed := LatestRenamed(latest, c, to);
    forall event | event in renamed
      ensures CompKey(event, renamed[event]) in (comps - {c})[CompKey(c.event, to) := comps[c]]
    {
      assert CompKey(event, latest[event]) in comps;
    }
  }

  lemma RenameKeepsLatest(w: World, c: CompKey, name: CompName)
    requires LatestHasComp(w) && RenameStep(w.tables, c, name).1.Done?
    ensures LatestHasComp(World(RenameStep(w.tables, c, name).0, Latest(w, Rename(c, name))))
  {
    var to := TrimSpace(name);
    var after := RenameStep(w.tables, c, name).0;
    assert AllListed(w.latest, w.tables.comps);
    if to != c.name {
      assert after.comps == (w.tables.comps - {c})[CompKey(c.event, to) := w.tables.comps[c]];
      LatestFollowsTheComp(w.latest, w.tables.comps, c, to);
    }
    assert AllListed(LatestRenamed(w.latest, c, to), after.comps);
  }

  lemma CompsStay(t: Tables, op: Op, now: int)
    requires op.File? || op.Reject? || op.SetMode? || op.Resheet?
    ensures Apply(t, op, now).0.comps.Keys == t.comps.Keys
  {
  }

  lemma SameCompsKeepLatest(w: World, after: World)
    requires LatestHasComp(w) && after.latest == w.latest && after.tables.comps.Keys == w.tables.comps.Keys
    ensures LatestHasComp(after)
  {
    forall event | event in after.latest ensures CompKey(event, after.latest[event]) in after.tables.comps {
      assert CompKey(event, w.latest[event]) in w.tables.comps.Keys;
    }
  }

  lemma LatestKeepsComp(w: World, op: Op, now: int)
    requires LatestHasComp(w)
    ensures LatestHasComp(Step(w, op, now))
  {
    var t := w.tables;
    if Apply(t, op, now).1.Done? {
      if op.Lock? {
        BoardKeepsLatest(w, op.c, Auto, LockedRows(t, op.c.event));
      } else if op.Save? {
        BoardKeepsLatest(w, op.c, Manual, ManualRows(op.seats));
      } else if op.Rename? {
        RenameKeepsLatest(w, op.c, op.name);
      } else {
        OthersKeepLatest(w, op, now);
      }
    }
  }

  lemma OthersKeepLatest(w: World, op: Op, now: int)
    requires LatestHasComp(w) && !op.Lock? && !op.Save? && !op.Rename?
    ensures LatestHasComp(World(Apply(w.tables, op, now).0, w.latest))
  {
    if op.Write? || op.Withdraw? || op.Approve? {
      ManualBoards.SignupsTakeOut(w.tables, op, now, SlotKey(0, "", 0));
    } else {
      CompsStay(w.tables, op, now);
    }
    SameCompsKeepLatest(w, World(Apply(w.tables, op, now).0, w.latest));
  }

  lemma {:induction false} RunsKeepLatest(w: World, ops: seq<(Op, int)>)
    requires LatestHasComp(w)
    ensures LatestHasComp(Run(w, ops))
  {
    if ops == [] {
    } else {
      RunsKeepLatest(w, ops[..|ops| - 1]);
      LatestKeepsComp(Run(w, ops[..|ops| - 1]), ops[|ops| - 1].0, ops[|ops| - 1].1);
    }
  }

  /** Everybody holding a place has the role of their seat assigned, if they have a seat. */
  ghost predicate RolesAreSeats(w: World) {
    forall k | HoldsPlace(w.tables.signups, k) :: w.tables.signups[k].assignedRole == SeatOf(w, k)
  }

  /** Over any run, a raider holding a place has the role of their seat in the latest board
      assigned exactly as long as their status has not changed since that board was written:
      once it has, they have none, whether or not they still hold the seat. */
  lemma {:induction false} RolesLastUntilMoved(w: World, ops: seq<(Op, int)>, k: SignupKey)
    requires Consistent(w) && LatestHasComp(w) && RolesAreSeats(w)
    requires HoldsPlace(Run(w, ops).tables.signups, k)
    ensures Run(w, ops).tables.signups[k].assignedRole
         == if MovedSince(w, ops, k) then None else SeatOf(Run(w, ops), k)
  {
    if ops == [] {
    } else {
      var front, last := ops[..|ops| - 1], ops[|ops| - 1];
      var mid := Run(w, front);
      RunsStayConsistent(w, front);
      RunsKeepLatest(w, front);
      StepFollows(mid, last.0, last.1, k);
      if !WritesBoard(mid, last.0, last.1, k.event) && StatusAt(Run(w, ops).tables, k) == StatusAt(mid.tables, k) {
        RolesLastUntilMoved(w, front, k);
      }
    }
  }

  /** In every state a run reaches from a database without signups: the holder of a seat in the
      latest board who still holds a place has its role assigned if and only if their status
      has not changed since. */
  lemma SeatedExactlyUntilMoved(
    events: map<EventId, Event>, leads: LeadRoles, roster: map<CharacterId, Sheet>, ops: seq<(Op, int)>, k: SignupKey)
    requires var w := Run(Fresh(events, leads, roster), ops);
      HoldsPlace(w.tables.signups, k) && SeatOf(w, k).Some?
    ensures var start := Fresh(events, leads, roster);
      Run(start, ops).tables.signups[k].assignedRole == SeatOf(Run(start, ops), k) <==> !MovedSince(start, ops, k)
  {
    RolesLastUntilMoved(Fresh(events, leads, roster), ops, k);
  }
}
