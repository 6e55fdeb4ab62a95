/** Locks, saves and rejections as they run: what to write is decided first and written by a
    later transaction, and any operation, others of these included, may come in between. */
module Races {
  import opened Options
  import opened Sequences
  import opened Comp
  import opened Notices
  import opened Tables
  import opened SeatingRules
  import opened Runs
  import Board

  type FlightId = int

  /** A board decided on and not yet written. */
  datatype Flight = Flight(c: CompKey, mode: CompMode, rows: seq<Assignment>)

  datatype Floor = Floor(world: World, flights: map<FlightId, Flight>, rejections: map<FlightId, RequestId>)

  /** Nothing under way. */
  function Quiet(w: World): Floor { Floor(w, map[], map[]) }

  datatype Act =
    | Plain(op: Op, now: int)
    | BeginLock(id: FlightId, c: CompKey)
    | BeginSave(id: FlightId, c: CompKey, seats: seq<Seat>)
    | Finish(id: FlightId)
    | BeginReject(id: FlightId, request: RequestId)
    | FinishReject(id: FlightId, now: int)

  ghost function Written(w: World, flight: Flight): World {
    var (after, outcome) := ReplaceStep(w.tables, flight.c, flight.mode, flight.rows);
    if outcome.Done? then World(after, w.latest[flight.c.event := flight.c.name]) else w
  }

  function Overwritten(w: World, request: RequestId, now: int): World {
    w.(tables := RejectWritten(w.tables, request, now))
  }

  ghost function Did(f: Floor, act: Act): Floor {
    match act
    case Plain(op, now) => f.(world := Step(f.world, op, now))
    case BeginLock(id, c) =>
      if LockRead(f.world.tables, c).Done?
      then f.(flights := f.flights[id := Flight(c, Auto, LockedRows(f.world.tables, c.event))]) else f
    case BeginSave(id, c, seats) =>
      if SaveRead(f.world.tables, c, seats).Done?
      then f.(flights := f.flights[id := Flight(c, Manual, ManualRows(seats))]) else f
    case Finish(id) =>
      if id in f.flights then f.(world := Written(f.world, f.flights[id]), flights := f.flights - {id}) else f
    case BeginReject(id, request) =>
      if RejectRead(f.world.tables, request).Done? then f.(rejections := f.rejections[id := request]) else f
    case FinishReject(id, now) =>
      if id in f.rejections
      then f.(world := Overwritten(f.world, f.rejections[id], now), rejections := f.rejections - {id}) else f
  }

  ghost function Raced(f: Floor, acts: seq<Act>): Floor {
    if acts == [] then f else Did(Raced(f, acts[..|acts| - 1]), acts[|acts| - 1])
  }

  // ----- Nothing in between

  /** Uninterrupted, a lock, a save and a rejection are the operations of the same names. */
  lemma LockIsItsHalves(w: World, c: CompKey, id: FlightId, now: int)
    ensures Raced(Quiet(w), [BeginLock(id, c), Finish(id)]).world == Step(w, Lock(c), now)
  {
    RacedOfTwo(Quiet(w), BeginLock(id, c), Finish(id));
    if LockRead(w.tables, c).Done? {
      assert LockStep(w.tables, c) == ReplaceStep(w.tables, c, Auto, LockedRows(w.tables, c.event));
    }
  }

  lemma SaveIsItsHalves(w: World, c: CompKey, seats: seq<Seat>, id: FlightId, now: int)
    ensures Raced(Quiet(w), [BeginSave(id, c, seats), Finish(id)]).world == Step(w, Save(c, seats), now)
  {
    RacedOfTwo(Quiet(w), BeginSave(id, c, seats), Finish(id));
    if SaveRead(w.tables, c, seats).Done? {
      assert SaveStep(w.tables, c, seats) == ReplaceStep(w.tables, c, Manual, ManualRows(seats));
    }
  }

  lemma RejectIsItsHalves(w: World, request: RequestId, id: FlightId, now: int)
    ensures Raced(Quiet(w), [BeginReject(id, request), FinishReject(id, now)]).world == Step(w, Reject(request), now)
  {
    RacedOfTwo(Quiet(w), BeginReject(id, request), FinishReject(id, now));
  }

  lemma RacedOfTwo(f: Floor, first: Act, second: Act)
    ensures Raced(f, [first, second]) == Did(Did(f, first), second)
  {
    assert [first, second][..1] == [first] && [first][..0] == [];
    assert Raced(f, [first]) == Did(Raced(f, []), first);
  }

  lemma RacedOfThree(f: Floor, first: Act, second: Act, third: Act)
    ensures Raced(f, [first, second, third]) == Did(Did(Did(f, first), second), third)
  {
    assert [first, second, third][..2] == [first, second];
    RacedOfTwo(f, first, second);
  }

  // ----- Exactly when the boards still hold only people who are coming

  /** Everybody the assigner put on the board still holds their place. */
  ghost predicate AllPresent(w: World, flight: Flight) {
    forall row | row in flight.rows ::
      row.reason.ByRaidLead? || HoldsPlace(w.tables.signups, SignupKey(flight.c.event, row.id))
  }

  ghost predicate GoesThrough(w: World, flight: Flight) {
    ReplaceStep(w.tables, flight.c, flight.mode, flight.rows).1.Done?
  }

  ghost predicate InTime(w: World, flight: Flight) { GoesThrough(w, flight) ==> AllPresent(w, flight) }

  /** Writing a board keeps the tables consistent if and only if it is in time. */
  lemma WriteIsConsistentExactlyInTime(w: World, flight: Flight)
    requires Consistent(w)
    ensures Consistent(Written(w, flight)) <==> InTime(w, flight)
  {
    var c, rows := flight.c, flight.rows;
    if InTime(w, flight) {
      if ReplaceStep(w.tables, c, flight.mode, rows).1.Done? { ReplaceKeeps(w, c, flight.mode, rows); }
    } else {
      var i :| 0 <= i < |rows| && !rows[i].reason.ByRaidLead?
               && !HoldsPlace(w.tables.signups, SignupKey(c.event, rows[i].id));
      AbsentSlot(w, flight, i);
    }
  }

  /** The slot such a write leaves behind. */
  lemma AbsentSlot(w: World, flight: Flight, i: nat)
    requires GoesThrough(w, flight) && i < |flight.rows|
    requires !HoldsPlace(w.tables.signups, SignupKey(flight.c.event, flight.rows[i].id))
    ensures var s := SlotKey(flight.c.event, flight.c.name, flight.rows[i].id);
      var after := Written(w, flight).tables;
      && s in after.slots && after.slots[s].reason == flight.rows[i].reason
      && !HoldsPlace(after.signups, SignupKey(s.event, s.character))
  {
    BoardSlotsListed(flight.c, flight.rows, SlotKey(flight.c.event, flight.c.name, flight.rows[i].id));
  }

  ghost predicate WritesInTime(f: Floor, act: Act) {
    act.Finish? && act.id in f.flights ==> InTime(f.world, f.flights[act.id])
  }

  ghost predicate AllWritesInTime(f: Floor, acts: seq<Act>) {
    acts != [] ==>
      && AllWritesInTime(f, acts[..|acts| - 1])
      && WritesInTime(Raced(f, acts[..|acts| - 1]), acts[|acts| - 1])
  }

  ghost predicate ConsistentThroughout(f: Floor, acts: seq<Act>) {
    Consistent(Raced(f, acts).world) && (acts != [] ==> ConsistentThroughout(f, acts[..|acts| - 1]))
  }

  /** However locks, saves and everything else interleave, the tables stay consistent all
      along if and only if every board is written in time. */
  lemma {:induction false} ConsistentExactlyWhenInTime(f: Floor, acts: seq<Act>)
    requires Consistent(f.world)
    ensures ConsistentThroughout(f, acts) <==> AllWritesInTime(f, acts)
  {
    if acts == [] {
    } else {
      var front, last := acts[..|acts| - 1], acts[|acts| - 1];
      ConsistentExactlyWhenInTime(f, front);
      if ConsistentThroughout(f, front) { ActIsConsistentExactlyInTime(Raced(f, front), last); }
    }
  }

  lemma OverwriteKeeps(w: World, request: RequestId, now: int)
    requires Consistent(w)
    ensures Consistent(Overwritten(w, request, now))
  {
  }

  lemma ActIsConsistentExactlyInTime(f: Floor, act: Act)
    requires Consistent(f.world)
    ensures Consistent(Did(f, act).world) <==> WritesInTime(f, act)
  {
    match act {
      case Plain(op, now) => StepKeeps(f.world, op, now);
      case Finish(id) => if id in f.flights { WriteIsConsistentExactlyInTime(f.world, f.flights[id]); }
      case FinishReject(id, now) => if id in f.rejections { OverwriteKeeps(f.world, f.rejections[id], now); }
      case _ =>
    }
  }

  // ----- Between the halves of a lock

  ghost predicate Touches(act: Act, id: FlightId) {
    (act.BeginLock? || act.BeginSave? || act.Finish?) && act.id == id
  }

  ghost predicate NoneTouches(acts: seq<Act>, id: FlightId) { forall i | 0 <= i < |acts| :: !Touches(acts[i], id) }

  /** The board as decided waits, whatever else happens. */
  lemma {:induction false} FlightWaits(f: Floor, acts: seq<Act>, id: FlightId)
    requires id in f.flights && NoneTouches(acts, id)
    ensures id in Raced(f, acts).flights && Raced(f, acts).flights[id] == f.flights[id]
  {
    if acts == [] {
    } else {
      var front := acts[..|acts| - 1];
      assert forall i | 0 <= i < |front| :: front[i] == acts[i];
      FlightWaits(f, front, id);
    }
  }

  lemma ActKeepsRows(f: Floor, act: Act)
    ensures Did(f, act).world.tables.events == f.world.tables.events
    ensures Did(f, act).world.tables.roster.Keys == f.world.tables.roster.Keys
  {
    match act {
      case Plain(op, now) =>
        EventsStay(f.world.tables, op, now);
        RosterStays(f.world.tables, op, now);
      case _ =>
    }
  }

  lemma RosterStays(t: Tables, op: Op, now: int)
    ensures Apply(t, op, now).0.roster.Keys == t.roster.Keys
  {
  }

  lemma {:induction false} RunsKeepRows(f: Floor, acts: seq<Act>)
    ensures Raced(f, acts).world.tables.events == f.world.tables.events
    ensures Raced(f, acts).world.tables.roster.Keys == f.world.tables.roster.Keys
  {
    if acts == [] {
    } else {
      RunsKeepRows(f, acts[..|acts| - 1]);
      ActKeepsRows(Raced(f, acts[..|acts| - 1]), acts[|acts| - 1]);
    }
  }

  lemma GoesThroughAlike(w: World, v: World, flight: Flight)
    requires w.tables.events == v.tables.events && w.tables.roster.Keys == v.tables.roster.Keys
    ensures GoesThrough(w, flight) <==> GoesThrough(v, flight)
  {
    assert forall id :: id in w.tables.roster <==> id in w.tables.roster.Keys;
    assert forall id :: id in v.tables.roster <==> id in v.tables.roster.Keys;
  }

  /** Some raider of the board has another status after the act than before. */
  ghost predicate Moves(f: Floor, act: Act, flight: Flight) {
    exists row | row in flight.rows :: MovesOne(f, act, SignupKey(flight.c.event, row.id))
  }

  ghost predicate MovesOne(f: Floor, act: Act, k: SignupKey) {
    StatusAt(Did(f, act).world.tables, k) != StatusAt(f.world.tables, k)
  }

  ghost predicate NobodyMoves(f: Floor, acts: seq<Act>, flight: Flight) {
    acts != [] ==>
      && NobodyMoves(f, acts[..|acts| - 1], flight)
      && !Moves(Raced(f, acts[..|acts| - 1]), acts[|acts| - 1], flight)
  }

  /** A status moves only in an operation, and only along one of the three ways. */
  lemma OnlyOperationsMove(f: Floor, act: Act, k: SignupKey)
    requires MovesOne(f, act, k)
    ensures act.Plain? && k.event in f.world.tables.events
    ensures Explains(f.world.tables, act.op, act.now, k, StatusAt(Did(f, act).world.tables, k))
  {
    var t := f.world.tables;
    match act {
      case Plain(op, now) => OnlyThesePathsChangeASignup(t, op, now, k);
      case Finish(id) => BoardsLeaveStatuses(t, f.flights[id].c, f.flights[id].mode, f.flights[id].rows, k);
      case _ =>
    }
  }

  lemma {:induction false} PresentWhileNobodyMoves(f: Floor, acts: seq<Act>, flight: Flight)
    requires AllPresent(f.world, flight) && NobodyMoves(f, acts, flight)
    ensures AllPresent(Raced(f, acts).world, flight)
  {
    if acts == [] {
    } else {
      var front, last := acts[..|acts| - 1], acts[|acts| - 1];
      PresentWhileNobodyMoves(f, front, flight);
      PresentAfterOne(Raced(f, front), last, flight);
    }
  }

  lemma PresentAfterOne(f: Floor, act: Act, flight: Flight)
    requires AllPresent(f.world, flight) && !Moves(f, act, flight)
    ensures AllPresent(Did(f, act).world, flight)
  {
    forall row | row in flight.rows && !row.reason.ByRaidLead?
      ensures HoldsPlace(Did(f, act).world.tables.signups, SignupKey(flight.c.event, row.id))
    {
      assert !MovesOne(f, act, SignupKey(flight.c.event, row.id));
    }
  }

  /** A lock is decided with everybody on it present. */
  lemma DecidedInTime(w: World, c: CompKey)
    requires LockRead(w.tables, c).Done?
    ensures AllPresent(w, Flight(c, Auto, LockedRows(w.tables, c.event)))
  {
    LockedRowsAreFromThePool(w.tables, c.event);
    forall row | row in LockedRows(w.tables, c.event) ensures HoldsPlace(w.tables.signups, SignupKey(c.event, row.id)) {
      assert FromThePool(w.tables, c.event, row);
    }
  }

  /** Whatever comes between its halves, a lock lands in time as long as nobody it lists
      changes status meanwhile. */
  lemma LockLandsInTime(f: Floor, id: FlightId, c: CompKey, acts: seq<Act>)
    requires LockRead(f.world.tables, c).Done? && NoneTouches(acts, id)
    requires NobodyMoves(Did(f, BeginLock(id, c)), acts, Flight(c, Auto, LockedRows(f.world.tables, c.event)))
    ensures WritesInTime(Raced(Did(f, BeginLock(id, c)), acts), Finish(id))
  {
    var start := Did(f, BeginLock(id, c));
    DecidedInTime(f.world, c);
    FlightWaits(start, acts, id);
    PresentWhileNobodyMoves(start, acts, start.flights[id]);
  }

  /** Assigned and absent at once: if a raider in the pool with a role menu is out of it again
      when a lock lands, by whatever acts came between its halves, the board that is written
      seats or benches them all the same. */
  lemma AssignedAndAbsent(f: Floor, id: FlightId, c: CompKey, acts: seq<Act>, k: SignupKey)
    requires LockRead(f.world.tables, c).Done? && NoneTouches(acts, id)
    requires Insertable(f.world.tables.roster, LockedRows(f.world.tables, c.event))
    requires k.event == c.event && Joins(f.world.tables, k, c.event) && f.world.tables.roster[k.character].roles != []
    requires !HoldsPlace(Raced(Did(f, BeginLock(id, c)), acts).world.tables.signups, k)
    ensures var end := Did(Raced(Did(f, BeginLock(id, c)), acts), Finish(id)).world;
      var s := SlotKey(c.event, c.name, k.character);
      && !HoldsPlace(end.tables.signups, k)
      && s in end.tables.slots && !end.tables.slots[s].reason.ByRaidLead?
      && !Consistent(end)
  {
    var start, t := Did(f, BeginLock(id, c)), f.world.tables;
    var flight := Flight(c, Auto, LockedRows(t, c.event));
    var mid := Raced(start, acts);
    BeginDid(f, id, c);
    FlightWaits(start, acts, id);
    RunsKeepRows(start, acts);
    assert LockStep(t, c).1.Done? && GoesThrough(f.world, flight);
    GoesThroughAlike(f.world, mid.world, flight);
    var i := ListedByTheLock(t, c, k.character);
    LandsOnTheAbsent(mid, id, flight, i);
  }

  lemma LandsOnTheAbsent(f: Floor, id: FlightId, flight: Flight, i: nat)
    requires id in f.flights && f.flights[id] == flight && GoesThrough(f.world, flight) && i < |flight.rows|
    requires !flight.rows[i].reason.ByRaidLead?
    requires !HoldsPlace(f.world.tables.signups, SignupKey(flight.c.event, flight.rows[i].id))
    ensures var s := SlotKey(flight.c.event, flight.c.name, flight.rows[i].id);
      var end := Did(f, Finish(id)).world;
      && !HoldsPlace(end.tables.signups, SignupKey(s.event, s.character))
      && s in end.tables.slots && !end.tables.slots[s].reason.ByRaidLead?
      && !Consistent(end)
  {
    FinishDid(f, id, flight);
    AbsentSlot(f.world, flight, i);
  }

  lemma ListedByTheLock(t: Tables, c: CompKey, id: CharacterId) returns (i: nat)
    requires LockRead(t, c).Done? && Insertable(t.roster, LockedRows(t, c.event))
    requires Joins(t, SignupKey(c.event, id), c.event) && t.roster[id].roles != []
    ensures i < |LockedRows(t, c.event)| && LockedRows(t, c.event)[i].id == id
    ensures FromThePool(t, c.event, LockedRows(t, c.event)[i])
  {
    var rows := LockedRows(t, c.event);
    LockHoldsThePool(t, c, id);
    BoardSlotsListed(c, rows, SlotKey(c.event, c.name, id));
    i :| 0 <= i < |rows| && rows[i].id == id;
    LockedRowsAreFromThePool(t, c.event);
    assert rows[i] in rows;
  }

  /** One withdrawal is enough, a raid lead's or a raider's own while it is still open. */
  lemma AWithdrawalIsEnough(w: World, c: CompKey, k: SignupKey, isRaidLead: bool, now: int)
    requires LockRead(w.tables, c).Done? && Insertable(w.tables.roster, LockedRows(w.tables, c.event))
    requires k.event == c.event && Joins(w.tables, k, c.event) && w.tables.roster[k.character].roles != []
    requires MayWithdraw(w.tables.events[c.event], isRaidLead, now)
    ensures var acts := [BeginLock(1, c), Plain(Withdraw(k, isRaidLead), now), Finish(1)];
      var end := Raced(Quiet(w), acts).world;
      && k !in end.tables.signups && SlotKey(c.event, c.name, k.character) in end.tables.slots
      && !Consistent(end)
  {
    var f, act := Quiet(w), Plain(Withdraw(k, isRaidLead), now);
    RacedOfThree(f, BeginLock(1, c), act, Finish(1));
    var start := Did(f, BeginLock(1, c));
    RacedOfOne(start, act);
    assert NoneTouches([act], 1);
    WithdrawalLeaves(start, k, isRaidLead, now);
    AssignedAndAbsent(f, 1, c, [act], k);
    LandingKeepsSignups(Did(start, act), 1, k);
  }

  lemma RacedOfOne(f: Floor, act: Act)
    ensures Raced(f, [act]) == Did(f, act)
  {
    assert [act][..0] == [];
  }

  lemma WithdrawalLeaves(f: Floor, k: SignupKey, isRaidLead: bool, now: int)
    requires k.event in f.world.tables.events && MayWithdraw(f.world.tables.events[k.event], isRaidLead, now)
    ensures k !in Did(f, Plain(Withdraw(k, isRaidLead), now)).world.tables.signups
  {
    assert WithdrawStep(f.world.tables, k, isRaidLead, now) == (Withdrawn(f.world.tables, k), Done);
  }

  lemma LandingKeepsSignups(f: Floor, id: FlightId, k: SignupKey)
    ensures k in Did(f, Finish(id)).world.tables.signups <==> k in f.world.tables.signups
  {
  }

  lemma OneInBetween(w: World, c: CompKey, op: Op, now: int)
    requires LockRead(w.tables, c).Done?
    ensures Raced(Quiet(w), [BeginLock(1, c), Plain(op, now), Finish(1)]).world
         == Written(Step(w, op, now), Flight(c, Auto, LockedRows(w.tables, c.event)))
  {
    var flight := Flight(c, Auto, LockedRows(w.tables, c.event));
    var f := Quiet(w);
    RacedOfThree(f, BeginLock(1, c), Plain(op, now), Finish(1));
    BeginDid(f, 1, c);
    PlainDid(Did(f, BeginLock(1, c)), op, now, 1, flight);
  }

  lemma BeginDid(f: Floor, id: FlightId, c: CompKey)
    requires LockRead(f.world.tables, c).Done?
    ensures var after := Did(f, BeginLock(id, c));
      && after.world == f.world && id in after.flights
      && after.flights[id] == Flight(c, Auto, LockedRows(f.world.tables, c.event))
  {
  }

  lemma PlainDid(f: Floor, op: Op, now: int, id: FlightId, flight: Flight)
    requires id in f.flights && f.flights[id] == flight
    ensures Did(Did(f, Plain(op, now)), Finish(id)).world == Written(Step(f.world, op, now), flight)
  {
    FinishDid(f.(world := Step(f.world, op, now)), id, flight);
  }

  lemma FinishDid(f: Floor, id: FlightId, flight: Flight)
    requires id in f.flights && f.flights[id] == flight
    ensures Did(f, Finish(id)).world == Written(f.world, flight)
  {
  }
}
