/** Boards a raid lead built by hand, when locks and saves decided earlier land on them. */
module HandBuilt {
  import opened Options
  import opened Comp
  import opened Notices
  import opened Tables
  import opened Runs
  import opened ManualBoards
  import opened Races
  import EventStore

  /** A write never asks whose board it is by then. */
  lemma WriteIgnoresTheMode(w: World, flight: Flight, s: SlotKey)
    requires GoesThrough(w, flight)
    requires s in Written(w, flight).tables.slots && SlotIn(s, flight.c)
    ensures exists row | row in flight.rows ::
      row.id == s.character && row.reason == Written(w, flight).tables.slots[s].reason
  {
    BoardSlotsListed(flight.c, flight.rows, s);
    var i :| 0 <= i < |flight.rows| && flight.rows[i].id == s.character
             && BoardSlots(flight.c, flight.rows)[s].reason == flight.rows[i].reason;
    assert flight.rows[i] in flight.rows;
  }

  /** A hand-built board can be lost: saved as a new MANUAL comp while a lock of the same name
      is under way, it is overwritten by the assigner's, and the comp stays MANUAL. */
  lemma HandBuiltBoardIsOverwritten(w: World, c: CompKey, seats: seq<Seat>, now: int)
    requires c !in w.tables.comps && LockRead(w.tables, c).Done?
    requires Insertable(w.tables.roster, LockedRows(w.tables, c.event)) && SaveStep(w.tables, c, seats).1.Done?
    ensures var acts := [BeginLock(1, c), Plain(Save(c, seats), now), Finish(1)];
      var end := Raced(Quiet(w), acts).world.tables;
      && c in end.comps && end.comps[c].Manual?
      && forall s | s in end.slots && SlotIn(s, c) :: !end.slots[s].reason.ByRaidLead?
  {
    var rows := LockedRows(w.tables, c.event);
    OneInBetween(w, c, Save(c, seats), now);
    LockedRowsAreFromThePool(w.tables, c.event);
    forall row | row in rows ensures !row.reason.ByRaidLead? { assert FromThePool(w.tables, c.event, row); }
    SaveMakesManual(w, c, seats, now);
    AssignerOverwrites(Step(w, Save(c, seats), now), Flight(c, Auto, rows));
  }

  lemma SaveMakesManual(w: World, c: CompKey, seats: seq<Seat>, now: int)
    requires c !in w.tables.comps && SaveStep(w.tables, c, seats).1.Done?
    ensures var t, after := w.tables, Step(w, Save(c, seats), now).tables;
      c in after.comps && after.comps[c].Manual? && after.events == t.events && after.roster == t.roster
  {
  }

  lemma AssignerOverwrites(w: World, flight: Flight)
    requires GoesThrough(w, flight)
    requires flight.c in w.tables.comps && w.tables.comps[flight.c].Manual?
    requires forall row | row in flight.rows :: !row.reason.ByRaidLead?
    ensures var c, end := flight.c, Written(w, flight).tables;
      && c in end.comps && end.comps[c].Manual?
      && forall s | s in end.slots && SlotIn(s, c) :: !end.slots[s].reason.ByRaidLead?
  {
    forall s | s in Written(w, flight).tables.slots && SlotIn(s, flight.c)
      ensures !Written(w, flight).tables.slots[s].reason.ByRaidLead?
    {
      WriteIgnoresTheMode(w, flight, s);
    }
  }

  /** Even a lock that lists nobody does it: the board is erased, though nobody changed status. */
  lemma EmptyLockErases(w: World, c: CompKey, seats: seq<Seat>, now: int)
    requires c !in w.tables.comps && LockRead(w.tables, c).Done? && LockedRows(w.tables, c.event) == []
    requires SaveStep(w.tables, c, seats).1.Done? && seats != []
    ensures var acts := [BeginLock(1, c), Plain(Save(c, seats), now), Finish(1)];
      var saved, end := Step(w, Save(c, seats), now).tables, Raced(Quiet(w), acts).world.tables;
      && (exists s :: s in saved.slots && SlotIn(s, c))
      && (forall s | s in end.slots :: !SlotIn(s, c))
      && (forall k :: StatusAt(end, k) == StatusAt(saved, k))
  {
    var saved := Step(w, Save(c, seats), now);
    OneInBetween(w, c, Save(c, seats), now);
    SavedSlots(w, c, seats, now);
    SaveMakesManual(w, c, seats, now);
    NothingErases(saved, Flight(c, Auto, []));
  }

  lemma SavedSlots(w: World, c: CompKey, seats: seq<Seat>, now: int)
    requires SaveStep(w.tables, c, seats).1.Done? && seats != []
    ensures exists s :: s in Step(w, Save(c, seats), now).tables.slots && SlotIn(s, c)
  {
    var rows := ManualRows(seats);
    var s := SlotKey(c.event, c.name, rows[0].id);
    BoardSlotsListed(c, rows, s);
    assert s in Step(w, Save(c, seats), now).tables.slots;
  }

  lemma NothingErases(w: World, flight: Flight)
    requires GoesThrough(w, flight) && flight.rows == []
    ensures var end := Written(w, flight).tables;
      && (forall s | s in end.slots :: !SlotIn(s, flight.c))
      && (forall k :: StatusAt(end, k) == StatusAt(w.tables, k))
  {
    forall k ensures StatusAt(Written(w, flight).tables, k) == StatusAt(w.tables, k) {
      BoardsLeaveStatuses(w.tables, flight.c, flight.mode, flight.rows, k);
    }
  }

  // ----- Exactly when a board is kept

  /** Every row that lands is a slot already there. */
  ghost predicate Repeats(slots: map<SlotKey, Slot>, flight: Flight) {
    forall row | row in flight.rows ::
      var s := SlotKey(flight.c.event, flight.c.name, row.id);
      s in slots && slots[s] == EventStore.SlotFor(row)
  }

  /** Nobody already there is missing from what lands. */
  ghost predicate ListsEverybody(slots: map<SlotKey, Slot>, flight: Flight) {
    forall s | s in slots && SlotIn(s, flight.c) :: Lists(flight, s.character)
  }

  ghost predicate Lists(flight: Flight, id: CharacterId) { exists row :: row in flight.rows && row.id == id }

  ghost predicate SaysTheSame(slots: map<SlotKey, Slot>, flight: Flight) {
    Repeats(slots, flight) && ListsEverybody(slots, flight)
  }

  lemma IntactIsTheSame(w: World, flight: Flight)
    requires GoesThrough(w, flight)
    requires Intact(w.tables.slots, Written(w, flight).tables.slots, flight.c)
    ensures SaysTheSame(w.tables.slots, flight)
  {
    var c, rows, before := flight.c, flight.rows, w.tables.slots;
    var after := Written(w, flight).tables.slots;
    forall row | row in rows
      ensures var s := SlotKey(c.event, c.name, row.id); s in before && before[s] == EventStore.SlotFor(row)
    {
      var i :| 0 <= i < |rows| && rows[i] == row;
      EventStore.RowIsStored(w.tables.roster, c, rows, i);
      assert Carried(before, after, SlotKey(c.event, c.name, row.id), false);
    }
    forall s | s in before && SlotIn(s, c) ensures Lists(flight, s.character) {
      assert Carried(before, after, s, false);
      BoardSlotsListed(c, rows, s);
      var i :| 0 <= i < |rows| && rows[i].id == s.character;
      assert rows[i] in rows;
    }
  }

  /** A board that is written leaves the one that was there intact exactly when each of its
      rows is a slot of it and nobody on it is missing. */
  lemma LandingIsIntactExactly(w: World, flight: Flight)
    requires GoesThrough(w, flight)
    ensures Intact(w.tables.slots, Written(w, flight).tables.slots, flight.c) <==> SaysTheSame(w.tables.slots, flight)
  {
    var c, rows, before := flight.c, flight.rows, w.tables.slots;
    var after := Written(w, flight).tables.slots;
    if Intact(before, after, c) {
      IntactIsTheSame(w, flight);
    } else if SaysTheSame(before, flight) {
      forall s | SlotIn(s, c) ensures Carried(before, after, s, false) {
        BoardSlotsListed(c, rows, s);
        if s in after {
          var i :| 0 <= i < |rows| && rows[i].id == s.character && after[s] == EventStore.SlotFor(rows[i]);
          assert rows[i] in rows;
        }
        if s in before {
          assert Lists(flight, s.character);
          var row :| row in rows && row.id == s.character;
          var i :| 0 <= i < |rows| && rows[i] == row;
        }
      }
    }
  }

  ghost predicate AllByHand(slots: map<SlotKey, Slot>, c: CompKey) {
    forall s | s in slots && SlotIn(s, c) :: slots[s].reason.ByRaidLead?
  }

  ghost predicate NoneByHand(flight: Flight) { forall row | row in flight.rows :: !row.reason.ByRaidLead? }

  ghost predicate Empty(slots: map<SlotKey, Slot>, c: CompKey) { forall s | s in slots :: !SlotIn(s, c) }

  /** A lock that lands on a board that is all a raid lead's leaves it intact only if there is
      nobody on either: a board with anybody on it is always lost. */
  lemma LocksLoseHandBuiltBoards(w: World, flight: Flight)
    requires GoesThrough(w, flight) && AllByHand(w.tables.slots, flight.c) && NoneByHand(flight)
    ensures Intact(w.tables.slots, Written(w, flight).tables.slots, flight.c)
        <==> flight.rows == [] && Empty(w.tables.slots, flight.c)
  {
    LandingIsIntactExactly(w, flight);
    if SaysTheSame(w.tables.slots, flight) {
      if flight.rows != [] {
        var row := flight.rows[0];
        assert row in flight.rows && SlotIn(SlotKey(flight.c.event, flight.c.name, row.id), flight.c);
        assert false;
      }
      forall s | s in w.tables.slots ensures !SlotIn(s, flight.c) {
        assert SlotIn(s, flight.c) ==> Lists(flight, s.character);
      }
    }
  }

  // ----- Over every interleaving

  /** This act writes a board of the comp that was decided on earlier. */
  ghost predicate LandsOn(f: Floor, act: Act, c: CompKey) {
    act.Finish? && act.id in f.flights && f.flights[act.id].c == c && GoesThrough(f.world, f.flights[act.id])
  }

  ghost predicate NoneHandles(acts: seq<Act>, c: CompKey) {
    forall i | 0 <= i < |acts| && acts[i].Plain? :: !Handles(acts[i].op, c)
  }

  /** This act takes the raider out of the pool. */
  ghost predicate Departs(f: Floor, act: Act, k: SignupKey) {
    act.Plain? && TakesOut(f.world.tables, act.op, act.now, k)
  }

  /** The board after the act is the one before it, but exactly for those the act takes out of
      the pool. */
  ghost predicate Kept(f: Floor, act: Act, c: CompKey) {
    forall s | SlotIn(s, c) ::
      Carried(f.world.tables.slots, Did(f, act).world.tables.slots, s, Departs(f, act, HolderOf(s)))
  }

  ghost predicate KeptThroughout(f: Floor, acts: seq<Act>, c: CompKey) {
    acts != [] ==>
      && KeptThroughout(f, acts[..|acts| - 1], c)
      && Kept(Raced(f, acts[..|acts| - 1]), acts[|acts| - 1], c)
  }

  ghost predicate OnlyTheSameLands(f: Floor, acts: seq<Act>, c: CompKey) {
    acts != [] ==>
      var mid, last := Raced(f, acts[..|acts| - 1]), acts[|acts| - 1];
      && OnlyTheSameLands(f, acts[..|acts| - 1], c)
      && (LandsOn(mid, last, c) ==> SaysTheSame(mid.world.tables.slots, mid.flights[last.id]))
  }

  lemma LandingElsewhere(w: World, flight: Flight, c: CompKey)
    requires flight.c != c || !GoesThrough(w, flight)
    ensures Intact(w.tables.slots, Written(w, flight).tables.slots, c)
    ensures StaysAs(w.tables, Written(w, flight).tables, c)
  {
    if flight.c != c { ReplacedElsewhere(w.tables, flight.c, flight.mode, flight.rows, c); }
  }

  lemma FinishIsKeptIfIntact(f: Floor, act: Act, c: CompKey)
    requires act.Finish? && act.id in f.flights
    ensures Kept(f, act, c) <==> Intact(f.world.tables.slots, Written(f.world, f.flights[act.id]).tables.slots, c)
  {
    FinishDid(f, act.id, f.flights[act.id]);
    forall s ensures !Departs(f, act, HolderOf(s)) {}
  }

  /** A MANUAL comp stays MANUAL through every act but a raid lead's own, and its board is kept
      by the act exactly when what lands, if anything, says the same. */
  lemma ActKeepsExactlyTheSame(f: Floor, act: Act, c: CompKey)
    requires StillManual(f.world.tables, c) && (act.Plain? ==> !Handles(act.op, c))
    ensures StillManual(Did(f, act).world.tables, c)
    ensures Kept(f, act, c) <==> (LandsOn(f, act, c) ==> SaysTheSame(f.world.tables.slots, f.flights[act.id]))
  {
    match act {
      case Plain(op, now) => ManualStep(f.world, op, now, c);
      case Finish(id) => if id in f.flights { FinishKeepsExactlyTheSame(f, act, c); }
      case _ =>
    }
  }

  lemma FinishKeepsExactlyTheSame(f: Floor, act: Act, c: CompKey)
    requires StillManual(f.world.tables, c) && act.Finish? && act.id in f.flights
    ensures StillManual(Did(f, act).world.tables, c)
    ensures Kept(f, act, c) <==> (LandsOn(f, act, c) ==> SaysTheSame(f.world.tables.slots, f.flights[act.id]))
  {
    FinishIsKeptIfIntact(f, act, c);
    if LandsOn(f, act, c) {
      LandingIsIntactExactly(f.world, f.flights[act.id]);
    } else {
      LandingElsewhere(f.world, f.flights[act.id], c);
    }
  }

  /** Whatever else is under way, a hand-built board is kept all along, nobody going from it but
      those who leave the pool, if and only if every board that lands on it says the same. */
  lemma {:induction false} KeptExactlyWhenTheSameLands(f: Floor, acts: seq<Act>, c: CompKey)
    requires StillManual(f.world.tables, c) && NoneHandles(acts, c)
    ensures StillManual(Raced(f, acts).world.tables, c)
    ensures KeptThroughout(f, acts, c) <==> OnlyTheSameLands(f, acts, c)
  {
    if acts == [] {
    } else {
      var front, last := acts[..|acts| - 1], acts[|acts| - 1];
      assert forall i | 0 <= i < |front| :: front[i] == acts[i];
      KeptExactlyWhenTheSameLands(f, front, c);
      ActKeepsExactlyTheSame(Raced(f, front), last, c);
    }
  }

  /** Some act of the run took the raider out of the pool. */
  ghost predicate Departed(f: Floor, acts: seq<Act>, k: SignupKey) {
    acts != [] &&
    var front, last := acts[..|acts| - 1], acts[|acts| - 1];
    Departed(f, front, k) || Departs(Raced(f, front), last, k)
  }

  /** Kept at every act is kept from the first to the last. */
  lemma {:induction false} KeptFromFirstToLast(f: Floor, acts: seq<Act>, c: CompKey)
    requires KeptThroughout(f, acts, c)
    ensures forall s | SlotIn(s, c) ::
      Carried(f.world.tables.slots, Raced(f, acts).world.tables.slots, s, Departed(f, acts, HolderOf(s)))
  {
    if acts == [] {
    } else {
      var front, last := acts[..|acts| - 1], acts[|acts| - 1];
      KeptFromFirstToLast(f, front, c);
      var before, mid, after := f.world.tables.slots, Raced(f, front), Raced(f, acts).world.tables.slots;
      forall s | SlotIn(s, c) ensures Carried(before, after, s, Departed(f, acts, HolderOf(s))) {
        assert Carried(before, mid.world.tables.slots, s, Departed(f, front, HolderOf(s)));
        assert Carried(mid.world.tables.slots, after, s, Departs(mid, last, HolderOf(s)));
      }
    }
  }

  ghost predicate NothingLands(f: Floor, acts: seq<Act>, c: CompKey) {
    acts != [] ==>
      && NothingLands(f, acts[..|acts| - 1], c)
      && !LandsOn(Raced(f, acts[..|acts| - 1]), acts[|acts| - 1], c)
  }

  lemma {:induction false} NothingIsTheSame(f: Floor, acts: seq<Act>, c: CompKey)
    requires NothingLands(f, acts, c)
    ensures OnlyTheSameLands(f, acts, c)
  {
    if acts == [] {
    } else {
      NothingIsTheSame(f, acts[..|acts| - 1], c);
    }
  }

  /** So with nothing landing on it a hand-built board stays MANUAL, with everybody on it as
      they were placed but exactly those who have left the pool since. */
  lemma HandBuiltBoardSurvives(f: Floor, acts: seq<Act>, c: CompKey)
    requires StillManual(f.world.tables, c) && NoneHandles(acts, c) && NothingLands(f, acts, c)
    ensures StillManual(Raced(f, acts).world.tables, c)
    ensures forall s | SlotIn(s, c) ::
      Carried(f.world.tables.slots, Raced(f, acts).world.tables.slots, s, Departed(f, acts, HolderOf(s)))
  {
    NothingIsTheSame(f, acts, c);
    KeptExactlyWhenTheSameLands(f, acts, c);
    KeptFromFirstToLast(f, acts, c);
  }

  /** What lands on the comp, if anything, is an assigner's board. */
  ghost predicate OnlyLocksLand(f: Floor, acts: seq<Act>, c: CompKey) {
    acts != [] ==>
      var mid, last := Raced(f, acts[..|acts| - 1]), acts[|acts| - 1];
      && OnlyLocksLand(f, acts[..|acts| - 1], c)
      && (LandsOn(mid, last, c) ==> NoneByHand(mid.flights[last.id]))
  }

  /** Nothing lands but empty boards on an empty board. */
  ghost predicate NothingOnNothing(f: Floor, acts: seq<Act>, c: CompKey) {
    acts != [] ==>
      var mid, last := Raced(f, acts[..|acts| - 1]), acts[|acts| - 1];
      && NothingOnNothing(f, acts[..|acts| - 1], c)
      && (LandsOn(mid, last, c) ==> mid.flights[last.id].rows == [] && Empty(mid.world.tables.slots, c))
  }

  /** Against locks alone: a board that is all a raid lead's is kept all along if and only if
      no lock lands on it while anybody is on either board. */
  lemma {:induction false} LocksKeepOnlyNothing(f: Floor, acts: seq<Act>, c: CompKey)
    requires StillManual(f.world.tables, c) && NoneHandles(acts, c) && AllByHand(f.world.tables.slots, c)
    requires OnlyLocksLand(f, acts, c)
    ensures KeptThroughout(f, acts, c) <==> NothingOnNothing(f, acts, c)
  {
    if acts == [] {
    } else {
      var front, last := acts[..|acts| - 1], acts[|acts| - 1];
      assert forall i | 0 <= i < |front| :: front[i] == acts[i];
      LocksKeepOnlyNothing(f, front, c);
      if KeptThroughout(f, front, c) {
        KeptExactlyWhenTheSameLands(f, front, c);
        KeptFromFirstToLast(f, front, c);
        StillAllByHand(f, front, c);
        LockKeepsOnlyNothing(Raced(f, front), last, c);
      }
    }
  }

  lemma StillAllByHand(f: Floor, acts: seq<Act>, c: CompKey)
    requires AllByHand(f.world.tables.slots, c)
    requires forall s | SlotIn(s, c) ::
      Carried(f.world.tables.slots, Raced(f, acts).world.tables.slots, s, Departed(f, acts, HolderOf(s)))
    ensures AllByHand(Raced(f, acts).world.tables.slots, c)
  {
    var before, after := f.world.tables.slots, Raced(f, acts).world.tables.slots;
    forall s | s in after && SlotIn(s, c) ensures after[s].reason.ByRaidLead? {
      assert Carried(before, after, s, Departed(f, acts, HolderOf(s)));
    }
  }

  lemma LockKeepsOnlyNothing(f: Floor, act: Act, c: CompKey)
    requires StillManual(f.world.tables, c) && (act.Plain? ==> !Handles(act.op, c))
    requires AllByHand(f.world.tables.slots, c)
    requires LandsOn(f, act, c) ==> NoneByHand(f.flights[act.id])
    ensures Kept(f, act, c)
        <==> (LandsOn(f, act, c) ==> f.flights[act.id].rows == [] && Empty(f.world.tables.slots, c))
  {
    if LandsOn(f, act, c) {
      FinishIsKeptIfIntact(f, act, c);
      LocksLoseHandBuiltBoards(f.world, f.flights[act.id]);
    } else {
      ActKeepsExactlyTheSame(f, act, c);
    }
  }
}
