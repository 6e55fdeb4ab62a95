/** The operations of internal/signup and internal/comp, statement by statement over the
    stored rows. Each method is one transaction; a refused one leaves every row as it was. */
module EventStore {
  import opened Options
  import opened Sequences
  import opened Comp
  import opened Notices
  import opened Tables
  import opened SeatingRules
  import Assigner
  import Board
  import OrderIndependence
  import Runs

  class Store {
    const events: map<EventId, Event>
    const leads: LeadRoles
    var roster: map<CharacterId, Sheet>
    var signups: map<SignupKey, Signup>
    var requests: map<RequestId, LateRequest>
    var requestOf: map<SignupKey, RequestId>
    var comps: map<CompKey, CompMode>
    var slots: map<SlotKey, Slot>
    var outbox: seq<Notice>

    constructor (events: map<EventId, Event>, leads: LeadRoles, roster: map<CharacterId, Sheet>)
      ensures State() == Runs.Fresh(events, leads, roster).tables
    {
      this.events, this.leads, this.roster := events, leads, roster;
      signups, requests, requestOf, comps, slots, outbox := map[], map[], map[], map[], map[], [];
    }

    function State(): Tables
      reads this
    {
      Tables(events, leads, roster, signups, requests, requestOf, comps, slots, outbox)
    }

    // ----- Statements

    /** INSERT ... ON CONFLICT (event_id, character_id) DO UPDATE. */
    method UpsertSignupRow(k: SignupKey, a: Answer, now: int)
      modifies this`signups
      ensures signups == old(signups)[k := Upserted(old(signups), k, a, now)]
    {
      if k in signups {
        var row := signups[k];
        var role := if row.answer.status != a.status then None else row.assignedRole;
        signups := signups[k := row.(answer := a, assignedRole := role)];
      } else {
        signups := signups[k := Signup(a, None, now)];
      }
    }

    /** Reads back the signup just written or deleted: out of the pool, its slots go. */
    method DropCompSlotsForCharacter(k: SignupKey) returns (dropped: set<CompName>)
      modifies this`slots
      ensures slots == Remaining(signups, old(slots), k) && dropped == Evicted(signups, old(slots), k)
    {
      if k in signups && (signups[k].answer.status.Confirmed? || signups[k].answer.status.Late?) { return {}; }
      dropped := set s | s in slots && SlotOf(s, k) :: s.comp;
      slots := map s | s in slots && !SlotOf(s, k) :: slots[s];
    }

    method DeleteCompSlots(c: CompKey)
      modifies this`slots
      ensures slots == WithoutComp(old(slots), c)
    {
      slots := map s | s in slots && !SlotIn(s, c) :: slots[s];
    }

    /** Fails on an unknown character, a second slot for one, or a position already taken. */
    method InsertCompSlot(c: CompKey, a: Assignment) returns (ok: bool)
      modifies this`slots
      ensures ok <==> a.id in roster && !Clashes(old(slots), c, a)
      ensures slots == if ok then old(slots)[SlotKey(c.event, c.name, a.id) := SlotFor(a)] else old(slots)
    {
      if a.id !in roster || Clashes(slots, c, a) { return false; }
      slots := slots[SlotKey(c.event, c.name, a.id) := SlotFor(a)];
      return true;
    }

    method ClearAssignedRoles(event: EventId)
      modifies this`signups
      ensures signups == Assigned(old(signups), event, [])
    {
      signups := map k | k in signups :: if k.event == event then signups[k].(assignedRole := None) else signups[k];
    }

    method SetSignupAssignedRole(k: SignupKey, role: Role)
      modifies this`signups
      ensures signups == if k in old(signups) then old(signups)[k := old(signups)[k].(assignedRole := Some(role))]
                         else old(signups)
    {
      if k in signups { signups := signups[k := signups[k].(assignedRole := Some(role))]; }
    }

    // ----- Reports

    method NotifySignupChanged(event: EventId)
      requires event in events
      modifies this`outbox
      ensures outbox == old(outbox) + SignupChangedNotices(events[event], event)
    {
      var e := events[event];
      if e.channel.None? || e.message.None? { return; }
      outbox := outbox + [Notice(e.guild, event, SignupChanged, ToMessage(e.channel.value), Nothing)];
    }

    method NotifyCompSlotsDropped(k: SignupKey, left: Option<Status>, comps: set<CompName>)
      requires k.event in events
      modifies this`outbox
      ensures outbox == old(outbox) + DroppedNotices(leads, events[k.event], k, left, comps)
    {
      var e := events[k.event];
      if comps == {} { return; }
      if e.channel.None? { return; }
      var told := ToRole(e.channel.value, RolesOf(leads, e.guild));
      var dropped := SlotsDropped(e.title, k.character, left, comps);
      outbox := outbox + [Notice(e.guild, k.event, CompSlotDropped, told, dropped)];
    }

    method QueueRedraw(event: EventId) returns (ok: bool)
      modifies this`outbox
      ensures ok <==> event in events
      ensures outbox == if ok then old(outbox) + RedrawNotices(events[event], event) else old(outbox)
    {
      if event !in events { return false; }
      var e := events[event];
      if e.channel.Some? && e.message.Some? {
        outbox := outbox + [Notice(e.guild, event, CompChanged, ToMessage(e.channel.value), Nothing)];
      }
      return true;
    }

    // ----- Signups

    method CheckDeadline(event: Event, status: Option<Status>, isRaidLead: bool, now: int) returns (closed: bool)
      ensures closed <==> PastDeadline(event, status, isRaidLead, now)
    {
      if isRaidLead { return false; }
      var deadline := event.deadline;
      if (status == Some(Late) || status == Some(Absent)) && event.startsAt > deadline { deadline := event.startsAt; }
      return now > deadline;
    }

    method UpsertSignup(k: SignupKey, a: Answer, now: int) returns (ok: bool, dropped: set<CompName>)
      modifies this`signups, this`slots
      ensures ok <==> k.character in roster
      ensures !ok ==> signups == old(signups) && slots == old(slots)
      ensures ok ==>
        && signups == old(signups)[k := Upserted(old(signups), k, a, now)]
        && slots == Remaining(signups, old(slots), k) && dropped == Evicted(signups, old(slots), k)
    {
      if k.character !in roster { return false, {}; }
      UpsertSignupRow(k, a, now);
      dropped := DropCompSlotsForCharacter(k);
      return true, dropped;
    }

    method Write(k: SignupKey, a: Answer, owned: bool, isRaidLead: bool, now: int) returns (outcome: Outcome)
      modifies this
      ensures (State(), outcome) == WriteStep(old(State()), k, a, owned, isRaidLead, now)
    {
      if k.event !in events { return Refused(NoSuchRow); }
      var event := events[k.event];
      var started := now >= event.startsAt;
      if a.status !in AllowedStatuses(owned, isRaidLead, started) {
        if started { return Refused(EventStarted); }
        if owned { return Refused(StatusRequiresRaidLead); }
        return Refused(SignupNotYours);
      }
      var closed := CheckDeadline(event, Some(a.status), isRaidLead, now);
      if closed { return Refused(SignupsClosed); }
      var kept := a;
      if !a.status.Late? { kept := a.(lateUntil := None); }
      var ok, dropped := UpsertSignup(k, kept, now);
      if !ok { return Refused(BrokenConstraint); }
      NotifySignupChanged(k.event);
      NotifyCompSlotsDropped(k, Some(a.status), dropped);
      return Done;
    }

    method Withdraw(k: SignupKey, isRaidLead: bool, now: int) returns (outcome: Outcome)
      modifies this
      ensures (State(), outcome) == WithdrawStep(old(State()), k, isRaidLead, now)
    {
      if k.event !in events { return Refused(NoSuchRow); }
      var event := events[k.event];
      if now >= event.startsAt { return Refused(EventStarted); }
      var closed := CheckDeadline(event, None, isRaidLead, now);
      if closed { return Refused(SignupsClosed); }
      signups := signups - {k};
      var dropped := DropCompSlotsForCharacter(k);
      NotifySignupChanged(k.event);
      NotifyCompSlotsDropped(k, None, dropped);
      return Done;
    }

    // ----- Late requests

    method UpsertLateRequest(k: SignupKey, a: Answer, newId: RequestId, now: int) returns (ok: bool)
      modifies this`requests, this`requestOf
      ensures ok <==> k.character in roster && (k in old(requestOf) || newId !in old(requests))
      ensures !ok ==> requests == old(requests) && requestOf == old(requestOf)
      ensures ok ==>
        var id := if k in old(requestOf) then old(requestOf)[k] else newId;
        var createdAt := if id in old(requests) then old(requests)[id].createdAt else now;
        && requests == old(requests)[id := LateRequest(k, a, Pending, createdAt, None)]
        && requestOf == old(requestOf)[k := id]
    {
      if k.character !in roster { return false; }
      if k in requestOf {
        var id := requestOf[k];
        var createdAt := if id in requests then requests[id].createdAt else now;
        requests := requests[id := LateRequest(k, a, Pending, createdAt, None)];
      } else if newId in requests {
        return false;
      } else {
        requests := requests[newId := LateRequest(k, a, Pending, now, None)];
        requestOf := requestOf[k := newId];
      }
      return true;
    }

    method File(k: SignupKey, a: Answer, newId: RequestId, now: int) returns (outcome: Outcome)
      modifies this
      ensures (State(), outcome) == FileStep(old(State()), k, a, newId, now)
    {
      if k.event !in events { return Refused(NoSuchRow); }
      var event := events[k.event];
      if now >= event.startsAt { return Refused(EventStarted); }
      var ok := UpsertLateRequest(k, a, newId, now);
      if !ok { return Refused(BrokenConstraint); }
      if event.channel.None? {
        assert outbox == outbox + [];
        return Done;
      }
      var told := ToRole(event.channel.value, RolesOf(leads, event.guild));
      var asked := Asked(event.title, k.character, a.status);
      outbox := outbox + [Notice(event.guild, k.event, LateRequestFiled, told, asked)];
      return Done;
    }

    method Approve(id: RequestId, now: int) returns (outcome: Outcome)
      modifies this
      ensures (State(), outcome) == ApproveStep(old(State()), id, now)
    {
      if id !in requests { return Refused(NoSuchRow); }
      var req := requests[id];
      if !req.state.Pending? { return Refused(RequestDecided); }
      if req.key.event !in events { return Refused(NoSuchRow); }
      if now >= events[req.key.event].startsAt { return Refused(EventStarted); }
      var ok, dropped := UpsertSignup(req.key, req.answer, now);
      if !ok { return Refused(BrokenConstraint); }
      requests := requests[id := req.(state := Approved, decidedAt := Some(now))];
      NotifySignupChanged(req.key.event);
      if dropped == {} {
        assert outbox == outbox + [];
        return Done;
      }
      NotifyCompSlotsDropped(req.key, Some(req.answer.status), dropped);
      return Done;
    }

    /** The reading half of a rejection. */
    method ReadForReject(id: RequestId) returns (outcome: Outcome)
      ensures outcome == RejectRead(State(), id)
    {
      if id !in requests { return Refused(NoSuchRow); }
      if !requests[id].state.Pending? { return Refused(RequestDecided); }
      return Done;
    }

    /** UPDATE late_signup_requests: no test of the state it replaces. */
    method DecideRejected(id: RequestId, now: int)
      modifies this`requests
      ensures State() == RejectWritten(old(State()), id, now)
    {
      if id in requests {
        requests := requests[id := requests[id].(state := Rejected, decidedAt := Some(now))];
      }
    }

    method Reject(id: RequestId, now: int) returns (outcome: Outcome)
      modifies this`requests
      ensures (State(), outcome) == RejectStep(old(State()), id, now)
    {
      outcome := ReadForReject(id);
      if outcome.Done? { DecideRejected(id, now); }
    }

    // ----- Boards

    method InsertBoard(c: CompKey, rows: seq<Assignment>) returns (ok: bool)
      requires forall s | s in slots :: !SlotIn(s, c)
      modifies this`slots
      ensures ok <==> Insertable(roster, rows)
      ensures ok ==> slots == old(slots) + BoardSlots(c, rows)
    {
      for i := 0 to |rows|
        invariant Insertable(roster, rows[..i])
        invariant slots == old(slots) + BoardSlots(c, rows[..i])
      {
        InsertNext(roster, old(slots), c, rows, i);
        ok := InsertCompSlot(c, rows[i]);
        if !ok { return false; }
      }
      assert rows[..|rows|] == rows;
      return true;
    }

    method AssignRoles(event: EventId, rows: seq<Assignment>)
      modifies this`signups
      ensures signups == Assigned(old(signups), event, rows)
    {
      ClearAssignedRoles(event);
      for i := 0 to |rows|
        invariant signups == Assigned(old(signups), event, rows[..i])
      {
        var a := rows[i];
        assert rows[..i + 1][..i] == rows[..i];
        if a.isBench { continue; }
        SetSignupAssignedRole(SignupKey(event, a.id), a.role);
      }
      assert rows[..|rows|] == rows;
    }

    method ReplaceComp(c: CompKey, mode: CompMode, rows: seq<Assignment>) returns (outcome: Outcome)
      modifies this
      ensures (State(), outcome) == ReplaceStep(old(State()), c, mode, rows)
    {
      var savedComps, savedSlots := comps, slots;
      if c.event !in events { return Refused(BrokenConstraint); }
      if c !in comps { comps := comps[c := mode]; }
      DeleteCompSlots(c);
      var ok := InsertBoard(c, rows);
      if !ok {
        comps, slots := savedComps, savedSlots;
        return Refused(BrokenConstraint);
      }
      assert comps == savedComps[c := if c in savedComps then savedComps[c] else mode];
      AssignRoles(c.event, rows);
      var queued := QueueRedraw(c.event);
      return Done;
    }

    /** Reads the pool row by row, in whatever order the rows come. */
    method AssignmentPool(event: EventId) returns (raiders: seq<Raider>)
      requires event in events
      ensures NoDup(raiders) && forall r :: r in raiders <==> r in PoolOf(State(), event)
    {
      raiders := [];
      var left := signups.Items;
      while left != {}
        invariant left <= signups.Items
        invariant NoDup(raiders)
        invariant forall r | r in raiders :: Read(State(), left, event, r)
        invariant forall k | k in signups && Joins(State(), k, event) && (k, signups[k]) !in left ::
          RaiderOf(events[event], k.character, roster[k.character], signups[k].createdAt) in raiders
        decreases left
      {
        var item :| item in left;
        assert item in signups.Items && item == (item.0, signups[item.0]);
        assert forall r | r in raiders :: SignupKey(event, r.id) != item.0;
        left := left - {item};
        var k := item.0;
        if k.event == event && InPool(item.1.answer.status) && k.character in roster {
          raiders := raiders + [RaiderOf(events[event], k.character, roster[k.character], item.1.createdAt)];
        }
      }
      forall k | k in signups ensures (k, signups[k]) !in left {}
    }

    /** The reading half of a lock: a comp a raid lead owns is refused, otherwise the assigner
        answers for the pool as it is now. */
    method ReadForLock(c: CompKey) returns (outcome: Outcome, answer: Option<Result>)
      ensures outcome == LockRead(State(), c) && (answer.Some? <==> outcome.Done?)
      ensures answer.Some? ==> IsAnswerFor(State(), c.event, answer.value)
                               && answer.value.assignments == LockedRows(State(), c.event)
    {
      if c in comps && comps[c].Manual? { return Refused(CompIsManual), None; }
      if c.event !in events { return Refused(NoSuchRow), None; }
      var event := events[c.event];
      if event.template.None? { return Refused(InvalidTemplate), None; }
      var raiders := AssignmentPool(c.event);
      AnyListingLocksAlike(State(), c.event, raiders);
      var result := Assigner.Assign(raiders, event.template.value, ModeFor(event));
      assert ReadsPool(State(), c.event, raiders) && IsAnswerFor(State(), c.event, result);
      return Done, Some(result);
    }

    /** Both halves with nothing in between. */
    method Lock(c: CompKey) returns (outcome: Outcome, answer: Option<Result>)
      modifies this
      ensures (State(), outcome) == LockStep(old(State()), c)
      ensures answer.Some? <==> outcome.Done?
      ensures answer.Some? ==> IsAnswerFor(old(State()), c.event, answer.value)
    {
      outcome, answer := ReadForLock(c);
      if outcome.Refused? { return outcome, None; }
      outcome := ReplaceComp(c, Auto, answer.value.assignments);
      return outcome, if outcome.Done? then answer else None;
    }

    method ReadForSave(c: CompKey, seats: seq<Seat>) returns (outcome: Outcome, rows: seq<Assignment>)
      ensures outcome == SaveRead(State(), c, seats)
      ensures outcome.Done? ==> rows == ManualRows(seats)
    {
      if c in comps && comps[c].Auto? { return Refused(CompIsAuto), []; }
      var ok;
      ok, rows := ManualAssignments(seats);
      return if ok then Done else Refused(InvalidBoard), rows;
    }

    method Save(c: CompKey, seats: seq<Seat>) returns (outcome: Outcome)
      modifies this
      ensures (State(), outcome) == SaveStep(old(State()), c, seats)
    {
      var rows;
      outcome, rows := ReadForSave(c, seats);
      if outcome.Done? { outcome := ReplaceComp(c, Manual, rows); }
    }

    method SetMode(c: CompKey, mode: CompMode) returns (outcome: Outcome)
      modifies this
      ensures (State(), outcome) == SetModeStep(old(State()), c, mode)
    {
      var saved := comps;
      if c in comps { comps := comps[c := mode]; }
      var queued := QueueRedraw(c.event);
      if !queued {
        comps := saved;
        return Refused(NoSuchRow);
      }
      return Done;
    }

    method Rename(c: CompKey, name: CompName) returns (outcome: Outcome)
      modifies this
      ensures (State(), outcome) == RenameStep(old(State()), c, name)
    {
      var to := TrimSpace(name);
      if to == "" { return Refused(InvalidName); }
      if c !in comps { return Refused(CompNotFound); }
      if to == c.name { return Done; }
      outcome := RenameComp(c, to);
    }

    /** UPDATE comps SET name, with ON UPDATE CASCADE carrying the slots along. */
    method MoveComp(c: CompKey, to: CompName)
      requires c in comps
      modifies this`comps, this`slots
      ensures comps == (old(comps) - {c})[CompKey(c.event, to) := old(comps)[c]]
      ensures slots == SlotsRenamed(old(slots), c, to)
    {
      comps := (comps - {c})[CompKey(c.event, to) := comps[c]];
      slots := SlotsRenamed(slots, c, to);
    }

    /** The new name in one statement, the slots by its cascade, and the redraw. */
    method RenameComp(c: CompKey, to: CompName) returns (outcome: Outcome)
      requires c in comps
      modifies this`comps, this`slots, this`outbox
      ensures outcome == if CompKey(c.event, to) in old(comps) then Refused(CompNameTaken)
                         else if c.event !in events then Refused(NoSuchRow) else Done
      ensures !outcome.Done? ==> State() == old(State())
      ensures outcome.Done? ==> State() == RenamedTo(old(State()), c, to)
    {
      var savedComps, savedSlots := comps, slots;
      if CompKey(c.event, to) in comps { return Refused(CompNameTaken); }
      ghost var before := State();
      MoveComp(c, to);
      ghost var moved := State();
      assert moved == before.(comps := comps, slots := slots);
      var queued := QueueRedraw(c.event);
      assert State() == moved.(outbox := outbox);
      if !queued {
        comps, slots := savedComps, savedSlots;
        return Refused(NoSuchRow);
      }
      return Done;
    }

    method Resheet(id: CharacterId, s: Sheet) returns (outcome: Outcome)
      modifies this
      ensures (State(), outcome) == ResheetStep(old(State()), id, s)
    {
      if id !in roster { return Refused(NoSuchRow); }
      roster := roster[id := s];
      return Done;
    }
  }

  /** The pool of the event, read in some order. */
  ghost predicate ReadsPool(t: Tables, event: EventId, raiders: seq<Raider>)
    requires event in t.events
  {
    NoDup(raiders) && forall r :: r in raiders <==> r in PoolOf(t, event)
  }

  /** The assigner's whole answer, advisories included, for some reading of the pool. */
  ghost predicate IsAnswerFor(t: Tables, event: EventId, answer: Result) {
    && event in t.events && t.events[event].template.Some?
    && var e := t.events[event];
       exists raiders :: ReadsPool(t, event, raiders)
                         && answer == Board.AssignResult(raiders, e.template.value, ModeFor(e))
  }

  function SlotFor(a: Assignment): Slot { Slot(a.role, a.slotIndex, a.isBench, a.reason) }

  predicate Clashes(slots: map<SlotKey, Slot>, c: CompKey, a: Assignment) {
    exists s | s in slots && SlotIn(s, c) ::
      s.character == a.id || (slots[s].isBench == a.isBench && slots[s].index == a.slotIndex)
  }

  lemma InsertablePrefix(roster: map<CharacterId, Sheet>, rows: seq<Assignment>, i: nat)
    requires i <= |rows| && Insertable(roster, rows)
    ensures Insertable(roster, rows[..i])
  {
  }

  /** One more row fits exactly when its character is known and nothing stored clashes. */
  lemma InsertableGrows(
    roster: map<CharacterId, Sheet>, base: map<SlotKey, Slot>, c: CompKey, front: seq<Assignment>, a: Assignment)
    requires Insertable(roster, front) && forall s | s in base :: !SlotIn(s, c)
    ensures Insertable(roster, front + [a]) <==> a.id in roster && !Clashes(base + BoardSlots(c, front), c, a)
  {
    var slots := base + BoardSlots(c, front);
    assert (front + [a])[|front|] == a;
    if Clashes(slots, c, a) {
      var s :| s in slots && SlotIn(s, c)
               && (s.character == a.id || (slots[s].isBench == a.isBench && slots[s].index == a.slotIndex));
      Runs.BoardSlotsListed(c, front, s);
      var i :| 0 <= i < |front| && front[i].id == s.character && BoardSlots(c, front)[s] == SlotFor(front[i]);
      assert (front + [a])[i] == front[i];
    }
    if a.id in roster && !Clashes(slots, c, a) {
      forall i | 0 <= i < |front|
        ensures front[i].id != a.id && (front[i].isBench == a.isBench ==> front[i].slotIndex != a.slotIndex)
      {
        RowIsStored(roster, c, front, i);
        var s := SlotKey(c.event, c.name, front[i].id);
        assert s in slots && SlotIn(s, c) && slots[s] == SlotFor(front[i]);
      }
    }
  }

  /** One turn of the insert loop: what the constraints say of the next row, and what storing
      it adds. A row refused here refuses the whole board. */
  lemma InsertNext(roster: map<CharacterId, Sheet>, base: map<SlotKey, Slot>, c: CompKey, rows: seq<Assignment>, i: nat)
    requires i < |rows| && Insertable(roster, rows[..i]) && forall s | s in base :: !SlotIn(s, c)
    ensures Insertable(roster, rows[..i + 1])
        <==> rows[i].id in roster && !Clashes(base + BoardSlots(c, rows[..i]), c, rows[i])
    ensures Insertable(roster, rows) ==> Insertable(roster, rows[..i + 1])
    ensures base + BoardSlots(c, rows[..i + 1])
         == (base + BoardSlots(c, rows[..i]))[SlotKey(c.event, c.name, rows[i].id) := SlotFor(rows[i])]
  {
    assert rows[..i + 1] == rows[..i] + [rows[i]];
    assert rows[..i + 1][..i] == rows[..i];
    InsertableGrows(roster, base, c, rows[..i], rows[i]);
    if Insertable(roster, rows) { InsertablePrefix(roster, rows, i + 1); }
  }

  lemma {:induction false} RowIsStored(roster: map<CharacterId, Sheet>, c: CompKey, rows: seq<Assignment>, i: nat)
    requires Insertable(roster, rows) && i < |rows|
    ensures var s := SlotKey(c.event, c.name, rows[i].id);
      s in BoardSlots(c, rows) && BoardSlots(c, rows)[s] == SlotFor(rows[i])
  {
    var last, front := |rows| - 1, rows[..|rows| - 1];
    if i == last {
    } else {
      InsertablePrefix(roster, rows, last);
      RowIsStored(roster, c, front, i);
    }
  }

  /** A raider already read belongs to a pool row no longer waiting. */
  ghost predicate Read(t: Tables, left: set<(SignupKey, Signup)>, event: EventId, r: Raider)
    requires event in t.events
  {
    var k := SignupKey(event, r.id);
    && Joins(t, k, event)
    && (k, t.signups[k]) !in left
    && r == RaiderOf(t.events[event], r.id, t.roster[r.id], t.signups[k].createdAt)
  }

  /** The order the pool is read in does not reach the board. */
  lemma AnyListingLocksAlike(t: Tables, event: EventId, raiders: seq<Raider>)
    requires event in t.events && t.events[event].template.Some?
    requires NoDup(raiders) && forall r :: r in raiders <==> r in PoolOf(t, event)
    ensures DistinctIds(raiders)
    ensures var e := t.events[event];
      Board.AssignResult(raiders, e.template.value, ModeFor(e)).assignments == LockedRows(t, event)
  {
    var pool := Listing(PoolOf(t, event));
    Runs.PoolIsDistinct(t, event);
    SameElementsPermute(pool, raiders);
    Board.SortedStaysDistinct(pool, raiders);
    OrderIndependence.AssignIgnoresOrder(pool, raiders, t.events[event].template.value, ModeFor(t.events[event]));
  }

  lemma CountSideStep(seats: seq<Seat>, i: nat, isBench: bool)
    requires i < |seats|
    ensures var before, after := CountSide(seats[..i], isBench), CountSide(seats[..i + 1], isBench);
      && after == before + (if seats[i].isBench == isBench then 1 else 0)
      && Board.Int16(Board.Int16(before) + 1) == Board.Int16(before + 1)
  {
    assert seats[..i + 1][..i] == seats[..i];
  }

  /** Turns a raid lead's board into rows, numbering each partition from zero. */
  method ManualAssignments(seats: seq<Seat>) returns (ok: bool, rows: seq<Assignment>)
    ensures ok <==> BoardIsValid(seats)
    ensures ok ==> rows == ManualRows(seats)
  {
    var seen: set<CharacterId> := {};
    var seated, benched := 0, 0;
    rows := [];
    for i := 0 to |seats|
      invariant ValidUpTo(seats, i)
      invariant seen == SeenIn(seats, i)
      invariant seated == Board.Int16(CountSide(seats[..i], false))
      invariant benched == Board.Int16(CountSide(seats[..i], true))
      invariant |rows| == i && forall j | 0 <= j < i :: rows[j] == ManualRow(seats, j)
    {
      var p := seats[i];
      SeenStep(seats, i);
      if p.id in seen { return false, []; }
      seen := seen + {p.id};
      if p.role.None? { return false, []; }
      CountSideStep(seats, i, false);
      CountSideStep(seats, i, true);
      var index := seated;
      if p.isBench {
        index := benched;
        benched := Board.Int16(benched + 1);
      } else {
        seated := Board.Int16(seated + 1);
      }
      rows := rows + [Assignment(p.id, p.role.value, index, p.isBench, ByRaidLead)];
    }
    return true, rows;
  }

  function SeenIn(seats: seq<Seat>, n: nat): set<CharacterId>
    requires n <= |seats|
  {
    set j | 0 <= j < n :: seats[j].id
  }

  lemma SeenStep(seats: seq<Seat>, i: nat)
    requires i < |seats| && ValidUpTo(seats, i)
    ensures SeenIn(seats, i + 1) == SeenIn(seats, i) + {seats[i].id}
    ensures ValidUpTo(seats, i + 1) <==> seats[i].role.Some? && seats[i].id !in SeenIn(seats, i)
    ensures !ValidUpTo(seats, i + 1) ==> !BoardIsValid(seats)
  {
  }
}
