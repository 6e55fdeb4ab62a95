/** What each accepted signup and board operation leaves, column by column. Times, names and
    rows are those of the operation and of the tables before it. */
module Effects {
  import opened Options
  import opened Sequences
  import opened Comp
  import opened Notices
  import opened Tables
  import opened Runs
  import opened Races
  import Board
  import EventStore

  // ----- Signups

  /** Every signup but this one is as it was. */
  ghost predicate OtherSignupsStay(t: Tables, after: Tables, k: SignupKey) {
    forall other | other != k ::
      && (other in after.signups <==> other in t.signups)
      && (other in t.signups ==> after.signups[other] == t.signups[other])
  }

  /** The character's slots of this event are gone, or none is; every other slot is as it was. */
  ghost predicate SlotsGone(t: Tables, after: Tables, k: SignupKey, gone: bool) {
    forall s: SlotKey ::
      && (s in after.slots <==> s in t.slots && !(gone && s.event == k.event && s.character == k.character))
      && (s in after.slots ==> after.slots[s] == t.slots[s])
  }

  ghost predicate RestStays(t: Tables, after: Tables) {
    after.events == t.events && after.leads == t.leads && after.roster == t.roster && after.comps == t.comps
  }

  ghost predicate RequestsStay(t: Tables, after: Tables) {
    after.requests == t.requests && after.requestOf == t.requestOf
  }

  /** What an accepted answer stores, on whatever path it comes: the answer itself, the time
      of the first one, and the assigned role exactly as long as the status stands. */
  ghost predicate Stores(t: Tables, after: Tables, k: SignupKey, a: Answer, lateUntil: Option<int>, now: int) {
    && k in after.signups
    && after.signups[k].answer.status == a.status && after.signups[k].answer.note == a.note
    && after.signups[k].answer.lateUntil == lateUntil
    && after.signups[k].createdAt == (if k in t.signups then t.signups[k].createdAt else now)
    && after.signups[k].assignedRole
       == (if k in t.signups && t.signups[k].answer.status == a.status then t.signups[k].assignedRole else None)
    && OtherSignupsStay(t, after, k)
    && SlotsGone(t, after, k, !(a.status.Confirmed? || a.status.Late?))
  }

  lemma AnswerStores(t: Tables, k: SignupKey, a: Answer, now: int)
    requires k.event in t.events
    ensures Stores(t, Answered(t, k, a, now), k, a, a.lateUntil, now)
    ensures RestStays(t, Answered(t, k, a, now)) && RequestsStay(t, Answered(t, k, a, now))
  {
  }

  /** An accepted write stores the status and note it was given, and the time only beside LATE. */
  lemma WriteStores(t: Tables, k: SignupKey, a: Answer, owned: bool, isRaidLead: bool, now: int)
    requires WriteStep(t, k, a, owned, isRaidLead, now).1.Done?
    ensures var after := WriteStep(t, k, a, owned, isRaidLead, now).0;
      && Stores(t, after, k, a, if a.status.Late? then a.lateUntil else None, now)
      && RestStays(t, after) && RequestsStay(t, after)
  {
    AnswerStores(t, k, if a.status.Late? then a else a.(lateUntil := None), now);
  }

  /** Why a write is refused; refused, it changes nothing. */
  lemma WriteRefusals(t: Tables, k: SignupKey, a: Answer, owned: bool, isRaidLead: bool, now: int, why: Refusal)
    requires WriteStep(t, k, a, owned, isRaidLead, now).1 == Refused(why)
    ensures WriteStep(t, k, a, owned, isRaidLead, now).0 == t
    ensures why.NoSuchRow? <==> k.event !in t.events
    ensures k.event in t.events ==>
      var e := t.events[k.event];
      var theirs := TheirsToWrite(a.status, owned, isRaidLead, e.startsAt <= now);
      && (why.EventStarted? <==> !theirs && e.startsAt <= now)
      && (why.StatusRequiresRaidLead? <==> !theirs && now < e.startsAt && owned)
      && (why.SignupNotYours? <==> !theirs && now < e.startsAt && !owned)
      && (why.SignupsClosed? <==> theirs && !StillOpen(e, Some(a.status), isRaidLead, now))
      && (why.BrokenConstraint? <==> k.character !in t.roster && theirs
                                     && StillOpen(e, Some(a.status), isRaidLead, now))
  {
    if k.event in t.events { ListedStatus(a.status, owned, isRaidLead, Started(t.events[k.event], now)); }
  }

  /** A withdrawal the clock allows takes the signup and all its slots of the event away. */
  lemma WithdrawalRemoves(t: Tables, k: SignupKey, isRaidLead: bool, now: int)
    ensures var (after, outcome) := WithdrawStep(t, k, isRaidLead, now);
      && (outcome.Done? <==> k.event in t.events && now < t.events[k.event].startsAt
                             && StillOpen(t.events[k.event], None, isRaidLead, now))
      && (outcome.Refused? ==> after == t)
      && (outcome.Done? ==>
            && k !in after.signups && OtherSignupsStay(t, after, k) && SlotsGone(t, after, k, true)
            && RestStays(t, after) && RequestsStay(t, after))
  {
  }

  // ----- Late requests

  ghost predicate OtherRequestsStay(t: Tables, after: Tables, id: RequestId) {
    forall other | other != id ::
      && (other in after.requests <==> other in t.requests)
      && (other in t.requests ==> after.requests[other] == t.requests[other])
  }

  /** Before the start a request of a known character is filed: the one there is, reopened with
      the new answer and the time it was first filed, or a new one. */
  lemma FilingAsks(t: Tables, k: SignupKey, a: Answer, newId: RequestId, now: int)
    requires OneRequestEach(t) && newId !in t.requests
    ensures var (after, outcome) := FileStep(t, k, a, newId, now);
      && (outcome.Done? <==> k.event in t.events && now < t.events[k.event].startsAt && k.character in t.roster)
      && (outcome.Refused? ==> after == t)
      && (outcome.Done? ==>
            var id := if k in t.requestOf then t.requestOf[k] else newId;
            && k in after.requestOf && after.requestOf[k] == id && id in after.requests
            && after.requests[id].key == k && after.requests[id].answer == a
            && after.requests[id].state.Pending? && after.requests[id].decidedAt.None?
            && after.requests[id].createdAt == (if k in t.requestOf then t.requests[id].createdAt else now)
            && OtherRequestsStay(t, after, id)
            && RestStays(t, after) && after.signups == t.signups && after.slots == t.slots)
  {
  }

  /** A decision changes the request's state and the time of the decision, and nothing else of it. */
  ghost predicate Decides(t: Tables, after: Tables, id: RequestId, state: RequestState, now: int) {
    && id in t.requests && id in after.requests
    && after.requests[id].state == state && after.requests[id].decidedAt == Some(now)
    && after.requests[id].key == t.requests[id].key && after.requests[id].answer == t.requests[id].answer
    && after.requests[id].createdAt == t.requests[id].createdAt
    && OtherRequestsStay(t, after, id) && after.requestOf == t.requestOf
  }

  /** Before the start a pending request of a known character can be approved, and that stores
      its answer as it was filed, time and all. */
  lemma ApprovalStores(t: Tables, id: RequestId, now: int)
    ensures var (after, outcome) := ApproveStep(t, id, now);
      && (outcome.Done? <==>
            && id in t.requests && t.requests[id].state.Pending?
            && t.requests[id].key.event in t.events && now < t.events[t.requests[id].key.event].startsAt
            && t.requests[id].key.character in t.roster)
      && (outcome.Refused? ==> after == t)
      && (outcome.Done? ==>
            var asked := t.requests[id];
            && Stores(t, after, asked.key, asked.answer, asked.answer.lateUntil, now)
            && Decides(t, after, id, Approved, now) && RestStays(t, after))
  {
    if ApproveStep(t, id, now).1.Done? { AnswerStores(t, t.requests[id].key, t.requests[id].answer, now); }
  }

  /** A pending request can be rejected at any time, and that touches nothing but the request. */
  lemma RejectionDecides(t: Tables, id: RequestId, now: int)
    ensures var (after, outcome) := RejectStep(t, id, now);
      && (outcome.Done? <==> id in t.requests && t.requests[id].state.Pending?)
      && (outcome.Refused? ==> after == t)
      && (outcome.Done? ==>
            && Decides(t, after, id, Rejected, now) && RestStays(t, after)
            && after.signups == t.signups && after.slots == t.slots && after.outbox == t.outbox)
  {
  }

  // ----- Boards

  /** The comp holds exactly these rows as its slots, one for each. */
  ghost predicate HoldsRows(after: Tables, c: CompKey, rows: seq<Assignment>) {
    && (forall i | 0 <= i < |rows| ::
          var s := SlotKey(c.event, c.name, rows[i].id);
          && s in after.slots
          && after.slots[s].role == rows[i].role && after.slots[s].index == rows[i].slotIndex
          && after.slots[s].isBench == rows[i].isBench && after.slots[s].reason == rows[i].reason)
    && (forall s | s in after.slots && s.event == c.event && s.comp == c.name ::
          exists i :: 0 <= i < |rows| && rows[i].id == s.character)
  }

  /** Every signup of the event has the role of its character's seat among the rows assigned,
      and none without one; answers and other events are as they were. */
  ghost predicate AssignsSeats(t: Tables, after: Tables, event: EventId, rows: seq<Assignment>) {
    && after.signups.Keys == t.signups.Keys
    && forall k | k in t.signups ::
         && after.signups[k].answer == t.signups[k].answer && after.signups[k].createdAt == t.signups[k].createdAt
         && (if k.event != event then after.signups[k] == t.signups[k]
             else forall role :: after.signups[k].assignedRole == Some(role)
                    <==> exists i :: 0 <= i < |rows| && !rows[i].isBench && rows[i].id == k.character
                                     && rows[i].role == role)
  }

  /** Nothing of any other comp changes, and nothing but boards and assigned roles. */
  ghost predicate OnlyThisComp(t: Tables, after: Tables, c: CompKey, mode: CompMode) {
    && after.comps == t.comps[c := mode]
    && (forall s: SlotKey | !(s.event == c.event && s.comp == c.name) ::
          (s in after.slots <==> s in t.slots) && (s in t.slots ==> after.slots[s] == t.slots[s]))
    && after.events == t.events && after.leads == t.leads && after.roster == t.roster && RequestsStay(t, after)
  }

  lemma {:induction false} RoleGivenAmong(rows: seq<Assignment>, id: CharacterId, role: Role)
    requires forall i, j | 0 <= i < j < |rows| :: rows[i].id != rows[j].id
    ensures RoleGiven(rows, id) == Some(role)
        <==> exists i :: 0 <= i < |rows| && !rows[i].isBench && rows[i].id == id && rows[i].role == role
  {
    if rows == [] {
    } else {
      var front, last := rows[..|rows| - 1], rows[|rows| - 1];
      RoleGivenAmong(front, id, role);
      if RoleGiven(front, id) == Some(role) {
        var i :| 0 <= i < |front| && !front[i].isBench && front[i].id == id && front[i].role == role;
        assert rows[i] == front[i];
      }
      if i :| 0 <= i < |rows| && !rows[i].isBench && rows[i].id == id && rows[i].role == role {
        if i < |front| { assert front[i] == rows[i]; } else { assert rows[i] == last; }
      }
    }
  }

  lemma ReplacingHolds(t: Tables, c: CompKey, mode: CompMode, rows: seq<Assignment>)
    requires ReplaceStep(t, c, mode, rows).1.Done?
    ensures HoldsRows(ReplaceStep(t, c, mode, rows).0, c, rows)
  {
    var after := ReplaceStep(t, c, mode, rows).0;
    forall i | 0 <= i < |rows|
      ensures var s := SlotKey(c.event, c.name, rows[i].id);
        s in after.slots && after.slots[s] == EventStore.SlotFor(rows[i])
    {
      EventStore.RowIsStored(t.roster, c, rows, i);
    }
    forall s | s in after.slots && s.event == c.event && s.comp == c.name
      ensures exists i :: 0 <= i < |rows| && rows[i].id == s.character
    {
      BoardSlotsListed(c, rows, s);
    }
  }

  lemma ReplacingAssigns(t: Tables, c: CompKey, mode: CompMode, rows: seq<Assignment>)
    requires ReplaceStep(t, c, mode, rows).1.Done?
    ensures AssignsSeats(t, ReplaceStep(t, c, mode, rows).0, c.event, rows)
  {
    var after := ReplaceStep(t, c, mode, rows).0;
    forall k, role | k in t.signups && k.event == c.event
      ensures after.signups[k].assignedRole == Some(role)
          <==> exists i :: 0 <= i < |rows| && !rows[i].isBench && rows[i].id == k.character && rows[i].role == role
    {
      RoleGivenAmong(rows, k.character, role);
    }
  }

  lemma ReplacingIsLocal(t: Tables, c: CompKey, mode: CompMode, rows: seq<Assignment>)
    requires ReplaceStep(t, c, mode, rows).1.Done?
    ensures OnlyThisComp(t, ReplaceStep(t, c, mode, rows).0, c, if c in t.comps then t.comps[c] else mode)
  {
    var after := ReplaceStep(t, c, mode, rows).0;
    forall s: SlotKey | !(s.event == c.event && s.comp == c.name)
      ensures (s in after.slots <==> s in t.slots) && (s in t.slots ==> after.slots[s] == t.slots[s])
    {
      BoardSlotsListed(c, rows, s);
    }
  }

  // ----- What a lock reads and writes

  /** r is a raider of the pool: a CONFIRMED or LATE signup of a known character, who brings
      their sheet and the time they signed up; Mythic+ ranks by score, a raid by item level. */
  ghost predicate Pooled(t: Tables, event: EventId, r: Raider)
    requires event in t.events
  {
    var k := SignupKey(event, r.id);
    && k in t.signups && (t.signups[k].answer.status.Confirmed? || t.signups[k].answer.status.Late?)
    && r.id in t.roster
    && r.name == t.roster[r.id].name && r.isMain == t.roster[r.id].isMain && r.roles == t.roster[r.id].roles
    && r.signedUpAt == t.signups[k].createdAt
    && (if t.events[event].mythicPlus
        then r.score == (if t.roster[r.id].mplusScore.None? then 0.0 else t.roster[r.id].mplusScore.value)
        else r.score == (if t.roster[r.id].ilvl.None? then 0.0 else t.roster[r.id].ilvl.value))
  }

  /** A listing of the pool, nobody twice. */
  ghost predicate ListsPool(t: Tables, event: EventId, raiders: seq<Raider>)
    requires event in t.events
  {
    NoDup(raiders) && forall r :: r in raiders <==> Pooled(t, event, r)
  }

  lemma PooledIsThePool(t: Tables, event: EventId, r: Raider)
    requires event in t.events
    ensures Pooled(t, event, r) <==> r in PoolOf(t, event)
  {
    var k := SignupKey(event, r.id);
    if Pooled(t, event, r) {
      assert k in t.signups && Joins(t, k, event);
      assert RaiderOf(t.events[event], r.id, t.roster[r.id], t.signups[k].createdAt) == r;
    }
  }

  lemma SomeListing(t: Tables, event: EventId) returns (raiders: seq<Raider>)
    requires event in t.events
    ensures ListsPool(t, event, raiders)
  {
    raiders := Listing(PoolOf(t, event));
    forall r ensures r in raiders <==> Pooled(t, event, r) { PooledIsThePool(t, event, r); }
  }

  /** The rows a lock decides on are the assigner's for any listing of the pool, sized as the
      event asks: a five-man group for Mythic+, the fixed raid of Mythic, otherwise whoever
      turns up. */
  lemma LocksTheAnswer(t: Tables, event: EventId, raiders: seq<Raider>)
    requires event in t.events && t.events[event].template.Some? && ListsPool(t, event, raiders)
    ensures var e := t.events[event];
      LockedRows(t, event)
      == if e.mythicPlus then Board.AssignResult(raiders, e.template.value, MythicPlus).assignments
         else if e.mythic then Board.AssignResult(raiders, e.template.value, RaidMythic).assignments
         else Board.AssignResult(raiders, e.template.value, RaidFlex).assignments
  {
    forall r ensures r in raiders <==> r in PoolOf(t, event) { PooledIsThePool(t, event, r); }
    EventStore.AnyListingLocksAlike(t, event, raiders);
  }

  /** An accepted lock leaves an AUTO comp that holds the assigner's rows for the pool. */
  lemma LockWritesTheAnswer(t: Tables, c: CompKey, raiders: seq<Raider>)
    requires LockStep(t, c).1.Done? && ListsPool(t, c.event, raiders)
    ensures var e, after := t.events[c.event], LockStep(t, c).0;
      var mode := if e.mythicPlus then MythicPlus else if e.mythic then RaidMythic else RaidFlex;
      var rows := Board.AssignResult(raiders, e.template.value, mode).assignments;
      HoldsRows(after, c, rows) && AssignsSeats(t, after, c.event, rows) && OnlyThisComp(t, after, c, Auto)
  {
    LocksTheAnswer(t, c.event, raiders);
    ReplacingHolds(t, c, Auto, LockedRows(t, c.event));
    ReplacingAssigns(t, c, Auto, LockedRows(t, c.event));
    ReplacingIsLocal(t, c, Auto, LockedRows(t, c.event));
  }

  /** The answer handed to the raid lead is the assigner's for some listing of the pool. */
  lemma AnswersAreTheAssigners(t: Tables, event: EventId, answer: Result)
    ensures EventStore.IsAnswerFor(t, event, answer)
        <==> event in t.events && t.events[event].template.Some?
             && exists raiders :: ListsPool(t, event, raiders) && answer == AnswerFor(t.events[event], raiders)
  {
    if event in t.events && t.events[event].template.Some? {
      forall raiders ensures EventStore.ReadsPool(t, event, raiders) <==> ListsPool(t, event, raiders) {
        forall r ensures r in PoolOf(t, event) <==> Pooled(t, event, r) { PooledIsThePool(t, event, r); }
      }
    }
  }

  function AnswerFor(e: Event, raiders: seq<Raider>): Result
    requires e.template.Some?
  {
    if e.mythicPlus then Board.AssignResult(raiders, e.template.value, MythicPlus)
    else if e.mythic then Board.AssignResult(raiders, e.template.value, RaidMythic)
    else Board.AssignResult(raiders, e.template.value, RaidFlex)
  }

  // ----- What a save writes

  /** How many seats of the same side were submitted before this one. */
  function BeforeOnItsSide(seats: seq<Seat>, i: nat): nat
    requires i < |seats|
  {
    |set j | 0 <= j < i && seats[j].isBench == seats[i].isBench|
  }

  lemma {:induction false} CountSideCounts(seats: seq<Seat>, i: nat, isBench: bool)
    requires i <= |seats|
    ensures CountSide(seats[..i], isBench) == |set j | 0 <= j < i && seats[j].isBench == isBench|
  {
    if i == 0 {
    } else {
      CountSideCounts(seats, i - 1, isBench);
      assert seats[..i][..i - 1] == seats[..i - 1];
      var before := set j | 0 <= j < i - 1 && seats[j].isBench == isBench;
      var upTo := set j | 0 <= j < i && seats[j].isBench == isBench;
      if seats[i - 1].isBench == isBench {
        assert upTo == before + {i - 1};
      } else {
        assert upTo == before;
      }
    }
  }

  /** The rows of a board are its seats, each side numbered from zero. */
  lemma RowsAreTheSeats(seats: seq<Seat>, i: nat)
    requires BoardIsValid(seats) && i < |seats|
    ensures var row := ManualRows(seats)[i];
      && row.id == seats[i].id && Some(row.role) == seats[i].role && row.isBench == seats[i].isBench
      && row.reason.ByRaidLead? && row.slotIndex == Board.Int16(BeforeOnItsSide(seats, i))
  {
    CountSideCounts(seats, i, seats[i].isBench);
  }

  /** A board is accepted by a comp that is not AUTO when each seat has a role, nobody sits
      twice, everybody is known and no position is given twice. */
  lemma SaveGoesThrough(t: Tables, c: CompKey, seats: seq<Seat>)
    ensures SaveStep(t, c, seats).1.Done?
        <==> && !(c in t.comps && t.comps[c].Auto?) && c.event in t.events
             && (forall i | 0 <= i < |seats| :: seats[i].role.Some? && seats[i].id in t.roster)
             && (forall i, j | 0 <= i < j < |seats| ::
                   seats[i].id != seats[j].id
                   && (seats[i].isBench == seats[j].isBench ==>
                         Board.Int16(BeforeOnItsSide(seats, i)) != Board.Int16(BeforeOnItsSide(seats, j))))
  {
    if BoardIsValid(seats) {
      var rows := ManualRows(seats);
      forall i | 0 <= i < |seats|
        ensures rows[i].id == seats[i].id && rows[i].isBench == seats[i].isBench
        ensures rows[i].slotIndex == Board.Int16(BeforeOnItsSide(seats, i))
      {
        RowsAreTheSeats(seats, i);
      }
    }
  }

  /** The comp holds the seats as they were submitted and nobody else, each side numbered from
      zero in 16 bits. */
  ghost predicate HoldsSeats(after: Tables, c: CompKey, seats: seq<Seat>) {
    && (forall i | 0 <= i < |seats| ::
          var s := SlotKey(c.event, c.name, seats[i].id);
          && s in after.slots && Some(after.slots[s].role) == seats[i].role
          && after.slots[s].isBench == seats[i].isBench && after.slots[s].reason.ByRaidLead?
          && after.slots[s].index == Board.Int16(|set j | 0 <= j < i && seats[j].isBench == seats[i].isBench|))
    && (forall s | s in after.slots && s.event == c.event && s.comp == c.name ::
          exists i :: 0 <= i < |seats| && seats[i].id == s.character)
  }

  lemma RowsHoldSeats(after: Tables, c: CompKey, seats: seq<Seat>)
    requires BoardIsValid(seats) && HoldsRows(after, c, ManualRows(seats))
    ensures HoldsSeats(after, c, seats)
  {
    var rows := ManualRows(seats);
    forall i | 0 <= i < |seats|
      ensures var s := SlotKey(c.event, c.name, seats[i].id);
        && s in after.slots && Some(after.slots[s].role) == seats[i].role
        && after.slots[s].isBench == seats[i].isBench && after.slots[s].reason.ByRaidLead?
        && after.slots[s].index == Board.Int16(|set j | 0 <= j < i && seats[j].isBench == seats[i].isBench|)
    {
      RowsAreTheSeats(seats, i);
    }
    forall s | s in after.slots && s.event == c.event && s.comp == c.name
      ensures exists i :: 0 <= i < |seats| && seats[i].id == s.character
    {
      var i :| 0 <= i < |rows| && rows[i].id == s.character;
      RowsAreTheSeats(seats, i);
    }
  }

  /** An accepted save leaves a MANUAL comp that holds the board it was given, and gives every
      signup of the event the role of a seat off the bench, if its character has one. */
  lemma SaveStoresTheBoard(t: Tables, c: CompKey, seats: seq<Seat>)
    requires SaveStep(t, c, seats).1.Done?
    ensures HoldsSeats(SaveStep(t, c, seats).0, c, seats)
    ensures OnlyThisComp(t, SaveStep(t, c, seats).0, c, Manual)
  {
    ReplacingHolds(t, c, Manual, ManualRows(seats));
    ReplacingIsLocal(t, c, Manual, ManualRows(seats));
    RowsHoldSeats(SaveStep(t, c, seats).0, c, seats);
  }

  lemma SaveAssignsTheSeats(t: Tables, c: CompKey, seats: seq<Seat>, k: SignupKey, role: Role)
    requires SaveStep(t, c, seats).1.Done? && k in t.signups && k.event == c.event
    ensures var after := SaveStep(t, c, seats).0;
      && k in after.signups && after.signups[k].answer == t.signups[k].answer
      && (after.signups[k].assignedRole == Some(role)
          <==> exists i :: 0 <= i < |seats| && !seats[i].isBench && seats[i].id == k.character
                           && seats[i].role == Some(role))
  {
    var rows := ManualRows(seats);
    ReplacingAssigns(t, c, Manual, rows);
    forall i | 0 <= i < |seats|
      ensures rows[i].id == seats[i].id && Some(rows[i].role) == seats[i].role && rows[i].isBench == seats[i].isBench
    {
      RowsAreTheSeats(seats, i);
    }
  }

  // ----- Modes and names

  /** Changing the mode touches the mode of a comp that exists, and nothing else. */
  lemma ModeIsSet(t: Tables, c: CompKey, mode: CompMode)
    ensures var (after, outcome) := SetModeStep(t, c, mode);
      && (outcome.Done? <==> c.event in t.events)
      && (outcome.Refused? ==> after == t)
      && (outcome.Done? ==>
            && after.comps.Keys == t.comps.Keys
            && (forall d | d in t.comps :: after.comps[d] == if d == c then mode else t.comps[d])
            && after.slots == t.slots && after.signups == t.signups && after.roster == t.roster
            && RequestsStay(t, after))
  {
  }

  lemma {:induction false} TrimmedSplits(s: string) returns (front: string, back: string)
    ensures s == front + TrimSpace(s) + back
    ensures forall x | x in front || x in back :: IsSpace(x)
    ensures var u := TrimSpace(s); u != "" ==> !IsSpace(u[0]) && !IsSpace(u[|u| - 1])
    decreases |s|
  {
    if s != [] && IsSpace(s[0]) {
      front, back := TrimmedSplits(s[1..]);
      assert s == [s[0]] + s[1..];
      front := [s[0]] + front;
    } else if s != [] && IsSpace(s[|s| - 1]) {
      front, back := TrimmedSplits(s[..|s| - 1]);
      assert s == s[..|s| - 1] + [s[|s| - 1]];
      back := back + [s[|s| - 1]];
    } else {
      front, back := "", "";
    }
  }

  /** Renaming moves the comp and each of its slots to the trimmed name, as they were. */
  lemma RenameMoves(t: Tables, c: CompKey, name: CompName)
    requires SlotsHaveComps(t)
    ensures var (after, outcome) := RenameStep(t, c, name);
      var to := TrimSpace(name);
      && (outcome.Done? <==> to != "" && c in t.comps
                             && (to == c.name || (c.event in t.events && CompKey(c.event, to) !in t.comps)))
      && (outcome.Refused? || to == c.name ==> after == t)
      && (outcome.Done? && to != c.name ==>
            && after.comps == (t.comps - {c})[CompKey(c.event, to) := t.comps[c]]
            && (forall id :: var was, moved := SlotKey(c.event, c.name, id), SlotKey(c.event, to, id);
                  && (moved in after.slots <==> was in t.slots) && was !in after.slots
                  && (was in t.slots ==> after.slots[moved] == t.slots[was]))
            && (forall s | !SlotIn(s, c) && !SlotIn(s, CompKey(c.event, to)) ::
                  (s in after.slots <==> s in t.slots) && (s in t.slots ==> after.slots[s] == t.slots[s]))
            && after.signups == t.signups && after.roster == t.roster && RequestsStay(t, after))
  {
    var to := TrimSpace(name);
    if RenameStep(t, c, name).1.Done? && to != c.name {
      assert forall x | x in t.slots :: !SlotIn(x, CompKey(c.event, to));
      forall s: SlotKey
        ensures var was := if SlotIn(s, CompKey(c.event, to)) then s.(comp := c.name) else s;
          && (s in SlotsRenamed(t.slots, c, to) <==> was in t.slots && !SlotIn(s, c))
          && (s in SlotsRenamed(t.slots, c, to) ==> SlotsRenamed(t.slots, c, to)[s] == t.slots[was])
      {
        SlotsRenamedAt(t.slots, c, to, s);
      }
    }
  }

  // ----- Who is told

  /** The comps a character lost their slot in, read off the slots before and after. */
  function CompsLost(t: Tables, after: Tables): set<CompName> { set s | s in t.slots && s !in after.slots :: s.comp }

  /** What a signup operation queues: an edit of the posted message, if there is one, and in a
      channel a word to the guild's raid leads naming who left which comps, and how. */
  ghost predicate TellsOfSignup(t: Tables, after: Tables, k: SignupKey, left: Option<Status>) {
    k.event in t.events &&
    var e := t.events[k.event];
    var leads := if e.guild in t.leads then t.leads[e.guild] else [];
    after.outbox
    == t.outbox
       + (if e.channel.Some? && e.message.Some?
          then [Notice(e.guild, k.event, SignupChanged, ToMessage(e.channel.value), Nothing)] else [])
       + (if e.channel.Some? && CompsLost(t, after) != {}
          then [Notice(e.guild, k.event, CompSlotDropped, ToRole(e.channel.value, leads),
                       SlotsDropped(e.title, k.character, left, CompsLost(t, after)))] else [])
  }

  lemma AnsweredTells(t: Tables, k: SignupKey, a: Answer, now: int)
    requires k.event in t.events
    ensures TellsOfSignup(t, Answered(t, k, a, now), k, Some(a.status))
  {
    var after := Answered(t, k, a, now);
    assert CompsLost(t, after) == Evicted(after.signups, t.slots, k);
  }

  lemma SignupOperationsTell(t: Tables, op: Op, now: int)
    requires op.Write? || op.Withdraw? || op.Approve?
    ensures var (after, outcome) := Apply(t, op, now);
      outcome.Done? ==>
        match op
        case Write(k, a, _, _) => TellsOfSignup(t, after, k, Some(a.status))
        case Withdraw(k, _) => TellsOfSignup(t, after, k, None)
        case Approve(id) =>
          id in t.requests && TellsOfSignup(t, after, t.requests[id].key, Some(t.requests[id].answer.status))
        case _ => true
  {
    if Apply(t, op, now).1.Done? {
      match op {
        case Write(k, a, _, _) => AnsweredTells(t, k, if a.status.Late? then a else a.(lateUntil := None), now);
        case Withdraw(k, _) =>
          var after := Withdrawn(t, k);
          assert CompsLost(t, after) == Evicted(after.signups, t.slots, k);
        case Approve(id) => AnsweredTells(t, t.requests[id].key, t.requests[id].answer, now);
      }
    }
  }

  /** A request that is filed is put to the guild's raid leads; a board that is written, renamed
      or handed over is redrawn; nothing else is queued. */
  lemma OtherOperationsTell(t: Tables, op: Op, now: int)
    requires !(op.Write? || op.Withdraw? || op.Approve?) && Apply(t, op, now).1.Done?
    ensures var after := Apply(t, op, now).0;
      match op
      case File(k, a, _) =>
        k.event in t.events &&
        var e := t.events[k.event];
        var leads := if e.guild in t.leads then t.leads[e.guild] else [];
        after.outbox
        == t.outbox + (if e.channel.None? then []
                       else [Notice(e.guild, k.event, LateRequestFiled, ToRole(e.channel.value, leads),
                                    Asked(e.title, k.character, a.status))])
      case Rename(c, name) => TrimSpace(name) == c.name || Redrawn(t, after, c.event)
      case Lock(c) => Redrawn(t, after, c.event)
      case Save(c, _) => Redrawn(t, after, c.event)
      case SetMode(c, _) => Redrawn(t, after, c.event)
      case _ => after.outbox == t.outbox
  {
  }

  ghost predicate Redrawn(t: Tables, after: Tables, event: EventId) {
    event in t.events &&
    var e := t.events[event];
    after.outbox
    == t.outbox + (if e.channel.Some? && e.message.Some?
                   then [Notice(e.guild, event, CompChanged, ToMessage(e.channel.value), Nothing)] else [])
  }
}
