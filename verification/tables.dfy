/** The tables behind signups, late requests and comp boards, and what each operation of
    internal/signup and internal/comp does to them as one transaction at one clock reading. */
module Tables {
  import opened Options
  import opened Sequences
  import opened Comp
  import opened Notices
  import Board

  type CompName = string
  type RequestId = int

  /** comp_template as it parses: None is a document that does not. */
  datatype Event = Event(
    guild: int,
    title: string,
    startsAt: int,
    deadline: int,
    template: Option<Template>,
    mythicPlus: bool,
    mythic: bool,
    channel: Option<int>,
    message: Option<int>)

  /** What the assigner reads off a character row and its role menu. */
  datatype Sheet = Sheet(
    name: string, isMain: bool, ilvl: Option<real>, mplusScore: Option<real>, roles: seq<RoleChoice>)

  datatype SignupKey = SignupKey(event: EventId, character: CharacterId)
  datatype CompKey = CompKey(event: EventId, name: CompName)
  datatype SlotKey = SlotKey(event: EventId, comp: CompName, character: CharacterId)

  datatype Answer = Answer(status: Status, note: Option<string>, lateUntil: Option<int>)

  datatype Signup = Signup(answer: Answer, assignedRole: Option<Role>, createdAt: int)

  datatype RequestState = Pending | Approved | Rejected
  datatype LateRequest = LateRequest(
    key: SignupKey, answer: Answer, state: RequestState, createdAt: int, decidedAt: Option<int>)

  datatype CompMode = Auto | Manual
  datatype Slot = Slot(role: Role, index: int, isBench: bool, reason: Reason)

  /** requestOf is the unique index of late requests over (event, character). */
  datatype Tables = Tables(
    events: map<EventId, Event>,
    leads: LeadRoles,
    roster: map<CharacterId, Sheet>,
    signups: map<SignupKey, Signup>,
    requests: map<RequestId, LateRequest>,
    requestOf: map<SignupKey, RequestId>,
    comps: map<CompKey, CompMode>,
    slots: map<SlotKey, Slot>,
    outbox: seq<Notice>)

  datatype Refusal =
    | NoSuchRow | BrokenConstraint
    | EventStarted | StatusRequiresRaidLead | SignupNotYours | SignupsClosed
    | RequestDecided
    | CompIsManual | CompIsAuto | InvalidBoard | InvalidTemplate
    | InvalidName | CompNotFound | CompNameTaken

  datatype Outcome = Done | Refused(why: Refusal)

  // ----- Who may write what, and until when

  const SELF_REPORTED: seq<Status> := [Confirmed, Tentative, Declined, Late, Absent]

  function AllowedStatuses(owned: bool, isRaidLead: bool, started: bool): seq<Status> {
    if started then (if isRaidLead then [NoShow] else [])
    else if owned then SELF_REPORTED
    else if isRaidLead then [NoShow]
    else []
  }

  predicate Started(e: Event, now: int) { e.startsAt <= now }

  function EffectiveDeadline(e: Event, status: Option<Status>): int {
    if (status == Some(Late) || status == Some(Absent)) && e.startsAt > e.deadline then e.startsAt else e.deadline
  }

  predicate PastDeadline(e: Event, status: Option<Status>, isRaidLead: bool, now: int) {
    !isRaidLead && now > EffectiveDeadline(e, status)
  }

  // ----- Rows the bot is told about

  function SignupChangedNotices(e: Event, event: EventId): seq<Notice> {
    if e.channel.None? || e.message.None? then []
    else [Notice(e.guild, event, SignupChanged, ToMessage(e.channel.value), Nothing)]
  }

  function RedrawNotices(e: Event, event: EventId): seq<Notice> {
    if e.channel.None? || e.message.None? then []
    else [Notice(e.guild, event, CompChanged, ToMessage(e.channel.value), Nothing)]
  }

  function DroppedNotices(leads: LeadRoles, e: Event, k: SignupKey, left: Option<Status>, comps: set<CompName>)
    : seq<Notice>
  {
    if comps == {} || e.channel.None? then []
    else
      var told := ToRole(e.channel.value, RolesOf(leads, e.guild));
      [Notice(e.guild, k.event, CompSlotDropped, told, SlotsDropped(e.title, k.character, left, comps))]
  }

  function FiledNotices(leads: LeadRoles, e: Event, k: SignupKey, status: Status): seq<Notice> {
    if e.channel.None? then []
    else
      var told := ToRole(e.channel.value, RolesOf(leads, e.guild));
      [Notice(e.guild, k.event, LateRequestFiled, told, Asked(e.title, k.character, status))]
  }

  // ----- Statements

  predicate InPool(s: Status) { s.Confirmed? || s.Late? }

  predicate HoldsPlace(signups: map<SignupKey, Signup>, k: SignupKey) {
    k in signups && InPool(signups[k].answer.status)
  }

  /** The row an upsert leaves: a new status drops the assigned role, the same one keeps it. */
  function Upserted(signups: map<SignupKey, Signup>, k: SignupKey, a: Answer, now: int): Signup {
    if k in signups
    then Signup(a, if signups[k].answer.status == a.status then signups[k].assignedRole else None, signups[k].createdAt)
    else Signup(a, None, now)
  }

  predicate SlotOf(s: SlotKey, k: SignupKey) { s.event == k.event && s.character == k.character }

  /** The comps a character loses their slot in, and the slots that remain. */
  function Evicted(signups: map<SignupKey, Signup>, slots: map<SlotKey, Slot>, k: SignupKey): set<CompName> {
    if HoldsPlace(signups, k) then {} else set s | s in slots && SlotOf(s, k) :: s.comp
  }

  function Remaining(signups: map<SignupKey, Signup>, slots: map<SlotKey, Slot>, k: SignupKey): map<SlotKey, Slot> {
    if HoldsPlace(signups, k) then slots else map s | s in slots && !SlotOf(s, k) :: slots[s]
  }

  predicate SlotIn(s: SlotKey, c: CompKey) { s.event == c.event && s.comp == c.name }

  function WithoutComp(slots: map<SlotKey, Slot>, c: CompKey): map<SlotKey, Slot> {
    map s | s in slots && !SlotIn(s, c) :: slots[s]
  }

  /** The rows a board is written as. */
  function BoardSlots(c: CompKey, rows: seq<Assignment>): map<SlotKey, Slot> {
    if rows == [] then map[]
    else
      var a := rows[|rows| - 1];
      BoardSlots(c, rows[..|rows| - 1])[SlotKey(c.event, c.name, a.id) := Slot(a.role, a.slotIndex, a.isBench,
          a.reason)]
  }

  /** What the constraints of comp_slots ask of a whole board: known characters, one slot
      each, one slot to a position. */
  ghost predicate Insertable(roster: map<CharacterId, Sheet>, rows: seq<Assignment>) {
    (forall i | 0 <= i < |rows| :: rows[i].id in roster) && NoneClash(rows)
  }

  ghost predicate NoneClash(rows: seq<Assignment>) {
    forall i, j | 0 <= i < j < |rows| ::
      rows[i].id != rows[j].id && (rows[i].isBench == rows[j].isBench ==> rows[i].slotIndex != rows[j].slotIndex)
  }

  /** The role a board's roster seats a character in; the bench assigns none. */
  function RoleGiven(rows: seq<Assignment>, id: CharacterId): Option<Role> {
    if rows == [] then None
    else
      var a := rows[|rows| - 1];
      if a.id == id && !a.isBench then Some(a.role) else RoleGiven(rows[..|rows| - 1], id)
  }

  function Assigned(signups: map<SignupKey, Signup>, event: EventId, rows: seq<Assignment>): map<SignupKey, Signup> {
    map k | k in signups ::
      if k.event == event then signups[k].(assignedRole := RoleGiven(rows, k.character)) else signups[k]
  }

  // ----- Signups and late requests

  /** A signup written, its slots given up if it left the pool, and both reported. */
  function Answered(t: Tables, k: SignupKey, a: Answer, now: int): Tables
    requires k.event in t.events
  {
    var signups := t.signups[k := Upserted(t.signups, k, a, now)];
    var e := t.events[k.event];
    t.(signups := signups,
       slots := Remaining(signups, t.slots, k),
       outbox := t.outbox + SignupChangedNotices(e, k.event)
                 + DroppedNotices(t.leads, e, k, Some(a.status), Evicted(signups, t.slots, k)))
  }

  function WriteStep(t: Tables, k: SignupKey, a: Answer, owned: bool, isRaidLead: bool, now: int): (Tables, Outcome) {
    if k.event !in t.events then (t, Refused(NoSuchRow))
    else
      var e := t.events[k.event];
      if a.status !in AllowedStatuses(owned, isRaidLead, Started(e, now)) then
        (t, Refused(if Started(e, now) then EventStarted else if owned then StatusRequiresRaidLead else SignupNotYours))
      else if PastDeadline(e, Some(a.status), isRaidLead, now) then (t, Refused(SignupsClosed))
      else if k.character !in t.roster then (t, Refused(BrokenConstraint))
      else (Answered(t, k, if a.status.Late? then a else a.(lateUntil := None), now), Done)
  }

  function Withdrawn(t: Tables, k: SignupKey): Tables
    requires k.event in t.events
  {
    var signups := t.signups - {k};
    var e := t.events[k.event];
    t.(signups := signups,
       slots := Remaining(signups, t.slots, k),
       outbox := t.outbox + SignupChangedNotices(e, k.event)
                 + DroppedNotices(t.leads, e, k, None, Evicted(signups, t.slots, k)))
  }

  function WithdrawStep(t: Tables, k: SignupKey, isRaidLead: bool, now: int): (Tables, Outcome) {
    if k.event !in t.events then (t, Refused(NoSuchRow))
    else if Started(t.events[k.event], now) then (t, Refused(EventStarted))
    else if PastDeadline(t.events[k.event], None, isRaidLead, now) then (t, Refused(SignupsClosed))
    else (Withdrawn(t, k), Done)
  }

  /** Filing again on the same (event, character) reopens the one request there is. */
  function FileStep(t: Tables, k: SignupKey, a: Answer, newId: RequestId, now: int): (Tables, Outcome) {
    if k.event !in t.events then (t, Refused(NoSuchRow))
    else if Started(t.events[k.event], now) then (t, Refused(EventStarted))
    else if k.character !in t.roster || (k !in t.requestOf && newId in t.requests) then (t, Refused(BrokenConstraint))
    else
      var e := t.events[k.event];
      var id := if k in t.requestOf then t.requestOf[k] else newId;
      var createdAt := if id in t.requests then t.requests[id].createdAt else now;
      var told := FiledNotices(t.leads, e, k, a.status);
      (t.(requests := t.requests[id := LateRequest(k, a, Pending, createdAt, None)],
          requestOf := t.requestOf[k := id],
          outbox := t.outbox + told), Done)
  }

  function ApproveStep(t: Tables, id: RequestId, now: int): (Tables, Outcome) {
    if id !in t.requests then (t, Refused(NoSuchRow))
    else
      var req := t.requests[id];
      if !req.state.Pending? then (t, Refused(RequestDecided))
      else if req.key.event !in t.events then (t, Refused(NoSuchRow))
      else if Started(t.events[req.key.event], now) then (t, Refused(EventStarted))
      else if req.key.character !in t.roster then (t, Refused(BrokenConstraint))
      else
        (Answered(t, req.key, req.answer, now)
         .(requests := t.requests[id := req.(state := Approved, decidedAt := Some(now))]), Done)
  }

  /** What a rejection decides before it writes: Reject reads and updates in two statements
      with no transaction around them. */
  function RejectRead(t: Tables, id: RequestId): Outcome {
    if id !in t.requests then Refused(NoSuchRow)
    else if !t.requests[id].state.Pending? then Refused(RequestDecided)
    else Done
  }

  /** The update asks only for the id. */
  function RejectWritten(t: Tables, id: RequestId, now: int): Tables {
    if id !in t.requests then t
    else t.(requests := t.requests[id := t.requests[id].(state := Rejected, decidedAt := Some(now))])
  }

  function RejectStep(t: Tables, id: RequestId, now: int): (Tables, Outcome) {
    if RejectRead(t, id).Refused? then (t, RejectRead(t, id)) else (RejectWritten(t, id, now), Done)
  }

  // ----- Boards

  /** A whole board under one name: the comp keeps the mode it was created with, the event's
      assigned roles are those of this board alone. */
  ghost function ReplaceStep(t: Tables, c: CompKey, mode: CompMode, rows: seq<Assignment>): (Tables, Outcome) {
    if c.event !in t.events || !Insertable(t.roster, rows) then (t, Refused(BrokenConstraint))
    else
      (t.(comps := t.comps[c := if c in t.comps then t.comps[c] else mode],
          slots := WithoutComp(t.slots, c) + BoardSlots(c, rows),
          signups := Assigned(t.signups, c.event, rows),
          outbox := t.outbox + RedrawNotices(t.events[c.event], c.event)), Done)
  }

  function ModeFor(e: Event): Mode {
    if e.mythicPlus then MythicPlus else if e.mythic then RaidMythic else RaidFlex
  }

  function ScoreOf(e: Event, s: Sheet): real {
    var score := if e.mythicPlus then s.mplusScore else s.ilvl;
    if score.None? then 0.0 else score.value
  }

  function RaiderOf(e: Event, id: CharacterId, s: Sheet, signedUpAt: int): Raider {
    Raider(id, s.name, s.roles, s.isMain, ScoreOf(e, s), signedUpAt)
  }

  predicate Joins(t: Tables, k: SignupKey, event: EventId) {
    k.event == event && HoldsPlace(t.signups, k) && k.character in t.roster
  }

  /** The assignment pool of an event: CONFIRMED and LATE signups beside their characters. */
  function PoolOf(t: Tables, event: EventId): set<Raider>
    requires event in t.events
  {
    set k | k in t.signups && Joins(t, k, event) ::
      RaiderOf(t.events[event], k.character, t.roster[k.character], t.signups[k].createdAt)
  }

  /** Some listing of a pool: which one never matters to the board. */
  ghost function Listing(pool: set<Raider>): (xs: seq<Raider>)
    ensures forall r :: r in xs <==> r in pool
    ensures NoDup(xs)
  {
    if pool == {} then []
    else
      var r :| r in pool;
      Listing(pool - {r}) + [r]
  }

  ghost function LockedRows(t: Tables, event: EventId): seq<Assignment>
    requires event in t.events && t.events[event].template.Some?
  {
    var e := t.events[event];
    Board.AssignResult(Listing(PoolOf(t, event)), e.template.value, ModeFor(e)).assignments
  }

  /** What a lock decides before it writes: Lock reads in one transaction and writes in another. */
  function LockRead(t: Tables, c: CompKey): Outcome {
    if c in t.comps && t.comps[c].Manual? then Refused(CompIsManual)
    else if c.event !in t.events then Refused(NoSuchRow)
    else if t.events[c.event].template.None? then Refused(InvalidTemplate)
    else Done
  }

  ghost function LockStep(t: Tables, c: CompKey): (Tables, Outcome) {
    if c in t.comps && t.comps[c].Manual? then (t, Refused(CompIsManual))
    else if c.event !in t.events then (t, Refused(NoSuchRow))
    else if t.events[c.event].template.None? then (t, Refused(InvalidTemplate))
    else ReplaceStep(t, c, Auto, LockedRows(t, c.event))
  }

  /** One seat a raid lead decided; a missing role is the empty string. */
  datatype Seat = Seat(id: CharacterId, role: Option<Role>, isBench: bool)

  function CountSide(seats: seq<Seat>, isBench: bool): nat {
    if seats == [] then 0
    else CountSide(seats[..|seats| - 1], isBench) + (if seats[|seats| - 1].isBench == isBench then 1 else 0)
  }

  /** The first n seats each have a role, and no character sits twice among them. */
  ghost predicate ValidUpTo(seats: seq<Seat>, n: nat)
    requires n <= |seats|
  {
    && (forall i | 0 <= i < n :: seats[i].role.Some?)
    && (forall i, j | 0 <= i < j < n :: seats[i].id != seats[j].id)
  }

  ghost predicate BoardIsValid(seats: seq<Seat>) { ValidUpTo(seats, |seats|) }

  /** Each partition numbers from zero in submitted order. */
  ghost function ManualRow(seats: seq<Seat>, i: nat): Assignment
    requires i < |seats| && seats[i].role.Some?
  {
    Assignment(seats[i].id, seats[i].role.value, Board.Int16(CountSide(seats[..i], seats[i].isBench)),
               seats[i].isBench, ByRaidLead)
  }

  ghost function ManualRows(seats: seq<Seat>): seq<Assignment>
    requires BoardIsValid(seats)
  {
    seq(|seats|, i requires 0 <= i < |seats| => ManualRow(seats, i))
  }

  /** What a save decides before it writes. */
  ghost function SaveRead(t: Tables, c: CompKey, seats: seq<Seat>): Outcome {
    if c in t.comps && t.comps[c].Auto? then Refused(CompIsAuto)
    else if !BoardIsValid(seats) then Refused(InvalidBoard)
    else Done
  }

  ghost function SaveStep(t: Tables, c: CompKey, seats: seq<Seat>): (Tables, Outcome) {
    if c in t.comps && t.comps[c].Auto? then (t, Refused(CompIsAuto))
    else if !BoardIsValid(seats) then (t, Refused(InvalidBoard))
    else ReplaceStep(t, c, Manual, ManualRows(seats))
  }

  function SetModeStep(t: Tables, c: CompKey, mode: CompMode): (Tables, Outcome) {
    if c.event !in t.events then (t, Refused(NoSuchRow))
    else
      (t.(comps := if c in t.comps then t.comps[c := mode] else t.comps,
          outbox := t.outbox + RedrawNotices(t.events[c.event], c.event)), Done)
  }

  /** The white space strings.TrimSpace cuts. */
  predicate IsSpace(c: char) {
    || c == ' ' || '\t' <= c <= '\r' || c == '\U{0085}' || c == '\U{00A0}' || c == '\U{1680}'
    || '\U{2000}' <= c <= '\U{200A}' || c == '\U{2028}' || c == '\U{2029}' || c == '\U{202F}'
    || c == '\U{205F}' || c == '\U{3000}'
  }

  function TrimSpace(s: string): string {
    if s != [] && IsSpace(s[0]) then TrimSpace(s[1..])
    else if s != [] && IsSpace(s[|s| - 1]) then TrimSpace(s[..|s| - 1])
    else s
  }

  function HoldersIn(slots: map<SlotKey, Slot>, c: CompKey): set<CharacterId> {
    set s | s in slots && SlotIn(s, c) :: s.character
  }

  /** The slots follow the comp: those under the old name are now under the new one. */
  function SlotsRenamed(slots: map<SlotKey, Slot>, c: CompKey, to: CompName): map<SlotKey, Slot> {
    WithoutComp(slots, c)
    + map id | id in HoldersIn(slots, c) :: SlotKey(c.event, to, id) := slots[SlotKey(c.event, c.name, id)]
  }

  function RenamedTo(t: Tables, c: CompKey, to: CompName): Tables
    requires c in t.comps && c.event in t.events
  {
    t.(comps := (t.comps - {c})[CompKey(c.event, to) := t.comps[c]],
       slots := SlotsRenamed(t.slots, c, to),
       outbox := t.outbox + RedrawNotices(t.events[c.event], c.event))
  }

  function RenameStep(t: Tables, c: CompKey, name: CompName): (Tables, Outcome) {
    var to := TrimSpace(name);
    if to == "" then (t, Refused(InvalidName))
    else if c !in t.comps then (t, Refused(CompNotFound))
    else if to == c.name then (t, Done)
    else if CompKey(c.event, to) in t.comps then (t, Refused(CompNameTaken))
    else if c.event !in t.events then (t, Refused(NoSuchRow))
    else (RenamedTo(t, c, to), Done)
  }

  /** The sync worker changing what a character row says between two operations. */
  function ResheetStep(t: Tables, id: CharacterId, s: Sheet): (Tables, Outcome) {
    if id !in t.roster then (t, Refused(NoSuchRow))
    else (t.(roster := t.roster[id := s]), Done)
  }
}
