/** internal/signup/outbox.go and the notification statements: leases, acks and failure
    reports. Times are seconds; the lease is measured from the service's clock against stamps
    of the database's, so a claim carries both. */
module Outbox {
  import opened Options
  import opened Sequences
  import opened Earliest
  import opened Notices

  const LEASE := 5 * 60

  datatype Row = Row(notice: Notice, createdAt: int, deliveredAt: Option<int>, claimedAt: Option<int>)

  /** What a failure report needs of its event. */
  datatype Posting = Posting(title: string, channel: Option<int>)

  datatype Box = Box(rows: map<RowId, Row>, nextId: RowId, events: map<EventId, Posting>, leads: LeadRoles)

  predicate Claimable(row: Row, guild: Option<int>, claimedBefore: int) {
    && row.deliveredAt.None?
    && (row.claimedAt.None? || row.claimedAt.value < claimedBefore)
    && (guild.None? || row.notice.guild == guild.value)
  }

  function ClaimableRows(rows: map<RowId, Row>, guild: Option<int>, claimedBefore: int): set<Timed> {
    set id | id in rows && Claimable(rows[id], guild, claimedBefore) :: Timed(rows[id].createdAt, id)
  }

  ghost function ClaimedIds(b: Box, guild: Option<int>, limit: nat, serviceNow: int): seq<RowId> {
    Taken(ClaimableRows(b.rows, guild, serviceNow - LEASE), limit)
  }

  function Stamped(rows: map<RowId, Row>, ids: seq<RowId>, now: int): map<RowId, Row> {
    map id | id in rows :: if id in ids then rows[id].(claimedAt := Some(now)) else rows[id]
  }

  ghost function ClaimStep(b: Box, guild: Option<int>, limit: nat, serviceNow: int, now: int): (Box, seq<RowId>) {
    var ids := ClaimedIds(b, guild, limit, serviceNow);
    (b.(rows := Stamped(b.rows, ids, now)), ids)
  }

  /** An ack; with a guild it reaches only that guild's rows. */
  function AckStep(b: Box, id: RowId, guild: Option<int>, now: int): (Box, bool) {
    if id in b.rows && (guild.None? || b.rows[id].notice.guild == guild.value)
    then (b.(rows := b.rows[id := b.rows[id].(deliveredAt := Some(now))]), true)
    else (b, false)
  }

  /** A redraw nobody has picked up already says what another of its kind would. */
  predicate RedrawWaiting(rows: map<RowId, Row>, n: Notice) {
    n.kind.RosterUpdated?
    && exists id | id in rows :: rows[id].notice.kind.RosterUpdated? && rows[id].notice.event == n.event
                                 && rows[id].deliveredAt.None? && rows[id].claimedAt.None?
  }

  function InsertStep(b: Box, n: Notice, now: int): Box {
    if RedrawWaiting(b.rows, n) then b
    else b.(rows := b.rows[b.nextId := Row(n, now, None, None)], nextId := b.nextId + 1)
  }

  datatype Report = Reported | NotFound | ReportLost

  function ReportOn(n: Notice, leads: LeadRoles, title: string, channel: int, error: string): Notice {
    Notice(n.guild, n.event, DeliveryFailed, ToRole(channel, RolesOf(leads, n.guild)), FailureOf(title, n.kind, error))
  }

  /** The ack stands whatever becomes of the report; breaks is the store failing between them. */
  function FailStep(b: Box, id: RowId, error: string, breaks: bool, now: int): (Box, Report) {
    if id !in b.rows then (b, NotFound)
    else
      var n := b.rows[id].notice;
      var acked := AckStep(b, id, None, now).0;
      if n.kind.DeliveryFailed? then (acked, Reported)
      else if breaks || n.event !in b.events then (acked, ReportLost)
      else
        var p := b.events[n.event];
        if p.channel.None? then (acked, Reported)
        else (InsertStep(acked, ReportOn(n, b.leads, p.title, p.channel.value, error), now), Reported)
  }

  // ----- The class

  class Store {
    var rows: map<RowId, Row>
    var nextId: RowId
    const events: map<EventId, Posting>
    const leads: LeadRoles

    constructor (events: map<EventId, Posting>, leads: LeadRoles)
      ensures State() == Box(map[], 0, events, leads)
    {
      rows, nextId := map[], 0;
      this.events, this.leads := events, leads;
    }

    function State(): Box
      reads this
    {
      Box(rows, nextId, events, leads)
    }

    method InsertNotification(n: Notice, now: int)
      modifies this
      ensures State() == InsertStep(old(State()), n, now)
    {
      if n.kind.RosterUpdated?
         && exists id | id in rows :: rows[id].notice.kind.RosterUpdated? && rows[id].notice.event == n.event
                                      && rows[id].deliveredAt.None? && rows[id].claimedAt.None?
      {
        return;
      }
      rows := rows[nextId := Row(n, now, None, None)];
      nextId := nextId + 1;
    }

    method MarkDelivered(id: RowId, guild: Option<int>, now: int) returns (ok: bool)
      modifies this`rows
      ensures (State(), ok) == AckStep(old(State()), id, guild, now)
    {
      if id !in rows { return false; }
      if guild.Some? && rows[id].notice.guild != guild.value { return false; }
      rows := rows[id := rows[id].(deliveredAt := Some(now))];
      return true;
    }

    /** One statement: the rows are chosen and stamped together. */
    method Claim(guild: Option<int>, limit: nat, serviceNow: int, now: int) returns (ids: seq<RowId>)
      modifies this`rows
      ensures (State(), ids) == ClaimStep(old(State()), guild, limit, serviceNow, now)
    {
      var claimedBefore := serviceNow - LEASE;
      var open: seq<Timed> := [];
      var left := rows.Items;
      while left != {}
        invariant left <= rows.Items && rows == old(rows)
        invariant NoDup(open)
        invariant forall c | c in open ::
          c.id in rows && Claimable(rows[c.id], guild, claimedBefore) && c.at == rows[c.id].createdAt
          && (c.id, rows[c.id]) !in left
        invariant forall id | id in rows && Claimable(rows[id], guild, claimedBefore) && (id, rows[id]) !in left ::
          Timed(rows[id].createdAt, id) in open
        decreases left
      {
        var item :| item in left;
        assert item in rows.Items && item == (item.0, rows[item.0]);
        assert forall c | c in open :: c.id != item.0;
        left := left - {item};
        var row := item.1;
        if row.deliveredAt.None? && (row.claimedAt.None? || row.claimedAt.value < claimedBefore)
           && (guild.None? || row.notice.guild == guild.value)
        {
          open := open + [Timed(row.createdAt, item.0)];
        }
      }
      forall c ensures c in open <==> c in ClaimableRows(rows, guild, claimedBefore) {
        if c in ClaimableRows(rows, guild, claimedBefore) { assert (c.id, rows[c.id]) !in left; }
      }
      AnyListingTakesAlike(ClaimableRows(rows, guild, claimedBefore), open, limit);
      ids := Take(Sort(open, EarliestFirst()), limit);
      rows := map id | id in rows :: if id in ids then rows[id].(claimedAt := Some(now)) else rows[id];
    }

    method MarkFailed(id: RowId, error: string, breaks: bool, now: int) returns (report: Report)
      modifies this
      ensures (State(), report) == FailStep(old(State()), id, error, breaks, now)
    {
      if id !in rows { return NotFound; }
      var failed := rows[id].notice;
      var ok := MarkDelivered(id, None, now);
      if failed.kind.DeliveryFailed? { return Reported; }
      if failed.event !in events || breaks { return ReportLost; }
      var event := events[failed.event];
      if event.channel.None? { return Reported; }
      var told := ToRole(event.channel.value, RolesOf(leads, failed.guild));
      var report' := FailureOf(event.title, failed.kind, error);
      InsertNotification(Notice(failed.guild, failed.event, DeliveryFailed, told, report'), now);
      return Reported;
    }
  }

  // ----- Runs

  datatype Op =
    | Insert(n: Notice, now: int)
    | Claim(guild: Option<int>, limit: nat, serviceNow: int, now: int)
    | Ack(id: RowId, guild: Option<int>, now: int)
    | Fail(id: RowId, error: string, breaks: bool, now: int)

  ghost function Apply(b: Box, op: Op): Box {
    match op
    case Insert(n, now) => InsertStep(b, n, now)
    case Claim(guild, limit, serviceNow, now) => ClaimStep(b, guild, limit, serviceNow, now).0
    case Ack(id, guild, now) => AckStep(b, id, guild, now).0
    case Fail(id, error, breaks, now) => FailStep(b, id, error, breaks, now).0
  }

  ghost function Run(b: Box, ops: seq<Op>): Box {
    if ops == [] then b else Apply(Run(b, ops[..|ops| - 1]), ops[|ops| - 1])
  }

  /** The rows this step hands out. */
  ghost function HandedOut(b: Box, op: Op): seq<RowId> {
    if op.Claim? then ClaimedIds(b, op.guild, op.limit, op.serviceNow) else []
  }

  ghost predicate Numbered(b: Box) { forall id | id in b.rows :: id < b.nextId }

  lemma ClaimedAreClaimable(b: Box, guild: Option<int>, limit: nat, serviceNow: int)
    ensures forall id | id in ClaimedIds(b, guild, limit, serviceNow) ::
      id in b.rows && Claimable(b.rows[id], guild, serviceNow - LEASE)
    ensures NoDup(ClaimedIds(b, guild, limit, serviceNow)) && |ClaimedIds(b, guild, limit, serviceNow)| <= limit
  {
    TakenQualify(ClaimableRows(b.rows, guild, serviceNow - LEASE), limit);
  }

  /** A row keeps its notice and age, keeps its ack, and changes its stamp only by a claim that
      hands it out. */
  lemma StepOnRow(b: Box, op: Op, id: RowId)
    requires Numbered(b) && id in b.rows
    ensures Numbered(Apply(b, op)) && id in Apply(b, op).rows
    ensures var was, now := b.rows[id], Apply(b, op).rows[id];
      && now.notice == was.notice && now.createdAt == was.createdAt
      && (was.deliveredAt.Some? ==> now.deliveredAt.Some?)
      && now.claimedAt == if id in HandedOut(b, op) then Some(op.now) else was.claimedAt
  {
    if op.Claim? { ClaimedAreClaimable(b, op.guild, op.limit, op.serviceNow); }
  }

  lemma RunOnRow(b: Box, ops: seq<Op>, id: RowId)
    requires Numbered(b) && id in b.rows
    ensures Numbered(Run(b, ops)) && id in Run(b, ops).rows
    ensures b.rows[id].deliveredAt.Some? ==> Run(b, ops).rows[id].deliveredAt.Some?
  {
    if ops == [] {
    } else {
      RunOnRow(b, ops[..|ops| - 1], id);
      StepOnRow(Run(b, ops[..|ops| - 1]), ops[|ops| - 1], id);
    }
  }

  /** No claim of a run hands the row out. */
  ghost predicate NeverHandedOut(b: Box, ops: seq<Op>, id: RowId) {
    forall i | 0 <= i < |ops| :: id !in HandedOut(Run(b, ops[..i]), ops[i])
  }

  /** Every claim of a run is made, by the service's clock, no later than this. */
  predicate ClaimsBy(ops: seq<Op>, latest: int) {
    forall i | 0 <= i < |ops| && ops[i].Claim? :: ops[i].serviceNow <= latest
  }

  lemma LeaseHoldsOnce(b: Box, op: Op, id: RowId, stamp: int)
    requires Numbered(b) && id in b.rows && b.rows[id].claimedAt == Some(stamp)
    requires op.Claim? ==> op.serviceNow <= stamp + LEASE
    ensures id !in HandedOut(b, op)
    ensures Numbered(Apply(b, op)) && id in Apply(b, op).rows && Apply(b, op).rows[id].claimedAt == Some(stamp)
  {
    if op.Claim? { ClaimedAreClaimable(b, op.guild, op.limit, op.serviceNow); }
    StepOnRow(b, op, id);
  }

  lemma {:induction false} LeaseHoldsFrom(b: Box, ops: seq<Op>, id: RowId, stamp: int)
    requires Numbered(b) && id in b.rows && b.rows[id].claimedAt == Some(stamp)
    requires ClaimsBy(ops, stamp + LEASE)
    ensures NeverHandedOut(b, ops, id)
    ensures Numbered(Run(b, ops)) && id in Run(b, ops).rows && Run(b, ops).rows[id].claimedAt == Some(stamp)
  {
    if ops == [] {
    } else {
      var last, front := |ops| - 1, ops[..|ops| - 1];
      LeaseHoldsFrom(b, front, id, stamp);
      LeaseHoldsOnce(Run(b, front), ops[last], id, stamp);
      NeverOnceMore(b, front, ops[last], id);
      assert ops == front + [ops[last]];
    }
  }

  lemma NeverOnceMore(b: Box, front: seq<Op>, op: Op, id: RowId)
    requires NeverHandedOut(b, front, id) && id !in HandedOut(Run(b, front), op)
    ensures NeverHandedOut(b, front + [op], id)
  {
    var ops := front + [op];
    forall i | 0 <= i < |ops| ensures id !in HandedOut(Run(b, ops[..i]), ops[i]) {
      if i < |front| { assert ops[..i] == front[..i]; } else { assert ops[..i] == front; }
    }
  }

  /** A claim is a lease: once it hands a row out, no claim made within the lease of its stamp
      returns that row again, whatever else happens in between. */
  lemma LeaseHolds(b: Box, guild: Option<int>, limit: nat, serviceNow: int, now: int, ops: seq<Op>, id: RowId)
    requires Numbered(b) && id in ClaimedIds(b, guild, limit, serviceNow)
    requires ClaimsBy(ops, now + LEASE)
    ensures NeverHandedOut(ClaimStep(b, guild, limit, serviceNow, now).0, ops, id)
  {
    ClaimedAreClaimable(b, guild, limit, serviceNow);
    StepOnRow(b, Claim(guild, limit, serviceNow, now), id);
    LeaseHoldsFrom(ClaimStep(b, guild, limit, serviceNow, now).0, ops, id, now);
  }

  /** An acked row is never handed out again. */
  lemma AckedStaysAway(b: Box, ops: seq<Op>, id: RowId)
    requires Numbered(b) && id in b.rows && b.rows[id].deliveredAt.Some?
    ensures NeverHandedOut(b, ops, id)
  {
    forall i | 0 <= i < |ops| ensures id !in HandedOut(Run(b, ops[..i]), ops[i]) {
      RunOnRow(b, ops[..i], id);
      if ops[i].Claim? { ClaimedAreClaimable(Run(b, ops[..i]), ops[i].guild, ops[i].limit, ops[i].serviceNow); }
    }
  }

  /** An unacked row is handed out by any claim for its guild made after its lease, unless the
      claim's limit is spent on rows at least as old. */
  lemma ExpiredLeaseReopens(b: Box, guild: Option<int>, limit: nat, serviceNow: int, id: RowId)
    requires id in b.rows && b.rows[id].deliveredAt.None?
    requires b.rows[id].claimedAt.Some? ==> b.rows[id].claimedAt.value + LEASE < serviceNow
    requires guild.None? || guild.value == b.rows[id].notice.guild
    ensures var ids := ClaimedIds(b, guild, limit, serviceNow);
      id in ids
      || (|ids| == limit && forall other | other in ids ::
          other in b.rows && b.rows[other].createdAt <= b.rows[id].createdAt)
  {
    var open := ClaimableRows(b.rows, guild, serviceNow - LEASE);
    assert Timed(b.rows[id].createdAt, id) in open;
    if id !in ClaimedIds(b, guild, limit, serviceNow) {
      TakenAreTheEarliest(open, limit, Timed(b.rows[id].createdAt, id));
    }
  }

  // ----- Failure reports

  ghost function ReportIds(b: Box): set<RowId> {
    set id | id in b.rows && b.rows[id].notice.kind.DeliveryFailed?
  }

  /** A failure of something other than a report, with a channel to report it in. */
  predicate FilesReport(b: Box, op: Op) {
    && op.Fail? && op.id in b.rows && !op.breaks
    && !b.rows[op.id].notice.kind.DeliveryFailed?
    && b.rows[op.id].notice.event in b.events && b.events[b.rows[op.id].notice.event].channel.Some?
  }

  /** The only step that adds a report, besides queueing one outright, is the failure of a row
      that is not itself one; it adds exactly one. */
  lemma ReportsDoNotBreed(b: Box, op: Op)
    requires Numbered(b) && !(op.Insert? && op.n.kind.DeliveryFailed?)
    ensures ReportIds(Apply(b, op)) == ReportIds(b) + (if FilesReport(b, op) then {b.nextId} else {})
  {
    if op.Claim? { ClaimedAreClaimable(b, op.guild, op.limit, op.serviceNow); }
    forall id ensures id in ReportIds(Apply(b, op))
                  <==> id in ReportIds(b) || (FilesReport(b, op) && id == b.nextId)
    {
      if id in b.rows { StepOnRow(b, op, id); }
    }
  }

  /** How many failures of a run filed a report. */
  ghost function Filed(b: Box, ops: seq<Op>): nat {
    if ops == [] then 0
    else Filed(b, ops[..|ops| - 1]) + (if FilesReport(Run(b, ops[..|ops| - 1]), ops[|ops| - 1]) then 1 else 0)
  }

  lemma StepStaysNumbered(b: Box, op: Op)
    requires Numbered(b)
    ensures Numbered(Apply(b, op))
  {
  }

  /** Over any run the reports number one for each reported failure of an ordinary row: a
      report that fails is acked and breeds nothing. */
  lemma {:induction false} OneReportPerFailure(b: Box, ops: seq<Op>)
    requires Numbered(b) && forall i | 0 <= i < |ops| && ops[i].Insert? :: !ops[i].n.kind.DeliveryFailed?
    ensures Numbered(Run(b, ops))
    ensures |ReportIds(Run(b, ops))| == |ReportIds(b)| + Filed(b, ops)
  {
    if ops == [] {
    } else {
      var last, front := |ops| - 1, ops[..|ops| - 1];
      assert forall i | 0 <= i < |front| :: front[i] == ops[i];
      OneReportPerFailure(b, front);
      var mid := Run(b, front);
      ReportsDoNotBreed(mid, ops[last]);
      StepStaysNumbered(mid, ops[last]);
      assert mid.nextId !in ReportIds(mid);
    }
  }

  /** An ack does not stand in the way of a report: failing a row again files again exactly
      when failing it the first time would have. */
  lemma FailingAgainFilesAgain(b: Box, id: RowId, first: Op, again: Op)
    requires Numbered(b) && id in b.rows
    requires first.Fail? && first.id == id && again.Fail? && again.id == id
    ensures Apply(b, first).rows[id].deliveredAt.Some?
    ensures FilesReport(Apply(b, first), again) <==> FilesReport(b, again)
  {
    StepOnRow(b, first, id);
  }

  lemma FiledMore(b: Box, ops: seq<Op>, op: Op)
    ensures Run(b, ops + [op]) == Apply(Run(b, ops), op)
    ensures Filed(b, ops + [op]) == Filed(b, ops) + (if FilesReport(Run(b, ops), op) then 1 else 0)
  {
    assert (ops + [op])[..|ops|] == ops;
  }

  lemma FiledOfTwo(b: Box, one: Op, two: Op)
    ensures Filed(b, [one, two])
         == (if FilesReport(b, one) then 1 else 0) + (if FilesReport(Apply(b, one), two) then 1 else 0)
  {
    FiledMore(b, [], one);
    FiledMore(b, [one], two);
    assert [] + [one] == [one] && [one] + [two] == [one, two];
  }

  /** Two failures told of one row are two reports. */
  lemma TwiceFailedIsTwiceReported(b: Box, id: RowId, error: string, first: int, again: int)
    requires Numbered(b) && FilesReport(b, Fail(id, error, false, first))
    ensures Filed(b, [Fail(id, error, false, first), Fail(id, error, false, again)]) == 2
  {
    var one, two := Fail(id, error, false, first), Fail(id, error, false, again);
    FailingAgainFilesAgain(b, id, one, two);
    FiledOfTwo(b, one, two);
  }

  /** From an empty outbox: one reminder queued, its failure told twice, two reports. */
  lemma OneReminderTwoReports(n: Notice, title: string, channel: int, leads: LeadRoles, error: string)
    requires !n.kind.DeliveryFailed?
    ensures var start := Box(map[], 0, map[n.event := Posting(title, Some(channel))], leads);
      var ops := [Insert(n, 0), Fail(0, error, false, 1), Fail(0, error, false, 2)];
      |ReportIds(Run(start, ops))| == 2
  {
    var start := Box(map[], 0, map[n.event := Posting(title, Some(channel))], leads);
    var queued, once, twice := Insert(n, 0), Fail(0, error, false, 1), Fail(0, error, false, 2);
    FiledMore(start, [], queued);
    FiledMore(start, [queued], once);
    FiledMore(start, [queued, once], twice);
    assert [] + [queued] == [queued] && [queued] + [once] == [queued, once];
    assert [queued, once] + [twice] == [queued, once, twice];
    var waiting := Apply(start, queued);
    assert 0 in waiting.rows && waiting.rows[0].notice == n;
    FailingAgainFilesAgain(waiting, 0, once, twice);
    OneReportPerFailure(start, [queued, once, twice]);
    assert ReportIds(start) == {};
  }

  // ----- Redraws

  /** At most one redraw of an event waits unclaimed. */
  ghost predicate OneRedrawWaits(b: Box) {
    forall i, j | i in b.rows && j in b.rows && Redraw(b.rows[i]) && Redraw(b.rows[j])
                  && b.rows[i].notice.event == b.rows[j].notice.event :: i == j
  }

  predicate Redraw(row: Row) { row.notice.kind.RosterUpdated? && row.deliveredAt.None? && row.claimedAt.None? }

  lemma {:induction false} RedrawsCoalesce(b: Box, ops: seq<Op>)
    requires Numbered(b) && OneRedrawWaits(b)
    ensures Numbered(Run(b, ops)) && OneRedrawWaits(Run(b, ops))
  {
    if ops == [] {
    } else {
      RedrawsCoalesce(b, ops[..|ops| - 1]);
      StepStaysNumbered(Run(b, ops[..|ops| - 1]), ops[|ops| - 1]);
      RedrawStep(Run(b, ops[..|ops| - 1]), ops[|ops| - 1]);
    }
  }

  lemma RedrawStep(b: Box, op: Op)
    requires Numbered(b) && OneRedrawWaits(b)
    ensures OneRedrawWaits(Apply(b, op))
  {
  }

  // ----- The statements, column by column

  /** A claim hands out rows that nobody has acked and nobody was handed in the last five
      minutes, of its guild if it names one, the oldest first; it stamps them, and no others. */
  lemma ClaimTakesFreeRows(b: Box, guild: Option<int>, limit: nat, serviceNow: int, now: int, id: RowId)
    requires id in b.rows
    ensures var (after, ids), row := ClaimStep(b, guild, limit, serviceNow, now), b.rows[id];
      var free := row.deliveredAt.None? && (row.claimedAt.None? || row.claimedAt.value + 300 < serviceNow)
                  && (guild.None? || row.notice.guild == guild.value);
      && NoDup(ids) && |ids| <= limit && after.rows.Keys == b.rows.Keys
      && after.rows[id] == (if id in ids then row.(claimedAt := Some(now)) else row)
      && (id in ids ==> free)
      && (free && id !in ids ==>
            |ids| == limit
            && forall other | other in ids :: other in b.rows && b.rows[other].createdAt <= row.createdAt)
  {
    ClaimedAreClaimable(b, guild, limit, serviceNow);
    var row := b.rows[id];
    if row.deliveredAt.None? && (row.claimedAt.None? || row.claimedAt.value + LEASE < serviceNow)
       && (guild.None? || guild.value == row.notice.guild)
    {
      ExpiredLeaseReopens(b, guild, limit, serviceNow, id);
    }
  }

  ghost predicate OtherRowsStay(b: Box, after: Box, id: RowId) {
    forall other | other in b.rows && other != id :: other in after.rows && after.rows[other] == b.rows[other]
  }

  /** An ack sets the time of delivery of a row of its guild; any other it does not find. */
  lemma AcksStamp(b: Box, id: RowId, guild: Option<int>, now: int)
    ensures var (after, ok) := AckStep(b, id, guild, now);
      && (ok <==> id in b.rows && (guild.None? || b.rows[id].notice.guild == guild.value))
      && after.rows.Keys == b.rows.Keys && OtherRowsStay(b, after, id)
      && (id in b.rows ==>
            after.rows[id] == if ok then b.rows[id].(deliveredAt := Some(now)) else b.rows[id])
  {
  }

  /** A notification is queued as it is, unless it is a redraw of an event for which one is
      waiting that nobody has been handed. */
  lemma InsertingQueues(b: Box, n: Notice, now: int)
    requires Numbered(b)
    ensures var after := InsertStep(b, n, now);
      var covered := n.kind.RosterUpdated?
        && exists id :: id in b.rows && b.rows[id].notice.kind.RosterUpdated? && b.rows[id].notice.event == n.event
                        && b.rows[id].deliveredAt.None? && b.rows[id].claimedAt.None?;
      && (covered ==> after == b)
      && (!covered ==>
            && b.nextId in after.rows && after.rows[b.nextId] == Row(n, now, None, None)
            && after.rows.Keys == b.rows.Keys + {b.nextId} && OtherRowsStay(b, after, b.nextId))
  {
  }

  /** A failure acks the row, and tells the raid leads of its guild what failed and why, in the
      channel of its event; a report that fails, and a failure with no channel, is only acked. */
  lemma FailuresAreReported(b: Box, id: RowId, error: string, breaks: bool, now: int)
    requires Numbered(b) && id in b.rows
    ensures var (after, report) := FailStep(b, id, error, breaks, now);
      var n := b.rows[id].notice;
      && id in after.rows && after.rows[id] == b.rows[id].(deliveredAt := Some(now))
      && OtherRowsStay(b, after, id)
      && (report.ReportLost? <==> !n.kind.DeliveryFailed? && (breaks || n.event !in b.events))
      && if n.kind.DeliveryFailed? || report.ReportLost? || b.events[n.event].channel.None?
         then after.rows.Keys == b.rows.Keys
         else
           var event := b.events[n.event];
           var told := ToRole(event.channel.value, if n.guild in b.leads then b.leads[n.guild] else []);
           && after.rows.Keys == b.rows.Keys + {b.nextId} && b.nextId in after.rows
           && after.rows[b.nextId]
              == Row(Notice(n.guild, n.event, DeliveryFailed, told, FailureOf(event.title, n.kind, error)),
                     now, None, None)
  {
  }
}
