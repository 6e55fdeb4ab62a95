/** What any mix of creates, edits and worker ticks keeps of the job queue. */
module JobRuns {
  import opened Options
  import opened Sequences
  import opened Notices
  import opened Earliest
  import opened Jobs

  datatype Op =
    | Create(event: EventId, n: NewEvent, s: Settings)
    | EditEvent(event: EventId, edit: Edit)
    | Tick(limit: nat, facts: map<EventId, Facts>, breaksOn: Option<JobId>)

  ghost function Apply(q: Queue, op: Op, now: int): (Queue, bool) {
    match op
    case Create(event, n, s) => CreateStep(q, event, n, s, now)
    case EditEvent(event, edit) => EditStep(q, event, edit, now)
    case Tick(limit, facts, breaksOn) => TickStep(q, limit, facts, breaksOn, now)
  }

  ghost function Run(q: Queue, ops: seq<(Op, int)>): Queue {
    if ops == [] then q else Apply(Run(q, ops[..|ops| - 1]), ops[|ops| - 1].0, ops[|ops| - 1].1).0
  }

  const EMPTY := Queue(map[], map[], 0, [], map[])

  // ----- What holds of every reachable queue

  ghost predicate Numbered(q: Queue) {
    forall id | id in q.jobs :: id < q.nextId && q.jobs[id].event in q.events
  }

  /** Every job still waiting is one the event as it stands now asks for, at that time. */
  ghost predicate PendingAsOwed(q: Queue) {
    forall id | id in q.jobs && q.jobs[id].status.Pending? && q.jobs[id].event in q.events ::
      Planned(q.jobs[id].kind, q.jobs[id].runAt) in Owed(q.events[q.jobs[id].event])
  }

  ghost predicate OnePendingPerKind(q: Queue) {
    forall i, j | i in q.jobs && j in q.jobs && q.jobs[i].status.Pending? && q.jobs[j].status.Pending?
                  && q.jobs[i].event == q.jobs[j].event && q.jobs[i].kind == q.jobs[j].kind :: i == j
  }

  predicate FewAttempts(job: Job) {
    && 0 <= job.attempts
    && (if job.status.Failed? then job.attempts == MAX_JOB_ATTEMPTS else job.attempts < MAX_JOB_ATTEMPTS)
    && (job.skip.Some? ==> job.status.Sent?)
  }

  ghost predicate AttemptsBounded(q: Queue) { forall id | id in q.jobs :: FewAttempts(q.jobs[id]) }

  function From(id: JobId): Queued -> Option<Notice> {
    (x: Queued) => if x.writer == Some(id) then Some(x.notice) else None
  }

  function WrittenBy(outbox: seq<Queued>, id: JobId): seq<Notice> { FilterMap(outbox, From(id)) }

  /** SENT with no reason means it wrote something, and nothing else does. */
  ghost predicate SentMeansWritten(q: Queue) {
    forall id: JobId ::
      WrittenBy(q.outbox, id) != [] <==> id in q.jobs && q.jobs[id].status.Sent? && q.jobs[id].skip.None?
  }

  ghost predicate Sane(q: Queue) {
    Numbered(q) && PendingAsOwed(q) && OnePendingPerKind(q) && AttemptsBounded(q) && SentMeansWritten(q)
  }

  // ----- Scheduling

  lemma {:induction false} ScheduledAt(q: Queue, event: EventId, plan: seq<Planned>)
    requires forall id | id in q.jobs :: id < q.nextId
    ensures var after := Scheduled(q, event, plan);
      && after.events == q.events && after.outbox == q.outbox && after.nextId == q.nextId + |plan|
      && (forall id | id in q.jobs :: id in after.jobs && after.jobs[id] == q.jobs[id])
      && (forall id | id in after.jobs && id !in q.jobs ::
            q.nextId <= id < after.nextId && after.jobs[id] == NewJob(event, plan, id - q.nextId))
      && (forall id | q.nextId <= id < after.nextId :: id in after.jobs)
  {
    if plan == [] {
    } else {
      var front := plan[..|plan| - 1];
      ScheduledAt(q, event, front);
      forall i | 0 <= i < |front| ensures NewJob(event, front, i) == NewJob(event, plan, i) {}
    }
  }

  lemma ScheduledRest(q: Queue, event: EventId, plan: seq<Planned>)
    ensures Scheduled(q, event, plan).events == q.events && Scheduled(q, event, plan).outbox == q.outbox
  {
    if plan == [] {
    } else {
      ScheduledRest(q, event, plan[..|plan| - 1]);
    }
  }

  function NewJob(event: EventId, plan: seq<Planned>, i: int): Job
    requires 0 <= i < |plan|
  {
    Job(event, plan[i].kind, plan[i].runAt, Pending, 0, None)
  }

  /** A schedule holds exactly the owed reminders whose time has not come. */
  lemma JobsForIsOwedAhead(startsAt: int, deadline: int, lead: int, now: int, p: Planned)
    ensures p in JobsFor(startsAt, deadline, lead, now) <==> p in Candidates(startsAt, deadline, lead) && p.runAt > now
  {
    FilterMapIn(Candidates(startsAt, deadline, lead), StillAhead(now), p);
  }

  ghost predicate DistinctKinds(plan: seq<Planned>) {
    forall i, j | 0 <= i < j < |plan| :: plan[i].kind != plan[j].kind
  }

  lemma {:induction false} FilteredKindsDistinct(plan: seq<Planned>, now: int)
    requires DistinctKinds(plan)
    ensures DistinctKinds(FilterMap(plan, StillAhead(now)))
  {
    if plan == [] {
    } else {
      var front, last := plan[..|plan| - 1], plan[|plan| - 1];
      FilteredKindsDistinct(front, now);
      var kept := FilterMap(front, StillAhead(now));
      forall i | 0 <= i < |kept| ensures kept[i].kind != last.kind {
        FilterMapIn(front, StillAhead(now), kept[i]);
        var x :| x in front && StillAhead(now)(x) == Some(kept[i]);
      }
    }
  }

  /** No job of the event is waiting. */
  ghost predicate NonePending(q: Queue, event: EventId) {
    forall id | id in q.jobs && q.jobs[id].event == event :: !q.jobs[id].status.Pending?
  }

  /** A plan of owed reminders of different kinds, and nothing of the event waiting. */
  ghost predicate Plannable(q: Queue, event: EventId, plan: seq<Planned>) {
    && event in q.events && NonePending(q, event) && DistinctKinds(plan)
    && forall p | p in plan :: p in Owed(q.events[event])
  }

  lemma ScheduledAsOwed(q: Queue, event: EventId, plan: seq<Planned>)
    requires Numbered(q) && PendingAsOwed(q) && Plannable(q, event, plan)
    ensures PendingAsOwed(Scheduled(q, event, plan))
  {
    var after := Scheduled(q, event, plan);
    ScheduledAt(q, event, plan);
    forall id | id in after.jobs && id !in q.jobs
      ensures after.jobs[id].event == event
      ensures Planned(after.jobs[id].kind, after.jobs[id].runAt) in Owed(q.events[event])
    {
      assert plan[id - q.nextId] in plan;
    }
  }

  lemma ScheduledOnePerKind(q: Queue, event: EventId, plan: seq<Planned>)
    requires Numbered(q) && OnePendingPerKind(q) && Plannable(q, event, plan)
    ensures OnePendingPerKind(Scheduled(q, event, plan))
  {
    var after := Scheduled(q, event, plan);
    ScheduledAt(q, event, plan);
    forall i, j | i in after.jobs && j in after.jobs && after.jobs[i].status.Pending? && after.jobs[j].status.Pending?
                  && after.jobs[i].event == after.jobs[j].event && after.jobs[i].kind == after.jobs[j].kind
      ensures i == j
    {
      assert i in q.jobs ==> after.jobs[i] == q.jobs[i];
      assert j in q.jobs ==> after.jobs[j] == q.jobs[j];
      if i !in q.jobs && j !in q.jobs {
        assert plan[i - q.nextId].kind == plan[j - q.nextId].kind;
      }
    }
  }

  lemma ScheduledStillCounts(q: Queue, event: EventId, plan: seq<Planned>)
    requires Numbered(q) && AttemptsBounded(q) && SentMeansWritten(q) && event in q.events
    ensures var after := Scheduled(q, event, plan);
      Numbered(after) && AttemptsBounded(after) && SentMeansWritten(after)
  {
    ScheduledAt(q, event, plan);
  }

  lemma TimetableIsPlannable(q: Queue, event: EventId, now: int)
    requires event in q.events && NonePending(q, event)
    ensures var e := q.events[event];
      Plannable(q, event, JobsFor(e.startsAt, e.deadline, LeadOf(e), now))
  {
    var e := q.events[event];
    FilteredKindsDistinct(Owed(e), now);
    forall p | p in JobsFor(e.startsAt, e.deadline, LeadOf(e), now) ensures p in Owed(e) {
      JobsForIsOwedAhead(e.startsAt, e.deadline, LeadOf(e), now, p);
    }
  }

  lemma ScheduleKeeps(q: Queue, event: EventId, now: int)
    requires Sane(q) && event in q.events && NonePending(q, event)
    ensures var e := q.events[event];
      Sane(Scheduled(q, event, JobsFor(e.startsAt, e.deadline, LeadOf(e), now)))
  {
    var e := q.events[event];
    var plan := JobsFor(e.startsAt, e.deadline, LeadOf(e), now);
    TimetableIsPlannable(q, event, now);
    ScheduledAsOwed(q, event, plan);
    ScheduledOnePerKind(q, event, plan);
    ScheduledStillCounts(q, event, plan);
  }

  lemma CreateKeeps(q: Queue, id: EventId, n: NewEvent, s: Settings, now: int)
    requires Sane(q) && id !in q.events && !(n.announce && s.eventsChannel.None?)
    ensures Sane(Created(q, id, n, s, now))
  {
    var lead := Else(n.lead, LeadMinutes(s));
    var posted := q.(events := q.events[id := NewRow(n, lead)]);
    ScheduleKeeps(posted, id, now);
    ScheduledAt(posted, id, JobsFor(n.startsAt, n.deadline, lead, now));
    var queued := Scheduled(posted, id, JobsFor(n.startsAt, n.deadline, lead, now));
    if n.announce {
      var posting := Notice(n.guild, id, EventCreated, ToChannel(s.eventsChannel.value, []), Nothing);
      OutsideRowsKeep(queued, [Queued(None, posting)], queued.reports);
    }
  }

  ghost predicate NoJobWrote(rows: seq<Queued>) { forall i | 0 <= i < |rows| :: rows[i].writer.None? }

  lemma {:induction false} OutsideRowsUnread(outbox: seq<Queued>, rows: seq<Queued>, id: JobId)
    requires NoJobWrote(rows)
    ensures WrittenBy(outbox + rows, id) == WrittenBy(outbox, id)
    decreases |rows|
  {
    if rows == [] {
      assert outbox + rows == outbox;
    } else {
      OutsideRowsUnread(outbox, rows[..|rows| - 1], id);
      assert (outbox + rows)[..|outbox + rows| - 1] == outbox + rows[..|rows| - 1];
    }
  }

  /** Rows no job wrote, and the report queue, change nothing a job is judged by. */
  lemma OutsideRowsKeep(q: Queue, rows: seq<Queued>, reports: map<EventId, ReportRow>)
    requires Sane(q) && NoJobWrote(rows)
    ensures Sane(q.(outbox := q.outbox + rows, reports := reports))
  {
    forall id: JobId ensures WrittenBy(q.outbox + rows, id) == WrittenBy(q.outbox, id) {
      OutsideRowsUnread(q.outbox, rows, id);
    }
  }

  lemma CancelledKeeps(q: Queue, event: EventId)
    requires Numbered(q) && OnePendingPerKind(q) && AttemptsBounded(q) && SentMeansWritten(q)
    requires forall id | id in q.jobs && q.jobs[id].status.Pending? && q.jobs[id].event != event ::
      q.jobs[id].event in q.events && Planned(q.jobs[id].kind, q.jobs[id].runAt) in Owed(q.events[q.jobs[id].event])
    ensures Sane(q.(jobs := Cancelled(q.jobs, event))) && NonePending(q.(jobs := Cancelled(q.jobs, event)), event)
  {
    CancelledStillCounts(q, event);
  }

  lemma CancelledStillCounts(q: Queue, event: EventId)
    requires Numbered(q) && AttemptsBounded(q) && SentMeansWritten(q)
    ensures var after := q.(jobs := Cancelled(q.jobs, event));
      Numbered(after) && AttemptsBounded(after) && SentMeansWritten(after)
  {
  }

  lemma RetimedKeeps(q: Queue, event: EventId, edit: Edit, now: int)
    requires Sane(q) && event in q.events
    ensures Sane(Retimed(q, event, edit, now)) && Retimed(q, event, edit, now).outbox == q.outbox
  {
    var e := Edited(q.events[event], edit);
    var stored := q.(events := q.events[event := e]);
    if Retimes(edit) {
      CancelledKeeps(stored, event);
      ScheduleKeeps(stored.(jobs := Cancelled(stored.jobs, event)), event, now);
      var due := JobsFor(e.startsAt, e.deadline, LeadOf(e), now);
      ScheduledRest(stored.(jobs := Cancelled(stored.jobs, event)), event, due);
    }
  }

  lemma EditKeeps(q: Queue, event: EventId, edit: Edit, now: int)
    requires Sane(q) && event in q.events
    ensures Sane(EditStep(q, event, edit, now).0)
  {
    if !Refuses(q, event, edit) {
      RetimedKeeps(q, event, edit, now);
      var told := ChangedNotices(Edited(q.events[event], edit), event, edit);
      OutsideRowsKeep(Retimed(q, event, edit, now), told, ReportsAfter(q.reports, event, edit, now));
    }
  }

  lemma ScheduledWaits(q: Queue, event: EventId, plan: seq<Planned>, p: Planned)
    requires Numbered(q) && NonePending(q, event)
    ensures Waiting(Scheduled(q, event, plan), event, p) <==> p in plan
  {
    var after := Scheduled(q, event, plan);
    ScheduledAt(q, event, plan);
    if p in plan {
      var i :| 0 <= i < |plan| && plan[i] == p;
      assert after.jobs[q.nextId + i] == NewJob(event, plan, i);
    }
  }

  /** After an edit of the timing the event's waiting jobs are exactly what its new row asks
      for and has not yet passed; every other edit leaves all jobs alone. */
  lemma EditsReplaceTheSchedule(q: Queue, event: EventId, edit: Edit, now: int, p: Planned)
    requires Sane(q) && event in q.events
    ensures var (after, ok) := EditStep(q, event, edit, now);
      && (ok <==> !LinkBroken(edit))
      && (if ok && Retimes(edit)
          then Waiting(after, event, p) <==> p in Owed(Edited(q.events[event], edit)) && p.runAt > now
          else after.jobs == q.jobs)
  {
    if !Refuses(q, event, edit) && Retimes(edit) {
      var e := Edited(q.events[event], edit);
      var cleared := q.(events := q.events[event := e], jobs := Cancelled(q.jobs, event));
      var plan := JobsFor(e.startsAt, e.deadline, LeadOf(e), now);
      ScheduledWaits(cleared, event, plan, p);
      JobsForIsOwedAhead(e.startsAt, e.deadline, LeadOf(e), now, p);
      assert EditStep(q, event, edit, now).0.jobs == Scheduled(cleared, event, plan).jobs;
    }
  }

  ghost predicate Waiting(q: Queue, event: EventId, p: Planned) {
    exists id :: id in q.jobs && q.jobs[id].event == event && q.jobs[id].status.Pending?
                 && q.jobs[id].kind == p.kind && q.jobs[id].runAt == p.runAt
  }

  // ----- Ticks

  /** Resolution ends with something written, or with the reason nothing was. */
  lemma ReadyMeansSomething(events: map<EventId, RaidEvent>, job: Job, facts: Option<Facts>)
    ensures Build(events, job, facts).Ready? ==> Build(events, job, facts).notices != []
  {
  }

  lemma {:induction false} WrittenByJob(id: JobId, notices: seq<Notice>, other: JobId)
    ensures WrittenBy(ByJob(id, notices), other) == if id == other then notices else []
  {
    if notices == [] {
    } else {
      var front := notices[..|notices| - 1];
      WrittenByJob(id, front, other);
      assert ByJob(id, notices)[..|front|] == ByJob(id, front);
    }
  }

  lemma ResolvedWrites(q: Queue, id: JobId, facts: map<EventId, Facts>, other: JobId)
    requires id in q.jobs
    ensures WrittenBy(Resolved(q, id, facts).outbox, other)
         == WrittenBy(q.outbox, other)
            + (if id == other then NoticesOf(Build(q.events, q.jobs[id], FactsAt(facts, q.jobs[id].event))) else [])
  {
    var notices := NoticesOf(Build(q.events, q.jobs[id], FactsAt(facts, q.jobs[id].event)));
    FilterMapSplits(q.outbox, ByJob(id, notices), From(other));
    WrittenByJob(id, notices, other);
  }

  lemma ResolvedKeeps(q: Queue, id: JobId, facts: map<EventId, Facts>)
    requires Sane(q) && id in q.jobs && q.jobs[id].status.Pending?
    ensures Sane(Resolved(q, id, facts))
  {
    var job, after := q.jobs[id], Resolved(q, id, facts);
    ReadyMeansSomething(q.events, job, FactsAt(facts, job.event));
    forall other: JobId
      ensures WrittenBy(after.outbox, other) != []
         <==> other in after.jobs && after.jobs[other].status.Sent? && after.jobs[other].skip.None?
    {
      ResolvedWrites(q, id, facts, other);
    }
  }

  lemma {:induction false} ResolvedAllKeeps(q: Queue, ids: seq<JobId>, facts: map<EventId, Facts>)
    requires Sane(q) && NoDup(ids)
    requires forall id | id in ids :: id in q.jobs && q.jobs[id].status.Pending?
    ensures Sane(ResolvedAll(q, ids, facts))
    decreases |ids|
  {
    if ids == [] {
    } else {
      ResolvedKeeps(q, ids[0], facts);
      var next := Resolved(q, ids[0], facts);
      forall id | id in ids[1..] ensures id in next.jobs && next.jobs[id] == q.jobs[id] {
        var i :| 0 <= i < |ids[1..]| && ids[1..][i] == id;
        assert ids[i + 1] == id;
      }
      ResolvedAllKeeps(next, ids[1..], facts);
    }
  }

  function BuiltFor(q: Queue, id: JobId, facts: map<EventId, Facts>): Built
    requires id in q.jobs
  {
    Build(q.events, q.jobs[id], FactsAt(facts, q.jobs[id].event))
  }

  lemma {:induction false} ResolvedOthersStay(q: Queue, ids: seq<JobId>, facts: map<EventId, Facts>, id: JobId)
    requires id !in ids && forall x | x in ids :: x in q.jobs
    ensures var after := ResolvedAll(q, ids, facts);
      && after.events == q.events && after.nextId == q.nextId && after.jobs.Keys == q.jobs.Keys
      && (id in q.jobs ==> after.jobs[id] == q.jobs[id])
      && WrittenBy(after.outbox, id) == WrittenBy(q.outbox, id)
    decreases |ids|
  {
    if ids == [] {
    } else {
      ResolvedWrites(q, ids[0], facts, id);
      ResolvedOthersStay(Resolved(q, ids[0], facts), ids[1..], facts, id);
    }
  }

  /** What the queue owes job id after one tick: its row settled, its notices appended. */
  ghost predicate TreatedAlone(q: Queue, after: Queue, id: JobId, built: Built)
    requires id in q.jobs
  {
    && after.jobs.Keys == q.jobs.Keys
    && after.jobs[id] == Settled(q.jobs[id], built)
    && WrittenBy(after.outbox, id) == WrittenBy(q.outbox, id) + NoticesOf(built)
  }

  lemma FirstResolved(q: Queue, ids: seq<JobId>, facts: map<EventId, Facts>)
    requires NoDup(ids) && ids != [] && forall x | x in ids :: x in q.jobs
    ensures TreatedAlone(q, ResolvedAll(q, ids, facts), ids[0], BuiltFor(q, ids[0], facts))
  {
    var id, rest := ids[0], ids[1..];
    ResolvedWrites(q, id, facts, id);
    assert id !in rest by { assert forall i | 0 <= i < |rest| :: rest[i] == ids[i + 1]; }
    ResolvedOthersStay(Resolved(q, id, facts), rest, facts, id);
  }

  lemma OtherUntouched(q: Queue, x: JobId, facts: map<EventId, Facts>, id: JobId)
    requires x in q.jobs && id in q.jobs && id != x
    ensures var next := Resolved(q, x, facts);
      && next.jobs.Keys == q.jobs.Keys && next.jobs[id] == q.jobs[id]
      && BuiltFor(next, id, facts) == BuiltFor(q, id, facts)
      && WrittenBy(next.outbox, id) == WrittenBy(q.outbox, id)
  {
    ResolvedWrites(q, x, facts, id);
  }

  /** A tick treats each claimed job as if it were the only one, and no other at all. */
  lemma {:induction false} ResolvedOneByOne(
      q: Queue, ids: seq<JobId>, facts: map<EventId, Facts>, id: JobId, built: Built)
    requires NoDup(ids) && id in ids && forall x | x in ids :: x in q.jobs
    requires built == BuiltFor(q, id, facts)
    ensures TreatedAlone(q, ResolvedAll(q, ids, facts), id, built)
    decreases |ids|
  {
    if id == ids[0] {
      FirstResolved(q, ids, facts);
    } else {
      assert ids == [ids[0]] + ids[1..];
      OtherUntouched(q, ids[0], facts, id);
      ResolvedOneByOne(Resolved(q, ids[0], facts), ids[1..], facts, id, built);
    }
  }

  // ----- Runs

  lemma StepKeeps(q: Queue, op: Op, now: int)
    requires Sane(q)
    ensures Sane(Apply(q, op, now).0)
  {
    match op {
      case Create(event, n, s) =>
        if CreateStep(q, event, n, s, now).1 { CreateKeeps(q, event, n, s, now); }
      case EditEvent(event, edit) =>
        if event in q.events { EditKeeps(q, event, edit, now); }
      case Tick(limit, facts, breaksOn) =>
        ClaimedAreDue(q.jobs, limit, now);
        ResolvedAllKeeps(q, Claimed(q.jobs, limit, now), facts);
    }
  }

  /** Every reachable queue: a waiting job has the run time its event's current row gives,
      one per kind, with fewer than three failures behind it; and a job is SENT with no
      reason exactly when it wrote a notification. */
  lemma {:induction false} RunsStaySane(q: Queue, ops: seq<(Op, int)>)
    requires Sane(q)
    ensures Sane(Run(q, ops))
  {
    if ops == [] {
    } else {
      RunsStaySane(q, ops[..|ops| - 1]);
      StepKeeps(Run(q, ops[..|ops| - 1]), ops[|ops| - 1].0, ops[|ops| - 1].1);
    }
  }

  lemma ReachableIsSane(ops: seq<(Op, int)>)
    ensures Sane(Run(EMPTY, ops))
  {
    RunsStaySane(EMPTY, ops);
  }

  /** How a waiting job can leave one step: untouched, cancelled by a timing edit of its own
      event, or claimed after its time and resolved. */
  ghost predicate MovesFrom(q: Queue, op: Op, now: int, id: JobId)
    requires id in q.jobs
  {
    var job := q.jobs[id];
    var after := Apply(q, op, now).0;
    && id in after.jobs
    && (|| after.jobs[id] == job
        || (op.EditEvent? && op.event == job.event && Retimes(op.edit) && after.jobs[id] == job.(status := Canceled))
        || (op.Tick? && job.runAt <= now
            && after.jobs[id] == Settled(job, Build(q.events, job, FactsAt(op.facts, job.event)))))
  }

  lemma CreateLeavesJobs(q: Queue, event: EventId, n: NewEvent, s: Settings, now: int, id: JobId)
    requires Numbered(q) && id in q.jobs
    ensures var after := CreateStep(q, event, n, s, now).0;
      id in after.jobs && after.jobs[id] == q.jobs[id] && WrittenBy(after.outbox, id) == WrittenBy(q.outbox, id)
  {
    var lead := Else(n.lead, LeadMinutes(s));
    var posted := q.(events := q.events[event := NewRow(n, lead)]);
    ScheduledAt(posted, event, JobsFor(n.startsAt, n.deadline, lead, now));
    if n.announce && s.eventsChannel.Some? {
      FilterMapSplits(q.outbox,
        [Queued(None, Notice(n.guild, event, EventCreated, ToChannel(s.eventsChannel.value, []), Nothing))], From(id));
    }
  }

  lemma EditLeavesJobs(q: Queue, event: EventId, edit: Edit, now: int, id: JobId)
    requires Numbered(q) && id in q.jobs
    ensures var after := EditStep(q, event, edit, now).0;
      && id in after.jobs && WrittenBy(after.outbox, id) == WrittenBy(q.outbox, id)
      && after.jobs[id]
         == if !Refuses(q, event, edit) && Retimes(edit) then Cancelled(q.jobs, event)[id] else q.jobs[id]
  {
    if !Refuses(q, event, edit) {
      RetimedLeavesJobs(q, event, edit, now, id);
      OutsideRowsUnread(q.outbox, ChangedNotices(Edited(q.events[event], edit), event, edit), id);
    }
  }

  lemma RetimedLeavesJobs(q: Queue, event: EventId, edit: Edit, now: int, id: JobId)
    requires Numbered(q) && id in q.jobs && event in q.events
    ensures var after := Retimed(q, event, edit, now);
      id in after.jobs && after.jobs[id] == if Retimes(edit) then Cancelled(q.jobs, event)[id] else q.jobs[id]
  {
    if Retimes(edit) {
      var e := Edited(q.events[event], edit);
      var cleared := q.(events := q.events[event := e], jobs := Cancelled(q.jobs, event));
      ScheduledAt(cleared, event, JobsFor(e.startsAt, e.deadline, LeadOf(e), now));
    }
  }

  lemma JobMoves(q: Queue, op: Op, now: int, id: JobId)
    requires Numbered(q) && id in q.jobs
    ensures q.jobs[id].status.Pending? ==> MovesFrom(q, op, now, id)
    ensures !q.jobs[id].status.Pending? ==>
      var after := Apply(q, op, now).0;
      id in after.jobs && after.jobs[id] == q.jobs[id] && WrittenBy(after.outbox, id) == WrittenBy(q.outbox, id)
  {
    match op {
      case Create(event, n, s) => CreateLeavesJobs(q, event, n, s, now, id);
      case EditEvent(event, edit) => EditLeavesJobs(q, event, edit, now, id);
      case Tick(limit, facts, breaksOn) =>
        ClaimedAreDue(q.jobs, limit, now);
        var ids := Claimed(q.jobs, limit, now);
        if id in ids {
          ResolvedOneByOne(q, ids, facts, id, BuiltFor(q, id, facts));
        } else {
          ResolvedOthersStay(q, ids, facts, id);
        }
    }
  }

  /** Once a job has left PENDING no run changes its row, or what it wrote, again. With
      SentMeansWritten this is at most one batch of notifications per job, ever. */
  lemma {:induction false} FinishedJobsNeverMove(q: Queue, ops: seq<(Op, int)>, id: JobId)
    requires Sane(q) && id in q.jobs && !q.jobs[id].status.Pending?
    ensures var after := Run(q, ops);
      id in after.jobs && after.jobs[id] == q.jobs[id] && WrittenBy(after.outbox, id) == WrittenBy(q.outbox, id)
  {
    if ops == [] {
    } else {
      var front := ops[..|ops| - 1];
      FinishedJobsNeverMove(q, front, id);
      RunsStaySane(q, front);
      JobMoves(Run(q, front), ops[|ops| - 1].0, ops[|ops| - 1].1, id);
    }
  }

  /** This step is a tick that goes through, claims the job and fails to resolve it. */
  ghost predicate FailsIn(q: Queue, op: Op, now: int, id: JobId) {
    && op.Tick? && Apply(q, op, now).1
    && id in q.jobs && id in Claimed(q.jobs, op.limit, now) && BuiltFor(q, id, op.facts).Broken?
  }

  /** How many ticks of a run failed to resolve the job. */
  ghost function Failures(q: Queue, ops: seq<(Op, int)>, id: JobId): nat {
    if ops == [] then 0
    else
      var front, last := ops[..|ops| - 1], ops[|ops| - 1];
      Failures(q, front, id) + (if FailsIn(Run(q, front), last.0, last.1, id) then 1 else 0)
  }

  lemma NewJobsAreUntried(q: Queue, event: EventId, plan: seq<Planned>, id: JobId)
    requires forall x | x in q.jobs :: x < q.nextId
    ensures id !in q.jobs && id in Scheduled(q, event, plan).jobs ==> Scheduled(q, event, plan).jobs[id].attempts == 0
  {
    ScheduledAt(q, event, plan);
  }

  /** Attempts grow by one in a tick that fails the job and in no other step; a job just
      scheduled has none. */
  lemma AttemptsStep(q: Queue, op: Op, now: int, id: JobId)
    requires Numbered(q) && id in Apply(q, op, now).0.jobs
    ensures Apply(q, op, now).0.jobs[id].attempts
         == (if id in q.jobs then q.jobs[id].attempts else 0) + (if FailsIn(q, op, now, id) then 1 else 0)
  {
    match op {
      case Create(event, n, s) =>
        if id in q.jobs {
          CreateLeavesJobs(q, event, n, s, now, id);
        } else {
          var lead := Else(n.lead, LeadMinutes(s));
          var posted := q.(events := q.events[event := NewRow(n, lead)]);
          NewJobsAreUntried(posted, event, JobsFor(n.startsAt, n.deadline, lead, now), id);
        }
      case EditEvent(event, edit) =>
        if id in q.jobs {
          EditLeavesJobs(q, event, edit, now, id);
        } else if !Refuses(q, event, edit) {
          var e := Edited(q.events[event], edit);
          var cleared := q.(events := q.events[event := e], jobs := Cancelled(q.jobs, event));
          NewJobsAreUntried(cleared, event, JobsFor(e.startsAt, e.deadline, LeadOf(e), now), id);
        }
      case Tick(limit, facts, breaksOn) =>
        ClaimedAreDue(q.jobs, limit, now);
        var ids := Claimed(q.jobs, limit, now);
        if id in ids {
          ResolvedOneByOne(q, ids, facts, id, BuiltFor(q, id, facts));
        } else {
          ResolvedOthersStay(q, ids, facts, id);
        }
    }
  }

  /** A job's attempts are the ticks of the run that failed it. There are never more than
      three; the third leaves it FAILED, and nothing else does. */
  lemma {:induction false} ThirdFailureIsFinal(q: Queue, ops: seq<(Op, int)>, id: JobId)
    requires Sane(q) && id in Run(q, ops).jobs
    ensures var job := Run(q, ops).jobs[id];
      && job.attempts == (if id in q.jobs then q.jobs[id].attempts else 0) + Failures(q, ops, id)
      && job.attempts <= MAX_JOB_ATTEMPTS
      && (job.status.Failed? <==> job.attempts == MAX_JOB_ATTEMPTS)
  {
    RunsStaySane(q, ops);
    if ops == [] {
    } else {
      var front, last := ops[..|ops| - 1], ops[|ops| - 1];
      RunsStaySane(q, front);
      AttemptsStep(Run(q, front), last.0, last.1, id);
      if id in Run(q, front).jobs {
        ThirdFailureIsFinal(q, front, id);
      } else {
        UnknownJobsNeverFail(q, front, id);
      }
    }
  }

  lemma JobsAreKept(q: Queue, op: Op, now: int, id: JobId)
    requires Numbered(q) && id in q.jobs
    ensures id in Apply(q, op, now).0.jobs
  {
    JobMoves(q, op, now, id);
  }

  /** A job that does not exist yet was never failed. */
  lemma {:induction false} UnknownJobsNeverFail(q: Queue, ops: seq<(Op, int)>, id: JobId)
    requires Sane(q) && id !in Run(q, ops).jobs
    ensures Failures(q, ops, id) == 0 && id !in q.jobs
  {
    if ops == [] {
    } else {
      var front, last := ops[..|ops| - 1], ops[|ops| - 1];
      RunsStaySane(q, front);
      if id in Run(q, front).jobs { JobsAreKept(Run(q, front), last.0, last.1, id); }
      UnknownJobsNeverFail(q, front, id);
    }
  }

  /** A due job is passed over only by a full claim of jobs no later than it. */
  lemma ClaimTakesTheEarliest(jobs: map<JobId, Job>, limit: nat, now: int, id: JobId)
    requires Due(jobs, id, now) && id !in Claimed(jobs, limit, now)
    ensures |Claimed(jobs, limit, now)| == limit
    ensures forall c | c in Claimed(jobs, limit, now) :: c in jobs && jobs[c].runAt <= jobs[id].runAt
  {
    TakenAreTheEarliest(DueRows(jobs, now), limit, Timed(jobs[id].runAt, id));
  }
}
