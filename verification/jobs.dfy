/** internal/signup/schedule.go, reminder.go and the job statements: which reminders an event
    is owed, and what one tick of the worker makes of them. Times are seconds. */
module Jobs {
  import opened Options
  import opened Sequences
  import opened Notices
  import opened Earliest

  type JobId = RowId

  datatype JobKind = OnDeadline | DayBefore | PreEvent | CompNagJob | UnknownJob
  datatype JobStatus = Pending | Sent | Failed | Canceled
  datatype SkipReason = NoChannel | NoRecipients | KindRetired
  datatype Job = Job(event: EventId, kind: JobKind, runAt: int, status: JobStatus, attempts: int,
      skip: Option<SkipReason>)
  datatype Planned = Planned(kind: JobKind, runAt: int)

  datatype EventKind = RaidNight | Dungeon

  datatype RaidEvent = RaidEvent(
    guild: int, kind: EventKind, title: string, startsAt: int, deadline: int, template: string,
    difficulty: Option<string>, lead: Option<int>, channel: Option<int>, message: Option<int>, logUrl: Option<string>)

  /** Where a report lives: the host and code its URL parses to. */
  datatype ReportRef = ReportRef(host: string, code: string)

  /** An event's row in the report queue; settled is its status once it has been read. */
  datatype ReportRow = ReportRow(
    ref: ReportRef, settled: Option<string>, revision: Option<int>, nextAttempt: Option<int>, attempts: int,
    failure: Option<string>)

  datatype Delivery = Ping | Dm | Both
  datatype Settings = Settings(eventsChannel: Option<int>, leadMinutes: Option<int>, delivery: Option<Delivery>)
  datatype Attending = Attending(discordId: int, role: Option<string>)

  /** What the reads behind one reminder answer. */
  datatype Facts = Facts(
    undecided: seq<int>, attending: seq<Attending>, settings: Settings, statuses: seq<Status>, leadRoles: seq<int>)

  /** A notification row, with the job whose resolution wrote it. */
  datatype Queued = Queued(writer: Option<JobId>, notice: Notice)

  datatype Queue = Queue(
    events: map<EventId, RaidEvent>, jobs: map<JobId, Job>, nextId: JobId, outbox: seq<Queued>,
    reports: map<EventId, ReportRow>)

  const MAX_JOB_ATTEMPTS := 3
  const DEFAULT_LEAD_MINUTES := 30

  function LeadMinutes(s: Settings): int { if s.leadMinutes.None? then DEFAULT_LEAD_MINUTES else s.leadMinutes.value }

  function DeliveryOf(s: Settings): Delivery { if s.delivery.None? then Ping else s.delivery.value }

  // ----- The schedule

  function Candidates(startsAt: int, deadline: int, lead: int): seq<Planned> {
    [Planned(OnDeadline, deadline), Planned(DayBefore, startsAt - 24 * 3600)]
    + (if lead > 0 then [Planned(PreEvent, startsAt - lead * 60)] else [])
  }

  function StillAhead(now: int): Planned -> Option<Planned> {
    (p: Planned) => if p.runAt > now then Some(p) else None
  }

  function JobsFor(startsAt: int, deadline: int, lead: int, now: int): seq<Planned> {
    FilterMap(Candidates(startsAt, deadline, lead), StillAhead(now))
  }

  /** An event from before lead times were stored has none: it gets the default. */
  function LeadOf(e: RaidEvent): int { if e.lead.None? then DEFAULT_LEAD_MINUTES else e.lead.value }

  /** What the event as it stands asks for, whatever the clock says. */
  function Owed(e: RaidEvent): seq<Planned> { Candidates(e.startsAt, e.deadline, LeadOf(e)) }

  function Scheduled(q: Queue, event: EventId, plan: seq<Planned>): Queue {
    if plan == [] then q
    else
      var before := Scheduled(q, event, plan[..|plan| - 1]);
      var p := plan[|plan| - 1];
      before.(jobs := before.jobs[before.nextId := Job(event, p.kind, p.runAt, Pending, 0, None)],
              nextId := before.nextId + 1)
  }

  function Cancelled(jobs: map<JobId, Job>, event: EventId): map<JobId, Job> {
    map id | id in jobs ::
      if jobs[id].event == event && jobs[id].status.Pending? then jobs[id].(status := Canceled) else jobs[id]
  }

  datatype NewEvent = NewEvent(
    guild: int, kind: EventKind, title: string, startsAt: int, deadline: int, template: string,
    difficulty: Option<string>, lead: Option<int>, announce: bool)

  /** The row of an event just created, nothing posted for it yet. */
  function NewRow(n: NewEvent, lead: int): RaidEvent {
    RaidEvent(n.guild, n.kind, n.title, n.startsAt, n.deadline, n.template, n.difficulty, Some(lead), None, None, None)
  }

  /** A log link as an edit gives it: taken off, or a URL with what it parses to, if anything. */
  datatype LogLink = TakenOff | Link(url: string, ref: Option<ReportRef>)

  /** A partial edit: None leaves the stored value. */
  datatype Edit = Edit(
    title: Option<string>, startsAt: Option<int>, deadline: Option<int>, template: Option<string>,
    difficulty: Option<string>, lead: Option<int>, channel: Option<int>, message: Option<int>, logUrl: Option<LogLink>)

  function Else<T>(given: Option<T>, stored: T): T { if given.None? then stored else given.value }

  function OrElse<T>(given: Option<T>, stored: Option<T>): Option<T> { if given.None? then stored else given }

  function Edited(e: RaidEvent, edit: Edit): RaidEvent {
    e.(title := Else(edit.title, e.title), startsAt := Else(edit.startsAt, e.startsAt),
       deadline := Else(edit.deadline, e.deadline), template := Else(edit.template, e.template),
       difficulty := OrElse(edit.difficulty, e.difficulty), lead := OrElse(edit.lead, e.lead),
       channel := OrElse(edit.channel, e.channel), message := OrElse(edit.message, e.message),
       logUrl := LinkOr(edit.logUrl, e.logUrl))
  }

  /** The one column an edit can also clear. */
  function LinkOr(given: Option<LogLink>, stored: Option<string>): Option<string> {
    if given.None? then stored else if given.value.TakenOff? then None else Some(given.value.url)
  }

  predicate Retimes(edit: Edit) { edit.startsAt.Some? || edit.deadline.Some? || edit.lead.Some? }

  predicate Restyles(edit: Edit) {
    edit.title.Some? || edit.template.Some? || edit.difficulty.Some? || edit.logUrl.Some?
  }

  /** Pointing at the same report again keeps its status and revision; a new one starts over. */
  function Repointed(stored: Option<ReportRow>, ref: ReportRef, now: int): ReportRow {
    if stored.Some? && stored.value.ref.code == ref.code
    then ReportRow(ref, stored.value.settled, stored.value.revision, Some(now), 0, None)
    else ReportRow(ref, None, None, Some(now), 0, None)
  }

  /** The report row lands with the URL that produced it, and goes with it. */
  function ReportsAfter(reports: map<EventId, ReportRow>, event: EventId, edit: Edit, now: int)
    : map<EventId, ReportRow>
  {
    if edit.logUrl.None? then reports
    else
      match edit.logUrl.value
      case TakenOff => reports - {event}
      case Link(_, None) => reports
      case Link(_, Some(ref)) =>
        reports[event := Repointed(if event in reports then Some(reports[event]) else None, ref, now)]
  }

  predicate LinkBroken(edit: Edit) { edit.logUrl.Some? && edit.logUrl.value.Link? && edit.logUrl.value.ref.None? }

  function ChangedNotices(e: RaidEvent, event: EventId, edit: Edit): seq<Queued> {
    if (Retimes(edit) || Restyles(edit)) && e.message.Some? && e.channel.Some?
    then [Queued(None, Notice(e.guild, event, EventChanged, ToMessage(e.channel.value), Nothing))] else []
  }

  function Created(q: Queue, id: EventId, n: NewEvent, s: Settings, now: int): Queue {
    var lead := Else(n.lead, LeadMinutes(s));
    var posted := q.(events := q.events[id := NewRow(n, lead)]);
    var queued := Scheduled(posted, id, JobsFor(n.startsAt, n.deadline, lead, now));
    if n.announce && s.eventsChannel.Some? then
      var posting := Notice(n.guild, id, EventCreated, ToChannel(s.eventsChannel.value, []), Nothing);
      queued.(outbox := q.outbox + [Queued(None, posting)])
    else queued
  }

  /** Refused when the id is taken, or when there is nowhere to announce the event. */
  function CreateStep(q: Queue, id: EventId, n: NewEvent, s: Settings, now: int): (Queue, bool) {
    if (n.announce && s.eventsChannel.None?) || id in q.events then (q, false)
    else (Created(q, id, n, s, now), true)
  }

  function Rescheduled(q: Queue, event: EventId, now: int): Queue
    requires event in q.events
  {
    var e := q.events[event];
    Scheduled(q.(jobs := Cancelled(q.jobs, event)), event, JobsFor(e.startsAt, e.deadline, LeadOf(e), now))
  }

  /** The row edited, and its jobs replaced when the timing is part of the edit. */
  function Retimed(q: Queue, event: EventId, edit: Edit, now: int): Queue
    requires event in q.events
  {
    var stored := q.(events := q.events[event := Edited(q.events[event], edit)]);
    if Retimes(edit) then Rescheduled(stored, event, now) else stored
  }

  predicate Refuses(q: Queue, event: EventId, edit: Edit) { event !in q.events || LinkBroken(edit) }

  function EditStep(q: Queue, event: EventId, edit: Edit, now: int): (Queue, bool) {
    if Refuses(q, event, edit) then (q, false)
    else
      var e := Edited(q.events[event], edit);
      (Retimed(q, event, edit, now).(outbox := q.outbox + ChangedNotices(e, event, edit),
                                   reports := ReportsAfter(q.reports, event, edit, now)), true)
  }

  // ----- One reminder

  datatype Built = Broken | Skipped(reason: SkipReason) | Ready(notices: seq<Notice>)

  function UserNotices(e: RaidEvent, event: EventId, ids: seq<int>): seq<Notice> {
    seq(|ids|, i requires 0 <= i < |ids| =>
      Notice(e.guild, event, Reminder24h, ToUser(ids[i]), Unanswered(e.title, e.startsAt, e.deadline)))
  }

  function DirectNotices(e: RaidEvent, event: EventId, rows: seq<Attending>): seq<Notice> {
    seq(|rows|, i requires 0 <= i < |rows| =>
      Notice(e.guild, event, ReminderPreEvent, ToUser(rows[i].discordId),
             StartingAs(e.title, e.startsAt, rows[i].role)))
  }

  function PingNotices(e: RaidEvent, event: EventId, rows: seq<Attending>): seq<Notice> {
    if e.channel.None? then []
    else
      var told := ToChannel(e.channel.value, Mentions(rows));
      [Notice(e.guild, event, ReminderPreEvent, told, Starting(e.title, e.startsAt, e.message))]
  }

  function Mentions(rows: seq<Attending>): seq<int> {
    seq(|rows|, i requires 0 <= i < |rows| => rows[i].discordId)
  }

  /** Seeded with every status, present or not. */
  function Tally(statuses: seq<Status>): map<Status, nat> {
    map s: Status :: multiset(statuses)[s]
  }

  function BuildDayBefore(e: RaidEvent, event: EventId, f: Facts): Built {
    if f.undecided == [] then Skipped(NoRecipients) else Ready(UserNotices(e, event, f.undecided))
  }

  function BuildPreEvent(e: RaidEvent, event: EventId, f: Facts): Built {
    if f.attending == [] then Skipped(NoRecipients)
    else
      var how := DeliveryOf(f.settings);
      var notices := (if how.Dm? then [] else PingNotices(e, event, f.attending))
                     + (if how.Ping? then [] else DirectNotices(e, event, f.attending));
      if notices == [] then Skipped(NoChannel) else Ready(notices)
  }

  function BuildDeadline(e: RaidEvent, event: EventId, f: Facts): Built {
    if e.channel.None? then Skipped(NoChannel)
    else
      var told := ToRole(e.channel.value, f.leadRoles);
      Ready([Notice(e.guild, event, SignupDeadline, told, Turnout(e.title, Tally(f.statuses)))])
  }

  /** facts is None for an event whose reads fail and leave the transaction usable. */
  function Build(events: map<EventId, RaidEvent>, job: Job, facts: Option<Facts>): Built {
    if job.event !in events then Broken
    else if job.kind.CompNagJob? then Skipped(KindRetired)
    else if job.kind.UnknownJob? then Broken
    else
      var e := events[job.event];
      if job.kind.OnDeadline? && e.channel.None? then Skipped(NoChannel)
      else if facts.None? then Broken
      else
        if job.kind.DayBefore? then BuildDayBefore(e, job.event, facts.value)
        else if job.kind.PreEvent? then BuildPreEvent(e, job.event, facts.value)
        else BuildDeadline(e, job.event, facts.value)
  }

  function ByJob(id: JobId, notices: seq<Notice>): seq<Queued> {
    seq(|notices|, i requires 0 <= i < |notices| => Queued(Some(id), notices[i]))
  }

  /** What resolving one claimed job leaves of it. */
  function Settled(job: Job, built: Built): Job {
    match built
    case Broken =>
      job.(status := if job.attempts + 1 >= MAX_JOB_ATTEMPTS then Failed else Pending, attempts := job.attempts + 1)
    case Skipped(reason) => job.(status := Sent, skip := Some(reason))
    case Ready(_) => job.(status := Sent)
  }

  function NoticesOf(built: Built): seq<Notice> { if built.Ready? then built.notices else [] }

  function FactsAt(facts: map<EventId, Facts>, event: EventId): Option<Facts> {
    if event in facts then Some(facts[event]) else None
  }

  function Resolved(q: Queue, id: JobId, facts: map<EventId, Facts>): Queue
    requires id in q.jobs
  {
    var job := q.jobs[id];
    var built := Build(q.events, job, FactsAt(facts, job.event));
    q.(jobs := q.jobs[id := Settled(job, built)], outbox := q.outbox + ByJob(id, NoticesOf(built)))
  }

  function ResolvedAll(q: Queue, ids: seq<JobId>, facts: map<EventId, Facts>): Queue
    requires forall id | id in ids :: id in q.jobs
    decreases |ids|
  {
    if ids == [] then q else ResolvedAll(Resolved(q, ids[0], facts), ids[1..], facts)
  }

  // ----- One tick

  predicate Due(jobs: map<JobId, Job>, id: JobId, now: int) {
    id in jobs && jobs[id].status.Pending? && jobs[id].runAt <= now
  }

  function DueRows(jobs: map<JobId, Job>, now: int): set<Timed> {
    set id | id in jobs && Due(jobs, id, now) :: Timed(jobs[id].runAt, id)
  }

  /** The due jobs one tick claims, earliest first. */
  ghost function Claimed(jobs: map<JobId, Job>, limit: nat, now: int): seq<JobId> {
    Taken(DueRows(jobs, now), limit)
  }

  lemma ClaimedAreDue(jobs: map<JobId, Job>, limit: nat, now: int)
    ensures forall id | id in Claimed(jobs, limit, now) :: Due(jobs, id, now)
    ensures NoDup(Claimed(jobs, limit, now))
  {
    TakenQualify(DueRows(jobs, now), limit);
  }

  /** A tick resolves every job it claims, or, when the store breaks on one, none of them. */
  ghost function TickStep(q: Queue, limit: nat, facts: map<EventId, Facts>, breaksOn: Option<JobId>, now: int)
    : (Queue, bool)
  {
    var ids := Claimed(q.jobs, limit, now);
    if breaksOn.Some? && breaksOn.value in ids then (q, false)
    else
      ClaimedAreDue(q.jobs, limit, now);
      (ResolvedAll(q, ids, facts), true)
  }
}
