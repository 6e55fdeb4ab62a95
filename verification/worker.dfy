/** The store and the worker around scheduled jobs, in the order their statements run. */
module Worker {
  import opened Options
  import opened Sequences
  import opened Notices
  import opened Earliest
  import opened Jobs
  import JobRuns

  method JobsAhead(startsAt: int, deadline: int, lead: int, now: int) returns (jobs: seq<Planned>)
    ensures jobs == JobsFor(startsAt, deadline, lead, now)
  {
    var candidates := [Planned(OnDeadline, deadline), Planned(DayBefore, startsAt - 24 * 3600)];
    if lead > 0 { candidates := candidates + [Planned(PreEvent, startsAt - lead * 60)]; }
    assert candidates == Candidates(startsAt, deadline, lead);
    jobs := [];
    for i := 0 to |candidates|
      invariant jobs == FilterMap(candidates[..i], StillAhead(now))
    {
      FilterMapStep(candidates, i, StillAhead(now));
      if candidates[i].runAt > now { jobs := jobs + [candidates[i]]; }
    }
    assert candidates[..|candidates|] == candidates;
  }

  class Store {
    var events: map<EventId, RaidEvent>
    var jobs: map<JobId, Job>
    var nextId: JobId
    var outbox: seq<Queued>
    var reports: map<EventId, ReportRow>

    constructor ()
      ensures State() == JobRuns.EMPTY
    {
      events, jobs, nextId, outbox, reports := map[], map[], 0, [], map[];
    }

    function State(): Queue
      reads this
    {
      Queue(events, jobs, nextId, outbox, reports)
    }

    method InsertNotification(writer: Option<JobId>, n: Notice)
      modifies this`outbox
      ensures outbox == old(outbox) + [Queued(writer, n)]
    {
      outbox := outbox + [Queued(writer, n)];
    }

    method ScheduleJobs(event: EventId, startsAt: int, deadline: int, lead: int, now: int)
      modifies this`jobs, this`nextId
      ensures State() == Scheduled(old(State()), event, JobsFor(startsAt, deadline, lead, now))
    {
      var plan := JobsAhead(startsAt, deadline, lead, now);
      for i := 0 to |plan|
        invariant State() == Scheduled(old(State()), event, plan[..i])
      {
        assert plan[..i + 1][..i] == plan[..i];
        jobs := jobs[nextId := Job(event, plan[i].kind, plan[i].runAt, Pending, 0, None)];
        nextId := nextId + 1;
      }
      assert plan[..|plan|] == plan;
    }

    method CreateEvent(id: EventId, n: NewEvent, settings: Settings, now: int) returns (ok: bool)
      modifies this
      ensures (State(), ok) == CreateStep(old(State()), id, n, settings, now)
    {
      if n.announce && settings.eventsChannel.None? { return false; }
      var lead := n.lead;
      if lead.None? { lead := Some(LeadMinutes(settings)); }
      if id in events { return false; }
      events := events[id := NewRow(n, lead.value)];
      ScheduleJobs(id, n.startsAt, n.deadline, lead.value, now);
      JobRuns.ScheduledRest(old(State()).(events := events), id, JobsFor(n.startsAt, n.deadline, lead.value, now));
      if n.announce {
        InsertNotification(None, Notice(n.guild, id, EventCreated, ToChannel(settings.eventsChannel.value, []),
            Nothing));
      }
      return true;
    }

    method CancelJobsForEvent(event: EventId)
      modifies this`jobs
      ensures jobs == Cancelled(old(jobs), event)
    {
      jobs := map id | id in jobs ::
        if jobs[id].event == event && jobs[id].status.Pending? then jobs[id].(status := Canceled) else jobs[id];
    }

    method UpdateEvent(event: EventId, edit: Edit, now: int) returns (ok: bool)
      modifies this
      ensures (State(), ok) == EditStep(old(State()), event, edit, now)
    {
      if event !in events { return false; }
      var savedEvents, savedJobs, savedNext := events, jobs, nextId;
      var row := Edited(events[event], edit);
      events := events[event := row];
      if edit.startsAt.Some? || edit.deadline.Some? || edit.lead.Some? {
        CancelJobsForEvent(event);
        var lead := DEFAULT_LEAD_MINUTES;
        if row.lead.Some? { lead := row.lead.value; }
        ghost var cleared := State();
        ScheduleJobs(event, row.startsAt, row.deadline, lead, now);
        assert cleared == old(State()).(events := events).(jobs := Cancelled(old(jobs), event));
      }
      if edit.logUrl.Some? {
        var synced := SyncReportRow(event, edit.logUrl.value, now);
        if !synced {
          events, jobs, nextId := savedEvents, savedJobs, savedNext;
          return false;
        }
      }
      assert outbox == outbox + [];
      if (Retimes(edit) || Restyles(edit)) && row.message.Some? && row.channel.Some? {
        InsertNotification(None, Notice(row.guild, event, EventChanged, ToMessage(row.channel.value), Nothing));
      }
      return true;
    }

    /** Removes, creates or repoints the event's row; a URL that is no report undoes the edit. */
    method SyncReportRow(event: EventId, link: LogLink, now: int) returns (ok: bool)
      modifies this`reports
      ensures ok <==> !(link.Link? && link.ref.None?)
      ensures !ok ==> reports == old(reports)
      ensures ok && link.TakenOff? ==> reports == old(reports) - {event}
      ensures ok && link.Link? ==>
        var stored := if event in old(reports) then Some(old(reports)[event]) else None;
        reports == old(reports)[event := Repointed(stored, link.ref.value, now)]
    {
      if link.TakenOff? {
        reports := reports - {event};
        return true;
      }
      if link.ref.None? { return false; }
      var row := ReportRow(link.ref.value, None, None, Some(now), 0, None);
      if event in reports && reports[event].ref.code == link.ref.value.code {
        row := row.(settled := reports[event].settled, revision := reports[event].revision);
      }
      reports := reports[event := row];
      return true;
    }

    // ----- The worker

    method InsertAll(id: JobId, notices: seq<Notice>)
      modifies this`outbox
      ensures outbox == old(outbox) + ByJob(id, notices)
    {
      for i := 0 to |notices|
        invariant outbox == old(outbox) + ByJob(id, notices[..i])
      {
        assert ByJob(id, notices[..i + 1]) == ByJob(id, notices[..i]) + [Queued(Some(id), notices[i])];
        InsertNotification(Some(id), notices[i]);
      }
      assert notices[..|notices|] == notices;
    }

    method Resolve(id: JobId, facts: map<EventId, Facts>)
      requires id in jobs
      modifies this`jobs, this`outbox
      ensures State() == Resolved(old(State()), id, facts)
    {
      var job := jobs[id];
      var built := BuildNotifications(events, job, FactsAt(facts, job.event));
      match built {
        case Broken =>
          var status := Pending;
          if job.attempts + 1 >= MAX_JOB_ATTEMPTS { status := Failed; }
          jobs := jobs[id := job.(status := status, attempts := job.attempts + 1)];
          assert outbox == outbox + ByJob(id, []);
        case Skipped(reason) =>
          jobs := jobs[id := job.(status := Sent, skip := Some(reason))];
          assert outbox == outbox + ByJob(id, []);
        case Ready(notices) =>
          InsertAll(id, notices);
          jobs := jobs[id := job.(status := Sent)];
      }
    }

    /** The claim: waiting jobs whose time has come, earliest first. */
    method ClaimDueJobs(limit: nat, now: int) returns (ids: seq<JobId>)
      ensures ids == Claimed(jobs, limit, now)
    {
      var due: seq<Timed> := [];
      var left := jobs.Items;
      while left != {}
        invariant left <= jobs.Items
        invariant NoDup(due)
        invariant forall c | c in due :: Due(jobs, c.id, now) && c.at == jobs[c.id].runAt && (c.id, jobs[c.id]) !in left
        invariant forall id | Due(jobs, id, now) && (id, jobs[id]) !in left :: Timed(jobs[id].runAt, id) in due
        decreases left
      {
        var item :| item in left;
        assert item in jobs.Items && item == (item.0, jobs[item.0]);
        assert forall c | c in due :: c.id != item.0;
        left := left - {item};
        if item.1.status.Pending? && item.1.runAt <= now { due := due + [Timed(item.1.runAt, item.0)]; }
      }
      forall c ensures c in due <==> c in DueRows(jobs, now) {
        if c in DueRows(jobs, now) { assert Due(jobs, c.id, now) && (c.id, jobs[c.id]) !in left; }
      }
      AnyListingTakesAlike(DueRows(jobs, now), due, limit);
      return Take(Sort(due, EarliestFirst()), limit);
    }

    /** Claims what is due and resolves it, all in one transaction; the store failing under
        any of it rolls the whole tick back. */
    method RunDue(limit: nat, facts: map<EventId, Facts>, breaksOn: Option<JobId>, now: int) returns (ok: bool)
      modifies this`jobs, this`outbox
      ensures (State(), ok) == TickStep(old(State()), limit, facts, breaksOn, now)
    {
      var savedJobs, savedOutbox := jobs, outbox;
      var ids := ClaimDueJobs(limit, now);
      ClaimedAreDue(jobs, limit, now);
      ok := ResolveEach(ids, facts, breaksOn);
      if !ok { jobs, outbox := savedJobs, savedOutbox; }
    }

    method ResolveEach(ids: seq<JobId>, facts: map<EventId, Facts>, breaksOn: Option<JobId>) returns (ok: bool)
      requires forall id | id in ids :: id in jobs
      modifies this`jobs, this`outbox
      ensures ok <==> breaksOn.None? || breaksOn.value !in ids
      ensures ok ==> State() == ResolvedAll(old(State()), ids, facts)
    {
      for i := 0 to |ids|
        invariant forall id | id in ids :: id in jobs
        invariant ResolvedAll(State(), ids[i..], facts) == ResolvedAll(old(State()), ids, facts)
        invariant breaksOn.Some? ==> breaksOn.value !in ids[..i]
      {
        if breaksOn == Some(ids[i]) { return false; }
        ResolvedNext(State(), ids, i, facts);
        Resolve(ids[i], facts);
      }
      assert ids[..|ids|] == ids;
      return true;
    }
  }

  lemma ResolvedNext(q: Queue, ids: seq<JobId>, i: nat, facts: map<EventId, Facts>)
    requires i < |ids| && forall id | id in ids :: id in q.jobs
    ensures ResolvedAll(q, ids[i..], facts) == ResolvedAll(Resolved(q, ids[i], facts), ids[i + 1..], facts)
  {
    assert ids[i..][0] == ids[i] && ids[i..][1..] == ids[i + 1..];
  }

  // ----- The builders

  method BuildNotifications(events: map<EventId, RaidEvent>, job: Job, facts: Option<Facts>) returns (built: Built)
    ensures built == Build(events, job, facts)
  {
    if job.event !in events { return Broken; }
    var e := events[job.event];
    match job.kind {
      case DayBefore =>
        if facts.None? { return Broken; }
        built := BuildReminder24h(e, job.event, facts.value);
      case PreEvent =>
        if facts.None? { return Broken; }
        built := BuildReminderPreEvent(e, job.event, facts.value);
      case OnDeadline =>
        built := BuildSignupDeadline(e, job.event, facts);
      case CompNagJob => return Skipped(KindRetired);
      case UnknownJob => return Broken;
    }
  }

  method BuildReminder24h(e: RaidEvent, event: EventId, f: Facts) returns (built: Built)
    ensures built == BuildDayBefore(e, event, f)
  {
    if |f.undecided| == 0 { return Skipped(NoRecipients); }
    var notices: seq<Notice> := [];
    for i := 0 to |f.undecided|
      invariant notices == UserNotices(e, event, f.undecided[..i])
    {
      notices := notices + [Notice(e.guild, event, Reminder24h, ToUser(f.undecided[i]),
          Unanswered(e.title, e.startsAt, e.deadline))];
    }
    assert f.undecided[..|f.undecided|] == f.undecided;
    return Ready(notices);
  }

  method BuildReminderPreEvent(e: RaidEvent, event: EventId, f: Facts) returns (built: Built)
    ensures built == BuildPreEvent(e, event, f)
  {
    var rows := f.attending;
    if |rows| == 0 { return Skipped(NoRecipients); }
    var how := DeliveryOf(f.settings);
    var notices: seq<Notice> := [];
    if (how.Ping? || how.Both?) && e.channel.Some? {
      var mentions: seq<int> := [];
      for i := 0 to |rows|
        invariant mentions == Mentions(rows[..i])
      {
        mentions := mentions + [rows[i].discordId];
      }
      assert rows[..|rows|] == rows;
      notices := [Notice(e.guild, event, ReminderPreEvent, ToChannel(e.channel.value, mentions),
          Starting(e.title, e.startsAt, e.message))];
    }
    ghost var pinged := notices;
    if how.Dm? || how.Both? {
      for i := 0 to |rows|
        invariant notices == pinged + DirectNotices(e, event, rows[..i])
      {
        notices := notices + [Notice(e.guild, event, ReminderPreEvent, ToUser(rows[i].discordId),
            StartingAs(e.title, e.startsAt, rows[i].role))];
      }
      assert rows[..|rows|] == rows;
    }
    assert how.Dm? ==> [] + DirectNotices(e, event, rows) == DirectNotices(e, event, rows);
    assert how.Ping? ==> pinged + [] == pinged;
    if |notices| == 0 { return Skipped(NoChannel); }
    return Ready(notices);
  }

  method BuildSignupDeadline(e: RaidEvent, event: EventId, facts: Option<Facts>) returns (built: Built)
    ensures built == if e.channel.None? then Skipped(NoChannel)
                     else if facts.None? then Broken
                     else BuildDeadline(e, event, facts.value)
  {
    if e.channel.None? { return Skipped(NoChannel); }
    if facts.None? { return Broken; }
    var counts := CountByStatus(facts.value.statuses);
    var told := ToRole(e.channel.value, facts.value.leadRoles);
    return Ready([Notice(e.guild, event, SignupDeadline, told, Turnout(e.title, counts))]);
  }

  const ALL_STATUSES: seq<Status> := [Confirmed, Tentative, Declined, Late, Absent, NoShow]

  lemma EveryStatusIsListed(s: Status)
    ensures s in ALL_STATUSES
  {
    assert ALL_STATUSES[0].Confirmed? && ALL_STATUSES[1].Tentative? && ALL_STATUSES[2].Declined?
        && ALL_STATUSES[3].Late? && ALL_STATUSES[4].Absent? && ALL_STATUSES[5].NoShow?;
  }

  method CountByStatus(statuses: seq<Status>) returns (counts: map<Status, nat>)
    ensures counts == Tally(statuses)
  {
    counts := Seeded(ALL_STATUSES);
    forall s: Status ensures s in counts { EveryStatusIsListed(s); }
    for i := 0 to |statuses|
      invariant forall s: Status :: s in counts && counts[s] == multiset(statuses[..i])[s]
    {
      assert statuses[..i + 1] == statuses[..i] + [statuses[i]];
      counts := counts[statuses[i] := counts[statuses[i]] + 1];
    }
    assert statuses[..|statuses|] == statuses;
  }

  method Seeded(all: seq<Status>) returns (counts: map<Status, nat>)
    ensures forall s | s in all :: s in counts
    ensures forall s | s in counts :: counts[s] == 0
  {
    counts := map[];
    for i := 0 to |all|
      invariant forall s | s in all[..i] :: s in counts
      invariant forall s | s in counts :: counts[s] == 0
    {
      counts := counts[all[i] := 0];
    }
    assert all[..|all|] == all;
  }
}
