/** What the reminder queue holds and says, in the columns of the event and the rows its
    builders read. */
module Reminders {
  import opened Options
  import opened Sequences
  import opened Notices
  import opened Earliest
  import opened Jobs
  import opened JobRuns

  // ----- Which reminders, and when

  /** The three reminders: one at the deadline, one a day before the start, and one as many
      minutes before it as the lead says, unless that is no minutes at all. */
  predicate Asks(startsAt: int, deadline: int, minutes: int, p: Planned) {
    || (p.kind.OnDeadline? && p.runAt == deadline)
    || (p.kind.DayBefore? && p.runAt == startsAt - 86400)
    || (p.kind.PreEvent? && minutes > 0 && p.runAt == startsAt - 60 * minutes)
  }

  lemma CandidatesAsk(startsAt: int, deadline: int, minutes: int, p: Planned)
    ensures p in Candidates(startsAt, deadline, minutes) <==> Asks(startsAt, deadline, minutes, p)
  {
    var fixed := [Planned(OnDeadline, deadline), Planned(DayBefore, startsAt - 86400)];
    assert fixed[0] in fixed && fixed[1] in fixed;
    assert Candidates(startsAt, deadline, minutes)[..2] == fixed;
    if minutes > 0 { assert Candidates(startsAt, deadline, minutes)[2] == Planned(PreEvent, startsAt - 60 * minutes); }
    if p in Candidates(startsAt, deadline, minutes) {
      var i :| 0 <= i < |Candidates(startsAt, deadline, minutes)| && Candidates(startsAt, deadline, minutes)[i] == p;
    }
  }

  function LeadAsked(n: NewEvent, s: Settings): int {
    if n.lead.Some? then n.lead.value else if s.leadMinutes.Some? then s.leadMinutes.value else 30
  }

  /** The new event as it was asked for, its lead the one given, else the guild's, else half an
      hour; the announcement goes to the events channel. */
  lemma CreationStores(q: Queue, id: EventId, n: NewEvent, s: Settings, now: int)
    requires CreateStep(q, id, n, s, now).1
    ensures var after := CreateStep(q, id, n, s, now).0;
      var minutes := if n.lead.Some? then n.lead.value else if s.leadMinutes.Some? then s.leadMinutes.value else 30;
      && id in after.events
      && after.events[id] == RaidEvent(n.guild, n.kind, n.title, n.startsAt, n.deadline, n.template, n.difficulty,
                                       Some(minutes), None, None, None)
      && (if n.announce then s.eventsChannel.Some?
                             && after.outbox == q.outbox + [Queued(None, Notice(n.guild, id, EventCreated,
                                                              ToChannel(s.eventsChannel.value, []), Nothing))]
          else after.outbox == q.outbox)
      && (forall other | other != id ::
            (other in after.events <==> other in q.events)
            && (other in q.events ==> after.events[other] == q.events[other]))
      && after.reports == q.reports
  {
    var posted := q.(events := q.events[id := NewRow(n, LeadAsked(n, s))]);
    var plan := JobsFor(n.startsAt, n.deadline, LeadAsked(n, s), now);
    ScheduledRest(posted, id, plan);
    ScheduledReports(posted, id, plan);
  }

  lemma ScheduledReports(q: Queue, event: EventId, plan: seq<Planned>)
    ensures Scheduled(q, event, plan).reports == q.reports
  {
    if plan == [] {
    } else {
      ScheduledReports(q, event, plan[..|plan| - 1]);
    }
  }

  /** Every reminder of the new event still ahead waits, and the other jobs are as they were. */
  lemma CreationSchedules(q: Queue, id: EventId, n: NewEvent, s: Settings, now: int, p: Planned)
    requires Sane(q) && CreateStep(q, id, n, s, now).1
    ensures var after := CreateStep(q, id, n, s, now).0;
      var minutes := if n.lead.Some? then n.lead.value else if s.leadMinutes.Some? then s.leadMinutes.value else 30;
      && (Waiting(after, id, p) <==> Asks(n.startsAt, n.deadline, minutes, p) && p.runAt > now)
      && (forall j | j in q.jobs :: j in after.jobs && after.jobs[j] == q.jobs[j])
      && (forall j | j in after.jobs && j !in q.jobs :: after.jobs[j].event == id)
  {
    var lead := LeadAsked(n, s);
    var posted := q.(events := q.events[id := NewRow(n, lead)]);
    var plan := JobsFor(n.startsAt, n.deadline, lead, now);
    ScheduledAt(posted, id, plan);
    ScheduledWaits(posted, id, plan, p);
    JobsForIsOwedAhead(n.startsAt, n.deadline, lead, now, p);
    CandidatesAsk(n.startsAt, n.deadline, lead, p);
    CreationsJobs(q, id, n, s, now);
  }

  lemma CreationsJobs(q: Queue, id: EventId, n: NewEvent, s: Settings, now: int)
    requires CreateStep(q, id, n, s, now).1
    ensures var posted := q.(events := q.events[id := NewRow(n, LeadAsked(n, s))]);
      CreateStep(q, id, n, s, now).0.jobs
      == Scheduled(posted, id, JobsFor(n.startsAt, n.deadline, LeadAsked(n, s), now)).jobs
  {
  }

  /** An edit stores each column it gives and leaves the others; only the log link can be taken
      off. */
  lemma EditingStores(q: Queue, event: EventId, edit: Edit, now: int)
    requires EditStep(q, event, edit, now).1
    ensures var after := EditStep(q, event, edit, now).0;
      && event in q.events && event in after.events
      && var was, row := q.events[event], after.events[event];
      && row.guild == was.guild && row.kind == was.kind
      && row.title == (if edit.title.Some? then edit.title.value else was.title)
      && row.startsAt == (if edit.startsAt.Some? then edit.startsAt.value else was.startsAt)
      && row.deadline == (if edit.deadline.Some? then edit.deadline.value else was.deadline)
      && row.template == (if edit.template.Some? then edit.template.value else was.template)
      && row.difficulty == (if edit.difficulty.Some? then edit.difficulty else was.difficulty)
      && row.lead == (if edit.lead.Some? then edit.lead else was.lead)
      && row.channel == (if edit.channel.Some? then edit.channel else was.channel)
      && row.message == (if edit.message.Some? then edit.message else was.message)
      && row.logUrl == (match edit.logUrl
                        case None => was.logUrl
                        case Some(TakenOff) => None
                        case Some(Link(url, _)) => Some(url))
  {
    var stored := q.(events := q.events[event := Edited(q.events[event], edit)]);
    if Retimes(edit) {
      var e := stored.events[event];
      ScheduledRest(stored.(jobs := Cancelled(stored.jobs, event)), event,
        JobsFor(e.startsAt, e.deadline, LeadOf(e), now));
    }
  }

  /** An edit of the start, the deadline or the lead leaves waiting what the edited row asks
      for and has not passed; any other leaves every job as it was. */
  lemma EditingReschedules(q: Queue, event: EventId, edit: Edit, now: int, p: Planned)
    requires Sane(q) && EditStep(q, event, edit, now).1
    ensures var after := EditStep(q, event, edit, now).0;
      && event in after.events
      && var row := after.events[event];
      if edit.startsAt.Some? || edit.deadline.Some? || edit.lead.Some?
      then Waiting(after, event, p)
           <==> Asks(row.startsAt, row.deadline, if row.lead.Some? then row.lead.value else 30, p) && p.runAt > now
      else after.jobs == q.jobs
  {
    EditsReplaceTheSchedule(q, event, edit, now, p);
    var e := Edited(q.events[event], edit);
    CandidatesAsk(e.startsAt, e.deadline, LeadOf(e), p);
    var stored := q.(events := q.events[event := e]);
    if Retimes(edit) {
      ScheduledRest(stored.(jobs := Cancelled(stored.jobs, event)), event,
        JobsFor(e.startsAt, e.deadline, LeadOf(e), now));
    }
  }

  /** The report row goes with its link, keeps what was read of the same report and is asked
      for again at once; a posted event is redrawn when something it shows was edited. */
  lemma EditingReports(q: Queue, event: EventId, edit: Edit, now: int)
    requires EditStep(q, event, edit, now).1
    ensures var after := EditStep(q, event, edit, now).0;
      && event in after.events
      && (forall other | other != event ::
            (other in after.reports <==> other in q.reports)
            && (other in q.reports ==> after.reports[other] == q.reports[other]))
      && (edit.logUrl == Some(TakenOff) ==> event !in after.reports)
      && (edit.logUrl.None? ==> after.reports == q.reports)
      && (edit.logUrl.Some? && edit.logUrl.value.Link? ==>
            && edit.logUrl.value.ref.Some? && event in after.reports
            && var ref, row := edit.logUrl.value.ref.value, after.reports[event];
            && row.ref == ref && row.nextAttempt == Some(now) && row.attempts == 0 && row.failure.None?
            && if event in q.reports && q.reports[event].ref.code == ref.code
               then row.settled == q.reports[event].settled && row.revision == q.reports[event].revision
               else row.settled.None? && row.revision.None?)
      && var row := after.events[event];
      after.outbox
      == q.outbox
         + (if row.channel.Some? && row.message.Some?
               && (edit.startsAt.Some? || edit.deadline.Some? || edit.lead.Some? || edit.title.Some?
                   || edit.template.Some? || edit.difficulty.Some? || edit.logUrl.Some?)
            then [Queued(None, Notice(row.guild, event, EventChanged, ToMessage(row.channel.value), Nothing))] else [])
  {
    EditingStores(q, event, edit, now);
  }

  // ----- What a reminder says

  /** How many of the answers are this one. */
  lemma {:induction false} CopiesCount(statuses: seq<Status>, s: Status)
    ensures multiset(statuses)[s] == |set i | 0 <= i < |statuses| && statuses[i] == s|
  {
    var all := set i | 0 <= i < |statuses| && statuses[i] == s;
    if statuses == [] {
      assert all == {};
    } else {
      var front, last := statuses[..|statuses| - 1], statuses[|statuses| - 1];
      CopiesCount(front, s);
      CopyAdded(front, last, s);
      assert statuses == front + [last];
    }
  }

  lemma CopyAdded(front: seq<Status>, last: Status, s: Status)
    ensures var statuses := front + [last];
      |set i | 0 <= i < |statuses| && statuses[i] == s|
      == |set i | 0 <= i < |front| && front[i] == s| + (if last == s then 1 else 0)
  {
    var statuses := front + [last];
    var before := set i | 0 <= i < |front| && front[i] == s;
    var all := set i | 0 <= i < |statuses| && statuses[i] == s;
    assert all == if last == s then before + {|front|} else before;
  }

  /** A job fails for want of its event, its kind or its rows; what it needs no rows to settle
      it settles without them. */
  lemma BreaksExactly(events: map<EventId, RaidEvent>, job: Job, facts: Option<Facts>)
    ensures Build(events, job, facts).Broken?
        <==> || job.event !in events
             || job.kind.UnknownJob?
             || (facts.None? && !job.kind.CompNagJob?
                 && !(job.kind.OnDeadline? && events[job.event].channel.None?))
    ensures Build(events, job, facts) == Skipped(KindRetired) <==> job.event in events && job.kind.CompNagJob?
  {
  }

  /** The day before, everybody who has not answered is told the title and both times; when
      everybody has, nobody is. */
  lemma DayBeforeSays(events: map<EventId, RaidEvent>, job: Job, f: Facts)
    requires job.event in events && job.kind.DayBefore?
    ensures var e, built := events[job.event], Build(events, job, Some(f));
      if f.undecided == [] then built == Skipped(NoRecipients)
      else built.Ready? && |built.notices| == |f.undecided|
           && forall i | 0 <= i < |f.undecided| ::
                built.notices[i] == Notice(e.guild, job.event, Reminder24h, ToUser(f.undecided[i]),
                                           Unanswered(e.title, e.startsAt, e.deadline))
  {
  }

  /** Just before the start the attending are pinged in the event's channel, told one by one,
      or both, as the guild chose; a guild that never chose pings. */
  lemma PreEventSays(events: map<EventId, RaidEvent>, job: Job, f: Facts)
    requires job.event in events && job.kind.PreEvent?
    ensures var e, built := events[job.event], Build(events, job, Some(f));
      var direct := f.settings.delivery == Some(Dm) || f.settings.delivery == Some(Both);
      var ping := f.settings.delivery != Some(Dm) && e.channel.Some?;
      if f.attending == [] then built == Skipped(NoRecipients)
      else if !ping && !direct then built == Skipped(NoChannel)
      else
        && built.Ready? && |built.notices| == (if ping then 1 else 0) + (if direct then |f.attending| else 0)
        && (ping ==>
              && var first := built.notices[0];
              && first.guild == e.guild && first.event == job.event && first.kind == ReminderPreEvent
              && first.payload == Starting(e.title, e.startsAt, e.message)
              && first.target.ToChannel? && first.target.channel == e.channel.value
              && |first.target.mentions| == |f.attending|
              && forall i | 0 <= i < |f.attending| :: first.target.mentions[i] == f.attending[i].discordId)
        && (direct ==>
              forall i | 0 <= i < |f.attending| ::
                built.notices[(if ping then 1 else 0) + i]
                == Notice(e.guild, job.event, ReminderPreEvent, ToUser(f.attending[i].discordId),
                          StartingAs(e.title, e.startsAt, f.attending[i].role)))
  {
  }

  /** At the deadline the raid leads are given the count of every answer, none included. */
  lemma DeadlineSays(events: map<EventId, RaidEvent>, job: Job, facts: Option<Facts>)
    requires job.event in events && job.kind.OnDeadline?
    requires facts.Some? || events[job.event].channel.None?
    ensures var e, built := events[job.event], Build(events, job, facts);
      if e.channel.None? then built == Skipped(NoChannel)
      else
        && built.Ready? && |built.notices| == 1
        && var told := built.notices[0];
        && told.guild == e.guild && told.event == job.event && told.kind == SignupDeadline
        && told.target == ToRole(e.channel.value, facts.value.leadRoles)
        && told.payload.Turnout? && told.payload.title == e.title
        && forall s: Status ::
             s in told.payload.counts
             && told.payload.counts[s]
                == |set i | 0 <= i < |facts.value.statuses| && facts.value.statuses[i] == s|
  {
    if facts.Some? {
      forall s: Status
        ensures multiset(facts.value.statuses)[s]
             == |set i | 0 <= i < |facts.value.statuses| && facts.value.statuses[i] == s|
      {
        CopiesCount(facts.value.statuses, s);
      }
    }
  }

  /** What a tick makes of a job it claims: sent with what it says, sent with the reason it
      says nothing, or tried once more, the third time for good. */
  lemma ClaimedJobsSettle(q: Queue, limit: nat, facts: map<EventId, Facts>, now: int, id: JobId)
    requires id in Claimed(q.jobs, limit, now) && id in q.jobs
    ensures var job, after := q.jobs[id], TickStep(q, limit, facts, None, now).0;
      && id in after.jobs
      && after.jobs[id].event == job.event && after.jobs[id].kind == job.kind && after.jobs[id].runAt == job.runAt
      && (match Build(q.events, job, FactsAt(facts, job.event))
          case Broken =>
            after.jobs[id].attempts == job.attempts + 1 && after.jobs[id].skip == job.skip
            && after.jobs[id].status == (if job.attempts + 1 < 3 then Pending else Failed)
            && WrittenBy(after.outbox, id) == WrittenBy(q.outbox, id)
          case Skipped(reason) =>
            after.jobs[id].attempts == job.attempts && after.jobs[id].skip == Some(reason)
            && after.jobs[id].status.Sent? && WrittenBy(after.outbox, id) == WrittenBy(q.outbox, id)
          case Ready(notices) =>
            after.jobs[id].attempts == job.attempts && after.jobs[id].skip == job.skip
            && after.jobs[id].status.Sent? && WrittenBy(after.outbox, id) == WrittenBy(q.outbox, id) + notices)
  {
    ClaimedAreDue(q.jobs, limit, now);
    ResolvedOneByOne(q, Claimed(q.jobs, limit, now), facts, id, BuiltFor(q, id, facts));
  }
}
