/** internal/raidlog/ingest.go: one batch of report refreshes over several API clients. A fetch
    is an oracle on the report; each report carries the clock reading taken for it. */
module Ingest {
  import opened Options
  import opened Sequences

  type EventId = int
  type ClientId = string

  datatype Budget = Budget(limitPerHour: int, spentThisHour: real, resetIn: int)

  datatype ReportStatus = Waiting | Ready | NotFound | Private | Archived | Unavailable
  datatype Report = Report(revision: int, live: bool, body: string)

  datatype Fault =
    | MissingReport | PrivateReport | ArchivedReport | RateLimited | InvalidCredentials | OtherFault(text: string)

  /** storable is false when the roster, the signups or the write itself fails afterwards. */
  datatype Answer = Read(report: Report, storable: bool) | Fails(fault: Fault)
  datatype Fetched = Fetched(answer: Answer, budget: Budget)

  datatype Credentials = LookupFailed | NotConfigured | Client(id: ClientId)

  datatype Due = Due(event: EventId, guild: int, revision: Option<int>, at: int)

  datatype Row = Row(
    status: ReportStatus, stored: Option<Report>, nextAttempt: Option<int>, attempts: int, failure: Option<Fault>)

  /** The rows, what is remembered of each client, and every fetch made, in order. */
  datatype Desk = Desk(
    rows: map<EventId, Row>, budgets: map<ClientId, Budget>, blocked: map<ClientId, int>,
    fetches: seq<(ClientId, EventId)>)

  datatype World = World(credentials: int -> Credentials, fetch: Due -> Fetched, liveRefresh: int)

  const BUDGET_GUARD: real := 0.9
  const MAX_BACKOFF := 6 * 3600

  predicate Spent(b: Budget) { b.limitPerHour > 0 && b.spentThisHour >= b.limitPerHour as real * BUDGET_GUARD }

  function ResetIn(b: Budget): int { if b.resetIn <= 0 then 15 * 60 else b.resetIn }

  function BackoffOf(attempts: int): int
    decreases if attempts > 0 then attempts else 0
  {
    if attempts <= 0 then 5 * 60
    else if 2 * BackoffOf(attempts - 1) >= MAX_BACKOFF then MAX_BACKOFF
    else 2 * BackoffOf(attempts - 1)
  }

  /** The status a fault shows as, and whether to stop asking; none for a fact about the client. */
  function StatusFor(f: Fault): Option<(ReportStatus, bool)> {
    match f
    case MissingReport => Some((NotFound, true))
    case PrivateReport => Some((Private, true))
    case ArchivedReport => Some((Archived, true))
    case RateLimited => None
    case InvalidCredentials => None
    case OtherFault(_) => Some((Unavailable, false))
  }

  // ----- Statements

  function Failed(
      rows: map<EventId, Row>, event: EventId, status: ReportStatus, fault: Option<Fault>, next: Option<int>)
    : map<EventId, Row>
  {
    if event !in rows then rows
    else rows[event := rows[event].(status := status, nextAttempt := next, attempts := rows[event].attempts + 1,
        failure := fault)]
  }

  function Rescheduled(rows: map<EventId, Row>, event: EventId, next: int): map<EventId, Row> {
    if event !in rows then rows else rows[event := rows[event].(nextAttempt := Some(next))]
  }

  function Stored(rows: map<EventId, Row>, event: EventId, report: Report, next: Option<int>): map<EventId, Row> {
    if event !in rows then rows else rows[event := Row(Ready, Some(report), next, 0, None)]
  }

  // ----- One report

  function NextLook(due: Due, report: Report, liveRefresh: int): Option<int> {
    if due.revision != Some(report.revision) || report.live then Some(due.at + liveRefresh) else None
  }

  /** What fetching a report does to its row; None is a fact about the client alone. */
  function AfterFetch(rows: map<EventId, Row>, due: Due, answer: Answer, liveRefresh: int): map<EventId, Row> {
    match answer
    case Read(report, storable) =>
      if storable then Stored(rows, due.event, report, NextLook(due, report, liveRefresh)) else rows
    case Fails(fault) =>
      match StatusFor(fault)
      case None => rows
      case Some((status, terminal)) =>
        Failed(rows, due.event, status, Some(fault), if terminal then None else Some(due.at + BackoffOf(1)))
  }

  function Noted(budgets: map<ClientId, Budget>, c: ClientId, b: Budget): map<ClientId, Budget> {
    if b.limitPerHour > 0 then budgets[c := b] else budgets
  }

  /** How long a fetch's fault keeps its client idle. */
  function StopFor(f: Fetched): Option<int> {
    if f.answer == Fails(RateLimited) then Some(ResetIn(f.budget))
    else if f.answer == Fails(InvalidCredentials) then Some(3600)
    else None
  }

  function RowsAfter(rows: map<EventId, Row>, due: Due, f: Fetched, liveRefresh: int): map<EventId, Row> {
    var read := AfterFetch(rows, due, f.answer, liveRefresh);
    if StopFor(f).None? then read else Rescheduled(read, due.event, due.at + StopFor(f).value)
  }

  function Stopped(blocked: map<ClientId, int>, c: ClientId, due: Due, f: Fetched): map<ClientId, int> {
    if StopFor(f).None? then blocked else blocked[c := due.at + StopFor(f).value]
  }

  function FetchStep(d: Desk, due: Due, c: ClientId, f: Fetched, liveRefresh: int): Desk {
    Desk(RowsAfter(d.rows, due, f, liveRefresh), Noted(d.budgets, c, f.budget), Stopped(d.blocked, c, due, f),
         d.fetches + [(c, due.event)])
  }

  function ClientStep(d: Desk, due: Due, c: ClientId, w: World): Desk {
    if c in d.blocked then d.(rows := Rescheduled(d.rows, due.event, d.blocked[c]))
    else if c in d.budgets && Spent(d.budgets[c]) then
      var until := due.at + d.budgets[c].resetIn;
      d.(blocked := d.blocked[c := until], rows := Rescheduled(d.rows, due.event, until))
    else FetchStep(d, due, c, w.fetch(due), w.liveRefresh)
  }

  function Handled(d: Desk, due: Due, w: World): Desk {
    match w.credentials(due.guild)
    case LookupFailed => d
    case NotConfigured => d.(rows := Failed(d.rows, due.event, Unavailable, None, None))
    case Client(c) => ClientStep(d, due, c, w)
  }

  function HandledAll(d: Desk, batch: seq<Due>, w: World): Desk {
    if batch == [] then d else Handled(HandledAll(d, batch[..|batch| - 1], w), batch[|batch| - 1], w)
  }

  /** A batch starts with nothing blocked. */
  function Ticked(d: Desk, batch: seq<Due>, w: World): Desk {
    HandledAll(d.(blocked := map[]), batch, w)
  }

  // ----- The ingestor

  method Backoff(attempts: int) returns (wait: int)
    ensures wait == BackoffOf(attempts)
  {
    wait := 5 * 60;
    if attempts <= 0 { return; }
    for i := 0 to attempts
      invariant wait == BackoffOf(i)
    {
      wait := wait * 2;
      if wait >= MAX_BACKOFF {
        CapStays(i + 1, attempts);
        return MAX_BACKOFF;
      }
    }
  }

  lemma {:induction false} CapStays(i: int, n: int)
    requires 0 < i <= n && BackoffOf(i) == MAX_BACKOFF
    ensures BackoffOf(n) == MAX_BACKOFF
    decreases n
  {
    if i == n {
    } else {
      CapStays(i, n - 1);
    }
  }

  class Ingestor {
    var rows: map<EventId, Row>
    var budgets: map<ClientId, Budget>
    var fetches: seq<(ClientId, EventId)>

    constructor (rows: map<EventId, Row>)
      ensures State(map[]) == Desk(rows, map[], map[], [])
    {
      this.rows, budgets, fetches := rows, map[], [];
    }

    function State(blocked: map<ClientId, int>): Desk
      reads this
    {
      Desk(rows, budgets, blocked, fetches)
    }

    method MarkFailed(event: EventId, status: ReportStatus, fault: Option<Fault>, next: Option<int>)
      modifies this`rows
      ensures rows == Failed(old(rows), event, status, fault, next)
    {
      if event in rows {
        var row := rows[event];
        rows := rows[event := row.(status := status, nextAttempt := next, attempts := row.attempts + 1,
            failure := fault)];
      }
    }

    method Reschedule(event: EventId, next: int)
      modifies this`rows
      ensures rows == Rescheduled(old(rows), event, next)
    {
      if event in rows { rows := rows[event := rows[event].(nextAttempt := Some(next))]; }
    }

    method Store(event: EventId, report: Report, next: Option<int>)
      modifies this`rows
      ensures rows == Stored(old(rows), event, report, next)
    {
      if event in rows { rows := rows[event := Row(Ready, Some(report), next, 0, None)]; }
    }

    /** Reads one report and stores what it said, or records why it could not. */
    method FetchOne(due: Due, c: ClientId, w: World) returns (budget: Budget, fault: Option<Fault>)
      modifies this`rows, this`fetches
      ensures rows == AfterFetch(old(rows), due, w.fetch(due).answer, w.liveRefresh)
      ensures fetches == old(fetches) + [(c, due.event)]
      ensures budget == w.fetch(due).budget
      ensures fault == Some(RateLimited) <==> w.fetch(due).answer == Fails(RateLimited)
      ensures fault == Some(InvalidCredentials) <==> w.fetch(due).answer == Fails(InvalidCredentials)
    {
      var got := w.fetch(due);
      fetches := fetches + [(c, due.event)];
      budget := got.budget;
      if got.answer.Fails? {
        var status := StatusFor(got.answer.fault);
        if status.None? { return budget, Some(got.answer.fault); }
        var next := None;
        if !status.value.1 {
          var wait := Backoff(1);
          next := Some(due.at + wait);
        }
        MarkFailed(due.event, status.value.0, Some(got.answer.fault), next);
        return budget, None;
      }
      if !got.answer.storable { return budget, Some(OtherFault("storing report")); }
      var report := got.answer.report;
      var moved := due.revision.None? || due.revision.value != report.revision;
      var next := None;
      if moved || report.live { next := Some(due.at + w.liveRefresh); }
      Store(due.event, report, next);
      return budget, None;
    }

    method FetchDue(batch: seq<Due>, w: World) returns (ghost blocked': map<ClientId, int>)
      modifies this
      ensures State(blocked') == Ticked(old(State(map[])), batch, w)
    {
      var blocked: map<ClientId, int> := map[];
      for i := 0 to |batch|
        invariant State(blocked) == HandledAll(old(State(map[])), batch[..i], w)
      {
        assert batch[..i + 1][..i] == batch[..i];
        blocked := HandleOne(batch[i], blocked, w);
      }
      assert batch[..|batch|] == batch;
      blocked' := blocked;
    }

    /** One turn of the loop. */
    method HandleOne(due: Due, stopped: map<ClientId, int>, w: World) returns (blocked: map<ClientId, int>)
      modifies this
      ensures State(blocked) == Handled(old(State(stopped)), due, w)
    {
      blocked := stopped;
      var creds := w.credentials(due.guild);
      if creds.LookupFailed? { return; }
      if creds.NotConfigured? {
        MarkFailed(due.event, Unavailable, None, None);
        return;
      }
      var c := creds.id;
      if c in blocked {
        Reschedule(due.event, blocked[c]);
        return;
      }
      if c in budgets && Spent(budgets[c]) {
        var until := due.at + budgets[c].resetIn;
        blocked := blocked[c := until];
        Reschedule(due.event, until);
        return;
      }
      var budget, fault := FetchOne(due, c, w);
      if budget.limitPerHour > 0 { budgets := budgets[c := budget]; }
      if fault == Some(RateLimited) {
        var until := due.at + ResetIn(budget);
        blocked := blocked[c := until];
        Reschedule(due.event, until);
      } else if fault == Some(InvalidCredentials) {
        var until := due.at + 3600;
        blocked := blocked[c := until];
        Reschedule(due.event, until);
      }
    }
  }

  // ----- Clients do not interfere

  predicate On(due: Due, c: ClientId, w: World) { w.credentials(due.guild) == Client(c) }

  function OnlyOn(c: ClientId, w: World): Due -> Option<Due> {
    (due: Due) => if On(due, c, w) then Some(due) else None
  }

  function OfClient(c: ClientId): ((ClientId, EventId)) -> Option<EventId> {
    (f: (ClientId, EventId)) => if f.0 == c then Some(f.1) else None
  }

  /** The reports fetched with a client, in order. */
  function FetchesOf(d: Desk, c: ClientId): seq<EventId> { FilterMap(d.fetches, OfClient(c)) }

  function Known<K, V>(m: map<K, V>, k: K): Option<V> { if k in m then Some(m[k]) else None }

  /** Two desks look the same to client c and to these of its reports. */
  ghost predicate SameFor(d: Desk, e: Desk, c: ClientId, events: set<EventId>) {
    && Known(d.budgets, c) == Known(e.budgets, c)
    && Known(d.blocked, c) == Known(e.blocked, c)
    && FetchesOf(d, c) == FetchesOf(e, c)
    && forall event | event in events :: Known(d.rows, event) == Known(e.rows, event)
  }

  lemma FetchLogged(log: seq<(ClientId, EventId)>, f: (ClientId, EventId), c: ClientId)
    ensures FilterMap(log + [f], OfClient(c)) == FilterMap(log, OfClient(c)) + (if f.0 == c then [f.1] else [])
  {
    FilterMapStep(log + [f], |log|, OfClient(c));
    assert (log + [f])[..|log|] == log && (log + [f])[..|log| + 1] == log + [f];
  }

  ghost predicate RowsAlike(rows: map<EventId, Row>, others: map<EventId, Row>, events: set<EventId>) {
    forall event | event in events :: Known(rows, event) == Known(others, event)
  }

  lemma RescheduledAlike(
      rows: map<EventId, Row>, others: map<EventId, Row>, event: EventId, next: int, events: set<EventId>)
    requires RowsAlike(rows, others, events)
    ensures RowsAlike(Rescheduled(rows, event, next), Rescheduled(others, event, next), events)
  {
  }

  lemma FetchedAlike(
      rows: map<EventId, Row>, others: map<EventId, Row>, due: Due, f: Fetched, liveRefresh: int, events: set<EventId>)
    requires RowsAlike(rows, others, events)
    ensures RowsAlike(RowsAfter(rows, due, f, liveRefresh), RowsAfter(others, due, f, liveRefresh), events)
  {
    assert RowsAlike(AfterFetch(rows, due, f.answer, liveRefresh), AfterFetch(others, due, f.answer, liveRefresh),
        events);
  }

  lemma OtherRowsStay(rows: map<EventId, Row>, due: Due, f: Fetched, liveRefresh: int, events: set<EventId>)
    requires due.event !in events
    ensures RowsAlike(RowsAfter(rows, due, f, liveRefresh), rows, events)
  {
  }

  /** A report of another client, or of none, changes nothing c can see. */
  lemma OthersAreUnseen(d: Desk, due: Due, w: World, c: ClientId, events: set<EventId>)
    requires !On(due, c, w) && due.event !in events
    ensures SameFor(Handled(d, due, w), d, c, events)
  {
    var creds := w.credentials(due.guild);
    if creds.Client? { OtherClientsAreUnseen(d, due, creds.id, w, c, events); }
  }

  lemma OtherClientsAreUnseen(d: Desk, due: Due, other: ClientId, w: World, c: ClientId, events: set<EventId>)
    requires other != c && due.event !in events
    ensures SameFor(ClientStep(d, due, other, w), d, c, events)
  {
    FetchLogged(d.fetches, (other, due.event), c);
    OtherRowsStay(d.rows, due, w.fetch(due), w.liveRefresh, events);
  }

  lemma FetchStepAlike(d: Desk, e: Desk, due: Due, c: ClientId, f: Fetched, liveRefresh: int, events: set<EventId>)
    requires SameFor(d, e, c, events)
    ensures SameFor(FetchStep(d, due, c, f, liveRefresh), FetchStep(e, due, c, f, liveRefresh), c, events)
  {
    FetchLogged(d.fetches, (c, due.event), c);
    FetchLogged(e.fetches, (c, due.event), c);
    assert RowsAlike(d.rows, e.rows, events);
    FetchedAlike(d.rows, e.rows, due, f, liveRefresh, events);
  }

  /** A report of c is handled by what c can see alone. */
  lemma OwnIsDecidedByView(d: Desk, e: Desk, due: Due, w: World, c: ClientId, events: set<EventId>)
    requires On(due, c, w) && SameFor(d, e, c, events)
    ensures SameFor(Handled(d, due, w), Handled(e, due, w), c, events)
  {
    if c in d.blocked {
      RescheduledAlike(d.rows, e.rows, due.event, d.blocked[c], events);
    } else if c in d.budgets && Spent(d.budgets[c]) {
      RescheduledAlike(d.rows, e.rows, due.event, due.at + d.budgets[c].resetIn, events);
    } else {
      FetchStepAlike(d, e, due, c, w.fetch(due), w.liveRefresh, events);
    }
  }

  ghost predicate Separate(batch: seq<Due>, c: ClientId, w: World, events: set<EventId>) {
    forall i | 0 <= i < |batch| && !On(batch[i], c, w) :: batch[i].event !in events
  }

  lemma {:induction false} FilteredBatchAgrees(
      d: Desk, e: Desk, batch: seq<Due>, w: World, c: ClientId, events: set<EventId>)
    requires SameFor(d, e, c, events) && Separate(batch, c, w, events)
    ensures SameFor(HandledAll(d, batch, w), HandledAll(e, FilterMap(batch, OnlyOn(c, w)), w), c, events)
    decreases |batch|
  {
    if batch == [] {
    } else {
      var front, last := batch[..|batch| - 1], batch[|batch| - 1];
      assert forall i | 0 <= i < |front| :: front[i] == batch[i];
      FilteredBatchAgrees(d, e, front, w, c, events);
      var mid := HandledAll(d, front, w);
      var kept := FilterMap(front, OnlyOn(c, w));
      if On(last, c, w) {
        assert (kept + [last])[..|kept|] == kept;
        OwnIsDecidedByView(mid, HandledAll(e, kept, w), last, w, c, events);
      } else {
        OthersAreUnseen(mid, last, w, c, events);
      }
    }
  }

  /** The reports of one client in a batch. */
  ghost function EventsOf(batch: seq<Due>, c: ClientId, w: World): set<EventId> {
    set i | 0 <= i < |batch| && On(batch[i], c, w) :: batch[i].event
  }

  /** Credentials do not interfere: what a batch does to one client's reports, to what is
      remembered of it and to the fetches made with it is what the batch would do with every
      other client's reports taken out. */
  lemma {:induction false} CredentialsDoNotInterfere(d: Desk, batch: seq<Due>, w: World, c: ClientId)
    requires forall i, j | 0 <= i < j < |batch| :: batch[i].event != batch[j].event
    ensures SameFor(Ticked(d, batch, w), Ticked(d, FilterMap(batch, OnlyOn(c, w)), w), c, EventsOf(batch, c, w))
  {
    var start := d.(blocked := map[]);
    FilteredBatchAgrees(start, start, batch, w, c, EventsOf(batch, c, w));
  }

  // ----- When fetching stops

  /** Nothing more is asked of this client in the batch. */
  predicate Idle(d: Desk, c: ClientId) { c in d.blocked || (c in d.budgets && Spent(d.budgets[c])) }

  lemma IdleStep(d: Desk, due: Due, w: World, c: ClientId)
    requires Idle(d, c)
    ensures Idle(Handled(d, due, w), c) && FetchesOf(Handled(d, due, w), c) == FetchesOf(d, c)
    ensures c in d.blocked ==> c in Handled(d, due, w).blocked
    ensures Known(Handled(d, due, w).budgets, c) == Known(d.budgets, c)
  {
    if w.credentials(due.guild).Client? { FetchLogged(d.fetches, (w.credentials(due.guild).id, due.event), c); }
  }

  lemma {:induction false} IdleClientsFetchNothing(d: Desk, batch: seq<Due>, w: World, c: ClientId)
    requires Idle(d, c)
    ensures Idle(HandledAll(d, batch, w), c) && FetchesOf(HandledAll(d, batch, w), c) == FetchesOf(d, c)
    ensures Known(HandledAll(d, batch, w).budgets, c) == Known(d.budgets, c)
  {
    if batch == [] {
    } else {
      IdleClientsFetchNothing(d, batch[..|batch| - 1], w, c);
      IdleStep(HandledAll(d, batch[..|batch| - 1], w), batch[|batch| - 1], w, c);
    }
  }

  lemma {:induction false} HandledInTwo(d: Desk, batch: seq<Due>, rest: seq<Due>, w: World)
    ensures HandledAll(d, batch + rest, w) == HandledAll(HandledAll(d, batch, w), rest, w)
    decreases |rest|
  {
    if rest == [] {
      assert batch + rest == batch;
    } else {
      HandledInTwo(d, batch, rest[..|rest| - 1], w);
      assert (batch + rest)[..|batch + rest| - 1] == batch + rest[..|rest| - 1];
    }
  }

  /** Once a client answers that it is rate limited, or that its credentials are refused, the
      rest of the batch makes no fetch with it. */
  lemma RefusalEndsTheClientsBatch(d: Desk, batch: seq<Due>, rest: seq<Due>, w: World, c: ClientId)
    requires batch != [] && On(batch[|batch| - 1], c, w) && StopFor(w.fetch(batch[|batch| - 1])).Some?
    ensures FetchesOf(Ticked(d, batch + rest, w), c) == FetchesOf(Ticked(d, batch, w), c)
  {
    HandledInTwo(d.(blocked := map[]), batch, rest, w);
    IdleClientsFetchNothing(Ticked(d, batch, w), rest, w, c);
  }

  function Ticks(d: Desk, batches: seq<seq<Due>>, worlds: seq<World>): Desk
    requires |batches| == |worlds|
  {
    if batches == [] then d
    else
      var last := |batches| - 1;
      Ticked(Ticks(d, batches[..last], worlds[..last]), batches[last], worlds[last])
  }

  /** Neither stopped in this batch nor remembered as spent: its next report is fetched. */
  predicate Askable(d: Desk, c: ClientId) { c !in d.blocked && !(c in d.budgets && Spent(d.budgets[c])) }

  ghost predicate AnyOn(batch: seq<Due>, c: ClientId, w: World) {
    exists i :: 0 <= i < |batch| && On(batch[i], c, w)
  }

  lemma FetchesOnlyGrow(d: Desk, due: Due, w: World, c: ClientId)
    ensures |FetchesOf(Handled(d, due, w), c)|
         == |FetchesOf(d, c)| + (if On(due, c, w) && Askable(d, c) then 1 else 0)
  {
    if w.credentials(due.guild).Client? { FetchLogged(d.fetches, (w.credentials(due.guild).id, due.event), c); }
  }

  /** An askable client is fetched with as soon as the batch holds a report of its own. */
  lemma {:induction false} AskableClientsAreAsked(d: Desk, batch: seq<Due>, w: World, c: ClientId)
    requires Askable(d, c)
    ensures AnyOn(batch, c, w) ==> |FetchesOf(HandledAll(d, batch, w), c)| > |FetchesOf(d, c)|
    ensures !AnyOn(batch, c, w) ==>
      FetchesOf(HandledAll(d, batch, w), c) == FetchesOf(d, c) && Askable(HandledAll(d, batch, w), c)
  {
    if batch == [] {
    } else {
      var front, last := batch[..|batch| - 1], batch[|batch| - 1];
      var mid := HandledAll(d, front, w);
      AskableClientsAreAsked(d, front, w, c);
      assert forall i | 0 <= i < |front| :: front[i] == batch[i];
      assert AnyOn(batch, c, w) <==> AnyOn(front, c, w) || On(last, c, w) by {
        if On(last, c, w) { assert On(batch[|batch| - 1], c, w); }
        if AnyOn(front, c, w) {
          var i :| 0 <= i < |front| && On(front[i], c, w);
          assert On(batch[i], c, w);
        }
      }
      FetchesOnlyGrow(mid, last, w, c);
      if !On(last, c, w) { OthersAreUnseen(mid, last, w, c, {}); }
    }
  }

  /** Whether a batch asks anything of a client that has a report in it is decided before it
      starts: it does not exactly when the remembered budget is spent, reset or not. */
  lemma AskedExactlyUnlessSpent(d: Desk, batch: seq<Due>, w: World, c: ClientId)
    requires AnyOn(batch, c, w)
    ensures FetchesOf(Ticked(d, batch, w), c) == FetchesOf(d, c) <==> c in d.budgets && Spent(d.budgets[c])
  {
    var start := d.(blocked := map[]);
    if Askable(start, c) {
      AskableClientsAreAsked(start, batch, w, c);
    } else {
      IdleClientsFetchNothing(start, batch, w, c);
    }
  }

  /** A budget remembered as spent is refreshed only by a fetch, and a spent budget stops every
      fetch: no number of later batches asks anything of that client again. */
  lemma {:induction false} SpentBudgetsAreNeverRefreshed(
      d: Desk, batches: seq<seq<Due>>, worlds: seq<World>, c: ClientId)
    requires |batches| == |worlds| && c in d.budgets && Spent(d.budgets[c])
    ensures var after := Ticks(d, batches, worlds);
      && FetchesOf(after, c) == FetchesOf(d, c)
      && c in after.budgets && after.budgets[c] == d.budgets[c]
  {
    if batches == [] {
    } else {
      var last := |batches| - 1;
      SpentBudgetsAreNeverRefreshed(d, batches[..last], worlds[..last], c);
      var mid := Ticks(d, batches[..last], worlds[..last]);
      IdleClientsFetchNothing(mid.(blocked := map[]), batches[last], worlds[last], c);
    }
  }

  // ----- A budget that never comes back

  const KEY: ClientId := "k"
  const NEARLY_SPENT := Budget(100, 95.0, 60)
  const FIRST := Due(1, 7, None, 0)

  /** Long after the minute its budget took to reset. */
  const LATER := Due(2, 7, None, 100_000)

  function OneClient(): World {
    World((guild: int) => Client(KEY), (due: Due) => Fetched(Read(Report(1, false, ""), true), NEARLY_SPENT), 600)
  }

  lemma AloneInABatch(d: Desk, due: Due, w: World)
    ensures HandledAll(d, [due], w) == Handled(d, due, w)
  {
    assert [due][..|[due]| - 1] == [];
  }

  /** One fetch answers a budget nearly spent that resets in a minute; a day later the client
      is still not asked. */
  lemma ResetIsNeverNoticed(rows: map<EventId, Row>)
    ensures var start := Desk(rows, map[], map[], []);
      && FetchesOf(Ticked(start, [FIRST], OneClient()), KEY) == [1]
      && FetchesOf(Ticked(Ticked(start, [FIRST], OneClient()), [LATER], OneClient()), KEY) == [1]
  {
    var start := Desk(rows, map[], map[], []);
    var w := OneClient();
    AloneInABatch(start, FIRST, w);
    FetchLogged([], (KEY, 1), KEY);
    assert [] + [(KEY, 1)] == [(KEY, 1)];
    var once := Ticked(start, [FIRST], w);
    assert once == Handled(start, FIRST, w);
    assert once.budgets[KEY] == NEARLY_SPENT;
    assert On([LATER][0], KEY, w);
    AskedExactlyUnlessSpent(once, [LATER], w, KEY);
  }

  /** A stopped client's report comes back later than now, except on a remembered budget that
      is spent and whose reset is not ahead: that path has no floor. */
  lemma StoppedReportsWait(d: Desk, due: Due, w: World, c: ClientId)
    requires On(due, c, w) && c !in d.blocked && due.event in d.rows
    requires c in Handled(d, due, w).blocked
    ensures Handled(d, due, w).rows[due.event].nextAttempt == Some(Handled(d, due, w).blocked[c])
    ensures Handled(d, due, w).blocked[c] > due.at
        <==> !(c in d.budgets && Spent(d.budgets[c]) && d.budgets[c].resetIn <= 0)
  {
  }

  /** A report is asked for again exactly while there may be more to read: never after a
      terminal fault, always after a passing one, and after a read while it moves or is live. */
  lemma AsksAgainWhileItCanChange(rows: map<EventId, Row>, due: Due, answer: Answer, liveRefresh: int)
    requires due.event in rows
    ensures var row := AfterFetch(rows, due, answer, liveRefresh)[due.event];
      && (answer.Read? && answer.storable ==>
            && row.status.Ready? && row.stored == Some(answer.report) && row.attempts == 0
            && (row.nextAttempt.Some? <==> due.revision != Some(answer.report.revision) || answer.report.live))
      && (answer.Fails? && StatusFor(answer.fault).Some? ==>
            && row.stored == rows[due.event].stored && row.attempts == rows[due.event].attempts + 1
            && (row.nextAttempt.None? <==> row.status.NotFound? || row.status.Private? || row.status.Archived?)
            && (row.status.Unavailable? ==> row.nextAttempt == Some(due.at + 600)))
      && (answer.Read? && !answer.storable ==> row == rows[due.event])
      && (answer.Fails? && StatusFor(answer.fault).None? ==> row == rows[due.event])
  {
    assert BackoffOf(0) == 300 && BackoffOf(1) == 600;
  }

  /** Waits double from five minutes and never pass six hours. */
  lemma {:induction false} BackoffGrowsToTheCap(n: int)
    requires n >= 0
    ensures 300 <= BackoffOf(n) <= BackoffOf(n + 1) <= MAX_BACKOFF
    ensures BackoffOf(n + 1) == 2 * BackoffOf(n) || BackoffOf(n + 1) == MAX_BACKOFF
  {
    if n == 0 {
    } else {
      BackoffGrowsToTheCap(n - 1);
    }
  }

  // ----- One report, spelled out

  /** Nothing changes but this report's row. */
  ghost predicate OnlyItsRow(rows: map<EventId, Row>, after: map<EventId, Row>, event: EventId) {
    after.Keys == rows.Keys && forall other | other in rows && other != event :: after[other] == rows[other]
  }

  /** The client may be asked: it has refused nothing in this batch, and the last budget it
      reported has a tenth of its points left, if it has any limit. */
  predicate MayAsk(d: Desk, c: ClientId) {
    c !in d.blocked
    && (c in d.budgets ==>
          d.budgets[c].limitPerHour <= 0 || 10.0 * d.budgets[c].spentThisHour < 9.0 * d.budgets[c].limitPerHour as real)
  }

  /** What one fetch leaves: the row of the report by what was answered, the budget if it has a
      limit, and the client stopped for the batch by a refusal of its own. */
  lemma FetchLeaves(d: Desk, due: Due, w: World, c: ClientId)
    requires w.credentials(due.guild) == Client(c) && due.event in d.rows && MayAsk(d, c)
    ensures var f, row, after := w.fetch(due), d.rows[due.event], Handled(d, due, w);
      && OnlyItsRow(d.rows, after.rows, due.event)
      && after.fetches == d.fetches + [(c, due.event)]
      && after.budgets == (if f.budget.limitPerHour > 0 then d.budgets[c := f.budget] else d.budgets)
      && match f.answer
         case Read(report, true) =>
           && after.blocked == d.blocked
           && after.rows[due.event]
              == Row(Ready, Some(report),
                     if due.revision != Some(report.revision) || report.live then Some(due.at + w.liveRefresh)
                     else None, 0, None)
         case Read(_, false) => after.blocked == d.blocked && after.rows[due.event] == row
         case Fails(MissingReport) =>
           && after.blocked == d.blocked
           && after.rows[due.event] == Row(NotFound, row.stored, None, row.attempts + 1, Some(MissingReport))
         case Fails(PrivateReport) =>
           && after.blocked == d.blocked
           && after.rows[due.event] == Row(Private, row.stored, None, row.attempts + 1, Some(PrivateReport))
         case Fails(ArchivedReport) =>
           && after.blocked == d.blocked
           && after.rows[due.event] == Row(Archived, row.stored, None, row.attempts + 1, Some(ArchivedReport))
         case Fails(OtherFault(text)) =>
           && after.blocked == d.blocked
           && after.rows[due.event]
              == Row(Unavailable, row.stored, Some(due.at + 600), row.attempts + 1, Some(OtherFault(text)))
         case Fails(RateLimited) =>
           var until := due.at + (if f.budget.resetIn > 0 then f.budget.resetIn else 900);
           && after.blocked == d.blocked[c := until]
           && after.rows[due.event] == row.(nextAttempt := Some(until))
         case Fails(InvalidCredentials) =>
           && after.blocked == d.blocked[c := due.at + 3600]
           && after.rows[due.event] == row.(nextAttempt := Some(due.at + 3600))
  {
    assert BackoffOf(0) == 300 && BackoffOf(1) == 600;
  }

  /** What a report that is not fetched leaves: nothing when the credentials cannot be looked
      up, a row parked for good when there are none, and otherwise a wait for the client. */
  lemma PassedOverLeaves(d: Desk, due: Due, w: World)
    requires due.event in d.rows
    requires forall c :: w.credentials(due.guild) == Client(c) ==> !MayAsk(d, c)
    ensures var row, after := d.rows[due.event], Handled(d, due, w);
      && OnlyItsRow(d.rows, after.rows, due.event) && after.fetches == d.fetches && after.budgets == d.budgets
      && match w.credentials(due.guild)
         case LookupFailed => after == d
         case NotConfigured =>
           && after.blocked == d.blocked
           && after.rows[due.event] == Row(Unavailable, row.stored, None, row.attempts + 1, None)
         case Client(c) =>
           && (c in d.blocked ==>
                 after.blocked == d.blocked && after.rows[due.event] == row.(nextAttempt := Some(d.blocked[c])))
           && (c !in d.blocked ==>
                 && c in d.budgets
                 && after.blocked == d.blocked[c := due.at + d.budgets[c].resetIn]
                 && after.rows[due.event] == row.(nextAttempt := Some(due.at + d.budgets[c].resetIn)))
  {
  }
}
