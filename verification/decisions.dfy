/** Late requests decided by more than one raid lead at a time. */
module Decisions {
  import opened Options
  import opened Notices
  import opened Tables
  import opened Runs
  import opened Races

  ghost predicate Refiles(t: Tables, act: Act, request: RequestId) {
    act.Plain? && act.op.File? && request in t.requests && act.op.k == t.requests[request].key
  }

  /** A rejection decided on while the request was pending lands on it. */
  ghost predicate RejectionLands(f: Floor, act: Act, request: RequestId) {
    act.FinishReject? && act.id in f.rejections && f.rejections[act.id] == request
  }

  ghost predicate Decided(t: Tables, request: RequestId) {
    request in t.requests && !t.requests[request].state.Pending?
  }

  ghost predicate NoneRefiles(f: Floor, acts: seq<Act>, request: RequestId) {
    acts != [] ==>
      && NoneRefiles(f, acts[..|acts| - 1], request)
      && !Refiles(Raced(f, acts[..|acts| - 1]).world.tables, acts[|acts| - 1], request)
  }

  /** The decision after the act is the one before it. */
  ghost predicate Stands(f: Floor, act: Act, request: RequestId) {
    Decided(f.world.tables, request) ==>
      var after := Did(f, act).world.tables;
      request in after.requests && after.requests[request].state == f.world.tables.requests[request].state
  }

  ghost predicate StandsThroughout(f: Floor, acts: seq<Act>, request: RequestId) {
    acts != [] ==>
      && StandsThroughout(f, acts[..|acts| - 1], request)
      && Stands(Raced(f, acts[..|acts| - 1]), acts[|acts| - 1], request)
  }

  /** An approval is overturned by a rejection that was decided on before it. */
  ghost predicate Overturns(f: Floor, act: Act, request: RequestId) {
    && RejectionLands(f, act, request)
    && Decided(f.world.tables, request) && f.world.tables.requests[request].state.Approved?
  }

  ghost predicate NothingOverturns(f: Floor, acts: seq<Act>, request: RequestId) {
    acts != [] ==>
      && NothingOverturns(f, acts[..|acts| - 1], request)
      && !Overturns(Raced(f, acts[..|acts| - 1]), acts[|acts| - 1], request)
  }

  lemma RequestsStayUnique(t: Tables, op: Op, now: int)
    requires OneRequestEach(t)
    ensures OneRequestEach(Apply(t, op, now).0)
  {
  }

  /** One act: a decided request stays decided, and its decision stands exactly when no
      rejection lands on an approval. */
  lemma ActStandsExactly(f: Floor, act: Act, request: RequestId)
    requires OneRequestEach(f.world.tables) && Decided(f.world.tables, request)
    requires !Refiles(f.world.tables, act, request)
    ensures OneRequestEach(Did(f, act).world.tables) && Decided(Did(f, act).world.tables, request)
    ensures Stands(f, act, request) <==> !Overturns(f, act, request)
  {
    match act {
      case Plain(op, now) =>
        RequestsStayUnique(f.world.tables, op, now);
        DecisionsStand(f.world.tables, op, now, request);
      case FinishReject(id, now) => if id in f.rejections { OverwriteStands(f.world, f.rejections[id], now, request); }
      case _ =>
    }
  }

  lemma OverwriteStands(w: World, landing: RequestId, now: int, request: RequestId)
    requires OneRequestEach(w.tables) && Decided(w.tables, request)
    ensures var after := Overwritten(w, landing, now).tables;
      && OneRequestEach(after) && Decided(after, request)
      && after.requests[request].state
         == if landing == request then Rejected else w.tables.requests[request].state
  {
  }

  /** However approvals, rejections and everything else interleave, a decision stands all along
      if and only if no rejection decided on earlier lands on it while it is an approval. */
  lemma {:induction false} DecisionStandsExactly(f: Floor, acts: seq<Act>, request: RequestId)
    requires OneRequestEach(f.world.tables) && Decided(f.world.tables, request) && NoneRefiles(f, acts, request)
    ensures OneRequestEach(Raced(f, acts).world.tables) && Decided(Raced(f, acts).world.tables, request)
    ensures StandsThroughout(f, acts, request) <==> NothingOverturns(f, acts, request)
  {
    if acts == [] {
    } else {
      DecisionStandsExactly(f, acts[..|acts| - 1], request);
      ActStandsExactly(Raced(f, acts[..|acts| - 1]), acts[|acts| - 1], request);
    }
  }

  /** Approved and rejected: a pending request that can be approved is, between the two halves
      of a rejection. The signup is written and the request ends REJECTED. */
  lemma ApprovedAndRejected(w: World, request: RequestId, now: int, later: int)
    requires ApproveStep(w.tables, request, now).1.Done?
    ensures var acts := [BeginReject(1, request), Plain(Approve(request), now), FinishReject(1, later)];
      var end, asked := Raced(Quiet(w), acts).world.tables, w.tables.requests[request];
      && request in end.requests && end.requests[request].state.Rejected?
      && asked.key in end.signups && end.signups[asked.key].answer == asked.answer
  {
    var f, asked := Quiet(w), w.tables.requests[request];
    RacedOfThree(f, BeginReject(1, request), Plain(Approve(request), now), FinishReject(1, later));
    ApprovalWrites(w.tables, request, now);
    var mid := Step(w, Approve(request), now);
    assert Did(Did(f, BeginReject(1, request)), Plain(Approve(request), now)) == Floor(mid, map[], map[1 := request]);
  }

  lemma ApprovalWrites(t: Tables, request: RequestId, now: int)
    requires ApproveStep(t, request, now).1.Done?
    ensures var after, asked := ApproveStep(t, request, now).0, t.requests[request];
      && request in after.requests
      && asked.key in after.signups && after.signups[asked.key].answer == asked.answer
  {
  }
}
