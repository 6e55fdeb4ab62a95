/** internal/comp/manual.go: boards a raid lead owns, and exactly who leaves them. */
module ManualBoards {
  import opened Options
  import opened Comp
  import opened Notices
  import opened Tables
  import opened Runs

  /** Operations a raid lead uses on the comp itself. */
  predicate Handles(op: Op, c: CompKey) {
    (op.Save? && op.c == c) || (op.SetMode? && op.c == c) || (op.Rename? && op.c == c)
  }

  function HolderOf(s: SlotKey): SignupKey { SignupKey(s.event, s.character) }

  /** The slot is there after exactly when it was there before and is not gone, as it was. */
  predicate Carried(before: map<SlotKey, Slot>, after: map<SlotKey, Slot>, s: SlotKey, gone: bool) {
    && (s in after <==> s in before && !gone)
    && (s in after ==> after[s] == before[s])
  }

  /** The board of the comp is the same, nobody added, changed or taken off. */
  ghost predicate Intact(before: map<SlotKey, Slot>, after: map<SlotKey, Slot>, c: CompKey) {
    forall s | SlotIn(s, c) :: Carried(before, after, s, false)
  }

  ghost predicate StaysAs(t: Tables, after: Tables, c: CompKey) {
    c in t.comps ==> c in after.comps && after.comps[c] == t.comps[c]
  }

  /** The operation writes or deletes this very signup, and it holds no place afterwards. */
  ghost predicate TakesOut(t: Tables, op: Op, now: int, k: SignupKey) {
    && IsAbout(t, op, k)
    && Apply(t, op, now).1.Done?
    && !HoldsPlace(Apply(t, op, now).0.signups, k)
  }

  predicate IsAbout(t: Tables, op: Op, k: SignupKey) {
    match op
    case Write(wk, _, _, _) => wk == k
    case Withdraw(wk, _) => wk == k
    case Approve(id) => id in t.requests && t.requests[id].key == k
    case _ => false
  }

  // ----- What each operation leaves of a board

  lemma ReplacedElsewhere(t: Tables, other: CompKey, mode: CompMode, rows: seq<Assignment>, c: CompKey)
    requires other != c
    ensures Intact(t.slots, ReplaceStep(t, other, mode, rows).0.slots, c)
    ensures StaysAs(t, ReplaceStep(t, other, mode, rows).0, c)
  {
    var after := ReplaceStep(t, other, mode, rows).0;
    forall s | SlotIn(s, c) ensures Carried(t.slots, after.slots, s, false) {
      BoardSlotsListed(other, rows, s);
    }
  }

  lemma RenamedElsewhere(t: Tables, other: CompKey, to: CompName, c: CompKey)
    requires other in t.comps && c in t.comps && other != c && CompKey(other.event, to) !in t.comps
    ensures Intact(t.slots, SlotsRenamed(t.slots, other, to), c)
  {
    forall s | SlotIn(s, c) ensures Carried(t.slots, SlotsRenamed(t.slots, other, to), s, false) {
      assert c == CompKey(s.event, s.comp);
      assert s in WithoutComp(t.slots, other) <==> s in t.slots;
    }
  }

  /** Operations that touch no board at all. */
  predicate LeavesBoards(op: Op) { op.File? || op.Reject? || op.SetMode? || op.Resheet? }

  lemma BoardsUntouched(t: Tables, op: Op, now: int, c: CompKey)
    requires LeavesBoards(op) && (op.SetMode? ==> op.c != c)
    ensures var after := Apply(t, op, now).0; StaysAs(t, after, c) && after.slots == t.slots
  {
  }

  lemma AnsweredTakesOut(t: Tables, k: SignupKey, a: Answer, now: int, s: SlotKey)
    requires k.event in t.events
    ensures var after := Answered(t, k, a, now);
      && after.comps == t.comps
      && Carried(t.slots, after.slots, s, HolderOf(s) == k && !HoldsPlace(after.signups, k))
  {
  }

  lemma WithdrawnTakesOut(t: Tables, k: SignupKey, s: SlotKey)
    requires k.event in t.events
    ensures var after := Withdrawn(t, k);
      && after.comps == t.comps
      && Carried(t.slots, after.slots, s, HolderOf(s) == k && !HoldsPlace(after.signups, k))
  {
  }

  lemma WriteTakesOut(t: Tables, k: SignupKey, a: Answer, owned: bool, isRaidLead: bool, now: int, s: SlotKey)
    ensures var (after, outcome) := WriteStep(t, k, a, owned, isRaidLead, now);
      && after.comps == t.comps
      && Carried(t.slots, after.slots, s, HolderOf(s) == k && outcome.Done? && !HoldsPlace(after.signups, k))
  {
    if WriteStep(t, k, a, owned, isRaidLead, now).1.Done? {
      AnsweredTakesOut(t, k, if a.status.Late? then a else a.(lateUntil := None), now, s);
    }
  }

  lemma WithdrawTakesOut(t: Tables, k: SignupKey, isRaidLead: bool, now: int, s: SlotKey)
    ensures var (after, outcome) := WithdrawStep(t, k, isRaidLead, now);
      && after.comps == t.comps
      && Carried(t.slots, after.slots, s, HolderOf(s) == k && outcome.Done? && !HoldsPlace(after.signups, k))
  {
    if WithdrawStep(t, k, isRaidLead, now).1.Done? { WithdrawnTakesOut(t, k, s); }
  }

  lemma ApproveTakesOut(t: Tables, id: RequestId, now: int, s: SlotKey)
    ensures var (after, outcome) := ApproveStep(t, id, now);
      && after.comps == t.comps
      && Carried(t.slots, after.slots, s, id in t.requests && HolderOf(s) == t.requests[id].key && outcome.Done?
                                          && !HoldsPlace(after.signups, t.requests[id].key))
  {
    if ApproveStep(t, id, now).1.Done? { AnsweredTakesOut(t, t.requests[id].key, t.requests[id].answer, now, s); }
  }

  lemma SignupsTakeOut(t: Tables, op: Op, now: int, s: SlotKey)
    requires op.Write? || op.Withdraw? || op.Approve?
    ensures var after := Apply(t, op, now).0;
      after.comps == t.comps && Carried(t.slots, after.slots, s, TakesOut(t, op, now, HolderOf(s)))
  {
    match op {
      case Write(k, a, owned, isRaidLead) => WriteTakesOut(t, k, a, owned, isRaidLead, now, s);
      case Withdraw(k, isRaidLead) => WithdrawTakesOut(t, k, isRaidLead, now, s);
      case Approve(id) => ApproveTakesOut(t, id, now, s);
    }
  }

  lemma LockIsAReplacement(t: Tables, c: CompKey)
    ensures LockStep(t, c) == if LockRead(t, c).Done? then ReplaceStep(t, c, Auto, LockedRows(t, c.event))
                              else (t, LockRead(t, c))
  {
  }

  lemma ReplacementElsewhere(
    t: Tables, other: CompKey, mode: CompMode, rows: seq<Assignment>, c: CompKey, after: Tables)
    requires other != c && after == ReplaceStep(t, other, mode, rows).0
    ensures Intact(t.slots, after.slots, c) && StaysAs(t, after, c)
  {
    ReplacedElsewhere(t, other, mode, rows, c);
  }

  lemma LockedElsewhere(t: Tables, other: CompKey, c: CompKey)
    requires other != c
    ensures Intact(t.slots, LockStep(t, other).0.slots, c) && StaysAs(t, LockStep(t, other).0, c)
  {
    LockIsAReplacement(t, other);
    if LockRead(t, other).Done? {
      ReplacementElsewhere(t, other, Auto, LockedRows(t, other.event), c, LockStep(t, other).0);
    }
  }

  lemma SavedElsewhere(t: Tables, other: CompKey, seats: seq<Seat>, c: CompKey)
    requires other != c
    ensures Intact(t.slots, SaveStep(t, other, seats).0.slots, c) && StaysAs(t, SaveStep(t, other, seats).0, c)
  {
    if SaveStep(t, other, seats).1.Done? { ReplacedElsewhere(t, other, Manual, ManualRows(seats), c); }
  }

  lemma RenameElsewhere(t: Tables, other: CompKey, name: CompName, c: CompKey)
    requires other != c && c in t.comps
    ensures Intact(t.slots, RenameStep(t, other, name).0.slots, c) && StaysAs(t, RenameStep(t, other, name).0, c)
  {
    var to := TrimSpace(name);
    if other in t.comps && CompKey(other.event, to) !in t.comps { RenamedElsewhere(t, other, to, c); }
  }

  ghost predicate StillManual(t: Tables, c: CompKey) { c in t.comps && t.comps[c].Manual? }

  lemma BoardStays(t: Tables, op: Op, now: int, c: CompKey)
    requires StillManual(t, c) && !Handles(op, c) && !(op.Write? || op.Withdraw? || op.Approve?)
    ensures Intact(t.slots, Apply(t, op, now).0.slots, c) && StaysAs(t, Apply(t, op, now).0, c)
  {
    if op.Lock? {
      if op.c != c { LockedElsewhere(t, op.c, c); }
    } else if op.Save? {
      SavedElsewhere(t, op.c, op.seats, c);
    } else if op.Rename? {
      RenameElsewhere(t, op.c, op.name, c);
    } else {
      BoardsUntouched(t, op, now, c);
    }
  }

  /** Whatever else is done, a MANUAL comp stays one, and of its slots exactly those go whose
      raider is taken out of the pool by a write, a withdrawal or an approval of their own. */
  lemma ExactlyLeaversGo(t: Tables, op: Op, now: int, c: CompKey)
    requires StillManual(t, c) && !Handles(op, c)
    ensures StillManual(Apply(t, op, now).0, c)
    ensures forall s | SlotIn(s, c) ::
      Carried(t.slots, Apply(t, op, now).0.slots, s, TakesOut(t, op, now, HolderOf(s)))
  {
    var after := Apply(t, op, now).0;
    if op.Write? || op.Withdraw? || op.Approve? {
      forall s ensures after.comps == t.comps && Carried(t.slots, after.slots, s, TakesOut(t, op, now, HolderOf(s))) {
        SignupsTakeOut(t, op, now, s);
      }
    } else {
      BoardStays(t, op, now, c);
      forall s | SlotIn(s, c) ensures Carried(t.slots, after.slots, s, TakesOut(t, op, now, HolderOf(s))) {
        assert Carried(t.slots, after.slots, s, false);
      }
    }
  }

  lemma ManualStep(w: World, op: Op, now: int, c: CompKey)
    requires StillManual(w.tables, c) && !Handles(op, c)
    ensures StillManual(Step(w, op, now).tables, c)
    ensures forall s | SlotIn(s, c) ::
      Carried(w.tables.slots, Step(w, op, now).tables.slots, s, TakesOut(w.tables, op, now, HolderOf(s)))
  {
    ExactlyLeaversGo(w.tables, op, now, c);
  }

  // ----- Over runs

  /** Some operation of the run took the raider out of the pool. */
  ghost predicate Left(w: World, ops: seq<(Op, int)>, k: SignupKey) {
    ops != [] &&
    var front, last := ops[..|ops| - 1], ops[|ops| - 1];
    Left(w, front, k) || TakesOut(Run(w, front).tables, last.0, last.1, k)
  }

  /** A hand-built board survives any number of locks: until a raid lead saves, renames or
      converts it, it stays MANUAL, and everybody on it stays as they were placed but exactly
      those who have left the pool since. */
  lemma {:induction false} ManualBoardsAreNeverRecomputed(w: World, ops: seq<(Op, int)>, c: CompKey)
    requires StillManual(w.tables, c) && forall i | 0 <= i < |ops| :: !Handles(ops[i].0, c)
    ensures StillManual(Run(w, ops).tables, c)
    ensures forall s | SlotIn(s, c) ::
      Carried(w.tables.slots, Run(w, ops).tables.slots, s, Left(w, ops, HolderOf(s)))
  {
    if ops == [] {
    } else {
      var front, last := ops[..|ops| - 1], ops[|ops| - 1];
      assert forall i | 0 <= i < |front| :: front[i] == ops[i];
      ManualBoardsAreNeverRecomputed(w, front, c);
      var mid := Run(w, front);
      ManualStep(mid, last.0, last.1, c);
      forall s | SlotIn(s, c)
        ensures Carried(w.tables.slots, Run(w, ops).tables.slots, s, Left(w, ops, HolderOf(s)))
      {
        assert Carried(w.tables.slots, mid.tables.slots, s, Left(w, front, HolderOf(s)));
        assert Carried(mid.tables.slots, Run(w, ops).tables.slots, s,
                       TakesOut(mid.tables, last.0, last.1, HolderOf(s)));
      }
    }
  }
}
