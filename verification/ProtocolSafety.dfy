/** What every step of the loop and of the listener keeps, over all interleavings,
    crashes and restarts included. */
module ProtocolSafety {
  import opened Text
  import opened Protocol

  // ----- approvals

  predicate HasApproved(rows: seq<Approval>, ref: string) {
    exists i :: 0 <= i < |rows| && rows[i].ref == ref && rows[i].decision == Approved
  }

  /** An approving row that the loop did not write itself. */
  predicate OperatorApproved(rows: seq<Approval>, ref: string) {
    exists i :: 0 <= i < |rows| && rows[i].ref == ref && rows[i].gate == None && rows[i].decision == Approved
  }

  /** Every approving row is backed by one the operator wrote: the loop never approves itself. */
  ghost predicate NoSelfApproval(rows: seq<Approval>) {
    forall ref :: HasApproved(rows, ref) ==> OperatorApproved(rows, ref)
  }

  predicate CanApprove(row: Approval, ref: string) {
    row.ref == ref && row.decision == Approved
  }

  lemma HasApprovedSnoc(rows: seq<Approval>, row: Approval, ref: string)
    ensures HasApproved(rows + [row], ref) <==> HasApproved(rows, ref) || CanApprove(row, ref)
    ensures OperatorApproved(rows + [row], ref) <==>
            OperatorApproved(rows, ref) || (CanApprove(row, ref) && row.gate == None)
  {
    var all := rows + [row];
    if CanApprove(row, ref) { assert all[|rows|] == row; }
    if HasApproved(rows, ref) {
      var i :| 0 <= i < |rows| && rows[i].ref == ref && rows[i].decision == Approved;
      assert all[i] == rows[i];
    }
    if OperatorApproved(rows, ref) {
      var i :| 0 <= i < |rows| && rows[i].ref == ref && rows[i].gate == None && rows[i].decision == Approved;
      assert all[i] == rows[i];
    }
  }

  /** An appended row keeps the property when it does not approve, is the operator's own,
      or repeats an approval that is already there. */
  lemma NoSelfApprovalSnoc(rows: seq<Approval>, row: Approval)
    requires NoSelfApproval(rows)
    requires row.decision != Approved || row.gate == None || HasApproved(rows, row.ref)
    ensures NoSelfApproval(rows + [row])
  {
    forall ref | HasApproved(rows + [row], ref) ensures OperatorApproved(rows + [row], ref) {
      HasApprovedSnoc(rows, row, ref);
    }
  }

  lemma {:induction false} LatestApprovalExists(rows: seq<Approval>, ref: string)
    requires LatestDecision(rows, ref) == Some(true)
    ensures HasApproved(rows, ref)
  {
    var n := |rows| - 1;
    if rows[n].ref == ref && rows[n].decision != Undecided {
    } else {
      LatestApprovalExists(rows[..n], ref);
      HasApprovedSnoc(rows[..n], rows[n], ref);
      assert rows[..n] + [rows[n]] == rows;
    }
  }

  // ----- the invariant

  /** The part of a machine the safety claims are about. */
  datatype View = View(tasks: map<nat, Status>, approvals: seq<Approval>, phase: string, validations: seq<Validation>)

  function ViewOf(m: Machine): View {
    View(m.db.tasks, m.db.approvals, m.db.currentPhase, m.validations)
  }

  predicate Cleared(cfg: Config, v: View, t: nat) {
    t in cfg.risky ==> OperatorApproved(v.approvals, cfg.names.riskRef(t))
  }

  predicate ValidatedClean(v: View, t: nat) {
    Validation(t, true, 0) in v.validations
  }

  /** Work on a risky task has started, or ended in failure, only with the operator's approval. */
  ghost predicate StartedOnlyCleared(cfg: Config, v: View) {
    forall t :: StatusOf(v.tasks, t) == InProgress || StatusOf(v.tasks, t) == Failed ==> Cleared(cfg, v, t)
  }

  /** A task not done from the start is done only after a clean validation, and cleared if risky. */
  ghost predicate DoneOnlyValidated(cfg: Config, seeded: set<nat>, v: View) {
    forall t :: StatusOf(v.tasks, t) == Done && t !in seeded ==> ValidatedClean(v, t) && Cleared(cfg, v, t)
  }

  ghost predicate PhaseClosed(cfg: Config, tasks: map<nat, Status>, k: nat) {
    k < |cfg.phases| && forall t :: t in cfg.phases[k].tasks ==> !Open(tasks, t)
  }

  ghost predicate ClosedBelow(cfg: Config, tasks: map<nat, Status>, k: nat) {
    k <= |cfg.phases| && forall j :: 0 <= j < k ==> PhaseClosed(cfg, tasks, j)
  }

  /** Every task of the phases before the stored one is closed; all are once it says complete. */
  ghost predicate EarlierPhasesClosed(cfg: Config, v: View) {
    && (Resolve(cfg, v.phase).Some? ==> ClosedBelow(cfg, v.tasks, Resolve(cfg, v.phase).value))
    && (cfg.names.isComplete(v.phase) ==> ClosedBelow(cfg, v.tasks, |cfg.phases|))
  }

  ghost predicate StoreSafe(cfg: Config, seeded: set<nat>, v: View) {
    && NoSelfApproval(v.approvals)
    && StartedOnlyCleared(cfg, v)
    && DoneOnlyValidated(cfg, seeded, v)
    && EarlierPhasesClosed(cfg, v)
  }

  /** What a snapshot of the statuses shows closed is still closed. */
  ghost predicate StillClosed(snap: map<nat, Status>, tasks: map<nat, Status>) {
    forall t :: !Open(snap, t) ==> !Open(tasks, t)
  }

  predicate InPhase(cfg: Config, v: View, k: nat) {
    k < |cfg.phases| && !cfg.names.isComplete(v.phase) && Resolve(cfg, v.phase) == Some(k)
  }

  predicate OnTask(cfg: Config, v: View, k: nat, t: nat) {
    InPhase(cfg, v, k) && t in cfg.phases[k].tasks
  }

  predicate OnClearedTask(cfg: Config, v: View, c: Ctx) {
    OnTask(cfg, v, c.k, c.t) && Cleared(cfg, v, c.t)
  }

  ghost predicate GateOk(cfg: Config, v: View, g: Gate) {
    match g
    case PhaseExit(k) => InPhase(cfg, v, k) && PhaseClosed(cfg, v.tasks, k)
    case RiskyTask(c) => OnTask(cfg, v, c.k, c.t)
  }

  ghost predicate SelectOk(cfg: Config, v: View, at: SelectPoint) {
    match at
    case ReadPhase(snap) => StillClosed(snap, v.tasks)
    case WritePhase(snap, k) =>
      && StillClosed(snap, v.tasks) && k < |cfg.phases| && ClosedBelow(cfg, v.tasks, k)
      && !cfg.names.isComplete(v.phase) && Resolve(cfg, v.phase).None?
    case _ => true
  }

  ghost predicate GatePointOk(cfg: Config, v: View, at: GatePoint) {
    match at
    case GateInsert(g) => GateOk(cfg, v, g)
    case GateEvent(g) => GateOk(cfg, v, g)
    case GatePoll(g) => GateOk(cfg, v, g)
    case GateSleep(g) => GateOk(cfg, v, g)
    case GateRecord(g, approved) => GateOk(cfg, v, g) && (approved ==> OperatorApproved(v.approvals, GateRef(cfg, g)))
    case PhaseAdvance(k) => GateOk(cfg, v, PhaseExit(k)) && OperatorApproved(v.approvals, GateRef(cfg, PhaseExit(k)))
    case _ => true
  }

  predicate PrepareOk(cfg: Config, v: View, at: PreparePoint) {
    match at
    case ReadTaskStatus(k, t) => OnTask(cfg, v, k, t)
    case WriteCurrentTask(c) => OnTask(cfg, v, c.k, c.t) && (c.resume ==> Cleared(cfg, v, c.t))
    case RiskSkip(c) => OnTask(cfg, v, c.k, c.t)
    case ResumeEvent(c) => OnClearedTask(cfg, v, c)
    case MarkInProgress(c) => OnClearedTask(cfg, v, c)
    case BlockPause(c) => OnClearedTask(cfg, v, c)
    case BlockAwait(c) => OnClearedTask(cfg, v, c)
    case BlockMark(c) => OnClearedTask(cfg, v, c)
    case _ => true
  }

  predicate CodexOk(cfg: Config, v: View, at: CodexPoint) {
    at.CodexEvent? || at.CodexRun? ==> OnClearedTask(cfg, v, at.c)
  }

  predicate ValidateOk(cfg: Config, v: View, at: ValidatePoint) {
    match at
    case ValidateEvent(c, rc) => OnClearedTask(cfg, v, c) && rc == 0
    case ValidateRun(c, rc) => OnClearedTask(cfg, v, c) && rc == 0
    case FailMark(c) => OnClearedTask(cfg, v, c)
    case DoneMark(c) => OnClearedTask(cfg, v, c) && ValidatedClean(v, c.t)
    case _ => true
  }

  /** What holds at a program point, whatever the listener does meanwhile. */
  ghost predicate AtPoint(cfg: Config, v: View, pc: Pc) {
    match pc
    case Select(s) => SelectOk(cfg, v, s)
    case AtGate(g) => GatePointOk(cfg, v, g)
    case Prepare(p) => PrepareOk(cfg, v, p)
    case Codex(x) => CodexOk(cfg, v, x)
    case Validate(w) => ValidateOk(cfg, v, w)
    case Returned => true
    case Raised => true
  }

  ghost predicate Safe(cfg: Config, seeded: set<nat>, m: Machine) {
    StoreSafe(cfg, seeded, ViewOf(m)) && AtPoint(cfg, ViewOf(m), m.pc)
  }

  /** A store the bootstrap script leaves: pending tasks, tasks marked done by hand, no
      approvals and no stored phase. */
  ghost predicate FreshStore(db: Db, seeded: set<nat>) {
    && (forall t :: t in db.tasks ==> db.tasks[t] == Pending || (db.tasks[t] == Done && t in seeded))
    && db.approvals == [] && db.events == [] && db.currentPhase == ""
  }

  lemma BootIsSafe(cfg: Config, seeded: set<nat>, db: Db)
    requires WellFormed(cfg) && FreshStore(db, seeded)
    ensures Safe(cfg, seeded, Boot(db))
  {
  }

  // ----- what single writes keep

  /** A row that does not approve, is the operator's, or repeats an approval keeps everything. */
  lemma InsertKeeps(cfg: Config, seeded: set<nat>, v: View, row: Approval, pc: Pc)
    requires StoreSafe(cfg, seeded, v)
    requires row.decision != Approved || row.gate == None || HasApproved(v.approvals, row.ref)
    ensures StoreSafe(cfg, seeded, v.(approvals := v.approvals + [row]))
    ensures AtPoint(cfg, v, pc) ==> AtPoint(cfg, v.(approvals := v.approvals + [row]), pc)
  {
    var v' := v.(approvals := v.approvals + [row]);
    NoSelfApprovalSnoc(v.approvals, row);
    forall ref ensures OperatorApproved(v.approvals, ref) ==> OperatorApproved(v'.approvals, ref) {
      HasApprovedSnoc(v.approvals, row, ref);
    }
    assert forall t :: Cleared(cfg, v, t) ==> Cleared(cfg, v', t);
  }

  /** Closing a task opens nothing. */
  lemma ClosingKeepsPhases(cfg: Config, v: View, t: nat, s: Status)
    requires Closed(s) && EarlierPhasesClosed(cfg, v)
    ensures EarlierPhasesClosed(cfg, v.(tasks := v.tasks[t := s]))
    ensures forall pc :: AtPoint(cfg, v, pc) ==> AtPoint(cfg, v.(tasks := v.tasks[t := s]), pc)
  {
    var v' := v.(tasks := v.tasks[t := s]);
    assert forall u :: !Open(v.tasks, u) ==> !Open(v'.tasks, u);
    assert forall k :: PhaseClosed(cfg, v.tasks, k) ==> PhaseClosed(cfg, v'.tasks, k);
    assert forall k :: ClosedBelow(cfg, v.tasks, k) ==> ClosedBelow(cfg, v'.tasks, k);
    assert forall snap :: StillClosed(snap, v.tasks) ==> StillClosed(snap, v'.tasks);
    assert forall k, t :: OnTask(cfg, v, k, t) ==> OnTask(cfg, v', k, t);
    assert forall c :: OnClearedTask(cfg, v, c) ==> OnClearedTask(cfg, v', c);
  }

  /** Reopening the active task touches no earlier phase, because task lists are disjoint. */
  lemma ReopeningKeepsPhases(cfg: Config, v: View, k: nat, t: nat, s: Status)
    requires WellFormed(cfg) && OnTask(cfg, v, k, t) && EarlierPhasesClosed(cfg, v)
    ensures EarlierPhasesClosed(cfg, v.(tasks := v.tasks[t := s]))
  {
    var tasks := v.tasks[t := s];
    forall j | 0 <= j < k ensures PhaseClosed(cfg, tasks, j) {
      assert PhaseClosed(cfg, v.tasks, j);
      forall u | u in cfg.phases[j].tasks ensures !Open(tasks, u) {
        assert u != t;
      }
    }
  }

  /** A status write that respects clearance and validation keeps the claims about tasks. */
  lemma MarkKeepsTasks(cfg: Config, seeded: set<nat>, v: View, t: nat, s: Status)
    requires StoreSafe(cfg, seeded, v)
    requires s == InProgress || s == Failed || s == Done ==> Cleared(cfg, v, t)
    requires s == Done ==> ValidatedClean(v, t)
    ensures StartedOnlyCleared(cfg, v.(tasks := v.tasks[t := s]))
    ensures DoneOnlyValidated(cfg, seeded, v.(tasks := v.tasks[t := s]))
  {
    var v' := v.(tasks := v.tasks[t := s]);
    assert forall u :: StatusOf(v'.tasks, u) == (if u == t then s else StatusOf(v.tasks, u));
    assert forall u :: Cleared(cfg, v, u) ==> Cleared(cfg, v', u);
  }

  // ----- every step keeps the invariant

  lemma ListenerKeepsSafe(cfg: Config, seeded: set<nat>, m: Machine, op: ListenerOp)
    requires Safe(cfg, seeded, m)
    ensures Safe(cfg, seeded, ListenerStep(m, op))
  {
    match op
    case InsertDecision(ref, approved) =>
      InsertKeeps(cfg, seeded, ViewOf(m), Approval(None, ref, Verdict(approved)), m.pc);
    case WriteSkipped(t) =>
      ClosingKeepsPhases(cfg, ViewOf(m), t, Skipped);
      MarkKeepsTasks(cfg, seeded, ViewOf(m), t, Skipped);
    case WritePaused(_) =>
    case PostNote(_) =>
    case ClearClarification =>
    case ClearReview =>
    case DiagnoseIdle =>
    case DiagnoseCheck =>
    case DiagnoseStart =>
    case DiagnoseRead =>
    case DiagnoseFinish =>
  }

  lemma SelectKeepsSafe(cfg: Config, seeded: set<nat>, m: Machine, at: SelectPoint, i: Input)
    requires WellFormed(cfg) && m.pc == Select(at) && Safe(cfg, seeded, m)
    ensures Safe(cfg, seeded, SelectStep(cfg, m, at, i))
  {
    match at
    case ReadPhase(snap) => ReadPhaseKeepsSafe(cfg, seeded, m, snap, i);
    case WritePhase(snap, k) => WritePhaseKeepsSafe(cfg, seeded, m, snap, k, i);
    case Start =>
    case Top =>
    case ReadStatuses =>
    case FinishEvent =>
  }

  lemma ReadPhaseKeepsSafe(cfg: Config, seeded: set<nat>, m: Machine, snap: map<nat, Status>, i: Input)
    requires WellFormed(cfg) && m.pc == Select(ReadPhase(snap)) && Safe(cfg, seeded, m)
    ensures Safe(cfg, seeded, SelectStep(cfg, m, ReadPhase(snap), i))
  {
    var found := Resolve(cfg, m.db.currentPhase);
    if cfg.names.isComplete(m.db.currentPhase) {
    } else if found.Some? {
      DispatchOk(cfg, ViewOf(m), snap, found.value);
    } else if cfg.phases != [] {
      var k := FindCurrentPhase(cfg.phases, snap);
      forall j | 0 <= j < k ensures PhaseClosed(cfg, m.db.tasks, j) {
        assert forall t :: t in cfg.phases[j].tasks ==> !Open(snap, t);
      }
    }
  }

  lemma WritePhaseKeepsSafe(cfg: Config, seeded: set<nat>, m: Machine, snap: map<nat, Status>, k: nat, i: Input)
    requires WellFormed(cfg) && m.pc == Select(WritePhase(snap, k)) && Safe(cfg, seeded, m)
    ensures Safe(cfg, seeded, SelectStep(cfg, m, WritePhase(snap, k), i))
  {
    var v' := ViewOf(m).(phase := cfg.names.display(cfg.phases[k]));
    assert EarlierPhasesClosed(cfg, v');
    assert StartedOnlyCleared(cfg, v') && DoneOnlyValidated(cfg, seeded, v') by {
      assert forall t :: Cleared(cfg, ViewOf(m), t) ==> Cleared(cfg, v', t);
    }
    DispatchOk(cfg, v', snap, k);
  }

  lemma DispatchOk(cfg: Config, v: View, snap: map<nat, Status>, k: nat)
    requires InPhase(cfg, v, k) && StillClosed(snap, v.tasks)
    ensures AtPoint(cfg, v, Dispatch(cfg, snap, k))
  {
    if FirstOpen(snap, cfg.phases[k].tasks).None? {
      assert PhaseClosed(cfg, v.tasks, k);
    }
  }

  lemma GateKeepsSafe(cfg: Config, seeded: set<nat>, m: Machine, at: GatePoint, i: Input)
    requires WellFormed(cfg) && m.pc == AtGate(at) && Safe(cfg, seeded, m)
    ensures Safe(cfg, seeded, GateStep(cfg, m, at, i))
  {
    match at
    case GateInsert(g) =>
      var row := Approval(Some(TypeOf(g)), GateRef(cfg, g), Undecided);
      InsertKeeps(cfg, seeded, ViewOf(m), row, AtGate(GateEvent(g)));
    case GatePoll(g) =>
      if LatestDecision(m.db.approvals, GateRef(cfg, g)) == Some(true) {
        LatestApprovalExists(m.db.approvals, GateRef(cfg, g));
      }
    case GateRecord(g, approved) =>
      var row := Approval(Some(TypeOf(g)), GateRef(cfg, g), Verdict(approved));
      InsertKeeps(cfg, seeded, ViewOf(m), row, AfterGate(g, approved));
    case PhaseAdvance(k) => AdvanceKeepsSafe(cfg, seeded, m, k, i);
    case GateEvent(_) =>
    case GateSleep(_) =>
    case PhasePause(_) =>
    case PhasePausedEvent(_) =>
  }

  /** Crossing a phase gate: the phase left behind is closed, so all earlier ones still are. */
  lemma AdvanceKeepsSafe(cfg: Config, seeded: set<nat>, m: Machine, k: nat, i: Input)
    requires WellFormed(cfg) && m.pc == AtGate(PhaseAdvance(k)) && Safe(cfg, seeded, m)
    ensures Safe(cfg, seeded, GateStep(cfg, m, PhaseAdvance(k), i))
  {
    var v' := ViewOf(GateStep(cfg, m, PhaseAdvance(k), i));
    assert ClosedBelow(cfg, m.db.tasks, k + 1);
    assert EarlierPhasesClosed(cfg, v');
    assert forall t :: Cleared(cfg, ViewOf(m), t) ==> Cleared(cfg, v', t);
  }

  /** Any status the loop writes to the task it works on keeps the store's invariant. */
  lemma WorkKeeps(cfg: Config, seeded: set<nat>, v: View, c: Ctx, s: Status)
    requires WellFormed(cfg) && StoreSafe(cfg, seeded, v) && OnTask(cfg, v, c.k, c.t)
    requires s != Skipped ==> Cleared(cfg, v, c.t)
    requires s == Done ==> ValidatedClean(v, c.t)
    ensures StoreSafe(cfg, seeded, v.(tasks := v.tasks[c.t := s]))
    ensures OnClearedTask(cfg, v, c) ==> OnClearedTask(cfg, v.(tasks := v.tasks[c.t := s]), c)
  {
    ReopeningKeepsPhases(cfg, v, c.k, c.t, s);
    MarkKeepsTasks(cfg, seeded, v, c.t, s);
  }

  lemma PrepareKeepsSafe(cfg: Config, seeded: set<nat>, m: Machine, at: PreparePoint, i: Input)
    requires WellFormed(cfg) && m.pc == Prepare(at) && Safe(cfg, seeded, m)
    ensures Safe(cfg, seeded, PrepareStep(cfg, m, at, i))
  {
    if at.RiskSkip? {
      WorkKeeps(cfg, seeded, ViewOf(m), at.c, Skipped);
    } else if at.MarkInProgress? || at.BlockMark? {
      WorkKeeps(cfg, seeded, ViewOf(m), at.c, InProgress);
    }
  }

  lemma CodexKeepsSafe(cfg: Config, seeded: set<nat>, m: Machine, at: CodexPoint, i: Input)
    requires m.pc == Codex(at) && Safe(cfg, seeded, m)
    ensures Safe(cfg, seeded, CodexStep(m, at, i))
  {
  }

  lemma ValidateKeepsSafe(cfg: Config, seeded: set<nat>, m: Machine, at: ValidatePoint, i: Input)
    requires WellFormed(cfg) && m.pc == Validate(at) && Safe(cfg, seeded, m)
    ensures Safe(cfg, seeded, ValidateStep(cfg, m, at, i))
  {
    if at.FailMark? {
      WorkKeeps(cfg, seeded, ViewOf(m), at.c, Failed);
    } else if at.DoneMark? {
      WorkKeeps(cfg, seeded, ViewOf(m), at.c, Done);
    } else if at.ValidateRun? {
      var v, v' := ViewOf(m), ViewOf(ValidateStep(cfg, m, at, i));
      assert forall t :: ValidatedClean(v, t) ==> ValidatedClean(v', t);
      assert forall t :: Cleared(cfg, v, t) ==> Cleared(cfg, v', t);
    }
  }

  lemma StepKeepsSafe(cfg: Config, seeded: set<nat>, m: Machine, l: Label)
    requires WellFormed(cfg) && Safe(cfg, seeded, m)
    ensures Safe(cfg, seeded, Step(cfg, m, l))
  {
    match l
    case Loop(i) =>
      match m.pc {
        case Select(at) => SelectKeepsSafe(cfg, seeded, m, at, i);
        case AtGate(at) => GateKeepsSafe(cfg, seeded, m, at, i);
        case Prepare(at) => PrepareKeepsSafe(cfg, seeded, m, at, i);
        case Codex(at) => CodexKeepsSafe(cfg, seeded, m, at, i);
        case Validate(at) => ValidateKeepsSafe(cfg, seeded, m, at, i);
        case Returned =>
        case Raised =>
      }
    case Listener(op) => ListenerKeepsSafe(cfg, seeded, m, op);
    case Restart =>
    case Crash =>
  }

  // ----- the claims over all runs

  lemma {:induction false} AlwaysSafe(cfg: Config, seeded: set<nat>, m: Machine, labels: seq<Label>)
    requires WellFormed(cfg) && Safe(cfg, seeded, m)
    ensures Safe(cfg, seeded, Execute(cfg, m, labels))
  {
    if labels != [] {
      var front := labels[..|labels| - 1];
      AlwaysSafe(cfg, seeded, m, front);
      StepKeepsSafe(cfg, seeded, Execute(cfg, m, front), labels[|labels| - 1]);
    }
  }

  /** In every interleaving, a task that was not done from the start is done only after a run
      of the validator that passed with Codex return code 0; and whenever a risky task is in
      progress, failed or done, and was not marked done by hand, the operator approved it. */
  lemma DoneTasksWereValidated(cfg: Config, seeded: set<nat>, db: Db, labels: seq<Label>, t: nat)
    requires WellFormed(cfg) && FreshStore(db, seeded)
    ensures var m := Execute(cfg, Boot(db), labels);
            && (StatusOf(m.db.tasks, t) == Done && t !in seeded ==> Validation(t, true, 0) in m.validations)
            && (StatusOf(m.db.tasks, t) in {InProgress, Failed} && t in cfg.risky ==>
                  OperatorApproved(m.db.approvals, cfg.names.riskRef(t)))
            && (StatusOf(m.db.tasks, t) == Done && t !in seeded && t in cfg.risky ==>
                  OperatorApproved(m.db.approvals, cfg.names.riskRef(t)))
  {
    BootIsSafe(cfg, seeded, db);
    AlwaysSafe(cfg, seeded, Boot(db), labels);
  }

  /** In every interleaving, the phases before the current one hold closed tasks only. */
  lemma CurrentPhaseIsEarned(cfg: Config, seeded: set<nat>, db: Db, labels: seq<Label>)
    requires WellFormed(cfg) && FreshStore(db, seeded)
    ensures EarlierPhasesClosed(cfg, ViewOf(Execute(cfg, Boot(db), labels)))
  {
    BootIsSafe(cfg, seeded, db);
    AlwaysSafe(cfg, seeded, Boot(db), labels);
  }

  /** The setting that follows phase `k`. */
  function NextSetting(cfg: Config, k: nat): string {
    if k + 1 < |cfg.phases| then cfg.names.display(cfg.phases[k + 1]) else cfg.names.complete
  }

  /** In every interleaving, a step that changes the stored phase either sets it for the first
      time, or moves from phase k, whose tasks are all closed, to the next with the operator's
      approval of the exit of k. */
  lemma PhaseMovesOnlyApproved(cfg: Config, seeded: set<nat>, db: Db, labels: seq<Label>, l: Label)
    requires WellFormed(cfg) && FreshStore(db, seeded)
    ensures var m := Execute(cfg, Boot(db), labels);
            var m' := Step(cfg, m, l);
            var k := Resolve(cfg, m.db.currentPhase);
            m'.db.currentPhase != m.db.currentPhase ==>
              && !cfg.names.isComplete(m.db.currentPhase)
              && (k.Some? ==>
                    && k.value < |cfg.phases| && PhaseClosed(cfg, m.db.tasks, k.value)
                    && m'.db.currentPhase == NextSetting(cfg, k.value)
                    && OperatorApproved(m.db.approvals, cfg.names.exitRef(cfg.phases[k.value].number)))
  {
    var m := Execute(cfg, Boot(db), labels);
    BootIsSafe(cfg, seeded, db);
    AlwaysSafe(cfg, seeded, Boot(db), labels);
    if Step(cfg, m, l).db.currentPhase != m.db.currentPhase {
      OnlyTwoPointsWritePhase(cfg, m, l);
    }
  }

  lemma OnlyTwoPointsWritePhase(cfg: Config, m: Machine, l: Label)
    requires Step(cfg, m, l).db.currentPhase != m.db.currentPhase
    ensures l.Loop?
    ensures || (m.pc.Select? && m.pc.s.WritePhase?)
            || (m.pc.AtGate? && m.pc.g.PhaseAdvance? && Step(cfg, m, l).db.currentPhase == NextSetting(cfg, m.pc.g.phase))
  {
    hide LatestDecision, FirstOpen, FindCurrentPhase, Dispatch, OperatorInFlight, ActiveRowFailed, HasFailureEvent;
    if l.Loop? {
      match m.pc
      case Select(_) =>
      case AtGate(_) =>
      case Prepare(_) =>
      case Codex(_) =>
      case Validate(_) =>
      case Returned =>
      case Raised =>
    }
  }

  // ----- decisions stick

  lemma LatestDecisionSnoc(rows: seq<Approval>, row: Approval, ref: string)
    ensures LatestDecision(rows + [row], ref) ==
            if row.ref == ref && row.decision != Undecided then Some(row.decision == Approved)
            else LatestDecision(rows, ref)
  {
    assert (rows + [row])[..|rows|] == rows;
  }

  lemma {:induction false} NewestDecides(rows: seq<Approval>, ref: string, i: nat)
    requires i < |rows| && rows[i].ref == ref && rows[i].decision != Undecided
    requires forall j :: i < j < |rows| ==> rows[j].ref != ref || rows[j].decision == Undecided
    ensures LatestDecision(rows, ref) == Some(rows[i].decision == Approved)
  {
    var n := |rows| - 1;
    if i < n { NewestDecides(rows[..n], ref, i); }
  }

  lemma {:induction false} DecidedByNewest(rows: seq<Approval>, ref: string) returns (i: nat)
    requires LatestDecision(rows, ref).Some?
    ensures i < |rows| && rows[i].ref == ref && rows[i].decision != Undecided
    ensures forall j :: i < j < |rows| ==> rows[j].ref != ref || rows[j].decision == Undecided
  {
    i := |rows| - 1;
    if rows[i].ref != ref || rows[i].decision == Undecided {
      i := DecidedByNewest(rows[..i], ref);
    }
  }

  lemma {:induction false} UndecidedHasNone(rows: seq<Approval>, ref: string)
    ensures LatestDecision(rows, ref) == None <==>
      forall j :: 0 <= j < |rows| ==> rows[j].ref != ref || rows[j].decision == Undecided
  {
    if rows != [] {
      var n := |rows| - 1;
      UndecidedHasNone(rows[..n], ref);
      assert rows == rows[..n] + [rows[n]];
    }
  }

  /** The decision of a reference is that of its newest row that holds one, and there is none without such
      a row. */
  lemma LatestDecisionMeans(rows: seq<Approval>, ref: string, approved: bool)
    ensures LatestDecision(rows, ref) == Some(approved) <==>
      exists i :: && 0 <= i < |rows| && rows[i].ref == ref
                  && rows[i].decision == (if approved then Approved else Rejected)
                  && forall j :: i < j < |rows| ==> rows[j].ref != ref || rows[j].decision == Undecided
    ensures LatestDecision(rows, ref) == None <==>
      forall j :: 0 <= j < |rows| ==> rows[j].ref != ref || rows[j].decision == Undecided
  {
    hide LatestDecision;
    UndecidedHasNone(rows, ref);
    if LatestDecision(rows, ref).Some? {
      var n := DecidedByNewest(rows, ref);
      NewestDecides(rows, ref, n);
    }
    forall i | && 0 <= i < |rows| && rows[i].ref == ref && rows[i].decision == (if approved then Approved else Rejected)
               && forall j :: i < j < |rows| ==> rows[j].ref != ref || rows[j].decision == Undecided
      ensures LatestDecision(rows, ref) == Some(approved)
    {
      NewestDecides(rows, ref, i);
    }
  }

  /** The loop is about to act on a decision for this reference. */
  predicate Deciding(cfg: Config, pc: Pc, ref: string, approved: bool) {
    pc.AtGate? && pc.g.GateRecord? && GateRef(cfg, pc.g.gate) == ref && pc.g.approved == approved
  }

  /** The loop has polled a gate on this reference and found nothing yet. */
  predicate Waiting(cfg: Config, pc: Pc, ref: string) {
    pc.AtGate? && pc.g.GateSleep? && GateRef(cfg, pc.g.gate) == ref
  }

  predicate RejectionStands(cfg: Config, m: Machine, ref: string) {
    LatestDecision(m.db.approvals, ref) == Some(false) && !Deciding(cfg, m.pc, ref, true)
  }

  predicate ApprovalStands(cfg: Config, m: Machine, ref: string) {
    && LatestDecision(m.db.approvals, ref) == Some(true)
    && !Deciding(cfg, m.pc, ref, false) && !Waiting(cfg, m.pc, ref)
  }

  /** Only gate points append the loop's approval rows. */
  lemma StepOnApprovals(cfg: Config, m: Machine, l: Label, ref: string)
    ensures var rows, rows' := m.db.approvals, Step(cfg, m, l).db.approvals;
            || rows' == rows
            || (l.Listener? && l.op.InsertDecision? &&
                  rows' == rows + [Approval(None, l.op.ref, Verdict(l.op.approved))])
            || (l.Loop? && m.pc.AtGate? && m.pc.g.GateInsert? &&
                  rows' == rows + [Approval(Some(TypeOf(m.pc.g.gate)), GateRef(cfg, m.pc.g.gate), Undecided)])
            || (l.Loop? && m.pc.AtGate? && m.pc.g.GateRecord? &&
                  rows' == rows + [Approval(Some(TypeOf(m.pc.g.gate)), GateRef(cfg, m.pc.g.gate), Verdict(m.pc.g.approved))])
  {
    if l.Loop? {
      match m.pc
      case AtGate(_) =>
      case Select(_) =>
      case Prepare(_) =>
      case Codex(_) =>
      case Validate(_) =>
      case Returned =>
      case Raised =>
    }
  }

  /** Outside the gates no step reaches a decision or a wait. */
  lemma OnlyGatesDecide(cfg: Config, m: Machine, l: Label)
    requires !(l.Loop? && m.pc.AtGate?)
    ensures var pc := Step(cfg, m, l).pc; pc == m.pc || !(pc.AtGate? && (pc.g.GateRecord? || pc.g.GateSleep?))
  {
    hide LatestDecision, OperatorInFlight, ActiveRowFailed, HasFailureEvent, FirstOpen, FindCurrentPhase, Resolve;
    if l.Loop? {
      match m.pc
      case AtGate(_) =>
      case Select(_) =>
      case Prepare(_) =>
      case Codex(_) =>
      case Validate(_) =>
      case Returned =>
      case Raised =>
    }
  }

  /** A decision is reached only by polling or by letting the deadline pass. */
  lemma StepOnDeciding(cfg: Config, m: Machine, l: Label, ref: string)
    ensures Deciding(cfg, Step(cfg, m, l).pc, ref, true) && !Deciding(cfg, m.pc, ref, true) ==>
              LatestDecision(m.db.approvals, ref) == Some(true)
    ensures Deciding(cfg, Step(cfg, m, l).pc, ref, false) && !Deciding(cfg, m.pc, ref, false) ==>
              LatestDecision(m.db.approvals, ref) == Some(false) || Waiting(cfg, m.pc, ref)
    ensures Waiting(cfg, Step(cfg, m, l).pc, ref) && !Waiting(cfg, m.pc, ref) ==>
              LatestDecision(m.db.approvals, ref) == None
  {
    hide SelectStep, PrepareStep, CodexStep, ValidateStep, ListenerStep;
    if !(l.Loop? && m.pc.AtGate?) { OnlyGatesDecide(cfg, m, l); }
  }

  /** A rejection that no gate is about to overrule keeps the gates on its reference shut, through
      retries, restarts and crashes, until the operator approves it. */
  lemma {:induction false} RejectionSticks(cfg: Config, m: Machine, labels: seq<Label>, ref: string)
    requires RejectionStands(cfg, m, ref)
    requires Listener(InsertDecision(ref, true)) !in labels
    ensures RejectionStands(cfg, Execute(cfg, m, labels), ref)
  {
    if labels != [] {
      var front, l := labels[..|labels| - 1], labels[|labels| - 1];
      RejectionSticks(cfg, m, front, ref);
      var m1 := Execute(cfg, m, front);
      StepOnApprovals(cfg, m1, l, ref);
      StepOnDeciding(cfg, m1, l, ref);
      var rows, rows' := m1.db.approvals, Step(cfg, m1, l).db.approvals;
      if rows' != rows {
        LatestDecisionSnoc(rows, rows'[|rows|], ref);
      }
    }
  }

  /** An approval that no gate was already waiting for opens every later gate on its
      reference, until the operator rejects it. */
  lemma {:induction false} ApprovalSticks(cfg: Config, m: Machine, labels: seq<Label>, ref: string)
    requires ApprovalStands(cfg, m, ref)
    requires Listener(InsertDecision(ref, false)) !in labels
    ensures ApprovalStands(cfg, Execute(cfg, m, labels), ref)
  {
    if labels != [] {
      var front, l := labels[..|labels| - 1], labels[|labels| - 1];
      ApprovalSticks(cfg, m, front, ref);
      var m1 := Execute(cfg, m, front);
      StepOnApprovals(cfg, m1, l, ref);
      StepOnDeciding(cfg, m1, l, ref);
      var rows, rows' := m1.db.approvals, Step(cfg, m1, l).db.approvals;
      if rows' != rows {
        LatestDecisionSnoc(rows, rows'[|rows|], ref);
      }
    }
  }

  /** A gate records what it has decided, over whatever the operator has written meanwhile. */
  lemma RecordOverrules(cfg: Config, m: Machine, g: Gate, approved: bool, i: Input)
    requires m.pc == AtGate(GateRecord(g, approved))
    ensures var m' := Execute(cfg, m, [Loop(i)]);
            m'.pc == AfterGate(g, approved) && LatestDecision(m'.db.approvals, GateRef(cfg, g)) == Some(approved)
  {
    hide GateRef, LatestDecision;
    var row := Approval(Some(TypeOf(g)), GateRef(cfg, g), Verdict(approved));
    LatestDecisionSnoc(m.db.approvals, row, GateRef(cfg, g));
    assert [Loop(i)][..0] == [];
  }

  /** A gate that sleeps does not look again once the deadline has passed: it records a
      rejection even over an approval written meanwhile. */
  lemma DeadlineOverrules(cfg: Config, m: Machine, g: Gate, i: Input)
    requires m.pc == AtGate(GateSleep(g)) && i.deadlinePassed
    ensures var m' := Execute(cfg, m, [Loop(i), Loop(i)]);
            m'.pc == AfterGate(g, false) && LatestDecision(m'.db.approvals, GateRef(cfg, g)) == Some(false)
  {
    hide GateRef, LatestDecision;
    assert [Loop(i), Loop(i)][..1] == [Loop(i)] && [Loop(i)][..0] == [];
    assert Execute(cfg, m, [Loop(i)]) == Step(cfg, m, Loop(i));
    RecordOverrules(cfg, Step(cfg, m, Loop(i)), g, false, i);
    ExecuteSnoc(cfg, m, [Loop(i)], Loop(i));
    ExecuteSnoc(cfg, Step(cfg, m, Loop(i)), [], Loop(i));
  }

  /** The newest decision is `approved` in every continuation without an opposite one by the operator. */
  ghost predicate StandsFromHere(cfg: Config, m: Machine, ref: string, approved: bool) {
    forall labels :: Listener(InsertDecision(ref, !approved)) !in labels ==>
      LatestDecision(Execute(cfg, m, labels).db.approvals, ref) == Some(approved)
  }

  const LATE: Input := Input(Manual, true, true, NotFound, false, None)

  lemma StandsNow(cfg: Config, m: Machine, ref: string, approved: bool)
    requires StandsFromHere(cfg, m, ref, approved)
    ensures LatestDecision(m.db.approvals, ref) == Some(approved) && !Deciding(cfg, m.pc, ref, !approved)
    ensures approved ==> !Waiting(cfg, m.pc, ref)
  {
    hide LatestDecision, GateRef;
    assert Execute(cfg, m, []) == m;
    var one, two := [Loop(LATE)], [Loop(LATE), Loop(LATE)];
    assert Listener(InsertDecision(ref, !approved)) !in one && Listener(InsertDecision(ref, !approved)) !in two;
    if Deciding(cfg, m.pc, ref, !approved) { RecordOverrules(cfg, m, m.pc.g.gate, !approved, LATE); }
    if approved && Waiting(cfg, m.pc, ref) { DeadlineOverrules(cfg, m, m.pc.g.gate, LATE); }
  }

  /** An approval stands until the operator rejects exactly when it is the newest decision and no gate
      on its reference is about to record a rejection or sleeping, having seen nothing. */
  lemma ApprovalStandsExactlyWhen(cfg: Config, m: Machine, ref: string)
    ensures StandsFromHere(cfg, m, ref, true) <==> ApprovalStands(cfg, m, ref)
  {
    hide Execute, Deciding, Waiting, LatestDecision;
    if ApprovalStands(cfg, m, ref) {
      forall labels | Listener(InsertDecision(ref, !true)) !in labels
        ensures LatestDecision(Execute(cfg, m, labels).db.approvals, ref) == Some(true)
      {
        ApprovalSticks(cfg, m, labels, ref);
      }
    } else if StandsFromHere(cfg, m, ref, true) {
      StandsNow(cfg, m, ref, true);
    }
  }

  /** A rejection stands until the operator approves exactly when it is the newest decision and no gate
      on its reference is about to record an approval. */
  lemma RejectionStandsExactlyWhen(cfg: Config, m: Machine, ref: string)
    ensures StandsFromHere(cfg, m, ref, false) <==> RejectionStands(cfg, m, ref)
  {
    hide Execute, Deciding, LatestDecision;
    if RejectionStands(cfg, m, ref) {
      forall labels | Listener(InsertDecision(ref, !false)) !in labels
        ensures LatestDecision(Execute(cfg, m, labels).db.approvals, ref) == Some(false)
      {
        RejectionSticks(cfg, m, labels, ref);
      }
    } else if StandsFromHere(cfg, m, ref, false) {
      StandsNow(cfg, m, ref, false);
    }
  }

  /** So a decision that the operator writes now is kept until the operator changes it exactly when the
      loop does not stand at a gate on its reference that decided the opposite, or, for an approval,
      that may still let its deadline pass. */
  lemma DecisionIsKeptExactlyWhen(cfg: Config, m: Machine, ref: string, approved: bool)
    ensures StandsFromHere(cfg, ListenerStep(m, InsertDecision(ref, approved)), ref, approved) <==>
      !Deciding(cfg, m.pc, ref, !approved) && (approved ==> !Waiting(cfg, m.pc, ref))
  {
    hide Deciding, Waiting, LatestDecision, StandsFromHere;
    var m' := ListenerStep(m, InsertDecision(ref, approved));
    LatestDecisionSnoc(m.db.approvals, Approval(None, ref, Verdict(approved)), ref);
    if approved { ApprovalStandsExactlyWhen(cfg, m', ref); } else { RejectionStandsExactlyWhen(cfg, m', ref); }
  }
}
