/** The operator's commands, run one at a time between two accesses of the loop. */
module ListenerCommands {
  import opened Text
  import opened Protocol
  import opened ProtocolEvents
  import opened ProtocolSafety
  import opened Orchestrator

  datatype Command =
    | Approve(ref: string)
    | Reject(ref: string)
    | PauseLoop
    | ResumeLoop
    | Clarify(task: nat)
    | SkipTask(task: nat)
    | DeepDiagnose

  function Rank(s: Status): nat {
    match s
    case InProgress => 0
    case Failed => 1
    case Pending => 2
    case Done => 3
    case Skipped => 3
  }

  /** The row the operator card shows: an open row of the best rank, if there is an open row.
      The choice among equals, by phase text and id, is left open. */
  ghost predicate IsActiveRow(tasks: map<nat, Status>, row: Option<nat>) {
    match row
    case None => forall u :: u in tasks ==> Closed(tasks[u])
    case Some(t) =>
      && t in tasks && !Closed(tasks[t])
      && forall u :: u in tasks && !Closed(tasks[u]) ==> Rank(tasks[t]) <= Rank(tasks[u])
  }

  /** There is always such a row, or rightly none. */
  lemma SomeRowIsActive(tasks: map<nat, Status>) returns (row: Option<nat>)
    ensures IsActiveRow(tasks, row)
  {
    if t :| t in tasks && tasks[t] == InProgress { return Some(t); }
    if t :| t in tasks && tasks[t] == Failed { return Some(t); }
    if t :| t in tasks && tasks[t] == Pending { return Some(t); }
    row := None;
  }

  /** Whichever row is shown, it is failed exactly when some task failed and none is in progress. */
  lemma ActiveRowIsFailed(tasks: map<nat, Status>, row: Option<nat>)
    requires IsActiveRow(tasks, row)
    ensures row.Some? && tasks[row.value] == Failed <==> ActiveRowFailed(tasks)
  {
    if ActiveRowFailed(tasks) {
      var t :| t in tasks && tasks[t] == Failed;
      assert Rank(tasks[row.value]) <= Rank(tasks[t]);
    }
  }

  /** Does a skip name the current task, one that waits for the operator, or the one shown? */
  predicate SkipMatches(db: Db, task: nat, row: Option<nat>) {
    db.awaitingClarification == Some(task) || db.awaitingReview == Some(task) || db.currentTask == Some(task)
    || row == Some(task)
  }

  predicate Accepts(db: Db, c: Command, row: Option<nat>) {
    match c
    case Clarify(task) => db.awaitingClarification == Some(task)
    case SkipTask(task) => SkipMatches(db, task, row)
    case DeepDiagnose => !OperatorInFlight(db.events) && row.Some? && StatusOf(db.tasks, row.value) == Failed
    case _ => true
  }

  /** The store after an accepted command. */
  function After(db: Db, c: Command): Db {
    match c
    case Approve(ref) => Insert(db, Approval(None, ref, Approved))
    case Reject(ref) => Insert(db, Approval(None, ref, Rejected))
    case PauseLoop => Post(db.(paused := true), ByListener, PausedNote)
    case ResumeLoop => Post(db.(paused := false), ByListener, ResumeReceived)
    case Clarify(task) => Post(db.(awaitingClarification := None, paused := true), ByListener, PausedNote)
    case SkipTask(task) =>
      Post(Mark(db, task, Skipped).(awaitingClarification := None, awaitingReview := None, paused := true),
           ByListener, PausedNote)
    case DeepDiagnose => Post(db, ByListener, MediumReviewRunning)
  }

  /** The statements an accepted command commits, in order. */
  function Statements(c: Command): seq<ListenerOp> {
    match c
    case Approve(ref) => [InsertDecision(ref, true)]
    case Reject(ref) => [InsertDecision(ref, false)]
    case PauseLoop => [WritePaused(true), PostNote(PausedNote)]
    case ResumeLoop => [WritePaused(false), PostNote(ResumeReceived)]
    case Clarify(_) => [ClearClarification, WritePaused(true), PostNote(PausedNote)]
    case SkipTask(task) =>
      [WriteSkipped(task), ClearClarification, ClearReview, WritePaused(true), PostNote(PausedNote)]
    case DeepDiagnose => [DiagnoseIdle, DiagnoseCheck, DiagnoseStart]
  }

  lemma RunCons(m: Machine, op: ListenerOp, ops: seq<ListenerOp>)
    ensures ListenerRun(m, [op] + ops) == ListenerRun(ListenerStep(m, op), ops)
  {
    var all := [op] + ops;
    if ops == [] {
      assert all == [op] && [op][..0] == [];
      assert ListenerRun(m, [op]) == ListenerStep(ListenerRun(m, []), op);
    } else {
      assert all[..|all| - 1] == [op] + ops[..|ops| - 1];
      RunCons(m, op, ops[..|ops| - 1]);
    }
  }

  lemma RunTwo(m: Machine, a: ListenerOp, b: ListenerOp)
    ensures ListenerRun(m, [a, b]) == ListenerStep(ListenerStep(m, a), b)
  {
    assert [a, b] == [a] + [b] && [b] == [b] + [];
    RunCons(m, a, [b]);
    RunCons(ListenerStep(m, a), b, []);
  }

  lemma DiagnoseMeans(m: Machine, row: Option<nat>)
    requires IsActiveRow(m.db.tasks, row) && Accepts(m.db, DeepDiagnose, row)
    ensures ListenerRun(m, Statements(DeepDiagnose)).db == After(m.db, DeepDiagnose)
    ensures ListenerRun(m, Statements(DeepDiagnose)).diagRunning == m.diagRunning + 1
  {
    hide OperatorInFlight, ActiveRowFailed, IsActiveRow;
    ActiveRowIsFailed(m.db.tasks, row);
    assert Statements(DeepDiagnose) == [DiagnoseIdle] + [DiagnoseCheck, DiagnoseStart];
    RunCons(m, DiagnoseIdle, [DiagnoseCheck, DiagnoseStart]);
    RunTwo(ListenerStep(m, DiagnoseIdle), DiagnoseCheck, DiagnoseStart);
  }

  lemma ClarifyMeans(m: Machine, task: nat)
    ensures ListenerRun(m, Statements(Clarify(task))).db == After(m.db, Clarify(task))
    ensures ListenerRun(m, Statements(Clarify(task))).diagRunning == m.diagRunning
  {
    var tail := [WritePaused(true), PostNote(PausedNote)];
    assert Statements(Clarify(task)) == [ClearClarification] + tail;
    RunCons(m, ClearClarification, tail);
    RunTwo(ListenerStep(m, ClearClarification), WritePaused(true), PostNote(PausedNote));
  }

  lemma SkipSteps(m: Machine, task: nat)
    ensures var m3 := ListenerStep(ListenerStep(ListenerStep(m, WriteSkipped(task)), ClearClarification), ClearReview);
            var m' := ListenerStep(ListenerStep(m3, WritePaused(true)), PostNote(PausedNote));
            m'.db == After(m.db, SkipTask(task)) && m'.diagRunning == m.diagRunning
  {
    hide OperatorInFlight, ActiveRowFailed, HasFailureEvent;
  }

  lemma SkipMeans(m: Machine, task: nat)
    ensures ListenerRun(m, Statements(SkipTask(task))).db == After(m.db, SkipTask(task))
    ensures ListenerRun(m, Statements(SkipTask(task))).diagRunning == m.diagRunning
  {
    hide ListenerStep;
    SkipSteps(m, task);
    var a, b, c := WriteSkipped(task), ClearClarification, ClearReview;
    var tail := [WritePaused(true), PostNote(PausedNote)];
    assert Statements(SkipTask(task)) == [a] + ([b] + ([c] + tail));
    var m1 := ListenerStep(m, a);
    var m2 := ListenerStep(m1, b);
    RunCons(m, a, [b] + ([c] + tail));
    RunCons(m1, b, [c] + tail);
    RunCons(m2, c, tail);
    RunTwo(ListenerStep(m2, c), WritePaused(true), PostNote(PausedNote));
  }

  /** Committed without interruption, the statements have the effect of the command. */
  lemma StatementsMean(m: Machine, c: Command, row: Option<nat>)
    requires IsActiveRow(m.db.tasks, row) && Accepts(m.db, c, row)
    ensures ListenerRun(m, Statements(c)).db == After(m.db, c)
    ensures ListenerRun(m, Statements(c)).diagRunning == m.diagRunning + (if c.DeepDiagnose? then 1 else 0)
  {
    hide OperatorInFlight, ActiveRowFailed, IsActiveRow;
    match c
    case Approve(ref) => RunCons(m, InsertDecision(ref, true), []);
    case Reject(ref) => RunCons(m, InsertDecision(ref, false), []);
    case PauseLoop => RunTwo(m, WritePaused(true), PostNote(PausedNote));
    case ResumeLoop => RunTwo(m, WritePaused(false), PostNote(ResumeReceived));
    case Clarify(task) => ClarifyMeans(m, task);
    case SkipTask(task) => SkipMeans(m, task);
    case DeepDiagnose => DiagnoseMeans(m, row);
  }

  /** Handles one command: it either commits nothing, or exactly what the command stands for. */
  method HandleCommand(s: Session, c: Command, row: Option<nat>) returns (accepted: bool)
    requires s.Valid() && IsActiveRow(s.tasks, row)
    modifies s
    ensures s.Valid() && s.Now().pc == old(s.Now().pc)
    ensures accepted == Accepts(old(s.View()), c, row)
    ensures s.View() == if accepted then After(old(s.View()), c) else old(s.View())
    ensures s.running == old(s.running) + (if accepted && c.DeepDiagnose? then 1 else 0)
    ensures OnlyListened(old(s.labels), s.labels) && s.Log() == old(s.Log())
  {
    hide Execute, After;
    accepted := Accepts(s.View(), c, row);
    if accepted {
      s.CommitAll(Statements(c));
      StatementsMean(old(s.Now()), c, row);
      ListenerRunKeepsLoop(old(s.Now()), Statements(c));
    }
  }

  /** Whatever the store, an accepted clarify or skip leaves the loop paused, and a skip closes
      its task and no other. */
  lemma OperatorKeepsControl(db: Db, c: Command, row: Option<nat>)
    requires Accepts(db, c, row) && (c.Clarify? || c.SkipTask?)
    ensures After(db, c).paused && !OperatorInFlight(After(db, c).events)
    ensures c.SkipTask? ==> !Open(After(db, c).tasks, c.task)
    ensures forall t :: c.Clarify? || t != c.task ==> StatusOf(After(db, c).tasks, t) == StatusOf(db.tasks, t)
  {
  }

  /** What each accepted command does, besides its note in the event log. A decision becomes the newest of its
      reference and leaves all others; a pause stops the loop with nothing in flight, a resume lets it go
      on with work in flight; a clarification or a skip is no longer waited for; a diagnosis is in flight. */
  lemma CommandsMean(db: Db, c: Command, other: string)
    ensures var after := After(db, c);
            match c
            case Approve(ref) =>
              && after == db.(approvals := after.approvals) && LatestDecision(after.approvals, ref) == Some(true)
              && (other != ref ==> LatestDecision(after.approvals, other) == LatestDecision(db.approvals, other))
            case Reject(ref) =>
              && after == db.(approvals := after.approvals) && LatestDecision(after.approvals, ref) == Some(false)
              && (other != ref ==> LatestDecision(after.approvals, other) == LatestDecision(db.approvals, other))
            case PauseLoop =>
              after == db.(paused := true, events := after.events) && !OperatorInFlight(after.events)
            case ResumeLoop =>
              after == db.(paused := false, events := after.events) && OperatorInFlight(after.events)
            case Clarify(_) =>
              && after == db.(paused := true, awaitingClarification := None, events := after.events)
              && !OperatorInFlight(after.events)
            case SkipTask(task) =>
              && after == db.(tasks := db.tasks[task := Skipped], paused := true, awaitingClarification := None,
                              awaitingReview := None, events := after.events)
              && !OperatorInFlight(after.events)
            case DeepDiagnose => after == db.(events := after.events) && OperatorInFlight(after.events)
  {
    hide LatestDecision;
    match c
    case Approve(ref) =>
      LatestDecisionSnoc(db.approvals, Approval(None, ref, Approved), ref);
      LatestDecisionSnoc(db.approvals, Approval(None, ref, Approved), other);
    case Reject(ref) =>
      LatestDecisionSnoc(db.approvals, Approval(None, ref, Rejected), ref);
      LatestDecisionSnoc(db.approvals, Approval(None, ref, Rejected), other);
    case _ =>
  }

  /** When a command is accepted: a clarification for the task that waits for one; a skip for a task that waits,
      is current, or is shown; a diagnosis while nothing is in flight and a failed task is shown; and every
      other command always. */
  lemma AcceptedWhen(db: Db, c: Command, row: Option<nat>)
    requires IsActiveRow(db.tasks, row)
    ensures Accepts(db, c, row) <==>
      match c
      case Clarify(task) => db.awaitingClarification == Some(task)
      case SkipTask(task) =>
        Some(task) in {db.awaitingClarification, db.awaitingReview, db.currentTask, row}
      case DeepDiagnose =>
        && (forall i: nat :: !BegunAt(db.events, i))
        && (exists t :: t in db.tasks && db.tasks[t] == Failed)
        && (forall t :: t in db.tasks ==> db.tasks[t] != InProgress)
      case _ => true
  {
    hide BegunAt, OperatorInFlight, IsActiveRow;
    InFlightMeans(db.events);
    ActiveRowIsFailed(db.tasks, row);
    RowIsStored(db.tasks, row);
  }

  lemma RowIsStored(tasks: map<nat, Status>, row: Option<nat>)
    requires IsActiveRow(tasks, row)
    ensures row.Some? ==> row.value in tasks && StatusOf(tasks, row.value) == tasks[row.value]
  {
  }
}
