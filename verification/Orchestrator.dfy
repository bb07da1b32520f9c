/** The run loop and the listener as programs over the shared tables. Each database access of
    the loop is followed by `Interfere`, where the listener commits any number of statements;
    the ghost labels record the run, and every method proves that the tables are those the
    machine of `Protocol` reaches by that run. */
module Orchestrator {
  import opened Text
  import opened Protocol
  import opened ProtocolSafety
  import opened ProtocolProgress
  import opened ProtocolEvents
  import opened ProtocolWrites

  /** A step that asks the outside world nothing. */
  const QUIET: Input := Input(Manual, false, true, NotFound, false, None)

  /** What selecting a phase and a task led to. */
  datatype Selection = TaskSelected(k: nat, t: nat) | PhaseFinished(k: nat) | NothingLeft | NoPhases

  /** The machine after a sequence of listener statements. */
  function ListenerRun(m: Machine, ops: seq<ListenerOp>): Machine {
    if ops == [] then m else ListenerStep(ListenerRun(m, ops[..|ops| - 1]), ops[|ops| - 1])
  }

  // ----- what the listener leaves alone

  /** A status is as it was, or the operator skipped the task meanwhile. */
  ghost predicate SkipsOnly(tasks: map<nat, Status>, later: map<nat, Status>) {
    forall t :: StatusOf(later, t) == StatusOf(tasks, t) || StatusOf(later, t) == Skipped
  }

  /** The listener appends events and approvals of its own, skips tasks, and writes the pause flag and the
      awaiting settings; it never touches the loop's rows, the stored phase or the current task. */
  ghost predicate LeftByListener(d: Db, later: Db) {
    && d.events <= later.events && d.approvals <= later.approvals
    && (forall k :: |d.events| <= k < |later.events| ==> later.events[k].author == ByListener)
    && (forall k :: |d.approvals| <= k < |later.approvals| ==> later.approvals[k].gate == None)
    && later.currentPhase == d.currentPhase && later.currentTask == d.currentTask
    && (later.awaitingClarification == d.awaitingClarification || later.awaitingClarification == None)
    && (later.awaitingReview == d.awaitingReview || later.awaitingReview == None)
    && SkipsOnly(d.tasks, later.tasks)
  }

  lemma MarkedOrSkipped(tasks: map<nat, Status>, t: nat, s: Status, later: map<nat, Status>)
    requires SkipsOnly(tasks[t := s], later)
    ensures StatusOf(later, t) == s || StatusOf(later, t) == Skipped
  {
    assert StatusOf(tasks[t := s], t) == s;
  }

  lemma ListenerStepLeaves(m: Machine, op: ListenerOp)
    ensures LeftByListener(m.db, ListenerStep(m, op).db)
    ensures var m' := ListenerStep(m, op); m'.pc == m.pc && m'.iterations == m.iterations && m'.completed == m.completed
  {
    hide OperatorInFlight, ActiveRowFailed, HasFailureEvent;
  }

  lemma LeavesTwice(a: Db, b: Db, c: Db)
    requires LeftByListener(a, b) && LeftByListener(b, c)
    ensures LeftByListener(a, c)
  {
    hide StatusOf;
    forall t ensures StatusOf(c.tasks, t) == StatusOf(a.tasks, t) || StatusOf(c.tasks, t) == Skipped {
      assert StatusOf(b.tasks, t) == StatusOf(a.tasks, t) || StatusOf(b.tasks, t) == Skipped;
    }
    forall k | |a.events| <= k < |c.events| ensures c.events[k].author == ByListener {
      if k < |b.events| { assert c.events[k] == b.events[k]; }
    }
    forall k | |a.approvals| <= k < |c.approvals| ensures c.approvals[k].gate == None {
      if k < |b.approvals| { assert c.approvals[k] == b.approvals[k]; }
    }
  }

  /** The listener never moves the loop's program point or counters either. */
  lemma {:induction false} ListenerRunKeepsLoop(m: Machine, ops: seq<ListenerOp>)
    ensures var m' := ListenerRun(m, ops);
            && m'.pc == m.pc && m'.iterations == m.iterations && m'.completed == m.completed
            && LeftByListener(m.db, m'.db)
  {
    hide LeftByListener, ListenerStep;
    if ops == [] {
      NothingLeaves(m.db);
    } else {
      var front := ops[..|ops| - 1];
      ListenerRunKeepsLoop(m, front);
      ListenerStepLeaves(ListenerRun(m, front), ops[|ops| - 1]);
      LeavesTwice(m.db, ListenerRun(m, front).db, ListenerRun(m, ops).db);
    }
  }

  lemma NothingLeaves(d: Db)
    ensures LeftByListener(d, d)
  {
  }

  // ----- the recorded run

  /** The labels of one loop process and the listener beside it: no restart and no crash. */
  ghost predicate OneProcess(labels: seq<Label>) {
    forall l :: l in labels ==> l.Loop? || l.Listener?
  }

  lemma OneProcessGrows(labels: seq<Label>, l: Label)
    requires OneProcess(labels) && (l.Loop? || l.Listener?)
    ensures OneProcess(labels + [l])
  {
  }

  lemma OneProcessEnds(labels: seq<Label>)
    requires OneProcess(labels)
    ensures Restart !in labels && Crash !in labels
  {
  }

  /** Only statements of the listener were added. */
  ghost predicate OnlyListened(labels: seq<Label>, later: seq<Label>) {
    labels <= later && forall k :: |labels| <= k < |later| ==> later[k].Listener?
  }

  /** A session's run so far and its tables. */
  datatype Trace = Trace(labels: seq<Label>, db: Db)

  /** One access of the loop, which leaves the tables as `written`, and then any listener statements. */
  ghost predicate Accessed(from: Trace, to: Trace, i: Input, written: Db) {
    OnlyListened(from.labels + [Loop(i)], to.labels) && LeftByListener(written, to.db)
  }

  // ----- the loop's accesses, program point by program point

  lemma GateAccesses(cfg: Config, g: Gate, approved: bool)
    ensures Writes(cfg, AtGate(GateInsert(g)), QUIET, Inserted(RowOf(cfg, g, Undecided)), AtGate(GateEvent(g)))
    ensures Writes(cfg, AtGate(GateEvent(g)), QUIET, Posted(ApprovalRequired), AtGate(GatePoll(g)))
    ensures Writes(cfg, AtGate(GateRecord(g, approved)), QUIET, Inserted(RowOf(cfg, g, Verdict(approved))),
                   AfterGate(g, approved))
  {
    hide SelectStep, PrepareStep, CodexStep, ValidateStep, SelectWrite, PrepareWrite, CodexWrite, ValidateWrite;
  }

  lemma PhaseAccesses(cfg: Config, k: nat)
    ensures Writes(cfg, AtGate(PhasePause(k)), QUIET, PauseSet, AtGate(PhasePausedEvent(k)))
    ensures Writes(cfg, AtGate(PhasePausedEvent(k)), QUIET, Posted(PausedNote), Returned)
    ensures Writes(cfg, Select(FinishEvent), QUIET, Posted(TaskDone), Returned)
  {
    hide PrepareStep, CodexStep, ValidateStep, PrepareWrite, CodexWrite, ValidateWrite;
  }

  lemma ResumeAccess(cfg: Config, c: Ctx)
    ensures Writes(cfg, Prepare(ResumeEvent(c)), QUIET, Posted(ResumeReceived), Validate(ValidateEvent(c, 0)))
  {
    hide SelectStep, GateStep, CodexStep, ValidateStep, SelectWrite, GateWrite, CodexWrite, ValidateWrite;
  }

  /** What preparing a task appends, write by write. */
  lemma PreparesInOrder(cfg: Config, c: Ctx, o: Outcome, log: seq<Write>)
    ensures o == Resumed && c.resume ==>
      log + [TaskSet(c.t)] + [Posted(ResumeReceived)] == log + PrepareLog(cfg, c, o)
    ensures o == Refused ==>
      log + [TaskSet(c.t)] + GateLog(cfg, RiskyTask(c), false) + [Marked(c.t, Skipped)] + [Posted(PausedNote)]
      == log + PrepareLog(cfg, c, o)
    ensures o != Resumed && o != Refused && !c.resume ==>
      (if c.t in cfg.risky then log + [TaskSet(c.t)] + GateLog(cfg, RiskyTask(c), true) else log + [TaskSet(c.t)])
      + PromptLog(c, o) == log + PrepareLog(cfg, c, o)
  {
    hide GateLog, PromptLog;
  }

  lemma RefusalAccesses(cfg: Config, c: Ctx)
    ensures Writes(cfg, Prepare(RiskSkip(c)), QUIET, Marked(c.t, Skipped), Prepare(RiskSkipEvent(c)))
    ensures Writes(cfg, Prepare(RiskSkipEvent(c)), QUIET, Posted(PausedNote), Select(Top))
  {
    hide SelectStep, GateStep, CodexStep, ValidateStep, SelectWrite, GateWrite, CodexWrite, ValidateWrite;
  }

  lemma MarkAccess(cfg: Config, c: Ctx, clean: bool)
    ensures Writes(cfg, Prepare(MarkInProgress(c)), QUIET.(lintClean := clean), Marked(c.t, InProgress),
                   if c.mode == Manual then Prepare(PromptEvent(c))
                   else if clean then Codex(CodexEvent(c)) else Prepare(BlockPause(c)))
  {
    hide SelectStep, GateStep, CodexStep, ValidateStep, SelectWrite, GateWrite, CodexWrite, ValidateWrite;
  }

  lemma PromptAccess(cfg: Config, c: Ctx)
    ensures Writes(cfg, Prepare(PromptEvent(c)), QUIET, Posted(PromptReady), Prepare(PromptPause(c)))
  {
    hide SelectStep, GateStep, CodexStep, ValidateStep, SelectWrite, GateWrite, CodexWrite, ValidateWrite;
  }

  lemma ShownAccesses(cfg: Config, c: Ctx)
    ensures Writes(cfg, Prepare(PromptPause(c)), QUIET, PauseSet, Prepare(PromptPausedEvent(c)))
    ensures Writes(cfg, Prepare(PromptPausedEvent(c)), QUIET, Posted(PausedNote), Select(Top))
  {
    hide SelectStep, GateStep, CodexStep, ValidateStep, SelectWrite, GateWrite, CodexWrite, ValidateWrite;
  }

  lemma BlockAccesses(cfg: Config, c: Ctx)
    ensures Writes(cfg, Prepare(BlockPause(c)), QUIET, PauseSet, Prepare(BlockAwait(c)))
    ensures Writes(cfg, Prepare(BlockAwait(c)), QUIET, AwaitSet(c.t, StopQuestion), Prepare(BlockMark(c)))
  {
    hide SelectStep, GateStep, CodexStep, ValidateStep, SelectWrite, GateWrite, CodexWrite, ValidateWrite;
  }

  lemma BlockMarkAccess(cfg: Config, c: Ctx)
    ensures Writes(cfg, Prepare(BlockMark(c)), QUIET, Marked(c.t, InProgress), Prepare(BlockEvent(c)))
  {
    hide SelectStep, GateStep, CodexStep, ValidateStep, SelectWrite, GateWrite, CodexWrite, ValidateWrite;
  }

  lemma BlockEventAccess(cfg: Config, c: Ctx)
    ensures Writes(cfg, Prepare(BlockEvent(c)), QUIET, Posted(CodexPromptBlocked), Returned)
  {
    hide SelectStep, GateStep, CodexStep, ValidateStep, SelectWrite, GateWrite, CodexWrite, ValidateWrite;
  }

  lemma CodexAccesses(cfg: Config, c: Ctx, why: StopReason)
    ensures Writes(cfg, Codex(CodexEvent(c)), QUIET, Posted(Validating), Codex(CodexRun(c)))
    ensures Writes(cfg, Codex(CodexPause(c, why)), QUIET, PauseSet, Codex(CodexAwait(c, why)))
  {
    hide SelectStep, GateStep, PrepareStep, ValidateStep, SelectWrite, GateWrite, PrepareWrite, ValidateWrite;
  }

  lemma StopAccesses(cfg: Config, c: Ctx, why: StopReason)
    ensures Writes(cfg, Codex(CodexAwait(c, why)), QUIET, AwaitSet(c.t, why), Codex(CodexStopEvent(c, why)))
    ensures Writes(cfg, Codex(CodexStopEvent(c, why)), QUIET, Posted(StopKind(why)), Returned)
  {
    hide SelectStep, GateStep, PrepareStep, ValidateStep, SelectWrite, GateWrite, PrepareWrite, ValidateWrite;
  }

  lemma ValidationAccesses(cfg: Config, c: Ctx)
    ensures Writes(cfg, Validate(ValidateEvent(c, 0)), QUIET, Posted(Validating), Validate(ValidateRun(c, 0)))
    ensures Writes(cfg, Validate(DoneMark(c)), QUIET, Marked(c.t, Done), Validate(DoneEvent(c)))
  {
    hide SelectStep, GateStep, PrepareStep, CodexStep, SelectWrite, GateWrite, PrepareWrite, CodexWrite;
  }

  lemma LimitAccesses(cfg: Config, c: Ctx)
    ensures Writes(cfg, Validate(LimitPause(c)), QUIET, PauseSet, Validate(LimitEvent(c)))
    ensures Writes(cfg, Validate(LimitEvent(c)), QUIET, Posted(SessionLimit), Returned)
  {
    hide SelectStep, GateStep, PrepareStep, CodexStep, SelectWrite, GateWrite, PrepareWrite, CodexWrite;
  }

  lemma FailureAccesses(cfg: Config, c: Ctx)
    ensures Writes(cfg, Validate(FailMark(c)), QUIET, Marked(c.t, Failed), Validate(FailEvent(c)))
    ensures Writes(cfg, Validate(FailEvent(c)), QUIET, Posted(ValidationFailed), Validate(FailPause(c)))
  {
    hide SelectStep, GateStep, PrepareStep, CodexStep, SelectWrite, GateWrite, PrepareWrite, CodexWrite;
  }

  lemma FailedAccesses(cfg: Config, c: Ctx)
    ensures Writes(cfg, Validate(FailPause(c)), QUIET, PauseSet, Validate(FailPausedEvent(c)))
    ensures Writes(cfg, Validate(FailPausedEvent(c)), QUIET, Posted(PausedNote), Select(Top))
  {
    hide SelectStep, GateStep, PrepareStep, CodexStep, SelectWrite, GateWrite, PrepareWrite, CodexWrite;
  }

  /** The gate's answer is the newest decision at some moment of the wait; without one, the
      deadline passed and the gate is refused. */
  ghost predicate Answered(rows: seq<Approval>, from: nat, ref: string, approved: bool) {
    exists n :: from <= n <= |rows| && Answers(rows[..n], ref, approved)
  }

  predicate Answers(rows: seq<Approval>, ref: string, approved: bool) {
    LatestDecision(rows, ref) == Some(approved) || (!approved && LatestDecision(rows, ref) == None)
  }

  lemma AnsweredLater(rows: seq<Approval>, later: seq<Approval>, from: nat, back: nat, ref: string, approved: bool)
    requires rows <= later && back <= from && Answered(rows, from, ref, approved)
    ensures Answered(later, back, ref, approved)
  {
    var n :| from <= n <= |rows| && Answers(rows[..n], ref, approved);
    assert later[..n] == rows[..n];
  }

  /** Phase `k` is the stored one, or none was and `k` is the first with work left. */
  ghost predicate Picked(cfg: Config, phase: string, snap: map<nat, Status>, chosen: Option<nat>, k: nat) {
    && k < |cfg.phases| && !cfg.names.isComplete(phase)
    && (chosen == None ==> Resolve(cfg, phase) == Some(k))
    && (chosen.Some? ==>
          && chosen.value == k && (Resolve(cfg, phase).Some? ==> Resolve(cfg, phase).value >= |cfg.phases|)
          && (forall j, t :: 0 <= j < k && t in cfg.phases[j].tasks ==> !Open(snap, t))
          && (if snap == map[] then k == 0
              else k + 1 == |cfg.phases| || exists t :: t in cfg.phases[k].tasks && Open(snap, t)))
  }

  function AfterSelection(s: Selection): Pc {
    match s
    case TaskSelected(k, t) => Prepare(ReadTaskStatus(k, t))
    case PhaseFinished(k) => AtGate(GateInsert(PhaseExit(k)))
    case NothingLeft => Select(FinishEvent)
    case NoPhases => Raised
  }

  /** What the selection means for the stored phase and the statuses it was made from. */
  ghost predicate Selects(cfg: Config, phase: string, snap: map<nat, Status>, chosen: Option<nat>, s: Selection) {
    match s
    case TaskSelected(k, t) =>
      && Picked(cfg, phase, snap, chosen, k)
      && exists i :: && 0 <= i < |cfg.phases[k].tasks| && cfg.phases[k].tasks[i] == t && Open(snap, t)
                     && forall j :: 0 <= j < i ==> !Open(snap, cfg.phases[k].tasks[j])
    case PhaseFinished(k) =>
      && Picked(cfg, phase, snap, chosen, k) && cfg.phases[k].tasks != []
      && forall t :: t in cfg.phases[k].tasks ==> !Open(snap, t)
    case NothingLeft =>
      || cfg.names.isComplete(phase)
      || exists k: nat :: Picked(cfg, phase, snap, chosen, k) && cfg.phases[k].tasks == []
    case NoPhases => cfg.phases == [] && !cfg.names.isComplete(phase)
  }

  lemma EndingEmpty(c: Ctx)
    ensures forall log: seq<Write> :: log + EndingLog(c, NotStarted) == log
  {
  }

  lemma Joined(a: seq<Write>, b: seq<Write>, c: seq<Write>)
    ensures (a + b) + c == a + (b + c)
  {
  }

  class Session {
    const cfg: Config

    // the tables
    var tasks: map<nat, Status>
    var currentPhase: string
    var paused: bool
    var currentTask: Option<nat>
    var awaitingClarification: Option<nat>
    var awaitingReview: Option<nat>
    var approvals: seq<Approval>
    var events: seq<Event>

    // the listener's diagnosis threads, by stage
    var idle: nat
    var checked: nat
    var running: nat
    var found: nat
    var silent: nat

    // the loop's counters
    var iterations: nat
    var completed: nat

    // the run so far
    ghost const begin: Machine
    ghost var labels: seq<Label>

    function View(): Db
      reads this
    {
      Db(tasks, currentPhase, paused, currentTask, awaitingClarification, awaitingReview, approvals, events)
    }

    ghost function Now(): Machine
      reads `labels
    {
      Execute(cfg, begin, labels)
    }

    ghost function Here(): Trace
      reads this
    {
      Trace(labels, View())
    }

    /** What the loop wrote so far, in order. */
    ghost function Log(): seq<Write>
      reads `labels
    {
      LogOf(cfg, begin, labels)
    }

    ghost predicate Matches(m: Machine)
      reads this
    {
      && m.db == View() && m.iterations == iterations && m.completed == completed
      && m.diagIdle == idle && m.diagChecked == checked && m.diagRunning == running
      && m.diagFound == found && m.diagSilent == silent
    }

    /** The fields are those of the machine after the recorded run of this process. */
    ghost predicate Valid()
      reads this
    {
      begin == Boot(begin.db) && OneProcess(labels) && Matches(Now())
    }

    ghost predicate At(pc: Pc)
      reads this
    {
      Valid() && Now().pc == pc
    }

    /** A new loop process over an existing store. */
    constructor (cfg: Config, db: Db)
      ensures this.cfg == cfg && begin == Boot(db) && labels == [] && At(Select(Start)) && View() == db
    {
      this.cfg := cfg;
      tasks, currentPhase, paused, currentTask := db.tasks, db.currentPhase, db.paused, db.currentTask;
      awaitingClarification, awaitingReview := db.awaitingClarification, db.awaitingReview;
      approvals, events := db.approvals, db.events;
      idle, checked, running, found, silent, iterations, completed := 0, 0, 0, 0, 0, 0, 0;
      begin := Boot(db);
      labels := [];
    }

    /** Records that a label was taken. */
    ghost method Take(l: Label)
      requires l.Loop? || l.Listener?
      modifies this`labels
      ensures labels == old(labels) + [l] && Now() == Step(cfg, old(Now()), l)
      ensures Log() == old(Log()) + WriteOf(cfg, old(Now()).pc, l)
    {
      ExecuteSnoc(cfg, begin, labels, l);
      LogSnoc(cfg, begin, labels, l);
      labels := labels + [l];
    }

    // ----- the listener

    /** Any one statement that the listener commits. */
    method Commit(op: ListenerOp)
      requires Valid()
      modifies this
      ensures Valid() && labels == old(labels) + [Listener(op)] && Now() == ListenerStep(old(Now()), op)
    {
      hide Execute, LoopStep, ListenerStep, LogOf, WriteOf, OneProcess;
      match op {
        case DiagnoseIdle => Check(op);
        case DiagnoseCheck => Check(op);
        case DiagnoseStart => Diagnose(op);
        case DiagnoseRead => Look();
        case DiagnoseFinish => Diagnose(op);
        case WritePaused(_) => WriteSetting(op);
        case ClearClarification => WriteSetting(op);
        case ClearReview => WriteSetting(op);
        case _ => WriteRow(op);
      }
    }

    /** A statement of a command handler on the approvals, the events or the tasks. */
    method WriteRow(op: ListenerOp)
      requires Valid() && (op.InsertDecision? || op.PostNote? || op.WriteSkipped?)
      modifies this
      ensures Valid() && labels == old(labels) + [Listener(op)] && Now() == ListenerStep(old(Now()), op)
    {
      hide Execute, LoopStep, LogOf, WriteOf, OperatorInFlight, ActiveRowFailed, HasFailureEvent, OneProcess;
      OneProcessGrows(labels, Listener(op));
      match op {
        case InsertDecision(ref, approved) => approvals := approvals + [Approval(None, ref, Verdict(approved))];
        case PostNote(kind) =>
          if kind == PausedNote || kind == ResumeReceived || kind == Advisory {
            events := events + [Event(ByListener, kind)];
          }
        case WriteSkipped(t) => tasks := tasks[t := Skipped];
      }
      Take(Listener(op));
    }

    /** A statement of a command handler on the settings. */
    method WriteSetting(op: ListenerOp)
      requires Valid() && (op.WritePaused? || op.ClearClarification? || op.ClearReview?)
      modifies this
      ensures Valid() && labels == old(labels) + [Listener(op)] && Now() == ListenerStep(old(Now()), op)
    {
      hide Execute, LoopStep, LogOf, WriteOf, OperatorInFlight, ActiveRowFailed, HasFailureEvent, OneProcess;
      OneProcessGrows(labels, Listener(op));
      match op {
        case WritePaused(value) => paused := value;
        case ClearClarification => awaitingClarification := None;
        case ClearReview => awaitingReview := None;
      }
      Take(Listener(op));
    }

    /** The two reads a Deep Diagnose starts with: nothing is in flight, and the shown row is failed. */
    method Check(op: ListenerOp)
      requires Valid() && (op.DiagnoseIdle? || op.DiagnoseCheck?)
      modifies this
      ensures Valid() && labels == old(labels) + [Listener(op)] && Now() == ListenerStep(old(Now()), op)
    {
      hide Execute, LoopStep, LogOf, WriteOf, OperatorInFlight, ActiveRowFailed;
      if op.DiagnoseIdle? {
        var free := IsIdle();
        if free { idle := idle + 1; }
      } else if idle > 0 {
        idle := idle - 1;
        if ActiveRowFailed(tasks) { checked := checked + 1; }
      }
      Take(Listener(op));
    }

    /** A diagnosis thread posts its start or its end. */
    method Diagnose(op: ListenerOp)
      requires Valid() && (op.DiagnoseStart? || op.DiagnoseFinish?)
      modifies this
      ensures Valid() && labels == old(labels) + [Listener(op)] && Now() == ListenerStep(old(Now()), op)
    {
      hide Execute, LoopStep, LogOf, WriteOf, OneProcess;
      OneProcessGrows(labels, Listener(op));
      if op.DiagnoseStart? && checked > 0 {
        events := events + [Event(ByListener, MediumReviewRunning)];
        checked, running := checked - 1, running + 1;
      } else if op.DiagnoseFinish? && found > 0 {
        events := events + [Event(ByListener, MediumReviewDone)];
        found := found - 1;
      }
      Take(Listener(op));
    }

    /** A running diagnosis looks for the failure it is about. */
    method Look()
      requires Valid()
      modifies this
      ensures Valid() && labels == old(labels) + [Listener(DiagnoseRead)]
      ensures Now() == ListenerStep(old(Now()), DiagnoseRead)
    {
      hide Execute, LoopStep, LogOf, WriteOf, HasFailureEvent, OneProcess;
      OneProcessGrows(labels, Listener(DiagnoseRead));
      if running > 0 {
        var known := FindsFailure();
        running := running - 1;
        if known { found := found + 1; } else { silent := silent + 1; }
      }
      Take(Listener(DiagnoseRead));
    }

    /** The newest relevant event is not one of work in flight. */
    method IsIdle() returns (free: bool)
      ensures free == !OperatorInFlight(events)
    {
      var n := |events|;
      assert events[..n] == events;
      while n > 0
        invariant 0 <= n <= |events|
        invariant OperatorInFlight(events) == OperatorInFlight(events[..n])
      {
        var last := events[n - 1].kind;
        assert events[..n][..n - 1] == events[..n - 1];
        if Relevant(last) { return !InFlightKind(last); }
        n := n - 1;
      }
      return true;
    }

    method FindsFailure() returns (known: bool)
      ensures known == HasFailureEvent(events)
    {
      for i := 0 to |events|
        invariant forall j :: 0 <= j < i ==> events[j].kind != ValidationFailed
      {
        if events[i].kind == ValidationFailed { return true; }
      }
      return false;
    }

    /** The statements of one handler, in order. */
    method CommitAll(ops: seq<ListenerOp>)
      requires Valid()
      modifies this
      ensures Valid() && Now() == ListenerRun(old(Now()), ops)
      ensures Log() == old(Log()) && OnlyListened(old(labels), labels) && LeftByListener(old(View()), View())
    {
      hide Execute, OneProcess, LeftByListener;
      for i := 0 to |ops|
        invariant Valid() && Now() == ListenerRun(old(Now()), ops[..i])
        invariant Log() == old(Log()) && OnlyListened(old(labels), labels)
      {
        assert ops[..i + 1][..i] == ops[..i];
        LogSnoc(cfg, begin, labels, Listener(ops[i]));
        Commit(ops[i]);
      }
      assert ops[..|ops|] == ops;
      ListenerRunKeepsLoop(old(Now()), ops);
    }

    /** Between two accesses of the loop the listener commits any statements it likes. */
    method Interfere()
      requires Valid()
      modifies this
      ensures Valid()
      ensures Now().pc == old(Now().pc) && iterations == old(iterations) && completed == old(completed)
      ensures Log() == old(Log()) && OnlyListened(old(labels), labels) && LeftByListener(old(View()), View())
    {
      hide Execute, OneProcess, LeftByListener, OnlyListened;
      var ops: seq<ListenerOp> := *;
      CommitAll(ops);
      ListenerRunKeepsLoop(old(Now()), ops);
    }

    // ----- the loop's accesses

    /** The fields hold what the loop's step makes of them; the listener may come next. */
    method Proceed(ghost i: Input)
      requires begin == Boot(begin.db) && OneProcess(labels) && Matches(LoopStep(cfg, Now(), i))
      modifies this
      ensures At(LoopStep(cfg, old(Now()), i).pc) && iterations == old(iterations) && completed == old(completed)
      ensures Accessed(old(Here()), Here(), i, old(View()))
      ensures old(labels) <= labels && Log() == old(Log()) + WriteOf(cfg, old(Now()).pc, Loop(i))
    {
      hide Execute, LoopStep, LogOf, WriteOf, LeftByListener;
      Take(Loop(i));
      Interfere();
    }

    method PostEvent(kind: EventKind, ghost before: Pc, ghost after: Pc)
      requires At(before) && Writes(cfg, before, QUIET, Posted(kind), after)
      modifies this
      ensures At(after) && iterations == old(iterations) && completed == old(completed)
      ensures Accessed(old(Here()), Here(), QUIET, Post(old(View()), ByLoop, kind))
      ensures old(labels) <= labels && old(approvals) <= approvals
      ensures Log() == old(Log()) + [Posted(kind)] && old(events) + [Event(ByLoop, kind)] <= events
      ensures currentPhase == old(currentPhase) && currentTask == old(currentTask) && SkipsOnly(old(tasks), tasks)
    {
      hide Execute, LoopStep, LogOf, WriteOf, SkipsOnly;
      events := events + [Event(ByLoop, kind)];
      Proceed(QUIET);
    }

    method MarkTask(t: nat, s: Status, ghost i: Input, ghost before: Pc, ghost after: Pc)
      requires At(before) && Writes(cfg, before, i, Marked(t, s), after)
      modifies this
      ensures At(after) && iterations == old(iterations) && completed == old(completed)
      ensures Accessed(old(Here()), Here(), i, Mark(old(View()), t, s))
      ensures old(labels) <= labels && Log() == old(Log()) + [Marked(t, s)]
      ensures StatusOf(tasks, t) == s || StatusOf(tasks, t) == Skipped
      ensures currentPhase == old(currentPhase) && currentTask == old(currentTask)
    {
      hide Execute, LoopStep, LogOf, WriteOf, SkipsOnly, StatusOf;
      tasks := tasks[t := s];
      Proceed(i);
      MarkedOrSkipped(old(tasks), t, s, tasks);
    }

    method Pause(ghost before: Pc, ghost after: Pc)
      requires At(before) && Writes(cfg, before, QUIET, PauseSet, after)
      modifies this
      ensures At(after) && iterations == old(iterations) && completed == old(completed)
      ensures Accessed(old(Here()), Here(), QUIET, old(View()).(paused := true))
      ensures old(labels) <= labels && Log() == old(Log()) + [PauseSet]
      ensures currentPhase == old(currentPhase) && currentTask == old(currentTask) && SkipsOnly(old(tasks), tasks)
    {
      hide Execute, LoopStep, LogOf, WriteOf, SkipsOnly;
      paused := true;
      Proceed(QUIET);
    }

    method InsertApproval(g: Gate, decision: Decision, ghost before: Pc, ghost after: Pc)
      requires At(before) && Writes(cfg, before, QUIET, Inserted(RowOf(cfg, g, decision)), after)
      modifies this
      ensures At(after) && iterations == old(iterations) && completed == old(completed)
      ensures Accessed(old(Here()), Here(), QUIET, Insert(old(View()), RowOf(cfg, g, decision)))
      ensures old(labels) <= labels && Log() == old(Log()) + [Inserted(RowOf(cfg, g, decision))]
      ensures old(approvals) + [RowOf(cfg, g, decision)] <= approvals
      ensures currentPhase == old(currentPhase) && currentTask == old(currentTask) && SkipsOnly(old(tasks), tasks)
    {
      hide Execute, LoopStep, LogOf, WriteOf, SkipsOnly, GateRef, TypeOf;
      approvals := approvals + [Approval(Some(TypeOf(g)), GateRef(cfg, g), decision)];
      Proceed(QUIET);
    }

    /** Notes for the operator which task waits for what. */
    method NoteAwaited(t: nat, why: StopReason, ghost before: Pc, ghost after: Pc)
      requires At(before) && Writes(cfg, before, QUIET, AwaitSet(t, why), after)
      modifies this
      ensures At(after) && iterations == old(iterations) && completed == old(completed)
      ensures Accessed(old(Here()), Here(), QUIET, Await(old(View()), t, why))
      ensures old(labels) <= labels && Log() == old(Log()) + [AwaitSet(t, why)]
    {
      hide Execute, LoopStep, LogOf, WriteOf;
      if why == StopQuestion { awaitingClarification := Some(t); } else { awaitingReview := Some(t); }
      Proceed(QUIET);
    }

    /** The newest decided row for a reference. */
    method NewestDecision(ref: string) returns (d: Option<bool>)
      ensures d == LatestDecision(approvals, ref)
    {
      var n := |approvals|;
      assert approvals[..n] == approvals;
      while n > 0
        invariant 0 <= n <= |approvals|
        invariant LatestDecision(approvals, ref) == LatestDecision(approvals[..n], ref)
      {
        var row := approvals[n - 1];
        assert approvals[..n][..n - 1] == approvals[..n - 1];
        if row.ref == ref && row.decision != Undecided { return Some(row.decision == Approved); }
        n := n - 1;
      }
      return None;
    }

    /** One poll of a gate. */
    method Poll(g: Gate) returns (latest: Option<bool>)
      requires At(AtGate(GatePoll(g)))
      modifies this
      ensures At(if latest.Some? then AtGate(GateRecord(g, latest.value)) else AtGate(GateSleep(g)))
      ensures iterations == old(iterations) && completed == old(completed)
      ensures Accessed(old(Here()), Here(), QUIET, old(View()))
      ensures old(labels) <= labels && Log() == old(Log())
      ensures latest == LatestDecision(old(approvals), GateRef(cfg, g))
    {
      hide Execute, LogOf, GateRef, LatestDecision, LeftByListener;
      latest := NewestDecision(GateRef(cfg, g));
      Proceed(QUIET);
    }

    /** One wait between two polls. */
    method Sleep(g: Gate, passed: bool)
      requires At(AtGate(GateSleep(g)))
      modifies this
      ensures At(if passed then AtGate(GateRecord(g, false)) else AtGate(GatePoll(g)))
      ensures iterations == old(iterations) && completed == old(completed)
      ensures Accessed(old(Here()), Here(), QUIET.(deadlinePassed := passed), old(View()))
      ensures old(labels) <= labels && Log() == old(Log())
    {
      hide Execute, LogOf, GateRef, LatestDecision, LeftByListener;
      Proceed(QUIET.(deadlinePassed := passed));
    }

    /** Polls until a decision is there or the deadline passes after `polls` sleeps. */
    method WaitForApproval(g: Gate, polls: nat) returns (approved: bool)
      requires At(AtGate(GatePoll(g)))
      modifies this
      ensures At(AtGate(GateRecord(g, approved)))
      ensures iterations == old(iterations) && completed == old(completed)
      ensures old(labels) <= labels && Log() == old(Log()) && old(approvals) <= approvals
      ensures Answered(approvals, |old(approvals)|, GateRef(cfg, g), approved)
      ensures currentPhase == old(currentPhase) && currentTask == old(currentTask)
    {
      hide Execute, LogOf, LatestDecision, GateRef;
      var left := polls;
      while true
        invariant At(AtGate(GatePoll(g)))
        invariant iterations == old(iterations) && completed == old(completed)
        invariant old(labels) <= labels && Log() == old(Log()) && old(approvals) <= approvals
        invariant currentPhase == old(currentPhase) && currentTask == old(currentTask)
        decreases left
      {
        ghost var rows := approvals;
        var latest := Poll(g);
        assert approvals[..|rows|] == rows;
        if latest.Some? { return latest.value; }
        Sleep(g, left == 0);
        assert approvals[..|rows|] == rows;
        if left == 0 {
          assert Answers(rows, GateRef(cfg, g), false);
          return false;
        }
        left := left - 1;
      }
    }

    /** Opens a gate, waits for its decision and records it. */
    method PassGate(g: Gate) returns (approved: bool)
      requires At(AtGate(GateInsert(g)))
      modifies this
      ensures At(AfterGate(g, approved))
      ensures iterations == old(iterations) && completed == old(completed)
      ensures old(labels) <= labels && Log() == old(Log()) + GateLog(cfg, g, approved)
      ensures Answered(approvals, |old(approvals)| + 1, GateRef(cfg, g), approved)
      ensures currentPhase == old(currentPhase) && currentTask == old(currentTask)
    {
      hide At, Accessed, Log, Here;
      hide LoopStep, Writes, LatestDecision, Answered, GateRef, TypeOf, SkipsOnly;
      GateAccesses(cfg, g, true);
      GateAccesses(cfg, g, false);
      InsertApproval(g, Undecided, AtGate(GateInsert(g)), AtGate(GateEvent(g)));
      PostEvent(ApprovalRequired, AtGate(GateEvent(g)), AtGate(GatePoll(g)));
      var polls: nat := *;
      ghost var from := |approvals|;
      approved := WaitForApproval(g, polls);
      ghost var rows := approvals;
      InsertApproval(g, Verdict(approved), AtGate(GateRecord(g, approved)), AfterGate(g, approved));
      AnsweredLater(rows, approvals, from, |old(approvals)| + 1, GateRef(cfg, g), approved);
    }

    /** Moves the stored phase on to the one after `k`. */
    method Advance(k: nat)
      requires At(AtGate(PhaseAdvance(k)))
      modifies this
      ensures At(Select(Top)) && iterations == old(iterations) && completed == old(completed)
      ensures Accessed(old(Here()), Here(), QUIET, old(View()).(currentPhase := NextSetting(cfg, k)))
      ensures old(labels) <= labels && Log() == old(Log()) + [PhaseSet(NextSetting(cfg, k))]
      ensures currentPhase == NextSetting(cfg, k)
    {
      hide Execute, LogOf;
      currentPhase := if k + 1 < |cfg.phases| then cfg.names.display(cfg.phases[k + 1]) else cfg.names.complete;
      Proceed(QUIET);
    }

    /** The exit of a finished phase: crossed with approval, otherwise the loop pauses and returns. */
    method LeavePhase(k: nat) returns (crossed: bool)
      requires At(AtGate(GateInsert(PhaseExit(k))))
      modifies this
      ensures At(if crossed then Select(Top) else Returned)
      ensures iterations == old(iterations) && completed == old(completed)
      ensures old(labels) <= labels && Log() == old(Log()) + ExitLog(cfg, k, crossed)
      ensures currentPhase == if crossed then NextSetting(cfg, k) else old(currentPhase)
    {
      hide At, Accessed, Log, Here;
      hide Writes, GateLog, NextSetting, Answered, SkipsOnly;
      PhaseAccesses(cfg, k);
      crossed := PassGate(PhaseExit(k));
      if crossed {
        Advance(k);
      } else {
        Pause(AtGate(PhasePause(k)), AtGate(PhasePausedEvent(k)));
        PostEvent(PausedNote, AtGate(PhasePausedEvent(k)), Returned);
      }
    }

    /** Reads the statuses and the stored phase, storing the phase when none is set. */
    method SelectTask() returns (s: Selection, ghost chosen: Option<nat>)
      requires At(Select(ReadStatuses))
      modifies this
      ensures iterations == old(iterations) && completed == old(completed)
      ensures old(labels) <= labels && Log() == old(Log()) + ChosenLog(cfg, chosen)
      ensures At(AfterSelection(s)) && Selects(cfg, old(currentPhase), old(tasks), chosen, s)
    {
      hide Execute, LogOf, FirstOpen, FindCurrentPhase, SkipsOnly;
      var snap := ReadTable();
      var setting := currentPhase;
      var resolved := Resolve(cfg, setting);
      Proceed(QUIET);
      chosen := None;
      if cfg.names.isComplete(setting) { return NothingLeft, chosen; }
      var k: nat;
      if resolved.Some? && resolved.value < |cfg.phases| {
        k := resolved.value;
      } else if cfg.phases == [] {
        return NoPhases, chosen;
      } else {
        k := FindCurrentPhase(cfg.phases, snap);
        StorePhase(snap, k);
        chosen := Some(k);
      }
      assert Picked(cfg, old(currentPhase), old(tasks), chosen, k);
      var active := FirstOpen(snap, cfg.phases[k].tasks);
      if active.Some? { return TaskSelected(k, active.value), chosen; }
      s := if cfg.phases[k].tasks == [] then NothingLeft else PhaseFinished(k);
    }

    /** Reads the statuses of all tasks. */
    method ReadTable() returns (snap: map<nat, Status>)
      requires At(Select(ReadStatuses))
      modifies this
      ensures snap == old(tasks) && At(Select(ReadPhase(snap)))
      ensures iterations == old(iterations) && completed == old(completed)
      ensures Accessed(old(Here()), Here(), QUIET, old(View()))
      ensures old(labels) <= labels && Log() == old(Log())
    {
      hide Execute, LogOf, LeftByListener;
      snap := tasks;
      Proceed(QUIET);
    }

    /** Stores the phase a run starts with. */
    method StorePhase(snap: map<nat, Status>, k: nat)
      requires At(Select(WritePhase(snap, k))) && k < |cfg.phases|
      modifies this
      ensures At(Dispatch(cfg, snap, k)) && iterations == old(iterations) && completed == old(completed)
      ensures Accessed(old(Here()), Here(), QUIET, old(View()).(currentPhase := cfg.names.display(cfg.phases[k])))
      ensures old(labels) <= labels && Log() == old(Log()) + ChosenLog(cfg, Some(k))
    {
      hide Execute, LogOf, LeftByListener, Dispatch;
      currentPhase := cfg.names.display(cfg.phases[k]);
      Proceed(QUIET);
    }

    /** Everything between the choice of a task and the run of Codex or of the validator. */
    method PrepareTask(k: nat, t: nat) returns (c: Ctx, o: Outcome)
      requires At(Prepare(ReadTaskStatus(k, t)))
      modifies this
      ensures iterations == old(iterations) && completed == old(completed)
      ensures c.k == k && c.t == t && Fits(cfg, c, o) && At(AfterPrepare(c, o))
      ensures c.resume ==> c.mode == Manual && StatusOf(old(tasks), t) in {InProgress, Failed}
      ensures old(labels) <= labels && Log() == old(Log()) + PrepareLog(cfg, c, o)
    {
      hide At, Accessed, Log, Here;
      hide LoopStep, Writes, GateLog, PromptLog, PrepareLog, OpeningLog, SkipsOnly, Answered, StatusOf, GateRef;
      ghost var before := Log();
      var mode: Mode := *;
      c := EnterTask(k, t, mode);
      if c.resume {
        PreparesInOrder(cfg, c, Resumed, before);
        ResumeAccess(cfg, c);
        PostEvent(ResumeReceived, Prepare(ResumeEvent(c)), Validate(ValidateEvent(c, 0)));
        return c, Resumed;
      }
      if t in cfg.risky {
        var approved := PassGate(RiskyTask(c));
        if !approved {
          RefusalAccesses(cfg, c);
          PreparesInOrder(cfg, c, Refused, before);
          MarkTask(t, Skipped, QUIET, Prepare(RiskSkip(c)), Prepare(RiskSkipEvent(c)));
          PostEvent(PausedNote, Prepare(RiskSkipEvent(c)), Select(Top));
          return c, Refused;
        }
      }
      o := IssuePrompt(c);
      PreparesInOrder(cfg, c, o, before);
    }

    /** Reads the task's own status and makes it the current task. */
    method EnterTask(k: nat, t: nat, mode: Mode) returns (c: Ctx)
      requires At(Prepare(ReadTaskStatus(k, t)))
      modifies this
      ensures iterations == old(iterations) && completed == old(completed)
      ensures c.k == k && c.t == t && c.mode == mode
      ensures c.resume <==> mode == Manual && StatusOf(old(tasks), t) in {InProgress, Failed}
      ensures At(if c.resume then Prepare(ResumeEvent(c))
                 else if t in cfg.risky then AtGate(GateInsert(RiskyTask(c)))
                 else Prepare(MarkInProgress(c)))
      ensures old(labels) <= labels && Log() == old(Log()) + [TaskSet(t)] && currentTask == Some(t)
    {
      hide Execute, LogOf, SkipsOnly;
      var s := StatusOf(tasks, t);
      c := Ctx(k, t, mode, mode == Manual && (s == InProgress || s == Failed));
      Proceed(QUIET.(mode := mode));
      currentTask := Some(t);
      Proceed(QUIET);
    }

    /** Marks the task in progress; pauses for the operator, blocks a bad prompt, or goes on. */
    method IssuePrompt(c: Ctx) returns (o: Outcome)
      requires At(Prepare(MarkInProgress(c)))
      modifies this
      ensures iterations == old(iterations) && completed == old(completed)
      ensures o in {PromptShown, PromptBlocked, HandedToCodex} && (o == PromptShown <==> c.mode == Manual)
      ensures At(AfterPrepare(c, o))
      ensures old(labels) <= labels && Log() == old(Log()) + PromptLog(c, o)
      ensures StatusOf(tasks, c.t) == InProgress || StatusOf(tasks, c.t) == Skipped
    {
      hide At, Accessed, Log, Here;
      hide LoopStep, Writes;
      var clean: bool := *;
      ghost var i := QUIET.(lintClean := clean);
      MarkAccess(cfg, c, clean);
      if c.mode == Manual {
        PromptAccess(cfg, c);
        ShownAccesses(cfg, c);
        MarkTask(c.t, InProgress, i, Prepare(MarkInProgress(c)), Prepare(PromptEvent(c)));
        PostEvent(PromptReady, Prepare(PromptEvent(c)), Prepare(PromptPause(c)));
        Pause(Prepare(PromptPause(c)), Prepare(PromptPausedEvent(c)));
        PostEvent(PausedNote, Prepare(PromptPausedEvent(c)), Select(Top));
        return PromptShown;
      }
      if clean {
        MarkTask(c.t, InProgress, i, Prepare(MarkInProgress(c)), Codex(CodexEvent(c)));
        return HandedToCodex;
      }
      MarkTask(c.t, InProgress, i, Prepare(MarkInProgress(c)), Prepare(BlockPause(c)));
      BlockPrompt(c);
      return PromptBlocked;
    }

    method BlockPrompt(c: Ctx)
      requires At(Prepare(BlockPause(c)))
      modifies this
      ensures At(Returned) && iterations == old(iterations) && completed == old(completed)
      ensures old(labels) <= labels
      ensures Log() == old(Log()) + [PauseSet, AwaitSet(c.t, StopQuestion), Marked(c.t, InProgress),
                                     Posted(CodexPromptBlocked)]
      ensures StatusOf(tasks, c.t) == InProgress || StatusOf(tasks, c.t) == Skipped
    {
      hide At, Accessed, Log, Here;
      hide LoopStep, Writes;
      BlockAccesses(cfg, c);
      BlockMarkAccess(cfg, c);
      BlockEventAccess(cfg, c);
      Pause(Prepare(BlockPause(c)), Prepare(BlockAwait(c)));
      NoteAwaited(c.t, StopQuestion, Prepare(BlockAwait(c)), Prepare(BlockMark(c)));
      MarkTask(c.t, InProgress, QUIET, Prepare(BlockMark(c)), Prepare(BlockEvent(c)));
      PostEvent(CodexPromptBlocked, Prepare(BlockEvent(c)), Returned);
    }

    /** Runs Codex; anything but a clean return pauses the loop and ends the session. */
    method RunCodex(c: Ctx) returns (stop: Option<StopReason>)
      requires At(Codex(CodexEvent(c)))
      modifies this
      ensures At(if stop == None then Validate(ValidateEvent(c, 0)) else Returned)
      ensures iterations == old(iterations) && completed == old(completed)
      ensures old(labels) <= labels && Log() == old(Log()) + CodexLog(c.t, stop)
    {
      hide At, Accessed, Log, Here;
      hide LoopStep, Writes;
      CodexAccesses(cfg, c, StopTimeout);
      PostEvent(Validating, Codex(CodexEvent(c)), Codex(CodexRun(c)));
      var result: CodexResult := *;
      AwaitCodex(c, result);
      match result {
        case TimedOut => stop := Some(StopTimeout);
        case NotFound => stop := Some(StopNotFound);
        case Finished(clarification, rc) =>
          stop := if clarification then Some(StopQuestion) else if rc != 0 then Some(StopReturnCode) else None;
      }
      if stop.Some? { StopSession(c, stop.value); }
    }

    method AwaitCodex(c: Ctx, result: CodexResult)
      requires At(Codex(CodexRun(c)))
      modifies this
      ensures At(AfterCodex(c, result)) && iterations == old(iterations) && completed == old(completed)
      ensures Accessed(old(Here()), Here(), QUIET.(codex := result), old(View()))
      ensures old(labels) <= labels && Log() == old(Log())
    {
      hide Execute, LogOf, LeftByListener, AfterCodex;
      Proceed(QUIET.(codex := result));
    }

    method StopSession(c: Ctx, why: StopReason)
      requires At(Codex(CodexPause(c, why)))
      modifies this
      ensures At(Returned) && iterations == old(iterations) && completed == old(completed)
      ensures old(labels) <= labels && Log() == old(Log()) + StopLog(c.t, why)
    {
      hide At, Accessed, Log, Here;
      hide LoopStep, Writes;
      CodexAccesses(cfg, c, why);
      StopAccesses(cfg, c, why);
      Pause(Codex(CodexPause(c, why)), Codex(CodexAwait(c, why)));
      NoteAwaited(c.t, why, Codex(CodexAwait(c, why)), Codex(CodexStopEvent(c, why)));
      PostEvent(StopKind(why), Codex(CodexStopEvent(c, why)), Returned);
    }

    /** Runs the validator after a clean return of Codex or a resume. */
    method AwaitValidator(c: Ctx, passed: bool)
      requires At(Validate(ValidateRun(c, 0)))
      modifies this
      ensures At(Validate(if passed then DoneMark(c) else FailMark(c)))
      ensures iterations == old(iterations) && completed == old(completed)
      ensures Accessed(old(Here()), Here(), QUIET.(validatorPassed := passed), old(View()))
      ensures old(labels) <= labels && Log() == old(Log()) + [Ran(Validation(c.t, passed, 0))]
    {
      hide Execute, LogOf, LeftByListener;
      Proceed(QUIET.(validatorPassed := passed));
    }

    /** Validates the workspace and persists the task's result. */
    method RunValidation(c: Ctx) returns (passed: bool)
      requires At(Validate(ValidateEvent(c, 0)))
      modifies this
      ensures At(if passed then Validate(DoneEvent(c)) else Select(Top))
      ensures iterations == old(iterations) && completed == old(completed)
      ensures old(labels) <= labels && Log() == old(Log()) + ResultLog(c.t, passed)
      ensures StatusOf(tasks, c.t) == Skipped || StatusOf(tasks, c.t) == if passed then Done else Failed
    {
      hide At, Accessed, Log, Here;
      hide LoopStep, Writes;
      ValidationAccesses(cfg, c);
      FailureAccesses(cfg, c);
      FailedAccesses(cfg, c);
      PostEvent(Validating, Validate(ValidateEvent(c, 0)), Validate(ValidateRun(c, 0)));
      passed := *;
      AwaitValidator(c, passed);
      if passed {
        MarkTask(c.t, Done, QUIET, Validate(DoneMark(c)), Validate(DoneEvent(c)));
      } else {
        MarkTask(c.t, Failed, QUIET, Validate(FailMark(c)), Validate(FailEvent(c)));
        PostEvent(ValidationFailed, Validate(FailEvent(c)), Validate(FailPause(c)));
        Pause(Validate(FailPause(c)), Validate(FailPausedEvent(c)));
        PostEvent(PausedNote, Validate(FailPausedEvent(c)), Select(Top));
      }
    }

    /** Announces a completed task and counts it in automatic mode. */
    method CountDone(c: Ctx) returns (over: bool)
      requires At(Validate(DoneEvent(c)))
      modifies this
      ensures over <==> c.mode == Auto && completed >= SessionLimitOf(cfg)
      ensures At(if over then Validate(LimitPause(c)) else Select(Top)) && iterations == old(iterations)
      ensures completed == old(completed) + (if c.mode == Auto then 1 else 0)
      ensures Accessed(old(Here()), Here(), QUIET, Post(old(View()), ByLoop, TaskDone))
      ensures old(labels) <= labels && Log() == old(Log()) + [Posted(TaskDone)]
    {
      hide Execute, LogOf, LeftByListener;
      events := events + [Event(ByLoop, TaskDone)];
      if c.mode == Auto { completed := completed + 1; }
      over := c.mode == Auto && completed >= SessionLimitOf(cfg);
      Proceed(QUIET);
    }

    /** Counts a completed task and ends the session at the limit. */
    method FinishTask(c: Ctx) returns (over: bool)
      requires At(Validate(DoneEvent(c)))
      modifies this
      ensures At(if over then Returned else Select(Top)) && iterations == old(iterations)
      ensures completed == old(completed) + (if c.mode == Auto then 1 else 0)
      ensures over <==> c.mode == Auto && completed >= SessionLimitOf(cfg)
      ensures old(labels) <= labels && Log() == old(Log()) + FinishLog(over)
    {
      hide At, Accessed, Log, Here;
      hide LoopStep, Writes, SessionLimitOf;
      LimitAccesses(cfg, c);
      over := CountDone(c);
      if over {
        Pause(Validate(LimitPause(c)), Validate(LimitEvent(c)));
        PostEvent(SessionLimit, Validate(LimitEvent(c)), Returned);
      }
    }

    /** The body of the loop once it found work to do; true when the session goes on. */
    method Iterate() returns (goesOn: bool, ghost it: Iteration)
      requires At(Select(ReadStatuses))
      modifies this
      ensures iterations == old(iterations)
      ensures goesOn ==> At(Select(Top))
      ensures !goesOn ==> At(Returned) || At(Raised)
      ensures old(labels) <= labels && Log() == old(Log()) + IterationLog(cfg, it)
      ensures CourseFits(cfg, it.course) && goesOn == CourseGoesOn(it.course)
    {
      hide At, Accessed, Log, Here;
      hide LoopStep, Writes, FirstOpen, Fits, EndingFits, GoesOn, Selects, ChosenLog, ExitLog, PrepareLog, EndingLog;
      PhaseAccesses(cfg, 0);
      var s: Selection;
      ghost var chosen: Option<nat>;
      s, chosen := SelectTask();
      it := Iteration(chosen, NoPhaseFound);
      match s {
        case NoPhases =>
          goesOn := false;
        case NothingLeft =>
          PostEvent(TaskDone, Select(FinishEvent), Returned);
          goesOn, it := false, Iteration(chosen, NothingToDo);
        case PhaseFinished(k) =>
          goesOn := LeavePhase(k);
          it := Iteration(chosen, PhaseExitAsked(k, goesOn));
        case TaskSelected(k, t) =>
          ghost var course;
          goesOn, course := WorkOn(k, t);
          it := Iteration(chosen, course);
      }
    }

    /** The work on one task; the course says what was written and whether the session goes on. */
    method WorkOn(k: nat, t: nat) returns (goesOn: bool, ghost course: Course)
      requires At(Prepare(ReadTaskStatus(k, t)))
      modifies this
      ensures iterations == old(iterations)
      ensures At(if goesOn then Select(Top) else Returned)
      ensures course.TaskWorkedOn? && course.c.k == k && course.c.t == t
      ensures old(labels) <= labels && Log() == old(Log()) + CourseLog(cfg, course)
      ensures CourseFits(cfg, course) && goesOn == CourseGoesOn(course)
    {
      hide At, Accessed, Log, Here;
      hide PrepareLog, EndingLog, StatusOf;
      var c, o := PrepareTask(k, t);
      if o == Refused || o == PromptShown || o == PromptBlocked {
        EndingEmpty(c);
        return o != PromptBlocked, TaskWorkedOn(c, o, NotStarted);
      }
      ghost var e;
      goesOn, e := Conclude(c, o == HandedToCodex);
      course := TaskWorkedOn(c, o, e);
    }

    /** From a prepared task to its result: Codex unless the task was resumed, then the validator. */
    method Conclude(c: Ctx, codex: bool) returns (goesOn: bool, ghost e: Ending)
      requires At(if codex then Codex(CodexEvent(c)) else Validate(ValidateEvent(c, 0))) && codex == !c.resume
      modifies this
      ensures iterations == old(iterations)
      ensures At(if goesOn then Select(Top) else Returned)
      ensures !e.NotStarted? && (e.Stopped? ==> codex) && goesOn == GoesOn(HandedToCodex, e)
      ensures old(labels) <= labels && Log() == old(Log()) + EndingLog(c, e)
    {
      hide At, Accessed, Log, Here;
      hide CodexLog, ResultLog, FinishLog, StatusOf, SessionLimitOf;
      if codex {
        var stop := RunCodex(c);
        if stop.Some? { return false, Stopped(stop.value); }
      }
      ghost var before := if codex then CodexLog(c.t, None) else [];
      assert Log() == old(Log()) + before;
      var passed := RunValidation(c);
      Joined(old(Log()), before, ResultLog(c.t, passed));
      if !passed { return true, FailedValidation; }
      var over := FinishTask(c);
      Joined(old(Log()), before + ResultLog(c.t, true), FinishLog(over));
      return !over, Completed(over);
    }

    /** The top of a pass: the iteration cap, then the pause flag, then one more iteration. */
    method BeginPass(maxIterations: Option<nat>) returns (capped: bool, waiting: bool)
      requires At(Select(Top))
      modifies this
      ensures capped <==> maxIterations.Some? && old(iterations) >= maxIterations.value
      ensures waiting <==> !capped && old(paused)
      ensures At(if capped then Returned else if waiting then Select(Top) else Select(ReadStatuses))
      ensures iterations == if capped || waiting then old(iterations) else old(iterations) + 1
      ensures completed == old(completed) && old(labels) <= labels && Log() == old(Log())
      ensures Accessed(old(Here()), Here(), QUIET.(iterationCap := maxIterations), old(View()))
    {
      hide Execute, LogOf, LeftByListener;
      capped := maxIterations.Some? && iterations >= maxIterations.value;
      waiting := !capped && paused;
      if !capped && !waiting { iterations := iterations + 1; }
      Proceed(QUIET.(iterationCap := maxIterations));
    }

    method StartRun()
      requires At(Select(Start))
      modifies this
      ensures At(Select(Top)) && iterations == 0 && completed == 0
      ensures Accessed(old(Here()), Here(), QUIET, Post(old(View()), ByLoop, RunStarted))
      ensures old(labels) <= labels && Log() == old(Log()) + [Posted(RunStarted)]
      ensures old(events) + [Event(ByLoop, RunStarted)] <= events
    {
      hide Execute, LogOf, SkipsOnly;
      events, iterations, completed := events + [Event(ByLoop, RunStarted)], 0, 0;
      Proceed(QUIET);
    }

    /** What holds whenever the loop is between two iterations or over. */
    lemma BetweenIterations()
      requires At(Select(Top)) || At(Returned) || At(Raised)
      ensures Valid() && AutoDone(cfg, begin, labels) == completed <= SessionLimitOf(cfg)
      ensures !At(Raised) && iterations > 0 && !ListenerStarted(events, Now().mark) ==> !OperatorInFlight(events)
    {
      hide Execute, OneProcess, AutoDone, SessionLimitOf, OperatorInFlight, ListenerStarted;
      OneProcessEnds(labels);
      SessionLimitHolds(cfg, begin, labels);
      IterationsEndSettled(cfg, begin.db, labels);
    }

    /** The loop, for any number of passes. Its writes are those of whole iterations, as many as it
        counted; it closes at most the configured number of tasks automatically; and when it is
        between two iterations or over, work is in flight only by the listener's doing. */
    method RunLoop(maxIterations: Option<nat>, passes: nat) returns (over: bool, ghost its: seq<Iteration>)
      requires At(Select(Start))
      modifies this
      ensures Valid() && old(labels) <= labels
      ensures !over ==> At(Select(Top))
      ensures over ==> At(Returned) || At(Raised)
      ensures maxIterations.Some? ==> iterations <= maxIterations.value
      ensures Log() == old(Log()) + [Posted(RunStarted)] + SessionLog(cfg, its)
      ensures |its| == iterations && SessionFits(cfg, its, !over)
      ensures over && (its == [] || CourseGoesOn(its[|its| - 1].course)) ==> maxIterations == Some(iterations)
      ensures AutoDone(cfg, begin, labels) == completed <= SessionLimitOf(cfg)
      ensures !At(Raised) && iterations > 0 && !ListenerStarted(events, Now().mark) ==> !OperatorInFlight(events)
    {
      hide At, Accessed, Log, Here, Now;
      hide SessionLog, IterationLog, CourseFits, CourseGoesOn, AutoDone, SessionLimitOf, OperatorInFlight;
      StartRun();
      its := [];
      over := false;
      ghost var started := Log();
      SessionEmpty(cfg);
      for pass := 0 to passes
        invariant At(Select(Top)) && old(labels) <= labels
        invariant maxIterations.Some? ==> iterations <= maxIterations.value
        invariant Log() == started + SessionLog(cfg, its) && |its| == iterations && SessionFits(cfg, its, true)
      {
        var capped, waiting := BeginPass(maxIterations);
        if capped { over := true; break; }
        if !waiting {
          var goesOn;
          ghost var it;
          goesOn, it := Iterate();
          SessionSnoc(cfg, its, it);
          its := its + [it];
          if !goesOn { over := true; break; }
        }
      }
      BetweenIterations();
    }

    /** The claims about every run, read off the tables this program leaves behind. */
    method RunFromFresh(ghost seeded: set<nat>, maxIterations: Option<nat>, passes: nat)
      requires WellFormed(cfg) && At(Select(Start)) && labels == [] && begin == Boot(View())
      requires FreshStore(View(), seeded)
      modifies this
      ensures Valid()
      ensures forall t :: StatusOf(tasks, t) == Done && t !in seeded ==> Validation(t, true, 0) in Now().validations
      ensures forall t :: t in cfg.risky && StatusOf(tasks, t) in {InProgress, Failed} ==>
                OperatorApproved(approvals, cfg.names.riskRef(t))
      ensures forall t :: t in cfg.risky && StatusOf(tasks, t) == Done && t !in seeded ==>
                OperatorApproved(approvals, cfg.names.riskRef(t))
      ensures EarlierPhasesClosed(cfg, ViewOf(Now()))
      ensures ViewOf(Now()).tasks == tasks && ViewOf(Now()).phase == currentPhase
      ensures iterations <= |OpenTasks(cfg, old(tasks))| + PhasesLeft(cfg, old(currentPhase))
                            + (if old(paused) then 0 else 1) + Now().resumes
      ensures completed <= SessionLimitOf(cfg)
      ensures !At(Raised) && iterations > 0 && !ListenerStarted(events, Now().mark) ==> !OperatorInFlight(events)
      ensures Holds(begin, Log(), Now())
      ensures old(events) == [] && !SomeFailed(old(tasks)) ==>
                CountKind(events, MediumReviewRunning) == CountKind(events, MediumReviewDone) + running + found + silent
    {
      hide Execute, LogOf, SessionLog, OneProcess;
      BootIsSafe(cfg, seeded, View());
      var over;
      ghost var its;
      over, its := RunLoop(maxIterations, passes);
      AlwaysSafe(cfg, seeded, begin, labels);
      OneProcessEnds(labels);
      IterationsAreBounded(cfg, seeded, begin, labels);
      LogIsInTheTables(cfg, begin, labels);
      if old(events) == [] && !SomeFailed(old(tasks)) {
        StartedDiagnosesClose(cfg, begin.db, labels, Restart);
      }
    }
  }
}
