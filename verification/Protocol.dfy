/** The run loop and the operator's listener as one machine over a shared store.

    Every database access of the loop is a step of its own, and every statement the
    listener commits may fall between any two of them, so a sequence of labels is one
    interleaving of the two processes. */
module Protocol {
  import opened Text
  import opened PhaseNames

  // ----- the shared store

  datatype Status = Pending | InProgress | Failed | Done | Skipped

  predicate Closed(s: Status) {
    s == Done || s == Skipped
  }

  datatype GateType = PhaseTransition | RiskyGate

  datatype Decision = Undecided | Approved | Rejected

  /** `gate` is the gate type the loop writes; the operator's own rows leave it null. */
  datatype Approval = Approval(gate: Option<GateType>, ref: string, decision: Decision)

  datatype Author = ByLoop | ByListener

  datatype EventKind =
    | RunStarted
    | ResumeReceived
    | Validating
    | MediumReviewRunning
    | CodexFailure
    | CodexPromptBlocked
    | CodexQuestion
    | CodexTimeout
    | PromptReady
    | ValidationFailed
    | MediumReviewDone
    | PausedNote
    | SessionLimit
    | TaskDone
    | ApprovalRequired
    | Advisory

  datatype Event = Event(author: Author, kind: EventKind)

  /** The tables both processes share; the settings table is one field per key. */
  datatype Db = Db(
    tasks: map<nat, Status>,
    currentPhase: string,
    paused: bool,
    currentTask: Option<nat>,
    awaitingClarification: Option<nat>,
    awaitingReview: Option<nat>,
    approvals: seq<Approval>,
    events: seq<Event>)

  /** A task without a row counts as pending. */
  function StatusOf(tasks: map<nat, Status>, t: nat): Status {
    if t in tasks then tasks[t] else Pending
  }

  predicate Open(tasks: map<nat, Status>, t: nat) {
    !Closed(StatusOf(tasks, t))
  }

  function Mark(db: Db, t: nat, s: Status): Db {
    db.(tasks := db.tasks[t := s])
  }

  function Post(db: Db, author: Author, kind: EventKind): Db {
    db.(events := db.events + [Event(author, kind)])
  }

  function Insert(db: Db, row: Approval): Db {
    db.(approvals := db.approvals + [row])
  }

  /** The decision of the newest decided row for a reference: true when it approves. */
  function LatestDecision(rows: seq<Approval>, ref: string): Option<bool> {
    if rows == [] then None
    else
      var last := rows[|rows| - 1];
      if last.ref == ref && !last.decision.Undecided? then Some(last.decision.Approved?)
      else LatestDecision(rows[..|rows| - 1], ref)
  }

  // ----- which event types say that work is under way

  predicate InFlightKind(k: EventKind) {
    k == ResumeReceived || k == Validating || k == MediumReviewRunning
  }

  predicate TerminalKind(k: EventKind) {
    || k == CodexFailure || k == CodexPromptBlocked || k == CodexQuestion || k == CodexTimeout
    || k == PromptReady || k == ValidationFailed || k == MediumReviewDone || k == PausedNote
    || k == SessionLimit || k == TaskDone || k == ApprovalRequired
  }

  predicate Relevant(k: EventKind) {
    InFlightKind(k) || TerminalKind(k)
  }

  /** The newest event that is in flight or terminal decides. */
  predicate OperatorInFlight(events: seq<Event>) {
    if events == [] then false
    else
      var last := events[|events| - 1].kind;
      if Relevant(last) then InFlightKind(last) else OperatorInFlight(events[..|events| - 1])
  }

  // ----- selecting a phase and a task

  /** The text conventions of the store: phase labels and how they are read back, the word
      for a finished run, and the approval references. */
  datatype Naming = Naming(
    display: Phase -> string,
    resolve: (seq<Phase>, string) -> Option<nat>,
    complete: string,
    isComplete: string -> bool,
    exitRef: nat -> string,
    riskRef: nat -> string)

  datatype Config = Config(phases: seq<Phase>, risky: set<nat>, maxAutoTasks: int, names: Naming)

  function Resolve(cfg: Config, setting: string): Option<nat> {
    cfg.names.resolve(cfg.phases, setting)
  }

  /** A stored label is read back as the phase it was written for, and the word for a
      finished run as no phase at all. */
  ghost predicate ReadsBack(cfg: Config) {
    && (forall k :: 0 <= k < |cfg.phases| ==>
          && Resolve(cfg, cfg.names.display(cfg.phases[k])) == Some(k)
          && !cfg.names.isComplete(cfg.names.display(cfg.phases[k])))
    && (forall s :: Resolve(cfg, s).Some? ==> Resolve(cfg, s).value < |cfg.phases|)
    && Resolve(cfg, cfg.names.complete).None? && cfg.names.isComplete(cfg.names.complete)
    && Resolve(cfg, "").None? && !cfg.names.isComplete("")
  }

  /** Stored phases read back, and no task is mapped to two phases. */
  ghost predicate WellFormed(cfg: Config) {
    && ReadsBack(cfg)
    && forall i, j, t :: 0 <= i < j < |cfg.phases| && t in cfg.phases[i].tasks ==> t !in cfg.phases[j].tasks
  }

  /** The conventions of this repository. */
  const REPOSITORY: Naming :=
    Naming(DisplayName, PhaseFromSetting, COMPLETE, IsComplete, PhaseRef, RiskRef)

  /** They read back whenever the phase map numbers its phases distinctly. */
  lemma RepositoryReadsBack(cfg: Config)
    requires cfg.names == REPOSITORY && DistinctNumbers(cfg.phases)
    ensures ReadsBack(cfg)
  {
    hide DisplayName, IsComplete, PhaseFromSetting;
    forall k | 0 <= k < |cfg.phases|
      ensures PhaseFromSetting(cfg.phases, DisplayName(cfg.phases[k])) == Some(k)
      ensures !IsComplete(DisplayName(cfg.phases[k]))
    {
      SettingRoundTrip(cfg.phases, k);
    }
    SpecialSettings(cfg.phases);
  }

  /** The first task of a list that is still open. */
  function FirstOpen(tasks: map<nat, Status>, ids: seq<nat>): (r: Option<nat>)
    ensures r.Some? ==> r.value in ids && Open(tasks, r.value)
    ensures r.Some? ==>
      exists i :: 0 <= i < |ids| && ids[i] == r.value && forall j :: 0 <= j < i ==> !Open(tasks, ids[j])
    ensures r.None? ==> forall t :: t in ids ==> !Open(tasks, t)
  {
    if ids == [] then None
    else if Open(tasks, ids[0]) then Some(ids[0])
    else
      var r := FirstOpen(tasks, ids[1..]);
      assert r.Some? ==>
        exists i :: 0 <= i < |ids| && ids[i] == r.value && forall j :: 0 <= j < i ==> !Open(tasks, ids[j])
      by {
        if r.Some? { FirstOpenLater(tasks, ids, r.value); }
      }
      r
  }

  lemma FirstOpenLater(tasks: map<nat, Status>, ids: seq<nat>, t: nat)
    requires ids != [] && !Open(tasks, ids[0])
    requires exists i :: 0 <= i < |ids[1..]| && ids[1..][i] == t && forall j :: 0 <= j < i ==> !Open(tasks, ids[1..][j])
    ensures exists i :: 0 <= i < |ids| && ids[i] == t && forall j :: 0 <= j < i ==> !Open(tasks, ids[j])
  {
    var i :| 0 <= i < |ids[1..]| && ids[1..][i] == t && forall j :: 0 <= j < i ==> !Open(tasks, ids[1..][j]);
    var at := i + 1;
    forall j | 0 <= j < at ensures !Open(tasks, ids[j]) {
      if j > 0 { assert ids[1..][j - 1] == ids[j]; }
    }
    assert ids[at] == t;
  }

  /** The first phase from index `i` on with an open task, or the last phase. */
  function FirstOpenPhase(phases: seq<Phase>, tasks: map<nat, Status>, i: nat): (k: nat)
    requires i <= |phases| && phases != []
    ensures k < |phases|
    ensures forall j, t :: i <= j < k && t in phases[j].tasks ==> !Open(tasks, t)
    ensures k + 1 == |phases| || exists t :: t in phases[k].tasks && Open(tasks, t)
    decreases |phases| - i
  {
    if i == |phases| then |phases| - 1
    else if FirstOpen(tasks, phases[i].tasks).Some? then i
    else FirstOpenPhase(phases, tasks, i + 1)
  }

  /** The first phase with an open task, or the last one; the first when no status is stored. */
  function FindCurrentPhase(phases: seq<Phase>, tasks: map<nat, Status>): (k: nat)
    requires phases != []
    ensures k < |phases| && (tasks == map[] ==> k == 0)
    ensures tasks == map[] || k + 1 == |phases| || exists t :: t in phases[k].tasks && Open(tasks, t)
    ensures forall j, t :: 0 <= j < k && t in phases[j].tasks ==> !Open(tasks, t)
  {
    if tasks == map[] then 0 else FirstOpenPhase(phases, tasks, 0)
  }

  /** At least one, and at least what is configured. */
  function SessionLimitOf(cfg: Config): (limit: nat)
    ensures limit >= 1 && limit >= cfg.maxAutoTasks && (limit == 1 || limit == cfg.maxAutoTasks)
  {
    if cfg.maxAutoTasks < 1 then 1 else cfg.maxAutoTasks
  }

  // ----- the loop's program points

  datatype Mode = Manual | Auto

  /** The phase index, the active task and how this iteration treats it. */
  datatype Ctx = Ctx(k: nat, t: nat, mode: Mode, resume: bool)

  datatype Gate = PhaseExit(phase: nat) | RiskyTask(ctx: Ctx)

  datatype StopReason = StopTimeout | StopNotFound | StopQuestion | StopReturnCode

  /** Up to the selection of a phase and a task. */
  datatype SelectPoint =
    | Start
    | Top
    | ReadStatuses
    | ReadPhase(snap: map<nat, Status>)
    | WritePhase(snap: map<nat, Status>, phase: nat)
    | FinishEvent

  /** Inside an approval gate, and crossing or refusing a phase exit. */
  datatype GatePoint =
    | GateInsert(gate: Gate)
    | GateEvent(gate: Gate)
    | GatePoll(gate: Gate)
    | GateSleep(gate: Gate)
    | GateRecord(gate: Gate, approved: bool)
    | PhaseAdvance(phase: nat)
    | PhasePause(phase: nat)
    | PhasePausedEvent(phase: nat)

  /** From the active task to a prompt that is ready, blocked or handed to Codex. */
  datatype PreparePoint =
    | ReadTaskStatus(k: nat, t: nat)
    | WriteCurrentTask(c: Ctx)
    | ResumeEvent(c: Ctx)
    | RiskSkip(c: Ctx)
    | RiskSkipEvent(c: Ctx)
    | MarkInProgress(c: Ctx)
    | PromptEvent(c: Ctx)
    | PromptPause(c: Ctx)
    | PromptPausedEvent(c: Ctx)
    | BlockPause(c: Ctx)
    | BlockAwait(c: Ctx)
    | BlockMark(c: Ctx)
    | BlockEvent(c: Ctx)

  /** Running Codex, and stopping the session when it does not return cleanly. */
  datatype CodexPoint =
    | CodexEvent(c: Ctx)
    | CodexRun(c: Ctx)
    | CodexPause(c: Ctx, why: StopReason)
    | CodexAwait(c: Ctx, why: StopReason)
    | CodexStopEvent(c: Ctx, why: StopReason)

  /** Validation, and closing the task or pausing the loop. */
  datatype ValidatePoint =
    | ValidateEvent(c: Ctx, rc: int)
    | ValidateRun(c: Ctx, rc: int)
    | FailMark(c: Ctx)
    | FailEvent(c: Ctx)
    | FailPause(c: Ctx)
    | FailPausedEvent(c: Ctx)
    | DoneMark(c: Ctx)
    | DoneEvent(c: Ctx)
    | LimitPause(c: Ctx)
    | LimitEvent(c: Ctx)

  datatype Pc =
    | Select(s: SelectPoint)
    | AtGate(g: GatePoint)
    | Prepare(p: PreparePoint)
    | Codex(x: CodexPoint)
    | Validate(v: ValidatePoint)
    | Returned
    | Raised

  /** What one validation run reported. */
  datatype Validation = Validation(task: nat, passed: bool, rc: int)

  /** The store, the loop's program point and local counters, the listener's diagnosis
      threads by stage, and the history the claims are about: validation results,
      resumes, automatic completions, and diagnoses that ended without an event. */
  datatype Machine = Machine(
    db: Db,
    pc: Pc,
    iterations: nat,
    completed: nat,
    diagIdle: nat,
    diagChecked: nat,
    diagRunning: nat,
    diagFound: nat,
    diagSilent: nat,
    validations: seq<Validation>,
    resumes: nat,
    mark: nat)

  // ----- the loop's steps

  datatype CodexResult = TimedOut | NotFound | Finished(clarification: bool, rc: int)

  /** What the outside world answers at one step; each step reads the part it needs. */
  datatype Input = Input(
    mode: Mode,
    deadlinePassed: bool,
    lintClean: bool,
    codex: CodexResult,
    validatorPassed: bool,
    iterationCap: Option<nat>)

  function GateRef(cfg: Config, g: Gate): string {
    match g
    case PhaseExit(k) => if k < |cfg.phases| then cfg.names.exitRef(cfg.phases[k].number) else ""
    case RiskyTask(c) => cfg.names.riskRef(c.t)
  }

  function TypeOf(g: Gate): GateType {
    if g.PhaseExit? then PhaseTransition else RiskyGate
  }

  function Verdict(approved: bool): Decision {
    if approved then Approved else Rejected
  }

  function AfterGate(g: Gate, approved: bool): Pc {
    match g
    case PhaseExit(k) => if approved then AtGate(PhaseAdvance(k)) else AtGate(PhasePause(k))
    case RiskyTask(c) => if approved then Prepare(MarkInProgress(c)) else Prepare(RiskSkip(c))
  }

  /** Where the iteration goes once phase `k` is selected, given the statuses it read. */
  function Dispatch(cfg: Config, snap: map<nat, Status>, k: nat): Pc
    requires k < |cfg.phases|
  {
    var active := FirstOpen(snap, cfg.phases[k].tasks);
    if active.Some? then Prepare(ReadTaskStatus(k, active.value))
    else if cfg.phases[k].tasks == [] then Select(FinishEvent)
    else AtGate(GateInsert(PhaseExit(k)))
  }

  function AfterCodex(c: Ctx, r: CodexResult): Pc {
    match r
    case TimedOut => Codex(CodexPause(c, StopTimeout))
    case NotFound => Codex(CodexPause(c, StopNotFound))
    case Finished(clarification, rc) =>
      if clarification then Codex(CodexPause(c, StopQuestion))
      else if rc != 0 then Codex(CodexPause(c, StopReturnCode))
      else Validate(ValidateEvent(c, rc))
  }

  function StopKind(why: StopReason): EventKind {
    match why
    case StopTimeout => CodexTimeout
    case StopQuestion => CodexQuestion
    case StopNotFound => CodexFailure
    case StopReturnCode => CodexFailure
  }

  function Await(db: Db, t: nat, why: StopReason): Db {
    if why == StopQuestion then db.(awaitingClarification := Some(t)) else db.(awaitingReview := Some(t))
  }

  /** From the top of an iteration to the phase and the active task. */
  function SelectStep(cfg: Config, m: Machine, at: SelectPoint, i: Input): Machine {
    match at
    case Start => m.(db := Post(m.db, ByLoop, RunStarted), pc := Select(Top), iterations := 0, completed := 0)
    case Top =>
      if i.iterationCap.Some? && m.iterations >= i.iterationCap.value then m.(pc := Returned)
      else if m.db.paused then m
      else m.(pc := Select(ReadStatuses), iterations := m.iterations + 1, mark := |m.db.events|)
    case ReadStatuses => m.(pc := Select(ReadPhase(m.db.tasks)))
    case ReadPhase(snap) =>
      var found := Resolve(cfg, m.db.currentPhase);
      if cfg.names.isComplete(m.db.currentPhase) then m.(pc := Select(FinishEvent))
      else if found.Some? && found.value < |cfg.phases| then m.(pc := Dispatch(cfg, snap, found.value))
      else if cfg.phases == [] then m.(pc := Raised)
      else m.(pc := Select(WritePhase(snap, FindCurrentPhase(cfg.phases, snap))))
    case WritePhase(snap, k) =>
      if k < |cfg.phases| then
        m.(db := m.db.(currentPhase := cfg.names.display(cfg.phases[k])), pc := Dispatch(cfg, snap, k))
      else m
    case FinishEvent => m.(db := Post(m.db, ByLoop, TaskDone), pc := Returned)
  }

  /** The approval gates and the crossing from one phase to the next. */
  function GateStep(cfg: Config, m: Machine, at: GatePoint, i: Input): Machine {
    match at
    case GateInsert(g) =>
      m.(db := Insert(m.db, Approval(Some(TypeOf(g)), GateRef(cfg, g), Undecided)), pc := AtGate(GateEvent(g)))
    case GateEvent(g) => m.(db := Post(m.db, ByLoop, ApprovalRequired), pc := AtGate(GatePoll(g)))
    case GatePoll(g) =>
      var latest := LatestDecision(m.db.approvals, GateRef(cfg, g));
      m.(pc := if latest.Some? then AtGate(GateRecord(g, latest.value)) else AtGate(GateSleep(g)))
    case GateSleep(g) => m.(pc := if i.deadlinePassed then AtGate(GateRecord(g, false)) else AtGate(GatePoll(g)))
    case GateRecord(g, approved) =>
      m.(db := Insert(m.db, Approval(Some(TypeOf(g)), GateRef(cfg, g), Verdict(approved))), pc := AfterGate(g, approved))
    case PhaseAdvance(k) =>
      var next := if k + 1 < |cfg.phases| then cfg.names.display(cfg.phases[k + 1]) else cfg.names.complete;
      m.(db := m.db.(currentPhase := next), pc := Select(Top))
    case PhasePause(k) => m.(db := m.db.(paused := true), pc := AtGate(PhasePausedEvent(k)))
    case PhasePausedEvent(k) => m.(db := Post(m.db, ByLoop, PausedNote), pc := Returned)
  }

  /** From the active task to a prompt that is ready, blocked or handed to Codex. */
  function PrepareStep(cfg: Config, m: Machine, at: PreparePoint, i: Input): Machine {
    match at
    case ReadTaskStatus(k, t) =>
      var s := StatusOf(m.db.tasks, t);
      m.(pc := Prepare(WriteCurrentTask(Ctx(k, t, i.mode, i.mode == Manual && (s == InProgress || s == Failed)))))
    case WriteCurrentTask(c) =>
      m.(db := m.db.(currentTask := Some(c.t)),
         pc := if c.resume then Prepare(ResumeEvent(c))
               else if c.t in cfg.risky then AtGate(GateInsert(RiskyTask(c)))
               else Prepare(MarkInProgress(c)))
    case ResumeEvent(c) => m.(db := Post(m.db, ByLoop, ResumeReceived), pc := Validate(ValidateEvent(c, 0)))
    case RiskSkip(c) => m.(db := Mark(m.db, c.t, Skipped), pc := Prepare(RiskSkipEvent(c)))
    case RiskSkipEvent(c) => m.(db := Post(m.db, ByLoop, PausedNote), pc := Select(Top))
    case MarkInProgress(c) =>
      m.(db := Mark(m.db, c.t, InProgress),
         pc := if c.mode == Manual then Prepare(PromptEvent(c))
               else if i.lintClean then Codex(CodexEvent(c))
               else Prepare(BlockPause(c)))
    case PromptEvent(c) => m.(db := Post(m.db, ByLoop, PromptReady), pc := Prepare(PromptPause(c)))
    case PromptPause(c) => m.(db := m.db.(paused := true), pc := Prepare(PromptPausedEvent(c)))
    case PromptPausedEvent(c) => m.(db := Post(m.db, ByLoop, PausedNote), pc := Select(Top))
    case BlockPause(c) => m.(db := m.db.(paused := true), pc := Prepare(BlockAwait(c)))
    case BlockAwait(c) => m.(db := m.db.(awaitingClarification := Some(c.t)), pc := Prepare(BlockMark(c)))
    case BlockMark(c) => m.(db := Mark(m.db, c.t, InProgress), pc := Prepare(BlockEvent(c)))
    case BlockEvent(c) => m.(db := Post(m.db, ByLoop, CodexPromptBlocked), pc := Returned)
  }

  /** Running Codex, and stopping the session when it does not return cleanly. */
  function CodexStep(m: Machine, at: CodexPoint, i: Input): Machine {
    match at
    case CodexEvent(c) => m.(db := Post(m.db, ByLoop, Validating), pc := Codex(CodexRun(c)))
    case CodexRun(c) => m.(pc := AfterCodex(c, i.codex))
    case CodexPause(c, why) => m.(db := m.db.(paused := true), pc := Codex(CodexAwait(c, why)))
    case CodexAwait(c, why) => m.(db := Await(m.db, c.t, why), pc := Codex(CodexStopEvent(c, why)))
    case CodexStopEvent(c, why) => m.(db := Post(m.db, ByLoop, StopKind(why)), pc := Returned)
  }

  /** Validation, and closing the task or pausing the loop. */
  function ValidateStep(cfg: Config, m: Machine, at: ValidatePoint, i: Input): Machine {
    match at
    case ValidateEvent(c, rc) => m.(db := Post(m.db, ByLoop, Validating), pc := Validate(ValidateRun(c, rc)))
    case ValidateRun(c, rc) =>
      var passed := i.validatorPassed && rc == 0;
      m.(validations := m.validations + [Validation(c.t, i.validatorPassed, rc)],
         pc := if passed then Validate(DoneMark(c)) else Validate(FailMark(c)))
    case FailMark(c) => m.(db := Mark(m.db, c.t, Failed), pc := Validate(FailEvent(c)))
    case FailEvent(c) => m.(db := Post(m.db, ByLoop, ValidationFailed), pc := Validate(FailPause(c)))
    case FailPause(c) => m.(db := m.db.(paused := true), pc := Validate(FailPausedEvent(c)))
    case FailPausedEvent(c) => m.(db := Post(m.db, ByLoop, PausedNote), pc := Select(Top))
    case DoneMark(c) => m.(db := Mark(m.db, c.t, Done), pc := Validate(DoneEvent(c)))
    case DoneEvent(c) =>
      var completed := if c.mode == Auto then m.completed + 1 else m.completed;
      m.(db := Post(m.db, ByLoop, TaskDone), completed := completed,
         pc := if c.mode == Auto && completed >= SessionLimitOf(cfg) then Validate(LimitPause(c)) else Select(Top))
    case LimitPause(c) => m.(db := m.db.(paused := true), pc := Validate(LimitEvent(c)))
    case LimitEvent(c) => m.(db := Post(m.db, ByLoop, SessionLimit), pc := Returned)
  }

  /** The loop's next database access from its current program point. */
  function LoopStep(cfg: Config, m: Machine, i: Input): Machine {
    match m.pc
    case Select(s) => SelectStep(cfg, m, s, i)
    case AtGate(g) => GateStep(cfg, m, g, i)
    case Prepare(p) => PrepareStep(cfg, m, p, i)
    case Codex(x) => CodexStep(m, x, i)
    case Validate(v) => ValidateStep(cfg, m, v, i)
    case Returned => m
    case Raised => m
  }

  // ----- the listener's steps

  /** One committed statement of some listener thread. Any command handler, in any
      interleaving with other handlers, commits a sequence of these. */
  datatype ListenerOp =
    | InsertDecision(ref: string, approved: bool)
    | WritePaused(value: bool)
    | PostNote(kind: EventKind)
    | WriteSkipped(task: nat)
    | ClearClarification
    | ClearReview
    | DiagnoseIdle
    | DiagnoseCheck
    | DiagnoseStart
    | DiagnoseRead
    | DiagnoseFinish

  /** The row the operator card shows is a failed task exactly when some task failed
      and none is in progress. */
  predicate ActiveRowFailed(tasks: map<nat, Status>) {
    (exists t :: t in tasks && tasks[t] == Failed) && !(exists t :: t in tasks && tasks[t] == InProgress)
  }

  predicate HasFailureEvent(events: seq<Event>) {
    exists i :: 0 <= i < |events| && events[i].kind == ValidationFailed
  }

  function ListenerStep(m: Machine, op: ListenerOp): Machine {
    match op
    case InsertDecision(ref, approved) =>
      m.(db := Insert(m.db, Approval(None, ref, Verdict(approved))))
    case WritePaused(value) =>
      m.(db := m.db.(paused := value), resumes := if value then m.resumes else m.resumes + 1)
    case PostNote(kind) =>
      if kind == PausedNote || kind == ResumeReceived || kind == Advisory
      then m.(db := Post(m.db, ByListener, kind)) else m
    case WriteSkipped(t) => m.(db := Mark(m.db, t, Skipped))
    case ClearClarification => m.(db := m.db.(awaitingClarification := None))
    case ClearReview => m.(db := m.db.(awaitingReview := None))
    case DiagnoseIdle => if OperatorInFlight(m.db.events) then m else m.(diagIdle := m.diagIdle + 1)
    case DiagnoseCheck =>
      if m.diagIdle == 0 then m
      else if ActiveRowFailed(m.db.tasks)
      then m.(diagIdle := m.diagIdle - 1, diagChecked := m.diagChecked + 1)
      else m.(diagIdle := m.diagIdle - 1)
    case DiagnoseStart =>
      if m.diagChecked > 0
      then m.(db := Post(m.db, ByListener, MediumReviewRunning),
              diagChecked := m.diagChecked - 1, diagRunning := m.diagRunning + 1)
      else m
    case DiagnoseRead =>
      if m.diagRunning == 0 then m
      else if HasFailureEvent(m.db.events)
      then m.(diagRunning := m.diagRunning - 1, diagFound := m.diagFound + 1)
      else m.(diagRunning := m.diagRunning - 1, diagSilent := m.diagSilent + 1)
    case DiagnoseFinish =>
      if m.diagFound > 0
      then m.(db := Post(m.db, ByListener, MediumReviewDone), diagFound := m.diagFound - 1)
      else m
  }

  // ----- runs

  /** `Restart` starts a new session after a return; `Crash` ends the loop process anywhere. */
  datatype Label = Loop(input: Input) | Listener(op: ListenerOp) | Restart | Crash

  function Step(cfg: Config, m: Machine, l: Label): Machine {
    match l
    case Loop(i) => LoopStep(cfg, m, i)
    case Listener(op) => ListenerStep(m, op)
    case Restart => if m.pc == Returned || m.pc == Raised then m.(pc := Select(Start)) else m
    case Crash => m.(pc := Raised)
  }

  /** The machine after a sequence of labels: one interleaving of the two processes. */
  function Execute(cfg: Config, m: Machine, labels: seq<Label>): Machine {
    if labels == [] then m
    else Step(cfg, Execute(cfg, m, labels[..|labels| - 1]), labels[|labels| - 1])
  }

  lemma ExecuteSnoc(cfg: Config, m: Machine, labels: seq<Label>, l: Label)
    ensures Execute(cfg, m, labels + [l]) == Step(cfg, Execute(cfg, m, labels), l)
  {
    assert (labels + [l])[..|labels|] == labels;
  }

  /** A run of one run after another is the run of both. */
  lemma {:induction false} ExecuteConcat(cfg: Config, m: Machine, a: seq<Label>, b: seq<Label>)
    ensures Execute(cfg, m, a + b) == Execute(cfg, Execute(cfg, m, a), b)
  {
    if b == [] {
      assert a + b == a;
    } else {
      var front, l := b[..|b| - 1], b[|b| - 1];
      assert (a + b)[..|a + b| - 1] == a + front;
      ExecuteConcat(cfg, m, a, front);
    }
  }

  /** Before any session has run: no loop process, no diagnosis thread, no history. */
  function Boot(db: Db): Machine {
    Machine(db, Select(Start), 0, 0, 0, 0, 0, 0, 0, [], 0, 0)
  }
}
