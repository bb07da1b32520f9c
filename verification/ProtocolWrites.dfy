/** The loop's writes. Each program point writes one thing at most; the log of a run is the list of
    what its loop steps wrote, in order, and the tables hold it. */
module ProtocolWrites {
  import opened Text
  import opened Protocol
  import opened ProtocolSafety

  /** What one access of the loop writes; a validation result goes to the history, not to a table. */
  datatype Write =
    | Posted(kind: EventKind)
    | Inserted(row: Approval)
    | Marked(task: nat, status: Status)
    | PauseSet
    | PhaseSet(phase: string)
    | TaskSet(task: nat)
    | AwaitSet(task: nat, why: StopReason)
    | Ran(result: Validation)

  function Apply(m: Machine, w: Write): Machine {
    match w
    case Posted(kind) => m.(db := Post(m.db, ByLoop, kind))
    case Inserted(row) => m.(db := Insert(m.db, row))
    case Marked(t, s) => m.(db := Mark(m.db, t, s))
    case PauseSet => m.(db := m.db.(paused := true))
    case PhaseSet(phase) => m.(db := m.db.(currentPhase := phase))
    case TaskSet(t) => m.(db := m.db.(currentTask := Some(t)))
    case AwaitSet(t, why) => m.(db := Await(m.db, t, why))
    case Ran(result) => m.(validations := m.validations + [result])
  }

  function RowOf(cfg: Config, g: Gate, decision: Decision): Approval {
    Approval(Some(TypeOf(g)), GateRef(cfg, g), decision)
  }

  function SelectWrite(cfg: Config, s: SelectPoint): seq<Write> {
    match s
    case Start => [Posted(RunStarted)]
    case WritePhase(_, k) => if k < |cfg.phases| then [PhaseSet(cfg.names.display(cfg.phases[k]))] else []
    case FinishEvent => [Posted(TaskDone)]
    case _ => []
  }

  function GateWrite(cfg: Config, g: GatePoint): seq<Write> {
    match g
    case GateInsert(g) => [Inserted(RowOf(cfg, g, Undecided))]
    case GateEvent(_) => [Posted(ApprovalRequired)]
    case GatePoll(_) => []
    case GateSleep(_) => []
    case GateRecord(g, approved) => [Inserted(RowOf(cfg, g, Verdict(approved)))]
    case PhaseAdvance(k) => [PhaseSet(NextSetting(cfg, k))]
    case PhasePause(_) => [PauseSet]
    case PhasePausedEvent(_) => [Posted(PausedNote)]
  }

  function PrepareWrite(p: PreparePoint): seq<Write> {
    match p
    case ReadTaskStatus(_, _) => []
    case WriteCurrentTask(c) => [TaskSet(c.t)]
    case ResumeEvent(_) => [Posted(ResumeReceived)]
    case RiskSkip(c) => [Marked(c.t, Skipped)]
    case RiskSkipEvent(_) => [Posted(PausedNote)]
    case MarkInProgress(c) => [Marked(c.t, InProgress)]
    case PromptEvent(_) => [Posted(PromptReady)]
    case PromptPause(_) => [PauseSet]
    case PromptPausedEvent(_) => [Posted(PausedNote)]
    case BlockPause(_) => [PauseSet]
    case BlockAwait(c) => [AwaitSet(c.t, StopQuestion)]
    case BlockMark(c) => [Marked(c.t, InProgress)]
    case BlockEvent(_) => [Posted(CodexPromptBlocked)]
  }

  function CodexWrite(x: CodexPoint): seq<Write> {
    match x
    case CodexEvent(_) => [Posted(Validating)]
    case CodexRun(_) => []
    case CodexPause(_, _) => [PauseSet]
    case CodexAwait(c, why) => [AwaitSet(c.t, why)]
    case CodexStopEvent(_, why) => [Posted(StopKind(why))]
  }

  function ValidateWrite(v: ValidatePoint, i: Input): seq<Write> {
    match v
    case ValidateEvent(_, _) => [Posted(Validating)]
    case ValidateRun(c, rc) => [Ran(Validation(c.t, i.validatorPassed, rc))]
    case FailMark(c) => [Marked(c.t, Failed)]
    case FailEvent(_) => [Posted(ValidationFailed)]
    case FailPause(_) => [PauseSet]
    case FailPausedEvent(_) => [Posted(PausedNote)]
    case DoneMark(c) => [Marked(c.t, Done)]
    case DoneEvent(_) => [Posted(TaskDone)]
    case LimitPause(_) => [PauseSet]
    case LimitEvent(_) => [Posted(SessionLimit)]
  }

  /** What a label writes as the loop's step from a program point: nothing, or one thing. */
  function WriteOf(cfg: Config, pc: Pc, l: Label): (w: seq<Write>)
    ensures |w| <= 1
  {
    if !l.Loop? then []
    else
      match pc
      case Select(s) => SelectWrite(cfg, s)
      case AtGate(g) => GateWrite(cfg, g)
      case Prepare(p) => PrepareWrite(p)
      case Codex(x) => CodexWrite(x)
      case Validate(v) => ValidateWrite(v, l.input)
      case Returned => []
      case Raised => []
  }

  function Written(m: Machine, w: seq<Write>): Machine
    requires |w| <= 1
  {
    if w == [] then m else Apply(m, w[0])
  }

  /** Besides the loop's own counters and program point, this and nothing else was written. */
  predicate Wrote(m: Machine, w: seq<Write>, m': Machine)
    requires |w| <= 1
  {
    m' == Written(m, w).(pc := m'.pc, iterations := m'.iterations, completed := m'.completed, mark := m'.mark)
  }

  lemma SelectWrites(cfg: Config, m: Machine, s: SelectPoint, i: Input)
    ensures Wrote(m, SelectWrite(cfg, s), SelectStep(cfg, m, s, i))
  {
    hide FindCurrentPhase, Dispatch;
  }

  lemma GateWrites(cfg: Config, m: Machine, g: GatePoint, i: Input)
    ensures Wrote(m, GateWrite(cfg, g), GateStep(cfg, m, g, i))
  {
    hide LatestDecision, GateRef, TypeOf;
  }

  lemma PrepareWrites(cfg: Config, m: Machine, p: PreparePoint, i: Input)
    ensures Wrote(m, PrepareWrite(p), PrepareStep(cfg, m, p, i))
  {
  }

  lemma ValidateWrites(cfg: Config, m: Machine, v: ValidatePoint, i: Input)
    ensures Wrote(m, ValidateWrite(v, i), ValidateStep(cfg, m, v, i))
  {
  }

  lemma CodexWrites(m: Machine, x: CodexPoint, i: Input)
    ensures Wrote(m, CodexWrite(x), CodexStep(m, x, i))
  {
  }

  /** The loop's step changes exactly what it writes. */
  lemma StepWrites(cfg: Config, m: Machine, i: Input)
    ensures Wrote(m, WriteOf(cfg, m.pc, Loop(i)), LoopStep(cfg, m, i))
  {
    hide Apply, SelectStep, GateStep, PrepareStep, CodexStep, ValidateStep;
    match m.pc
    case Select(s) => SelectWrites(cfg, m, s, i);
    case AtGate(g) => GateWrites(cfg, m, g, i);
    case Prepare(p) => PrepareWrites(cfg, m, p, i);
    case Codex(x) => CodexWrites(m, x, i);
    case Validate(v) => ValidateWrites(cfg, m, v, i);
    case Returned =>
    case Raised =>
  }

  /** What the loop wrote along a run, in order. */
  function LogOf(cfg: Config, m: Machine, labels: seq<Label>): seq<Write> {
    if labels == [] then []
    else
      var front := labels[..|labels| - 1];
      LogOf(cfg, m, front) + WriteOf(cfg, Execute(cfg, m, front).pc, labels[|labels| - 1])
  }

  lemma LogSnoc(cfg: Config, m: Machine, labels: seq<Label>, l: Label)
    ensures LogOf(cfg, m, labels + [l]) == LogOf(cfg, m, labels) + WriteOf(cfg, Execute(cfg, m, labels).pc, l)
  {
    assert (labels + [l])[..|labels|] == labels;
  }

  // ----- the tables hold the log

  function LoopEvents(events: seq<Event>): seq<EventKind> {
    if events == [] then []
    else
      var last := events[|events| - 1];
      LoopEvents(events[..|events| - 1]) + (if last.author == ByLoop then [last.kind] else [])
  }

  function GateRows(rows: seq<Approval>): seq<Approval> {
    if rows == [] then []
    else
      var last := rows[|rows| - 1];
      GateRows(rows[..|rows| - 1]) + (if last.gate.Some? then [last] else [])
  }

  function EventsIn(log: seq<Write>): seq<EventKind> {
    if log == [] then []
    else EventsIn(log[..|log| - 1]) + (if log[|log| - 1].Posted? then [log[|log| - 1].kind] else [])
  }

  function RowsIn(log: seq<Write>): seq<Approval> {
    if log == [] then []
    else RowsIn(log[..|log| - 1]) + (if log[|log| - 1].Inserted? then [log[|log| - 1].row] else [])
  }

  function ResultsIn(log: seq<Write>): seq<Validation> {
    if log == [] then []
    else ResultsIn(log[..|log| - 1]) + (if log[|log| - 1].Ran? then [log[|log| - 1].result] else [])
  }

  lemma EventSnoc(events: seq<Event>, e: Event)
    ensures LoopEvents(events + [e]) == LoopEvents(events) + (if e.author == ByLoop then [e.kind] else [])
  {
    assert (events + [e])[..|events|] == events;
  }

  lemma RowSnoc(rows: seq<Approval>, row: Approval)
    ensures GateRows(rows + [row]) == GateRows(rows) + (if row.gate.Some? then [row] else [])
  {
    assert (rows + [row])[..|rows|] == rows;
  }

  lemma ReadingsSnoc(log: seq<Write>, w: Write)
    ensures EventsIn(log + [w]) == EventsIn(log) + (if w.Posted? then [w.kind] else [])
    ensures RowsIn(log + [w]) == RowsIn(log) + (if w.Inserted? then [w.row] else [])
    ensures ResultsIn(log + [w]) == ResultsIn(log) + (if w.Ran? then [w.result] else [])
  {
    assert (log + [w])[..|log|] == log;
  }

  /** The loop's events, its approval rows and the validation results of `m'` are those of `m`
      followed by those of the log. */
  predicate Holds(m: Machine, log: seq<Write>, m': Machine) {
    && LoopEvents(m'.db.events) == LoopEvents(m.db.events) + EventsIn(log)
    && GateRows(m'.db.approvals) == GateRows(m.db.approvals) + RowsIn(log)
    && m'.validations == m.validations + ResultsIn(log)
  }

  lemma ApplyHolds(m: Machine, log: seq<Write>, m': Machine, w: Write)
    requires Holds(m, log, m') && (w.Inserted? ==> w.row.gate.Some?)
    ensures Holds(m, log + [w], Apply(m', w))
  {
    hide EventsIn, RowsIn, ResultsIn, LoopEvents, GateRows;
    ReadingsSnoc(log, w);
    if w.Posted? { EventSnoc(m'.db.events, Event(ByLoop, w.kind)); }
    if w.Inserted? { RowSnoc(m'.db.approvals, w.row); }
  }

  lemma ListenerHolds(m: Machine, log: seq<Write>, m': Machine, op: ListenerOp)
    requires Holds(m, log, m')
    ensures Holds(m, log, ListenerStep(m', op))
  {
    hide OperatorInFlight, ActiveRowFailed, HasFailureEvent, LoopEvents, GateRows, EventsIn, RowsIn, ResultsIn;
    var after := ListenerStep(m', op);
    if after.db.events != m'.db.events {
      EventSnoc(m'.db.events, after.db.events[|m'.db.events|]);
    } else if op.InsertDecision? {
      RowSnoc(m'.db.approvals, Approval(None, op.ref, Verdict(op.approved)));
    }
  }

  lemma LoopHolds(cfg: Config, m: Machine, log: seq<Write>, m': Machine, i: Input)
    requires Holds(m, log, m')
    ensures Holds(m, log + WriteOf(cfg, m'.pc, Loop(i)), LoopStep(cfg, m', i))
  {
    hide Holds, LoopStep, Apply;
    var w := WriteOf(cfg, m'.pc, Loop(i));
    StepWrites(cfg, m', i);
    if w == [] {
      assert log + w == log;
    } else {
      assert w == [w[0]];
      ApplyHolds(m, log, m', w[0]);
    }
    SameTables(m, log + w, Written(m', w), LoopStep(cfg, m', i));
  }

  lemma SameTables(m: Machine, log: seq<Write>, a: Machine, b: Machine)
    requires a.db == b.db && a.validations == b.validations
    ensures Holds(m, log, a) == Holds(m, log, b)
  {
  }

  /** In every run, restarts and crashes included, the tables hold the loop's events, its approval
      rows and the validation results exactly as logged, in order, whatever the listener adds. */
  lemma {:induction false} LogIsInTheTables(cfg: Config, m: Machine, labels: seq<Label>)
    ensures Holds(m, LogOf(cfg, m, labels), Execute(cfg, m, labels))
  {
    if labels != [] {
      var front, l := labels[..|labels| - 1], labels[|labels| - 1];
      LogIsInTheTables(cfg, m, front);
      var log, m1 := LogOf(cfg, m, front), Execute(cfg, m, front);
      assert l.Loop? || log + WriteOf(cfg, m1.pc, l) == log;
      match l
      case Loop(i) => LoopHolds(cfg, m, log, m1, i);
      case Listener(op) => ListenerHolds(m, log, m1, op);
      case Restart => SameTables(m, log, m1, Step(cfg, m1, l));
      case Crash => SameTables(m, log, m1, Step(cfg, m1, l));
    }
  }

  // ----- what the parts of an iteration write

  /** From `before` the machine's step writes `w` and goes to `after`. */
  ghost predicate Writes(cfg: Config, before: Pc, i: Input, w: Write, after: Pc) {
    && WriteOf(cfg, before, Loop(i)) == [w]
    && forall m: Machine :: m.pc == before ==> LoopStep(cfg, m, i) == Apply(m, w).(pc := after)
  }

  /** A gate opened, announced and decided. */
  function GateLog(cfg: Config, g: Gate, approved: bool): seq<Write> {
    [Inserted(RowOf(cfg, g, Undecided)), Posted(ApprovalRequired), Inserted(RowOf(cfg, g, Verdict(approved)))]
  }

  function ExitLog(cfg: Config, k: nat, crossed: bool): seq<Write> {
    GateLog(cfg, PhaseExit(k), crossed)
    + if crossed then [PhaseSet(NextSetting(cfg, k))] else [PauseSet, Posted(PausedNote)]
  }

  /** What preparing a task led to. */
  datatype Outcome = Resumed | Refused | PromptShown | PromptBlocked | HandedToCodex

  /** A task is resumed or opened; a risky one is opened through its gate. */
  function OpeningLog(cfg: Config, c: Ctx): seq<Write> {
    [TaskSet(c.t)]
    + if c.resume then [Posted(ResumeReceived)]
      else if c.t in cfg.risky then GateLog(cfg, RiskyTask(c), true)
      else []
  }

  function PromptLog(c: Ctx, o: Outcome): seq<Write> {
    [Marked(c.t, InProgress)]
    + match o
      case PromptShown => [Posted(PromptReady), PauseSet, Posted(PausedNote)]
      case PromptBlocked =>
        [PauseSet, AwaitSet(c.t, StopQuestion), Marked(c.t, InProgress), Posted(CodexPromptBlocked)]
      case _ => []
  }

  function PrepareLog(cfg: Config, c: Ctx, o: Outcome): seq<Write> {
    match o
    case Refused =>
      [TaskSet(c.t)] + (GateLog(cfg, RiskyTask(c), false) + [Marked(c.t, Skipped), Posted(PausedNote)])
    case Resumed => OpeningLog(cfg, c)
    case _ => OpeningLog(cfg, c) + PromptLog(c, o)
  }

  /** Which outcomes a task's context allows. */
  predicate Fits(cfg: Config, c: Ctx, o: Outcome) {
    && (o == Resumed <==> c.resume)
    && (o == Refused ==> c.t in cfg.risky)
    && (o == PromptShown ==> c.mode == Manual)
    && (o == PromptBlocked || o == HandedToCodex ==> c.mode == Auto)
  }

  function AfterPrepare(c: Ctx, o: Outcome): Pc {
    match o
    case Resumed => Validate(ValidateEvent(c, 0))
    case Refused => Select(Top)
    case PromptShown => Select(Top)
    case PromptBlocked => Returned
    case HandedToCodex => Codex(CodexEvent(c))
  }

  function StopLog(t: nat, why: StopReason): seq<Write> {
    [PauseSet, AwaitSet(t, why), Posted(StopKind(why))]
  }

  function CodexLog(t: nat, stop: Option<StopReason>): seq<Write> {
    [Posted(Validating)] + if stop.Some? then StopLog(t, stop.value) else []
  }

  function ResultLog(t: nat, passed: bool): seq<Write> {
    [Posted(Validating), Ran(Validation(t, passed, 0))]
    + if passed then [Marked(t, Done)]
      else [Marked(t, Failed), Posted(ValidationFailed), PauseSet, Posted(PausedNote)]
  }

  function FinishLog(over: bool): seq<Write> {
    [Posted(TaskDone)] + if over then [PauseSet, Posted(SessionLimit)] else []
  }

  /** How the work on a prepared task went on. */
  datatype Ending = NotStarted | Stopped(why: StopReason) | FailedValidation | Completed(over: bool)

  function EndingLog(c: Ctx, e: Ending): seq<Write> {
    match e
    case NotStarted => []
    case Stopped(why) => CodexLog(c.t, Some(why))
    case FailedValidation => (if c.resume then [] else CodexLog(c.t, None)) + ResultLog(c.t, false)
    case Completed(over) =>
      (if c.resume then [] else CodexLog(c.t, None)) + ResultLog(c.t, true) + FinishLog(over)
  }

  predicate EndingFits(o: Outcome, e: Ending) {
    match o
    case Resumed => e.FailedValidation? || e.Completed?
    case HandedToCodex => !e.NotStarted?
    case _ => e.NotStarted?
  }

  /** Does the session go on after such an iteration? */
  predicate GoesOn(o: Outcome, e: Ending) {
    o != PromptBlocked && !e.Stopped? && e != Completed(true)
  }

  /** One whole iteration. */
  datatype Course =
    | NoPhaseFound
    | NothingToDo
    | PhaseExitAsked(k: nat, crossed: bool)
    | TaskWorkedOn(c: Ctx, o: Outcome, e: Ending)

  function CourseLog(cfg: Config, course: Course): seq<Write> {
    match course
    case NoPhaseFound => []
    case NothingToDo => [Posted(TaskDone)]
    case PhaseExitAsked(k, crossed) => ExitLog(cfg, k, crossed)
    case TaskWorkedOn(c, o, e) => PrepareLog(cfg, c, o) + EndingLog(c, e)
  }

  predicate CourseGoesOn(course: Course) {
    match course
    case NoPhaseFound => false
    case NothingToDo => false
    case PhaseExitAsked(_, crossed) => crossed
    case TaskWorkedOn(_, o, e) => GoesOn(o, e)
  }

  predicate CourseFits(cfg: Config, course: Course) {
    course.TaskWorkedOn? ==> Fits(cfg, course.c, course.o) && EndingFits(course.o, course.e)
  }

  /** One iteration: a phase stored because none was set, and what followed. */
  datatype Iteration = Iteration(chosen: Option<nat>, course: Course)

  function ChosenLog(cfg: Config, chosen: Option<nat>): seq<Write> {
    if chosen.Some? && chosen.value < |cfg.phases| then [PhaseSet(cfg.names.display(cfg.phases[chosen.value]))] else []
  }

  function IterationLog(cfg: Config, it: Iteration): seq<Write> {
    ChosenLog(cfg, it.chosen) + CourseLog(cfg, it.course)
  }

  function SessionLog(cfg: Config, its: seq<Iteration>): seq<Write> {
    if its == [] then [] else SessionLog(cfg, its[..|its| - 1]) + IterationLog(cfg, its[|its| - 1])
  }

  lemma SessionEmpty(cfg: Config)
    ensures SessionLog(cfg, []) == []
  {
  }

  lemma SessionSnoc(cfg: Config, its: seq<Iteration>, it: Iteration)
    ensures SessionLog(cfg, its + [it]) == SessionLog(cfg, its) + IterationLog(cfg, it)
  {
    assert (its + [it])[..|its|] == its;
  }

  /** Every iteration of a session is of the known form, and only the last one may end it. */
  predicate SessionFits(cfg: Config, its: seq<Iteration>, goesOn: bool) {
    && (forall k :: 0 <= k < |its| ==> CourseFits(cfg, its[k].course))
    && (forall k :: 0 <= k < |its| - 1 ==> CourseGoesOn(its[k].course))
    && (its != [] && goesOn ==> CourseGoesOn(its[|its| - 1].course))
  }
}
