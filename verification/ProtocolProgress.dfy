/** What a run uses up: iterations are bounded, and an automatic session completes a bounded number of
    tasks. */
module ProtocolProgress {
  import opened Text
  import opened Protocol
  import opened ProtocolSafety

  // ----- iterations are bounded

  function MappedTasks(cfg: Config): set<nat> {
    set k, t | 0 <= k < |cfg.phases| && t in cfg.phases[k].tasks :: t
  }

  function OpenTasks(cfg: Config, tasks: map<nat, Status>): set<nat> {
    set t | t in MappedTasks(cfg) && Open(tasks, t)
  }

  /** How many phases the stored setting leaves to cross. */
  function PhasesLeft(cfg: Config, phase: string): nat {
    var k := Resolve(cfg, phase);
    if cfg.names.isComplete(phase) then 0
    else if k.Some? && k.value <= |cfg.phases| then |cfg.phases| - k.value
    else |cfg.phases|
  }

  /** The part of a store the bound is about. */
  datatype Load = Load(tasks: map<nat, Status>, currentPhase: string, paused: bool)

  function LoadOf(db: Db): Load {
    Load(db.tasks, db.currentPhase, db.paused)
  }

  function Running(db: Load): nat {
    if db.paused then 0 else 1
  }

  /** Open tasks, phases to cross, and one more while the loop is not paused. */
  function WorkLeft(cfg: Config, db: Load): nat {
    |OpenTasks(cfg, db.tasks)| + PhasesLeft(cfg, db.currentPhase) + Running(db)
  }

  /** What the current iteration may still hand on to later ones: it has used its unit of
      `Running`, and counts the task it works on as open. */
  function Reserve(cfg: Config, db: Load, active: set<nat>): nat {
    |OpenTasks(cfg, db.tasks) + active| + PhasesLeft(cfg, db.currentPhase)
  }

  function BudgetAt(cfg: Config, db: Load, pc: Pc): nat {
    match pc
    case Select(s) => SelectBudget(cfg, db, s)
    case AtGate(g) =>
      if g.PhasePause? || g.PhasePausedEvent? then 0
      else if g.PhaseAdvance? || g.gate.PhaseExit? then Reserve(cfg, db, {})
      else Reserve(cfg, db, {g.gate.ctx.t})
    case Prepare(p) =>
      if p.ReadTaskStatus? then Reserve(cfg, db, {p.t})
      else if p.BlockPause? || p.BlockAwait? || p.BlockMark? || p.BlockEvent? then 0
      else if p.RiskSkipEvent? then WorkLeft(cfg, db)
      else if p.PromptPausedEvent? then Reserve(cfg, db, {p.c.t}) + Running(db)
      else Reserve(cfg, db, {p.c.t})
    case Codex(x) => if x.CodexEvent? || x.CodexRun? then Reserve(cfg, db, {x.c.t}) else 0
    case Validate(v) =>
      if v.LimitPause? || v.LimitEvent? then 0
      else if v.DoneEvent? then WorkLeft(cfg, db)
      else if v.FailPausedEvent? then Reserve(cfg, db, {v.c.t}) + Running(db)
      else Reserve(cfg, db, {v.c.t})
    case Returned => 0
    case Raised => 0
  }

  function SelectBudget(cfg: Config, db: Load, s: SelectPoint): nat {
    match s
    case Start => WorkLeft(cfg, db)
    case Top => WorkLeft(cfg, db)
    case ReadStatuses => Reserve(cfg, db, {})
    case ReadPhase(snap) => |OpenTasks(cfg, snap)| + PhasesLeft(cfg, db.currentPhase)
    case WritePhase(snap, _) => |OpenTasks(cfg, snap)| + PhasesLeft(cfg, db.currentPhase)
    case FinishEvent => 0
  }

  lemma SubsetSize(a: set<nat>, b: set<nat>)
    requires a <= b
    ensures |a| <= |b|
  {
    assert b == a + (b - a);
  }

  lemma OpenAfterMark(cfg: Config, tasks: map<nat, Status>, t: nat, s: Status)
    ensures Closed(s) ==> OpenTasks(cfg, tasks[t := s]) == OpenTasks(cfg, tasks) - {t}
    ensures OpenTasks(cfg, tasks[t := s]) <= OpenTasks(cfg, tasks) + {t}
  {
  }

  /** Closing the active task pays for the next iteration. */
  lemma ClosingPays(cfg: Config, db: Load, t: nat, s: Status)
    requires Closed(s)
    ensures WorkLeft(cfg, db.(tasks := db.tasks[t := s])) <= Reserve(cfg, db, {t})
  {
    OpenAfterMark(cfg, db.tasks, t, s);
    var open := OpenTasks(cfg, db.tasks);
    assert open + {t} == (open - {t}) + {t};
  }

  /** Reopening the active task costs nothing: it is counted as open already. */
  lemma ReopeningIsFree(cfg: Config, db: Load, t: nat, s: Status)
    ensures Reserve(cfg, db.(tasks := db.tasks[t := s]), {t}) <= Reserve(cfg, db, {t})
  {
    OpenAfterMark(cfg, db.tasks, t, s);
    SubsetSize(OpenTasks(cfg, db.tasks[t := s]) + {t}, OpenTasks(cfg, db.tasks) + {t});
  }

  /** Whatever the loop holds as active, a skip by the operator never raises the budget. */
  lemma SkippingIsFree(cfg: Config, db: Load, t: nat, active: set<nat>)
    ensures Reserve(cfg, db.(tasks := db.tasks[t := Skipped]), active) <= Reserve(cfg, db, active)
    ensures WorkLeft(cfg, db.(tasks := db.tasks[t := Skipped])) <= WorkLeft(cfg, db)
  {
    OpenAfterMark(cfg, db.tasks, t, Skipped);
    SubsetSize(OpenTasks(cfg, db.tasks) - {t} + active, OpenTasks(cfg, db.tasks) + active);
    SubsetSize(OpenTasks(cfg, db.tasks) - {t}, OpenTasks(cfg, db.tasks));
  }

  /** Everything still open, and the task picked from the snapshot, was open in the snapshot. */
  lemma SnapshotCovers(cfg: Config, snap: map<nat, Status>, tasks: map<nat, Status>, active: set<nat>)
    requires StillClosed(snap, tasks) && active <= OpenTasks(cfg, snap)
    ensures |OpenTasks(cfg, tasks) + active| <= |OpenTasks(cfg, snap)|
  {
    forall t | t in OpenTasks(cfg, tasks) ensures t in OpenTasks(cfg, snap) {
      assert Open(tasks, t);
    }
    SubsetSize(OpenTasks(cfg, tasks) + active, OpenTasks(cfg, snap));
  }

  lemma PickedIsOpen(cfg: Config, snap: map<nat, Status>, k: nat, t: nat)
    requires k < |cfg.phases| && t in cfg.phases[k].tasks && Open(snap, t)
    ensures t in OpenTasks(cfg, snap)
  {
    assert t in MappedTasks(cfg);
  }

  lemma DispatchWithinBudget(cfg: Config, db: Load, snap: map<nat, Status>, k: nat)
    requires k < |cfg.phases| && StillClosed(snap, db.tasks)
    ensures BudgetAt(cfg, db, Dispatch(cfg, snap, k)) <= |OpenTasks(cfg, snap)| + PhasesLeft(cfg, db.currentPhase)
  {
    hide OpenTasks, MappedTasks, PhasesLeft;
    var active := FirstOpen(snap, cfg.phases[k].tasks);
    if active.Some? {
      PickedIsOpen(cfg, snap, k, active.value);
      SnapshotCovers(cfg, snap, db.tasks, {active.value});
    } else {
      SnapshotCovers(cfg, snap, db.tasks, {});
    }
  }

  /** Iterations started plus what later ones may still use. */
  function Spent(cfg: Config, m: Machine): nat {
    m.iterations + BudgetAt(cfg, LoadOf(m.db), m.pc)
  }

  lemma SelectSpends(cfg: Config, m: Machine, s: SelectPoint, i: Input)
    requires WellFormed(cfg) && m.pc == Select(s) && AtPoint(cfg, ViewOf(m), m.pc)
    ensures Spent(cfg, SelectStep(cfg, m, s, i)) <= Spent(cfg, m)
  {
    hide OpenTasks, MappedTasks, Open;
    match s
    case ReadPhase(snap) =>
      var found := Resolve(cfg, m.db.currentPhase);
      if !cfg.names.isComplete(m.db.currentPhase) && found.Some? {
        DispatchWithinBudget(cfg, LoadOf(m.db), snap, found.value);
      }
    case WritePhase(snap, k) =>
      var db' := LoadOf(m.db).(currentPhase := cfg.names.display(cfg.phases[k]));
      DispatchWithinBudget(cfg, db', snap, k);
    case ReadStatuses =>
      assert OpenTasks(cfg, m.db.tasks) + {} == OpenTasks(cfg, m.db.tasks);
    case Top =>
      assert OpenTasks(cfg, m.db.tasks) + {} == OpenTasks(cfg, m.db.tasks);
    case Start =>
    case FinishEvent =>
  }

  lemma AdvancePays(cfg: Config, m: Machine, k: nat, i: Input)
    requires WellFormed(cfg) && m.pc == AtGate(PhaseAdvance(k)) && AtPoint(cfg, ViewOf(m), m.pc)
    ensures Spent(cfg, GateStep(cfg, m, PhaseAdvance(k), i)) <= Spent(cfg, m)
  {
    hide OpenTasks, MappedTasks, Open, PhaseClosed, OperatorApproved, LatestDecision;
    assert OpenTasks(cfg, m.db.tasks) + {} == OpenTasks(cfg, m.db.tasks);
    assert PhasesLeft(cfg, NextSetting(cfg, k)) < PhasesLeft(cfg, m.db.currentPhase);
  }

  lemma GateSpends(cfg: Config, m: Machine, g: GatePoint, i: Input)
    requires WellFormed(cfg) && m.pc == AtGate(g) && AtPoint(cfg, ViewOf(m), m.pc)
    ensures Spent(cfg, GateStep(cfg, m, g, i)) <= Spent(cfg, m)
  {
    if g.PhaseAdvance? { AdvancePays(cfg, m, g.phase, i); } else { WaitingSpends(cfg, m, g, i); }
  }

  lemma WaitingSpends(cfg: Config, m: Machine, g: GatePoint, i: Input)
    requires m.pc == AtGate(g) && !g.PhaseAdvance?
    ensures Spent(cfg, GateStep(cfg, m, g, i)) <= Spent(cfg, m)
  {
    hide OpenTasks, MappedTasks, Open, PhasesLeft, LatestDecision, Reserve, WorkLeft, Running;
    var c := if g.PhasePause? || g.PhasePausedEvent? || g.gate.PhaseExit? then 0 else g.gate.ctx.t;
    ReserveReads(cfg, m.db, GateStep(cfg, m, g, i).db, {c});
    ReserveReads(cfg, m.db, GateStep(cfg, m, g, i).db, {});
  }

  /** The reserve depends on the statuses and the stored phase only. */
  lemma ReserveReads(cfg: Config, db: Db, db': Db, active: set<nat>)
    ensures db.tasks == db'.tasks && db.currentPhase == db'.currentPhase ==>
      Reserve(cfg, LoadOf(db), active) == Reserve(cfg, LoadOf(db'), active)
  {
    hide OpenTasks, PhasesLeft;
  }

  lemma PrepareSpends(cfg: Config, m: Machine, p: PreparePoint, i: Input)
    requires m.pc == Prepare(p)
    ensures Spent(cfg, PrepareStep(cfg, m, p, i)) <= Spent(cfg, m)
  {
    if p.RiskSkip? || p.MarkInProgress? || p.PromptPausedEvent? {
      PrepareMarkSpends(cfg, m, p, i);
    } else {
      PrepareQuietSpends(cfg, m, p, i);
    }
  }

  lemma PrepareMarkSpends(cfg: Config, m: Machine, p: PreparePoint, i: Input)
    requires m.pc == Prepare(p) && (p.RiskSkip? || p.MarkInProgress? || p.PromptPausedEvent?)
    ensures Spent(cfg, PrepareStep(cfg, m, p, i)) <= Spent(cfg, m)
  {
    hide OpenTasks, MappedTasks, Open, PhasesLeft;
    if p.RiskSkip? {
      ClosingPays(cfg, LoadOf(m.db), p.c.t, Skipped);
    } else if p.MarkInProgress? {
      ReopeningIsFree(cfg, LoadOf(m.db), p.c.t, InProgress);
    } else {
      SubsetSize(OpenTasks(cfg, m.db.tasks), OpenTasks(cfg, m.db.tasks) + {p.c.t});
    }
  }

  lemma PrepareQuietSpends(cfg: Config, m: Machine, p: PreparePoint, i: Input)
    requires m.pc == Prepare(p) && !p.RiskSkip? && !p.MarkInProgress? && !p.PromptPausedEvent?
    ensures Spent(cfg, PrepareStep(cfg, m, p, i)) <= Spent(cfg, m)
  {
    hide OpenTasks, MappedTasks, Open, PhasesLeft, Reserve, WorkLeft;
    var t := if p.ReadTaskStatus? then p.t else p.c.t;
    ReserveReads(cfg, m.db, PrepareStep(cfg, m, p, i).db, {t});
  }

  lemma ValidateSpends(cfg: Config, m: Machine, v: ValidatePoint, i: Input)
    requires m.pc == Validate(v)
    ensures Spent(cfg, ValidateStep(cfg, m, v, i)) <= Spent(cfg, m)
  {
    hide OpenTasks, MappedTasks, Open, PhasesLeft;
    if v.DoneMark? {
      ClosingPays(cfg, LoadOf(m.db), v.c.t, Done);
    } else if v.FailMark? {
      ReopeningIsFree(cfg, LoadOf(m.db), v.c.t, Failed);
    } else if v.FailPausedEvent? {
      SubsetSize(OpenTasks(cfg, m.db.tasks), OpenTasks(cfg, m.db.tasks) + {v.c.t});
    }
  }

  /** Whatever the program point, a skip does not raise the budget. */
  lemma BudgetUnderSkip(cfg: Config, db: Load, pc: Pc, t: nat)
    ensures BudgetAt(cfg, db.(tasks := db.tasks[t := Skipped]), pc) <= BudgetAt(cfg, db, pc)
  {
    hide OpenTasks, MappedTasks, Open, PhasesLeft, WorkLeft, Reserve;
    SkippingIsFree(cfg, db, t, {});
    match pc
    case AtGate(g) =>
      if !g.PhasePause? && !g.PhasePausedEvent? && !g.PhaseAdvance? && g.gate.RiskyTask? {
        SkippingIsFree(cfg, db, t, {g.gate.ctx.t});
      }
    case Prepare(p) => SkippingIsFree(cfg, db, t, {if p.ReadTaskStatus? then p.t else p.c.t});
    case Codex(x) => SkippingIsFree(cfg, db, t, {x.c.t});
    case Validate(v) => SkippingIsFree(cfg, db, t, {v.c.t});
    case Select(_) =>
    case Returned =>
    case Raised =>
  }

  /** Writing the pause flag raises it by at most one, when it is cleared. */
  lemma BudgetUnderPause(cfg: Config, db: Load, pc: Pc, paused: bool)
    ensures BudgetAt(cfg, db.(paused := paused), pc) <= BudgetAt(cfg, db, pc) + (if paused then 0 else 1)
  {
    hide OpenTasks, MappedTasks, Open, PhasesLeft;
  }

  lemma ListenerSpends(cfg: Config, m: Machine, op: ListenerOp)
    ensures Spent(cfg, ListenerStep(m, op)) - ListenerStep(m, op).resumes <= Spent(cfg, m) - m.resumes
  {
    hide BudgetAt;
    if op.WriteSkipped? {
      BudgetUnderSkip(cfg, LoadOf(m.db), m.pc, op.task);
    } else if op.WritePaused? {
      BudgetUnderPause(cfg, LoadOf(m.db), m.pc, op.value);
    }
  }

  lemma CodexSpends(cfg: Config, m: Machine, x: CodexPoint, i: Input)
    requires m.pc == Codex(x)
    ensures Spent(cfg, CodexStep(m, x, i)) <= Spent(cfg, m)
  {
    hide OpenTasks, MappedTasks, Open, PhasesLeft;
  }

  lemma RaisedHasNoBudget(cfg: Config, db: Load)
    ensures BudgetAt(cfg, db, Raised) == 0
  {
  }

  /** No step raises iterations plus budget, except a resume, which raises it by one. */
  lemma StepSpends(cfg: Config, m: Machine, l: Label)
    requires WellFormed(cfg) && AtPoint(cfg, ViewOf(m), m.pc) && l != Restart
    ensures Spent(cfg, Step(cfg, m, l)) - Step(cfg, m, l).resumes <= Spent(cfg, m) - m.resumes
  {
    hide BudgetAt;
    match l
    case Loop(i) =>
      match m.pc {
        case Select(s) => SelectSpends(cfg, m, s, i);
        case AtGate(g) => GateSpends(cfg, m, g, i);
        case Prepare(p) => PrepareSpends(cfg, m, p, i);
        case Codex(x) => CodexSpends(cfg, m, x, i);
        case Validate(v) => ValidateSpends(cfg, m, v, i);
        case Returned =>
        case Raised =>
      }
    case Listener(op) => ListenerSpends(cfg, m, op);
    case Crash => RaisedHasNoBudget(cfg, LoadOf(m.db));
  }

  lemma {:induction false} RunSpends(cfg: Config, seeded: set<nat>, m: Machine, labels: seq<Label>)
    requires WellFormed(cfg) && Safe(cfg, seeded, m) && Restart !in labels
    ensures var m' := Execute(cfg, m, labels); Spent(cfg, m') - m'.resumes <= Spent(cfg, m) - m.resumes
  {
    if labels != [] {
      var front := labels[..|labels| - 1];
      RunSpends(cfg, seeded, m, front);
      AlwaysSafe(cfg, seeded, m, front);
      StepSpends(cfg, Execute(cfg, m, front), labels[|labels| - 1]);
    }
  }

  /** Termination of a session: in every interleaving, the iterations that found the loop not
      paused number at most the open tasks, the phases to cross, the resumes, and one more
      if the session starts unpaused. */
  lemma IterationsAreBounded(cfg: Config, seeded: set<nat>, m: Machine, labels: seq<Label>)
    requires WellFormed(cfg) && Safe(cfg, seeded, m) && Restart !in labels
    requires (m.pc == Select(Start) || m.pc == Select(Top)) && m.iterations == 0
    ensures var m' := Execute(cfg, m, labels);
            m'.iterations <= |OpenTasks(cfg, m.db.tasks)| + PhasesLeft(cfg, m.db.currentPhase)
                             + (if m.db.paused then 0 else 1) + (m'.resumes - m.resumes)
  {
    RunSpends(cfg, seeded, m, labels);
  }

  // ----- an automatic session completes a bounded number of tasks

  predicate ClosesAutomatically(m: Machine, l: Label) {
    l.Loop? && m.pc.Validate? && m.pc.v.DoneMark? && m.pc.v.c.mode == Auto
  }

  predicate JustClosed(pc: Pc) {
    pc.Validate? && pc.v.DoneEvent? && pc.v.c.mode == Auto
  }

  /** How many steps of a run mark a task done in automatic mode. */
  function AutoDone(cfg: Config, m: Machine, labels: seq<Label>): nat {
    if labels == [] then 0
    else
      var front := labels[..|labels| - 1];
      AutoDone(cfg, m, front) + (if ClosesAutomatically(Execute(cfg, m, front), labels[|labels| - 1]) then 1 else 0)
  }

  /** Below the limit, or at the limit and on the way out. */
  predicate WithinLimit(cfg: Config, m: Machine) {
    || m.completed < SessionLimitOf(cfg)
    || (m.completed == SessionLimitOf(cfg) &&
          (m.pc == Returned || m.pc == Raised || (m.pc.Validate? && (m.pc.v.LimitPause? || m.pc.v.LimitEvent?))))
  }

  lemma StepCounts(cfg: Config, m: Machine, l: Label)
    requires WithinLimit(cfg, m) && l != Restart && l != Crash
    requires m.pc == Select(Start) ==> m.completed == 0
    ensures WithinLimit(cfg, Step(cfg, m, l))
    ensures Step(cfg, m, l).completed + (if JustClosed(Step(cfg, m, l).pc) then 1 else 0) ==
            m.completed + (if JustClosed(m.pc) then 1 else 0) + (if ClosesAutomatically(m, l) then 1 else 0)
    ensures Step(cfg, m, l).pc == Select(Start) ==> Step(cfg, m, l).completed == 0
  {
    match l
    case Loop(i) =>
      match m.pc {
        case Select(_) =>
        case AtGate(_) =>
        case Prepare(_) =>
        case Codex(_) =>
        case Validate(_) =>
        case Returned =>
        case Raised =>
      }
    case Listener(_) =>
  }

  /** A crashed session does nothing until it is started again. */
  lemma {:induction false} CrashedStaysRaised(cfg: Config, m: Machine, labels: seq<Label>)
    requires Crash in labels && Restart !in labels
    ensures Execute(cfg, m, labels).pc == Raised
  {
    var front, l := labels[..|labels| - 1], labels[|labels| - 1];
    assert labels == front + [l];
    if l != Crash { CrashedStaysRaised(cfg, m, front); }
  }

  /** In every interleaving, one session closes at most the configured number of tasks
      automatically, and unless it crashes its counter says how many. */
  lemma {:induction false} SessionLimitHolds(cfg: Config, m: Machine, labels: seq<Label>)
    requires (m.pc == Select(Start) || m.pc == Select(Top)) && m.completed == 0 && Restart !in labels
    ensures AutoDone(cfg, m, labels) <= SessionLimitOf(cfg)
    ensures var m' := Execute(cfg, m, labels);
            Crash !in labels ==>
              && WithinLimit(cfg, m') && (m'.pc == Select(Start) ==> m'.completed == 0)
              && AutoDone(cfg, m, labels) == m'.completed + (if JustClosed(m'.pc) then 1 else 0)
  {
    if labels != [] {
      var front, l := labels[..|labels| - 1], labels[|labels| - 1];
      assert labels == front + [l];
      SessionLimitHolds(cfg, m, front);
      if Crash in front {
        CrashedStaysRaised(cfg, m, front);
      } else if l != Crash {
        StepCounts(cfg, Execute(cfg, m, front), l);
      }
    }
  }
}
