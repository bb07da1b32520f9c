/** Concrete runs from a fresh store: the loop drives an open task until it is about to mark it failed,
    and the listener or a crash breaks a promise of the protocol on the way. */
module ProtocolWitness {
  import opened Text
  import opened PhaseNames
  import opened Protocol
  import opened ProtocolSafety
  import opened ProtocolEvents

  /** Automatic mode, a clean prompt, a clean return of Codex and a failing validator. */
  const FAILING: Input := Input(Auto, false, true, Finished(false, 0), false, None)

  /** The phase the loop selects in a fresh store. */
  function FirstPhase(cfg: Config, db: Db): nat
    requires cfg.phases != []
  {
    FindCurrentPhase(cfg.phases, db.tasks)
  }

  /** The store is fresh and not paused, and the loop will pick the task. */
  ghost predicate Startable(cfg: Config, db: Db, seeded: set<nat>, t: nat) {
    && WellFormed(cfg) && FreshStore(db, seeded) && !db.paused && cfg.phases != []
    && FirstOpen(db.tasks, cfg.phases[FirstPhase(cfg, db)].tasks) == Some(t)
  }

  /** And the task needs no approval. */
  ghost predicate Drivable(cfg: Config, db: Db, seeded: set<nat>, t: nat) {
    Startable(cfg, db, seeded, t) && t !in cfg.risky
  }

  /** Or it needs one. */
  ghost predicate DrivableToGate(cfg: Config, db: Db, seeded: set<nat>, t: nat) {
    Startable(cfg, db, seeded, t) && t in cfg.risky
  }

  // ----- such stores exist

  /** One phase with one task. */
  function OnePhase(risky: set<nat>): Config {
    Config([Phase(1, "Core", [7])], risky, 5, REPOSITORY)
  }

  const EMPTY_STORE: Db := Db(map[], "", false, None, None, None, [], [])

  lemma OnePhaseReadsBack(risky: set<nat>)
    ensures WellFormed(OnePhase(risky))
  {
    hide ReadsBack, REPOSITORY;
    RepositoryReadsBack(OnePhase(risky));
  }

  lemma TheTaskIsFirst(risky: set<nat>)
    ensures var cfg := OnePhase(risky);
            FirstOpen(EMPTY_STORE.tasks, cfg.phases[FirstPhase(cfg, EMPTY_STORE)].tasks) == Some(7)
  {
    hide REPOSITORY;
    assert FindCurrentPhase(OnePhase(risky).phases, map[]) == 0;
  }

  lemma SomeStoreIsDrivable()
    ensures Drivable(OnePhase({}), EMPTY_STORE, {}, 7) && DrivableToGate(OnePhase({7}), EMPTY_STORE, {}, 7)
  {
    hide WellFormed, FirstOpen, FindCurrentPhase, REPOSITORY;
    OnePhaseReadsBack({});
    OnePhaseReadsBack({7});
    TheTaskIsFirst({});
    TheTaskIsFirst({7});
  }

  // ----- the loop on its own

  function Drive(n: nat): seq<Label> {
    if n == 0 then [] else Drive(n - 1) + [Loop(FAILING)]
  }

  lemma DriveOne(cfg: Config, m: Machine, n: nat)
    requires n > 0
    ensures Execute(cfg, m, Drive(n)) == LoopStep(cfg, Execute(cfg, m, Drive(n - 1)), FAILING)
  {
    ExecuteSnoc(cfg, m, Drive(n - 1), Loop(FAILING));
  }

  function Picked(cfg: Config, db: Db, t: nat): Ctx
    requires cfg.phases != []
  {
    Ctx(FirstPhase(cfg, db), t, Auto, false)
  }

  /** The machine when the phase and the task are selected. */
  function SelectedMachine(cfg: Config, db: Db, t: nat): Machine
    requires cfg.phases != []
  {
    var k := FirstPhase(cfg, db);
    Boot(db).(db := Post(db, ByLoop, RunStarted).(currentPhase := cfg.names.display(cfg.phases[k])),
              pc := Prepare(ReadTaskStatus(k, t)), iterations := 1, mark := 1)
  }

  /** The machine when the loop is about to mark the task in progress. */
  function MarkingMachine(cfg: Config, db: Db, t: nat): Machine
    requires cfg.phases != []
  {
    var m := SelectedMachine(cfg, db, t);
    m.(db := m.db.(currentTask := Some(t)), pc := Prepare(MarkInProgress(Picked(cfg, db, t))))
  }

  /** The machine when Codex has returned cleanly. */
  function ReturnedMachine(cfg: Config, db: Db, t: nat): Machine
    requires cfg.phases != []
  {
    var m := MarkingMachine(cfg, db, t);
    m.(db := Post(Mark(m.db, t, InProgress), ByLoop, Validating), pc := Validate(ValidateEvent(Picked(cfg, db, t), 0)))
  }

  /** The machine when the loop is about to mark the task failed. */
  function FailingMachine(cfg: Config, db: Db, t: nat): Machine
    requires cfg.phases != []
  {
    var m := ReturnedMachine(cfg, db, t);
    m.(db := Post(m.db, ByLoop, Validating),
       pc := Validate(FailMark(Picked(cfg, db, t))), validations := [Validation(t, false, 0)])
  }

  lemma DriveToSelected(cfg: Config, db: Db, seeded: set<nat>, t: nat)
    requires Startable(cfg, db, seeded, t)
    ensures Execute(cfg, Boot(db), Drive(5)) == SelectedMachine(cfg, db, t)
  {
    hide FindCurrentPhase, FirstOpen, Drive, Execute, PrepareStep, GateStep, CodexStep, ValidateStep;
    DriveNone(cfg, Boot(db));
    DriveOne(cfg, Boot(db), 1);
    DriveOne(cfg, Boot(db), 2);
    DriveOne(cfg, Boot(db), 3);
    DriveOne(cfg, Boot(db), 4);
    DriveOne(cfg, Boot(db), 5);
  }

  lemma DriveNone(cfg: Config, m: Machine)
    ensures Execute(cfg, m, Drive(0)) == m
  {
  }

  lemma DriveToMarking(cfg: Config, db: Db, seeded: set<nat>, t: nat)
    requires Drivable(cfg, db, seeded, t)
    ensures Execute(cfg, Boot(db), Drive(7)) == MarkingMachine(cfg, db, t)
  {
    hide FindCurrentPhase, FirstOpen, Drive, Execute, SelectStep, GateStep, CodexStep, ValidateStep;
    DriveToSelected(cfg, db, seeded, t);
    DriveOne(cfg, Boot(db), 6);
    DriveOne(cfg, Boot(db), 7);
  }

  lemma DriveToReturned(cfg: Config, db: Db, seeded: set<nat>, t: nat)
    requires Drivable(cfg, db, seeded, t)
    ensures Execute(cfg, Boot(db), Drive(10)) == ReturnedMachine(cfg, db, t)
  {
    hide FindCurrentPhase, FirstOpen, Drive, Execute, Drivable, SelectStep, GateStep;
    DriveToMarking(cfg, db, seeded, t);
    hide SelectedMachine;
    DriveOne(cfg, Boot(db), 8);
    DriveOne(cfg, Boot(db), 9);
    DriveOne(cfg, Boot(db), 10);
  }

  lemma DriveToFailing(cfg: Config, db: Db, seeded: set<nat>, t: nat)
    requires Drivable(cfg, db, seeded, t)
    ensures Execute(cfg, Boot(db), Drive(12)) == FailingMachine(cfg, db, t)
  {
    hide FindCurrentPhase, FirstOpen, Drive, Execute, Drivable, SelectStep, GateStep, PrepareStep, CodexStep;
    DriveToReturned(cfg, db, seeded, t);
    hide SelectedMachine, MarkingMachine;
    DriveOne(cfg, Boot(db), 11);
    DriveOne(cfg, Boot(db), 12);
  }

  // ----- a diagnosis that ends silently

  /** The operator pauses, which says that nothing is in flight, and asks for a Deep Diagnose. */
  const PAUSE_AND_DIAGNOSE: seq<ListenerOp> :=
    [WritePaused(true), PostNote(PausedNote), DiagnoseIdle, DiagnoseCheck, DiagnoseStart, DiagnoseRead]

  function Commits(ops: seq<ListenerOp>): seq<Label> {
    if ops == [] then [] else Commits(ops[..|ops| - 1]) + [Listener(ops[|ops| - 1])]
  }

  lemma CommitOne(cfg: Config, m: Machine, ops: seq<ListenerOp>, n: nat)
    requires n < |ops|
    ensures Execute(cfg, m, Commits(ops[..n + 1])) == ListenerStep(Execute(cfg, m, Commits(ops[..n])), ops[n])
  {
    assert ops[..n + 1][..n] == ops[..n];
    ExecuteSnoc(cfg, m, Commits(ops[..n]), Listener(ops[n]));
  }

  lemma NoFailureEventSnoc(events: seq<Event>, e: Event)
    requires !HasFailureEvent(events) && e.kind != ValidationFailed
    ensures !HasFailureEvent(events + [e])
  {
    var all := events + [e];
    assert forall i :: 0 <= i < |events| ==> all[i] == events[i];
  }

  lemma StepsMiss(m: Machine)
    requires ActiveRowFailed(m.db.tasks) && !HasFailureEvent(m.db.events)
    requires m.diagIdle == 0 && m.diagChecked == 0 && m.diagRunning == 0
    ensures var m3 := ListenerStep(ListenerStep(ListenerStep(m, PostNote(PausedNote)), DiagnoseIdle), DiagnoseCheck);
            var m' := ListenerStep(ListenerStep(m3, DiagnoseStart), DiagnoseRead);
            && m'.diagSilent == m.diagSilent + 1 && m'.diagFound == m.diagFound && m'.pc == m.pc
            && m'.diagRunning == 0
  {
    hide ActiveRowFailed, HasFailureEvent, OperatorInFlight;
    var note, running := Event(ByListener, PausedNote), Event(ByListener, MediumReviewRunning);
    NoFailureEventSnoc(m.db.events, note);
    NoFailureEventSnoc(m.db.events + [note], running);
    InFlightSnoc(m.db.events, note);
  }

  /** While a failed task has no failure event, a diagnosis asked for now ends without its event. */
  lemma DiagnosisMisses(cfg: Config, m: Machine)
    requires ActiveRowFailed(m.db.tasks) && !HasFailureEvent(m.db.events)
    requires m.diagIdle == 0 && m.diagChecked == 0 && m.diagRunning == 0
    ensures var m' := Execute(cfg, m, Commits(PAUSE_AND_DIAGNOSE));
            && m'.diagSilent == m.diagSilent + 1 && m'.diagFound == m.diagFound && m'.pc == m.pc
            && m'.diagRunning == 0
  {
    hide Execute, ActiveRowFailed, HasFailureEvent, OperatorInFlight, Commits, ListenerStep;
    var ops := PAUSE_AND_DIAGNOSE;
    PausingOnlyPauses(m);
    StepsMiss(ListenerStep(m, WritePaused(true)));
    CommitNone(cfg, m, ops);
    CommitOne(cfg, m, ops, 0);
    CommitOne(cfg, m, ops, 1);
    CommitOne(cfg, m, ops, 2);
    CommitOne(cfg, m, ops, 3);
    CommitOne(cfg, m, ops, 4);
    CommitOne(cfg, m, ops, 5);
    assert ops[..6] == ops;
  }

  lemma PausingOnlyPauses(m: Machine)
    ensures ListenerStep(m, WritePaused(true)) == m.(db := m.db.(paused := true))
  {
  }

  lemma CommitNone(cfg: Config, m: Machine, ops: seq<ListenerOp>)
    ensures Execute(cfg, m, Commits(ops[..0])) == m
  {
  }

  /** The failed status is written, its event is not. */
  lemma DriveToUnposted(cfg: Config, db: Db, seeded: set<nat>, t: nat)
    requires Drivable(cfg, db, seeded, t)
    ensures var m := Execute(cfg, Boot(db), Drive(13));
            && m.pc == Validate(FailEvent(Picked(cfg, db, t))) && ActiveRowFailed(m.db.tasks)
            && !HasFailureEvent(m.db.events)
            && m.diagIdle == 0 && m.diagChecked == 0 && m.diagRunning == 0 && m.diagFound == 0 && m.diagSilent == 0
  {
    hide FindCurrentPhase, FirstOpen, Drive, Execute, ReadsBack;
    DriveToFailing(cfg, db, seeded, t);
    DriveOne(cfg, Boot(db), 13);
    var m := FailingMachine(cfg, db, t);
    assert m.db.tasks[t := Failed] == db.tasks[t := InProgress][t := Failed];
    assert m.db.tasks[t := Failed][t] == Failed;
  }

  /** From a fresh store, in its first session: a diagnosis asked for in the window between the failed
      status and the first failure event ends without its closing event. */
  lemma DiagnosisCanEndSilently(cfg: Config, db: Db, seeded: set<nat>, t: nat)
    requires Drivable(cfg, db, seeded, t)
    ensures var m := Execute(cfg, Boot(db), Drive(13) + Commits(PAUSE_AND_DIAGNOSE));
            m.diagSilent == 1 && m.diagFound == 0 && m.diagRunning == 0 && FailureUnposted(m.pc)
  {
    hide Execute, Drive, Commits, Drivable;
    DriveToUnposted(cfg, db, seeded, t);
    ExecuteConcat(cfg, Boot(db), Drive(13), Commits(PAUSE_AND_DIAGNOSE));
    DiagnosisMisses(cfg, Execute(cfg, Boot(db), Drive(13)));
  }

  /** After a crash in that window the failure stays without an event, and so a diagnosis asked for at
      any later time, here before the next session has done anything, ends silently too. */
  lemma CrashMakesDiagnosisSilent(cfg: Config, db: Db, seeded: set<nat>, t: nat)
    requires Drivable(cfg, db, seeded, t)
    ensures var before := Drive(13) + [Crash] + [Restart];
            var m := Execute(cfg, Boot(db), before + Commits(PAUSE_AND_DIAGNOSE));
            && m.diagSilent == 1 && m.diagFound == 0 && m.diagRunning == 0 && m.pc == Select(Start)
            && FailureLost(cfg, Boot(db), before)
  {
    hide Execute, Drive, Commits, Drivable;
    DriveToUnposted(cfg, db, seeded, t);
    var crashed := Drive(13) + [Crash];
    var before := crashed + [Restart];
    ExecuteSnoc(cfg, Boot(db), Drive(13), Crash);
    ExecuteSnoc(cfg, Boot(db), crashed, Restart);
    ExecuteConcat(cfg, Boot(db), before, Commits(PAUSE_AND_DIAGNOSE));
    DiagnosisMisses(cfg, Execute(cfg, Boot(db), before));
    assert crashed[..|crashed| - 1] == Drive(13) && before[..|before| - 1] == crashed;
    assert FailureLost(cfg, Boot(db), crashed);
  }

  // ----- a decision of the operator that is overruled

  function GateOf(cfg: Config, db: Db, t: nat): Gate
    requires cfg.phases != []
  {
    RiskyTask(Picked(cfg, db, t))
  }

  /** The machine when the risky task's gate is open and announced. */
  function PollingMachine(cfg: Config, db: Db, t: nat): Machine
    requires cfg.phases != []
  {
    var m, g := SelectedMachine(cfg, db, t), GateOf(cfg, db, t);
    var row := Approval(Some(RiskyGate), cfg.names.riskRef(t), Undecided);
    m.(db := Post(Insert(m.db.(currentTask := Some(t)), row), ByLoop, ApprovalRequired), pc := AtGate(GatePoll(g)))
  }

  lemma DriveToPolling(cfg: Config, db: Db, seeded: set<nat>, t: nat)
    requires DrivableToGate(cfg, db, seeded, t)
    ensures Execute(cfg, Boot(db), Drive(9)) == PollingMachine(cfg, db, t)
    ensures LatestDecision(PollingMachine(cfg, db, t).db.approvals, cfg.names.riskRef(t)) == None
  {
    hide FindCurrentPhase, FirstOpen, Drive, Execute, SelectStep, CodexStep, ValidateStep;
    DriveToSelected(cfg, db, seeded, t);
    DriveOne(cfg, Boot(db), 6);
    DriveOne(cfg, Boot(db), 7);
    DriveOne(cfg, Boot(db), 8);
    DriveOne(cfg, Boot(db), 9);
  }

  lemma InsertIsNewest(m: Machine, ref: string, approved: bool)
    ensures LatestDecision(ListenerStep(m, InsertDecision(ref, approved)).db.approvals, ref) == Some(approved)
    ensures ListenerStep(m, InsertDecision(ref, approved)).pc == m.pc
  {
    hide LatestDecision;
    LatestDecisionSnoc(m.db.approvals, Approval(None, ref, Verdict(approved)), ref);
  }

  lemma DriveToSleeping(cfg: Config, db: Db, seeded: set<nat>, t: nat)
    requires DrivableToGate(cfg, db, seeded, t)
    ensures Execute(cfg, Boot(db), Drive(10)).pc == AtGate(GateSleep(GateOf(cfg, db, t)))
  {
    hide Drive, Execute, LatestDecision, FindCurrentPhase, FirstOpen, SelectStep, PrepareStep, CodexStep, ValidateStep;
    DriveToPolling(cfg, db, seeded, t);
    DriveOne(cfg, Boot(db), 10);
  }

  lemma RefusedIsSkipped(cfg: Config, m: Machine, c: Ctx, i: Input)
    requires m.pc == AfterGate(RiskyTask(c), false)
    ensures StatusOf(LoopStep(cfg, m, i).db.tasks, c.t) == Skipped
  {
  }

  /** From a fresh store: the operator approves a risky task while its gate sleeps, the deadline passes,
      and the loop records a rejection over the approval and skips the task. */
  lemma LateApprovalIsOverruled(cfg: Config, db: Db, seeded: set<nat>, t: nat)
    requires DrivableToGate(cfg, db, seeded, t)
    ensures var ref := cfg.names.riskRef(t);
            var approved := Drive(10) + [Listener(InsertDecision(ref, true))];
            var overruled := approved + [Loop(LATE), Loop(LATE)];
            && LatestDecision(Execute(cfg, Boot(db), approved).db.approvals, ref) == Some(true)
            && LatestDecision(Execute(cfg, Boot(db), overruled).db.approvals, ref) == Some(false)
            && StatusOf(Execute(cfg, Boot(db), overruled + [Loop(LATE)]).db.tasks, t) == Skipped
  {
    var ref, g := cfg.names.riskRef(t), GateOf(cfg, db, t);
    assert GateRef(cfg, g) == ref;
    hide Drive, Execute, LatestDecision, DrivableToGate, FindCurrentPhase, LoopStep, ListenerStep, GateRef, AfterGate;
    DriveToSleeping(cfg, db, seeded, t);
    var m, yes, late := Boot(db), Listener(InsertDecision(ref, true)), [Loop(LATE), Loop(LATE)];
    var approved := Drive(10) + [yes];
    ExecuteSnoc(cfg, m, Drive(10), yes);
    InsertIsNewest(Execute(cfg, m, Drive(10)), ref, true);
    DeadlineOverrules(cfg, Execute(cfg, m, approved), g, LATE);
    ExecuteConcat(cfg, m, approved, late);
    ExecuteSnoc(cfg, m, approved + late, Loop(LATE));
    RefusedIsSkipped(cfg, Execute(cfg, m, approved + late), g.ctx, LATE);
  }

  /** From a fresh store: the loop has polled the operator's decision on a risky task and not recorded it
      yet when the operator takes it back. It records the first decision over the second and acts on
      it: a task is worked on although the operator's last word was no, or refused although it was yes. */
  lemma ChangedDecisionIsOverruled(cfg: Config, db: Db, seeded: set<nat>, t: nat, first: bool)
    requires DrivableToGate(cfg, db, seeded, t)
    ensures var ref := cfg.names.riskRef(t);
            var polled := Drive(9) + [Listener(InsertDecision(ref, first))] + [Loop(LATE)];
            var changed := polled + [Listener(InsertDecision(ref, !first))];
            var m := Execute(cfg, Boot(db), changed + [Loop(LATE)]);
            && LatestDecision(Execute(cfg, Boot(db), changed).db.approvals, ref) == Some(!first)
            && LatestDecision(m.db.approvals, ref) == Some(first) && m.pc == AfterGate(GateOf(cfg, db, t), first)
  {
    var ref, g := cfg.names.riskRef(t), GateOf(cfg, db, t);
    hide Drive, Execute, LatestDecision, DrivableToGate, FindCurrentPhase, SelectStep, CodexStep, ValidateStep;
    DriveToPolling(cfg, db, seeded, t);
    var decided := Drive(9) + [Listener(InsertDecision(ref, first))];
    ExecuteSnoc(cfg, Boot(db), Drive(9), Listener(InsertDecision(ref, first)));
    InsertIsNewest(Execute(cfg, Boot(db), Drive(9)), ref, first);
    hide PollingMachine, SelectedMachine;
    var polled := decided + [Loop(LATE)];
    ExecuteSnoc(cfg, Boot(db), decided, Loop(LATE));
    assert Execute(cfg, Boot(db), polled).pc == AtGate(GateRecord(g, first)) && GateRef(cfg, g) == ref;
    var changed := polled + [Listener(InsertDecision(ref, !first))];
    ExecuteSnoc(cfg, Boot(db), polled, Listener(InsertDecision(ref, !first)));
    InsertIsNewest(Execute(cfg, Boot(db), polled), ref, !first);
    RecordOverrules(cfg, Execute(cfg, Boot(db), changed), g, first, LATE);
    ExecuteConcat(cfg, Boot(db), changed, [Loop(LATE)]);
  }
}
