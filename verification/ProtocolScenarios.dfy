/** What the loop does when nobody interferes: each part of an iteration, from its start to its end, as one
    change of the tables. */
module ProtocolScenarios {
  import opened Text
  import opened Protocol
  import opened ProtocolSafety

  /** The machine after some steps of the loop alone, with the same answers of the outside world. */
  function Alone(cfg: Config, m: Machine, i: Input, n: nat): Machine {
    if n == 0 then m else LoopStep(cfg, Alone(cfg, m, i, n - 1), i)
  }

  /** They are a run like any other. */
  lemma {:induction false} AloneIsARun(cfg: Config, m: Machine, i: Input, n: nat) returns (labels: seq<Label>)
    ensures |labels| == n && (forall l :: l in labels ==> l == Loop(i)) && Execute(cfg, m, labels) == Alone(cfg, m, i, n)
  {
    labels := [];
    if n > 0 {
      labels := AloneIsARun(cfg, m, i, n - 1);
      ExecuteSnoc(cfg, m, labels, Loop(i));
      labels := labels + [Loop(i)];
    }
  }

  lemma AloneNext(cfg: Config, m: Machine, i: Input, n: nat)
    ensures Alone(cfg, m, i, 0) == m && Alone(cfg, m, i, n + 1) == LoopStep(cfg, Alone(cfg, m, i, n), i)
  {
  }

  lemma {:induction false} AloneAdds(cfg: Config, m: Machine, i: Input, a: nat, b: nat)
    ensures Alone(cfg, m, i, a + b) == Alone(cfg, Alone(cfg, m, i, a), i, b)
  {
    hide LoopStep;
    if b > 0 { AloneAdds(cfg, m, i, a, b - 1); }
  }

  function By(kind: EventKind): Event {
    Event(ByLoop, kind)
  }

  // ----- starting, and finding nothing to do

  /** A session announces itself, starts its counters at zero, and then waits while it is paused. */
  lemma SessionStarts(cfg: Config, m: Machine, i: Input)
    requires m.pc == Select(Start) && i.iterationCap.None?
    ensures var started := m.(pc := Select(Top), iterations := 0, completed := 0,
                              db := m.db.(events := m.db.events + [By(RunStarted)]));
            && Alone(cfg, m, i, 1) == started
            && (m.db.paused ==> Alone(cfg, m, i, 2) == started)
            && (!m.db.paused ==> Alone(cfg, m, i, 2).pc == Select(ReadStatuses) && Alone(cfg, m, i, 2).iterations == 1)
  {
    hide Alone, GateStep, PrepareStep, CodexStep, ValidateStep, FindCurrentPhase, Dispatch;
    AloneNext(cfg, m, i, 0);
    AloneNext(cfg, m, i, 1);
  }

  /** A run that is marked complete announces its end and returns. */
  lemma CompleteRunReturns(cfg: Config, m: Machine, i: Input)
    requires m.pc == Select(ReadStatuses) && cfg.names.isComplete(m.db.currentPhase)
    ensures Alone(cfg, m, i, 3) == m.(pc := Returned, db := m.db.(events := m.db.events + [By(TaskDone)]))
  {
    hide Alone, GateStep, PrepareStep, CodexStep, ValidateStep, FindCurrentPhase, Dispatch;
    AloneNext(cfg, m, i, 0);
    AloneNext(cfg, m, i, 1);
    AloneNext(cfg, m, i, 2);
  }

  /** Without a stored phase the first one with open work is stored; its first open task becomes current. */
  lemma FirstTaskIsEntered(cfg: Config, m: Machine, i: Input, k: nat, t: nat)
    requires m.pc == Select(ReadStatuses) && WellFormed(cfg) && m.db.currentPhase == "" && cfg.phases != []
    requires k == FindCurrentPhase(cfg.phases, m.db.tasks) && FirstOpen(m.db.tasks, cfg.phases[k].tasks) == Some(t)
    ensures var at := Alone(cfg, m, i, 5);
            && at.db == m.db.(currentPhase := cfg.names.display(cfg.phases[k]), currentTask := Some(t))
            && (var s := StatusOf(m.db.tasks, t);
                var c := Ctx(k, t, i.mode, i.mode == Manual && (s == InProgress || s == Failed));
                at.pc == if c.resume then Prepare(ResumeEvent(c))
                         else if t in cfg.risky then AtGate(GateInsert(RiskyTask(c)))
                         else Prepare(MarkInProgress(c)))
  {
    hide Alone, GateStep, CodexStep, ValidateStep, FindCurrentPhase, FirstOpen;
    AloneNext(cfg, m, i, 0);
    AloneNext(cfg, m, i, 1);
    AloneNext(cfg, m, i, 2);
    AloneNext(cfg, m, i, 3);
    AloneNext(cfg, m, i, 4);
  }

  /** With a stored phase nothing is written: its first open task is taken up; when all its tasks are closed its
      exit is asked for; and when it has none the run is at its end. */
  lemma StoredPhaseGoesOn(cfg: Config, m: Machine, i: Input, k: nat)
    requires m.pc == Select(ReadStatuses) && !cfg.names.isComplete(m.db.currentPhase)
    requires Resolve(cfg, m.db.currentPhase) == Some(k) && k < |cfg.phases|
    ensures var at, tasks := Alone(cfg, m, i, 2), cfg.phases[k].tasks;
            && at.db == m.db
            && (at.pc == Select(FinishEvent) <==> tasks == [])
            && (at.pc == AtGate(GateInsert(PhaseExit(k))) <==>
                  tasks != [] && forall t :: t in tasks ==> StatusOf(m.db.tasks, t) in {Done, Skipped})
            && forall j :: 0 <= j < |tasks| && StatusOf(m.db.tasks, tasks[j]) !in {Done, Skipped}
                           && (forall l :: 0 <= l < j ==> StatusOf(m.db.tasks, tasks[l]) in {Done, Skipped}) ==>
                           at.pc == Prepare(ReadTaskStatus(k, tasks[j]))
  {
    hide Alone, GateStep, PrepareStep, CodexStep, ValidateStep, FindCurrentPhase;
    AloneNext(cfg, m, i, 0);
    AloneNext(cfg, m, i, 1);
    FirstIsTheFirst(m.db.tasks, cfg.phases[k].tasks);
  }

  lemma FirstIsTheFirst(tasks: map<nat, Status>, ids: seq<nat>)
    ensures FirstOpen(tasks, ids).None? <==> forall t :: t in ids ==> StatusOf(tasks, t) in {Done, Skipped}
    ensures forall j :: 0 <= j < |ids| && StatusOf(tasks, ids[j]) !in {Done, Skipped}
                        && (forall l :: 0 <= l < j ==> StatusOf(tasks, ids[l]) in {Done, Skipped}) ==>
                        FirstOpen(tasks, ids) == Some(ids[j])
  {
    var r := FirstOpen(tasks, ids);
    if r.Some? {
      var i :| 0 <= i < |ids| && ids[i] == r.value && forall j :: 0 <= j < i ==> !Open(tasks, ids[j]);
      forall j | 0 <= j < |ids| && StatusOf(tasks, ids[j]) !in {Done, Skipped}
                 && (forall l :: 0 <= l < j ==> StatusOf(tasks, ids[l]) in {Done, Skipped})
        ensures r == Some(ids[j])
      {
        assert Open(tasks, ids[j]) && Open(tasks, ids[i]);
      }
    } else {
      forall j | 0 <= j < |ids| ensures StatusOf(tasks, ids[j]) in {Done, Skipped} { assert ids[j] in ids; }
    }
  }

  // ----- gates

  /** The rows and the event of a gate on one reference that is decided one way. */
  function Gated(db: Db, kind: GateType, ref: string, approved: bool): Db {
    db.(approvals := db.approvals + [Approval(Some(kind), ref, Undecided),
                                     Approval(Some(kind), ref, if approved then Approved else Rejected)],
        events := db.events + [By(ApprovalRequired)])
  }

  /** A gate whose reference is decided already is passed or refused accordingly in four steps. */
  lemma DecidedGate(cfg: Config, m: Machine, i: Input, g: Gate, approved: bool)
    requires m.pc == AtGate(GateInsert(g)) && LatestDecision(m.db.approvals, GateRef(cfg, g)) == Some(approved)
    ensures var kind := if g.PhaseExit? then PhaseTransition else RiskyGate;
            Alone(cfg, m, i, 4) == m.(pc := AfterGate(g, approved), db := Gated(m.db, kind, GateRef(cfg, g), approved))
  {
    hide Alone, SelectStep, PrepareStep, CodexStep, ValidateStep, LatestDecision, AfterGate, GateRef;
    var kind := if g.PhaseExit? then PhaseTransition else RiskyGate;
    var rows, pending, decided := m.db.approvals, Approval(Some(kind), GateRef(cfg, g), Undecided),
      Approval(Some(kind), GateRef(cfg, g), Verdict(approved));
    LatestDecisionSnoc(rows, pending, GateRef(cfg, g));
    AloneNext(cfg, m, i, 0);
    AloneNext(cfg, m, i, 1);
    AloneNext(cfg, m, i, 2);
    AloneNext(cfg, m, i, 3);
    assert rows + [pending] + [decided] == rows + [pending, decided];
  }

  /** A gate nobody decides is refused when its deadline passes. */
  lemma UndecidedGate(cfg: Config, m: Machine, i: Input, g: Gate)
    requires m.pc == AtGate(GateInsert(g)) && LatestDecision(m.db.approvals, GateRef(cfg, g)) == None && i.deadlinePassed
    ensures var kind := if g.PhaseExit? then PhaseTransition else RiskyGate;
            Alone(cfg, m, i, 5) == m.(pc := AfterGate(g, false), db := Gated(m.db, kind, GateRef(cfg, g), false))
  {
    hide Alone, SelectStep, PrepareStep, CodexStep, ValidateStep, LatestDecision, AfterGate, GateRef;
    var kind := if g.PhaseExit? then PhaseTransition else RiskyGate;
    var rows, pending, decided := m.db.approvals, Approval(Some(kind), GateRef(cfg, g), Undecided),
      Approval(Some(kind), GateRef(cfg, g), Rejected);
    LatestDecisionSnoc(rows, pending, GateRef(cfg, g));
    AloneNext(cfg, m, i, 0);
    AloneNext(cfg, m, i, 1);
    AloneNext(cfg, m, i, 2);
    AloneNext(cfg, m, i, 3);
    AloneNext(cfg, m, i, 4);
    assert rows + [pending] + [decided] == rows + [pending, decided];
  }

  /** An approved exit stores the next phase, or that the run is complete; a refused one pauses and returns.
      An approved risky task is marked next; a refused one is skipped. */
  lemma AfterTheGate(cfg: Config, m: Machine, i: Input, g: Gate, approved: bool)
    requires m.pc == AfterGate(g, approved)
    ensures g.PhaseExit? && approved ==>
      var next := if g.phase + 1 < |cfg.phases| then cfg.names.display(cfg.phases[g.phase + 1]) else cfg.names.complete;
      Alone(cfg, m, i, 1) == m.(pc := Select(Top), db := m.db.(currentPhase := next))
    ensures g.PhaseExit? && !approved ==>
      Alone(cfg, m, i, 2) == m.(pc := Returned, db := m.db.(paused := true, events := m.db.events + [By(PausedNote)]))
    ensures g.RiskyTask? && approved ==> m.pc == Prepare(MarkInProgress(g.ctx))
    ensures g.RiskyTask? && !approved ==>
      Alone(cfg, m, i, 2) == m.(pc := Select(Top), db := m.db.(tasks := m.db.tasks[g.ctx.t := Skipped],
                                                              events := m.db.events + [By(PausedNote)]))
  {
    hide Alone, SelectStep, CodexStep, ValidateStep, LatestDecision;
    AloneNext(cfg, m, i, 0);
    AloneNext(cfg, m, i, 1);
  }

  // ----- prompts

  /** In manual mode the task is marked, its prompt announced, and the loop pauses. */
  lemma PromptIsShown(cfg: Config, m: Machine, i: Input, c: Ctx)
    requires m.pc == Prepare(MarkInProgress(c)) && c.mode == Manual
    ensures Alone(cfg, m, i, 4) ==
      m.(pc := Select(Top), db := m.db.(tasks := m.db.tasks[c.t := InProgress], paused := true,
                                        events := m.db.events + [By(PromptReady), By(PausedNote)]))
  {
    hide Alone, SelectStep, GateStep, CodexStep, ValidateStep;
    AloneNext(cfg, m, i, 0);
    AloneNext(cfg, m, i, 1);
    AloneNext(cfg, m, i, 2);
    AloneNext(cfg, m, i, 3);
    assert m.db.events + [By(PromptReady)] + [By(PausedNote)] == m.db.events + [By(PromptReady), By(PausedNote)];
  }

  /** In automatic mode a bad prompt pauses the loop, waits for clarification, and ends the session. */
  lemma PromptIsBlocked(cfg: Config, m: Machine, i: Input, c: Ctx)
    requires m.pc == Prepare(MarkInProgress(c)) && c.mode == Auto && !i.lintClean
    ensures Alone(cfg, m, i, 5) ==
      m.(pc := Returned, db := m.db.(tasks := m.db.tasks[c.t := InProgress], paused := true,
                                     awaitingClarification := Some(c.t),
                                     events := m.db.events + [By(CodexPromptBlocked)]))
  {
    hide Alone, SelectStep, GateStep, CodexStep, ValidateStep;
    AloneNext(cfg, m, i, 0);
    AloneAdds(cfg, m, i, 1, 4);
    BlockedEnds(cfg, Alone(cfg, m, i, 1), i, c);
    assert m.db.tasks[c.t := InProgress][c.t := InProgress] == m.db.tasks[c.t := InProgress];
  }

  lemma BlockedEnds(cfg: Config, m: Machine, i: Input, c: Ctx)
    requires m.pc == Prepare(BlockPause(c))
    ensures Alone(cfg, m, i, 4) ==
      m.(pc := Returned, db := m.db.(tasks := m.db.tasks[c.t := InProgress], paused := true,
                                     awaitingClarification := Some(c.t),
                                     events := m.db.events + [By(CodexPromptBlocked)]))
  {
    hide Alone, SelectStep, GateStep, CodexStep, ValidateStep;
    AloneNext(cfg, m, i, 0);
    AloneNext(cfg, m, i, 1);
    AloneNext(cfg, m, i, 2);
    AloneNext(cfg, m, i, 3);
  }

  // ----- Codex

  /** What a run of Codex that does not return cleanly leaves: the loop is paused, a question waits for
      clarification and everything else for a review, and the event says why; the session is over. */
  lemma CodexStops(cfg: Config, m: Machine, i: Input, c: Ctx)
    requires m.pc == Codex(CodexEvent(c))
    requires i.codex.Finished? ==> i.codex.clarification || i.codex.rc != 0
    ensures var question := i.codex.Finished? && i.codex.clarification;
            var kind := if i.codex.TimedOut? then CodexTimeout else if question then CodexQuestion else CodexFailure;
            Alone(cfg, m, i, 5) ==
            m.(pc := Returned,
               db := m.db.(paused := true, events := m.db.events + [By(Validating), By(kind)],
                           awaitingClarification := if question then Some(c.t) else m.db.awaitingClarification,
                           awaitingReview := if question then m.db.awaitingReview else Some(c.t)))
  {
    hide Alone, SelectStep, GateStep, PrepareStep, ValidateStep;
    AloneNext(cfg, m, i, 0);
    AloneNext(cfg, m, i, 1);
    AloneNext(cfg, m, i, 2);
    AloneNext(cfg, m, i, 3);
    AloneNext(cfg, m, i, 4);
    var kind := if i.codex.TimedOut? then CodexTimeout
                else if i.codex.Finished? && i.codex.clarification then CodexQuestion else CodexFailure;
    assert m.db.events + [By(Validating)] + [By(kind)] == m.db.events + [By(Validating), By(kind)];
  }

  /** A clean return goes on to validation. */
  lemma CodexReturns(cfg: Config, m: Machine, i: Input, c: Ctx)
    requires m.pc == Codex(CodexEvent(c)) && i.codex == Finished(false, 0)
    ensures Alone(cfg, m, i, 2) ==
      m.(pc := Validate(ValidateEvent(c, 0)), db := m.db.(events := m.db.events + [By(Validating)]))
  {
    hide Alone, SelectStep, GateStep, PrepareStep, ValidateStep;
    AloneNext(cfg, m, i, 0);
    AloneNext(cfg, m, i, 1);
  }

  // ----- validation

  /** A failed validation marks the task failed, says so, and pauses the loop. */
  lemma ValidationFails(cfg: Config, m: Machine, i: Input, c: Ctx)
    requires m.pc == Validate(ValidateEvent(c, 0)) && !i.validatorPassed
    ensures Alone(cfg, m, i, 6) ==
      m.(pc := Select(Top), validations := m.validations + [Validation(c.t, false, 0)],
         db := m.db.(tasks := m.db.tasks[c.t := Failed], paused := true,
                     events := m.db.events + [By(Validating), By(ValidationFailed), By(PausedNote)]))
  {
    hide Alone, SelectStep, GateStep, PrepareStep, CodexStep;
    AloneNext(cfg, m, i, 0);
    AloneNext(cfg, m, i, 1);
    AloneNext(cfg, m, i, 2);
    AloneNext(cfg, m, i, 3);
    AloneNext(cfg, m, i, 4);
    AloneNext(cfg, m, i, 5);
    assert m.db.events + [By(Validating)] + [By(ValidationFailed)] + [By(PausedNote)]
        == m.db.events + [By(Validating), By(ValidationFailed), By(PausedNote)];
  }

  /** A passed one marks it done and says so; in automatic mode it is counted, and when the count reaches the
      limit the loop pauses, says so, and the session is over. */
  lemma ValidationPasses(cfg: Config, m: Machine, i: Input, c: Ctx)
    requires m.pc == Validate(ValidateEvent(c, 0)) && i.validatorPassed
    ensures var completed := if c.mode == Auto then m.completed + 1 else m.completed;
            var done := m.(completed := completed, validations := m.validations + [Validation(c.t, true, 0)],
                           db := m.db.(tasks := m.db.tasks[c.t := Done],
                                       events := m.db.events + [By(Validating), By(TaskDone)]));
            if c.mode == Auto && completed >= cfg.maxAutoTasks
            then Alone(cfg, m, i, 6) ==
                 done.(pc := Returned, db := done.db.(paused := true, events := done.db.events + [By(SessionLimit)]))
            else Alone(cfg, m, i, 4) == done.(pc := Select(Top))
  {
    hide Alone, SelectStep, GateStep, PrepareStep, CodexStep;
    AloneNext(cfg, m, i, 0);
    AloneNext(cfg, m, i, 1);
    AloneNext(cfg, m, i, 2);
    AloneNext(cfg, m, i, 3);
    assert m.db.events + [By(Validating)] + [By(TaskDone)] == m.db.events + [By(Validating), By(TaskDone)];
    AloneAdds(cfg, m, i, 4, 2);
    if Alone(cfg, m, i, 4).pc == Validate(LimitPause(c)) { LimitEnds(cfg, Alone(cfg, m, i, 4), i, c); }
  }

  lemma LimitEnds(cfg: Config, m: Machine, i: Input, c: Ctx)
    requires m.pc == Validate(LimitPause(c))
    ensures Alone(cfg, m, i, 2) ==
      m.(pc := Returned, db := m.db.(paused := true, events := m.db.events + [By(SessionLimit)]))
  {
    hide Alone, SelectStep, GateStep, PrepareStep, CodexStep;
    AloneNext(cfg, m, i, 0);
    AloneNext(cfg, m, i, 1);
  }

  /** A resumed task goes straight to validation. */
  lemma TaskIsResumed(cfg: Config, m: Machine, i: Input, c: Ctx)
    requires m.pc == Prepare(ResumeEvent(c))
    ensures Alone(cfg, m, i, 1) ==
      m.(pc := Validate(ValidateEvent(c, 0)), db := m.db.(events := m.db.events + [By(ResumeReceived)]))
  {
    AloneNext(cfg, m, i, 0);
  }
}
