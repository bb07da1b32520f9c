/** Exactly when a task that is done or skipped can be opened again. */
module ProtocolReopening {
  import opened Text
  import opened Protocol
  import opened ProtocolWitness

  // ----- one step

  /** The three points at which the loop writes an open status. */
  predicate AboutToOpen(pc: Pc, t: nat) {
    || (pc.Prepare? && (pc.p.MarkInProgress? || pc.p.BlockMark?) && pc.p.c.t == t)
    || (pc.Validate? && pc.v.FailMark? && pc.v.c.t == t)
  }

  /** A closed task is open after a step exactly when the loop takes it at one of those points. */
  lemma StepOpensExactlyWhen(cfg: Config, m: Machine, l: Label, t: nat)
    requires !Open(m.db.tasks, t)
    ensures Open(Step(cfg, m, l).db.tasks, t) <==> l.Loop? && AboutToOpen(m.pc, t)
  {
    hide Resolve, FindCurrentPhase, LatestDecision, Dispatch, OperatorInFlight, ActiveRowFailed, HasFailureEvent;
    match l
    case Loop(i) =>
      match m.pc {
        case Select(_) =>
        case AtGate(_) =>
        case Prepare(_) =>
        case Codex(_) =>
        case Validate(_) =>
        case Returned =>
        case Raised =>
      }
    case Listener(_) =>
    case Restart =>
    case Crash =>
  }

  // ----- from which points on

  /** With this snapshot the loop picks the task in phase `k`. */
  predicate Picks(cfg: Config, snap: map<nat, Status>, k: nat, t: nat) {
    k < |cfg.phases| && FirstOpen(snap, cfg.phases[k].tasks) == Some(t)
  }

  predicate SelectMayOpen(cfg: Config, phase: string, s: SelectPoint, t: nat) {
    match s
    case ReadPhase(snap) =>
      var found := Resolve(cfg, phase);
      && !cfg.names.isComplete(phase)
      && (if found.Some? && found.value < |cfg.phases| then Picks(cfg, snap, found.value, t)
          else cfg.phases != [] && Picks(cfg, snap, FindCurrentPhase(cfg.phases, snap), t))
    case WritePhase(snap, k) => Picks(cfg, snap, k, t)
    case Start => false
    case Top => false
    case ReadStatuses => false
    case FinishEvent => false
  }

  predicate GateMayOpen(g: GatePoint, t: nat) {
    && !g.PhaseAdvance? && !g.PhasePause? && !g.PhasePausedEvent?
    && g.gate.RiskyTask? && g.gate.ctx.t == t && (g.GateRecord? ==> g.approved)
  }

  predicate PrepareMayOpen(p: PreparePoint, t: nat) {
    if p.ReadTaskStatus? then p.t == t
    else
      && p.c.t == t
      && (p.WriteCurrentTask? || p.ResumeEvent? || p.MarkInProgress? || p.BlockPause? || p.BlockAwait? || p.BlockMark?)
  }

  /** A snapshot that would pick the task, the way from there to its mark, its gate until it is refused,
      and its run and validation until they have passed. */
  predicate PointMayOpen(cfg: Config, phase: string, pc: Pc, t: nat) {
    match pc
    case Select(s) => SelectMayOpen(cfg, phase, s, t)
    case AtGate(g) => GateMayOpen(g, t)
    case Prepare(p) => PrepareMayOpen(p, t)
    case Codex(x) => (x.CodexEvent? || x.CodexRun?) && x.c.t == t
    case Validate(v) => (v.ValidateEvent? || v.ValidateRun? || v.FailMark?) && v.c.t == t
    case Returned => false
    case Raised => false
  }

  predicate MayReopen(cfg: Config, m: Machine, t: nat) {
    Open(m.db.tasks, t) || PointMayOpen(cfg, m.db.currentPhase, m.pc, t)
  }

  // ----- outside them a closed task is closed for ever

  lemma DispatchStaysOut(cfg: Config, snap: map<nat, Status>, k: nat, phase: string, t: nat)
    requires k < |cfg.phases| && !Picks(cfg, snap, k, t)
    ensures !PointMayOpen(cfg, phase, Dispatch(cfg, snap, k), t)
  {
  }

  lemma SelectStaysOut(cfg: Config, m: Machine, s: SelectPoint, i: Input, t: nat)
    requires m.pc == Select(s) && !MayReopen(cfg, m, t)
    ensures !MayReopen(cfg, SelectStep(cfg, m, s, i), t)
  {
    hide Dispatch, FirstOpen, FindCurrentPhase, Resolve;
    var phase := SelectStep(cfg, m, s, i).db.currentPhase;
    if s.WritePhase? && s.phase < |cfg.phases| {
      DispatchStaysOut(cfg, s.snap, s.phase, phase, t);
    } else if s.ReadPhase? {
      var found := Resolve(cfg, m.db.currentPhase);
      if !cfg.names.isComplete(m.db.currentPhase) && found.Some? && found.value < |cfg.phases| {
        DispatchStaysOut(cfg, s.snap, found.value, phase, t);
      }
    } else if s.ReadStatuses? {
      ClosedIsNotPicked(cfg, m.db.tasks, m.db.currentPhase, t);
    }
  }

  lemma ClosedIsNotPicked(cfg: Config, tasks: map<nat, Status>, phase: string, t: nat)
    requires !Open(tasks, t)
    ensures !SelectMayOpen(cfg, phase, ReadPhase(tasks), t)
  {
  }

  lemma GateStaysOut(cfg: Config, m: Machine, g: GatePoint, i: Input, t: nat)
    requires m.pc == AtGate(g) && !MayReopen(cfg, m, t)
    ensures !MayReopen(cfg, GateStep(cfg, m, g, i), t)
  {
    hide LatestDecision;
  }

  lemma PrepareStaysOut(cfg: Config, m: Machine, p: PreparePoint, i: Input, t: nat)
    requires m.pc == Prepare(p) && !MayReopen(cfg, m, t)
    ensures !MayReopen(cfg, PrepareStep(cfg, m, p, i), t)
  {
  }

  lemma CodexStaysOut(cfg: Config, m: Machine, x: CodexPoint, i: Input, t: nat)
    requires m.pc == Codex(x) && !MayReopen(cfg, m, t)
    ensures !MayReopen(cfg, CodexStep(m, x, i), t)
  {
    hide SelectMayOpen, LatestDecision, Dispatch;
  }

  lemma ValidateStaysOut(cfg: Config, m: Machine, v: ValidatePoint, i: Input, t: nat)
    requires m.pc == Validate(v) && !MayReopen(cfg, m, t)
    ensures !MayReopen(cfg, ValidateStep(cfg, m, v, i), t)
  {
    hide LatestDecision, Dispatch;
  }

  lemma ListenerStaysOut(cfg: Config, m: Machine, op: ListenerOp, t: nat)
    requires !MayReopen(cfg, m, t)
    ensures !MayReopen(cfg, ListenerStep(m, op), t)
  {
    hide PointMayOpen, OperatorInFlight, ActiveRowFailed, HasFailureEvent;
  }

  lemma StepStaysOut(cfg: Config, m: Machine, l: Label, t: nat)
    requires !MayReopen(cfg, m, t)
    ensures !MayReopen(cfg, Step(cfg, m, l), t)
  {
    hide MayReopen;
    match l
    case Loop(i) =>
      match m.pc {
        case Select(s) => SelectStaysOut(cfg, m, s, i, t);
        case AtGate(g) => GateStaysOut(cfg, m, g, i, t);
        case Prepare(p) => PrepareStaysOut(cfg, m, p, i, t);
        case Codex(x) => CodexStaysOut(cfg, m, x, i, t);
        case Validate(v) => ValidateStaysOut(cfg, m, v, i, t);
        case Returned =>
        case Raised =>
      }
    case Listener(op) => ListenerStaysOut(cfg, m, op, t);
    case Restart => EndStaysOut(cfg, m, l, t);
    case Crash => EndStaysOut(cfg, m, l, t);
  }

  lemma EndStaysOut(cfg: Config, m: Machine, l: Label, t: nat)
    requires !MayReopen(cfg, m, t) && (l == Restart || l == Crash)
    ensures !MayReopen(cfg, Step(cfg, m, l), t)
  {
  }

  lemma {:induction false} StaysClosed(cfg: Config, m: Machine, labels: seq<Label>, t: nat)
    requires !MayReopen(cfg, m, t)
    ensures !MayReopen(cfg, Execute(cfg, m, labels), t)
  {
    hide MayReopen;
    if labels != [] {
      var front := labels[..|labels| - 1];
      StaysClosed(cfg, m, front, t);
      StepStaysOut(cfg, Execute(cfg, m, front), labels[|labels| - 1], t);
    }
  }

  // ----- from them some run opens it

  /** The next label of a run that opens the task: the operator approves its gate if need be, and the loop
      goes on with a prompt that is clean, a clean return and a failing validator. */
  function Towards(cfg: Config, m: Machine): Label {
    if m.pc.AtGate? && m.pc.g.GatePoll? && LatestDecision(m.db.approvals, GateRef(cfg, m.pc.g.gate)) != Some(true)
    then Listener(InsertDecision(GateRef(cfg, m.pc.g.gate), true))
    else Loop(FAILING)
  }

  /** How many such labels it takes at most. */
  function Distance(cfg: Config, m: Machine): nat {
    match m.pc
    case Select(s) => if s.ReadPhase? then 12 else 11
    case AtGate(g) =>
      if g.GateInsert? then 7
      else if g.GateEvent? then 6
      else if g.GateSleep? then 5
      else if g.GatePoll? then
        (if LatestDecision(m.db.approvals, GateRef(cfg, g.gate)) == Some(true) then 3 else 4)
      else 2
    case Prepare(p) =>
      if p.ReadTaskStatus? then 10
      else if p.WriteCurrentTask? then 9
      else if p.ResumeEvent? then 4
      else if p.BlockPause? then 3
      else if p.BlockAwait? then 2
      else 1
    case Codex(x) => if x.CodexEvent? then 5 else 4
    case Validate(v) => if v.ValidateEvent? then 3 else if v.ValidateRun? then 2 else 1
    case Returned => 0
    case Raised => 0
  }

  /** One step nearer, or there. */
  predicate Nearer(cfg: Config, m: Machine, m': Machine, t: nat) {
    Open(m'.db.tasks, t) || (MayReopen(cfg, m', t) && Distance(cfg, m') < Distance(cfg, m))
  }

  lemma DispatchGoesIn(cfg: Config, snap: map<nat, Status>, k: nat, t: nat)
    requires Picks(cfg, snap, k, t)
    ensures Dispatch(cfg, snap, k) == Prepare(ReadTaskStatus(k, t))
  {
  }

  lemma SelectGoesOn(cfg: Config, m: Machine, s: SelectPoint, t: nat)
    requires m.pc == Select(s) && SelectMayOpen(cfg, m.db.currentPhase, s, t)
    ensures Nearer(cfg, m, SelectStep(cfg, m, s, FAILING), t)
  {
    hide Dispatch, FirstOpen, FindCurrentPhase, Resolve, LatestDecision;
    if s.WritePhase? {
      DispatchGoesIn(cfg, s.snap, s.phase, t);
    } else {
      var found := Resolve(cfg, m.db.currentPhase);
      if found.Some? && found.value < |cfg.phases| { DispatchGoesIn(cfg, s.snap, found.value, t); }
    }
  }

  lemma GateGoesOn(cfg: Config, m: Machine, g: GatePoint, t: nat)
    requires m.pc == AtGate(g) && GateMayOpen(g, t)
    ensures Nearer(cfg, m, Step(cfg, m, Towards(cfg, m)), t)
  {
    if g.GatePoll? && Towards(cfg, m).Listener? {
      var row := Approval(None, GateRef(cfg, g.gate), Approved);
      assert (m.db.approvals + [row])[|m.db.approvals + [row]| - 1] == row;
      assert LatestDecision(m.db.approvals + [row], GateRef(cfg, g.gate)) == Some(true);
    }
  }

  lemma PrepareGoesOn(cfg: Config, m: Machine, p: PreparePoint, t: nat)
    requires m.pc == Prepare(p) && PrepareMayOpen(p, t)
    ensures Nearer(cfg, m, PrepareStep(cfg, m, p, FAILING), t)
  {
    hide LatestDecision;
  }

  lemma WorkGoesOn(cfg: Config, m: Machine, t: nat)
    requires (m.pc.Codex? || m.pc.Validate?) && PointMayOpen(cfg, m.db.currentPhase, m.pc, t)
    ensures Nearer(cfg, m, LoopStep(cfg, m, FAILING), t)
  {
    hide LatestDecision;
  }

  lemma GoesOn(cfg: Config, m: Machine, t: nat)
    requires PointMayOpen(cfg, m.db.currentPhase, m.pc, t)
    ensures Nearer(cfg, m, Step(cfg, m, Towards(cfg, m)), t)
  {
    hide Nearer, SelectMayOpen, PrepareMayOpen, GateMayOpen, LatestDecision;
    match m.pc
    case Select(s) => SelectGoesOn(cfg, m, s, t);
    case AtGate(g) => GateGoesOn(cfg, m, g, t);
    case Prepare(p) => PrepareGoesOn(cfg, m, p, t);
    case Codex(_) => WorkGoesOn(cfg, m, t);
    case Validate(_) => WorkGoesOn(cfg, m, t);
  }

  lemma {:induction false} SomeRunOpens(cfg: Config, m: Machine, t: nat) returns (labels: seq<Label>)
    requires MayReopen(cfg, m, t)
    ensures Open(Execute(cfg, m, labels).db.tasks, t)
    decreases Distance(cfg, m), Open(m.db.tasks, t)
  {
    hide PointMayOpen, Distance, Towards, Step;
    labels := [];
    if !Open(m.db.tasks, t) {
      var l := Towards(cfg, m);
      GoesOn(cfg, m, t);
      ExecuteSnoc(cfg, m, [], l);
      if Open(Step(cfg, m, l).db.tasks, t) {
        labels := [] + [l];
      } else {
        var rest := SomeRunOpens(cfg, Step(cfg, m, l), t);
        ExecuteConcat(cfg, m, [] + [l], rest);
        labels := [] + [l] + rest;
      }
    }
  }

  // ----- the exact condition

  /** A task is open at some point of some continuation exactly when it is open now, or the loop stands at
      one of the points from which its mark is still to come. */
  lemma CanOpenExactlyWhen(cfg: Config, m: Machine, t: nat)
    ensures (exists labels :: Open(Execute(cfg, m, labels).db.tasks, t)) <==> MayReopen(cfg, m, t)
  {
    hide Execute, PointMayOpen;
    if MayReopen(cfg, m, t) {
      var labels := SomeRunOpens(cfg, m, t);
    } else {
      forall labels ensures !Open(Execute(cfg, m, labels).db.tasks, t) {
        StaysClosed(cfg, m, labels, t);
      }
    }
  }

  /** A skip of the operator is for good exactly when the loop stands outside those points. */
  lemma SkipIsForGoodExactlyWhen(cfg: Config, m: Machine, t: nat)
    ensures (forall labels :: !Open(Execute(cfg, ListenerStep(m, WriteSkipped(t)), labels).db.tasks, t))
       <==> !PointMayOpen(cfg, m.db.currentPhase, m.pc, t)
  {
    hide Execute, PointMayOpen;
    CanOpenExactlyWhen(cfg, ListenerStep(m, WriteSkipped(t)), t);
  }

  /** In particular, what is closed at an iteration boundary, or once its validation has passed, stays so. */
  lemma ClosedAtBoundaryStaysClosed(cfg: Config, m: Machine, labels: seq<Label>, t: nat)
    requires !Open(m.db.tasks, t)
    requires m.pc == Select(Top) || m.pc == Returned || (m.pc.Validate? && m.pc.v.DoneEvent?)
    ensures !Open(Execute(cfg, m, labels).db.tasks, t)
  {
    StaysClosed(cfg, m, labels, t);
  }

  /** From a fresh store: a skip that lands when the prompt is ready is undone by the loop's next step. */
  lemma SkipInsideIterationIsLost(cfg: Config, db: Db, seeded: set<nat>, t: nat)
    requires Drivable(cfg, db, seeded, t)
    ensures var skipped := Drive(7) + [Listener(WriteSkipped(t))];
            && !Open(Execute(cfg, Boot(db), skipped).db.tasks, t)
            && Open(Execute(cfg, Boot(db), skipped + [Loop(FAILING)]).db.tasks, t)
  {
    hide Execute, Drive, Drivable, FindCurrentPhase;
    DriveToMarking(cfg, db, seeded, t);
    ExecuteSnoc(cfg, Boot(db), Drive(7), Listener(WriteSkipped(t)));
    ExecuteSnoc(cfg, Boot(db), Drive(7) + [Listener(WriteSkipped(t))], Loop(FAILING));
  }
}
