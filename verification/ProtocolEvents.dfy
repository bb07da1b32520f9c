/** What the operator's event log says about work in flight and about diagnoses. */
module ProtocolEvents {
  import opened Protocol

  // ----- work in flight

  lemma InFlightSnoc(events: seq<Event>, e: Event)
    ensures OperatorInFlight(events + [e]) ==
            if Relevant(e.kind) then InFlightKind(e.kind) else OperatorInFlight(events)
  {
    assert (events + [e])[..|events|] == events;
  }

  /** An event of work begun, with only announcements and advice after it. */
  predicate BegunAt(events: seq<Event>, i: nat) {
    && i < |events| && events[i].kind in {ResumeReceived, Validating, MediumReviewRunning}
    && forall j :: i < j < |events| ==> events[j].kind in {RunStarted, Advisory}
  }

  lemma BegunSnoc(events: seq<Event>, e: Event, i: nat)
    ensures BegunAt(events + [e], i) <==>
      || (i == |events| && e.kind in {ResumeReceived, Validating, MediumReviewRunning})
      || (BegunAt(events, i) && e.kind in {RunStarted, Advisory})
  {
    var all := events + [e];
    assert all[|events|] == e;
    if BegunAt(all, i) && i < |events| {
      assert forall j :: i <= j < |events| ==> all[j] == events[j];
      assert all[|events|].kind in {RunStarted, Advisory};
    }
  }

  /** Work is in flight exactly when, but for announcements and advice, the newest event says that a task was
      resumed, that validation began or that a review runs. */
  lemma {:induction false} InFlightMeans(events: seq<Event>)
    ensures OperatorInFlight(events) <==> exists i: nat :: BegunAt(events, i)
  {
    hide BegunAt;
    if events == [] {
      forall i: nat ensures !BegunAt(events, i) { NothingBegun(i); }
    } else {
      var n := |events| - 1;
      var front, e := events[..n], events[n];
      assert events == front + [e];
      InFlightMeans(front);
      OneKind(e.kind);
      forall i: nat ensures BegunAt(events, i) <==>
          || (i == n && e.kind in {ResumeReceived, Validating, MediumReviewRunning})
          || (BegunAt(front, i) && e.kind in {RunStarted, Advisory}) {
        BegunSnoc(front, e, i);
      }
      if InFlightKind(e.kind) { assert BegunAt(events, n); }
    }
  }

  lemma NothingBegun(i: nat)
    ensures !BegunAt([], i)
  {
  }

  lemma OneKind(k: EventKind)
    ensures InFlightKind(k) <==> k in {ResumeReceived, Validating, MediumReviewRunning}
    ensures Relevant(k) <==> k !in {RunStarted, Advisory}
  {
  }

  /** No event type is both in flight and terminal. */
  lemma KindsDisjoint(k: EventKind)
    ensures !(InFlightKind(k) && TerminalKind(k))
  {
  }

  predicate ClosesAt(events: seq<Event>, i: nat) {
    && i < |events| && events[i].author == ByLoop && TerminalKind(events[i].kind)
    && forall j :: i < j < |events| && events[j].author == ByLoop ==> !InFlightKind(events[j].kind)
  }

  /** Since position `mark` the loop has posted a terminal event and nothing in flight after it. */
  predicate Settled(events: seq<Event>, mark: nat) {
    exists i :: mark <= i < |events| && ClosesAt(events, i)
  }

  /** The listener has posted an event of work in flight since position `mark`. */
  predicate ListenerStarted(events: seq<Event>, mark: nat) {
    exists j :: mark <= j < |events| && events[j].author == ByListener && InFlightKind(events[j].kind)
  }

  lemma SettledSnoc(events: seq<Event>, mark: nat, e: Event)
    ensures Settled(events, mark) && (e.author == ByListener || !InFlightKind(e.kind)) ==> Settled(events + [e], mark)
    ensures mark <= |events| && e.author == ByLoop && TerminalKind(e.kind) ==> Settled(events + [e], mark)
  {
    var all := events + [e];
    if Settled(events, mark) && (e.author == ByListener || !InFlightKind(e.kind)) {
      var i :| mark <= i < |events| && ClosesAt(events, i);
      assert ClosesAt(all, i);
    }
    if mark <= |events| && e.author == ByLoop && TerminalKind(e.kind) {
      assert ClosesAt(all, |events|);
    }
  }

  /** In a settled log, work in flight can only be the listener's. */
  lemma {:induction false} InFlightIsTheListeners(events: seq<Event>, mark: nat)
    requires Settled(events, mark) && OperatorInFlight(events)
    ensures ListenerStarted(events, mark)
  {
    var n := |events| - 1;
    var i :| mark <= i < |events| && ClosesAt(events, i);
    if !Relevant(events[n].kind) {
      assert ClosesAt(events[..n], i);
      InFlightIsTheListeners(events[..n], mark);
      var j :| mark <= j < n && events[..n][j].author == ByListener && InFlightKind(events[..n][j].kind);
      assert events[j] == events[..n][j];
    } else {
      KindsDisjoint(events[n].kind);
    }
  }

  /** The iteration has settled its log: it is over, or only the crossing of a phase is left. */
  predicate PastTheEvents(m: Machine) {
    match m.pc
    case Select(s) => s.Top? && m.iterations > 0
    case AtGate(g) =>
      g.PhaseAdvance? || ((g.GatePoll? || g.GateSleep? || g.GateRecord?) && g.gate.PhaseExit?)
    case Prepare(_) => false
    case Codex(_) => false
    case Validate(_) => false
    case Returned => m.iterations > 0
    case Raised => false
  }

  /** The mark lies in the log, and an iteration past its last event has settled the log. */
  predicate LogOk(m: Machine) {
    && m.mark <= |m.db.events|
    && (PastTheEvents(m) ==> Settled(m.db.events, m.mark))
  }

  lemma ListenerKeepsLog(m: Machine, op: ListenerOp)
    requires LogOk(m)
    ensures LogOk(ListenerStep(m, op))
  {
    var m' := ListenerStep(m, op);
    if m'.db.events != m.db.events {
      SettledSnoc(m.db.events, m.mark, m'.db.events[|m.db.events|]);
    }
  }

  // A program point past the events is reached by posting a terminal event, or from one
  // that was past them already.

  lemma SelectKeepsLog(cfg: Config, m: Machine, s: SelectPoint, i: Input)
    requires m.pc == Select(s) && LogOk(m)
    ensures LogOk(SelectStep(cfg, m, s, i))
  {
    SettledSnoc(m.db.events, m.mark, Event(ByLoop, RunStarted));
    SettledSnoc(m.db.events, m.mark, Event(ByLoop, TaskDone));
  }

  lemma GateKeepsLog(cfg: Config, m: Machine, g: GatePoint, i: Input)
    requires m.pc == AtGate(g) && LogOk(m)
    ensures LogOk(GateStep(cfg, m, g, i))
  {
    hide Settled, OperatorInFlight, LatestDecision;
    var events' := GateStep(cfg, m, g, i).db.events;
    if events' != m.db.events {
      SettledSnoc(m.db.events, m.mark, events'[|m.db.events|]);
    }
  }

  lemma PrepareKeepsLog(cfg: Config, m: Machine, p: PreparePoint, i: Input)
    requires m.pc == Prepare(p) && LogOk(m)
    ensures LogOk(PrepareStep(cfg, m, p, i))
  {
    hide Settled, OperatorInFlight, LatestDecision;
    var events' := PrepareStep(cfg, m, p, i).db.events;
    if events' != m.db.events {
      SettledSnoc(m.db.events, m.mark, events'[|m.db.events|]);
    }
  }

  lemma CodexKeepsLog(m: Machine, x: CodexPoint, i: Input)
    requires m.pc == Codex(x) && LogOk(m)
    ensures LogOk(CodexStep(m, x, i))
  {
    hide Settled, OperatorInFlight, LatestDecision;
    var events' := CodexStep(m, x, i).db.events;
    if events' != m.db.events {
      SettledSnoc(m.db.events, m.mark, events'[|m.db.events|]);
    }
  }

  lemma ValidateKeepsLog(cfg: Config, m: Machine, v: ValidatePoint, i: Input)
    requires m.pc == Validate(v) && LogOk(m)
    ensures LogOk(ValidateStep(cfg, m, v, i))
  {
    hide Settled, OperatorInFlight, LatestDecision;
    var events' := ValidateStep(cfg, m, v, i).db.events;
    if events' != m.db.events {
      SettledSnoc(m.db.events, m.mark, events'[|m.db.events|]);
    }
  }

  lemma LoopKeepsLog(cfg: Config, m: Machine, i: Input)
    requires LogOk(m)
    ensures LogOk(LoopStep(cfg, m, i))
  {
    match m.pc
    case Select(s) => SelectKeepsLog(cfg, m, s, i);
    case AtGate(g) => GateKeepsLog(cfg, m, g, i);
    case Prepare(p) => PrepareKeepsLog(cfg, m, p, i);
    case Codex(x) => CodexKeepsLog(m, x, i);
    case Validate(v) => ValidateKeepsLog(cfg, m, v, i);
    case Returned =>
    case Raised =>
  }

  lemma {:induction false} LogAlwaysOk(cfg: Config, m: Machine, labels: seq<Label>)
    requires LogOk(m)
    ensures LogOk(Execute(cfg, m, labels))
  {
    if labels != [] {
      var front, l := labels[..|labels| - 1], labels[|labels| - 1];
      LogAlwaysOk(cfg, m, front);
      match l
      case Loop(i) => LoopKeepsLog(cfg, Execute(cfg, m, front), i);
      case Listener(op) => ListenerKeepsLog(Execute(cfg, m, front), op);
      case Restart =>
      case Crash =>
    }
  }

  /** In every interleaving, when an iteration has ended - the loop is back at its top or has
      returned - work is in flight only because the listener posted so since that iteration
      began; so without a listener event it leaves nothing in flight, whatever was before. */
  lemma IterationsEndSettled(cfg: Config, db: Db, labels: seq<Label>)
    ensures var m := Execute(cfg, Boot(db), labels);
            (m.pc == Select(Top) || m.pc == Returned) && m.iterations > 0 && !ListenerStarted(m.db.events, m.mark) ==>
              !OperatorInFlight(m.db.events)
  {
    LogAlwaysOk(cfg, Boot(db), labels);
    var m := Execute(cfg, Boot(db), labels);
    if Settled(m.db.events, m.mark) && OperatorInFlight(m.db.events) {
      InFlightIsTheListeners(m.db.events, m.mark);
    }
  }

  // ----- a started diagnosis is closed

  function CountKind(events: seq<Event>, kind: EventKind): nat {
    if events == [] then 0
    else CountKind(events[..|events| - 1], kind) + (if events[|events| - 1].kind == kind then 1 else 0)
  }

  lemma CountSnoc(events: seq<Event>, e: Event, kind: EventKind)
    ensures CountKind(events + [e], kind) == CountKind(events, kind) + (if e.kind == kind then 1 else 0)
  {
    assert (events + [e])[..|events|] == events;
  }

  predicate SomeFailed(tasks: map<nat, Status>) {
    exists t :: t in tasks && tasks[t] == Failed
  }

  /** The loop has written a failed status and is about to post the failure. */
  predicate FailureUnposted(pc: Pc) {
    pc.Validate? && pc.v.FailEvent?
  }

  /** A crash here leaves the first failure of a store without its event for good. */
  predicate LosesFailure(m: Machine, l: Label) {
    l == Crash && FailureUnposted(m.pc) && !HasFailureEvent(m.db.events)
  }

  /** Some step of a run was such a crash. */
  predicate FailureLost(cfg: Config, m: Machine, labels: seq<Label>) {
    labels != []
    && var front := labels[..|labels| - 1];
       FailureLost(cfg, m, front) || LosesFailure(Execute(cfg, m, front), labels[|labels| - 1])
  }

  /** Started diagnoses are running, found their failure, have posted their end, or ended
      silently; and a failed task, or a diagnosis under way, has its failure event unless the
      loop is just about to post it, or crashed when it was about to. */
  predicate DiagnosesOk(m: Machine, lost: bool) {
    && CountKind(m.db.events, MediumReviewRunning) ==
         CountKind(m.db.events, MediumReviewDone) + m.diagRunning + m.diagFound + m.diagSilent
    && (SomeFailed(m.db.tasks) || m.diagChecked > 0 || m.diagRunning > 0 ==>
          HasFailureEvent(m.db.events) || FailureUnposted(m.pc) || lost)
  }

  lemma FailureEventStays(events: seq<Event>, e: Event)
    ensures HasFailureEvent(events) || e.kind == ValidationFailed ==> HasFailureEvent(events + [e])
  {
    var all := events + [e];
    if HasFailureEvent(events) {
      var i :| 0 <= i < |events| && events[i].kind == ValidationFailed;
      assert all[i] == events[i];
    }
    if e.kind == ValidationFailed { assert all[|events|] == e; }
  }

  lemma SomeFailedAfterMark(tasks: map<nat, Status>, t: nat, s: Status)
    requires SomeFailed(tasks[t := s]) && s != Failed
    ensures SomeFailed(tasks)
  {
    var u :| u in tasks[t := s] && tasks[t := s][u] == Failed;
    assert u in tasks && tasks[u] == Failed;
  }

  /** The loop never posts a medium review, so its events leave the counts alone. */
  lemma PostKeepsCounts(events: seq<Event>, e: Event)
    ensures e.kind != MediumReviewRunning ==>
              CountKind(events + [e], MediumReviewRunning) == CountKind(events, MediumReviewRunning)
    ensures e.kind != MediumReviewDone ==>
              CountKind(events + [e], MediumReviewDone) == CountKind(events, MediumReviewDone)
    ensures HasFailureEvent(events) || e.kind == ValidationFailed ==> HasFailureEvent(events + [e])
  {
    CountSnoc(events, e, MediumReviewRunning);
    CountSnoc(events, e, MediumReviewDone);
    FailureEventStays(events, e);
  }

  lemma MarkKeepsFailed(tasks: map<nat, Status>, t: nat, s: Status)
    ensures s != Failed && SomeFailed(tasks[t := s]) ==> SomeFailed(tasks)
  {
    if s != Failed && SomeFailed(tasks[t := s]) { SomeFailedAfterMark(tasks, t, s); }
  }

  lemma SelectKeepsDiagnoses(cfg: Config, m: Machine, s: SelectPoint, i: Input, lost: bool)
    requires m.pc == Select(s) && DiagnosesOk(m, lost)
    ensures DiagnosesOk(SelectStep(cfg, m, s, i), lost)
  {
    hide CountKind, HasFailureEvent, SomeFailed, OperatorInFlight, LatestDecision;
    var m' := SelectStep(cfg, m, s, i);
    if m'.db.events != m.db.events {
      PostKeepsCounts(m.db.events, m'.db.events[|m.db.events|]);
    }
  }

  lemma GateKeepsDiagnoses(cfg: Config, m: Machine, g: GatePoint, i: Input, lost: bool)
    requires m.pc == AtGate(g) && DiagnosesOk(m, lost)
    ensures DiagnosesOk(GateStep(cfg, m, g, i), lost)
  {
    hide CountKind, HasFailureEvent, SomeFailed, OperatorInFlight, LatestDecision;
    var m' := GateStep(cfg, m, g, i);
    if m'.db.events != m.db.events {
      PostKeepsCounts(m.db.events, m'.db.events[|m.db.events|]);
    }
  }

  lemma PrepareKeepsDiagnoses(cfg: Config, m: Machine, p: PreparePoint, i: Input, lost: bool)
    requires m.pc == Prepare(p) && DiagnosesOk(m, lost)
    ensures DiagnosesOk(PrepareStep(cfg, m, p, i), lost)
  {
    hide CountKind, HasFailureEvent, SomeFailed, OperatorInFlight, LatestDecision;
    var m' := PrepareStep(cfg, m, p, i);
    if m'.db.events != m.db.events {
      PostKeepsCounts(m.db.events, m'.db.events[|m.db.events|]);
    }
    if !p.ReadTaskStatus? {
      MarkKeepsFailed(m.db.tasks, p.c.t, Skipped);
      MarkKeepsFailed(m.db.tasks, p.c.t, InProgress);
    }
  }

  lemma CodexKeepsDiagnoses(m: Machine, x: CodexPoint, i: Input, lost: bool)
    requires m.pc == Codex(x) && DiagnosesOk(m, lost)
    ensures DiagnosesOk(CodexStep(m, x, i), lost)
  {
    hide CountKind, HasFailureEvent, SomeFailed, OperatorInFlight, LatestDecision;
    var m' := CodexStep(m, x, i);
    if m'.db.events != m.db.events {
      PostKeepsCounts(m.db.events, m'.db.events[|m.db.events|]);
    }
  }

  lemma ValidateKeepsDiagnoses(cfg: Config, m: Machine, v: ValidatePoint, i: Input, lost: bool)
    requires m.pc == Validate(v) && DiagnosesOk(m, lost)
    ensures DiagnosesOk(ValidateStep(cfg, m, v, i), lost)
  {
    hide CountKind, HasFailureEvent, SomeFailed, OperatorInFlight, LatestDecision;
    var m' := ValidateStep(cfg, m, v, i);
    if m'.db.events != m.db.events {
      PostKeepsCounts(m.db.events, m'.db.events[|m.db.events|]);
    }
    MarkKeepsFailed(m.db.tasks, v.c.t, Done);
  }

  lemma ListenerKeepsDiagnoses(m: Machine, op: ListenerOp, lost: bool)
    requires DiagnosesOk(m, lost)
    ensures DiagnosesOk(ListenerStep(m, op), lost)
  {
    hide OperatorInFlight, CountKind, HasFailureEvent, SomeFailed, ActiveRowFailed;
    var m' := ListenerStep(m, op);
    if m'.db.events != m.db.events {
      var e := m'.db.events[|m.db.events|];
      CountSnoc(m.db.events, e, MediumReviewRunning);
      CountSnoc(m.db.events, e, MediumReviewDone);
      FailureEventStays(m.db.events, e);
    }
    if op.WriteSkipped? { MarkKeepsFailed(m.db.tasks, op.task, Skipped); }
    if op.DiagnoseCheck? { ShownRowMeansFailed(m.db.tasks); }
  }

  lemma ShownRowMeansFailed(tasks: map<nat, Status>)
    ensures ActiveRowFailed(tasks) ==> SomeFailed(tasks)
  {
  }

  lemma StepKeepsDiagnoses(cfg: Config, m: Machine, l: Label, lost: bool)
    requires DiagnosesOk(m, lost)
    ensures DiagnosesOk(Step(cfg, m, l), lost || LosesFailure(m, l))
  {
    hide DiagnosesOk;
    match l
    case Loop(i) =>
      match m.pc {
        case Select(s) => SelectKeepsDiagnoses(cfg, m, s, i, lost);
        case AtGate(g) => GateKeepsDiagnoses(cfg, m, g, i, lost);
        case Prepare(p) => PrepareKeepsDiagnoses(cfg, m, p, i, lost);
        case Codex(x) => CodexKeepsDiagnoses(m, x, i, lost);
        case Validate(v) => ValidateKeepsDiagnoses(cfg, m, v, i, lost);
        case Returned =>
        case Raised =>
      }
    case Listener(op) => ListenerKeepsDiagnoses(m, op, lost);
    case Restart => EndKeepsDiagnoses(cfg, m, l, lost);
    case Crash => EndKeepsDiagnoses(cfg, m, l, lost);
  }

  lemma EndKeepsDiagnoses(cfg: Config, m: Machine, l: Label, lost: bool)
    requires DiagnosesOk(m, lost) && (l == Restart || l == Crash)
    ensures DiagnosesOk(Step(cfg, m, l), lost || LosesFailure(m, l))
  {
  }

  lemma {:induction false} DiagnosesAlwaysOk(cfg: Config, m: Machine, labels: seq<Label>)
    requires DiagnosesOk(m, false)
    ensures DiagnosesOk(Execute(cfg, m, labels), FailureLost(cfg, m, labels))
  {
    hide DiagnosesOk, LosesFailure;
    if labels != [] {
      var front, l := labels[..|labels| - 1], labels[|labels| - 1];
      DiagnosesAlwaysOk(cfg, m, front);
      StepKeepsDiagnoses(cfg, Execute(cfg, m, front), l, FailureLost(cfg, m, front));
    }
  }

  lemma FreshDiagnosesOk(db: Db)
    requires db.events == [] && !SomeFailed(db.tasks)
    ensures DiagnosesOk(Boot(db), false)
  {
  }

  /** In every run from a store without failed tasks, restarts and crashes included, every Deep
      Diagnose that was started is accounted for; and a step ends one without its closing event
      exactly when it looks for the failure while none is recorded, which happens only while the
      loop is about to post the first one, or after it crashed there. */
  lemma StartedDiagnosesClose(cfg: Config, db: Db, labels: seq<Label>, l: Label)
    requires db.events == [] && !SomeFailed(db.tasks)
    ensures var m := Execute(cfg, Boot(db), labels);
            && CountKind(m.db.events, MediumReviewRunning) ==
                 CountKind(m.db.events, MediumReviewDone) + m.diagRunning + m.diagFound + m.diagSilent
            && (Step(cfg, m, l).diagSilent > m.diagSilent <==>
                  && l == Listener(DiagnoseRead) && m.diagRunning > 0 && !HasFailureEvent(m.db.events)
                  && (FailureUnposted(m.pc) || FailureLost(cfg, Boot(db), labels)))
  {
    FreshDiagnosesOk(db);
    DiagnosesAlwaysOk(cfg, Boot(db), labels);
    OnlyReadEndsSilently(cfg, Execute(cfg, Boot(db), labels), l);
  }

  lemma OnlyReadEndsSilently(cfg: Config, m: Machine, l: Label)
    ensures Step(cfg, m, l).diagSilent > m.diagSilent <==>
              l == Listener(DiagnoseRead) && m.diagRunning > 0 && !HasFailureEvent(m.db.events)
  {
  }
}
