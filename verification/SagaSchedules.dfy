/** Schedule independence: with only injected faults, enough stock, an answer that decides it
    heard for every step, and no manual retry, how an order ends depends on its fault columns
    alone, not on interleaving, message order, crashes or recoveries. */
module SagaSchedules {
  import opened Vocabulary
  import opened Saga

  /** The environment, as a condition on each action: no shortage, no manual retry, and a step
      gives up only after an answer that is not the 409 of a twin in flight or the 500 of a
      failed statement. */
  predicate Benign(s: State, a: Action) {
    && !a.Retry?
    && (a.Reply? || a.Deliver? ==> !a.shortage)
    && (a.Record? && HasExec(s.run, a.step) && s.run.execs[a.step].Failing? ==> s.run.execs[a.step].heard)
  }

  predicate BenignRun(s: State, acts: seq<Action>) requires IsRun(s, acts) decreases |acts| {
    acts == [] ||
    (BenignRun(s, acts[..|acts| - 1]) && Benign(After(s, acts[..|acts| - 1]), acts[|acts| - 1]))
  }

  predicate FailsForward(order: Order) {
    order.failAt.Some? && IsForward(order.failAt.value)
  }

  /** compFailAt names the undo of some forward step other than the failing one. */
  predicate FailsUndo(order: Order) requires FailsForward(order) {
    && order.compFailAt.Some? && !IsForward(order.compFailAt.value)
    && order.compFailAt.value != CompensationOf(order.failAt.value)
  }

  /** How the order ends, from its fault columns. */
  function Ending(order: Order): OrderStatus {
    if !FailsForward(order) then Placed
    else if FailsUndo(order) then NeedsAttention
    else Cancelled
  }

  predicate Final(status: OrderStatus) {
    status.Placed? || status.Cancelled? || status.NeedsAttention? || status.Shipped?
  }

  // ---- The invariant --------------------------------------------------------

  /** Whether the step fails by injection in this order. */
  predicate Faulty(order: Order, step: Step) {
    Injected(order, Request(step, false))
  }

  /** A faulty step never takes effect and is never recorded SUCCEEDED; a forward row in a
      service is always backed by its idempotency record. */
  predicate StepSound(s: State, st: Step) {
    && (Faulty(s.order, st) ==> st !in s.done && !HasStatus(s.steps, st, Succeeded))
    && (IsForward(st) && EffectOf(s.effects, st).row != Absent ==> st in s.done)
    && Request(st, true) !in s.wire
  }

  /** Only a faulty step hears a refusal, and only a faulty step is given up. */
  predicate ExecSound(s: State, st: Step, e: Exec) {
    && st in s.steps
    && (e.Calling? && e.heard ==> Faulty(s.order, st))
    && (e.Failing? && e.heard ==> Faulty(s.order, st))
    && (e.Bad? ==> Faulty(s.order, st))
    && (e.Succeeding? ==> st in s.done)
    && (e.Ok? ==> HasStatus(s.steps, st, Succeeded))
  }

  /** The forward phase is over: everything but the failing step succeeded. */
  predicate Decided(s: State) {
    && FailsForward(s.order)
    && forall f: Step | IsForward(f) :: HasStatus(s.steps, f, Succeeded) <==> f != s.order.failAt.value
  }

  /** The undos this order needs. */
  predicate NeededSet(order: Order, needed: set<Step>) {
    && FailsForward(order)
    && forall undo: Step :: undo in needed <==> !IsForward(undo) && undo != CompensationOf(order.failAt.value)
  }

  predicate PhaseSound(s: State) {
    && (s.status.Compensating? ==> Decided(s))
    && match s.run
       case NoRun => true
       case FwdInit => s.status.InProgress?
       case FwdRead => s.status.InProgress? && forall f: Step | IsForward(f) :: f in s.steps
       case Forward(execs) =>
         && s.status.InProgress?
         && forall f: Step | IsForward(f) :: f !in execs ==> HasStatus(s.steps, f, Succeeded)
       case Place => s.status.InProgress? && !FailsForward(s.order)
       case Rollback => s.status.InProgress? && Decided(s)
       case CompRead(force) => s.status.Compensating? && !force
       case CompInit(needed, force) => s.status.Compensating? && !force && NeededSet(s.order, needed)
       case CompSkip(needed, _, force) =>
         && s.status.Compensating? && !force && NeededSet(s.order, needed)
         && forall undo: Step | !IsForward(undo) :: undo in s.steps
       case Undo(needed, execs, force) =>
         && s.status.Compensating? && !force && NeededSet(s.order, needed)
         && forall undo: Step :: undo in needed <==> undo in execs
       case Finish(status) => s.status.Compensating? && status == Ending(s.order)
  }

  predicate ExecsSound(s: State) {
    s.run.Forward? || s.run.Undo? ==>
      forall st <- s.run.execs :: ExecSound(s, st, s.run.execs[st]) && (IsForward(st) <==> s.run.Forward?)
  }

  predicate EndSound(s: State) {
    && (s.status.Placed? || s.status.Shipped? ==> Ending(s.order) == Placed)
    && (s.status.Cancelled? || s.status.NeedsAttention? ==> s.status == Ending(s.order))
    && (Final(s.status) ==> s.run.NoRun?)
  }

  ghost predicate Inv(s: State) {
    && (forall st: Step :: StepSound(s, st))
    && ExecsSound(s) && PhaseSound(s) && EndSound(s)
  }

  // ---- Steps ----------------------------------------------------------------

  lemma ServeSound(s: State, r: Request, st: Step)
    requires StepSound(s, st) && StepSound(s, r.step) && !r.force
    ensures StepSound(Serve(s, r, false), st)
    ensures Answer(s, r, false) == if Faulty(s.order, r.step) then TryAgain else Accepted
  {
  }

  lemma AttemptSound(s: State, x: Step, k: nat, heard: bool, st: Step)
    requires StepSound(s, st) && (s.run.Forward? || s.run.Undo?) && !Force(s.run)
    ensures StepSound(Attempt(s, x, k, heard), st)
  {
  }

  /** The actions of one executeStep, and deliveries. */
  lemma ExchangeSound(s: State, a: Action, st: Step)
    requires Inv(s) && Enabled(s, a) && Benign(s, a) && (a.Begin? || a.Reply? || a.Lost? || a.Busy? || a.Deliver?)
    ensures StepSound(Next(s, a), st)
  {
    assert StepSound(s, st);
    match a
    case Begin(x) => AttemptSound(s.(steps := MarkStepRunning(s.steps, x)), x, 1, false, st);
    case Reply(x, _) =>
      assert StepSound(s, x);
      ServeSound(s, Request(x, Force(s.run)), st);
      AttemptSound(Serve(s, Request(x, Force(s.run)), false), x, s.run.execs[x].attempt + 1, true, st);
    case Lost(x, _) => AttemptSound(s, x, s.run.execs[x].attempt + 1, s.run.execs[x].heard, st);
    case Busy(x) => AttemptSound(s, x, s.run.execs[x].attempt + 1, s.run.execs[x].heard, st);
    case Deliver(r, _) =>
      assert StepSound(s, r.step);
      ServeSound(s, r, st);
  }

  lemma AdvanceSound(s: State, st: Step)
    requires Inv(s) && Enabled(s, Advance)
    ensures StepSound(Next(s, Advance), st)
  {
    assert StepSound(s, st);
  }

  lemma StepsSound(s: State, a: Action, st: Step)
    requires Inv(s) && Enabled(s, a) && Benign(s, a)
    ensures StepSound(Next(s, a), st)
  {
    assert StepSound(s, st);
    if a.Begin? || a.Reply? || a.Lost? || a.Busy? || a.Deliver? {
      ExchangeSound(s, a, st);
    } else if a.Record? {
      assert ExecSound(s, a.step, s.run.execs[a.step]);
      assert StepSound(s, a.step);
    } else if a.Advance? {
      AdvanceSound(s, st);
    }
  }

  lemma MarkRunningSound(s: State, x: Step)
    requires ExecsSound(s)
    ensures ExecsSound(s.(steps := MarkStepRunning(s.steps, x)))
  {
    if s.run.Forward? || s.run.Undo? {
      forall st <- s.run.execs ensures ExecSound(s.(steps := MarkStepRunning(s.steps, x)), st, s.run.execs[st]) {
        assert ExecSound(s, st, s.run.execs[st]);
      }
    }
  }

  /** Sending, or giving up, is sound when what was heard came from a faulty step. */
  lemma AttemptExecsSound(s: State, x: Step, k: nat, heard: bool)
    requires ExecsSound(s) && HasExec(s.run, x) && (heard ==> Faulty(s.order, x))
    ensures ExecsSound(Attempt(s, x, k, heard))
  {
    assert ExecSound(s, x, s.run.execs[x]);
    var t := Attempt(s, x, k, heard);
    forall st <- t.run.execs ensures ExecSound(t, st, t.run.execs[st]) && (IsForward(st) <==> t.run.Forward?) {
      assert ExecSound(s, st, s.run.execs[st]);
    }
  }

  lemma BeginSound(s: State, x: Step)
    requires Inv(s) && Enabled(s, Begin(x))
    ensures ExecsSound(Next(s, Begin(x)))
  {
    MarkRunningSound(s, x);
    AttemptExecsSound(s.(steps := MarkStepRunning(s.steps, x)), x, 1, false);
  }

  lemma ServeExecsSound(s: State, r: Request)
    requires ExecsSound(s)
    ensures ExecsSound(Serve(s, r, false))
  {
    if s.run.Forward? || s.run.Undo? {
      forall st <- s.run.execs ensures ExecSound(Serve(s, r, false), st, s.run.execs[st]) {
        assert ExecSound(s, st, s.run.execs[st]);
      }
    }
  }

  lemma ReplySound(s: State, a: Action)
    requires Inv(s) && Enabled(s, a) && Benign(s, a) && a.Reply?
    ensures ExecsSound(Next(s, a))
  {
    var r := Request(a.step, Force(s.run));
    var served := Serve(s, r, false);
    assert ExecSound(s, a.step, s.run.execs[a.step]) && StepSound(s, a.step);
    ServeSound(s, r, a.step);
    ServeExecsSound(s, r);
    if Answer(s, r, false).TryAgain? {
      AttemptExecsSound(served, a.step, s.run.execs[a.step].attempt + 1, true);
    }
  }

  lemma GiveUpSound(s: State, x: Step, heard: bool)
    requires ExecsSound(s) && HasExec(s.run, x) && (heard ==> Faulty(s.order, x))
    ensures ExecsSound(s.(run := SetExec(s.run, x, Failing(heard))))
  {
    assert ExecSound(s, x, s.run.execs[x]);
    var t := s.(run := SetExec(s.run, x, Failing(heard)));
    forall st <- t.run.execs ensures ExecSound(t, st, t.run.execs[st]) && (IsForward(st) <==> t.run.Forward?) {
      assert ExecSound(s, st, s.run.execs[st]);
    }
  }

  lemma LostSound(s: State, a: Action)
    requires Inv(s) && Enabled(s, a) && Benign(s, a) && a.Lost?
    ensures ExecsSound(Next(s, a))
  {
    var e := s.run.execs[a.step];
    assert ExecSound(s, a.step, e);
    AttemptExecsSound(s, a.step, e.attempt + 1, e.heard);
    GiveUpSound(s, a.step, e.heard);
  }

  lemma RecordSound(s: State, a: Action)
    requires Inv(s) && Enabled(s, a) && Benign(s, a) && a.Record?
    ensures ExecsSound(Next(s, a))
  {
    assert ExecSound(s, a.step, s.run.execs[a.step]);
  }

  lemma DeliverSound(s: State, a: Action)
    requires Inv(s) && Enabled(s, a) && Benign(s, a) && a.Deliver?
    ensures ExecsSound(Next(s, a))
  {
    ServeExecsSound(s, a.r);
  }

  /** A phase starts with fresh executeStep calls. */
  lemma StartSound(s: State)
    requires Inv(s) && Enabled(s, Advance)
    ensures ExecsSound(Next(s, Advance))
  {
  }

  lemma ExecsStep(s: State, a: Action)
    requires Inv(s) && Enabled(s, a) && Benign(s, a)
    ensures ExecsSound(Next(s, a))
  {
    match a
    case Advance => StartSound(s);
    case Begin(x) => BeginSound(s, x);
    case Reply(_, _) => ReplySound(s, a);
    case Lost(_, _) => LostSound(s, a);
    case Busy(st) => LostSound(s, Lost(st, true));
    case Record(_) => RecordSound(s, a);
    case Deliver(_, _) => DeliverSound(s, a);
    case Drop(_) =>
      if s.run.Forward? || s.run.Undo? {
        forall st <- s.run.execs ensures ExecSound(Next(s, a), st, s.run.execs[st]) {
          assert ExecSound(s, st, s.run.execs[st]);
        }
      }
    case Ship =>
    case _ =>
  }

  /** A step of a phase that settled without a failure is not a faulty one. */
  lemma WellSettled(s: State, st: Step)
    requires Inv(s) && Enabled(s, Advance) && (s.run.Forward? || s.run.Undo?) && !AnyBad(s.run.execs)
    requires st in s.run.execs || (s.run.Forward? && IsForward(st))
    ensures !Faulty(s.order, st)
  {
    assert StepSound(s, st);
    if st in s.run.execs {
      assert ExecSound(s, st, s.run.execs[st]);
    }
  }

  lemma JoinForwardPhase(s: State)
    requires Inv(s) && Enabled(s, Advance) && s.run.Forward?
    ensures PhaseSound(Next(s, Advance))
  {
    var execs := s.run.execs;
    if AnyBad(execs) {
      var bad :| bad in execs && execs[bad].Bad?;
      assert ExecSound(s, bad, execs[bad]);
      forall f: Step | IsForward(f) ensures HasStatus(s.steps, f, Succeeded) <==> f != s.order.failAt.value {
        assert StepSound(s, f);
        if f in execs { assert ExecSound(s, f, execs[f]); }
      }
    } else {
      forall f: Step | IsForward(f) ensures !Faulty(s.order, f) {
        WellSettled(s, f);
      }
    }
  }

  lemma JoinUndoPhase(s: State)
    requires Inv(s) && Enabled(s, Advance) && s.run.Undo?
    ensures PhaseSound(Next(s, Advance))
  {
    var execs := s.run.execs;
    if AnyBad(execs) {
      var bad :| bad in execs && execs[bad].Bad?;
      assert ExecSound(s, bad, execs[bad]);
      assert FailsUndo(s.order);
    } else {
      forall undo: Step | undo in execs ensures !Faulty(s.order, undo) {
        WellSettled(s, undo);
      }
    }
  }

  lemma InitPhase(s: State)
    requires Inv(s) && Enabled(s, Advance) && (s.run.CompRead? || s.run.CompInit?)
    ensures PhaseSound(Next(s, Advance))
  {
    forall undo: Step | !IsForward(undo) ensures undo in InitSteps(s.steps, COMPENSATION_STEPS) {
      StepsPartition(undo);
    }
    forall f: Step | IsForward(f)
      ensures f !in COMPENSATION_STEPS
      ensures HasStatus(InitSteps(s.steps, COMPENSATION_STEPS), f, Succeeded) <==> HasStatus(s.steps, f, Succeeded)
    {
      StepsPartition(f);
    }
  }

  lemma SkipPhase(s: State)
    requires Inv(s) && Enabled(s, Advance) && s.run.CompSkip?
    ensures PhaseSound(Next(s, Advance))
  {
    if s.run.i < |COMPENSATION_STEPS| {
      StepsPartition(COMPENSATION_STEPS[s.run.i]);
    } else {
      assert exists undo: Step :: undo in s.run.needed by {
        assert CancelOrder in s.run.needed || ReleaseInventory in s.run.needed;
      }
    }
  }

  lemma ForwardPhase(s: State)
    requires Inv(s) && Enabled(s, Advance)
    requires s.run.FwdInit? || s.run.FwdRead? || s.run.Place? || s.run.Rollback? || s.run.Finish?
    ensures PhaseSound(Next(s, Advance))
  {
    forall f: Step | IsForward(f) ensures f in InitSteps(s.steps, FORWARD_STEPS) {
      StepsPartition(f);
    }
  }

  /** What PhaseSound looks at, besides the order's status. */
  predicate SamePhase(s: State, t: State) {
    && t.order == s.order && t.status == s.status
    && (forall st: Step :: st in s.steps <==> st in t.steps)
    && (forall f: Step | IsForward(f) :: HasStatus(s.steps, f, Succeeded) <==> HasStatus(t.steps, f, Succeeded))
    && match s.run
       case Forward(execs) => t.run.Forward? && t.run.execs.Keys == execs.Keys
       case Undo(needed, execs, force) =>
         t.run.Undo? && t.run == Undo(needed, t.run.execs, force) && t.run.execs.Keys == execs.Keys
       case _ => t.run == s.run
  }

  lemma SamePhaseSound(s: State, t: State)
    requires PhaseSound(s) && SamePhase(s, t)
    ensures PhaseSound(t)
  {
    if s.run.Undo? {
      forall undo: Step ensures undo in t.run.execs <==> undo in s.run.execs {
        assert undo in t.run.execs.Keys <==> undo in s.run.execs.Keys;
      }
    }
    if s.run.Forward? {
      forall f: Step ensures f in t.run.execs <==> f in s.run.execs {
        assert f in t.run.execs.Keys <==> f in s.run.execs.Keys;
      }
    }
  }

  lemma RecordPhase(s: State, a: Action)
    requires Inv(s) && Enabled(s, a) && Benign(s, a) && a.Record?
    ensures PhaseSound(Next(s, a))
  {
    assert ExecSound(s, a.step, s.run.execs[a.step]) && StepSound(s, a.step);
    var t := Next(s, a);
    forall f: Step | f != a.step ensures HasStatus(s.steps, f, Succeeded) <==> HasStatus(t.steps, f, Succeeded) {}
    if s.run.Undo? {
      SamePhaseSound(s, t);
    } else {
      forall f: Step ensures f in t.run.execs <==> f in s.run.execs {}
    }
  }

  lemma BeginPhase(s: State, a: Action)
    requires PhaseSound(s) && Enabled(s, a) && a.Begin?
    ensures PhaseSound(Next(s, a))
  {
    assert SamePhase(s, Next(s, a));
    SamePhaseSound(s, Next(s, a));
  }

  lemma AttemptSame(s: State, st: Step, k: nat, heard: bool)
    requires HasExec(s.run, st)
    ensures SamePhase(s, Attempt(s, st, k, heard))
  {
  }

  lemma SetExecSame(s: State, st: Step, e: Exec)
    requires HasExec(s.run, st)
    ensures SamePhase(s, s.(run := SetExec(s.run, st, e)))
  {
  }

  lemma AnswerPhase(s: State, a: Action)
    requires PhaseSound(s) && Enabled(s, a) && a.Reply?
    ensures PhaseSound(Next(s, a))
  {
    var r := Request(a.step, Force(s.run));
    var served := Serve(s, r, a.shortage);
    assert PhaseSound(served);
    match Answer(s, r, a.shortage)
    case Accepted => SetExecSame(served, a.step, Succeeding);
    case TryAgain => AttemptSame(served, a.step, s.run.execs[a.step].attempt + 1, true);
    case Refused => SetExecSame(served, a.step, Failing(true));
    SamePhaseSound(served, Next(s, a));
  }

  lemma LossPhase(s: State, a: Action)
    requires PhaseSound(s) && Enabled(s, a) && a.Lost?
    ensures PhaseSound(Next(s, a))
  {
    assert SamePhase(s, Next(s, a));
    SamePhaseSound(s, Next(s, a));
  }

  lemma WirePhase(s: State, a: Action)
    requires PhaseSound(s) && Enabled(s, a) && (a.Deliver? || a.Drop?)
    ensures PhaseSound(Next(s, a))
  {
    assert SamePhase(s, Next(s, a));
    SamePhaseSound(s, Next(s, a));
  }

  /** Nothing else moves the phase or a forward row's success. */
  lemma SteadyPhase(s: State, a: Action)
    requires Inv(s) && Enabled(s, a) && Benign(s, a) && !a.Advance?
    ensures PhaseSound(Next(s, a))
  {
    if a.Record? {
      RecordPhase(s, a);
    } else if a.Begin? {
      BeginPhase(s, a);
    } else if a.Reply? {
      AnswerPhase(s, a);
    } else if a.Lost? {
      LossPhase(s, a);
    } else if a.Busy? {
      LossPhase(s, Lost(a.step, true));
    } else if a.Deliver? || a.Drop? {
      WirePhase(s, a);
    }
  }

  lemma PhaseStep(s: State, a: Action)
    requires Inv(s) && Enabled(s, a) && Benign(s, a)
    ensures PhaseSound(Next(s, a))
  {
    if !a.Advance? {
      SteadyPhase(s, a);
    } else {
      match s.run
      case Forward(_) => JoinForwardPhase(s);
      case Undo(_, _, _) => JoinUndoPhase(s);
      case CompRead(_) => InitPhase(s);
      case CompInit(_, _) => InitPhase(s);
      case CompSkip(_, _, _) => SkipPhase(s);
      case _ => ForwardPhase(s);
    }
  }

  lemma EndStep(s: State, a: Action)
    requires Inv(s) && Enabled(s, a) && Benign(s, a)
    ensures EndSound(Next(s, a))
  {
  }

  lemma Keeps(s: State, a: Action)
    requires Inv(s) && Enabled(s, a) && Benign(s, a)
    ensures Inv(Next(s, a))
  {
    forall st: Step ensures StepSound(Next(s, a), st) {
      StepsSound(s, a, st);
    }
    ExecsStep(s, a);
    PhaseStep(s, a);
    EndStep(s, a);
  }

  lemma {:induction false} RunKeeps(s: State, acts: seq<Action>)
    requires Init(s) && IsRun(s, acts) && BenignRun(s, acts)
    ensures Inv(After(s, acts)) && After(s, acts).order == s.order
    decreases |acts|
  {
    if acts != [] {
      RunKeeps(s, acts[..|acts| - 1]);
      Keeps(After(s, acts[..|acts| - 1]), acts[|acts| - 1]);
    }
  }

  /** Some benign run of a fresh order with these fault columns ends here. */
  ghost predicate BenignlyReachable(order: Order, t: State) {
    exists s, acts :: Init(s) && s.order == order && IsRun(s, acts) && BenignRun(s, acts) && t == After(s, acts)
  }

  /** Every run that ends, ends the way the fault columns say. */
  lemma ScheduleIndependence(order: Order, t: State)
    requires BenignlyReachable(order, t) && Final(t.status)
    ensures t.status == Ending(order) || (t.status == Shipped && Ending(order) == Placed)
  {
    var s, acts :| Init(s) && s.order == order && IsRun(s, acts) && BenignRun(s, acts) && t == After(s, acts);
    RunKeeps(s, acts);
  }
}
