/** One order's saga as a step machine: the order row and its step rows, the four services
    with their idempotency records, requests on a network that loses, delays and repeats
    them, and coordinator runs that crash and are replaced (services/coordinator/src/saga.ts).

    Each SQL statement is one step. The four `executeStep` calls of a phase advance in any
    order. A service is atomic and idempotent, as `ServiceRefinement.ServiceRefines` shows. */
module Saga {
  import opened Vocabulary

  datatype StepStatus = Waiting | Running | Succeeded | Failed | Skipped

  /** The fault columns of the order (`None` when they name no step) and the retry budget. */
  datatype Order = Order(failAt: Option<Step>, compFailAt: Option<Step>, maxAttempts: nat)

  /** A forward step's domain row, and how often it was ever inserted and flipped. */
  datatype Row = Absent | Done | Undone
  datatype Effect = Effect(row: Row, dones: nat, undones: nat)

  datatype Request = Request(step: Step, force: bool)

  /** One `executeStep`: `heard` records whether any attempt got an answer that says what became
      of the step, as a 409 from a service whose twin call is in flight does not. */
  datatype Exec =
    | Start | Calling(attempt: nat, heard: bool)
    | Succeeding | Failing(heard: bool)
    | Ok | Bad

  /** The live coordinator run's program counter and locals. */
  datatype Run =
    | NoRun
    | FwdInit | FwdRead | Forward(execs: map<Step, Exec>) | Place | Rollback
    | CompRead(force: bool)
    | CompInit(needed: set<Step>, force: bool)
    | CompSkip(needed: set<Step>, i: nat, force: bool)
    | Undo(needed: set<Step>, execs: map<Step, Exec>, force: bool)
    | Finish(status: OrderStatus)

  datatype State = State(
    order: Order,
    status: OrderStatus,
    steps: map<Step, StepStatus>,
    done: set<Step>,
    effects: map<Step, Effect>,
    wire: set<Request>,
    run: Run,
    crashesLeft: nat)

  // ---- Step rows (repository.ts) --------------------------------------------

  /** INSERT ... ON DUPLICATE KEY UPDATE: create or re-arm, but leave SUCCEEDED alone. */
  function InitSteps(steps: map<Step, StepStatus>, phase: seq<Step>): map<Step, StepStatus> {
    steps + map st | st in phase :: (if st in steps && steps[st] == Succeeded then Succeeded else Waiting)
  }

  function MarkStepRunning(steps: map<Step, StepStatus>, step: Step): map<Step, StepStatus> {
    if step in steps && steps[step] != Succeeded then steps[step := Running] else steps
  }

  /** Not guarded: it may overwrite any status. */
  function MarkStepResult(steps: map<Step, StepStatus>, step: Step, status: StepStatus): map<Step, StepStatus> {
    if step in steps then steps[step := status] else steps
  }

  predicate HasStatus(steps: map<Step, StepStatus>, step: Step, status: StepStatus) {
    step in steps && steps[step] == status
  }

  /** compensate()'s `needed`: the undo of every forward step recorded SUCCEEDED. */
  function Needed(steps: map<Step, StepStatus>): set<Step> {
    set undo: Step | !IsForward(undo) && HasStatus(steps, ForwardOf(undo), Succeeded)
  }

  // ---- The services ---------------------------------------------------------

  /** assertNoInjectedFailure: checked before the idempotency record is looked at. */
  predicate Injected(order: Order, r: Request) {
    if IsForward(r.step) then order.failAt == Some(r.step)
    else order.compFailAt == Some(r.step) && !r.force
  }

  function EffectOf(effects: map<Step, Effect>, step: Step): Effect {
    if step in effects then effects[step] else Effect(Absent, 0, 0)
  }

  /** A forward INSERT, or an undo UPDATE guarded on the done status. */
  function Handle(effects: map<Step, Effect>, step: Step): map<Step, Effect> {
    if IsForward(step) then
      effects[step := Effect(Done, EffectOf(effects, step).dones + 1, EffectOf(effects, step).undones)]
    else
      var e := EffectOf(effects, ForwardOf(step));
      if e.row == Done then effects[ForwardOf(step) := Effect(Undone, e.dones, e.undones + 1)] else effects
  }

  datatype Verdict = Accepted | TryAgain | Refused

  /** How a service answers a request. `shortage` is the one business rule: no stock. */
  function Answer(s: State, r: Request, shortage: bool): Verdict {
    if Injected(s.order, r) then TryAgain
    else if r.step in s.done then Accepted
    else if r.step == ReserveInventory && shortage then Refused
    else if IsForward(r.step) && EffectOf(s.effects, r.step).row != Absent then TryAgain
    else Accepted
  }

  function Serve(s: State, r: Request, shortage: bool): State {
    if Answer(s, r, shortage) == Accepted && r.step !in s.done
    then s.(done := s.done + {r.step}, effects := Handle(s.effects, r.step))
    else s
  }

  // ---- Steps ----------------------------------------------------------------

  datatype Action =
    | Claim                                  // an instance claims the order
    | Advance                                // the run's next own statement
    | Begin(step: Step)                      // executeStep: mark RUNNING, send attempt 1
    | Reply(step: Step, shortage: bool)      // the service's answer to an attempt arrives
    | Lost(step: Step, retryable: bool)      // an attempt ends with no usable answer
    | Busy(step: Step)                       // a 409 or 500 that leaves the step's fate open
    | Record(step: Step)                     // executeStep: write SUCCEEDED or FAILED
    | Crash
    | Retry                                  // a human retries a NEEDS_ATTENTION order
    | Ship
    | Deliver(r: Request, shortage: bool)    // a service gets a request; nobody hears back
    | Drop(r: Request)

  predicate Settled(execs: map<Step, Exec>) {
    forall st <- execs :: execs[st].Ok? || execs[st].Bad?
  }

  predicate HasExec(run: Run, step: Step) {
    (run.Forward? || run.Undo?) && step in run.execs
  }

  function Force(run: Run): bool {
    run.Undo? && run.force
  }

  /** Injected faults are checked before the idempotency record, so only a call that passes
      them meets a twin. */
  predicate MayBeBusy(s: State, step: Step) {
    var r := Request(step, Force(s.run));
    HasExec(s.run, step) && s.run.execs[step].Calling? && r in s.wire && !Injected(s.order, r)
  }

  predicate Enabled(s: State, a: Action) {
    match a
    case Claim => s.run.NoRun? && (s.status.Pending? || s.status.InProgress? || s.status.Compensating?)
    case Advance => !s.run.NoRun? && (s.run.Forward? || s.run.Undo? ==> Settled(s.run.execs))
    case Begin(st) => HasExec(s.run, st) && s.run.execs[st].Start?
    case Reply(st, _) => HasExec(s.run, st) && s.run.execs[st].Calling? && Request(st, Force(s.run)) in s.wire
    case Lost(st, _) => HasExec(s.run, st) && s.run.execs[st].Calling?
    case Busy(st) => MayBeBusy(s, st)
    case Record(st) => HasExec(s.run, st) && (s.run.execs[st].Succeeding? || s.run.execs[st].Failing?)
    case Crash => !s.run.NoRun? && s.crashesLeft > 0
    case Retry => s.run.NoRun? && s.status.NeedsAttention?
    case Ship => s.status.Placed?
    case Deliver(r, _) => r in s.wire
    case Drop(r) => r in s.wire
  }

  function Starting(steps: set<Step>): map<Step, Exec> {
    map st | st in steps :: Start
  }

  function SetExec(run: Run, step: Step, e: Exec): Run requires run.Forward? || run.Undo? {
    run.(execs := run.execs[step := e])
  }

  /** Sending attempt k, or giving up when the budget is spent. */
  function Attempt(s: State, step: Step, k: nat, heard: bool): State requires s.run.Forward? || s.run.Undo? {
    if k <= s.order.maxAttempts
    then s.(wire := s.wire + {Request(step, Force(s.run))}, run := SetExec(s.run, step, Calling(k, heard)))
    else s.(run := SetExec(s.run, step, Failing(heard)))
  }

  function Pendings(steps: map<Step, StepStatus>): set<Step> {
    set st: Step | IsForward(st) && !HasStatus(steps, st, Succeeded)
  }

  predicate AnyBad(execs: map<Step, Exec>) {
    exists st <- execs :: execs[st].Bad?
  }

  /** The run's own statements, in source order. */
  function AdvanceRun(s: State): State requires Enabled(s, Advance) {
    match s.run
    case FwdInit => s.(steps := InitSteps(s.steps, FORWARD_STEPS), run := FwdRead)
    case FwdRead => s.(run := Forward(Starting(Pendings(s.steps))))
    case Forward(execs) => s.(run := if AnyBad(execs) then Rollback else Place)
    case Place => s.(status := Placed, run := NoRun)
    case Rollback => s.(status := Compensating, run := CompRead(false))
    case CompRead(force) => s.(run := CompInit(Needed(s.steps), force))
    case CompInit(needed, force) =>
      s.(steps := InitSteps(s.steps, COMPENSATION_STEPS), run := CompSkip(needed, 0, force))
    case CompSkip(needed, i, force) =>
      if i < |COMPENSATION_STEPS| then
        var undo := COMPENSATION_STEPS[i];
        s.(steps := if undo in needed then s.steps else MarkStepResult(s.steps, undo, Skipped),
           run := CompSkip(needed, i + 1, force))
      else if needed == {} then s.(run := Finish(Cancelled))
      else s.(run := Undo(needed, Starting(needed), force))
    case Undo(_, execs, _) => s.(run := Finish(if AnyBad(execs) then NeedsAttention else Cancelled))
    case Finish(status) => s.(status := status, run := NoRun)
  }

  function Next(s: State, a: Action): State requires Enabled(s, a) {
    match a
    case Claim =>
      s.(status := if s.status.Compensating? then Compensating else InProgress,
         run := if s.status.Compensating? then CompRead(false) else FwdInit)
    case Advance => AdvanceRun(s)
    case Begin(st) => Attempt(s.(steps := MarkStepRunning(s.steps, st)), st, 1, false)
    case Reply(st, shortage) =>
      var e, r := s.run.execs[st], Request(st, Force(s.run));
      var served := Serve(s, r, shortage);
      (match Answer(s, r, shortage)
       case Accepted => served.(run := SetExec(s.run, st, Succeeding))
       case TryAgain => Attempt(served, st, e.attempt + 1, true)
       case Refused => served.(run := SetExec(s.run, st, Failing(true))))
    case Lost(st, retryable) =>
      var e := s.run.execs[st];
      if retryable then Attempt(s, st, e.attempt + 1, e.heard)
      else s.(run := SetExec(s.run, st, Failing(e.heard)))
    case Busy(st) => Attempt(s, st, s.run.execs[st].attempt + 1, s.run.execs[st].heard)
    case Record(st) =>
      var ok := s.run.execs[st].Succeeding?;
      s.(steps := MarkStepResult(s.steps, st, if ok then Succeeded else Failed),
         run := SetExec(s.run, st, if ok then Ok else Bad))
    case Crash => s.(run := NoRun, crashesLeft := s.crashesLeft - 1)
    case Retry => s.(status := Compensating, run := CompRead(true))
    case Ship => s.(status := Shipped)
    case Deliver(r, shortage) => Serve(s, r, shortage)
    case Drop(r) => s.(wire := s.wire - {r})
  }

  // ---- Runs -----------------------------------------------------------------

  predicate IsRun(s: State, acts: seq<Action>) decreases |acts|, 0 {
    acts == [] ||
    (IsRun(s, acts[..|acts| - 1]) && Enabled(After(s, acts[..|acts| - 1]), acts[|acts| - 1]))
  }

  function After(s: State, acts: seq<Action>): State requires IsRun(s, acts) decreases |acts|, 1 {
    if acts == [] then s else Next(After(s, acts[..|acts| - 1]), acts[|acts| - 1])
  }

  /** A freshly ingested order: nothing done, nothing sent. */
  predicate Init(s: State) {
    && s.status.Pending? && s.run.NoRun?
    && s.steps == map[] && s.done == {} && s.effects == map[] && s.wire == {}
  }

  lemma RunSnoc(s: State, acts: seq<Action>, a: Action)
    requires IsRun(s, acts) && Enabled(After(s, acts), a)
    ensures IsRun(s, acts + [a]) && After(s, acts + [a]) == Next(After(s, acts), a)
  {
    assert (acts + [a])[..|acts + [a]| - 1] == acts;
  }
}
