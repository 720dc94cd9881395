/** End-to-end atomicity of the saga, one coordinator run being live at a time (module
    Superseded is about more). Most of it holds of every run; that a CANCELLED order
    is clean needs honest failures: a forward step recorded FAILED has no committed and no
    in-flight effect behind it. */
module SagaAtomicity {
  import opened Vocabulary
  import opened Saga

  predicate OnWire(s: State, step: Step) {
    Request(step, false) in s.wire || Request(step, true) in s.wire
  }

  /** The honest-failure hypothesis, on the action that writes FAILED. */
  predicate Honest(s: State, a: Action) {
    a.Record? && HasExec(s.run, a.step) && s.run.execs[a.step].Failing? && IsForward(a.step) ==>
      a.step !in s.done && !OnWire(s, a.step)
  }

  predicate HonestRun(s: State, acts: seq<Action>) requires IsRun(s, acts) decreases |acts| {
    acts == [] ||
    (HonestRun(s, acts[..|acts| - 1]) && Honest(After(s, acts[..|acts| - 1]), acts[|acts| - 1]))
  }

  // ---- The invariant --------------------------------------------------------

  /** Before any compensation was decided. */
  predicate Forwards(status: OrderStatus) {
    status.Pending? || status.InProgress? || status.Placed? || status.Shipped?
  }

  /** A forward step that was undone in full, or never happened and was skipped. */
  predicate Resolved(s: State, f: Step) requires IsForward(f) {
    var undo := CompensationOf(f);
    if HasStatus(s.steps, f, Succeeded) then undo in s.done && HasStatus(s.steps, undo, Succeeded)
    else HasStatus(s.steps, undo, Skipped)
  }

  /** What the services hold for one forward step and its undo. */
  predicate ServiceOk(s: State, f: Step) requires IsForward(f) {
    var undo := CompensationOf(f);
    EffectOf(s.effects, f) ==
      if f !in s.done then Effect(Absent, 0, 0)
      else if undo in s.done then Effect(Undone, 1, 1)
      else Effect(Done, 1, 0)
  }

  /** How the step rows, the services and the network agree about one forward step. */
  predicate StepOk(s: State, f: Step) requires IsForward(f) {
    var undo := CompensationOf(f);
    && ServiceOk(s, f)
    && (HasStatus(s.steps, f, Succeeded) ==> f in s.done)
    && (Forwards(s.status) ==> undo !in s.done && !OnWire(s, undo))
    && (!Forwards(s.status) ==> HasStatus(s.steps, f, Succeeded) || HasStatus(s.steps, f, Failed))
    && (undo in s.done || OnWire(s, undo) ==> HasStatus(s.steps, f, Succeeded))
    && (HasStatus(s.steps, undo, Succeeded) ==> undo in s.done)
    && (s.status.Placed? || s.status.Shipped? ==> HasStatus(s.steps, f, Succeeded))
    && (s.status.Cancelled? ==> Resolved(s, f))
  }

  predicate ForwardExecOk(s: State, f: Step, e: Exec) {
    && f in s.steps
    && (e.Succeeding? ==> f in s.done)
    && (e.Ok? ==> HasStatus(s.steps, f, Succeeded))
    && (e.Bad? ==> HasStatus(s.steps, f, Failed))
  }

  predicate UndoExecOk(s: State, undo: Step, e: Exec) {
    && undo in s.steps
    && (e.Succeeding? ==> undo in s.done)
    && (e.Ok? ==> undo in s.done && HasStatus(s.steps, undo, Succeeded))
    && (e.Bad? ==> HasStatus(s.steps, undo, Failed))
  }

  /** What the live run's locals mean for one forward step. */
  predicate LocalOk(s: State, f: Step) requires IsForward(f) {
    var undo := CompensationOf(f);
    match s.run
    case NoRun => true
    case FwdInit => true
    case FwdRead => f in s.steps
    case Forward(execs) => if f in execs then ForwardExecOk(s, f, execs[f]) else HasStatus(s.steps, f, Succeeded)
    case Place => HasStatus(s.steps, f, Succeeded)
    case Rollback => HasStatus(s.steps, f, Succeeded) || HasStatus(s.steps, f, Failed)
    case CompRead(_) => true
    case CompInit(needed, _) => undo in needed <==> HasStatus(s.steps, f, Succeeded)
    case CompSkip(needed, i, _) =>
      && undo in s.steps
      && (undo in needed <==> HasStatus(s.steps, f, Succeeded))
      && (UndoIndex(undo) < i && undo !in needed ==> HasStatus(s.steps, undo, Skipped))
    case Undo(needed, execs, _) =>
      && (undo in needed <==> HasStatus(s.steps, f, Succeeded))
      && (undo in needed <==> undo in execs)
      && (if undo in execs then UndoExecOk(s, undo, execs[undo]) else HasStatus(s.steps, undo, Skipped))
    case Finish(status) => status.Cancelled? ==> Resolved(s, f)
  }

  predicate SomeUndoFailed(steps: map<Step, StepStatus>) {
    exists undo <- Needed(steps) :: HasStatus(steps, undo, Failed)
  }

  predicate PhaseOk(s: State) {
    match s.run
    case NoRun => s.status.NeedsAttention? ==> SomeUndoFailed(s.steps)
    case FwdInit => s.status.InProgress?
    case FwdRead => s.status.InProgress?
    case Forward(execs) => s.status.InProgress? && forall st <- execs :: IsForward(st)
    case Place => s.status.InProgress?
    case Rollback => s.status.InProgress?
    case CompInit(needed, _) => s.status.Compensating? && forall st <- needed :: !IsForward(st)
    case CompSkip(needed, _, _) => s.status.Compensating? && forall st <- needed :: !IsForward(st)
    case Undo(needed, execs, _) => s.status.Compensating? && forall st <- execs :: !IsForward(st)
    case Finish(status) =>
      s.status.Compensating? && (status.Cancelled? || status.NeedsAttention?) &&
      (status.NeedsAttention? ==> SomeUndoFailed(s.steps))
    case _ => s.status.Compensating?
  }

  predicate Good(s: State, f: Step) requires IsForward(f) {
    PhaseOk(s) && StepOk(s, f) && LocalOk(s, f)
  }

  ghost predicate Inv(s: State) {
    forall f: Step | IsForward(f) :: Good(s, f)
  }

  // ---- Steps of one executeStep ----------------------------------------------

  lemma NeededIff(steps: map<Step, StepStatus>, f: Step)
    requires IsForward(f)
    ensures CompensationOf(f) in Needed(steps) <==> HasStatus(steps, f, Succeeded)
  {
  }

  lemma ServeForwardKeeps(s: State, r: Request, shortage: bool, f: Step)
    requires IsForward(f) && Good(s, f) && r in s.wire && IsForward(r.step)
    ensures Good(Serve(s, r, shortage), f)
  {
  }

  lemma ServeUndoKeeps(s: State, r: Request, shortage: bool, f: Step)
    requires IsForward(f) && Good(s, f) && r in s.wire && !IsForward(r.step)
    ensures Good(Serve(s, r, shortage), f)
  {
    if r.step != CompensationOf(f) {
      assert ForwardOf(r.step) != f;
    }
  }

  /** Processing a request that is on the wire. */
  lemma ServeKeeps(s: State, r: Request, shortage: bool, f: Step)
    requires IsForward(f) && Good(s, f) && r in s.wire
    ensures Good(Serve(s, r, shortage), f)
    ensures Answer(s, r, shortage).Accepted? ==> r.step in Serve(s, r, shortage).done
  {
    if IsForward(r.step) {
      ServeForwardKeeps(s, r, shortage, f);
    } else {
      ServeUndoKeeps(s, r, shortage, f);
    }
  }

  predicate Open(s: State, step: Step) {
    HasExec(s.run, step) && !s.run.execs[step].Ok? && !s.run.execs[step].Bad?
  }

  lemma SetForwardExecKeeps(s: State, step: Step, e: Exec, f: Step)
    requires IsForward(f) && Good(s, f) && Open(s, step) && s.run.Forward?
    requires !e.Ok? && !e.Bad? && (e.Succeeding? ==> step in s.done)
    ensures Good(s.(run := SetExec(s.run, step, e)), f)
  {
  }

  lemma SetUndoExecKeeps(s: State, step: Step, e: Exec, f: Step)
    requires IsForward(f) && Good(s, f) && Open(s, step) && s.run.Undo?
    requires !e.Ok? && !e.Bad? && (e.Succeeding? ==> step in s.done)
    ensures Good(s.(run := SetExec(s.run, step, e)), f)
  {
  }

  lemma SetExecKeeps(s: State, step: Step, e: Exec, f: Step)
    requires IsForward(f) && Good(s, f) && Open(s, step)
    requires !e.Ok? && !e.Bad? && (e.Succeeding? ==> step in s.done)
    ensures Good(s.(run := SetExec(s.run, step, e)), f)
  {
    if s.run.Forward? {
      SetForwardExecKeeps(s, step, e, f);
    } else {
      SetUndoExecKeeps(s, step, e, f);
    }
  }

  lemma SendKeeps(s: State, step: Step, f: Step)
    requires IsForward(f) && Good(s, f) && Open(s, step)
    ensures Good(s.(wire := s.wire + {Request(step, Force(s.run))}), f)
  {
  }

  lemma AttemptKeeps(s: State, step: Step, k: nat, heard: bool, f: Step)
    requires IsForward(f) && Good(s, f) && Open(s, step)
    ensures Good(Attempt(s, step, k, heard), f)
  {
    if k <= s.order.maxAttempts {
      SendKeeps(s, step, f);
      SetExecKeeps(s.(wire := s.wire + {Request(step, Force(s.run))}), step, Calling(k, heard), f);
    } else {
      SetExecKeeps(s, step, Failing(heard), f);
    }
  }

  lemma MarkForwardRunning(s: State, step: Step, f: Step)
    requires IsForward(f) && Good(s, f) && Open(s, step) && s.run.Forward?
    ensures Good(s.(steps := MarkStepRunning(s.steps, step)), f)
  {
  }

  lemma MarkUndoRunning(s: State, step: Step, f: Step)
    requires IsForward(f) && Good(s, f) && Open(s, step) && s.run.Undo?
    ensures Good(s.(steps := MarkStepRunning(s.steps, step)), f)
  {
  }

  lemma MarkRunningKeeps(s: State, step: Step, f: Step)
    requires IsForward(f) && Good(s, f) && Open(s, step)
    ensures Good(s.(steps := MarkStepRunning(s.steps, step)), f)
  {
    if s.run.Forward? {
      MarkForwardRunning(s, step, f);
    } else {
      MarkUndoRunning(s, step, f);
    }
  }

  lemma BeginKeeps(s: State, step: Step, f: Step)
    requires IsForward(f) && Good(s, f) && Enabled(s, Begin(step))
    ensures Good(Next(s, Begin(step)), f)
  {
    MarkRunningKeeps(s, step, f);
    AttemptKeeps(s.(steps := MarkStepRunning(s.steps, step)), step, 1, false, f);
  }

  lemma SettledReplyKeeps(s: State, a: Action, f: Step)
    requires IsForward(f) && Good(s, f) && Enabled(s, a) && a.Reply?
    requires !Answer(s, Request(a.step, Force(s.run)), a.shortage).TryAgain?
    ensures Good(Next(s, a), f)
  {
    var r := Request(a.step, Force(s.run));
    ServeKeeps(s, r, a.shortage, f);
    var e := if Answer(s, r, a.shortage).Accepted? then Succeeding else Failing(true);
    SetExecKeeps(Serve(s, r, a.shortage), a.step, e, f);
  }

  lemma TryAgainStep(s: State, a: Action)
    requires Enabled(s, a) && a.Reply?
    requires Answer(s, Request(a.step, Force(s.run)), a.shortage).TryAgain?
    ensures Next(s, a) == Attempt(s, a.step, s.run.execs[a.step].attempt + 1, true)
  {
  }

  lemma RefusedReplyKeeps(s: State, a: Action, f: Step)
    requires IsForward(f) && Good(s, f) && Enabled(s, a) && a.Reply?
    requires Answer(s, Request(a.step, Force(s.run)), a.shortage).TryAgain?
    ensures Good(Next(s, a), f)
  {
    TryAgainStep(s, a);
    AttemptKeeps(s, a.step, s.run.execs[a.step].attempt + 1, true, f);
  }

  lemma ReplyKeeps(s: State, a: Action, f: Step)
    requires IsForward(f) && Good(s, f) && Enabled(s, a) && a.Reply?
    ensures Good(Next(s, a), f)
  {
    if Answer(s, Request(a.step, Force(s.run)), a.shortage).TryAgain? {
      RefusedReplyKeeps(s, a, f);
    } else {
      SettledReplyKeeps(s, a, f);
    }
  }

  lemma LostKeeps(s: State, a: Action, f: Step)
    requires IsForward(f) && Good(s, f) && Enabled(s, a) && a.Lost?
    ensures Good(Next(s, a), f)
  {
    var e := s.run.execs[a.step];
    if a.retryable {
      AttemptKeeps(s, a.step, e.attempt + 1, e.heard, f);
    } else {
      SetExecKeeps(s, a.step, Failing(e.heard), f);
    }
  }

  lemma RecordForwardKeeps(s: State, a: Action, f: Step)
    requires IsForward(f) && Good(s, f) && Enabled(s, a) && a.Record? && s.run.Forward?
    ensures Good(Next(s, a), f)
  {
  }

  lemma RecordUndoKeeps(s: State, a: Action, f: Step)
    requires IsForward(f) && Good(s, f) && Enabled(s, a) && a.Record? && s.run.Undo?
    ensures Good(Next(s, a), f)
  {
  }

  // ---- The run's own statements -----------------------------------------------

  lemma ForwardPhaseKeeps(s: State, f: Step)
    requires IsForward(f) && Good(s, f) && Enabled(s, Advance)
    requires s.run.FwdInit? || s.run.FwdRead? || s.run.Place? || s.run.Rollback?
    ensures Good(Next(s, Advance), f)
  {
    StepsPartition(f);
    StepsPartition(CompensationOf(f));
  }

  lemma JoinForwardKeeps(s: State, f: Step)
    requires IsForward(f) && Good(s, f) && Enabled(s, Advance) && s.run.Forward?
    ensures Good(Next(s, Advance), f)
  {
  }

  lemma DecideKeeps(s: State, f: Step)
    requires IsForward(f) && Good(s, f) && Enabled(s, Advance) && (s.run.CompRead? || s.run.CompInit?)
    ensures Good(Next(s, Advance), f)
  {
    NeededIff(s.steps, f);
    StepsPartition(f);
    StepsPartition(CompensationOf(f));
  }

  lemma SkipOneKeeps(s: State, f: Step)
    requires IsForward(f) && Good(s, f) && Enabled(s, Advance) && s.run.CompSkip? && s.run.i < |COMPENSATION_STEPS|
    ensures Good(Next(s, Advance), f)
  {
    var undo := COMPENSATION_STEPS[s.run.i];
    StepsPartition(undo);
    assert UndoIndex(CompensationOf(f)) == s.run.i <==> undo == CompensationOf(f);
  }

  lemma SkippedKeeps(s: State, f: Step)
    requires IsForward(f) && Good(s, f) && Enabled(s, Advance) && s.run.CompSkip? && s.run.i >= |COMPENSATION_STEPS|
    ensures Good(Next(s, Advance), f)
  {
  }

  lemma FinishKeeps(s: State, f: Step)
    requires IsForward(f) && Good(s, f) && Enabled(s, Advance) && s.run.Finish?
    ensures Good(Next(s, Advance), f)
  {
  }

  /** The join of the undo phase looks at all four forward steps at once. */
  lemma JoinUndoKeeps(s: State, f: Step)
    requires IsForward(f) && Inv(s) && Enabled(s, Advance) && s.run.Undo?
    ensures Good(Next(s, Advance), f)
  {
    assert Good(s, f);
    if AnyBad(s.run.execs) {
      var undo :| undo in s.run.execs && s.run.execs[undo].Bad?;
      assert Good(s, ForwardOf(undo));
      NeededIff(s.steps, ForwardOf(undo));
      assert undo in Needed(s.steps) && HasStatus(s.steps, undo, Failed);
    }
  }

  // ---- Every run --------------------------------------------------------------

  lemma OtherKeeps(s: State, a: Action, f: Step)
    requires IsForward(f) && Good(s, f) && Enabled(s, a)
    requires a.Claim? || a.Crash? || a.Retry? || a.Ship? || a.Drop?
    ensures Good(Next(s, a), f)
  {
  }

  lemma AdvanceKeeps(s: State, f: Step)
    requires IsForward(f) && Inv(s) && Enabled(s, Advance)
    ensures Good(Next(s, Advance), f)
  {
    assert Good(s, f);
    match s.run
    case Forward(_) => JoinForwardKeeps(s, f);
    case CompRead(_) => DecideKeeps(s, f);
    case CompInit(_, _) => DecideKeeps(s, f);
    case CompSkip(_, i, _) => if i < |COMPENSATION_STEPS| { SkipOneKeeps(s, f); } else { SkippedKeeps(s, f); }
    case Undo(_, _, _) => JoinUndoKeeps(s, f);
    case Finish(_) => FinishKeeps(s, f);
    case _ => ForwardPhaseKeeps(s, f);
  }

  lemma KeepsOne(s: State, a: Action, f: Step)
    requires Inv(s) && Enabled(s, a) && IsForward(f)
    ensures Good(Next(s, a), f)
  {
    assert Good(s, f);
    match a
    case Advance => AdvanceKeeps(s, f);
    case Begin(st) => BeginKeeps(s, st, f);
    case Reply(_, _) => ReplyKeeps(s, a, f);
    case Lost(_, _) => LostKeeps(s, a, f);
    case Busy(st) => LostKeeps(s, Lost(st, true), f);
    case Record(_) => if s.run.Forward? { RecordForwardKeeps(s, a, f); } else { RecordUndoKeeps(s, a, f); }
    case Deliver(r, shortage) => ServeKeeps(s, r, shortage, f);
    case _ => OtherKeeps(s, a, f);
  }

  lemma Keeps(s: State, a: Action)
    requires Inv(s) && Enabled(s, a)
    ensures Inv(Next(s, a))
  {
    forall f: Step | IsForward(f) ensures Good(Next(s, a), f) {
      KeepsOne(s, a, f);
    }
  }

  lemma {:induction false} RunKeeps(s: State, acts: seq<Action>)
    requires Init(s) && IsRun(s, acts)
    ensures Inv(After(s, acts))
    decreases |acts|
  {
    if acts != [] {
      RunKeeps(s, acts[..|acts| - 1]);
      Keeps(After(s, acts[..|acts| - 1]), acts[|acts| - 1]);
    }
  }

  // ---- Honest failures ----------------------------------------------------------

  /** Once a forward failure counts, nothing is or comes behind it. */
  predicate FailureOk(s: State, f: Step) {
    (!Forwards(s.status) || s.run.Rollback? || (s.run.Forward? && f in s.run.execs && s.run.execs[f].Bad?)) &&
    HasStatus(s.steps, f, Failed) ==>
      f !in s.done && !OnWire(s, f)
  }

  lemma SetExecHonest(s: State, step: Step, e: Exec, f: Step)
    requires IsForward(f) && PhaseOk(s) && FailureOk(s, f) && Open(s, step) && !e.Bad?
    ensures FailureOk(s.(run := SetExec(s.run, step, e)), f)
  {
  }

  /** Only a step's own call puts it on the wire. */
  lemma AttemptHonest(s: State, step: Step, k: nat, heard: bool, f: Step)
    requires IsForward(f) && PhaseOk(s) && FailureOk(s, f) && Open(s, step)
    ensures FailureOk(Attempt(s, step, k, heard), f)
  {
  }

  /** Only a delivery completes it. */
  lemma ServeHonest(s: State, r: Request, shortage: bool, f: Step)
    requires IsForward(f) && PhaseOk(s) && FailureOk(s, f) && r in s.wire
    ensures FailureOk(Serve(s, r, shortage), f) && PhaseOk(Serve(s, r, shortage))
  {
  }

  lemma HonestReply(s: State, a: Action, f: Step)
    requires IsForward(f) && PhaseOk(s) && FailureOk(s, f) && Enabled(s, a) && a.Reply?
    ensures FailureOk(Next(s, a), f)
  {
    var r := Request(a.step, Force(s.run));
    var served := Serve(s, r, a.shortage);
    ServeHonest(s, r, a.shortage, f);
    match Answer(s, r, a.shortage)
    case Accepted => SetExecHonest(served, a.step, Succeeding, f);
    case TryAgain => AttemptHonest(served, a.step, s.run.execs[a.step].attempt + 1, true, f);
    case Refused => SetExecHonest(served, a.step, Failing(true), f);
  }

  lemma HonestExchange(s: State, a: Action, f: Step)
    requires IsForward(f) && PhaseOk(s) && FailureOk(s, f) && Enabled(s, a)
    requires a.Begin? || a.Reply? || a.Lost? || a.Busy? || a.Deliver?
    ensures FailureOk(Next(s, a), f)
  {
    match a
    case Begin(st) =>
      var t := s.(steps := MarkStepRunning(s.steps, st));
      assert FailureOk(t, f);
      AttemptHonest(t, st, 1, false, f);
    case Reply(_, _) => HonestReply(s, a, f);
    case Lost(st, retryable) =>
      var e := s.run.execs[st];
      if retryable { AttemptHonest(s, st, e.attempt + 1, e.heard, f); }
      else { SetExecHonest(s, st, Failing(e.heard), f); }
    case Busy(st) => AttemptHonest(s, st, s.run.execs[st].attempt + 1, s.run.execs[st].heard, f);
    case Deliver(r, shortage) => ServeHonest(s, r, shortage, f);
  }

  lemma HonestKeeps(s: State, a: Action, f: Step)
    requires IsForward(f) && Good(s, f) && FailureOk(s, f) && Enabled(s, a) && Honest(s, a)
    ensures FailureOk(Next(s, a), f)
  {
    if a.Begin? || a.Reply? || a.Lost? || a.Busy? || a.Deliver? {
      HonestExchange(s, a, f);
    } else if a.Advance? && s.run.CompInit? {
      StepsPartition(f);
    } else if a.Advance? && s.run.CompSkip? && s.run.i < |COMPENSATION_STEPS| {
      StepsPartition(COMPENSATION_STEPS[s.run.i]);
    }
  }

  lemma {:induction false} HonestRunKeeps(s: State, acts: seq<Action>, f: Step)
    requires Init(s) && IsRun(s, acts) && HonestRun(s, acts) && IsForward(f)
    ensures FailureOk(After(s, acts), f)
    decreases |acts|
  {
    if acts != [] {
      var before := acts[..|acts| - 1];
      HonestRunKeeps(s, before, f);
      RunKeeps(s, before);
      assert Good(After(s, before), f);
      HonestKeeps(After(s, before), acts[|acts| - 1], f);
    }
  }

  // ---- The theorems -------------------------------------------------------------

  /** The forward step's effect never happened, or happened once and was undone once. */
  predicate Clean(e: Effect) {
    e == Effect(Absent, 0, 0) || e == Effect(Undone, 1, 1)
  }

  /** For every run, whatever is interleaved, repeated, lost or crashed: a placed or
      shipped order has all four effects committed exactly once and none undone; and a
      cancelled order is clean at a forward step exactly when no committed effect hides
      behind a row that is not SUCCEEDED. */
  lemma AtomicityOfEveryRun(s: State, acts: seq<Action>, f: Step)
    requires Init(s) && IsRun(s, acts) && IsForward(f)
    ensures var t := After(s, acts);
      && (t.status.Placed? || t.status.Shipped? ==> EffectOf(t.effects, f) == Effect(Done, 1, 0))
      && (t.status.Cancelled? ==>
            (Clean(EffectOf(t.effects, f)) <==> f !in t.done || HasStatus(t.steps, f, Succeeded)))
  {
    RunKeeps(s, acts);
    assert Good(After(s, acts), f);
  }

  /** All or nothing, once the order has ended. */
  predicate Whole(t: State, f: Step) {
    var e := EffectOf(t.effects, f);
    match t.status
    case Placed => e == Effect(Done, 1, 0)
    case Shipped => e == Effect(Done, 1, 0)
    case Cancelled => Clean(e)
    case _ => true
  }

  /** Some run from a fresh order, all of whose failures are honest, ends here. */
  ghost predicate HonestlyReachable(t: State) {
    exists s, acts :: Init(s) && IsRun(s, acts) && HonestRun(s, acts) && t == After(s, acts)
  }

  /** End-to-end atomicity: with honest failures a placed or shipped order has every effect
      once, and a cancelled one has none that was not undone once. */
  lemma Atomicity(t: State, f: Step)
    requires IsForward(f)
    requires HonestlyReachable(t)
    ensures Whole(t, f)
  {
    var s, acts :| Init(s) && IsRun(s, acts) && HonestRun(s, acts) && t == After(s, acts);
    RunKeeps(s, acts);
    assert Good(t, f);
    HonestRunKeeps(s, acts, f);
  }

  /** The undo rows of a finished order: at CANCELLED an undo is SUCCEEDED exactly when its
      forward step is, and otherwise SKIPPED; NEEDS_ATTENTION means that a needed undo
      is recorded FAILED. */
  lemma UndoRows(s: State, acts: seq<Action>, f: Step)
    requires Init(s) && IsRun(s, acts) && IsForward(f)
    ensures var t := After(s, acts); var undo := CompensationOf(f);
      && (t.status.Cancelled? ==>
            && (HasStatus(t.steps, undo, Succeeded) <==> HasStatus(t.steps, f, Succeeded))
            && (HasStatus(t.steps, undo, Skipped) <==> !HasStatus(t.steps, f, Succeeded)))
      && (t.status.NeedsAttention? ==>
            exists failed <- Needed(t.steps) :: HasStatus(t.steps, failed, Failed))
  {
    var t := After(s, acts);
    RunKeeps(s, acts);
    assert Good(t, f);
    assert t.run.NoRun? || !t.status.NeedsAttention?;
  }

  lemma SelectionStep(s: State, a: Action)
    requires Inv(s) && Enabled(s, a) && !Forwards(s.status)
    ensures !Forwards(Next(s, a).status) && Needed(Next(s, a).steps) == Needed(s.steps)
  {
    forall f: Step | IsForward(f)
      ensures HasStatus(Next(s, a).steps, f, Succeeded) <==> HasStatus(s.steps, f, Succeeded)
    {
      assert Good(s, f);
      StepsPartition(f);
    }
    assert Good(s, CreateOrder);
  }

  /** Compensation selection survives crashes: from the moment the order is COMPENSATING,
      whatever crashes, recoveries and manual retries follow, every later pass computes the
      same needed set. */
  lemma {:induction false} SelectionStable(s: State, acts: seq<Action>, n: nat)
    requires Init(s) && IsRun(s, acts) && n <= |acts|
    requires IsRun(s, acts[..n]) && !Forwards(After(s, acts[..n]).status)
    ensures !Forwards(After(s, acts).status)
    ensures Needed(After(s, acts).steps) == Needed(After(s, acts[..n]).steps)
    decreases |acts|
  {
    if n < |acts| {
      var before := acts[..|acts| - 1];
      assert before[..n] == acts[..n];
      SelectionStable(s, before, n);
      RunKeeps(s, before);
      SelectionStep(After(s, before), acts[|acts| - 1]);
    } else {
      assert acts[..n] == acts;
    }
  }
}
