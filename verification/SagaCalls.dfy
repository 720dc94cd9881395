/** What becomes of one call of a step (services/coordinator/src/saga.ts:64-108): how its
    attempts end, what the step row says meanwhile, what a refusal for lack of stock does to
    the order, and that a manual retry is not stopped by an injected fault. */
module SagaCalls {
  import opened Vocabulary
  import opened Saga
  import T = SagaAtomicity
  import P = SagaProgress
  import S = SagaSchedules

  // ---- How an attempt ends ------------------------------------------------------------

  /** The order's fault columns make every attempt of the step fail, unless a person insists. */
  predicate FaultFires(s: State, st: Step) {
    if IsForward(st) then s.order.failAt == Some(st)
    else s.order.compFailAt == Some(st) && !(s.run.Undo? && s.run.force)
  }

  /** The service has no stock for a first reservation. */
  predicate TurnedDown(s: State, a: Action) {
    a.Reply? && a.step.ReserveInventory? && a.shortage && a.step !in s.done && !FaultFires(s, a.step)
  }

  /** The attempt ended in a way that another attempt may mend. */
  predicate WorthRetrying(s: State, a: Action) {
    a.Busy? || (a.Lost? && a.retryable) || (a.Reply? && FaultFires(s, a.step))
  }

  /** How an attempt ends. */
  predicate EndsAs(t: State, a: Action, u: State) requires Enabled(t, a) && (a.Reply? || a.Lost? || a.Busy?) {
    && HasExec(t.run, a.step) && t.run.execs[a.step].Calling? && HasExec(u.run, a.step)
    && var k, e := t.run.execs[a.step].attempt, u.run.execs[a.step];
    && (e.Succeeding? <==> a.Reply? && !FaultFires(t, a.step) && !TurnedDown(t, a))
    && (e.Succeeding? ==> a.step in u.done)
    && (e.Calling? <==> WorthRetrying(t, a) && k < t.order.maxAttempts)
    && (e.Calling? ==> e.attempt == k + 1 && Request(a.step, Force(t.run)) in u.wire)
    && (e.Succeeding? || e.Calling? || e.Failing?)
    && (TurnedDown(t, a) ==> u == t.(run := SetExec(t.run, a.step, Failing(true))))
  }

  lemma ReplyExact(t: State, a: Action)
    requires Enabled(t, a) && a.Reply? && (IsForward(a.step) ==> T.ServiceOk(t, a.step))
    ensures EndsAs(t, a, Next(t, a))
  {
    var r := Request(a.step, Force(t.run));
    assert Injected(t.order, r) <==> FaultFires(t, a.step);
    match Answer(t, r, a.shortage)
    case Accepted =>
    case TryAgain => P.AttemptSends(Serve(t, r, a.shortage), a.step, t.run.execs[a.step].attempt + 1, true);
    case Refused =>
  }

  lemma LostExact(t: State, a: Action)
    requires Enabled(t, a) && (a.Lost? || a.Busy?)
    ensures EndsAs(t, a, Next(t, a))
  {
    P.AttemptSends(t, a.step, t.run.execs[a.step].attempt + 1, t.run.execs[a.step].heard);
  }

  /** Every attempt of a call ends in one of three ways. It succeeds exactly when the service
      answers, no fault fires and there is stock, and then the effect is committed. Another
      attempt follows, under the next number and with a request on the wire, exactly when this
      one may be mended and attempts are left. Otherwise the step is given up; a refusal for
      lack of stock gives it up at once and changes nothing else. */
  lemma AttemptExact(t: State, a: Action)
    requires P.Reachable(t) && Enabled(t, a) && (a.Reply? || a.Lost? || a.Busy?)
    ensures EndsAs(t, a, Next(t, a))
  {
    var s, acts :| Init(s) && IsRun(s, acts) && t == After(s, acts);
    T.RunKeeps(s, acts);
    if a.Reply? {
      assert IsForward(a.step) ==> T.Good(t, a.step);
      ReplyExact(t, a);
    } else {
      LostExact(t, a);
    }
  }

  // ---- No stock, no order ---------------------------------------------------------------

  /** Whenever the inventory service is asked for the order's reservation, there is no stock. */
  predicate OutOfStock(acts: seq<Action>) {
    forall a <- acts ::
      (a.Reply? && a.step.ReserveInventory?) || (a.Deliver? && a.r.step.ReserveInventory?) ==> a.shortage
  }

  lemma ReserveRefused(s: State, r: Request, shortage: bool)
    requires ReserveInventory !in s.done && (r.step.ReserveInventory? ==> shortage)
    ensures ReserveInventory !in Serve(s, r, shortage).done
  {
  }

  lemma ReserveStep(s: State, a: Action)
    requires ReserveInventory !in s.done && Enabled(s, a) && OutOfStock([a])
    ensures ReserveInventory !in Next(s, a).done
  {
    assert a in [a];
    match a
    case Reply(st, shortage) => ReserveRefused(s, Request(st, Force(s.run)), shortage);
    case Deliver(r, shortage) => ReserveRefused(s, r, shortage);
    case _ =>
  }

  lemma {:induction false} NeverReserved(s: State, acts: seq<Action>)
    requires Init(s) && IsRun(s, acts) && OutOfStock(acts)
    ensures ReserveInventory !in After(s, acts).done
    decreases |acts|
  {
    if acts != [] {
      var before, a := acts[..|acts| - 1], acts[|acts| - 1];
      assert a in acts && forall b <- before :: b in acts;
      NeverReserved(s, before);
      ReserveStep(After(s, before), a);
    }
  }

  /** An order that the inventory service never has stock for is not placed, whatever else
      happens to it: nothing is ever reserved, and where it ends it is CANCELLED or needs
      attention. */
  lemma NoStockNoOrder(s: State, acts: seq<Action>)
    requires Init(s) && IsRun(s, acts) && OutOfStock(acts)
    ensures var t := After(s, acts);
      && ReserveInventory !in t.done && EffectOf(t.effects, ReserveInventory) == Effect(Absent, 0, 0)
      && !t.status.Placed? && !t.status.Shipped?
      && (S.Final(t.status) ==> t.status.Cancelled? || t.status.NeedsAttention?)
  {
    NeverReserved(s, acts);
    T.RunKeeps(s, acts);
    assert IsForward(ReserveInventory) && T.Good(After(s, acts), ReserveInventory);
  }

  // ---- Which steps change an order that is not under way --------------------------------

  /** CANCELLED and SHIPPED are final, PLACED is left only by shipping, NEEDS_ATTENTION only by a
      manual retry, and PENDING only by a claim, whatever steps an order's coordinators, the
      services, the network and people take. */
  lemma EndedStays(t: State, a: Action)
    requires P.Reachable(t) && Enabled(t, a)
    ensures var x, y := t.status, Next(t, a).status;
      && (x.Cancelled? || x.Shipped? ==> y == x)
      && (x.Placed? && y != x ==> a.Ship? && y.Shipped?)
      && (x.NeedsAttention? && y != x ==> a.Retry? && y.Compensating?)
      && (x.Pending? && y != x ==> a.Claim? && y.InProgress?)
  {
    var s, acts :| Init(s) && IsRun(s, acts) && t == After(s, acts);
    T.RunKeeps(s, acts);
    assert IsForward(CreateOrder) && T.Good(t, CreateOrder);
  }

  // ---- A manual retry is not stopped by an injected fault ---------------------------------

  /** The network and the coordinator's own progress, with every attempt answered. */
  predicate Answered(a: Action) {
    a.Advance? || a.Begin? || a.Reply? || a.Record? || a.Deliver? || a.Drop?
  }

  /** A person has retried, and nothing has gone wrong since. */
  predicate Clearing(s: State) {
    && s.order.maxAttempts >= 1
    && match s.run
       case NoRun => s.status.Cancelled?
       case CompRead(force) => force && s.status.Compensating?
       case CompInit(needed, force) => force && s.status.Compensating? && forall st <- needed :: !IsForward(st)
       case CompSkip(needed, _, force) => force && s.status.Compensating? && forall st <- needed :: !IsForward(st)
       case Undo(_, execs, force) =>
         && force && s.status.Compensating?
         && forall st <- execs :: !IsForward(st) && !execs[st].Failing? && !execs[st].Bad?
       case Finish(status) => status.Cancelled?
       case _ => false
  }

  lemma ClearingStep(s: State, a: Action)
    requires Clearing(s) && Enabled(s, a) && Answered(a)
    ensures Clearing(Next(s, a))
  {
  }

  /** A manual retry clears an order whose undo fails by injection: as long as attempts are
      answered, the order stays COMPENSATING until its run is over, and then it is CANCELLED.
      (With the fault still in place a claim would bring it back to NEEDS_ATTENTION.) */
  lemma {:induction false} RetryClears(t: State, acts: seq<Action>)
    requires IsRun(t, acts) && acts != [] && acts[0] == Retry && t.order.maxAttempts >= 1
    requires forall k :: 1 <= k < |acts| ==> Answered(acts[k])
    ensures var u := After(t, acts);
      Clearing(u) && if u.run.NoRun? then u.status.Cancelled? else u.status.Compensating?
    decreases |acts|
  {
    var before, a := acts[..|acts| - 1], acts[|acts| - 1];
    if |acts| == 1 {
      assert before == [] && After(t, before) == t;
    } else {
      RetryClears(t, before);
      ClearingStep(After(t, before), a);
    }
  }

  // ---- What the step rows show -----------------------------------------------------------

  /** The row of a call under way: PENDING before it, RUNNING during it, then its result. The
      row of an undo that an earlier pass had recorded SUCCEEDED stays that until the result. */
  predicate RowShows(s: State, st: Step, e: Exec) {
    && st in s.steps
    && match e
       case Start => Either(s, st, Waiting)
       case Ok => s.steps[st] == Succeeded
       case Bad => s.steps[st] == Failed
       case _ => Either(s, st, Running)
  }

  predicate Either(s: State, st: Step, status: StepStatus) requires st in s.steps {
    s.steps[st] == status || (s.steps[st] == Succeeded && !IsForward(st))
  }

  /** A phase's rows are created, or re-armed, before its calls start. */
  predicate RowsShow(s: State) {
    match s.run
    case FwdRead => forall f: Step | IsForward(f) :: f in s.steps && (s.steps[f] == Waiting || s.steps[f] == Succeeded)
    case Forward(execs) => forall st <- execs :: IsForward(st) && RowShows(s, st, execs[st])
    case CompInit(needed, _) => forall st <- needed :: !IsForward(st)
    case CompSkip(needed, _, _) => forall st <- needed :: !IsForward(st) && RowShows(s, st, Start)
    case Undo(needed, execs, _) => forall st <- execs :: !IsForward(st) && RowShows(s, st, execs[st])
    case _ => true
  }

  predicate CallStep(a: Action) {
    a.Begin? || a.Reply? || a.Lost? || a.Busy? || a.Record?
  }

  /** A call's step moves that call and its row alone. */
  lemma CallMoves(s: State, a: Action)
    requires CallStep(a) && Enabled(s, a)
    ensures var t := Next(s, a);
      && HasExec(s.run, a.step) && HasExec(t.run, a.step)
      && t.run == SetExec(s.run, a.step, t.run.execs[a.step])
      && (a.step in s.steps ==> a.step in t.steps && t.steps == s.steps[a.step := t.steps[a.step]])
  {
  }

  lemma BegunRowShows(s: State, st: Step)
    requires Enabled(s, Begin(st)) && RowShows(s, st, Start)
    ensures var t := Next(s, Begin(st)); HasExec(t.run, st) && RowShows(t, st, t.run.execs[st])
  {
    P.AttemptSends(s.(steps := MarkStepRunning(s.steps, st)), st, 1, false);
  }

  lemma OwnRowShows(s: State, a: Action)
    requires CallStep(a) && Enabled(s, a) && RowShows(s, a.step, s.run.execs[a.step])
    ensures HasExec(Next(s, a).run, a.step) && RowShows(Next(s, a), a.step, Next(s, a).run.execs[a.step])
  {
    match a
    case Begin(st) => BegunRowShows(s, st);
    case Reply(st, _) => CallMoves(s, a);
    case Lost(st, _) => CallMoves(s, a);
    case Busy(st) => CallMoves(s, a);
    case Record(st) =>
  }

  lemma CallRowsShow(s: State, a: Action)
    requires RowsShow(s) && CallStep(a) && Enabled(s, a)
    ensures RowsShow(Next(s, a))
  {
    var t := Next(s, a);
    CallMoves(s, a);
    OwnRowShows(s, a);
    forall st <- t.run.execs ensures RowShows(t, st, t.run.execs[st]) {
      assert RowShows(s, st, s.run.execs[st]);
    }
  }

  lemma AdvanceRowsShow(s: State)
    requires RowsShow(s) && Enabled(s, Advance)
    ensures RowsShow(Next(s, Advance))
  {
    var t := Next(s, Advance);
    if s.run.FwdInit? {
      forall f: Step | IsForward(f) ensures f in FORWARD_STEPS { StepsPartition(f); }
    } else if s.run.CompInit? {
      forall st <- s.run.needed ensures st in COMPENSATION_STEPS { StepsPartition(st); }
    } else if s.run.CompSkip? && s.run.i < |COMPENSATION_STEPS| {
      forall st <- s.run.needed ensures RowShows(t, st, Start) { assert RowShows(s, st, Start); }
    }
  }

  /** Over every run with one live coordinator run at a time, the rows show where the calls of
      the phase are: a step is PENDING until its call begins, RUNNING until its result is
      recorded, and then SUCCEEDED or FAILED as the call ended. */
  lemma {:induction false} RowsShowCalls(s: State, acts: seq<Action>)
    requires Init(s) && IsRun(s, acts)
    ensures RowsShow(After(s, acts))
    decreases |acts|
  {
    if acts != [] {
      var before, a := acts[..|acts| - 1], acts[|acts| - 1];
      RowsShowCalls(s, before);
      if a.Advance? {
        AdvanceRowsShow(After(s, before));
      } else if CallStep(a) {
        CallRowsShow(After(s, before), a);
      }
    }
  }
}
