/** What a finished order leaves behind, from its fault columns alone: not only the status but
    every step's effect is independent of schedules, crashes and recoveries. */
module SagaOutcomes {
  import opened Vocabulary
  import opened Saga
  import opened SagaSchedules
  import T = SagaAtomicity

  /** The effect of a forward step once the order has ended. */
  function EndingEffect(order: Order, f: Step): Effect
    requires IsForward(f)
  {
    if !FailsForward(order) then Effect(Row.Done, 1, 0)
    else if f == order.failAt.value then Effect(Absent, 0, 0)
    else if order.compFailAt == Some(CompensationOf(f)) then Effect(Row.Done, 1, 0)
    else Effect(Row.Undone, 1, 1)
  }

  /** Compensation is over: each needed undo is recorded SUCCEEDED or is the faulty one. */
  predicate Compensated(s: State) {
    && Decided(s)
    && forall f: Step | IsForward(f) && f != s.order.failAt.value ::
         Faulty(s.order, CompensationOf(f)) || HasStatus(s.steps, CompensationOf(f), Succeeded)
  }

  predicate Over(s: State) {
    s.run.Finish? || s.status.Cancelled? || s.status.NeedsAttention?
  }

  predicate Outcomes(s: State) {
    Over(s) ==> Compensated(s)
  }

  lemma JoinOutcomes(s: State)
    requires Inv(s) && Enabled(s, Advance) && s.run.Undo?
    ensures Compensated(Next(s, Advance))
  {
    forall f: Step | IsForward(f) && f != s.order.failAt.value
      ensures Faulty(s.order, CompensationOf(f)) || HasStatus(s.steps, CompensationOf(f), Succeeded)
    {
      var undo := CompensationOf(f);
      assert undo != CompensationOf(s.order.failAt.value) by {
        assert ForwardOf(undo) == f && ForwardOf(CompensationOf(s.order.failAt.value)) == s.order.failAt.value;
      }
      assert undo in s.run.execs && ExecSound(s, undo, s.run.execs[undo]);
    }
  }

  /** With a step to compensate there is an undo to run. */
  lemma SomeUndo(s: State)
    requires Inv(s) && s.run.CompSkip?
    ensures s.run.needed != {}
  {
    assert CancelOrder in s.run.needed || ReleaseInventory in s.run.needed;
  }

  lemma OutcomesStep(s: State, a: Action)
    requires Inv(s) && Outcomes(s) && Enabled(s, a) && Benign(s, a)
    ensures Outcomes(Next(s, a))
  {
    if a.Advance? && s.run.Undo? {
      JoinOutcomes(s);
    } else if a.Advance? && s.run.CompSkip? {
      SomeUndo(s);
    }
  }

  lemma {:induction false} OutcomesRun(s: State, acts: seq<Action>)
    requires Init(s) && IsRun(s, acts) && BenignRun(s, acts)
    ensures Inv(After(s, acts)) && Outcomes(After(s, acts))
    decreases |acts|
  {
    RunKeeps(s, acts);
    if acts != [] {
      var before := acts[..|acts| - 1];
      OutcomesRun(s, before);
      OutcomesStep(After(s, before), acts[|acts| - 1]);
    }
  }

  lemma EndingRows(t: State, f: Step)
    requires IsForward(f) && Inv(t) && Outcomes(t) && T.Good(t, f)
    requires t.status.Cancelled? || t.status.NeedsAttention?
    ensures EffectOf(t.effects, f) == EndingEffect(t.order, f)
  {
    var undo := CompensationOf(f);
    assert StepSound(t, f) && StepSound(t, undo) && ForwardOf(undo) == f;
    assert HasStatus(t.steps, f, Succeeded) <==> f != t.order.failAt.value;
  }

  /** Every benign run that ends leaves each step's effect as the fault columns say: all four
      committed when none of them names a forward step; otherwise the failing step never took
      effect, the step whose undo is faulty stays committed, and the others are undone once. */
  lemma EffectsIndependence(order: Order, t: State, f: Step)
    requires IsForward(f) && BenignlyReachable(order, t) && Final(t.status)
    ensures EffectOf(t.effects, f) == EndingEffect(order, f)
  {
    var s, acts :| Init(s) && s.order == order && IsRun(s, acts) && BenignRun(s, acts) && t == After(s, acts);
    RunKeeps(s, acts);
    OutcomesRun(s, acts);
    T.RunKeeps(s, acts);
    assert T.Good(t, f);
    if t.status.Cancelled? || t.status.NeedsAttention? {
      EndingRows(t, f);
    }
  }
}
