/** Why atomicity needs honest failures, and schedule independence answers that decide:
    `executeStep` records FAILED whenever its attempts end without a result, even when the
    service commits the step (services/coordinator/src/saga.ts:100-106). Every reply may have
    been lost, or every attempt may have been told that a twin of it was still in flight. */
module DishonestFailure {
  import opened Vocabulary
  import opened Saga
  import Atomic = SagaAtomicity
  import Schedules = SagaSchedules

  /** An order with no injected faults, two attempts per step and no crashes. */
  function OneOrder(): State {
    State(Order(None, None, 2), Pending, map[], {}, map[], {}, NoRun, 0)
  }

  /** Every FAILED written was honest, except the charge's. */
  predicate OnlyCharge(acts: seq<Action>) requires IsRun(OneOrder(), acts) decreases |acts| {
    acts == [] ||
    var before, a := acts[..|acts| - 1], acts[|acts| - 1];
    OnlyCharge(before) && (a == Record(ChargePayment) || Atomic.Honest(After(OneOrder(), before), a))
  }

  /** How the second attempt of a step ends: with a 409, because the first is still in flight,
      or like the first without an answer. */
  function Second(f: Step, busy: bool): Action {
    if busy then Busy(f) else Lost(f, true)
  }

  /** A run of OneOrder in which nothing crashes or is retried by hand, ending in t. */
  ghost predicate Tells(acts: seq<Action>, t: State) {
    && IsRun(OneOrder(), acts) && OnlyCharge(acts) && t == After(OneOrder(), acts)
    && forall a <- acts :: !a.Crash? && !a.Retry?
  }

  lemma Push(acts: seq<Action>, s: State, a: Action) returns (acts': seq<Action>, t: State)
    requires Tells(acts, s) && Enabled(s, a) && !a.Crash? && !a.Retry?
    requires a == Record(ChargePayment) || Atomic.Honest(s, a)
    ensures acts' == acts + [a] && Tells(acts', t) && t == Next(s, a)
  {
    acts' := acts + [a];
    RunSnoc(OneOrder(), acts, a);
    t := After(OneOrder(), acts');
    assert acts'[..|acts'| - 1] == acts;
  }

  lemma FreshRows()
    ensures forall f: Step :: IsForward(f) <==> f in InitSteps(map[], FORWARD_STEPS)
    ensures forall f: Step | IsForward(f) :: HasStatus(InitSteps(map[], FORWARD_STEPS), f, Waiting)
    ensures Pendings(InitSteps(map[], FORWARD_STEPS)) == set f: Step | IsForward(f)
  {
    forall f: Step ensures IsForward(f) <==> f in FORWARD_STEPS { StepsPartition(f); }
  }

  /** The order is claimed and its forward rows are created. */
  lemma Claimed() returns (acts: seq<Action>, t: State)
    ensures Tells(acts, t)
    ensures t == OneOrder().(status := InProgress, run := FwdRead, steps := InitSteps(map[], FORWARD_STEPS))
  {
    acts, t := Push([], OneOrder(), Claim);
    acts, t := Push(acts, t, Advance);
  }

  /** The four forward steps about to start. */
  lemma EnterForward() returns (acts: seq<Action>, t: State)
    ensures Tells(acts, t)
    ensures t.run.Forward? && t.order == OneOrder().order && t.status == InProgress
    ensures t.done == {} && t.effects == map[] && t.wire == {}
    ensures forall f: Step :: IsForward(f) <==> f in t.run.execs
    ensures forall f: Step | IsForward(f) :: t.run.execs[f].Start? && HasStatus(t.steps, f, Waiting)
  {
    FreshRows();
    acts, t := Claimed();
    acts, t := Push(acts, t, Advance);
  }

  /** A state in which step f is about to start. */
  predicate Ready(s: State, f: Step) {
    && IsForward(f) && s.run.Forward? && s.order == OneOrder().order
    && f in s.run.execs && s.run.execs[f].Start? && HasStatus(s.steps, f, Waiting)
    && !Atomic.OnWire(s, f) && f !in s.done
  }

  /** Both attempts of a step are sent and end undecided. */
  lemma Attempts(acts0: seq<Action>, busy: bool, s: State, f: Step) returns (acts: seq<Action>, t: State)
    requires Tells(acts0, s) && Ready(s, f)
    ensures Tells(acts, t) && acts == acts0 + [Begin(f), Lost(f, true), Second(f, busy)]
    ensures t == s.(run := Forward(s.run.execs[f := Failing(false)]),
                    steps := MarkStepRunning(s.steps, f), wire := s.wire + {Request(f, false)})
  {
    acts, t := Push(acts0, s, Begin(f));
    acts, t := Push(acts, t, Lost(f, true));
    assert t.wire == s.wire + {Request(f, false)};
    assert t.run.execs == s.run.execs[f := Calling(2, false)];
    acts, t := Push(acts, t, Second(f, busy));
    assert t.run.execs == s.run.execs[f := Failing(false)];
  }

  /** The request of a step is dropped, and FAILED is recorded: an honest failure. */
  lemma Fails(acts0: seq<Action>, busy: bool, s: State, f: Step) returns (acts: seq<Action>, t: State)
    requires Tells(acts0, s) && Ready(s, f)
    ensures Tells(acts, t) && acts0 <= acts && Second(f, busy) in acts
    ensures t.run == Forward(s.run.execs[f := Bad]) && t.steps == s.steps[f := Failed]
    ensures t == s.(run := t.run, steps := t.steps)
  {
    acts, t := Attempts(acts0, busy, s, f);
    acts, t := Push(acts, t, Drop(Request(f, false)));
    assert t.wire == s.wire;
    acts, t := Push(acts, t, Record(f));
    assert s.run.execs[f := Failing(false)][f := Bad] == s.run.execs[f := Bad];
    assert s.steps[f := Running][f := Failed] == s.steps[f := Failed];
  }

  /** The charge commits after its attempts have ended, and is recorded FAILED. */
  lemma ChargeCommits(acts0: seq<Action>, busy: bool, s: State) returns (acts: seq<Action>, t: State)
    requires Tells(acts0, s) && Ready(s, ChargePayment) && s.effects == map[]
    ensures Tells(acts, t) && acts0 <= acts && Second(ChargePayment, busy) in acts
    ensures t.run == Forward(s.run.execs[ChargePayment := Bad]) && t.steps == s.steps[ChargePayment := Failed]
    ensures t.effects == map[ChargePayment := Effect(Done, 1, 0)] && t.order == s.order && t.status == s.status
  {
    var f := ChargePayment;
    acts, t := Attempts(acts0, busy, s, f);
    acts, t := Push(acts, t, Deliver(Request(f, false), false));
    acts, t := Push(acts, t, Record(f));
    assert s.run.execs[f := Failing(false)][f := Bad] == s.run.execs[f := Bad];
    assert s.steps[f := Running][f := Failed] == s.steps[f := Failed];
  }

  predicate AllAnswered(acts: seq<Action>, busy: bool) {
    forall f: Step | IsForward(f) :: Second(f, busy) in acts
  }

  /** In the forward phase, the given steps are recorded FAILED and the others about to start. */
  predicate GivenUp(t: State, failed: set<Step>) {
    && t.run.Forward? && t.order == OneOrder().order && t.status == InProgress
    && (forall f: Step :: IsForward(f) <==> f in t.run.execs)
    && (forall f: Step | IsForward(f) ::
          if f in failed then t.run.execs[f] == Bad && HasStatus(t.steps, f, Failed)
          else Ready(t, f))
  }

  lemma FailsNext(acts0: seq<Action>, busy: bool, s: State, f: Step, failed: set<Step>)
    returns (acts: seq<Action>, t: State)
    requires Tells(acts0, s) && GivenUp(s, failed) && IsForward(f) && f !in failed
    ensures Tells(acts, t) && acts0 <= acts && Second(f, busy) in acts
    ensures GivenUp(t, failed + {f}) && t.effects == s.effects
  {
    acts, t := Fails(acts0, busy, s, f);
  }

  lemma ThreeFail(busy: bool) returns (acts: seq<Action>, t: State)
    ensures Tells(acts, t) && GivenUp(t, {CreateOrder, ReserveInventory, CreateShipment}) && t.effects == map[]
    ensures Second(CreateOrder, busy) in acts && Second(ReserveInventory, busy) in acts
    ensures Second(CreateShipment, busy) in acts
  {
    acts, t := EnterForward();
    assert GivenUp(t, {});
    acts, t := FailsNext(acts, busy, t, CreateOrder, {});
    acts, t := FailsNext(acts, busy, t, ReserveInventory, {} + {CreateOrder});
    acts, t := FailsNext(acts, busy, t, CreateShipment, {} + {CreateOrder} + {ReserveInventory});
    assert {} + {CreateOrder} + {ReserveInventory} + {CreateShipment}
        == {CreateOrder, ReserveInventory, CreateShipment};
  }

  lemma AllRecordedFailed(busy: bool) returns (acts: seq<Action>, t: State)
    ensures Tells(acts, t) && AllAnswered(acts, busy)
    ensures t.run.Forward? && t.effects == map[ChargePayment := Effect(Done, 1, 0)]
    ensures AnyBad(t.run.execs)
    ensures forall f: Step | IsForward(f) :: HasStatus(t.steps, f, Failed)
    ensures Settled(t.run.execs)
  {
    var s;
    acts, s := ThreeFail(busy);
    acts, t := ChargeCommits(acts, busy, s);
    assert t.run.execs[ChargePayment].Bad?;
  }

  /** Nothing recorded SUCCEEDED: nothing is undone. */
  lemma DecideNothing(busy: bool) returns (acts: seq<Action>, t: State)
    ensures Tells(acts, t) && AllAnswered(acts, busy)
    ensures t.run == CompInit({}, false) && t.effects == map[ChargePayment := Effect(Done, 1, 0)]
  {
    acts, t := AllRecordedFailed(busy);
    acts, t := Push(acts, t, Advance);
    acts, t := Push(acts, t, Advance);
    assert Needed(t.steps) == {};
    acts, t := Push(acts, t, Advance);
  }

  /** From any place in the skip loop to the end. */
  lemma {:induction false} SkipAll(acts0: seq<Action>, s: State, i: nat) returns (acts: seq<Action>, t: State)
    requires i <= 4 && Tells(acts0, s) && s.run == CompSkip({}, i, false)
    ensures Tells(acts, t) && acts0 <= acts && t.run == Finish(Cancelled) && t.effects == s.effects
    decreases 4 - i
  {
    acts, t := Push(acts0, s, Advance);
    if i < 4 {
      acts, t := SkipAll(acts, t, i + 1);
    }
  }

  lemma Cancels(busy: bool) returns (acts: seq<Action>, t: State)
    ensures Tells(acts, t) && AllAnswered(acts, busy)
    ensures t.status == Cancelled && EffectOf(t.effects, ChargePayment) == Effect(Done, 1, 0)
  {
    acts, t := DecideNothing(busy);
    acts, t := Push(acts, t, Advance);
    acts, t := SkipAll(acts, t, 0);
    acts, t := Push(acts, t, Advance);
  }

  /** A run to CANCELLED that leaves the customer charged: every failure recorded in it is
      honest but the charge's, which commits after its replies have been given up. */
  lemma CancelledButCharged() returns (acts: seq<Action>)
    ensures Init(OneOrder()) && IsRun(OneOrder(), acts) && OnlyCharge(acts)
    ensures After(OneOrder(), acts).status == Cancelled
    ensures EffectOf(After(OneOrder(), acts).effects, ChargePayment) == Effect(Done, 1, 0)
  {
    var t;
    acts, t := Cancels(false);
  }

  /** Why the fate of a step must be answered: in this run of an order without faults every
      step hears a 409 at its last attempt, because the first is still in flight, and the
      order ends CANCELLED, and charged, where the fault columns say PLACED. */
  lemma BusyAnswersCancel() returns (acts: seq<Action>)
    ensures Init(OneOrder()) && IsRun(OneOrder(), acts) && forall a <- acts :: !a.Retry? && !a.Crash?
    ensures forall f: Step | IsForward(f) :: Busy(f) in acts
    ensures After(OneOrder(), acts).status == Cancelled && Schedules.Ending(OneOrder().order) == Placed
    ensures EffectOf(After(OneOrder(), acts).effects, ChargePayment) == Effect(Done, 1, 0)
  {
    var t;
    acts, t := Cancels(true);
    forall f: Step | IsForward(f) ensures Busy(f) in acts {
      assert Second(f, true) in acts;
    }
  }
}
