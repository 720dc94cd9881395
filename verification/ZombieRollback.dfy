/** Two orders PLACED with their shipment cancelled. In the first run a superseded run undoes a
    PLACED order: runSaga ignores that its COMPENSATING write was fenced off, and its step rows
    are not fenced (services/coordinator/src/saga.ts:242-247,
    services/coordinator/src/repository.ts:203-219). In the second a superseded run places an
    order that is being compensated, since its process was given the order again
    (services/coordinator/src/config.ts:52). */
module ZombieRollback {
  import opened Vocabulary
  import opened Saga
  import opened Superseded

  /** An order with no injected faults, one attempt per step and no crashes. */
  function Start(): Crowd {
    Crowd(State(Order(None, None, 1), Pending, map[], {}, map[], {}, NoRun, 0), [])
  }

  ghost predicate At(events: seq<Event>, c: Crowd) {
    IsCrowdRun(Start(), events) && c == AfterAll(Start(), events)
  }

  /** Not a superseded run that turns from its forward phase to compensate. */
  predicate GoesOn(c: Crowd, e: Event) {
    e.Stale? && e.a.Advance? && e.i < |c.stale| ==> !c.stale[e.i].Rollback?
  }

  predicate NoneGivesUp(c: Crowd, events: seq<Event>) requires IsCrowdRun(c, events) decreases |events| {
    events == [] ||
    (NoneGivesUp(c, events[..|events| - 1]) && GoesOn(AfterAll(c, events[..|events| - 1]), events[|events| - 1]))
  }

  ghost predicate OnTrack(events: seq<Event>, c: Crowd) {
    At(events, c) && NoneGivesUp(Start(), events)
  }

  lemma Push(events: seq<Event>, c: Crowd, e: Event) returns (more: seq<Event>, d: Crowd)
    requires At(events, c) && May(c, e)
    ensures At(more, d) && d == After1(c, e)
    ensures OnTrack(events, c) && GoesOn(c, e) ==> OnTrack(more, d)
  {
    Snoc(Start(), events, e);
    more := events + [e];
    d := AfterAll(Start(), more);
    assert more[..|more| - 1] == events;
  }

  /** In the forward phase the steps in `ok` have succeeded and the others are to start. */
  predicate Phase(s: State, ok: set<Step>) {
    && s.order == Start().s.order && s.status == InProgress && s.run.Forward?
    && (forall f: Step :: IsForward(f) <==> f in s.run.execs)
    && (forall f: Step | IsForward(f) :: CompensationOf(f) !in s.done)
    && (forall f: Step | IsForward(f) :: if f in ok then Succeeds(s, f) else Waits(s, f))
  }

  predicate Committed(s: State, f: Step) {
    f in s.done && HasStatus(s.steps, f, Succeeded) && EffectOf(s.effects, f) == Effect(Done, 1, 0)
  }

  predicate Succeeds(s: State, f: Step) {
    HasExec(s.run, f) && s.run.execs[f].Ok? && Committed(s, f)
  }

  predicate Waits(s: State, f: Step) {
    && HasExec(s.run, f) && s.run.execs[f].Start? && HasStatus(s.steps, f, Waiting)
    && f !in s.done && EffectOf(s.effects, f) == Effect(Absent, 0, 0)
  }

  lemma FreshRows()
    ensures forall f: Step :: IsForward(f) <==> f in InitSteps(map[], FORWARD_STEPS)
    ensures forall f: Step | IsForward(f) :: HasStatus(InitSteps(map[], FORWARD_STEPS), f, Waiting)
    ensures Pendings(InitSteps(map[], FORWARD_STEPS)) == set f: Step | IsForward(f)
  {
    forall f: Step ensures IsForward(f) <==> f in FORWARD_STEPS { StepsPartition(f); }
  }

  lemma Claimed() returns (events: seq<Event>, c: Crowd)
    ensures OnTrack(events, c) && c.stale == []
    ensures c.s == Start().s.(status := InProgress, run := FwdRead, steps := InitSteps(map[], FORWARD_STEPS))
  {
    events, c := Push([], Start(), Live(Claim));
    events, c := Push(events, c, Live(Advance));
  }

  lemma Enter() returns (events: seq<Event>, c: Crowd)
    ensures OnTrack(events, c) && c.stale == [] && Phase(c.s, {})
  {
    FreshRows();
    events, c := Claimed();
    events, c := Push(events, c, Live(Advance));
  }

  /** A call waits for the answer to its only attempt. */
  predicate Asks(s: State, st: Step) {
    s.order == Start().s.order && HasExec(s.run, st) && s.run.execs[st] == Calling(1, false)
  }

  lemma Asked(events: seq<Event>, c: Crowd, st: Step) returns (more: seq<Event>, d: Crowd)
    requires At(events, c) && c.s.order == Start().s.order && HasExec(c.s.run, st) && c.s.run.execs[st].Start?
    ensures At(more, d) && (OnTrack(events, c) ==> OnTrack(more, d)) && d.stale == c.stale && Asks(d.s, st)
    ensures d.s == c.s.(run := SetExec(c.s.run, st, Calling(1, false)), steps := MarkStepRunning(c.s.steps, st),
                        wire := c.s.wire + {Request(st, Force(c.s.run))})
  {
    more, d := Push(events, c, Live(Begin(st)));
  }

  /** What the service answers to a first request that it accepts. */
  lemma AnsweredNext(s: State, st: Step)
    requires Asks(s, st) && st !in s.done && Request(st, Force(s.run)) in s.wire
    requires IsForward(st) ==> EffectOf(s.effects, st).row == Absent
    ensures Enabled(s, Reply(st, false))
    ensures Next(s, Reply(st, false)) ==
            s.(run := SetExec(s.run, st, Succeeding), done := s.done + {st}, effects := Handle(s.effects, st))
  {
  }

  lemma LostNext(s: State, st: Step)
    requires Asks(s, st)
    ensures Enabled(s, Lost(st, true)) && Next(s, Lost(st, true)) == s.(run := SetExec(s.run, st, Failing(false)))
  {
  }

  lemma Answered(events: seq<Event>, c: Crowd, st: Step) returns (more: seq<Event>, d: Crowd)
    requires At(events, c) && c.s.order == Start().s.order && st !in c.s.done
    requires HasExec(c.s.run, st) && c.s.run.execs[st].Start?
    requires IsForward(st) ==> EffectOf(c.s.effects, st).row == Absent
    ensures At(more, d) && (OnTrack(events, c) ==> OnTrack(more, d)) && d.stale == c.stale
    ensures d.s == c.s.(run := SetExec(c.s.run, st, Succeeding), wire := c.s.wire + {Request(st, Force(c.s.run))},
                        done := c.s.done + {st}, effects := Handle(c.s.effects, st),
                        steps := MarkStepRunning(c.s.steps, st))
  {
    var execs := c.s.run.execs;
    more, d := Asked(events, c, st);
    AnsweredNext(d.s, st);
    more, d := Push(more, d, Live(Reply(st, false)));
    assert execs[st := Calling(1, false)][st := Succeeding] == execs[st := Succeeding];
  }

  /** The call of one step by the live run: sent, served, answered, recorded. */
  lemma CallSucceeds(events: seq<Event>, c: Crowd, st: Step) returns (more: seq<Event>, d: Crowd)
    requires At(events, c) && c.s.order == Start().s.order && st !in c.s.done
    requires HasExec(c.s.run, st) && c.s.run.execs[st].Start?
    requires IsForward(st) ==> EffectOf(c.s.effects, st).row == Absent
    ensures At(more, d) && (OnTrack(events, c) ==> OnTrack(more, d)) && d.stale == c.stale
    ensures d.s == c.s.(run := SetExec(c.s.run, st, Ok), wire := c.s.wire + {Request(st, Force(c.s.run))},
                        done := c.s.done + {st}, effects := Handle(c.s.effects, st),
                        steps := MarkStepResult(MarkStepRunning(c.s.steps, st), st, Succeeded))
  {
    more, d := Answered(events, c, st);
    more, d := Push(more, d, Live(Record(st)));
    assert c.s.run.execs[st := Succeeding][st := Ok] == c.s.run.execs[st := Ok];
  }

  lemma OneSucceeds(events: seq<Event>, c: Crowd, ok: set<Step>, f: Step) returns (more: seq<Event>, d: Crowd)
    requires OnTrack(events, c) && c.stale == [] && Phase(c.s, ok) && IsForward(f) && f !in ok
    ensures OnTrack(more, d) && d.stale == [] && Phase(d.s, ok + {f})
  {
    assert Waits(c.s, f);
    more, d := CallSucceeds(events, c, f);
    forall g: Step | IsForward(g) && g != f ensures if g in ok then Succeeds(d.s, g) else Waits(d.s, g) {
      assert if g in ok then Succeeds(c.s, g) else Waits(c.s, g);
    }
    assert Succeeds(d.s, f);
  }

  const OTHERS: set<Step> := {CreateOrder, ReserveInventory, CreateShipment}

  /** All but the charge succeed. */
  lemma ThreeSucceed() returns (events: seq<Event>, c: Crowd)
    ensures OnTrack(events, c) && c.stale == [] && Phase(c.s, OTHERS)
  {
    events, c := Enter();
    events, c := OneSucceeds(events, c, {}, CreateOrder);
    events, c := OneSucceeds(events, c, {} + {CreateOrder}, ReserveInventory);
    events, c := OneSucceeds(events, c, {} + {CreateOrder} + {ReserveInventory}, CreateShipment);
    assert {} + {CreateOrder} + {ReserveInventory} + {CreateShipment} == OTHERS;
  }

  /** A superseded run whose three other calls have succeeded. */
  predicate OnlyCharge(run: Run, e: Exec) {
    && run.Forward? && (forall f: Step :: IsForward(f) <==> f in run.execs)
    && (forall f: Step | IsForward(f) && f != ChargePayment :: run.execs[f].Ok?)
    && run.execs[ChargePayment] == e
  }

  /** The rows and effects: all but the charge are committed, nothing is undone. */
  predicate AllBut(s: State) {
    && s.order == Start().s.order
    && (forall f: Step | IsForward(f) && f != ChargePayment :: Committed(s, f))
    && (forall f: Step | IsForward(f) :: CompensationOf(f) !in s.done)
    && ChargePayment in s.steps && !HasStatus(s.steps, ChargePayment, Succeeded)
    && ChargePayment !in s.done && EffectOf(s.effects, ChargePayment) == Effect(Absent, 0, 0)
  }

  /** The live run loses its lease while it waits for the charge's answer. */
  lemma Stalled() returns (events: seq<Event>, c: Crowd)
    ensures OnTrack(events, c) && AllBut(c.s) && c.s.status == InProgress && c.s.run.NoRun?
    ensures |c.stale| == 1 && OnlyCharge(c.stale[0], Calling(1, false)) && Request(ChargePayment, false) in c.s.wire
  {
    events, c := ThreeSucceed();
    var s := c.s;
    assert ChargePayment !in OTHERS && Waits(s, ChargePayment);
    assert forall f: Step | IsForward(f) && f != ChargePayment :: f in OTHERS && Succeeds(s, f);
    events, c := Asked(events, c, ChargePayment);
    events, c := Push(events, c, Outlive);
  }

  lemma KeepsSucceeded(s: State)
    requires AllBut(s)
    ensures AllBut(s.(steps := InitSteps(s.steps, FORWARD_STEPS)))
    ensures HasStatus(InitSteps(s.steps, FORWARD_STEPS), ChargePayment, Waiting)
    ensures Pendings(InitSteps(s.steps, FORWARD_STEPS)) == {ChargePayment}
  {
    forall f: Step ensures IsForward(f) <==> f in FORWARD_STEPS { StepsPartition(f); }
  }

  /** Another instance claims the order and has only the charge left. */
  lemma Reclaimed(events: seq<Event>, c: Crowd) returns (more: seq<Event>, d: Crowd)
    requires OnTrack(events, c) && AllBut(c.s) && c.s.status == InProgress && c.s.run.NoRun?
    ensures OnTrack(more, d) && AllBut(d.s) && d.s.status == InProgress
    ensures d.s.run == Forward(map[ChargePayment := Exec.Start]) && HasStatus(d.s.steps, ChargePayment, Waiting)
    ensures d.stale == c.stale && d.s.wire == c.s.wire
  {
    KeepsSucceeded(c.s);
    more, d := Push(events, c, Live(Claim));
    more, d := Push(more, d, Live(Advance));
    more, d := Push(more, d, Live(Advance));
    assert Starting({ChargePayment}) == map[ChargePayment := Exec.Start];
  }

  // ---- A superseded run undoes a placed order -----------------------------------------

  /** The order is PLACED: everything is committed and nothing undone. */
  predicate IsPlaced(s: State) {
    && s.order == Start().s.order && s.status == Placed
    && (forall f: Step | IsForward(f) :: Committed(s, f) && CompensationOf(f) !in s.done)
  }

  /** The zombie loses the charge's answer, and another instance has the order. */
  lemma Overtaken() returns (events: seq<Event>, c: Crowd)
    ensures At(events, c) && AllBut(c.s) && c.s.status == InProgress
    ensures c.s.run == Forward(map[ChargePayment := Exec.Start]) && HasStatus(c.s.steps, ChargePayment, Waiting)
    ensures |c.stale| == 1 && OnlyCharge(c.stale[0], Failing(false))
  {
    events, c := Stalled();
    var run := c.stale[0];
    events, c := Push(events, c, Stale(0, Lost(ChargePayment, true), false));
    assert c.stale[0] == Forward(run.execs[ChargePayment := Failing(false)]);
    events, c := Reclaimed(events, c);
  }

  lemma PlacedByOther() returns (events: seq<Event>, c: Crowd)
    ensures At(events, c) && IsPlaced(c.s) && |c.stale| == 1 && OnlyCharge(c.stale[0], Failing(false))
  {
    events, c := Overtaken();
    events, c := CallSucceeds(events, c, ChargePayment);
    assert c.s.run.execs == map[ChargePayment := Ok];
    events, c := Push(events, c, Live(Advance));
    events, c := Push(events, c, Live(Advance));
  }

  /** The zombie records FAILED over SUCCEEDED, and gives up its forward phase. */
  lemma ZombieGivesUp() returns (events: seq<Event>, c: Crowd)
    ensures At(events, c) && c.s.status == Placed && c.s.order == Start().s.order && Committed(c.s, CreateShipment)
    ensures CancelShipment !in c.s.done && |c.stale| == 1 && c.stale[0].Rollback?
  {
    events, c := PlacedByOther();
    assert Committed(c.s, CreateShipment) && CompensationOf(CreateShipment) == CancelShipment;
    var run := c.stale[0];
    events, c := Push(events, c, Stale(0, Record(ChargePayment), false));
    assert c.stale[0] == Forward(run.execs[ChargePayment := Bad]) && c.stale[0].execs[ChargePayment].Bad?;
    assert Committed(c.s, CreateShipment);
    events, c := Push(events, c, Stale(0, Advance, false));
  }

  /** Its COMPENSATING write is fenced off; it reads what to undo all the same. */
  lemma ZombieDecides() returns (events: seq<Event>, c: Crowd, needed: set<Step>)
    ensures At(events, c) && c.s.status == Placed && c.s.order == Start().s.order
    ensures EffectOf(c.s.effects, CreateShipment) == Effect(Done, 1, 0) && CancelShipment !in c.s.done
    ensures |c.stale| == 1 && c.stale[0] == CompInit(needed, false) && CancelShipment in needed
  {
    events, c := ZombieGivesUp();
    events, c := Push(events, c, Stale(0, Advance, false));
    needed := Needed(c.s.steps);
    assert ForwardOf(CancelShipment) == CreateShipment;
    events, c := Push(events, c, Stale(0, Advance, false));
  }

  /** What of the order matters from here on. */
  predicate StillPlaced(c: Crowd, s: State) {
    && c.s.status == Placed && c.s.order == s.order && c.s.effects == s.effects && c.s.done == s.done
    && |c.stale| == 1
  }

  lemma {:induction false} ZombieSkips(events: seq<Event>, c: Crowd, needed: set<Step>, i: nat)
    returns (more: seq<Event>, d: Crowd)
    requires At(events, c) && c.s.status == Placed && |c.stale| == 1 && needed != {}
    requires i <= 4 && c.stale[0] == CompSkip(needed, i, false)
    ensures At(more, d) && StillPlaced(d, c.s) && d.stale[0] == Undo(needed, Starting(needed), false)
    decreases 4 - i
  {
    more, d := Push(events, c, Stale(0, Advance, false));
    if i < 4 {
      more, d := ZombieSkips(more, d, needed, i + 1);
    }
  }

  lemma ZombieUndoes(events: seq<Event>, c: Crowd, needed: set<Step>) returns (more: seq<Event>, d: Crowd)
    requires At(events, c) && c.s.status == Placed && c.s.order == Start().s.order && |c.stale| == 1
    requires EffectOf(c.s.effects, CreateShipment) == Effect(Done, 1, 0) && CancelShipment !in c.s.done
    requires c.stale[0] == Undo(needed, Starting(needed), false) && CancelShipment in needed
    ensures At(more, d) && d.s.status == Placed
    ensures EffectOf(d.s.effects, CreateShipment) == Effect(Undone, 1, 1)
  {
    more, d := Push(events, c, Stale(0, Begin(CancelShipment), false));
    assert d.stale[0] == Undo(needed, Starting(needed)[CancelShipment := Calling(1, false)], false);
    assert d.s.effects == c.s.effects && d.s.done == c.s.done;
    more, d := Push(more, d, Stale(0, Reply(CancelShipment, false), false));
  }

  /** The order is PLACED and its shipment cancelled: the first half of the hypothesis of
      Superseded.PlacedAmongZombies is needed. */
  lemma PlacedButUndone() returns (d: Crowd)
    ensures Reachable(d) && d.s.status == Placed
    ensures EffectOf(d.s.effects, CreateShipment) == Effect(Undone, 1, 1)
  {
    var events, c, needed;
    events, c, needed := ZombieDecides();
    var s := c.s;
    events, c := Push(events, c, Stale(0, Advance, false));
    assert c.s.effects == s.effects && c.s.done == s.done;
    events, c := ZombieSkips(events, c, needed, 0);
    events, d := ZombieUndoes(events, c, needed);
    assert Starts(Start());
  }

  // ---- A superseded run places an order that is being compensated ---------------------

  /** The zombie waits for the answer to its charge, which nobody has served. */
  predicate Hears(c: Crowd, zombie: Run) {
    && c.s.order == Start().s.order && c.stale == [zombie] && OnlyCharge(zombie, Calling(1, false))
    && Request(ChargePayment, false) in c.s.wire
    && ChargePayment !in c.s.done && EffectOf(c.s.effects, ChargePayment) == Effect(Absent, 0, 0)
  }

  /** The call of one step by the live run whose answer is lost. */
  lemma CallLost(events: seq<Event>, c: Crowd, st: Step) returns (more: seq<Event>, d: Crowd)
    requires OnTrack(events, c) && c.s.order == Start().s.order
    requires HasExec(c.s.run, st) && c.s.run.execs[st].Start?
    ensures OnTrack(more, d) && d.stale == c.stale
    ensures d.s == c.s.(run := SetExec(c.s.run, st, Bad), wire := c.s.wire + {Request(st, Force(c.s.run))},
                        steps := MarkStepResult(MarkStepRunning(c.s.steps, st), st, Failed))
  {
    var execs := c.s.run.execs;
    more, d := Asked(events, c, st);
    LostNext(d.s, st);
    more, d := Push(more, d, Live(Lost(st, true)));
    more, d := Push(more, d, Live(Record(st)));
    assert execs[st := Calling(1, false)][st := Failing(false)][st := Bad] == execs[st := Bad];
  }

  /** The run that took over loses its charge, too, and gives the order up. */
  lemma GivenUp() returns (events: seq<Event>, c: Crowd, zombie: Run)
    ensures OnTrack(events, c) && Hears(c, zombie) && c.s.status == InProgress && c.s.run == Rollback
    ensures AllBut(c.s)
  {
    events, c := Stalled();
    zombie := c.stale[0];
    events, c := Reclaimed(events, c);
    var s := c.s;
    events, c := CallLost(events, c, ChargePayment);
    assert c.s.steps == s.steps[ChargePayment := Failed] && c.s.run == Forward(map[ChargePayment := Bad]);
    forall f: Step | IsForward(f) && f != ChargePayment ensures Committed(c.s, f) {
      assert Committed(s, f);
    }
    assert c.s.run.execs[ChargePayment].Bad?;
    events, c := Push(events, c, Live(Advance));
  }

  const UNDOS: set<Step> := {CancelOrder, ReleaseInventory, CancelShipment}

  /** It undoes the three steps of OTHERS; nothing is undone so far. */
  predicate Undoing(c: Crowd, zombie: Run) {
    && Hears(c, zombie) && c.s.status == Compensating
    && EffectOf(c.s.effects, CreateShipment) == Effect(Done, 1, 0) && CancelShipment !in c.s.done
  }

  lemma Decided() returns (events: seq<Event>, c: Crowd, zombie: Run)
    ensures OnTrack(events, c) && Undoing(c, zombie) && c.s.run == CompSkip(UNDOS, 0, false)
  {
    events, c, zombie := GivenUp();
    assert Committed(c.s, CreateShipment) && CompensationOf(CreateShipment) == CancelShipment;
    assert Needed(c.s.steps) == UNDOS;
    events, c := Push(events, c, Live(Advance));
    events, c := Push(events, c, Live(Advance));
    events, c := Push(events, c, Live(Advance));
  }

  lemma {:induction false} Skips(events: seq<Event>, c: Crowd, zombie: Run, i: nat)
    returns (more: seq<Event>, d: Crowd)
    requires OnTrack(events, c) && Undoing(c, zombie) && i <= 4 && c.s.run == CompSkip(UNDOS, i, false)
    ensures OnTrack(more, d) && Undoing(d, zombie) && d.s.run == Undo(UNDOS, Starting(UNDOS), false)
    decreases 4 - i
  {
    more, d := Push(events, c, Live(Advance));
    if i < 4 {
      more, d := Skips(more, d, zombie, i + 1);
    }
  }

  /** The shipment is cancelled, another undo fails, and a person has to look. */
  predicate Half(c: Crowd, zombie: Run) {
    Hears(c, zombie) && EffectOf(c.s.effects, CreateShipment) == Effect(Undone, 1, 1)
  }

  lemma UndosStart() returns (events: seq<Event>, c: Crowd, zombie: Run)
    ensures OnTrack(events, c) && Undoing(c, zombie) && c.s.run == Undo(UNDOS, Starting(UNDOS), false)
  {
    events, c, zombie := Decided();
    events, c := Skips(events, c, zombie, 0);
  }

  const SETTLED: map<Step, Exec> := map[CancelOrder := Bad, ReleaseInventory := Bad, CancelShipment := Ok]

  lemma UndosSettle() returns (events: seq<Event>, c: Crowd, zombie: Run)
    ensures OnTrack(events, c) && Half(c, zombie) && c.s.run == Undo(UNDOS, SETTLED, false)
  {
    events, c, zombie := UndosStart();
    events, c := CallLost(events, c, CancelOrder);
    events, c := CallLost(events, c, ReleaseInventory);
    events, c := CallSucceeds(events, c, CancelShipment);
    assert c.s.run.execs == SETTLED;
  }

  lemma NeedsPerson() returns (events: seq<Event>, c: Crowd, zombie: Run)
    ensures OnTrack(events, c) && Half(c, zombie) && c.s.status == NeedsAttention && c.s.run.NoRun?
  {
    events, c, zombie := UndosSettle();
    assert SETTLED[CancelOrder].Bad?;
    events, c := Push(events, c, Live(Advance));
    events, c := Push(events, c, Live(Advance));
  }

  /** A person has retried, and the order is compensated by the zombie's process. */
  predicate Retried(c: Crowd) {
    && c.s.status == Compensating && c.s.run == CompRead(true) && |c.stale| == 1
    && EffectOf(c.s.effects, CreateShipment) == Effect(Undone, 1, 1)
  }

  /** The zombie's charge is accepted. */
  lemma ZombieHears() returns (events: seq<Event>, c: Crowd)
    ensures OnTrack(events, c) && Retried(c) && OnlyCharge(c.stale[0], Succeeding)
  {
    var zombie;
    events, c, zombie := NeedsPerson();
    events, c := Push(events, c, Live(Retry));
    AnsweredNext(c.s.(run := zombie), ChargePayment);
    events, c := Push(events, c, Stale(0, Reply(ChargePayment, false), false));
    assert c.stale == [Forward(zombie.execs[ChargePayment := Succeeding])];
  }

  lemma AboutToPlace() returns (events: seq<Event>, c: Crowd)
    ensures OnTrack(events, c) && Retried(c) && c.stale == [Place]
  {
    events, c := ZombieHears();
    var execs := c.stale[0].execs;
    events, c := Push(events, c, Stale(0, Record(ChargePayment), false));
    assert c.stale[0] == Forward(execs[ChargePayment := Ok]);
    assert forall st <- c.stale[0].execs :: c.stale[0].execs[st].Ok?;
    events, c := Push(events, c, Stale(0, Advance, false));
  }

  /** The order is PLACED and its shipment cancelled, though no superseded run ever turned to
      compensate: the second half of the hypothesis is needed. The lease is cleared, so the
      retry's own ending will be fenced off. */
  lemma UndoneButPlaced() returns (events: seq<Event>, d: Crowd)
    ensures Starts(Start()) && IsCrowdRun(Start(), events) && NoneGivesUp(Start(), events)
    ensures d == AfterAll(Start(), events) && Reachable(d) && d.s.status == Placed && d.s.run.NoRun?
    ensures EffectOf(d.s.effects, CreateShipment) == Effect(Undone, 1, 1)
  {
    events, d := AboutToPlace();
    events, d := Push(events, d, Stale(0, Advance, true));
  }
}
