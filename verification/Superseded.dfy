/** One order whose coordinators take it over from each other without being dead: a live run
    that holds the lease, and any number of superseded runs that keep stepping
    (services/coordinator/src/saga.ts, services/coordinator/src/repository.ts:140-219). Step
    rows and requests of a superseded run are not fenced. Its status writes are, and runSaga
    does not look at their result; but the token names a process
    (services/coordinator/src/config.ts:52), so a write passes the fence where the order still
    has the run's process as its owner, or has it again. */
module Superseded {
  import opened Vocabulary
  import opened Saga
  import T = SagaAtomicity

  datatype Crowd = Crowd(s: State, stale: seq<Run>)

  datatype Event =
    | Live(a: Action)                          // a step of the live run, the network, a service or a person
    | Outlive                                  // the lease expires while the live run goes on
    | Stale(i: nat, a: Action, passes: bool)   // a step of a superseded run, past the fence or not

  /** What a run does by itself. */
  predicate OwnStep(a: Action) {
    a.Advance? || a.Begin? || a.Reply? || a.Lost? || a.Busy? || a.Record?
  }

  predicate May(c: Crowd, e: Event) {
    match e
    case Live(a) => Enabled(c.s, a)
    case Outlive => !c.s.run.NoRun?
    case Stale(i, a, passes) =>
      && i < |c.stale| && OwnStep(a) && Enabled(c.s.(run := c.stale[i]), a)
      && (passes ==> Owned(c.s.status))
  }

  /** The statuses in which an order has an owner (LeaseSafety.Coupling): NULL passes no fence. */
  predicate Owned(status: OrderStatus) {
    status.InProgress? || status.Compensating?
  }

  /** The next statement writes an ending, and with it clears the lease. */
  predicate Ending(run: Run, a: Action) {
    a.Advance? && (run.Place? || run.Finish?)
  }

  /** A superseded run writes rows and requests like a live one, and a status if that passes
      the fence. An ending that passes takes the lease from the live run, too. */
  function After1(c: Crowd, e: Event): Crowd requires May(c, e) {
    match e
    case Live(a) => c.(s := Next(c.s, a))
    case Outlive => Crowd(c.s.(run := NoRun), c.stale + [c.s.run])
    case Stale(i, a, passes) =>
      var t := Next(c.s.(run := c.stale[i]), a);
      var stale := c.stale[i := t.run];
      if passes && Ending(c.stale[i], a) then Crowd(t.(run := NoRun), stale + [c.s.run])
      else Crowd(t.(run := c.s.run, status := if passes then t.status else c.s.status), stale)
  }

  predicate IsCrowdRun(c: Crowd, events: seq<Event>) decreases |events|, 0 {
    events == [] ||
    (IsCrowdRun(c, events[..|events| - 1]) &&
     May(AfterAll(c, events[..|events| - 1]), events[|events| - 1]))
  }

  function AfterAll(c: Crowd, events: seq<Event>): Crowd requires IsCrowdRun(c, events) decreases |events|, 1 {
    if events == [] then c else After1(AfterAll(c, events[..|events| - 1]), events[|events| - 1])
  }

  lemma Snoc(c: Crowd, events: seq<Event>, e: Event)
    requires IsCrowdRun(c, events) && May(AfterAll(c, events), e)
    ensures IsCrowdRun(c, events + [e]) && AfterAll(c, events + [e]) == After1(AfterAll(c, events), e)
  {
    assert (events + [e])[..|events + [e]| - 1] == events;
  }

  // ---- What no number of superseded runs can break ------------------------------------

  /** What a run may believe about step f: where it counts on its effect, it is committed. */
  predicate Believes(s: State, run: Run, f: Step) requires IsForward(f) {
    match run
    case Forward(execs) =>
      && (forall st <- execs :: IsForward(st))
      && (if f in execs then execs[f].Succeeding? || execs[f].Ok? ==> f in s.done else f in s.done)
    case Place => f in s.done
    case CompInit(needed, _) => Undoes(s, needed, f)
    case CompSkip(needed, _, _) => Undoes(s, needed, f)
    case Undo(_, execs, _) => Undoes(s, execs.Keys, f)
    case Finish(status) => status.Cancelled? || status.NeedsAttention?
    case _ => true
  }

  predicate Undoes(s: State, needed: set<Step>, f: Step) requires IsForward(f) {
    && (forall st <- needed :: !IsForward(st))
    && (CompensationOf(f) in needed ==> f in s.done)
  }

  /** The rows, the wire and the services about step f. */
  predicate Sound(s: State, f: Step) requires IsForward(f) {
    var undo := CompensationOf(f);
    && T.ServiceOk(s, f)
    && (HasStatus(s.steps, f, Succeeded) ==> f in s.done)
    && (undo in s.done || T.OnWire(s, undo) ==> f in s.done)
    && (s.status.Placed? || s.status.Shipped? ==> f in s.done)
  }

  predicate Fine(s: State, f: Step) requires IsForward(f) {
    Sound(s, f) && Believes(s, s.run, f)
  }

  lemma ServeFine(s: State, r: Request, shortage: bool, f: Step)
    requires IsForward(f) && Fine(s, f) && r in s.wire
    ensures Fine(Serve(s, r, shortage), f)
    ensures Answer(s, r, shortage).Accepted? ==> r.step in Serve(s, r, shortage).done
  {
    if !IsForward(r.step) && r.step != CompensationOf(f) {
      assert ForwardOf(r.step) != f;
    }
  }

  lemma SetExecFine(s: State, st: Step, e: Exec, f: Step)
    requires IsForward(f) && Fine(s, f) && HasExec(s.run, st)
    requires (e.Succeeding? || e.Ok?) && st == f ==> f in s.done
    ensures Fine(s.(run := SetExec(s.run, st, e)), f)
  {
  }

  lemma WireFine(s: State, st: Step, force: bool, f: Step)
    requires IsForward(f) && Fine(s, f) && HasExec(s.run, st)
    ensures Fine(s.(wire := s.wire + {Request(st, force)}), f)
  {
  }

  lemma AttemptFine(s: State, st: Step, k: nat, heard: bool, f: Step)
    requires IsForward(f) && Fine(s, f) && HasExec(s.run, st)
    ensures Fine(Attempt(s, st, k, heard), f)
  {
    if k <= s.order.maxAttempts {
      WireFine(s, st, Force(s.run), f);
      SetExecFine(s.(wire := s.wire + {Request(st, Force(s.run))}), st, Calling(k, heard), f);
    } else {
      SetExecFine(s, st, Failing(heard), f);
    }
  }

  lemma ReplyFine(s: State, a: Action, f: Step)
    requires IsForward(f) && Fine(s, f) && Enabled(s, a) && a.Reply?
    ensures Fine(Next(s, a), f)
  {
    var r := Request(a.step, Force(s.run));
    var served := Serve(s, r, a.shortage);
    ServeFine(s, r, a.shortage, f);
    match Answer(s, r, a.shortage)
    case Accepted => SetExecFine(served, a.step, Succeeding, f);
    case TryAgain => AttemptFine(served, a.step, s.run.execs[a.step].attempt + 1, true, f);
    case Refused => SetExecFine(served, a.step, Failing(true), f);
  }

  lemma LostFine(s: State, a: Action, f: Step)
    requires IsForward(f) && Fine(s, f) && Enabled(s, a) && (a.Lost? || a.Busy?)
    ensures Fine(Next(s, a), f)
  {
    var e := s.run.execs[a.step];
    AttemptFine(s, a.step, e.attempt + 1, e.heard, f);
    SetExecFine(s, a.step, Failing(e.heard), f);
  }

  lemma MarkFine(s: State, a: Action, f: Step)
    requires IsForward(f) && Fine(s, f) && Enabled(s, a) && (a.Begin? || a.Record?)
    ensures Fine(Next(s, a), f)
  {
    if a.Begin? {
      AttemptFine(s.(steps := MarkStepRunning(s.steps, a.step)), a.step, 1, false, f);
    }
  }

  /** The forward statements, up to writing PLACED or giving up. */
  predicate Forwarding(run: Run) {
    run.FwdInit? || run.FwdRead? || run.Forward? || run.Place? || run.Rollback?
  }

  lemma ForwardFine(s: State, f: Step)
    requires IsForward(f) && Fine(s, f) && Enabled(s, Advance) && Forwarding(s.run)
    ensures Fine(Next(s, Advance), f)
  {
    StepsPartition(f);
  }

  lemma UndoFine(s: State, f: Step)
    requires IsForward(f) && Fine(s, f) && Enabled(s, Advance) && !Forwarding(s.run)
    ensures Fine(Next(s, Advance), f)
  {
    if s.run.CompInit? {
      StepsPartition(f);
    } else if s.run.CompSkip? && s.run.i < |COMPENSATION_STEPS| {
      StepsPartition(COMPENSATION_STEPS[s.run.i]);
    }
  }

  lemma OtherFine(s: State, a: Action, f: Step)
    requires IsForward(f) && Fine(s, f) && Enabled(s, a)
    requires a.Claim? || a.Crash? || a.Retry? || a.Ship? || a.Drop?
    ensures Fine(Next(s, a), f)
  {
  }

  lemma NextFine(s: State, a: Action, f: Step)
    requires IsForward(f) && Fine(s, f) && Enabled(s, a)
    ensures Fine(Next(s, a), f)
  {
    match a
    case Advance => if Forwarding(s.run) { ForwardFine(s, f); } else { UndoFine(s, f); }
    case Begin(_) => MarkFine(s, a, f);
    case Record(_) => MarkFine(s, a, f);
    case Reply(_, _) => ReplyFine(s, a, f);
    case Lost(_, _) => LostFine(s, a, f);
    case Busy(_) => LostFine(s, a, f);
    case Deliver(r, shortage) => ServeFine(s, r, shortage, f);
    case _ => OtherFine(s, a, f);
  }

  /** Done is forever, and belief only needs that. */
  lemma DoneGrows(s: State, a: Action)
    requires Enabled(s, a)
    ensures s.done <= Next(s, a).done
  {
  }

  lemma StillBelieves(s: State, t: State, run: Run, f: Step)
    requires IsForward(f) && Believes(s, run, f) && s.done <= t.done
    ensures Believes(t, run, f)
  {
  }

  ghost predicate Inv(c: Crowd) {
    && (forall f: Step | IsForward(f) :: Fine(c.s, f))
    && (forall i, f: Step | 0 <= i < |c.stale| && IsForward(f) :: Believes(c.s, c.stale[i], f))
  }

  lemma LiveStep(c: Crowd, a: Action)
    requires Inv(c) && May(c, Live(a))
    ensures Inv(After1(c, Live(a)))
  {
    DoneGrows(c.s, a);
    forall f: Step | IsForward(f) ensures Fine(Next(c.s, a), f) {
      NextFine(c.s, a, f);
    }
    forall i, f: Step | 0 <= i < |c.stale| && IsForward(f) ensures Believes(Next(c.s, a), c.stale[i], f) {
      StillBelieves(c.s, Next(c.s, a), c.stale[i], f);
    }
  }

  lemma SwapFine(s: State, run: Run, f: Step)
    requires IsForward(f) && Sound(s, f) && Believes(s, run, f)
    ensures Fine(s.(run := run), f)
  {
  }

  /** The state after a superseded run's step, as far as step f goes. */
  lemma StaleFine(s: State, t: State, run: Run, status: OrderStatus, f: Step)
    requires IsForward(f) && Sound(t, f) && Believes(s, run, f) && s.done <= t.done
    requires status.Placed? || status.Shipped? ==> f in t.done
    ensures Fine(t.(run := run, status := status), f)
  {
    StillBelieves(s, t, run, f);
  }

  lemma StaleStep(c: Crowd, i: nat, a: Action, passes: bool)
    requires Inv(c) && May(c, Stale(i, a, passes))
    ensures Inv(After1(c, Stale(i, a, passes)))
  {
    var s, d := c.s.(run := c.stale[i]), After1(c, Stale(i, a, passes));
    var t := Next(s, a);
    DoneGrows(s, a);
    forall f: Step | IsForward(f) ensures Fine(d.s, f) && Believes(d.s, t.run, f) {
      assert Fine(c.s, f) && Believes(c.s, c.stale[i], f);
      SwapFine(c.s, c.stale[i], f);
      NextFine(s, a, f);
      StaleFine(c.s, t, c.s.run, d.s.status, f);
      SwapFine(d.s.(run := c.s.run), d.s.run, f);
      StillBelieves(t, d.s, t.run, f);
    }
    forall j, f: Step | 0 <= j < |d.stale| && IsForward(f) ensures Believes(d.s, d.stale[j], f) {
      if j != i {
        assert Fine(c.s, f);
        StillBelieves(c.s, d.s, if j < |c.stale| then c.stale[j] else c.s.run, f);
      }
    }
  }

  lemma OutliveStep(c: Crowd)
    requires Inv(c) && May(c, Outlive)
    ensures Inv(After1(c, Outlive))
  {
    var d := After1(c, Outlive);
    forall f: Step | IsForward(f) ensures Fine(d.s, f) {
      assert Fine(c.s, f);
      SwapFine(c.s, NoRun, f);
    }
    forall j, f: Step | 0 <= j < |d.stale| && IsForward(f) ensures Believes(d.s, d.stale[j], f) {
      assert Fine(c.s, f);
      StillBelieves(c.s, d.s, if j < |c.stale| then c.stale[j] else c.s.run, f);
    }
  }

  lemma InvStep(c: Crowd, e: Event)
    requires Inv(c) && May(c, e)
    ensures Inv(After1(c, e))
  {
    match e
    case Live(a) => LiveStep(c, a);
    case Outlive => OutliveStep(c);
    case Stale(i, a, passes) => StaleStep(c, i, a, passes);
  }

  predicate Starts(c: Crowd) {
    Init(c.s) && c.stale == []
  }

  lemma {:induction false} InvRun(c: Crowd, events: seq<Event>)
    requires Starts(c) && IsCrowdRun(c, events)
    ensures Inv(AfterAll(c, events))
    decreases |events|
  {
    if events != [] {
      InvRun(c, events[..|events| - 1]);
      InvStep(AfterAll(c, events[..|events| - 1]), events[|events| - 1]);
    }
  }

  /** Some run of the crowd from a fresh order comes here. */
  ghost predicate Reachable(d: Crowd) {
    exists c, events :: Starts(c) && IsCrowdRun(c, events) && d == AfterAll(c, events)
  }

  /** However many superseded runs keep stepping, past the fence or not: no effect is ever
      committed or undone twice, nor undone without having been committed; a PLACED or SHIPPED
      order has every effect committed, and is whole if and only if no undo has been. */
  lemma AtomicityAmongZombies(d: Crowd, f: Step)
    requires Reachable(d) && IsForward(f)
    ensures var e := EffectOf(d.s.effects, f);
      && (e == Effect(Absent, 0, 0) || e == Effect(Done, 1, 0) || e == Effect(Undone, 1, 1))
      && (d.s.status.Placed? || d.s.status.Shipped? ==>
            && e.dones == 1
            && (e == Effect(Done, 1, 0) <==> CompensationOf(f) !in d.s.done))
      && (d.s.status.Cancelled? ==> (T.Clean(e) <==> f in d.s.done ==> CompensationOf(f) in d.s.done))
  {
    var c, events :| Starts(c) && IsCrowdRun(c, events) && d == AfterAll(c, events);
    InvRun(c, events);
    assert Fine(d.s, f);
  }

  // ---- When a placed order stays placed -----------------------------------------------

  /** A superseded run turns to compensate only where the order is no longer on its way to
      PLACED, or where nobody else has taken it over and the COMPENSATING write passes; and it
      places no order that is being compensated. */
  predicate Keeps(c: Crowd, e: Event) {
    e.Stale? && e.a.Advance? && e.i < |c.stale| ==>
      && (c.stale[e.i].Rollback? ==> !T.Forwards(c.s.status) || (e.passes && c.s.run.NoRun?))
      && (c.stale[e.i].Place? && e.passes ==> T.Forwards(c.s.status))
  }

  predicate KeepsForward(c: Crowd, events: seq<Event>) requires IsCrowdRun(c, events) decreases |events| {
    events == [] ||
    (KeepsForward(c, events[..|events| - 1]) && Keeps(AfterAll(c, events[..|events| - 1]), events[|events| - 1]))
  }

  predicate Onward(run: Run) {
    run.NoRun? || Forwarding(run)
  }

  /** Only forward requests and effects so far. */
  predicate Untouched(s: State) {
    forall f: Step | IsForward(f) :: CompensationOf(f) !in s.done && !T.OnWire(s, CompensationOf(f))
  }

  /** The live run is in the phase the status says; before any compensation was decided every
      run is a forward one and nothing is undone. */
  predicate InStep(s: State) {
    && (s.run.FwdInit? || s.run.FwdRead? || s.run.Forward? || s.run.Place? || s.run.Rollback? ==> s.status.InProgress?)
    && (T.Forwards(s.status) ==> Onward(s.run) && Untouched(s))
    && (s.run.Finish? ==> s.run.status.Cancelled? || s.run.status.NeedsAttention?)
  }

  predicate ExecsForward(run: Run) {
    run.Forward? ==> forall st <- run.execs :: IsForward(st)
  }

  ghost predicate Unmixed(c: Crowd) {
    && InStep(c.s) && ExecsForward(c.s.run)
    && (forall i :: 0 <= i < |c.stale| ==> ExecsForward(c.stale[i]))
    && (T.Forwards(c.s.status) ==> forall i :: 0 <= i < |c.stale| ==> Onward(c.stale[i]))
  }

  lemma ExecsStayForward(s: State, a: Action)
    requires ExecsForward(s.run) && Enabled(s, a)
    ensures ExecsForward(Next(s, a).run)
  {
  }

  lemma ServeUntouched(s: State, r: Request, shortage: bool)
    requires Untouched(s) && r in s.wire
    ensures Untouched(Serve(s, r, shortage))
  {
    forall f: Step | IsForward(f) ensures r.step != CompensationOf(f) {
      assert !T.OnWire(s, CompensationOf(f)) && r == Request(r.step, r.force);
    }
  }

  lemma AttemptOnward(s: State, st: Step, k: nat, heard: bool)
    requires s.run.Forward? && st in s.run.execs && IsForward(st) && Untouched(s)
    ensures var t := Attempt(s, st, k, heard); t.run.Forward? && Untouched(t)
  {
  }

  /** A forward run makes only forward requests, until it gives up. */
  lemma OnwardStep(s: State, a: Action)
    requires Onward(s.run) && ExecsForward(s.run) && Untouched(s) && OwnStep(a) && Enabled(s, a)
    requires a.Advance? ==> !s.run.Rollback?
    ensures Onward(Next(s, a).run) && Untouched(Next(s, a))
  {
    match a
    case Advance =>
    case Record(_) =>
    case Begin(st) => AttemptOnward(s.(steps := MarkStepRunning(s.steps, st)), st, 1, false);
    case Lost(st, _) => AttemptOnward(s, st, s.run.execs[st].attempt + 1, s.run.execs[st].heard);
    case Busy(st) => AttemptOnward(s, st, s.run.execs[st].attempt + 1, s.run.execs[st].heard);
    case Reply(st, shortage) =>
      var r := Request(st, Force(s.run));
      ServeUntouched(s, r, shortage);
      AttemptOnward(Serve(s, r, shortage), st, s.run.execs[st].attempt + 1, true);
  }

  lemma DecidedStep(s: State, a: Action)
    requires InStep(s) && !T.Forwards(s.status) && Enabled(s, a)
    ensures InStep(Next(s, a)) && !T.Forwards(Next(s, a).status)
  {
  }

  lemma LiveInStep(s: State, a: Action)
    requires InStep(s) && ExecsForward(s.run) && Enabled(s, a)
    ensures InStep(Next(s, a))
    ensures !T.Forwards(s.status) ==> !T.Forwards(Next(s, a).status)
  {
    if !T.Forwards(s.status) {
      DecidedStep(s, a);
    } else if a.Deliver? {
      ServeUntouched(s, a.r, a.shortage);
    } else if OwnStep(a) && !s.run.Rollback? {
      OnwardStep(s, a);
      OwnStatus(s, a);
    }
  }

  /** A forward run leaves the status alone, except to write PLACED. */
  lemma OwnStatus(s: State, a: Action)
    requires OwnStep(a) && Enabled(s, a) && Onward(s.run) && !s.run.Rollback?
    ensures Next(s, a).status == if a.Advance? && s.run.Place? then Placed else s.status
    ensures Next(s, a).run.NoRun? <==> s.run.NoRun? || (a.Advance? && s.run.Place?)
  {
  }

  lemma UnmixedLive(c: Crowd, a: Action)
    requires Unmixed(c) && May(c, Live(a))
    ensures Unmixed(After1(c, Live(a)))
  {
    LiveInStep(c.s, a);
    ExecsStayForward(c.s, a);
  }

  lemma UnmixedStale(c: Crowd, i: nat, a: Action, passes: bool)
    requires Inv(c) && Unmixed(c) && May(c, Stale(i, a, passes)) && Keeps(c, Stale(i, a, passes))
    ensures Unmixed(After1(c, Stale(i, a, passes)))
  {
    var s := c.s.(run := c.stale[i]);
    ExecsStayForward(s, a);
    assert IsForward(CreateOrder) && Believes(c.s, c.stale[i], CreateOrder);
    if T.Forwards(c.s.status) && !s.run.Rollback? {
      OnwardStep(s, a);
      OwnStatus(s, a);
    }
  }

  lemma UnmixedStep(c: Crowd, e: Event)
    requires Inv(c) && Unmixed(c) && May(c, e) && Keeps(c, e)
    ensures Unmixed(After1(c, e))
  {
    match e
    case Live(a) => UnmixedLive(c, a);
    case Outlive =>
    case Stale(i, a, passes) => UnmixedStale(c, i, a, passes);
  }

  lemma {:induction false} UnmixedRun(c: Crowd, events: seq<Event>)
    requires Starts(c) && IsCrowdRun(c, events) && KeepsForward(c, events)
    ensures Unmixed(AfterAll(c, events))
    decreases |events|
  {
    if events != [] {
      InvRun(c, events[..|events| - 1]);
      UnmixedRun(c, events[..|events| - 1]);
      UnmixedStep(AfterAll(c, events[..|events| - 1]), events[|events| - 1]);
    }
  }

  /** Some run in which every superseded run keeps to its phase in this way comes here. */
  ghost predicate PeacefullyReachable(d: Crowd) {
    exists c, events :: Starts(c) && IsCrowdRun(c, events) && KeepsForward(c, events) && d == AfterAll(c, events)
  }

  /** In such a run a PLACED or SHIPPED order has every effect committed once and none undone,
      however many superseded runs keep stepping. */
  lemma PlacedAmongZombies(d: Crowd, f: Step)
    requires PeacefullyReachable(d) && IsForward(f) && (d.s.status.Placed? || d.s.status.Shipped?)
    ensures EffectOf(d.s.effects, f) == Effect(Done, 1, 0)
  {
    var c, events :| Starts(c) && IsCrowdRun(c, events) && KeepsForward(c, events) && d == AfterAll(c, events);
    UnmixedRun(c, events);
    AtomicityAmongZombies(d, f);
  }
}
