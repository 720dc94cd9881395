/** The composed system of one order: the coordinator's machine and the four concurrent
    services of module Idempotency, joined by the requests on the wire. Every run of it is
    matched by a run of the saga machine, so that what is proved there of effects holds of the
    rows and histories the services have committed. */
module Composed {
  import opened Vocabulary
  import opened Saga
  import I = Idempotency
  import E = ExactlyOnce
  import A = AtomicService
  import R = ServiceRefinement
  import T = SagaAtomicity
  import B = SagaSchedules
  import Outcome = SagaOutcomes

  /** `co` is the coordinator with the network: its `done` and `effects` stay empty, because
      those are the services', one per forward step. The services also serve other orders. */
  datatype System = System(id: OrderId, co: State, services: map<Step, I.State>)

  datatype Move =
    | Coordinate(a: Action)              // the coordinator's own step, or an answer of no result
    | Work(f: Step, w: I.Action)         // one step of one caller, or the clock or cache, of a service
    | HearResult(step: Step, i: nat)     // the reply of a caller that returned
    | HearFault(step: Step)              // the reply of an injected fault
    | Vanish(r: Request)                 // a request, with its reply, is lost for good

  /** The steps that touch neither the services nor the wire's past. */
  predicate Plain(a: Action) {
    a.Claim? || a.Advance? || a.Begin? || a.Lost? || a.Busy? || a.Record? || a.Crash? || a.Retry? || a.Ship?
  }

  function ServiceStep(step: Step): Step {
    if IsForward(step) then step else ForwardOf(step)
  }

  predicate WellFormed(c: System) {
    c.co.done == {} && c.co.effects == map[] && forall f: Step :: IsForward(f) <==> f in c.services
  }

  /** A request for the caller's operation is on the wire and passes the fault injection. */
  predicate Asked(c: System, f: Step, key: I.Key) requires IsForward(f) {
    exists force: bool ::
      var r := Request(R.StepOf(f, key.op), force);
      r in c.co.wire && !Injected(c.co.order, r)
  }

  /** A caller that has entered runIdempotent and not left it. */
  predicate InFlight(caller: I.Caller) {
    !caller.pc.CacheGet? && !I.Finished(caller.pc)
  }

  /** What a service may do next: the environment is the clean one at the default isolation
      level, and a call for this order begins only when it has been asked for. */
  predicate MayWork(c: System, f: Step, a: I.Action) {
    && IsForward(f) && f in c.services
    && var t := c.services[f];
       && I.Enabled(t, a) && I.DeadOwner(t, a) && A.RepeatableRead(t, a)
       && (a.Go? && t.callers[a.i].pc.CacheGet? && t.callers[a.i].key.order == c.id ==> Asked(c, f, t.callers[a.i].key))
  }

  predicate MayHear(c: System, step: Step) {
    HasExec(c.co.run, step) && c.co.run.execs[step].Calling? && Request(step, Force(c.co.run)) in c.co.wire
  }

  predicate MayMove(c: System, m: Move) requires WellFormed(c) {
    match m
    case Coordinate(a) => Plain(a) && Enabled(c.co, a)
    case Work(f, a) => MayWork(c, f, a)
    case HearResult(step, i) =>
      && MayHear(c, step) && !Injected(c.co.order, Request(step, Force(c.co.run)))
      && var t := c.services[ServiceStep(step)];
         i < |t.callers| && t.callers[i].key == R.KeyOf(c.id, step) && t.callers[i].pc.Returned?
    case HearFault(step) => MayHear(c, step) && Injected(c.co.order, Request(step, Force(c.co.run)))
    case Vanish(r) =>
      && r in c.co.wire
      && forall i :: 0 <= i < |c.services[ServiceStep(r.step)].callers| ==>
           var caller := c.services[ServiceStep(r.step)].callers[i];
           caller.key == R.KeyOf(c.id, r.step) ==> !InFlight(caller)
  }

  function AfterWork(c: System, f: Step, w: I.Action): System
    requires f in c.services && I.Enabled(c.services[f], w)
  {
    c.(services := c.services[f := I.Next(c.services[f], w)])
  }

  function After1(c: System, m: Move): (d: System)
    requires WellFormed(c) && MayMove(c, m)
  {
    match m
    case Coordinate(a) => c.(co := Next(c.co, a))
    case Work(f, w) => AfterWork(c, f, w)
    case HearResult(step, _) => c.(co := c.co.(run := SetExec(c.co.run, step, Succeeding)))
    case HearFault(step) => c.(co := Attempt(c.co, step, c.co.run.execs[step].attempt + 1, true))
    case Vanish(r) => c.(co := c.co.(wire := c.co.wire - {r}))
  }

  lemma StaysWellFormed(c: System, m: Move)
    requires WellFormed(c) && MayMove(c, m)
    ensures WellFormed(After1(c, m)) && After1(c, m).id == c.id && After1(c, m).co.order == c.co.order
  {
  }

  // ---- The coordinator does not see the services' tables ----------------------------

  function With(co: State, done: set<Step>, effects: map<Step, Effect>): State {
    co.(done := done, effects := effects)
  }

  lemma ObliviousForward(co: State, done: set<Step>, effects: map<Step, Effect>)
    requires Enabled(co, Advance)
    requires co.run.FwdInit? || co.run.FwdRead? || co.run.Forward? || co.run.Place? || co.run.Rollback?
    ensures Enabled(With(co, done, effects), Advance)
    ensures Next(With(co, done, effects), Advance) == With(Next(co, Advance), done, effects)
  {
  }

  lemma ObliviousAdvance(co: State, done: set<Step>, effects: map<Step, Effect>)
    requires Enabled(co, Advance)
    ensures Enabled(With(co, done, effects), Advance)
    ensures Next(With(co, done, effects), Advance) == With(Next(co, Advance), done, effects)
  {
    if co.run.FwdInit? || co.run.FwdRead? || co.run.Forward? || co.run.Place? || co.run.Rollback? {
      ObliviousForward(co, done, effects);
    }
  }

  lemma ObliviousCall(co: State, a: Action, done: set<Step>, effects: map<Step, Effect>)
    requires Enabled(co, a) && (a.Begin? || a.Lost? || a.Busy? || a.Record?)
    ensures Enabled(With(co, done, effects), a)
    ensures Next(With(co, done, effects), a) == With(Next(co, a), done, effects)
  {
  }

  lemma Oblivious(co: State, a: Action, done: set<Step>, effects: map<Step, Effect>)
    requires Plain(a) && Enabled(co, a)
    ensures Enabled(With(co, done, effects), a)
    ensures Next(With(co, done, effects), a) == With(Next(co, a), done, effects)
  {
    if a.Advance? {
      ObliviousAdvance(co, done, effects);
    } else if a.Begin? || a.Lost? || a.Busy? || a.Record? {
      ObliviousCall(co, a, done, effects);
    }
  }

  // ---- The simulation -----------------------------------------------------------------

  ghost predicate ServiceInv(t: I.State) {
    E.CleanInv(t) && E.ZombieInv(t) && A.GapInv(t)
  }

  /** Every call in flight for this order is still asked for. */
  predicate Gated(c: System, f: Step)
    requires IsForward(f) && f in c.services
  {
    forall i :: 0 <= i < |c.services[f].callers| ==>
      var caller := c.services[f].callers[i];
      caller.key.order == c.id && InFlight(caller) ==> Asked(c, f, caller.key)
  }

  ghost predicate Inv(c: System) {
    WellFormed(c) && forall f: Step | IsForward(f) :: ServiceInv(c.services[f]) && Gated(c, f)
  }

  /** The saga machine's state that stands for the system: its coordinator is the system's,
      its effects are what the services have committed. */
  ghost predicate Stands(s: State, c: System) {
    && s == With(c.co, s.done, s.effects)
    && forall f: Step | IsForward(f) :: f in c.services && R.Matches(s, A.Abs(c.services[f].db), c.id, f)
  }

  lemma ServiceSteps(t: I.State, a: I.Action)
    requires ServiceInv(t) && I.Enabled(t, a) && I.DeadOwner(t, a) && A.RepeatableRead(t, a)
    ensures ServiceInv(I.Next(t, a)) && A.NoPhantom(t, a)
  {
    E.CleanStep(t, a);
    E.ZombieStep(t, a);
    A.GapFree(t, a);
    var u := I.Next(t, a);
    forall i, j | 0 <= i < |u.callers| && 0 <= j < |u.callers| ensures A.GapOk(u, i, j) {
      A.GapStep(t, a, i, j);
    }
  }

  /** Serving one step's request leaves the other forward steps as they were. */
  lemma ServeElsewhere(s: State, r: Request, x: A.Atomic, id: OrderId, f: Step)
    requires IsForward(f) && !R.Concerns(r, f) && R.Matches(s, x, id, f)
    ensures R.Matches(Serve(s, r, false), x, id, f)
  {
    if !IsForward(r.step) {
      assert ForwardOf(r.step) != f;
    }
  }

  lemma GatedOwn(c: System, f: Step, a: I.Action)
    requires Inv(c) && MayWork(c, f, a)
    ensures Gated(AfterWork(c, f, a), f)
  {
    var d := AfterWork(c, f, a);
    var t, u := c.services[f], d.services[f];
    E.SameKeys(t, a);
    assert Gated(c, f);
    forall i | 0 <= i < |u.callers| && u.callers[i].key.order == c.id && InFlight(u.callers[i])
      ensures Asked(d, f, u.callers[i].key)
    {
      assert u.callers[i].key == t.callers[i].key;
      assert Asked(c, f, t.callers[i].key);
    }
  }

  lemma GatedStep(c: System, f: Step, a: I.Action, g: Step)
    requires Inv(c) && MayWork(c, f, a) && IsForward(g)
    ensures g in AfterWork(c, f, a).services && Gated(AfterWork(c, f, a), g)
  {
    if f == g {
      GatedOwn(c, f, a);
    } else {
      assert Gated(c, g);
      GatedBeside(c, AfterWork(c, f, a), g);
    }
  }

  lemma GatedBeside(c: System, d: System, g: Step)
    requires IsForward(g) && g in c.services && g in d.services && Gated(c, g)
    requires d.services[g] == c.services[g] && d.id == c.id && d.co == c.co
    ensures Gated(d, g)
  {
    forall i | 0 <= i < |d.services[g].callers| && d.services[g].callers[i].key.order == d.id &&
        InFlight(d.services[g].callers[i])
      ensures Asked(d, g, d.services[g].callers[i].key)
    {
      assert Asked(c, g, c.services[g].callers[i].key);
    }
  }

  lemma WireGrows(co: State, a: Action)
    requires Plain(a) && Enabled(co, a)
    ensures co.wire <= Next(co, a).wire && Next(co, a).order == co.order
  {
  }

  /** Everything but a service's own step leaves the services alone. */
  lemma GatedElse(c: System, m: Move, g: Step)
    requires Inv(c) && MayMove(c, m) && !m.Work? && IsForward(g)
    ensures g in After1(c, m).services && Gated(After1(c, m), g)
  {
    var d := After1(c, m);
    if m.Coordinate? {
      WireGrows(c.co, m.a);
    }
    forall i | 0 <= i < |d.services[g].callers| && d.services[g].callers[i].key.order == d.id &&
        InFlight(d.services[g].callers[i])
      ensures Asked(d, g, d.services[g].callers[i].key)
    {
      assert Gated(c, g);
      AskedStays(c, m, g, i);
    }
  }

  lemma StepKey(id: OrderId, g: Step, key: I.Key)
    requires IsForward(g) && key.order == id
    ensures ServiceStep(R.StepOf(g, key.op)) == g && R.KeyOf(id, R.StepOf(g, key.op)) == key
  {
  }

  lemma AskedStays(c: System, m: Move, g: Step, i: nat)
    requires Inv(c) && MayMove(c, m) && !m.Work? && IsForward(g) && i < |c.services[g].callers|
    requires InFlight(c.services[g].callers[i]) && c.services[g].callers[i].key.order == c.id
    requires Asked(c, g, c.services[g].callers[i].key)
    ensures Asked(After1(c, m), g, c.services[g].callers[i].key)
  {
    var d, key := After1(c, m), c.services[g].callers[i].key;
    if m.Coordinate? {
      WireGrows(c.co, m.a);
    }
    var force: bool :| var r := Request(R.StepOf(g, key.op), force);
      r in c.co.wire && !Injected(c.co.order, r);
    var r := Request(R.StepOf(g, key.op), force);
    StepKey(c.id, g, key);
    assert r in d.co.wire && !Injected(d.co.order, r);
  }

  lemma InvStep(c: System, m: Move)
    requires Inv(c) && MayMove(c, m)
    ensures Inv(After1(c, m))
  {
    var d := After1(c, m);
    StaysWellFormed(c, m);
    forall g: Step | IsForward(g) ensures ServiceInv(d.services[g]) && Gated(d, g) {
      if m.Work? {
        GatedStep(c, m.f, m.w, g);
        ServiceSteps(c.services[m.f], m.w);
      } else {
        GatedElse(c, m, g);
      }
    }
  }

  // ---- One move, matched ------------------------------------------------------------

  /** A step of the coordinator that the saga machine's state takes with it. */
  lemma SameServices(s: State, t: State, c: System, co: State)
    requires Stands(s, c) && t == With(co, s.done, s.effects)
    ensures Stands(t, c.(co := co))
  {
    forall f: Step | IsForward(f) ensures R.Matches(t, A.Abs(c.services[f].db), c.id, f) {
      assert R.Matches(s, A.Abs(c.services[f].db), c.id, f);
    }
  }

  lemma CoordinateStands(s: State, c: System, a: Action)
    requires Plain(a) && Enabled(c.co, a) && Stands(s, c)
    ensures Enabled(s, a) && Stands(Next(s, a), c.(co := Next(c.co, a)))
  {
    Oblivious(c.co, a, s.done, s.effects);
    SameServices(s, Next(s, a), c, Next(c.co, a));
  }

  lemma ResultReply(s: State, step: Step)
    requires Enabled(s, Reply(step, false)) && step in s.done
    requires !Injected(s.order, Request(step, Force(s.run)))
    ensures Next(s, Reply(step, false)) == s.(run := SetExec(s.run, step, Succeeding))
  {
  }

  lemma FaultReply(s: State, step: Step)
    requires Enabled(s, Reply(step, false)) && Injected(s.order, Request(step, Force(s.run)))
    ensures Next(s, Reply(step, false)) == Attempt(s, step, s.run.execs[step].attempt + 1, true)
  {
  }

  lemma ObliviousAttempt(co: State, step: Step, k: nat, done: set<Step>, effects: map<Step, Effect>)
    requires HasExec(co.run, step)
    ensures Attempt(With(co, done, effects), step, k, true) == With(Attempt(co, step, k, true), done, effects)
  {
  }

  lemma HeardIsDone(s: State, c: System, step: Step, i: nat)
    requires Inv(c) && Stands(s, c)
    requires var t := c.services[ServiceStep(step)];
      i < |t.callers| && t.callers[i].key == R.KeyOf(c.id, step) && t.callers[i].pc.Returned?
    ensures step in s.done
  {
    var f := ServiceStep(step);
    assert ServiceInv(c.services[f]) && R.Matches(s, A.Abs(c.services[f].db), c.id, f);
    R.AnsweredIsDone(c.services[f], i);
  }

  lemma ResultStands(s: State, c: System, step: Step)
    requires Stands(s, c) && MayHear(c, step) && step in s.done
    requires !Injected(c.co.order, Request(step, Force(c.co.run)))
    ensures Enabled(s, Reply(step, false))
    ensures Stands(Next(s, Reply(step, false)), c.(co := c.co.(run := SetExec(c.co.run, step, Succeeding))))
  {
    ResultReply(s, step);
    SameServices(s, Next(s, Reply(step, false)), c, c.co.(run := SetExec(c.co.run, step, Succeeding)));
  }

  lemma FaultStands(s: State, c: System, step: Step)
    requires Stands(s, c) && MayHear(c, step)
    requires Injected(c.co.order, Request(step, Force(c.co.run)))
    ensures Enabled(s, Reply(step, false))
    ensures Stands(Next(s, Reply(step, false)),
                   c.(co := Attempt(c.co, step, c.co.run.execs[step].attempt + 1, true)))
  {
    FaultReply(s, step);
    var k := c.co.run.execs[step].attempt + 1;
    ObliviousAttempt(c.co, step, k, s.done, s.effects);
    SameServices(s, Next(s, Reply(step, false)), c, Attempt(c.co, step, k, true));
  }

  lemma VanishStands(s: State, c: System, r: Request)
    requires Stands(s, c) && r in c.co.wire
    ensures Enabled(s, Drop(r)) && Stands(Next(s, Drop(r)), c.(co := c.co.(wire := c.co.wire - {r})))
  {
    SameServices(s, Next(s, Drop(r)), c, c.co.(wire := c.co.wire - {r}));
  }

  /** What a service may be taken through. */
  ghost predicate Works(t: I.State, w: I.Action) {
    ServiceInv(t) && I.Enabled(t, w) && I.DeadOwner(t, w) && A.RepeatableRead(t, w)
  }

  /** A service step that commits nothing for this order. */
  lemma IdleMatches(s: State, t: I.State, w: I.Action, id: OrderId, f: Step)
    requires IsForward(f) && Works(t, w) && R.Matches(s, A.Abs(t.db), id, f)
    requires A.CommitStep(t, w) ==> t.callers[w.i].key.order != id
    ensures R.Matches(s, A.Abs(I.Next(t, w).db), id, f)
  {
    ServiceSteps(t, w);
    if A.CommitStep(t, w) {
      A.CommitExecutes(t, w);
      R.OtherOrder(s, A.Abs(t.db), A.Abs(I.Next(t, w).db), id, f,
                   t.callers[w.i].key, t.callers[w.i].pc.response.payload);
    } else {
      A.OthersSkip(t, w);
    }
  }

  /** A service step that commits the work of one of the order's steps. */
  lemma CommitMatches(s: State, t: I.State, w: I.Action, id: OrderId, f: Step, r: Request)
    requires IsForward(f) && Works(t, w) && R.Matches(s, A.Abs(t.db), id, f)
    requires A.CommitStep(t, w) && t.callers[w.i].key.order == id
    requires r.step == R.StepOf(f, t.callers[w.i].key.op) && !Injected(s.order, r)
    ensures R.Matches(Serve(s, r, false), A.Abs(I.Next(t, w).db), id, f)
  {
    ServiceSteps(t, w);
    A.CommitExecutes(t, w);
    StepKey(id, f, t.callers[w.i].key);
    R.ExecuteMatches(s, A.Abs(t.db), A.Abs(I.Next(t, w).db), id, f, r, t.callers[w.i].pc.response.payload);
  }

  lemma IdleStands(s: State, c: System, f: Step, w: I.Action)
    requires IsForward(f) && f in c.services && Works(c.services[f], w) && Stands(s, c)
    requires A.CommitStep(c.services[f], w) ==> c.services[f].callers[w.i].key.order != c.id
    ensures Stands(s, AfterWork(c, f, w))
  {
    IdleMatches(s, c.services[f], w, c.id, f);
    Restands(s, s, c, f, I.Next(c.services[f], w));
  }

  /** The request that asked for the committed work. */
  lemma WhoAsked(c: System, f: Step, w: I.Action) returns (r: Request)
    requires Inv(c) && MayWork(c, f, w)
    requires A.CommitStep(c.services[f], w) && c.services[f].callers[w.i].key.order == c.id
    ensures r in c.co.wire && !Injected(c.co.order, r)
    ensures r.step == R.StepOf(f, c.services[f].callers[w.i].key.op)
  {
    var key := c.services[f].callers[w.i].key;
    assert Gated(c, f) && Asked(c, f, key);
    var force: bool :| var q := Request(R.StepOf(f, key.op), force);
      q in c.co.wire && !Injected(c.co.order, q);
    r := Request(R.StepOf(f, key.op), force);
  }

  lemma ServeFrame(s: State, r: Request)
    ensures Serve(s, r, false) == With(s, Serve(s, r, false).done, Serve(s, r, false).effects)
  {
  }

  lemma NotConcerned(f: Step, g: Step, op: I.Op, r: Request)
    requires IsForward(f) && IsForward(g) && f != g && r.step == R.StepOf(f, op)
    ensures !R.Concerns(r, g)
  {
    assert ForwardOf(CompensationOf(f)) == f && ForwardOf(CompensationOf(g)) == g;
  }

  lemma CommitStandsElse(s: State, t: I.State, id: OrderId, f: Step, op: I.Op, r: Request, g: Step)
    requires IsForward(f) && IsForward(g) && f != g && r.step == R.StepOf(f, op)
    requires R.Matches(s, A.Abs(t.db), id, g)
    ensures R.Matches(Serve(s, r, false), A.Abs(t.db), id, g)
  {
    NotConcerned(f, g, op, r);
    ServeElsewhere(s, r, A.Abs(t.db), id, g);
  }

  lemma CommitElse(s: State, c: System, f: Step, op: I.Op, r: Request)
    requires Stands(s, c) && IsForward(f) && r.step == R.StepOf(f, op)
    ensures forall g: Step | IsForward(g) && g != f :: R.Matches(Serve(s, r, false), A.Abs(c.services[g].db), c.id, g)
  {
    forall g: Step | IsForward(g) && g != f
      ensures R.Matches(Serve(s, r, false), A.Abs(c.services[g].db), c.id, g)
    {
      CommitStandsElse(s, c.services[g], c.id, f, op, r, g);
    }
  }

  /** One service has moved on, and the saga machine's effects with it. */
  lemma Restands(s: State, t: State, c: System, f: Step, u: I.State)
    requires Stands(s, c) && IsForward(f) && t == With(s, t.done, t.effects)
    requires R.Matches(t, A.Abs(u.db), c.id, f)
    requires forall g: Step | IsForward(g) && g != f :: R.Matches(t, A.Abs(c.services[g].db), c.id, g)
    ensures Stands(t, c.(services := c.services[f := u]))
  {
  }

  lemma CommitStands(s: State, c: System, f: Step, w: I.Action, r: Request)
    requires IsForward(f) && f in c.services && Works(c.services[f], w) && Stands(s, c)
    requires A.CommitStep(c.services[f], w) && c.services[f].callers[w.i].key.order == c.id
    requires r.step == R.StepOf(f, c.services[f].callers[w.i].key.op) && !Injected(c.co.order, r)
    ensures Stands(Serve(s, r, false), AfterWork(c, f, w))
  {
    ServeFrame(s, r);
    CommitMatches(s, c.services[f], w, c.id, f, r);
    CommitElse(s, c, f, c.services[f].callers[w.i].key.op, r);
    Restands(s, Serve(s, r, false), c, f, I.Next(c.services[f], w));
  }

  lemma DeliverServes(s: State, r: Request)
    requires r in s.wire
    ensures Enabled(s, Deliver(r, false)) && Next(s, Deliver(r, false)) == Serve(s, r, false)
  {
  }

  lemma WorkStands(s: State, c: System, f: Step, w: I.Action) returns (acts: seq<Action>)
    requires Inv(c) && MayWork(c, f, w) && Stands(s, c)
    ensures acts == [] || (|acts| == 1 && acts[0].Deliver? && !acts[0].shortage && Enabled(s, acts[0]))
    ensures Stands(if acts == [] then s else Next(s, acts[0]), AfterWork(c, f, w))
  {
    acts := [];
    if A.CommitStep(c.services[f], w) && c.services[f].callers[w.i].key.order == c.id {
      var r := WhoAsked(c, f, w);
      CommitStands(s, c, f, w, r);
      DeliverServes(s, r);
      acts := [Deliver(r, false)];
    } else {
      IdleStands(s, c, f, w);
    }
  }

  /** Every move of the system is at most one step of the saga machine. */
  lemma MoveStands(s: State, c: System, m: Move) returns (acts: seq<Action>)
    requires Inv(c) && MayMove(c, m) && Stands(s, c)
    ensures acts == [] || (|acts| == 1 && Enabled(s, acts[0]))
    ensures acts != [] && (m.Coordinate? || acts[0].Record? || acts[0].Retry?) ==> m == Coordinate(acts[0])
    ensures acts != [] && (acts[0].Reply? || acts[0].Deliver?) ==> !acts[0].shortage
    ensures Stands(if acts == [] then s else Next(s, acts[0]), After1(c, m))
  {
    match m
    case Coordinate(a) =>
      CoordinateStands(s, c, a);
      acts := [a];
    case Work(f, w) =>
      acts := WorkStands(s, c, f, w);
    case HearResult(step, i) =>
      HeardIsDone(s, c, step, i);
      ResultStands(s, c, step);
      acts := [Reply(step, false)];
    case HearFault(step) =>
      FaultStands(s, c, step);
      acts := [Reply(step, false)];
    case Vanish(r) =>
      VanishStands(s, c, r);
      acts := [Drop(r)];
  }

  // ---- Whole runs -------------------------------------------------------------------

  predicate IsSystemRun(c: System, moves: seq<Move>) requires WellFormed(c) decreases |moves|, 0 {
    moves == [] ||
    (IsSystemRun(c, moves[..|moves| - 1]) &&
     MayMove(AfterAll(c, moves[..|moves| - 1]), moves[|moves| - 1]))
  }

  function AfterAll(c: System, moves: seq<Move>): (d: System)
    requires WellFormed(c) && IsSystemRun(c, moves)
    ensures WellFormed(d) && d.id == c.id && d.co.order == c.co.order
    decreases |moves|, 1
  {
    if moves == [] then c
    else
      var before, m := moves[..|moves| - 1], moves[|moves| - 1];
      StaysWellFormed(AfterAll(c, before), m);
      After1(AfterAll(c, before), m)
  }

  /** A fresh order, and services that have done nothing yet. */
  predicate Starts(c: System) {
    WellFormed(c) && Init(c.co) && forall f: Step | IsForward(f) :: I.Init(c.services[f])
  }

  /** A forward step is recorded FAILED only when its service has not committed it and none of
      its requests is on the wire. */
  predicate HonestMove(c: System, m: Move) requires WellFormed(c) {
    m.Coordinate? && m.a.Record? && HasExec(c.co.run, m.a.step) && c.co.run.execs[m.a.step].Failing? &&
    IsForward(m.a.step) ==>
      R.KeyOf(c.id, m.a.step) !in A.Abs(c.services[m.a.step].db).done && !T.OnWire(c.co, m.a.step)
  }

  predicate HonestMoves(c: System, moves: seq<Move>)
    requires WellFormed(c) && IsSystemRun(c, moves)
    decreases |moves|
  {
    moves == [] ||
    (HonestMoves(c, moves[..|moves| - 1]) &&
     HonestMove(AfterAll(c, moves[..|moves| - 1]), moves[|moves| - 1]))
  }

  lemma StartsInv(c: System)
    requires Starts(c)
    ensures Inv(c) && Stands(c.co, c)
  {
    forall f: Step | IsForward(f) ensures ServiceInv(c.services[f]) && Gated(c, f) {
      E.ZombieRun(c.services[f], []);
      E.CleanRunKeeps(c.services[f], []);
      A.GapRun(c.services[f], []);
    }
  }

  lemma HonestStands(s: State, c: System, a: Action)
    requires Stands(s, c) && WellFormed(c) && HonestMove(c, Coordinate(a))
    ensures T.Honest(s, a)
  {
    if a.Record? && HasExec(s.run, a.step) && IsForward(a.step) {
      assert R.Matches(s, A.Abs(c.services[a.step].db), c.id, a.step);
    }
  }

  /** No manual retry, and a step is given up only after an answer that decides it. */
  predicate BenignMove(c: System, m: Move) {
    m.Coordinate? ==>
      && !m.a.Retry?
      && (m.a.Record? && HasExec(c.co.run, m.a.step) && c.co.run.execs[m.a.step].Failing? ==>
            c.co.run.execs[m.a.step].heard)
  }

  predicate BenignMoves(c: System, moves: seq<Move>)
    requires WellFormed(c) && IsSystemRun(c, moves)
    decreases |moves|
  {
    moves == [] ||
    (BenignMoves(c, moves[..|moves| - 1]) &&
     BenignMove(AfterAll(c, moves[..|moves| - 1]), moves[|moves| - 1]))
  }

  lemma BenignStands(s: State, c: System, m: Move, a: Action)
    requires Stands(s, c) && BenignMove(c, m) && (m.Coordinate? ==> a == m.a)
    requires !m.Coordinate? ==> !a.Retry? && !a.Record?
    requires a.Reply? || a.Deliver? ==> !a.shortage
    ensures B.Benign(s, a)
  {
  }

  /** One more step of the saga machine, with what it keeps. */
  lemma Extend(s: State, acts: seq<Action>, a: Action)
    requires IsRun(s, acts) && Enabled(After(s, acts), a)
    ensures IsRun(s, acts + [a]) && After(s, acts + [a]) == Next(After(s, acts), a)
    ensures T.HonestRun(s, acts) && T.Honest(After(s, acts), a) ==> T.HonestRun(s, acts + [a])
    ensures B.BenignRun(s, acts) && B.Benign(After(s, acts), a) ==> B.BenignRun(s, acts + [a])
  {
    assert (acts + [a])[..|acts + [a]| - 1] == acts;
  }

  /** Every run of the composed system is matched by a run of the saga machine, and by an honest
      or a benign one if it is that. */
  lemma {:induction false} SystemRefines(c: System, moves: seq<Move>) returns (acts: seq<Action>)
    requires Starts(c) && IsSystemRun(c, moves)
    ensures Inv(AfterAll(c, moves))
    ensures IsRun(c.co, acts) && Stands(After(c.co, acts), AfterAll(c, moves))
    ensures HonestMoves(c, moves) ==> T.HonestRun(c.co, acts)
    ensures BenignMoves(c, moves) ==> B.BenignRun(c.co, acts)
    decreases |moves|
  {
    acts := [];
    if moves == [] {
      StartsInv(c);
    } else {
      var before, m := moves[..|moves| - 1], moves[|moves| - 1];
      var d := AfterAll(c, before);
      acts := SystemRefines(c, before);
      InvStep(d, m);
      var more := MoveStands(After(c.co, acts), d, m);
      if more != [] {
        var a := more[0];
        if HonestMoves(c, moves) && a.Record? {
          HonestStands(After(c.co, acts), d, a);
        }
        if BenignMoves(c, moves) {
          BenignStands(After(c.co, acts), d, m, a);
        }
        Extend(c.co, acts, a);
        acts := acts + [a];
      }
    }
  }

  // ---- Atomicity of the composed system -----------------------------------------------

  /** Some run of the composed system from a fresh order comes here; an honest or benign one,
      if that is asked for. */
  ghost predicate Comes(d: System, honest: bool, benign: bool) {
    exists c, moves ::
      && Starts(c) && IsSystemRun(c, moves) && d == AfterAll(c, moves)
      && (honest ==> HonestMoves(c, moves)) && (benign ==> BenignMoves(c, moves))
  }

  /** What the service of step f has committed for the order: the row, and how often it was
      inserted and flipped. */
  function Committed(d: System, f: Step): Effect
    requires IsForward(f) && f in d.services
  {
    var db := d.services[f].db;
    Effect(R.RowOf(db.rows, d.id), E.Inserts(db.log, d.id), E.Flips(db.log, d.id))
  }

  /** The saga machine's state for a state of the composed system, with the run to it. */
  lemma Standing(d: System, honest: bool, benign: bool) returns (s0: State, acts: seq<Action>)
    requires WellFormed(d) && Comes(d, honest, benign)
    ensures Init(s0) && IsRun(s0, acts) && Stands(After(s0, acts), d) && s0.order == d.co.order
    ensures honest ==> T.HonestRun(s0, acts)
    ensures benign ==> B.BenignRun(s0, acts)
  {
    var c, moves :| Starts(c) && IsSystemRun(c, moves) && d == AfterAll(c, moves) &&
      (honest ==> HonestMoves(c, moves)) && (benign ==> BenignMoves(c, moves));
    s0 := c.co;
    acts := SystemRefines(c, moves);
  }

  lemma CommittedIs(s: State, d: System, f: Step)
    requires IsForward(f) && Stands(s, d)
    ensures f in d.services && EffectOf(s.effects, f) == Committed(d, f)
    ensures f in s.done <==> R.KeyOf(d.id, f) in A.Abs(d.services[f].db).done
  {
    assert R.Matches(s, A.Abs(d.services[f].db), d.id, f);
  }

  /** End to end: in every state that the composed system can reach, a PLACED or SHIPPED order
      has the row of each of the four services inserted once and never flipped; a CANCELLED
      one has the row absent, or inserted once and flipped once, if and only if the service has
      not completed the step or its row is SUCCEEDED; and that is so for every step when no
      FAILED was written over a committed or travelling request. */
  lemma SystemAtomicity(d: System, honest: bool, f: Step)
    requires IsForward(f) && WellFormed(d) && Comes(d, honest, false)
    ensures d.co.status.Placed? || d.co.status.Shipped? ==> Committed(d, f) == Effect(Row.Done, 1, 0)
    ensures d.co.status.Cancelled? ==>
      (T.Clean(Committed(d, f)) <==>
         R.KeyOf(d.id, f) !in A.Abs(d.services[f].db).done || HasStatus(d.co.steps, f, Succeeded))
    ensures honest && d.co.status.Cancelled? ==> T.Clean(Committed(d, f))
  {
    var s0, acts := Standing(d, honest, false);
    var s := After(s0, acts);
    CommittedIs(s, d, f);
    T.AtomicityOfEveryRun(s0, acts, f);
    if honest {
      assert T.HonestlyReachable(s);
      T.Atomicity(s, f);
    }
  }

  /** And when steps are given up only after answers that decide them, the status of an ended
      order and the rows of its four services are what its fault columns say, whatever the
      schedule of callers, retries, crashes and recoveries was. */
  lemma SystemOutcome(d: System, f: Step)
    requires IsForward(f) && WellFormed(d) && Comes(d, false, true) && B.Final(d.co.status)
    ensures d.co.status == B.Ending(d.co.order) || (d.co.status == Shipped && B.Ending(d.co.order) == Placed)
    ensures Committed(d, f) == Outcome.EndingEffect(d.co.order, f)
  {
    var s0, acts := Standing(d, false, true);
    var s := After(s0, acts);
    CommittedIs(s, d, f);
    assert B.BenignlyReachable(d.co.order, s);
    B.ScheduleIndependence(d.co.order, s);
    Outcome.EffectsIndependence(d.co.order, s, f);
  }
}
