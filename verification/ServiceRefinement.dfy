/** The two halves joined: the service of the saga machine is the concurrent `runIdempotent`
    service of module Idempotency, seen for one order and one forward step with its undo. */
module ServiceRefinement {
  import opened Vocabulary
  import opened Saga
  import I = Idempotency
  import E = ExactlyOnce
  import A = AtomicService

  function OpOf(step: Step): I.Op {
    if IsForward(step) then I.Op.Do else I.Op.Undo
  }

  function KeyOf(order: OrderId, step: Step): I.Key {
    I.Key(order, OpOf(step))
  }

  function StepOf(f: Step, op: I.Op): Step
    requires IsForward(f)
  {
    if op.Do? then f else CompensationOf(f)
  }

  function RowOf(rows: map<OrderId, I.RowStatus>, order: OrderId): Row {
    if order !in rows then Absent else if rows[order].Done? then Row.Done else Row.Undone
  }

  /** What the saga machine knows of step f and its undo is what the service of f has
      committed for the order: the completed keys, the row, and how often it was inserted and
      flipped. */
  predicate Matches(s: State, x: A.Atomic, order: OrderId, f: Step)
    requires IsForward(f)
  {
    && (f in s.done <==> KeyOf(order, f) in x.done)
    && (CompensationOf(f) in s.done <==> KeyOf(order, CompensationOf(f)) in x.done)
    && EffectOf(s.effects, f) == Effect(RowOf(x.rows, order), E.Inserts(x.log, order), E.Flips(x.log, order))
  }

  /** The request is for step f or its undo. */
  predicate Concerns(r: Request, f: Step) requires IsForward(f) {
    r.step == f || r.step == CompensationOf(f)
  }

  lemma LogSnoc(log: seq<I.Response>, r: I.Response, order: OrderId)
    ensures E.Inserts(log + [r], order)
         == E.Inserts(log, order) + if r.key == I.Key(order, I.Op.Do) && r.changed then 1 else 0
    ensures E.Flips(log + [r], order)
         == E.Flips(log, order) + if r.key == I.Key(order, I.Op.Undo) && r.changed then 1 else 0
  {
    assert (log + [r])[..|log|] == log;
  }

  lemma FirstDo(s: State, x: A.Atomic, y: A.Atomic, order: OrderId, f: Step, payload: int)
    requires IsForward(f) && Matches(s, x, order, f) && A.Execute(x, y, I.Key(order, I.Op.Do), payload)
    ensures f !in s.done && EffectOf(s.effects, f).row == Absent
    ensures Matches(s.(done := s.done + {f}, effects := Handle(s.effects, f)), y, order, f)
  {
    LogSnoc(x.log, y.log[|x.log|], order);
    assert y.log == x.log + [y.log[|x.log|]];
  }

  lemma FirstUndo(s: State, x: A.Atomic, y: A.Atomic, order: OrderId, f: Step, payload: int)
    requires IsForward(f) && Matches(s, x, order, f) && A.Execute(x, y, I.Key(order, I.Op.Undo), payload)
    ensures var undo := CompensationOf(f);
      undo !in s.done && Matches(s.(done := s.done + {undo}, effects := Handle(s.effects, undo)), y, order, f)
  {
    LogSnoc(x.log, y.log[|x.log|], order);
    assert y.log == x.log + [y.log[|x.log|]];
  }

  /** A first execution in the service is an accepted request of the saga machine, with the
      same effect. */
  lemma ExecuteMatches(s: State, x: A.Atomic, y: A.Atomic, order: OrderId, f: Step, r: Request, payload: int)
    requires IsForward(f) && Concerns(r, f) && Matches(s, x, order, f)
    requires !Injected(s.order, r) && A.Execute(x, y, KeyOf(order, r.step), payload)
    ensures Answer(s, r, false).Accepted? && r.step !in s.done
    ensures Matches(Serve(s, r, false), y, order, f)
  {
    if IsForward(r.step) {
      FirstDo(s, x, y, order, f, payload);
    } else {
      FirstUndo(s, x, y, order, f, payload);
    }
  }

  /** The saga machine accepts a request exactly when the service has its answer recorded or
      its handler would not throw; a repeat of a recorded one changes nothing. */
  lemma AnswerExact(s: State, x: A.Atomic, order: OrderId, f: Step, r: Request)
    requires IsForward(f) && Concerns(r, f) && Matches(s, x, order, f) && !Injected(s.order, r)
    ensures Answer(s, r, false).Accepted? <==>
      KeyOf(order, r.step) in x.done || !(OpOf(r.step).Do? && order in x.rows)
    ensures KeyOf(order, r.step) in x.done ==> Serve(s, r, false) == s
  {
  }

  /** Executions for other orders do not touch this one. */
  lemma OtherOrder(s: State, x: A.Atomic, y: A.Atomic, order: OrderId, f: Step, key: I.Key, payload: int)
    requires IsForward(f) && Matches(s, x, order, f)
    requires key.order != order && A.Execute(x, y, key, payload)
    ensures Matches(s, y, order, f)
  {
    LogSnoc(x.log, y.log[|x.log|], order);
    assert y.log == x.log + [y.log[|x.log|]];
  }

  // ---- Whole runs -------------------------------------------------------------------

  /** The saga machine's service after these requests, each accepted for the first time. */
  function ServeAll(s: State, rs: seq<Request>): State {
    if rs == [] then s else Serve(ServeAll(s, rs[..|rs| - 1]), rs[|rs| - 1], false)
  }

  predicate AllFirst(s: State, rs: seq<Request>) {
    rs == [] ||
    var before, r := ServeAll(s, rs[..|rs| - 1]), rs[|rs| - 1];
    AllFirst(s, rs[..|rs| - 1]) && Answer(before, r, false).Accepted? && r.step !in before.done
  }

  lemma {:induction false} ServeAllFrame(s: State, rs: seq<Request>)
    ensures ServeAll(s, rs) == s.(done := ServeAll(s, rs).done, effects := ServeAll(s, rs).effects)
  {
    if rs != [] {
      ServeAllFrame(s, rs[..|rs| - 1]);
    }
  }

  /** A step the order's injected fault stops never reaches runIdempotent. */
  predicate Admitted(s: State, t: I.State, order: OrderId, f: Step) {
    s.order.failAt == Some(f) ==>
      forall i :: 0 <= i < |t.callers| ==> t.callers[i].key != I.Key(order, I.Op.Do)
  }

  /** The one request that a commit for this order is matched by. */
  lemma CommitMatches(s: State, x: A.Atomic, y: A.Atomic, key: I.Key, payload: int, order: OrderId, f: Step)
    returns (rs: seq<Request>)
    requires IsForward(f) && Matches(s, x, order, f) && A.Execute(x, y, key, payload)
    requires s.order.failAt == Some(f) ==> key != I.Key(order, I.Op.Do)
    ensures |rs| <= 1 && forall r <- rs :: Concerns(r, f) && !Injected(s.order, r)
    ensures rs != [] ==> Answer(s, rs[0], false).Accepted? && rs[0].step !in s.done
    ensures Matches(if rs == [] then s else Serve(s, rs[0], false), y, order, f)
  {
    if key.order != order {
      OtherOrder(s, x, y, order, f, key, payload);
      return [];
    }
    var r := Request(StepOf(f, key.op), true);
    assert KeyOf(order, r.step) == key;
    ExecuteMatches(s, x, y, order, f, r, payload);
    return [r];
  }

  /** One step of the concurrent service is matched by at most one request. */
  lemma StepMatches(s: State, t: I.State, a: I.Action, order: OrderId, f: Step) returns (rs: seq<Request>)
    requires IsForward(f) && Admitted(s, t, order, f) && Matches(s, A.Abs(t.db), order, f)
    requires E.CleanInv(t) && E.ZombieInv(t) && I.Enabled(t, a) && I.DeadOwner(t, a) && A.NoPhantom(t, a)
    ensures |rs| <= 1 && forall r <- rs :: Concerns(r, f) && !Injected(s.order, r)
    ensures rs != [] ==> Answer(s, rs[0], false).Accepted? && rs[0].step !in s.done
    ensures Matches(if rs == [] then s else Serve(s, rs[0], false), A.Abs(I.Next(t, a).db), order, f)
  {
    if A.CommitStep(t, a) {
      A.CommitExecutes(t, a);
      var c := t.callers[a.i];
      rs := CommitMatches(s, A.Abs(t.db), A.Abs(I.Next(t, a).db), c.key, c.pc.response.payload, order, f);
    } else {
      A.OthersSkip(t, a);
      rs := [];
    }
  }

  /** The same for the last step of a run. */
  lemma RunStepMatches(s: State, t: I.State, acts: seq<I.Action>, order: OrderId, f: Step) returns (rs: seq<Request>)
    requires IsForward(f) && acts != [] && Admitted(s, t, order, f)
    requires I.Init(t) && I.IsRun(t, acts) && I.CleanRun(t, acts) && A.DefaultIsolation(t, acts)
    requires Matches(s, A.Abs(I.Exec(t, acts[..|acts| - 1]).db), order, f)
    ensures |rs| <= 1 && forall r <- rs :: Concerns(r, f) && !Injected(s.order, r)
    ensures rs != [] ==> Answer(s, rs[0], false).Accepted? && rs[0].step !in s.done
    ensures Matches(if rs == [] then s else Serve(s, rs[0], false), A.Abs(I.Exec(t, acts).db), order, f)
  {
    var before, a := acts[..|acts| - 1], acts[|acts| - 1];
    E.SameCallers(t, before);
    E.ZombieRun(t, before);
    E.CleanRunKeeps(t, before);
    A.GapRun(t, before);
    A.GapFree(I.Exec(t, before), a);
    rs := StepMatches(s, I.Exec(t, before), a, order, f);
  }

  lemma ServeMore(s: State, rs: seq<Request>, more: seq<Request>)
    requires AllFirst(s, rs) && |more| <= 1
    requires more != [] ==>
      Answer(ServeAll(s, rs), more[0], false).Accepted? && more[0].step !in ServeAll(s, rs).done
    ensures AllFirst(s, rs + more)
    ensures ServeAll(s, rs + more) == if more == [] then ServeAll(s, rs) else Serve(ServeAll(s, rs), more[0], false)
  {
    if more == [] {
      assert rs + more == rs;
    } else {
      assert (rs + more)[..|rs + more| - 1] == rs;
    }
  }

  /** For every run of the concurrent service, whatever its calls, retries, crashes, stale
      takeovers of the dead and cache do, there are requests, each accepted for the first time,
      with which the saga machine's service comes to match it. */
  lemma {:induction false} ServiceRefines(s: State, t: I.State, acts: seq<I.Action>, order: OrderId, f: Step)
    returns (rs: seq<Request>)
    requires IsForward(f) && s.done == {} && s.effects == map[]
    requires I.Init(t) && I.IsRun(t, acts) && I.CleanRun(t, acts) && A.DefaultIsolation(t, acts)
    requires Admitted(s, t, order, f)
    ensures forall r <- rs :: Concerns(r, f) && !Injected(s.order, r)
    ensures AllFirst(s, rs) && Matches(ServeAll(s, rs), A.Abs(I.Exec(t, acts).db), order, f)
    decreases |acts|
  {
    if acts == [] {
      rs := [];
    } else {
      rs := ServiceRefines(s, t, acts[..|acts| - 1], order, f);
      ServeAllFrame(s, rs);
      var more := RunStepMatches(ServeAll(s, rs), t, acts, order, f);
      ServeMore(s, rs, more);
      rs := rs + more;
    }
  }

  /** The service state is one that a clean run comes through. */
  ghost predicate Reached(u: I.State) {
    exists t, acts :: I.Init(t) && I.IsRun(t, acts) && I.CleanRun(t, acts) && u == I.Exec(t, acts)
  }

  lemma ReachedInv(u: I.State)
    requires Reached(u)
    ensures E.CleanInv(u)
  {
    var t, acts :| I.Init(t) && I.IsRun(t, acts) && I.CleanRun(t, acts) && u == I.Exec(t, acts);
    E.CleanRunKeeps(t, acts);
  }

  lemma AnsweredIsDone(u: I.State, i: nat)
    requires E.CleanInv(u) && i < |u.callers| && u.callers[i].pc.Returned?
    ensures u.callers[i].key in A.Abs(u.db).done
  {
    assert E.CallerOk(u, i);
  }

  /** A reply of the concurrent service is an acceptance in the saga machine: the step the
      answered caller asked for is done there. */
  lemma ReplyMatches(s: State, u: I.State, order: OrderId, f: Step, i: nat)
    requires IsForward(f) && Reached(u) && Matches(s, A.Abs(u.db), order, f)
    requires i < |u.callers| && u.callers[i].key.order == order && u.callers[i].pc.Returned?
    ensures StepOf(f, u.callers[i].key.op) in s.done
  {
    ReachedInv(u);
    AnsweredIsDone(u, i);
    assert u.callers[i].key == KeyOf(order, StepOf(f, u.callers[i].key.op));
  }
}
