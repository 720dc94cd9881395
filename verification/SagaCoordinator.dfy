/** The saga engine as it is written (services/coordinator/src/saga.ts): procedures that
    update the order row and the step rows statement by statement. The network, the
    services and the moment of a crash come from a script; within a phase the four
    `executeStep` calls advance in the order the script says. The ghost trace shows that
    every execution is a run of the machine in module Saga. */
module SagaCoordinator {
  import opened Vocabulary
  import opened Saga
  import Atomic = SagaAtomicity
  import Calls = SagaCalls

  /** What surrounds the n-th statement: deliveries and drops before it, and whether the
      process dies there; and the events of a phase, in order. */
  datatype Script = Script(world: nat -> seq<Action>, crash: nat -> bool, forward: seq<Action>, undo: seq<Action>)

  ghost predicate NeverCrashes(script: Script) {
    && (forall a <- script.forward :: !a.Crash?)
    && (forall a <- script.undo :: !a.Crash?)
    && (forall n :: !script.crash(n))
  }

  predicate NoCrash(acts: seq<Action>, from: nat) {
    forall n :: from <= n < |acts| ==> !acts[n].Crash?
  }

  predicate PhaseEvent(a: Action) {
    a.Begin? || a.Reply? || a.Lost? || a.Busy? || a.Record? || a.Deliver? || a.Drop? || a.Crash?
  }

  /** A phase waits for nothing more: every call has settled, or the process is gone. */
  predicate PhaseOver(s: State) {
    !(s.run.Forward? || s.run.Undo?) || Settled(s.run.execs)
  }

  /** The state after a phase has seen these events: each happens if it can, until every
      call has settled. */
  function Played(s: State, events: seq<Action>): State decreases |events| {
    if events == [] then s
    else
      var t, a := Played(s, events[..|events| - 1]), events[|events| - 1];
      if PhaseOver(t) || !PhaseEvent(a) || !Enabled(t, a) then t else Next(t, a)
  }

  lemma {:induction false} PlayedOver(s: State, events: seq<Action>, n: nat)
    requires n <= |events| && PhaseOver(Played(s, events[..n]))
    ensures Played(s, events) == Played(s, events[..n])
    decreases |events|
  {
    if n < |events| {
      var before := events[..|events| - 1];
      assert before[..n] == events[..n];
      PlayedOver(s, before, n);
    } else {
      assert events[..n] == events;
    }
  }

  lemma SkipStep(s: State, needed: set<Step>, i: nat, force: bool)
    requires i < |COMPENSATION_STEPS| && s.run == CompSkip(needed, i, force)
    ensures var undo := COMPENSATION_STEPS[i];
      Next(s, Advance) == s.(run := CompSkip(needed, i + 1, force),
                             steps := if undo in needed then s.steps else MarkStepResult(s.steps, undo, Skipped))
  {
  }

  lemma BusyStep(s: State, step: Step)
    requires Enabled(s, Busy(step))
    ensures Next(s, Busy(step)) == Attempt(s, step, s.run.execs[step].attempt + 1, s.run.execs[step].heard)
  {
  }

  lemma ReplyStep(s: State, step: Step, shortage: bool)
    requires Enabled(s, Reply(step, shortage))
    ensures var r := Request(step, Force(s.run));
      var served := Serve(s, r, shortage);
      Next(s, Reply(step, shortage)) ==
        match Answer(s, r, shortage)
        case Accepted => served.(run := SetExec(s.run, step, Succeeding))
        case TryAgain => Attempt(served, step, s.run.execs[step].attempt + 1, true)
        case Refused => served.(run := SetExec(s.run, step, Failing(true)))
  {
  }

  lemma PlayedNext(s: State, events: seq<Action>, n: nat)
    requires n < |events|
    ensures var t, a := Played(s, events[..n]), events[n];
      Played(s, events[..n + 1]) == if PhaseOver(t) || !PhaseEvent(a) || !Enabled(t, a) then t else Next(t, a)
  {
    assert events[..n + 1][..n] == events[..n];
  }

  lemma InitNext(steps: map<Step, StepStatus>, phase: seq<Step>, i: nat)
    requires i < |phase|
    ensures var so := InitSteps(steps, phase[..i]);
      InitSteps(steps, phase[..i + 1]) == if HasStatus(so, phase[i], Succeeded) then so else so[phase[i] := Waiting]
  {
    var so, more, st := InitSteps(steps, phase[..i]), InitSteps(steps, phase[..i + 1]), phase[i];
    assert phase[..i + 1] == phase[..i] + [st];
    assert more.Keys == so.Keys + {st};
  }

  class Coordinator {
    const order: Order
    var status: OrderStatus
    var steps: map<Step, StepStatus>
    var done: set<Step>
    var effects: map<Step, Effect>
    var wire: set<Request>
    var run: Run
    var crashesLeft: nat

    ghost const start: State
    ghost var trace: seq<Action>

    function Snapshot(): State reads this {
      State(order, status, steps, done, effects, wire, run, crashesLeft)
    }

    ghost predicate Valid() reads this {
      IsRun(start, trace) && After(start, trace) == Snapshot()
    }

    constructor (s: State)
      ensures Valid() && start == s && trace == [] && Snapshot() == s
    {
      order, status, steps, done, effects := s.order, s.status, s.steps, s.done, s.effects;
      wire, run, crashesLeft := s.wire, s.run, s.crashesLeft;
      start, trace := s, [];
    }

    /** The statements just executed were one step of the machine. */
    ghost method Log(before: State, a: Action)
      requires IsRun(start, trace) && After(start, trace) == before
      requires Enabled(before, a) && Snapshot() == Next(before, a)
      modifies this`trace
      ensures Valid() && trace == old(trace) + [a]
    {
      RunSnoc(start, trace, a);
      trace := trace + [a];
    }

    // ---- repository.ts --------------------------------------------------------

    /** initSteps: create the phase's rows, or re-arm those that have not SUCCEEDED. */
    method InsertSteps(phase: seq<Step>)
      modifies this`steps
      ensures steps == InitSteps(old(steps), phase)
    {
      ghost var before := steps;
      for i := 0 to |phase|
        invariant steps == InitSteps(before, phase[..i])
      {
        var st := phase[i];
        InitNext(before, phase, i);
        if !(st in steps && steps[st] == Succeeded) {
          steps := steps[st := Waiting];
        }
      }
      assert phase[..|phase|] == phase;
    }

    method UpdateRunning(step: Step)
      modifies this`steps
      ensures steps == MarkStepRunning(old(steps), step)
    {
      if step in steps && steps[step] != Succeeded {
        steps := steps[step := Running];
      }
    }

    method UpdateResult(step: Step, result: StepStatus)
      modifies this`steps
      ensures steps == MarkStepResult(old(steps), step, result)
    {
      if step in steps {
        steps := steps[step := result];
      }
    }

    /** getSucceededForwardSteps mapped through COMPENSATION_OF. */
    method SelectNeeded() returns (needed: set<Step>)
      ensures needed == Needed(steps)
    {
      needed := {};
      for i := 0 to |FORWARD_STEPS|
        invariant needed ==
          set f | f in FORWARD_STEPS[..i] && IsForward(f) && HasStatus(steps, f, Succeeded) :: CompensationOf(f)
      {
        var f := FORWARD_STEPS[i];
        StepsPartition(f);
        assert FORWARD_STEPS[..i + 1] == FORWARD_STEPS[..i] + [f];
        if HasStatus(steps, f, Succeeded) {
          needed := needed + {CompensationOf(f)};
        }
      }
      forall undo: Step ensures undo in needed <==> undo in Needed(steps) {
        if undo in Needed(steps) {
          StepsPartition(ForwardOf(undo));
          assert CompensationOf(ForwardOf(undo)) == undo;
        }
      }
    }

    /** getStepStatuses, filtered to what the forward phase still has to run. */
    method SelectPending() returns (pending: set<Step>)
      ensures pending == Pendings(steps)
    {
      pending := {};
      for i := 0 to |FORWARD_STEPS|
        invariant pending == set f | f in FORWARD_STEPS[..i] && !HasStatus(steps, f, Succeeded)
      {
        var f := FORWARD_STEPS[i];
        assert FORWARD_STEPS[..i + 1] == FORWARD_STEPS[..i] + [f];
        if !HasStatus(steps, f, Succeeded) {
          pending := pending + {f};
        }
      }
      forall f: Step ensures f in pending <==> f in Pendings(steps) {
        StepsPartition(f);
      }
    }

    // ---- The services ---------------------------------------------------------

    /** A service gets a request: injected fault, stored record, business rule, handler. */
    method Handle(r: Request, shortage: bool) returns (verdict: Verdict)
      modifies this`done, this`effects
      ensures verdict == Answer(old(Snapshot()), r, shortage)
      ensures Snapshot() == Serve(old(Snapshot()), r, shortage)
      ensures verdict.Accepted? ==> r.step in done
      ensures !Injected(order, r) && r.step in old(done) ==> verdict.Accepted? && Snapshot() == old(Snapshot())
      ensures !Injected(order, r) && r.step.ReserveInventory? && shortage && r.step !in old(done) ==>
                verdict.Refused? && Snapshot() == old(Snapshot())
    {
      if Injected(order, r) { return TryAgain; }
      if r.step in done { return Accepted; }
      if r.step == ReserveInventory && shortage { return Refused; }
      if IsForward(r.step) {
        var e := EffectOf(effects, r.step);
        if e.row != Absent { return TryAgain; }
        effects := effects[r.step := Effect(Done, e.dones + 1, e.undones)];
      } else {
        var f := ForwardOf(r.step);
        var e := EffectOf(effects, f);
        if e.row == Done {
          effects := effects[f := Effect(Undone, e.dones, e.undones + 1)];
        }
      }
      done := done + {r.step};
      return Accepted;
    }

    /** A delivery nobody hears back from, or a request the network drops. */
    method Network(a: Action)
      requires Valid() && Enabled(Snapshot(), a) && (a.Deliver? || a.Drop?)
      modifies this`done, this`effects, this`wire, this`trace
      ensures Valid() && trace == old(trace) + [a]
    {
      ghost var before := Snapshot();
      if a.Deliver? {
        var _ := Handle(a.r, a.shortage);
      } else {
        wire := wire - {a.r};
      }
      Log(before, a);
    }

    method World(acts: seq<Action>)
      requires Valid()
      modifies this`done, this`effects, this`wire, this`trace
      ensures Valid() && old(trace) <= trace && NoCrash(trace, old(|trace|))
    {
      for n := 0 to |acts|
        invariant Valid() && old(trace) <= trace && NoCrash(trace, old(|trace|))
      {
        if (acts[n].Deliver? || acts[n].Drop?) && acts[n].r in wire {
          Network(acts[n]);
        }
      }
    }

    method Die()
      requires Valid() && !run.NoRun? && crashesLeft > 0
      modifies this`run, this`crashesLeft, this`trace
      ensures Valid() && run.NoRun? && trace == old(trace) + [Crash]
    {
      ghost var before := Snapshot();
      run, crashesLeft := NoRun, crashesLeft - 1;
      Log(before, Crash);
    }

    /** Before the n-th statement: the world moves, and the process may die. */
    method Pause(script: Script, n: nat) returns (alive: bool)
      requires Valid() && !run.NoRun?
      modifies this`done, this`effects, this`wire, this`run, this`crashesLeft, this`trace
      ensures Valid() && old(trace) <= trace
      ensures NeverCrashes(script) ==> alive && NoCrash(trace, old(|trace|))
      ensures alive ==> run == old(run)
    {
      World(script.world(n));
      alive := !(script.crash(n) && crashesLeft > 0);
      if !alive { Die(); }
    }

    // ---- executeStep ------------------------------------------------------------

    /** Send attempt k of a step, or give the step up. */
    method Send(step: Step, k: nat, heard: bool)
      requires HasExec(run, step)
      modifies this`wire, this`run
      ensures Snapshot() == Attempt(old(Snapshot()), step, k, heard)
    {
      if k <= order.maxAttempts {
        wire := wire + {Request(step, Force(run))};
        run := SetExec(run, step, Calling(k, heard));
      } else {
        run := SetExec(run, step, Failing(heard));
      }
    }

    method BeginStep(step: Step)
      requires Valid() && Enabled(Snapshot(), Begin(step))
      modifies this`steps, this`wire, this`run, this`trace
      ensures Valid() && trace == old(trace) + [Begin(step)]
    {
      ghost var before := Snapshot();
      UpdateRunning(step);
      Send(step, 1, false);
      Log(before, Begin(step));
    }

    method HearReply(step: Step, shortage: bool)
      requires Valid() && Enabled(Snapshot(), Reply(step, shortage))
      modifies this`done, this`effects, this`wire, this`run, this`trace
      ensures Valid() && trace == old(trace) + [Reply(step, shortage)]
    {
      ghost var before := Snapshot();
      var attempt := run.execs[step].attempt;
      ReplyStep(before, step, shortage);
      var verdict := Handle(Request(step, Force(run)), shortage);
      match verdict {
        case Accepted => run := SetExec(run, step, Succeeding);
        case TryAgain => Send(step, attempt + 1, true);
        case Refused => run := SetExec(run, step, Failing(true));
      }
      assert Snapshot() == Next(before, Reply(step, shortage));
      Log(before, Reply(step, shortage));
    }

    /** A 409, or the 500 of a failed statement: the attempt is spent, nothing is learned. */
    method HearBusy(step: Step)
      requires Valid() && Enabled(Snapshot(), Busy(step))
      modifies this`wire, this`run, this`trace
      ensures Valid() && trace == old(trace) + [Busy(step)]
    {
      ghost var before := Snapshot();
      var e := run.execs[step];
      BusyStep(before, step);
      Send(step, e.attempt + 1, e.heard);
      assert Snapshot() == Next(before, Busy(step));
      Log(before, Busy(step));
    }

    /** An attempt with no answer at all. */
    method HearNothing(step: Step, retryable: bool)
      requires Valid() && Enabled(Snapshot(), Lost(step, retryable))
      modifies this`wire, this`run, this`trace
      ensures Valid() && trace == old(trace) + [Lost(step, retryable)]
    {
      ghost var before := Snapshot();
      var e := run.execs[step];
      if retryable {
        Send(step, e.attempt + 1, e.heard);
      } else {
        run := SetExec(run, step, Failing(e.heard));
      }
      Log(before, Lost(step, retryable));
    }

    method RecordResult(step: Step)
      requires Valid() && Enabled(Snapshot(), Record(step))
      modifies this`steps, this`run, this`trace
      ensures Valid() && trace == old(trace) + [Record(step)]
    {
      ghost var before := Snapshot();
      var ok := run.execs[step].Succeeding?;
      UpdateResult(step, if ok then Succeeded else Failed);
      run := SetExec(run, step, if ok then Ok else Bad);
      Log(before, Record(step));
    }

    /** The phase a run is in, without the progress of its calls. */
    ghost predicate SamePhase(before: Run) reads this {
      match before
      case Forward(_) => run.Forward?
      case Undo(needed, _, force) => run.Undo? && run.needed == needed && run.force == force
      case _ => run == before
    }

    /** A phase is still waiting for some of its calls. */
    predicate Unsettled() reads this {
      (run.Forward? || run.Undo?) && !Settled(run.execs)
    }

    /** The next statement of one executeStep. */
    method ExecuteStep(a: Action)
      requires Valid() && Enabled(Snapshot(), a) && (a.Begin? || a.Reply? || a.Lost? || a.Busy? || a.Record?)
      modifies this`steps, this`done, this`effects, this`wire, this`run, this`trace
      ensures Valid() && trace == old(trace) + [a]
    {
      match a {
        case Begin(step) => BeginStep(step);
        case Reply(step, shortage) => HearReply(step, shortage);
        case Lost(step, retryable) => HearNothing(step, retryable);
        case Busy(step) => HearBusy(step);
        case Record(step) => RecordResult(step);
      }
    }

    /** An executeStep call moves only itself. */
    lemma StepsInPhase(before: State, a: Action)
      requires Enabled(before, a) && (a.Begin? || a.Reply? || a.Lost? || a.Busy? || a.Record?)
      requires Snapshot() == Next(before, a)
      ensures SamePhase(before.run)
    {
    }

    /** One event of a phase, if it can happen now. */
    method Happen(a: Action) returns (alive: bool)
      requires Valid() && (run.Forward? || run.Undo?)
      modifies this
      ensures Valid() && (trace == old(trace) || trace == old(trace) + [a])
      ensures alive ==> SamePhase(old(run))
      ensures !alive ==> a.Crash? && run.NoRun?
      ensures var s := old(Snapshot());
        Snapshot() == if PhaseEvent(a) && Enabled(s, a) then Next(s, a) else s
    {
      alive := true;
      if !Enabled(Snapshot(), a) { return; }
      ghost var before := Snapshot();
      if a.Begin? || a.Reply? || a.Lost? || a.Busy? || a.Record? {
        RunSnoc(start, trace, a);
        ExecuteStep(a);
        StepsInPhase(before, a);
      } else if a.Deliver? || a.Drop? {
        Network(a);
      } else if a.Crash? {
        Die();
        alive := false;
      }
    }

    /** Promise.allSettled over the phase's executeStep calls: events in any order until
        every call has settled. False when the process died, or the script ran out. */
    method RunConcurrently(events: seq<Action>) returns (settled: bool)
      requires Valid() && (run.Forward? || run.Undo?)
      modifies this
      ensures Valid() && old(trace) <= trace
      ensures (forall a <- events :: !a.Crash?) ==> NoCrash(trace, old(|trace|))
      ensures Snapshot() == Played(old(Snapshot()), events)
      ensures settled <==> (run.Forward? || run.Undo?) && Settled(run.execs)
      ensures settled ==> SamePhase(old(run))
      ensures (forall a <- events :: !a.Crash?) && !settled ==> Unsettled()
    {
      var n := 0;
      while n < |events| && !Settled(run.execs)
        invariant n <= |events|
        invariant Valid() && old(trace) <= trace && SamePhase(old(run)) && (run.Forward? || run.Undo?)
        invariant (forall a <- events :: !a.Crash?) ==> NoCrash(trace, old(|trace|))
        invariant Snapshot() == Played(old(Snapshot()), events[..n])
      {
        PlayedNext(old(Snapshot()), events, n);
        var alive := Happen(events[n]);
        n := n + 1;
        if !alive {
          PlayedOver(old(Snapshot()), events, n);
          return false;
        }
      }
      settled := Settled(run.execs);
      assert settled || events[..n] == events;
      if settled {
        PlayedOver(old(Snapshot()), events, n);
      }
    }

    // ---- compensate, runSaga, retryCompensation ------------------------------------

    /** The UPDATE that closes an undo row nobody needs. */
    method SkipUnneeded(needed: set<Step>, i: nat, force: bool)
      requires Valid() && i < |COMPENSATION_STEPS| && run == CompSkip(needed, i, force)
      modifies this`steps, this`run, this`trace
      ensures Valid() && trace == old(trace) + [Advance] && run == CompSkip(needed, i + 1, force)
      ensures var undo := COMPENSATION_STEPS[i];
        steps == if undo in needed then old(steps) else MarkStepResult(old(steps), undo, Skipped)
    {
      ghost var before := Snapshot();
      SkipStep(before, needed, i, force);
      if COMPENSATION_STEPS[i] !in needed {
        UpdateResult(COMPENSATION_STEPS[i], Skipped);
      }
      run := CompSkip(needed, i + 1, force);
      Log(before, Advance);
    }

    /** The rows compensate() leaves behind for the undos that are not needed. */
    method MarkSkipped(script: Script, needed: set<Step>, force: bool) returns (alive: bool)
      requires Valid() && run == CompSkip(needed, 0, force)
      modifies this
      ensures Valid() && old(trace) <= trace
      ensures NeverCrashes(script) ==> alive && NoCrash(trace, old(|trace|))
      ensures alive ==> run == CompSkip(needed, |COMPENSATION_STEPS|, force)
      ensures alive && (forall undo <- COMPENSATION_STEPS :: undo in old(steps)) ==>
        forall undo <- COMPENSATION_STEPS :: undo in needed || HasStatus(steps, undo, Skipped)
    {
      for i := 0 to |COMPENSATION_STEPS|
        invariant Valid() && old(trace) <= trace && run == CompSkip(needed, i, force)
        invariant NeverCrashes(script) ==> NoCrash(trace, old(|trace|))
        invariant steps.Keys == old(steps).Keys
        invariant forall j :: 0 <= j < i && COMPENSATION_STEPS[j] in old(steps) ==>
          COMPENSATION_STEPS[j] in needed || HasStatus(steps, COMPENSATION_STEPS[j], Skipped)
      {
        alive := Pause(script, 10 + i);
        if !alive { return; }
        SkipUnneeded(needed, i, force);
      }
      alive := true;
    }

    /** Decide what to undo from the recorded rows. */
    method ReadNeeded(script: Script) returns (alive: bool)
      requires Valid() && run.CompRead?
      modifies this
      ensures Valid() && old(trace) <= trace
      ensures NeverCrashes(script) ==> alive && NoCrash(trace, old(|trace|))
      ensures alive ==> run.CompInit?
    {
      var force := run.force;
      alive := Pause(script, 4);
      if !alive { return; }
      ghost var before := Snapshot();
      var needed := SelectNeeded();
      run := CompInit(needed, force);
      Log(before, Advance);
    }

    method CreateUndoRows(script: Script) returns (alive: bool)
      requires Valid() && run.CompInit?
      modifies this
      ensures Valid() && old(trace) <= trace
      ensures NeverCrashes(script) ==> alive && NoCrash(trace, old(|trace|))
      ensures alive ==> run.CompSkip? && run.i == 0 && forall undo <- COMPENSATION_STEPS :: undo in steps
    {
      var needed, force := run.needed, run.force;
      alive := Pause(script, 5);
      if !alive { return; }
      ghost var before := Snapshot();
      InsertSteps(COMPENSATION_STEPS);
      run := CompSkip(needed, 0, force);
      Log(before, Advance);
    }

    /** compensate(): `None` when the process died, or the script ran out, on the way. */
    method Compensate(script: Script) returns (result: Option<OrderStatus>)
      requires Valid() && run.CompRead?
      modifies this
      ensures Valid() && old(trace) <= trace
      ensures NeverCrashes(script) ==> NoCrash(trace, old(|trace|))
      ensures NeverCrashes(script) && result.None? ==> Unsettled()
      ensures result.Some? ==> run == Finish(result.value)
    {
      var alive := ReadNeeded(script);
      if !alive { return None; }
      alive := CreateUndoRows(script);
      if !alive { return None; }
      alive := MarkSkipped(script, run.needed, run.force);
      if !alive { return None; }
      result := RunUndos(script);
    }

    /** Start the needed undos, if any, and wait for all of them. */
    method RunUndos(script: Script) returns (result: Option<OrderStatus>)
      requires Valid() && run.CompSkip? && run.i == |COMPENSATION_STEPS|
      modifies this
      ensures Valid() && old(trace) <= trace
      ensures NeverCrashes(script) ==> NoCrash(trace, old(|trace|))
      ensures NeverCrashes(script) && result.None? ==> Unsettled()
      ensures result.Some? ==> run == Finish(result.value)
    {
      ghost var before := Snapshot();
      if run.needed == {} {
        run := Finish(Cancelled);
        Log(before, Advance);
        return Some(Cancelled);
      }
      run := Undo(run.needed, Starting(run.needed), run.force);
      Log(before, Advance);
      result := JoinUndos(script);
    }

    method JoinUndos(script: Script) returns (result: Option<OrderStatus>)
      requires Valid() && run.Undo?
      modifies this
      ensures Valid() && old(trace) <= trace
      ensures NeverCrashes(script) ==> NoCrash(trace, old(|trace|))
      ensures NeverCrashes(script) && result.None? ==> Unsettled()
      ensures result.Some? ==> run == Finish(result.value)
    {
      var settled := RunConcurrently(script.undo);
      if !settled { return None; }
      ghost var before := Snapshot();
      var ending := if AnyBad(run.execs) then NeedsAttention else Cancelled;
      run := Finish(ending);
      Log(before, Advance);
      return Some(ending);
    }

    /** The fenced terminal write; in the clean environment the live run holds the lease. */
    method SetFinalStatus(script: Script, ending: OrderStatus) returns (alive: bool)
      requires Valid() && (run == Finish(ending) || (run.Place? && ending.Placed?))
      modifies this
      ensures Valid() && old(trace) <= trace
      ensures NeverCrashes(script) ==> alive && NoCrash(trace, old(|trace|))
      ensures alive ==> status == ending && run.NoRun?
    {
      alive := Pause(script, 20);
      if !alive { return; }
      ghost var before := Snapshot();
      status, run := ending, NoRun;
      Log(before, Advance);
    }

    method CreateForwardRows(script: Script) returns (alive: bool)
      requires Valid() && run.FwdInit?
      modifies this
      ensures Valid() && old(trace) <= trace
      ensures NeverCrashes(script) ==> alive && NoCrash(trace, old(|trace|))
      ensures alive ==> run.FwdRead?
    {
      alive := Pause(script, 0);
      if !alive { return; }
      ghost var before := Snapshot();
      InsertSteps(FORWARD_STEPS);
      run := FwdRead;
      Log(before, Advance);
    }

    /** Read which steps are left, skipping those that SUCCEEDED before a crash. */
    method StartPending(script: Script) returns (alive: bool)
      requires Valid() && run.FwdRead?
      modifies this
      ensures Valid() && old(trace) <= trace
      ensures NeverCrashes(script) ==> alive && NoCrash(trace, old(|trace|))
      ensures alive ==> run.Forward?
    {
      alive := Pause(script, 1);
      if !alive { return; }
      ghost var before := Snapshot();
      var pending := SelectPending();
      run := Forward(Starting(pending));
      Log(before, Advance);
    }

    /** The forward phase: true when it settled, leaving the run at Place or Rollback. */
    method RunForward(script: Script) returns (settled: bool)
      requires Valid() && run.FwdInit?
      modifies this
      ensures Valid() && old(trace) <= trace
      ensures NeverCrashes(script) ==> NoCrash(trace, old(|trace|))
      ensures NeverCrashes(script) && !settled ==> Unsettled()
      ensures settled ==> run.Place? || run.Rollback?
    {
      var alive := CreateForwardRows(script);
      if !alive { return false; }
      alive := StartPending(script);
      if !alive { return false; }
      settled := RunConcurrently(script.forward);
      if settled {
        ghost var before := Snapshot();
        run := if AnyBad(run.execs) then Rollback else Place;
        Log(before, Advance);
      }
    }

    /** Persist COMPENSATING before any undo starts. */
    method SetCompensating(script: Script) returns (alive: bool)
      requires Valid() && run.Rollback?
      modifies this
      ensures Valid() && old(trace) <= trace
      ensures NeverCrashes(script) ==> alive && NoCrash(trace, old(|trace|))
      ensures alive ==> run == CompRead(false) && status.Compensating?
    {
      alive := Pause(script, 3);
      if !alive { return; }
      ghost var before := Snapshot();
      status, run := Compensating, CompRead(false);
      Log(before, Advance);
    }

    method Drive(script: Script) returns (result: Option<OrderStatus>)
      requires Valid() && (run.FwdInit? || run.CompRead?)
      modifies this
      ensures Valid() && old(trace) <= trace
      ensures NeverCrashes(script) ==> NoCrash(trace, old(|trace|))
      ensures NeverCrashes(script) && result.None? ==> Unsettled()
      ensures result.Some? ==> status == result.value && run.NoRun?
    {
      if run.FwdInit? {
        var settled := RunForward(script);
        if !settled { return None; }
        if run.Place? {
          var placed := SetFinalStatus(script, Placed);
          return if placed then Some(Placed) else None;
        }
        var alive := SetCompensating(script);
        if !alive { return None; }
      }
      result := Compensate(script);
      if result.Some? {
        var alive := SetFinalStatus(script, result.value);
        if !alive { return None; }
      }
    }

    /** runSaga for a claimed order, forward or resuming a rollback, and with
        `run == CompRead(true)` retryCompensation. Without a crash it stops short of an
        ending only when a phase has heard all the script's events and still waits. A run of a fresh order that returns
        PLACED leaves all four effects committed once, and had stock; one that returns CANCELLED leaves,
        if its recorded failures were honest, nothing that was not undone once. */
    method RunSaga(script: Script) returns (result: Option<OrderStatus>)
      requires Valid() && (run.FwdInit? || run.CompRead?)
      modifies this
      ensures Valid() && old(trace) <= trace
      ensures NeverCrashes(script) ==> NoCrash(trace, old(|trace|))
      ensures NeverCrashes(script) && result.None? ==> Unsettled()
      ensures result.Some? ==> status == result.value && run.NoRun?
      ensures Init(start) && result == Some(Placed) ==>
                forall f: Step | IsForward(f) :: EffectOf(effects, f) == Effect(Done, 1, 0)
      ensures Init(start) && result == Some(Cancelled) && Atomic.HonestRun(start, trace) ==>
                forall f: Step | IsForward(f) :: Atomic.Clean(EffectOf(effects, f))
      ensures Init(start) && Calls.OutOfStock(trace) ==> result != Some(Placed)
    {
      result := Drive(script);
      if Init(start) {
        if Calls.OutOfStock(trace) {
          Calls.NoStockNoOrder(start, trace);
        }
        forall f: Step | IsForward(f)
          ensures result == Some(Placed) ==> EffectOf(effects, f) == Effect(Done, 1, 0)
          ensures result == Some(Cancelled) && Atomic.HonestRun(start, trace) ==> Atomic.Clean(EffectOf(effects, f))
        {
          Atomic.AtomicityOfEveryRun(start, trace, f);
          if Atomic.HonestRun(start, trace) {
            assert Atomic.HonestlyReachable(Snapshot());
            Atomic.Atomicity(Snapshot(), f);
          }
        }
      }
    }
  }
}
