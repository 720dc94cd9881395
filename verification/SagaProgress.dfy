/** Progress of the saga: with finitely many crashes and a retry budget, every step the
    coordinator takes lowers a rank, so every claimed order ends; and what a recovery
    run does not do again. */
module SagaProgress {
  import opened Vocabulary
  import opened Saga
  import SagaSchedules

  // ---- The rank ---------------------------------------------------------------

  function ExecRank(budget: nat, e: Exec): nat {
    match e
    case Start => budget + 2
    case Calling(k, _) => if k <= budget then budget - k + 2 else 2
    case Succeeding => 1
    case Failing(_) => 1
    case Ok => 0
    case Bad => 0
  }

  function RankOf(budget: nat, execs: map<Step, Exec>, st: Step): nat {
    if st in execs then ExecRank(budget, execs[st]) else 0
  }

  const STEPS := FORWARD_STEPS + COMPENSATION_STEPS

  /** Unresolved steps and attempts left, over the first n of the eight steps. */
  function PhaseRank(budget: nat, execs: map<Step, Exec>, n: nat): nat
    requires n <= |STEPS|
  {
    if n == 0 then 0 else PhaseRank(budget, execs, n - 1) + RankOf(budget, execs, STEPS[n - 1])
  }

  function PhaseMax(budget: nat): nat { 8 * (budget + 2) }

  /** The most steps one run can take, and one more for claiming the order. */
  function ClaimRank(budget: nat): nat { 2 * PhaseMax(budget) + 14 }

  function RunRank(budget: nat, run: Run): nat {
    match run
    case NoRun => 0
    case Finish(_) => 1
    case Undo(_, execs, _) => 2 + PhaseRank(budget, execs, 8)
    case CompSkip(_, i, _) => PhaseMax(budget) + 3 + if i <= 4 then 4 - i else 0
    case CompInit(_, _) => PhaseMax(budget) + 8
    case CompRead(_) => PhaseMax(budget) + 9
    case Rollback => PhaseMax(budget) + 10
    case Place => 1
    case Forward(execs) => PhaseMax(budget) + 11 + PhaseRank(budget, execs, 8)
    case FwdRead => 2 * PhaseMax(budget) + 12
    case FwdInit => 2 * PhaseMax(budget) + 13
  }

  function LocalRank(s: State): nat {
    if s.run.NoRun? then (if SagaSchedules.Final(s.status) then 0 else ClaimRank(s.order.maxAttempts))
    else RunRank(s.order.maxAttempts, s.run)
  }

  /** `crashes` whole units and then `local`: a pair, compared lexicographically. */
  function Lex(crashes: nat, unit: nat, local: nat): nat {
    if crashes == 0 then local else unit + Lex(crashes - 1, unit, local)
  }

  /** Crashes left first, then what the live run still has to do. */
  function Rank(s: State): nat {
    Lex(s.crashesLeft, ClaimRank(s.order.maxAttempts) + 1, LocalRank(s))
  }

  /** The coordinator's own steps; the rest is the network, the services and people. */
  predicate Own(a: Action) {
    a.Claim? || a.Advance? || a.Begin? || a.Reply? || a.Lost? || a.Busy? || a.Record? || a.Crash?
  }

  /** The run's locals are within their bounds. */
  predicate Bounded(s: State) {
    && LocalRank(s) <= ClaimRank(s.order.maxAttempts)
    && (s.run.Finish? ==> SagaSchedules.Final(s.run.status))
    && (s.run.CompSkip? ==> s.run.i <= 4)
  }

  lemma {:induction false} LexLocal(crashes: nat, unit: nat, local: nat)
    ensures Lex(crashes, unit, local) == Lex(crashes, unit, 0) + local
  {
    if crashes > 0 {
      LexLocal(crashes - 1, unit, local);
    }
  }

  lemma {:induction false} PhaseRankBound(budget: nat, steps: set<Step>, n: nat)
    requires n <= 8
    ensures PhaseRank(budget, Starting(steps), n) <= n * (budget + 2)
  {
    if n > 0 {
      PhaseRankBound(budget, steps, n - 1);
    }
  }

  /** Position of a step among the eight. */
  function Position(st: Step): (i: nat)
    ensures i < |STEPS| && STEPS[i] == st
    ensures forall j :: 0 <= j < |STEPS| && STEPS[j] == st ==> j == i
  {
    match st
    case CreateOrder => 0 case ReserveInventory => 1 case ChargePayment => 2 case CreateShipment => 3
    case CancelOrder => 4 case ReleaseInventory => 5 case RefundPayment => 6 case CancelShipment => 7
  }

  lemma {:induction false} SetExecRank(budget: nat, execs: map<Step, Exec>, st: Step, e: Exec, n: nat)
    requires n <= 8 && st in execs && ExecRank(budget, e) < ExecRank(budget, execs[st])
    ensures if n <= Position(st) then PhaseRank(budget, execs[st := e], n) == PhaseRank(budget, execs, n)
            else PhaseRank(budget, execs[st := e], n) < PhaseRank(budget, execs, n)
  {
    if n > 0 {
      SetExecRank(budget, execs, st, e, n - 1);
    }
  }

  lemma SetExecFalls(budget: nat, run: Run, st: Step, e: Exec)
    requires HasExec(run, st) && ExecRank(budget, e) < ExecRank(budget, run.execs[st])
    ensures RunRank(budget, SetExec(run, st, e)) < RunRank(budget, run)
  {
    SetExecRank(budget, run.execs, st, e, 8);
  }

  lemma AttemptRank(s: State, st: Step, k: nat, heard: bool)
    requires HasExec(s.run, st) && (s.run.execs[st].Start? || s.run.execs[st].Calling?)
    requires s.run.execs[st].Calling? ==> k == s.run.execs[st].attempt + 1
    requires s.run.execs[st].Start? ==> k == 1
    ensures RunRank(s.order.maxAttempts, Attempt(s, st, k, heard).run) < RunRank(s.order.maxAttempts, s.run)
  {
    var e := if k <= s.order.maxAttempts then Calling(k, heard) else Failing(heard);
    SetExecFalls(s.order.maxAttempts, s.run, st, e);
  }

  lemma ReplyRankFalls(s: State, a: Action)
    requires Enabled(s, a) && a.Reply?
    ensures Next(s, a).run.Forward? || Next(s, a).run.Undo?
    ensures RunRank(s.order.maxAttempts, Next(s, a).run) < RunRank(s.order.maxAttempts, s.run)
  {
    var execs, r := s.run.execs, Request(a.step, Force(s.run));
    match Answer(s, r, a.shortage)
    case Accepted => SetExecFalls(s.order.maxAttempts, s.run, a.step, Succeeding);
    case TryAgain => AttemptRank(Serve(s, r, a.shortage), a.step, execs[a.step].attempt + 1, true);
    case Refused => SetExecFalls(s.order.maxAttempts, s.run, a.step, Failing(true));
  }

  lemma LostRankFalls(s: State, a: Action)
    requires Enabled(s, a) && a.Lost?
    ensures Next(s, a).run.Forward? || Next(s, a).run.Undo?
    ensures RunRank(s.order.maxAttempts, Next(s, a).run) < RunRank(s.order.maxAttempts, s.run)
  {
    var e := s.run.execs[a.step];
    if a.retryable {
      AttemptRank(s, a.step, e.attempt + 1, e.heard);
    } else {
      SetExecFalls(s.order.maxAttempts, s.run, a.step, Failing(e.heard));
    }
  }

  lemma ExecRankFalls(s: State, a: Action)
    requires Enabled(s, a) && (a.Begin? || a.Reply? || a.Lost? || a.Busy? || a.Record?)
    ensures Next(s, a).run.Forward? || Next(s, a).run.Undo?
    ensures RunRank(s.order.maxAttempts, Next(s, a).run) < RunRank(s.order.maxAttempts, s.run)
  {
    match a
    case Begin(st) => AttemptRank(s.(steps := MarkStepRunning(s.steps, st)), st, 1, false);
    case Reply(_, _) => ReplyRankFalls(s, a);
    case Lost(_, _) => LostRankFalls(s, a);
    case Busy(st) => LostRankFalls(s, Lost(st, true));
    case Record(st) =>
      SetExecFalls(s.order.maxAttempts, s.run, st, if s.run.execs[st].Succeeding? then Ok else Bad);
  }

  /** What an executeStep does not touch. */
  lemma ExecFrame(s: State, a: Action)
    requires Enabled(s, a) && (a.Begin? || a.Reply? || a.Lost? || a.Busy? || a.Record?)
    ensures var t := Next(s, a); t.crashesLeft == s.crashesLeft && t.order == s.order && t.status == s.status
  {
  }

  lemma AdvanceRankFalls(s: State)
    requires Enabled(s, Advance) && Bounded(s)
    ensures var t := Next(s, Advance);
      && t.crashesLeft == s.crashesLeft && t.order == s.order
      && Bounded(t) && LocalRank(t) < LocalRank(s)
  {
    match s.run
    case FwdRead => PhaseRankBound(s.order.maxAttempts, Pendings(s.steps), 8);
    case CompSkip(needed, _, _) => PhaseRankBound(s.order.maxAttempts, needed, 8);
    case _ =>
  }

  lemma LocalFalls(s: State, a: Action)
    requires Enabled(s, a) && Bounded(s) && !a.Retry? && !a.Crash?
    ensures Bounded(Next(s, a)) && LocalRank(Next(s, a)) <= LocalRank(s)
    ensures Own(a) ==> LocalRank(Next(s, a)) < LocalRank(s)
    ensures Next(s, a).crashesLeft == s.crashesLeft && Next(s, a).order == s.order
  {
    if a.Advance? {
      AdvanceRankFalls(s);
    } else if a.Begin? || a.Reply? || a.Lost? || a.Busy? || a.Record? {
      ExecRankFalls(s, a);
      ExecFrame(s, a);
    }
  }

  lemma CrashFalls(s: State)
    requires Enabled(s, Crash) && Bounded(s)
    ensures Bounded(Next(s, Crash)) && Rank(Next(s, Crash)) < Rank(s)
  {
    var t, unit := Next(s, Crash), ClaimRank(s.order.maxAttempts) + 1;
    LexLocal(s.crashesLeft, unit, LocalRank(s));
    LexLocal(t.crashesLeft, unit, LocalRank(t));
    assert Lex(s.crashesLeft, unit, 0) == unit + Lex(t.crashesLeft, unit, 0);
  }

  lemma RankFalls(s: State, a: Action)
    requires Enabled(s, a) && Bounded(s) && !a.Retry?
    ensures Bounded(Next(s, a)) && Rank(Next(s, a)) <= Rank(s)
    ensures Own(a) ==> Rank(Next(s, a)) < Rank(s)
  {
    if a.Crash? {
      CrashFalls(s);
    } else {
      LocalFalls(s, a);
      var unit := ClaimRank(s.order.maxAttempts) + 1;
      LexLocal(s.crashesLeft, unit, LocalRank(s));
      LexLocal(s.crashesLeft, unit, LocalRank(Next(s, a)));
    }
  }

  function OwnSteps(acts: seq<Action>): nat {
    if acts == [] then 0
    else OwnSteps(acts[..|acts| - 1]) + if Own(acts[|acts| - 1]) then 1 else 0
  }

  function RetriesIn(acts: seq<Action>): nat {
    if acts == [] then 0
    else RetriesIn(acts[..|acts| - 1]) + if acts[|acts| - 1].Retry? then 1 else 0
  }

  /** A manual retry is worth at most one more run. */
  lemma RetryPays(s: State)
    requires Enabled(s, Retry) && Bounded(s)
    ensures Bounded(Next(s, Retry))
    ensures Rank(Next(s, Retry)) <= Rank(s) + ClaimRank(s.order.maxAttempts)
  {
    var t, unit := Next(s, Retry), ClaimRank(s.order.maxAttempts) + 1;
    LexLocal(s.crashesLeft, unit, LocalRank(s));
    LexLocal(t.crashesLeft, unit, LocalRank(t));
  }

  /** Every coordinator step is paid for by the rank or by a retry. */
  lemma {:induction false} RankPays(s: State, acts: seq<Action>)
    requires Init(s) && IsRun(s, acts)
    ensures Bounded(After(s, acts)) && After(s, acts).order == s.order
    ensures Rank(After(s, acts)) + OwnSteps(acts) <= Rank(s) + RetriesIn(acts) * ClaimRank(s.order.maxAttempts)
    decreases |acts|
  {
    if acts != [] {
      var before, a := acts[..|acts| - 1], acts[|acts| - 1];
      RankPays(s, before);
      SameOrder(After(s, before), a);
      if a.Retry? {
        RetryPays(After(s, before));
        OneMore(RetriesIn(before), ClaimRank(s.order.maxAttempts));
      } else {
        RankFalls(After(s, before), a);
      }
    }
  }

  lemma SameOrder(s: State, a: Action)
    requires Enabled(s, a)
    ensures Next(s, a).order == s.order
  {
  }

  lemma OneMore(n: nat, unit: nat)
    ensures (n + 1) * unit == n * unit + unit
  {
  }

  ghost predicate CanMove(s: State) {
    exists a :: Own(a) && !a.Crash? && Enabled(s, a)
  }

  lemma NotStuck(s: State)
    requires !SagaSchedules.Final(s.status)
    ensures CanMove(s)
  {
    if s.run.NoRun? {
      assert Enabled(s, Claim);
    } else if (s.run.Forward? || s.run.Undo?) && !Settled(s.run.execs) {
      var st :| st in s.run.execs && !s.run.execs[st].Ok? && !s.run.execs[st].Bad?;
      match s.run.execs[st]
      case Start => assert Enabled(s, Begin(st));
      case Calling(_, _) => assert Enabled(s, Lost(st, true));
      case Succeeding => assert Enabled(s, Record(st));
      case Failing(_) => assert Enabled(s, Record(st));
    } else {
      assert Enabled(s, Advance);
    }
  }

  /** Every claimed order ends: a run has at most Rank(s) coordinator steps, crashes included,
      and as many as one more run for every manual retry; and a run whose coordinator cannot
      move has reached PLACED (or SHIPPED), CANCELLED or NEEDS_ATTENTION. */
  lemma EveryOrderEnds(s: State, acts: seq<Action>)
    requires Init(s) && IsRun(s, acts)
    ensures OwnSteps(acts) <= Rank(s) + RetriesIn(acts) * ClaimRank(s.order.maxAttempts)
    ensures !CanMove(After(s, acts)) ==> SagaSchedules.Final(After(s, acts).status)
  {
    RankPays(s, acts);
    if !SagaSchedules.Final(After(s, acts).status) {
      NotStuck(After(s, acts));
    }
  }

  // ---- What is not done again ---------------------------------------------------

  /** A forward call in flight belongs to an IN_PROGRESS run and its row is not SUCCEEDED. */
  predicate CallsOk(s: State) {
    match s.run
    case FwdInit => s.status.InProgress?
    case FwdRead => s.status.InProgress?
    case Forward(execs) =>
      && s.status.InProgress?
      && forall st <- execs :: IsForward(st) && (execs[st].Ok? || !HasStatus(s.steps, st, Succeeded))
    case CompInit(needed, _) => forall st <- needed :: !IsForward(st)
    case CompSkip(needed, _, _) => forall st <- needed :: !IsForward(st)
    case Undo(_, execs, _) => forall st <- execs :: !IsForward(st)
    case _ => true
  }

  lemma CallsMarkStep(s: State, a: Action)
    requires CallsOk(s) && Enabled(s, a) && (a.Begin? || a.Record?)
    ensures CallsOk(Next(s, a))
  {
  }

  lemma CallsAnswerStep(s: State, a: Action)
    requires CallsOk(s) && Enabled(s, a) && (a.Reply? || a.Lost? || a.Busy?)
    ensures CallsOk(Next(s, a))
  {
  }

  lemma CallsStep(s: State, a: Action)
    requires CallsOk(s) && Enabled(s, a) && (s.status.Placed? ==> s.run.NoRun?)
    ensures CallsOk(Next(s, a)) && (Next(s, a).status.Placed? ==> Next(s, a).run.NoRun?)
  {
    if a.Begin? || a.Record? {
      CallsMarkStep(s, a);
    } else if a.Reply? || a.Lost? || a.Busy? {
      CallsAnswerStep(s, a);
    }
  }

  lemma {:induction false} CallsRun(s: State, acts: seq<Action>)
    requires Init(s) && IsRun(s, acts)
    ensures CallsOk(After(s, acts)) && (After(s, acts).status.Placed? ==> After(s, acts).run.NoRun?)
    decreases |acts|
  {
    if acts != [] {
      CallsRun(s, acts[..|acts| - 1]);
      CallsStep(After(s, acts[..|acts| - 1]), acts[|acts| - 1]);
    }
  }

  /** The action sends a request of its step: the first attempt or a repeat, whether or not
      an earlier copy is still on the wire. */
  predicate Sends(s: State, a: Action) requires Enabled(s, a) {
    && (a.Begin? || a.Reply? || a.Lost? || a.Busy?)
    && HasExec(Next(s, a).run, a.step) && Next(s, a).run.execs[a.step].Calling?
  }

  /** The order is moving forwards and the step is not recorded SUCCEEDED. */
  predicate MayBeCalled(s: State, step: Step) {
    s.status.InProgress? && !HasStatus(s.steps, step, Succeeded)
  }

  /** Some run from a fresh order comes through this state. */
  ghost predicate Reachable(t: State) {
    exists s, acts :: Init(s) && IsRun(s, acts) && t == After(s, acts)
  }

  /** In every reachable state a forward request is sent, first or again, only while the order
      is IN_PROGRESS and for a step not already recorded SUCCEEDED: recovery skips what
      finished before the crash, and a run that claimed a COMPENSATING order issues no
      forward call. */
  lemma NoForwardCallAgain(t: State, a: Action)
    requires Reachable(t) && Enabled(t, a) && Sends(t, a) && IsForward(a.step)
    ensures MayBeCalled(t, a.step)
  {
    var s, acts :| Init(s) && IsRun(s, acts) && t == After(s, acts);
    CallsRun(s, acts);
  }

  /** Sends is every way of sending: a sent request is on the wire afterwards, and nothing
      else puts one there. */
  lemma SendsExact(s: State, a: Action, r: Request)
    requires Enabled(s, a)
    ensures Sends(s, a) ==> Request(a.step, Force(s.run)) in Next(s, a).wire
    ensures r !in s.wire && r in Next(s, a).wire ==> Sends(s, a) && r == Request(a.step, Force(s.run))
  {
    match a
    case Begin(st) => AttemptSends(s.(steps := MarkStepRunning(s.steps, st)), st, 1, false);
    case Reply(st, shortage) =>
      var served := Serve(s, Request(st, Force(s.run)), shortage);
      AttemptSends(served, st, s.run.execs[st].attempt + 1, true);
    case Lost(st, _) => AttemptSends(s, st, s.run.execs[st].attempt + 1, s.run.execs[st].heard);
    case Busy(st) => AttemptSends(s, st, s.run.execs[st].attempt + 1, s.run.execs[st].heard);
    case _ =>
  }

  lemma AttemptSends(s: State, st: Step, k: nat, heard: bool)
    requires HasExec(s.run, st)
    ensures var t := Attempt(s, st, k, heard);
      && HasExec(t.run, st)
      && (t.run.execs[st].Calling? <==> k <= s.order.maxAttempts)
      && t.wire == if k <= s.order.maxAttempts then s.wire + {Request(st, Force(s.run))} else s.wire
  {
  }
}
