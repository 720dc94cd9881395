/** The order lifecycle over whole runs, zombies included: exactly which writes break it, and
    why a single live run per instance and order is what rules them out. */
module Lifecycle {
  import opened Vocabulary
  import opened Leases
  import opened LeaseSafety

  predicate HasLive(s: State, i: Instance, id: nat) {
    LiveRun(i, id, Forward) in s.live || LiveRun(i, id, Undoing) in s.live
  }

  /** At most one live run per (instance, order), as a condition on the actions that start
      runs. The fencing token is per process, so the guards cannot tell two such runs apart. */
  predicate OneLiveRun(s: State, a: Action) {
    && (a.Commit? && a.i in s.claims ==> forall id <- s.claims[a.i] :: !HasLive(s, a.i, id))
    && (a.Retry? && WinsRetry(s, a, a.id) ==> !HasLive(s, a.i, a.id))
    && (a.Write? ==> !a.twin)
  }

  predicate OneLiveRunThroughout(s: State, acts: seq<Action>) requires IsRun(s, acts) decreases |acts| {
    acts == [] ||
    (OneLiveRunThroughout(s, acts[..|acts| - 1]) && OneLiveRun(After(s, acts[..|acts| - 1]), acts[|acts| - 1]))
  }

  /** The transitions of the order lifecycle, a stutter and a re-claim included. */
  predicate Edge(x: OrderStatus, y: OrderStatus) {
    match x
    case Pending => y.Pending? || y.InProgress?
    case InProgress => y.InProgress? || y.Placed? || y.Compensating?
    case Compensating => y.Compensating? || y.Cancelled? || y.NeedsAttention?
    case NeedsAttention => y.NeedsAttention? || y.Compensating?
    case Placed => y.Placed? || y.Shipped?
    case Cancelled => y.Cancelled?
    case Shipped => y.Shipped?
  }

  /** A run that would pass the fence is in the phase the status says. */
  predicate PhaseFits(s: State, r: LiveRun) {
    Owns(s.rows, r.id, r.i) ==> (r.phase.Forward? <==> s.rows[r.id].status.InProgress?)
  }

  predicate Single(s: State, r: LiveRun) {
    r.phase.Forward? ==> LiveRun(r.i, r.id, Undoing) !in s.live
  }

  ghost predicate PhasesOk(s: State) {
    forall r <- s.live :: PhaseFits(s, r) && Single(s, r)
  }

  lemma Live(s: State, r: LiveRun)
    requires r in s.live
    ensures HasLive(s, r.i, r.id)
  {
    match r.phase
    case Forward =>
    case Undoing =>
  }

  lemma CommitPhases(s: State, a: Action)
    requires Inv(s) && PhasesOk(s) && Enabled(s, a) && OneLiveRun(s, a) && a.Commit?
    ensures PhasesOk(Next(s, a))
  {
    var t, ids := Next(s, a), s.claims[a.i];
    forall r <- t.live ensures PhaseFits(t, r) && Single(t, r) {
      if r in s.live {
        Live(s, r);
        assert PhaseFits(s, r) && Single(s, r);
        assert !(r.i == a.i && r.id in ids);
      } else {
        assert r.id in ids && StillClaimable(s, r.id);
      }
    }
  }

  lemma RetryPhases(s: State, a: Action)
    requires Inv(s) && PhasesOk(s) && Enabled(s, a) && OneLiveRun(s, a) && a.Retry?
    ensures PhasesOk(Next(s, a))
  {
    var t := Next(s, a);
    forall r <- t.live ensures PhaseFits(t, r) && Single(t, r) {
      if r in s.live {
        Live(s, r);
        assert PhaseFits(s, r) && Single(s, r);
      }
    }
  }

  lemma WritePhases(s: State, a: Action)
    requires Inv(s) && PhasesOk(s) && Enabled(s, a) && OneLiveRun(s, a) && a.Write?
    ensures PhasesOk(Next(s, a))
  {
    var t, writer := Next(s, a), LiveRun(a.i, a.id, WriterPhase(a.status));
    assert PhaseFits(s, writer) && Single(s, writer);
    forall r <- t.live ensures PhaseFits(t, r) && Single(t, r) {
      if r in s.live { assert PhaseFits(s, r) && Single(s, r); }
    }
  }

  lemma PhasesStep(s: State, a: Action)
    requires Inv(s) && PhasesOk(s) && Enabled(s, a) && OneLiveRun(s, a)
    ensures PhasesOk(Next(s, a))
  {
    var t := Next(s, a);
    match a
    case Commit(_) => CommitPhases(s, a);
    case Retry(_, _) => RetryPhases(s, a);
    case Write(_, _, _, _) => WritePhases(s, a);
    case _ =>
      forall r <- t.live ensures PhaseFits(t, r) && Single(t, r) {
        assert PhaseFits(s, r) && Single(s, r);
        if Owns(s.rows, r.id, r.i) { assert Coupled(s, s.rows[r.id]); }
      }
  }

  lemma {:induction false} RunPhases(s: State, acts: seq<Action>)
    requires Init(s) && IsRun(s, acts) && OneLiveRunThroughout(s, acts)
    ensures Inv(After(s, acts)) && PhasesOk(After(s, acts)) && |After(s, acts).rows| == |s.rows|
    decreases |acts|
  {
    RunKeeps(s, acts);
    if acts != [] {
      var before := acts[..|acts| - 1];
      RunPhases(s, before);
      PhasesStep(After(s, before), acts[|acts| - 1]);
    }
  }

  // ---- Exactly when the lifecycle breaks --------------------------------------------

  /** The write passes the fence but does not belong to the order's status: PLACED after
      compensation was decided, or an ending of it before. The fence cannot see this, because
      the token says which process owns the order and not which run of it writes. */
  predicate Misplaced(s: State, a: Action, id: nat) {
    && a.Write? && a.id == id && Owns(s.rows, id, a.i)
    && ((a.status.Placed? && s.rows[id].status.Compensating?)
        || ((a.status.Cancelled? || a.status.NeedsAttention?) && s.rows[id].status.InProgress?))
  }

  lemma EdgeExact(s: State, a: Action, id: nat)
    requires Inv(s) && Enabled(s, a) && id < |s.rows|
    ensures id < |Next(s, a).rows|
    ensures Edge(s.rows[id].status, Next(s, a).rows[id].status) <==> !Misplaced(s, a, id)
  {
    StepAllowed(s, a, id);
    assert Coupled(s, s.rows[id]);
  }

  /** Every step of the run so far was an edge of the lifecycle for this order. */
  predicate IsPath(s: State, acts: seq<Action>, id: nat)
    requires IsRun(s, acts)
    decreases |acts|
  {
    acts == [] ||
    var before, a := acts[..|acts| - 1], acts[|acts| - 1];
    && IsPath(s, before, id)
    && id < |After(s, before).rows| && id < |After(s, acts).rows|
    && Edge(After(s, before).rows[id].status, After(s, acts).rows[id].status)
  }

  predicate WellPlaced(s: State, acts: seq<Action>, id: nat)
    requires IsRun(s, acts)
    decreases |acts|
  {
    acts == [] ||
    var before, a := acts[..|acts| - 1], acts[|acts| - 1];
    WellPlaced(s, before, id) && !Misplaced(After(s, before), a, id)
  }

  /** For every run, zombies and several runs of one order on one instance included: the
      order's status history is a path of the lifecycle if and only if no write that passed
      the fence was misplaced. */
  lemma {:induction false} PathExact(s: State, acts: seq<Action>, id: nat)
    requires Init(s) && IsRun(s, acts) && id < |s.rows|
    ensures IsPath(s, acts, id) <==> WellPlaced(s, acts, id)
    decreases |acts|
  {
    if acts != [] {
      var before := acts[..|acts| - 1];
      PathExact(s, before, id);
      RunKeeps(s, before);
      EdgeExact(After(s, before), acts[|acts| - 1], id);
    }
  }

  /** A run of the right phase is what makes a write belong to the status. */
  lemma FittingWrites(s: State, a: Action, id: nat)
    requires Inv(s) && PhasesOk(s) && Enabled(s, a) && id < |s.rows|
    ensures !Misplaced(s, a, id)
  {
    if a.Write? && a.id == id && Owns(s.rows, id, a.i) {
      assert PhaseFits(s, LiveRun(a.i, id, WriterPhase(a.status)));
    }
  }

  /** With one live run per instance and order nothing is misplaced, so every order's status
      history is a path of the lifecycle. */
  lemma {:induction false} HistoryIsPath(s: State, acts: seq<Action>, id: nat)
    requires Init(s) && IsRun(s, acts) && OneLiveRunThroughout(s, acts) && id < |s.rows|
    ensures WellPlaced(s, acts, id) && IsPath(s, acts, id)
    decreases |acts|
  {
    if acts != [] {
      var before := acts[..|acts| - 1];
      HistoryIsPath(s, before, id);
      RunPhases(s, before);
      FittingWrites(After(s, before), acts[|acts| - 1], id);
    }
    PathExact(s, acts, id);
  }

  /** Statuses an order never returns from: once compensation has been decided. */
  predicate Backwards(status: OrderStatus) {
    status.Compensating? || status.Cancelled? || status.NeedsAttention?
  }

  /** COMPENSATING never returns to IN_PROGRESS or PLACED, however long the run goes on, as
      long as its writes are well placed. */
  lemma {:induction false} NeverForwardAgain(s: State, acts: seq<Action>, n: nat, id: nat)
    requires Init(s) && IsRun(s, acts) && WellPlaced(s, acts, id) && n <= |acts| && IsRun(s, acts[..n])
    requires id < |After(s, acts[..n]).rows| && Backwards(After(s, acts[..n]).rows[id].status)
    ensures id < |After(s, acts).rows| && Backwards(After(s, acts).rows[id].status)
    decreases |acts|
  {
    if n < |acts| {
      var before := acts[..|acts| - 1];
      assert before[..n] == acts[..n];
      NeverForwardAgain(s, before, n, id);
      RunKeeps(s, before);
      EdgeExact(After(s, before), acts[|acts| - 1], id);
    } else {
      assert acts[..n] == acts;
    }
  }

  // ---- Without the hypothesis -----------------------------------------------------

  const A: Instance := "coord-a"
  const B: Instance := "coord-b"

  function OneOrder(): State {
    State(1, 0, [Row(Pending, None, None)], map[], {})
  }

  lemma Push(acts: seq<Action>, a: Action) returns (acts': seq<Action>, t: State)
    requires IsRun(OneOrder(), acts) && Enabled(After(OneOrder(), acts), a)
    ensures acts' == acts + [a] && IsRun(OneOrder(), acts')
    ensures t == After(OneOrder(), acts') == Next(After(OneOrder(), acts), a)
  {
    acts' := acts + [a];
    RunSnoc(OneOrder(), acts, a);
    t := After(OneOrder(), acts');
  }

  lemma StartedOne(rows: seq<Row>, i: Instance)
    ensures Started(rows, i, [0]) == {LiveRun(i, 0, StartPhase(rows, 0))}
  {
    assert [0][0] == 0;
    forall r: LiveRun ensures r in Started(rows, i, [0]) <==> r == LiveRun(i, 0, StartPhase(rows, 0)) {}
  }

  lemma PicksIt(row: Row, now: int, locked: set<nat>)
    requires Claimable(row, now) && locked == {}
    ensures Pick([row], now, locked, 1) == [0]
  {
    assert Eligible([row], now, locked, 0) == [];
    assert Eligible([row], now, locked, 1) == [0];
  }

  /** The only order, unclaimed and claimable. */
  predicate Free(s: State) {
    && s.claims == map[] && |s.rows| == 1
    && Claimable(s.rows[0], s.now) && !s.rows[0].status.Compensating?
  }

  lemma SelectIt(acts0: seq<Action>, s: State, i: Instance) returns (acts: seq<Action>)
    requires IsRun(OneOrder(), acts0) && s == After(OneOrder(), acts0) && Free(s)
    ensures IsRun(OneOrder(), acts) && After(OneOrder(), acts) == s.(claims := map[i := [0]])
  {
    var t;
    assert Locked(s) == {} && s.rows == [s.rows[0]];
    PicksIt(s.rows[0], s.now, Locked(s));
    acts, t := Push(acts0, Select(i, 1));
    assert map[][i := [0 as nat]] == map[i := [0]];
  }

  lemma CommitIt(acts0: seq<Action>, s: State, i: Instance) returns (acts: seq<Action>, t: State)
    requires IsRun(OneOrder(), acts0) && Free(s) && After(OneOrder(), acts0) == s.(claims := map[i := [0]])
    ensures IsRun(OneOrder(), acts) && t == After(OneOrder(), acts)
    ensures t == s.(rows := [Row(InProgress, Some(i), Some(s.now + s.ttl))],
                    live := s.live + {LiveRun(i, 0, Forward)})
  {
    acts, t := Push(acts0, Commit(i));
    StartedOne(s.rows, i);
    assert [0 as nat][0] == 0;
    assert t.rows == [Row(InProgress, Some(i), Some(s.now + s.ttl))];
    assert t.claims == map[];
  }

  /** Select and commit the only order, as instance i. */
  lemma ClaimIt(acts0: seq<Action>, s: State, i: Instance) returns (acts: seq<Action>, t: State)
    requires IsRun(OneOrder(), acts0) && s == After(OneOrder(), acts0) && Free(s)
    ensures IsRun(OneOrder(), acts) && t == After(OneOrder(), acts)
    ensures t == s.(rows := [Row(InProgress, Some(i), Some(s.now + s.ttl))],
                    live := s.live + {LiveRun(i, 0, Forward)})
  {
    acts := SelectIt(acts0, s, i);
    acts, t := CommitIt(acts, s, i);
  }

  /** A claims the order, stalls past its lease, and B claims it. */
  lemma Stall() returns (acts: seq<Action>, t: State)
    ensures IsRun(OneOrder(), acts) && t == After(OneOrder(), acts)
    ensures t.rows == [Row(InProgress, Some(B), Some(3))] && t.claims == map[]
    ensures LiveRun(A, 0, Forward) in t.live && LiveRun(B, 0, Forward) in t.live
  {
    acts, t := ClaimIt([], OneOrder(), A);
    acts, t := Push(acts, Tick(2));
    acts, t := ClaimIt(acts, t, B);
  }

  /** B brings the order to NEEDS_ATTENTION while A's run is still alive. */
  lemma NeedsHelpWhileStalled() returns (acts: seq<Action>, t: State)
    ensures IsRun(OneOrder(), acts) && t == After(OneOrder(), acts)
    ensures t.rows == [Row(NeedsAttention, None, None)] && t.claims == map[] && LiveRun(A, 0, Forward) in t.live
  {
    assert A != B by { assert A[6] != B[6]; }
    acts, t := Stall();
    assert Locked(t) == {};
    acts, t := Push(acts, Write(B, 0, Compensating, false));
    assert Locked(t) == {};
    acts, t := Push(acts, Write(B, 0, NeedsAttention, false));
  }

  /** If a human retries the order on A while A's stalled run is alive, that run passes the
      fence with the token of its own process and moves the order from COMPENSATING to
      PLACED: the lifecycle holds only with one live run per instance and order. */
  lemma ZombiePlacesCompensatingOrder() returns (acts: seq<Action>, a: Action)
    ensures Init(OneOrder()) && IsRun(OneOrder(), acts) && Enabled(After(OneOrder(), acts), a)
    ensures |After(OneOrder(), acts).rows| == |Next(After(OneOrder(), acts), a).rows| == 1
    ensures After(OneOrder(), acts).rows[0].status == Compensating
    ensures Next(After(OneOrder(), acts), a).rows[0].status == Placed
    ensures Misplaced(After(OneOrder(), acts), a, 0)
  {
    var t;
    acts, t := NeedsHelpWhileStalled();
    assert Locked(t) == {};
    acts, t := Push(acts, Retry(A, 0));
    assert Locked(t) == {};
    a := Write(A, 0, Placed, false);
  }
}
