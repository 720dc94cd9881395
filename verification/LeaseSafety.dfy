/** What the guards on `saga_orders` enforce on every run, zombies included. */
module LeaseSafety {
  import opened Vocabulary
  import opened Leases

  // ---- Picking ----------------------------------------------------------------

  /** Nobody works on the order, or whoever did let the lease expire: a fresh order, or one that
      was left IN_PROGRESS or COMPENSATING. */
  predicate Abandoned(row: Row, now: int) {
    match row.status
    case Pending => true
    case InProgress => row.expiresAt.Some? && row.expiresAt.value < now
    case Compensating => row.expiresAt.Some? && row.expiresAt.value < now
    case _ => false
  }

  lemma {:induction false} EligibleExact(rows: seq<Row>, now: int, locked: set<nat>, n: nat)
    requires n <= |rows|
    ensures var ids := Eligible(rows, now, locked, n);
      && (forall id :: id in ids <==> 0 <= id < n && Abandoned(rows[id], now) && id !in locked)
      && (forall k, l :: 0 <= k < l < |ids| ==> ids[k] < ids[l])
  {
    if n > 0 {
      EligibleExact(rows, now, locked, n - 1);
      var before := Eligible(rows, now, locked, n - 1);
      assert forall k :: 0 <= k < |before| ==> before[k] in before;
    }
  }

  /** The claim query returns at most `limit` rows, each abandoned and unlocked, in id order and
      without repeats; and it passes over an abandoned unlocked row only when the limit is
      reached by rows before it. */
  lemma PickExact(rows: seq<Row>, now: int, locked: set<nat>, limit: nat)
    ensures var ids := Pick(rows, now, locked, limit);
      && |ids| <= limit
      && (forall id <- ids :: id < |rows| && Abandoned(rows[id], now) && id !in locked)
      && (forall k, l :: 0 <= k < l < |ids| ==> ids[k] < ids[l])
      && (forall id: nat | id < |rows| && Abandoned(rows[id], now) && id !in locked && id !in ids ::
            |ids| == limit && forall other <- ids :: other < id)
  {
    EligibleExact(rows, now, locked, |rows|);
    var all, ids := Eligible(rows, now, locked, |rows|), Pick(rows, now, locked, limit);
    assert ids == all[..|ids|];
    assert forall id <- ids :: id in all;
    forall id: nat | id < |rows| && Abandoned(rows[id], now) && id !in locked && id !in ids
      ensures |ids| == limit && forall other <- ids :: other < id
    {
      assert id in all;
      var k :| 0 <= k < |all| && all[k] == id;
      assert forall m :: 0 <= m < |ids| ==> ids[m] in ids && all[m] == ids[m];
    }
  }

  lemma LockedIff(s: State, id: nat)
    ensures id in Locked(s) <==> exists i <- s.claims :: id in s.claims[i]
  {
  }

  // ---- The invariant ------------------------------------------------------------

  predicate Active(status: OrderStatus) {
    status.InProgress? || status.Compensating?
  }

  /** Exactly the orders being worked on have an owner, and exactly those have an expiry,
      never further ahead than one lease time. */
  predicate Coupled(s: State, row: Row) {
    && (Active(row.status) <==> row.owner.Some?)
    && (row.owner.Some? <==> row.expiresAt.Some?)
    && (row.expiresAt.Some? ==> row.expiresAt.value <= s.now + s.ttl)
  }

  ghost predicate RowsOk(s: State) {
    forall id :: 0 <= id < |s.rows| ==> Coupled(s, s.rows[id])
  }

  /** Open claim transactions hold disjoint sets of rows that stay claimable. */
  ghost predicate ClaimsOk(s: State) {
    && (forall i, id | i in s.claims && id in s.claims[i] :: StillClaimable(s, id))
    && (forall i, j, id | i in s.claims && j in s.claims && id in s.claims[i] && i != j :: id !in s.claims[j])
  }

  predicate StillClaimable(s: State, id: nat) {
    id < |s.rows| && Abandoned(s.rows[id], s.now)
  }

  ghost predicate Inv(s: State) {
    RowsOk(s) && ClaimsOk(s)
  }

  lemma RowsStep(s: State, a: Action)
    requires Inv(s) && Enabled(s, a)
    ensures RowsOk(Next(s, a))
  {
  }

  lemma SelectClaims(s: State, a: Action)
    requires Inv(s) && Enabled(s, a) && a.Select?
    ensures ClaimsOk(Next(s, a))
  {
    var t := Next(s, a);
    PickExact(s.rows, s.now, Locked(s), a.limit);
    forall j, id | j in s.claims && id in s.claims[j] ensures id !in t.claims[a.i] {
      LockedIff(s, id);
    }
    forall j, id | j in t.claims && id in t.claims[j] ensures StillClaimable(t, id) {
      if j != a.i { assert StillClaimable(s, id); }
    }
  }

  lemma CommitClaims(s: State, a: Action)
    requires Inv(s) && Enabled(s, a) && a.Commit?
    ensures ClaimsOk(Next(s, a))
  {
    var t := Next(s, a);
    forall j, id | j in t.claims && id in t.claims[j] ensures StillClaimable(t, id) {
      assert StillClaimable(s, id) && id !in s.claims[a.i];
      assert t.rows[id] == s.rows[id];
    }
  }

  lemma RowClaims(s: State, a: Action)
    requires Inv(s) && Enabled(s, a) && (a.Heartbeat? || a.Write? || a.Retry? || a.Ship?)
    ensures ClaimsOk(Next(s, a))
  {
    var t := Next(s, a);
    forall j, id | j in t.claims && id in t.claims[j] ensures StillClaimable(t, id) {
      LockedIff(s, id);
      assert StillClaimable(s, id);
      assert t.rows[id] == s.rows[id];
    }
  }

  lemma ClockClaims(s: State, a: Action)
    requires Inv(s) && Enabled(s, a) && (a.Tick? || a.Abort? || a.End?)
    ensures ClaimsOk(Next(s, a))
  {
    var t := Next(s, a);
    forall j, id | j in t.claims && id in t.claims[j] ensures StillClaimable(t, id) {
      assert StillClaimable(s, id);
    }
  }

  lemma Keeps(s: State, a: Action)
    requires Inv(s) && Enabled(s, a)
    ensures Inv(Next(s, a))
  {
    RowsStep(s, a);
    match a
    case Select(_, _) => SelectClaims(s, a);
    case Commit(_) => CommitClaims(s, a);
    case Abort(_) => ClockClaims(s, a);
    case Tick(_) => ClockClaims(s, a);
    case End(_) => ClockClaims(s, a);
    case _ => RowClaims(s, a);
  }

  lemma {:induction false} RunKeeps(s: State, acts: seq<Action>)
    requires Init(s) && IsRun(s, acts)
    ensures Inv(After(s, acts)) && |After(s, acts).rows| == |s.rows|
    decreases |acts|
  {
    if acts != [] {
      RunKeeps(s, acts[..|acts| - 1]);
      Keeps(After(s, acts[..|acts| - 1]), acts[|acts| - 1]);
    }
  }

  // ---- What a step may do to a row ------------------------------------------------

  /** Which action changes which row how, whoever runs it. */
  predicate Allowed(a: Action, id: nat, x: Row, y: Row) {
    || y == x
    || match a
       case Commit(i) => (x.status.Pending? || Active(x.status)) && y.owner == Some(i) &&
                         y.status == if x.status.Compensating? then Compensating else InProgress
       case Heartbeat(i, n, _) => n == id && x.owner == Some(i) && y == x.(expiresAt := y.expiresAt)
       case Write(i, n, status, _) => n == id && x.owner == Some(i) && Active(x.status) && y.status == status
       case Retry(i, n) => n == id && x.status.NeedsAttention? && y.status.Compensating? && y.owner == Some(i)
       case Ship(n) => n == id && x.status.Placed? && y.status.Shipped?
       case _ => false
  }

  lemma StepAllowed(s: State, a: Action, id: nat)
    requires Inv(s) && Enabled(s, a) && id < |s.rows|
    ensures |Next(s, a).rows| == |s.rows| && Allowed(a, id, s.rows[id], Next(s, a).rows[id])
  {
    assert Coupled(s, s.rows[id]);
    if a.Commit? && id in s.claims[a.i] {
      assert StillClaimable(s, id);
    }
  }

  /** Lease/status coupling on every run, zombies included: the statuses being worked on
      are exactly the owned ones. Hence a row that is CANCELLED or SHIPPED never changes
      again, PLACED is left only by markShipped, NEEDS_ATTENTION only by a winning
      claimForRetry, and PENDING only by a claim. */
  lemma Coupling(s: State, acts: seq<Action>, a: Action, id: nat)
    requires Init(s) && IsRun(s, acts) && Enabled(After(s, acts), a) && id < |s.rows|
    ensures var t := After(s, acts);
      && id < |t.rows| && id < |Next(t, a).rows|
      && var x, y := t.rows[id], Next(t, a).rows[id];
      && (Active(x.status) <==> x.owner.Some?) && (Active(x.status) <==> x.expiresAt.Some?)
      && (x.status.Cancelled? || x.status.Shipped? ==> y == x)
      && (x.status.Placed? && y != x ==> a == Ship(id) && y == Row(Shipped, None, None))
      && (x.status.NeedsAttention? && y != x ==>
            a.Retry? && a.id == id && y.status.Compensating? && y.owner == Some(a.i))
      && (x.status.Pending? && y != x ==> a.Commit? && id in t.claims[a.i] && y.status.InProgress?)
  {
    var t := After(s, acts);
    RunKeeps(s, acts);
    StepAllowed(t, a, id);
    Keeps(t, a);
    assert Coupled(t, t.rows[id]) && Coupled(Next(t, a), Next(t, a).rows[id]);
  }

  /** Concurrent claiming: while any number of claim transactions are open, the ids they
      return are in range, claimable, and in no two of them; and a statement of a saga run,
      a retry or a ship waits for the row. */
  lemma DisjointClaims(s: State, acts: seq<Action>, i: Instance, j: Instance, id: nat)
    requires Init(s) && IsRun(s, acts)
    requires var t := After(s, acts); i in t.claims && j in t.claims && id in t.claims[i] && id in t.claims[j]
    ensures i == j && StillClaimable(After(s, acts), id)
    ensures forall a: Action | (a.Heartbeat? || a.Write? || a.Retry? || a.Ship?) && a.id == id ::
              !Enabled(After(s, acts), a)
  {
    var t := After(s, acts);
    RunKeeps(s, acts);
    assert StillClaimable(t, id);
    LockedIff(t, id);
  }

  // ---- The fence ------------------------------------------------------------------

  predicate WinsRetry(s: State, a: Action, id: nat) {
    a.Retry? && a.id == id && id < |s.rows| && s.rows[id].status.NeedsAttention?
  }

  /** The two ways in which an instance comes to own an order. */
  predicate Acquires(s: State, a: Action, id: nat, i: Instance) {
    || (a == Commit(i) && i in s.claims && id in s.claims[i])
    || (WinsRetry(s, a, id) && a.i == i)
  }

  /** From step n on the instance does not come to own the order. */
  predicate NeverAcquires(s: State, acts: seq<Action>, n: nat, id: nat, i: Instance)
    requires IsRun(s, acts)
    decreases |acts|
  {
    |acts| <= n ||
    var before, a := acts[..|acts| - 1], acts[|acts| - 1];
    NeverAcquires(s, before, n, id, i) && !Acquires(After(s, before), a, id, i)
  }

  lemma LostStays(s: State, a: Action, id: nat, i: Instance)
    requires Inv(s) && Enabled(s, a) && id < |s.rows|
    requires s.rows[id].owner != Some(i) && !Acquires(s, a, id, i)
    ensures id < |Next(s, a).rows| && Next(s, a).rows[id].owner != Some(i)
    ensures (a.Heartbeat? || a.Write?) && a.i == i ==> Next(s, a).rows[id] == s.rows[id]
  {
    StepAllowed(s, a, id);
  }

  /** The lease is a fence: from the moment an instance has lost an order until it claims or
      retries it again, however many runs of it keep stepping, it does not own the order and
      none of its heartbeats and status writes changes the row. */
  lemma {:induction false} Fenced(s: State, acts: seq<Action>, n: nat, id: nat, i: Instance, a: Action)
    requires Init(s) && IsRun(s, acts) && n <= |acts| && IsRun(s, acts[..n])
    requires id < |After(s, acts[..n]).rows| && After(s, acts[..n]).rows[id].owner != Some(i)
    requires NeverAcquires(s, acts, n, id, i)
    requires Enabled(After(s, acts), a) && (a.Heartbeat? || a.Write?) && a.i == i
    ensures id < |After(s, acts).rows| && After(s, acts).rows[id].owner != Some(i)
    ensures id < |Next(After(s, acts), a).rows| && Next(After(s, acts), a).rows[id] == After(s, acts).rows[id]
  {
    RunKeeps(s, acts);
    LostUntilAcquired(s, acts, n, id, i);
    LostStays(After(s, acts), a, id, i);
  }

  lemma {:induction false} LostUntilAcquired(s: State, acts: seq<Action>, n: nat, id: nat, i: Instance)
    requires Init(s) && IsRun(s, acts) && n <= |acts| && IsRun(s, acts[..n])
    requires id < |After(s, acts[..n]).rows| && After(s, acts[..n]).rows[id].owner != Some(i)
    requires NeverAcquires(s, acts, n, id, i)
    ensures id < |After(s, acts).rows| && After(s, acts).rows[id].owner != Some(i)
    decreases |acts|
  {
    if n < |acts| {
      var before := acts[..|acts| - 1];
      assert before[..n] == acts[..n];
      LostUntilAcquired(s, before, n, id, i);
      RunKeeps(s, before);
      LostStays(After(s, before), acts[|acts| - 1], id, i);
    } else {
      assert acts[..n] == acts;
    }
  }

  /** The order is held by i until at least `until`, and in no open claim but i's own. */
  predicate HeldUntil(s: State, id: nat, i: Instance, until: int) {
    && Owns(s.rows, id, i)
    && s.rows[id].expiresAt.Some? && until <= s.rows[id].expiresAt.value
    && id !in Locked(s)
  }

  lemma HeldStep(s: State, a: Action, id: nat, i: Instance, until: int)
    requires Inv(s) && Enabled(s, a) && HeldUntil(s, id, i, until) && Next(s, a).now <= until
    requires a.Write? && a.id == id && a.i == i ==> a.status.Compensating?
    ensures HeldUntil(Next(s, a), id, i, until)
  {
    var t := Next(s, a);
    assert Coupled(s, s.rows[id]);
    LockedIff(s, id);
    LockedIff(t, id);
    if a.Select? {
      PickExact(s.rows, s.now, Locked(s), a.limit);
    }
  }

  /** The step gives the instance a lease of the order, or renews the one it has. */
  predicate GrantsLease(s: State, a: Action, id: nat) {
    || (a.Commit? && Acquires(s, a, id, a.i))
    || (a.Retry? && Acquires(s, a, id, a.i))
    || (a.Heartbeat? && a.id == id && Owns(s.rows, id, a.i))
  }

  /** A claim, a winning retry and the owner's heartbeat each hold the order for a full
      lease time from now. */
  lemma LeaseBegins(s: State, acts: seq<Action>, a: Action, id: nat)
    requires Init(s) && IsRun(s, acts) && Enabled(After(s, acts), a) && GrantsLease(After(s, acts), a, id)
    ensures var t := After(s, acts); HeldUntil(Next(t, a), id, a.i, t.now + t.ttl)
  {
    var t := After(s, acts);
    RunKeeps(s, acts);
    LockedIff(t, id);
    LockedIff(Next(t, a), id);
    if a.Commit? {
      assert StillClaimable(t, id);
    }
  }

  /** From step n on the holder itself writes no final status to the order. */
  predicate NotFinished(acts: seq<Action>, n: nat, id: nat, i: Instance) {
    forall k :: n <= k < |acts| && acts[k].Write? && acts[k].id == id && acts[k].i == i ==>
      acts[k].status.Compensating?
  }

  lemma ClockForward(s: State, a: Action)
    requires Enabled(s, a)
    ensures s.now <= Next(s, a).now
  {
  }

  lemma HeldOn(s: State, before: seq<Action>, a: Action, id: nat, i: Instance, until: int)
    requires Init(s) && IsRun(s, before) && Enabled(After(s, before), a)
    requires HeldUntil(After(s, before), id, i, until) && Next(After(s, before), a).now <= until
    requires a.Write? && a.id == id && a.i == i ==> a.status.Compensating?
    ensures HeldUntil(Next(After(s, before), a), id, i, until)
  {
    RunKeeps(s, before);
    HeldStep(After(s, before), a, id, i, until);
  }

  /** A stamped or renewed order is returned to no other claim before its lease expires:
      if i holds it until `until`, then in every run that has not passed `until`, and in
      which i itself writes no final status to the order, i still holds it at least that
      long. What any other instance tries to write makes no difference. */
  lemma {:induction false} LeaseHolds(s: State, acts: seq<Action>, n: nat, id: nat, i: Instance, until: int)
    requires Init(s) && IsRun(s, acts) && n <= |acts| && IsRun(s, acts[..n])
    requires HeldUntil(After(s, acts[..n]), id, i, until)
    requires After(s, acts).now <= until
    requires NotFinished(acts, n, id, i)
    ensures HeldUntil(After(s, acts), id, i, until)
    decreases |acts|
  {
    if n < |acts| {
      var before, a := acts[..|acts| - 1], acts[|acts| - 1];
      assert before[..n] == acts[..n];
      ClockForward(After(s, before), a);
      LeaseHolds(s, before, n, id, i, until);
      HeldOn(s, before, a, id, i, until);
    } else {
      assert acts[..n] == acts;
    }
  }

  // ---- One winning retry per episode ------------------------------------------------

  function Retries(s: State, acts: seq<Action>, id: nat): nat requires IsRun(s, acts) decreases |acts| {
    if acts == [] then 0
    else
      var before, a := acts[..|acts| - 1], acts[|acts| - 1];
      Retries(s, before, id) + if WinsRetry(After(s, before), a, id) then 1 else 0
  }

  /** How often the order became NEEDS_ATTENTION. */
  function Episodes(s: State, acts: seq<Action>, id: nat): nat
    requires IsRun(s, acts) && id < |s.rows|
    decreases |acts|
  {
    if acts == [] then 0
    else
      var before, a := acts[..|acts| - 1], acts[|acts| - 1];
      Episodes(s, before, id) +
      if NeedsHelp(Next(After(s, before), a), id) && !NeedsHelp(After(s, before), id) then 1 else 0
  }

  predicate NeedsHelp(s: State, id: nat) {
    id < |s.rows| && s.rows[id].status.NeedsAttention?
  }

  /** However many people press Retry on however many instances, each episode of
      NEEDS_ATTENTION is ended by exactly one winning claimForRetry. */
  lemma {:induction false} OneRetryPerEpisode(s: State, acts: seq<Action>, id: nat)
    requires Init(s) && IsRun(s, acts) && id < |s.rows|
    ensures Episodes(s, acts, id) == Retries(s, acts, id) + if NeedsHelp(After(s, acts), id) then 1 else 0
    decreases |acts|
  {
    if acts != [] {
      var before, a := acts[..|acts| - 1], acts[|acts| - 1];
      OneRetryPerEpisode(s, before, id);
      RunKeeps(s, before);
      StepAllowed(After(s, before), a, id);
    }
  }

  // ---- Abandoned orders are resumed ---------------------------------------------------

  /** The runs a claim starts, by the status the claimed order had. */
  predicate Resumes(s: State, t: State, i: Instance, id: nat) requires id < |s.rows| && id < |t.rows| {
    if s.rows[id].status.Compensating?
    then t.rows[id].status.Compensating? && LiveRun(i, id, Undoing) in t.live
    else t.rows[id].status.InProgress? && LiveRun(i, id, Forward) in t.live
  }

  lemma ClaimResumes(s: State, i: Instance, limit: nat, id: nat)
    requires Inv(s) && i !in s.claims && id !in Locked(s) && id < |s.rows| <= limit && Abandoned(s.rows[id], s.now)
    ensures Enabled(s, Select(i, limit)) && Enabled(Next(s, Select(i, limit)), Commit(i))
    ensures var t := Next(Next(s, Select(i, limit)), Commit(i));
      && id < |t.rows| && Owns(t.rows, id, i) && t.rows[id].expiresAt == Some(s.now + s.ttl)
      && Resumes(s, t, i, id)
  {
    var ids := Pick(s.rows, s.now, Locked(s), limit);
    PickExact(s.rows, s.now, Locked(s), limit);
    if id !in ids {
      PickedBelow(ids, id);
    }
    var mid := Next(s, Select(i, limit));
    assert mid.claims[i] == ids && mid.rows == s.rows;
    assert LiveRun(i, id, StartPhase(s.rows, id)) in Started(s.rows, i, ids);
  }

  lemma {:induction false} PickedBelow(ids: seq<nat>, n: nat)
    requires forall k, l :: 0 <= k < l < |ids| ==> ids[k] < ids[l]
    requires forall id <- ids :: id < n
    ensures |ids| <= n
  {
    if ids != [] {
      var last := |ids| - 1;
      assert ids[last] in ids;
      PickedBelow(ids[..last], ids[last]);
    }
  }

  /** No order is stuck with a dead coordinator: in every state of every run, once a lease time
      has passed with nobody renewing, a claim of any instance owns every unlocked order that
      was PENDING, IN_PROGRESS or COMPENSATING, and resumes it in the phase its status says:
      a rollback goes on as a rollback. */
  lemma DeadOrdersResume(s: State, acts: seq<Action>, i: Instance, limit: nat, id: nat)
    requires Init(s) && IsRun(s, acts) && id < |s.rows| <= limit
    requires i !in After(s, acts).claims && id !in Locked(After(s, acts))
    ensures var t := After(s, acts); var w := Next(t, Tick(t.ttl + 1));
      && id < |t.rows| && Enabled(w, Select(i, limit)) && Enabled(Next(w, Select(i, limit)), Commit(i))
      && var u := Next(Next(w, Select(i, limit)), Commit(i));
      && id < |u.rows|
      && (t.rows[id].status.Pending? || t.rows[id].status.InProgress? || t.rows[id].status.Compensating? ==>
            Owns(u.rows, id, i) && Resumes(t, u, i, id))
  {
    var t := After(s, acts);
    RunKeeps(s, acts);
    var w := Next(t, Tick(t.ttl + 1));
    Keeps(t, Tick(t.ttl + 1));
    assert Locked(w) == Locked(t);
    assert Coupled(t, t.rows[id]);
    if t.rows[id].status.Pending? || Active(t.rows[id].status) {
      ClaimResumes(w, i, limit, id);
    }
  }

  // ---- Each order is shipped once -------------------------------------------------------

  predicate IsShipped(s: State, id: nat) {
    id < |s.rows| && s.rows[id].status.Shipped?
  }

  /** How many calls of markShipped found the order PLACED, and so answered true. */
  function Ships(s: State, acts: seq<Action>, id: nat): nat requires IsRun(s, acts) decreases |acts| {
    if acts == [] then 0
    else
      var before, a := acts[..|acts| - 1], acts[|acts| - 1];
      var t := After(s, before);
      Ships(s, before, id) + if a == Ship(id) && id < |t.rows| && t.rows[id].status.Placed? then 1 else 0
  }

  /** An order is SHIPPED exactly when one call has answered true, and no two ever do. */
  lemma {:induction false} ShippedOnce(s: State, acts: seq<Action>, id: nat)
    requires Init(s) && IsRun(s, acts) && id < |s.rows|
    ensures Ships(s, acts, id) == if IsShipped(After(s, acts), id) then 1 else 0
    decreases |acts|
  {
    if acts != [] {
      var before, a := acts[..|acts| - 1], acts[|acts| - 1];
      ShippedOnce(s, before, id);
      RunKeeps(s, before);
      StepAllowed(After(s, before), a, id);
      assert Coupled(After(s, before), After(s, before).rows[id]);
    }
  }
}
