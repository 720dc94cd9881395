/** Claims, leases and fenced status writes on `saga_orders`
    (services/coordinator/src/repository.ts, services/coordinator/src/queries.ts): any number
    of coordinator instances over one table, row locks, and a clock that only moves forward.
    Superseded runs keep stepping; nothing here assumes that they stop. */
module Leases {
  import opened Vocabulary

  /** The fencing token: one per process. */
  type Instance = string

  datatype Row = Row(status: OrderStatus, owner: Option<Instance>, expiresAt: Option<int>)

  // ---- The SQL statements ---------------------------------------------------

  /** The WHERE clause of the claim query. A NULL expiry is never in the past. */
  predicate Claimable(row: Row, now: int) {
    || row.status.Pending?
    || ((row.status.InProgress? || row.status.Compensating?) && row.expiresAt.Some? && row.expiresAt.value < now)
  }

  /** The claimable, unlocked ids below n, in id order. */
  function Eligible(rows: seq<Row>, now: int, locked: set<nat>, n: nat): seq<nat>
    requires n <= |rows|
  {
    if n == 0 then []
    else
      var ids := Eligible(rows, now, locked, n - 1);
      if Claimable(rows[n - 1], now) && n - 1 !in locked then ids + [n - 1] else ids
  }

  /** SELECT ... ORDER BY id LIMIT ? FOR UPDATE SKIP LOCKED. */
  function Pick(rows: seq<Row>, now: int, locked: set<nat>, limit: nat): seq<nat> {
    var ids := Eligible(rows, now, locked, |rows|);
    if |ids| <= limit then ids else ids[..limit]
  }

  function StampRow(row: Row, instance: Instance, expiry: int): Row {
    Row(if row.status.Compensating? then Compensating else InProgress, Some(instance), Some(expiry))
  }

  /** UPDATE ... WHERE id IN (ids). */
  function Stamp(rows: seq<Row>, ids: seq<nat>, instance: Instance, expiry: int): seq<Row> {
    seq(|rows|, n requires 0 <= n < |rows| => if n in ids then StampRow(rows[n], instance, expiry) else rows[n])
  }

  predicate Owns(rows: seq<Row>, id: nat, instance: Instance) {
    id < |rows| && rows[id].owner == Some(instance)
  }

  function Renew(rows: seq<Row>, id: nat, instance: Instance, expiry: int): seq<Row> {
    if Owns(rows, id, instance) then rows[id := rows[id].(expiresAt := Some(expiry))] else rows
  }

  function SetStatus(rows: seq<Row>, id: nat, instance: Instance, status: OrderStatus, clear: bool): seq<Row> {
    if !Owns(rows, id, instance) then rows
    else if clear then rows[id := Row(status, None, None)]
    else rows[id := rows[id].(status := status)]
  }

  function ClaimForRetry(rows: seq<Row>, id: nat, instance: Instance, expiry: int): seq<Row> {
    if id < |rows| && rows[id].status.NeedsAttention?
    then rows[id := Row(Compensating, Some(instance), Some(expiry))]
    else rows
  }

  function MarkShipped(rows: seq<Row>, id: nat): seq<Row> {
    if id < |rows| && rows[id].status.Placed? then rows[id := rows[id].(status := Shipped)] else rows
  }

  // ---- The machine ------------------------------------------------------------

  /** Where a run stands: still free to place the order, or compensating. */
  datatype Phase = Forward | Undoing

  datatype LiveRun = LiveRun(i: Instance, id: nat, phase: Phase)

  /** `ttl` is the configured lease time. `claims` holds the ids each instance's open claim
      transaction has selected and locked; `live` the kinds of run that may still write:
      an instance may have a forward and an undoing run of one order, and several of each. */
  datatype State = State(
    ttl: nat,
    now: int,
    rows: seq<Row>,
    claims: map<Instance, seq<nat>>,
    live: set<LiveRun>)

  /** A `Write` is a run's status write; `twin` says that another run of the same kind is
      still there when the writer has moved on. */
  datatype Action =
    | Select(i: Instance, limit: nat)
    | Commit(i: Instance)
    | Abort(i: Instance)
    | Heartbeat(i: Instance, id: nat, phase: Phase)
    | Write(i: Instance, id: nat, status: OrderStatus, twin: bool)
    | Retry(i: Instance, id: nat)
    | Ship(id: nat)
    | End(r: LiveRun)
    | Tick(elapsed: nat)

  function Locked(s: State): set<nat> {
    set i, id | i in s.claims && id in s.claims[i] :: id
  }

  /** The writes runSaga makes: PLACED or COMPENSATING from its forward phase, the two
      endings from its compensation phase. */
  predicate IsWrite(status: OrderStatus) {
    status.Placed? || status.Compensating? || status.Cancelled? || status.NeedsAttention?
  }

  function WriterPhase(status: OrderStatus): Phase {
    if status.Placed? || status.Compensating? then Forward else Undoing
  }

  predicate Enabled(s: State, a: Action) {
    match a
    case Select(i, _) => i !in s.claims
    case Commit(i) => i in s.claims
    case Abort(i) => i in s.claims
    case Heartbeat(i, id, phase) => LiveRun(i, id, phase) in s.live && id !in Locked(s)
    case Write(i, id, status, _) => IsWrite(status) && LiveRun(i, id, WriterPhase(status)) in s.live && id !in Locked(s)
    case Retry(_, id) => id !in Locked(s)
    case Ship(id) => id !in Locked(s)
    case End(r) => r in s.live
    case Tick(_) => true
  }

  /** The runs a claim starts: an order claimed COMPENSATING resumes its rollback. */
  function Started(rows: seq<Row>, i: Instance, ids: seq<nat>): set<LiveRun> {
    set id | id in ids :: LiveRun(i, id, StartPhase(rows, id))
  }

  function StartPhase(rows: seq<Row>, id: nat): Phase {
    if id < |rows| && rows[id].status.Compensating? then Undoing else Forward
  }

  function Next(s: State, a: Action): State requires Enabled(s, a) {
    match a
    case Select(i, limit) => s.(claims := s.claims[i := Pick(s.rows, s.now, Locked(s), limit)])
    case Commit(i) =>
      s.(rows := Stamp(s.rows, s.claims[i], i, s.now + s.ttl),
         claims := s.claims - {i},
         live := s.live + Started(s.rows, i, s.claims[i]))
    case Abort(i) => s.(claims := s.claims - {i})
    case Heartbeat(i, id, _) => s.(rows := Renew(s.rows, id, i, s.now + s.ttl))
    case Write(i, id, status, twin) =>
      s.(rows := SetStatus(s.rows, id, i, status, !status.Compensating?),
         live := s.live - (if twin then {} else {LiveRun(i, id, WriterPhase(status))}) +
                 (if status.Compensating? then {LiveRun(i, id, Undoing)} else {}))
    case Retry(i, id) =>
      s.(rows := ClaimForRetry(s.rows, id, i, s.now + s.ttl),
         live := s.live + if id < |s.rows| && s.rows[id].status.NeedsAttention? then {LiveRun(i, id, Undoing)} else {})
    case Ship(id) => s.(rows := MarkShipped(s.rows, id))
    case End(r) => s.(live := s.live - {r})
    case Tick(elapsed) => s.(now := s.now + elapsed)
  }

  predicate IsRun(s: State, acts: seq<Action>) decreases |acts|, 0 {
    acts == [] ||
    (IsRun(s, acts[..|acts| - 1]) && Enabled(After(s, acts[..|acts| - 1]), acts[|acts| - 1]))
  }

  function After(s: State, acts: seq<Action>): State requires IsRun(s, acts) decreases |acts|, 1 {
    if acts == [] then s else Next(After(s, acts[..|acts| - 1]), acts[|acts| - 1])
  }

  /** A freshly ingested table. */
  predicate Init(s: State) {
    && s.claims == map[] && s.live == {}
    && forall id :: 0 <= id < |s.rows| ==> s.rows[id] == Row(Pending, None, None)
  }

  lemma RunSnoc(s: State, acts: seq<Action>, a: Action)
    requires IsRun(s, acts) && Enabled(After(s, acts), a)
    ensures IsRun(s, acts + [a]) && After(s, acts + [a]) == Next(After(s, acts), a)
  {
    assert (acts + [a])[..|acts + [a]| - 1] == acts;
  }
}
