/** `runIdempotent` (packages/shared/src/idempotency.ts) as a step machine: any number
    of callers, each a program counter over the function's statements, sharing one
    service database and one cache. Every SQL statement is one atomic step on the
    committed tables; a transaction's writes stay with its caller, under row locks,
    until COMMIT. */
module Idempotency {
  import opened Vocabulary

  /** The two operations a service offers on an order's domain row. */
  datatype Op = Do | Undo

  /** The idempotency key. `Vocabulary.KeyInjective` is why a pair may stand for the string. */
  datatype Key = Key(order: OrderId, op: Op)

  /** CHARGED/REFUNDED, CREATED/CANCELLED: every service's domain row has two states. */
  datatype RowStatus = Done | Undone

  datatype Response = Response(key: Key, payload: int, changed: bool)

  /** A row of `idempotency_records`. `owner` is a history variable: the caller whose
      claim the row is. No statement reads it. */
  datatype Record = InProgress(createdAt: int, owner: nat) | Completed(response: Response)

  /** The service's committed tables, its cache, and the history of committed work. */
  datatype Db = Db(
    now: int,
    records: map<Key, Record>,
    rows: map<OrderId, RowStatus>,
    cache: map<Key, Response>,
    log: seq<Response>)

  datatype Pc =
    | CacheGet | Insert | Select | Takeover
    | Begin | Work | Complete(response: Response) | Commit(response: Response, hit: bool)
    | CacheSet(response: Response, replayed: bool)
    | Rollback | Release
    | Returned(response: Response, replayed: bool) | Threw | Crashed

  datatype Caller = Caller(key: Key, payload: int, staleAfter: nat, pc: Pc)

  datatype State = State(db: Db, callers: seq<Caller>)

  // ---- The SQL statements ---------------------------------------------------

  /** INSERT ... 'IN_PROGRESS': a duplicate key changes nothing. */
  function InsertClaim(db: Db, key: Key, owner: nat): Db {
    if key in db.records then db else db.(records := db.records[key := Record.InProgress(db.now, owner)])
  }

  /** Whether the takeover UPDATE matches the row. */
  predicate Stale(db: Db, key: Key, staleAfter: nat) {
    key in db.records && db.records[key].InProgress? && db.records[key].createdAt < db.now - staleAfter
  }

  function TakeOver(db: Db, key: Key, staleAfter: nat, owner: nat): Db {
    if Stale(db, key, staleAfter) then db.(records := db.records[key := Record.InProgress(db.now, owner)]) else db
  }

  /** The plain INSERT of a forward handler throws on the UNIQUE order id. */
  predicate HandlerThrows(db: Db, key: Key) {
    key.op.Do? && key.order in db.rows
  }

  /** What the handler returns: an INSERT always changes a row, the guarded UPDATE of a
      compensation only when the row is still in its done state. */
  function HandlerResult(db: Db, key: Key, payload: int): Response {
    Response(key, payload, key.op.Do? || (key.order in db.rows && db.rows[key.order].Done?))
  }

  function HandlerRows(rows: map<OrderId, RowStatus>, response: Response): map<OrderId, RowStatus> {
    if !response.changed then rows
    else rows[response.key.order := if response.key.op.Do? then Done else Undone]
  }

  /** COMMIT: the handler's write and the completion UPDATE become visible together.
      `hit` says whether that UPDATE had found a row. */
  function CommitWork(db: Db, key: Key, response: Response, hit: bool): Db {
    db.(rows := HandlerRows(db.rows, response),
        records := if hit then db.records[key := Completed(response)] else db.records,
        log := db.log + [response])
  }

  /** DELETE ... AND status = 'IN_PROGRESS'. */
  function ReleaseClaim(db: Db, key: Key): Db {
    if key in db.records && db.records[key].InProgress? then db.(records := db.records - {key}) else db
  }

  function CachePut(db: Db, key: Key, response: Response): Db {
    db.(cache := db.cache[key := response])
  }

  // ---- Row locks ------------------------------------------------------------

  predicate HoldsRow(c: Caller, order: OrderId) {
    && c.key.order == order
    && (c.pc.Complete? || c.pc.Commit?) && c.pc.response.changed
  }

  predicate HoldsRecord(c: Caller, key: Key) {
    c.key == key && c.pc.Commit? && c.pc.hit
  }

  predicate RowLocked(s: State, i: nat) requires i < |s.callers| {
    exists j :: 0 <= j < |s.callers| && j != i && HoldsRow(s.callers[j], s.callers[i].key.order)
  }

  predicate RecordLocked(s: State, i: nat) requires i < |s.callers| {
    exists j :: 0 <= j < |s.callers| && j != i && HoldsRecord(s.callers[j], s.callers[i].key)
  }

  // ---- Steps ----------------------------------------------------------------

  /** `choice` resolves the cache: whether a present entry is hit, whether a SET is kept.
      `Fail` is a statement whose client sees an error, `applied` or not on the server.
      `Evict` is Redis dropping or expiring an entry. */
  datatype Action =
    | Go(i: nat, choice: bool)
    | Fail(i: nat, applied: bool)
    | Crash(i: nat)
    | Tick(elapsed: nat)
    | Evict(key: Key)

  predicate Finished(pc: Pc) {
    pc.Returned? || pc.Threw? || pc.Crashed?
  }

  /** Whether the statement at the caller's pc would have to wait for another's lock. */
  predicate Blocked(s: State, i: nat) requires i < |s.callers| {
    match s.callers[i].pc
    case Insert => RecordLocked(s, i)
    case Takeover => RecordLocked(s, i)
    case Work => RowLocked(s, i)
    case Complete(_) => RecordLocked(s, i)
    case Release => RecordLocked(s, i)
    case _ => false
  }

  predicate CanFail(pc: Pc) {
    !Finished(pc) && !pc.CacheGet? && !pc.CacheSet? && !pc.Rollback?
  }

  predicate Enabled(s: State, a: Action) {
    match a
    case Go(i, _) => i < |s.callers| && !Finished(s.callers[i].pc) && !Blocked(s, i)
    case Fail(i, applied) => i < |s.callers| && CanFail(s.callers[i].pc) && (applied ==> !Blocked(s, i))
    case Crash(i) => i < |s.callers| && !Finished(s.callers[i].pc)
    case Tick(_) => true
    case Evict(_) => true
  }

  /** The tables after the statement at caller i's pc has run. */
  function Effect(s: State, i: nat, choice: bool): Db requires i < |s.callers| {
    var c := s.callers[i];
    match c.pc
    case Insert => InsertClaim(s.db, c.key, i)
    case Takeover => TakeOver(s.db, c.key, c.staleAfter, i)
    case Commit(response, hit) => CommitWork(s.db, c.key, response, hit)
    case Release => ReleaseClaim(s.db, c.key)
    case CacheSet(response, _) => if choice then CachePut(s.db, c.key, response) else s.db
    case _ => s.db
  }

  /** Where the caller goes when the statement at its pc has returned. */
  function NextPc(db: Db, c: Caller, choice: bool): Pc {
    match c.pc
    case CacheGet => if choice && c.key in db.cache then Returned(db.cache[c.key], true) else Insert
    case Insert => if c.key in db.records then Select else Begin
    case Select =>
      if c.key in db.records && db.records[c.key].Completed?
      then CacheSet(db.records[c.key].response, true)
      else Takeover
    case Takeover => if Stale(db, c.key, c.staleAfter) then Begin else Threw
    case Begin => Work
    case Work => if HandlerThrows(db, c.key) then Rollback else Complete(HandlerResult(db, c.key, c.payload))
    case Complete(response) => Commit(response, c.key in db.records)
    case Commit(response, _) => CacheSet(response, false)
    case CacheSet(response, replayed) => Returned(response, replayed)
    case Rollback => Release
    case Release => Threw
    case _ => c.pc
  }

  /** Where an error sends the caller: the claim phase throws straight out, the
      transaction phase goes through rollback and release. */
  function FailPc(pc: Pc): Pc {
    if pc.Begin? || pc.Work? || pc.Complete? || pc.Commit? then Rollback else Threw
  }

  function MoveTo(callers: seq<Caller>, i: nat, pc: Pc): seq<Caller> requires i < |callers| {
    callers[i := callers[i].(pc := pc)]
  }

  function Next(s: State, a: Action): State requires Enabled(s, a) {
    match a
    case Go(i, choice) =>
      State(Effect(s, i, choice), MoveTo(s.callers, i, NextPc(s.db, s.callers[i], choice)))
    case Fail(i, applied) =>
      State(if applied then Effect(s, i, false) else s.db, MoveTo(s.callers, i, FailPc(s.callers[i].pc)))
    case Crash(i) => s.(callers := MoveTo(s.callers, i, Crashed))
    case Tick(elapsed) => s.(db := s.db.(now := s.db.now + elapsed))
    case Evict(key) => s.(db := s.db.(cache := s.db.cache - {key}))
  }

  // ---- Runs -----------------------------------------------------------------

  predicate IsRun(s: State, acts: seq<Action>) decreases |acts|, 0 {
    acts == [] ||
    (IsRun(s, acts[..|acts| - 1]) && Enabled(Exec(s, acts[..|acts| - 1]), acts[|acts| - 1]))
  }

  function Exec(s: State, acts: seq<Action>): State requires IsRun(s, acts) decreases |acts|, 1 {
    if acts == [] then s else Next(Exec(s, acts[..|acts| - 1]), acts[|acts| - 1])
  }

  /** The service starts with empty tables; every caller is about to enter. */
  predicate Init(s: State) {
    && s.db.records == map[] && s.db.rows == map[] && s.db.cache == map[] && s.db.log == []
    && forall i :: 0 <= i < |s.callers| ==> s.callers[i].pc == CacheGet
  }

  /** A successful takeover at this action. */
  predicate TakesOver(s: State, a: Action) {
    && (a.Go? || (a.Fail? && a.applied)) && a.i < |s.callers|
    && s.callers[a.i].pc.Takeover? && Stale(s.db, s.callers[a.i].key, s.callers[a.i].staleAfter)
  }

  /** The dead-owner hypothesis: a claim is taken over only from a caller that has ended. */
  predicate DeadOwner(s: State, a: Action) {
    TakesOver(s, a) ==>
      var owner := s.db.records[s.callers[a.i].key].owner;
      owner < |s.callers| ==> Finished(s.callers[owner].pc)
  }

  predicate CleanRun(s: State, acts: seq<Action>) requires IsRun(s, acts) decreases |acts|, 1 {
    acts == [] ||
    (CleanRun(s, acts[..|acts| - 1]) && DeadOwner(Exec(s, acts[..|acts| - 1]), acts[|acts| - 1]))
  }

  lemma RunSnoc(s: State, acts: seq<Action>, a: Action)
    requires IsRun(s, acts) && Enabled(Exec(s, acts), a)
    ensures IsRun(s, acts + [a]) && Exec(s, acts + [a]) == Next(Exec(s, acts), a)
    ensures CleanRun(s, acts) && DeadOwner(Exec(s, acts), a) ==> CleanRun(s, acts + [a])
  {
    assert (acts + [a])[..|acts + [a]| - 1] == acts;
  }
}
