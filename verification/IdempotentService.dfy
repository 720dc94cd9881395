/** `runIdempotent` as it is written: a procedure over mutable tables, one method per SQL
    statement. Between any two of its statements the other callers and the cache may do
    anything the machine of module Idempotency allows, and any statement may fail or be
    the last before a crash. The ghost trace shows that every execution is a run of that
    machine, so what ExactlyOnce proves of runs holds of the procedure. */
module IdempotentService {
  import opened Vocabulary
  import opened Idempotency
  import opened ExactlyOnce
  import Timing = ClaimTiming

  /** What befalls one statement: it runs, its client sees an error (`applied` or not on
      the server), or the process dies before it. */
  datatype Fate = Fine | Error(applied: bool) | Die

  /** How a call ends. `Waiting` is a statement still queued behind another's row lock. */
  datatype Outcome = Ok(response: Response, replayed: bool) | Thrown | Dead | Waiting

  /** Everything the call does not decide: for its n-th statement, what the others do
      first, how the statement fares, and how the cache behaves. */
  datatype Oracle = Oracle(others: nat -> seq<Action>, fate: nat -> Fate, cache: nat -> bool)

  predicate ActsAs(a: Action, i: nat) {
    (a.Go? || a.Fail? || a.Crash?) && a.i == i
  }

  /** From position `from` on, the caller's own statements all ran. */
  predicate Faultless(acts: seq<Action>, from: nat, i: nat) {
    forall n :: from <= n < |acts| && ActsAs(acts[n], i) ==> acts[n].Go?
  }

  ghost predicate AllFine(oracle: Oracle) {
    forall n :: oracle.fate(n).Fine?
  }

  class Service {
    var now: int
    var records: map<Key, Record>
    var rows: map<OrderId, RowStatus>
    var cache: map<Key, Response>
    var log: seq<Response>
    var callers: seq<Caller>

    ghost const start: State
    ghost var trace: seq<Action>

    function Snapshot(): State reads this {
      State(Db(now, records, rows, cache, log), callers)
    }

    ghost predicate Valid() reads this {
      IsRun(start, trace) && Exec(start, trace) == Snapshot()
    }

    /** Caller i is at `pc`. */
    ghost predicate At(i: nat, pc: Pc) reads this {
      Valid() && i < |callers| && callers[i].pc == pc
    }

    constructor (s: State)
      ensures Valid() && start == s && trace == [] && Snapshot() == s
    {
      now, records, rows, cache, log := s.db.now, s.db.records, s.db.rows, s.db.cache, s.db.log;
      callers := s.callers;
      start, trace := s, [];
    }

    /** One step of the machine, recorded. */
    method Take(a: Action)
      requires Valid() && Enabled(Snapshot(), a)
      modifies this
      ensures Valid() && trace == old(trace) + [a]
      ensures Snapshot() == Next(old(Snapshot()), a)
    {
      var s := Next(Snapshot(), a);
      ghost var before := trace;
      RunSnoc(start, trace, a);
      now, records, rows, cache, log := s.db.now, s.db.records, s.db.rows, s.db.cache, s.db.log;
      callers := s.callers;
      trace := before + [a];
    }

    /** The rest of the world runs while caller i waits: whatever is enabled and not i's. */
    method Others(i: nat, acts: seq<Action>)
      requires Valid() && i < |callers|
      modifies this
      ensures Valid() && |callers| == old(|callers|) && callers[i] == old(callers[i])
      ensures old(trace) <= trace && forall n :: old(|trace|) <= n < |trace| ==> !ActsAs(trace[n], i)
    {
      for n := 0 to |acts|
        invariant Valid() && |callers| == old(|callers|) && callers[i] == old(callers[i])
        invariant old(trace) <= trace && forall n :: old(|trace|) <= n < |trace| ==> !ActsAs(trace[n], i)
      {
        if !ActsAs(acts[n], i) && Enabled(Snapshot(), acts[n]) {
          Take(acts[n]);
        }
      }
    }

    /** Reach the next statement: the others run, then the statement's fate is decided.
        `None` means it may run now. Errors of statements whose errors the procedure
        swallows, or that throw none, are no event. */
    method Arrive(i: nat, oracle: Oracle, n: nat) returns (ended: Option<Outcome>)
      requires Valid() && i < |callers| && !Finished(callers[i].pc)
      modifies this
      ensures Valid() && i < |callers| && |callers| == old(|callers|) && callers[i].key == old(callers[i].key)
      ensures old(trace) <= trace
      ensures AllFine(oracle) ==> Faultless(trace, old(|trace|), i)
      ensures ended.None? ==> callers[i] == old(callers[i]) && !Blocked(Snapshot(), i)
      ensures ended.Some? ==>
        match ended.value
        case Waiting => callers[i] == old(callers[i]) && Blocked(Snapshot(), i)
        case Dead => callers[i].pc == Crashed
        case Thrown => CanFail(old(callers[i].pc)) && callers[i].pc == FailPc(old(callers[i].pc))
        case Ok(_, _) => false
      ensures AllFine(oracle) && ended.Some? ==> ended.value.Waiting?
    {
      Others(i, oracle.others(n));
      var fate := oracle.fate(n);
      if fate.Die? {
        Take(Crash(i));
        return Some(Dead);
      }
      if fate.Error? && CanFail(callers[i].pc) && !(fate.applied && Blocked(Snapshot(), i)) {
        Take(Fail(i, fate.applied));
        return Some(Thrown);
      }
      return if Blocked(Snapshot(), i) then Some(Waiting) else None;
    }

    /** The caller's last statement claimed its key: a free one, or one whose claim was older
        than the caller's limit. */
    ghost predicate JustClaimed(i: nat) reads this {
      && Valid() && trace != [] && i < |callers|
      && var before := Exec(start, trace[..|trace| - 1]).db;
      && var key := callers[i].key;
      && (key !in before.records ||
          (Timing.Claimed(before, key) && Timing.Age(before, key) > callers[i].staleAfter))
      && key in records && records[key] == Idempotency.Record.InProgress(now, i)
    }

    /** The key is free, or its claim is older than the caller's limit. */
    predicate Available(i: nat) reads this requires i < |callers| {
      var key := callers[i].key;
      key !in records || (records[key].InProgress? && now - records[key].createdAt > callers[i].staleAfter)
    }

    // ---- The statements ------------------------------------------------------

    /** cache.get: a hit returns at once; a miss, or a cache that is down, falls through. */
    method CacheLookup(i: nat, ready: bool) returns (hit: Option<Response>)
      requires At(i, CacheGet)
      modifies this
      ensures Valid() && trace == old(trace) + [Go(i, ready)]
      ensures At(i, if hit.Some? then Returned(hit.value, true) else Insert)
    {
      var c := callers[i];
      hit := if ready && c.key in cache then Some(cache[c.key]) else None;
      RunSnoc(start, trace, Go(i, ready));
      callers := callers[i := c.(pc := if hit.Some? then Returned(hit.value, true) else Insert)];
      trace := trace + [Go(i, ready)];
    }

    method InsertClaim(i: nat) returns (duplicate: bool)
      requires At(i, Insert) && !Blocked(Snapshot(), i)
      modifies this
      ensures Valid() && trace == old(trace) + [Go(i, false)]
      ensures At(i, if duplicate then Select else Begin)
      ensures duplicate <==> old(callers[i].key in records)
      ensures !duplicate ==> JustClaimed(i)
    {
      var c := callers[i];
      RunSnoc(start, trace, Go(i, false));
      duplicate := c.key in records;
      if !duplicate {
        records := records[c.key := Idempotency.Record.InProgress(now, i)];
      }
      callers := callers[i := c.(pc := if duplicate then Select else Begin)];
      trace := trace + [Go(i, false)];
    }

    method SelectRecord(i: nat) returns (stored: Option<Response>)
      requires At(i, Select)
      modifies this
      ensures Valid() && trace == old(trace) + [Go(i, false)]
      ensures At(i, if stored.Some? then CacheSet(stored.value, true) else Takeover)
    {
      var c := callers[i];
      RunSnoc(start, trace, Go(i, false));
      stored := None;
      if c.key in records && records[c.key].Completed? {
        stored := Some(records[c.key].response);
      }
      callers := callers[i := c.(pc := if stored.Some? then CacheSet(stored.value, true) else Takeover)];
      trace := trace + [Go(i, false)];
    }

    method TakeOverStale(i: nat) returns (taken: bool)
      requires At(i, Takeover) && !Blocked(Snapshot(), i)
      modifies this
      ensures Valid() && trace == old(trace) + [Go(i, false)]
      ensures At(i, if taken then Begin else Threw)
      ensures taken <==> old(callers[i].key in records) && old(Available(i))
      ensures taken ==> JustClaimed(i)
      ensures !taken ==> records == old(records) && now == old(now) && callers[i].key == old(callers[i].key) &&
                         callers[i].staleAfter == old(callers[i].staleAfter)
    {
      var c := callers[i];
      RunSnoc(start, trace, Go(i, false));
      taken := c.key in records && records[c.key].InProgress? && records[c.key].createdAt < now - c.staleAfter;
      if taken {
        records := records[c.key := Idempotency.Record.InProgress(now, i)];
      }
      callers := callers[i := c.(pc := if taken then Begin else Threw)];
      trace := trace + [Go(i, false)];
    }

    method BeginTransaction(i: nat)
      requires At(i, Begin)
      modifies this
      ensures Valid() && trace == old(trace) + [Go(i, false)]
      ensures At(i, Work)
    {
      RunSnoc(start, trace, Go(i, false));
      callers := callers[i := callers[i].(pc := Work)];
      trace := trace + [Go(i, false)];
    }

    /** The handler inside the transaction: a forward INSERT or a guarded undo UPDATE.
        `None` is the duplicate-key error. */
    method RunHandler(i: nat) returns (result: Option<Response>)
      requires At(i, Work) && !Blocked(Snapshot(), i)
      modifies this
      ensures Valid() && trace == old(trace) + [Go(i, false)]
      ensures At(i, if result.Some? then Complete(result.value) else Rollback)
    {
      var c := callers[i];
      RunSnoc(start, trace, Go(i, false));
      result := None;
      if c.key.op.Do? {
        if c.key.order !in rows {
          result := Some(Response(c.key, c.payload, true));
        }
      } else {
        var affected := c.key.order in rows && rows[c.key.order] == Done;
        result := Some(Response(c.key, c.payload, affected));
      }
      callers := callers[i := c.(pc := if result.Some? then Complete(result.value) else Rollback)];
      trace := trace + [Go(i, false)];
    }

    /** The completion UPDATE, still uncommitted. */
    method MarkCompleted(i: nat, result: Response)
      requires At(i, Complete(result)) && !Blocked(Snapshot(), i)
      modifies this
      ensures Valid() && trace == old(trace) + [Go(i, false)]
      ensures i < |callers| && callers[i].pc.Commit? && callers[i].pc.response == result
    {
      var c := callers[i];
      RunSnoc(start, trace, Go(i, false));
      callers := callers[i := c.(pc := Commit(result, c.key in records))];
      trace := trace + [Go(i, false)];
    }

    /** COMMIT: the handler's write and the completed record become visible together. */
    method CommitTransaction(i: nat, result: Response)
      requires Valid() && i < |callers| && callers[i].pc.Commit? && callers[i].pc.response == result
      modifies this
      ensures Valid() && trace == old(trace) + [Go(i, false)]
      ensures At(i, CacheSet(result, false))
    {
      var c := callers[i];
      RunSnoc(start, trace, Go(i, false));
      if result.changed {
        rows := rows[result.key.order := if result.key.op.Do? then Done else Undone];
      }
      if c.pc.hit {
        records := records[c.key := Completed(result)];
      }
      log := log + [result];
      callers := callers[i := c.(pc := CacheSet(result, false))];
      trace := trace + [Go(i, false)];
    }

    method CacheStore(i: nat, result: Response, replayed: bool, ready: bool)
      requires At(i, CacheSet(result, replayed))
      modifies this
      ensures Valid() && trace == old(trace) + [Go(i, ready)]
      ensures At(i, Returned(result, replayed))
    {
      RunSnoc(start, trace, Go(i, ready));
      if ready {
        cache := cache[callers[i].key := result];
      }
      callers := callers[i := callers[i].(pc := Returned(result, replayed))];
      trace := trace + [Go(i, ready)];
    }

    method RollbackTransaction(i: nat)
      requires At(i, Rollback)
      modifies this
      ensures Valid() && trace == old(trace) + [Go(i, false)]
      ensures At(i, Release)
    {
      RunSnoc(start, trace, Go(i, false));
      callers := callers[i := callers[i].(pc := Release)];
      trace := trace + [Go(i, false)];
    }

    method DeleteClaim(i: nat)
      requires At(i, Release) && !Blocked(Snapshot(), i)
      modifies this
      ensures Valid() && trace == old(trace) + [Go(i, false)]
      ensures At(i, Threw)
      ensures callers[i].key in records ==> records[callers[i].key].Completed?
    {
      var c := callers[i];
      RunSnoc(start, trace, Go(i, false));
      if c.key in records && records[c.key].InProgress? {
        records := records - {c.key};
      }
      callers := callers[i := c.(pc := Threw)];
      trace := trace + [Go(i, false)];
    }

    // ---- The procedure --------------------------------------------------------

    /** The state a call's outcome stands for. */
    ghost predicate EndedAs(i: nat, outcome: Outcome) reads this {
      && Valid() && i < |callers|
      && match outcome
         case Ok(response, replayed) => callers[i].pc == Returned(response, replayed)
         case Thrown => callers[i].pc == Threw
         case Dead => callers[i].pc == Crashed
         case Waiting => !Finished(callers[i].pc) && Blocked(Snapshot(), i)
    }

    /** Phase 1: `None` once the key is claimed. */
    method Claim(i: nat, oracle: Oracle) returns (ended: Option<Outcome>)
      requires At(i, Insert)
      modifies this
      ensures Valid() && i < |callers| && callers[i].key == old(callers[i].key) && old(trace) <= trace
      ensures AllFine(oracle) ==> Faultless(trace, old(|trace|), i)
      ensures if ended.Some? then EndedAs(i, ended.value) else At(i, Begin) && JustClaimed(i)
      ensures AllFine(oracle) && ended == Some(Thrown) ==> callers[i].key !in records || !Available(i)
      ensures AllFine(oracle) ==> ended != Some(Dead)
    {
      ended := Arrive(i, oracle, 1);
      if ended.None? {
        var duplicate := InsertClaim(i);
        if duplicate {
          ended := ReadExisting(i, oracle);
        }
      }
    }

    /** The key exists: replay a completed record, else try to take the claim over. */
    method ReadExisting(i: nat, oracle: Oracle) returns (ended: Option<Outcome>)
      requires At(i, Select)
      modifies this
      ensures Valid() && i < |callers| && callers[i].key == old(callers[i].key) && old(trace) <= trace
      ensures AllFine(oracle) ==> Faultless(trace, old(|trace|), i)
      ensures if ended.Some? then EndedAs(i, ended.value) else At(i, Begin) && JustClaimed(i)
      ensures AllFine(oracle) && ended == Some(Thrown) ==> callers[i].key !in records || !Available(i)
      ensures AllFine(oracle) ==> ended != Some(Dead)
    {
      ended := Arrive(i, oracle, 2);
      if ended.None? {
        var stored := SelectRecord(i);
        if stored.Some? {
          ended := WarmCache(i, oracle, stored.value, true);
        } else {
          ended := TryTakeover(i, oracle);
        }
      }
    }

    method WarmCache(i: nat, oracle: Oracle, result: Response, replayed: bool) returns (ended: Option<Outcome>)
      requires At(i, CacheSet(result, replayed))
      modifies this
      ensures Valid() && i < |callers| && callers[i].key == old(callers[i].key) && old(trace) <= trace
      ensures AllFine(oracle) ==> Faultless(trace, old(|trace|), i)
      ensures ended.Some? && !ended.value.Thrown? && EndedAs(i, ended.value)
      ensures AllFine(oracle) ==> ended != Some(Dead)
    {
      ended := Arrive(i, oracle, 3);
      if ended.None? {
        CacheStore(i, result, replayed, oracle.cache(1));
        ended := Some(Ok(result, replayed));
      }
    }

    method TryTakeover(i: nat, oracle: Oracle) returns (ended: Option<Outcome>)
      requires At(i, Takeover)
      modifies this
      ensures Valid() && i < |callers| && callers[i].key == old(callers[i].key) && old(trace) <= trace
      ensures AllFine(oracle) ==> Faultless(trace, old(|trace|), i)
      ensures if ended.Some? then EndedAs(i, ended.value) else At(i, Begin) && JustClaimed(i)
      ensures AllFine(oracle) && ended == Some(Thrown) ==> callers[i].key !in records || !Available(i)
      ensures AllFine(oracle) ==> ended != Some(Dead)
    {
      ended := Arrive(i, oracle, 4);
      if ended.None? {
        var taken := TakeOverStale(i);
        if !taken { ended := Some(Thrown); }
      }
    }

    /** Phase 2, the try block: `Thrown` leaves the caller at its rollback. */
    method Transact(i: nat, oracle: Oracle) returns (outcome: Outcome)
      requires At(i, Begin)
      modifies this
      ensures Valid() && i < |callers| && callers[i].key == old(callers[i].key) && old(trace) <= trace
      ensures AllFine(oracle) ==> Faultless(trace, old(|trace|), i)
      ensures if outcome.Thrown? then At(i, Rollback) else EndedAs(i, outcome)
      ensures AllFine(oracle) ==> !outcome.Dead?
    {
      var ended := Arrive(i, oracle, 5);
      if ended.Some? { return ended.value; }
      BeginTransaction(i);
      outcome := DoWork(i, oracle);
    }

    /** The handler, then the completion record, in the open transaction. */
    method DoWork(i: nat, oracle: Oracle) returns (outcome: Outcome)
      requires At(i, Work)
      modifies this
      ensures Valid() && i < |callers| && callers[i].key == old(callers[i].key) && old(trace) <= trace
      ensures AllFine(oracle) ==> Faultless(trace, old(|trace|), i)
      ensures if outcome.Thrown? then At(i, Rollback) else EndedAs(i, outcome)
      ensures AllFine(oracle) ==> !outcome.Dead?
    {
      var ended := Arrive(i, oracle, 6);
      if ended.Some? { return ended.value; }
      var result := RunHandler(i);
      if result.None? { return Thrown; }
      outcome := Record(i, oracle, result.value);
    }

    /** Completion UPDATE, COMMIT, and only then the cache. */
    method Record(i: nat, oracle: Oracle, result: Response) returns (outcome: Outcome)
      requires At(i, Complete(result))
      modifies this
      ensures Valid() && i < |callers| && callers[i].key == old(callers[i].key) && old(trace) <= trace
      ensures AllFine(oracle) ==> Faultless(trace, old(|trace|), i)
      ensures if outcome.Thrown? then At(i, Rollback) else EndedAs(i, outcome)
      ensures AllFine(oracle) ==> !outcome.Dead?
    {
      var ended := Arrive(i, oracle, 7);
      if ended.Some? { return ended.value; }
      MarkCompleted(i, result);
      outcome := Finish(i, oracle, result);
    }

    /** COMMIT, and only then the cache. */
    method Finish(i: nat, oracle: Oracle, result: Response) returns (outcome: Outcome)
      requires Valid() && i < |callers| && callers[i].pc.Commit? && callers[i].pc.response == result
      modifies this
      ensures Valid() && i < |callers| && callers[i].key == old(callers[i].key) && old(trace) <= trace
      ensures AllFine(oracle) ==> Faultless(trace, old(|trace|), i)
      ensures if outcome.Thrown? then At(i, Rollback) else EndedAs(i, outcome)
      ensures AllFine(oracle) ==> !outcome.Dead?
    {
      var ended := Arrive(i, oracle, 8);
      if ended.Some? { return ended.value; }
      CommitTransaction(i, result);
      ended := WarmCache(i, oracle, result, false);
      return ended.value;
    }

    /** The catch block: roll back, release the claim, rethrow. */
    method CleanUp(i: nat, oracle: Oracle) returns (outcome: Outcome)
      requires At(i, Rollback)
      modifies this
      ensures Valid() && i < |callers| && callers[i].key == old(callers[i].key) && old(trace) <= trace
      ensures AllFine(oracle) ==> Faultless(trace, old(|trace|), i)
      ensures EndedAs(i, outcome)
      ensures AllFine(oracle) ==> !outcome.Dead?
      ensures AllFine(oracle) && outcome.Thrown? && callers[i].key in records ==> records[callers[i].key].Completed?
    {
      var ended := Arrive(i, oracle, 10);
      if ended.Some? { return ended.value; }
      RollbackTransaction(i);
      outcome := GiveBack(i, oracle);
    }

    /** The best-effort DELETE; the error that led here is thrown either way. */
    method GiveBack(i: nat, oracle: Oracle) returns (outcome: Outcome)
      requires At(i, Release)
      modifies this
      ensures Valid() && i < |callers| && callers[i].key == old(callers[i].key) && old(trace) <= trace
      ensures AllFine(oracle) ==> Faultless(trace, old(|trace|), i)
      ensures EndedAs(i, outcome)
      ensures AllFine(oracle) ==> !outcome.Dead?
      ensures AllFine(oracle) && outcome.Thrown? && callers[i].key in records ==> records[callers[i].key].Completed?
    {
      var ended := Arrive(i, oracle, 11);
      if ended.Some? { return ended.value; }
      DeleteClaim(i);
      return Thrown;
    }

    method Call(i: nat, oracle: Oracle) returns (outcome: Outcome)
      requires At(i, CacheGet)
      modifies this
      ensures Valid() && i < |callers| && callers[i].key == old(callers[i].key) && old(trace) <= trace
      ensures AllFine(oracle) ==> Faultless(trace, old(|trace|), i)
      ensures EndedAs(i, outcome)
      ensures AllFine(oracle) ==> !outcome.Dead?
    {
      var ended := Arrive(i, oracle, 0);
      if ended.Some? { return ended.value; }
      var hit := CacheLookup(i, oracle.cache(0));
      if hit.Some? { return Ok(hit.value, true); }
      outcome := ClaimAndRun(i, oracle);
    }

    /** Everything after a cache miss. */
    method ClaimAndRun(i: nat, oracle: Oracle) returns (outcome: Outcome)
      requires At(i, Insert)
      modifies this
      ensures Valid() && i < |callers| && callers[i].key == old(callers[i].key) && old(trace) <= trace
      ensures AllFine(oracle) ==> Faultless(trace, old(|trace|), i)
      ensures EndedAs(i, outcome)
      ensures AllFine(oracle) ==> !outcome.Dead?
    {
      var ended := Claim(i, oracle);
      if ended.Some? { return ended.value; }
      outcome := Transact(i, oracle);
      if outcome.Thrown? {
        outcome := CleanUp(i, oracle);
      }
    }

    /** The whole call. Its execution extends the machine's run, faultless statements give
        only the machine's regular steps, and if the run so far respects the dead-owner
        hypothesis, a returned result is the one committed result of the key. */
    method RunIdempotent(i: nat, oracle: Oracle) returns (outcome: Outcome)
      requires At(i, CacheGet)
      modifies this
      ensures Valid() && i < |callers| && callers[i].key == old(callers[i].key) && old(trace) <= trace
      ensures AllFine(oracle) ==> Faultless(trace, old(|trace|), i)
      ensures EndedAs(i, outcome)
      ensures AllFine(oracle) ==> !outcome.Dead?
      ensures Init(start) && CleanRun(start, trace) && outcome.Ok? ==>
                Holds(Snapshot().db, callers[i].key, outcome.response) && Commits(log, callers[i].key) == 1
    {
      outcome := Call(i, oracle);
      if Init(start) && CleanRun(start, trace) {
        SameCallers(start, trace);
        ExactlyOnceWithReplay(start, trace, i);
      }
    }
  }
}
