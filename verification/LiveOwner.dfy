/** Why the dead-owner hypothesis is needed: the completion UPDATE of `runIdempotent` is
    guarded on neither status nor ownership (packages/shared/src/idempotency.ts:140-145). */
module LiveOwner {
  import opened Vocabulary
  import opened Idempotency
  import opened ExactlyOnce
  import AtomicService

  /** When a COMPLETED record changes, in any state whatever: exactly when another owner of
      its key commits a different response. It is never deleted or reopened. */
  lemma OverwrittenExactly(s: State, a: Action, key: Key, response: Response)
    requires Enabled(s, a) && Holds(s.db, key, response)
    ensures key in Next(s, a).db.records && Next(s, a).db.records[key].Completed?
    ensures Next(s, a).db.records[key].response != response <==>
      && AtomicService.CommitStep(s, a)
      && s.callers[a.i].key == key && s.callers[a.i].pc.hit && s.callers[a.i].pc.response != response
  {
  }

  /** What the cache says about the key, if anything, is what the record says. */
  predicate Fresh(db: Db, key: Key) {
    key in db.cache ==> Holds(db, key, db.cache[key])
  }

  /** When a cache entry goes stale, in any state whatever: exactly when another owner commits a
      response that the entry does not hold, or a caller stores a response that the record does
      not hold (any more). */
  lemma StaleExactly(s: State, a: Action, key: Key)
    requires Enabled(s, a) && Fresh(s.db, key)
    ensures !Fresh(Next(s, a).db, key) <==>
      || (&& AtomicService.CommitStep(s, a) && s.callers[a.i].key == key && s.callers[a.i].pc.hit
          && key in s.db.cache && s.callers[a.i].pc.response != s.db.cache[key])
      || (&& a.Go? && a.choice && s.callers[a.i].pc.CacheSet? && s.callers[a.i].key == key
          && !Holds(s.db, key, s.callers[a.i].pc.response))
  {
  }

  lemma Push(s: State, acts: seq<Action>, t: State, a: Action) returns (acts': seq<Action>)
    requires IsRun(s, acts) && Exec(s, acts) == t && Enabled(t, a)
    ensures acts' == acts + [a] && IsRun(s, acts') && Exec(s, acts') == Next(t, a)
  {
    acts' := acts + [a];
    RunSnoc(s, acts, a);
  }

  function Start(order: OrderId): State {
    State(Db(0, map[], map[], map[], []),
          [Caller(Key(order, Undo), 1, 1, CacheGet), Caller(Key(order, Undo), 2, 1, CacheGet),
           Caller(Key(order, Undo), 3, 1, CacheGet)])
  }

  /** One more step of caller i, ending in t. */
  lemma Then(order: OrderId, acts: seq<Action>, s: State, i: nat, t: State, choice: bool := false)
    returns (more: seq<Action>)
    requires IsRun(Start(order), acts) && Exec(Start(order), acts) == s
    requires Enabled(s, Go(i, choice)) && Next(s, Go(i, choice)) == t
    ensures IsRun(Start(order), more) && Exec(Start(order), more) == t && more == acts + [Go(i, choice)]
  {
    more := Push(Start(order), acts, s, Go(i, choice));
  }

  function Two(order: OrderId, claim: Record, log: seq<Response>, first: Pc, second: Pc): State {
    State(Db(2, map[Key(order, Undo) := claim], map[], map[], log),
          [Caller(Key(order, Undo), 1, 1, first), Caller(Key(order, Undo), 2, 1, second),
           Caller(Key(order, Undo), 3, 1, CacheGet)])
  }

  function Begun(order: OrderId, now: int, records: map<Key, Record>, first: Pc): State {
    State(Db(now, records, map[], map[], []),
          [Caller(Key(order, Undo), 1, 1, first), Caller(Key(order, Undo), 2, 1, CacheGet),
           Caller(Key(order, Undo), 3, 1, CacheGet)])
  }

  lemma Puts(key: Key, x: Record, y: Record)
    ensures map[][key := x] == map[key := x]
    ensures map[key := x][key := y] == map[key := y]
  {
  }

  /** Caller 0 claims, */
  lemma Claims(order: OrderId) returns (acts: seq<Action>)
    ensures IsRun(Start(order), acts)
    ensures Exec(Start(order), acts) == Begun(order, 0, map[Key(order, Undo) := Record.InProgress(0, 0)], Begin)
  {
    var key, x := Key(order, Undo), Record.InProgress(0, 0);
    Puts(key, x, x);
    assert Start(order) == Begun(order, 0, map[], CacheGet);
    acts := Then(order, [], Begun(order, 0, map[], CacheGet), 0, Begun(order, 0, map[], Insert));
    acts := Then(order, acts, Begun(order, 0, map[], Insert), 0, Begun(order, 0, map[key := x], Begin));
  }

  /** and stalls before its work; the claim grows old. */
  lemma Stall(order: OrderId) returns (acts: seq<Action>)
    ensures IsRun(Start(order), acts)
    ensures Exec(Start(order), acts) == Two(order, Record.InProgress(0, 0), [], Work, CacheGet)
  {
    var claimed := map[Key(order, Undo) := Record.InProgress(0, 0)];
    acts := Claims(order);
    acts := Then(order, acts, Begun(order, 0, claimed, Begin), 0, Begun(order, 0, claimed, Work));
    acts := Push(Start(order), acts, Begun(order, 0, claimed, Work), Tick(2));
  }

  /** Caller 1 finds the old claim, */
  lemma Collides(order: OrderId) returns (acts: seq<Action>)
    ensures IsRun(Start(order), acts)
    ensures Exec(Start(order), acts) == Two(order, Record.InProgress(0, 0), [], Work, Takeover)
  {
    var x := Record.InProgress(0, 0);
    acts := Stall(order);
    acts := Then(order, acts, Two(order, x, [], Work, CacheGet), 1, Two(order, x, [], Work, Insert));
    acts := Then(order, acts, Two(order, x, [], Work, Insert), 1, Two(order, x, [], Work, Select));
    acts := Then(order, acts, Two(order, x, [], Work, Select), 1, Two(order, x, [], Work, Takeover));
  }

  /** takes it over from its live owner and is about to do the work. */
  lemma Overtake(order: OrderId) returns (acts: seq<Action>)
    ensures IsRun(Start(order), acts)
    ensures Exec(Start(order), acts) == Two(order, Record.InProgress(2, 1), [], Work, Work)
  {
    var x, y := Record.InProgress(0, 0), Record.InProgress(2, 1);
    Puts(Key(order, Undo), x, y);
    acts := Collides(order);
    acts := Then(order, acts, Two(order, x, [], Work, Takeover), 1, Two(order, y, [], Work, Begin));
    acts := Then(order, acts, Two(order, y, [], Work, Begin), 1, Two(order, y, [], Work, Work));
  }

  function LaterResponse(order: OrderId): Response {
    Response(Key(order, Undo), 2, false)
  }

  /** And completes, while the first owner is still before its work. */
  lemma FirstWork(order: OrderId) returns (acts: seq<Action>)
    ensures IsRun(Start(order), acts)
    ensures Exec(Start(order), acts) ==
      Two(order, Record.InProgress(2, 1), [], Work, Commit(LaterResponse(order), true))
  {
    var r, claim := LaterResponse(order), Record.InProgress(2, 1);
    acts := Overtake(order);
    acts := Then(order, acts, Two(order, claim, [], Work, Work), 1, Two(order, claim, [], Work, Complete(r)));
    acts := Then(order, acts, Two(order, claim, [], Work, Complete(r)), 1,
                 Two(order, claim, [], Work, Commit(r, true)));
  }

  /** After both callers' commits as far as they have come: caller 1's result is cached and
      returned. */
  function Served(order: OrderId, last: Option<Response>, first: Pc, third: Pc): State {
    var key, r := Key(order, Undo), LaterResponse(order);
    State(Db(2, map[key := Completed(if last.Some? then last.value else r)], map[], map[key := r],
             [r] + if last.Some? then [last.value] else []),
          [Caller(key, 1, 1, first), Caller(key, 2, 1, Returned(r, false)), Caller(key, 3, 1, third)])
  }

  lemma FirstCommit(order: OrderId) returns (acts: seq<Action>)
    ensures IsRun(Start(order), acts) && Exec(Start(order), acts) == Served(order, None, Work, CacheGet)
  {
    var r := LaterResponse(order);
    acts := FirstWork(order);
    acts := Then(order, acts, Two(order, Record.InProgress(2, 1), [], Work, Commit(r, true)), 1,
                 Two(order, Completed(r), [r], Work, CacheSet(r, false)));
    acts := Then(order, acts, Two(order, Completed(r), [r], Work, CacheSet(r, false)), 1,
                 Served(order, None, Work, CacheGet), true);
  }

  function OldResponse(order: OrderId): Response {
    Response(Key(order, Undo), 1, false)
  }

  /** The first owner, alive all along, does its work, */
  lemma OwnerWakes(order: OrderId, before: seq<Action>) returns (acts: seq<Action>)
    requires IsRun(Start(order), before) && Exec(Start(order), before) == Served(order, None, Work, CacheGet)
    ensures IsRun(Start(order), acts) && before <= acts
    ensures Exec(Start(order), acts) == Served(order, None, Commit(OldResponse(order), true), CacheGet)
  {
    var last := OldResponse(order);
    acts := Then(order, before, Served(order, None, Work, CacheGet), 0,
                 Served(order, None, Complete(last), CacheGet));
    acts := Then(order, acts, Served(order, None, Complete(last), CacheGet), 0,
                 Served(order, None, Commit(last, true), CacheGet));
  }

  /** and completes the record a second time. */
  lemma OwnerCommits(order: OrderId, before: seq<Action>) returns (acts: seq<Action>)
    requires IsRun(Start(order), before)
    requires Exec(Start(order), before) == Served(order, None, Commit(OldResponse(order), true), CacheGet)
    ensures IsRun(Start(order), acts) && before <= acts
    ensures Exec(Start(order), acts) ==
      Served(order, Some(OldResponse(order)), CacheSet(OldResponse(order), false), CacheGet)
  {
    var last, key := OldResponse(order), Key(order, Undo);
    Puts(key, Completed(LaterResponse(order)), Completed(last));
    assert [LaterResponse(order)] + [] == [LaterResponse(order)];
    acts := Then(order, before, Served(order, None, Commit(last, true), CacheGet), 0,
                 Served(order, Some(last), CacheSet(last, false), CacheGet));
  }

  /** A run in which the owner taken over is alive: a COMPLETED record changes its
      response after a caller has been handed the old one. */
  lemma LiveOwnerOverwrites(order: OrderId) returns (acts: seq<Action>, n: nat, first: Response, last: Response)
    ensures Init(Start(order)) && IsRun(Start(order), acts) && n <= |acts| && IsRun(Start(order), acts[..n])
    ensures Holds(Exec(Start(order), acts[..n]).db, Key(order, Undo), first) && first != last
    ensures first == LaterResponse(order) && last == OldResponse(order)
    ensures Exec(Start(order), acts) == Served(order, Some(last), CacheSet(last, false), CacheGet)
    ensures Holds(Exec(Start(order), acts).db, Key(order, Undo), last)
  {
    var before := FirstCommit(order);
    first, last, n := LaterResponse(order), OldResponse(order), |before|;
    acts := OwnerWakes(order, before);
    acts := OwnerCommits(order, acts);
    assert acts[..n] == before;
  }

  /** And a third caller is then answered from the cache with what the record no longer says. */
  lemma StaleHit(order: OrderId) returns (acts: seq<Action>)
    ensures Init(Start(order)) && IsRun(Start(order), acts)
    ensures var t, key := Exec(Start(order), acts), Key(order, Undo);
      && |t.callers| == 3 && t.callers[2].pc == Returned(LaterResponse(order), true)
      && !Fresh(t.db, key) && !Holds(t.db, key, LaterResponse(order))
  {
    var n, first, last;
    acts, n, first, last := LiveOwnerOverwrites(order);
    acts := Then(order, acts, Served(order, Some(last), CacheSet(last, false), CacheGet), 2,
                 Served(order, Some(last), CacheSet(last, false), Returned(first, true)), true);
  }
}
