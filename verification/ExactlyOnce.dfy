/** What `runIdempotent` guarantees, in two environments.

    With no assumption on timing (claims taken over or deleted under owners that are
    still alive) the gated handlers keep every order's effects at most once. With the
    dead-owner hypothesis the work of a key commits at most once, its record never
    changes afterwards, and every reply carries that one result. */
module ExactlyOnce {
  import opened Vocabulary
  import opened Idempotency

  // ---- Any environment ------------------------------------------------------

  /** Committed work that inserted the order's domain row. */
  function Inserts(log: seq<Response>, order: OrderId): nat {
    if log == [] then 0
    else
      var r := log[|log| - 1];
      Inserts(log[..|log| - 1], order) + if r.key == Key(order, Do) && r.changed then 1 else 0
  }

  /** Committed work that flipped the order's domain row from done to undone. */
  function Flips(log: seq<Response>, order: OrderId): nat {
    if log == [] then 0
    else
      var r := log[|log| - 1];
      Flips(log[..|log| - 1], order) + if r.key == Key(order, Undo) && r.changed then 1 else 0
  }

  /** The effect of an open transaction is still the right one: nothing committed since
      its work ran has touched the row. */
  predicate PendingOk(s: State, c: Caller) {
    c.pc.Complete? || c.pc.Commit? ==>
      && c.pc.response.key == c.key
      && (c.key.op.Do? ==> c.pc.response.changed && c.key.order !in s.db.rows)
      && (c.key.op.Undo? && c.pc.response.changed ==>
            c.key.order in s.db.rows && s.db.rows[c.key.order].Done?)
  }

  ghost predicate EffectsOk(db: Db) {
    forall o: OrderId ::
      && Inserts(db.log, o) == (if o in db.rows then 1 else 0)
      && Flips(db.log, o) == (if o in db.rows && db.rows[o].Undone? then 1 else 0)
  }

  ghost predicate ZombieInv(s: State) {
    && EffectsOk(s.db)
    && (forall i :: 0 <= i < |s.callers| ==> PendingOk(s, s.callers[i]))
    && (forall i, j :: 0 <= i < |s.callers| && 0 <= j < |s.callers| && i != j &&
                       HoldsRow(s.callers[i], s.callers[i].key.order) ==>
                       !HoldsRow(s.callers[j], s.callers[i].key.order))
  }

  lemma CommitKeepsEffects(db: Db, c: Caller, hit: bool)
    requires EffectsOk(db) && c.pc.Commit? && PendingOk(State(db, []), c)
    ensures EffectsOk(CommitWork(db, c.key, c.pc.response, hit))
  {
    var log := db.log + [c.pc.response];
    assert log[..|log| - 1] == db.log;
  }

  lemma EffectsStep(s: State, a: Action)
    requires ZombieInv(s) && Enabled(s, a)
    ensures EffectsOk(Next(s, a).db)
  {
    if (a.Go? || (a.Fail? && a.applied)) && s.callers[a.i].pc.Commit? {
      assert PendingOk(s, s.callers[a.i]);
      CommitKeepsEffects(s.db, s.callers[a.i], s.callers[a.i].pc.hit);
    }
  }

  lemma PendingStep(s: State, a: Action, j: nat)
    requires ZombieInv(s) && Enabled(s, a) && j < |s.callers|
    ensures PendingOk(Next(s, a), Next(s, a).callers[j])
  {
    assert PendingOk(s, s.callers[j]);
    if a.Go? || a.Fail? {
      assert PendingOk(s, s.callers[a.i]);
      var order := s.callers[j].key.order;
      if j != a.i && HoldsRow(s.callers[j], order) && s.callers[a.i].key.order == order {
        assert !HoldsRow(s.callers[a.i], s.callers[a.i].key.order);
      }
    }
  }

  lemma LocksStep(s: State, a: Action, i: nat, j: nat)
    requires ZombieInv(s) && Enabled(s, a) && i < |s.callers| && j < |s.callers| && i != j
    requires HoldsRow(Next(s, a).callers[i], s.callers[i].key.order)
    ensures !HoldsRow(Next(s, a).callers[j], s.callers[i].key.order)
  {
    if a.Go? && s.callers[a.i].pc.Work? {
      assert forall k :: 0 <= k < |s.callers| && k != a.i ==> !HoldsRow(s.callers[k], s.callers[a.i].key.order);
    }
  }

  lemma ZombieStep(s: State, a: Action)
    requires ZombieInv(s) && Enabled(s, a)
    ensures ZombieInv(Next(s, a))
  {
    var t := Next(s, a);
    EffectsStep(s, a);
    forall j | 0 <= j < |t.callers| ensures PendingOk(t, t.callers[j]) {
      PendingStep(s, a, j);
    }
    forall i, j | 0 <= i < |t.callers| && 0 <= j < |t.callers| && i != j &&
                  HoldsRow(t.callers[i], t.callers[i].key.order)
      ensures !HoldsRow(t.callers[j], t.callers[i].key.order)
    {
      LocksStep(s, a, i, j);
    }
  }

  lemma {:induction false} ZombieRun(s: State, acts: seq<Action>)
    requires Init(s) && IsRun(s, acts)
    ensures ZombieInv(Exec(s, acts))
    decreases |acts|
  {
    if acts != [] {
      ZombieRun(s, acts[..|acts| - 1]);
      ZombieStep(Exec(s, acts[..|acts| - 1]), acts[|acts| - 1]);
    }
  }

  /** At-most-once effect with no timing assumption: over every run, an order's domain row
      is inserted at most once and flipped from done to undone at most once, a flip only
      after the insert, and the row shows exactly which of the two have happened. */
  lemma AtMostOnceEffect(s: State, acts: seq<Action>, order: OrderId)
    requires Init(s) && IsRun(s, acts)
    ensures var db := Exec(s, acts).db;
      && Flips(db.log, order) <= Inserts(db.log, order) <= 1
      && (order in db.rows <==> Inserts(db.log, order) == 1)
      && (order in db.rows && db.rows[order].Undone? <==> Flips(db.log, order) == 1)
  {
    ZombieRun(s, acts);
  }

  // ---- Under the dead-owner hypothesis --------------------------------------

  /** Between claiming and committing. */
  predicate Owning(pc: Pc) {
    pc.Begin? || pc.Work? || pc.Complete? || pc.Commit?
  }

  predicate Holds(db: Db, key: Key, response: Response) {
    key in db.records && db.records[key] == Completed(response)
  }

  predicate CallerOk(s: State, i: nat) requires i < |s.callers| {
    var c := s.callers[i];
    && (Owning(c.pc) ==> c.key in s.db.records && s.db.records[c.key].InProgress? && s.db.records[c.key].owner == i)
    && (c.pc.Rollback? || c.pc.Release? ==>
          c.key in s.db.records && (s.db.records[c.key].InProgress? ==> s.db.records[c.key].owner == i))
    && (c.pc.Complete? || c.pc.Commit? ==> c.pc.response.key == c.key)
    && (c.pc.Commit? ==> c.pc.hit)
    && (c.pc.CacheSet? || c.pc.Returned? ==> Holds(s.db, c.key, c.pc.response))
  }

  function Commits(log: seq<Response>, key: Key): nat {
    if log == [] then 0
    else Commits(log[..|log| - 1], key) + if log[|log| - 1].key == key then 1 else 0
  }

  ghost predicate DbOk(db: Db) {
    && (forall k <- db.records :: db.records[k].Completed? ==>
          db.records[k].response in db.log && db.records[k].response.key == k)
    && (forall r <- db.log :: Holds(db, r.key, r))
    && (forall k <- db.cache :: Holds(db, k, db.cache[k]))
    && (forall k: Key :: Commits(db.log, k) == if k in db.records && db.records[k].Completed? then 1 else 0)
  }

  ghost predicate CleanInv(s: State) {
    && DbOk(s.db)
    && (forall i :: 0 <= i < |s.callers| ==> CallerOk(s, i))
    && (forall k <- s.db.records :: s.db.records[k].InProgress? ==>
          s.db.records[k].owner < |s.callers| && s.callers[s.db.records[k].owner].key == k)
  }

  lemma CommitKeepsDb(db: Db, key: Key, response: Response)
    requires DbOk(db) && response.key == key && key in db.records && db.records[key].InProgress?
    ensures DbOk(CommitWork(db, key, response, true))
  {
    var db' := CommitWork(db, key, response, true);
    assert db'.log[..|db'.log| - 1] == db.log;
    assert response in db'.log;
    forall r <- db.log ensures Holds(db', r.key, r) {
      assert Holds(db, r.key, r);
    }
  }

  lemma ActorGoes(s: State, a: Action)
    requires DbOk(s.db) && Enabled(s, a) && a.Go? && CallerOk(s, a.i)
    ensures CallerOk(Next(s, a), a.i)
  {
  }

  lemma ActorFails(s: State, a: Action)
    requires DbOk(s.db) && Enabled(s, a) && a.Fail? && CallerOk(s, a.i)
    ensures CallerOk(Next(s, a), a.i)
  {
  }

  lemma ActorStep(s: State, a: Action)
    requires CleanInv(s) && Enabled(s, a) && (a.Go? || a.Fail?)
    ensures CallerOk(Next(s, a), a.i)
  {
    assert CallerOk(s, a.i);
    if a.Go? {
      ActorGoes(s, a);
    } else {
      ActorFails(s, a);
    }
  }

  /** The record another caller relies on is still there after caller i's statement. */
  lemma BystanderStep(s: State, a: Action, j: nat)
    requires CleanInv(s) && Enabled(s, a) && DeadOwner(s, a) && (a.Go? || a.Fail?)
    requires j < |s.callers| && j != a.i
    ensures CallerOk(Next(s, a), j)
  {
    var c, i := s.callers[j], a.i;
    assert CallerOk(s, i) && CallerOk(s, j);
    var t := Next(s, a);
    assert t.callers[j] == c;
    if c.key != s.callers[i].key {
      assert c.key in t.db.records <==> c.key in s.db.records;
      assert c.key in s.db.records ==> t.db.records[c.key] == s.db.records[c.key];
    }
  }

  lemma CallerStep(s: State, a: Action, j: nat)
    requires CleanInv(s) && Enabled(s, a) && DeadOwner(s, a) && j < |s.callers|
    ensures CallerOk(Next(s, a), j)
  {
    assert CallerOk(s, j);
    if a.Go? || a.Fail? {
      if j == a.i {
        ActorStep(s, a);
      } else {
        BystanderStep(s, a, j);
      }
    }
  }

  /** A statement that commits no work leaves the completed records alone. */
  ghost predicate SameCompleted(db: Db, db': Db) {
    && db'.log == db.log && db'.rows == db.rows
    && (forall k: Key, r: Response :: Holds(db', k, r) <==> Holds(db, k, r))
  }

  lemma QuietStep(s: State, a: Action)
    requires CleanInv(s) && Enabled(s, a)
    requires (a.Go? || a.Fail?) ==> !s.callers[a.i].pc.Commit?
    ensures SameCompleted(s.db, Next(s, a).db)
    ensures forall k <- Next(s, a).db.cache :: Holds(s.db, k, Next(s, a).db.cache[k])
  {
    if a.Go? || a.Fail? {
      assert CallerOk(s, a.i);
    }
  }

  lemma QuietKeepsDb(db: Db, db': Db)
    requires DbOk(db) && SameCompleted(db, db')
    requires forall k <- db'.cache :: Holds(db, k, db'.cache[k])
    ensures DbOk(db')
  {
    forall r <- db'.log ensures Holds(db', r.key, r) {
      assert Holds(db, r.key, r);
    }
    forall k: Key
      ensures (k in db.records && db.records[k].Completed?) == (k in db'.records && db'.records[k].Completed?)
    {
      if k in db.records && db.records[k].Completed? {
        assert Holds(db, k, db.records[k].response);
      } else if k in db'.records && db'.records[k].Completed? {
        assert Holds(db', k, db'.records[k].response);
      }
    }
    forall k <- db'.records | db'.records[k].Completed?
      ensures db'.records[k].response in db'.log && db'.records[k].response.key == k
    {
      assert Holds(db', k, db'.records[k].response);
    }
  }

  lemma DbStep(s: State, a: Action)
    requires CleanInv(s) && Enabled(s, a)
    ensures DbOk(Next(s, a).db)
    ensures forall k <- s.db.records :: s.db.records[k].Completed? ==> Holds(Next(s, a).db, k, s.db.records[k].response)
  {
    if (a.Go? || a.Fail?) && s.callers[a.i].pc.Commit? {
      assert CallerOk(s, a.i);
      CommitKeepsDb(s.db, s.callers[a.i].key, s.callers[a.i].pc.response);
    } else {
      QuietStep(s, a);
      QuietKeepsDb(s.db, Next(s, a).db);
      forall k <- s.db.records | s.db.records[k].Completed? ensures Holds(Next(s, a).db, k, s.db.records[k].response) {
        assert Holds(s.db, k, s.db.records[k].response);
      }
    }
  }

  lemma SameKeys(s: State, a: Action)
    requires Enabled(s, a)
    ensures |Next(s, a).callers| == |s.callers|
    ensures forall i :: 0 <= i < |s.callers| ==> Next(s, a).callers[i].key == s.callers[i].key
  {
  }

  /** A claim is an old one or the acting caller's own. */
  lemma ClaimsStep(s: State, a: Action, k: Key)
    requires Enabled(s, a)
    requires k in Next(s, a).db.records && Next(s, a).db.records[k].InProgress?
    ensures var r := Next(s, a).db.records[k];
      || (k in s.db.records && s.db.records[k] == r)
      || ((a.Go? || a.Fail?) && k == s.callers[a.i].key && r.owner == a.i)
  {
  }

  lemma OwnersStep(s: State, a: Action)
    requires CleanInv(s) && Enabled(s, a)
    ensures var t := Next(s, a);
      forall k <- t.db.records :: t.db.records[k].InProgress? ==>
        t.db.records[k].owner < |t.callers| && t.callers[t.db.records[k].owner].key == k
  {
    var t := Next(s, a);
    SameKeys(s, a);
    forall k <- t.db.records | t.db.records[k].InProgress?
      ensures t.db.records[k].owner < |t.callers| && t.callers[t.db.records[k].owner].key == k
    {
      ClaimsStep(s, a, k);
    }
  }

  lemma CleanStep(s: State, a: Action)
    requires CleanInv(s) && Enabled(s, a) && DeadOwner(s, a)
    ensures CleanInv(Next(s, a))
    ensures forall k <- s.db.records :: s.db.records[k].Completed? ==> Holds(Next(s, a).db, k, s.db.records[k].response)
  {
    DbStep(s, a);
    OwnersStep(s, a);
    forall j | 0 <= j < |s.callers| ensures CallerOk(Next(s, a), j) {
      CallerStep(s, a, j);
    }
  }

  lemma {:induction false} CleanRunKeeps(s: State, acts: seq<Action>)
    requires Init(s) && IsRun(s, acts) && CleanRun(s, acts)
    ensures CleanInv(Exec(s, acts))
    decreases |acts|
  {
    if acts != [] {
      CleanRunKeeps(s, acts[..|acts| - 1]);
      CleanStep(Exec(s, acts[..|acts| - 1]), acts[|acts| - 1]);
    }
  }

  /** Exactly-once with replay: for any number of concurrent, retried or crashed calls, the
      work of a key commits at most once, and every caller that returned carries the result
      of that one commit, which is also what the record stores. */
  lemma ExactlyOnceWithReplay(s: State, acts: seq<Action>, i: nat)
    requires Init(s) && IsRun(s, acts) && CleanRun(s, acts) && i < |s.callers|
    ensures var t := Exec(s, acts);
      && |t.callers| == |s.callers|
      && Commits(t.db.log, t.callers[i].key) <= 1
      && (t.callers[i].pc.Returned? ==>
            && Commits(t.db.log, t.callers[i].key) == 1
            && t.callers[i].pc.response in t.db.log
            && t.callers[i].pc.response.key == t.callers[i].key
            && Holds(t.db, t.callers[i].key, t.callers[i].pc.response))
  {
    CleanRunKeeps(s, acts);
    SameCallers(s, acts);
    assert CallerOk(Exec(s, acts), i);
  }

  lemma {:induction false} SameCallers(s: State, acts: seq<Action>)
    requires IsRun(s, acts)
    ensures |Exec(s, acts).callers| == |s.callers|
    ensures forall i :: 0 <= i < |s.callers| ==> Exec(s, acts).callers[i].key == s.callers[i].key
    decreases |acts|
  {
    if acts != [] {
      SameCallers(s, acts[..|acts| - 1]);
      SameKeys(Exec(s, acts[..|acts| - 1]), acts[|acts| - 1]);
    }
  }

  /** A completed record is immutable: it holds the same response at every later point. */
  lemma {:induction false} CompletedForever(s: State, acts: seq<Action>, n: nat, key: Key, response: Response)
    requires Init(s) && IsRun(s, acts) && CleanRun(s, acts) && n <= |acts|
    requires IsRun(s, acts[..n]) && Holds(Exec(s, acts[..n]).db, key, response)
    ensures Holds(Exec(s, acts).db, key, response)
    decreases |acts|
  {
    if n < |acts| {
      var before := acts[..|acts| - 1];
      assert before[..n] == acts[..n];
      CompletedForever(s, before, n, key, response);
      CleanRunKeeps(s, before);
      CleanStep(Exec(s, before), acts[|acts| - 1]);
    } else {
      assert acts[..n] == acts;
    }
  }
}
