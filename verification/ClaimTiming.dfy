/** When a claim on an idempotency key stands and when it is free for another caller
    (packages/shared/src/idempotency.ts): which claims are taken over, what a call finds that
    comes to a key, and why calls that end within `staleAfter` make every run a clean one. */
module ClaimTiming {
  import opened Vocabulary
  import opened Idempotency
  import E = ExactlyOnce

  predicate Claimed(db: Db, key: Key) {
    key in db.records && db.records[key].InProgress?
  }

  /** How long the claim has stood. */
  function Age(db: Db, key: Key): int requires Claimed(db, key) {
    db.now - db.records[key].createdAt
  }

  /** The statement at the caller's pc reaches the server. */
  predicate Executes(s: State, a: Action) {
    (a.Go? || (a.Fail? && a.applied)) && a.i < |s.callers|
  }

  /** A claim on a key is the one that was there, or one that a caller of the key makes now:
      on a free key, or in place of a claim older than the caller's limit. */
  lemma ClaimMade(s: State, a: Action, key: Key)
    requires Enabled(s, a) && Claimed(Next(s, a).db, key)
    requires !Claimed(s.db, key) || Next(s, a).db.records[key] != s.db.records[key]
    ensures Executes(s, a) && s.callers[a.i].key == key
    ensures Next(s, a).db.records[key] == Record.InProgress(s.db.now, a.i)
    ensures key !in s.db.records || (Claimed(s.db, key) && Age(s.db, key) > s.callers[a.i].staleAfter)
  {
    match a
    case Go(i, _) => assert s.callers[i].pc.Insert? || s.callers[i].pc.Takeover?;
    case Fail(i, applied) => assert applied && (s.callers[i].pc.Insert? || s.callers[i].pc.Takeover?);
    case _ =>
  }

  // ---- What a call finds ----------------------------------------------------------

  /** A caller that has missed the cache, and whose key no open transaction has locked. */
  predicate Arrives(s: State, i: nat) {
    i < |s.callers| && s.callers[i].pc.Insert? && !RecordLocked(s, i)
  }

  /** Caller i's next n statements, with nobody else's between them. */
  function Steps(s: State, i: nat, n: nat): State
    requires i < |s.callers|
    decreases n
  {
    if n == 0 || !Enabled(s, Go(i, false)) then s else Steps(Next(s, Go(i, false)), i, n - 1)
  }

  lemma StillFree(s: State, i: nat)
    requires Arrives(s, i) && !s.callers[i].pc.Commit? && !Next(s, Go(i, false)).callers[i].pc.Commit?
    ensures !RecordLocked(Next(s, Go(i, false)), i)
  {
    var t := Next(s, Go(i, false));
    forall j | 0 <= j < |t.callers| && j != i ensures !HoldsRecord(t.callers[j], t.callers[i].key) {
      assert t.callers[j] == s.callers[j] && !HoldsRecord(s.callers[j], s.callers[i].key);
    }
  }

  /** The call owns the key and is about to begin its transaction. */
  predicate Owning(s: State, i: nat, at: int) {
    && i < |s.callers| && s.callers[i].pc.Begin?
    && s.callers[i].key in s.db.records && s.db.records[s.callers[i].key] == Record.InProgress(at, i)
  }

  /** A call on a free key claims it; on a completed one it is about to return the stored
      response; on a claim older than its limit it takes over; and on a younger one it is
      answered 409 and leaves the tables alone. */
  lemma CallFinds(s: State, i: nat)
    requires Arrives(s, i)
    ensures var key := s.callers[i].key; var t := Steps(s, i, 3);
      if key !in s.db.records then Owning(Steps(s, i, 1), i, s.db.now)
      else if s.db.records[key].Completed? then
        Steps(s, i, 2).db == s.db && Steps(s, i, 2).callers[i].pc == CacheSet(s.db.records[key].response, true)
      else if Age(s.db, key) > s.callers[i].staleAfter then Owning(t, i, s.db.now)
      else t.db == s.db && t.callers[i].pc.Threw?
  {
    var key := s.callers[i].key;
    assert Enabled(s, Go(i, false));
    var t1 := Next(s, Go(i, false));
    assert Steps(s, i, 1) == Steps(t1, i, 0) && Steps(s, i, 2) == Steps(t1, i, 1) && Steps(s, i, 3) == Steps(t1, i, 2);
    if key in s.db.records {
      StillFree(s, i);
      assert t1 == s.(callers := MoveTo(s.callers, i, Select)) && Enabled(t1, Go(i, false));
      var t2 := Next(t1, Go(i, false));
      assert Steps(t1, i, 1) == Steps(t2, i, 0) && Steps(t1, i, 2) == Steps(t2, i, 1);
    }
  }

  /** A call that failed frees its key: after its rollback and release the next call of that
      key claims it at once, unless the work had been committed all the same. */
  lemma FailedCallFrees(s: State, i: nat, j: nat)
    requires i < |s.callers| && s.callers[i].pc.Rollback? && !RecordLocked(s, i)
    requires Arrives(s, j) && s.callers[j].key == s.callers[i].key
    ensures var key := s.callers[i].key; var t := Steps(s, i, 2);
      && t.callers[i].pc.Threw? && !Claimed(t.db, key)
      && (key in t.db.records ==> key in s.db.records && t.db.records[key] == s.db.records[key])
      && Arrives(t, j) && (key !in t.db.records ==> Owning(Steps(t, j, 1), j, s.db.now))
  {
    var t1 := Next(s, Go(i, false));
    forall k | 0 <= k < |t1.callers| && k != i ensures !HoldsRecord(t1.callers[k], t1.callers[i].key) {
      assert !HoldsRecord(s.callers[k], s.callers[i].key);
    }
    assert Enabled(t1, Go(i, false));
    var t := Next(t1, Go(i, false));
    assert Steps(s, i, 2) == Steps(t1, i, 1) == Steps(t, i, 0) == t;
    forall k | 0 <= k < |t.callers| && k != j ensures !HoldsRecord(t.callers[k], t.callers[j].key) {
      assert k != i ==> !HoldsRecord(s.callers[k], s.callers[j].key);
    }
    CallFinds(t, j);
  }

  // ---- Over whole runs --------------------------------------------------------------

  /** Every call still at work has had its claim for no longer than any caller of the key
      waits before it takes over. */
  predicate Timely(s: State) {
    forall k <- s.db.records :: Claimed(s.db, k) && AtWork(s, s.db.records[k].owner) ==>
      forall c <- s.callers :: c.key == k ==> Age(s.db, k) <= c.staleAfter
  }

  predicate AtWork(s: State, i: nat) {
    i < |s.callers| && !Finished(s.callers[i].pc)
  }

  predicate TimelyRun(s: State, acts: seq<Action>) requires IsRun(s, acts) decreases |acts| {
    acts == [] || (TimelyRun(s, acts[..|acts| - 1]) && Timely(Exec(s, acts[..|acts| - 1])))
  }

  /** The dead-owner hypothesis is a matter of timing: where every call ends before its claim is
      old enough to be taken over, claims are taken over only from callers that have ended. So
      the work of a key commits at most once there, and every answer carries its one result. */
  lemma {:induction false} TimelyIsClean(s: State, acts: seq<Action>)
    requires IsRun(s, acts) && TimelyRun(s, acts)
    ensures CleanRun(s, acts)
    decreases |acts|
  {
    if acts != [] {
      var before, a := acts[..|acts| - 1], acts[|acts| - 1];
      TimelyIsClean(s, before);
      var t := Exec(s, before);
      if TakesOver(t, a) {
        var c := t.callers[a.i];
        assert c in t.callers && Claimed(t.db, c.key);
      }
    }
  }

  /** The claim phase is behind the caller. */
  predicate Past(pc: Pc) {
    !pc.CacheGet? && !pc.Insert? && !pc.Select? && !pc.Takeover?
  }

  /** Caller i's claim, for as long as it is at work on it. */
  predicate Stands(t: State, i: nat, at: int) {
    && i < |t.callers| && Past(t.callers[i].pc)
    && (E.Owning(t.callers[i].pc) ==>
          t.callers[i].key in t.db.records && t.db.records[t.callers[i].key] == Record.InProgress(at, i))
  }

  lemma StandsOn(t: State, a: Action, i: nat, at: int)
    requires E.CleanInv(t) && Enabled(t, a) && DeadOwner(t, a) && Stands(t, i, at)
    ensures Stands(Next(t, a), i, at)
  {
    var u := Next(t, a);
    E.SameKeys(t, a);
    E.CleanStep(t, a);
    assert E.CallerOk(t, i) && E.CallerOk(u, i);
    var key := u.callers[i].key;
    if E.Owning(u.callers[i].pc) && (!Claimed(t.db, key) || u.db.records[key] != t.db.records[key]) {
      ClaimMade(t, a, key);
    }
  }

  /** A claim stands, as it was made, for as long as its caller is at work on it. */
  lemma {:induction false} ClaimStands(s: State, acts: seq<Action>, n: nat, i: nat, at: int)
    requires Init(s) && IsRun(s, acts) && CleanRun(s, acts) && n <= |acts| && IsRun(s, acts[..n])
    requires Owning(Exec(s, acts[..n]), i, at)
    ensures Stands(Exec(s, acts), i, at)
    decreases |acts|
  {
    if n < |acts| {
      var before, a := acts[..|acts| - 1], acts[|acts| - 1];
      assert before[..n] == acts[..n];
      ClaimStands(s, before, n, i, at);
      E.CleanRunKeeps(s, before);
      StandsOn(Exec(s, before), a, i, at);
    } else {
      assert acts[..n] == acts;
    }
  }
}
