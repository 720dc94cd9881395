/** A refinement of the `runIdempotent` machine under the dead-owner hypothesis: every run with
    the cache is matched by a run that never gets anything from it. */
module CacheRefinement {
  import opened Vocabulary
  import opened Idempotency
  import opened ExactlyOnce

  function NoCache(s: State): State {
    s.(db := s.db.(cache := map[]))
  }

  /** A step whose cache reads miss and whose cache writes are refused. */
  predicate Uncached(a: Action) {
    a.Go? ==> !a.choice
  }

  lemma {:induction false} PlainConcat(s: State, a: seq<Action>, b: seq<Action>)
    requires IsRun(s, a) && IsRun(Exec(s, a), b)
    ensures IsRun(s, a + b) && Exec(s, a + b) == Exec(Exec(s, a), b)
    decreases |b|
  {
    if b == [] {
      assert a + b == a;
    } else {
      PlainConcat(s, a, b[..|b| - 1]);
      assert (a + b)[..|a + b| - 1] == a + b[..|b| - 1];
    }
  }

  lemma {:induction false} RunConcat(s: State, a: seq<Action>, b: seq<Action>)
    requires IsRun(s, a) && CleanRun(s, a)
    requires IsRun(Exec(s, a), b) && CleanRun(Exec(s, a), b)
    ensures IsRun(s, a + b) && CleanRun(s, a + b) && Exec(s, a + b) == Exec(Exec(s, a), b)
    decreases |b|
  {
    PlainConcat(s, a, b);
    if b == [] {
      assert a + b == a;
    } else {
      var b' := b[..|b| - 1];
      PlainConcat(s, a, b');
      RunConcat(s, a, b');
      assert (a + b)[..|a + b| - 1] == a + b';
    }
  }

  lemma OneStep(s: State, a: Action)
    requires Enabled(s, a) && DeadOwner(s, a)
    ensures IsRun(s, [a]) && CleanRun(s, [a]) && Exec(s, [a]) == Next(s, a)
  {
    RunSnoc(s, [], a);
    assert [] + [a] == [a];
  }

  lemma CachedIsCommitted(s: State, acts: seq<Action>, key: Key)
    requires Init(s) && IsRun(s, acts) && CleanRun(s, acts) && key in Exec(s, acts).db.cache
    ensures var db := Exec(s, acts).db; Holds(db, key, db.cache[key]) && db.cache[key] in db.log
  {
    CleanRunKeeps(s, acts);
  }

  lemma TwoSteps(s0: State, a: Action, s1: State, s2: State)
    requires Enabled(s0, a) && DeadOwner(s0, a) && s1 == Next(s0, a)
    requires Enabled(s1, a) && DeadOwner(s1, a) && s2 == Next(s1, a)
    ensures IsRun(s0, [a, a]) && CleanRun(s0, [a, a]) && Exec(s0, [a, a]) == s2
  {
    OneStep(s0, a);
    RunSnoc(s0, [a], a);
    assert [a] + [a] == [a, a];
  }

  lemma FourSteps(s0: State, a: Action, s1: State, s2: State, s3: State, s4: State)
    requires Enabled(s0, a) && DeadOwner(s0, a) && s1 == Next(s0, a)
    requires Enabled(s1, a) && DeadOwner(s1, a) && s2 == Next(s1, a)
    requires Enabled(s2, a) && DeadOwner(s2, a) && s3 == Next(s2, a)
    requires Enabled(s3, a) && DeadOwner(s3, a) && s4 == Next(s3, a)
    ensures IsRun(s0, [a, a, a, a]) && CleanRun(s0, [a, a, a, a]) && Exec(s0, [a, a, a, a]) == s4
  {
    TwoSteps(s0, a, s1, s2);
    TwoSteps(s2, a, s3, s4);
    RunConcat(s0, [a, a], [a, a]);
    assert [a, a, a, a] == [a, a] + [a, a];
  }

  /** With the key completed, nobody's transaction holds its record. */
  lemma CompletedUnlocked(s: State, i: nat)
    requires CleanInv(s) && i < |s.callers|
    requires s.callers[i].key in s.db.records && s.db.records[s.callers[i].key].Completed?
    ensures !RecordLocked(s, i)
  {
    forall j | 0 <= j < |s.callers| && j != i ensures !HoldsRecord(s.callers[j], s.callers[i].key) {
      assert CallerOk(s, j);
    }
  }

  /** A hit is what the database would have answered: the INSERT collides, the SELECT
      finds the completed record, and its response is the cached value. */
  lemma HitRefines(s: State, i: nat) returns (acts: seq<Action>)
    requires CleanInv(s) && i < |s.callers| && s.callers[i].pc.CacheGet? && s.callers[i].key in s.db.cache
    ensures forall a <- acts :: Uncached(a)
    ensures IsRun(NoCache(s), acts) && CleanRun(NoCache(s), acts)
    ensures Exec(NoCache(s), acts) == NoCache(Next(s, Go(i, true)))
  {
    var s0, key, go := NoCache(s), s.callers[i].key, Go(i, false);
    var response := s.db.cache[key];
    assert Holds(s.db, key, response);
    CompletedUnlocked(s, i);
    var s1 := State(s0.db, MoveTo(s0.callers, i, Insert));
    var s2 := State(s0.db, MoveTo(s0.callers, i, Select));
    var s3 := State(s0.db, MoveTo(s0.callers, i, CacheSet(response, true)));
    var s4 := State(s0.db, MoveTo(s0.callers, i, Returned(response, true)));
    assert s1 == Next(s0, go);
    assert !RecordLocked(s1, i);
    assert s2 == Next(s1, go);
    assert s3 == Next(s2, go);
    assert s4 == Next(s3, go);
    FourSteps(s0, go, s1, s2, s3, s4);
    acts := [go, go, go, go];
  }

  lemma SameStep(s: State, a: Action)
    requires Enabled(s, a) && DeadOwner(s, a) && !a.Evict?
    requires a.Go? && s.callers[a.i].pc.CacheGet? ==> !(a.choice && s.callers[a.i].key in s.db.cache)
    ensures var b := if a.Go? then Go(a.i, false) else a;
      Enabled(NoCache(s), b) && DeadOwner(NoCache(s), b) && Next(NoCache(s), b) == NoCache(Next(s, a))
  {
  }

  lemma StepRefines(s: State, a: Action) returns (acts: seq<Action>)
    requires CleanInv(s) && Enabled(s, a) && DeadOwner(s, a)
    ensures forall b <- acts :: Uncached(b)
    ensures IsRun(NoCache(s), acts) && CleanRun(NoCache(s), acts)
    ensures Exec(NoCache(s), acts) == NoCache(Next(s, a))
  {
    if a.Evict? {
      acts := [];
    } else if a.Go? && s.callers[a.i].pc.CacheGet? && a.choice && s.callers[a.i].key in s.db.cache {
      acts := HitRefines(s, a.i);
    } else {
      var b := if a.Go? then Go(a.i, false) else a;
      SameStep(s, a);
      OneStep(NoCache(s), b);
      acts := [b];
    }
  }

  /** For every run with a cache that drops, misses and refuses as it likes there is a run
      whose cache never answers and never stores, from the same start to the same tables
      and the same replies, `replayed` flags included. */
  lemma {:induction false} CacheRefines(s: State, acts: seq<Action>) returns (plain: seq<Action>)
    requires Init(s) && IsRun(s, acts) && CleanRun(s, acts)
    ensures forall b <- plain :: Uncached(b)
    ensures IsRun(s, plain) && CleanRun(s, plain) && Exec(s, plain) == NoCache(Exec(s, acts))
    decreases |acts|
  {
    if acts == [] {
      plain := [];
    } else {
      var before, last := acts[..|acts| - 1], acts[|acts| - 1];
      var start := CacheRefines(s, before);
      CleanRunKeeps(s, before);
      var rest := StepRefines(Exec(s, before), last);
      RunConcat(s, start, rest);
      plain := start + rest;
    }
  }
}
