/** The concurrent service, seen through its committed tables, is the atomic one the saga
    relies on: each operation is executed once, in one step, and answered from its record
    afterwards (packages/shared/src/idempotency.ts, services/payment/src/index.ts). */
module AtomicService {
  import opened Vocabulary
  import opened Idempotency
  import opened ExactlyOnce

  /** A service whose operations are atomic: what is done, the domain rows, the history. */
  datatype Atomic = Atomic(done: map<Key, Response>, rows: map<OrderId, RowStatus>, log: seq<Response>)

  function Abs(db: Db): Atomic {
    Atomic(map k | k in db.records && db.records[k].Completed? :: db.records[k].response, db.rows, db.log)
  }

  /** First delivery of a request: run the handler, remember its response. */
  predicate Execute(x: Atomic, y: Atomic, key: Key, payload: int) {
    && key !in x.done
    && !(key.op.Do? && key.order in x.rows)
    && var changed := key.op.Do? || (key.order in x.rows && x.rows[key.order].Done?);
       var response := Response(key, payload, changed);
       && y.done == x.done[key := response]
       && y.log == x.log + [response]
       && y.rows == if changed then x.rows[key.order := if key.op.Do? then Done else Undone] else x.rows
  }

  /** The row an undo found nothing to flip in is still not in its done state when the undo
      commits. */
  predicate NoPhantom(s: State, a: Action) requires Enabled(s, a) {
    (a.Go? || (a.Fail? && a.applied)) && s.callers[a.i].pc.Commit? ==>
      var c := s.callers[a.i];
      c.pc.response.changed || !(c.key.order in s.db.rows && s.db.rows[c.key.order].Done?)
  }

  predicate CommitStep(s: State, a: Action) {
    (a.Go? || (a.Fail? && a.applied)) && a.i < |s.callers| && s.callers[a.i].pc.Commit?
  }

  lemma CommitCompletes(db: Db, key: Key, response: Response)
    ensures Abs(CommitWork(db, key, response, true)).done == Abs(db).done[key := response]
  {
  }

  lemma CommitExecutes(s: State, a: Action)
    requires CleanInv(s) && ZombieInv(s) && Enabled(s, a) && CommitStep(s, a)
    ensures var c := s.callers[a.i]; var x, y := Abs(s.db), Abs(Next(s, a).db);
      && y.log == x.log + [c.pc.response] && c.pc.response.key == c.key
      && (NoPhantom(s, a) ==> Execute(x, y, c.key, c.pc.response.payload))
  {
    var c := s.callers[a.i];
    assert CallerOk(s, a.i) && PendingOk(s, c);
    CommitCompletes(s.db, c.key, c.pc.response);
  }

  lemma SameAbs(db: Db, db': Db)
    requires SameCompleted(db, db')
    ensures Abs(db') == Abs(db)
  {
    forall k: Key ensures k in Abs(db').done <==> k in Abs(db).done {
      if k in Abs(db).done {
        assert Holds(db, k, db.records[k].response);
      } else if k in Abs(db').done {
        assert Holds(db', k, db'.records[k].response);
      }
    }
    forall k | k in Abs(db).done ensures Abs(db').done[k] == Abs(db).done[k] {
      assert Holds(db, k, db.records[k].response);
    }
  }

  lemma OthersSkip(s: State, a: Action)
    requires CleanInv(s) && Enabled(s, a) && !CommitStep(s, a)
    ensures Abs(Next(s, a).db) == Abs(s.db)
  {
    if !(a.Fail? && s.callers[a.i].pc.Commit?) {
      QuietStep(s, a);
      SameAbs(s.db, Next(s, a).db);
    }
  }

  ghost predicate Executes(x: Atomic, y: Atomic) {
    exists key, payload :: Execute(x, y, key, payload)
  }

  lemma StepIsAtomic(s: State, a: Action)
    requires CleanInv(s) && ZombieInv(s) && Enabled(s, a) && DeadOwner(s, a)
    ensures NoPhantom(s, a) <==> Abs(Next(s, a).db) == Abs(s.db) || Executes(Abs(s.db), Abs(Next(s, a).db))
  {
    var x, y := Abs(s.db), Abs(Next(s, a).db);
    if CommitStep(s, a) {
      CommitExecutes(s, a);
      var response := s.callers[a.i].pc.response;
      assert |y.log| == |x.log| + 1 && y.log[|x.log|] == response;
      forall key, payload | Execute(x, y, key, payload) ensures NoPhantom(s, a) {
        assert y.log[|x.log|].key == key;
      }
    } else {
      OthersSkip(s, a);
    }
  }

  // ---- Isolation ----------------------------------------------------------------

  /** Between its work and the end of its transaction. */
  predicate Pending(pc: Pc) {
    pc.Complete? || pc.Commit?
  }

  /** A transaction whose undo UPDATE has searched the UNIQUE order id still holds the gap or
      the row it looked at. */
  predicate GapLocked(s: State, i: nat) requires i < |s.callers| {
    exists j :: 0 <= j < |s.callers| &&
      s.callers[j].key == Key(s.callers[i].key.order, Undo) && Pending(s.callers[j].pc)
  }

  /** REPEATABLE READ, InnoDB's default, which createPool leaves in place: a forward INSERT
      waits for such a lock. Weaker isolation levels take none. */
  predicate RepeatableRead(s: State, a: Action) {
    a.Go? && a.i < |s.callers| && s.callers[a.i].pc.Work? && s.callers[a.i].key.op.Do? ==> !GapLocked(s, a.i)
  }

  predicate DefaultIsolation(s: State, acts: seq<Action>) requires IsRun(s, acts) decreases |acts|, 1 {
    acts == [] ||
    (DefaultIsolation(s, acts[..|acts| - 1]) && RepeatableRead(Exec(s, acts[..|acts| - 1]), acts[|acts| - 1]))
  }

  /** While an undo that found nothing is pending, nobody inserts the row it missed. */
  predicate GapOk(s: State, i: nat, j: nat) requires i < |s.callers| && j < |s.callers| {
    var c, d := s.callers[i], s.callers[j];
    Pending(c.pc) && c.key.op.Undo? && !c.pc.response.changed ==>
      && !(c.key.order in s.db.rows && s.db.rows[c.key.order].Done?)
      && (d.key == Key(c.key.order, Do) ==> !Pending(d.pc))
  }

  ghost predicate GapInv(s: State) {
    forall i, j :: 0 <= i < |s.callers| && 0 <= j < |s.callers| ==> GapOk(s, i, j)
  }

  lemma GapStep(s: State, a: Action, i: nat, j: nat)
    requires ZombieInv(s) && GapInv(s) && Enabled(s, a) && RepeatableRead(s, a)
    requires i < |Next(s, a).callers| && j < |Next(s, a).callers|
    ensures GapOk(Next(s, a), i, j)
  {
    assert GapOk(s, i, j);
    if a.Go? || a.Fail? {
      assert GapOk(s, i, a.i);
      assert PendingOk(s, s.callers[a.i]) && PendingOk(s, s.callers[j]);
    }
  }

  lemma {:induction false} GapRun(s: State, acts: seq<Action>)
    requires Init(s) && IsRun(s, acts) && DefaultIsolation(s, acts)
    ensures GapInv(Exec(s, acts))
    decreases |acts|
  {
    if acts != [] {
      var before, a := acts[..|acts| - 1], acts[|acts| - 1];
      GapRun(s, before);
      ZombieRun(s, before);
      var t := Exec(s, acts);
      forall i, j | 0 <= i < |t.callers| && 0 <= j < |t.callers| ensures GapOk(t, i, j) {
        GapStep(Exec(s, before), a, i, j);
      }
    }
  }

  lemma GapFree(s: State, a: Action)
    requires ZombieInv(s) && GapInv(s) && Enabled(s, a)
    ensures NoPhantom(s, a)
  {
    if CommitStep(s, a) {
      assert GapOk(s, a.i, a.i) && PendingOk(s, s.callers[a.i]);
    }
  }

  // ---- Atomicity of the service ---------------------------------------------------

  /** At any isolation level, every step that any run can take next is, seen through the
      committed tables, invisible or one atomic first execution of one request, exactly as
      long as no undo commits an answer that a concurrent insert has made wrong. */
  lemma AtomicExactly(s: State, acts: seq<Action>, a: Action)
    requires Init(s) && IsRun(s, acts) && CleanRun(s, acts)
    requires Enabled(Exec(s, acts), a) && DeadOwner(Exec(s, acts), a)
    ensures var t := Exec(s, acts);
      NoPhantom(t, a) <==> Abs(Next(t, a).db) == Abs(t.db) || Executes(Abs(t.db), Abs(Next(t, a).db))
  {
    ZombieRun(s, acts);
    CleanRunKeeps(s, acts);
    StepIsAtomic(Exec(s, acts), a);
  }

  /** At the default isolation level every step is one or the other. */
  lemma ServiceIsAtomic(s: State, acts: seq<Action>, a: Action)
    requires Init(s) && IsRun(s, acts) && CleanRun(s, acts) && DefaultIsolation(s, acts)
    requires Enabled(Exec(s, acts), a) && DeadOwner(Exec(s, acts), a)
    ensures var t := Exec(s, acts);
      Abs(Next(t, a).db) == Abs(t.db) || Executes(Abs(t.db), Abs(Next(t, a).db))
  {
    AtomicExactly(s, acts, a);
    ZombieRun(s, acts);
    GapRun(s, acts);
    GapFree(Exec(s, acts), a);
  }
}
