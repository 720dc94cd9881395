/** Why the atomicity of a service needs an isolation level with gap locks: a run in which an
    undo finds no row, the row is inserted, and the undo commits that it changed nothing. */
module Phantom {
  import opened Vocabulary
  import opened Idempotency
  import opened AtomicService

  const O: OrderId := "o"

  function Start(): State {
    State(Db(0, map[], map[], map[], []), [Caller(Key(O, Undo), 1, 1, CacheGet), Caller(Key(O, Do), 2, 1, CacheGet)])
  }

  /** The two callers, in the given places. */
  function Two(records: map<Key, Record>, rows: map<OrderId, RowStatus>, log: seq<Response>,
      undo: Pc, work: Pc): State
  {
    State(Db(0, records, rows, map[], log), [Caller(Key(O, Undo), 1, 1, undo), Caller(Key(O, Do), 2, 1, work)])
  }

  lemma Then(acts: seq<Action>, s: State, i: nat, t: State) returns (more: seq<Action>)
    requires IsRun(Start(), acts) && CleanRun(Start(), acts) && Exec(Start(), acts) == s
    requires Enabled(s, Go(i, false)) && DeadOwner(s, Go(i, false)) && Next(s, Go(i, false)) == t
    ensures IsRun(Start(), more) && CleanRun(Start(), more) && Exec(Start(), more) == t
  {
    more := acts + [Go(i, false)];
    RunSnoc(Start(), acts, Go(i, false));
  }

  /** The undo claims its key and finds no row to flip. */
  lemma UndoFindsNothing() returns (acts: seq<Action>, claimed: map<Key, Record>)
    ensures claimed == map[Key(O, Undo) := Record.InProgress(0, 0)]
    ensures IsRun(Start(), acts) && CleanRun(Start(), acts)
    ensures Exec(Start(), acts) == Two(claimed, map[], [], Complete(Response(Key(O, Undo), 1, false)), CacheGet)
  {
    claimed := map[Key(O, Undo) := Record.InProgress(0, 0)];
    assert Start() == Two(map[], map[], [], CacheGet, CacheGet);
    acts := Then([], Two(map[], map[], [], CacheGet, CacheGet), 0, Two(map[], map[], [], Insert, CacheGet));
    acts := Then(acts, Two(map[], map[], [], Insert, CacheGet), 0, Two(claimed, map[], [], Begin, CacheGet));
    acts := Then(acts, Two(claimed, map[], [], Begin, CacheGet), 0, Two(claimed, map[], [], Work, CacheGet));
    acts := Then(acts, Two(claimed, map[], [], Work, CacheGet), 0,
                 Two(claimed, map[], [], Complete(Response(Key(O, Undo), 1, false)), CacheGet));
  }

  function Missed(): Pc {
    Complete(Response(Key(O, Undo), 1, false))
  }

  function BothClaimed(): map<Key, Record> {
    map[Key(O, Undo) := Record.InProgress(0, 0), Key(O, Do) := Record.InProgress(0, 1)]
  }

  /** Meanwhile the forward operation claims its own key, */
  lemma InsertClaims() returns (acts: seq<Action>)
    ensures IsRun(Start(), acts) && CleanRun(Start(), acts)
    ensures Exec(Start(), acts) == Two(BothClaimed(), map[], [], Missed(), Begin)
  {
    var one;
    acts, one := UndoFindsNothing();
    acts := Then(acts, Two(one, map[], [], Missed(), CacheGet), 1, Two(one, map[], [], Missed(), Insert));
    assert one[Key(O, Do) := Record.InProgress(0, 1)] == BothClaimed();
    acts := Then(acts, Two(one, map[], [], Missed(), Insert), 1, Two(BothClaimed(), map[], [], Missed(), Begin));
  }

  /** inserts the row, */
  lemma InsertStarts() returns (acts: seq<Action>)
    ensures IsRun(Start(), acts) && CleanRun(Start(), acts)
    ensures Exec(Start(), acts) ==
      Two(BothClaimed(), map[], [], Missed(), Complete(Response(Key(O, Do), 2, true)))
  {
    var both, done := BothClaimed(), Complete(Response(Key(O, Do), 2, true));
    acts := InsertClaims();
    acts := Then(acts, Two(both, map[], [], Missed(), Begin), 1, Two(both, map[], [], Missed(), Work));
    acts := Then(acts, Two(both, map[], [], Missed(), Work), 1, Two(both, map[], [], Missed(), done));
  }

  /** and commits. */
  lemma InsertCommits() returns (acts: seq<Action>, t: State)
    ensures IsRun(Start(), acts) && CleanRun(Start(), acts) && Exec(Start(), acts) == t
    ensures |t.callers| == 2 && t.callers[0] == Caller(Key(O, Undo), 1, 1, Complete(Response(Key(O, Undo), 1, false)))
    ensures t.callers[1].key == Key(O, Do) && t.callers[1].pc.CacheSet?
    ensures t.db.rows == map[O := Done] && Key(O, Undo) in t.db.records
  {
    acts := InsertStarts();
    var both, r := BothClaimed(), Response(Key(O, Do), 2, true);
    var ready := Two(both, map[], [], Missed(), Commit(r, true));
    t := Two(both[Key(O, Do) := Completed(r)], map[O := Done], [r], Missed(), CacheSet(r, false));
    acts := Then(acts, Two(both, map[], [], Missed(), Complete(r)), 1, ready);
    acts := Then(acts, ready, 1, t);
  }

  /** Without gap locks: the undo's commit is the phantom, neither invisible nor an atomic
      execution, although every claim owner is alive and nothing failed. */
  lemma PhantomUndo() returns (acts: seq<Action>, a: Action)
    ensures Init(Start()) && IsRun(Start(), acts) && CleanRun(Start(), acts)
    ensures Enabled(Exec(Start(), acts), a) && DeadOwner(Exec(Start(), acts), a)
    ensures var x, y := Abs(Exec(Start(), acts).db), Abs(Next(Exec(Start(), acts), a).db);
      y != x && !Executes(x, y)
  {
    var t;
    acts, t := InsertCommits();
    var u := t.(callers := MoveTo(t.callers, 0, Commit(Response(Key(O, Undo), 1, false), true)));
    assert !RecordLocked(t, 0);
    acts := Then(acts, t, 0, u);
    a := Go(0, false);
    assert !NoPhantom(u, a);
    AtomicExactly(Start(), acts, a);
  }
}
