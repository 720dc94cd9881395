/** The `notifications` table under any number of notifier instances
    (services/notification/src/notifier.ts): the statements, one atomic step each, and what
    every run of them keeps. A crash is an instance that takes no further step. */
module Notifier {
  import opened Vocabulary

  type Instance = string

  datatype NoteStatus = Claimed | Sent

  datatype Note = Note(status: NoteStatus, claimedBy: Instance, claimedAt: int, attempts: nat)

  /** One row per order, as UNIQUE(order_id) has it; times in milliseconds. */
  datatype State = State(rows: map<OrderId, Note>, now: int)

  /** `chosen` stands for whatever rows LIMIT leaves of those that match. */
  datatype Action =
    | Reclaim(i: Instance, chosen: set<OrderId>, staleSeconds: nat)
    | Claim(i: Instance, id: OrderId)
    | Send(i: Instance, id: OrderId)
    | Tick(elapsed: nat)

  /** Math.max(1, Math.ceil(staleMs / 1000)). */
  function StaleSeconds(staleMs: int): (seconds: nat)
    ensures seconds >= 1 && 1000 * seconds >= staleMs
    ensures seconds > 1 ==> 1000 * (seconds - 1) < staleMs
  {
    var up := (staleMs + 999) / 1000;
    if up < 1 then 1 else up
  }

  predicate IsStale(note: Note, now: int, staleSeconds: nat) {
    note.status.Claimed? && note.claimedAt < now - 1000 * staleSeconds
  }

  function Stale(s: State, staleSeconds: nat): set<OrderId> {
    set id | id in s.rows && IsStale(s.rows[id], s.now, staleSeconds)
  }

  function ReclaimRows(s: State, i: Instance, chosen: set<OrderId>, staleSeconds: nat): map<OrderId, Note> {
    map id | id in s.rows ::
      if id in chosen && IsStale(s.rows[id], s.now, staleSeconds)
      then s.rows[id].(claimedBy := i, claimedAt := s.now)
      else s.rows[id]
  }

  predicate MaySend(s: State, i: Instance, id: OrderId) {
    id in s.rows && s.rows[id].status.Claimed? && s.rows[id].claimedBy == i
  }

  function Next(s: State, a: Action): State {
    match a
    case Reclaim(i, chosen, staleSeconds) => s.(rows := ReclaimRows(s, i, chosen, staleSeconds))
    case Claim(i, id) => if id in s.rows then s else s.(rows := s.rows[id := Note(Claimed, i, s.now, 0)])
    case Send(i, id) =>
      if MaySend(s, i, id)
      then s.(rows := s.rows[id := s.rows[id].(status := Sent, attempts := s.rows[id].attempts + 1)])
      else s
    case Tick(elapsed) => s.(now := s.now + elapsed)
  }

  function After(s: State, acts: seq<Action>): State {
    if acts == [] then s else Next(After(s, acts[..|acts| - 1]), acts[|acts| - 1])
  }

  lemma {:induction false} AfterAppend(s: State, a: seq<Action>, b: seq<Action>)
    ensures After(s, a + b) == After(After(s, a), b)
  {
    if b == [] {
      assert a + b == a;
    } else {
      AfterAppend(s, a, b[..|b| - 1]);
      assert (a + b)[..|a + b| - 1] == a + b[..|b| - 1];
    }
  }

  // ---- Exactly once ---------------------------------------------------------------

  predicate IsSent(s: State, id: OrderId) {
    id in s.rows && s.rows[id].status.Sent?
  }

  ghost predicate Counted(s: State) {
    forall id <- s.rows :: s.rows[id].attempts == if s.rows[id].status.Sent? then 1 else 0
  }

  /** How many steps of the run turn the order's notification from CLAIMED into SENT. */
  function Sends(s: State, acts: seq<Action>, id: OrderId): nat {
    if acts == [] then 0
    else
      var before := After(s, acts[..|acts| - 1]);
      Sends(s, acts[..|acts| - 1], id)
      + if !IsSent(before, id) && IsSent(Next(before, acts[|acts| - 1]), id) then 1 else 0
  }

  lemma StepKeeps(s: State, a: Action)
    ensures Counted(s) ==> Counted(Next(s, a))
    ensures s.rows.Keys <= Next(s, a).rows.Keys
    ensures forall id <- s.rows :: s.rows[id].status.Sent? ==> Next(s, a).rows[id] == s.rows[id]
    ensures forall id <- Next(s, a).rows :: id !in s.rows ==> Next(s, a).rows[id].status.Claimed?
  {
  }

  /** For every interleaving of every instance's jobs, finished or not: a row, once there,
      stays; a SENT row never changes again; an order is sent once exactly when its row says
      so, and `attempts` is that number. */
  lemma {:induction false} ExactlyOnce(s: State, acts: seq<Action>, id: OrderId)
    requires Counted(s)
    ensures var t := After(s, acts);
      && Counted(t) && s.rows.Keys <= t.rows.Keys
      && (IsSent(s, id) ==> id in t.rows && t.rows[id] == s.rows[id] && Sends(s, acts, id) == 0)
      && (!IsSent(s, id) ==> Sends(s, acts, id) == (if IsSent(t, id) then 1 else 0) <= 1)
      && (id in t.rows ==> t.rows[id].attempts == if IsSent(t, id) then 1 else 0)
  {
    if acts != [] {
      var n := |acts| - 1;
      ExactlyOnce(s, acts[..n], id);
      StepKeeps(After(s, acts[..n]), acts[n]);
    }
  }

  /** Only an INSERT that found no row wins a claim, so of all the claims of one order in a
      run exactly one does. */
  function Wins(s: State, acts: seq<Action>, id: OrderId): nat {
    if acts == [] then 0
    else
      var n := |acts| - 1;
      Wins(s, acts[..n], id) + if acts[n].Claim? && acts[n].id == id && id !in After(s, acts[..n]).rows then 1 else 0
  }

  lemma {:induction false} OneWinner(s: State, acts: seq<Action>, id: OrderId)
    requires id !in s.rows
    ensures Wins(s, acts, id) == if id in After(s, acts).rows then 1 else 0
    ensures id in After(s, acts).rows <==> exists k :: 0 <= k < |acts| && acts[k].Claim? && acts[k].id == id
  {
    if acts != [] {
      var n := |acts| - 1;
      OneWinner(s, acts[..n], id);
      if exists k :: 0 <= k < |acts| && acts[k].Claim? && acts[k].id == id {
        var k :| 0 <= k < |acts| && acts[k].Claim? && acts[k].id == id;
        assert k < n ==> acts[..n][k] == acts[k];
      }
    }
  }

  // ---- Whose a claim is ---------------------------------------------------------------

  /** What a step may do to a row that is there: a claim older than the reclaimer's threshold
      gets a new holder, if it is among the chosen rows; and a CLAIMED row becomes SENT exactly
      when its holder sends it. Anything else leaves it alone. */
  lemma RowExact(s: State, a: Action, id: OrderId)
    requires id in s.rows
    ensures id in Next(s, a).rows
    ensures var x, y := s.rows[id], Next(s, a).rows[id];
      var taken := a.Reclaim? && id in a.chosen && x.status.Claimed? && s.now - x.claimedAt > 1000 * a.staleSeconds;
      var sent := a.Send? && a.id == id && x.status.Claimed? && x.claimedBy == a.i;
      if taken then y == Note(Claimed, a.i, s.now, x.attempts)
      else if sent then y == Note(Sent, x.claimedBy, x.claimedAt, x.attempts + 1)
      else y == x
  {
  }

  /** A claim stays with its holder until it is as old as the threshold of every reclaim in the
      run: until then nobody else takes it over, and nobody else sends it. */
  lemma {:induction false} ClaimHeld(s: State, acts: seq<Action>, id: OrderId, seconds: nat)
    requires id in s.rows && forall a <- acts :: a.Reclaim? ==> a.staleSeconds >= seconds
    requires After(s, acts).now <= s.rows[id].claimedAt + 1000 * seconds
    ensures var t := After(s, acts);
      && s.now <= t.now && id in t.rows
      && t.rows[id].claimedBy == s.rows[id].claimedBy && t.rows[id].claimedAt == s.rows[id].claimedAt
      && (s.rows[id].status.Claimed? && t.rows[id].status.Sent? ==> Send(s.rows[id].claimedBy, id) in acts)
  {
    if acts != [] {
      var n := |acts| - 1;
      assert acts[n] in acts && forall a <- acts[..n] :: a in acts;
      ClaimHeld(s, acts[..n], id, seconds);
      RowExact(After(s, acts[..n]), acts[n], id);
    }
  }
}
