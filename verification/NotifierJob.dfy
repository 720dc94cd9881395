/** One notification job (runNotificationJob in services/notification/src/notifier.ts), with
    other instances' statements between its own, and statements that fail. Every method
    extends a run of the machine in module Notifier, so what that module proves of all runs
    holds through and after every job. */
module NotifierJob {
  import opened Vocabulary
  import opened Notifier
  import Sets

  /** A statement is executed and answered, not executed, or executed with its answer lost. */
  datatype Fate = Answered | Dropped | Unheard

  /** What a job does not decide: the fate of its k-th statement, what other instances do
      before it, which rows a LIMIT without ORDER BY selects, and the shipped orders the
      fetch returns, if it does. */
  datatype Env = Env(
    fate: nat -> Fate,
    others: nat -> seq<Action>,
    pick: (nat, set<OrderId>, nat) -> seq<OrderId>,
    shipped: Option<seq<OrderId>>)

  function Elements(ids: seq<OrderId>): set<OrderId> {
    set id | id in ids
  }

  ghost predicate Distinct(ids: seq<OrderId>) {
    forall j, k :: 0 <= j < k < |ids| ==> ids[j] != ids[k]
  }

  function Min(a: nat, b: nat): nat { if a < b then a else b }

  /** A LIMIT yields distinct rows that match, and as many as there are up to the limit. */
  ghost predicate Limits(env: Env) {
    forall k, matching, n ::
      var ids := env.pick(k, matching, n);
      Distinct(ids) && Elements(ids) <= matching && |ids| == Min(n, |matching|)
  }

  /** Nothing of ours fails; others may still interfere. */
  ghost predicate Reliable(env: Env) {
    forall k :: env.fate(k).Answered?
  }

  /** Nothing fails and nobody interferes. */
  ghost predicate Calm(env: Env) {
    && Reliable(env)
    && (forall k :: env.others(k) == [])
    && env.shipped.Some?
  }

  /** The rows that still have to be sent. */
  function Backlog(s: State): set<OrderId> {
    set id | id in s.rows && s.rows[id].status.Claimed?
  }

  function Mine(s: State, me: Instance): set<OrderId> {
    set id | id in s.rows && s.rows[id].status.Claimed? && s.rows[id].claimedBy == me
  }

  lemma {:induction false} DistinctSize(ids: seq<OrderId>)
    requires Distinct(ids)
    ensures |Elements(ids)| == |ids|
  {
    if ids != [] {
      var n := |ids| - 1;
      DistinctSize(ids[..n]);
      assert Elements(ids) == Elements(ids[..n]) + {ids[n]};
    }
  }

  /** No claim is dated after the clock. */
  ghost predicate NotFuture(s: State) {
    forall id <- s.rows :: s.rows[id].claimedAt <= s.now
  }

  /** What later states keep of earlier ones, in every run. */
  ghost predicate Keeps(s: State, t: State) {
    && s.rows.Keys <= t.rows.Keys
    && (forall id <- s.rows :: s.rows[id].status.Sent? ==> t.rows[id] == s.rows[id])
    && (NotFuture(s) ==> NotFuture(t))
    && (Counted(s) ==> Counted(t))
  }

  lemma NextKeeps(s: State, a: Action)
    ensures Keeps(s, Next(s, a))
  {
    StepKeeps(s, a);
  }

  /** affectedRows is 1. */
  predicate Hits(s: State, a: Action) {
    || (a.Claim? && a.id !in s.rows)
    || (a.Send? && MaySend(s, a.i, a.id))
  }

  // ---- Facts about a quiet reclaim and quiet sends ----------------------------------

  /** The follow-up SELECT need not return the rows just taken over, but it returns at least
      as many. */
  lemma ReclaimSelects(env: Env, s: State, me: Instance, k: nat, batch: nat, seconds: nat)
    requires Limits(env)
    ensures var taken := Elements(env.pick(k, Stale(s, seconds), batch));
      var t := Next(s, Reclaim(me, taken, seconds));
      var ids := env.pick(k + 1, Mine(t, me), batch);
      && Backlog(t) == Backlog(s) && t.rows.Keys == s.rows.Keys
      && Distinct(ids) && Elements(ids) <= Mine(t, me)
      && Min(batch, |Stale(s, seconds)|) <= |ids| <= batch
  {
    var picked := env.pick(k, Stale(s, seconds), batch);
    DistinctSize(picked);
    var t := Next(s, Reclaim(me, Elements(picked), seconds));
    Sets.SubsetSize(Elements(picked), Mine(t, me));
  }

  lemma SendRemoves(s: State, me: Instance, id: OrderId)
    requires id in Mine(s, me)
    ensures var t := Next(s, Send(me, id));
      && IsSent(t, id) && t.rows.Keys == s.rows.Keys
      && Backlog(t) == Backlog(s) - {id} && Mine(t, me) == Mine(s, me) - {id}
  {
  }

  /** How many of a job's statements from number `from` on got no answer. */
  function Failures(env: Env, from: nat, n: nat): nat {
    if n == 0 then 0 else Failures(env, from, n - 1) + if env.fate(from + n - 1).Answered? then 0 else 1
  }

  lemma {:induction false} NoFailures(env: Env, from: nat, n: nat)
    requires Reliable(env)
    ensures Failures(env, from, n) == 0
  {
    if n > 0 {
      NoFailures(env, from, n - 1);
      assert env.fate(from + n - 1).Answered?;
    }
  }

  /** These orders were not SENT before, are now, and it was this instance that held them. */
  predicate Delivered(s: State, t: State, me: Instance, ids: set<OrderId>) {
    forall id <- ids :: !IsSent(s, id) && IsSent(t, id) && t.rows[id].claimedBy == me
  }

  /** Between the two states that many orders became SENT in this instance's hands. */
  ghost predicate Delivers(s: State, t: State, me: Instance, sent: nat) {
    exists ids: set<OrderId> :: |ids| == sent && Delivered(s, t, me, ids)
  }

  lemma DeliveredLater(s: State, t: State, u: State, me: Instance, ids: set<OrderId>)
    requires Keeps(t, u) && Delivered(s, t, me, ids)
    ensures Delivered(s, u, me, ids)
  {
    forall id <- ids ensures IsSent(u, id) && u.rows[id].claimedBy == me {
      assert IsSent(t, id);
    }
  }

  /** A send that hits delivers one order more. */
  lemma DeliverOne(s: State, mid: State, me: Instance, ids: set<OrderId>, id: OrderId)
    requires Keeps(s, mid) && Delivered(s, mid, me, ids) && MaySend(mid, me, id)
    ensures id !in ids && Delivered(s, Next(mid, Send(me, id)), me, ids + {id})
  {
    NextKeeps(mid, Send(me, id));
    DeliveredLater(s, mid, Next(mid, Send(me, id)), me, ids);
  }

  lemma SentOverall(s: State, ready: State, t: State, me: Instance, sent: nat)
    requires Keeps(s, ready) && Delivers(ready, t, me, sent)
    ensures Delivers(s, t, me, sent)
  {
    var ids: set<OrderId> :| |ids| == sent && Delivered(ready, t, me, ids);
    forall id <- ids ensures !IsSent(s, id) {
      assert !IsSent(ready, id);
    }
    assert Delivered(s, t, me, ids);
  }

  datatype JobResult = JobResult(
    shippedSeen: nat, reclaimed: nat, claimed: nat, sent: nat, alreadyHandled: nat, failed: nat)

  class Notifications {
    var s: State
    ghost var start: State
    ghost var trace: seq<Action>

    ghost predicate Valid()
      reads this
    {
      s == After(start, trace)
    }

    constructor (s: State)
      ensures Valid() && this.s == s && start == s && trace == []
    {
      this.s, start, trace := s, s, [];
    }

    /** The run is a longer one, and so keeps what every run keeps. */
    twostate predicate Extends()
      reads this
    {
      start == old(start) && old(trace) <= trace && Keeps(old(s), s)
    }

    method Execute(a: Action)
      requires Valid()
      modifies this
      ensures Valid() && Extends() && s == Next(old(s), a)
    {
      NextKeeps(s, a);
      s := Next(s, a);
      trace := trace + [a];
    }

    /** Other instances' statements. */
    method Interfere(acts: seq<Action>)
      requires Valid()
      modifies this
      ensures Valid() && Extends()
      ensures acts == [] ==> s == old(s)
    {
      for k := 0 to |acts|
        invariant Valid() && Extends()
        invariant k == 0 ==> s == old(s)
      {
        Execute(acts[k]);
      }
    }

    /** Our k-th statement meets its fate; `hit` is what affectedRows says. */
    method Apply(env: Env, k: nat, a: Action) returns (answered: bool, hit: bool)
      requires Valid()
      modifies this
      ensures Valid() && Extends()
      ensures answered <==> env.fate(k).Answered?
      ensures answered ==> s == Next(old(s), a) && (hit <==> Hits(old(s), a))
    {
      hit := Hits(s, a);
      if env.fate(k) != Dropped {
        Execute(a);
      }
      answered := env.fate(k) == Answered;
    }

    /** reclaimStale: None when a statement failed, which ends the job. */
    method ReclaimStale(env: Env, me: Instance, batch: nat, staleMs: int) returns (ids: Option<seq<OrderId>>)
      requires Valid() && Limits(env)
      modifies this
      ensures Valid() && Extends()
      ensures Reliable(env) ==> ids.Some?
      ensures ids.Some? ==> |ids.value| <= batch && Elements(ids.value) <= Mine(s, me)
      ensures Calm(env) ==>
        && ids.Some? && Distinct(ids.value)
        && |ids.value| >= Min(batch, |Stale(old(s), StaleSeconds(staleMs))|)
        && Backlog(s) == Backlog(old(s)) && s.rows.Keys == old(s).rows.Keys && s.now == old(s).now
    {
      var seconds := StaleSeconds(staleMs);
      ReclaimSelects(env, s, me, 0, batch, seconds);
      Interfere(env.others(0));
      var taken := Elements(env.pick(0, Stale(s, seconds), batch));
      var answered, _ := Apply(env, 0, Reclaim(me, taken, seconds));
      if !answered {
        return None;
      }
      Interfere(env.others(1));
      if env.fate(1) != Answered {
        return None;
      }
      return Some(env.pick(1, Mine(s, me), batch));
    }

    /** The claim loop: an INSERT that fails ends the job. */
    method ClaimAll(env: Env, me: Instance, shipped: seq<OrderId>, reclaimed: seq<OrderId>)
      returns (done: bool, mine: seq<OrderId>, claimed: nat, already: nat)
      requires Valid()
      modifies this
      ensures Valid() && Extends()
      ensures Reliable(env) ==> done
      ensures done ==> claimed + already == |shipped| && |mine| == |reclaimed| + claimed
      ensures done ==> forall id <- shipped :: id in s.rows
      ensures Calm(env) && Distinct(reclaimed) && Elements(reclaimed) <= Mine(old(s), me) ==>
        done && Held(old(s), s, me, reclaimed, mine) && forall id <- shipped :: id in old(s).rows || id in mine
    {
      ghost var before := s;
      mine, claimed, already := reclaimed, 0, 0;
      for k := 0 to |shipped|
        invariant Valid() && Extends()
        invariant claimed + already == k && |mine| == |reclaimed| + claimed
        invariant forall j :: 0 <= j < k ==> shipped[j] in s.rows
        invariant Calm(env) && Distinct(reclaimed) && Elements(reclaimed) <= Mine(before, me) ==>
          && Held(before, s, me, reclaimed, mine)
          && forall j :: 0 <= j < k ==> shipped[j] in before.rows || shipped[j] in mine
      {
        Interfere(env.others(2 + k));
        ghost var mid := s;
        var answered, won := Apply(env, 2 + k, Claim(me, shipped[k]));
        if !answered {
          return false, mine, claimed, already;
        }
        HeldClaim(before, mid, me, reclaimed, mine, shipped[k]);
        if won {
          mine, claimed := mine + [shipped[k]], claimed + 1;
        } else {
          already := already + 1;
        }
      }
      return true, mine, claimed, already;
    }

    /** One send, after whatever others do before it. */
    method SendOne(env: Env, k: nat, me: Instance, id: OrderId, ghost before: State, ghost ids: set<OrderId>)
      returns (answered: bool, changed: bool, ghost more: set<OrderId>)
      requires Valid() && Keeps(before, s) && Delivered(before, s, me, ids)
      modifies this
      ensures Valid() && Extends()
      ensures answered <==> env.fate(k).Answered?
      ensures |more| == |ids| + (if answered && changed then 1 else 0) && Delivered(before, s, me, more)
      ensures Calm(env) ==> s == Next(old(s), Send(me, id)) && (changed <==> MaySend(old(s), me, id))
    {
      Interfere(env.others(k));
      ghost var mid := s;
      DeliveredLater(before, old(s), mid, me, ids);
      answered, changed := Apply(env, k, Send(me, id));
      if answered && changed {
        DeliverOne(before, mid, me, ids, id);
        more := ids + {id};
      } else {
        DeliveredLater(before, mid, s, me, ids);
        more := ids;
      }
    }

    /** The send loop: a send that fails is counted and left for a later sweep, the others go
        on; `sent` counts orders that became SENT in this instance's hands. */
    method SendAll(env: Env, me: Instance, mine: seq<OrderId>, from: nat) returns (sent: nat, failed: nat)
      requires Valid()
      modifies this
      ensures Valid() && Extends()
      ensures sent + failed <= |mine| && failed == Failures(env, from, |mine|) && (Reliable(env) ==> failed == 0)
      ensures Delivers(old(s), s, me, sent)
      ensures Calm(env) && Distinct(mine) && Elements(mine) <= Mine(old(s), me) ==>
        && sent == |mine| && failed == 0
        && s.rows.Keys == old(s).rows.Keys && s.now == old(s).now
        && Backlog(s) == Backlog(old(s)) - Elements(mine)
        && forall id <- mine :: IsSent(s, id)
    {
      ghost var before := s;
      ghost var delivered: set<OrderId> := {};
      sent, failed := 0, 0;
      for k := 0 to |mine|
        invariant Valid() && Extends()
        invariant sent + failed <= k && failed == Failures(env, from, k)
        invariant |delivered| == sent && Delivered(before, s, me, delivered)
        invariant Calm(env) && Distinct(mine) && Elements(mine) <= Mine(before, me) ==>
          sent == k && SentSome(before, s, me, mine, k)
      {
        ghost var mid := s;
        var answered, changed;
        answered, changed, delivered := SendOne(env, from + k, me, mine[k], before, delivered);
        if !answered {
          failed := failed + 1;
        } else if changed {
          sent := sent + 1;
        }
        SendNext(before, mid, me, mine, k);
      }
      if Reliable(env) {
        NoFailures(env, from, |mine|);
      }
    }

    /** runNotificationJob: reclaim, fetch, claim, send. None is a job that threw. Whatever
        interferes, a job that got through its claim loop leaves a row for every order it
        fetched. A calm job sends everything it holds: at least as many of the stale rows as
        the batch allows, and every order it was the first to claim. */
    method RunNotificationJob(env: Env, me: Instance, batch: nat, staleMs: int) returns (result: Option<JobResult>)
      requires Valid() && Limits(env)
      modifies this
      ensures Valid() && Extends()
      ensures Reliable(env) && env.shipped.Some? ==> result.Some? && result.value.failed == 0
      ensures result.Some? ==>
        && env.shipped.Some? && (forall id <- env.shipped.value :: id in s.rows)
        && result.value.shippedSeen == |env.shipped.value| == result.value.claimed + result.value.alreadyHandled
        && result.value.reclaimed <= batch
        && result.value.sent + result.value.failed <= result.value.reclaimed + result.value.claimed
        && result.value.failed ==
             Failures(env, 2 + |env.shipped.value|, result.value.reclaimed + result.value.claimed)
        && Delivers(old(s), s, me, result.value.sent)
      ensures Calm(env) ==>
        && result.Some? && result.value.failed == 0
        && result.value.sent == result.value.reclaimed + result.value.claimed
        && result.value.reclaimed >= Min(batch, |Stale(old(s), StaleSeconds(staleMs))|)
        && Backlog(s) <= Backlog(old(s)) && |Backlog(s)| + result.value.reclaimed <= |Backlog(old(s))|
        && (forall id <- env.shipped.value :: id in old(s).rows || IsSent(s, id))
    {
      ghost var before := s;
      var reclaimed := ReclaimStale(env, me, batch, staleMs);
      if reclaimed.None? || env.shipped.None? {
        return None;
      }
      var shipped := env.shipped.value;
      ghost var taken := s;
      var done, mine, claimed, already := ClaimAll(env, me, shipped, reclaimed.value);
      if !done {
        return None;
      }
      ghost var ready := s;
      var sent, failed := SendAll(env, me, mine, 2 + |shipped|);
      SentOverall(before, ready, s, me, sent);
      if Calm(env) {
        JobDrains(before, taken, ready, s, me, reclaimed.value, mine);
      }
      return Some(JobResult(|shipped|, |reclaimed.value|, claimed, sent, already, failed));
    }

    /** One calm job, begun when every claim has gone stale, takes a batch off the backlog. */
    method WaitAndRun(env: Env, me: Instance, wait: nat, batch: nat, staleMs: int)
      requires Valid() && NotFuture(s)
      requires Limits(env) && Calm(env) && wait > 1000 * StaleSeconds(staleMs)
      modifies this
      ensures Valid() && Extends()
      ensures Backlog(s) <= Backlog(old(s))
      ensures |Backlog(s)| <= Remaining(|Backlog(old(s))|, batch, 1)
    {
      AllStale(s, wait, StaleSeconds(staleMs));
      Execute(Tick(wait));
      var result := RunNotificationJob(env, me, batch, staleMs);
    }

    /** Calm jobs, of whatever instances, each begun when every claim made so far has gone
        stale: every sweep takes a batch off the backlog, until there is none. */
    method Sweep(envs: nat -> Env, who: nat -> Instance, wait: nat -> nat, sweeps: nat, batch: nat, staleMs: int)
      requires Valid() && NotFuture(s)
      requires forall k :: Limits(envs(k)) && Calm(envs(k)) && wait(k) > 1000 * StaleSeconds(staleMs)
      modifies this
      ensures Valid() && Extends()
      ensures |Backlog(s)| <= Remaining(|Backlog(old(s))|, batch, sweeps)
      ensures Backlog(s) <= Backlog(old(s))
    {
      ghost var before := s;
      for k := 0 to sweeps
        invariant Valid() && Extends()
        invariant |Backlog(s)| <= Remaining(|Backlog(before)|, batch, k)
        invariant Backlog(s) <= Backlog(before)
      {
        assert Limits(envs(k)) && Calm(envs(k)) && wait(k) > 1000 * StaleSeconds(staleMs);
        WaitAndRun(envs(k), who(k), wait(k), batch, staleMs);
      }
    }
  }

  /** What is left of a backlog after a number of full batches. */
  function Remaining(backlog: nat, batch: nat, sweeps: nat): nat {
    if sweeps == 0 then backlog
    else
      var left := Remaining(backlog, batch, sweeps - 1);
      if left <= batch then 0 else left - batch
  }

  /** So ceil(backlog / batch) sweeps are enough. */
  lemma {:induction false} BoundedSweeps(backlog: nat, batch: nat, sweeps: nat)
    ensures Remaining(backlog, batch, sweeps) == if backlog <= sweeps * batch then 0 else backlog - sweeps * batch
  {
    if sweeps > 0 {
      BoundedSweeps(backlog, batch, sweeps - 1);
      assert sweeps * batch == (sweeps - 1) * batch + batch;
    }
  }

  lemma AllStale(s: State, wait: nat, seconds: nat)
    requires NotFuture(s) && wait > 1000 * seconds
    ensures var t := Next(s, Tick(wait));
      Stale(t, seconds) == Backlog(t) == Backlog(s)
  {
  }

  /** Reclaimed rows leave the backlog and nothing joins it. */
  lemma JobDrains(s: State, taken: State, ready: State, t: State,
      me: Instance, reclaimed: seq<OrderId>, mine: seq<OrderId>)
    requires Distinct(reclaimed) && Elements(reclaimed) <= Mine(taken, me) && Backlog(taken) == Backlog(s)
    requires Held(taken, ready, me, reclaimed, mine)
    requires Backlog(t) == Backlog(ready) - Elements(mine)
    ensures Backlog(t) <= Backlog(s) && |Backlog(t)| + |reclaimed| <= |Backlog(s)|
  {
    assert forall id <- Elements(reclaimed) :: id in mine;
    assert Backlog(t) <= Backlog(s) - Elements(reclaimed);
    DistinctSize(reclaimed);
    Sets.SubsetSize(Backlog(t), Backlog(s) - Elements(reclaimed));
    assert Elements(reclaimed) <= Backlog(s);
  }

  /** Holding `mine` after claiming on top of what was reclaimed: all of it is this
      instance's to send, and no other order joined the backlog. */
  ghost predicate Held(s: State, t: State, me: Instance, reclaimed: seq<OrderId>, mine: seq<OrderId>) {
    && reclaimed <= mine && Distinct(mine) && Elements(mine) <= Mine(t, me)
    && s.now == t.now && s.rows.Keys <= t.rows.Keys
    && Backlog(t) - Elements(mine) == Backlog(s) - Elements(mine)
    && (forall id <- t.rows :: id !in s.rows ==> id in mine)
  }

  lemma AddToBoth(a: set<OrderId>, b: set<OrderId>, c: set<OrderId>, id: OrderId)
    requires a - c == b - c
    ensures (a + {id}) - (c + {id}) == b - (c + {id})
  {
    forall x ensures x in (a + {id}) - (c + {id}) <==> x in b - (c + {id}) {
      assert x in a - c <==> x in b - c;
    }
  }

  lemma HeldClaim(s: State, t: State, me: Instance, reclaimed: seq<OrderId>, mine: seq<OrderId>, id: OrderId)
    ensures Held(s, t, me, reclaimed, mine) ==>
      Held(s, Next(t, Claim(me, id)), me, reclaimed, if id in t.rows then mine else mine + [id])
  {
    if Held(s, t, me, reclaimed, mine) && id !in t.rows {
      var more, u := mine + [id], Next(t, Claim(me, id));
      assert id !in Elements(mine);
      assert Elements(more) == Elements(mine) + {id};
      assert Backlog(u) == Backlog(t) + {id} && Mine(u, me) == Mine(t, me) + {id};
      assert forall j :: 0 <= j < |mine| ==> mine[j] in Elements(mine);
      assert Distinct(more);
      AddToBoth(Backlog(t), Backlog(s), Elements(mine), id);
      assert forall x :: x in more <==> x in mine || x == id;
    }
  }

  /** The first k of `mine` are sent and the others still this instance's. */
  ghost predicate SentSome(s: State, t: State, me: Instance, mine: seq<OrderId>, k: nat)
    requires k <= |mine|
  {
    && t.rows.Keys == s.rows.Keys && t.now == s.now
    && Backlog(t) == Backlog(s) - Elements(mine[..k])
    && (forall j :: 0 <= j < k ==> IsSent(t, mine[j]))
    && (forall j :: k <= j < |mine| ==> mine[j] in Mine(t, me))
  }

  lemma SendNext(s: State, t: State, me: Instance, mine: seq<OrderId>, k: nat)
    requires k < |mine|
    ensures Distinct(mine) && SentSome(s, t, me, mine, k) ==>
      MaySend(t, me, mine[k]) && SentSome(s, Next(t, Send(me, mine[k])), me, mine, k + 1)
  {
    if Distinct(mine) && SentSome(s, t, me, mine, k) {
      SendRemoves(t, me, mine[k]);
      assert Elements(mine[..k + 1]) == Elements(mine[..k]) + {mine[k]};
    }
  }
}
