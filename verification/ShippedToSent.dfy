/** From SHIPPED to SENT: the paged fetch, the claims, the sends and the later sweeps of the
    notifier together (services/notification/src/notifier.ts). */
module ShippedToSent {
  import opened Vocabulary
  import opened Notifier
  import opened NotifierJob
  import Paging
  import Sets

  /** The order ids of fetched rows. */
  function Names(ids: seq<nat>, name: nat -> OrderId): seq<OrderId> {
    seq(|ids|, k requires 0 <= k < |ids| => name(ids[k]))
  }

  lemma Named(ids: seq<nat>, name: nat -> OrderId, n: nat)
    requires n in ids
    ensures name(n) in Names(ids, name)
  {
    var k :| 0 <= k < |ids| && ids[k] == n;
    assert Names(ids, name)[k] == name(n);
  }

  /** A full backlog is gone after ceil(backlog / batch) sweeps. */
  predicate Enough(backlog: nat, batch: nat, sweeps: nat) {
    Remaining(backlog, batch, sweeps) == 0
  }

  lemma {:induction false} LessRemains(small: nat, large: nat, batch: nat, sweeps: nat)
    requires small <= large
    ensures Remaining(small, batch, sweeps) <= Remaining(large, batch, sweeps)
  {
    if sweeps > 0 {
      LessRemains(small, large, batch, sweeps - 1);
    }
  }

  /** One job that fetches while orders keep shipping, and then sweeps enough for the backlog
      that job met: every order that was SHIPPED when the fetch began is SENT at the end,
      whatever was claimed, abandoned or half done before, and each has been sent once. */
  method NotifyShipped(db: Notifications, view: nat -> Paging.View, ghost bound: nat, name: nat -> OrderId,
      env: Env, envs: nat -> Env, who: nat -> Instance, wait: nat -> nat, sweeps: nat,
      batch: nat, staleMs: int)
    requires db.Valid() && NotFuture(db.s) && Counted(db.s)
    requires Paging.Bounded(view, bound) && Paging.Growing(view) && Paging.Steady(view)
    requires Limits(env) && Calm(env)
    requires forall k :: Limits(envs(k)) && Calm(envs(k)) && wait(k) > 1000 * StaleSeconds(staleMs)
    requires Enough(|Backlog(db.s)|, batch, sweeps)
    modifies db
    ensures db.Valid()
    ensures Backlog(db.s) == {} && Counted(db.s)
    ensures forall n: nat :: n < |view(1).listed| && view(1).listed[n].Shipped? ==>
      IsSent(db.s, name(n)) && db.s.rows[name(n)].attempts == 1
  {
    ghost var start := db.s;
    var ids := Paging.FetchShippedOrderIds(view, batch, bound);
    var result := db.RunNotificationJob(env.(shipped := Some(Names(ids, name))), who(0), batch, staleMs);
    ghost var after := db.s;
    db.Sweep(envs, who, wait, sweeps, batch, staleMs);
    Sets.SubsetSize(Backlog(after), Backlog(start));
    LessRemains(|Backlog(after)|, |Backlog(start)|, batch, sweeps);
    forall n: nat | n < |view(1).listed| && view(1).listed[n].Shipped?
      ensures IsSent(db.s, name(n)) && db.s.rows[name(n)].attempts == 1
    {
      Paging.NeverMissed(view, batch, bound, n);
      Named(ids, name, n);
      assert name(n) in db.s.rows && name(n) !in Backlog(db.s);
    }
  }
}
