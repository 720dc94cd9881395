/** The statements of services/coordinator/src/repository.ts and queries.ts that change
    `saga_orders`, as methods over the table. Each leaves the table the machine in module
    Leases steps to, and reports what affectedRows told the caller. */
module OrdersTable {
  import opened Vocabulary
  import opened Leases
  import opened LeaseSafety

  /** What claimBatch hands to the worker: the status is the one before the stamp. */
  datatype ClaimedOrder = ClaimedOrder(id: nat, status: OrderStatus)

  lemma {:induction false} EligiblePrefix(rows: seq<Row>, now: int, locked: set<nat>, n: nat, m: nat)
    requires n <= m <= |rows|
    ensures Eligible(rows, now, locked, n) <= Eligible(rows, now, locked, m)
    decreases m
  {
    if n < m {
      EligiblePrefix(rows, now, locked, n, m - 1);
    }
  }

  predicate Distinct(ids: seq<nat>) {
    forall j, k :: 0 <= j < k < |ids| ==> ids[j] != ids[k]
  }

  lemma PickInRange(rows: seq<Row>, now: int, locked: set<nat>, limit: nat)
    ensures var ids := Pick(rows, now, locked, limit);
      Distinct(ids) && |ids| <= limit && forall k :: 0 <= k < |ids| ==> ids[k] < |rows|
  {
    PickExact(rows, now, locked, limit);
    var ids := Pick(rows, now, locked, limit);
    forall k | 0 <= k < |ids| ensures ids[k] < |rows| {
      assert ids[k] in ids;
    }
  }

  /** The rows a claim returns: the picked ids in order, each with the status it had. */
  function Claims(rows: seq<Row>, now: int, locked: set<nat>, limit: nat): seq<ClaimedOrder> {
    PickInRange(rows, now, locked, limit);
    var ids := Pick(rows, now, locked, limit);
    seq(|ids|, k requires 0 <= k < |ids| => ClaimedOrder(ids[k], rows[ids[k]].status))
  }

  predicate Returned(claimed: seq<ClaimedOrder>, id: nat) {
    exists k :: 0 <= k < |claimed| && claimed[k].id == id
  }

  /** One order of a batch: it was abandoned, the worker is told the status it had, and it is now
      leased, IN_PROGRESS unless it was COMPENSATING. */
  predicate Leased(before: seq<Row>, after: seq<Row>, c: ClaimedOrder, now: int, locked: set<nat>, i: Instance,
      expiry: int)
  {
    && c.id < |before| && c.id < |after| && c.id !in locked
    && Abandoned(before[c.id], now) && c.status == before[c.id].status
    && after[c.id] == Row(if c.status.Compensating? then Compensating else InProgress, Some(i), Some(expiry))
  }

  /** What a claim does: it leases the orders it returns and no other, and leaves an abandoned
      unlocked one behind only when the batch is full. */
  ghost predicate IsBatch(before: seq<Row>, after: seq<Row>, claimed: seq<ClaimedOrder>, now: int, locked: set<nat>,
      limit: nat, i: Instance, expiry: int)
  {
    && |after| == |before| && |claimed| <= limit
    && (forall k :: 0 <= k < |claimed| ==> Leased(before, after, claimed[k], now, locked, i, expiry))
    && (forall id :: 0 <= id < |before| && !Returned(claimed, id) ==>
          && after[id] == before[id]
          && (Abandoned(before[id], now) && id !in locked ==> |claimed| == limit))
  }

  lemma BatchExact(rows: seq<Row>, now: int, locked: set<nat>, limit: nat, i: Instance, expiry: int)
    ensures IsBatch(rows, Stamp(rows, Pick(rows, now, locked, limit), i, expiry), Claims(rows, now, locked, limit),
                    now, locked, limit, i, expiry)
  {
    PickExact(rows, now, locked, limit);
    var ids, claimed := Pick(rows, now, locked, limit), Claims(rows, now, locked, limit);
    var after := Stamp(rows, ids, i, expiry);
    forall k | 0 <= k < |claimed| ensures Leased(rows, after, claimed[k], now, locked, i, expiry) {
      assert ids[k] in ids;
    }
    forall id <- ids ensures Returned(claimed, id) {
      var k :| 0 <= k < |ids| && ids[k] == id;
      assert claimed[k].id == id;
    }
  }

  /** Stamping one more of the distinct ids adds exactly that row. */
  lemma StampNext(rows: seq<Row>, ids: seq<nat>, k: nat, i: Instance, expiry: int)
    requires Distinct(ids) && k < |ids| && forall id <- ids :: id < |rows|
    ensures var so := Stamp(rows, ids[..k], i, expiry);
      ids[k] < |so| && Stamp(rows, ids[..k + 1], i, expiry) == so[ids[k] := StampRow(so[ids[k]], i, expiry)]
  {
    assert ids[..k + 1] == ids[..k] + [ids[k]];
    assert ids[k] in ids && ids[k] !in ids[..k];
    var so := Stamp(rows, ids[..k], i, expiry);
    var more := Stamp(rows, ids[..k + 1], i, expiry);
    forall n | 0 <= n < |rows|
      ensures more[n] == so[ids[k] := StampRow(so[ids[k]], i, expiry)][n]
    {
      assert n in ids[..k + 1] <==> n in ids[..k] || n == ids[k];
    }
  }

  class Table {
    var rows: seq<Row>
    var now: int

    constructor (rows: seq<Row>, now: int)
      ensures this.rows == rows && this.now == now
    {
      this.rows, this.now := rows, now;
    }

    /** The SELECT of the claim transaction: scan in id order, pass over locked rows, stop
        at the limit. */
    method SelectClaimable(limit: nat, locked: set<nat>) returns (ids: seq<nat>)
      ensures ids == Pick(rows, now, locked, limit)
    {
      ids := [];
      var id := 0;
      while id < |rows| && |ids| < limit
        invariant id <= |rows| && |ids| <= limit
        invariant ids == Eligible(rows, now, locked, id)
      {
        if Claimable(rows[id], now) && id !in locked {
          ids := ids + [id];
        }
        id := id + 1;
      }
      EligiblePrefix(rows, now, locked, id, |rows|);
    }

    /** The UPDATE of the claim transaction, row by row. */
    method StampRows(ids: seq<nat>, i: Instance, expiry: int)
      requires Distinct(ids) && forall id <- ids :: id < |rows|
      modifies this`rows
      ensures rows == Stamp(old(rows), ids, i, expiry)
    {
      ghost var before := rows;
      for k := 0 to |ids|
        invariant rows == Stamp(before, ids[..k], i, expiry)
      {
        StampNext(before, ids, k, i, expiry);
        rows := rows[ids[k] := StampRow(rows[ids[k]], i, expiry)];
      }
      assert ids[..|ids|] == ids;
    }

    /** claimBatch: select and lock, stamp, commit. */
    method ClaimBatch(i: Instance, limit: nat, ttl: nat, locked: set<nat>) returns (claimed: seq<ClaimedOrder>)
      modifies this`rows
      ensures |claimed| <= limit
      ensures claimed == Claims(old(rows), now, locked, limit)
      ensures rows == Stamp(old(rows), Pick(old(rows), now, locked, limit), i, now + ttl)
      ensures IsBatch(old(rows), rows, claimed, now, locked, limit, i, now + ttl)
    {
      var before := rows;
      var ids := SelectClaimable(limit, locked);
      PickInRange(rows, now, locked, limit);
      StampRows(ids, i, now + ttl);
      claimed := seq(|ids|, k requires 0 <= k < |ids| => ClaimedOrder(ids[k], before[ids[k]].status));
      BatchExact(before, now, locked, limit, i, now + ttl);
    }

    /** renewLease: true exactly when this instance still holds the lease. */
    method RenewLease(id: nat, i: Instance, ttl: nat) returns (held: bool)
      modifies this`rows
      ensures held <==> Owns(old(rows), id, i)
      ensures rows == Renew(old(rows), id, i, now + ttl)
      ensures held ==> rows == old(rows)[id := Row(old(rows)[id].status, Some(i), Some(now + ttl))]
      ensures !held ==> rows == old(rows)
    {
      held := id < |rows| && rows[id].owner == Some(i);
      if held {
        rows := rows[id := Row(rows[id].status, rows[id].owner, Some(now + ttl))];
      }
    }

    /** setOrderStatus: fenced on ownership; a zombie's write changes nothing. */
    method SetOrderStatus(id: nat, i: Instance, status: OrderStatus, clearLease: bool) returns (written: bool)
      modifies this`rows
      ensures written <==> Owns(old(rows), id, i)
      ensures rows == SetStatus(old(rows), id, i, status, clearLease)
      ensures written ==> rows == old(rows)[id := if clearLease then Row(status, None, None)
                                                   else Row(status, Some(i), old(rows)[id].expiresAt)]
      ensures !written ==> rows == old(rows)
    {
      written := id < |rows| && rows[id].owner == Some(i);
      if written {
        var row := rows[id].(status := status);
        if clearLease {
          row := row.(owner := None, expiresAt := None);
        }
        rows := rows[id := row];
      }
    }

    /** claimForRetry: only the first of any number of retries finds NEEDS_ATTENTION. */
    method RetryClaim(id: nat, i: Instance, ttl: nat) returns (claimed: Option<ClaimedOrder>)
      modifies this`rows
      ensures claimed.Some? <==> id < |old(rows)| && old(rows)[id].status.NeedsAttention?
      ensures claimed.Some? ==> claimed.value == ClaimedOrder(id, Compensating)
      ensures rows == ClaimForRetry(old(rows), id, i, now + ttl)
      ensures claimed.Some? ==> rows == old(rows)[id := Row(Compensating, Some(i), Some(now + ttl))]
      ensures claimed.None? ==> rows == old(rows)
    {
      if id < |rows| && rows[id].status == NeedsAttention {
        rows := rows[id := rows[id].(status := Compensating, owner := Some(i), expiresAt := Some(now + ttl))];
        return Some(ClaimedOrder(id, Compensating));
      }
      return None;
    }

    /** markShipped: only a PLACED order, and only once. */
    method Ship(id: nat) returns (shipped: bool)
      modifies this`rows
      ensures shipped <==> id < |old(rows)| && old(rows)[id].status.Placed?
      ensures rows == MarkShipped(old(rows), id)
      ensures shipped ==> rows == old(rows)[id := Row(Shipped, old(rows)[id].owner, old(rows)[id].expiresAt)]
      ensures !shipped ==> rows == old(rows)
    {
      shipped := id < |rows| && rows[id].status == Placed;
      if shipped {
        rows := rows[id := rows[id].(status := Shipped)];
      }
    }
  }
}
