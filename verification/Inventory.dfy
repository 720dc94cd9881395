/** The stock and reservation handlers (services/inventory/src/index.ts). Each handler runs in
    the transaction of its idempotency record, so a call either commits all of its statements
    or leaves the tables as they were. */
module Inventory {
  import opened Vocabulary

  type Sku = string

  datatype Stock = Stock(available: int, reserved: int)

  datatype Reservation = Reservation(orderId: OrderId, sku: Sku, qty: int, active: bool)

  /** `inventory` by its primary key, and `reservations` in insertion order. */
  datatype Tables = Tables(stock: map<Sku, Stock>, reservations: seq<Reservation>)

  /** The part of a request the handlers read. Nothing checks qty: the body's validation
      admits any number. */
  datatype Request = Request(orderId: OrderId, sku: Sku, qty: int)

  datatype ReserveReply = Granted | InsufficientStock | DuplicateReservation

  // ---- The two handlers -------------------------------------------------------

  /** Where the order's reservation stands, or |rs|. */
  function Find(rs: seq<Reservation>, orderId: OrderId): (k: nat)
    ensures k <= |rs|
    ensures k < |rs| ==> rs[k].orderId == orderId
    ensures forall j :: 0 <= j < k ==> rs[j].orderId != orderId
  {
    if rs == [] || rs[0].orderId == orderId then 0 else 1 + Find(rs[1..], orderId)
  }

  predicate HasReservation(t: Tables, orderId: OrderId) {
    Find(t.reservations, orderId) < |t.reservations|
  }

  predicate HasActive(t: Tables, orderId: OrderId) {
    HasReservation(t, orderId) && t.reservations[Find(t.reservations, orderId)].active
  }

  predicate EnoughStock(t: Tables, r: Request) {
    r.sku in t.stock && t.stock[r.sku].available >= r.qty
  }

  function ReplyTo(t: Tables, r: Request): ReserveReply {
    if !EnoughStock(t, r) then InsufficientStock
    else if HasReservation(t, r.orderId) then DuplicateReservation
    else Granted
  }

  function Move(stock: map<Sku, Stock>, sku: Sku, qty: int): map<Sku, Stock> {
    if sku in stock then stock[sku := Stock(stock[sku].available - qty, stock[sku].reserved + qty)] else stock
  }

  function AfterReserve(t: Tables, r: Request): Tables {
    if ReplyTo(t, r).Granted?
    then Tables(Move(t.stock, r.sku, r.qty), t.reservations + [Reservation(r.orderId, r.sku, r.qty, true)])
    else t
  }

  function AfterRelease(t: Tables, r: Request): Tables {
    if HasActive(t, r.orderId) then
      var k := Find(t.reservations, r.orderId);
      Tables(Move(t.stock, r.sku, -r.qty), t.reservations[k := t.reservations[k].(active := false)])
    else t
  }

  class Inventory {
    var stock: map<Sku, Stock>
    var reservations: seq<Reservation>

    ghost function Contents(): Tables
      reads this
    {
      Tables(stock, reservations)
    }

    constructor (t: Tables)
      ensures Contents() == t
    {
      stock, reservations := t.stock, t.reservations;
    }

    /** UPDATE inventory SET available_qty = available_qty + ?, reserved_qty = reserved_qty - ?
        with the two amounts of opposite sign. */
    method MoveStock(sku: Sku, qty: int)
      modifies this`stock
      ensures stock == Move(old(stock), sku, qty)
    {
      if sku in stock {
        var row := stock[sku];
        row := row.(available := row.available - qty);
        row := row.(reserved := row.reserved + qty);
        stock := stock[sku := row];
      }
    }

    /** INSERT INTO reservations: refused by UNIQUE(order_id). */
    method InsertReservation(r: Request) returns (inserted: bool)
      modifies this`reservations
      ensures inserted <==> !HasReservation(old(Contents()), r.orderId)
      ensures reservations == old(reservations) + if inserted then [Reservation(r.orderId, r.sku, r.qty, true)] else []
    {
      inserted := Find(reservations, r.orderId) == |reservations|;
      if inserted {
        reservations := reservations + [Reservation(r.orderId, r.sku, r.qty, true)];
      }
    }

    /** RESERVE_INVENTORY: guarded decrement, then the insert; the second failing rolls the
        first back. */
    method Reserve(r: Request) returns (reply: ReserveReply)
      modifies this
      ensures reply == ReplyTo(old(Contents()), r)
      ensures Contents() == AfterReserve(old(Contents()), r)
    {
      var begin := stock;
      if r.sku !in stock || stock[r.sku].available < r.qty {
        return InsufficientStock;
      }
      MoveStock(r.sku, r.qty);
      var inserted := InsertReservation(r);
      if !inserted {
        stock := begin;
        return DuplicateReservation;
      }
      return Granted;
    }

    /** RELEASE_INVENTORY: the flip of the reservation row is the gate; the amounts put back
        are the request's. */
    method Release(r: Request) returns (released: bool)
      modifies this
      ensures released <==> HasActive(old(Contents()), r.orderId)
      ensures Contents() == AfterRelease(old(Contents()), r)
    {
      var k := Find(reservations, r.orderId);
      if k == |reservations| || !reservations[k].active {
        return false;
      }
      reservations := reservations[k := reservations[k].(active := false)];
      MoveStock(r.sku, -r.qty);
      return true;
    }
  }

  // ---- What the tables have to say about each other ---------------------------

  /** The units the active reservations of a SKU hold. */
  function Held(rs: seq<Reservation>, sku: Sku): int {
    if rs == [] then 0
    else
      var last := rs[|rs| - 1];
      Held(rs[..|rs| - 1], sku) + if last.active && last.sku == sku then last.qty else 0
  }

  ghost predicate Unique(rs: seq<Reservation>) {
    forall j, k :: 0 <= j < k < |rs| ==> rs[j].orderId != rs[k].orderId
  }

  /** Nothing oversold, and every reserved unit is held by an active reservation of a SKU
      that exists. */
  ghost predicate Balanced(t: Tables) {
    && Unique(t.reservations)
    && (forall k :: 0 <= k < |t.reservations| ==> t.reservations[k].qty >= 0 && t.reservations[k].sku in t.stock)
    && (forall sku <- t.stock :: t.stock[sku].available >= 0)
    && (forall sku <- t.stock :: t.stock[sku].reserved == Held(t.reservations, sku))
  }

  function Total(t: Tables, sku: Sku): int
    requires sku in t.stock
  {
    t.stock[sku].available + t.stock[sku].reserved
  }

  lemma {:induction false} HeldNonNegative(rs: seq<Reservation>, sku: Sku)
    requires forall k :: 0 <= k < |rs| ==> rs[k].qty >= 0
    ensures Held(rs, sku) >= 0
  {
    if rs != [] {
      HeldNonNegative(rs[..|rs| - 1], sku);
    }
  }

  lemma {:induction false} HeldAppend(rs: seq<Reservation>, r: Reservation, sku: Sku)
    ensures Held(rs + [r], sku) == Held(rs, sku) + if r.active && r.sku == sku then r.qty else 0
  {
    assert (rs + [r])[..|rs|] == rs;
  }

  lemma {:induction false} HeldRelease(rs: seq<Reservation>, k: nat, sku: Sku)
    requires k < |rs| && rs[k].active
    ensures Held(rs[k := rs[k].(active := false)], sku) == Held(rs, sku) - if rs[k].sku == sku then rs[k].qty else 0
  {
    var n := |rs| - 1;
    var after := rs[k := rs[k].(active := false)];
    if k == n {
      assert after[..n] == rs[..n];
    } else {
      HeldRelease(rs[..n], k, sku);
      assert after[..n] == rs[..n][k := rs[..n][k].(active := false)];
    }
  }

  /** A request is granted exactly when the SKU has that much left, the last unit included, and the
      order has no reservation. A granted request leaves balanced tables exactly when it asks for a non-negative
      quantity; the guard alone lets a negative one through. */
  lemma ReserveExact(t: Tables, r: Request)
    requires Balanced(t)
    ensures ReplyTo(t, r).Granted? <==>
      && r.sku in t.stock && r.qty <= t.stock[r.sku].available
      && forall k :: 0 <= k < |t.reservations| ==> t.reservations[k].orderId != r.orderId
    ensures ReplyTo(t, r).InsufficientStock? <==> r.sku !in t.stock || t.stock[r.sku].available < r.qty
    ensures Balanced(AfterReserve(t, r)) <==> !ReplyTo(t, r).Granted? || r.qty >= 0
    ensures AfterReserve(t, r).stock.Keys == t.stock.Keys
    ensures forall sku <- t.stock :: Total(AfterReserve(t, r), sku) == Total(t, sku)
  {
    var u := AfterReserve(t, r);
    if ReplyTo(t, r).Granted? {
      var added := u.reservations[|t.reservations|];
      assert added.qty == r.qty;
      forall sku | sku in t.stock ensures u.stock[sku].reserved == Held(u.reservations, sku) {
        HeldAppend(t.reservations, added, sku);
      }
    }
  }

  /** The request says about the order's reservation what the row says, or the difference
      moves no stock. */
  predicate SettlesReservation(t: Tables, r: Request)
    requires HasReservation(t, r.orderId)
  {
    var row := t.reservations[Find(t.reservations, r.orderId)];
    if r.sku == row.sku then r.qty == row.qty else row.qty == 0 && (r.sku in t.stock ==> r.qty == 0)
  }

  /** A release leaves balanced tables exactly when it is a no-op or its request agrees with
      the reservation; it moves no stock for an order without an active reservation, and the
      second of two releases changes nothing. */
  lemma ReleaseExact(t: Tables, r: Request)
    requires Balanced(t)
    ensures Balanced(AfterRelease(t, r)) <==> HasActive(t, r.orderId) ==> SettlesReservation(t, r)
    ensures AfterRelease(t, r).stock.Keys == t.stock.Keys
    ensures forall sku <- t.stock :: Total(AfterRelease(t, r), sku) == Total(t, sku)
  {
    var u := AfterRelease(t, r);
    if HasActive(t, r.orderId) {
      var k := Find(t.reservations, r.orderId);
      var row := t.reservations[k];
      forall sku | sku in t.stock
        ensures Held(u.reservations, sku) == t.stock[sku].reserved - if row.sku == sku then row.qty else 0
      {
        HeldRelease(t.reservations, k, sku);
      }
      assert row.sku in t.stock;
      if SettlesReservation(t, r) {
        SettledBalances(t, r);
      } else {
        var sku := if r.sku == row.sku || row.qty != 0 then row.sku else r.sku;
        assert u.stock[sku].reserved != Held(u.reservations, sku);
      }
    }
  }

  lemma SettledBalances(t: Tables, r: Request)
    requires Balanced(t) && HasActive(t, r.orderId) && SettlesReservation(t, r)
    ensures Balanced(AfterRelease(t, r))
  {
    var u := AfterRelease(t, r);
    var k := Find(t.reservations, r.orderId);
    forall sku | sku in u.stock
      ensures u.stock[sku].available >= 0 && u.stock[sku].reserved == Held(u.reservations, sku)
    {
      HeldRelease(t.reservations, k, sku);
    }
  }

  /** A release repeated with any quantity at all does nothing more. */
  lemma ReleaseOnce(t: Tables, r: Request, again: Request)
    requires Unique(t.reservations) && r.orderId == again.orderId
    ensures !HasActive(AfterRelease(t, r), r.orderId)
    ensures AfterRelease(AfterRelease(t, r), again) == AfterRelease(t, r)
  {
    var u := AfterRelease(t, r);
    var k := Find(u.reservations, r.orderId);
    if HasActive(t, r.orderId) {
      var j := Find(t.reservations, r.orderId);
      assert u.reservations[j].orderId == r.orderId && !u.reservations[j].active;
      assert k == j;
    }
  }

  // ---- Whole histories --------------------------------------------------------

  datatype Op = Reserves(r: Request) | Releases(r: Request)

  function Apply(t: Tables, op: Op): Tables {
    match op
    case Reserves(r) => AfterReserve(t, r)
    case Releases(r) => AfterRelease(t, r)
  }

  function After(t: Tables, ops: seq<Op>): Tables {
    if ops == [] then t else Apply(After(t, ops[..|ops| - 1]), ops[|ops| - 1])
  }

  /** The sku and quantity of each order, as in its saga_orders row. */
  datatype Terms = Terms(sku: Sku, qty: nat)

  ghost predicate Follows(r: Request, terms: OrderId -> Terms) {
    terms(r.orderId).sku == r.sku && terms(r.orderId).qty == r.qty
  }

  ghost predicate RowsFollow(t: Tables, terms: OrderId -> Terms) {
    forall k :: 0 <= k < |t.reservations| ==>
      Follows(Request(t.reservations[k].orderId, t.reservations[k].sku, t.reservations[k].qty), terms)
  }

  /** Stock conservation: whatever mixture of first, repeated, spurious and refused requests
      arrives, if every request for an order carries that order's sku and quantity, each
      SKU keeps its total, nothing is oversold, and what is reserved is exactly what the
      active reservations hold. */
  lemma {:induction false} Conservation(t: Tables, ops: seq<Op>, terms: OrderId -> Terms)
    requires Balanced(t) && RowsFollow(t, terms)
    requires forall op <- ops :: Follows(op.r, terms)
    ensures var u := After(t, ops);
      && Balanced(u) && RowsFollow(u, terms)
      && u.stock.Keys == t.stock.Keys
      && forall sku <- t.stock ::
        && Total(u, sku) == Total(t, sku)
        && u.stock[sku].available >= 0
        && u.stock[sku].reserved == Held(u.reservations, sku) >= 0
  {
    if ops == [] {
    } else {
      var op := ops[|ops| - 1];
      Conservation(t, ops[..|ops| - 1], terms);
      ApplyKeeps(After(t, ops[..|ops| - 1]), op, terms);
    }
    var u := After(t, ops);
    forall sku | sku in t.stock ensures Held(u.reservations, sku) >= 0 {
      HeldNonNegative(u.reservations, sku);
    }
  }

  lemma ApplyKeeps(t: Tables, op: Op, terms: OrderId -> Terms)
    requires Balanced(t) && RowsFollow(t, terms) && Follows(op.r, terms)
    ensures var u := Apply(t, op);
      && Balanced(u) && RowsFollow(u, terms) && u.stock.Keys == t.stock.Keys
      && forall sku <- t.stock :: Total(u, sku) == Total(t, sku)
  {
    match op
    case Reserves(r) =>
      ReserveExact(t, r);
    case Releases(r) =>
      ReleaseExact(t, r);
      if HasActive(t, r.orderId) {
        var row := t.reservations[Find(t.reservations, r.orderId)];
        assert Follows(Request(row.orderId, row.sku, row.qty), terms);
      }
  }

  /** Without agreeing requests the release handler creates or destroys stock: reserve r.qty
      units, give back again.qty, and the difference has come out of nowhere. */
  lemma MismatchInventsStock(t: Tables, r: Request, again: Request)
    requires Balanced(t) && ReplyTo(t, r).Granted? && r.qty >= 0
    requires again.orderId == r.orderId && again.sku == r.sku
    ensures var u := AfterRelease(AfterReserve(t, r), again);
      && r.sku in u.stock
      && u.stock[r.sku].available == t.stock[r.sku].available + again.qty - r.qty
      && (Balanced(u) <==> again.qty == r.qty)
  {
    ReserveExact(t, r);
    var mid := AfterReserve(t, r);
    var n := |t.reservations|;
    assert mid.reservations[n] == Reservation(r.orderId, r.sku, r.qty, true);
    assert Find(mid.reservations, r.orderId) == n;
    ReleaseExact(mid, again);
  }
}
