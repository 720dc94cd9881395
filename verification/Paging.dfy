/** How the notifier pages through the coordinator's list of SHIPPED orders
    (services/notification/src/notifier.ts, services/coordinator/src/queries.ts and api.ts).
    An order is named by its row id, which is its index in the table. */
module Paging {
  import opened Vocabulary

  /** The ids of the SHIPPED rows, newest first: WHERE status = 'SHIPPED' ORDER BY id DESC. */
  function Shipped(t: seq<OrderStatus>): (ids: seq<nat>)
    ensures |ids| <= |t|
  {
    if t == [] then []
    else
      var n := |t| - 1;
      (if t[n].Shipped? then [n] else []) + Shipped(t[..n])
  }

  /** LIMIT size OFFSET offset. */
  function PageAt(ids: seq<nat>, offset: nat, size: nat): seq<nat> {
    if offset >= |ids| then [] else if |ids| - offset <= size then ids[offset..] else ids[offset..offset + size]
  }

  /** page * size, by repeated addition. */
  function Times(page: nat, size: nat): nat {
    if page == 0 then 0 else Times(page - 1, size) + size
  }

  lemma {:induction false} TimesIsProduct(page: nat, size: nat)
    ensures Times(page, size) == page * size
    ensures size >= 1 ==> Times(page, size) >= page
  {
    if page > 0 {
      TimesIsProduct(page - 1, size);
    }
  }

  function PageOf(ids: seq<nat>, page: nat, size: nat): seq<nat>
    requires page >= 1
  {
    PageAt(ids, Times(page - 1, size), size)
  }

  /** The page size the API serves for a requested integer: zero falls through to the
      default, everything else is clamped. */
  function ServedSize(requested: int): (size: nat)
    ensures 1 <= size <= 200
    ensures 1 <= requested <= 200 ==> size == requested
    ensures requested > 200 ==> size == 200
    ensures requested < 0 ==> size == 1
    ensures requested == 0 ==> size == 25
  {
    var asked := if requested == 0 then 25 else requested;
    var atLeast := if asked < 1 then 1 else asked;
    if atLeast > 200 then 200 else atLeast
  }

  /** What one request sees: listOrders counts first and lists afterwards, and other writers
      may come in between. */
  datatype View = View(counted: seq<OrderStatus>, listed: seq<OrderStatus>)

  ghost predicate Bounded(view: nat -> View, bound: nat) {
    forall page :: |view(page).counted| <= bound
  }

  predicate LastPage(v: View, page: nat, size: nat)
    requires page >= 1
  {
    Times(page, size) >= |Shipped(v.counted)| || PageOf(Shipped(v.listed), page, size) == []
  }

  lemma LastByBound(view: nat -> View, page: nat, size: nat, bound: nat)
    requires Bounded(view, bound) && page >= 1 && size >= 1 && !LastPage(view(page), page, size)
    ensures page < bound
  {
    TimesIsProduct(page, size);
    assert |view(page).counted| <= bound;
  }

  /** How many pages may still follow. */
  function Left(page: nat, bound: nat): nat {
    if page <= bound then 1 + bound - page else 0
  }

  /** Everything the requests from `page` on bring back. */
  ghost function Fetched(view: nat -> View, page: nat, size: nat, bound: nat): seq<nat>
    requires Bounded(view, bound) && page >= 1 && size >= 1
    decreases Left(page, bound)
  {
    PageOf(Shipped(view(page).listed), page, size)
    + if LastPage(view(page), page, size) then []
      else
        LastByBound(view, page, size, bound);
        Fetched(view, page + 1, size, bound)
  }

  /** The requests `page` to `last`, one after another. */
  function Pages(view: nat -> View, page: nat, last: nat, size: nat): seq<nat>
    requires page >= 1
    decreases last + 1 - page
  {
    if page > last then [] else PageOf(Shipped(view(page).listed), page, size) + Pages(view, page + 1, last, size)
  }

  /** A fetch goes on while its pages bring something and do not cover the count, and stops at
      the first that brings nothing or does. */
  ghost predicate StopsAt(view: nat -> View, page: nat, last: nat, size: nat)
    requires page >= 1
  {
    && page <= last
    && (forall k :: page <= k < last ==>
          k * size < |Shipped(view(k).counted)| && PageOf(Shipped(view(k).listed), k, size) != [])
    && (last * size >= |Shipped(view(last).counted)| || PageOf(Shipped(view(last).listed), last, size) == [])
  }

  lemma {:induction false} FetchStops(view: nat -> View, page: nat, size: nat, bound: nat) returns (last: nat)
    requires Bounded(view, bound) && page >= 1 && size >= 1
    ensures StopsAt(view, page, last, size) && Fetched(view, page, size, bound) == Pages(view, page, last, size)
    decreases Left(page, bound)
  {
    TimesIsProduct(page, size);
    if LastPage(view(page), page, size) {
      last := page;
      assert Pages(view, page + 1, last, size) == [];
    } else {
      LastByBound(view, page, size, bound);
      last := FetchStops(view, page + 1, size, bound);
    }
  }

  /** listOrders for status SHIPPED: the count, then one page of the list. */
  method ListOrders(v: View, page: nat, size: nat) returns (items: seq<nat>, total: nat)
    requires page >= 1
    ensures items == PageOf(Shipped(v.listed), page, size) && total == |Shipped(v.counted)|
  {
    var offset := (page - 1) * size;
    TimesIsProduct(page - 1, size);
    total := |Shipped(v.counted)|;
    items := PageAt(Shipped(v.listed), offset, size);
  }

  /** The client's test for the last page. */
  method Covers(page: nat, size: nat, total: nat) returns (covered: bool)
    ensures covered <==> Times(page, size) >= total
  {
    TimesIsProduct(page, size);
    covered := page * size >= total;
  }

  /** fetchShippedOrderIds, for any requested page size. */
  method FetchShippedOrderIds(view: nat -> View, requested: int, ghost bound: nat) returns (ids: seq<nat>)
    requires Bounded(view, bound)
    ensures ids == Fetched(view, 1, ServedSize(requested), bound)
    ensures exists last ::
      StopsAt(view, 1, last, ServedSize(requested)) && ids == Pages(view, 1, last, ServedSize(requested))
  {
    ids := FetchPages(view, ServedSize(requested), bound);
    ghost var last := FetchStops(view, 1, ServedSize(requested), bound);
  }

  method FetchPages(view: nat -> View, size: nat, ghost bound: nat) returns (ids: seq<nat>)
    requires Bounded(view, bound) && size >= 1
    ensures ids == Fetched(view, 1, size, bound)
  {
    ids := [];
    var page := 1;
    var more := true;
    while more
      invariant page >= 1
      invariant ids + (if more then Fetched(view, page, size, bound) else []) == Fetched(view, 1, size, bound)
      decreases if more then 1 + Left(page, bound) else 0
    {
      var items, total := ListOrders(view(page), page, size);
      FetchedPage(view, page, size, bound, ids);
      ids := ids + items;
      var covered := Covers(page, size, total);
      more := !covered && |items| != 0;
      if more {
        LastByBound(view, page, size, bound);
        page := page + 1;
      }
    }
  }

  lemma FetchedPage(view: nat -> View, page: nat, size: nat, bound: nat, ids: seq<nat>)
    requires Bounded(view, bound) && page >= 1 && size >= 1
    ensures var items := PageOf(Shipped(view(page).listed), page, size);
      ids + Fetched(view, page, size, bound)
        == (ids + items) + if LastPage(view(page), page, size) then [] else Fetched(view, page + 1, size, bound)
  {
    if !LastPage(view(page), page, size) {
      LastByBound(view, page, size, bound);
    }
  }

  /** The list holds exactly the SHIPPED orders, each once, newest first. */
  lemma {:induction false} ShippedExact(t: seq<OrderStatus>)
    ensures forall n :: n in Shipped(t) <==> 0 <= n < |t| && t[n].Shipped?
    ensures forall j, k :: 0 <= j < k < |Shipped(t)| ==> Shipped(t)[j] > Shipped(t)[k]
  {
    if t != [] {
      var n := |t| - 1;
      ShippedExact(t[..n]);
      forall k | 0 <= k < |Shipped(t[..n])| ensures Shipped(t[..n])[k] < n {
        assert Shipped(t[..n])[k] in Shipped(t[..n]);
      }
    }
  }

  /** On an unchanging table the pages from any point on are the rest of the list, for every
      page size the server may choose. */
  lemma {:induction false} FetchFixed(view: nat -> View, t: seq<OrderStatus>, page: nat, size: nat, bound: nat)
    requires Bounded(view, bound) && page >= 1 && size >= 1
    requires forall p :: view(p) == View(t, t)
    requires Times(page - 1, size) <= |Shipped(t)|
    ensures Fetched(view, page, size, bound) == Shipped(t)[Times(page - 1, size)..]
    decreases Left(page, bound)
  {
    PageThenRest(Shipped(t), Times(page - 1, size), size);
    assert view(page) == View(t, t);
    if !LastPage(view(page), page, size) {
      LastByBound(view, page, size, bound);
      FetchFixed(view, t, page + 1, size, bound);
    }
  }

  lemma PageThenRest(ids: seq<nat>, offset: nat, size: nat)
    requires offset <= |ids| && size >= 1
    ensures offset + size <= |ids| ==> ids[offset..] == PageAt(ids, offset, size) + ids[offset + size..]
    ensures offset + size >= |ids| || PageAt(ids, offset, size) == [] ==> ids[offset..] == PageAt(ids, offset, size)
  {
  }

  /** So a fetch on a fixed snapshot returns every SHIPPED order exactly once, in order, for
      every requested page size. */
  lemma FetchComplete(view: nat -> View, t: seq<OrderStatus>, requested: int, bound: nat)
    requires Bounded(view, bound) && forall p :: view(p) == View(t, t)
    ensures var ids := Fetched(view, 1, ServedSize(requested), bound);
      && (forall n :: n in ids <==> 0 <= n < |t| && t[n].Shipped?)
      && (forall j, k :: 0 <= j < k < |ids| ==> ids[j] > ids[k])
  {
    FetchFixed(view, t, 1, ServedSize(requested), bound);
    ShippedExact(t);
  }

  // ---- A table that grows under the fetch ---------------------------------------

  /** Orders are never deleted and SHIPPED is final. */
  predicate Grows(t: seq<OrderStatus>, u: seq<OrderStatus>) {
    |t| <= |u| && forall n :: 0 <= n < |t| && t[n].Shipped? ==> u[n].Shipped?
  }

  /** How many SHIPPED rows have an id of at least k. */
  function CountFrom(t: seq<OrderStatus>, k: nat): nat {
    if |t| <= k then 0
    else CountFrom(t[..|t| - 1], k) + if t[|t| - 1].Shipped? then 1 else 0
  }

  lemma {:induction false} PlaceInList(t: seq<OrderStatus>, n: nat)
    requires n < |t| && t[n].Shipped?
    ensures CountFrom(t, n + 1) < |Shipped(t)| && Shipped(t)[CountFrom(t, n + 1)] == n
  {
    if n < |t| - 1 {
      PlaceInList(t[..|t| - 1], n);
    }
  }

  lemma {:induction false} CountGrows(t: seq<OrderStatus>, u: seq<OrderStatus>, k: nat)
    requires Grows(t, u)
    ensures CountFrom(t, k) <= CountFrom(u, k)
    decreases |u|
  {
    if |u| > k {
      if |t| == |u| {
        CountGrows(t[..|t| - 1], u[..|u| - 1], k);
      } else {
        CountGrows(t, u[..|u| - 1], k);
      }
    }
  }

  /** The table only grows, from one request to the next and between the count and the list
      of one request. */
  ghost predicate Growing(view: nat -> View) {
    && (forall page: nat :: Grows(view(page).counted, view(page).listed))
    && (forall page: nat :: Grows(view(page).listed, view(page + 1).counted))
  }

  /** The fetch that begins at `from` comes to request `page`. */
  ghost predicate Requested(view: nat -> View, from: nat, page: nat, size: nat)
    requires from >= 1
  {
    from <= page && forall q :: from <= q < page ==> !LastPage(view(q), q, size)
  }

  /** The order stands on the requested page, or on an earlier one. */
  predicate Reaches(v: View, page: nat, size: nat, n: nat) {
    CountFrom(v.listed, n + 1) < Times(page, size)
  }

  ghost predicate Found(view: nat -> View, from: nat, size: nat, n: nat)
    requires from >= 1
  {
    exists page :: Requested(view, from, page, size) && Reaches(view(page), page, size, n)
  }

  lemma InPage(ids: seq<nat>, offset: nat, size: nat, at: nat)
    requires at < |ids| && forall j, k :: 0 <= j < k < |ids| ==> ids[j] != ids[k]
    ensures ids[at] in PageAt(ids, offset, size) <==> offset <= at < offset + size
  {
    var items := PageAt(ids, offset, size);
    if offset <= at < offset + size {
      assert items[at - offset] == ids[at];
    } else {
      forall k | 0 <= k < |items| ensures items[k] != ids[at] {
        assert items[k] == ids[offset + k];
      }
    }
  }

  /** An order is on a page exactly when its place in the list is. */
  lemma OnPage(t: seq<OrderStatus>, page: nat, size: nat, n: nat)
    requires page >= 1 && n < |t| && t[n].Shipped?
    ensures n in PageOf(Shipped(t), page, size) <==>
      Times(page - 1, size) <= CountFrom(t, n + 1) < Times(page, size)
  {
    PlaceInList(t, n);
    ShippedExact(t);
    InPage(Shipped(t), Times(page - 1, size), size, CountFrom(t, n + 1));
  }

  lemma GrowsOn(view: nat -> View, page: nat, n: nat)
    requires Growing(view) && n < |view(page).listed| && view(page).listed[n].Shipped?
    ensures n < |view(page + 1).listed| && view(page + 1).listed[n].Shipped?
    ensures CountFrom(view(page).listed, n + 1) <= CountFrom(view(page + 1).listed, n + 1)
  {
    var t, u, v := view(page).listed, view(page + 1).counted, view(page + 1).listed;
    assert Grows(t, u) && Grows(u, v);
    CountGrows(t, u, n + 1);
    CountGrows(u, v, n + 1);
  }

  lemma FoundHere(view: nat -> View, page: nat, size: nat, n: nat)
    requires page >= 1 && (Reaches(view(page), page, size, n) || LastPage(view(page), page, size))
    ensures Found(view, page, size, n) <==> Reaches(view(page), page, size, n)
  {
    assert Requested(view, page, page, size);
    if Found(view, page, size, n) && LastPage(view(page), page, size) {
      var q :| Requested(view, page, q, size) && Reaches(view(q), q, size, n);
      assert q == page;
    }
  }

  lemma FoundFromHere(view: nat -> View, page: nat, size: nat, n: nat)
    requires page >= 1 && !Reaches(view(page), page, size, n) && Found(view, page, size, n)
    ensures Found(view, page + 1, size, n)
  {
    var q :| Requested(view, page, q, size) && Reaches(view(q), q, size, n);
    assert Requested(view, page + 1, q, size);
  }

  lemma FoundFromThere(view: nat -> View, page: nat, size: nat, n: nat)
    requires page >= 1 && !LastPage(view(page), page, size) && Found(view, page + 1, size, n)
    ensures Found(view, page, size, n)
  {
    var q :| Requested(view, page + 1, q, size) && Reaches(view(q), q, size, n);
    assert Requested(view, page, q, size);
  }

  lemma FoundLater(view: nat -> View, page: nat, size: nat, n: nat)
    requires page >= 1 && !LastPage(view(page), page, size) && !Reaches(view(page), page, size, n)
    ensures Found(view, page, size, n) <==> Found(view, page + 1, size, n)
  {
    if Found(view, page, size, n) {
      FoundFromHere(view, page, size, n);
    }
    if Found(view, page + 1, size, n) {
      FoundFromThere(view, page, size, n);
    }
  }

  /** While orders ship at any moment of the fetch, one that was SHIPPED when it began is
      returned if and only if some page that is requested reaches its place in the list that
      request reads. */
  lemma {:induction false} FetchedExactly(view: nat -> View, page: nat, size: nat, bound: nat, n: nat)
    requires Bounded(view, bound) && page >= 1 && size >= 1 && Growing(view)
    requires n < |view(page).listed| && view(page).listed[n].Shipped?
    requires CountFrom(view(page).listed, n + 1) >= Times(page - 1, size)
    ensures n in Fetched(view, page, size, bound) <==> Found(view, page, size, n)
    decreases Left(page, bound)
  {
    OnPage(view(page).listed, page, size, n);
    if LastPage(view(page), page, size) || Reaches(view(page), page, size, n) {
      FoundHere(view, page, size, n);
    } else {
      FoundLater(view, page, size, n);
      LastByBound(view, page, size, bound);
      GrowsOn(view, page, n);
      FetchedExactly(view, page + 1, size, bound, n);
    }
  }

  /** Each request counts and lists the same table. */
  ghost predicate Steady(view: nat -> View) {
    forall page :: view(page).counted == view(page).listed
  }

  lemma LastReaches(view: nat -> View, page: nat, size: nat, n: nat)
    requires page >= 1 && size >= 1 && view(page).counted == view(page).listed && LastPage(view(page), page, size)
    requires n < |view(page).listed| && view(page).listed[n].Shipped?
    ensures Reaches(view(page), page, size, n)
  {
    PlaceInList(view(page).listed, n);
    assert Times(page, size) == Times(page - 1, size) + size;
    assert PageOf(Shipped(view(page).listed), page, size) == [] ==>
      Times(page - 1, size) >= |Shipped(view(page).listed)|;
  }

  lemma {:induction false} SteadyFinds(view: nat -> View, page: nat, size: nat, bound: nat, n: nat)
    requires Bounded(view, bound) && page >= 1 && size >= 1 && Growing(view) && Steady(view)
    requires n < |view(page).listed| && view(page).listed[n].Shipped?
    ensures Found(view, page, size, n)
    decreases Left(page, bound)
  {
    if LastPage(view(page), page, size) {
      assert view(page).counted == view(page).listed;
      LastReaches(view, page, size, n);
      FoundHere(view, page, size, n);
    } else if Reaches(view(page), page, size, n) {
      FoundHere(view, page, size, n);
    } else {
      LastByBound(view, page, size, bound);
      GrowsOn(view, page, n);
      SteadyFinds(view, page + 1, size, bound, n);
      FoundLater(view, page, size, n);
    }
  }

  /** So with such requests no order that was SHIPPED when the fetch began is missed, whatever
      ships meanwhile: offsets only ever push an order towards later pages. */
  lemma NeverMissed(view: nat -> View, requested: int, bound: nat, n: nat)
    requires Bounded(view, bound) && Growing(view) && Steady(view)
    requires n < |view(1).listed| && view(1).listed[n].Shipped?
    ensures n in Fetched(view, 1, ServedSize(requested), bound)
  {
    SteadyFinds(view, 1, ServedSize(requested), bound, n);
    FetchedExactly(view, 1, ServedSize(requested), bound, n);
  }

  /** When everything counted fits the first page, an order SHIPPED before the fetch is missed
      exactly when so many newer ones ship between that count and the list that they push it
      off the page. The same can happen to the next job's fetch, and to every one after it. */
  lemma GapMisses(view: nat -> View, size: nat, bound: nat, n: nat)
    requires Bounded(view, bound) && size >= 1 && Growing(view)
    requires |Shipped(view(1).counted)| <= size
    requires n < |view(1).counted| && view(1).counted[n].Shipped?
    ensures n !in Fetched(view, 1, size, bound) <==> CountFrom(view(1).listed, n + 1) >= size
  {
    assert Grows(view(1).counted, view(1).listed);
    assert Times(1, size) == Times(0, size) + size;
    FetchedExactly(view, 1, size, bound, n);
    FoundHere(view, 1, size, n);
  }

  const ONE: seq<OrderStatus> := [OrderStatus.Shipped, Placed]
  const BOTH: seq<OrderStatus> := [OrderStatus.Shipped, OrderStatus.Shipped]

  /** The second order ships between the count and the list of the first request. */
  function GapView(page: nat): View {
    View(if page <= 1 then ONE else BOTH, if page == 0 then ONE else BOTH)
  }

  /** With one row a page that fetch misses the order shipped long before. */
  lemma GapRun()
    ensures Growing(GapView) && Bounded(GapView, 2)
    ensures 0 !in Fetched(GapView, 1, ServedSize(1), 2)
  {
    assert ONE[..1] == [OrderStatus.Shipped] == BOTH[..1];
    assert Shipped(ONE) == [] + Shipped(ONE[..1]);
    assert Shipped([OrderStatus.Shipped]) == [0] + Shipped([]);
    assert CountFrom(BOTH, 1) == CountFrom(BOTH[..1], 1) + 1;
    GapMisses(GapView, 1, 2, 0);
  }
}
