/** Bounded concurrency in the claim loop (services/coordinator/src/worker.ts). */
module Worker {
  import Sets

  /** One of the workers pulling from the shared cursor. */
  datatype Slot = Idle | Busy(item: nat) | Done

  function Weight(slots: seq<Slot>): nat {
    if slots == [] then 0
    else Weight(slots[1..]) + match slots[0] { case Idle => 1 case Busy(_) => 2 case Done => 0 }
  }

  lemma {:induction false} WeightUpdate(slots: seq<Slot>, w: nat, slot: Slot)
    requires w < |slots|
    ensures Weight(slots[w := slot]) - Weight([slot]) == Weight(slots) - Weight([slots[w]])
  {
    if w > 0 {
      WeightUpdate(slots[1..], w - 1, slot);
      assert slots[w := slot][1..] == slots[1..][w - 1 := slot];
    } else {
      assert slots[w := slot][1..] == slots[1..];
    }
  }

  /** The workers with an item in hand. */
  function InFlight(slots: seq<Slot>): set<nat> {
    set w: nat | w < |slots| && slots[w].Busy?
  }

  lemma {:induction false} InFlightBound(slots: seq<Slot>)
    ensures |InFlight(slots)| <= |slots|
  {
    if slots != [] {
      var n := |slots| - 1;
      InFlightBound(slots[..n]);
      assert InFlight(slots) <= InFlight(slots[..n]) + {n};
      Sets.SubsetSize(InFlight(slots), InFlight(slots[..n]) + {n});
    }
  }

  /** Every index below n, once each, in whatever order the work finished. */
  ghost predicate EachOnce(handled: seq<nat>, n: nat) {
    && (forall j, k :: 0 <= j < k < |handled| ==> handled[j] != handled[k])
    && (forall i: nat :: i in handled <==> i < n)
  }

  predicate Holds(slots: seq<Slot>, i: nat) {
    exists w :: 0 <= w < |slots| && slots[w] == Busy(i)
  }

  /** An item is in exactly one place once the cursor has passed it. */
  ghost predicate Placed(cursor: nat, slots: seq<Slot>, handled: seq<nat>) {
    && (forall j, k :: 0 <= j < k < |handled| ==> handled[j] != handled[k])
    && (forall i <- handled :: i < cursor)
    && (forall w :: 0 <= w < |slots| && slots[w].Busy? ==> slots[w].item < cursor && slots[w].item !in handled)
    && (forall v, w :: 0 <= v < w < |slots| && slots[v].Busy? && slots[w].Busy? ==> slots[v].item != slots[w].item)
    && (forall i: nat :: i < cursor && i !in handled ==> Holds(slots, i))
  }

  lemma Take(cursor: nat, slots: seq<Slot>, handled: seq<nat>, w: nat)
    requires w < |slots| && slots[w].Idle? && Placed(cursor, slots, handled)
    ensures Placed(cursor + 1, slots[w := Busy(cursor)], handled)
  {
    Others(slots, w, Busy(cursor));
    var after := slots[w := Busy(cursor)];
    assert after[w] == Busy(cursor);
  }

  lemma Finish(cursor: nat, slots: seq<Slot>, handled: seq<nat>, w: nat)
    requires w < |slots| && slots[w].Busy? && Placed(cursor, slots, handled)
    ensures Placed(cursor, slots[w := Idle], handled + [slots[w].item])
  {
    Others(slots, w, Idle);
    forall i <- handled + [slots[w].item] ensures i < cursor {
      assert i in handled || i == slots[w].item;
    }
  }

  lemma Stop(cursor: nat, slots: seq<Slot>, handled: seq<nat>, w: nat)
    requires w < |slots| && slots[w].Idle? && Placed(cursor, slots, handled)
    ensures Placed(cursor, slots[w := Done], handled)
  {
    Others(slots, w, Done);
  }

  /** An item another worker holds stays in its hands. */
  lemma Others(slots: seq<Slot>, w: nat, slot: Slot)
    requires w < |slots|
    ensures forall i: nat :: Holds(slots, i) && slots[w] != Busy(i) ==> Holds(slots[w := slot], i)
  {
    var after := slots[w := slot];
    forall i: nat | Holds(slots, i) && slots[w] != Busy(i) ensures Holds(after, i) {
      var v :| 0 <= v < |slots| && slots[v] == Busy(i);
      assert after[v] == Busy(i);
    }
  }

  lemma AllDone(cursor: nat, slots: seq<Slot>, handled: seq<nat>)
    requires Placed(cursor, slots, handled) && forall w :: 0 <= w < |slots| ==> slots[w].Done?
    ensures EachOnce(handled, cursor)
  {
    forall i: nat | i < cursor ensures i in handled {
      assert Holds(slots, i) || i in handled;
    }
  }

  /** mapWithConcurrency: which worker moves next is not determined, a step being the code
      between two awaits. Every item is handled exactly once, never more than `limit` at a
      time; with a limit below one there is no worker, and nothing is handled at all. */
  method MapWithConcurrency<T>(items: seq<T>, limit: int) returns (handled: seq<nat>, ghost peak: nat)
    ensures limit >= 1 || items == [] ==> EachOnce(handled, |items|)
    ensures limit < 1 ==> handled == []
    ensures peak <= if limit < 0 then 0 else limit
  {
    var workers := if limit < 0 then 0 else if limit < |items| then limit else |items|;
    var slots := seq(workers, _ => Idle);
    var cursor := 0;
    handled, peak := [], 0;
    while exists w :: 0 <= w < |slots| && !slots[w].Done?
      invariant |slots| == workers && cursor <= |items| && peak <= workers
      invariant workers == 0 ==> handled == [] && cursor == 0
      invariant Placed(cursor, slots, handled)
      invariant forall w :: 0 <= w < |slots| && slots[w].Done? ==> cursor == |items|
      decreases |items| - cursor, Weight(slots)
    {
      var w :| 0 <= w < |slots| && !slots[w].Done?;
      if slots[w].Busy? {
        WeightUpdate(slots, w, Idle);
        Finish(cursor, slots, handled, w);
        handled, slots := handled + [slots[w].item], slots[w := Idle];
      } else if cursor < |items| {
        Take(cursor, slots, handled, w);
        slots, cursor := slots[w := Busy(cursor)], cursor + 1;
      } else {
        WeightUpdate(slots, w, Done);
        Stop(cursor, slots, handled, w);
        slots := slots[w := Done];
      }
      InFlightBound(slots);
      peak := if |InFlight(slots)| > peak then |InFlight(slots)| else peak;
    }
    AllDone(cursor, slots, handled);
    assert workers > 0 ==> slots[0].Done?;
  }
}
