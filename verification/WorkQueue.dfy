/**
 The policy queue: a list that is pushed at the back, drained through a policy
 and swept in place by a mutation.
 */
module WorkQueue {
  import opened Decimal

  datatype QueueError = Empty | PolicyFailure

  datatype Extraction<+T> = Item(value: T) | Failure(error: QueueError)

  /** A policy picks a position of a non-empty list; the length of the list stands for its end. */
  type Policy<!T> = seq<T> -> nat

  /** The policy called LIFO takes the front, the oldest item. */
  function LIFO<T>(): Policy<T> {
    items => 0
  }

  /** The policy called FIFO takes the back, the newest item. */
  function FIFO<T>(): Policy<T> {
    items => if items == [] then 0 else |items| - 1
  }

  /** What `extract` returns and what it leaves in the list. */
  function Extracted<T>(items: seq<T>, policy: Policy<T>): (Extraction<T>, seq<T>) {
    if items == [] then (Failure(Empty), items)
    else
      var at := policy(items);
      if at >= |items| then (Failure(PolicyFailure), items)
      else (Item(items[at]), items[..at] + items[at + 1..])
  }

  /** Extraction neither loses nor duplicates an item, and fails only on an empty list or at the policy's fault. */
  lemma {:induction false} ExtractConserves<T>(items: seq<T>, policy: Policy<T>)
    ensures var (r, rest) := Extracted(items, policy);
      && multiset(items) == multiset(rest) + (if r.Item? then multiset{r.value} else multiset{})
      && (r.Failure? <==> items == [] || policy(items) >= |items|)
  {
    if items != [] && policy(items) < |items| {
      var at := policy(items);
      assert items == items[..at] + ([items[at]] + items[at + 1..]);
    }
  }

  lemma {:induction false} LIFOTakesOldest<T>(x: T, rest: seq<T>)
    ensures Extracted([x] + rest, LIFO()) == (Item(x), rest)
  {
    assert ([x] + rest)[..0] + ([x] + rest)[1..] == rest;
  }

  lemma {:induction false} FIFOTakesNewest<T>(rest: seq<T>, x: T)
    ensures Extracted(rest + [x], FIFO()) == (Item(x), rest)
  {
    var items := rest + [x];
    assert items[..|rest|] + items[|rest| + 1..] == rest;
  }

  /** What a mutation does to one item: the item afterwards, and whether it is removed. */
  type Mutation<!T> = T -> (T, bool)

  /** The items a sweep keeps, as the mutation left them, in their order. */
  function Kept<T>(items: seq<T>, f: Mutation<T>): seq<T> {
    if items == [] then []
    else (if f(items[0]).1 then [] else [f(items[0]).0]) + Kept(items[1..], f)
  }

  /** The items a sweep removes, as they were, in their order. */
  function Swept<T>(items: seq<T>, f: Mutation<T>): seq<T> {
    if items == [] then []
    else (if f(items[0]).1 then [items[0]] else []) + Swept(items[1..], f)
  }

  lemma {:induction false} KeptAppend<T>(items: seq<T>, x: T, f: Mutation<T>)
    ensures Kept(items + [x], f) == Kept(items, f) + if f(x).1 then [] else [f(x).0]
  {
    if items == [] {
      assert (items + [x])[1..] == [];
    } else {
      assert (items + [x])[1..] == items[1..] + [x];
      KeptAppend(items[1..], x, f);
    }
  }

  /** The items a sweep keeps, as they were, in their order. */
  function Spared<T>(items: seq<T>, f: Mutation<T>): seq<T> {
    if items == [] then []
    else (if f(items[0]).1 then [] else [items[0]]) + Spared(items[1..], f)
  }

  /** What a sweep leaves in the queue is what the mutation made of the items it spares. */
  lemma {:induction false} KeptIsMutated<T>(items: seq<T>, f: Mutation<T>)
    ensures |Kept(items, f)| == |Spared(items, f)|
    ensures forall k | 0 <= k < |Kept(items, f)| :: Kept(items, f)[k] == f(Spared(items, f)[k]).0
  {
    if items != [] {
      KeptIsMutated(items[1..], f);
    }
  }

  /** A sweep splits the queue: nothing is lost or duplicated. */
  lemma {:induction false} SweepConserves<T>(items: seq<T>, f: Mutation<T>)
    ensures multiset(Spared(items, f)) + multiset(Swept(items, f)) == multiset(items)
    ensures forall x :: x in Spared(items, f) ==> !f(x).1
    ensures forall x :: x in Swept(items, f) ==> f(x).1
  {
    if items != [] {
      SweepConserves(items[1..], f);
      assert items == [items[0]] + items[1..];
    }
  }

  class Queue<T> {
    var items: seq<T>

    constructor ()
      ensures items == []
    {
      items := [];
    }

    /** `insert` and `emplace`: push at the back, or throw when the size counter is exhausted. */
    method Insert(item: T) returns (ok: bool)
      modifies this
      ensures ok <==> |old(items)| != INT64_MAX
      ensures items == if ok then old(items) + [item] else old(items)
    {
      if |items| == INT64_MAX {
        return false;
      }
      items := items + [item];
      return true;
    }

    /** `extract`: the item the policy points at leaves the list, the others keep their order. */
    method Extract(policy: Policy<T>) returns (r: Extraction<T>)
      modifies this
      ensures (r, items) == Extracted(old(items), policy)
    {
      if items == [] {
        return Failure(Empty);
      }
      var at := policy(items);
      if at >= |items| {
        return Failure(PolicyFailure);
      }
      r := Item(items[at]);
      items := items[..at] + items[at + 1..];
    }

    /** `mutate`: one pass over the list that erases what the mutation rejects. */
    method Mutate(f: Mutation<T>)
      modifies this
      ensures items == Kept(old(items), f)
    {
      ghost var seen := 0;
      var at := 0;
      while at < |items|
        invariant at <= |items| && seen <= |old(items)|
        invariant items[..at] == Kept(old(items)[..seen], f) && items[at..] == old(items)[seen..]
        decreases |old(items)| - seen
      {
        ghost var x := old(items)[seen];
        assert items[at] == items[at..][0] == x;
        assert items[at + 1..] == items[at..][1..] == old(items)[seen + 1..];
        assert old(items)[..seen + 1] == old(items)[..seen] + [x];
        KeptAppend(old(items)[..seen], x, f);
        var (item, remove) := f(items[at]);
        if remove {
          items := items[..at] + items[at + 1..];
        } else {
          items := items[at := item];
          at := at + 1;
        }
        seen := seen + 1;
      }
      assert items[..at] == items && old(items)[..seen] == old(items);
    }
  }
}
