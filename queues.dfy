/** What the two episode queues share: the lifetime-seen filter applied when
    numbers are queued, and the status updates sent to the window. */
module Queues {

  /** The status updates `updateStatus(type, msg)` that the queues send:
      `'left'` with the pending count, `'error'` with a message, `'end'`, and
      `'progress'` with 1 when an episode is assembled. */
  datatype Update = Left(count: nat) | Error(message: string) | End | FullProgress

  /** `[num, preferred]` for each number, as both queues push them. */
  function Paired<T, P>(nums: seq<T>, preferred: P): (jobs: seq<(T, P)>)
    ensures |jobs| == |nums| && forall k :: 0 <= k < |nums| ==> jobs[k] == (nums[k], preferred)
  {
    seq(|nums|, k requires 0 <= k < |nums| => (nums[k], preferred))
  }

  function Elements<T>(xs: seq<T>): set<T>
  {
    set x | x in xs
  }

  predicate NoDuplicates<T(==)>(xs: seq<T>)
  {
    forall i, j :: 0 <= i < j < |xs| ==> xs[i] != xs[j]
  }

  /** The numbers of `xs` appended to the pending list when `seen` holds the
      numbers queued before: each number not in `seen`, at its first
      occurrence, in the order of `xs`. */
  function NewItems<T(==)>(xs: seq<T>, seen: set<T>): seq<T>
  {
    if |xs| == 0 then []
    else
      var init, x := xs[..|xs| - 1], xs[|xs| - 1];
      NewItems(init, seen) + (if x in seen || x in init then [] else [x])
  }

  /** A number is appended iff it occurs in `xs` and was not seen before. */
  lemma {:induction false} NewItemsMembers<T>(xs: seq<T>, seen: set<T>)
    ensures forall x :: x in NewItems(xs, seen) <==> x in xs && x !in seen
  {
    if |xs| > 0 {
      var init := xs[..|xs| - 1];
      NewItemsMembers(init, seen);
      assert xs == init + [xs[|xs| - 1]];
    }
  }

  /** Removing duplicates keeps the set of numbers. */
  lemma DistinctElements<T>(xs: seq<T>)
    ensures Elements(NewItems(xs, {})) == Elements(xs)
  {
    var d := NewItems(xs, {});
    NewItemsMembers(xs, {});
    assert Elements(d) <= Elements(xs) && Elements(xs) <= Elements(d);
  }

  /** No number is appended twice. */
  lemma {:induction false} NewItemsDistinct<T>(xs: seq<T>, seen: set<T>)
    ensures NoDuplicates(NewItems(xs, seen))
  {
    if |xs| > 0 {
      var init, x := xs[..|xs| - 1], xs[|xs| - 1];
      NewItemsDistinct(init, seen);
      NewItemsMembers(init, seen);
      var r := NewItems(init, seen);
      if !(x in seen || x in init) {
        forall i | 0 <= i < |r|
          ensures r[i] != x
        {
          assert r[i] in r;
        }
      }
    }
  }

  /** Queuing `a` then `b` appends what queuing `a + b` at once appends: the
      order of first occurrences is kept across calls. */
  lemma {:induction false} NewItemsConcat<T>(a: seq<T>, b: seq<T>, seen: set<T>)
    ensures NewItems(a + b, seen) == NewItems(a, seen) + NewItems(b, seen + Elements(a))
  {
    if |b| == 0 {
      assert a + b == a;
    } else {
      var init, x := b[..|b| - 1], b[|b| - 1];
      assert (a + b)[..|a + b| - 1] == a + init;
      assert (a + b)[|a + b| - 1] == x;
      NewItemsConcat(a, init, seen);
      assert x in a + init <==> x in a || x in init;
    }
  }

  /** Queuing numbers that were all seen before appends nothing. */
  lemma RequeueNothing<T>(xs: seq<T>, seen: set<T>)
    requires Elements(xs) <= seen
    ensures NewItems(xs, seen) == []
  {
    NewItemsMembers(xs, seen);
  }

  /** Removing duplicates first (`new Set(…)`) does not change what is
      appended. */
  lemma {:induction false} DistinctFirst<T>(xs: seq<T>, seen: set<T>)
    ensures NewItems(NewItems(xs, {}), seen) == NewItems(xs, seen)
  {
    if |xs| > 0 {
      var init, x := xs[..|xs| - 1], xs[|xs| - 1];
      DistinctFirst(init, seen);
      var d := NewItems(init, {});
      NewItemsMembers(init, {});
      assert Elements(d) == Elements(init);
      if x in init {
        assert NewItems(xs, {}) == d;
      } else {
        assert NewItems(xs, {}) == d + [x];
        NewItemsConcat(d, [x], seen);
        assert NewItems([x], seen + Elements(d)) == (if x in seen then [] else [x]) by {
          assert [x][..0] == [];
        }
      }
    }
  }
}
