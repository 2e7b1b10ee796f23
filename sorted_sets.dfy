/** Enumerating a finite set of natural numbers in ascending order: the
    order JavaScript's `Object.keys` gives integer-like property keys, and the
    order `keys.map(k => +k).sort((a, b) => a - b)` produces. */
module SortedSets {

  predicate StrictlyIncreasing(s: seq<nat>)
  {
    forall i, j :: 0 <= i < j < |s| ==> s[i] < s[j]
  }

  lemma MinExists(s: set<nat>)
    requires s != {}
    ensures exists m :: m in s && forall x :: x in s ==> m <= x
  {
    var m := Least(s);
  }

  /** A least element, found by removing an arbitrary element and comparing
      it to the least of the rest. */
  lemma {:induction false} Least(s: set<nat>) returns (m: nat)
    requires s != {}
    ensures m in s && forall x :: x in s ==> m <= x
  {
    var y :| y in s;
    var rest := s - {y};
    if rest == {} {
      m := y;
      forall x | x in s
        ensures y <= x
      {
        assert x !in rest;
      }
    } else {
      var r := Least(rest);
      m := if y < r then y else r;
      forall x | x in s
        ensures m <= x
      {
        if x != y {
          assert x in rest;
        }
      }
    }
  }

  /** The least element of a non-empty set. */
  function Min(s: set<nat>): (m: nat)
    requires s != {}
    ensures m in s && forall x :: x in s ==> m <= x
  {
    MinExists(s);
    var m :| m in s && forall x :: x in s ==> m <= x; m
  }

  /** The elements of `s`, each once, smallest first. */
  function Ascending(s: set<nat>): (r: seq<nat>)
    ensures |r| == |s|
    decreases |s|
  {
    if s == {} then []
    else
      var m := Min(s);
      [m] + Ascending(s - {m})
  }

  /** `Ascending(s)` is strictly increasing and holds exactly the elements of
      `s`. */
  lemma AscendingSpec(s: set<nat>)
    ensures StrictlyIncreasing(Ascending(s))
    ensures forall x :: x in s <==> x in Ascending(s)
  {
    AscendingMembers(s);
    AscendingIncreasing(s);
  }

  lemma {:induction false} AscendingMembers(s: set<nat>)
    ensures forall x :: x in s <==> x in Ascending(s)
    decreases |s|
  {
    if s != {} {
      var m := Min(s);
      AscendingMembers(s - {m});
      assert Ascending(s) == [m] + Ascending(s - {m});
    }
  }

  lemma {:induction false} AscendingIncreasing(s: set<nat>)
    ensures StrictlyIncreasing(Ascending(s))
    decreases |s|
  {
    if s != {} {
      var m := Min(s);
      var t := Ascending(s - {m});
      AscendingIncreasing(s - {m});
      AscendingMembers(s - {m});
      assert Ascending(s) == [m] + t;
      forall j | 0 <= j < |t|
        ensures m < t[j]
      {
        assert t[j] in s - {m};
      }
    }
  }

  /** The set `{0, …, n-1}`. */
  function Range(n: nat): (r: set<nat>)
    ensures forall i: nat :: i in r <==> i < n
    ensures |r| == n
  {
    if n == 0 then {} else Range(n - 1) + {n - 1}
  }

  /** The naturals `lo, lo + 1, …, hi - 1`, in order. */
  function Interval(lo: nat, hi: nat): (r: seq<nat>)
    ensures |r| == if lo <= hi then hi - lo else 0
    ensures forall j :: 0 <= j < |r| ==> r[j] == lo + j
  {
    var n := if lo <= hi then hi - lo else 0;
    seq(n, j requires 0 <= j < n => lo + j as nat)
  }

  /** Cutting an interval at `mid` gives its two halves. */
  lemma IntervalSplit(lo: nat, mid: nat, hi: nat)
    requires lo <= mid <= hi
    ensures Interval(lo, hi) == Interval(lo, mid) + Interval(mid, hi)
  {
    var a, b := Interval(lo, mid), Interval(mid, hi);
    forall j | 0 <= j < hi - lo
      ensures Interval(lo, hi)[j] == (a + b)[j]
    {
      if j >= |a| {
        assert (a + b)[j] == b[j - |a|];
      }
    }
  }

  /** The indices `0..n-1` enumerate as `0, 1, …, n-1`. */
  lemma AscendingRange(n: nat)
    ensures Ascending(Range(n)) == Interval(0, n)
  {
    var r := Ascending(Range(n));
    AscendingSpec(Range(n));
    forall j | 0 <= j < n
      ensures r[j] < n
    {
      assert r[j] in Range(n);
    }
    IncreasingInterval(r, n);
  }

  lemma IncreasingInterval(r: seq<nat>, n: nat)
    requires |r| == n && StrictlyIncreasing(r)
    requires forall j :: 0 <= j < n ==> r[j] < n
    ensures r == Interval(0, n)
  {
    forall i | 0 <= i < n
      ensures r[i] == Interval(0, n)[i]
    {
      IncreasingBounds(r, n, i);
    }
  }

  /** A strictly increasing sequence of `n` naturals below `n` is `0..n-1`. */
  lemma IncreasingBounds(r: seq<nat>, n: nat, i: nat)
    requires |r| == n && StrictlyIncreasing(r) && i < n
    requires forall j :: 0 <= j < n ==> r[j] < n
    ensures r[i] == i
  {
    AtLeastIndex(r, i);
    AtMostIndex(r, n, i);
  }

  lemma {:induction false} AtLeastIndex(r: seq<nat>, i: nat)
    requires StrictlyIncreasing(r) && i < |r|
    ensures r[i] >= i
  {
    if i > 0 {
      AtLeastIndex(r, i - 1);
    }
  }

  lemma {:induction false} AtMostIndex(r: seq<nat>, n: nat, i: nat)
    requires |r| == n && StrictlyIncreasing(r) && i < n
    requires forall j :: 0 <= j < n ==> r[j] < n
    ensures r[i] <= i
    decreases n - i
  {
    if i < n - 1 {
      AtMostIndex(r, n, i + 1);
    }
  }
}
