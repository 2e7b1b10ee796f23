/** The episode queue of `Extractor`: `queueEpisodes` appends the numbers
    never queued before, and `runQueue` takes them first-in first-out in
    batches of at most `maxSlots` episodes. `processEpisode` is an outcome:
    `fails(num)` says whether the episode's processing rejects. */
module ExtractorQueue {
  import opened Strings
  import opened Queues
  import opened Selection

  /** `this.maxSlots`. */
  const MaxSlots: nat := 7

  type Job = (int, Preference)

  /** The slot fills of `runQueue` when no episode is queued meanwhile: the
      queue cut into consecutive runs of `MaxSlots`, the last one shorter. */
  function Batches(q: seq<Job>): seq<seq<Job>>
    decreases |q|
  {
    if |q| == 0 then []
    else if |q| <= MaxSlots then [q]
    else [q[..MaxSlots]] + Batches(q[MaxSlots..])
  }

  function Concat(bs: seq<seq<Job>>): seq<Job>
  {
    if |bs| == 0 then [] else bs[0] + Concat(bs[1..])
  }

  /** How many jobs of `q` fail. */
  function Failures(q: seq<Job>, fails: int -> bool): nat
  {
    if |q| == 0 then 0 else (if fails(q[0].0) then 1 else 0) + Failures(q[1..], fails)
  }

  /** Every fill holds between one and `MaxSlots` episodes, and the fills,
      one after the other, are the queue in order: nothing is dropped,
      repeated or reordered. */
  lemma {:induction false} BatchesSpec(q: seq<Job>)
    ensures Concat(Batches(q)) == q
    ensures forall k :: 0 <= k < |Batches(q)| ==> 1 <= |Batches(q)[k]| <= MaxSlots
    ensures forall k :: 0 <= k < |Batches(q)| - 1 ==> |Batches(q)[k]| == MaxSlots
    decreases |q|
  {
    if |q| > MaxSlots {
      BatchesSpec(q[MaxSlots..]);
      var rest := Batches(q[MaxSlots..]);
      assert ([q[..MaxSlots]] + rest)[1..] == rest;
      assert q == q[..MaxSlots] + q[MaxSlots..];
    } else if |q| > 0 {
      assert [q][1..] == [];
    }
  }

  lemma {:induction false} FailuresConcat(a: seq<Job>, b: seq<Job>, fails: int -> bool)
    ensures Failures(a + b, fails) == Failures(a, fails) + Failures(b, fails)
  {
    if |a| > 0 {
      assert (a + b)[1..] == a[1..] + b;
      FailuresConcat(a[1..], b, fails);
    } else {
      assert a + b == b;
    }
  }

  class Extractor {
    /** `this.queued`: the pending `[num, preferred]` pairs. */
    var queued: seq<Job>
    /** `this.list`: every number ever queued. */
    var list: set<int>
    /** The status updates sent so far. */
    var updates: seq<Update>

    constructor ()
      ensures queued == [] && list == {} && updates == []
    {
      queued := [];
      list := {};
      updates := [];
    }

    /** `queueEpisodes(epList, preferred)`, with `nums` the episode list the
        intervals expand to; the call to `runQueue` is left to the caller. */
    method QueueEpisodes(nums: seq<int>, preferred: Preference) returns (left: nat)
      modifies this
      ensures list == old(list) + Elements(nums)
      ensures queued == old(queued) + Paired(NewItems(nums, old(list)), preferred)
      ensures left == |queued| && updates == old(updates) + [Left(left)]
    {
      ghost var seen := list;
      ghost var q0 := queued;
      var i := 0;
      while i < |nums|
        invariant 0 <= i <= |nums|
        invariant list == seen + Elements(nums[..i]) && updates == old(updates)
        invariant queued == q0 + Paired(NewItems(nums[..i], seen), preferred)
      {
        var num := nums[i];
        QueueStep(nums, i, seen, preferred);
        if num !in list {
          list := list + {num};
          queued := queued + [(num, preferred)];
        }
        i := i + 1;
      }
      assert nums[..i] == nums;
      left := |queued|;
      updates := updates + [Left(left)];
    }

    /** The inner loop of `runQueue()`: moves jobs from the front of the
        queue to the slots until `maxSlots` are taken or the queue is empty. */
    method Refill(slots: seq<Job>) returns (filled: seq<Job>)
      requires |slots| <= MaxSlots
      modifies this
      ensures |filled| <= MaxSlots && (|filled| == MaxSlots || queued == [])
      ensures filled + queued == slots + old(queued)
      ensures |filled| >= |slots|
      ensures list == old(list) && updates == old(updates)
    {
      filled := slots;
      while |filled| < MaxSlots && |queued| > 0
        invariant |slots| <= |filled| <= MaxSlots && filled + queued == slots + old(queued)
        invariant list == old(list) && updates == old(updates)
        decreases |queued|
      {
        var job := queued[0];
        queued := queued[1..];
        filled := filled + [job];
      }
    }

    /** `runQueue()`. Each outer round fills the slots from the front of the
        queue, awaits them, and is left with no slot pending; `batches`
        records the fills, and the failures of a fill are counted when the
        round ends. */
    method RunQueue(fails: int -> bool) returns (batches: seq<seq<Job>>)
      modifies this
      ensures queued == [] && list == old(list)
      ensures batches == Batches(old(queued))
      ensures var trouble := Failures(old(queued), fails);
        updates == old(updates) + (if trouble > 0 then [Error(Decimal(trouble) + " episodes failed")] else []) + [End]
    {
      ghost var q0 := queued;
      var slots: seq<Job> := [];
      var trouble: nat := 0;
      batches := [];
      while |queued| > 0 || |slots| > 0
        invariant slots == []
        invariant batches + Batches(queued) == Batches(q0)
        invariant trouble + Failures(queued, fails) == Failures(q0, fails)
        invariant list == old(list) && updates == old(updates)
        decreases |queued|
      {
        ghost var q1 := queued;
        slots := Refill(slots);
        RefillBatch(q1, slots, queued);
        FailuresConcat(slots, queued, fails);
        trouble := trouble + Failures(slots, fails);
        batches := batches + [slots];
        slots := [];
      }
      if trouble > 0 {
        updates := updates + [Error(Decimal(trouble) + " episodes failed")];
      }
      updates := updates + [End];
    }
  }

  /** What `queueEpisodes` learns from looking at `nums[i]`. */
  lemma QueueStep(nums: seq<int>, i: nat, seen: set<int>, preferred: Preference)
    requires i < |nums|
    ensures Elements(nums[..i + 1]) == Elements(nums[..i]) + {nums[i]}
    ensures var isNew := !(nums[i] in seen + Elements(nums[..i]));
      Paired(NewItems(nums[..i + 1], seen), preferred)
      == Paired(NewItems(nums[..i], seen), preferred) + (if isNew then [(nums[i], preferred)] else [])
  {
    var init := nums[..i + 1][..i];
    assert init == nums[..i];
    assert nums[..i + 1] == nums[..i] + [nums[i]];
    assert nums[i] in Elements(nums[..i]) <==> nums[i] in nums[..i];
  }

  /** One fill takes what the next batch holds. */
  lemma RefillBatch(q: seq<Job>, slots: seq<Job>, rest: seq<Job>)
    requires |q| > 0 && slots + rest == q && |slots| <= MaxSlots
    requires |slots| == MaxSlots || rest == []
    ensures Batches(q) == [slots] + Batches(rest)
  {
    if |q| > MaxSlots {
      assert q[..MaxSlots] == slots && q[MaxSlots..] == rest;
    } else {
      assert |rest| == |q| - |slots|;
      assert slots == q;
    }
  }
}
