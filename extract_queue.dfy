/** The resumable episode queue of `Extract`: `queue` parses a comma
    separated episode list, and the drain loop of `runQueue` takes the
    pending episodes last-in first-out, reports what is left, and goes on
    past every failure. The series' episode table, the file system, the
    options request and the download are inputs (`Env`). */
module ExtractQueue {
  import opened Wrappers
  import opened Strings
  import opened Queues
  import opened Options
  import opened Selection

  /** A JavaScript number as `+token` produces it, for the tokens the model
      distinguishes: integers and `NaN`. */
  datatype Num = Int(value: int) | NaN

  type Job = (Num, Preference)

  /** The message of the `TypeError` raised by `options[0].kwik` when there
      are no options. */
  const NoFirstOption := "Cannot read properties of undefined (reading 'kwik')"

  function TrimStart(s: string): string
  {
    if |s| > 0 && IsSpace(s[0]) then TrimStart(s[1..]) else s
  }

  function TrimEnd(s: string): string
  {
    if |s| > 0 && IsSpace(s[|s| - 1]) then TrimEnd(s[..|s| - 1]) else s
  }

  /** `TrimStart(s)` is what is left of `s` after its leading white space. */
  lemma {:induction false} TrimStartSpec(s: string)
    ensures var t := TrimStart(s);
      |t| <= |s| && t == s[|s| - |t|..] && (|t| == 0 || !IsSpace(t[0])) &&
      forall i :: 0 <= i < |s| - |t| ==> IsSpace(s[i])
  {
    if |s| > 0 && IsSpace(s[0]) {
      TrimStartSpec(s[1..]);
    }
  }

  /** `TrimEnd(s)` is what is left of `s` before its trailing white space. */
  lemma {:induction false} TrimEndSpec(s: string)
    ensures var t := TrimEnd(s);
      |t| <= |s| && t == s[..|t|] && (|t| == 0 || !IsSpace(t[|t| - 1])) &&
      forall i :: |t| <= i < |s| ==> IsSpace(s[i])
  {
    if |s| > 0 && IsSpace(s[|s| - 1]) {
      TrimEndSpec(s[..|s| - 1]);
    }
  }

  /** `+token`: surrounding white space is ignored, an empty token is 0, an
      optionally signed run of decimal digits is its value, anything else is
      `NaN` here. */
  function ToNumber(token: string): Num
  {
    Coerce(TrimEnd(TrimStart(token)))
  }

  /** `+t` for a token `t` already trimmed. */
  function Coerce(t: string): Num
  {
    if |t| == 0 then Int(0)
    else if AllDigits(t) then Int(DigitsValue(t))
    else if |t| > 1 && t[0] == '-' && AllDigits(t[1..]) then Int(-(DigitsValue(t[1..]) as int))
    else if |t| > 1 && t[0] == '+' && AllDigits(t[1..]) then Int(DigitsValue(t[1..]))
    else NaN
  }

  /** `${num}`. */
  function Show(n: Num): string
  {
    match n
    case NaN => "NaN"
    case Int(v) => IntText(v)
  }

  /** A string that neither starts nor ends with white space is its own
      trimmed form. */
  lemma TrimmedAlready(s: string)
    requires |s| == 0 || (!IsSpace(s[0]) && !IsSpace(s[|s| - 1]))
    ensures TrimEnd(TrimStart(s)) == s
  {
  }

  /** Printing a number and coercing the text back gives the number. */
  lemma ShowToNumber(n: Num)
    ensures ToNumber(Show(n)) == n
  {
    match n
    case NaN =>
      TrimmedAlready("NaN");
      assert !AllDigits("NaN") by { assert !IsDigit("NaN"[0]); }
    case Int(v) =>
      if v < 0 {
        NegativeToNumber(-v);
      } else {
        NaturalToNumber(v);
      }
  }

  lemma NaturalToNumber(v: nat)
    ensures ToNumber(Decimal(v)) == Int(v)
  {
    var d := Decimal(v);
    assert Coerce(d) == Int(v) by { DecimalValue(v); }
    TrimmedAlready(d);
  }

  lemma NegativeToNumber(m: nat)
    requires m > 0
    ensures ToNumber("-" + Decimal(m)) == Int(-(m as int))
  {
    var d := Decimal(m);
    var s := "-" + d;
    assert Coerce(s) == Int(-(m as int)) by {
      DecimalValue(m);
      assert s[1..] == d;
      assert !AllDigits(s) by { assert !IsDigit(s[0]); }
    }
    assert s[|s| - 1] == d[|d| - 1];
    TrimmedAlready(s);
  }

  /** White space around a token does not change its value. */
  lemma PaddedToNumber(w: string, token: string, z: string)
    requires forall i :: 0 <= i < |w| ==> IsSpace(w[i])
    requires forall i :: 0 <= i < |z| ==> IsSpace(z[i])
    ensures ToNumber(w + token + z) == ToNumber(token)
  {
    assert TrimStart(w + token + z) == TrimStart(token + z) by {
      assert w + token + z == w + (token + z);
      TrimStartSpaces(w, token + z);
    }
    assert TrimEnd(TrimStart(token + z)) == TrimEnd(TrimStart(token)) by {
      TrimStartSuffix(token, z);
      TrimEndSpaces(TrimStart(token), z);
    }
  }

  lemma {:induction false} TrimStartSpaces(w: string, s: string)
    requires forall i :: 0 <= i < |w| ==> IsSpace(w[i])
    ensures TrimStart(w + s) == TrimStart(s)
  {
    if |w| > 0 {
      assert (w + s)[1..] == w[1..] + s;
      TrimStartSpaces(w[1..], s);
    } else {
      assert w + s == s;
    }
  }

  lemma {:induction false} TrimEndSpaces(s: string, z: string)
    requires forall i :: 0 <= i < |z| ==> IsSpace(z[i])
    ensures TrimEnd(s + z) == TrimEnd(s)
  {
    if |z| > 0 {
      var n := |z| - 1;
      assert (s + z)[..|s + z| - 1] == s + z[..n];
      TrimEndSpaces(s, z[..n]);
    } else {
      assert s + z == s;
    }
  }

  /** Trimming the front of `token + z` trims the front of `token`, unless
      `token` is all white space. */
  lemma {:induction false} TrimStartSuffix(token: string, z: string)
    requires forall i :: 0 <= i < |z| ==> IsSpace(z[i])
    ensures TrimEnd(TrimStart(token + z)) == TrimEnd(TrimStart(token) + z)
  {
    if |token| > 0 && IsSpace(token[0]) {
      assert (token + z)[1..] == token[1..] + z;
      TrimStartSuffix(token[1..], z);
    } else if |token| == 0 {
      assert token + z == z;
      TrimStartSpaces(z, "");
      assert z + "" == z;
      TrimEndSpaces("", z);
      assert "" + z == z;
    }
  }

  /** The coerced tokens of `epList.split(',')`. */
  function Tokens(epList: string): (nums: seq<Num>)
  {
    Coerced(Split(epList, ','))
  }

  /** `parts.map(n => +n)`. */
  function Coerced(parts: seq<string>): (nums: seq<Num>)
  {
    if |parts| == 0 then [] else [ToNumber(parts[0])] + Coerced(parts[1..])
  }

  /** `nums.join(',')`'s parts: each number printed. */
  function Shown(ns: seq<Num>): (parts: seq<string>)
    ensures |parts| == |ns|
  {
    if |ns| == 0 then [] else [Show(ns[0])] + Shown(ns[1..])
  }

  lemma NoCommaInShow(n: Num)
    ensures ',' !in Show(n)
  {
    if n.Int? {
      var d := Decimal(if n.value < 0 then -n.value else n.value);
      assert forall i :: 0 <= i < |d| ==> IsDigit(d[i]);
      if n.value < 0 {
        assert forall i :: 1 <= i < |"-" + d| ==> ("-" + d)[i] == d[i - 1];
      }
    }
  }

  lemma {:induction false} CoercedShown(ns: seq<Num>)
    ensures Coerced(Shown(ns)) == ns
    ensures forall k :: 0 <= k < |ns| ==> ',' !in Shown(ns)[k]
  {
    if |ns| > 0 {
      CoercedShown(ns[1..]);
      ShowToNumber(ns[0]);
      NoCommaInShow(ns[0]);
      var p := Shown(ns);
      assert p[1..] == Shown(ns[1..]);
      forall k | 0 <= k < |ns|
        ensures ',' !in p[k]
      {
        if k > 0 {
          assert p[k] == Shown(ns[1..])[k - 1];
        }
      }
    }
  }

  /** Printing a non-empty list of numbers joined by commas and queuing that
      text yields the same numbers. */
  lemma TokensRoundTrip(ns: seq<Num>)
    requires |ns| >= 1
    ensures Tokens(Join(Shown(ns), ',')) == ns
  {
    CoercedShown(ns);
    SplitJoin(Shown(ns), ',');
  }

  /** The inputs the drain loop reads. */
  datatype Env = Env(
    /** `serie.episodes`: number to episode session. */
    episodes: map<int, string>,
    /** Whether `fs.access` finds `<num>.mp4` in the series folder. */
    onDisk: int -> bool,
    /** The options response for a session: the request's error, a body
        without an iterable `data`, or its items. */
    fetched: string -> Result<Option<seq<Item>>, string>,
    /** The outcome of `downloadAndAssemble(new URL(kwik), num)`: the error
        message, if any. */
    assemble: (int, string) -> Option<string>)

  /** The requests the loop makes. */
  datatype Call = FetchOptions(session: string) | Assemble(num: int, url: string)

  datatype Trace = Trace(updates: seq<Update>, calls: seq<Call>)

  function Then(a: Trace, b: Trace): Trace
  {
    Trace(a.updates + b.updates, a.calls + b.calls)
  }

  function NotFound(n: Num): string
  {
    "episode " + Show(n) + " not found"
  }

  /** What the loop does with the popped number `num`: a not-found error; a
      skip when the file exists; else the options request, then the
      download of the first option, each of which can fail. */
  function Outcome(num: Num, env: Env): (t: Trace)
    ensures |t.updates| <= 1 && forall k :: 0 <= k < |t.updates| ==> !t.updates[k].Left?
  {
    if num.NaN? || num.value !in env.episodes then Trace([Error(NotFound(num))], [])
    else if env.onDisk(num.value) then Trace([], [])
    else
      var session := env.episodes[num.value];
      var fetch := [FetchOptions(session)];
      match env.fetched(session)
      case Failure(e) => Trace([Error(e)], fetch)
      case Success(data) =>
        if data.None? then Trace([Error(DataNotIterable)], fetch)
        else
          var options := Flatten(data.value);
          if |options| == 0 then Trace([Error(NoFirstOption)], fetch)
          else
            var calls := fetch + [Assemble(num.value, options[0].kwik)];
            match env.assemble(num.value, options[0].kwik)
            case None => Trace([FullProgress], calls)
            case Some(e) => Trace([Error(e)], calls)
  }

  /** One turn of the drain loop: pop, report `left`, handle the job. */
  function Step(job: Job, left: nat, env: Env): Trace
  {
    Then(Trace([Left(left)], []), Outcome(job.0, env))
  }

  /** The whole drain of the pending list `q`: its last job first. */
  function DrainLog(q: seq<Job>, env: Env): Trace
  {
    if |q| == 0 then Trace([], [])
    else Then(Step(q[|q| - 1], |q| - 1, env), DrainLog(q[..|q| - 1], env))
  }

  /** The counts of the `'left'` updates, in order. */
  function LeftCounts(us: seq<Update>): seq<nat>
  {
    if |us| == 0 then []
    else (if us[0].Left? then [us[0].count] else []) + LeftCounts(us[1..])
  }

  /** The episode numbers handed to the download, in order. */
  function Assembled(cs: seq<Call>): seq<int>
  {
    if |cs| == 0 then []
    else (if cs[0].Assemble? then [cs[0].num] else []) + Assembled(cs[1..])
  }

  lemma {:induction false} LeftCountsConcat(a: seq<Update>, b: seq<Update>)
    ensures LeftCounts(a + b) == LeftCounts(a) + LeftCounts(b)
  {
    if |a| > 0 {
      assert (a + b)[1..] == a[1..] + b;
      LeftCountsConcat(a[1..], b);
    } else {
      assert a + b == b;
    }
  }

  lemma {:induction false} AssembledConcat(a: seq<Call>, b: seq<Call>)
    ensures Assembled(a + b) == Assembled(a) + Assembled(b)
  {
    if |a| > 0 {
      assert (a + b)[1..] == a[1..] + b;
      AssembledConcat(a[1..], b);
    } else {
      assert a + b == b;
    }
  }

  /** One turn reports `left` once and nothing else as `'left'`. */
  lemma StepLeft(job: Job, left: nat, env: Env)
    ensures LeftCounts(Step(job, left, env).updates) == [left]
  {
    var us := Outcome(job.0, env).updates;
    LeftCountsConcat([Left(left)], us);
    assert [Left(left)][1..] == [];
    if |us| == 1 {
      assert us[1..] == [];
    }
  }

  /** `n - 1, n - 2, …, 0`. */
  function Countdown(n: nat): (c: seq<nat>)
    ensures |c| == n && forall k :: 0 <= k < n ==> c[k] == n - 1 - k
  {
    if n == 0 then [] else [n - 1] + Countdown(n - 1)
  }

  /** Every pending job is popped, whatever happens to it: the `'left'`
      counts go down from `|q| - 1` to 0. */
  lemma {:induction false} DrainReportsLeft(q: seq<Job>, env: Env)
    ensures LeftCounts(DrainLog(q, env).updates) == Countdown(|q|)
  {
    if |q| > 0 {
      var n := |q| - 1;
      DrainReportsLeft(q[..n], env);
      StepLeft(q[n], n, env);
      LeftCountsConcat(Step(q[n], n, env).updates, DrainLog(q[..n], env).updates);
    }
  }

  /** The job needs nothing but a download, which is made. */
  predicate Ready(num: Num, env: Env)
    requires num.Int?
  {
    num.value in env.episodes && !env.onDisk(num.value) &&
    env.fetched(env.episodes[num.value]).Success? &&
    env.fetched(env.episodes[num.value]).value.Some? &&
    |Flatten(env.fetched(env.episodes[num.value]).value.value)| > 0
  }

  /** A ready job costs the options request and one download. */
  lemma ReadyOutcome(num: Num, env: Env)
    requires num.Int? && Ready(num, env)
    ensures var session := env.episodes[num.value];
      Outcome(num, env).calls
      == [FetchOptions(session), Assemble(num.value, Flatten(env.fetched(session).value.value)[0].kwik)]
  {
  }

  lemma ReadyAssembled(job: Job, left: nat, env: Env)
    requires job.0.Int? && Ready(job.0, env)
    ensures Assembled(Step(job, left, env).calls) == [job.0.value]
  {
    var cs := Step(job, left, env).calls;
    ReadyOutcome(job.0, env);
    assert cs == Outcome(job.0, env).calls;
    var tail := cs[1..];
    assert tail[1..] == [];
    assert Assembled(tail) == [job.0.value] + Assembled(tail[1..]);
  }

  function NumsReversed(q: seq<Job>): seq<int>
    requires forall k :: 0 <= k < |q| ==> q[k].0.Int?
  {
    if |q| == 0 then [] else [q[|q| - 1].0.value] + NumsReversed(q[..|q| - 1])
  }

  /** Last in, first out: when every job is ready, the downloads are made
      for the pending numbers from the last queued to the first. */
  lemma {:induction false} DrainLastInFirstOut(q: seq<Job>, env: Env)
    requires forall k :: 0 <= k < |q| ==> q[k].0.Int? && Ready(q[k].0, env)
    ensures Assembled(DrainLog(q, env).calls) == NumsReversed(q)
  {
    if |q| > 0 {
      var n := |q| - 1;
      DrainLastInFirstOut(q[..n], env);
      var cs := Step(q[n], n, env).calls;
      assert Ready(q[n].0, env);
      ReadyAssembled(q[n], n, env);
      AssembledConcat(cs, DrainLog(q[..n], env).calls);
    }
  }

  /** An episode missing from the series, or already on disk, costs no
      request at all; a missing one is reported as an error. */
  lemma StepWithoutRequest(job: Job, left: nat, env: Env)
    requires job.0.NaN? || job.0.value !in env.episodes || env.onDisk(job.0.value)
    ensures Step(job, left, env).calls == []
    ensures (job.0.NaN? || job.0.value !in env.episodes) <==>
      Step(job, left, env).updates == [Left(left), Error(NotFound(job.0))]
    ensures !(job.0.NaN? || job.0.value !in env.episodes) ==> Step(job, left, env).updates == [Left(left)]
  {
  }

  class Extract {
    /** `this.queued`. */
    var queued: seq<Job>
    /** `this.list`: every number ever queued. */
    var list: set<Num>
    var updates: seq<Update>
    var calls: seq<Call>

    constructor ()
      ensures queued == [] && list == {} && updates == [] && calls == []
    {
      queued := [];
      list := {};
      updates := [];
      calls := [];
    }

    /** `queue(epList, preferred)`. */
    method Queue(epList: string, preferred: Preference)
      modifies this
      ensures list == old(list) + Elements(Tokens(epList))
      ensures queued == old(queued) + Paired(NewItems(Tokens(epList), old(list)), preferred)
      ensures updates == old(updates) + [Left(|queued|)] && calls == old(calls)
    {
      var nums := Tokens(epList);
      var distinct := NewItems(nums, {});
      ghost var seen := list;
      DistinctElements(nums);
      DistinctFirst(nums, seen);
      Enqueue(distinct, preferred);
      updates := updates + [Left(|queued|)];
    }

    /** The loop of `queue` over the distinct numbers. */
    method Enqueue(distinct: seq<Num>, preferred: Preference)
      modifies this
      ensures list == old(list) + Elements(distinct)
      ensures queued == old(queued) + Paired(NewItems(distinct, old(list)), preferred)
      ensures updates == old(updates) && calls == old(calls)
    {
      ghost var seen := list;
      ghost var q0 := queued;
      ghost var added: seq<Num> := [];
      var i := 0;
      while i < |distinct|
        invariant 0 <= i <= |distinct|
        invariant list == seen + Elements(distinct[..i])
        invariant added == NewItems(distinct[..i], seen)
        invariant queued == q0 + Paired(added, preferred)
        invariant updates == old(updates) && calls == old(calls)
      {
        var ep := distinct[i];
        QueueStep(distinct, i, seen);
        PairedSnoc(added, ep, preferred);
        added := added + (if ep in list then [] else [ep]);
        Admit(ep, preferred);
        i := i + 1;
      }
      assert distinct[..i] == distinct;
    }

    /** One turn of the loop of `queue`: an unseen number joins the list and
        the queue. */
    method Admit(ep: Num, preferred: Preference)
      modifies this
      ensures list == old(list) + {ep}
      ensures queued == old(queued) + (if ep in old(list) then [] else [(ep, preferred)])
      ensures updates == old(updates) && calls == old(calls)
    {
      if ep !in list {
        list := list + {ep};
        queued := queued + [(ep, preferred)];
      }
    }

    /** The inner `while (this.queued.length > 0)` loop of `runQueue`. */
    method Drain(env: Env)
      modifies this
      ensures queued == [] && list == old(list)
      ensures Trace(updates, calls) == Then(Trace(old(updates), old(calls)), DrainLog(old(queued), env))
    {
      ghost var q0 := queued;
      while |queued| > 0
        invariant list == old(list)
        invariant Then(Trace(updates, calls), DrainLog(queued, env))
               == Then(Trace(old(updates), old(calls)), DrainLog(q0, env))
        decreases |queued|
      {
        ghost var before := Trace(updates, calls);
        ghost var q := queued;
        var job := queued[|queued| - 1];
        queued := queued[..|queued| - 1];
        var t := Handle(job.0, env);
        updates := updates + [Left(|queued|)] + t.updates;
        calls := calls + t.calls;
        TurnTrace(before, |queued|, t, job, env);
        DrainTurn(before, Trace(updates, calls), q, env);
      }
    }
  }

  /** The body of the loop's `try` block for the popped number. */
  method Handle(num: Num, env: Env) returns (t: Trace)
    ensures t == Outcome(num, env)
  {
    if num.NaN? || num.value !in env.episodes {
      return Trace([Error(NotFound(num))], []);
    }
    if env.onDisk(num.value) {
      return Trace([], []);
    }
    var session := env.episodes[num.value];
    var response := env.fetched(session);
    if response.Failure? {
      return Trace([Error(response.error)], [FetchOptions(session)]);
    }
    var options := SerieFetchOptions(response.value);
    if options.Failure? {
      return Trace([Error(options.error)], [FetchOptions(session)]);
    }
    if |options.value| == 0 {
      return Trace([Error(NoFirstOption)], [FetchOptions(session)]);
    }
    var url := options.value[0].kwik;
    var outcome := env.assemble(num.value, url);
    var made := [FetchOptions(session), Assemble(num.value, url)];
    if outcome.Some? {
      return Trace([Error(outcome.value)], made);
    }
    return Trace([FullProgress], made);
  }

  /** What `queue` learns from looking at `distinct[i]`. */
  lemma QueueStep(distinct: seq<Num>, i: nat, seen: set<Num>)
    requires i < |distinct|
    ensures Elements(distinct[..i + 1]) == Elements(distinct[..i]) + {distinct[i]}
    ensures var isNew := !(distinct[i] in seen + Elements(distinct[..i]));
      NewItems(distinct[..i + 1], seen)
      == NewItems(distinct[..i], seen) + (if isNew then [distinct[i]] else [])
  {
    var init := distinct[..i + 1][..i];
    assert init == distinct[..i];
    assert distinct[..i + 1] == distinct[..i] + [distinct[i]];
    assert distinct[i] in Elements(distinct[..i]) <==> distinct[i] in distinct[..i];
  }

  lemma PairedSnoc(nums: seq<Num>, n: Num, preferred: Preference)
    ensures Paired(nums + [n], preferred) == Paired(nums, preferred) + [(n, preferred)]
  {
  }

  /** One turn of the loop appends `Step` of the popped job. */
  lemma DrainTurn(before: Trace, after: Trace, q: seq<Job>, env: Env)
    requires |q| > 0 && after == Then(before, Step(q[|q| - 1], |q| - 1, env))
    ensures Then(after, DrainLog(q[..|q| - 1], env)) == Then(before, DrainLog(q, env))
  {
    var s := Step(q[|q| - 1], |q| - 1, env);
    var rest := DrainLog(q[..|q| - 1], env);
    assert DrainLog(q, env) == Then(s, rest);
    ThenAssociative(before, s, rest);
  }

  /** What the loop body appends is `Step` of the popped job. */
  lemma TurnTrace(before: Trace, left: nat, t: Trace, job: Job, env: Env)
    requires t == Outcome(job.0, env)
    ensures Trace(before.updates + [Left(left)] + t.updates, before.calls + t.calls)
      == Then(before, Step(job, left, env))
  {
    assert before.updates + [Left(left)] + t.updates == before.updates + ([Left(left)] + t.updates);
    assert [] + t.calls == t.calls;
  }

  lemma ThenAssociative(a: Trace, b: Trace, c: Trace)
    ensures Then(Then(a, b), c) == Then(a, Then(b, c))
  {
    assert (a.updates + b.updates) + c.updates == a.updates + (b.updates + c.updates);
    assert (a.calls + b.calls) + c.calls == a.calls + (b.calls + c.calls);
  }
}
