/** The retry policy of `apRequest.fetch`: up to three attempts; after each
    failed attempt the next of the two recovery tasks (reload the view;
    clear the storage, then reload) runs once, in order; the first attempt
    whose content type passes the test gives the body. The browser view is
    left out: what each attempt and each task yields is an input. */
module ApRequest {
  import opened Wrappers
  import opened Strings

  type Byte = bv8

  /** `let attempts = 3`. */
  const MaxAttempts: nat := 3
  /** `this.tasks.length`. */
  const TaskCount: nat := 2

  const RequestTimeout := "request timeout"
  const FetchFailed := "fetch failed"

  /** What `result` holds after one attempt: the `[content-type, body]` pair
      the page's `fetch` resolved to (a missing header is `null`), the error
      the script threw, or the timeout's `Error('request timeout')`. */
  datatype Attempt = Answer(contentType: Option<string>, body: seq<Byte>) | Thrown(message: string) | TimedOut

  /** The outcome of `fetch`: the body; the `Error` it returns; or the
      rejection of a recovery task, which `fetch` does not catch. */
  datatype Outcome = Body(bytes: seq<Byte>) | Failed(message: string) | TaskRejected(reason: string)

  /** A complete run: the outcome, how many attempts were made and how many
      recovery tasks ran. */
  datatype Run = Run(outcome: Outcome, attempts: nat, tasks: nat)

  /** The default test `v => /application\/json/.test(v)`; the regular
      expression reads a `null` content type as the text `"null"`. */
  predicate DefaultTest(v: string)
  {
    Contains(v, "application/json")
  }

  function TestInput(contentType: Option<string>): string
  {
    if contentType.None? then "null" else contentType.value
  }

  /** `Array.isArray(result) && test(result[0])`. */
  predicate Passes(a: Attempt, test: string -> bool)
  {
    a.Answer? && test(TestInput(a.contentType))
  }

  /** `result instanceof Error ? result : new Error('fetch failed')`. */
  function LastError(a: Attempt): string
  {
    match a
    case Thrown(m) => m
    case TimedOut => RequestTimeout
    case Answer(_, _) => FetchFailed
  }

  /** The recovery tasks run once `k` attempts have failed. */
  function TasksAfter(k: nat): nat
  {
    if k < TaskCount then k else TaskCount
  }

  /** The run from attempt `k` on, `k` attempts and `TasksAfter(k)` tasks
      having gone before; `results(k)` is what attempt `k` yields and
      `recovery(k)` the reason task `k` rejects, if it does. */
  function RunFrom(k: nat, results: nat -> Attempt, recovery: nat -> Option<string>, test: string -> bool): Run
    requires k < MaxAttempts
    decreases MaxAttempts - k
  {
    var r := results(k);
    if Passes(r, test) then Run(Body(r.body), k + 1, TasksAfter(k))
    else if k < TaskCount && recovery(k).Some? then Run(TaskRejected(recovery(k).value), k + 1, k + 1)
    else if k + 1 < MaxAttempts then RunFrom(k + 1, results, recovery, test)
    else Run(Failed(LastError(r)), k + 1, TasksAfter(k + 1))
  }

  /** `apRequest.fetch(url, test)`: the loop that counts `attempts` down and
      advances the task iterator. */
  method Fetch(results: nat -> Attempt, recovery: nat -> Option<string>, test: string -> bool) returns (run: Run)
    ensures run == RunFrom(0, results, recovery, test)
  {
    var attempts: nat := MaxAttempts;
    var made: nat := 0;
    var next := 0;
    var result := TimedOut;
    while attempts > 0
      invariant made + attempts == MaxAttempts && next == TasksAfter(made)
      invariant made < MaxAttempts ==> RunFrom(made, results, recovery, test) == RunFrom(0, results, recovery, test)
      invariant made == MaxAttempts ==>
        RunFrom(0, results, recovery, test) == Run(Failed(LastError(result)), MaxAttempts, TaskCount)
      decreases attempts
    {
      attempts := attempts - 1;
      result := results(made);
      made := made + 1;
      if Passes(result, test) {
        return Run(Body(result.body), made, next);
      }
      if next < TaskCount {
        var rejection := recovery(next);
        next := next + 1;
        if rejection.Some? {
          return Run(TaskRejected(rejection.value), made, next);
        }
      }
    }
    return Run(Failed(LastError(result)), made, next);
  }

  /** What a run from attempt `k` does: it makes at most the remaining
      attempts; every attempt before the last one made failed the test and
      was followed by its recovery task, which resolved; the last attempt
      made either passed and gives its body, or failed and was followed by a
      rejecting task, or was the third, and its error, or `fetch failed`,
      is returned. Each task runs at most once and in order. */
  lemma {:induction false} RunFromSpec(k: nat, results: nat -> Attempt, recovery: nat -> Option<string>, test: string -> bool)
    requires k < MaxAttempts
    ensures var run := RunFrom(k, results, recovery, test);
      var last := run.attempts - 1;
      k < run.attempts <= MaxAttempts &&
      run.tasks == (if run.outcome.TaskRejected? then run.attempts else TasksAfter(last)) &&
      (forall i :: k <= i < last ==> !Passes(results(i), test) && (i < TaskCount ==> recovery(i).None?)) &&
      match run.outcome
      case Body(b) => Passes(results(last), test) && b == results(last).body
      case TaskRejected(x) => !Passes(results(last), test) && last < TaskCount && recovery(last) == Some(x)
      case Failed(m) => last == MaxAttempts - 1 && !Passes(results(last), test) && m == LastError(results(last))
    decreases MaxAttempts - k
  {
    var r := results(k);
    if !Passes(r, test) && !(k < TaskCount && recovery(k).Some?) && k + 1 < MaxAttempts {
      RunFromSpec(k + 1, results, recovery, test);
    }
  }

  /** Three attempts that all fail the test, with both tasks resolving, run
      both tasks and return the third attempt's error, or `fetch failed`
      when it was an answer with the wrong content type. */
  lemma AllAttemptsFail(results: nat -> Attempt, recovery: nat -> Option<string>, test: string -> bool)
    requires forall i :: 0 <= i < MaxAttempts ==> !Passes(results(i), test)
    requires forall i :: 0 <= i < TaskCount ==> recovery(i).None?
    ensures RunFrom(0, results, recovery, test) == Run(Failed(LastError(results(2))), 3, 2)
  {
    assert !Passes(results(0), test) && !Passes(results(1), test) && !Passes(results(2), test);
    assert recovery(0).None? && recovery(1).None?;
  }

  /** The first attempt to pass gives the body, when every earlier task
      resolved. */
  lemma FirstPassingWins(j: nat, results: nat -> Attempt, recovery: nat -> Option<string>, test: string -> bool)
    requires j < MaxAttempts && Passes(results(j), test)
    requires forall i :: 0 <= i < j ==> !Passes(results(i), test) && (i < TaskCount ==> recovery(i).None?)
    ensures RunFrom(0, results, recovery, test) == Run(Body(results(j).body), j + 1, TasksAfter(j))
  {
    RunFromSpec(0, results, recovery, test);
  }
}
