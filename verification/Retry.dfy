/**
 Retry with cancellation: pledge-fe/src/utils/retry.ts.  The asynchronous loop is a step system over
 what can happen to it: an attempt settles, a wait ends, or the caller cancels.
 */
module Retry {
  import opened Prelude

  /** `retryable` stands for `error instanceof RetryableError`. */
  datatype Attempt<T> = Success(value: T) | Failure(error: string, retryable: bool)

  datatype Outcome<T> = Resolved(value: T) | Rejected(error: string) | Cancelled

  /** The loop awaits `fn()`, awaits the random wait, or has been left. */
  datatype Phase = Calling | Waiting | Stopped

  /** `calls` and `settles` count the calls of `fn` and of resolve or reject. */
  datatype State<T> = State(
    n: int, completed: bool, phase: Phase, calls: nat, settles: nat, promise: Option<Outcome<T>>)

  datatype Event<T> = Settles(attempt: Attempt<T>) | WaitEnds | Cancel

  /** The executor runs at once and reaches the first `await fn()`. */
  function Start<T>(n: int): State<T> {
    State(n, false, Calling, 1, 0, None)
  }

  /** A promise keeps its first settlement. */
  function Settle<T>(s: State<T>, outcome: Outcome<T>): State<T> {
    s.(completed := true, settles := s.settles + 1, promise := if s.promise.Some? then s.promise else Some(outcome))
  }

  function OnSettles<T>(s: State<T>, attempt: Attempt<T>): State<T> {
    if !s.phase.Calling? then s
    else if attempt.Success? then
      (if s.completed then s else Settle(s, Resolved(attempt.value))).(phase := Stopped)
    else if s.completed then s.(phase := Stopped)
    else if s.n <= 0 || !attempt.retryable then Settle(s, Rejected(attempt.error)).(phase := Stopped)
    else s.(n := s.n - 1, phase := Waiting)
  }

  /** The loop does not look at `completed` here: it calls `fn` again even after a cancel. */
  function OnWaitEnds<T>(s: State<T>): State<T> {
    if s.phase.Waiting? then s.(phase := Calling, calls := s.calls + 1) else s
  }

  function OnCancel<T>(s: State<T>): State<T> {
    if s.completed then s else Settle(s, Cancelled)
  }

  /** An event that cannot happen in `s` leaves `s` alone. */
  function Step<T>(s: State<T>, e: Event<T>): State<T> {
    match e
    case Settles(attempt) => OnSettles(s, attempt)
    case WaitEnds => OnWaitEnds(s)
    case Cancel => OnCancel(s)
  }

  function Run<T>(s: State<T>, events: seq<Event<T>>): State<T>
    decreases |events|
  {
    if events == [] then s else Run(Step(s, events[0]), events[1..])
  }

  /** The shared variables of `retry` and the points where its loop resumes. */
  class Retrier<T(==)> {
    var n: int
    var completed: bool
    var phase: Phase
    var promise: Option<Outcome<T>>

    ghost var calls: nat
    ghost var settles: nat

    ghost function Model(): State<T>
      reads this
    {
      State(n, completed, phase, calls, settles, promise)
    }

    constructor (n: int)
      ensures Model() == Start(n)
    {
      this.n, completed, phase, promise := n, false, Calling, None;
      calls, settles := 1, 0;
    }

    method SettlePromise(outcome: Outcome<T>)
      modifies this`promise, this`settles
      ensures settles == old(settles) + 1
      ensures promise == if old(promise).Some? then old(promise) else Some(outcome)
    {
      settles := settles + 1;
      if promise.None? {
        promise := Some(outcome);
      }
    }

    /** The loop from `await fn()` to the next await or the end. */
    method ResumeAfterCall(attempt: Attempt<T>)
      requires phase.Calling?
      modifies this
      ensures Model() == Step(old(Model()), Settles(attempt))
    {
      if attempt.Success? {
        if !completed {
          SettlePromise(Resolved(attempt.value));
          completed := true;
        }
        phase := Stopped;
        return;
      }
      if completed {
        phase := Stopped;
        return;
      }
      if n <= 0 || !attempt.retryable {
        SettlePromise(Rejected(attempt.error));
        completed := true;
        phase := Stopped;
        return;
      }
      n := n - 1;
      phase := Waiting;
    }

    /** The loop from the end of the wait to the next `await fn()`. */
    method ResumeAfterWait()
      requires phase.Waiting?
      modifies this
      ensures Model() == Step(old(Model()), WaitEnds)
    {
      calls := calls + 1;
      phase := Calling;
    }

    method CancelRetry()
      modifies this
      ensures Model() == Step(old(Model()), Cancel)
    {
      if completed {
        return;
      }
      completed := true;
      SettlePromise(Cancelled);
    }
  }

  // ----- Every interleaving -----

  function Budget(n: int): nat {
    if n <= 0 then 1 else n + 1
  }

  /** With `n0` retries asked for: how many calls are behind the loop, and who has settled the promise. */
  ghost predicate Inv<T>(s: State<T>, n0: int) {
    && (s.completed <==> s.promise.Some?)
    && s.settles == (if s.completed then 1 else 0)
    && (if n0 <= 0 then s.n == n0 && s.calls == 1 && !s.phase.Waiting?
        else
          && 0 <= s.n <= n0 && (s.phase.Waiting? ==> s.n < n0)
          && s.calls == n0 - s.n + (if s.phase.Waiting? then 0 else 1))
    && (s.phase.Stopped? ==> s.completed)
  }

  lemma {:induction false} RunInv<T>(s: State<T>, events: seq<Event<T>>, n0: int)
    requires Inv(s, n0)
    ensures Inv(Run(s, events), n0)
    decreases |events|
  {
    if events != [] {
      RunInv(Step(s, events[0]), events[1..], n0);
    }
  }

  /** In every interleaving the promise is settled at most once and `fn` is called at most max(n, 0) + 1 times. */
  lemma SettlesOnceWithinBudget<T>(n: int, events: seq<Event<T>>)
    ensures var s := Run(Start<T>(n), events);
      && s.settles <= 1 && (s.promise.Some? <==> s.completed)
      && 1 <= s.calls <= Budget(n)
      && (s.phase.Stopped? ==> s.promise.Some?)
  {
    RunInv(Start<T>(n), events, n);
  }

  /** Once settled, the promise keeps its outcome; after that at most one more call starts, and only if a wait
      was under way. */
  lemma {:induction false} SettledRun<T>(s: State<T>, events: seq<Event<T>>, n0: int)
    requires Inv(s, n0) && s.completed
    ensures var t := Run(s, events);
      && t.promise == s.promise && t.settles == s.settles
      && t.calls <= s.calls + (if s.phase.Waiting? then 1 else 0)
    decreases |events|
  {
    if events != [] {
      SettledRun(Step(s, events[0]), events[1..], n0);
    }
  }

  /** A cancel that comes in time decides the outcome, whatever the attempt still running returns; one more
      call starts at most, and only if a wait was under way. */
  lemma CancelDecides<T>(n: int, before: seq<Event<T>>, after: seq<Event<T>>)
    requires !Run(Start<T>(n), before).completed
    ensures var s := Run(Start<T>(n), before); var t := Run(Step(s, Cancel), after);
      t.promise == Some(Cancelled) && t.calls <= s.calls + (if s.phase.Waiting? then 1 else 0)
  {
    RunInv(Start<T>(n), before, n);
    SettledRun(Step(Run(Start<T>(n), before), Cancel), after, n);
  }

  /** In some continuation of the run there is another call. */
  ghost predicate CallsAgain<T(!new)>(s: State<T>) {
    exists after :: Run(s, after).calls > s.calls
  }

  /** Another call can start after a timely cancel exactly when the cancel came during a wait. */
  lemma CancelLeavesCallIff<T(!new)>(n: int, before: seq<Event<T>>)
    requires !Run(Start<T>(n), before).completed
    ensures var s := Run(Start<T>(n), before);
      CallsAgain(Step(s, Cancel)) <==> s.phase.Waiting?
  {
    var s := Run(Start<T>(n), before);
    var c := Step(s, Cancel);
    RunInv(Start<T>(n), before, n);
    if s.phase.Waiting? {
      var wait: seq<Event<T>> := [WaitEnds];
      assert Run(c, wait) == Run(Step(c, wait[0]), wait[1..]);
      assert Run(c, wait).calls > c.calls;
    } else {
      forall after
        ensures Run(c, after).calls <= c.calls
      {
        SettledRun(c, after, n);
      }
    }
  }

  /** The extra attempt does happen: a cancel during the wait does not stop it. */
  lemma CancelDuringWaitCallsOnceMore<T>(n: int)
    requires n > 0
    ensures var s := Run(Start<T>(n), [Settles(Failure("", true)), Cancel, WaitEnds]);
      s.promise == Some(Cancelled) && s.calls == 2
  {
    var events: seq<Event<T>> := [Settles(Failure("", true)), Cancel, WaitEnds];
    var s := Start<T>(n);
    assert Run(s, events) == Run(Step(s, events[0]), events[1..]);
    assert events[1..] == [Cancel, WaitEnds] && events[1..][1..] == [WaitEnds];
    assert Run(Step(s, events[0]), events[1..]) == Run(Step(Step(s, events[0]), Cancel), [WaitEnds]);
  }

  // ----- Termination -----

  /** Falls with every step of the loop, whatever `cancel` does in between. */
  function Measure<T>(s: State<T>): nat {
    match s.phase
    case Stopped => 0
    case Calling => if s.n <= 0 then 1 else 2 * s.n + 1
    case Waiting => if s.n < 0 then 0 else 2 * s.n + 2
  }

  /** The number of events of a run that are steps of the loop. */
  function LoopSteps<T>(s: State<T>, events: seq<Event<T>>): nat
    decreases |events|
  {
    if events == [] then 0
    else
      var moves := match events[0]
        case Settles(_) => s.phase.Calling?
        case WaitEnds => s.phase.Waiting?
        case Cancel => false;
      (if moves then 1 else 0) + LoopSteps(Step(s, events[0]), events[1..])
  }

  lemma {:induction false} LoopStepsBounded<T>(s: State<T>, events: seq<Event<T>>, n0: int)
    requires Inv(s, n0)
    ensures LoopSteps(s, events) + Measure(Run(s, events)) <= Measure(s)
    decreases |events|
  {
    if events != [] {
      LoopStepsBounded(Step(s, events[0]), events[1..], n0);
    }
  }

  /** The loop takes at most 2 max(n, 0) + 1 steps in any run, and has stopped when it has taken them all. */
  lemma LoopTerminates<T>(n: int, events: seq<Event<T>>)
    ensures LoopSteps(Start<T>(n), events) <= 2 * Budget(n) - 1
    ensures LoopSteps(Start<T>(n), events) == 2 * Budget(n) - 1 ==> Run(Start<T>(n), events).phase.Stopped?
  {
    LoopStepsBounded(Start<T>(n), events, n);
    RunInv(Start<T>(n), events, n);
  }

  // ----- Without a cancel -----

  /** Attempt `i` ends the retrying: it succeeds, must not be retried, or uses up the retries. */
  predicate Decisive<T>(attempts: seq<Attempt<T>>, n: int, i: nat)
    requires i < |attempts|
  {
    attempts[i].Success? || !attempts[i].retryable || n <= i
  }

  ghost predicate FirstDecisive<T>(attempts: seq<Attempt<T>>, n: int, i: nat) {
    && i < |attempts| && Decisive(attempts, n, i)
    && (forall j :: 0 <= j < i ==> !Decisive(attempts, n, j))
  }

  function ResultOf<T>(attempt: Attempt<T>): Outcome<T> {
    if attempt.Success? then Resolved(attempt.value) else Rejected(attempt.error)
  }

  /** The attempts one after another, a wait between each two. */
  function Schedule<T>(attempts: seq<Attempt<T>>): seq<Event<T>> {
    if attempts == [] then [] else [Settles(attempts[0]), WaitEnds] + Schedule(attempts[1..])
  }

  lemma {:induction false} StoppedStays<T>(s: State<T>, attempts: seq<Attempt<T>>)
    requires s.phase.Stopped?
    ensures Run(s, Schedule(attempts)) == s
  {
    if attempts != [] {
      var rest := Schedule(attempts[1..]);
      var events := Schedule(attempts);
      assert events[1..] == [WaitEnds] + rest;
      assert events[1..][1..] == rest;
      StoppedStays(s, attempts[1..]);
    }
  }

  lemma {:induction false} UncancelledFrom<T>(s: State<T>, attempts: seq<Attempt<T>>, i: nat)
    requires s.phase.Calling? && !s.completed && s.promise.None?
    requires FirstDecisive(attempts, s.n, i)
    ensures var t := Run(s, Schedule(attempts));
      t.promise == Some(ResultOf(attempts[i])) && t.calls == s.calls + i
    decreases i
  {
    var rest := Schedule(attempts[1..]);
    var events := Schedule(attempts);
    assert events == [Settles(attempts[0]), WaitEnds] + rest;
    assert events[1..] == [WaitEnds] + rest;
    assert events[1..][1..] == rest;
    var s1 := Step(s, Settles(attempts[0]));
    var s2 := Step(s1, WaitEnds);
    assert Run(s, events) == Run(s2, rest);
    if i == 0 {
      StoppedStays(s2, attempts[1..]);
    } else {
      assert !Decisive(attempts, s.n, 0);
      forall j | 0 <= j < i - 1
        ensures !Decisive(attempts[1..], s2.n, j)
      {
        assert !Decisive(attempts, s.n, j + 1);
      }
      UncancelledFrom(s2, attempts[1..], i - 1);
    }
  }

  /** Left alone, retry settles with the result of the first decisive attempt, after calling `fn` up to it. */
  lemma UncancelledRetry<T>(n: int, attempts: seq<Attempt<T>>, i: nat)
    requires FirstDecisive(attempts, n, i)
    ensures var t := Run(Start<T>(n), Schedule(attempts));
      t.promise == Some(ResultOf(attempts[i])) && t.calls == i + 1
  {
    UncancelledFrom(Start<T>(n), attempts, i);
  }
}
