/** Calls of a worker's runCommand as values: attempts, retries, back-off. */
module Calls {
  import opened Executors
  import opened Plans
  import opened Sequences

  /** One executed command with all its attempts. */
  datatype Call = Call(command: Command, attempts: seq<Attempt>)

  function MaxAttempts(retryLoopCount: int): (n: nat)
    ensures n >= 1 && n >= retryLoopCount && (n == 1 || n == retryLoopCount)
  {
    if retryLoopCount < 1 then 1 else retryLoopCount
  }

  /** Only the last attempt can have come to an end without executor error, and without one the
      retries have been used up. */
  predicate AreAttempts(attempts: seq<Attempt>, retryLoopCount: int)
  {
    && 1 <= |attempts| <= MaxAttempts(retryLoopCount)
    && AllFailed(attempts[..|attempts| - 1])
    && IsAttempt(attempts[|attempts| - 1])
    && (attempts[|attempts| - 1].Done? || |attempts| == MaxAttempts(retryLoopCount))
  }

  /** Only the last attempt can be one without executor error, and it is one before the retries are used up. */
  lemma AttemptsMeaning(attempts: seq<Attempt>, retryLoopCount: int)
    requires AreAttempts(attempts, retryLoopCount)
    ensures 1 <= |attempts| && (|attempts| == 1 || |attempts| <= retryLoopCount)
    ensures forall i :: 0 <= i < |attempts| - 1 ==> !attempts[i].Done?
    ensures ResultOf(attempts).Error? ==> |attempts| == if retryLoopCount < 1 then 1 else retryLoopCount
  {
    var front := attempts[..|attempts| - 1];
    assert forall i :: 0 <= i < |front| ==> front[i] == attempts[i];
  }

  predicate AllFailed(attempts: seq<Attempt>)
  {
    forall i :: 0 <= i < |attempts| ==> IsAttempt(attempts[i]) && !attempts[i].Done?
  }

  predicate IsCall(call: Call, retryLoopCount: int)
  {
    AreAttempts(call.attempts, retryLoopCount)
  }

  /** What a call comes to: the result of the attempt without executor error, or an error. */
  function ResultOf(attempts: seq<Attempt>): Result
  {
    if attempts != [] && attempts[|attempts| - 1].Done? then Value(attempts[|attempts| - 1].success) else Error
  }

  /** The attempts of a call, the errors it has recorded and what it returns fit together: one
      error is recorded for every attempt that had one. */
  predicate IsOutcome(attempts: seq<Attempt>, errList: seq<Attempt>, result: Result, retryLoopCount: int)
  {
    && AreAttempts(attempts, retryLoopCount)
    && result == ResultOf(attempts)
    && errList == if result.Error? then attempts else attempts[..|attempts| - 1]
  }

  lemma RetriesUsedUp(failed: seq<Attempt>, retryLoopCount: int)
    requires AllFailed(failed) && |failed| == MaxAttempts(retryLoopCount)
    ensures IsOutcome(failed, failed, Error, retryLoopCount)
  {
  }

  lemma LastAttempt(failed: seq<Attempt>, a: Attempt, retryLoopCount: int)
    requires AllFailed(failed) && |failed| < MaxAttempts(retryLoopCount) && a.Done?
    ensures IsOutcome(failed + [a], failed, Value(a.success), retryLoopCount)
  {
    assert (failed + [a])[..|failed + [a]| - 1] == failed;
  }

  lemma OneMoreFailed(failed: seq<Attempt>, a: Attempt)
    requires AllFailed(failed) && IsAttempt(a) && !a.Done?
    ensures AllFailed(failed + [a])
  {
  }

  /** The back-off has been added up this often when attempt `n` comes. */
  function BackOff(base: int, n: nat): int
  {
    if n <= 1 then base else BackOff(base, n - 1) + base
  }

  /** The time slept before all of `attempts` attempts; the first one comes at once. */
  function SleepTotal(base: int, attempts: nat): int
  {
    if attempts <= 1 then 0 else SleepTotal(base, attempts - 1) + BackOff(base, attempts)
  }

  lemma {:induction false} BackOffClosed(base: int, n: nat)
    requires n >= 1
    ensures BackOff(base, n) == base * n
  {
    if n > 1 {
      BackOffClosed(base, n - 1);
      assert base * (n - 1) + base == base * n;
    }
  }

  /** In closed form, base * (n (n + 1) / 2 - 1) for n attempts. */
  lemma {:induction false} SleepTotalClosed(base: int, n: nat)
    requires n >= 1
    ensures 2 * SleepTotal(base, n) == base * (n * (n + 1) - 2)
  {
    if n > 1 {
      SleepTotalClosed(base, n - 1);
      BackOffClosed(base, n);
      assert n * (n + 1) - 2 == ((n - 1) * n - 2) + 2 * n;
      assert base * (((n - 1) * n - 2) + 2 * n) == base * ((n - 1) * n - 2) + 2 * (base * n);
    }
  }

  // ----- Sequences of calls

  function RanOf(calls: seq<Call>): (ran: seq<Ran>)
    ensures |ran| == |calls|
  {
    seq(|calls|, i requires 0 <= i < |calls| => Ran(calls[i].command, ResultOf(calls[i].attempts)))
  }

  lemma RanOfOne(calls: seq<Call>, call: Call)
    ensures RanOf(calls + [call]) == RanOf(calls) + [Ran(call.command, ResultOf(call.attempts))]
  {
  }

  lemma RanOfConcat(a: seq<Call>, b: seq<Call>)
    ensures RanOf(a + b) == RanOf(a) + RanOf(b)
  {
  }

  function Flatten<T>(f: T -> seq<Event>, xs: seq<T>): seq<Event>
  {
    if xs == [] then [] else Flatten(f, xs[..|xs| - 1]) + f(xs[|xs| - 1])
  }

  lemma {:induction false} FlattenConcat<T>(f: T -> seq<Event>, a: seq<T>, b: seq<T>)
    ensures Flatten(f, a + b) == Flatten(f, a) + Flatten(f, b)
  {
    if b == [] {
      assert a + b == a;
    } else {
      var front, last := b[..|b| - 1], b[|b| - 1];
      FlattenConcat(f, a, front);
      assert (a + b)[..|a + b| - 1] == a + front;
      ConcatIsAssociative(Flatten(f, a), Flatten(f, front), f(last));
    }
  }

  /** What the executor is given for a command. */
  function OrderOf(cfg: Config, c: Command): Order
  {
    Order(Dir(cfg, c), Argv(cfg, c), cfg.env, cfg.tags)
  }

  /** What the executor sees of one call. */
  function CallTrace(cfg: Config): Call -> seq<Event>
  {
    (call: Call) => TraceOf(OrderOf(cfg, call.command), call.attempts)
  }

  /** What the executor sees of all the calls of a test. */
  function CallsTrace(cfg: Config, calls: seq<Call>): seq<Event>
  {
    Flatten(CallTrace(cfg), calls)
  }

  lemma CallsTraceOne(cfg: Config, call: Call)
    ensures CallsTrace(cfg, [call]) == CallTrace(cfg)(call)
  {
    assert Flatten(CallTrace(cfg), [call]) == Flatten(CallTrace(cfg), []) + CallTrace(cfg)(call);
  }

  /** What a transcript shows of one call: its command line and all its attempts. */
  datatype Execution = Execution(argv: seq<string>, attempts: seq<Attempt>)

  function Executing(cfg: Config): Call -> Execution
  {
    (call: Call) => Execution(Argv(cfg, call.command), call.attempts)
  }

  function ExecutionsOf(cfg: Config, calls: seq<Call>): (executions: seq<Execution>)
    ensures |executions| == |calls|
  {
    Each(Executing(cfg), calls)
  }

  function Each<T, U>(f: T -> U, xs: seq<T>): (ys: seq<U>)
    ensures |ys| == |xs|
  {
    seq(|xs|, i requires 0 <= i < |xs| => f(xs[i]))
  }

  lemma EachOne<T, U>(f: T -> U, xs: seq<T>, x: T)
    ensures Each(f, xs + [x]) == Each(f, xs) + [f(x)]
  {
  }

  predicate AreCalls(calls: seq<Call>, retryLoopCount: int)
  {
    forall i :: 0 <= i < |calls| ==> IsCall(calls[i], retryLoopCount)
  }

  lemma CallIsBracketed(cfg: Config, call: Call, retryLoopCount: int)
    requires IsCall(call, retryLoopCount)
    ensures UseAll(Unopened, CallTrace(cfg)(call)) == Unopened
  {
    var front := call.attempts[..|call.attempts| - 1];
    assert forall i :: 0 <= i < |front| ==> call.attempts[i] == front[i];
    CommandIsBracketed(OrderOf(cfg, call.command), call.attempts);
  }

  /** Across all commands, stages and retries, executors are opened and closed in pairs. */
  lemma {:induction false} CallsAreBracketed(cfg: Config, calls: seq<Call>, retryLoopCount: int)
    requires AreCalls(calls, retryLoopCount)
    ensures UseAll(Unopened, CallsTrace(cfg, calls)) == Unopened
  {
    if calls != [] {
      var front, last := calls[..|calls| - 1], calls[|calls| - 1];
      CallsAreBracketed(cfg, front, retryLoopCount);
      CallIsBracketed(cfg, last, retryLoopCount);
      UseConcat(Unopened, CallsTrace(cfg, front), CallTrace(cfg)(last));
    }
  }

  /** The call could be one of the local executor, and left its process where it was. */
  predicate IsLocalCall(cfg: Config, call: Call)
  {
    && LocalAttempts(OrderOf(cfg, call.command), call.attempts)
    && InitFailed(NoPipe) !in call.attempts
  }

  /** A whole local test ends in the working directory it started in, if no pipe fails. */
  lemma {:induction false} LocalTestComesHome(s: LocalState, cfg: Config, calls: seq<Call>)
    requires AtHome(s) && forall i :: 0 <= i < |calls| ==> IsLocalCall(cfg, calls[i])
    ensures var s' := LocalRun(s, CallsTrace(cfg, calls)); AtHome(s') && s'.cwd == s.cwd
  {
    if calls != [] {
      var front, last := calls[..|calls| - 1], calls[|calls| - 1];
      LocalTestComesHome(s, cfg, front);
      LocalConcat(s, CallsTrace(cfg, front), CallTrace(cfg)(last));
      CommandComesHome(LocalRun(s, CallsTrace(cfg, front)), OrderOf(cfg, last.command), last.attempts);
    }
  }
}
