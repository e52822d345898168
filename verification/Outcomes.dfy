/** What the result of a test says about its executor, command line by command line. */
module Outcomes {
  import opened Messages
  import opened Sequences
  import opened Executors
  import opened Plans
  import opened Calls
  import opened Tests

  /** A command line and the directory it runs in. */
  datatype Step = Step(dir: string, argv: seq<string>)

  /** At `i` of the trace the step was opened, started, exited with success, and was closed. */
  predicate RanWell(trace: seq<Event>, i: nat, step: Step)
  {
    && i + 5 <= |trace|
    && trace[i].Init? && trace[i].outcome == Ready
    && trace[i].order.dir == step.dir && trace[i].order.argv == step.argv
    && trace[i + 1] == Started(true)
    && trace[i + 2].Drained? && !trace[i + 2].output.failed
    && trace[i + 3] == Waited(Exited(true))
    && trace[i + 4] == Closed
  }

  /** The steps ran well at these places of the trace, one after the other. */
  predicate RanInOrder(trace: seq<Event>, at: seq<nat>, steps: seq<Step>)
  {
    && |at| == |steps|
    && (forall k :: 0 <= k < |at| ==> RanWell(trace, at[k], steps[k]))
    && forall k :: 0 < k < |at| ==> at[k - 1] + 5 <= at[k]
  }

  lemma RanInLonger(trace: seq<Event>, more: seq<Event>, at: seq<nat>, steps: seq<Step>)
    requires RanInOrder(trace, at, steps)
    ensures RanInOrder(trace + more, at, steps)
  {
    forall k | 0 <= k < |at| ensures RanWell(trace + more, at[k], steps[k]) {
      assert RanWell(trace, at[k], steps[k]);
    }
  }

  lemma OneMoreInOrder(trace: seq<Event>, at: seq<nat>, steps: seq<Step>, i: nat, step: Step)
    requires RanInOrder(trace, at, steps) && RanWell(trace, i, step) && (at != [] ==> at[|at| - 1] + 5 <= i)
    ensures RanInOrder(trace, at + [i], steps + [step])
  {
  }

  lemma CallRanWell(before: seq<Event>, order: Order, attempts: seq<Attempt>) returns (i: nat)
    requires ResultOf(attempts) == Value(true)
    ensures i >= |before| && RanWell(before + TraceOf(order, attempts), i, Step(order.dir, order.argv))
  {
    var front, last := attempts[..|attempts| - 1], attempts[|attempts| - 1];
    LengthOfTrace(order, front, last);
    assert front + [last] == attempts;
    i := |before| + |TraceOf(order, attempts)| - 5;
    DoneHasEnded(before, order, attempts);
  }

  lemma LengthOfTrace(order: Order, front: seq<Attempt>, last: Attempt)
    requires last.Done?
    ensures |TraceOf(order, front + [last])| == |TraceOf(order, front)| + 5
  {
    assert (front + [last])[..|front|] == front;
  }

  lemma OneMoreRanWell(before: seq<Event>, order: Order, attempts: seq<Attempt>, at: seq<nat>, steps: seq<Step>)
    returns (at': seq<nat>)
    requires RanInOrder(before, at, steps) && ResultOf(attempts) == Value(true)
    ensures RanInOrder(before + TraceOf(order, attempts), at', steps + [Step(order.dir, order.argv)])
  {
    RanInLonger(before, TraceOf(order, attempts), at, steps);
    var i := CallRanWell(before, order, attempts);
    if at != [] {
      assert RanWell(before, at[|at| - 1], steps[|at| - 1]);
    }
    OneMoreInOrder(before + TraceOf(order, attempts), at, steps, i, Step(order.dir, order.argv));
    at' := at + [i];
  }

  function StepOf(cfg: Config): Command -> Step
  {
    (c: Command) => Step(Dir(cfg, c), Argv(cfg, c))
  }

  /** The calls of these commands that came to true ran well, in their order. */
  lemma {:induction false} KeptRanInOrder(cfg: Config, calls: seq<Call>, commands: set<Command>) returns (at: seq<nat>)
    ensures RanInOrder(CallsTrace(cfg, calls), at, Each(StepOf(cfg), Kept(RanOf(calls), commands)))
  {
    if calls == [] {
      at := [];
    } else {
      var front, call := calls[..|calls| - 1], calls[|calls| - 1];
      at := KeptRanInOrder(cfg, front, commands);
      assert front + [call] == calls;
      RanOfOne(front, call);
      at := KeptGoesOn(cfg, CallsTrace(cfg, front), RanOf(front), call, commands, at);
    }
  }

  lemma KeptGoesOn(cfg: Config, trace: seq<Event>, ran: seq<Ran>, call: Call, commands: set<Command>, at: seq<nat>)
    returns (at': seq<nat>)
    requires RanInOrder(trace, at, Each(StepOf(cfg), Kept(ran, commands)))
    ensures var last := Ran(call.command, ResultOf(call.attempts));
            RanInOrder(trace + TraceOf(OrderOf(cfg, call.command), call.attempts), at',
                       Each(StepOf(cfg), Kept(ran + [last], commands)))
  {
    var last, order := Ran(call.command, ResultOf(call.attempts)), OrderOf(cfg, call.command);
    KeptConcat(ran, [last], commands);
    KeptCons(last, [], commands);
    assert [last] + [] == [last];
    NothingAfter(KeptOne(last, commands));
    if last.result == Value(true) && call.command in commands {
      EachOne(StepOf(cfg), Kept(ran, commands), call.command);
      at' := OneMoreRanWell(trace, order, call.attempts, at, Each(StepOf(cfg), Kept(ran, commands)));
    } else {
      NothingAfter(Kept(ran, commands));
      RanInLonger(trace, TraceOf(order, call.attempts), at, Each(StepOf(cfg), Kept(ran, commands)));
      at' := at;
    }
  }

  lemma EachConcat<T, U>(f: T -> U, a: seq<T>, b: seq<T>)
    ensures Each(f, a + b) == Each(f, a) + Each(f, b)
  {
  }

  /** The directory of all the tests of a requestor is its receive identity without dots. */
  lemma BaseWorkDirHasNoDots(rcvIdent: string)
    ensures |BaseWorkDir(rcvIdent)| == |rcvIdent| && '.' !in BaseWorkDir(rcvIdent)
    ensures forall i :: 0 <= i < |rcvIdent| && rcvIdent[i] != '.' ==> BaseWorkDir(rcvIdent)[i] == rcvIdent[i]
    ensures forall i :: 0 <= i < |rcvIdent| && rcvIdent[i] == '.' ==> BaseWorkDir(rcvIdent)[i] == '_'
  {
  }

  /** What ends a test that passes: the run script is downloaded, if there is a URL of it, run from
      the repository after the setup script, if there is one, and the work directory is removed. */
  function LastSteps(r: BuildRequest, base: string, repo: string): seq<Step>
  {
    var setup := if r.setupScript != "" then ". " + r.setupScript + " && " else "";
    (if r.runScriptURL != "" then [Step(repo, ["curl", "-kLo", r.runScript, r.runScriptURL])] else [])
    + [Step(repo, ["sh", "-c", setup + ". " + r.runScript]), Step("", ["rm", "-rf", base])]
  }

  lemma LastStepsOf(cfg: Config)
    ensures Each(StepOf(cfg), RunCommands(cfg)) == LastSteps(cfg.request, cfg.workDir, cfg.repoDir)
  {
  }

  /** A test of a branch or a tag that has passed has, on its executor and with success in this order,
      removed the work directory, made the repository's directory below it, cloned the repository
      there, and checked out the branch or the tag, before it went on to the end. */
  lemma PassedCheckoutHasRun(assignment: Assignment, ex: Executor?, t: TestRun) returns (at: seq<nat>)
    requires SeenBy(assignment, ex, t) && t.result == Value(true)
    requires assignment.request.kind.Branch? || assignment.request.kind.Tag?
    ensures ex != null
    ensures var r := assignment.request;
            var base := BaseWorkDir(r.rcvIdent);
            var repo := base + "/" + t.instance + "/repo";
            RanInOrder(ex.trace, at, [
              Step("", ["rm", "-rf", base]), Step("", ["mkdir", "-p", repo]),
              Step("", ["git", "clone", r.repoURL, repo]),
              Step(repo, ["git", "checkout", if r.kind.Tag? then "tags/" + r.target else r.target])]
              + LastSteps(r, base, repo))
  {
    var cfg := ConfigOf(assignment, t.instance);
    PassedCheckoutIsInOrder(cfg, RanOf(t.calls));
    at := KeptRanInOrder(cfg, t.calls, CHECKOUT_COMMANDS);
    EachConcat(StepOf(cfg), SetupCommands(), RunCommands(cfg));
    LastStepsOf(cfg);
    SetupStepsOf(cfg);
  }

  lemma SetupStepsOf(cfg: Config)
    ensures var r := cfg.request;
            Each(StepOf(cfg), SetupCommands())
            == [Step("", ["rm", "-rf", cfg.workDir]), Step("", ["mkdir", "-p", cfg.repoDir]),
                Step("", ["git", "clone", r.repoURL, cfg.repoDir]),
                Step(cfg.repoDir, ["git", "checkout", if r.kind.Tag? then "tags/" + r.target else r.target])]
  {
  }

  /** If the worker has a git user and email, such a test has been given the command that names the user
      and, if that came to true, the one that names the email. */
  lemma PassedCheckoutHasNamed(assignment: Assignment, ex: Executor?, t: TestRun)
    requires SeenBy(assignment, ex, t) && t.result == Value(true)
    requires assignment.request.kind.Branch? || assignment.request.kind.Tag?
    requires assignment.gitUser != "" && assignment.gitEmail != ""
    ensures ex != null && |t.calls| > 3
    ensures var repo := BaseWorkDir(assignment.request.rcvIdent) + "/" + t.instance + "/repo";
            && IsGiven(ex.trace, Step(repo, ["git", "config", "user.name", "\"" + assignment.gitUser + "\""]))
            && (ResultOf(t.calls[3].attempts) == Value(true) ==>
                  IsGiven(ex.trace, Step(repo, ["git", "config", "user.email", "\"" + assignment.gitEmail + "\""])))
  {
    var cfg := ConfigOf(assignment, t.instance);
    var ran := RanOf(t.calls);
    GitUserIsNamed(cfg, ran);
    RanAt(t.calls, 3);
    CallIsGiven(cfg, t.calls, 3);
    if ran[3].result == Value(true) {
      RanAt(t.calls, 4);
      CallIsGiven(cfg, t.calls, 4);
    }
  }

  lemma RanAt(calls: seq<Call>, k: nat)
    requires k < |calls|
    ensures RanOf(calls)[k] == Ran(calls[k].command, ResultOf(calls[k].attempts))
  {
  }

  predicate GivenAt(trace: seq<Event>, i: nat, step: Step)
  {
    i < |trace| && trace[i].Init? && trace[i].order.dir == step.dir && trace[i].order.argv == step.argv
  }

  ghost predicate IsGiven(trace: seq<Event>, step: Step)
  {
    exists i: nat :: GivenAt(trace, i, step)
  }

  lemma GivenConcat(a: seq<Event>, b: seq<Event>, step: Step)
    requires IsGiven(a, step) || IsGiven(b, step)
    ensures IsGiven(a + b, step)
  {
    if i: nat :| GivenAt(a, i, step) {
      assert GivenAt(a + b, i, step);
    } else {
      var i: nat :| GivenAt(b, i, step);
      assert GivenAt(a + b, |a| + i, step);
    }
  }

  lemma {:induction false} CallIsGiven(cfg: Config, calls: seq<Call>, k: nat)
    requires k < |calls| && calls[k].attempts != []
    ensures IsGiven(CallsTrace(cfg, calls), StepOf(cfg)(calls[k].command))
  {
    var front, call := calls[..|calls| - 1], calls[|calls| - 1];
    if k < |front| {
      CallIsGiven(cfg, front, k);
    } else {
      LastIsOpened(OrderOf(cfg, call.command), call.attempts);
    }
    GivenConcat(CallsTrace(cfg, front), TraceOf(OrderOf(cfg, call.command), call.attempts),
                StepOf(cfg)(calls[k].command));
  }

  lemma LastIsOpened(order: Order, attempts: seq<Attempt>)
    requires attempts != []
    ensures IsGiven(TraceOf(order, attempts), Step(order.dir, order.argv))
  {
    var front, last := attempts[..|attempts| - 1], attempts[|attempts| - 1];
    assert GivenAt(EventsOf(order, last), 0, Step(order.dir, order.argv));
    GivenConcat(TraceOf(order, front), EventsOf(order, last), Step(order.dir, order.argv));
  }

  /** A test of a pull request that has passed has checked out the main branch there and, if its pull
      was fetched before, merged exactly the branch that it was fetched to, before it went on. */
  lemma PassedPullHasRun(assignment: Assignment, ex: Executor?, t: TestRun) returns (at: seq<nat>, fetched: bool)
    requires SeenBy(assignment, ex, t) && t.result == Value(true) && assignment.request.kind.PullRequest?
    ensures ex != null
    ensures fetched <==> exists i :: 0 <= i < |t.calls| && t.calls[i].command == FetchPull
                                     && ResultOf(t.calls[i].attempts) == Value(true)
    ensures var r := assignment.request;
            var base := BaseWorkDir(r.rcvIdent);
            var repo, branch := base + "/" + t.instance + "/repo", "pr" + r.target;
            var main := Step(repo, ["git", "checkout", r.mainBranch]);
            RanInOrder(ex.trace, at,
              (if fetched then
                 [Step(repo, ["git", "fetch", "-v", "origin", "pull/" + r.target + "/head:" + branch]), main,
                  Step(repo, ["git", "merge", branch, "--no-edit"])]
               else
                 [main])
              + LastSteps(r, base, repo))
  {
    var cfg := ConfigOf(assignment, t.instance);
    var ran := RanOf(t.calls);
    PassedPullIsInOrder(cfg, ran);
    at := KeptRanInOrder(cfg, t.calls, PULL_COMMANDS);
    EachConcat(StepOf(cfg), PullCommands(ran), RunCommands(cfg));
    LastStepsOf(cfg);
    fetched := Succeeded(ran, FetchPull);
    FetchedIff(t.calls);
    PullStepsOf(cfg, ran);
  }

  lemma FetchedIff(calls: seq<Call>)
    ensures Succeeded(RanOf(calls), FetchPull)
        <==> exists i :: 0 <= i < |calls| && calls[i].command == FetchPull && ResultOf(calls[i].attempts) == Value(true)
  {
    var ran := RanOf(calls);
    if Succeeded(ran, FetchPull) {
      var i :| 0 <= i < |ran| && ran[i] == Ran(FetchPull, Value(true));
      assert calls[i].command == FetchPull;
    }
    if i :| 0 <= i < |calls| && calls[i].command == FetchPull && ResultOf(calls[i].attempts) == Value(true) {
      assert ran[i] == Ran(FetchPull, Value(true));
    }
  }

  lemma PullStepsOf(cfg: Config, ran: seq<Ran>)
    ensures var r, branch := cfg.request, "pr" + cfg.request.target;
            var main := Step(cfg.repoDir, ["git", "checkout", r.mainBranch]);
            Each(StepOf(cfg), PullCommands(ran))
            == if Succeeded(ran, FetchPull) then
                 [Step(cfg.repoDir, ["git", "fetch", "-v", "origin", "pull/" + r.target + "/head:" + branch]), main,
                  Step(cfg.repoDir, ["git", "merge", branch, "--no-edit"])]
               else
                 [main]
  {
  }

  // ----- What an executor is given at all

  lemma {:induction false} OpenedByCalls(cfg: Config, calls: seq<Call>, i: nat) returns (c: Command)
    requires i < |CallsTrace(cfg, calls)| && CallsTrace(cfg, calls)[i].Init?
    ensures CallsTrace(cfg, calls)[i].order == OrderOf(cfg, c)
  {
    var front, call := calls[..|calls| - 1], calls[|calls| - 1];
    var before, last := CallsTrace(cfg, front), TraceOf(OrderOf(cfg, call.command), call.attempts);
    assert CallsTrace(cfg, calls) == before + last;
    if i < |before| {
      c := OpenedByCalls(cfg, front, i);
    } else {
      AttemptsOnlyOpen(OrderOf(cfg, call.command), call.attempts);
      c := call.command;
    }
  }

  /** The command lines of a test: which run anywhere, and which run in the repository. */
  predicate MayBeGiven(r: BuildRequest, gitUser: string, gitEmail: string, base: string, repo: string, step: Step)
  {
    var argv, setup := step.argv, if r.setupScript != "" then ". " + r.setupScript + " && " else "";
    if step.dir == "" then
      || argv == ["rm", "-rf", base]
      || argv == ["mkdir", "-p", repo]
      || argv == ["git", "clone", r.repoURL, repo]
    else
      && step.dir == repo
      && (|| argv == ["git", "config", "user.name", "\"" + gitUser + "\""]
          || argv == ["git", "config", "user.email", "\"" + gitEmail + "\""]
          || argv == ["git", "fetch", "-v", "origin", "pull/" + r.target + "/head:" + ("pr" + r.target)]
          || argv == ["git", "checkout", r.mainBranch]
          || argv == ["git", "merge", "pr" + r.target, "--no-edit"]
          || argv == ["git", "checkout", if r.kind.Tag? then "tags/" + r.target else r.target]
          || argv == ["curl", "-kLo", r.runScript, r.runScriptURL]
          || argv == ["sh", "-c", setup + ". " + r.runScript])
  }

  lemma CommandsMayBeGiven(cfg: Config, c: Command)
    requires cfg.repoDir != ""
    ensures MayBeGiven(cfg.request, cfg.gitUser, cfg.gitEmail, cfg.workDir, cfg.repoDir, StepOf(cfg)(c))
  {
  }

  /** Nothing but these is ever given to the executor of a test, and with each of them the variables and
      the tags of the worker. */
  lemma OnlyTheseAreGiven(assignment: Assignment, ex: Executor?, t: TestRun, i: nat)
    requires SeenBy(assignment, ex, t) && ex != null && i < |ex.trace| && ex.trace[i].Init?
    ensures var order, base := ex.trace[i].order, BaseWorkDir(assignment.request.rcvIdent);
            && order.env == assignment.env && order.tags == assignment.tags
            && MayBeGiven(assignment.request, assignment.gitUser, assignment.gitEmail, base,
                          base + "/" + t.instance + "/repo", Step(order.dir, order.argv))
  {
    var cfg := ConfigOf(assignment, t.instance);
    var c := OpenedByCalls(cfg, t.calls, i);
    CommandsMayBeGiven(cfg, c);
  }

  // ----- Why a test has not passed

  /** A test that has come to false has run a command whose last attempt did not exit with success. One
      that has come to an error had no executor, or is of an unknown kind, or each of the attempts that
      the retry loop count allows for its last command had an executor error. */
  lemma UnsuccessfulTestHasCause(assignment: Assignment, ex: Executor?, t: TestRun)
    requires SeenBy(assignment, ex, t)
    ensures t.result == Value(false) ==>
              exists i :: 0 <= i < |t.calls| && ResultOf(t.calls[i].attempts) != Value(true)
    ensures t.result == Error && ex != null && !assignment.request.kind.Unknown? ==>
              && t.calls != []
              && var attempts, count := t.calls[|t.calls| - 1].attempts, assignment.retryLoopCount;
                 && |attempts| == (if count < 1 then 1 else count)
                 && forall j :: 0 <= j < |attempts| ==> !attempts[j].Done?
  {
    if ex != null {
      var cfg := ConfigOf(assignment, t.instance);
      FailureHasCause(cfg, RanOf(t.calls), t.result);
      if t.result == Value(false) {
        var i :| 0 <= i < |RanOf(t.calls)| && RanOf(t.calls)[i].result != Value(true);
        assert ResultOf(t.calls[i].attempts) != Value(true);
      } else if t.result == Error && !assignment.request.kind.Unknown? {
        assert RanOf(t.calls)[|t.calls| - 1].result == ResultOf(t.calls[|t.calls| - 1].attempts);
        EveryAttemptFailed(t.calls[|t.calls| - 1], assignment.retryLoopCount);
      }
    }
  }

  lemma EveryAttemptFailed(call: Call, retryLoopCount: int)
    requires IsCall(call, retryLoopCount) && ResultOf(call.attempts) == Error
    ensures |call.attempts| == if retryLoopCount < 1 then 1 else retryLoopCount
    ensures forall j :: 0 <= j < |call.attempts| ==> !call.attempts[j].Done?
  {
    AttemptsMeaning(call.attempts, retryLoopCount);
  }

  /** Every test was seen where it ran, and every command of every test was given the variables and the
      tags of the worker. A test without an executor is an error. */
  lemma WhatWasSeen(assignment: Assignment, exs: seq<Executor?>, tests: seq<TestRun>)
    requires Seen(assignment, exs, tests)
    ensures |exs| == |tests|
    ensures forall i :: 0 <= i < |exs| ==>
              if exs[i] == null then tests[i].result == Error else exs[i].place == tests[i].place
    ensures forall i, j :: 0 <= i < |exs| && exs[i] != null && 0 <= j < |exs[i].trace| && exs[i].trace[j].Init? ==>
              exs[i].trace[j].order.env == assignment.env && exs[i].trace[j].order.tags == assignment.tags
  {
    forall i | 0 <= i < |exs|
      ensures if exs[i] == null then tests[i].result == Error else exs[i].place == tests[i].place
    {
      assert SeenBy(assignment, exs[i], tests[i]);
    }
    forall i, j | 0 <= i < |exs| && exs[i] != null && 0 <= j < |exs[i].trace| && exs[i].trace[j].Init?
      ensures exs[i].trace[j].order.env == assignment.env && exs[i].trace[j].order.tags == assignment.tags
    {
      OnlyTheseAreGiven(assignment, exs[i], tests[i], j);
    }
  }
}
