/** The worker: running commands with retries, tests in stages, and reporting over the queue. */
module WorkerEngine {
  import opened Messages
  import opened Protocol
  import opened PrintStream
  import opened Executors
  import opened Handshake
  import opened Plans
  import opened Calls
  import opened JenkinsJobs
  import opened Nodes
  import opened Following
  import opened Transcripts
  import opened Runs
  import opened Tests
  import opened Outcomes
  import opened Sequences

  const SCRIPT_IDENTITY := "SCRIPT_IDENTITY"

  function Lower(s: string): string
  {
    seq(|s|, i requires 0 <= i < |s| => if 'A' <= s[i] <= 'Z' then s[i] - 'A' + 'a' else s[i])
  }

  /** Nothing but the case of letters changes, and no upper-case letter is left. */
  lemma LowerIsLower(s: string)
    ensures |Lower(s)| == |s|
    ensures forall i :: 0 <= i < |s| ==>
              && !('A' <= Lower(s)[i] <= 'Z')
              && if 'A' <= s[i] <= 'Z' then Lower(s)[i] as int == s[i] as int + 32 else Lower(s)[i] == s[i]
  {
  }

  function KindText(kind: RequestKind): string
  {
    match kind
    case PullRequest => "PR"
    case Branch => "BRANCH"
    case Tag => "TAG"
    case Unknown(text) => text
  }

  function OnNodeText(node: Node): string
  {
    "running tests on node " + node.name + " via ssh"
  }

  ghost predicate IsNewest(builds: map<int, JobBuild>, filter: Filter, current: int)
  {
    forall b :: b in builds && b > current ==> !Matches(filter, builds[b])
  }

  class Worker {
    const rcvq: AMQPQueue?
    const psb: PrintStreamBuffer
    const envVars: EnvMap
    const jenkinsProject: string
    const jenkinsBuild: int
    const tags: seq<string>
    const settings: Settings
    const request: BuildRequest
    const gitUser: string
    const gitEmail: string
    const sshNodes: NodeSource
    const final: bool
    /** All the time spent backing off. */
    var slept: int
    /** All that has been printed, call by call, and how it reads. */
    ghost var said: seq<Entry>
    ghost const telling: Telling
    /** What had gone over the queue when the logging began. */
    ghost var base: seq<Message>
    /** The calls made before the current test. */
    ghost var mark: seq<Execution>

    constructor (rcvq: AMQPQueue?, envVars: EnvMap, bufferSize: int, redact: bool, jenkinsProject: string,
                 jenkinsBuild: int, tags: seq<string>, settings: Settings, request: BuildRequest,
                 gitUser: string, gitEmail: string, sshNodes: NodeSource, final: bool)
      modifies envVars
      ensures var identity := Lower(jenkinsProject + KindText(request.kind) + request.target);
              envVars.vars == old(envVars.vars)[SCRIPT_IDENTITY := identity]
      ensures Wired() && psb.Valid() && Told() && fresh(psb) && this.rcvq == rcvq && this.envVars == envVars
              && psb.redact == redact
      ensures this.jenkinsProject == jenkinsProject && this.jenkinsBuild == jenkinsBuild && this.settings == settings
      ensures this.request == request && this.gitUser == gitUser && this.gitEmail == gitEmail
      ensures this.sshNodes == sshNodes && this.final == final && this.tags == tags && psb.bufferSize == bufferSize
      ensures psb.counter == 0 && slept == 0 && said == []
    {
      this.rcvq, this.envVars, this.jenkinsProject, this.jenkinsBuild := rcvq, envVars, jenkinsProject, jenkinsBuild;
      this.tags, this.settings := tags, settings;
      this.request, this.gitUser, this.gitEmail, this.sshNodes, this.final :=
        request, gitUser, gitEmail, sshNodes, final;
      envVars.vars := envVars.vars[SCRIPT_IDENTITY := Lower(jenkinsProject + KindText(request.kind) + request.target)];
      psb := new PrintStreamBuffer(rcvq, bufferSize, jenkinsBuild, jenkinsProject, envVars, redact);
      slept, said, mark, telling := 0, [], [], NewTelling(settings);
      base := if rcvq == null then [] else rcvq.sent;
    }

    ghost function Duty(): Assignment
    {
      Assignment(request, gitUser, gitEmail, psb.vars, tags, settings.retryLoopCount)
    }

    /** What every executor is given for a command. */
    ghost function Given(dir: string, argv: seq<string>): Order
    {
      Order(dir, argv, psb.vars, tags)
    }

    /** The configuration of a test of this worker. */
    ghost predicate Ours(cfg: Config)
    {
      cfg.env == psb.vars && cfg.tags == tags
    }

    /** What has gone over the queue. */
    ghost function Sent(): seq<Message>
      reads rcvq
    {
      if rcvq == null then [] else rcvq.sent
    }

    /** Buffer, queue and environment belong together; this never changes. */
    ghost predicate Wired()
    {
      && psb.q == rcvq && psb.envs == envVars
      && psb.buildno == jenkinsBuild && psb.jenkinsProject == jenkinsProject
      && psb.Founded() && IsTelling(telling, settings)
    }

    /** Since the logging began only logs have been sent, all of which the buffer may publish. */
    ghost predicate Streaming()
      reads this`base, psb, psb.q, psb.envs, rcvq
    {
      psb.Valid() && psb.Owing() && |base| <= |Sent()|
      && OnlyLogsAdded(jenkinsProject, jenkinsBuild, psb.manner.allowed, base, Sent())
    }

    /** What has been printed is the transcript of what has been said. */
    ghost predicate Told()
      reads this`said, psb
    {
      psb.printed == telling(said)
    }

    ghost predicate Valid()
      reads this`base, this`said, psb, psb.q, psb.envs, rcvq
    {
      Streaming() && Told()
    }

    /** All calls so far, with their command lines and attempts. */
    ghost function Made(): seq<Execution>
      reads this`said
    {
      ExecutionsIn(said)
    }

    // ----- Printing

    method Stream(data: string, flushNow: bool)
      requires Wired() && Streaming()
      modifies psb, rcvq
      ensures Streaming() && psb.printed == old(psb.printed) + data
      ensures flushNow ==> psb.Settled()
      ensures old(Sent()) <= Sent()
    {
      ghost var sent := Sent();
      var ok, text := psb.Print(data, flushNow);
      assert psb.View().sent == Sent();
      if Sent() != sent {
        OneLogAdded(jenkinsProject, jenkinsBuild, psb.manner.allowed, base, sent, text);
      }
    }

    method StreamInfo(ctags: seq<string>, info: string)
      requires Wired() && Streaming()
      modifies psb, rcvq
      ensures Streaming() && psb.Settled()
      ensures psb.printed == old(psb.printed) + Info(ctags, info)
      ensures old(Sent()) <= Sent()
    {
      Stream(ListText(ctags) + " !!!" + info + "!!!\n", true);
    }

    method StreamErrors(ctags: seq<string>, errList: seq<Attempt>)
      requires Wired() && Streaming()
      modifies psb, rcvq
      ensures Streaming() && psb.Settled()
      ensures psb.printed == old(psb.printed) + ErrorsText(settings, errList)
      ensures old(Sent()) <= Sent()
    {
      var errMsg := "List of errors below:\n\n";
      for i := 0 to |errList|
        invariant errMsg == ErrorsText(settings, errList[..i])
      {
        errMsg := " - " + settings.error(errList[i]) + "\n";
      }
      assert errList[..|errList|] == errList;
      Stream(errMsg, true);
    }

    /** Something printed between the calls. */
    method Say(text: string)
      requires Wired() && Valid()
      modifies psb, rcvq, this`said
      ensures Valid() && psb.Settled()
      ensures said == old(said) + [Note(text)] && Made() == old(Made())
    {
      NoteIsTold(telling, settings, said, text);
      ExecutionsInOne(said, Note(text));
      Stream(text, true);
      said := said + [Note(text)];
    }

    /** The reader's loop over the lines of the output. */
    method ReadOutput(ctags: seq<string>, output: Output)
      requires Wired() && Streaming()
      modifies psb, rcvq
      ensures Streaming() && old(Sent()) <= Sent()
      ensures psb.printed == old(psb.printed) + OutputText(ctags, output.text)
    {
      var rest := output.text;
      while rest != ""
        invariant Streaming() && old(Sent()) <= Sent()
        invariant psb.printed + TaggedLines(ctags, Lines(rest))
               == old(psb.printed) + TaggedLines(ctags, Lines(output.text))
        decreases |rest|
      {
        var line := rest[..LineLength(rest)];
        TaggedLinesCons(psb.printed, ctags, line, Lines(rest[|line|..]));
        Stream(ListText(ctags) + " " + line, false);
        rest := rest[|line|..];
      }
      NothingAfter(psb.printed);
    }

    // ----- Commands

    method Flush() returns (ok: bool)
      requires Wired() && Streaming()
      modifies psb, rcvq
      ensures Streaming() && psb.Settled()
      ensures psb.printed == old(psb.printed) && (if ok then psb.counter == 0 else rcvq != null && rcvq.LastFailed())
      ensures old(Sent()) <= Sent()
    {
      ghost var sent, text := Sent(), "";
      ok, text := psb.FlushToQueue();
      assert psb.View().sent == Sent();
      if Sent() != sent {
        OneLogAdded(jenkinsProject, jenkinsBuild, psb.manner.allowed, base, sent, text);
      }
    }

    /** From a successful Start to the end of the attempt. */
    method RunStarted(ex: Executor, out: Output, ctags: seq<string>) returns (a: Attempt)
      requires Wired() && Streaming() && ex.session == Running && out == ex.yielded
      modifies psb, rcvq, ex`trace, ex`session
      ensures Streaming() && old(Sent()) <= Sent()
      ensures ex.session in {Broken, Reaped} && !a.InitFailed? && !a.StartFailed?
      ensures ex.trace == old(ex.trace) + Middle(a)[1..]
      ensures psb.printed == old(psb.printed) + OutputText(ctags, YieldOf(a))
      ensures (a.Done? ==> psb.counter == 0) && (a.FlushFailed? ==> rcvq != null && rcvq.LastFailed())
    {
      ReadOutput(ctags, out);
      var drained := ex.AwaitReader(out);
      if !drained {
        return ReadFailed(out.text);
      }
      var result := ex.Wait();
      if result == WaitError {
        return WaitFailed(out.text);
      }
      var flushed := Flush();
      a := if flushed then Done(out.text, result.success) else FlushFailed(out.text, result.success);
    }

    /** From a successful InitCommand to the deferred Close. */
    method RunOpened(ex: Executor, out: Output, ctags: seq<string>) returns (a: Attempt)
      requires Wired() && Streaming() && ex.session == Opened && out == ex.yielded
      modifies psb, rcvq, ex`trace, ex`session
      ensures Streaming() && old(Sent()) <= Sent()
      ensures ex.session == Unopened && !a.InitFailed?
      ensures ex.trace == old(ex.trace) + (Middle(a) + [Closed])
      ensures psb.printed == old(psb.printed) + OutputText(ctags, YieldOf(a))
      ensures (a.Done? ==> psb.counter == 0) && (a.FlushFailed? ==> rcvq != null && rcvq.LastFailed())
    {
      a := StartFailed;
      NothingAfter(psb.printed);
      var started := ex.Start();
      if started {
        a := RunStarted(ex, out, ctags);
      }
      assert ex.trace == old(ex.trace) + Middle(a);
      ex.Close();
    }

    /** One turn of the retry loop. */
    method RunAttempt(ex: Executor, dir: string, argv: seq<string>, ctags: seq<string>, retry: nat)
      returns (a: Attempt)
      requires Wired() && Streaming() && ex.session == Unopened
      modifies psb, rcvq, ex
      ensures Streaming() && old(Sent()) <= Sent()
      ensures ex.session == Unopened && IsAttempt(a) && ex.trace == old(ex.trace) + EventsOf(Given(dir, argv), a)
      ensures var init := ex.trace[|old(ex.trace)|];
              init.Init? && init.order == Order(dir, argv, envVars.vars, tags)
      ensures psb.printed == old(psb.printed) + AttemptText(settings, ctags, retry, a)
      ensures (a.Done? ==> psb.counter == 0) && (a.FlushFailed? ==> rcvq != null && rcvq.LastFailed())
    {
      ghost var printed, heading := psb.printed, Info(ctags, "Attempt " + settings.number(retry));
      StreamInfo(ctags, "Attempt " + settings.number(retry));
      a := RunHeaded(ex, dir, argv, ctags);
      ConcatIsAssociative(printed, heading, OutputText(ctags, YieldOf(a)));
    }

    /** The attempt after its heading. */
    method RunHeaded(ex: Executor, dir: string, argv: seq<string>, ctags: seq<string>) returns (a: Attempt)
      requires Wired() && Streaming() && ex.session == Unopened
      modifies psb, rcvq, ex
      ensures Streaming() && old(Sent()) <= Sent()
      ensures ex.session == Unopened && IsAttempt(a) && ex.trace == old(ex.trace) + EventsOf(Given(dir, argv), a)
      ensures psb.printed == old(psb.printed) + OutputText(ctags, YieldOf(a))
      ensures (a.Done? ==> psb.counter == 0) && (a.FlushFailed? ==> rcvq != null && rcvq.LastFailed())
    {
      var env := envVars.Copy();
      var outcome, out := ex.InitCommand(dir, argv, env, tags);
      if outcome == Ready {
        a := RunOpened(ex, out, ctags);
        OpenedEvents(old(ex.trace), Given(dir, argv), a);
      } else {
        a := InitFailed(outcome);
        NothingAfter(psb.printed);
      }
    }

    /** What is printed, and slept, before attempt `retry` if it is not the first. */
    method PrepareRetry(ctags: seq<string>, retry: nat, lastBackOff: int) returns (backOff: int)
      requires Wired() && Streaming() && retry > 1 && lastBackOff == BackOff(settings.retryLoopBackOff, retry - 1)
      modifies psb, rcvq, this`slept
      ensures Streaming() && old(Sent()) <= Sent()
      ensures retry <= settings.retryLoopCount ==> backOff == BackOff(settings.retryLoopBackOff, retry)
      ensures slept == if retry <= settings.retryLoopCount then old(slept) + backOff else old(slept)
      ensures psb.printed == old(psb.printed) + RetryText(settings, ctags, retry)
    {
      ghost var printed := psb.printed;
      backOff := lastBackOff;
      StreamInfo(ctags, "attempt failed due to executor error");
      if retry <= settings.retryLoopCount {
        backOff := backOff + settings.retryLoopBackOff;
        StreamInfo(ctags, "backing of for " + settings.duration(backOff) + " before retrying");
        slept := slept + backOff;
        ConcatIsAssociative(printed, Info(ctags, "attempt failed due to executor error"),
                            Info(ctags, "backing of for " + settings.duration(backOff) + " before retrying"));
      } else {
        NothingAfter(Info(ctags, "attempt failed due to executor error"));
      }
    }

    /** What has been printed, what `ex` has seen and what has been slept so far. */
    ghost function EffortOn(ex: Executor): Effort
      reads this, psb, ex
    {
      Effort(psb.printed, ex.trace, slept)
    }

    /** One turn of the retry loop, unless the retries are used up. */
    method Try(ex: Executor, dir: string, argv: seq<string>, ctags: seq<string>, retry: nat, lastBackOff: int,
               errList: seq<Attempt>, ghost course: Course)
      returns (givenUp: bool, backOff: int, a: Attempt)
      requires Wired() && Streaming() && ex.session == Unopened && IsCourse(course, settings, ctags, Given(dir, argv))
      requires retry == |errList| + 1 && AllFailed(errList)
               && lastBackOff == BackOff(settings.retryLoopBackOff, retry - 1)
      modifies psb, rcvq, ex, this`slept
      ensures Streaming() && old(Sent()) <= Sent() && ex.session == Unopened
      ensures givenUp == (retry > MaxAttempts(settings.retryLoopCount))
      ensures givenUp ==>
                && psb.Settled()
                && EffortOn(ex) == old(EffortOn(ex)).(printed := old(psb.printed) + course.ending(errList))
      ensures !givenUp ==>
                && IsAttempt(a) && backOff == BackOff(settings.retryLoopBackOff, retry)
                && EffortOn(ex) == course.trial(old(EffortOn(ex)), retry, a)
                && (a.Done? ==> psb.counter == 0)
    {
      ghost var before := EffortOn(ex);
      var success := true;
      backOff, a := lastBackOff, StartFailed;
      NothingAfter(psb.printed);
      if retry > 1 {
        success := false;
        backOff := PrepareRetry(ctags, retry, backOff);
      }
      givenUp := retry > settings.retryLoopCount && !success;
      if givenUp {
        StreamErrors(ctags, errList);
        ConcatIsAssociative(before.printed, RetryText(settings, ctags, retry), ErrorsText(settings, errList));
        assert EndText(settings, ctags, errList) == GivenUpText(settings, ctags, errList);
      } else {
        a := RunAttempt(ex, dir, argv, ctags, retry);
        ConcatIsAssociative(before.printed, RetryText(settings, ctags, retry), AttemptText(settings, ctags, retry, a));
        assert EffortOn(ex) == Tried(settings, ctags, Given(dir, argv), before, retry, a);
      }
    }

    /** The retry loop. It ends with an attempt without executor error, or with the retries used up. */
    method TryAll(ex: Executor, dir: string, argv: seq<string>, ctags: seq<string>, ghost course: Course)
      returns (givenUp: bool, errList: seq<Attempt>, a: Attempt)
      requires Wired() && Streaming() && ex.session == Unopened
      requires IsCourse(course, settings, ctags, Given(dir, argv))
      modifies psb, rcvq, ex, this`slept
      ensures Streaming() && old(Sent()) <= Sent() && ex.session == Unopened && AllFailed(errList)
      ensures givenUp ==>
                && |errList| == MaxAttempts(settings.retryLoopCount) && psb.Settled()
                && var all := AllTried(course, old(EffortOn(ex)), errList);
                   EffortOn(ex) == all.(printed := all.printed + course.ending(errList))
      ensures !givenUp ==>
                && |errList| < MaxAttempts(settings.retryLoopCount) && a.Done? && psb.counter == 0
                && EffortOn(ex) == AllTried(course, old(EffortOn(ex)), errList + [a])
    {
      errList := [];
      var backOff, retry := settings.retryLoopBackOff, 1;
      while true
        invariant Streaming() && old(Sent()) <= Sent() && ex.session == Unopened
        invariant retry == |errList| + 1 <= MaxAttempts(settings.retryLoopCount) + 1
        invariant AllFailed(errList) && backOff == BackOff(settings.retryLoopBackOff, |errList|)
        invariant EffortOn(ex) == AllTried(course, old(EffortOn(ex)), errList)
        decreases MaxAttempts(settings.retryLoopCount) + 1 - retry
      {
        givenUp, backOff, a := Try(ex, dir, argv, ctags, retry, backOff, errList, course);
        if givenUp {
          return;
        }
        TriedOnce(course, old(EffortOn(ex)), errList, a);
        if a.Done? {
          return;
        }
        OneMoreFailed(errList, a);
        errList, retry := errList + [a], retry + 1;
      }
    }

    /** Retries until an attempt has no executor error or the attempts are used up. */
    method Retry(ex: Executor, dir: string, argv: seq<string>, ctags: seq<string>, ghost course: Course)
      returns (result: Result, errList: seq<Attempt>, ghost attempts: seq<Attempt>)
      requires Wired() && Streaming() && ex.session == Unopened
      requires IsCourse(course, settings, ctags, Given(dir, argv))
      modifies psb, rcvq, ex, this`slept
      ensures Streaming() && psb.Settled() && old(Sent()) <= Sent() && ex.session == Unopened
      ensures IsOutcome(attempts, errList, result, settings.retryLoopCount)
      ensures var all := AllTried(course, old(EffortOn(ex)), attempts);
              EffortOn(ex) == all.(printed := all.printed + course.ending(attempts))
      ensures result.Value? ==> psb.counter == 0
    {
      var givenUp, a;
      givenUp, errList, a := TryAll(ex, dir, argv, ctags, course);
      if givenUp {
        RetriesUsedUp(errList, settings.retryLoopCount);
        result, attempts := Error, errList;
      } else {
        LastAttempt(errList, a, settings.retryLoopCount);
        result, attempts := Value(a.success), errList + [a];
        EndsQuietly(course, settings, ctags, Given(dir, argv), EffortOn(ex), attempts);
      }
    }

    /** The whole of a call after its command line has been printed. */
    method Execute(ex: Executor, dir: string, argv: seq<string>, ctags: seq<string>)
      returns (result: Result, ghost attempts: seq<Attempt>)
      requires Wired() && Streaming() && ex.session == Unopened
               && psb.printed == telling(said) + CommandText(ctags, argv)
      modifies psb, rcvq, ex, this`slept, this`said
      ensures Valid() && psb.Settled() && old(Sent()) <= Sent() && ex.session == Unopened
      ensures ex.trace == old(ex.trace) + TraceOf(Given(dir, argv), attempts)
      ensures AreAttempts(attempts, settings.retryLoopCount) && result == ResultOf(attempts)
      ensures slept == old(slept) + SleepTotal(settings.retryLoopBackOff, |attempts|)
      ensures said == old(said) + [Called(ctags, argv, attempts)]
      ensures Made() == old(Made()) + [Execution(argv, attempts)]
      ensures result.Value? ==> psb.counter == 0
    {
      ghost var before, course := EffortOn(ex), NewCourse(settings, ctags, Given(dir, argv));
      var errList;
      result, errList, attempts := Retry(ex, dir, argv, ctags, course);
      CallIsAccountedFor(telling, course, settings, said, ctags, Given(dir, argv), attempts, before, EffortOn(ex));
      ExecutionsInOne(said, Called(ctags, argv, attempts));
      said := said + [Called(ctags, argv, attempts)];
    }

    /** What follows the command line of a command that is skipped. */
    method Skip(ctags: seq<string>, argv: seq<string>)
      requires Wired() && Streaming() && psb.printed == telling(said) + CommandText(ctags, argv)
      modifies psb, rcvq, this`said
      ensures Valid() && psb.Settled() && old(Sent()) <= Sent()
      ensures said == old(said) + [Note(SkippedText(ctags, argv))] && Made() == old(Made())
    {
      SkipIsTold(telling, settings, said, ctags, argv);
      ExecutionsInOne(said, Note(SkippedText(ctags, argv)));
      StreamInfo(ctags, "previous command failed or skipped, skipping");
      said := said + [Note(SkippedText(ctags, argv))];
    }

    /** The command is executed or skipped, after its command line has been printed. */
    method ExecuteOrSkip(oldSuccess: bool, ex: Executor, dir: string, argv: seq<string>, ctags: seq<string>)
      returns (result: Result, ghost attempts: seq<Attempt>)
      requires Wired() && Streaming() && ex.session == Unopened && ctags == ex.tags
      requires psb.printed == telling(said) + CommandText(ctags, argv)
      modifies psb, rcvq, ex, this`slept, this`said
      ensures Valid() && psb.Settled() && old(Sent()) <= Sent() && ex.session == Unopened
      ensures ex.trace == old(ex.trace) + TraceOf(Given(dir, argv), attempts)
      ensures !oldSuccess ==>
                && result == Value(false) && attempts == [] && slept == old(slept)
                && said == old(said) + [Note(SkippedText(ctags, argv))] && Made() == old(Made())
      ensures oldSuccess ==>
                && AreAttempts(attempts, settings.retryLoopCount) && result == ResultOf(attempts)
                && slept == old(slept) + SleepTotal(settings.retryLoopBackOff, |attempts|)
                && said == old(said) + [Called(ctags, argv, attempts)]
                && Made() == old(Made()) + [Execution(argv, attempts)]
      ensures oldSuccess && result.Value? ==> psb.counter == 0
    {
      if oldSuccess {
        result, attempts := Execute(ex, dir, argv, ctags);
        return;
      }
      NothingAfter(ex.trace);
      Skip(ex.tags, argv);
      result, attempts := Value(false), [];
    }

    /** A command that is skipped comes to false. Either way the transcript grows by one entry. */
    method RunOrSkip(oldSuccess: bool, ex: Executor, dir: string, argv: seq<string>)
      returns (result: Result, ghost attempts: seq<Attempt>)
      requires Wired() && Valid() && ex.session == Unopened
      modifies psb, rcvq, ex, this`slept, this`said
      ensures Valid() && psb.Settled() && old(Sent()) <= Sent() && ex.session == Unopened
      ensures ex.trace == old(ex.trace) + TraceOf(Given(dir, argv), attempts)
      ensures !oldSuccess ==>
                && result == Value(false) && attempts == [] && slept == old(slept)
                && said == old(said) + [Note(SkippedText(old(ex.tags), argv))] && Made() == old(Made())
      ensures oldSuccess ==>
                && AreAttempts(attempts, settings.retryLoopCount) && result == ResultOf(attempts)
                && slept == old(slept) + SleepTotal(settings.retryLoopBackOff, |attempts|)
                && said == old(said) + [Called(old(ex.tags), argv, attempts)]
                && Made() == old(Made()) + [Execution(argv, attempts)]
      ensures oldSuccess && result.Value? ==> psb.counter == 0
    {
      var ctags := ex.tags;
      Stream(ListText(ctags) + " Executing command " + ListText(argv) + "\n", true);
      result, attempts := ExecuteOrSkip(oldSuccess, ex, dir, argv, ctags);
    }

    /** The same, with what it shows: a result is what the executor has answered last, and there is an
        error only after all the attempts that the retry loop count allows. */
    method RunCommand(oldSuccess: bool, ex: Executor, dir: string, argv: seq<string>)
      returns (result: Result, ghost attempts: seq<Attempt>)
      requires Wired() && Valid() && ex.session == Unopened
      modifies psb, rcvq, ex, this`slept, this`said
      ensures Valid() && psb.Settled() && old(Sent()) <= Sent() && ex.session == Unopened
      ensures ex.trace == old(ex.trace) + TraceOf(Given(dir, argv), attempts)
      ensures !oldSuccess ==>
                && result == Value(false) && attempts == [] && slept == old(slept)
                && said == old(said) + [Note(SkippedText(old(ex.tags), argv))] && Made() == old(Made())
      ensures oldSuccess ==>
                && AreAttempts(attempts, settings.retryLoopCount) && result == ResultOf(attempts)
                && slept == old(slept) + SleepTotal(settings.retryLoopBackOff, |attempts|)
                && said == old(said) + [Called(old(ex.tags), argv, attempts)]
                && Made() == old(Made()) + [Execution(argv, attempts)]
      ensures oldSuccess && result.Value? ==>
                && psb.counter == 0
                && var n := |ex.trace|;
                   && n >= 5
                   && ex.trace[n - 5] == Init(Order(dir, argv, envVars.vars, tags), Ready)
                   && ex.trace[n - 4] == Started(true)
                   && ex.trace[n - 3] == Drained(Output(attempts[|attempts| - 1].text, false))
                   && ex.trace[n - 2] == Waited(Exited(result.success))
                   && ex.trace[n - 1] == Closed
      ensures oldSuccess ==>
                && 1 <= |attempts| && (|attempts| == 1 || |attempts| <= settings.retryLoopCount)
                && forall i :: 0 <= i < |attempts| - 1 ==> !attempts[i].Done?
      ensures oldSuccess && result.Error? ==>
                |attempts| == if settings.retryLoopCount < 1 then 1 else settings.retryLoopCount
    {
      result, attempts := RunOrSkip(oldSuccess, ex, dir, argv);
      if oldSuccess {
        AttemptsMeaning(attempts, settings.retryLoopCount);
        if result.Value? {
          LastIsShown(old(ex.trace), dir, argv, attempts);
        }
      }
    }

    lemma LastIsShown(before: seq<Event>, dir: string, argv: seq<string>, attempts: seq<Attempt>)
      requires psb.envs == envVars && psb.Valid() && ResultOf(attempts).Value?
      ensures var trace, last := before + TraceOf(Given(dir, argv), attempts), attempts[|attempts| - 1];
              var n := |trace|;
              && n >= 5
              && trace[n - 5] == Init(Order(dir, argv, envVars.vars, tags), Ready)
              && trace[n - 4] == Started(true)
              && trace[n - 3] == Drained(Output(last.text, false))
              && trace[n - 2] == Waited(Exited(last.success))
              && trace[n - 1] == Closed
    {
      DoneHasEnded(before, Given(dir, argv), attempts);
    }

    // ----- The stages of a test

    /** Since its beginning the test has made exactly the `prior` calls and then `calls`, as both its
        executor and the transcript show, and `calls` have led from `plan` to `residual`. */
    ghost predicate Progress(ex: Executor, cfg: Config, prior: seq<Call>, calls: seq<Call>, plan: Plan, residual: Plan)
      reads this`said, this`mark, ex
    {
      && ex.session == Unopened && Evidence(ex.trace, Made()) == EvidenceOf(cfg, mark, prior + calls)
      && AreCalls(calls, settings.retryLoopCount)
      && Leads(plan, RanOf(calls), residual)
    }

    /** Runs one command of a plan, or skips it if the status so far is false. */
    method RunStep(status: bool, ex: Executor, cfg: Config, c: Command,
                   ghost prior: seq<Call>, ghost calls: seq<Call>, ghost plan: Plan, ghost residual: Plan)
      returns (result: Result, ghost calls': seq<Call>)
      requires Wired() && Valid() && Ours(cfg) && Progress(ex, cfg, prior, calls, plan, residual)
      requires status ==> residual.Do? && residual.command == c
      modifies psb, rcvq, ex, this`slept, this`said
      ensures Valid() && psb.Settled()
      ensures Progress(ex, cfg, prior, calls', plan, Onwards(status, residual, result))
      ensures status && result.Value? ==> psb.counter == 0
      ensures !status ==> result == Value(false) && calls' == calls
    {
      ghost var attempts;
      result, attempts := RunCommand(status, ex, Dir(cfg, c), Argv(cfg, c));
      calls' := calls;
      if status {
        calls' := calls + [Call(c, attempts)];
        StepTaken(cfg, mark, prior, calls, Call(c, attempts), plan, residual, settings.retryLoopCount);
      } else {
        NothingAfter(old(ex.trace));
      }
    }

    /** Failures to name the git user end the setup only if the executor fails. */
    method SetupGit(oldStatus: bool, ex: Executor, cfg: Config, ghost prior: seq<Call>, ghost calls: seq<Call>,
                    ghost plan: Plan)
      returns (result: Result, ghost calls': seq<Call>)
      requires Wired() && Valid() && Ours(cfg) && Progress(ex, cfg, prior, calls, plan, GitPlan(cfg, oldStatus))
      modifies psb, rcvq, ex, this`slept, this`said
      ensures Valid() && (old(psb.Settled()) ==> psb.Settled())
      ensures result == Error || result == Value(oldStatus)
      ensures Progress(ex, cfg, prior, calls', plan,
                       if result.Error? then Return(Error) else TargetPlan(cfg, oldStatus))
    {
      result, calls' := Value(oldStatus), calls;
      if oldStatus && cfg.gitUser != "" && cfg.gitEmail != "" {
        result, calls' := RunStep(true, ex, cfg, SetUserName, prior, calls', plan, GitPlan(cfg, true));
        OnwardsFromGit(cfg, true, result);
        if result.Value? {
          var status := result.success;
          result, calls' := RunStep(status, ex, cfg, SetUserEmail, prior, calls', plan, EmailPlan(cfg, status));
          OnwardsFromGit(cfg, status, result);
          result := Value(true);
        }
      }
    }

    /** An error is only told. */
    method HandleCommandError(result: Result, ctags: seq<string>)
      requires Wired() && Valid() && psb.Settled()
      modifies psb, rcvq, this`said
      ensures Valid() && psb.Settled() && Made() == old(Made())
    {
      if result.Error? {
        Say(ListText(ctags) + " Command Error, failing gracefully");
      }
    }

    /** Removes what an earlier run may have left; an error only counts as failure. */
    method RemoveOld(ex: Executor, cfg: Config) returns (status: bool, ghost calls: seq<Call>)
      requires Wired() && Valid() && Ours(cfg) && ex.session == Unopened && ex.trace == [] && Made() == mark
      modifies psb, rcvq, ex, this`slept, this`said
      ensures Valid() && psb.Settled()
      ensures Progress(ex, cfg, [], calls, SetupPlan(cfg), MakePlan(cfg, status))
    {
      NothingAfter<Call>([]);
      NoEvidence(cfg, mark);
      var result;
      result, calls := RunStep(true, ex, cfg, RemoveStale, [], [], SetupPlan(cfg), SetupPlan(cfg));
      OnwardsFromSetup(cfg, true, result);
      status := result == Value(true);
      HandleCommandError(result, ex.tags);
    }

    /** A fresh work directory with a clone of the repository. */
    method SetupRepo(ex: Executor, cfg: Config) returns (result: Result, ghost calls: seq<Call>)
      requires Wired() && Valid() && Ours(cfg) && ex.session == Unopened && ex.trace == [] && Made() == mark
      modifies psb, rcvq, ex, this`slept, this`said
      ensures Valid() && psb.Settled()
      ensures Progress(ex, cfg, [], calls, SetupPlan(cfg),
                       if result.Error? then Return(Error) else GitPlan(cfg, result.success))
    {
      ghost var plan := SetupPlan(cfg);
      var status;
      status, calls := RemoveOld(ex, cfg);
      result, calls := RunStep(status, ex, cfg, MakeRepoDir, [], calls, plan, MakePlan(cfg, status));
      OnwardsFromSetup(cfg, status, result);
      if result.Value? {
        status := result.success;
        result, calls := RunStep(status, ex, cfg, CloneRepo, [], calls, plan, ClonePlan(cfg, status));
        OnwardsFromSetup(cfg, status, result);
      }
    }

    method SetupTests(ex: Executor, cfg: Config) returns (result: Result, ghost calls: seq<Call>)
      requires Wired() && Valid() && Ours(cfg) && ex.session == Unopened && ex.trace == [] && Made() == mark
      modifies psb, rcvq, ex, this`slept, this`said
      ensures Valid() && psb.Settled()
      ensures ex.session == Unopened && Evidence(ex.trace, Made()) == EvidenceOf(cfg, mark, calls)
      ensures AreCalls(calls, settings.retryLoopCount) && Follows(SetupPlan(cfg), RanOf(calls), result)
    {
      result, calls := SetupRepo(ex, cfg);
      if result.Value? {
        var status := result.success;
        result, calls := SetupGit(status, ex, cfg, [], calls, SetupPlan(cfg));
        if result.Value? {
          result, calls := SetupTarget(status, ex, cfg, calls, SetupPlan(cfg));
        }
      }
      LeadsToEnd(SetupPlan(cfg), RanOf(calls), result);
      assert [] + calls == calls;
    }

    /** Checks out what is to be tested. For a pull request the main branch is checked out
        whatever happened before. */
    method SetupTarget(status: bool, ex: Executor, cfg: Config, ghost calls: seq<Call>, ghost plan: Plan)
      returns (result: Result, ghost calls': seq<Call>)
      requires Wired() && Valid() && Ours(cfg) && psb.Settled()
               && Progress(ex, cfg, [], calls, plan, TargetPlan(cfg, status))
      modifies psb, rcvq, ex, this`slept, this`said
      ensures Valid() && psb.Settled() && Progress(ex, cfg, [], calls', plan, Return(result))
    {
      calls' := calls;
      match cfg.request.kind
      case PullRequest =>
        result, calls' := RunStep(status, ex, cfg, FetchPull, [], calls', plan, TargetPlan(cfg, status));
        OnwardsFromTarget(cfg, status, result);
        if result.Error? {
          return;
        }
        var fetched := result.success;
        result, calls' := RunStep(true, ex, cfg, CheckoutMain, [], calls', plan, MainPlan(fetched));
        OnwardsFromMain(fetched, true, result);
        if result.Value? && fetched {
          var onMain := result.success;
          result, calls' := RunStep(onMain, ex, cfg, MergePull, [], calls', plan, MergePlan(true, onMain));
          OnwardsFromMain(true, onMain, result);
        }
      case Branch =>
        result, calls' := RunStep(status, ex, cfg, CheckoutTarget, [], calls', plan, TargetPlan(cfg, status));
        OnwardsFromTarget(cfg, status, result);
      case Tag =>
        result, calls' := RunStep(status, ex, cfg, CheckoutTarget, [], calls', plan, TargetPlan(cfg, status));
        OnwardsFromTarget(cfg, status, result);
      case Unknown(_) =>
        result := Error;
    }

    method RunTests(oldStatus: bool, ex: Executor, cfg: Config, ghost prior: seq<Call>)
      returns (result: Result, ghost calls: seq<Call>)
      requires Wired() && Valid() && Ours(cfg) && ex.session == Unopened
               && Evidence(ex.trace, Made()) == EvidenceOf(cfg, mark, prior)
      modifies psb, rcvq, ex, this`slept, this`said
      ensures Valid() && psb.Settled()
      ensures ex.session == Unopened && Evidence(ex.trace, Made()) == EvidenceOf(cfg, mark, prior + calls)
      ensures AreCalls(calls, settings.retryLoopCount) && Follows(RunPlan(cfg, oldStatus), RanOf(calls), result)
    {
      ghost var plan := RunPlan(cfg, oldStatus);
      calls := [];
      NothingAfter(prior);
      if oldStatus {
        var status := true;
        if cfg.request.runScriptURL != "" {
          result, calls := RunStep(status, ex, cfg, DownloadScript, prior, calls, plan, plan);
          OnwardsFromRun(cfg, true, result);
          if result.Error? {
            LeadsToEnd(plan, RanOf(calls), Error);
            return;
          }
          status := result.success;
        }
        result, calls := RunStep(status, ex, cfg, RunScript, prior, calls, plan, ScriptPlan(status));
        OnwardsFromRun(cfg, status, result);
      } else {
        Say(Info(ex.tags, "setup failed, skipping"));
        result := Value(false);
      }
      LeadsToEnd(plan, RanOf(calls), result);
    }

    method TearDownTests(oldSuccess: bool, ex: Executor, cfg: Config, ghost prior: seq<Call>)
      returns (result: Result, ghost calls: seq<Call>)
      requires Wired() && Valid() && Ours(cfg) && ex.session == Unopened
               && Evidence(ex.trace, Made()) == EvidenceOf(cfg, mark, prior)
      modifies psb, rcvq, ex, this`slept, this`said
      ensures Valid() && psb.Settled()
      ensures ex.session == Unopened && Evidence(ex.trace, Made()) == EvidenceOf(cfg, mark, prior + calls)
      ensures AreCalls(calls, settings.retryLoopCount) && Follows(TearDownPlan(oldSuccess), RanOf(calls), result)
      ensures result == Value(true) ==> psb.counter == 0
    {
      ghost var plan := TearDownPlan(oldSuccess);
      calls := [];
      NothingAfter(prior);
      if oldSuccess {
        result, calls := RunStep(oldSuccess, ex, cfg, RemoveWorkDir, prior, calls, plan, plan);
        OnwardsFromRun(cfg, oldSuccess, result);
      } else {
        Say(Info(ex.tags, "run failed, skipping"));
        result := Value(false);
      }
      LeadsToEnd(plan, RanOf(calls), result);
    }

    // ----- Tests

    method NewExecutor(place: Place) returns (ex: Executor?)
      ensures ex != null ==>
                fresh(ex) && ex.place == place && ex.trace == [] && ex.session == Unopened && HasCredentials(place)
      ensures ex == null ==> place.OnNode? && (place.node.sshKey != "" || place.node.sshPassword == "")
    {
      match place
      case Here =>
        ex := new Executor(place);
      case OnNode(node) =>
        var keyParses: bool := *;
        if if node.sshKey != "" then keyParses else node.sshPassword != "" {
          ex := new Executor(place);
        } else {
          ex := null;
        }
    }

    /** The executor and the transcript show exactly the calls of the plan. */
    method Test(place: Place) returns (result: Result, ghost t: TestRun, ghost ex: Executor?)
      requires Wired() && Valid()
      modifies psb, rcvq, this`slept, this`said, this`mark
      ensures Valid() && (old(psb.Settled()) ==> psb.Settled())
      ensures t.place == place && t.result == result && (result == Value(true) ==> psb.counter == 0)
      ensures Seen(Duty(), [ex], [t]) && (ex != null ==> fresh(ex))
      ensures Made() == old(Made()) + ExecutionsOfTest(Duty(), t)
    {
      var instance: string := *;
      var executor := NewExecutor(place);
      ex := executor;
      mark := Made();
      if executor == null {
        result, t := Error, TestRun(place, instance, [], Error);
        NoEvidence(ConfigOf(Duty(), instance), mark);
      } else {
        var info := if place.Here? then "running tests locally" else OnNodeText(place.node);
        Say(Info(executor.tags, info));
        result, t := TestWith(place, executor, instance);
      }
      SeenOne(Duty(), ex, t);
    }

    /** Setup, run and teardown. */
    method TestWith(place: Place, ex: Executor, instance: string) returns (result: Result, ghost t: TestRun)
      requires Wired() && Valid() && HasCredentials(place)
      requires ex.place == place && ex.session == Unopened && ex.trace == [] && Made() == mark
      modifies psb, rcvq, ex, this`slept, this`said
      ensures Valid() && psb.Settled()
      ensures t.place == place && t.result == result && SeenBy(Duty(), ex, t)
      ensures result == Value(true) ==> psb.counter == 0
      ensures Made() == mark + ExecutionsOfTest(Duty(), t)
    {
      var workDir := BaseWorkDir(request.rcvIdent);
      var cfg := Config(request, gitUser, gitEmail, workDir, workDir + "/" + instance + "/repo", envVars.vars, tags);
      ghost var calls;
      result, calls := SetupTests(ex, cfg);
      if result.Error? {
        t := TestRun(place, instance, calls, Error);
        SetupEndsTest(Duty(), t);
      } else {
        ghost var status, setupCalls := result.success, calls;
        result, calls := RunAndTearDown(result.success, ex, cfg, setupCalls);
        t := TestRun(place, instance, setupCalls + calls, result);
        TestGoesOn(Duty(), t, setupCalls, status, calls);
      }
    }

    method RunAndTearDown(status: bool, ex: Executor, cfg: Config, ghost prior: seq<Call>)
      returns (result: Result, ghost calls: seq<Call>)
      requires Wired() && Valid() && Ours(cfg) && ex.session == Unopened
               && Evidence(ex.trace, Made()) == EvidenceOf(cfg, mark, prior)
      modifies psb, rcvq, ex, this`slept, this`said
      ensures Valid() && psb.Settled()
      ensures ex.session == Unopened && Evidence(ex.trace, Made()) == EvidenceOf(cfg, mark, prior + calls)
      ensures AreCalls(calls, settings.retryLoopCount) && Follows(LastPlan(cfg, status), RanOf(calls), result)
      ensures result == Value(true) ==> psb.counter == 0
    {
      result, calls := RunTests(status, ex, cfg, prior);
      if result.Error? {
        FollowsThenError(RunPlan(cfg, status), AfterRun(), RanOf(calls));
        return;
      }
      ghost var success, runCalls := result.success, calls;
      result, calls := TearDownTests(result.success, ex, cfg, prior + runCalls);
      TearDownFollows(cfg, status, runCalls, success, calls, result);
      ConcatIsAssociative(prior, runCalls, calls);
      calls := runCalls + calls;
    }

    /** Tests on every node, or locally, each test with an executor of its own. Without any node in
        the list this is a success. */
    method RunAll() returns (result: Result, ghost tests: seq<TestRun>, ghost exs: seq<Executor?>)
      requires Wired() && Valid()
      modifies psb, rcvq, this`slept, this`said, this`mark
      ensures Valid() && (old(psb.Settled()) ==> psb.Settled())
      ensures Conjunction(PlacesOf(sshNodes), tests, result)
      ensures sshNodes.Locally? ==> |tests| == 1 && tests[0].place == Here
      ensures sshNodes.OverSSH? ==>
                && |tests| <= |sshNodes.nodes| && (result.Value? ==> |tests| == |sshNodes.nodes|)
                && forall i :: 0 <= i < |tests| ==> tests[i].place == OnNode(sshNodes.nodes[i])
      ensures Seen(Duty(), exs, tests) && AllDiffer(exs) && forall ex :: ex in exs && ex != null ==> fresh(ex)
      ensures old(psb.counter) == 0 && result == Value(true) ==> psb.counter == 0
      ensures Tally(Made()) == TallyOf(Duty(), old(Made()), tests)
    {
      if sshNodes.OverSSH? {
        result, tests, exs := RunOverSSH(sshNodes.nodes);
      } else {
        ghost var t, ex;
        result, t, ex := Test(Here);
        tests, exs := [] + [t], [ex];
        NoTests(Duty(), old(Made()));
        OneMoreTest(Duty(), old(Made()), [], t);
        ConjunctionOfOne(t);
      }
    }

    method RunOverSSH(nodes: seq<Node>) returns (result: Result, ghost tests: seq<TestRun>, ghost exs: seq<Executor?>)
      requires Wired() && Valid()
      modifies psb, rcvq, this`slept, this`said, this`mark
      ensures Valid() && (old(psb.Settled()) ==> psb.Settled())
      ensures Conjunction(PlacesOf(OverSSH(nodes)), tests, result)
      ensures Seen(Duty(), exs, tests) && AllDiffer(exs) && forall ex :: ex in exs && ex != null ==> fresh(ex)
      ensures old(psb.counter) == 0 && result == Value(true) ==> psb.counter == 0
      ensures Tally(Made()) == TallyOf(Duty(), old(Made()), tests)
    {
      ghost var places := PlacesOf(OverSSH(nodes));
      tests, exs, result := [], [], Value(true);
      NoTests(Duty(), Made());
      var i := 0;
      while i < |nodes| && result.Value?
        invariant Valid() && (old(psb.Settled()) ==> psb.Settled())
        invariant i <= |nodes| && |tests| == i && ConjunctionSoFar(places, tests, result)
        invariant Seen(Duty(), exs, tests) && AllDiffer(exs) && forall ex :: ex in exs && ex != null ==> fresh(ex)
        invariant old(psb.counter) == 0 && result == Value(true) ==> psb.counter == 0
        invariant Tally(Made()) == TallyOf(Duty(), old(Made()), tests)
      {
        ghost var ex;
        result, tests, ex := TestNext(OnNode(nodes[i]), result.success, places, tests, exs, old(Made()));
        DiffersToo(exs, ex);
        exs, i := exs + [ex], i + 1;
      }
    }

    /** One more test on the list, given the status so far. */
    method TestNext(place: Place, status: bool, ghost places: seq<Place>, ghost tests: seq<TestRun>,
                    ghost exs: seq<Executor?>, ghost before: seq<Execution>)
      returns (result: Result, ghost tests': seq<TestRun>, ghost ex: Executor?)
      requires Wired() && Valid() && Seen(Duty(), exs, tests) && Tally(Made()) == TallyOf(Duty(), before, tests)
      requires ConjunctionSoFar(places, tests, Value(status)) && |tests| < |places| && place == places[|tests|]
      modifies psb, rcvq, this`slept, this`said, this`mark
      ensures Valid() && (old(psb.Settled()) ==> psb.Settled())
      ensures |tests'| == |tests| + 1 && ConjunctionSoFar(places, tests', result)
      ensures result == Value(true) ==> psb.counter == 0
      ensures Seen(Duty(), exs + [ex], tests') && (ex != null ==> fresh(ex) && ex !in exs)
      ensures Tally(Made()) == TallyOf(Duty(), before, tests')
    {
      ghost var t;
      result, t, ex := Test(place);
      SeenConcat(Duty(), exs, tests, [ex], [t]);
      OneMoreTest(Duty(), before, tests, t);
      ConjunctionOne(places, tests, status, t);
      tests', result := tests + [t], if result.Error? then Error else Value(status && result.success);
    }

    // ----- The run of a worker

    ghost function Says(body: Body): Message
    {
      Message(jenkinsProject, jenkinsBuild, body)
    }

    ghost predicate RunSoFar(before: seq<Message>)
      reads rcvq
    {
      IsPartialRun(jenkinsProject, jenkinsBuild, psb.manner.allowed, before, Sent())
    }

    /** The stage of the run that began after `before`. */
    ghost function StageSince(before: seq<Message>): Stage
      reads rcvq
      requires RunSoFar(before)
    {
      Track(Sent()[|before|..]).stage
    }

    ghost predicate PublishFailed()
      reads rcvq
    {
      rcvq != null && rcvq.LastFailed()
    }

    /** Publishes the next message of the script, if there is a queue. */
    method Send(body: Body, ghost before: seq<Message>) returns (ok: bool)
      requires Wired() && psb.Valid() && !body.Log? && RunSoFar(before)
      requires rcvq != null ==> Advance(StageSince(before), body).Next?
      modifies rcvq
      ensures psb.Valid() && RunSoFar(before) && (!ok ==> PublishFailed())
      ensures rcvq == null ==> ok
      ensures rcvq != null ==>
                && rcvq.outcomes == old(rcvq.outcomes) + [ok]
                && Sent() == (if ok then old(Sent()) + [Says(body)] else old(Sent()))
                && (ok ==> StageSince(before) == Advance(old(StageSince(before)), body).stage)
    {
      ok := true;
      if rcvq != null {
        ghost var sent := rcvq.sent;
        OthersAreNotTold(psb.account, psb.manner, psb.start, psb.record, psb.printed, psb.message, sent, Says(body));
        PartialRunOne(jenkinsProject, jenkinsBuild, psb.manner.allowed, before, sent, body);
        ok := rcvq.Publish(Message(jenkinsProject, jenkinsBuild, body));
      }
    }

    /** Cancel, then Build. */
    method Announce() returns (ok: bool)
      requires Wired() && psb.Valid() && Told()
      modifies rcvq, this`base
      ensures psb.Valid() && Told() && RunSoFar(old(Sent())) && (!ok ==> PublishFailed())
      ensures old(Sent()) <= Sent() <= old(Sent()) + [Says(Cancel), Says(Build)]
      ensures ok ==> Valid() && base == Sent() && Begun(old(Sent()))
    {
      ghost var before := Sent();
      assert before[|before|..] == [];
      ok := Send(Cancel, before);
      if !ok {
        return;
      }
      ok := Send(Build, before);
      base := Sent();
    }

    /** Status, and Final if it is the last run. */
    method Conclude(success: bool, ghost before: seq<Message>) returns (ok: bool)
      requires Wired() && psb.Valid() && RunSoFar(before) && (rcvq != null ==> StageSince(before) == Logging)
      modifies rcvq
      ensures psb.Valid() && RunSoFar(before) && (!ok ==> PublishFailed())
      ensures old(Sent()) <= Sent() <= old(Sent()) + Conclusion(jenkinsProject, jenkinsBuild, final, success)
      ensures ok && rcvq != null ==>
                && Sent() == old(Sent()) + Conclusion(jenkinsProject, jenkinsBuild, final, success)
                && StageSince(before) == (if final then Finished else Reported)
                && rcvq.outcomes == old(rcvq.outcomes) + (if final then [true, true] else [true])
    {
      ConclusionSteps(jenkinsProject, jenkinsBuild, final, success, Sent(), if rcvq == null then [] else rcvq.outcomes);
      ok := Send(Status(success), before);
      if ok && final {
        ok := Send(Final, before);
      }
    }

    /** The closing flush. */
    method FlushRest(ghost before: seq<Message>) returns (ok: bool, ghost tail: seq<string>)
      requires Wired() && psb.Valid() && RunSoFar(before)
      requires rcvq != null ==> StageSince(before) in {Reported, Finished}
      modifies psb, rcvq
      ensures psb.Valid() && RunSoFar(before) && psb.printed == old(psb.printed) && (!ok ==> PublishFailed())
      ensures |tail| <= 1 && Sent() == old(Sent()) + LogMessages(jenkinsProject, jenkinsBuild, tail)
      ensures rcvq != null && ok ==>
                && |tail| == (if old(psb.counter) == 0 then 0 else 1)
                && rcvq.outcomes == old(rcvq.outcomes) + if tail == [] then [] else [true]
      ensures ok ==> psb.counter == 0
    {
      ghost var sent, text, view := Sent(), "", psb.View();
      assert rcvq != null ==> Advance(StageSince(before), Log("")).Next?;
      ok, text := psb.FlushToQueue();
      assert Sent() == psb.View().sent && sent == view.sent;
      LogMessagesOfOne(jenkinsProject, jenkinsBuild, sent, text);
      tail := if Sent() == sent then [] else [text];
      if Sent() != sent {
        PartialRunOne(jenkinsProject, jenkinsBuild, psb.manner.allowed, before, sent, Log(text));
      }
    }

    /** Refuses to go on if there is a newer build, and stops the older ones. */
    method Supersede(job: Job, filter: Filter) returns (ok: bool)
      modifies job
      ensures !ok ==> job.failures > old(job.failures)
                      || exists b :: b in old(job.builds) && b > jenkinsBuild && Matches(filter, old(job.builds)[b])
      ensures job.builds.Keys == old(job.builds).Keys
      ensures forall b :: b in job.builds ==> job.builds[b].parameters == old(job.builds)[b].parameters
      ensures forall b :: b in job.builds && (b >= jenkinsBuild || !Matches(filter, old(job.builds)[b])) ==>
                job.builds[b] == old(job.builds)[b]
      ensures !IsNewest(old(job.builds), filter, jenkinsBuild) ==> !ok && job.builds == old(job.builds)
      ensures ok ==>
                && IsNewest(old(job.builds), filter, jenkinsBuild)
                && job.builds == AllCleanedUp(filter, job.answers, jenkinsBuild, old(job.builds))
    {
      var exist;
      ok, exist := job.NewerBuildsExist(jenkinsBuild, filter);
      if !ok || exist {
        return false;
      }
      ok := job.CleanupOldBuilds(jenkinsBuild, filter);
    }

    /** The run, given the filter. */
    method RunThrough(job: Job, filter: Filter, queueReady: bool)
      returns (result: Result, ghost tests: seq<TestRun>, ghost exs: seq<Executor?>, ghost logs: seq<string>,
               ghost tail: seq<string>)
      requires Wired() && psb.Valid() && Told()
      modifies job, psb, rcvq, this`slept, this`base, this`said, this`mark
      ensures psb.Valid() && Told() && RunSoFar(old(Sent()))
      ensures psb.redact ==> forall i :: |old(Sent())| <= i < |Sent()| && Sent()[i].body.Log? ==>
                IsClean(envVars.vars, Sent()[i].body.text)
      ensures envVars.vars == old(envVars.vars)
      ensures result.Value? || Sent() != old(Sent()) ==>
                && IsNewest(old(job.builds), filter, jenkinsBuild)
                && job.builds == AllCleanedUp(filter, job.answers, jenkinsBuild, old(job.builds))
      ensures !IsNewest(old(job.builds), filter, jenkinsBuild) ==>
                job.builds == old(job.builds)
      ensures StatusesAreOf(PlacesOf(sshNodes), tests, |old(Sent())|, Sent())
      ensures result.Value? ==> Conjunction(PlacesOf(sshNodes), tests, result)
      ensures Seen(Duty(), exs, tests) && AllDiffer(exs) && forall ex :: ex in exs && ex != null ==> fresh(ex)
      ensures Tally(Made()) == TallyOf(Duty(), old(Made()), tests)
      ensures result.Value? ==> RawAll(psb.record.done) == Transcript(settings, said)
      ensures rcvq != null ==> LogsOf(Sent()) == psb.start + Texts(psb.manner, psb.record.done)
      ensures result.Value? && rcvq != null && !psb.redact ==>
                Concat(LogsOf(Sent())[|psb.start|..]) == Transcript(settings, said)
      ensures result.Value? && rcvq != null ==>
                Sent() == old(Sent())
                          + RunInFull(jenkinsProject, jenkinsBuild, final, WorkerRun(logs, result.success), tail)
      ensures old(psb.counter) == 0 && result.Value? ==> TailIsExplained(result.success, tail)
      ensures result.Value? ==> psb.counter == 0
      ensures result.Error? ==>
                || job.failures > old(job.failures)
                || (exists b :: b in old(job.builds) && b > jenkinsBuild && Matches(filter, old(job.builds)[b]))
                || (rcvq != null && !queueReady)
                || (tests != [] && tests[|tests| - 1].result == Error)
                || (rcvq != null && rcvq.LastFailed())
      ensures job.builds.Keys == old(job.builds).Keys
      ensures forall b :: b in job.builds ==> job.builds[b].parameters == old(job.builds)[b].parameters
      ensures forall b :: b in job.builds && (b >= jenkinsBuild || !Matches(filter, old(job.builds)[b])) ==>
                job.builds[b] == old(job.builds)[b]
      ensures AtPlaces(sshNodes, tests, result)
    {
      ghost var before := Sent();
      var ok := Supersede(job, filter);
      if ok && rcvq != null {
        ok := queueReady;
      }
      result, tests, exs, logs, tail := Proceed(ok);
      SentIsClean(before);
      SentIsTold();
    }

    /** The whole run. Whatever fails, what goes over the queue keeps to the script, it is clean if it
        is to be redacted, and nothing does before the older builds have been cleaned up. */
    method Run(job: Job, cimsgEnv: string, parse: string -> BuildRequest, queueReady: bool)
      returns (result: Result, ghost tests: seq<TestRun>, ghost exs: seq<Executor?>, ghost logs: seq<string>,
               ghost tail: seq<string>)
      requires Wired() && psb.Valid() && Told()
      modifies job, psb, rcvq, this`slept, this`base, this`said, this`mark
      ensures psb.Valid() && Told() && RunSoFar(old(Sent()))
      ensures psb.redact ==> forall i :: |old(Sent())| <= i < |Sent()| && Sent()[i].body.Log? ==>
                IsClean(envVars.vars, Sent()[i].body.text)
      ensures envVars.vars == old(envVars.vars)
      ensures var filter := Filter(cimsgEnv, request, parse);
              result.Value? || Sent() != old(Sent()) ==>
                && IsNewest(old(job.builds), filter, jenkinsBuild)
                && job.builds == AllCleanedUp(filter, job.answers, jenkinsBuild, old(job.builds))
      ensures !IsNewest(old(job.builds), Filter(cimsgEnv, request, parse), jenkinsBuild) ==>
                job.builds == old(job.builds)
      ensures StatusesAreOf(PlacesOf(sshNodes), tests, |old(Sent())|, Sent())
      ensures result.Value? ==> Conjunction(PlacesOf(sshNodes), tests, result)
      ensures Seen(Duty(), exs, tests) && AllDiffer(exs) && forall ex :: ex in exs && ex != null ==> fresh(ex)
      ensures Tally(Made()) == TallyOf(Duty(), old(Made()), tests)
      ensures result.Value? ==> RawAll(psb.record.done) == Transcript(settings, said)
      ensures rcvq != null ==> LogsOf(Sent()) == psb.start + Texts(psb.manner, psb.record.done)
      ensures result.Value? && rcvq != null && !psb.redact ==>
                Concat(LogsOf(Sent())[|psb.start|..]) == Transcript(settings, said)
      ensures result.Value? && rcvq != null ==>
                Sent() == old(Sent())
                          + RunInFull(jenkinsProject, jenkinsBuild, final, WorkerRun(logs, result.success), tail)
      ensures old(psb.counter) == 0 && result.Value? ==> TailIsExplained(result.success, tail)
      ensures result.Value? ==> psb.counter == 0
      ensures var filter := Filter(cimsgEnv, request, parse);
              result.Error? ==>
                || job.failures > old(job.failures)
                || (exists b :: b in old(job.builds) && b > jenkinsBuild && Matches(filter, old(job.builds)[b]))
                || (rcvq != null && !queueReady)
                || (tests != [] && tests[|tests| - 1].result == Error)
                || (rcvq != null && rcvq.LastFailed())
      ensures job.builds.Keys == old(job.builds).Keys
      ensures forall b :: b in job.builds ==> job.builds[b].parameters == old(job.builds)[b].parameters
      ensures var filter := Filter(cimsgEnv, request, parse);
              forall b :: b in job.builds && (b >= jenkinsBuild || !Matches(filter, old(job.builds)[b])) ==>
                job.builds[b] == old(job.builds)[b]
      ensures sshNodes.Locally? ==>
                && |tests| <= 1 && (result.Value? ==> |tests| == 1)
                && forall i :: 0 <= i < |tests| ==> tests[i].place == Here
      ensures sshNodes.OverSSH? ==>
                && |tests| <= |sshNodes.nodes| && (result.Value? ==> |tests| == |sshNodes.nodes|)
                && forall i :: 0 <= i < |tests| ==> tests[i].place == OnNode(sshNodes.nodes[i])
      ensures result.Value? ==> (result.success <==> forall i :: 0 <= i < |tests| ==> tests[i].result == Value(true))
      ensures forall i :: |old(Sent())| <= i < |Sent()| && Sent()[i].body.Status? ==>
                && (sshNodes.OverSSH? ==> |tests| == |sshNodes.nodes|) && (sshNodes.Locally? ==> |tests| == 1)
                && (Sent()[i].body.success <==> forall k :: 0 <= k < |tests| ==> tests[k].result == Value(true))
      ensures |exs| == |tests| && forall i :: 0 <= i < |exs| ==>
                if exs[i] == null then tests[i].result == Error else exs[i].place == tests[i].place
      ensures forall i, j :: 0 <= i < |exs| && exs[i] != null && 0 <= j < |exs[i].trace| && exs[i].trace[j].Init? ==>
                exs[i].trace[j].order.env == envVars.vars && exs[i].trace[j].order.tags == tags
    {
      result, tests, exs, logs, tail := RunThrough(job, Filter(cimsgEnv, request, parse), queueReady);
      WhatWasSeen(Duty(), exs, tests);
      StatusesMeaning(sshNodes, tests, |old(Sent())|, Sent());
      if result.Value? {
        ConjunctionAtPlaces(sshNodes, tests, result);
      }
    }

    /** The run after the cleanup, unless that has failed. */
    method Proceed(cleaned: bool)
      returns (result: Result, ghost tests: seq<TestRun>, ghost exs: seq<Executor?>, ghost logs: seq<string>,
               ghost tail: seq<string>)
      requires Wired() && psb.Valid() && Told()
      modifies psb, rcvq, this`slept, this`base, this`said, this`mark
      ensures psb.Valid() && Told() && RunSoFar(old(Sent()))
      ensures !cleaned ==> result.Error? && Sent() == old(Sent())
      ensures StatusesAreOf(PlacesOf(sshNodes), tests, |old(Sent())|, Sent())
      ensures result.Value? ==> Conjunction(PlacesOf(sshNodes), tests, result)
      ensures Seen(Duty(), exs, tests) && AllDiffer(exs) && forall ex :: ex in exs && ex != null ==> fresh(ex)
      ensures Tally(Made()) == TallyOf(Duty(), old(Made()), tests)
      ensures result.Value? && rcvq != null ==> Complete(old(Sent()), WorkerRun(logs, result.success), tail)
      ensures old(psb.counter) == 0 && result.Value? ==> TailIsExplained(result.success, tail)
      ensures result.Value? ==> psb.counter == 0
      ensures AtPlaces(sshNodes, tests, result)
      ensures cleaned && result.Error? ==> EndsInError(tests) || PublishFailed()
    {
      ghost var before := Sent();
      result, tests, exs, logs, tail := Error, [], [], [], [];
      NoTests(Duty(), Made());
      assert before[|before|..] == [];
      if cleaned {
        var ok := Announce();
        if ok {
          result, tests, exs, logs, tail := RunAnnounced(before);
        }
      }
    }

    lemma SentIsClean(before: seq<Message>)
      requires Wired() && psb.Valid() && RunSoFar(before)
      ensures psb.redact ==> forall i :: |before| <= i < |Sent()| && Sent()[i].body.Log? ==>
                IsClean(envVars.vars, Sent()[i].body.text)
    {
      forall i | psb.redact && |before| <= i < |Sent()| && Sent()[i].body.Log?
        ensures IsClean(envVars.vars, Sent()[i].body.text)
      {
        AllowedIsClean(psb.manner, envVars.vars, Sent()[i].body.text);
      }
    }

    lemma SentIsTold()
      requires Wired() && psb.Valid() && Told()
      ensures psb.counter == 0 ==> RawAll(psb.record.done) == Transcript(settings, said)
      ensures rcvq != null ==> LogsOf(Sent()) == psb.start + Texts(psb.manner, psb.record.done)
      ensures psb.counter == 0 && rcvq != null && !psb.redact ==>
                Concat(LogsOf(Sent())[|psb.start|..]) == Transcript(settings, said)
    {
      AccountMeaning(psb.account, psb.manner, psb.start, psb.q != null, psb.record, psb.printed, psb.message,
                     psb.Sent());
      TellingMeaning(telling, settings, said);
      if psb.counter == 0 {
        SettledRecord(psb.record);
      }
      if !psb.redact {
        WithoutRedactionIsPlain(psb.manner, psb.vars);
        TextsAreRaw(psb.manner, psb.record.done);
        assert (psb.start + Texts(psb.manner, psb.record.done))[|psb.start|..] == Texts(psb.manner, psb.record.done);
      }
    }

    /** The run of this worker that began after `before` has opened, and then the logging began. */
    ghost predicate Begun(before: seq<Message>)
      reads this`base
    {
      && base == (if rcvq == null then before else before + [Says(Cancel), Says(Build)])
      && IsPartialRun(jenkinsProject, jenkinsBuild, psb.manner.allowed, before, base)
      && (rcvq != null ==> Track(base[|before|..]) == Next(Logging))
    }

    /** The whole of a run has been published since `before`. */
    ghost predicate Complete(before: seq<Message>, run: WorkerRun, tail: seq<string>)
      reads rcvq
    {
      Sent() == before + RunInFull(jenkinsProject, jenkinsBuild, final, run, tail)
    }

    /** Some log comes after the conclusion exactly if the last publish before it failed, and none does
        in a run that has succeeded. */
    ghost predicate TailIsExplained(success: bool, tail: seq<string>)
      reads rcvq
    {
      && |tail| <= 1
      && (tail != [] <==> rcvq != null && FailedBeforeStatus(final, rcvq.outcomes, tail))
      && (success ==> tail == [])
    }

    method RunAnnounced(ghost before: seq<Message>)
      returns (result: Result, ghost tests: seq<TestRun>, ghost exs: seq<Executor?>, ghost logs: seq<string>,
               ghost tail: seq<string>)
      requires Wired() && Valid() && base == Sent() && Begun(before)
      modifies psb, rcvq, this`slept, this`said, this`mark
      ensures psb.Valid() && Told() && RunSoFar(before)
      ensures StatusesAreOf(PlacesOf(sshNodes), tests, |before|, Sent())
      ensures result.Value? ==> Conjunction(PlacesOf(sshNodes), tests, result)
      ensures Seen(Duty(), exs, tests) && AllDiffer(exs) && forall ex :: ex in exs && ex != null ==> fresh(ex)
      ensures Tally(Made()) == TallyOf(Duty(), old(Made()), tests)
      ensures result.Value? && rcvq != null ==> Complete(before, WorkerRun(logs, result.success), tail)
      ensures old(psb.counter) == 0 && result.Value? ==> TailIsExplained(result.success, tail)
      ensures result.Value? ==> psb.counter == 0
      ensures AtPlaces(sshNodes, tests, result) && (result.Error? ==> EndsInError(tests) || PublishFailed())
    {
      var outcome;
      outcome, tests, exs := RunAll();
      ConjunctionAtPlaces(sshNodes, tests, outcome);
      result, logs, tail := Report(outcome, tests, before);
    }

    /** What follows the tests. */
    method Report(outcome: Result, ghost tests: seq<TestRun>, ghost before: seq<Message>)
      returns (result: Result, ghost logs: seq<string>, ghost tail: seq<string>)
      requires Wired() && Valid() && Begun(before) && Conjunction(PlacesOf(sshNodes), tests, outcome)
      modifies psb, rcvq
      ensures psb.Valid() && Told() && RunSoFar(before)
      ensures StatusesAreOf(PlacesOf(sshNodes), tests, |before|, Sent())
      ensures result.Value? ==> result == outcome && psb.counter == 0
      ensures result.Error? ==> outcome.Error? || PublishFailed()
      ensures result.Value? && rcvq != null ==> Complete(before, WorkerRun(logs, result.success), tail)
      ensures old(psb.Settled() && (outcome == Value(true) ==> psb.counter == 0)) && result.Value? ==>
                TailIsExplained(result.success, tail)
    {
      ghost var logged := Sent();
      result, logs, tail := outcome, TextsOf(logged[|base|..]), [];
      LogsAreRunning(before);
      LogsHaveNoStatus(jenkinsProject, jenkinsBuild, psb.manner.allowed, PlacesOf(sshNodes), tests, |before|, base,
                       logged);
      if outcome.Value? {
        var ok;
        ok, tail := Finish(outcome.success, before);
        StatusesAdded(jenkinsProject, jenkinsBuild, final, PlacesOf(sshNodes), tests, |before|, logged, Sent(),
                      outcome.success, tail);
        if ok && rcvq != null {
          RunIsInFull(jenkinsProject, jenkinsBuild, psb.manner.allowed, final, before, base, logged, outcome.success,
                      tail);
        }
        result := if ok then outcome else Error;
      }
    }

    lemma LogsAreRunning(before: seq<Message>)
      requires Streaming() && Begun(before)
      ensures RunSoFar(before) && (rcvq != null ==> StageSince(before) == Logging)
      ensures forall i :: |before| <= i < |base| ==> !base[i].body.Status?
    {
      if rcvq != null {
        LogsContinueRun(jenkinsProject, jenkinsBuild, psb.manner.allowed, before, base, Sent());
      }
    }

    /** Status, Final and the closing flush. */
    method ConcludeAndFlush(success: bool, ghost before: seq<Message>) returns (ok: bool, ghost tail: seq<string>)
      requires Wired() && psb.Valid() && RunSoFar(before) && (rcvq != null ==> StageSince(before) == Logging)
      modifies psb, rcvq
      ensures psb.Valid() && RunSoFar(before) && psb.printed == old(psb.printed) && (!ok ==> PublishFailed())
      ensures old(Sent()) <= Sent()
              <= old(Sent()) + Conclusion(jenkinsProject, jenkinsBuild, final, success)
                 + LogMessages(jenkinsProject, jenkinsBuild, tail)
      ensures ok && rcvq != null ==>
                Sent() == old(Sent()) + Conclusion(jenkinsProject, jenkinsBuild, final, success)
                          + LogMessages(jenkinsProject, jenkinsBuild, tail)
      ensures ok && rcvq != null ==>
                && rcvq.outcomes == old(rcvq.outcomes) + (if final then [true, true] else [true])
                                    + (if tail == [] then [] else [true])
                && |tail| == if old(psb.counter) == 0 then 0 else 1
      ensures |tail| <= 1 && (rcvq == null ==> tail == [])
      ensures ok ==> psb.counter == 0
    {
      tail := [];
      ok := Conclude(success, before);
      if ok {
        ok, tail := FlushRest(before);
      }
    }

    /** The end of a run. Something is left to publish after the conclusion exactly if the last attempt
        to publish failed. */
    method Finish(success: bool, ghost before: seq<Message>) returns (ok: bool, ghost tail: seq<string>)
      requires Wired() && psb.Valid() && RunSoFar(before) && (rcvq != null ==> StageSince(before) == Logging)
      modifies psb, rcvq
      ensures psb.Valid() && RunSoFar(before) && psb.printed == old(psb.printed) && (!ok ==> PublishFailed())
      ensures old(Sent()) <= Sent()
              <= old(Sent()) + Conclusion(jenkinsProject, jenkinsBuild, final, success)
                 + LogMessages(jenkinsProject, jenkinsBuild, tail)
      ensures ok && rcvq != null ==>
                Sent() == old(Sent()) + Conclusion(jenkinsProject, jenkinsBuild, final, success)
                          + LogMessages(jenkinsProject, jenkinsBuild, tail)
      ensures ok && old(psb.counter) == 0 ==> tail == []
      ensures ok && rcvq != null && old(psb.Settled() && psb.Owing()) ==>
                && (tail != [] <==> old(rcvq.LastFailed()))
                && (tail != [] <==> FailedBeforeStatus(final, rcvq.outcomes, tail))
      ensures |tail| <= 1 && (rcvq == null ==> tail == [])
      ensures ok ==> psb.counter == 0
    {
      ok, tail := ConcludeAndFlush(success, before);
      if ok && rcvq != null {
        FailureStaysBeforeStatus(final, old(rcvq.outcomes), rcvq.outcomes, tail);
      }
    }
  }

  lemma TearDownFollows(cfg: Config, status: bool, runCalls: seq<Call>, success: bool, calls: seq<Call>, result: Result)
    requires Follows(RunPlan(cfg, status), RanOf(runCalls), Value(success))
    requires Follows(TearDownPlan(success), RanOf(calls), result)
    ensures Follows(LastPlan(cfg, status), RanOf(runCalls + calls), result)
  {
    FollowsThen(RunPlan(cfg, status), AfterRun(), RanOf(runCalls), success, RanOf(calls), result);
    RanOfConcat(runCalls, calls);
  }
}
