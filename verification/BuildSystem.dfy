/** All Jenkins builds of one request, the receive queue they share and the requestor at its end,
    as a system of interleaved steps. The builds of the system are those whose CI message the
    filter matches; all of them belong to the Jenkins job `project`. */
module BuildSystem {
  import opened Messages
  import opened Protocol
  import opened Following

  /** Where the worker of a Jenkins build is. A build runs the worker one or more times; between
      two runs, and before the first, it is `Idle`. `Cleaning` holds the build numbers that the
      Jenkins listing returned and that are still to be looked at. */
  datatype Phase =
    | Idle
    | Checked
    | Cleaning(todo: seq<int>)
    | Publishing(stage: Stage)
    | Dead

  datatype State = State(builds: map<int, Phase>, queue: seq<Message>, delivered: nat, requestor: Follower)

  const INITIAL := State(map[], [], 0, NEW_FOLLOWER)

  datatype Step =
    | Spawn(n: int)
    | CheckNewer(n: int)
    | ListBuilds(n: int, listing: seq<int>)
    | CleanOne(n: int)
    | Publish(n: int, body: Body)
    | EndRun(n: int)
    | Die(n: int)
    | ForeignPublish(m: Message)
    | Deliver

  predicate NewerExists(s: State, n: int)
  {
    exists o :: o in s.builds && o > n
  }

  /** A step that can be taken in `s`. */
  predicate Enabled(project: string, s: State, step: Step)
  {
    match step
    case Spawn(n) => 0 <= n && forall o :: o in s.builds ==> o < n
    case CheckNewer(n) => n in s.builds && s.builds[n] == Idle
    case ListBuilds(n, listing) => n in s.builds && s.builds[n] == Checked && forall o :: o in s.builds ==> o in listing
    case CleanOne(n) => n in s.builds && s.builds[n].Cleaning?
    case Publish(n, body) => n in s.builds && s.builds[n].Publishing? && Advance(s.builds[n].stage, body).Next?
    case EndRun(n) => n in s.builds && s.builds[n] != Dead
    case Die(n) => n in s.builds
    case ForeignPublish(m) => m.project != project
    case Deliver => s.delivered < |s.queue| && s.requestor.verdict == Pending
  }

  /** The effect of an enabled step. `CheckNewer` refuses a run that has been overtaken; `CleanOne`
      stops the next listed build if it is older and still runs, and opens the run once the list
      is done; a stopped build is dead when the step ends. */
  function Apply(project: string, s: State, step: Step): State
    requires Enabled(project, s, step)
  {
    match step
    case Spawn(n) => s.(builds := s.builds[n := Idle])
    case CheckNewer(n) => s.(builds := s.builds[n := if NewerExists(s, n) then Idle else Checked])
    case ListBuilds(n, listing) => s.(builds := s.builds[n := Cleaning(listing)])
    case CleanOne(n) =>
      var todo := s.builds[n].todo;
      if todo == [] then
        s.(builds := s.builds[n := Publishing(Start)])
      else
        var looked := s.builds[n := Cleaning(todo[1..])];
        s.(builds := if todo[0] < n && todo[0] in s.builds then looked[todo[0] := Dead] else looked)
    case Publish(n, body) =>
      s.(builds := s.builds[n := Publishing(Advance(s.builds[n].stage, body).stage)],
         queue := s.queue + [Message(project, n, body)])
    case EndRun(n) => s.(builds := s.builds[n := Idle])
    case Die(n) => s.(builds := s.builds[n := Dead])
    case ForeignPublish(m) => s.(queue := s.queue + [m])
    case Deliver =>
      s.(delivered := s.delivered + 1, requestor := Receive(project, s.requestor, s.queue[s.delivered]))
  }

  ghost predicate Next(project: string, s: State, s': State)
  {
    exists step :: Enabled(project, s, step) && s' == Apply(project, s, step)
  }

  /** `run` is a finite run of the system, with any number of builds in any interleaving. */
  ghost predicate IsRun(project: string, run: seq<State>)
  {
    && run != [] && run[0] == INITIAL
    && forall i :: 0 <= i < |run| - 1 ==> Next(project, run[i], run[i + 1])
  }

  // ----- What every step keeps

  predicate AllOlderDead(s: State, n: int)
  {
    forall o :: o in s.builds && o < n ==> s.builds[o] == Dead
  }

  predicate AllOlderDeadOrListed(s: State, n: int, todo: seq<int>)
  {
    forall o :: o in s.builds && o < n ==> s.builds[o] == Dead || o in todo
  }

  ghost predicate CleanupInv(s: State)
  {
    && (forall n :: n in s.builds ==> 0 <= n)
    && (forall n :: n in s.builds && s.builds[n].Cleaning? ==> AllOlderDeadOrListed(s, n, s.builds[n].todo))
    && (forall n :: n in s.builds && s.builds[n].Publishing? ==> AllOlderDead(s, n))
  }

  ghost predicate FloorInv(s: State, floor: Floor)
  {
    && floor.Floor?
    && -1 <= floor.holder
    && (floor.stage == Start <==> floor.holder == -1)
    && (floor.holder != -1 ==> floor.holder in s.builds && AllOlderDead(s, floor.holder))
    && (forall n :: n in s.builds && s.builds[n].Publishing? && s.builds[n].stage != Start ==>
          n == floor.holder && s.builds[n].stage == floor.stage)
  }

  ghost predicate Inv(project: string, s: State)
  {
    && CleanupInv(s)
    && FloorInv(s, Listen(project, s.queue))
    && s.delivered <= |s.queue|
    && s.requestor == Consume(project, NEW_FOLLOWER, s.queue[..s.delivered])
    && (s.requestor.verdict != Pending ==>
          s.delivered > 0 && Consume(project, NEW_FOLLOWER, s.queue[..s.delivered - 1]).verdict == Pending)
  }

  /** Builds are never forgotten, the dead stay dead and new builds have the highest number. */
  lemma StepKeepsTheDead(project: string, s: State, step: Step, n: int)
    requires Enabled(project, s, step)
    requires n in s.builds
    ensures n in Apply(project, s, step).builds
    ensures AllOlderDead(s, n) ==> AllOlderDead(Apply(project, s, step), n)
  {
  }

  lemma StepKeepsCleanupInv(project: string, s: State, step: Step)
    requires CleanupInv(s) && Enabled(project, s, step)
    ensures CleanupInv(Apply(project, s, step))
  {
    var s' := Apply(project, s, step);
    forall n | n in s'.builds && s'.builds[n].Cleaning?
      ensures AllOlderDeadOrListed(s', n, s'.builds[n].todo)
    {
      if n in s.builds && s.builds[n].Cleaning? {
        assert AllOlderDeadOrListed(s, n, s.builds[n].todo);
      }
    }
    forall n | n in s'.builds && s'.builds[n].Publishing? ensures AllOlderDead(s', n) {
      if s.builds[n].Publishing? {
        assert AllOlderDead(s, n);
        StepKeepsTheDead(project, s, step, n);
      } else {
        assert AllOlderDeadOrListed(s, n, []);
      }
    }
  }

  lemma PublishKeepsFloorInv(project: string, s: State, n: int, body: Body, floor: Floor)
    requires CleanupInv(s) && FloorInv(s, floor) && Enabled(project, s, Publish(n, body))
    ensures FloorInv(Apply(project, s, Publish(n, body)), Hear(project, floor, Message(project, n, body)))
  {
    assert AllOlderDead(s, n);
    StepKeepsTheDead(project, s, Publish(n, body), n);
    if floor.holder != -1 {
      assert n >= floor.holder;
    }
  }

  lemma OtherStepsKeepFloorInv(project: string, s: State, step: Step, floor: Floor)
    requires FloorInv(s, floor) && Enabled(project, s, step) && !step.Publish?
    ensures FloorInv(Apply(project, s, step), floor)
  {
    if floor.holder != -1 {
      StepKeepsTheDead(project, s, step, floor.holder);
    }
  }

  lemma DeliverKeepsInv(project: string, s: State)
    requires Inv(project, s) && Enabled(project, s, Deliver)
    ensures Inv(project, Apply(project, s, Deliver))
  {
    var s' := Apply(project, s, Deliver);
    ConsumeOne(project, NEW_FOLLOWER, s.queue[..s.delivered], s.queue[s.delivered]);
    assert s.queue[..s.delivered] + [s.queue[s.delivered]] == s'.queue[..s'.delivered];
    StepKeepsCleanupInv(project, s, Deliver);
    OtherStepsKeepFloorInv(project, s, Deliver, Listen(project, s.queue));
  }

  lemma StepKeepsFloorInv(project: string, s: State, step: Step)
    requires CleanupInv(s) && FloorInv(s, Listen(project, s.queue)) && Enabled(project, s, step)
    ensures FloorInv(Apply(project, s, step), Listen(project, Apply(project, s, step).queue))
  {
    if step.Publish? {
      PublishKeepsFloorInv(project, s, step.n, step.body, Listen(project, s.queue));
      ListenOne(project, s.queue, Message(project, step.n, step.body));
    } else {
      OtherStepsKeepFloorInv(project, s, step, Listen(project, s.queue));
      if step.ForeignPublish? {
        ListenOne(project, s.queue, step.m);
      }
    }
  }

  lemma StepExtendsQueue(project: string, s: State, step: Step)
    requires Enabled(project, s, step)
    ensures var s' := Apply(project, s, step);
            && |s.queue| <= |s'.queue| && s'.queue[..|s.queue|] == s.queue
            && (!step.Deliver? ==> s'.delivered == s.delivered && s'.requestor == s.requestor)
  {
  }

  lemma StepKeepsInv(project: string, s: State, s': State)
    requires Inv(project, s) && Next(project, s, s')
    ensures Inv(project, s')
  {
    var step :| Enabled(project, s, step) && s' == Apply(project, s, step);
    if step.Deliver? {
      DeliverKeepsInv(project, s);
    } else {
      StepKeepsCleanupInv(project, s, step);
      StepKeepsFloorInv(project, s, step);
      StepExtendsQueue(project, s, step);
      assert s'.queue[..s.delivered] == s.queue[..s.delivered];
      if s.delivered > 0 {
        assert s'.queue[..s.delivered - 1] == s.queue[..s.delivered - 1];
      }
    }
  }

  lemma {:induction false} ReachableInv(project: string, run: seq<State>, i: nat)
    requires IsRun(project, run) && i < |run|
    ensures Inv(project, run[i])
  {
    if i > 0 {
      ReachableInv(project, run, i - 1);
      assert Next(project, run[i - 1], run[i - 1 + 1]);
      StepKeepsInv(project, run[i - 1], run[i]);
    }
  }

  // ----- Safety over whole runs

  /** In every run the queue is in order: nondecreasing in build number, every build to its script. */
  lemma QueueIsAlwaysOrderly(project: string, run: seq<State>, i: nat)
    requires IsRun(project, run) && i < |run|
    ensures Orderly(project, run[i].queue)
    ensures forall j, k :: 0 <= j < k < |run[i].queue|
              && run[i].queue[j].project == project && run[i].queue[k].project == project
              ==> run[i].queue[j].build <= run[i].queue[k].build
    ensures forall b :: TrackRuns(SentBy(project, b, run[i].queue)).Next?
  {
    ReachableInv(project, run, i);
    OrderlyIsNondecreasing(project, run[i].queue);
    forall b ensures TrackRuns(SentBy(project, b, run[i].queue)).Next? {
      OrderlyKeepsScripts(project, run[i].queue, b);
    }
  }

  /** Nothing of an older build of this request is in `ms`. */
  predicate NoneOlder(project: string, n: int, ms: seq<Message>)
  {
    forall m :: m in ms && m.project == project ==> n <= m.build
  }

  /** The queue has grown from `before` to `after` with nothing of an older build than `n`. */
  predicate OlderSilent(project: string, n: int, before: seq<Message>, after: seq<Message>)
  {
    |before| <= |after| && after[..|before|] == before && NoneOlder(project, n, after[|before|..])
  }

  lemma StepStaysSilent(project: string, s: State, s': State, n: int)
    requires Inv(project, s) && Next(project, s, s')
    requires n in s.builds && AllOlderDead(s, n)
    ensures n in s'.builds && AllOlderDead(s', n)
    ensures OlderSilent(project, n, s.queue, s'.queue)
  {
    var step :| Enabled(project, s, step) && s' == Apply(project, s, step);
    StepKeepsTheDead(project, s, step, n);
    StepExtendsQueue(project, s, step);
    if step.Publish? {
      assert s'.queue[|s.queue|..] == [Message(project, step.n, step.body)];
    } else if step.ForeignPublish? {
      assert s'.queue[|s.queue|..] == [step.m];
    }
  }

  lemma StaysSilent(project: string, n: int, a: seq<Message>, b: seq<Message>, c: seq<Message>)
    requires OlderSilent(project, n, a, b) && OlderSilent(project, n, b, c)
    ensures OlderSilent(project, n, a, c)
  {
    assert c[..|a|] == c[..|b|][..|a|];
    assert c[|a|..] == b[|a|..] + c[|b|..];
  }

  lemma NothingSaid(project: string, n: int, queue: seq<Message>)
    ensures OlderSilent(project, n, queue, queue)
  {
  }

  /** Once build `n` has finished its cleanup, no older build publishes again, ever. */
  lemma {:induction false} OlderBuildsStaySilent(project: string, run: seq<State>, n: int, i: nat, j: nat)
    requires IsRun(project, run) && i <= j < |run|
    requires n in run[i].builds && run[i].builds[n].Publishing?
    ensures n in run[j].builds && AllOlderDead(run[j], n)
    ensures OlderSilent(project, n, run[i].queue, run[j].queue)
  {
    if i == j {
      ReachableInv(project, run, i);
      NothingSaid(project, n, run[i].queue);
    } else {
      OlderBuildsStaySilent(project, run, n, i, j - 1);
      ReachableInv(project, run, j - 1);
      assert j == j - 1 + 1 && Next(project, run[j - 1], run[j - 1 + 1]);
      StepStaysSilent(project, run[j - 1], run[j], n);
      StaysSilent(project, n, run[i].queue, run[j - 1].queue, run[j].queue);
    }
  }

  predicate IsOvertaken(s: State, n: int)
  {
    n in s.builds && s.builds[n] in {Idle, Dead} && NewerExists(s, n)
  }

  lemma StaysOvertaken(project: string, s: State, step: Step, n: int)
    requires Enabled(project, s, step) && IsOvertaken(s, n)
    ensures IsOvertaken(Apply(project, s, step), n)
  {
    var o :| o in s.builds && o > n;
    assert o in Apply(project, s, step).builds;
  }

  /** A build that is overtaken while it is idle never begins, nor begins another run of its worker. */
  lemma {:induction false} OvertakenNeverBegins(project: string, run: seq<State>, n: int, i: nat, j: nat)
    requires IsRun(project, run) && i <= j < |run|
    requires n in run[i].builds && run[i].builds[n] == Idle && exists o :: o in run[i].builds && o > n
    ensures n in run[j].builds && run[j].builds[n] in {Idle, Dead}
    ensures exists o :: o in run[j].builds && o > n
  {
    if i < j {
      OvertakenNeverBegins(project, run, n, i, j - 1);
      assert j == j - 1 + 1 && Next(project, run[j - 1], run[j - 1 + 1]);
      var step :| Enabled(project, run[j - 1], step) && run[j] == Apply(project, run[j - 1], step);
      StaysOvertaken(project, run[j - 1], step, n);
    }
  }

  /** The state in which build `n`, which had only opened its run, has published `ms`. */
  function Published(s: State, n: int, ms: seq<Message>): State
    requires Track(ms).Next?
  {
    s.(builds := s.builds[n := Publishing(Track(ms).stage)], queue := s.queue + ms)
  }

  /** The system allows a build that has opened its run to publish whatever keeps to the script,
      message by message. */
  lemma {:induction false} ScriptCanBePublished(project: string, s: State, n: int, ms: seq<Message>)
    returns (run: seq<State>)
    requires n in s.builds && s.builds[n] == Publishing(Start) && Track(ms).Next?
    requires forall i :: 0 <= i < |ms| ==> ms[i].project == project && ms[i].build == n
    ensures |run| == |ms| + 1 && run[0] == s && run[|ms|] == Published(s, n, ms)
    ensures forall i :: 0 <= i < |ms| ==> Next(project, run[i], run[i + 1])
  {
    if ms == [] {
      assert s.builds[n := Publishing(Start)] == s.builds && s.queue + [] == s.queue;
      run := [s];
    } else {
      var front, m := ms[..|ms| - 1], ms[|ms| - 1];
      run := ScriptCanBePublished(project, s, n, front);
      PublishesNext(project, s, n, front, m);
      assert ms == front + [m];
      run := run + [Published(s, n, ms)];
    }
  }

  lemma PublishesNext(project: string, s: State, n: int, front: seq<Message>, m: Message)
    requires Track(front + [m]).Next? && m.project == project && m.build == n
    ensures Track(front).Next? && Next(project, Published(s, n, front), Published(s, n, front + [m]))
  {
    TrackOne(front, m);
    var before := Published(s, n, front);
    assert m == Message(project, n, m.body);
    assert s.queue + front + [m] == s.queue + (front + [m]);
    assert before.builds[n := Publishing(Track(front + [m]).stage)]
        == s.builds[n := Publishing(Track(front + [m]).stage)];
    assert Enabled(project, before, Publish(n, m.body));
    assert Apply(project, before, Publish(n, m.body)) == Published(s, n, front + [m]);
  }

  /** What the requestor has consumed when its verdict is out. */
  function Consumed(s: State): seq<Message>
    requires s.delivered <= |s.queue|
  {
    s.queue[..s.delivered]
  }

  /** End to end: whenever the requestor signals done, it does so on the Final of a build that
      has reported. The verdict is the conjunction of that build's statuses, whatever any
      superseded build has reported, and no newer build has spoken before it on the queue. */
  lemma VerdictIsThatOfTheNewestBuild(project: string, run: seq<State>, i: nat)
    requires IsRun(project, run) && i < |run|
    requires run[i].requestor.verdict != Pending
    ensures var s := run[i];
            && 0 < s.delivered <= |s.queue|
            && var m := s.queue[s.delivered - 1];
            && m == Message(project, m.build, Final)
            && (s.requestor.verdict == Passed <==> Message(project, m.build, Status(false)) !in Consumed(s))
            && HasReported(project, m.build, Consumed(s))
            && (forall o :: o in Consumed(s) && o.project == project ==> o.build <= m.build)
  {
    ReachableInv(project, run, i);
    var s := run[i];
    var front, m := s.queue[..s.delivered - 1], s.queue[s.delivered - 1];
    assert front + [m] == Consumed(s);
    OrderlyPrefix(project, s.queue, s.delivered);
    OrderlyVerdict(project, front, m);
    var r :| Message(project, m.build, Status(r)) in front;
    assert Message(project, m.build, Status(r)) in Consumed(s);
  }

  /** And it does so as soon as any build's Final is delivered. */
  lemma DoneIffFinalIsDelivered(project: string, run: seq<State>, i: nat)
    requires IsRun(project, run) && i < |run|
    ensures run[i].delivered <= |run[i].queue|
    ensures run[i].requestor.verdict != Pending <==> HasFinal(project, Consumed(run[i]))
  {
    ReachableInv(project, run, i);
    OrderlyPrefix(project, run[i].queue, run[i].delivered);
    VerdictIffFinal(project, Consumed(run[i]));
  }

  function Statuses(sent: seq<Message>): seq<bool>
  {
    if sent == [] then
      []
    else
      var front, m := Statuses(sent[..|sent| - 1]), sent[|sent| - 1];
      if m.body.Status? then front + [m.body.success] else front
  }

  /** A single run reports exactly once, unless it has not come that far. */
  lemma {:induction false} SingleRunReportsOnce(sent: seq<Message>)
    requires Track(sent).Next?
    ensures |Statuses(sent)| == if Track(sent).stage in {Start, Cancelled, Logging} then 0 else 1
  {
    if sent != [] {
      SingleRunReportsOnce(sent[..|sent| - 1]);
    }
  }

  lemma {:induction false} StatusesMembers(project: string, b: int, sent: seq<Message>, success: bool)
    requires forall i :: 0 <= i < |sent| ==> sent[i].project == project && sent[i].build == b
    ensures success in Statuses(sent) <==> Message(project, b, Status(success)) in sent
  {
    if sent != [] {
      var front, m := sent[..|sent| - 1], sent[|sent| - 1];
      assert sent == front + [m];
      StatusesMembers(project, b, front, success);
      assert m.body.Status? ==> m == Message(project, b, Status(m.body.success));
    }
  }

  /** If the build that brings the verdict has run its worker once, it has reported exactly once,
      and that is the verdict. */
  lemma SingleRunVerdictIsOwnStatus(project: string, run: seq<State>, i: nat)
    requires IsRun(project, run) && i < |run| && run[i].requestor.verdict != Pending
    requires 0 < run[i].delivered <= |run[i].queue|
    requires Track(SentBy(project, run[i].queue[run[i].delivered - 1].build, Consumed(run[i]))).Next?
    ensures var b := run[i].queue[run[i].delivered - 1].build;
            Statuses(SentBy(project, b, Consumed(run[i]))) == [run[i].requestor.verdict == Passed]
  {
    VerdictIsThatOfTheNewestBuild(project, run, i);
    var s := run[i];
    OnlyStatus(project, s.queue[s.delivered - 1].build, Consumed(s), s.requestor.verdict == Passed);
  }

  lemma OnlyStatus(project: string, b: int, history: seq<Message>, passed: bool)
    requires Track(SentBy(project, b, history)).Next? && HasReported(project, b, history)
    requires passed <==> Message(project, b, Status(false)) !in history
    ensures Statuses(SentBy(project, b, history)) == [passed]
  {
    SingleRunReportsOnce(SentBy(project, b, history));
    StatusesOfBuild(project, b, history, true);
    StatusesOfBuild(project, b, history, false);
    OnlyMember(Statuses(SentBy(project, b, history)), passed);
  }

  lemma StatusesOfBuild(project: string, b: int, history: seq<Message>, success: bool)
    ensures success in Statuses(SentBy(project, b, history)) <==> Message(project, b, Status(success)) in history
  {
    var sent := SentBy(project, b, history);
    SentByMembers(project, b, history);
    assert forall i :: 0 <= i < |sent| ==> sent[i] in sent;
    StatusesMembers(project, b, sent, success);
  }

  lemma OnlyMember(xs: seq<bool>, x: bool)
    requires |xs| <= 1 && (true in xs || false in xs) && (x <==> false !in xs)
    ensures xs == [x]
  {
  }
}
