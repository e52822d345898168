/** What the requestor makes of the receive queue: the fold of its delivery loop, and what that
    fold means for whole histories. */
module Following {
  import opened Messages
  import opened Protocol

  datatype Line = FollowingBuild(build: int) | NewerBuild(build: int) | Logs(text: string)

  datatype Verdict = Pending | Passed | Failed

  /** `build` is the followed build, -1 for none; `verdict` is what went into the done channel. */
  datatype Follower = Follower(build: int, success: bool, printed: seq<Line>, verdict: Verdict)

  const NEW_FOLLOWER := Follower(-1, true, [], Pending)

  /** One turn of the delivery loop. */
  function Receive(project: string, f: Follower, m: Message): Follower
  {
    if f.verdict != Pending || m.project != project then
      f
    else if m.build > f.build then
      match m.body
      case Build => f.(build := m.build, printed := f.printed + [FollowingBuild(m.build)])
      case Cancel => f.(build := -1, success := true, printed := f.printed + [NewerBuild(m.build)])
      case _ => f
    else if m.build == f.build then
      match m.body
      case Log(text) => f.(printed := f.printed + [Logs(text)])
      case Status(success) => if f.success then f.(success := success) else f
      case Final => f.(verdict := if f.success then Passed else Failed)
      case _ => f
    else
      f
  }

  function Consume(project: string, f: Follower, history: seq<Message>): Follower
  {
    if history == [] then
      f
    else
      Receive(project, Consume(project, f, history[..|history| - 1]), history[|history| - 1])
  }

  lemma ConsumeOne(project: string, f: Follower, history: seq<Message>, m: Message)
    ensures Consume(project, f, history + [m]) == Receive(project, Consume(project, f, history), m)
  {
    assert (history + [m])[..|history|] == history;
  }

  lemma {:induction false} ConsumeConcat(project: string, f: Follower, a: seq<Message>, b: seq<Message>)
    ensures Consume(project, f, a + b) == Consume(project, Consume(project, f, a), b)
  {
    if b == [] {
      assert a + b == a;
    } else {
      ConsumeConcat(project, f, a, b[..|b| - 1]);
      assert (a + b)[..|a + b| - 1] == a + b[..|b| - 1];
    }
  }

  /** The loop returns with the verdict: nothing after it is looked at. */
  lemma {:induction false} VerdictIsFinal(project: string, f: Follower, a: seq<Message>, b: seq<Message>)
    requires Consume(project, f, a).verdict != Pending
    ensures Consume(project, f, a + b) == Consume(project, f, a)
  {
    if b == [] {
      assert a + b == a;
    } else {
      VerdictIsFinal(project, f, a, b[..|b| - 1]);
      assert (a + b)[..|a + b| - 1] == a + b[..|b| - 1];
    }
  }

  // ----- Other projects do not matter

  /** Erasing the messages of every other project changes nothing the requestor does. */
  lemma {:induction false} ForeignMessagesAreIgnored(project: string, f: Follower, history: seq<Message>)
    ensures Consume(project, f, Own(project, history)) == Consume(project, f, history)
  {
    if history != [] {
      var front, m := history[..|history| - 1], history[|history| - 1];
      ForeignMessagesAreIgnored(project, f, front);
      ConsumeOne(project, f, Own(project, front), m);
    }
  }

  // ----- The two variables, defined over the whole history

  function Max(a: int, b: int): int
  {
    if a < b then b else a
  }

  /** The largest build announced in `history`, -1 if none. */
  function NewestAnnounced(project: string, history: seq<Message>): (b: int)
    ensures b >= -1
  {
    if history == [] then
      -1
    else
      var front, m := history[..|history| - 1], history[|history| - 1];
      var b := NewestAnnounced(project, front);
      if m.project == project && m.body.Build? then Max(b, m.build) else b
  }

  lemma {:induction false} NewestAnnouncedIsMaximum(project: string, history: seq<Message>)
    ensures var b := NewestAnnounced(project, history);
            && (forall m :: m in history && m.project == project && m.body.Build? ==> m.build <= b)
            && (b > -1 ==> Message(project, b, Build) in history)
  {
    if history != [] {
      var front, m := history[..|history| - 1], history[|history| - 1];
      assert history == front + [m];
      NewestAnnouncedIsMaximum(project, front);
    }
  }

  /** The last Cancel with a number above every build announced since the Cancel before it
      starts a new epoch; `Epoch` is the part of the history after it. */
  function Epoch(project: string, history: seq<Message>): (epoch: seq<Message>)
    ensures |epoch| <= |history|
  {
    if history == [] then
      []
    else
      NextEpoch(project, Epoch(project, history[..|history| - 1]), history[|history| - 1])
  }

  function NextEpoch(project: string, epoch: seq<Message>, m: Message): seq<Message>
  {
    if m.project == project && m.body.Cancel? && m.build > NewestAnnounced(project, epoch) then [] else epoch + [m]
  }

  lemma {:induction false} EpochIsSuffix(project: string, history: seq<Message>)
    ensures Epoch(project, history) == history[|history| - |Epoch(project, history)|..]
  {
    if history != [] {
      EpochIsSuffix(project, history[..|history| - 1]);
    }
  }

  /** In `epoch`, message `i` is a status of the build that is newest at that point. */
  predicate Counts(project: string, epoch: seq<Message>, i: nat)
    requires i < |epoch|
  {
    epoch[i].project == project && epoch[i].body.Status? && epoch[i].build == NewestAnnounced(project, epoch[..i])
  }

  ghost predicate AllCountedPassed(project: string, epoch: seq<Message>)
  {
    forall i :: 0 <= i < |epoch| && Counts(project, epoch, i) ==> epoch[i].body.success
  }

  /** The state that `epoch` alone determines. */
  ghost predicate FollowsEpoch(project: string, f: Follower, epoch: seq<Message>)
  {
    f.build == NewestAnnounced(project, epoch) && (f.success <==> AllCountedPassed(project, epoch))
  }

  lemma EpochStep(project: string, f: Follower, epoch: seq<Message>, m: Message)
    requires FollowsEpoch(project, f, epoch)
    requires f.verdict == Receive(project, f, m).verdict == Pending
    ensures FollowsEpoch(project, Receive(project, f, m), NextEpoch(project, epoch, m))
  {
    if m.project == project && m.body.Cancel? && m.build > f.build {
      NewEpoch(project);
    } else {
      EpochGrows(project, epoch, m);
      StepWithinEpoch(project, f, NewestAnnounced(project, epoch), AllCountedPassed(project, epoch), m);
    }
  }

  lemma NewEpoch(project: string)
    ensures NewestAnnounced(project, []) == -1 && AllCountedPassed(project, [])
  {
  }

  /** Any message but a Cancel that starts a new epoch, given what is known of the current one. */
  lemma StepWithinEpoch(project: string, f: Follower, newest: int, passed: bool, m: Message)
    requires f.build == newest && f.success == passed && newest >= -1
    requires f.verdict == Receive(project, f, m).verdict == Pending
    requires !(m.project == project && m.body.Cancel? && m.build > newest)
    ensures var f' := Receive(project, f, m);
            && f'.build == (if m.project == project && m.body.Build? then Max(newest, m.build) else newest)
            && f'.success
               == (passed && (m.project == project && m.body.Status? && m.build == newest ==> m.body.success))
  {
  }

  /** While no verdict is out, the followed build is the newest one announced in the current
      epoch and `success` is the conjunction of the statuses that counted in it. */
  lemma {:induction false} FollowerIsDefinedByHistory(project: string, history: seq<Message>)
    requires Consume(project, NEW_FOLLOWER, history).verdict == Pending
    ensures FollowsEpoch(project, Consume(project, NEW_FOLLOWER, history), Epoch(project, history))
  {
    if history != [] {
      var front, m := history[..|history| - 1], history[|history| - 1];
      FollowerIsDefinedByHistory(project, front);
      EpochStep(project, Consume(project, NEW_FOLLOWER, front), Epoch(project, front), m);
    }
  }

  lemma EpochGrows(project: string, epoch: seq<Message>, m: Message)
    ensures var newest := NewestAnnounced(project, epoch);
            && NewestAnnounced(project, epoch + [m])
               == (if m.project == project && m.body.Build? then Max(newest, m.build) else newest)
            && (AllCountedPassed(project, epoch + [m]) <==>
                && AllCountedPassed(project, epoch)
                && (m.project == project && m.body.Status? && m.build == newest ==> m.body.success))
  {
    var epoch' := epoch + [m];
    assert epoch'[..|epoch|] == epoch;
    assert forall i :: 0 <= i < |epoch| ==> epoch'[..i] == epoch[..i];
    assert forall i :: 0 <= i < |epoch| ==>
             Counts(project, epoch', i) == Counts(project, epoch, i) && epoch'[i] == epoch[i];
    assert Counts(project, epoch', |epoch|) <==>
           m.project == project && m.body.Status? && m.build == NewestAnnounced(project, epoch);
  }

  /** The verdict, defined over the history up to the Final that brings it. */
  lemma VerdictIsDefinedByHistory(project: string, front: seq<Message>, m: Message)
    requires Consume(project, NEW_FOLLOWER, front).verdict == Pending
    ensures var epoch, verdict := Epoch(project, front), Consume(project, NEW_FOLLOWER, front + [m]).verdict;
            && (verdict != Pending <==>
                m.project == project && m.body.Final? && m.build == NewestAnnounced(project, epoch))
            && (verdict == Passed ==> AllCountedPassed(project, epoch))
            && (verdict == Failed ==> !AllCountedPassed(project, epoch))
  {
    FollowerIsDefinedByHistory(project, front);
    ConsumeOne(project, NEW_FOLLOWER, front, m);
    VerdictStep(project, Consume(project, NEW_FOLLOWER, front), Epoch(project, front), m);
  }

  lemma VerdictStep(project: string, f: Follower, epoch: seq<Message>, m: Message)
    requires f.verdict == Pending && FollowsEpoch(project, f, epoch)
    ensures var verdict := Receive(project, f, m).verdict;
            && (verdict != Pending <==>
                m.project == project && m.body.Final? && m.build == NewestAnnounced(project, epoch))
            && (verdict == Passed ==> AllCountedPassed(project, epoch))
            && (verdict == Failed ==> !AllCountedPassed(project, epoch))
  {
  }

  // ----- Queues that are in order

  /** The requestor follows exactly the build that holds the floor, and remembers exactly
      whether that build has reported a failure. */
  ghost predicate FollowsFloor(project: string, history: seq<Message>, f: Follower, floor: Floor)
    requires floor.Floor?
  {
    && f.build == (if Message(project, floor.holder, Build) in history then floor.holder else -1)
    && (f.success <==> Message(project, floor.holder, Status(false)) !in history)
    && (Message(project, floor.holder, Status(false)) in history ==> f.build == floor.holder)
    && (floor.stage !in {Start, Cancelled} ==> f.build == floor.holder >= 0)
    && (floor.stage in {Reported, Finished} ==> HasReported(project, floor.holder, history))
  }

  ghost predicate HasReported(project: string, b: int, history: seq<Message>)
  {
    exists s :: Message(project, b, Status(s)) in history
  }

  lemma FloorStep(project: string, front: seq<Message>, f: Follower, floor: Floor, m: Message)
    requires floor.Floor? && Hear(project, floor, m).Floor?
    requires -1 <= floor.holder && (floor.holder == -1 ==> floor.stage == Start)
    requires forall o :: o in front && o.project == project ==> 0 <= o.build <= floor.holder
    requires FollowsFloor(project, front, f, floor)
    requires f.verdict == Receive(project, f, m).verdict == Pending
    ensures FollowsFloor(project, front + [m], Receive(project, f, m), Hear(project, floor, m))
  {
    var history := front + [m];
    assert forall o :: o in history <==> o in front || o == m;
    if m.project == project {
      if m.build != floor.holder {
        assert forall body :: Message(project, m.build, body) !in front;
      }
      if m.body.Status? {
        assert Message(project, m.build, Status(m.body.success)) in history;
        assert HasReported(project, m.build, history);
      }
    } else if HasReported(project, floor.holder, front) {
      var s :| Message(project, floor.holder, Status(s)) in front;
      assert Message(project, floor.holder, Status(s)) in history;
    }
  }

  lemma {:induction false} OrderlyFollower(project: string, history: seq<Message>)
    requires Orderly(project, history)
    requires Consume(project, NEW_FOLLOWER, history).verdict == Pending
    ensures FollowsFloor(project, history, Consume(project, NEW_FOLLOWER, history), Listen(project, history))
  {
    if history != [] {
      var front, m := history[..|history| - 1], history[|history| - 1];
      assert history == front + [m];
      OrderlyFollower(project, front);
      OrderlyIsNondecreasing(project, front);
      HolderHasSpoken(project, front);
      FloorStep(project, front, Consume(project, NEW_FOLLOWER, front), Listen(project, front), m);
    }
  }

  /** On an orderly queue a Final always brings the verdict, and nothing else does. It is the Final
      of a build that has reported, the verdict is the conjunction of all that build's statuses and
      of no other's, and no newer build has spoken. */
  lemma OrderlyVerdict(project: string, front: seq<Message>, m: Message)
    requires Orderly(project, front + [m])
    requires Consume(project, NEW_FOLLOWER, front).verdict == Pending
    ensures var verdict := Consume(project, NEW_FOLLOWER, front + [m]).verdict;
            && (verdict != Pending <==> m == Message(project, m.build, Final))
            && (verdict != Pending ==>
                  && (verdict == Passed <==> Message(project, m.build, Status(false)) !in front)
                  && HasReported(project, m.build, front)
                  && forall o :: o in front && o.project == project ==> o.build <= m.build)
  {
    assert (front + [m])[..|front|] == front;
    OrderlyPrefix(project, front + [m], |front|);
    OrderlyFollower(project, front);
    OrderlyIsNondecreasing(project, front);
    HolderHasSpoken(project, front);
    ConsumeOne(project, NEW_FOLLOWER, front, m);
    ListenOne(project, front, m);
    FloorVerdict(project, front, Consume(project, NEW_FOLLOWER, front), Listen(project, front), m);
  }

  lemma FloorVerdict(project: string, front: seq<Message>, f: Follower, floor: Floor, m: Message)
    requires floor.Floor? && Hear(project, floor, m).Floor?
    requires floor == SILENCE || (floor.holder >= 0 && floor.stage != Start)
    requires FollowsFloor(project, front, f, floor)
    requires f.verdict == Pending
    ensures var verdict := Receive(project, f, m).verdict;
            && (verdict != Pending <==> m == Message(project, m.build, Final))
            && (verdict != Pending ==>
                  && m.build == floor.holder && HasReported(project, m.build, front)
                  && (verdict == Passed <==> Message(project, m.build, Status(false)) !in front))
  {
  }

  ghost predicate HasFinal(project: string, history: seq<Message>)
  {
    exists m :: m in history && m.project == project && m.body.Final?
  }

  /** So on an orderly queue the verdict is out exactly if some Final has been delivered. */
  lemma {:induction false} VerdictIffFinal(project: string, history: seq<Message>)
    requires Orderly(project, history)
    ensures Consume(project, NEW_FOLLOWER, history).verdict != Pending <==> HasFinal(project, history)
  {
    if history != [] {
      var front, m := history[..|history| - 1], history[|history| - 1];
      assert history == front + [m];
      OrderlyPrefix(project, history, |front|);
      VerdictIffFinal(project, front);
      assert m in history && forall o :: o in front ==> o in history;
      if Consume(project, NEW_FOLLOWER, front).verdict == Pending {
        OrderlyVerdict(project, front, m);
      } else {
        VerdictIsFinal(project, NEW_FOLLOWER, front, [m]);
      }
    }
  }

  // ----- Queues in any order

  /** Every build of `project` numbers itself from 0 and runs its worker once. */
  ghost predicate SingleRuns(project: string, history: seq<Message>)
  {
    && (forall m :: m in history && m.project == project ==> 0 <= m.build)
    && (forall b :: Track(SentBy(project, b, history)).Next?)
  }

  lemma SingleRunsPrefix(project: string, front: seq<Message>, m: Message)
    requires SingleRuns(project, front + [m])
    ensures SingleRuns(project, front)
  {
    forall b ensures Track(SentBy(project, b, front)).Next? {
      var sent := SentBy(project, b, front);
      SentByOne(project, b, front, m);
      assert (sent + [m])[..|sent|] == sent;
      assert Track(SentBy(project, b, front + [m])).Next?;
    }
  }

  lemma {:induction false} StatusComesAfterBuild(sent: seq<Message>)
    requires Track(sent).Next?
    ensures Track(sent).stage in {Start, Cancelled, Logging} ==> forall m :: m in sent ==> !m.body.Status?
    ensures Track(sent).stage in {Reported, Finished} ==> exists m :: m in sent && m.body.Status?
  {
    if sent != [] {
      var front, last := sent[..|sent| - 1], sent[|sent| - 1];
      StatusComesAfterBuild(front);
      assert forall m :: m in sent <==> m in front || m == last;
    }
  }

  /** Whatever the interleaving, a requestor that still believes in success has seen no failure
      of the build it follows: following a build is continuous from its Build message on. */
  lemma {:induction false} FollowedFailureIsSeen(project: string, history: seq<Message>)
    requires SingleRuns(project, history)
    requires Consume(project, NEW_FOLLOWER, history).verdict == Pending
    ensures var f := Consume(project, NEW_FOLLOWER, history);
            && f.build >= -1
            && (f.success && f.build >= 0 ==> Message(project, f.build, Status(false)) !in history)
  {
    if history != [] {
      var front, m := history[..|history| - 1], history[|history| - 1];
      assert history == front + [m];
      SingleRunsPrefix(project, front, m);
      FollowedFailureIsSeen(project, front);
      if m.project == project && m.body.Build? {
        assert Track(SentBy(project, m.build, history)).Next?;
        NoStatusBeforeBuild(project, front, m);
        assert Message(project, m.build, Status(false)) !in front;
      }
      assert 0 <= m.build || m.project != project;
      FailureStep(project, Consume(project, NEW_FOLLOWER, front), front, m);
    }
  }

  lemma {:induction false} NoStatusBeforeBuild(project: string, front: seq<Message>, m: Message)
    requires m.project == project && m.body.Build?
    requires Track(SentBy(project, m.build, front + [m])).Next?
    ensures !HasReported(project, m.build, front)
  {
    var sent := SentBy(project, m.build, front);
    SentByOne(project, m.build, front, m);
    assert (sent + [m])[..|sent|] == sent;
    StatusComesAfterBuild(sent);
    SentByMembers(project, m.build, front);
    assert forall s :: Message(project, m.build, Status(s)) !in sent;
  }

  lemma FailureStep(project: string, f: Follower, front: seq<Message>, m: Message)
    requires f.build >= -1 && (m.project == project ==> 0 <= m.build)
    requires f.success && f.build >= 0 ==> Message(project, f.build, Status(false)) !in front
    requires m.project == project && m.body.Build? ==> Message(project, m.build, Status(false)) !in front
    ensures var f' := Receive(project, f, m);
            && f'.build >= -1
            && (f'.success && f'.build >= 0 && f'.verdict == Pending ==>
                 Message(project, f'.build, Status(false)) !in front + [m])
  {
    if f.verdict == Pending {
      assert Receive(project, f, m).success ==> m != Message(project, f.build, Status(false)) || f.build == -1;
    }
  }

  /** From message `n` on, which is the Build of build `b`, the requestor has followed `b`. */
  ghost predicate FollowedSince(project: string, history: seq<Message>, b: int, n: nat)
  {
    && n < |history| && history[n] == Message(project, b, Build)
    && forall k :: n < k <= |history| ==> Consume(project, NEW_FOLLOWER, history[..k]).build == b
  }

  lemma {:induction false} FollowingIsContinuous(project: string, history: seq<Message>) returns (n: nat)
    requires Consume(project, NEW_FOLLOWER, history).build >= 0
    ensures FollowedSince(project, history, Consume(project, NEW_FOLLOWER, history).build, n)
  {
    var front, m := history[..|history| - 1], history[|history| - 1];
    var b := Consume(project, NEW_FOLLOWER, history).build;
    n := |front|;
    assert history[..|history|] == history;
    if Consume(project, NEW_FOLLOWER, front).build == b {
      n := FollowingIsContinuous(project, front);
      forall k | n < k <= |history| ensures Consume(project, NEW_FOLLOWER, history[..k]).build == b {
        assert k < |history| ==> history[..k] == front[..k];
      }
    }
  }

  /** A status that the followed build has sent has counted, if builds run once. */
  ghost predicate StatusCounts(project: string, b: int, epoch: seq<Message>)
  {
    exists i :: 0 <= i < |epoch| && Counts(project, epoch, i) && epoch[i].build == b
  }

  lemma {:induction false} FollowedStatusCounts(project: string, history: seq<Message>)
    requires SingleRuns(project, history) && Consume(project, NEW_FOLLOWER, history).verdict == Pending
    requires var b := Consume(project, NEW_FOLLOWER, history).build; b >= 0 && HasReported(project, b, history)
    ensures StatusCounts(project, Consume(project, NEW_FOLLOWER, history).build, Epoch(project, history))
  {
    var front, m := history[..|history| - 1], history[|history| - 1];
    var b := Consume(project, NEW_FOLLOWER, history).build;
    assert history == front + [m];
    SingleRunsPrefix(project, front, m);
    FollowerIsDefinedByHistory(project, front);
    if m.project == project && m.body.Status? && m.build == b {
      NewStatusCounts(project, Epoch(project, front), m);
    } else {
      assert HasReported(project, b, front);
      if Consume(project, NEW_FOLLOWER, front).build != b {
        assert Track(SentBy(project, b, history)).Next?;
        NoStatusBeforeBuild(project, front, m);
      }
      FollowedStatusCounts(project, front);
      StatusCountsOn(project, b, Epoch(project, front), m);
    }
  }

  lemma NewStatusCounts(project: string, epoch: seq<Message>, m: Message)
    requires m.project == project && m.body.Status? && m.build == NewestAnnounced(project, epoch)
    ensures StatusCounts(project, m.build, epoch + [m])
  {
    assert (epoch + [m])[..|epoch|] == epoch;
    assert Counts(project, epoch + [m], |epoch|);
  }

  lemma StatusCountsOn(project: string, b: int, epoch: seq<Message>, m: Message)
    requires StatusCounts(project, b, epoch)
    ensures StatusCounts(project, b, epoch + [m])
  {
    var i :| 0 <= i < |epoch| && Counts(project, epoch, i) && epoch[i].build == b;
    assert (epoch + [m])[..i] == epoch[..i];
    assert Counts(project, epoch + [m], i);
  }

  /** Success is never over-reported, even if no old build is ever stopped: a passing verdict on
      Final of build b means that the requestor has followed b from its Build on, and that a status
      of b has counted, which was a success as is all that b has reported. */
  lemma SuccessIsNeverOverReported(project: string, front: seq<Message>, m: Message) returns (n: nat)
    requires SingleRuns(project, front + [m])
    requires Consume(project, NEW_FOLLOWER, front).verdict == Pending
    requires Consume(project, NEW_FOLLOWER, front + [m]).verdict == Passed
    ensures m == Message(project, m.build, Final)
    ensures FollowedSince(project, front, m.build, n)
    ensures var epoch := Epoch(project, front);
            exists i :: 0 <= i < |epoch| && Counts(project, epoch, i)
                        && epoch[i] == Message(project, m.build, Status(true))
    ensures Message(project, m.build, Status(false)) !in front
  {
    SingleRunsPrefix(project, front, m);
    FollowedFailureIsSeen(project, front);
    VerdictIsDefinedByHistory(project, front, m);
    ConsumeOne(project, NEW_FOLLOWER, front, m);
    assert m in front + [m];
    n := FollowingIsContinuous(project, front);
    FinalComesAfterStatus(project, front, m);
    FollowedStatusCounts(project, front);
    CountedStatusPassed(project, m.build, Epoch(project, front));
  }

  lemma CountedStatusPassed(project: string, b: int, epoch: seq<Message>)
    requires StatusCounts(project, b, epoch) && AllCountedPassed(project, epoch)
    ensures exists i :: 0 <= i < |epoch| && Counts(project, epoch, i) && epoch[i] == Message(project, b, Status(true))
  {
    var i :| 0 <= i < |epoch| && Counts(project, epoch, i) && epoch[i].build == b;
    assert epoch[i] == Message(project, b, Status(true));
  }

  lemma FinalComesAfterStatus(project: string, front: seq<Message>, m: Message)
    requires m.project == project && m.body.Final?
    requires Track(SentBy(project, m.build, front + [m])).Next?
    ensures HasReported(project, m.build, front)
  {
    var sent := SentBy(project, m.build, front);
    SentByOne(project, m.build, front, m);
    assert (sent + [m])[..|sent|] == sent;
    StatusComesAfterBuild(sent);
    SentByMembers(project, m.build, front);
    var r :| r in sent && r.body.Status?;
    assert r == Message(project, m.build, Status(r.body.success));
  }

  lemma ConsumeNext(project: string, f: Follower, history: seq<Message>, n: nat)
    requires n < |history|
    ensures Consume(project, f, history[..n + 1]) == Receive(project, Consume(project, f, history[..n]), history[n])
  {
    assert history[..n + 1][..n] == history[..n];
  }

  /** Where the run of a build stands after every message of a queue, as a function. */
  type Tracker = seq<Message> -> Progress

  ghost predicate Tracks(tracker: Tracker, project: string, b: int, history: seq<Message>)
  {
    && tracker([]) == Next(Start)
    && forall n :: 0 <= n < |history| ==>
         tracker(history[..n + 1]) == TrackStep(project, b, tracker(history[..n]), history[n])
  }

  /** What a message makes of the run of build `b`. */
  function TrackStep(project: string, b: int, progress: Progress, m: Message): Progress
  {
    if m.project == project && m.build == b && progress.Next? then Advance(progress.stage, m.body) else progress
  }

  lemma NewTracker(project: string, b: int, history: seq<Message>) returns (tracker: Tracker)
    ensures Tracks(tracker, project, b, history) && tracker(history) == Track(SentBy(project, b, history))
  {
    tracker := (h: seq<Message>) => Track(SentBy(project, b, h));
    forall front, m ensures tracker(front + [m]) == TrackStep(project, b, tracker(front), m) {
      TrackSentByOne(project, b, front, m);
    }
    PrefixesAreTracked(tracker, project, b, history);
  }

  lemma PrefixesAreTracked(tracker: Tracker, project: string, b: int, history: seq<Message>)
    requires tracker([]) == Next(Start)
    requires forall front, m :: tracker(front + [m]) == TrackStep(project, b, tracker(front), m)
    ensures Tracks(tracker, project, b, history)
  {
    forall n | 0 <= n < |history|
      ensures tracker(history[..n + 1]) == TrackStep(project, b, tracker(history[..n]), history[n])
    {
      assert history[..n + 1] == history[..n] + [history[n]];
    }
  }

  lemma TrackSentByOne(project: string, b: int, front: seq<Message>, m: Message)
    ensures Track(SentBy(project, b, front + [m])) == TrackStep(project, b, Track(SentBy(project, b, front)), m)
  {
    SentByOne(project, b, front, m);
    if m.project == project && m.build == b {
      TrackOne(SentBy(project, b, front), m);
    }
  }

  /** Two builds that were both let run: the older one reports a failure after the newer one's
      Cancel, the newer one reports success. */
  function Crosstalk(project: string): seq<Message>
  {
    [Message(project, 1, Cancel), Message(project, 2, Cancel), Message(project, 1, Build),
     Message(project, 1, Status(false)), Message(project, 2, Build),
     Message(project, 2, Status(true)), Message(project, 2, Final)]
  }

  lemma CrossingIsFollowed(project: string)
    ensures Consume(project, NEW_FOLLOWER, Crosstalk(project)[..3]).(printed := []) == Follower(1, true, [], Pending)
  {
    var h := Crosstalk(project);
    ConsumeNext(project, NEW_FOLLOWER, h, 0);
    ConsumeNext(project, NEW_FOLLOWER, h, 1);
    ConsumeNext(project, NEW_FOLLOWER, h, 2);
    assert h[..0] == [];
  }

  lemma CrosstalkIsFollowed(project: string)
    ensures Consume(project, NEW_FOLLOWER, Crosstalk(project)[..5]).(printed := []) == Follower(2, false, [], Pending)
  {
    var h := Crosstalk(project);
    CrossingIsFollowed(project);
    ConsumeNext(project, NEW_FOLLOWER, h, 3);
    ConsumeNext(project, NEW_FOLLOWER, h, 4);
  }

  /** Failure, in contrast, can be over-reported when old builds are not stopped: here build 2
      reports success only and the verdict on its Final is a failure. */
  lemma FailureCanBeOverReported(project: string)
    ensures Consume(project, NEW_FOLLOWER, Crosstalk(project)).verdict == Failed
    ensures Message(project, 2, Status(false)) !in Crosstalk(project)
  {
    var h := Crosstalk(project);
    CrosstalkIsFollowed(project);
    ConsumeNext(project, NEW_FOLLOWER, h, 5);
    ConsumeNext(project, NEW_FOLLOWER, h, 6);
    assert h[..7] == h;
  }

  /** Both builds keep to their scripts: nothing but the missing stop is needed for this. */
  lemma CrosstalkIsMadeOfSingleRuns(project: string)
    ensures SingleRuns(project, Crosstalk(project))
  {
    forall b ensures Track(SentBy(project, b, Crosstalk(project))).Next? {
      var tracker := NewTracker(project, b, Crosstalk(project));
      CrosstalkIsTracked(project, b, tracker);
    }
  }

  lemma CrosstalkIsTracked(project: string, b: int, tracker: Tracker)
    requires Tracks(tracker, project, b, Crosstalk(project))
    ensures tracker(Crosstalk(project)).Next?
  {
    var h := Crosstalk(project);
    assert h[..0] == [] && h[..7] == h;
    assert tracker(h[..3])
        == TrackStep(project, b, TrackStep(project, b, TrackStep(project, b, Next(Start), h[0]), h[1]), h[2]);
    assert tracker(h[..5]) == TrackStep(project, b, TrackStep(project, b, tracker(h[..3]), h[3]), h[4]);
    assert tracker(h[..7]) == TrackStep(project, b, TrackStep(project, b, tracker(h[..5]), h[5]), h[6]);
  }

  /** All the statuses of builds other than `b` that count in `epoch` are successes. */
  ghost predicate OthersPassed(project: string, b: int, epoch: seq<Message>)
  {
    forall i :: 0 <= i < |epoch| && Counts(project, epoch, i) && epoch[i].build != b ==> epoch[i].body.success
  }

  /** Whatever the interleaving of single runs, a verdict tells the truth about the build whose
      Final brings it exactly if that build has failed, or no other build's failure has counted
      since the last accepted Cancel. */
  lemma VerdictIsRightIff(project: string, front: seq<Message>, m: Message)
    requires SingleRuns(project, front + [m])
    requires Consume(project, NEW_FOLLOWER, front).verdict == Pending
    requires Consume(project, NEW_FOLLOWER, front + [m]).verdict != Pending
    ensures var failed := Message(project, m.build, Status(false)) in front;
            (Consume(project, NEW_FOLLOWER, front + [m]).verdict == Failed <==> failed)
            <==> failed || OthersPassed(project, m.build, Epoch(project, front))
  {
    VerdictIsDefinedByHistory(project, front, m);
    if Consume(project, NEW_FOLLOWER, front + [m]).verdict == Passed {
      var n := SuccessIsNeverOverReported(project, front, m);
    } else if Message(project, m.build, Status(false)) !in front {
      OwnStatusesPassed(project, front, m.build);
    }
  }

  lemma OwnStatusesPassed(project: string, front: seq<Message>, b: int)
    requires Message(project, b, Status(false)) !in front
    ensures OthersPassed(project, b, Epoch(project, front)) ==> AllCountedPassed(project, Epoch(project, front))
  {
    EpochIsSuffix(project, front);
    var epoch := Epoch(project, front);
    forall i | 0 <= i < |epoch| && Counts(project, epoch, i) && epoch[i].build == b ensures epoch[i].body.success {
      assert epoch[i] == front[|front| - |epoch| + i];
      assert epoch[i] == Message(project, b, Status(epoch[i].body.success));
    }
  }

  /** The crosstalk is not in order, so stopping old builds rules it out. */
  lemma CrosstalkIsNotOrderly(project: string)
    ensures !Orderly(project, Crosstalk(project))
  {
    var h := Crosstalk(project);
    assert h[1].project == h[2].project == project && h[1].build > h[2].build;
    if Orderly(project, h) {
      OrderlyIsNondecreasing(project, h);
    }
  }

  // ----- A worker without a build number

  /** A worker that finds no BUILD_NUMBER runs as build -1. Here it reports a failure, a numbered
      build announces itself with its Cancel, and the unnumbered one finishes. */
  function Unnumbered(project: string): seq<Message>
  {
    [Message(project, -1, Cancel), Message(project, -1, Build), Message(project, -1, Status(false)),
     Message(project, 5, Cancel), Message(project, -1, Final)]
  }

  /** Success is over-reported here although both builds keep to their scripts: numbers from 0 are
      needed for `SuccessIsNeverOverReported`. */
  lemma UnnumberedFailureCanPass(project: string)
    ensures forall b :: Track(SentBy(project, b, Unnumbered(project))).Next?
    ensures Message(project, -1, Status(false)) in Unnumbered(project)
    ensures Consume(project, NEW_FOLLOWER, Unnumbered(project)).verdict == Passed
  {
    forall b ensures Track(SentBy(project, b, Unnumbered(project))).Next? {
      var tracker := NewTracker(project, b, Unnumbered(project));
      UnnumberedIsTracked(project, b, tracker);
    }
    assert Unnumbered(project)[2] in Unnumbered(project);
    UnnumberedIsConsumed(project);
  }

  lemma UnnumberedIsTracked(project: string, b: int, tracker: Tracker)
    requires Tracks(tracker, project, b, Unnumbered(project))
    ensures tracker(Unnumbered(project)).Next?
  {
    var h := Unnumbered(project);
    assert h[..0] == [] && h[..5] == h;
    assert tracker(h[..3])
        == TrackStep(project, b, TrackStep(project, b, TrackStep(project, b, Next(Start), h[0]), h[1]), h[2]);
    assert tracker(h[..5]) == TrackStep(project, b, TrackStep(project, b, tracker(h[..3]), h[3]), h[4]);
  }

  lemma UnnumberedIsConsumed(project: string)
    ensures Consume(project, NEW_FOLLOWER, Unnumbered(project)).verdict == Passed
  {
    var h := Unnumbered(project);
    ConsumeNext(project, NEW_FOLLOWER, h, 0);
    ConsumeNext(project, NEW_FOLLOWER, h, 1);
    ConsumeNext(project, NEW_FOLLOWER, h, 2);
    ConsumeNext(project, NEW_FOLLOWER, h, 3);
    ConsumeNext(project, NEW_FOLLOWER, h, 4);
    assert h[..0] == [] && h[..5] == h;
  }

  /** The Final of build -1 brings a verdict exactly if no numbered build has been announced since
      the last accepted Cancel; it passes exactly if, also since then, -1 has reported no failure.
      So it is right about -1 exactly if -1 has not failed, or has failed since then. */
  lemma UnnumberedVerdict(project: string, front: seq<Message>)
    requires Consume(project, NEW_FOLLOWER, front).verdict == Pending
    ensures var verdict := Consume(project, NEW_FOLLOWER, front + [Message(project, -1, Final)]).verdict;
            var epoch, failure := Epoch(project, front), Message(project, -1, Status(false));
            && (verdict != Pending <==>
                forall i :: 0 <= i < |epoch| && epoch[i].project == project && epoch[i].body.Build? ==>
                  epoch[i].build <= -1)
            && (verdict == Passed ==> failure !in epoch)
            && (verdict == Failed ==> failure in epoch)
            && (verdict != Pending ==>
                  ((verdict == Failed <==> failure in front) <==> (failure in front ==> failure in epoch)))
  {
    var epoch := Epoch(project, front);
    VerdictIsDefinedByHistory(project, front, Message(project, -1, Final));
    UnnumberedIsNewest(project, epoch);
    if NewestAnnounced(project, epoch) == -1 {
      UnnumberedCounts(project, epoch);
    }
    EpochIsSuffix(project, front);
    assert forall i :: 0 <= i < |epoch| ==> epoch[i] == front[|front| - |epoch| + i];
  }

  lemma UnnumberedIsNewest(project: string, epoch: seq<Message>)
    ensures NewestAnnounced(project, epoch) == -1 <==>
            forall i :: 0 <= i < |epoch| && epoch[i].project == project && epoch[i].body.Build? ==> epoch[i].build <= -1
  {
    NewestAnnouncedIsMaximum(project, epoch);
    if NewestAnnounced(project, epoch) > -1 {
      var i :| 0 <= i < |epoch| && epoch[i] == Message(project, NewestAnnounced(project, epoch), Build);
      assert epoch[i].build > -1;
    }
  }

  /** While no numbered build has been announced, exactly the statuses of -1 count. */
  lemma UnnumberedCounts(project: string, epoch: seq<Message>)
    requires NewestAnnounced(project, epoch) == -1
    ensures AllCountedPassed(project, epoch) <==> Message(project, -1, Status(false)) !in epoch
  {
    forall i | 0 <= i < |epoch|
      ensures Counts(project, epoch, i)
          <==> epoch[i].project == project && epoch[i].body.Status? && epoch[i].build == -1
    {
      NewestAnnouncedGrows(project, epoch, i);
    }
    if Message(project, -1, Status(false)) in epoch {
      var i :| 0 <= i < |epoch| && epoch[i] == Message(project, -1, Status(false));
      assert Counts(project, epoch, i);
    } else {
      forall i | 0 <= i < |epoch| && Counts(project, epoch, i) ensures epoch[i].body.success {
        assert epoch[i] == Message(project, -1, Status(epoch[i].body.success));
      }
    }
  }

  lemma {:induction false} NewestAnnouncedGrows(project: string, epoch: seq<Message>, n: nat)
    requires n <= |epoch|
    ensures NewestAnnounced(project, epoch[..n]) <= NewestAnnounced(project, epoch)
  {
    if n < |epoch| {
      NewestAnnouncedGrows(project, epoch[..|epoch| - 1], n);
      assert epoch[..|epoch| - 1][..n] == epoch[..n];
    } else {
      assert epoch[..n] == epoch;
    }
  }

  // ----- Catching up with a newer build

  function LogMessages(project: string, b: int, logs: seq<string>): (ms: seq<Message>)
    ensures |ms| == |logs|
  {
    seq(|logs|, i requires 0 <= i < |logs| => Message(project, b, Log(logs[i])))
  }

  function LogLines(logs: seq<string>): (lines: seq<Line>)
    ensures |lines| == |logs|
  {
    seq(|logs|, i requires 0 <= i < |logs| => Logs(logs[i]))
  }

  datatype WorkerRun = WorkerRun(logs: seq<string>, status: bool)

  /** What one complete worker run of build `b` publishes, apart from Final. */
  function RunMessages(project: string, b: int, run: WorkerRun): seq<Message>
  {
    [Message(project, b, Cancel), Message(project, b, Build)]
    + LogMessages(project, b, run.logs)
    + [Message(project, b, Status(run.status))]
  }

  lemma {:induction false} FollowedLogsArePrinted(project: string, f: Follower, logs: seq<string>)
    requires f.verdict == Pending
    ensures Consume(project, f, LogMessages(project, f.build, logs)) == f.(printed := f.printed + LogLines(logs))
  {
    if logs == [] {
      assert f.printed + LogLines(logs) == f.printed;
    } else {
      var front := logs[..|logs| - 1];
      FollowedLogsArePrinted(project, f, front);
      assert LogMessages(project, f.build, logs)[..|front|] == LogMessages(project, f.build, front);
      assert f.printed + LogLines(logs) == f.printed + LogLines(front) + [Logs(logs[|front|])];
    }
  }

  /** A run of a newer build resets the requestor; a further run of the followed build does not. */
  lemma RunIsFollowed(project: string, f: Follower, b: int, run: WorkerRun)
    requires f.verdict == Pending && 0 <= b && f.build <= b
    ensures var f' := Consume(project, f, RunMessages(project, b, run));
            && f'.build == b && f'.verdict == Pending
            && f'.success == ((f.build == b ==> f.success) && run.status)
            && f'.printed
               == f.printed + (if f.build == b then [] else [NewerBuild(b), FollowingBuild(b)]) + LogLines(run.logs)
  {
    var open := [Message(project, b, Cancel), Message(project, b, Build)];
    var f1 := Consume(project, f, open);
    ConsumeOne(project, f, [], open[0]);
    ConsumeOne(project, f, [open[0]], open[1]);
    assert [] + [open[0]] == [open[0]] && [open[0]] + [open[1]] == open;
    var logs := LogMessages(project, b, run.logs);
    FollowedLogsArePrinted(project, f1, run.logs);
    ConsumeConcat(project, f, open, logs);
    ConsumeOne(project, f, open + logs, Message(project, b, Status(run.status)));
    if f.build < b {
      assert f1.printed == f.printed + [NewerBuild(b), FollowingBuild(b)];
    } else {
      assert f.printed + [] == f.printed;
    }
  }

  /** `m` can neither move nor finish a requestor that waits for, or follows, a build above it. */
  predicate StaleOrForeign(project: string, b: int, m: Message)
  {
    m.project == project ==> 0 <= m.build < b && (m.body.Log? || m.body.Status? || m.body.Final?)
  }

  lemma StaleOrOwn(project: string, f: Follower, b: int, m: Message)
    requires 0 <= b && f.build in {-1, b}
    requires StaleOrForeign(project, b, m) || (m.project == project && m.build == b)
    ensures Receive(project, f, m).build in {-1, b}
    ensures !(m.project == project && m.build == b) ==> Receive(project, f, m) == f
  {
  }

  lemma StaleStep(project: string, f: Follower, b: int, front: seq<Message>, m: Message)
    requires 0 <= b && Consume(project, f, front).build in {-1, b}
    requires Consume(project, f, SentBy(project, b, front)) == Consume(project, f, front)
    requires StaleOrForeign(project, b, m) || (m.project == project && m.build == b)
    ensures Consume(project, f, SentBy(project, b, front + [m])) == Consume(project, f, front + [m])
    ensures Consume(project, f, front + [m]).build in {-1, b}
  {
    StaleOrOwn(project, Consume(project, f, front), b, m);
    ConsumeOne(project, f, front, m);
    SentByOne(project, b, front, m);
    if m.project == project && m.build == b {
      ConsumeOne(project, f, SentBy(project, b, front), m);
    }
  }

  lemma CancelComesFirst(project: string, f: Follower, b: int)
    requires f.verdict == Pending && f.build < b
    ensures var first := [Message(project, b, Cancel)];
            SentBy(project, b, first) == first && Consume(project, f, first).build == -1
  {
    var m := Message(project, b, Cancel);
    SentByOne(project, b, [], m);
    ConsumeOne(project, f, [], m);
    assert [] + [m] == [m];
  }

  /** After the Cancel of build `b`, stale and foreign messages may be erased. */
  lemma {:induction false} StaleMessagesAreIgnored(project: string, f: Follower, b: int, history: seq<Message>)
    requires f.verdict == Pending && f.build < b && 0 <= b
    requires history != [] && history[0] == Message(project, b, Cancel)
    requires forall i :: 0 <= i < |history| ==>
               StaleOrForeign(project, b, history[i]) || (history[i].project == project && history[i].build == b)
    ensures Consume(project, f, SentBy(project, b, history)) == Consume(project, f, history)
    ensures Consume(project, f, history).build in {-1, b}
  {
    var front := history[..|history| - 1];
    if front == [] {
      CancelComesFirst(project, f, b);
      assert history == [Message(project, b, Cancel)];
    } else {
      StaleMessagesAreIgnored(project, f, b, front);
      StaleStep(project, f, b, front, history[|history| - 1]);
      assert history == front + [history[|history| - 1]];
    }
  }

  /** From any unfinished state that follows an older build, the complete stream of build `b`
      ends with b's status and shows b's logs in order, whatever stale or foreign messages lie
      between its parts. */
  lemma {:induction false} NewerBuildTakesOver(project: string, f: Follower, b: int, run: WorkerRun,
                                               history: seq<Message>)
    requires f.verdict == Pending && f.build < b && 0 <= b
    requires history != [] && history[0] == Message(project, b, Cancel)
    requires forall i :: 0 <= i < |history| ==>
               StaleOrForeign(project, b, history[i]) || (history[i].project == project && history[i].build == b)
    requires SentBy(project, b, history) == RunMessages(project, b, run) + [Message(project, b, Final)]
    ensures var f' := Consume(project, f, history);
            && f'.verdict == (if run.status then Passed else Failed)
            && f'.printed == f.printed + [NewerBuild(b), FollowingBuild(b)] + LogLines(run.logs)
  {
    StaleMessagesAreIgnored(project, f, b, history);
    RunIsFollowed(project, f, b, run);
    ConsumeOne(project, f, RunMessages(project, b, run), Message(project, b, Final));
  }

  // ----- Several worker runs in one build

  function PipelineMessages(project: string, b: int, runs: seq<WorkerRun>): seq<Message>
  {
    if runs == [] then
      []
    else
      PipelineMessages(project, b, runs[..|runs| - 1]) + RunMessages(project, b, runs[|runs| - 1])
  }

  function PipelineLogs(runs: seq<WorkerRun>): seq<string>
  {
    if runs == [] then [] else PipelineLogs(runs[..|runs| - 1]) + runs[|runs| - 1].logs
  }

  lemma FurtherRunIsFollowed(project: string, f: Follower, history: seq<Message>, b: int, run: WorkerRun)
    requires Consume(project, f, history).verdict == Pending && Consume(project, f, history).build == b >= 0
    ensures var f1, f' := Consume(project, f, history), Consume(project, f, history + RunMessages(project, b, run));
            f' == Follower(b, f1.success && run.status, f1.printed + LogLines(run.logs), Pending)
  {
    ConsumeConcat(project, f, history, RunMessages(project, b, run));
    RunIsFollowed(project, Consume(project, f, history), b, run);
    assert Consume(project, f, history).printed + [] == Consume(project, f, history).printed;
  }

  lemma PrintedConcat(printed: seq<Line>, a: seq<string>, b: seq<string>)
    ensures printed + LogLines(a) + LogLines(b) == printed + LogLines(a + b)
  {
    assert LogLines(a) + LogLines(b) == LogLines(a + b);
  }

  function AllSucceeded(runs: seq<WorkerRun>): (all: bool)
    ensures all <==> forall i :: 0 <= i < |runs| ==> runs[i].status
  {
    runs == [] || (AllSucceeded(runs[..|runs| - 1]) && runs[|runs| - 1].status)
  }

  lemma PipelineOfOne(project: string, b: int, run: WorkerRun)
    ensures PipelineMessages(project, b, [run]) == RunMessages(project, b, run)
    ensures PipelineLogs([run]) == run.logs && AllSucceeded([run]) == run.status
  {
  }

  lemma {:induction false} PipelineIsFollowed(project: string, f: Follower, b: int, runs: seq<WorkerRun>)
    requires f.verdict == Pending && f.build < b && 0 <= b && runs != []
    ensures var f' := Consume(project, f, PipelineMessages(project, b, runs));
            && f'.build == b && f'.verdict == Pending
            && f'.success == AllSucceeded(runs)
            && f'.printed == f.printed + [NewerBuild(b), FollowingBuild(b)] + LogLines(PipelineLogs(runs))
  {
    var front, run := runs[..|runs| - 1], runs[|runs| - 1];
    if front == [] {
      PipelineOfOne(project, b, run);
      RunIsFollowed(project, f, b, run);
      assert runs == [run];
    } else {
      PipelineIsFollowed(project, f, b, front);
      FurtherRunIsFollowed(project, f, PipelineMessages(project, b, front), b, run);
      PrintedConcat(f.printed + [NewerBuild(b), FollowingBuild(b)], PipelineLogs(front), run.logs);
    }
  }

  /** With `final` set on the last of any number of worker runs only, the verdict is the
      conjunction of all their statuses and all their logs are shown. */
  lemma {:induction false} PipelineVerdict(project: string, f: Follower, b: int, runs: seq<WorkerRun>)
    requires f.verdict == Pending && f.build < b && 0 <= b && runs != []
    ensures var f' := Consume(project, f, PipelineMessages(project, b, runs) + [Message(project, b, Final)]);
            && (f'.verdict == Passed <==> forall i :: 0 <= i < |runs| ==> runs[i].status)
            && (f'.verdict == Failed <==> exists i :: 0 <= i < |runs| && !runs[i].status)
            && f'.printed == f.printed + [NewerBuild(b), FollowingBuild(b)] + LogLines(PipelineLogs(runs))
  {
    PipelineIsFollowed(project, f, b, runs);
    ConsumeOne(project, f, PipelineMessages(project, b, runs), Message(project, b, Final));
  }

  /** The same from any unfinished state that follows an older build, whatever stale or foreign
      messages lie between the runs and their parts. */
  lemma PipelineTakesOver(project: string, f: Follower, b: int, runs: seq<WorkerRun>, history: seq<Message>)
    requires f.verdict == Pending && f.build < b && 0 <= b && runs != []
    requires history != [] && history[0] == Message(project, b, Cancel)
    requires forall i :: 0 <= i < |history| ==>
               StaleOrForeign(project, b, history[i]) || (history[i].project == project && history[i].build == b)
    requires SentBy(project, b, history) == PipelineMessages(project, b, runs) + [Message(project, b, Final)]
    ensures var f' := Consume(project, f, history);
            && (f'.verdict == Passed <==> forall i :: 0 <= i < |runs| ==> runs[i].status)
            && (f'.verdict == Failed <==> exists i :: 0 <= i < |runs| && !runs[i].status)
            && f'.printed == f.printed + [NewerBuild(b), FollowingBuild(b)] + LogLines(PipelineLogs(runs))
  {
    StaleMessagesAreIgnored(project, f, b, history);
    PipelineVerdict(project, f, b, runs);
  }
}
