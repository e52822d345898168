/** What one run of a worker puts on the receive queue. */
module Runs {
  import opened Messages
  import opened Protocol
  import opened Following
  import opened Sequences
  import PrintStream

  /** `after` is `before` and some logs of build `build`, all of them allowed. */
  predicate OnlyLogsAdded(project: string, build: int, allowed: string -> bool, before: seq<Message>,
                          after: seq<Message>)
    decreases |after|
  {
    after == before ||
    (|after| > |before|
     && var last := after[|after| - 1];
     && last.project == project && last.build == build && last.body.Log? && allowed(last.body.text)
     && OnlyLogsAdded(project, build, allowed, before, after[..|after| - 1]))
  }

  lemma OneLogAdded(project: string, build: int, allowed: string -> bool, before: seq<Message>, after: seq<Message>,
                    text: string)
    requires |before| <= |after| && OnlyLogsAdded(project, build, allowed, before, after) && allowed(text)
    ensures OnlyLogsAdded(project, build, allowed, before, after + [Message(project, build, Log(text))])
  {
    assert (after + [Message(project, build, Log(text))])[..|after|] == after;
  }

  lemma {:induction false} LogsAddedMeaning(project: string, build: int, allowed: string -> bool, before: seq<Message>,
                                            after: seq<Message>)
    requires OnlyLogsAdded(project, build, allowed, before, after)
    ensures before <= after
    ensures forall i :: |before| <= i < |after| ==>
              after[i].project == project && after[i].build == build && after[i].body.Log?
              && allowed(after[i].body.text)
  {
    if after != before {
      LogsAddedMeaning(project, build, allowed, before, after[..|after| - 1]);
    }
  }

  /** What concludes a run. */
  function Conclusion(project: string, build: int, final: bool, success: bool): seq<Message>
  {
    [Message(project, build, Status(success))] + if final then [Message(project, build, Final)] else []
  }

  lemma ConclusionSteps(project: string, build: int, final: bool, success: bool, sent: seq<Message>,
                        outcomes: seq<bool>)
    ensures var all := sent + Conclusion(project, build, final, success);
            var reported := sent + [Message(project, build, Status(success))];
            sent <= reported <= all && all == if final then reported + [Message(project, build, Final)] else reported
    ensures outcomes + [true] + [true] == outcomes + [true, true]
  {
  }

  /** All that a worker publishes in a run that comes to an end, with the logs that a failed
      publish may have left for after the conclusion. */
  function RunInFull(project: string, build: int, final: bool, run: WorkerRun, tail: seq<string>): seq<Message>
  {
    RunMessages(project, build, run) + (if final then [Message(project, build, Final)] else [])
      + LogMessages(project, build, tail)
  }

  /** All that `after` has beyond `before` was sent by build `build`, follows its script, and its
      logs are allowed. */
  predicate IsPartialRun(project: string, build: int, allowed: string -> bool, before: seq<Message>,
                         after: seq<Message>)
  {
    && before <= after
    && (forall i :: |before| <= i < |after| ==>
          after[i].project == project && after[i].build == build
          && (after[i].body.Log? ==> allowed(after[i].body.text)))
    && Track(after[|before|..]).Next?
  }

  lemma PartialRunOne(project: string, build: int, allowed: string -> bool, before: seq<Message>, after: seq<Message>,
                      body: Body)
    requires IsPartialRun(project, build, allowed, before, after)
    requires Advance(Track(after[|before|..]).stage, body).Next? && (body.Log? ==> allowed(body.text))
    ensures IsPartialRun(project, build, allowed, before, after + [Message(project, build, body)])
    ensures Track((after + [Message(project, build, body)])[|before|..])
         == Advance(Track(after[|before|..]).stage, body)
  {
    var m := Message(project, build, body);
    RestWithOneMore(before, after, m);
    TrackOne(after[|before|..], m);
  }

  lemma RestWithOneMore<T>(before: seq<T>, after: seq<T>, x: T)
    requires |before| <= |after|
    ensures (after + [x])[|before|..] == after[|before|..] + [x]
  {
  }

  /** Logs keep a run in the stage of logging. */
  lemma {:induction false} LogsContinueRun(project: string, build: int, allowed: string -> bool,
                                           before: seq<Message>, base: seq<Message>, after: seq<Message>)
    requires IsPartialRun(project, build, allowed, before, base) && Track(base[|before|..]) == Next(Logging)
    requires |base| <= |after| && OnlyLogsAdded(project, build, allowed, base, after)
    ensures IsPartialRun(project, build, allowed, before, after) && Track(after[|before|..]) == Next(Logging)
    decreases |after|
  {
    if after != base {
      var front, last := after[..|after| - 1], after[|after| - 1];
      LogsContinueRun(project, build, allowed, before, base, front);
      PartialRunOne(project, build, allowed, before, front, last.body);
      assert after == front + [last];
    }
  }

  function TextsOf(logs: seq<Message>): (texts: seq<string>)
    ensures |texts| == |logs|
  {
    seq(|logs|, i requires 0 <= i < |logs| => if logs[i].body.Log? then logs[i].body.text else "")
  }

  lemma LogsAreLogMessages(project: string, build: int, allowed: string -> bool, before: seq<Message>,
                           after: seq<Message>)
    requires OnlyLogsAdded(project, build, allowed, before, after)
    ensures |before| <= |after| && after == before + LogMessages(project, build, TextsOf(after[|before|..]))
  {
    LogsAddedMeaning(project, build, allowed, before, after);
  }

  lemma LogMessagesOfOne(project: string, build: int, sent: seq<Message>, text: string)
    ensures sent + LogMessages(project, build, []) == sent
    ensures sent + LogMessages(project, build, [text]) == sent + [Message(project, build, Log(text))]
  {
  }

  /** Of the attempts to publish, the last before those of Status, Final and the closing logs failed. */
  predicate FailedBeforeStatus(final: bool, outcomes: seq<bool>, tail: seq<string>)
  {
    var n := |outcomes| - |tail| - (if final then 2 else 1) - 1;
    n >= 0 && !outcomes[n]
  }

  lemma FailureStaysBeforeStatus(final: bool, outcomes: seq<bool>, concluded: seq<bool>, tail: seq<string>)
    requires |tail| <= 1
    requires concluded == outcomes + (if final then [true, true] else [true]) + if tail == [] then [] else [true]
    ensures FailedBeforeStatus(final, concluded, tail) <==> outcomes != [] && !outcomes[|outcomes| - 1]
  {
  }

  /** The buffer of a run without tests' output but `data`: its flush fails, Status and Final are sent,
      and the closing flush succeeds. */
  function LateBuffer(project: string, build: int, size: int, data: string): PrintStream.Buffer
  {
    var target := PrintStream.ToQueue(project, build);
    var opening := [Message(project, build, Cancel), Message(project, build, Build)];
    var logged := PrintStream.Perform(PrintStream.Buffer("", 0, opening), target, size,
                                      [PrintStream.Print(data, true, false)]);
    var concluded := logged.(sent := logged.sent + Conclusion(project, build, true, false));
    PrintStream.Perform(concluded, target, size, [PrintStream.Flush(true)])
  }

  /** Then the log comes after the Final, in keeping with the script. */
  lemma LogCanComeAfterFinal(project: string, build: int, size: int, data: string)
    ensures LateBuffer(project, build, size, data)
         == PrintStream.Buffer("", 0, RunInFull(project, build, true, WorkerRun([], false), [data]))
    ensures Track(RunInFull(project, build, true, WorkerRun([], false), [data])) == Next(Ended)
    ensures FailedBeforeStatus(true, [true, true, false, true, true, true], [data])
  {
    var target := PrintStream.ToQueue(project, build);
    var opening := [Message(project, build, Cancel), Message(project, build, Build)];
    var late, conclusion := Message(project, build, Log(data)), Conclusion(project, build, true, false);
    PerformOne(PrintStream.Buffer("", 0, opening), target, size, PrintStream.Print(data, true, false));
    PerformOne(PrintStream.Buffer(data, 1, opening + conclusion), target, size, PrintStream.Flush(true));
    assert "" + data == data;
    assert RunInFull(project, build, true, WorkerRun([], false), [data]) == opening + conclusion + [late];
    TrackOne([], opening[0]);
    TrackOne([opening[0]], opening[1]);
    TrackOne(opening, conclusion[0]);
    TrackOne(opening + [conclusion[0]], conclusion[1]);
    TrackOne(opening + conclusion, late);
    assert [] + [opening[0]] == [opening[0]] && [opening[0]] + [opening[1]] == opening;
    assert opening + [conclusion[0]] + [conclusion[1]] == opening + conclusion;
  }

  lemma PerformOne(b: PrintStream.Buffer, target: PrintStream.Target, size: int, op: PrintStream.Op)
    ensures PrintStream.Perform(b, target, size, [op]) == PrintStream.Apply(b, target, size, op)
  {
    assert [op][..0] == [];
  }

  lemma RunIsInFull(project: string, build: int, allowed: string -> bool, final: bool, before: seq<Message>,
                    base: seq<Message>, logged: seq<Message>, success: bool, tail: seq<string>)
    requires base == before + [Message(project, build, Cancel), Message(project, build, Build)]
    requires |base| <= |logged| && OnlyLogsAdded(project, build, allowed, base, logged)
    ensures logged + Conclusion(project, build, final, success) + LogMessages(project, build, tail)
         == before + RunInFull(project, build, final, WorkerRun(TextsOf(logged[|base|..]), success), tail)
  {
    LogsAreLogMessages(project, build, allowed, base, logged);
    var logs := LogMessages(project, build, TextsOf(logged[|base|..]));
    var status := [Message(project, build, Status(success))];
    var last := if final then [Message(project, build, Final)] else [];
    RegroupRun(before, [Message(project, build, Cancel), Message(project, build, Build)], logs, status, last,
            LogMessages(project, build, tail));
  }

  lemma RegroupRun<T>(a: seq<T>, b: seq<T>, c: seq<T>, d: seq<T>, e: seq<T>, f: seq<T>)
    ensures a + b + c + (d + e) + f == a + (b + c + d + e + f)
  {
    ConcatIsAssociative(a, b, c);
    ConcatIsAssociative(a + b + c, d, e);
    ConcatIsAssociative(a, b + c, d);
    ConcatIsAssociative(a, b + c + d, e);
    ConcatIsAssociative(a, b + c + d + e, f);
  }

  /** A requestor that is given such a run, of a newer build than it follows, shows its logs. If the run
      is the final one it ends with its status, and logs after the Final no longer matter; if not, it
      goes on following the build, with its status and with any later logs. */
  lemma FullRunIsReported(project: string, f: Follower, b: int, final: bool, run: WorkerRun, tail: seq<string>)
    requires f.verdict == Pending && f.build < b && 0 <= b
    ensures var f' := Consume(project, f, RunInFull(project, b, final, run, tail));
            var printed := f.printed + [NewerBuild(b), FollowingBuild(b)] + LogLines(run.logs);
            if final then
              f'.verdict == (if run.status then Passed else Failed) && f'.printed == printed
            else
              f' == Follower(b, run.status, printed + LogLines(tail), Pending)
  {
    var messages, rest := RunMessages(project, b, run), LogMessages(project, b, tail);
    RunIsFollowed(project, f, b, run);
    if final {
      ConsumeOne(project, f, messages, Message(project, b, Final));
      VerdictIsFinal(project, f, messages + [Message(project, b, Final)], rest);
    } else {
      NothingAfter(messages);
      ConsumeConcat(project, f, messages, rest);
      FollowedLogsArePrinted(project, Consume(project, f, messages), tail);
    }
  }
}
