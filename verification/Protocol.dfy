/** The order in which one build, and all builds together, may speak on the receive queue. */
module Protocol {
  import opened Messages

  /** How far one worker run has come. `Ended` is reached by the log that the closing flush may
      still publish when the last flush before the status failed. */
  datatype Stage = Start | Cancelled | Logging | Reported | Finished | Ended

  datatype Progress = Next(stage: Stage) | Refused

  /** The script of one worker run: Cancel, Build, Log*, Status, Final?, Log?. */
  function Advance(stage: Stage, body: Body): Progress
  {
    match (stage, body)
    case (Start, Cancel) => Next(Cancelled)
    case (Cancelled, Build) => Next(Logging)
    case (Logging, Log(_)) => Next(Logging)
    case (Logging, Status(_)) => Next(Reported)
    case (Reported, Final) => Next(Finished)
    case (Reported, Log(_)) => Next(Ended)
    case (Finished, Log(_)) => Next(Ended)
    case (_, _) => Refused
  }

  /** Where a worker run stands after publishing `sent`, if `sent` follows the script. */
  function Track(sent: seq<Message>): Progress
  {
    if sent == [] then
      Next(Start)
    else
      match Track(sent[..|sent| - 1])
      case Refused => Refused
      case Next(stage) => Advance(stage, sent[|sent| - 1].body)
  }

  lemma TrackOne(sent: seq<Message>, m: Message)
    ensures Track(sent + [m]) == (match Track(sent) case Refused => Refused case Next(stage) => Advance(stage, m.body))
  {
    assert (sent + [m])[..|sent|] == sent;
  }

  /** The script, written out: Cancel, Build and logs, up to a status at `k` if it has come so far, a
      Final and a log after it, or one of them. */
  predicate IsScript(sent: seq<Message>, k: nat)
  {
    && 2 <= k
    && (0 < |sent| ==> sent[0].body.Cancel?)
    && (1 < |sent| ==> sent[1].body.Build?)
    && (forall i :: 2 <= i < k && i < |sent| ==> sent[i].body.Log?)
    && (k < |sent| ==> sent[k].body.Status?)
    && (k + 1 < |sent| ==> sent[k + 1].body.Final? || (sent[k + 1].body.Log? && |sent| == k + 2))
    && (k + 2 < |sent| ==> sent[k + 2].body.Log? && |sent| == k + 3)
  }

  /** Where a run stands, counted from its status at `k`. */
  function StageAt(sent: seq<Message>, k: nat): Stage
  {
    if sent == [] then
      Start
    else if |sent| == 1 then
      Cancelled
    else if |sent| <= k then
      Logging
    else if |sent| == k + 1 then
      Reported
    else if |sent| == k + 2 && sent[k + 1].body.Final? then
      Finished
    else
      Ended
  }

  lemma {:induction false} ScriptIsTracked(sent: seq<Message>, k: nat)
    requires IsScript(sent, k)
    ensures Track(sent) == Next(StageAt(sent, k))
  {
    if sent != [] {
      ScriptIsTracked(sent[..|sent| - 1], k);
    }
  }

  lemma {:induction false} TrackedIsScript(sent: seq<Message>) returns (k: nat)
    requires Track(sent).Next?
    ensures IsScript(sent, k) && (Track(sent).stage in {Start, Cancelled, Logging} ==> k >= |sent|)
  {
    if sent == [] {
      k := 2;
    } else {
      var front := sent[..|sent| - 1];
      k := TrackedIsScript(front);
      ScriptIsTracked(front, k);
      if Track(front).stage == Logging {
        k := if sent[|sent| - 1].body.Status? then |front| else |sent|;
      }
    }
  }

  /** A run can have published exactly what the script says. */
  lemma TrackIff(sent: seq<Message>)
    ensures Track(sent).Next? <==> exists k: nat :: IsScript(sent, k)
  {
    if Track(sent).Next? {
      var k := TrackedIsScript(sent);
    }
    if k: nat :| IsScript(sent, k) {
      ScriptIsTracked(sent, k);
    }
  }

  /** As `Track`, for a Jenkins build that runs the worker several times: a run may stop
      anywhere and the next one starts over with a Cancel. */
  function TrackRuns(sent: seq<Message>): Progress
  {
    if sent == [] then
      Next(Start)
    else
      match TrackRuns(sent[..|sent| - 1])
      case Refused => Refused
      case Next(stage) => AdvanceRuns(stage, sent[|sent| - 1].body)
  }

  function AdvanceRuns(stage: Stage, body: Body): Progress
  {
    if body.Cancel? then Next(Cancelled) else Advance(stage, body)
  }

  /** What one reader of the whole queue knows: the build that speaks and how far it is. */
  datatype Floor = Floor(holder: int, stage: Stage) | Disorder

  const SILENCE: Floor := Floor(-1, Start)

  /** A message is in order if it continues the holder's run, or is the Cancel with which the
      holder restarts or a newer build takes over. Messages of other projects do not count. */
  function Hear(project: string, floor: Floor, m: Message): Floor
  {
    if floor.Disorder? || m.project != project then
      floor
    else if m.build == floor.holder && floor.stage != Start then
      match AdvanceRuns(floor.stage, m.body)
      case Refused => Disorder
      case Next(stage) => Floor(m.build, stage)
    else if m.build > floor.holder && m.body.Cancel? then
      Floor(m.build, Cancelled)
    else
      Disorder
  }

  function Listen(project: string, history: seq<Message>): Floor
  {
    if history == [] then
      SILENCE
    else
      Hear(project, Listen(project, history[..|history| - 1]), history[|history| - 1])
  }

  lemma ListenOne(project: string, history: seq<Message>, m: Message)
    ensures Listen(project, history + [m]) == Hear(project, Listen(project, history), m)
  {
    assert (history + [m])[..|history|] == history;
  }

  /** The queue is in order: builds speak one after the other, oldest first, each to its script. */
  predicate Orderly(project: string, history: seq<Message>)
  {
    Listen(project, history).Floor?
  }

  lemma {:induction false} OrderlyPrefix(project: string, history: seq<Message>, n: nat)
    requires n <= |history|
    requires Orderly(project, history)
    ensures Orderly(project, history[..n])
  {
    if n < |history| {
      OrderlyPrefix(project, history[..|history| - 1], n);
      assert history[..|history| - 1][..n] == history[..n];
    } else {
      assert history[..n] == history;
    }
  }

  /** The holder, if any, is a build that has published. */
  lemma {:induction false} HolderHasSpoken(project: string, history: seq<Message>)
    requires Orderly(project, history)
    ensures var floor := Listen(project, history);
            && -1 <= floor.holder
            && (floor == SILENCE || (floor.holder >= 0 && floor.stage != Start))
            && (floor.holder >= 0 ==>
                  exists i :: 0 <= i < |history| && history[i].project == project && history[i].build == floor.holder)
            && (floor == SILENCE ==> forall i :: 0 <= i < |history| ==> history[i].project != project)
  {
    if history != [] {
      var front, m := history[..|history| - 1], history[|history| - 1];
      assert history == front + [m];
      HolderHasSpoken(project, front);
      if m.project == project {
        assert history[|history| - 1] == m;
      } else {
        var floor := Listen(project, front);
        if floor.holder >= 0 {
          var i :| 0 <= i < |front| && front[i].project == project && front[i].build == floor.holder;
          assert history[i] == front[i];
        }
      }
    }
  }

  /** An orderly queue never goes back to an older build. */
  lemma {:induction false} OrderlyIsNondecreasing(project: string, history: seq<Message>)
    requires Orderly(project, history)
    ensures forall m :: m in history && m.project == project ==> 0 <= m.build <= Listen(project, history).holder
    ensures forall i, j :: 0 <= i < j < |history| && history[i].project == project && history[j].project == project
              ==> history[i].build <= history[j].build
  {
    if history != [] {
      var front := history[..|history| - 1];
      assert history == front + [history[|history| - 1]];
      OrderlyIsNondecreasing(project, front);
      HolderHasSpoken(project, front);
    }
  }

  /** An orderly queue lets every build keep to its own script. */
  lemma {:induction false} OrderlyKeepsScripts(project: string, history: seq<Message>, b: int)
    requires Orderly(project, history)
    ensures TrackRuns(SentBy(project, b, history)).Next?
    ensures b == Listen(project, history).holder ==>
              TrackRuns(SentBy(project, b, history)) == Next(Listen(project, history).stage)
  {
    if history != [] {
      var front, m := history[..|history| - 1], history[|history| - 1];
      assert history == front + [m];
      OrderlyKeepsScripts(project, front, b);
      OrderlyIsNondecreasing(project, front);
      if m.project == project && m.build == b {
        var sent := SentBy(project, b, front);
        assert (sent + [m])[..|sent|] == sent;
      }
    }
  }

  /** The two together say exactly what being in order means: nothing is lost in `Orderly`. */
  lemma {:induction false} OrderlyIff(project: string, history: seq<Message>)
    requires forall i :: 0 <= i < |history| && history[i].project == project ==> 0 <= history[i].build
    requires forall i, j :: 0 <= i < j < |history| && history[i].project == project && history[j].project == project
              ==> history[i].build <= history[j].build
    requires forall b :: TrackRuns(SentBy(project, b, history)).Next?
    ensures Orderly(project, history)
  {
    if history != [] {
      var front, m := history[..|history| - 1], history[|history| - 1];
      assert history == front + [m];
      forall b ensures TrackRuns(SentBy(project, b, front)).Next? {
        assert TrackRuns(SentBy(project, b, history)).Next?;
        ScriptPrefix(project, b, front, m);
      }
      OrderlyIff(project, front);
      assert forall i :: 0 <= i < |front| ==> front[i] == history[i];
      StaysOrderly(project, front, m);
    }
  }

  lemma StaysOrderly(project: string, front: seq<Message>, m: Message)
    requires Orderly(project, front)
    requires m.project == project ==> 0 <= m.build && TrackRuns(SentBy(project, m.build, front + [m])).Next?
    requires forall i :: 0 <= i < |front| && front[i].project == m.project == project ==> front[i].build <= m.build
    ensures Orderly(project, front + [m])
  {
    ListenOne(project, front, m);
    if m.project == project {
      var sent := SentBy(project, m.build, front);
      SentByOne(project, m.build, front, m);
      assert (sent + [m])[..|sent|] == sent;
      OrderlyKeepsScripts(project, front, m.build);
      HolderHasSpoken(project, front);
      if m.build > Listen(project, front).holder {
        NothingAboveHolder(project, front, m.build);
      }
    }
  }

  lemma {:induction false} NothingAboveHolder(project: string, history: seq<Message>, b: int)
    requires Orderly(project, history) && b > Listen(project, history).holder
    ensures SentBy(project, b, history) == []
  {
    if history != [] {
      NothingAboveHolder(project, history[..|history| - 1], b);
    }
  }

  lemma ScriptPrefix(project: string, b: int, front: seq<Message>, m: Message)
    requires TrackRuns(SentBy(project, b, front + [m])).Next?
    ensures TrackRuns(SentBy(project, b, front)).Next?
  {
    assert (front + [m])[..|front|] == front;
    var sent := SentBy(project, b, front);
    assert (sent + [m])[..|sent|] == sent;
  }
}
