/** The requestor's delivery loop. */
module RequestorLoop {
  import opened Messages
  import opened Protocol
  import opened Following

  class Requestor {
    const jenkinsProject: string
    var jenkinsBuild: int
    var printed: seq<Line>
    /** What has been sent on the done channel. */
    var done: seq<Verdict>
    var acknowledged: nat

    constructor (jenkinsProject: string)
      ensures this.jenkinsProject == jenkinsProject
      ensures jenkinsBuild == -1 && printed == [] && done == [] && acknowledged == 0
    {
      this.jenkinsProject := jenkinsProject;
      jenkinsBuild, printed, done, acknowledged := -1, [], [], 0;
    }

    /** One delivery, seen with the loop's local `success`; a verdict ends the loop. */
    method Handle(m: Message, success: bool) returns (success': bool, verdict: Verdict)
      modifies this`jenkinsBuild, this`printed
      ensures Follower(jenkinsBuild, success', printed, verdict)
           == Receive(jenkinsProject, Follower(old(jenkinsBuild), success, old(printed), Pending), m)
    {
      success', verdict := success, Pending;
      if m.project == jenkinsProject {
        if m.build > jenkinsBuild {
          if m.body.Build? {
            jenkinsBuild := m.build;
            printed := printed + [FollowingBuild(jenkinsBuild)];
          } else if m.body.Cancel? {
            printed := printed + [NewerBuild(m.build)];
            jenkinsBuild := -1;
            success' := true;
          }
        } else if jenkinsBuild == m.build {
          if m.body.Log? {
            printed := printed + [Logs(m.body.text)];
          } else if m.body.Status? {
            if success' {
              success' := m.body.success;
            }
          } else if m.body.Final? {
            verdict := if success' then Passed else Failed;
          }
        }
      }
    }

    /** Handles `deliveries` until the verdict, which ends the loop. Everything up to the message
        that brings it is acknowledged, that message and what follows is not. */
    method ConsumeMessages(deliveries: seq<Message>)
      modifies this
      ensures var f0 := Follower(old(jenkinsBuild), true, old(printed), Pending);
              var f := Consume(jenkinsProject, f0, deliveries);
              var n := acknowledged - old(acknowledged);
              && jenkinsBuild == f.build
              && printed == f.printed
              && done == old(done) + (if f.verdict == Pending then [] else [f.verdict])
              && 0 <= n <= |deliveries|
              && Consume(jenkinsProject, f0, deliveries[..n]).verdict == Pending
              && (f.verdict == Pending ==> n == |deliveries|)
              && (f.verdict != Pending ==> n < |deliveries| && Consume(jenkinsProject, f0, deliveries[..n + 1]) == f)
    {
      var success, verdict := true, Pending;
      ghost var f0 := Follower(jenkinsBuild, true, printed, Pending);
      for i := 0 to |deliveries|
        invariant Consume(jenkinsProject, f0, deliveries[..i]) == Follower(jenkinsBuild, success, printed, Pending)
        invariant done == old(done) && acknowledged == old(acknowledged) + i
      {
        ConsumeOne(jenkinsProject, f0, deliveries[..i], deliveries[i]);
        assert deliveries[..i] + [deliveries[i]] == deliveries[..i + 1];
        success, verdict := Handle(deliveries[i], success);
        if verdict != Pending {
          VerdictIsFinal(jenkinsProject, f0, deliveries[..i + 1], deliveries[i + 1..]);
          assert deliveries == deliveries[..i + 1] + deliveries[i + 1..];
          done := done + [verdict];
          return;
        }
        acknowledged := acknowledged + 1;
      }
      assert deliveries[..|deliveries|] == deliveries;
    }
  }
}
