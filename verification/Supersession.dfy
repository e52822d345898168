/** How the two questions put to Jenkins and the script of a run make up steps of the build system. */
module Supersession {
  import opened Messages
  import opened BuildSystem
  import opened JenkinsJobs
  import Protocol

  /** The builds of the system are those that the filter matches, and what runs in Jenkins is not dead. */
  ghost predicate Shows(builds: map<int, JobBuild>, filter: Filter, s: State)
  {
    && (forall b :: b in s.builds <==> b in builds && Matches(filter, builds[b]))
    && forall b :: b in s.builds ==> (builds[b].running <==> s.builds[b] != Dead)
  }

  /** `path` leads from `s` to `s'` in steps of the system. */
  ghost predicate IsPath(project: string, path: seq<State>, s: State, s': State)
  {
    && path != [] && path[0] == s && path[|path| - 1] == s'
    && forall i :: 0 <= i < |path| - 1 ==> Next(project, path[i], path[i + 1])
  }

  lemma OneStep(project: string, s: State, step: Step) returns (path: seq<State>)
    requires Enabled(project, s, step)
    ensures IsPath(project, path, s, Apply(project, s, step))
  {
    path := [s, Apply(project, s, step)];
    assert Next(project, s, Apply(project, s, step));
  }

  lemma PathsConcat(project: string, a: seq<State>, b: seq<State>, s: State, s': State, s'': State)
    returns (path: seq<State>)
    requires IsPath(project, a, s, s') && IsPath(project, b, s', s'')
    ensures IsPath(project, path, s, s'')
  {
    path := a + b[1..];
    forall i | 0 <= i < |path| - 1 ensures Next(project, path[i], path[i + 1]) {
      if i >= |a| - 1 {
        assert path[i] == b[i + 1 - |a|] && path[i + 1] == b[i + 1 - |a| + 1];
        assert Next(project, b[i + 1 - |a|], b[i + 1 - |a| + 1]);
      }
    }
  }

  /** What the worker asks for is what the step looks at. */
  lemma NewerExistsIffSeen(builds: map<int, JobBuild>, filter: Filter, s: State, n: int)
    requires Shows(builds, filter, s)
    ensures NewerExists(s, n) <==> exists b :: b in builds && b > n && Matches(filter, builds[b])
  {
  }

  /** Build `n` has worked off `todo` and opens its run. */
  function Cleaned(s: State, n: int, todo: seq<int>): State
  {
    s.(builds := map b | b in s.builds ::
      if b == n then Publishing(Protocol.Start) else if b < n && b in todo then Dead else s.builds[b])
  }

  lemma CleanedOnce(project: string, s: State, n: int, todo: seq<int>)
    requires n in s.builds && s.builds[n] == Cleaning(todo)
    ensures todo == [] ==> Apply(project, s, CleanOne(n)) == Cleaned(s, n, [])
    ensures todo != [] ==> var s' := Apply(project, s, CleanOne(n));
              n in s'.builds && s'.builds[n] == Cleaning(todo[1..]) && Cleaned(s', n, todo[1..]) == Cleaned(s, n, todo)
  {
    var s' := Apply(project, s, CleanOne(n));
    if todo == [] {
      assert s'.builds == Cleaned(s, n, []).builds;
    } else {
      assert todo == [todo[0]] + todo[1..];
      assert Cleaned(s', n, todo[1..]).builds == Cleaned(s, n, todo).builds;
    }
  }

  lemma {:induction false} CleaningIsSteps(project: string, s: State, n: int, todo: seq<int>) returns (path: seq<State>)
    requires n in s.builds && s.builds[n] == Cleaning(todo)
    ensures IsPath(project, path, s, Cleaned(s, n, todo))
    decreases |todo|
  {
    CleanedOnce(project, s, n, todo);
    var s' := Apply(project, s, CleanOne(n));
    path := OneStep(project, s, CleanOne(n));
    if todo != [] {
      var rest := CleaningIsSteps(project, s', n, todo[1..]);
      path := PathsConcat(project, path, rest, s, s', Cleaned(s, n, todo));
    }
  }

  /** If Jenkins answers faithfully, the cleanup of a build that has found no newer one is a sequence
      of steps: the check, the listing and one look at each listed build. They end in a state that
      shows what Jenkins has come to. */
  lemma SupersessionIsSteps(project: string, s: State, n: int, filter: Filter, builds: map<int, JobBuild>,
                            listing: seq<int>)
    returns (path: seq<State>)
    requires Shows(builds, filter, s) && n in s.builds && s.builds[n] == Idle
    requires forall b :: b in builds && b > n ==> !Matches(filter, builds[b])
    requires forall b :: b in listing <==> b in builds
    ensures IsPath(project, path, s, Cleaned(s, n, listing))
    ensures Shows(AllCleanedUp(filter, FAITHFUL, n, builds), filter, Cleaned(s, n, listing))
  {
    NewerExistsIffSeen(builds, filter, s, n);
    var s1 := Apply(project, s, CheckNewer(n));
    var s2 := Apply(project, s1, ListBuilds(n, listing));
    path := OneStep(project, s, CheckNewer(n));
    var next := OneStep(project, s1, ListBuilds(n, listing));
    path := PathsConcat(project, path, next, s, s1, s2);
    next := CleaningIsSteps(project, s2, n, listing);
    assert Cleaned(s2, n, listing).builds == Cleaned(s, n, listing).builds;
    path := PathsConcat(project, path, next, s, s2, Cleaned(s, n, listing));
  }

  /** So the whole of a run that keeps to the script, from its first question to Jenkins on, is a run
      of the system: what the system proves of its queue holds for the workers'. */
  lemma WorkerRunIsSteps(project: string, s: State, n: int, filter: Filter, builds: map<int, JobBuild>,
                         listing: seq<int>, ms: seq<Message>)
    returns (path: seq<State>, s': State)
    requires Shows(builds, filter, s) && n in s.builds && s.builds[n] == Idle
    requires forall b :: b in builds && b > n ==> !Matches(filter, builds[b])
    requires forall b :: b in listing <==> b in builds
    requires Protocol.Track(ms).Next? && forall i :: 0 <= i < |ms| ==> ms[i].project == project && ms[i].build == n
    ensures IsPath(project, path, s, s') && s'.queue == s.queue + ms
    ensures Shows(AllCleanedUp(filter, FAITHFUL, n, builds), filter, s')
  {
    var begun := Cleaned(s, n, listing);
    var opening := SupersessionIsSteps(project, s, n, filter, builds, listing);
    var publishing := ScriptCanBePublished(project, begun, n, ms);
    s' := Published(begun, n, ms);
    path := PathsConcat(project, opening, publishing, s, begun, s');
  }
}
