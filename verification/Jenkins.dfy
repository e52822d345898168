/** The two questions a worker puts to Jenkins: is there a newer build, and stop the older ones. */
module JenkinsJobs {
  import opened Messages

  datatype JobBuild = JobBuild(running: bool, parameters: seq<(string, string)>)

  /** Jenkins parameters as a map: of several with one name the last one stays. */
  function ParameterMap(parameters: seq<(string, string)>): map<string, string>
  {
    if parameters == [] then
      map[]
    else
      var last := parameters[|parameters| - 1];
      ParameterMap(parameters[..|parameters| - 1])[last.0 := last.1]
  }

  /** The filter of a worker: the build has the parameter `cimsgEnv` and it parses to `wanted`.
      `parse` stands for the JSON decoding, whose errors the filter ignores. */
  datatype Filter = Filter(cimsgEnv: string, wanted: BuildRequest, parse: string -> BuildRequest) {
    predicate Accepts(parameters: map<string, string>)
    {
      cimsgEnv in parameters && parse(parameters[cimsgEnv]) == wanted
    }
  }

  predicate Matches(filter: Filter, b: JobBuild)
  {
    filter.Accepts(ParameterMap(b.parameters))
  }

  /** Parameter `i` gives `name` this value, and no later one has that name. */
  predicate IsLastOf(parameters: seq<(string, string)>, name: string, value: string, i: nat)
  {
    && i < |parameters| && parameters[i] == (name, value)
    && forall j :: i < j < |parameters| ==> parameters[j].0 != name
  }

  /** The value of a name is that of the last parameter with this name, and a name that no parameter
      has is not in the map. */
  lemma {:induction false} LastParameterStays(parameters: seq<(string, string)>, name: string, value: string)
    ensures name in ParameterMap(parameters) && ParameterMap(parameters)[name] == value
        <==> exists i: nat :: IsLastOf(parameters, name, value, i)
  {
    if parameters != [] {
      var front, last := parameters[..|parameters| - 1], parameters[|parameters| - 1];
      LastParameterStays(front, name, value);
      if last.0 == name {
        assert last.1 == value ==> IsLastOf(parameters, name, value, |front|);
      } else {
        assert forall i: nat :: IsLastOf(front, name, value, i) ==> IsLastOf(parameters, name, value, i);
        assert forall i: nat :: IsLastOf(parameters, name, value, i) ==> IsLastOf(front, name, value, i);
      }
    }
  }

  /** A build matches exactly if its last parameter of the right name parses to the wanted request. */
  lemma MatchesIff(filter: Filter, b: JobBuild)
    ensures Matches(filter, b)
        <==> exists i: nat, value ::
               IsLastOf(b.parameters, filter.cimsgEnv, value, i) && filter.parse(value) == filter.wanted
  {
    var parameters, name := ParameterMap(b.parameters), filter.cimsgEnv;
    if name in parameters {
      LastParameterStays(b.parameters, name, parameters[name]);
    }
    if i: nat, value :| IsLastOf(b.parameters, name, value, i) && filter.parse(value) == filter.wanted {
      LastParameterStays(b.parameters, name, value);
    }
  }

  /** How Jenkins answers while one worker cleans up, which looks at each build once: for which
      builds the poll of their state succeeds, and for which an accepted stop is honoured. */
  datatype Answers = Answers(polled: int -> bool, honoured: int -> bool)

  const FAITHFUL := Answers(_ => true, _ => true)

  /** What cleaning up for build `current` makes of build `b`: an older matching build that runs, and
      is seen to run, is stopped. A failed poll counts as not running. */
  function CleanedUp(filter: Filter, answers: Answers, current: int, b: int, before: JobBuild): JobBuild
  {
    if b < current && before.running && answers.polled(b) && Matches(filter, before) && answers.honoured(b) then
      before.(running := false)
    else
      before
  }

  function AllCleanedUp(filter: Filter, answers: Answers, current: int, builds: map<int, JobBuild>): map<int, JobBuild>
  {
    map b | b in builds :: CleanedUp(filter, answers, current, b, builds[b])
  }

  /** After cleaning up, a build runs exactly if it did before, unless it is older, matches, was polled
      and honoured its stop; nothing else about it has changed. So if Jenkins answers faithfully, no
      older matching build runs. */
  lemma RunsOnIff(filter: Filter, answers: Answers, current: int, builds: map<int, JobBuild>, b: int)
    requires b in builds
    ensures var after := AllCleanedUp(filter, answers, current, builds);
            && after.Keys == builds.Keys && after[b].parameters == builds[b].parameters
            && (after[b].running <==>
                builds[b].running
                && !(b < current && Matches(filter, builds[b]) && answers.polled(b) && answers.honoured(b)))
            && (answers == FAITHFUL && b < current && Matches(filter, builds[b]) ==> !after[b].running)
  {
  }

  class Job {
    var builds: map<int, JobBuild>
    const answers: Answers
    /** How many requests to Jenkins have failed. */
    ghost var failures: nat

    constructor (builds: map<int, JobBuild>, answers: Answers)
      ensures this.builds == builds && this.answers == answers && failures == 0
    {
      this.builds, this.answers, failures := builds, answers, 0;
    }

    /** Any request can fail. */
    method Ask() returns (ok: bool)
      modifies this`failures
      ensures failures == if ok then old(failures) else old(failures) + 1
    {
      ok := *;
      if !ok {
        failures := failures + 1;
      }
    }

    method AllBuildIds() returns (ok: bool, ids: seq<int>)
      modifies this`failures
      ensures failures == if ok then old(failures) else old(failures) + 1
      ensures ok ==> forall b :: b in ids <==> b in builds
      ensures forall i, j :: 0 <= i < j < |ids| ==> ids[i] != ids[j]
      ensures forall b :: b in ids ==> b in builds
    {
      ok := Ask();
      ids := [];
      var rest: set<int> := builds.Keys;
      while exists b :: b in rest
        invariant forall b :: b in rest ==> b in builds
        invariant forall b :: b in ids <==> b in builds && b !in rest
        invariant forall i, j :: 0 <= i < j < |ids| ==> ids[i] != ids[j]
        decreases |rest|
      {
        var b :| b in rest;
        ids, rest := ids + [b], rest - {b};
      }
    }

    /** Asks Jenkins for the state of build `b`; a failed poll counts as not running. */
    method IsRunning(b: int) returns (running: bool)
      requires b in builds
      ensures running == (answers.polled(b) && builds[b].running)
    {
      running := answers.polled(b) && builds[b].running;
    }

    /** The request may fail; what Jenkins answers to it is not looked at. */
    method Stop(b: int) returns (ok: bool)
      requires b in builds
      modifies this
      ensures failures == if ok then old(failures) else old(failures) + 1
      ensures builds
           == if ok && answers.honoured(b) then old(builds)[b := old(builds)[b].(running := false)] else old(builds)
    {
      ok := Ask();
      if ok && answers.honoured(b) {
        builds := builds[b := builds[b].(running := false)];
      }
    }

    /** The loop with which both operations copy a build's parameters into a map. */
    method Parameters(b: int) returns (parameters: map<string, string>)
      requires b in builds
      ensures parameters == ParameterMap(builds[b].parameters)
    {
      parameters := map[];
      var ps := builds[b].parameters;
      for i := 0 to |ps|
        invariant parameters == ParameterMap(ps[..i])
      {
        assert ps[..i + 1][..i] == ps[..i];
        parameters := parameters[ps[i].0 := ps[i].1];
      }
      assert ps[..|ps|] == ps;
    }

    /** What is left of the work on `looked`, the builds looked at so far. */
    ghost predicate PartlyCleaned(filter: Filter, current: int, looked: seq<int>, before: map<int, JobBuild>)
      reads this
    {
      && builds.Keys == before.Keys
      && forall b :: b in builds ==>
           builds[b] == if b in looked then CleanedUp(filter, answers, current, b, before[b]) else before[b]
    }

    /** The body of the cleanup's loop. */
    method CleanupBuild(current: int, filter: Filter, b: int) returns (ok: bool)
      requires b in builds
      modifies this
      ensures failures == if ok then old(failures) else old(failures) + 1
      ensures builds
           == if ok then old(builds)[b := CleanedUp(filter, answers, current, b, old(builds)[b])] else old(builds)
    {
      ok := true;
      if b < current {
        ok := Ask();
        if !ok {
          return;
        }
        var running := IsRunning(b);
        if running {
          var parameters := Parameters(b);
          if filter.Accepts(parameters) {
            ok := Stop(b);
          }
        }
      }
      assert builds[b := builds[b]] == builds;
    }

    /** Without error, every build is as cleaning up leaves it: exactly the older matching builds that
        are seen to run are stopped. With an error, some may not have been looked at. */
    method CleanupOldBuilds(current: int, filter: Filter) returns (ok: bool)
      modifies this
      ensures failures >= old(failures) && (ok <==> failures == old(failures))
      ensures ok ==> builds == AllCleanedUp(filter, answers, current, old(builds))
      ensures exists looked :: PartlyCleaned(filter, current, looked, old(builds))
      ensures builds.Keys == old(builds).Keys
      ensures forall b :: b in builds ==> builds[b].parameters == old(builds)[b].parameters
      ensures forall b :: b in builds && (b >= current || !Matches(filter, old(builds)[b])) ==>
                builds[b] == old(builds)[b]
    {
      var ids;
      ok, ids := AllBuildIds();
      if !ok {
        assert PartlyCleaned(filter, current, [], old(builds));
        return;
      }
      for i := 0 to |ids|
        invariant PartlyCleaned(filter, current, ids[..i], old(builds)) && failures == old(failures)
      {
        var b := ids[i];
        assert b in ids && ids[..i + 1] == ids[..i] + [b];
        assert b !in ids[..i];
        ok := CleanupBuild(current, filter, b);
        if !ok {
          assert PartlyCleaned(filter, current, ids[..i], old(builds));
          return;
        }
      }
      ok := true;
      assert ids[..|ids|] == ids;
      assert PartlyCleaned(filter, current, ids, old(builds));
    }

    /** If it reports no error, the answer is whether a build with a higher number matches,
        running or not. */
    method NewerBuildsExist(current: int, filter: Filter) returns (ok: bool, exist: bool)
      modifies this`failures
      ensures failures >= old(failures) && (ok <==> failures == old(failures))
      ensures ok ==> (exist <==> exists b :: b in builds && b > current && Matches(filter, builds[b]))
      ensures !ok ==> !exist
    {
      var ids;
      exist := false;
      ok, ids := AllBuildIds();
      if !ok {
        return;
      }
      for i := 0 to |ids|
        invariant failures == old(failures)
        invariant forall b :: b in ids[..i] && b > current ==> !Matches(filter, builds[b])
      {
        var b := ids[i];
        assert b in ids && ids[..i + 1] == ids[..i] + [b];
        if b > current {
          ok := Ask();
          if !ok {
            return;
          }
          var parameters := Parameters(b);
          if filter.Accepts(parameters) {
            return true, true;
          }
        }
      }
      ok := true;
      assert ids[..|ids|] == ids;
    }
  }
}
