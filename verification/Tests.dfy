/** Tests as values: where they run, what they have called, what they come to. */
module Tests {
  import opened Messages
  import opened Executors
  import opened Plans
  import opened Calls
  import opened Nodes
  import opened Runs
  import opened Following
  import opened Sequences

  /** Where the tests run: on the Jenkins slave itself, or on a list of nodes. */
  datatype NodeSource = Locally | OverSSH(nodes: seq<Node>)

  function PlacesOf(source: NodeSource): (places: seq<Place>)
    ensures source.OverSSH? ==> |places| == |source.nodes|
  {
    match source
    case Locally => [Here]
    case OverSSH(nodes) => seq(|nodes|, i requires 0 <= i < |nodes| => OnNode(nodes[i]))
  }

  function BaseWorkDir(rcvIdent: string): string
  {
    seq(|rcvIdent|, i requires 0 <= i < |rcvIdent| => if rcvIdent[i] == '.' then '_' else rcvIdent[i])
  }

  /** What the tests of a worker have in common. */
  datatype Assignment = Assignment(
    request: BuildRequest,
    gitUser: string,
    gitEmail: string,
    env: map<string, string>,
    tags: seq<string>,
    retryLoopCount: int)

  /** The configuration of a test with the random directory name `instance`. */
  function ConfigOf(assignment: Assignment, instance: string): Config
  {
    var workDir := BaseWorkDir(assignment.request.rcvIdent);
    Config(assignment.request, assignment.gitUser, assignment.gitEmail, workDir, workDir + "/" + instance + "/repo",
           assignment.env, assignment.tags)
  }

  /** One test: where it runs, its random directory name, the commands it executed, and what it
      came to. */
  datatype TestRun = TestRun(place: Place, instance: string, calls: seq<Call>, result: Result)

  /** A node that has neither a key nor a password can not be tested on. */
  predicate HasCredentials(place: Place)
  {
    place.Here? || place.node.sshKey != "" || place.node.sshPassword != ""
  }

  /** The calls of a test that has an executor follow the plan of its configuration. */
  predicate FollowsItsPlan(assignment: Assignment, t: TestRun)
  {
    && HasCredentials(t.place) && AreCalls(t.calls, assignment.retryLoopCount)
    && Follows(TestPlan(ConfigOf(assignment, t.instance)), RanOf(t.calls), t.result)
  }

  /** `ex` is the executor of `t`: it runs where it should, has seen exactly the calls of the test,
      which follow its plan, and is closed. A node may turn out to have no executor. */
  ghost predicate SeenBy(assignment: Assignment, ex: Executor?, t: TestRun)
    reads ex
  {
    if ex == null then
      && t.place.OnNode? && (t.place.node.sshKey != "" || t.place.node.sshPassword == "")
      && t.calls == [] && t.result == Error
    else
      && ex.place == t.place && ex.session == Unopened
      && ex.trace == CallsTrace(ConfigOf(assignment, t.instance), t.calls)
      && FollowsItsPlan(assignment, t)
  }

  /** Every test has been seen by an executor of its own. */
  ghost predicate Seen(assignment: Assignment, exs: seq<Executor?>, tests: seq<TestRun>)
    reads exs
  {
    && |exs| == |tests|
    && forall i {:trigger SeenBy(assignment, exs[i], tests[i])} :: 0 <= i < |exs| ==>
         SeenBy(assignment, exs[i], tests[i])
  }

  ghost predicate AllDiffer(exs: seq<Executor?>)
  {
    forall i, j :: 0 <= i < j < |exs| && exs[i] != null ==> exs[i] != exs[j]
  }

  lemma DiffersToo(exs: seq<Executor?>, ex: Executor?)
    requires AllDiffer(exs) && (ex != null ==> ex !in exs)
    ensures AllDiffer(exs + [ex])
  {
  }

  lemma SeenOne(assignment: Assignment, ex: Executor?, t: TestRun)
    requires SeenBy(assignment, ex, t)
    ensures Seen(assignment, [ex], [t])
  {
  }

  lemma SeenConcat(assignment: Assignment, exs: seq<Executor?>, tests: seq<TestRun>, exs': seq<Executor?>,
                   tests': seq<TestRun>)
    requires Seen(assignment, exs, tests) && Seen(assignment, exs', tests')
    ensures Seen(assignment, exs + exs', tests + tests')
  {
    forall i | 0 <= i < |exs + exs'| ensures SeenBy(assignment, (exs + exs')[i], (tests + tests')[i]) {
      assert i < |exs| ==> SeenBy(assignment, exs[i], tests[i]);
      assert i >= |exs| ==> SeenBy(assignment, exs'[i - |exs|], tests'[i - |exs|]);
    }
  }

  /** What the executor has seen, and all the calls so far. */
  datatype Evidence = Evidence(trace: seq<Event>, made: seq<Execution>)

  /** The evidence of the calls of a test, if there were the calls `mark` before it. */
  function EvidenceOf(cfg: Config, mark: seq<Execution>, calls: seq<Call>): Evidence
  {
    Evidence(CallsTrace(cfg, calls), mark + ExecutionsOf(cfg, calls))
  }

  lemma NoEvidence(cfg: Config, mark: seq<Execution>)
    ensures EvidenceOf(cfg, mark, []) == Evidence([], mark)
  {
    assert ExecutionsOf(cfg, []) == [];
    NothingAfter(mark);
  }

  lemma OneMoreCall(cfg: Config, mark: seq<Execution>, calls: seq<Call>, call: Call)
    ensures var e := EvidenceOf(cfg, mark, calls);
            EvidenceOf(cfg, mark, calls + [call])
            == Evidence(e.trace + TraceOf(OrderOf(cfg, call.command), call.attempts),
                        e.made + [Execution(Argv(cfg, call.command), call.attempts)])
  {
    OneMoreTrace(cfg, calls, call);
    OneMoreExecution(Executing(cfg), mark, calls, call);
  }

  lemma OneMoreTrace(cfg: Config, calls: seq<Call>, call: Call)
    ensures CallsTrace(cfg, calls + [call]) == CallsTrace(cfg, calls) + CallTrace(cfg)(call)
  {
    FlattenConcat(CallTrace(cfg), calls, [call]);
    CallsTraceOne(cfg, call);
  }

  lemma OneMoreExecution(f: Call -> Execution, mark: seq<Execution>, calls: seq<Call>, call: Call)
    ensures mark + Each(f, calls + [call]) == mark + Each(f, calls) + [f(call)]
  {
    EachOne(f, calls, call);
    ConcatIsAssociative(mark, Each(f, calls), [f(call)]);
  }

  /** After the `prior` calls the plan has been followed by `calls`, and one more call leads on. */
  lemma StepTaken(cfg: Config, mark: seq<Execution>, prior: seq<Call>, calls: seq<Call>, call: Call, plan: Plan,
                  residual: Plan, retryLoopCount: int)
    requires AreCalls(calls, retryLoopCount) && IsCall(call, retryLoopCount)
    requires Leads(plan, RanOf(calls), residual) && residual.Do? && residual.command == call.command
    ensures AreCalls(calls + [call], retryLoopCount)
    ensures Leads(plan, RanOf(calls + [call]), Onwards(true, residual, ResultOf(call.attempts)))
    ensures var e := EvidenceOf(cfg, mark, prior + calls);
            EvidenceOf(cfg, mark, prior + (calls + [call]))
            == Evidence(e.trace + TraceOf(OrderOf(cfg, call.command), call.attempts),
                        e.made + [Execution(Argv(cfg, call.command), call.attempts)])
  {
    OneMoreCall(cfg, mark, prior + calls, call);
    ConcatIsAssociative(prior, calls, [call]);
    RanOfOne(calls, call);
    LeadsOn(plan, RanOf(calls), residual, ResultOf(call.attempts));
  }

  lemma SetupEndsTest(assignment: Assignment, t: TestRun)
    requires HasCredentials(t.place) && AreCalls(t.calls, assignment.retryLoopCount) && t.result == Error
    requires Follows(SetupPlan(ConfigOf(assignment, t.instance)), RanOf(t.calls), Error)
    ensures FollowsItsPlan(assignment, t)
  {
    var cfg := ConfigOf(assignment, t.instance);
    FollowsThenError(SetupPlan(cfg), AfterSetup(cfg), RanOf(t.calls));
  }

  lemma TestGoesOn(assignment: Assignment, t: TestRun, setupCalls: seq<Call>, status: bool, calls: seq<Call>)
    requires HasCredentials(t.place) && t.calls == setupCalls + calls
    requires AreCalls(setupCalls, assignment.retryLoopCount) && AreCalls(calls, assignment.retryLoopCount)
    requires Follows(SetupPlan(ConfigOf(assignment, t.instance)), RanOf(setupCalls), Value(status))
    requires Follows(LastPlan(ConfigOf(assignment, t.instance), status), RanOf(calls), t.result)
    ensures FollowsItsPlan(assignment, t)
  {
    var cfg := ConfigOf(assignment, t.instance);
    FollowsThen(SetupPlan(cfg), AfterSetup(cfg), RanOf(setupCalls), status, RanOf(calls), t.result);
    RanOfConcat(setupCalls, calls);
  }

  function ExecutionsOfTest(assignment: Assignment, t: TestRun): seq<Execution>
  {
    ExecutionsOf(ConfigOf(assignment, t.instance), t.calls)
  }

  function ExecutionsOfTests(assignment: Assignment, tests: seq<TestRun>): seq<Execution>
  {
    if tests == [] then
      []
    else
      ExecutionsOfTests(assignment, tests[..|tests| - 1]) + ExecutionsOfTest(assignment, tests[|tests| - 1])
  }

  /** All the calls so far, to be compared as a whole. */
  datatype Tally = Tally(made: seq<Execution>)

  /** The calls made when there were `before` before these tests. */
  function TallyOf(assignment: Assignment, before: seq<Execution>, tests: seq<TestRun>): Tally
  {
    Tally(before + ExecutionsOfTests(assignment, tests))
  }

  lemma OneMoreTest(assignment: Assignment, before: seq<Execution>, tests: seq<TestRun>, t: TestRun)
    ensures TallyOf(assignment, before, tests + [t])
         == Tally(TallyOf(assignment, before, tests).made + ExecutionsOfTest(assignment, t))
  {
    assert (tests + [t])[..|tests|] == tests;
    ConcatIsAssociative(before, ExecutionsOfTests(assignment, tests), ExecutionsOfTest(assignment, t));
  }

  lemma NoTests(assignment: Assignment, before: seq<Execution>)
    ensures TallyOf(assignment, before, []) == Tally(before)
  {
    NothingAfter(before);
  }

  /** The tests so far: only the last of them can be an error, which the result then is; otherwise
      the result is true exactly if every test was successful. */
  ghost predicate ConjunctionSoFar(places: seq<Place>, tests: seq<TestRun>, result: Result)
  {
    && |tests| <= |places|
    && (forall i :: 0 <= i < |tests| ==> tests[i].place == places[i])
    && match result
       case Error =>
         && tests != [] && tests[|tests| - 1].result == Error
         && forall i :: 0 <= i < |tests| - 1 ==> tests[i].result.Value?
       case Value(b) =>
         && (b <==> forall i :: 0 <= i < |tests| ==> tests[i].result == Value(true))
         && forall i :: 0 <= i < |tests| ==> tests[i].result.Value?
  }

  /** An error stops everything; otherwise every place is tested, also after one has failed, and
      the result is true exactly if every test was successful. */
  ghost predicate Conjunction(places: seq<Place>, tests: seq<TestRun>, result: Result)
  {
    ConjunctionSoFar(places, tests, result) && (result.Value? ==> |tests| == |places|)
  }

  lemma ConjunctionOne(places: seq<Place>, tests: seq<TestRun>, status: bool, t: TestRun)
    requires ConjunctionSoFar(places, tests, Value(status)) && |tests| < |places| && t.place == places[|tests|]
    ensures ConjunctionSoFar(places, tests + [t], if t.result.Error? then Error else Value(status && t.result.success))
  {
  }

  lemma ConjunctionOfOne(t: TestRun)
    requires t.place == Here
    ensures Conjunction(PlacesOf(Locally), [t], t.result)
  {
    assert ConjunctionSoFar([Here], [], Value(true));
    ConjunctionOne([Here], [], true, t);
    assert [] + [t] == [t];
  }

  /** The tests ran where they should: at the nodes in their order, or once on the slave; all of them, if
      there is a result. */
  ghost predicate AtPlaces(source: NodeSource, tests: seq<TestRun>, result: Result)
  {
    match source
    case Locally =>
      && |tests| <= 1 && (result.Value? ==> |tests| == 1)
      && forall i :: 0 <= i < |tests| ==> tests[i].place == Here
    case OverSSH(nodes) =>
      && |tests| <= |nodes| && (result.Value? ==> |tests| == |nodes|)
      && forall i :: 0 <= i < |tests| ==> tests[i].place == OnNode(nodes[i])
  }

  lemma ConjunctionAtPlaces(source: NodeSource, tests: seq<TestRun>, result: Result)
    requires Conjunction(PlacesOf(source), tests, result)
    ensures AtPlaces(source, tests, result)
    ensures result.Value? ==> (result.success <==> forall i :: 0 <= i < |tests| ==> tests[i].result == Value(true))
    ensures result.Error? ==> EndsInError(tests)
  {
    forall i | 0 <= i < |tests| ensures tests[i].place == PlacesOf(source)[i] {
    }
  }

  ghost predicate EndsInError(tests: seq<TestRun>)
  {
    tests != [] && tests[|tests| - 1].result == Error
  }

  /** Any status in `sent` from `start` on is what the tests came to. */
  ghost predicate StatusesAreOf(places: seq<Place>, tests: seq<TestRun>, start: nat, sent: seq<Message>)
  {
    forall i :: start <= i < |sent| && sent[i].body.Status? ==> Conjunction(places, tests, Value(sent[i].body.success))
  }

  lemma LogsHaveNoStatus(project: string, build: int, allowed: string -> bool, places: seq<Place>,
                         tests: seq<TestRun>, start: nat, base: seq<Message>, logged: seq<Message>)
    requires OnlyLogsAdded(project, build, allowed, base, logged)
    requires forall i :: start <= i < |base| ==> !base[i].body.Status?
    ensures StatusesAreOf(places, tests, start, logged)
  {
    LogsAddedMeaning(project, build, allowed, base, logged);
    assert forall i :: start <= i < |base| ==> logged[i] == base[i];
  }

  lemma StatusesAdded(project: string, build: int, final: bool, places: seq<Place>, tests: seq<TestRun>, start: nat,
                      logged: seq<Message>, sent: seq<Message>, success: bool, tail: seq<string>)
    requires StatusesAreOf(places, tests, start, logged) && Conjunction(places, tests, Value(success))
    requires logged <= sent <= logged + Conclusion(project, build, final, success) + LogMessages(project, build, tail)
    ensures StatusesAreOf(places, tests, start, sent)
  {
    var all := logged + Conclusion(project, build, final, success) + LogMessages(project, build, tail);
    forall i | start <= i < |sent| && sent[i].body.Status?
      ensures Conjunction(places, tests, Value(sent[i].body.success))
    {
      assert sent[i] == all[i];
      assert i < |logged| ==> sent[i] == logged[i];
    }
  }

  /** A status is only ever sent after all the tests, and it is the conjunction of their results. */
  lemma StatusesMeaning(source: NodeSource, tests: seq<TestRun>, start: nat, sent: seq<Message>)
    requires StatusesAreOf(PlacesOf(source), tests, start, sent)
    ensures forall i :: start <= i < |sent| && sent[i].body.Status? ==>
              && (source.OverSSH? ==> |tests| == |source.nodes|) && (source.Locally? ==> |tests| == 1)
              && (sent[i].body.success <==> forall k :: 0 <= k < |tests| ==> tests[k].result == Value(true))
  {
    forall i | start <= i < |sent| && sent[i].body.Status?
      ensures && (source.OverSSH? ==> |tests| == |source.nodes|) && (source.Locally? ==> |tests| == 1)
              && (sent[i].body.success <==> forall k :: 0 <= k < |tests| ==> tests[k].result == Value(true))
    {
      ConjunctionAtPlaces(source, tests, Value(sent[i].body.success));
    }
  }
}
