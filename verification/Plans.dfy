/** The commands of a test and the order in which their results decide what runs next. */
module Plans {
  import opened Messages
  import opened Sequences

  datatype Command =
    | RemoveStale
    | MakeRepoDir
    | CloneRepo
    | SetUserName
    | SetUserEmail
    | FetchPull
    | CheckoutMain
    | MergePull
    | CheckoutTarget
    | DownloadScript
    | RunScript
    | RemoveWorkDir

  /** `env` and `tags` are what every command of the test is given. */
  datatype Config = Config(
    request: BuildRequest,
    gitUser: string,
    gitEmail: string,
    workDir: string,
    repoDir: string,
    env: map<string, string>,
    tags: seq<string>)

  function Quoted(s: string): string
  {
    "\"" + s + "\""
  }

  function PullBranch(cfg: Config): string
  {
    "pr" + cfg.request.target
  }

  function ShellCommand(cfg: Config): string
  {
    (if cfg.request.setupScript != "" then ". " + cfg.request.setupScript + " && " else "")
    + ". " + cfg.request.runScript
  }

  /** The argument vector of a command. */
  function Argv(cfg: Config, c: Command): (argv: seq<string>)
    ensures argv != []
  {
    match c
    case RemoveStale => ["rm", "-rf", cfg.workDir]
    case MakeRepoDir => ["mkdir", "-p", cfg.repoDir]
    case CloneRepo => ["git", "clone", cfg.request.repoURL, cfg.repoDir]
    case SetUserName => ["git", "config", "user.name", Quoted(cfg.gitUser)]
    case SetUserEmail => ["git", "config", "user.email", Quoted(cfg.gitEmail)]
    case FetchPull => ["git", "fetch", "-v", "origin", "pull/" + cfg.request.target + "/head:" + PullBranch(cfg)]
    case CheckoutMain => ["git", "checkout", cfg.request.mainBranch]
    case MergePull => ["git", "merge", PullBranch(cfg), "--no-edit"]
    case CheckoutTarget =>
      ["git", "checkout", if cfg.request.kind.Tag? then "tags/" + cfg.request.target else cfg.request.target]
    case DownloadScript => ["curl", "-kLo", cfg.request.runScript, cfg.request.runScriptURL]
    case RunScript => ["sh", "-c", ShellCommand(cfg)]
    case RemoveWorkDir => ["rm", "-rf", cfg.workDir]
  }

  /** The directory a command runs in. */
  function Dir(cfg: Config, c: Command): string
  {
    if c in {RemoveStale, MakeRepoDir, CloneRepo, RemoveWorkDir} then "" else cfg.repoDir
  }

  /** What running a command comes to: the (bool, error) pair, of which only one counts. */
  datatype Result = Value(success: bool) | Error

  datatype Ran = Ran(command: Command, result: Result)

  // ----- Plans

  /** A plan runs a command and goes on by its result. */
  datatype Plan =
    | Return(result: Result)
    | Do(command: Command, onTrue: Plan, onFalse: Plan, onError: Plan)

  /** How a plan goes on after its first command. */
  function Go(plan: Plan, result: Result): Plan
    requires plan.Do?
  {
    match result
    case Value(true) => plan.onTrue
    case Value(false) => plan.onFalse
    case Error => plan.onError
  }

  /** Carrying out `plan` can have run exactly `ran` and come to `result`. */
  predicate Follows(plan: Plan, ran: seq<Ran>, result: Result)
  {
    match plan
    case Return(r) => ran == [] && result == r
    case Do(c, _, _, _) => ran != [] && ran[0].command == c && Follows(Go(plan, ran[0].result), ran[1..], result)
  }

  /** Carrying out `plan` so far has run `ran`, and `residual` is what remains. */
  predicate Leads(plan: Plan, ran: seq<Ran>, residual: Plan)
    decreases |ran|
  {
    if ran == [] then
      residual == plan
    else
      plan.Do? && ran[0].command == plan.command && Leads(Go(plan, ran[0].result), ran[1..], residual)
  }

  lemma {:induction false} LeadsOn(plan: Plan, ran: seq<Ran>, residual: Plan, result: Result)
    requires Leads(plan, ran, residual) && residual.Do?
    ensures Leads(plan, ran + [Ran(residual.command, result)], Go(residual, result))
  {
    if ran != [] {
      LeadsOn(Go(plan, ran[0].result), ran[1..], residual, result);
      assert (ran + [Ran(residual.command, result)])[1..] == ran[1..] + [Ran(residual.command, result)];
    }
  }

  lemma {:induction false} LeadsToEnd(plan: Plan, ran: seq<Ran>, result: Result)
    requires Leads(plan, ran, Return(result))
    ensures Follows(plan, ran, result)
  {
    if ran != [] {
      LeadsToEnd(Go(plan, ran[0].result), ran[1..], result);
    }
  }

  function Then(plan: Plan, next: bool -> Plan): Plan
  {
    match plan
    case Return(Value(b)) => next(b)
    case Return(Error) => Return(Error)
    case Do(c, onTrue, onFalse, onError) => Do(c, Then(onTrue, next), Then(onFalse, next), Then(onError, next))
  }

  lemma {:induction false} FollowsThen(plan: Plan, next: bool -> Plan, ran: seq<Ran>, b: bool, ran': seq<Ran>,
                                       result: Result)
    requires Follows(plan, ran, Value(b)) && Follows(next(b), ran', result)
    ensures Follows(Then(plan, next), ran + ran', result)
  {
    if plan.Return? {
      assert ran + ran' == ran';
    } else {
      FollowsThen(Go(plan, ran[0].result), next, ran[1..], b, ran', result);
      assert (ran + ran')[1..] == ran[1..] + ran';
    }
  }

  lemma {:induction false} FollowsThenError(plan: Plan, next: bool -> Plan, ran: seq<Ran>)
    requires Follows(plan, ran, Error)
    ensures Follows(Then(plan, next), ran, Error)
  {
    if plan.Do? {
      FollowsThenError(Go(plan, ran[0].result), next, ran[1..]);
    }
  }

  /** What follows a sequence of two plans splits into what follows each. */
  lemma {:induction false} SplitThen(plan: Plan, next: bool -> Plan, ran: seq<Ran>, result: Result)
    returns (n: nat, r: Result)
    requires Follows(Then(plan, next), ran, result)
    ensures n <= |ran| && Follows(plan, ran[..n], r)
    ensures match r
            case Error => n == |ran| && result == Error
            case Value(b) => Follows(next(b), ran[n..], result)
  {
    if plan.Return? {
      n, r := 0, plan.result;
    } else {
      n, r := SplitThen(Go(plan, ran[0].result), next, ran[1..], result);
      assert ran[..n + 1][1..] == ran[1..][..n];
      assert ran[n + 1..] == ran[1..][n..];
      n := n + 1;
    }
  }

  // ----- The plan of a test

  /** A command that is skipped, with result false, if the status so far is false. */
  function Gate(status: bool, c: Command, onTrue: Plan, onFalse: Plan): Plan
  {
    if status then Do(c, onTrue, onFalse, Return(Error)) else onFalse
  }

  function SetupPlan(cfg: Config): Plan
  {
    Do(RemoveStale, MakePlan(cfg, true), MakePlan(cfg, false), MakePlan(cfg, false))
  }

  function MakePlan(cfg: Config, status: bool): Plan
  {
    Gate(status, MakeRepoDir, ClonePlan(cfg, true), ClonePlan(cfg, false))
  }

  function ClonePlan(cfg: Config, status: bool): Plan
  {
    Gate(status, CloneRepo, GitPlan(cfg, true), GitPlan(cfg, false))
  }

  predicate HasGitUser(cfg: Config)
  {
    cfg.gitUser != "" && cfg.gitEmail != ""
  }

  function GitPlan(cfg: Config, status: bool): Plan
  {
    if status && HasGitUser(cfg) then
      Do(SetUserName, EmailPlan(cfg, true), EmailPlan(cfg, false), Return(Error))
    else
      TargetPlan(cfg, status)
  }

  /** Whatever comes of the second command, the setup goes on as if it had succeeded. */
  function EmailPlan(cfg: Config, status: bool): Plan
  {
    var next := TargetPlan(cfg, true);
    if status then Do(SetUserEmail, next, next, next) else next
  }

  function TargetPlan(cfg: Config, status: bool): Plan
  {
    match cfg.request.kind
    case PullRequest => Gate(status, FetchPull, MainPlan(true), MainPlan(false))
    case Branch => Gate(status, CheckoutTarget, Return(Value(true)), Return(Value(false)))
    case Tag => Gate(status, CheckoutTarget, Return(Value(true)), Return(Value(false)))
    case Unknown(_) => Return(Error)
  }

  /** The main branch is checked out whatever happened before; the pull is merged if it was fetched. */
  function MainPlan(fetched: bool): Plan
  {
    Do(CheckoutMain, MergePlan(fetched, true), MergePlan(fetched, false), Return(Error))
  }

  function MergePlan(fetched: bool, status: bool): Plan
  {
    if fetched then
      Gate(status, MergePull, Return(Value(true)), Return(Value(false)))
    else
      Return(Value(status))
  }

  function RunPlan(cfg: Config, status: bool): Plan
  {
    if !status then
      Return(Value(false))
    else if cfg.request.runScriptURL != "" then
      Do(DownloadScript, ScriptPlan(true), ScriptPlan(false), Return(Error))
    else
      ScriptPlan(true)
  }

  function ScriptPlan(status: bool): Plan
  {
    Gate(status, RunScript, Return(Value(true)), Return(Value(false)))
  }

  function TearDownPlan(status: bool): Plan
  {
    Gate(status, RemoveWorkDir, Return(Value(true)), Return(Value(false)))
  }

  /** How a plan goes on after a command that ran, or was skipped, with this result. */
  function Onwards(status: bool, plan: Plan, result: Result): Plan
    requires status ==> plan.Do?
  {
    if status then Go(plan, result) else plan
  }

  lemma OnwardsFromSetup(cfg: Config, status: bool, result: Result)
    requires !status ==> result == Value(false)
    ensures Onwards(true, SetupPlan(cfg), result) == MakePlan(cfg, result == Value(true)) || !status
    ensures Onwards(status, MakePlan(cfg, status), result)
         == if result.Error? then Return(Error) else ClonePlan(cfg, result.success)
    ensures Onwards(status, ClonePlan(cfg, status), result)
         == if result.Error? then Return(Error) else GitPlan(cfg, result.success)
  {
  }

  lemma OnwardsFromGit(cfg: Config, status: bool, result: Result)
    requires HasGitUser(cfg)
    ensures Onwards(true, GitPlan(cfg, true), result)
         == if result.Error? then Return(Error) else EmailPlan(cfg, result.success)
    ensures Onwards(status, EmailPlan(cfg, status), result) == TargetPlan(cfg, true)
  {
  }

  lemma OnwardsFromTarget(cfg: Config, status: bool, result: Result)
    requires !cfg.request.kind.Unknown? && (!status ==> result == Value(false))
    ensures Onwards(status, TargetPlan(cfg, status), result)
         == if cfg.request.kind.PullRequest? && result.Value? then MainPlan(result.success) else Return(result)
  {
  }

  lemma OnwardsFromMain(fetched: bool, status: bool, result: Result)
    requires !status ==> result == Value(false)
    ensures Onwards(true, MainPlan(fetched), result)
         == if result.Error? then Return(Error) else MergePlan(fetched, result.success)
    ensures Onwards(status, MergePlan(true, status), result) == Return(result)
  {
  }

  lemma OnwardsFromRun(cfg: Config, status: bool, result: Result)
    requires !status ==> result == Value(false)
    ensures cfg.request.runScriptURL != "" ==>
              Onwards(true, RunPlan(cfg, true), result)
              == if result.Error? then Return(Error) else ScriptPlan(result.success)
    ensures Onwards(status, ScriptPlan(status), result) == Return(result)
    ensures Onwards(status, TearDownPlan(status), result) == Return(result)
  {
  }

  function AfterSetup(cfg: Config): bool -> Plan
  {
    (status: bool) => LastPlan(cfg, status)
  }

  function AfterRun(): bool -> Plan
  {
    (status: bool) => TearDownPlan(status)
  }

  function TestPlan(cfg: Config): Plan
  {
    Then(SetupPlan(cfg), AfterSetup(cfg))
  }

  // ----- Commands in a row, each of which must succeed

  /** The simplest interpreter: run `commands` in order until one does not succeed. An error ends
      everything with an error, except that of removing a stale work directory. */
  predicate InRow(commands: seq<Command>, ran: seq<Ran>, result: Result)
  {
    if commands == [] then
      ran == [] && result == Value(true)
    else
      && ran != [] && ran[0].command == commands[0]
      && match ran[0].result
         case Value(true) => InRow(commands[1..], ran[1..], result)
         case Value(false) => ran[1..] == [] && result == Value(false)
         case Error => ran[1..] == [] && result == if commands[0].RemoveStale? then Value(false) else Error
  }

  lemma {:induction false} InRowConcat(a: seq<Command>, b: seq<Command>, ran: seq<Ran>, ran': seq<Ran>, result: Result)
    requires InRow(a, ran, Value(true)) && InRow(b, ran', result)
    ensures InRow(a + b, ran + ran', result)
  {
    if a == [] {
      assert a + b == b && ran + ran' == ran';
    } else {
      InRowConcat(a[1..], b, ran[1..], ran', result);
      assert (a + b)[1..] == a[1..] + b && (ran + ran')[1..] == ran[1..] + ran';
    }
  }

  lemma {:induction false} InRowStopped(a: seq<Command>, b: seq<Command>, ran: seq<Ran>, result: Result)
    requires InRow(a, ran, result) && result != Value(true)
    ensures InRow(a + b, ran, result)
  {
    if a != [] && ran[0].result == Value(true) {
      InRowStopped(a[1..], b, ran[1..], result);
      assert (a + b)[1..] == a[1..] + b;
    }
  }

  /** The commands that ran are those up to the first one that did not succeed; the result is
      true exactly if all of them ran and succeeded. */
  lemma {:induction false} InRowMeaning(commands: seq<Command>, ran: seq<Ran>, result: Result)
    requires InRow(commands, ran, result)
    ensures |ran| <= |commands|
    ensures forall i :: 0 <= i < |ran| ==> ran[i].command == commands[i]
    ensures forall i :: 0 <= i < |ran| - 1 ==> ran[i].result == Value(true)
    ensures |ran| < |commands| ==> ran != [] && ran[|ran| - 1].result != Value(true)
    ensures result == Value(true)
        <==> |ran| == |commands| && forall i :: 0 <= i < |ran| ==> ran[i].result == Value(true)
  {
    if commands != [] && ran[0].result == Value(true) {
      InRowMeaning(commands[1..], ran[1..], result);
    }
  }

  // ----- What succeeded, in order

  /** Those of `commands` that ran and succeeded, in the order in which they ran. */
  function Kept(ran: seq<Ran>, commands: set<Command>): seq<Command>
  {
    if ran == [] then [] else KeptOne(ran[0], commands) + Kept(ran[1..], commands)
  }

  function KeptOne(first: Ran, commands: set<Command>): seq<Command>
  {
    if first.result == Value(true) && first.command in commands then [first.command] else []
  }

  lemma KeptCons(first: Ran, rest: seq<Ran>, commands: set<Command>)
    ensures Kept([first] + rest, commands) == KeptOne(first, commands) + Kept(rest, commands)
  {
    assert ([first] + rest)[1..] == rest;
  }

  lemma {:induction false} KeptConcat(a: seq<Ran>, b: seq<Ran>, commands: set<Command>)
    ensures Kept(a + b, commands) == Kept(a, commands) + Kept(b, commands)
  {
    if a == [] {
      assert a + b == b;
    } else {
      KeptConcat(a[1..], b, commands);
      assert a + b == [a[0]] + (a[1..] + b);
      KeptCons(a[0], a[1..] + b, commands);
      ConcatIsAssociative(KeptOne(a[0], commands), Kept(a[1..], commands), Kept(b, commands));
    }
  }

  lemma {:induction false} RowIsKept(commands: seq<Command>, ran: seq<Ran>, kept: set<Command>)
    requires InRow(commands, ran, Value(true)) && forall c :: c in commands ==> c in kept
    ensures Kept(ran, kept) == commands
  {
    if commands != [] {
      RowIsKept(commands[1..], ran[1..], kept);
    }
  }

  // ----- Why a test does not pass

  /** Carried out after `failed`, the plan comes to false only after a command that did not succeed,
      and to an error only with such a command as the last, or at once if it is `hopeless`. */
  predicate HasCauses(plan: Plan, failed: bool, hopeless: bool)
  {
    match plan
    case Return(result) => (result == Value(false) ==> failed) && (result == Error ==> hopeless)
    case Do(_, onTrue, onFalse, onError) =>
      HasCauses(onTrue, failed, hopeless) && HasCauses(onFalse, true, hopeless)
      && (onError == Return(Error) || HasCauses(onError, true, hopeless))
  }

  lemma {:induction false} CausesMeaning(plan: Plan, failed: bool, hopeless: bool, ran: seq<Ran>, result: Result)
    requires HasCauses(plan, failed, hopeless) && Follows(plan, ran, result)
    ensures result == Value(false) ==> failed || exists i :: 0 <= i < |ran| && ran[i].result != Value(true)
    ensures result == Error ==> hopeless || (ran != [] && ran[|ran| - 1].result == Error)
  {
    if plan.Do? {
      var next, rest := Go(plan, ran[0].result), ran[1..];
      if !(ran[0].result == Error && next == Return(Error)) {
        CausesMeaning(next, failed || ran[0].result != Value(true), hopeless, rest, result);
        assert forall i :: 0 <= i < |rest| ==> ran[i + 1] == rest[i];
      }
    }
  }

  lemma {:induction false} CausesOfThen(plan: Plan, next: bool -> Plan, failed: bool, hopeless: bool)
    requires HasCauses(plan, failed, hopeless)
    requires HasCauses(next(true), failed, hopeless) && HasCauses(next(true), true, hopeless)
    requires HasCauses(next(false), true, hopeless)
    ensures HasCauses(Then(plan, next), failed, hopeless)
  {
    if plan.Do? {
      CausesOfThen(plan.onTrue, next, failed, hopeless);
      CausesOfThen(plan.onFalse, next, true, hopeless);
      if plan.onError != Return(Error) {
        CausesOfThen(plan.onError, next, true, hopeless);
      }
    }
  }

  lemma SetupHasCauses(cfg: Config)
    ensures HasCauses(SetupPlan(cfg), false, cfg.request.kind.Unknown?)
  {
    var hopeless := cfg.request.kind.Unknown?;
    assert forall fetched :: HasCauses(MergePlan(fetched, true), false, hopeless);
    assert forall fetched, status :: HasCauses(MergePlan(fetched, status), true, hopeless);
    assert HasCauses(MainPlan(true), false, hopeless) && HasCauses(MainPlan(true), true, hopeless);
    assert HasCauses(MainPlan(false), true, hopeless);
    assert HasCauses(TargetPlan(cfg, true), false, hopeless) && HasCauses(TargetPlan(cfg, true), true, hopeless);
    assert HasCauses(TargetPlan(cfg, false), true, hopeless);
    assert HasCauses(EmailPlan(cfg, true), false, hopeless) && HasCauses(EmailPlan(cfg, false), true, hopeless);
    assert HasCauses(GitPlan(cfg, true), false, hopeless) && HasCauses(GitPlan(cfg, false), true, hopeless);
    assert HasCauses(ClonePlan(cfg, true), false, hopeless) && HasCauses(ClonePlan(cfg, false), true, hopeless);
    assert HasCauses(MakePlan(cfg, true), false, hopeless) && HasCauses(MakePlan(cfg, false), true, hopeless);
  }

  lemma LastHasCauses(cfg: Config, failed: bool, hopeless: bool)
    ensures HasCauses(LastPlan(cfg, true), failed, hopeless) && HasCauses(LastPlan(cfg, false), true, hopeless)
  {
    assert forall f :: HasCauses(TearDownPlan(true), f, hopeless) && HasCauses(TearDownPlan(false), true, hopeless);
    assert HasCauses(ScriptPlan(true), failed, hopeless) && HasCauses(ScriptPlan(false), true, hopeless);
    assert HasCauses(RunPlan(cfg, true), failed, hopeless) && HasCauses(RunPlan(cfg, false), true, hopeless);
    CausesOfThen(RunPlan(cfg, true), AfterRun(), failed, hopeless);
    CausesOfThen(RunPlan(cfg, false), AfterRun(), true, hopeless);
  }

  /** A test never comes to false unless some command it ran did not succeed, and never to an error
      unless its last command did, or its kind is unknown. */
  lemma FailureHasCause(cfg: Config, ran: seq<Ran>, result: Result)
    requires Follows(TestPlan(cfg), ran, result)
    ensures result == Value(false) ==> exists i :: 0 <= i < |ran| && ran[i].result != Value(true)
    ensures result == Error ==> cfg.request.kind.Unknown? || (ran != [] && ran[|ran| - 1].result == Error)
  {
    var hopeless := cfg.request.kind.Unknown?;
    SetupHasCauses(cfg);
    LastHasCauses(cfg, false, hopeless);
    LastHasCauses(cfg, true, hopeless);
    CausesOfThen(SetupPlan(cfg), AfterSetup(cfg), false, hopeless);
    CausesMeaning(TestPlan(cfg), false, hopeless, ran, result);
  }

  // ----- Branches and tags

  /** Without the configuration of the git user, which decides nothing but may end everything. */
  function Deciding(ran: seq<Ran>): seq<Ran>
  {
    if ran == [] then
      []
    else
      DecidingOne(ran[0]) + Deciding(ran[1..])
  }

  function DecidingOne(first: Ran): seq<Ran>
  {
    if first.command in {SetUserName, SetUserEmail} then [] else [first]
  }

  lemma DecidingCons(first: Ran, rest: seq<Ran>)
    ensures Deciding([first] + rest) == DecidingOne(first) + Deciding(rest)
  {
    assert ([first] + rest)[1..] == rest;
  }

  lemma {:induction false} DecidingConcat(a: seq<Ran>, b: seq<Ran>)
    ensures Deciding(a + b) == Deciding(a) + Deciding(b)
  {
    if a == [] {
      assert a + b == b;
    } else {
      DecidingConcat(a[1..], b);
      assert a + b == [a[0]] + (a[1..] + b);
      DecidingCons(a[0], a[1..] + b);
      ConcatIsAssociative(DecidingOne(a[0]), Deciding(a[1..]), Deciding(b));
    }
  }

  function SetupCommands(): seq<Command>
  {
    [RemoveStale, MakeRepoDir, CloneRepo, CheckoutTarget]
  }

  function RunCommands(cfg: Config): seq<Command>
  {
    (if cfg.request.runScriptURL != "" then [DownloadScript] else []) + [RunScript, RemoveWorkDir]
  }

  predicate IsCheckout(cfg: Config)
  {
    cfg.request.kind.Branch? || cfg.request.kind.Tag?
  }

  lemma SkippedTarget(cfg: Config, ran: seq<Ran>, result: Result)
    requires IsCheckout(cfg)
    requires Follows(MakePlan(cfg, false), ran, result) || Follows(ClonePlan(cfg, false), ran, result)
             || Follows(GitPlan(cfg, false), ran, result)
    ensures ran == [] && result == Value(false)
  {
  }

  /** The setup ends with an error while naming the git user, or runs `commands` in a row. */
  predicate SetsUp(commands: seq<Command>, ran: seq<Ran>, result: Result)
  {
    if Ran(SetUserName, Error) in ran then result == Error else InRow(commands, Deciding(ran), result)
  }

  lemma GateSetsUp(c: Command, commands: seq<Command>, ran: seq<Ran>, result: Result)
    requires ran != [] && ran[0].command == c && !c.SetUserName? && !c.SetUserEmail?
    requires match ran[0].result
             case Value(true) => SetsUp(commands, ran[1..], result)
             case Value(false) => ran[1..] == [] && result == Value(false)
             case Error => ran[1..] == [] && result == if c.RemoveStale? then Value(false) else Error
    ensures SetsUp([c] + commands, ran, result)
  {
    assert ran == [ran[0]] + ran[1..];
    assert Deciding(ran) == [ran[0]] + Deciding(ran[1..]);
    assert Deciding(ran)[1..] == Deciding(ran[1..]);
    assert ([c] + commands)[1..] == commands;
  }

  lemma UserSetsUp(commands: seq<Command>, ran: seq<Ran>, result: Result)
    requires ran != [] && ran[0].command in {SetUserName, SetUserEmail}
    requires if ran[0] == Ran(SetUserName, Error) then result == Error else SetsUp(commands, ran[1..], result)
    ensures SetsUp(commands, ran, result)
  {
    assert ran == [ran[0]] + ran[1..];
    assert Deciding(ran) == Deciding(ran[1..]);
  }

  lemma TargetSetsUp(cfg: Config, ran: seq<Ran>, result: Result)
    requires IsCheckout(cfg) && Follows(TargetPlan(cfg, true), ran, result)
    ensures SetsUp([CheckoutTarget], ran, result)
  {
    assert Deciding([]) == [];
    GateSetsUp(CheckoutTarget, [], ran, result);
    assert [CheckoutTarget] + [] == [CheckoutTarget];
  }

  lemma GitSetsUp(cfg: Config, ran: seq<Ran>, result: Result)
    requires IsCheckout(cfg) && Follows(GitPlan(cfg, true), ran, result)
    ensures SetsUp([CheckoutTarget], ran, result)
  {
    if !HasGitUser(cfg) {
      TargetSetsUp(cfg, ran, result);
    } else {
      if ran[0].result == Value(true) {
        TargetSetsUp(cfg, ran[1..][1..], result);
        UserSetsUp([CheckoutTarget], ran[1..], result);
      } else if ran[0].result == Value(false) {
        TargetSetsUp(cfg, ran[1..], result);
      }
      UserSetsUp([CheckoutTarget], ran, result);
    }
  }

  lemma CloneSetsUp(cfg: Config, ran: seq<Ran>, result: Result)
    requires IsCheckout(cfg) && Follows(ClonePlan(cfg, true), ran, result)
    ensures SetsUp(SetupCommands()[2..], ran, result)
  {
    if ran[0].result == Value(true) {
      GitSetsUp(cfg, ran[1..], result);
    }
    GateSetsUp(CloneRepo, [CheckoutTarget], ran, result);
    assert [CloneRepo] + [CheckoutTarget] == SetupCommands()[2..];
  }

  lemma MakeSetsUp(cfg: Config, ran: seq<Ran>, result: Result)
    requires IsCheckout(cfg) && Follows(MakePlan(cfg, true), ran, result)
    ensures SetsUp(SetupCommands()[1..], ran, result)
  {
    if ran[0].result == Value(true) {
      CloneSetsUp(cfg, ran[1..], result);
    } else if ran[0].result == Value(false) {
      SkippedTarget(cfg, ran[1..], result);
    }
    GateSetsUp(MakeRepoDir, SetupCommands()[2..], ran, result);
    assert [MakeRepoDir] + SetupCommands()[2..] == SetupCommands()[1..];
  }

  lemma SetupSetsUp(cfg: Config, ran: seq<Ran>, result: Result)
    requires IsCheckout(cfg) && Follows(SetupPlan(cfg), ran, result)
    ensures SetsUp(SetupCommands(), ran, result)
  {
    if ran[0].result == Value(true) {
      MakeSetsUp(cfg, ran[1..], result);
    } else {
      SkippedTarget(cfg, ran[1..], result);
    }
    GateSetsUp(RemoveStale, SetupCommands()[1..], ran, result);
    assert [RemoveStale] + SetupCommands()[1..] == SetupCommands();
  }

  // ----- From the scripts to the end

  function LastPlan(cfg: Config, status: bool): Plan
  {
    Then(RunPlan(cfg, status), AfterRun())
  }

  lemma ScriptInRow(ran: seq<Ran>, result: Result)
    requires Follows(Then(ScriptPlan(true), AfterRun()), ran, result)
    ensures InRow([RunScript, RemoveWorkDir], ran, result)
  {
    if ran[0].result == Value(true) {
      TearDownInRow(ran[1..], result);
    }
    assert [RunScript, RemoveWorkDir][1..] == [RemoveWorkDir];
  }

  lemma TearDownInRow(ran: seq<Ran>, result: Result)
    requires Follows(TearDownPlan(true), ran, result)
    ensures InRow([RemoveWorkDir], ran, result)
  {
    assert [RemoveWorkDir][1..] == [];
  }

  lemma LastInRow(cfg: Config, ran: seq<Ran>, result: Result)
    requires Follows(LastPlan(cfg, true), ran, result)
    ensures InRow(RunCommands(cfg), ran, result)
  {
    if cfg.request.runScriptURL != "" {
      if ran[0].result == Value(true) {
        ScriptInRow(ran[1..], result);
      }
      assert RunCommands(cfg)[1..] == [RunScript, RemoveWorkDir];
    } else {
      ScriptInRow(ran, result);
      assert RunCommands(cfg) == [RunScript, RemoveWorkDir];
    }
  }

  lemma {:induction false} InRowIsDeciding(commands: seq<Command>, ran: seq<Ran>, result: Result)
    requires InRow(commands, ran, result) && SetUserName !in commands && SetUserEmail !in commands
    ensures Deciding(ran) == ran && Ran(SetUserName, Error) !in ran
  {
    if ran != [] {
      assert ran == [ran[0]] + ran[1..];
      assert Deciding([]) == [];
      if ran[0].result == Value(true) {
        InRowIsDeciding(commands[1..], ran[1..], result);
      }
    }
  }

  /** The commands that decide a test of a branch or a tag. */
  function DecidingCommands(cfg: Config): seq<Command>
  {
    SetupCommands() + RunCommands(cfg)
  }

  /** For a branch or a tag, a test is the row of its deciding commands: it runs them up to the
      first one that does not succeed. Only naming the git user can end it earlier, in an error. */
  lemma CheckoutTestIsInRow(cfg: Config, ran: seq<Ran>, result: Result)
    requires IsCheckout(cfg) && Follows(TestPlan(cfg), ran, result)
    ensures SetsUp(DecidingCommands(cfg), ran, result)
  {
    var n, r := SplitThen(SetupPlan(cfg), AfterSetup(cfg), ran, result);
    var setup, last := ran[..n], ran[n..];
    assert ran == setup + last;
    DecidingConcat(setup, last);
    SetupSetsUp(cfg, setup, r);
    if r == Value(true) {
      LastInRow(cfg, last, result);
      InRowIsDeciding(RunCommands(cfg), last, result);
      InRowConcat(SetupCommands(), RunCommands(cfg), Deciding(setup), last, result);
    } else {
      assert last == [] && result == r;
      assert setup == ran;
      if Ran(SetUserName, Error) !in ran {
        InRowStopped(SetupCommands(), RunCommands(cfg), Deciding(ran), result);
      }
    }
  }

  /** In terms of what ran: a test of a branch or a tag succeeds exactly if every deciding command
      ran and succeeded, and it never goes on after one that did not. */
  lemma CheckoutTestMeaning(cfg: Config, ran: seq<Ran>, result: Result)
    requires IsCheckout(cfg) && Follows(TestPlan(cfg), ran, result) && Ran(SetUserName, Error) !in ran
    ensures var deciding, commands := Deciding(ran), DecidingCommands(cfg);
            && |deciding| <= |commands|
            && (forall i :: 0 <= i < |deciding| ==> deciding[i].command == commands[i])
            && (forall i :: 0 <= i < |deciding| - 1 ==> deciding[i].result == Value(true))
            && (|deciding| < |commands| ==> deciding != [] && deciding[|deciding| - 1].result != Value(true))
            && (result == Value(true) <==>
                |deciding| == |commands| && forall i :: 0 <= i < |deciding| ==> deciding[i].result == Value(true))
  {
    CheckoutTestIsInRow(cfg, ran, result);
    InRowMeaning(DecidingCommands(cfg), Deciding(ran), result);
  }

  const CHECKOUT_COMMANDS :=
    {RemoveStale, MakeRepoDir, CloneRepo, CheckoutTarget, DownloadScript, RunScript, RemoveWorkDir}

  lemma {:induction false} DecidingIsKept(ran: seq<Ran>)
    ensures Kept(Deciding(ran), CHECKOUT_COMMANDS) == Kept(ran, CHECKOUT_COMMANDS)
  {
    if ran != [] {
      DecidingIsKept(ran[1..]);
      if ran[0].command !in {SetUserName, SetUserEmail} {
        KeptCons(ran[0], Deciding(ran[1..]), CHECKOUT_COMMANDS);
      } else {
        assert DecidingOne(ran[0]) + Deciding(ran[1..]) == Deciding(ran[1..]);
      }
    }
  }

  /** So a test that has passed has run all of them with success, in this order. */
  lemma PassedCheckoutIsInOrder(cfg: Config, ran: seq<Ran>)
    requires IsCheckout(cfg) && Follows(TestPlan(cfg), ran, Value(true))
    ensures Kept(ran, CHECKOUT_COMMANDS) == DecidingCommands(cfg)
  {
    CheckoutTestIsInRow(cfg, ran, Value(true));
    RowIsKept(DecidingCommands(cfg), Deciding(ran), CHECKOUT_COMMANDS);
    DecidingIsKept(ran);
  }

  /** With a git user, the fourth command names the user and the fifth, if that succeeded, the email. */
  lemma GitUserIsNamed(cfg: Config, ran: seq<Ran>)
    requires IsCheckout(cfg) && Follows(TestPlan(cfg), ran, Value(true)) && cfg.gitUser != "" && cfg.gitEmail != ""
    ensures |ran| > 3 && ran[3].command == SetUserName
    ensures ran[3].result == Value(true) ==> |ran| > 4 && ran[4].command == SetUserEmail
  {
    var n, r := SplitThen(SetupPlan(cfg), AfterSetup(cfg), ran, Value(true));
    var setup, last := ran[..n], ran[n..];
    if r == Value(false) {
      NothingAfterFailedSetup(cfg, last, Value(true));
    }
    GitUserIsNamedInSetup(cfg, setup);
  }

  lemma SetupGoesOn(cfg: Config, ran: seq<Ran>)
    requires IsCheckout(cfg) && Follows(SetupPlan(cfg), ran, Value(true))
    ensures ran != [] && Follows(MakePlan(cfg, true), ran[1..], Value(true))
  {
    if ran[0].result != Value(true) {
      SkippedTarget(cfg, ran[1..], Value(true));
    }
  }

  lemma MakeGoesOn(cfg: Config, ran: seq<Ran>)
    requires IsCheckout(cfg) && Follows(MakePlan(cfg, true), ran, Value(true))
    ensures ran != [] && Follows(ClonePlan(cfg, true), ran[1..], Value(true))
  {
    if ran[0].result == Value(false) {
      SkippedTarget(cfg, ran[1..], Value(true));
    }
  }

  lemma CloneGoesOn(cfg: Config, ran: seq<Ran>)
    requires IsCheckout(cfg) && Follows(ClonePlan(cfg, true), ran, Value(true))
    ensures ran != [] && Follows(GitPlan(cfg, true), ran[1..], Value(true))
  {
    if ran[0].result == Value(false) {
      SkippedTarget(cfg, ran[1..], Value(true));
    }
  }

  lemma GitUserIsNamedInSetup(cfg: Config, ran: seq<Ran>)
    requires IsCheckout(cfg) && Follows(SetupPlan(cfg), ran, Value(true)) && cfg.gitUser != "" && cfg.gitEmail != ""
    ensures |ran| > 3 && ran[3].command == SetUserName
    ensures ran[3].result == Value(true) ==> |ran| > 4 && ran[4].command == SetUserEmail
  {
    SetupGoesOn(cfg, ran);
    MakeGoesOn(cfg, ran[1..]);
    CloneGoesOn(cfg, ran[1..][1..]);
    var named := ran[1..][1..][1..];
    assert named[0] == ran[3];
    if named[0].result == Value(true) {
      assert named[1..][0] == ran[4];
    }
  }

  // ----- The run script

  lemma NothingAfterFailedSetup(cfg: Config, ran: seq<Ran>, result: Result)
    requires Follows(LastPlan(cfg, false), ran, result)
    ensures ran == [] && result == Value(false)
  {
  }

  predicate Executed(ran: seq<Ran>, c: Command)
  {
    exists i :: 0 <= i < |ran| && ran[i].command == c
  }

  predicate Mentions(plan: Plan, c: Command)
  {
    plan.Do?
    && (plan.command == c || Mentions(plan.onTrue, c) || Mentions(plan.onFalse, c) || Mentions(plan.onError, c))
  }

  lemma {:induction false} OnlyMentionedRun(plan: Plan, ran: seq<Ran>, result: Result, c: Command)
    requires Follows(plan, ran, result) && !Mentions(plan, c)
    ensures !Executed(ran, c)
  {
    if plan.Do? {
      OnlyMentionedRun(Go(plan, ran[0].result), ran[1..], result, c);
      assert forall i :: 0 < i < |ran| ==> ran[i] == ran[1..][i - 1];
    }
  }

  lemma SetupMentionsNoScript(cfg: Config, c: Command)
    requires c in {DownloadScript, RunScript, RemoveWorkDir}
    ensures !Mentions(SetupPlan(cfg), c)
  {
    assert forall s :: !Mentions(MergePlan(true, s), c) && !Mentions(MergePlan(false, s), c);
    assert forall f :: !Mentions(MainPlan(f), c);
    assert forall s :: !Mentions(TargetPlan(cfg, s), c);
    assert forall s :: !Mentions(GitPlan(cfg, s), c);
    assert forall s :: !Mentions(ClonePlan(cfg, s), c);
    assert forall s :: !Mentions(MakePlan(cfg, s), c);
  }

  /** The run script is executed only after a setup that came to true, whatever the kind. */
  lemma ScriptNeedsSetup(cfg: Config, ran: seq<Ran>, result: Result) returns (n: nat)
    requires Follows(TestPlan(cfg), ran, result) && Executed(ran, RunScript)
    ensures n <= |ran| && Follows(SetupPlan(cfg), ran[..n], Value(true))
    ensures !Executed(ran[..n], RunScript)
  {
    var r;
    n, r := SplitThen(SetupPlan(cfg), AfterSetup(cfg), ran, result);
    assert ran[..n] + ran[n..] == ran;
    SetupHasSucceeded(cfg, ran[..n], r, ran[n..], result);
  }

  lemma SetupHasSucceeded(cfg: Config, setup: seq<Ran>, r: Result, last: seq<Ran>, result: Result)
    requires Follows(SetupPlan(cfg), setup, r) && Executed(setup + last, RunScript)
    requires if r.Error? then last == [] else Follows(LastPlan(cfg, r.success), last, result)
    ensures r == Value(true) && !Executed(setup, RunScript)
  {
    SetupMentionsNoScript(cfg, RunScript);
    OnlyMentionedRun(SetupPlan(cfg), setup, r, RunScript);
    ExecutedConcat(setup, last, RunScript);
    if r == Value(false) {
      NothingAfterFailedSetup(cfg, last, result);
    }
  }

  lemma ExecutedConcat(a: seq<Ran>, b: seq<Ran>, c: Command)
    requires Executed(a + b, c)
    ensures Executed(a, c) || Executed(b, c)
  {
    var i :| 0 <= i < |a + b| && (a + b)[i].command == c;
    assert if i < |a| then (a + b)[i] == a[i] else (a + b)[i] == b[i - |a|];
  }

  // ----- Pull requests

  predicate Succeeded(ran: seq<Ran>, c: Command)
  {
    Ran(c, Value(true)) in ran
  }

  lemma SucceededFirst(ran: seq<Ran>, c: Command)
    requires ran != []
    ensures Succeeded(ran, c) <==> ran[0] == Ran(c, Value(true)) || Succeeded(ran[1..], c)
  {
    assert ran == [ran[0]] + ran[1..];
  }

  lemma OnlyMentionedSucceed(plan: Plan, ran: seq<Ran>, result: Result, c: Command)
    requires Follows(plan, ran, result) && !Mentions(plan, c)
    ensures !Succeeded(ran, c)
  {
    OnlyMentionedRun(plan, ran, result, c);
  }

  /** A pull request is set up exactly if the main branch was checked out and, provided that the
      pull was fetched, merged. */
  const PULL_COMMANDS := {FetchPull, CheckoutMain, MergePull, DownloadScript, RunScript, RemoveWorkDir}

  function PullCommands(ran: seq<Ran>): seq<Command>
  {
    if Succeeded(ran, FetchPull) then [FetchPull, CheckoutMain, MergePull] else [CheckoutMain]
  }

  /** In this order: the pull was fetched, if it was, main was checked out, and a fetched pull merged. */
  predicate PullIsInOrder(ran: seq<Ran>)
  {
    Kept(ran, PULL_COMMANDS) == PullCommands(ran)
  }

  predicate PullIsSetUp(ran: seq<Ran>)
  {
    Succeeded(ran, CheckoutMain) && (Succeeded(ran, FetchPull) ==> Succeeded(ran, MergePull))
  }

  lemma MainMeaning(fetched: bool, ran: seq<Ran>, result: Result)
    requires Follows(MainPlan(fetched), ran, result)
    ensures result == Value(true) <==> Succeeded(ran, CheckoutMain) && (fetched ==> Succeeded(ran, MergePull))
    ensures !Succeeded(ran, FetchPull)
    ensures result == Value(true) ==>
              Kept(ran, PULL_COMMANDS) == if fetched then [CheckoutMain, MergePull] else [CheckoutMain]
  {
    SucceededFirst(ran, CheckoutMain);
    SucceededFirst(ran, MergePull);
    SucceededFirst(ran, FetchPull);
    if ran[0].result != Error {
      MergeMeaning(fetched, ran[0].result.success, ran[1..], result);
    }
  }

  lemma MergeMeaning(fetched: bool, status: bool, ran: seq<Ran>, result: Result)
    requires Follows(MergePlan(fetched, status), ran, result)
    ensures result == Value(true) <==> status && (fetched ==> Succeeded(ran, MergePull))
    ensures !Succeeded(ran, CheckoutMain) && !Succeeded(ran, FetchPull)
    ensures result == Value(true) ==> Kept(ran, PULL_COMMANDS) == if fetched then [MergePull] else []
  {
    if ran != [] {
      SucceededFirst(ran, CheckoutMain);
      SucceededFirst(ran, FetchPull);
      SucceededFirst(ran, MergePull);
    }
  }

  lemma PullTargetMeaning(cfg: Config, status: bool, ran: seq<Ran>, result: Result)
    requires cfg.request.kind.PullRequest? && Follows(TargetPlan(cfg, status), ran, result)
    ensures result == Value(true) <==> PullIsSetUp(ran)
    ensures result == Value(true) ==> PullIsInOrder(ran)
  {
    if !status {
      MainMeaning(false, ran, result);
    } else {
      SucceededFirst(ran, CheckoutMain);
      SucceededFirst(ran, FetchPull);
      SucceededFirst(ran, MergePull);
      if ran[0].result != Error {
        MainMeaning(ran[0].result.success, ran[1..], result);
      }
    }
  }

  lemma EarlierCommand(ran: seq<Ran>)
    requires ran != [] && ran[0].command !in PULL_COMMANDS
    ensures PullIsSetUp(ran) == PullIsSetUp(ran[1..]) && PullIsInOrder(ran) == PullIsInOrder(ran[1..])
  {
    SucceededFirst(ran, CheckoutMain);
    SucceededFirst(ran, FetchPull);
    SucceededFirst(ran, MergePull);
  }

  lemma PullGitMeaning(cfg: Config, status: bool, ran: seq<Ran>, result: Result)
    requires cfg.request.kind.PullRequest? && Follows(GitPlan(cfg, status), ran, result)
    ensures result == Value(true) <==> PullIsSetUp(ran)
    ensures result == Value(true) ==> PullIsInOrder(ran)
  {
    if status && HasGitUser(cfg) {
      EarlierCommand(ran);
      if ran[0].result == Value(true) {
        EarlierCommand(ran[1..]);
        PullTargetMeaning(cfg, true, ran[1..][1..], result);
      } else if ran[0].result == Value(false) {
        PullTargetMeaning(cfg, true, ran[1..], result);
      }
    } else {
      PullTargetMeaning(cfg, status, ran, result);
    }
  }

  lemma PullCloneMeaning(cfg: Config, status: bool, ran: seq<Ran>, result: Result)
    requires cfg.request.kind.PullRequest? && Follows(ClonePlan(cfg, status), ran, result)
    ensures result == Value(true) <==> PullIsSetUp(ran)
    ensures result == Value(true) ==> PullIsInOrder(ran)
  {
    if status {
      EarlierCommand(ran);
      if ran[0].result != Error {
        PullGitMeaning(cfg, ran[0].result.success, ran[1..], result);
      }
    } else {
      PullGitMeaning(cfg, false, ran, result);
    }
  }

  lemma PullMakeMeaning(cfg: Config, status: bool, ran: seq<Ran>, result: Result)
    requires cfg.request.kind.PullRequest? && Follows(MakePlan(cfg, status), ran, result)
    ensures result == Value(true) <==> PullIsSetUp(ran)
    ensures result == Value(true) ==> PullIsInOrder(ran)
  {
    if status {
      EarlierCommand(ran);
      if ran[0].result != Error {
        PullCloneMeaning(cfg, ran[0].result.success, ran[1..], result);
      }
    } else {
      PullCloneMeaning(cfg, false, ran, result);
    }
  }

  lemma PullSetupMeaning(cfg: Config, ran: seq<Ran>, result: Result)
    requires cfg.request.kind.PullRequest? && Follows(SetupPlan(cfg), ran, result)
    ensures result == Value(true) <==> PullIsSetUp(ran)
    ensures result == Value(true) ==> PullIsInOrder(ran)
  {
    EarlierCommand(ran);
    PullMakeMeaning(cfg, ran[0].result == Value(true), ran[1..], result);
  }

  lemma LastMeaning(cfg: Config, ran: seq<Ran>, result: Result, c: Command)
    requires Follows(LastPlan(cfg, true), ran, result)
    ensures result == Value(true) <==> forall d :: d in RunCommands(cfg) ==> Succeeded(ran, d)
    ensures c !in RunCommands(cfg) ==> !Succeeded(ran, c)
  {
    LastInRow(cfg, ran, result);
    InRowMeaning(RunCommands(cfg), ran, result);
    InRowSuccess(RunCommands(cfg), ran, result);
  }

  lemma {:induction false} InRowSuccess(commands: seq<Command>, ran: seq<Ran>, result: Result)
    requires InRow(commands, ran, result)
    requires forall i, j :: 0 <= i < j < |commands| ==> commands[i] != commands[j]
    ensures result == Value(true) <==> forall d :: d in commands ==> Succeeded(ran, d)
  {
    InRowMeaning(commands, ran, result);
    if result == Value(true) {
      forall d | d in commands ensures Succeeded(ran, d) {
        var i :| 0 <= i < |commands| && commands[i] == d;
        assert ran[i] == Ran(d, Value(true));
      }
    } else {
      var d := commands[|ran| - 1];
      assert forall i :: 0 <= i < |ran| ==> ran[i] != Ran(d, Value(true));
      assert d in commands && !Succeeded(ran, d);
    }
  }

  lemma SetupRunsNoScript(cfg: Config, setup: seq<Ran>, result: Result)
    requires Follows(SetupPlan(cfg), setup, result)
    ensures forall c :: c in RunCommands(cfg) ==> !Succeeded(setup, c)
  {
    forall c | c in RunCommands(cfg) ensures !Succeeded(setup, c) {
      SetupMentionsNoScript(cfg, c);
      OnlyMentionedSucceed(SetupPlan(cfg), setup, result, c);
    }
  }

  lemma LastOfPull(cfg: Config, setup: seq<Ran>, last: seq<Ran>, result: Result)
    requires PullIsSetUp(setup) && forall c :: c in RunCommands(cfg) ==> !Succeeded(setup, c)
    requires Follows(LastPlan(cfg, true), last, result)
    ensures PullIsSetUp(setup + last)
    ensures result == Value(true) <==> forall c :: c in RunCommands(cfg) ==> Succeeded(setup + last, c)
  {
    LastMeaning(cfg, last, result, CheckoutMain);
    LastMeaning(cfg, last, result, FetchPull);
    LastMeaning(cfg, last, result, MergePull);
  }

  /** A test of a pull request succeeds exactly if the main branch was checked out, the pull was
      merged provided that it was fetched, and download, run and removal all succeeded. Cleaning
      up, creating the directories and cloning decide nothing. */
  lemma PullTestMeaning(cfg: Config, ran: seq<Ran>, result: Result)
    requires cfg.request.kind.PullRequest? && Follows(TestPlan(cfg), ran, result)
    ensures result == Value(true) <==> PullIsSetUp(ran) && forall c :: c in RunCommands(cfg) ==> Succeeded(ran, c)
  {
    var n, r := SplitThen(SetupPlan(cfg), AfterSetup(cfg), ran, result);
    var setup, last := ran[..n], ran[n..];
    assert ran == setup + last;
    PullSetupMeaning(cfg, setup, r);
    if r == Value(true) {
      SetupRunsNoScript(cfg, setup, r);
      LastOfPull(cfg, setup, last, result);
    } else {
      if r == Value(false) {
        NothingAfterFailedSetup(cfg, last, result);
      }
      assert last == [] && setup == ran;
    }
  }

  lemma PullGoesOnInOrder(cfg: Config, setup: seq<Ran>, last: seq<Ran>)
    requires PullIsInOrder(setup) && Follows(LastPlan(cfg, true), last, Value(true))
    ensures Kept(setup + last, PULL_COMMANDS) == PullCommands(setup + last) + RunCommands(cfg)
  {
    LastInRow(cfg, last, Value(true));
    RowIsKept(RunCommands(cfg), last, PULL_COMMANDS);
    LastMeaning(cfg, last, Value(true), FetchPull);
    KeptConcat(setup, last, PULL_COMMANDS);
    assert Succeeded(setup + last, FetchPull) == Succeeded(setup, FetchPull);
  }

  /** A pull request that has passed has run these with success, in this order. */
  lemma PassedPullIsInOrder(cfg: Config, ran: seq<Ran>)
    requires cfg.request.kind.PullRequest? && Follows(TestPlan(cfg), ran, Value(true))
    ensures Kept(ran, PULL_COMMANDS) == PullCommands(ran) + RunCommands(cfg)
  {
    var n, r := SplitThen(SetupPlan(cfg), AfterSetup(cfg), ran, Value(true));
    var setup, last := ran[..n], ran[n..];
    assert ran == setup + last;
    PullSetupMeaning(cfg, setup, r);
    if r == Value(false) {
      NothingAfterFailedSetup(cfg, last, Value(true));
    }
    PullGoesOnInOrder(cfg, setup, last);
  }

  /** So a pull request can pass although its repository could not be cloned. */
  lemma FailedCloneCanPass(cfg: Config)
    requires cfg.request.kind.PullRequest? && cfg.request.runScriptURL == ""
    ensures Follows(TestPlan(cfg), [
              Ran(RemoveStale, Value(true)), Ran(MakeRepoDir, Value(true)), Ran(CloneRepo, Value(false)),
              Ran(CheckoutMain, Value(true)), Ran(RunScript, Value(true)), Ran(RemoveWorkDir, Value(true))],
             Value(true))
  {
    var setup := [Ran(RemoveStale, Value(true)), Ran(MakeRepoDir, Value(true)), Ran(CloneRepo, Value(false)),
                  Ran(CheckoutMain, Value(true))];
    assert Follows(MainPlan(false), setup[1..][1..][1..], Value(true));
    assert Follows(ClonePlan(cfg, true), setup[1..][1..], Value(true));
    assert Follows(SetupPlan(cfg), setup, Value(true));
    var last := [Ran(RunScript, Value(true)), Ran(RemoveWorkDir, Value(true))];
    assert Follows(LastPlan(cfg, true), last, Value(true));
    FollowsThen(SetupPlan(cfg), AfterSetup(cfg), setup, true, last, Value(true));
    assert setup + last == [
        Ran(RemoveStale, Value(true)), Ran(MakeRepoDir, Value(true)), Ran(CloneRepo, Value(false)),
        Ran(CheckoutMain, Value(true)), Ran(RunScript, Value(true)), Ran(RemoveWorkDir, Value(true))];
  }
}
