/** Executors: what a worker may observe of them, and how the local one treats its process. */
module Executors {
  import opened PrintStream
  import opened Sequences
  import opened Nodes

  datatype InitOutcome =
    | Ready
    | EmptyCommand
    | NoWorkingDirectory
    | NoSuchDirectory
    | NoConnection
    | NoPipe

  datatype WaitResult = Exited(success: bool) | WaitError

  /** What the reader of a started command yields: its output up to the end, or up to an error. */
  datatype Output = Output(text: string, failed: bool)

  /** What InitCommand is given: the directory, the command line, a copy of the variables and the tags. */
  datatype Order = Order(dir: string, argv: seq<string>, env: map<string, string>, tags: seq<string>)

  /** One call of an executor, or the word of the reader goroutine, with its outcome. */
  datatype Event =
    | Init(order: Order, outcome: InitOutcome)
    | Started(ok: bool)
    | Drained(output: Output)
    | Waited(result: WaitResult)
    | Closed

  // ----- One attempt at a command

  datatype Attempt =
    | InitFailed(outcome: InitOutcome)
    | StartFailed
    | ReadFailed(text: string)
    | WaitFailed(text: string)
    | FlushFailed(text: string, exit: bool)
    | Done(text: string, success: bool)

  predicate IsAttempt(a: Attempt)
  {
    a.InitFailed? ==> a.outcome != Ready
  }

  /** What happens between a successful InitCommand and the Close that is deferred to the end. */
  function Middle(a: Attempt): seq<Event>
  {
    match a
    case InitFailed(_) => []
    case StartFailed => [Started(false)]
    case ReadFailed(text) => [Started(true), Drained(Output(text, true))]
    case WaitFailed(text) => [Started(true), Drained(Output(text, false)), Waited(WaitError)]
    case FlushFailed(text, exit) => [Started(true), Drained(Output(text, false)), Waited(Exited(exit))]
    case Done(text, success) => [Started(true), Drained(Output(text, false)), Waited(Exited(success))]
  }

  /** What an attempt has yielded; an attempt that did not start has not yielded anything. */
  function YieldOf(a: Attempt): string
  {
    if a.InitFailed? || a.StartFailed? then "" else a.text
  }

  function EventsOf(order: Order, a: Attempt): seq<Event>
  {
    if a.InitFailed? then [Init(order, a.outcome)] else [Init(order, Ready)] + Middle(a) + [Closed]
  }

  lemma OpenedEvents(before: seq<Event>, order: Order, a: Attempt)
    requires !a.InitFailed?
    ensures before + [Init(order, Ready)] + (Middle(a) + [Closed]) == before + EventsOf(order, a)
  {
  }

  function TraceOf(order: Order, attempts: seq<Attempt>): seq<Event>
  {
    if attempts == [] then
      []
    else
      TraceOf(order, attempts[..|attempts| - 1]) + EventsOf(order, attempts[|attempts| - 1])
  }

  // ----- What can be read off a trace

  /** The last thing in `trace` is a command that was opened with `order`, was started, yielded `text`
      to the end, exited with or without success, and was closed. */
  predicate ComesToEnd(trace: seq<Event>, order: Order, text: string, exit: bool)
  {
    var n := |trace|;
    && n >= 5
    && trace[n - 5] == Init(order, Ready) && trace[n - 4] == Started(true)
    && trace[n - 3] == Drained(Output(text, false)) && trace[n - 2] == Waited(Exited(exit)) && trace[n - 1] == Closed
  }

  lemma DoneHasEnded(before: seq<Event>, order: Order, attempts: seq<Attempt>)
    requires attempts != [] && attempts[|attempts| - 1].Done?
    ensures var last := attempts[|attempts| - 1];
            ComesToEnd(before + TraceOf(order, attempts), order, last.text, last.success)
  {
    var front, last := attempts[..|attempts| - 1], attempts[|attempts| - 1];
    var events := EventsOf(order, last);
    assert events == [Init(order, Ready), Started(true), Drained(Output(last.text, false)),
                      Waited(Exited(last.success)), Closed];
    ConcatIsAssociative(before, TraceOf(order, front), events);
  }

  /** Whatever is opened in `trace` is opened with `order`. */
  predicate OnlyOpens(trace: seq<Event>, order: Order)
  {
    forall i :: 0 <= i < |trace| && trace[i].Init? ==> trace[i].order == order
  }

  lemma {:induction false} AttemptsOnlyOpen(order: Order, attempts: seq<Attempt>)
    ensures OnlyOpens(TraceOf(order, attempts), order)
  {
    if attempts != [] {
      var front, last := attempts[..|attempts| - 1], attempts[|attempts| - 1];
      AttemptsOnlyOpen(order, front);
      OpensConcat(TraceOf(order, front), EventsOf(order, last), order);
    }
  }

  lemma OpensConcat(a: seq<Event>, b: seq<Event>, order: Order)
    requires OnlyOpens(a, order) && OnlyOpens(b, order)
    ensures OnlyOpens(a + b, order)
  {
  }

  // ----- The bracket that every executor is used in

  datatype Session = Unopened | Opened | Running | OutputRead | Reaped | Broken | Misused

  /** Start follows a successful InitCommand, Wait follows the drained output, and Close ends what
      InitCommand opened, exactly once. */
  function Use(s: Session, e: Event): Session
  {
    match (s, e)
    case (Unopened, Init(_, outcome)) => if outcome == Ready then Opened else Unopened
    case (Opened, Started(ok)) => if ok then Running else Broken
    case (Running, Drained(output)) => if output.failed then Broken else OutputRead
    case (OutputRead, Waited(_)) => Reaped
    case (Reaped, Closed) => Unopened
    case (Broken, Closed) => Unopened
    case (_, _) => Misused
  }

  function UseAll(s: Session, trace: seq<Event>): Session
  {
    if trace == [] then s else Use(UseAll(s, trace[..|trace| - 1]), trace[|trace| - 1])
  }

  lemma UseOne(s: Session, trace: seq<Event>, e: Event)
    ensures UseAll(s, trace + [e]) == Use(UseAll(s, trace), e)
  {
    assert (trace + [e])[..|trace|] == trace;
  }

  lemma {:induction false} UseConcat(s: Session, a: seq<Event>, b: seq<Event>)
    ensures UseAll(s, a + b) == UseAll(UseAll(s, a), b)
  {
    if b == [] {
      assert a + b == a;
    } else {
      UseConcat(s, a, b[..|b| - 1]);
      assert (a + b)[..|a + b| - 1] == a + b[..|b| - 1];
    }
  }

  lemma UseFirst(s: Session, x: Event)
    ensures UseAll(s, [x]) == Use(s, x)
  {
    UseOne(s, [], x);
    assert [] + [x] == [x];
  }

  lemma UseTwo(s: Session, x: Event, y: Event)
    ensures UseAll(s, [x, y]) == Use(Use(s, x), y)
  {
    UseFirst(s, x);
    UseOne(s, [x], y);
    assert [x] + [y] == [x, y];
  }

  lemma UseThree(s: Session, x: Event, y: Event, z: Event)
    ensures UseAll(s, [x, y, z]) == Use(Use(Use(s, x), y), z)
  {
    UseTwo(s, x, y);
    UseOne(s, [x, y], z);
    assert [x, y] + [z] == [x, y, z];
  }

  lemma MiddleIsInOrder(a: Attempt)
    requires !a.InitFailed?
    ensures UseAll(Opened, Middle(a)) in {Broken, Reaped}
  {
    var es := Middle(a);
    match |es|
    case 1 => UseFirst(Opened, es[0]);
    case 2 => UseTwo(Opened, es[0], es[1]);
    case _ => UseThree(Opened, es[0], es[1], es[2]);
  }

  lemma AttemptIsBracketed(order: Order, a: Attempt)
    requires IsAttempt(a)
    ensures UseAll(Unopened, EventsOf(order, a)) == Unopened
  {
    if a.InitFailed? {
      UseFirst(Unopened, Init(order, a.outcome));
    } else {
      MiddleIsInOrder(a);
      OpenedIsClosed(Init(order, Ready), Middle(a));
    }
  }

  lemma OpenedIsClosed(first: Event, middle: seq<Event>)
    requires Use(Unopened, first) == Opened && UseAll(Opened, middle) in {Broken, Reaped}
    ensures UseAll(Unopened, [first] + middle + [Closed]) == Unopened
  {
    UseFirst(Unopened, first);
    UseConcat(Unopened, [first], middle);
    UseOne(Unopened, [first] + middle, Closed);
  }

  /** However many attempts a command takes, and wherever they fail, every successful
      InitCommand is closed exactly once before the next one. */
  lemma {:induction false} CommandIsBracketed(order: Order, attempts: seq<Attempt>)
    requires forall i :: 0 <= i < |attempts| ==> IsAttempt(attempts[i])
    ensures UseAll(Unopened, TraceOf(order, attempts)) == Unopened
  {
    if attempts != [] {
      var front, a := attempts[..|attempts| - 1], attempts[|attempts| - 1];
      CommandIsBracketed(order, front);
      AttemptIsBracketed(order, a);
      UseConcat(Unopened, TraceOf(order, front), EventsOf(order, a));
    }
  }

  // ----- Any executor

  /** Where a command runs: on the Jenkins slave itself, or on a node. */
  datatype Place = Here | OnNode(node: Node)

  /** An executor about which nothing is known but the calls it has seen. */
  class Executor {
    const place: Place
    var tags: seq<string>
    ghost var trace: seq<Event>
    /** Where the last command stands, and what it yields. */
    ghost var session: Session
    ghost var yielded: Output

    constructor (place: Place)
      ensures this.place == place && trace == [] && session == Unopened
    {
      this.place := place;
      tags := if place.Here? then [] else ["ssh:" + place.node.name];
      trace, session, yielded := [], Unopened, Output("", false);
    }

    /** Writes the base OS and the architecture of the machine into `env`. */
    method InitCommand(dir: string, argv: seq<string>, env: EnvMap, givenTags: seq<string>)
      returns (outcome: InitOutcome, output: Output)
      requires session == Unopened
      modifies this, env
      ensures trace == old(trace) + [Init(Order(dir, argv, old(env.vars), givenTags), outcome)]
      ensures session == (if outcome == Ready then Opened else Unopened) && yielded == output
    {
      ghost var order := Order(dir, argv, env.vars, givenTags);
      var baseOS: string, arch: string := *, *;
      env.vars := env.vars["BASE_OS" := baseOS]["ARCH" := arch];
      outcome, output := *, *;
      tags := *;
      ghost var init := Init(order, outcome);
      trace, session, yielded := trace + [init], Use(session, init), output;
    }

    method Start() returns (ok: bool)
      requires session == Opened
      modifies this`trace, this`session
      ensures trace == old(trace) + [Started(ok)]
      ensures session == if ok then Running else Broken
    {
      ok := *;
      trace, session := trace + [Started(ok)], Use(session, Started(ok));
    }

    /** The main path receives on the done channel. */
    method AwaitReader(output: Output) returns (ok: bool)
      requires session == Running && output == yielded
      modifies this`trace, this`session
      ensures ok == !output.failed
      ensures trace == old(trace) + [Drained(output)]
      ensures session == if ok then OutputRead else Broken
    {
      ok := !output.failed;
      trace, session := trace + [Drained(output)], Use(session, Drained(output));
    }

    method Wait() returns (result: WaitResult)
      requires session == OutputRead
      modifies this`trace, this`session
      ensures trace == old(trace) + [Waited(result)]
      ensures session == Reaped
    {
      result := *;
      trace, session := trace + [Waited(result)], Use(session, Waited(result));
    }

    method Close()
      requires session in {Broken, Reaped}
      modifies this`trace, this`session
      ensures trace == old(trace) + [Closed]
      ensures session == Unopened
    {
      trace, session := trace + [Closed], Use(session, Closed);
    }
  }

  // ----- The local executor and the working directory of its process

  /** `cwd` belongs to the process, the rest to the executor. */
  datatype LocalState = LocalState(cwd: string, currDir: string, tags: seq<string>)

  predicate IsAbsolute(path: string)
  {
    path != "" && path[0] == '/'
  }

  function Resolve(cwd: string, path: string): string
  {
    if IsAbsolute(path) then path else cwd + "/" + path
  }

  /** The effect of one event on the local executor; Close goes back to where the last change of
      directory started from, if there ever was one. */
  function LocalStep(s: LocalState, e: Event): LocalState
  {
    match e
    case Init(order, outcome) =>
      if order.argv == [] then
        s
      else
        var s' := s.(tags := ["local"] + s.tags);
        if order.dir == "" then
          s'
        else
          (match outcome
           case NoWorkingDirectory => s'.(currDir := "")
           case NoSuchDirectory => s'.(currDir := s.cwd)
           case _ => s'.(currDir := s.cwd, cwd := Resolve(s.cwd, order.dir)))
    case Closed => if s.currDir != "" then s.(cwd := Resolve(s.cwd, s.currDir)) else s
    case _ => s
  }

  function LocalRun(s: LocalState, trace: seq<Event>): LocalState
  {
    if trace == [] then s else LocalStep(LocalRun(s, trace[..|trace| - 1]), trace[|trace| - 1])
  }

  lemma LocalOne(s: LocalState, trace: seq<Event>, e: Event)
    ensures LocalRun(s, trace + [e]) == LocalStep(LocalRun(s, trace), e)
  {
    assert (trace + [e])[..|trace|] == trace;
  }

  lemma {:induction false} LocalConcat(s: LocalState, a: seq<Event>, b: seq<Event>)
    ensures LocalRun(s, a + b) == LocalRun(LocalRun(s, a), b)
  {
    if b == [] {
      assert a + b == a;
    } else {
      LocalConcat(s, a, b[..|b| - 1]);
      assert (a + b)[..|a + b| - 1] == a + b[..|b| - 1];
    }
  }

  /** The process is somewhere, and what Close would go back to is there. */
  predicate AtHome(s: LocalState)
  {
    IsAbsolute(s.cwd) && (s.currDir == "" || s.currDir == s.cwd)
  }

  /** Pipes failed after the directory had been changed: InitCommand fails without going back. */
  predicate Stranded(order: Order, a: Attempt)
  {
    order.dir != "" && a == InitFailed(NoPipe)
  }

  /** The outcomes a local InitCommand can have for these arguments. */
  predicate LocalOutcome(order: Order, outcome: InitOutcome)
  {
    && (outcome == EmptyCommand <==> order.argv == [])
    && (outcome in {NoWorkingDirectory, NoSuchDirectory} ==> order.dir != "")
    && outcome != NoConnection
  }

  predicate LocalAttempt(order: Order, a: Attempt)
  {
    && IsAttempt(a)
    && LocalOutcome(order, if a.InitFailed? then a.outcome else Ready)
  }

  predicate LocalAttempts(order: Order, attempts: seq<Attempt>)
  {
    forall i :: 0 <= i < |attempts| ==> LocalAttempt(order, attempts[i])
  }

  /** In the middle of an opened attempt nothing but Close moves the process. */
  lemma {:induction false} OnlyInitAndCloseMove(s: LocalState, trace: seq<Event>)
    requires forall e :: e in trace ==> !e.Init? && !e.Closed?
    ensures LocalRun(s, trace) == s
  {
    if trace != [] {
      OnlyInitAndCloseMove(s, trace[..|trace| - 1]);
    }
  }

  /** The effect of one whole attempt, and of all the attempts at a command. */
  function AttemptEffect(s: LocalState, order: Order, a: Attempt): LocalState
  {
    var s' := LocalStep(s, Init(order, if a.InitFailed? then a.outcome else Ready));
    if a.InitFailed? then s' else LocalStep(s', Closed)
  }

  function CommandEffect(s: LocalState, order: Order, attempts: seq<Attempt>): LocalState
  {
    if attempts == [] then
      s
    else
      AttemptEffect(CommandEffect(s, order, attempts[..|attempts| - 1]), order, attempts[|attempts| - 1])
  }

  lemma AttemptHasItsEffect(s: LocalState, order: Order, a: Attempt)
    ensures LocalRun(s, EventsOf(order, a)) == AttemptEffect(s, order, a)
  {
    if a.InitFailed? {
      LocalFirst(s, Init(order, a.outcome));
    } else {
      OnlyItsEndsMove(s, Init(order, Ready), Middle(a));
    }
  }

  lemma LocalFirst(s: LocalState, e: Event)
    ensures LocalRun(s, [e]) == LocalStep(s, e)
  {
    LocalOne(s, [], e);
    assert [] + [e] == [e];
  }

  lemma OnlyItsEndsMove(s: LocalState, first: Event, middle: seq<Event>)
    requires forall e :: e in middle ==> !e.Init? && !e.Closed?
    ensures LocalRun(s, [first] + middle + [Closed]) == LocalStep(LocalStep(s, first), Closed)
  {
    LocalFirst(s, first);
    LocalConcat(s, [first], middle);
    OnlyInitAndCloseMove(LocalStep(s, first), middle);
    LocalOne(s, [first] + middle, Closed);
  }

  lemma {:induction false} CommandHasItsEffect(s: LocalState, order: Order, attempts: seq<Attempt>)
    ensures LocalRun(s, TraceOf(order, attempts)) == CommandEffect(s, order, attempts)
  {
    if attempts != [] {
      var front, a := attempts[..|attempts| - 1], attempts[|attempts| - 1];
      CommandHasItsEffect(s, order, front);
      AttemptHasItsEffect(CommandEffect(s, order, front), order, a);
      LocalConcat(s, TraceOf(order, front), EventsOf(order, a));
    }
  }

  lemma {:induction false} EffectComesHome(s: LocalState, order: Order, attempts: seq<Attempt>)
    requires AtHome(s) && LocalAttempts(order, attempts)
    requires forall i :: 0 <= i < |attempts| ==> !Stranded(order, attempts[i])
    ensures var s' := CommandEffect(s, order, attempts); AtHome(s') && s'.cwd == s.cwd
  {
    if attempts != [] {
      EffectComesHome(s, order, attempts[..|attempts| - 1]);
    }
  }

  /** Provided that no pipe fails, the working directory on return from a command is the one on
      entry, whatever else fails and however often it is retried. */
  lemma CommandComesHome(s: LocalState, order: Order, attempts: seq<Attempt>)
    requires AtHome(s) && LocalAttempts(order, attempts)
    requires forall i :: 0 <= i < |attempts| ==> !Stranded(order, attempts[i])
    ensures var s' := LocalRun(s, TraceOf(order, attempts)); AtHome(s') && s'.cwd == s.cwd
  {
    CommandHasItsEffect(s, order, attempts);
    EffectComesHome(s, order, attempts);
  }

  /** A failed pipe takes the process to the directory of the command. If that is a relative one,
      the path grows with every such failure and never shrinks again. */
  lemma {:induction false} WhereItEnds(s: LocalState, order: Order, attempts: seq<Attempt>)
    requires IsAbsolute(s.cwd) && order.dir != "" && LocalAttempts(order, attempts)
    ensures var cwd := CommandEffect(s, order, attempts).cwd;
            && IsAbsolute(cwd)
            && (InitFailed(NoPipe) !in attempts ==> cwd == s.cwd)
            && (InitFailed(NoPipe) in attempts ==>
                  if IsAbsolute(order.dir) then cwd == order.dir else |cwd| > |s.cwd|)
  {
    if attempts != [] {
      var front, last := attempts[..|attempts| - 1], attempts[|attempts| - 1];
      assert forall a :: a in attempts <==> a in front || a == last;
      WhereItEnds(s, order, front);
    }
  }

  /** The condition is exact: one failed pipe is enough for the command to end in another directory
      than it started in, unless it is to run where the process already is. */
  lemma WorkingDirectoryIsRestoredIff(s: LocalState, order: Order, attempts: seq<Attempt>)
    requires AtHome(s) && LocalAttempts(order, attempts)
    ensures LocalRun(s, TraceOf(order, attempts)).cwd == s.cwd
        <==> order.dir == "" || order.dir == s.cwd || InitFailed(NoPipe) !in attempts
  {
    CommandHasItsEffect(s, order, attempts);
    if order.dir == "" {
      EffectComesHome(s, order, attempts);
    } else {
      WhereItEnds(s, order, attempts);
    }
  }

  /** The process of the worker. */
  class Process {
    var cwd: string

    constructor (cwd: string)
      requires IsAbsolute(cwd)
      ensures this.cwd == cwd
    {
      this.cwd := cwd;
    }

    method Chdir(path: string) returns (ok: bool)
      modifies this
      ensures cwd == if ok then Resolve(old(cwd), path) else old(cwd)
    {
      ok := *;
      if ok {
        cwd := if IsAbsolute(path) then path else cwd + "/" + path;
      }
    }
  }

  class LocalExecutor {
    const process: Process
    var workDir: string
    var currDir: string
    var tags: seq<string>

    constructor (process: Process)
      ensures this.process == process && currDir == "" && tags == []
    {
      this.process, workDir, currDir, tags := process, "", "", [];
    }

    ghost function View(): LocalState
      reads this, process
    {
      LocalState(process.cwd, currDir, tags)
    }

    /** The tags handed in are not used: the executor only ever adds another "local". */
    method InitCommand(dir: string, argv: seq<string>, env: EnvMap, givenTags: seq<string>)
      returns (outcome: InitOutcome)
      modifies this, process, env
      ensures var order := Order(dir, argv, old(env.vars), givenTags);
              View() == LocalStep(old(View()), Init(order, outcome)) && LocalOutcome(order, outcome)
      ensures argv == [] ==> View() == old(View())
      ensures argv != [] ==> tags == ["local"] + old(tags)
      ensures process.cwd
           == if dir != "" && outcome in {Ready, NoPipe} then Resolve(old(process.cwd), dir) else old(process.cwd)
      ensures argv != [] && dir != "" ==> currDir == if outcome == NoWorkingDirectory then "" else old(process.cwd)
      ensures env.vars == if argv == [] then old(env.vars) else old(env.vars)["BASE_OS" := "linux"]["ARCH" := "amd64"]
    {
      workDir := dir;
      if argv == [] {
        return EmptyCommand;
      }
      tags := ["local"] + tags;
      env.vars := env.vars["BASE_OS" := "linux"];
      env.vars := env.vars["ARCH" := "amd64"];
      if workDir != "" {
        var ok: bool := *; // asking for the working directory
        currDir := if ok then process.cwd else "";
        if !ok {
          return NoWorkingDirectory;
        }
        ok := process.Chdir(workDir);
        if !ok {
          return NoSuchDirectory;
        }
      }
      var piped: bool := *;
      outcome := if piped then Ready else NoPipe;
    }

    /** Going back fails only if the directory is gone; then the process stays. */
    method Close() returns (ok: bool)
      modifies process
      ensures ok ==> View() == LocalStep(old(View()), Closed)
      ensures process.cwd == if ok && currDir != "" then Resolve(old(process.cwd), currDir) else old(process.cwd)
      ensures currDir == "" ==> ok
    {
      ok := true;
      if currDir != "" {
        ok := process.Chdir(currDir);
      }
    }
  }
}
