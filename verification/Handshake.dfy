/** The goroutine that reads a command's output and its handshake with the main path over the
    unbuffered done channel. */
module Handshake {
  import opened Sequences

  /** The length of the first line of `text`, its line break included. */
  function LineLength(text: string): (n: nat)
    requires text != ""
    ensures 1 <= n <= |text|
  {
    if text[0] == '\n' || |text| == 1 then 1 else 1 + LineLength(text[1..])
  }

  /** What successive calls of ReadString('\n') return. */
  function Lines(text: string): seq<string>
    decreases |text|
  {
    if text == "" then [] else [text[..LineLength(text)]] + Lines(text[LineLength(text)..])
  }

  predicate IsTerminated(line: string)
  {
    line != "" && line[|line| - 1] == '\n'
  }

  /** The lines make up the whole output, an unterminated last line included. */
  lemma {:induction false} LinesMakeUpTheText(text: string)
    ensures Concat(Lines(text)) == text
    decreases |text|
  {
    if text != "" {
      var n := LineLength(text);
      LinesMakeUpTheText(text[n..]);
      ConcatCons(text[..n], Lines(text[n..]));
    }
  }

  lemma {:induction false} FirstLine(text: string)
    requires text != ""
    ensures var n := LineLength(text);
            && (IsTerminated(text[..n]) || n == |text|)
            && '\n' !in text[..n - 1]
  {
    if text[0] != '\n' && |text| > 1 {
      FirstLine(text[1..]);
      var n := LineLength(text[1..]);
      assert text[..n + 1] == [text[0]] + text[1..][..n];
      assert text[..n] == [text[0]] + text[1..][..n - 1];
    }
  }

  /** Only the last line can lack its line break, and no line holds another one. */
  lemma {:induction false} LinesAreLines(text: string, i: nat)
    requires i < |Lines(text)|
    ensures Lines(text)[i] != "" && '\n' !in Lines(text)[i][..|Lines(text)[i]| - 1]
    ensures IsTerminated(Lines(text)[i]) || i == |Lines(text)| - 1
    decreases |text|
  {
    FirstLine(text);
    if i > 0 {
      LinesAreLines(text[LineLength(text)..], i - 1);
    }
  }

  // ----- The two parties

  datatype Reader =
    | Reading
    | Printing(line: string, last: bool)
    | OfferingError(data: string)
    | PrintingRest(data: string)
    | OfferingNil
    | Gone

  datatype Main = Starting | Receiving | GotNil | GotError | Returned

  /** `left` is what the pipe will still yield; `broken` records that reading from it failed. */
  datatype State = State(left: seq<string>, reader: Reader, main: Main, printed: seq<string>, broken: bool)

  datatype Step = Read | FailRead(data: string) | Print | StartSucceeds | StartFails | Communicate

  predicate Enabled(s: State, step: Step)
  {
    match step
    case Read => s.reader.Reading?
    case FailRead(_) => s.reader.Reading?
    case Print => s.reader.Printing? || s.reader.PrintingRest?
    case StartSucceeds => s.main.Starting?
    case StartFails => s.main.Starting?
    case Communicate => s.main.Receiving? && (s.reader.OfferingError? || s.reader.OfferingNil?)
  }

  function Apply(s: State, step: Step): State
    requires Enabled(s, step)
  {
    match step
    case Read =>
      if s.left == [] then
        s.(reader := OfferingNil)
      else
        s.(left := s.left[1..], reader := Printing(s.left[0], !IsTerminated(s.left[0])))
    case FailRead(data) => s.(reader := OfferingError(data), broken := true)
    case Print =>
      if s.reader.PrintingRest? then
        s.(printed := if s.reader.data == "" then s.printed else s.printed + [s.reader.data], reader := OfferingNil)
      else
        s.(printed := s.printed + [s.reader.line], reader := if s.reader.last then OfferingNil else Reading)
    case StartSucceeds => s.(main := Receiving)
    case StartFails => s.(main := Returned)
    case Communicate =>
      if s.reader.OfferingNil? then
        s.(main := GotNil, reader := Gone)
      else
        s.(main := GotError, reader := PrintingRest(s.reader.data))
  }

  ghost predicate Next(s: State, s': State)
  {
    exists step :: Enabled(s, step) && s' == Apply(s, step)
  }

  ghost predicate IsRun(text: string, run: seq<State>)
  {
    && run != [] && run[0] == State(Lines(text), Reading, Starting, [], false)
    && forall i :: 0 <= i < |run| - 1 ==> Next(run[i], run[i + 1])
  }

  ghost predicate Inv(text: string, s: State)
  {
    && (forall i :: 0 <= i < |s.left| - 1 ==> IsTerminated(s.left[i]))
    && (!s.broken ==>
          && !s.reader.OfferingError? && !s.reader.PrintingRest?
          && s.printed + (if s.reader.Printing? then [s.reader.line] else []) + s.left == Lines(text)
          && (s.reader.Printing? && s.reader.last ==> s.left == [])
          && (s.reader.OfferingNil? || s.reader.Gone? ==> s.left == []))
    && (s.broken ==>
          && s.main != GotNil
          && (s.reader.OfferingError? || s.main in {GotError, Returned}))
    && (s.main.GotNil? <==> s.reader.Gone?) && (s.main.GotError? ==> s.broken)
  }

  lemma ReadKeepsInv(text: string, s: State)
    requires Inv(text, s) && s.reader.Reading?
    ensures Inv(text, Apply(s, Read))
  {
    if s.left != [] && !s.broken {
      assert s.printed + [] + s.left == s.printed + [s.left[0]] + s.left[1..];
    }
  }

  lemma StepKeepsInv(text: string, s: State, s': State)
    requires Inv(text, s) && Next(s, s')
    ensures Inv(text, s')
  {
    var step :| Enabled(s, step) && s' == Apply(s, step);
    if step.Read? {
      ReadKeepsInv(text, s);
    } else if step.Print? && !s.broken {
      assert s'.printed + [] + s'.left == s.printed + [s.reader.line] + s.left;
    }
  }

  lemma {:induction false} ReachableInv(text: string, run: seq<State>, i: nat)
    requires IsRun(text, run) && i < |run|
    ensures Inv(text, run[i])
  {
    if i == 0 {
      forall j | 0 <= j < |Lines(text)| - 1 ensures IsTerminated(Lines(text)[j]) {
        LinesAreLines(text, j);
      }
      assert [] + [] + Lines(text) == Lines(text);
    } else {
      ReachableInv(text, run, i - 1);
      assert Next(run[i - 1], run[i - 1 + 1]);
      StepKeepsInv(text, run[i - 1], run[i]);
    }
  }

  /** In every interleaving: when the main path receives nil, all lines of the output have been
      printed, in order, and together they are the whole output. */
  lemma NilMeansEverythingPrinted(text: string, run: seq<State>, i: nat)
    requires IsRun(text, run) && i < |run| && run[i].main == GotNil
    ensures run[i].printed == Lines(text) && Concat(run[i].printed) == text
  {
    ReachableInv(text, run, i);
    LinesMakeUpTheText(text);
    assert run[i].printed + [] + [] == run[i].printed;
  }

  // ----- Nobody waits for ever, but the reader may be left behind

  ghost predicate IsStuck(s: State)
  {
    forall step :: !Enabled(s, step)
  }

  /** How far the two can still go. */
  function Distance(s: State): nat
  {
    2 * |s.left| + (if s.main.Starting? then 1 else 0)
    + match s.reader
      case Reading => 4
      case Printing(_, _) => 5
      case OfferingError(_) => 3
      case PrintingRest(_) => 2
      case OfferingNil => 1
      case Gone => 0
  }

  /** Every step shortens the way, so there is no run without end ... */
  lemma StepsComeToAnEnd(s: State, s': State)
    requires Next(s, s')
    ensures Distance(s') < Distance(s)
  {
    var step :| Enabled(s, step) && s' == Apply(s, step);
  }

  /** ... and at its end the main path has received nil exactly if Start and all reads have succeeded;
      it is never left waiting. Exactly then the reader has ended. Otherwise it is left behind, offering
      what nobody receives. */
  lemma EndOfHandshake(text: string, run: seq<State>, i: nat)
    requires IsRun(text, run) && i < |run| && IsStuck(run[i])
    ensures run[i].main in {GotNil, GotError, Returned}
    ensures run[i].main == GotNil <==> run[i].main != Returned && !run[i].broken
    ensures run[i].main == GotNil <==> run[i].reader == Gone
    ensures run[i].main != GotNil ==> run[i].reader.OfferingNil? || run[i].reader.OfferingError?
  {
    ReachableInv(text, run, i);
    var s := run[i];
    assert !Enabled(s, Read) && !Enabled(s, Print) && !Enabled(s, StartSucceeds) && !Enabled(s, Communicate);
  }

  /** Nil can be received, whatever the output. */
  lemma NilCanBeReceived(text: string) returns (run: seq<State>)
    ensures IsRun(text, run) && run[|run| - 1].main == GotNil
  {
    var s := State(Lines(text), Reading, Starting, [], false);
    assert Enabled(s, StartSucceeds);
    var rest := ReadToTheEnd(s.(main := Receiving));
    run := [s] + rest;
    forall i | 0 <= i < |run| - 1 ensures Next(run[i], run[i + 1]) {
      if i == 0 {
        assert Apply(s, StartSucceeds) == rest[0];
      } else {
        assert Next(rest[i - 1], rest[i - 1 + 1]);
      }
    }
  }

  lemma {:induction false} ReadToTheEnd(s: State) returns (path: seq<State>)
    requires s.reader.Reading? && s.main.Receiving?
    ensures path != [] && path[0] == s && path[|path| - 1].main == GotNil
    ensures forall i :: 0 <= i < |path| - 1 ==> Next(path[i], path[i + 1])
    decreases |s.left|
  {
    var read := Apply(s, Read);
    assert Enabled(s, Read);
    if s.left == [] {
      assert Enabled(read, Communicate);
      path := [s, read, Apply(read, Communicate)];
    } else {
      var printed := Apply(read, Print);
      assert Enabled(read, Print);
      if printed.reader.OfferingNil? {
        assert Enabled(printed, Communicate);
        path := [s, read, printed, Apply(printed, Communicate)];
      } else {
        var rest := ReadToTheEnd(printed);
        path := [s, read] + rest;
        forall i | 0 <= i < |path| - 1 ensures Next(path[i], path[i + 1]) {
          assert i >= 2 ==> Next(rest[i - 2], rest[i - 2 + 1]);
        }
      }
    }
  }
}
