/** What a worker prints, as a function of what it has tried and of what that has yielded. */
module Transcripts {
  import opened Executors
  import opened Handshake
  import opened Plans
  import opened Calls
  import opened Sequences
  import Splicing

  /** How often and after what delay a worker retries, and how it words numbers, durations and errors. */
  datatype Settings = Settings(
    retryLoopCount: int,
    retryLoopBackOff: int,
    number: int -> string,
    duration: int -> string,
    error: Attempt -> string)

  function Join(words: seq<string>): string
  {
    if words == [] then "" else if |words| == 1 then words[0] else words[0] + " " + Join(words[1..])
  }

  /** How a list of strings is printed. */
  function ListText(words: seq<string>): string
  {
    "[" + Join(words) + "]"
  }

  /** The words stand in brackets, with a space between them. */
  lemma {:induction false} ListTextIs(word: string, words: seq<string>)
    ensures ListText([]) == "[]"
    ensures ListText([word] + words) == "[" + (word + Concat(Each((w: string) => " " + w, words))) + "]"
  {
    JoinIs(word, words);
  }

  lemma {:induction false} JoinIs(word: string, words: seq<string>)
    ensures Join([word] + words) == word + Concat(Each((w: string) => " " + w, words))
    decreases |words|
  {
    var f := (w: string) => " " + w;
    assert ([word] + words)[1..] == words;
    if words == [] {
      NothingAfter(word);
    } else {
      var rest := words[1..];
      JoinIs(words[0], rest);
      assert [words[0]] + rest == words;
      assert Each(f, words) == [f(words[0])] + Each(f, rest);
      ConcatCons(f(words[0]), Each(f, rest));
      ConcatIsAssociative(" ", words[0], Concat(Each(f, rest)));
      ConcatIsAssociative(word, " ", words[0] + Concat(Each(f, rest)));
    }
  }

  /** The lines of a command's output as they are given to the buffer. */
  function TaggedLines(tags: seq<string>, lines: seq<string>): string
  {
    if lines == [] then "" else ListText(tags) + " " + lines[0] + TaggedLines(tags, lines[1..])
  }

  lemma TaggedLinesCons(printed: string, tags: seq<string>, line: string, lines: seq<string>)
    ensures printed + TaggedLines(tags, [line] + lines)
         == printed + (ListText(tags) + " " + line) + TaggedLines(tags, lines)
  {
    assert ([line] + lines)[1..] == lines;
    ConcatIsAssociative(printed, ListText(tags) + " " + line, TaggedLines(tags, lines));
  }

  function OutputText(tags: seq<string>, text: string): string
  {
    TaggedLines(tags, Lines(text))
  }

  function TaggedLine(tags: seq<string>): string -> string
  {
    (line: string) => ListText(tags) + " " + line
  }

  /** All the lines of the output, each with its tags. */
  lemma {:induction false} TaggedLinesAre(tags: seq<string>, lines: seq<string>)
    ensures TaggedLines(tags, lines) == Concat(Each(TaggedLine(tags), lines))
  {
    if lines != [] {
      var f, rest := TaggedLine(tags), lines[1..];
      TaggedLinesAre(tags, rest);
      assert Each(f, lines) == [f(lines[0])] + Each(f, rest);
      ConcatCons(f(lines[0]), Each(f, rest));
    }
  }

  function Info(tags: seq<string>, info: string): string
  {
    ListText(tags) + " !!!" + info + "!!!\n"
  }

  function ErrorLine(s: Settings, a: Attempt): string
  {
    " - " + s.error(a) + "\n"
  }

  /** The heading is overwritten by the first error, and every error by the next one. */
  function ErrorsText(s: Settings, errList: seq<Attempt>): string
  {
    if errList == [] then "List of errors below:\n\n" else ErrorLine(s, errList[|errList| - 1])
  }

  /** The lines of all the errors, in order, are printed exactly if there is one error. */
  lemma ErrorsAreListedIff(s: Settings, errList: seq<Attempt>)
    ensures ErrorsText(s, errList) == Concat(Each(a => ErrorLine(s, a), errList)) <==> |errList| == 1
  {
    var lines := Each(a => ErrorLine(s, a), errList);
    if errList != [] {
      var front, last := lines[..|lines| - 1], lines[|lines| - 1];
      assert lines == front + [last];
      ConcatOne(front, last);
      if front != [] {
        assert front == [front[0]] + front[1..];
        ConcatCons(front[0], front[1..]);
      }
    }
  }

  /** An error can be found in what is printed exactly if the line of the last error, if that is a
      single line, ends with the line of this one. */
  lemma ErrorIsPrintedIff(s: Settings, errList: seq<Attempt>, a: Attempt)
    requires errList != [] && '\n' !in s.error(errList[|errList| - 1])
    ensures var line, text := ErrorLine(s, a), ErrorsText(s, errList);
            Splicing.Occurs(line, text) <==> |line| <= |text| && text[|text| - |line|..] == line
  {
    var line, text := ErrorLine(s, a), ErrorsText(s, errList);
    if Splicing.Occurs(line, text) {
      var p: nat :| Splicing.OccursAt(line, text, p);
      assert text[p + |line| - 1] == text[p..p + |line|][|line| - 1] == '\n';
    }
    if |line| <= |text| && text[|text| - |line|..] == line {
      assert Splicing.OccursAt(line, text, |text| - |line|);
    }
  }

  /** What is printed before the given turn of the retry loop. */
  function RetryText(s: Settings, tags: seq<string>, retry: nat): string
  {
    if retry <= 1 then
      ""
    else
      Info(tags, "attempt failed due to executor error")
      + if retry <= s.retryLoopCount then
          Info(tags, "backing of for " + s.duration(BackOff(s.retryLoopBackOff, retry)) + " before retrying")
        else
          ""
  }

  /** Before attempt n, from the second on, the failure of the last one is told and, while there are
      retries left, a pause of n times the back-off is announced. */
  lemma RetryTextIs(s: Settings, tags: seq<string>, n: nat)
    requires n >= 2
    ensures RetryText(s, tags, n)
         == ListText(tags) + " !!!" + "attempt failed due to executor error" + "!!!\n"
            + if n <= s.retryLoopCount then
                ListText(tags) + " !!!" + ("backing of for " + s.duration(s.retryLoopBackOff * n) + " before retrying")
                + "!!!\n"
              else
                ""
    ensures RetryText(s, tags, 1) == ""
  {
    BackOffClosed(s.retryLoopBackOff, n);
  }

  function AttemptText(s: Settings, tags: seq<string>, retry: nat, a: Attempt): string
  {
    Info(tags, "Attempt " + s.number(retry)) + OutputText(tags, YieldOf(a))
  }

  function AttemptsText(s: Settings, tags: seq<string>, attempts: seq<Attempt>): string
  {
    if attempts == [] then
      ""
    else
      AttemptsText(s, tags, attempts[..|attempts| - 1])
      + (RetryText(s, tags, |attempts|) + AttemptText(s, tags, |attempts|, attempts[|attempts| - 1]))
  }

  lemma AttemptsTextOne(s: Settings, tags: seq<string>, attempts: seq<Attempt>, a: Attempt, printed: string)
    ensures printed + AttemptsText(s, tags, attempts + [a])
         == printed + AttemptsText(s, tags, attempts)
            + (RetryText(s, tags, |attempts| + 1) + AttemptText(s, tags, |attempts| + 1, a))
  {
    assert (attempts + [a])[..|attempts|] == attempts;
    ConcatIsAssociative(printed, AttemptsText(s, tags, attempts),
                        RetryText(s, tags, |attempts| + 1) + AttemptText(s, tags, |attempts| + 1, a));
  }

  function CommandText(tags: seq<string>, argv: seq<string>): string
  {
    ListText(tags) + " Executing command " + ListText(argv) + "\n"
  }

  /** What is printed when the retries are used up. */
  function GivenUpText(s: Settings, tags: seq<string>, errList: seq<Attempt>): string
  {
    RetryText(s, tags, |errList| + 1) + ErrorsText(s, errList)
  }

  /** All that a call prints: the command, every attempt with all of its output, and the errors. */
  function CallText(s: Settings, tags: seq<string>, argv: seq<string>, attempts: seq<Attempt>): string
  {
    CommandText(tags, argv) + AttemptsText(s, tags, attempts)
    + EndText(s, tags, attempts)
  }

  /** All that is printed instead if the command is skipped. */
  function SkippedText(tags: seq<string>, argv: seq<string>): string
  {
    CommandText(tags, argv) + Info(tags, "previous command failed or skipped, skipping")
  }

  // ----- What attempts add up to

  /** What has been printed, what the executor has seen and how long the worker has slept. */
  datatype Effort = Effort(printed: string, trace: seq<Event>, slept: int)

  /** One more turn of the retry loop. */
  function Tried(s: Settings, tags: seq<string>, order: Order, e: Effort, retry: nat,
                 a: Attempt): Effort
  {
    Effort(e.printed + (RetryText(s, tags, retry) + AttemptText(s, tags, retry, a)),
           e.trace + EventsOf(order, a),
           if retry > 1 then e.slept + BackOff(s.retryLoopBackOff, retry) else e.slept)
  }

  /** What is printed after the attempts at a call. */
  function EndText(s: Settings, tags: seq<string>, attempts: seq<Attempt>): string
  {
    if ResultOf(attempts).Error? then GivenUpText(s, tags, attempts) else ""
  }

  /** What trying a command adds up to, as functions. */
  datatype Course = Course(trial: (Effort, nat, Attempt) -> Effort, ending: seq<Attempt> -> string)

  ghost predicate IsCourse(course: Course, s: Settings, tags: seq<string>, order: Order)
  {
    && (forall e, retry, a {:trigger Tried(s, tags, order, e, retry, a)} ::
          course.trial(e, retry, a) == Tried(s, tags, order, e, retry, a))
    && (forall attempts {:trigger EndText(s, tags, attempts)} :: course.ending(attempts) == EndText(s, tags, attempts))
  }

  ghost function NewCourse(s: Settings, tags: seq<string>, order: Order): (course: Course)
    ensures IsCourse(course, s, tags, order)
  {
    Course((e, retry: nat, a) => Tried(s, tags, order, e, retry, a), attempts => EndText(s, tags, attempts))
  }

  /** Nothing is added at the end if the last attempt had no executor error. */
  lemma EndsQuietly(course: Course, s: Settings, tags: seq<string>, order: Order, e: Effort,
                    attempts: seq<Attempt>)
    requires IsCourse(course, s, tags, order) && ResultOf(attempts).Value?
    ensures e.(printed := e.printed + course.ending(attempts)) == e
  {
    assert EndText(s, tags, attempts) == "";
    NothingAfter(e.printed);
  }

  function AllTried(course: Course, e: Effort, attempts: seq<Attempt>): Effort
  {
    if attempts == [] then
      e
    else
      course.trial(AllTried(course, e, attempts[..|attempts| - 1]), |attempts|, attempts[|attempts| - 1])
  }

  lemma TriedOnce(course: Course, e: Effort, attempts: seq<Attempt>, a: Attempt)
    ensures AllTried(course, e, attempts + [a]) == course.trial(AllTried(course, e, attempts), |attempts| + 1, a)
  {
    assert (attempts + [a])[..|attempts|] == attempts;
  }

  lemma {:induction false} EffortOfAttempts(course: Course, s: Settings, tags: seq<string>, order: Order, e: Effort,
                                            attempts: seq<Attempt>)
    requires IsCourse(course, s, tags, order)
    ensures AllTried(course, e, attempts)
         == Effort(e.printed + AttemptsText(s, tags, attempts), e.trace + TraceOf(order, attempts),
                   e.slept + SleepTotal(s.retryLoopBackOff, |attempts|))
  {
    if attempts == [] {
      NothingAfter(e.printed);
      NothingAfter(e.trace);
    } else {
      var front, a := attempts[..|attempts| - 1], attempts[|attempts| - 1];
      EffortOfAttempts(course, s, tags, order, e, front);
      assert AllTried(course, e, attempts) == Tried(s, tags, order, AllTried(course, e, front), |attempts|, a);
      ConcatIsAssociative(e.printed, AttemptsText(s, tags, front),
                          RetryText(s, tags, |attempts|) + AttemptText(s, tags, |attempts|, a));
      ConcatIsAssociative(e.trace, TraceOf(order, front), EventsOf(order, a));
    }
  }

  // ----- The whole of what a worker has printed

  datatype Entry = Note(text: string) | Called(tags: seq<string>, argv: seq<string>, attempts: seq<Attempt>)

  function EntryText(s: Settings, e: Entry): string
  {
    match e
    case Note(text) => text
    case Called(tags, argv, attempts) => CallText(s, tags, argv, attempts)
  }

  function Transcript(s: Settings, said: seq<Entry>): string
  {
    if said == [] then "" else Transcript(s, said[..|said| - 1]) + EntryText(s, said[|said| - 1])
  }

  /** The transcript as a function. */
  type Telling = seq<Entry> -> string

  ghost predicate IsTelling(telling: Telling, s: Settings)
  {
    forall said {:trigger Transcript(s, said)} :: telling(said) == Transcript(s, said)
  }

  ghost function NewTelling(s: Settings): (telling: Telling)
    ensures IsTelling(telling, s) && telling([]) == ""
  {
    assert Transcript(s, []) == "";
    (said: seq<Entry>) => Transcript(s, said)
  }

  lemma EntryIsTold(telling: Telling, s: Settings, said: seq<Entry>, e: Entry)
    requires IsTelling(telling, s)
    ensures telling(said + [e]) == telling(said) + EntryText(s, e)
  {
    assert (said + [e])[..|said|] == said;
    assert Transcript(s, said + [e]) == Transcript(s, said) + EntryText(s, e);
  }

  lemma NoteIsTold(telling: Telling, s: Settings, said: seq<Entry>, text: string)
    requires IsTelling(telling, s)
    ensures telling(said + [Note(text)]) == telling(said) + text
  {
    EntryIsTold(telling, s, said, Note(text));
  }

  lemma CallIsTold(telling: Telling, course: Course, s: Settings, said: seq<Entry>, tags: seq<string>, order: Order,
                   attempts: seq<Attempt>, printed: string)
    requires IsTelling(telling, s) && IsCourse(course, s, tags, order)
    requires printed == telling(said) + CommandText(tags, order.argv)
    ensures telling(said + [Called(tags, order.argv, attempts)])
         == printed + AttemptsText(s, tags, attempts) + course.ending(attempts)
  {
    EntryIsTold(telling, s, said, Called(tags, order.argv, attempts));
    ConcatIsAssociative(telling(said), CommandText(tags, order.argv), AttemptsText(s, tags, attempts));
    ConcatIsAssociative(telling(said), CommandText(tags, order.argv) + AttemptsText(s, tags, attempts),
                        EndText(s, tags, attempts));
  }

  /** What a call adds up to, from the command on. */
  lemma CallIsAccountedFor(telling: Telling, course: Course, s: Settings, said: seq<Entry>, tags: seq<string>,
                           order: Order, attempts: seq<Attempt>, before: Effort, after: Effort)
    requires IsTelling(telling, s) && IsCourse(course, s, tags, order)
    requires before.printed == telling(said) + CommandText(tags, order.argv)
    requires var all := AllTried(course, before, attempts);
             after == all.(printed := all.printed + course.ending(attempts))
    ensures after.printed == telling(said + [Called(tags, order.argv, attempts)])
    ensures after.trace == before.trace + TraceOf(order, attempts)
    ensures after.slept == before.slept + SleepTotal(s.retryLoopBackOff, |attempts|)
  {
    EffortOfAttempts(course, s, tags, order, before, attempts);
    CallIsTold(telling, course, s, said, tags, order, attempts, before.printed);
  }

  lemma SkipIsTold(telling: Telling, s: Settings, said: seq<Entry>, tags: seq<string>, argv: seq<string>)
    requires IsTelling(telling, s)
    ensures telling(said + [Note(SkippedText(tags, argv))])
         == telling(said) + CommandText(tags, argv) + Info(tags, "previous command failed or skipped, skipping")
  {
    NoteIsTold(telling, s, said, SkippedText(tags, argv));
    ConcatIsAssociative(telling(said), CommandText(tags, argv),
                        Info(tags, "previous command failed or skipped, skipping"));
  }

  lemma TellingMeaning(telling: Telling, s: Settings, said: seq<Entry>)
    requires IsTelling(telling, s)
    ensures telling(said) == Transcript(s, said)
  {
  }

  /** All the calls, with their command lines and attempts. */
  function ExecutionsIn(said: seq<Entry>): seq<Execution>
  {
    if said == [] then
      []
    else
      var front, e := ExecutionsIn(said[..|said| - 1]), said[|said| - 1];
      if e.Called? then front + [Execution(e.argv, e.attempts)] else front
  }

  lemma ExecutionsInOne(said: seq<Entry>, e: Entry)
    ensures ExecutionsIn(said + [e])
         == if e.Called? then ExecutionsIn(said) + [Execution(e.argv, e.attempts)] else ExecutionsIn(said)
  {
    assert (said + [e])[..|said|] == said;
  }

  /** What the calls have to show: every command line, and every attempt with its number and all that it
      has yielded, line by line. */
  function OutputsIn(s: Settings, said: seq<Entry>): seq<string>
  {
    if said == [] then
      []
    else
      var front, e := OutputsIn(s, said[..|said| - 1]), said[|said| - 1];
      front + if e.Called? then [CommandLine(e.tags, e.argv)] + OutputsOf(s, e.tags, e.attempts) else []
  }

  function CommandLine(tags: seq<string>, argv: seq<string>): string
  {
    ListText(tags) + " Executing command " + ListText(argv) + "\n"
  }

  function OutputsOf(s: Settings, tags: seq<string>, attempts: seq<Attempt>): seq<string>
  {
    if attempts == [] then
      []
    else
      OutputsOf(s, tags, attempts[..|attempts| - 1]) + [OutputOf(s, tags, |attempts|, attempts[|attempts| - 1])]
  }

  function OutputOf(s: Settings, tags: seq<string>, n: nat, a: Attempt): string
  {
    (ListText(tags) + " !!!" + ("Attempt " + s.number(n)) + "!!!\n")
    + Concat(Each(TaggedLine(tags), Lines(YieldOf(a))))
  }

  /** `pieces` stand in `text` one after the other. */
  ghost predicate StandIn(pieces: seq<string>, text: string)
  {
    if pieces == [] then
      true
    else
      exists n: nat :: EndsAt(pieces, text, n)
  }

  ghost predicate EndsAt(pieces: seq<string>, text: string, n: nat)
    requires pieces != []
  {
    var last := pieces[|pieces| - 1];
    |last| <= n <= |text| && text[n - |last|..n] == last && StandIn(pieces[..|pieces| - 1], text[..n - |last|])
  }

  lemma {:induction false} StandInLonger(pieces: seq<string>, text: string, more: string)
    requires StandIn(pieces, text)
    ensures StandIn(pieces, text + more)
  {
    if pieces != [] {
      var n: nat :| EndsAt(pieces, text, n);
      var last := pieces[|pieces| - 1];
      assert (text + more)[n - |last|..n] == text[n - |last|..n] && (text + more)[..n - |last|] == text[..n - |last|];
      assert EndsAt(pieces, text + more, n);
    }
  }

  lemma StandInOneMore(pieces: seq<string>, text: string, last: string)
    requires StandIn(pieces, text)
    ensures StandIn(pieces + [last], text + last)
  {
    var all := text + last;
    assert (pieces + [last])[..|pieces|] == pieces && all[|text|..|all|] == last && all[..|text|] == text;
    assert EndsAt(pieces + [last], all, |all|);
  }

  /** One more output, with something before and after it. */
  lemma OneMoreOutput(pieces: seq<string>, text: string, before: string, output: string, after: string)
    requires StandIn(pieces, text)
    ensures StandIn(pieces + [output], text + (before + output) + after)
  {
    StandInLonger(pieces, text, before);
    StandInOneMore(pieces, text + before, output);
    ConcatIsAssociative(text, before, output);
    StandInLonger(pieces + [output], text + before + output, after);
  }

  lemma {:induction false} OutputsStandInAttempts(s: Settings, tags: seq<string>, attempts: seq<Attempt>,
                                                  pieces: seq<string>, text: string)
    requires StandIn(pieces, text)
    ensures StandIn(pieces + OutputsOf(s, tags, attempts), text + AttemptsText(s, tags, attempts))
    decreases |attempts|
  {
    if attempts == [] {
      NothingAfter(pieces);
      NothingAfter(text);
    } else {
      var front, a := attempts[..|attempts| - 1], attempts[|attempts| - 1];
      assert front + [a] == attempts;
      OutputsStandInAttempts(s, tags, front, pieces, text);
      OutputStands(s, tags, front, a, pieces, text);
    }
  }

  lemma OutputStands(s: Settings, tags: seq<string>, front: seq<Attempt>, a: Attempt, pieces: seq<string>, text: string)
    requires StandIn(pieces + OutputsOf(s, tags, front), text + AttemptsText(s, tags, front))
    ensures StandIn(pieces + OutputsOf(s, tags, front + [a]), text + AttemptsText(s, tags, front + [a]))
  {
    var retry, output := RetryText(s, tags, |front| + 1), OutputOf(s, tags, |front| + 1, a);
    TaggedLinesAre(tags, Lines(YieldOf(a)));
    OneMoreOutput(pieces + OutputsOf(s, tags, front), text + AttemptsText(s, tags, front), retry, output, "");
    AttemptsTextOne(s, tags, front, a, text);
    OutputsOfOne(s, tags, front, a);
    ConcatIsAssociative(pieces, OutputsOf(s, tags, front), [output]);
    NothingAfter(text + AttemptsText(s, tags, front) + (retry + output));
  }

  lemma OutputsOfOne(s: Settings, tags: seq<string>, attempts: seq<Attempt>, a: Attempt)
    ensures OutputsOf(s, tags, attempts + [a])
         == OutputsOf(s, tags, attempts) + [OutputOf(s, tags, |attempts| + 1, a)]
  {
    assert (attempts + [a])[..|attempts|] == attempts;
  }

  lemma OutputsOfCall(s: Settings, tags: seq<string>, argv: seq<string>, attempts: seq<Attempt>, pieces: seq<string>,
                      text: string)
    requires StandIn(pieces, text)
    ensures StandIn(pieces + ([CommandLine(tags, argv)] + OutputsOf(s, tags, attempts)),
                    text + CallText(s, tags, argv, attempts))
  {
    var command, tried, end := CommandText(tags, argv), AttemptsText(s, tags, attempts), EndText(s, tags, attempts);
    var shown := pieces + [CommandLine(tags, argv)];
    StandInOneMore(pieces, text, command);
    OutputsStandInAttempts(s, tags, attempts, shown, text + command);
    StandInLonger(shown + OutputsOf(s, tags, attempts), text + command + tried, end);
    ConcatIsAssociative(pieces, [CommandLine(tags, argv)], OutputsOf(s, tags, attempts));
    ConcatIsAssociative(text, command, tried);
    ConcatIsAssociative(text, command + tried, end);
  }

  /** Whatever a worker says in between, the command line of every call, the number of every attempt and
      all that it has yielded, line by line with its tags, are printed, in the order of the attempts. */
  lemma {:induction false} OutputsArePrinted(s: Settings, said: seq<Entry>)
    ensures StandIn(OutputsIn(s, said), Transcript(s, said))
  {
    if said != [] {
      var front, e := said[..|said| - 1], said[|said| - 1];
      OutputsArePrinted(s, front);
      if e.Called? {
        OutputsOfCall(s, e.tags, e.argv, e.attempts, OutputsIn(s, front), Transcript(s, front));
      } else {
        StandInLonger(OutputsIn(s, front), Transcript(s, front), EntryText(s, e));
        assert OutputsIn(s, front) + [] == OutputsIn(s, front);
      }
    }
  }
}
