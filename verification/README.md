# ci-firewall, verified

ci-firewall lets a public CI system run tests on machines behind a firewall. A *requestor* asks for
a test over a message queue; a Jenkins build behind the firewall runs a *worker*, which sets the
test up on one or more machines, runs it, streams its log back over a *receive queue* and reports
success or failure there. The requestor follows one Jenkins build at a time and ends with its
verdict. Several builds for one request may exist at once (restarts, newer requests), so newer
builds stop older ones, and a `Cancel` message tells the requestor to change over.

This project models that behaviour and proves what it guarantees. `dafny verify dfyconfig.toml`
checks everything.

## How the model is laid out

| file | what it models |
|---|---|
| `Messages.dfy`, `Protocol.dfy` | the alphabet of the receive queue; the script one worker run keeps to; what it means for the whole queue to be in order |
| `Following.dfy`, `Requestor.dfy` | the requestor's delivery loop: as a fold over the history with its theorems, and as the object that performs it |
| `BuildSystem.dfy` | all builds of one request, the queue and the requestor as interleaved steps |
| `Jenkins.dfy`, `Supersession.dfy` | the two questions put to Jenkins: stop older builds, look for newer ones; and how they are steps of the build system |
| `Splicing.dfy`, `DottedQuads.dfy`, `Redaction.dfy`, `RedactionLimits.dfy` | redaction of environment values and addresses |
| `PrintStream.dfy` | the log buffer, the queue it publishes to and the shared environment map |
| `Executors.dfy` | executors as seen by the worker, the local executor and its working directory |
| `Handshake.dfy` | the goroutine that reads a command's output and the `done` channel |
| `Plans.dfy`, `Calls.dfy` | which command follows which result; attempts, retries and back-off |
| `Transcripts.dfy` | all that a worker prints, as a function of what it has tried and what that has yielded |
| `Tests.dfy`, `Runs.dfy` | tests on several nodes and their executors; what one run puts on the queue |
| `Outcomes.dfy` | what the result of a test says about its executor, command line by command line |
| `Nodes.dfy` | node groups |
| `Sequences.dfy` | concatenation |
| `Worker.dfy` | the worker: commands with retries, stages, nodes, the whole run |

Classes stand where the source updates fields (`Requestor`, `Worker`, `PrintStreamBuffer`,
`LocalExecutor`, `NodeList`, `Job`); their methods are tied to functions on values, and the theorems
are about these. The chain goes through in both directions. Downwards, a status that `Worker.Run`
publishes is the conjunction of tests whose calls an executor each has seen, a test that has passed has
run the command lines that `PassedCheckoutHasRun` and `PassedPullHasRun` write out, everything any attempt
has yielded stands in the transcript, and what is published is what flushing has made of that
transcript. Upwards, whatever becomes of a run, it has first cleaned up as `AllCleanedUp` says and
then kept to the script, which `WorkerRunIsSteps` turns into steps of `BuildSystem`, and
`FullRunIsReported` feeds a run that comes to its end to the requestor. `BuildSystem` assumes that
build numbers are not negative and grow, that all its builds carry the same CI message, and that a
stopped build is dead when `Stop` returns.

Where a definition is only to be used by name, it is handed on as a function value together with a
predicate that says which function it is (`Redactor`, `Account`, `Telling`, `Course`).

## What the code does that one might not expect

- *Failure can be over-reported* when an old build is not stopped, although every build keeps to its
  script (`FailureCanBeOverReported`); success can not (`SuccessIsNeverOverReported`).
  `VerdictIsRightIff` says exactly when a verdict is right, and queues in order exclude the rest.
- *A worker without a build number* runs as build -1. A failure that it has reported is forgotten when
  a numbered build announces itself, and its Final then passes (`UnnumberedFailureCanPass`);
  `UnnumberedVerdict` says exactly when.
- *A log can come after Final*: if the last publish before Status fails, its text is left for the
  closing flush. `LogCanComeAfterFinal` shows such a run, and `Worker.Run` says that this is exactly when
  it happens, and that it never happens in a run that has succeeded.
- *Redaction* (the documentation, README.md:9, promises it for every `--env` value): a value that can
  overlap a marker comes back in the redaction of some text. `ValueIsRemovedIffNoOverlap` gives the exact
  condition for one replacement and `ValueIsRemovedIffClear` for the whole redaction with any number of
  variables. For a value without a dash the condition is that the marker does not contain it
  (`DashlessValueIsRemovedIff`). An empty value puts its marker before, between and after all characters of the log.
- *A pull request can pass although its clone failed*: the main branch is checked out whatever
  happened before (`FailedCloneCanPass`; `PullTestMeaning` says exactly when it passes).
- *The retry loop count* counts attempts, not retries (README.md:152 speaks of retries), and a
  count below 1 still makes one attempt. A failed flush is retried like an executor error.
- *An empty node list is a success* with nothing run.
- *The reader of an attempt is left behind* when Start or a read fails: it waits for ever to offer its
  last word (`EndOfHandshake`).
- *A failed poll* of a build's state counts as not running, so the build is not stopped; `RunsOnIff`
  says exactly which builds run on.
- *Local tags*: the tags given to a local executor are ignored, and every command adds another `local`.
- *The list of errors* printed after the last attempt holds only the last error: it is complete exactly
  if there is one error (`ErrorsAreListedIff`), and another one can be found in it exactly if the line of
  the last one ends with its line (`ErrorIsPrintedIff`).
- *A failed pipe* leaves a local worker in the directory of the command, and this is the only way in
  which the directory changes (`WorkingDirectoryIsRestoredIff`).

## Model

| member | source | states |
|---|---|---|
| Protocol.OrderlyIsNondecreasing | pkg/worker/worker.go:502-545 | on a queue in order, build numbers never go back |
| Protocol.OrderlyKeepsScripts | pkg/worker/worker.go:502-551 | on a queue in order, what each build sent is a prefix of its script, run after run |
| Protocol.OrderlyIff | pkg/worker/worker.go:502-551 | conversely, never going back and every build keeping its script is all that order means |
| Protocol.TrackIff | pkg/worker/worker.go:528-550 | what a run can have published, message by message: Cancel, Build, logs, one status, and a Final and a log or one of them |
| Following.VerdictIsFinal | pkg/requestor/requestor.go:140-147 | messages after the one that brings the verdict change nothing |
| Messages.OwnMembers | pkg/requestor/requestor.go:89 | what is left after erasing is every message of the project, as often as it was there |
| Following.ForeignMessagesAreIgnored | pkg/requestor/requestor.go:88-155 | erasing all messages of other projects changes neither printed logs nor verdict nor state |
| Following.FollowerIsDefinedByHistory | pkg/requestor/requestor.go:78-157 | the followed build is the newest one announced in the current epoch and `success` the conjunction of the statuses that counted in it |
| Following.VerdictIsDefinedByHistory | pkg/requestor/requestor.go:114-147 | a verdict falls exactly on a Final of that build; it is a pass only if all counted statuses passed and a failure only if one did not |
| Following.OrderlyFollower | pkg/requestor/requestor.go:76-158 | on a queue in order the requestor follows the holder of the floor from its Build on, and remembers exactly whether it has reported a failure |
| Following.OrderlyVerdict | pkg/requestor/requestor.go:76-158 | on a queue in order a Final always brings the verdict and nothing else does; it is the Final of a build that has reported, the verdict is the conjunction of that build's statuses alone, and no newer build has spoken |
| Following.FollowedFailureIsSeen | pkg/requestor/requestor.go:89-151 | for any interleaving of single runs, a requestor that still believes in success has had no failure of the build it follows on the queue |
| Following.FollowingIsContinuous | pkg/requestor/requestor.go:89-113 | whatever is on the queue, a followed build has been followed without a break since some Build message of its own |
| Following.FollowedStatusCounts | pkg/requestor/requestor.go:89-139 | for any interleaving of single runs, if the followed build has reported then a status of it has counted |
| Following.SuccessIsNeverOverReported | pkg/requestor/requestor.go:89-151 | for any interleaving of single runs, a pass on Final(b) means that the requestor has followed b from its Build on, has counted a success that b reported, and that b has reported no failure |
| Following.FailureCanBeOverReported | pkg/requestor/requestor.go:103-139 | a concrete queue on which a build that reports only success gets a failure |
| Following.CrosstalkIsMadeOfSingleRuns | pkg/worker/worker.go:502-551 | on that queue both builds keep to their scripts, so only the missing stop lets it happen |
| Following.VerdictIsRightIff | pkg/requestor/requestor.go:103-147 | for any interleaving of single runs, a verdict is right about the build whose Final brings it exactly if that build has failed or no failure of another build has counted since the last accepted Cancel |
| Following.CrosstalkIsNotOrderly | pkg/jenkins/jenkins.go:30-55 | stopping older builds rules that queue out |
| Following.UnnumberedFailureCanPass | pkg/jenkins/jenkins.go:109-119 | a concrete queue, both of whose builds keep to their scripts, on which build -1 reports a failure and its Final passes |
| Following.UnnumberedVerdict | pkg/requestor/requestor.go:89-147 | the Final of build -1 brings a verdict exactly if no numbered build has been announced since the last accepted Cancel, and it is right about -1 exactly if -1 has not failed or has failed since then |
| Following.RunIsFollowed | pkg/requestor/requestor.go:90-139 | a complete run of a newer build resets the requestor, one of the followed build adds to what it knows |
| Following.StaleMessagesAreIgnored | pkg/requestor/requestor.go:89-151 | after a newer build's Cancel, foreign messages and old builds' Log, Status and Final may be erased |
| Following.NewerBuildTakesOver | pkg/requestor/requestor.go:89-151 | from any unfinished state below b, b's complete stream, interleaved with stale and foreign messages, ends with exactly b's status and shows exactly b's logs in order |
| Following.PipelineIsFollowed | pkg/requestor/requestor.go:90-151 | after any number of runs of one build, `success` is the conjunction of all their statuses and all their logs are shown |
| Following.PipelineTakesOver | pkg/requestor/requestor.go:89-151 | from any unfinished state below b, with Final after the last of any number of runs of b only and whatever stale and foreign messages in between, the verdict passes exactly if every run's status was true, and all their logs are shown in order |
| RequestorLoop.Requestor.Handle | pkg/requestor/requestor.go:88-155 | one delivery: the fields and the local `success` change as the fold says |
| RequestorLoop.Requestor.ConsumeMessages | pkg/requestor/requestor.go:75-163 | the loop computes the fold, signals done exactly once and only with its verdict, and acknowledges exactly the messages before the one that brings it |
| BuildSystem.StepKeepsInv | pkg/worker/worker.go:502-551 | what every step keeps: an announced build has only dead builds below it, and only the holder of the floor is in the middle of a run |
| BuildSystem.QueueIsAlwaysOrderly | pkg/worker/worker.go:502-545 | in every run of any number of builds the queue is in order: nondecreasing and to each build's script |
| BuildSystem.OlderBuildsStaySilent | pkg/jenkins/jenkins.go:30-55 | once a build has finished its cleanup, no older build publishes again, ever |
| BuildSystem.OvertakenNeverBegins | pkg/worker/worker.go:505-511 | in every run, a build that is overtaken while it is idle never begins, nor begins another run of its worker |
| BuildSystem.ScriptCanBePublished | pkg/worker/worker.go:528-550 | whatever keeps to the script is a sequence of steps of the system |
| Supersession.SupersessionIsSteps | pkg/worker/worker.go:505-526 | with faithful answers, looking for newer builds and stopping the older ones is a sequence of steps of the system, and the state they end in shows what has become of the Jenkins builds |
| Supersession.WorkerRunIsSteps | pkg/worker/worker.go:502-551 | so the whole of a run, from its first question to Jenkins on, is a sequence of steps of the system |
| BuildSystem.VerdictIsThatOfTheNewestBuild | pkg/requestor/requestor.go:76-158 | end to end: whenever done is signalled, it is on the Final of a build that has reported, with the conjunction of its own statuses, and no newer build has spoken before |
| BuildSystem.DoneIffFinalIsDelivered | pkg/requestor/requestor.go:140-147 | in every run, done has been signalled exactly if a Final of this request has been delivered |
| BuildSystem.SingleRunVerdictIsOwnStatus | pkg/requestor/requestor.go:126-147 | if the build that brings the verdict has run its worker once, it has reported exactly once, and that is the verdict |
| JenkinsJobs.LastParameterStays | pkg/jenkins/jenkins.go:43-45 | a name has a value in the map exactly if the last parameter of that name has it |
| JenkinsJobs.MatchesIff | pkg/worker/worker.go:88-103 | a build matches exactly if the last parameter of the right name parses to the wanted request |
| JenkinsJobs.Job.CleanupOldBuilds | pkg/jenkins/jenkins.go:12-57 | with or without error, no parameter changes and no build that is not older or does not match is touched; without error, exactly the older matching builds that are seen to run and honour the stop are stopped; there is an error only if a request has failed |
| JenkinsJobs.RunsOnIff | pkg/jenkins/jenkins.go:30-55 | after the cleanup any build runs exactly if it did before, unless it is older, matches, was polled and honoured its stop; with faithful answers no older matching build runs |
| JenkinsJobs.Job.NewerBuildsExist | pkg/jenkins/jenkins.go:59-99 | without error, the answer is exactly whether a higher-numbered build matches; there is an error only if a request has failed |
| Splicing.NothingIsCreated | pkg/printstreambuffer/printstreambuffer.go:42-46 | a replacement brings about no such text that was not there |
| DottedQuads.OctetPatternIsByte | pkg/printstreambuffer/printstreambuffer.go:45 | the alternatives of the octet pattern match exactly the numbers 0 to 255 of one to three digits |
| DottedQuads.QuadPatternIsQuad | pkg/printstreambuffer/printstreambuffer.go:45 | the expression matches exactly the dotted quads of bytes, 256 and 299 needing shorter octets included |
| Redaction.CutsKeepTheText | pkg/printstreambuffer/printstreambuffer.go:42-46 | the text outside the matches stays unchanged and in order |
| Redaction.MatchesAreGone | pkg/printstreambuffer/printstreambuffer.go:42-46 | leftmost replacement leaves no match that cannot overlap the marker, for any pattern |
| Redaction.ReplaceAllCreatesNothing | pkg/printstreambuffer/printstreambuffer.go:42 | replacing one value, also an empty one, does not re-create another that was removed |
| Redaction.ValueIsRemovedIffNoOverlap | pkg/printstreambuffer/printstreambuffer.go:42 | replacing a value removes it from every text exactly if it cannot overlap its marker |
| Redaction.DashlessValueIsRemovedIff | pkg/printstreambuffer/printstreambuffer.go:42 | replacing a value without a dash removes it from every text exactly if its marker does not contain it |
| Redaction.NoEnvValueSurvives | pkg/printstreambuffer/printstreambuffer.go:39-48 | for every iteration order no non-empty value but that of CI survives, if it cannot overlap a marker |
| Redaction.OnlyQuadsAreRedacted | pkg/printstreambuffer/printstreambuffer.go:45-46 | address redaction replaces dotted quads only and keeps all else in order |
| Redaction.NoQuadSurvives | pkg/printstreambuffer/printstreambuffer.go:45-46 | no dotted quad is left in a redacted text |
| RedactionLimits.ValueIsRemovedIffClear | pkg/printstreambuffer/printstreambuffer.go:39-47 | for any number of variables that can be told apart, the whole redaction removes a value from every text in every order exactly if it can overlap no marker |
| PrintStream.NothingIsLost | pkg/printstreambuffer/printstreambuffer.go:36-72 | for any prints, flushes and publish failures, published text followed by buffered text is all that was printed |
| PrintStream.FewPrintsPending | pkg/printstreambuffer/printstreambuffer.go:68-70 | the counter stays below the buffer size plus the number of failed publishes, so below the buffer size while publishing succeeds |
| PrintStream.RedactedIsClean | pkg/printstreambuffer/printstreambuffer.go:39-48 | what redaction makes of a text, in whatever order, holds no address and no clear value of a variable other than CI |
| PrintStream.PlainRecordLosesNothing | pkg/printstreambuffer/printstreambuffer.go:36-72 | without redaction, what has left the buffer followed by what is in it is what was printed |
| PrintStream.PrintStreamBuffer.RedactMessage | pkg/printstreambuffer/printstreambuffer.go:39-47 | the loop over the map redacts in some order of all its keys |
| PrintStream.PrintStreamBuffer.FlushToQueue | pkg/printstreambuffer/printstreambuffer.go:36-58 | what it offers is what redaction makes of the buffered text; the logs on the queue and the buffer go on telling all that was printed; if the buffer is left non-empty the last publish has failed, and after a failed publish it stays non-empty |
| PrintStream.PrintStreamBuffer.Print | pkg/printstreambuffer/printstreambuffer.go:60-72 | a print appends, and flushes when asked to or when the buffer is full |
| Executors.CommandIsBracketed | pkg/worker/worker.go:219-271 | however many attempts a command takes, every successful InitCommand is closed once before the next, Start precedes Wait, and Wait follows the drained output |
| Executors.CommandComesHome | pkg/executor/localexecutor.go:28-93 | if no pipe fails, a command returns in the working directory it started in, whatever else fails |
| Executors.WorkingDirectoryIsRestoredIff | pkg/executor/localexecutor.go:28-93 | for every directory it does so exactly if the command names none, names the one the process is in, or no pipe failed |
| Executors.LocalExecutor.InitCommand | pkg/executor/localexecutor.go:28-70 | its effect on the process, the remembered directory, the tags and the environment map for every outcome |
| Executors.LocalExecutor.Close | pkg/executor/localexecutor.go:88-93 | goes back to the remembered directory, if there is one and it can |
| Handshake.LinesMakeUpTheText | pkg/worker/worker.go:229-241 | the lines that are read make up the whole output, an unterminated last line included |
| Handshake.LinesAreLines | pkg/worker/worker.go:230 | each ends with its only line break, the last one possibly without |
| Handshake.NilMeansEverythingPrinted | pkg/worker/worker.go:226-256 | in every interleaving, when main receives nil all lines have been given to the buffer in order and are the whole output |
| Handshake.EndOfHandshake | pkg/worker/worker.go:226-256 | where the two can go no further, main has received nil exactly if Start and all reads have succeeded, and it is never left waiting; the reader has ended exactly then, and is otherwise left behind |
| Handshake.StepsComeToAnEnd | pkg/worker/worker.go:226-256 | every step brings them closer to that end |
| Handshake.NilCanBeReceived | pkg/worker/worker.go:226-256 | for any output there is an interleaving in which main receives nil |
| Plans.InRowMeaning | pkg/worker/worker.go:299-414 | commands in a row run up to the first that does not succeed; the result is true exactly if all ran and succeeded |
| Plans.CheckoutTestIsInRow | pkg/worker/worker.go:344-364 | a test of a branch or tag is the row of its deciding commands; only naming the git user can end it in another error |
| Plans.CheckoutTestMeaning | pkg/worker/worker.go:299-450 | it succeeds exactly if every deciding command ran and succeeded, and never goes on after one that did not |
| Plans.ScriptNeedsSetup | pkg/worker/worker.go:436-448 | for every kind the run script is executed only after a setup that returned true |
| Plans.PullTestMeaning | pkg/worker/worker.go:322-343 | a test of a pull request is true exactly if main was checked out, merged provided that the pull was fetched, and download, run and removal succeeded |
| Plans.FailedCloneCanPass | pkg/worker/worker.go:314-337 | a pull request can pass although its clone failed |
| Plans.FailureHasCause | pkg/worker/worker.go:299-450 | a test never comes to false unless a command it ran did not succeed, nor to an error unless its last command did or its kind is unknown |
| Outcomes.PassedCheckoutHasRun | pkg/worker/worker.go:299-414 | on the executor of a passed test of a branch or tag these command lines ran and exited with success, in this order: removing the work directory, making the repository's directory below it, cloning there, checking out target or tags/target, downloading the run script if there is a URL, running it after the setup script if there is one, removing the work directory |
| Outcomes.PassedCheckoutHasNamed | pkg/worker/worker.go:279-296 | with a git user and email, it has been given the command that names the user and, if that came to true, the email |
| Outcomes.PassedPullHasRun | pkg/worker/worker.go:322-414 | on the executor of a passed test of a pull request the main branch was checked out in the repository and, if the pull was fetched before, exactly the branch that it was fetched to was merged, before download, run and removal |
| Outcomes.OnlyTheseAreGiven | pkg/worker/worker.go:219-224 | an executor is only ever given the command lines of its test in their directories, each with the variables and tags of the worker |
| Outcomes.UnsuccessfulTestHasCause | pkg/worker/worker.go:418-450 | a test is false only after a command whose last attempt did not exit with success, and an error only without an executor, for an unknown kind, or after every allowed attempt at its last command had an executor error |
| Outcomes.BaseWorkDirHasNoDots | pkg/worker/worker.go:421 | the work directory is the receive identity with its dots replaced |
| Calls.SleepTotalClosed | pkg/worker/worker.go:203-211 | n attempts with base B sleep B(n(n+1)/2 - 1) in total |
| Calls.CallsAreBracketed | pkg/worker/worker.go:193-277 | executors are opened and closed in pairs across all stages and retries |
| Calls.LocalTestComesHome | pkg/executor/localexecutor.go:28-93 | a whole local test ends in the working directory it started in, if no pipe fails |
| Transcripts.OutputsArePrinted | pkg/worker/worker.go:187-247 | every command line, every attempt with its number and all that it has yielded, line by line with its tags, stand in the transcript in the order of the attempts |
| Transcripts.RetryTextIs | pkg/worker/worker.go:203-211 | before attempt n > 1 the failure is told and, while retries are left, a pause of n times the back-off |
| Transcripts.ListTextIs | pkg/worker/worker.go:189 | tags and command lines are printed in brackets, with spaces between the words |
| Transcripts.EffortOfAttempts | pkg/worker/worker.go:200-273 | what any number of turns of the retry loop print, show to the executor and sleep, summed up |
| Transcripts.ErrorsAreListedIff | pkg/worker/worker.go:179-185 | the text printed for the recorded errors is the lines of all of them, in order, exactly if there is one |
| Transcripts.ErrorIsPrintedIff | pkg/worker/worker.go:179-185 | if the last error is a single line, an error can be found in that text exactly if the line of the last one ends with its line |
| Nodes.GroupKeepsOrder | pkg/node/node.go:57-67 | a group consists of the nodes at increasing positions of the list |
| Nodes.GroupsPartition | pkg/node/node.go:57-67 | every node is in its own group as often as in the list and in no other |
| Nodes.NodeList.NodesPerGroup | pkg/node/node.go:57-67 | the map has exactly the groups of the list as keys and their nodes, in order, as values |
| Nodes.NodeList.PickOnePerGroup | pkg/node/node.go:72-76 | for any random numbers and any order of the map, one node of the list for every group, and as many nodes as groups |
| Nodes.NodeList.ProcessNodeGroup | pkg/node/node.go:69-82 | only the kind random-one-per-group changes the list |
| WorkerEngine.LowerIsLower | pkg/worker/worker.go:82 | the script identity has no upper-case letters and is otherwise project, kind and target |
| WorkerEngine.Worker.constructor | pkg/worker/worker.go:56-86 | the worker is what it was given, with a fresh and empty buffer, and its script identity is in the shared environment |
| WorkerEngine.Worker.Stream | pkg/worker/worker.go:157-163 | the data is added to what was printed, and whatever is published is a log of this build that the buffer may publish |
| WorkerEngine.Worker.ReadOutput | pkg/worker/worker.go:228-247 | every line of the output is printed, tagged, in order, with or without redaction |
| WorkerEngine.Worker.RunAttempt | pkg/worker/worker.go:219-273 | one attempt gives the executor the command line with exactly the worker's variables and tags, has one of six ends, leaves exactly its events on the executor, closed, and prints exactly its heading and all it has yielded; without error nothing is left in the buffer, and a flush that fails is a failed publish |
| WorkerEngine.Worker.Retry | pkg/worker/worker.go:200-273 | terminates; an error exactly if all max(1, R) attempts had executor errors, one recorded error for each that failed, otherwise the result of the first without; printed, seen and slept is exactly what the attempts add up to |
| WorkerEngine.Worker.RunCommand | pkg/worker/worker.go:193-277 | a result is what the last Wait on the executor has answered, after its output was read to the end; all earlier attempts had executor errors, and an error comes only after max(1, R) of them; a skipped command is false with nothing run; the transcript grows by exactly this entry |
| WorkerEngine.Worker.RunStep | pkg/worker/worker.go:193-277 | a command of a plan runs, or is skipped after a failure, and leads on to the rest of the plan; executor and transcript show exactly the calls so far |
| WorkerEngine.Worker.SetupGit | pkg/worker/worker.go:279-296 | failures to name the git user decide nothing unless the executor fails on the first |
| WorkerEngine.Worker.SetupTarget | pkg/worker/worker.go:322-363 | each kind checks out what its plan says, in the repository's directory; what that has run on the executor when a test passes is written out in `Outcomes` |
| WorkerEngine.Worker.Test | pkg/worker/worker.go:418-450 | a test follows the plan of its configuration on a fresh executor for its place, which has seen exactly its calls and is closed |
| WorkerEngine.Worker.RunAll | pkg/worker/worker.go:454-477 | the nodes of the list are tested in its order, all of them unless there is an error, or the slave once; true without error exactly if every test succeeded, each of which a different executor has seen; after a success nothing is left in the buffer |
| WorkerEngine.Worker.Finish | pkg/worker/worker.go:541-551 | something is left for after the conclusion exactly if the last publish before it failed, which the outcomes of all publishes show |
| WorkerEngine.Worker.Supersede | pkg/worker/worker.go:505-526 | goes on only if no newer build matches and every older one has been cleaned up, and stops only for a newer build or a failed request; whatever happens, nothing but older matching builds is touched |
| WorkerEngine.Worker.Run | pkg/worker/worker.go:502-551 | whatever fails, what is published is a prefix of the script, is clean if it is to be redacted, and comes after the older builds were cleaned up, which touches no others; a status is sent only after a test on every node of the list, or one on the slave, and is the conjunction of their results; every test is seen by an executor of its own where it ran, and every command is given the worker's variables and tags; the command lines and attempts in the transcript are exactly those of the tests; the logs are what flushing has made of the transcript, and put together they are the transcript if nothing is redacted; without error the stream is complete and nothing is buffered, a log follows the conclusion exactly if the last publish before Status failed, and none does after a success; there is an error only for a newer build, a failed request, publish or queue, or a test that ended in one; the shared environment is as before |
| Runs.LogCanComeAfterFinal | pkg/worker/worker.go:541-551 | a run, in keeping with the script, whose log comes after its Final because the last flush before Status failed |
| Runs.FullRunIsReported | pkg/requestor/requestor.go:75-163 | a requestor given such a run of a newer build shows its logs; with Final it ends with its status, whatever comes after, and without it goes on following with that status |

## Left out

- AMQP connections, channels and declarations: a queue is a sequence, and any publish may fail and then adds nothing. Acknowledgement is counted; redelivery is not modelled.
- JSON: messages and CI messages are values. Malformed messages, for some of which the requestor signals done and goes on, and messages of unknown kinds, which it ignores, do not occur.
- The Jenkins REST client: listing, fetching and stopping may fail, and `Answers` says which polls succeed and which accepted stops are honoured while one worker cleans up. `BuildSystem` and the lemmas of `Supersession` are about faithful answers; a stop that fails has no effect.
- The worker's filter is one equality of CI messages; the requests of other CI messages on the same queue are not part of `BuildSystem`.
- The watchdog that ends a worker when a newer build appears: it is the `Die` step. Waiting times (20 seconds, 2 minutes, 25 milliseconds) are left out; back-off is counted.
- A started worker whose main path has given up on an attempt: the reader goroutine that is left behind after a failed Start or a read error (`EndOfHandshake`) may still print. `Handshake` covers its steps; in `Worker` the output is printed between a successful Start and the handshake, and an attempt whose Start failed prints nothing.
- SSH sessions, processes, shells and git: outcomes of executors are arbitrary. One class `Executor` stands for both kinds; `LocalExecutor` is modelled on its own and its effect is defined over the same traces.
- CommandComesHome: takes it, as LocalTestComesHome and WorkingDirectoryIsRestoredIff do, that the directory `Close` goes back to still exists.
- ErrorIsPrintedIff: is about a last error that is a single line; ErrorsAreListedIff is about any errors.
- Paths are joined with a slash and not cleaned.
- The text of numbers, durations and errors is a parameter of the worker, and the error is left out of the text printed when removing a stale work directory fails; `Lower` treats ASCII letters only. What is printed to the console is not modelled, nor is the stripping of ANSI sequences.
- ValueIsRemovedIffClear: is about values and names in which no digit stands directly before a dot, since there the redaction of addresses may happen to remove what a marker has created, and about variables that can be told apart (`Separable`), since otherwise another replacement may. NoEnvValueSurvives has neither restriction.
- A value that is split over two published messages is in neither of them, so it is not redacted; the properties are about single messages.
- `newNode` drops the group it is given, reading and writing node files, and `ProcessNodeGroup` on a missing list.
- Command line, logging, version, queue creation for requests and the sending of the build request.
