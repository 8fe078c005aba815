# Test at Scale: verified models of its hard parts

This Dafny project models the parts of Test at Scale (the `nucleus` and `synapse` programs) whose behaviour is not
settled by reading one function, and proves what they do for every input, every run or every schedule.  It verifies
with `dafny verify dfyconfig.toml`.

What is modelled, hardest first:

- **Coverage of a push** (`FileSystem`, `Coverage`, `CarryForward`).  A tree of paths, a recursive copy, a walk that
  removes names in place from a list while it copies, and the loop over the commits of a push.  The loop's result has a
  closed form over the history: the newest commit that had a test directory wins, unless a commit since has removed it
  or run all tests.
- **Synapse** (`Outbox`, `Docker`, `Synapse`).  Tasks, aborts, containers, a bounded queue and writers that put a message
  back when a write fails, as steps over one shared state that any schedule may interleave; and the slice of running
  containers as Go keeps it, on shared arrays.
- **The pre-run stage and the blocklist** (`PreRun`, `BlockTests`).  One goroutine a submodule, a fetch that happens once
  and whose error goes to one caller only, and the grouping of blocked tests by file.
- **Consecutive test runs** (`TestExecution`, `TestStats`).  The loop, the goroutine that waits for results without
  waiting for them, the samples that belong to a test.
- **Text** (`Secret` on `Substitution`, `Mask`, `LogWriter`, `Reporter`, with `Text` and `Layout`).  Secret
  substitution, masking, the line-splitting log writer and the compressed list of uncovered lines.
- **Changed files** (`Diff`) and **configuration** (`ConfigParse`).

Objects that the source changes step by step are classes with methods proved against a function of the old state;
goroutines are steps of a state machine, and a run is any list of enabled steps.  Where a promise does not hold for all
inputs there is a lemma that says exactly when it does, and one with an input or a run that breaks it:
`Coverage.IntendedIffNoNamesake` and `Coverage.NamesakeResurrects`; `Secret.SubstitutesOnceIff` and
`Substitution.HarmShows`; `Mask.LeaksIffStarred` and `Mask.StarCompletesPart`; `Mask.CutLeaksIffStraddled` and
`Mask.SplitSecretLeaks`; `Mask.OrderFreeIffAgree`; `Diff.AgreeIffTextual` and `Diff.RenameDiffers`;
`Diff.AgreeIffAbsorbed` and `Diff.LookAlikeCounts`; `BlockTests.WholeFileKey`; `Outbox.PutBackKeepsOrderIff` and
`Outbox.FailureReorders`; `Outbox.PutBackHasRoom` and `Outbox.PutBackCanBlock`; `Synapse.AbortReaches`,
`Synapse.AbortedWithoutKill` and `Synapse.SecondContainerSurvives`; `TestExecution.StaleIffWaiting` and
`TestExecution.StaleResult`; `ConfigParse.LastLookupItself` and `ConfigParse.WideLookupStoresZero`.

Where the code and its comments disagree the code is followed: `CopyFile` and `CopyDir` say they keep file modes, but
every caller here asks them not to; `SubstituteSecret` is meant to replace placeholders once, but a value can be
substituted again.

## Model

| member | source | states |
|---|---|---|
| FileSystem.Disk.MkdirAll | pkg/fileutils/fileutils.go:82-85 | makes exactly the missing directories on the way to a path, even when it fails half-way; succeeds on a reliable disk whenever only directories are in the way |
| FileSystem.Disk.CopyFile | pkg/fileutils/fileutils.go:16-57 | on success the destination is the source file and nothing else changed; on failure only the destination may have changed |
| FileSystem.Disk.CopyDir | pkg/fileutils/fileutils.go:62-124 | on success the subtree at the destination is the source's with all symbolic links dropped and nothing else changed; on error nothing outside the destination changed; on a reliable disk it succeeds exactly when the source is a directory, the destination does not exist and only directories are on the way to it; it terminates |
| FileSystem.CopiedKeepsWellFormed | pkg/fileutils/fileutils.go:62-124 | a copy leaves every node in a directory |
| FileSystem.CopyOfCopy | pkg/fileutils/fileutils.go:62-124 | copying a copy gives the same tree as the copy |
| FileSystem.CopyIntoItselfRecurs | pkg/fileutils/fileutils.go:100-108 | copying a directory into itself meets its own copy again one level down, so it would never end |
| Coverage.RemovedFiles.Splice | pkg/service/coverage/coverage.go:281-282 | removing an element in place on the shared array leaves the elements before and after it, in order |
| Coverage.InheritedNames | pkg/service/coverage/coverage.go:275-301 | for every removal list, with repeats and strange names: a name is copied exactly when the commit lacks it and the walk met it more often than it is listed, and what is left of the list is what was not met |
| Coverage.InheritedAsIntended | pkg/service/coverage/coverage.go:270-305 | if nothing in the parent directory is called like it: a name is inherited exactly when the parent has the directory, it is not listed as removed and the commit does not have it |
| Coverage.IntendedIffNoNamesake | pkg/service/coverage/coverage.go:270-305 | if the commit neither has nor removes a directory called like its parent's own, every name is inherited as intended exactly when the parent does not hold such a directory |
| Coverage.NamesakeResurrects | pkg/service/coverage/coverage.go:276-299 | a directory called like the parent is entered, and a name in it uses up a removal, so a removed directory comes back |
| Coverage.InheritedOwnKept | pkg/service/coverage/coverage.go:289-296 | what a commit already has is never altered |
| Coverage.Visit | pkg/service/coverage/coverage.go:276-299 | one call of the walk's function does one step of the specification to the list and to the disk |
| Coverage.Walk | pkg/service/coverage/coverage.go:275-303 | the walk calls it on every candidate directory, in some order |
| Coverage.CopyFromParentCommitDir | pkg/service/coverage/coverage.go:270-305 | afterwards the commit directory is its own content and complete copies of the inherited directories; on every outcome its own content is untouched; a missing parent is an error that changes nothing |
| Coverage.CollectCoverageFiles | pkg/service/coverage/coverage.go:79-92 | finds every entry named like a coverage report below a directory, and nothing else |
| CarryForward.OriginIsNewest | pkg/service/coverage/coverage.go:124-184 | the loop's recursion over commits has a closed form: a directory comes from the newest commit that had it with no removal and no full run since, or from nowhere |
| CarryForward.CarryStep | pkg/service/coverage/coverage.go:139-145 | one commit's inheritance turns the parent's history of a directory into the commit's |
| CarryForward.NewestCommitWins | pkg/service/coverage/coverage.go:124-184 | the same said of the tree before and after: under every name but the merged report's a processed commit has what the newest commit that had it had there, without symbolic links if that is another one, provided no later commit's manifest removes it or says that all test files were run; and nothing if there is no such commit |
| CarryForward.CoverageService.MergeCoverageFiles | pkg/service/coverage/coverage.go:73-101 | merging writes one report into the commit directory and nothing outside it; no report to merge is an error, no directory is not |
| CarryForward.CoverageService.Inherit | pkg/service/coverage/coverage.go:139-145 | a commit that did not run all tests inherits, and then holds what its history says; nothing outside its directory changes |
| CarryForward.CoverageService.ProcessCommit | pkg/service/coverage/coverage.go:124-184 | processing commit k gives its directory the content its history says, keeps the earlier ones, and changes nothing outside its directory |
| CarryForward.CoverageService.MergeAndUpload | pkg/service/coverage/coverage.go:104-186 | one body is posted, with one entry for each commit in order, exactly when all commits were processed; after an earlier failure nothing is posted; nothing outside the commits' directories changes; on a machine where nothing fails a ready push succeeds |
| Outbox.NothingLostOrDoubled | pkg/synapse/synapse.go:360-385 | for all producers, writers and failing writes: enqueued messages are queued, held or delivered, each as often, and at most 1024 are queued |
| Outbox.StepConserves | pkg/synapse/synapse.go:360-385 | every single step keeps that balance |
| Outbox.PutBackKeepsOrderIff | pkg/synapse/synapse.go:376-378 | with one message in hand, a put-back keeps the order exactly if nothing different has been queued meanwhile |
| Outbox.FirstInFirstOut | pkg/synapse/synapse.go:369-385 | with one message in hand at a time and no put-back behind a different message, delivered, held and queued messages are the enqueue order |
| Outbox.OneWriterInOrder | pkg/synapse/synapse.go:369-385 | so with one writer and no failed write |
| Outbox.FailureReorders | pkg/synapse/synapse.go:376-378 | one failed write and its put-back are enough to turn two messages round |
| Outbox.TwoWritersReorder | pkg/synapse/synapse.go:370-385 | two writers are enough to turn two messages round |
| Outbox.PutBackHasRoom | pkg/synapse/synapse.go:376-381 | in every run a failed message can be put back exactly if fewer than 1024 messages are under way besides those in hand |
| Outbox.PutBackCanBlock | pkg/synapse/synapse.go:376-381 | a run in which the put-back meets a full queue and nobody but a new connection can go on |
| Docker.Append | pkg/runner/docker/docker.go:246 | appending gives the longer list, and a slice taken before keeps its elements although the array may be shared |
| Docker.RemoveContainerID | pkg/runner/docker/docker.go:256-274 | gives the list without the first container of the id; the slice it is given is not changed, as the result is that slice or a new array |
| Docker.RemoveFirstOfList | pkg/runner/docker/docker.go:256-274 | in a list without repeats exactly that container goes |
| Docker.AppendedThenRemoved | pkg/runner/docker/docker.go:246-327 | appending a new container and removing it gives the list back |
| Docker.FirstOfIsOfBuild | pkg/runner/docker/docker.go:341-352 | the container picked for a build is the first one listed of that build; none is picked exactly when none is listed |
| Docker.DockerRunner.Run | pkg/runner/docker/docker.go:237-253 | the container is appended exactly when it starts |
| Docker.DockerRunner.Initiate | pkg/runner/docker/docker.go:301-330 | on every outcome one status is sent, done exactly when create, start and wait went well and else with the first error; the list is left without the container; an earlier slice is not changed |
| Docker.DockerRunner.Destroy | pkg/runner/docker/docker.go:212-235 | the container is asked to stop once; it is removed exactly when stopping went well and docker does not remove it itself; the error is the first one |
| Docker.DockerRunner.KillRunningDocker | pkg/runner/docker/docker.go:332-339 | every listed container is asked to stop, in order, whatever the others answer; removed are, in order, exactly those that stopped, if docker does not remove them itself |
| Docker.DockerRunner.KillContainerForBuildID | pkg/runner/docker/docker.go:341-352 | only the first listed container of the build is asked to stop, and its error is returned |
| Synapse.MessagesConserved | pkg/synapse/synapse.go:258-385 | over tasks, aborts and failing writes together no message is lost or doubled and the queue keeps its bound |
| Synapse.OneStatusPerTask | pkg/synapse/synapse.go:279-302 | in every reachable state at most one value has been sent on a status channel, exactly one once it is closed, and nobody is sending on a closed one |
| Synapse.TaskReports | pkg/synapse/synapse.go:258-302 | read off the steps of the run: a finished task has enqueued started exactly if it is a nucleus, then one release, then one terminal status; it is aborted exactly when its build was aborted before the task's check of the abort map, else completed exactly when the container was created, started and ended well, and failed exactly when it was not created, did not start or ended badly |
| Synapse.TaskMoves | pkg/synapse/synapse.go:258-302 | the moves of a finished task in the order in which they came, whatever was interleaved: the container is removed from the list before the status is handed over, and the release is sent before the abort map is checked |
| Synapse.RunningContainersExact | pkg/runner/docker/docker.go:246-327 | in every reachable state the list holds, without repeats, exactly the containers that started and that their `Initiate` has not removed; it is empty when every `Initiate` has got to its status |
| Synapse.RunningBySteps | pkg/runner/docker/docker.go:246-327 | read off the steps: there is an entry for a container exactly if its start went well and its removal from the list has not come |
| Synapse.KillsHitTheirBuild | pkg/synapse/synapse.go:247-255 | a kill stops only a container of the build it was for, created by docker, and only after that build's abort |
| Synapse.TaskCanGoOn | pkg/synapse/synapse.go:258-302 | in every reachable state an unfinished task can go on unless the queue is full: the hand-over of the status never hangs |
| Synapse.AbortReaches | pkg/synapse/synapse.go:247-255 | in every reachable state an abort stops a container exactly if some task of its build has one in the list when it looks; then it is the first listed one and no other, whatever happens until it is stopped |
| Synapse.AbortedWithoutKill | pkg/synapse/synapse.go:247-299 | a run in which the abort looks too early: the job is reported as aborted although its container was never stopped and ended well |
| Synapse.SecondContainerSurvives | pkg/runner/docker/docker.go:341-352 | a run without any race in which one abort stops only the first of two containers of its build, and both jobs are reported as aborted |
| Synapse.StepKeepsInv | pkg/synapse/synapse.go:246-302 | every step of tasks, aborters and writers keeps the joint invariant |
| BlockTests.IndexIsFirst | pkg/blocktestservice/setup.go:147 | the index is that of the first occurrence, or -1 when there is none |
| BlockTests.DelimiterFound | pkg/blocktestservice/setup.go:144-151 | a normalised locator ends with the delimiter, so the slice index is in range; normalising twice is normalising once |
| BlockTests.KeyIsBeforeDelimiter | pkg/blocktestservice/setup.go:147-151 | the file key is the text before the first delimiter |
| BlockTests.WholeFileKey | pkg/blocktestservice/setup.go:143-147 | a locator that is a bare file name is filed under that name exactly when the name does not end in `#` |
| BlockTests.GroupIsStable | pkg/blocktestservice/setup.go:140-158 | after grouping a file's list is its earlier list and then its own entries in input order; the files are the earlier and the named ones |
| BlockTests.NoneLost | pkg/blocktestservice/setup.go:140-158 | each entry is in its own file's list as often as it came in, and in no other |
| BlockTests.YmlBeforeApi | pkg/blocktestservice/setup.go:98-138 | over both sources a file's list is its configured entries and then the fetched ones |
| BlockTests.GroupedIsRight | pkg/blocktestservice/setup.go:66-158 | the written file read off its inputs: a list for exactly the files some locator belongs to, holding in input order, configured before fetched, an entry for every such locator with its source, its status and the locator ended by `##` |
| BlockTests.FiledTogether | pkg/blocktestservice/setup.go:150-155 | entries are filed by the locator they carry, so equal ones are filed together |
| BlockTests.BlockTestService.AddOne | pkg/blocktestservice/setup.go:143-156 | one locator is normalised in place and its entry appended to its file's list |
| BlockTests.BlockTestService.PopulateBlockList | pkg/blocktestservice/setup.go:140-158 | the map becomes the grouping of all locators in order, and every locator is normalised in place, even if one object is listed twice |
| BlockTests.BlockTestService.FetchBlockListFromNeuron | pkg/blocktestservice/setup.go:66-94 | 404 is no error and adds nothing; else the first of transport and decoding error; else the fetched entries are grouped in |
| BlockTests.BlockTestService.Once | pkg/blocktestservice/setup.go:98-131 | the first run leaves the first failure in the channel, or writes the grouping to the file and gives up the map; every later one changes nothing |
| BlockTests.BlockTestService.GetBlockTests | pkg/blocktestservice/setup.go:97-138 | of calls in sequence only the first reports the failure, which is the first of transport, decoding, encoding and writing, with 404 as none; without one a service that starts empty has written the right lists |
| PreRun.SendNeverBlocks | pkg/driver/driver_v2.go:250-286 | in every reachable state the error channel has room for whoever is about to send |
| PreRun.NeverStuck | pkg/driver/driver_v2.go:243-302 | in every reachable state before the return some step other than printing can be taken |
| PreRun.StageEnds | pkg/driver/driver_v2.go:243-302 | no schedule has more than 10n+2 steps besides printing, and each can be continued to the return |
| PreRun.StageResult | pkg/driver/driver_v2.go:243-302 | on return all submodules have finished; the main buffer can be cut into the top level's text and, in index order, the buffers of the submodules; the error is one of the failures and there is one exactly if some submodule failed, and the status is error exactly then |
| PreRun.BufferIsPrinted | pkg/driver/driver_v2.go:273-284 | a submodule's buffer is what it printed, in order, whatever was interleaved |
| PreRun.EnvironmentDecides | pkg/driver/driver_v2.go:243-302 | with the outcome of the fetch and of each submodule's commands and installation given from outside, the stage fails exactly if there is a submodule and the fetch or some submodule's own work fails, whatever the schedule; the main buffer is cut in index order into what each submodule prints there, except that the one told of a failed fetch prints nothing |
| PreRun.ScheduleDoesNotShow | pkg/driver/driver_v2.go:243-302 | in one such environment any two schedules leave the same status, both return an error or neither does, and unless the fetch fails they leave the same buffer |
| PreRun.BlocklistFailureReportedOnce | pkg/blocktestservice/setup.go:97-138 | under every schedule a failed blocklist fetch is told to exactly one submodule, and so the stage fails; without a failure nobody is told of one |
| PreRun.StepKeepsOnce | pkg/blocktestservice/setup.go:97-138 | every step keeps: at most one goroutine is in the fetch, and its error waits until the first one that polls takes it |
| TestStats.Search | pkg/service/teststats/teststats.go:74-75 | binary search finds the first index at which a monotone condition holds |
| TestStats.WindowIsSlice | pkg/service/teststats/teststats.go:72-82 | the samples of an interval are the slice between the two indices, none when they are the wrong way round |
| TestStats.GetProcsForInterval | pkg/service/teststats/teststats.go:72-82 | on samples sorted by time the result is the filter start ≤ t < end, for all start and end |
| TestStats.AppendStatsToTests | pkg/service/teststats/teststats.go:84-96 | in place, each started test gets its end time and its interval's samples after the statistics it had; a test that never started is left alone; the code for suites at lines 98-110 is the same |
| TestStats.UpdatedGotSamples | pkg/service/teststats/teststats.go:84-96 | what a test becomes, in its fields: its end is its start and a million nanoseconds for each unit of duration, and behind its earlier statistics come cpu, memory and time of exactly the samples in between, in order |
| TestStats.WindowsJoin | pkg/service/teststats/teststats.go:72-82 | adjoining intervals split the samples of the whole |
| TestStats.TilesReceiveEachSampleOnce | pkg/service/teststats/teststats.go:84-110 | tests that tile an interval receive its samples in order, each once in total |
| TestStats.HandedToEveryRunningTest | pkg/service/teststats/teststats.go:84-110 | for any tests a sample is handed out once for each test that was running at its time |
| TestExecution.EachCaptureDeliversOnce | pkg/service/teststats/teststats.go:41-66 | at any point of any schedule each finished capture has delivered one value, that of what it took; each posted result is pending or was taken once |
| TestExecution.DeliveredBySteps | pkg/service/teststats/teststats.go:41-66 | read off the steps: a run delivers nothing exactly if its capture found nothing, and else a posted result in which, if statistics are collected, every test and suite of every batch has got the samples its own capture gathered |
| TestExecution.LoopEnds | pkg/testexecutionservice/testexecution.go:87-130 | read off the steps: the loop returns an error exactly if a command or its capture could not be started, or the run just over ended with that error and delivered nothing; a delivery that holds results never ends it, and it returns results exactly if it finished |
| TestExecution.NormalReturn | pkg/testexecutionservice/testexecution.go:87-130 | on a normal return there was one delivery a run, and the aggregate can be cut, in run order, into what each of them delivered |
| TestExecution.NeverStuck | pkg/testexecutionservice/testexecution.go:87-130 | the loop and its capture never wait for each other in vain |
| TestExecution.EnvGrows | pkg/testexecutionservice/testexecution.go:95-99 | the environment holds one more coverage entry for each attempt to start a run, unless coverage is off or the framework is jasmine or mocha |
| TestExecution.TimelyRunsGetTheirOwn | pkg/testexecutionservice/testexecution.go:113-128 | if results are posted once a run and reach the channel before the samples are gathered, every run gets its own and none is left |
| TestExecution.NeverFromLater | pkg/testexecutionservice/testexecution.go:113-128 | whatever the schedule, a run gets a result of its own or of an earlier run |
| TestExecution.StaleIffWaiting | pkg/service/teststats/teststats.go:48-65 | a capture that selects can take a stale result exactly if one of an earlier run waits in the channel |
| TestExecution.PendingIffLeftOver | pkg/api/results/results.go:23-25 | one waits there or is on its way exactly if some result of an earlier run was never taken |
| TestExecution.LateResult | pkg/service/teststats/teststats.go:48-65 | a run in which a result was accepted and yet the capture finds none |
| TestExecution.StaleResult | pkg/service/teststats/teststats.go:48-65 | a run in which a result of the first run is delivered as the second's |
| Secret.MatchShape | pkg/global/nucleusconstants.go:26 | what the expression matches: opening, spaces, `secrets.`, a name without newline, spaces, closing |
| Secret.MatchIffShape | pkg/global/nucleusconstants.go:26 | a match in letters: at the start of a text the expression matches exactly `${{`, white space, `secrets.`, a name without newline, white space and `}}`, with the shortest name that can be read so |
| Secret.PlaceholderIsMatched | pkg/global/nucleusconstants.go:26 | any such placeholder whose name holds no `$`, `}` or newline and does not end in white space is matched as a whole, whatever follows |
| Secret.ExpressionIsLocal | pkg/global/nucleusconstants.go:26 | whether a text is matched depends on the text alone, not on what follows |
| Secret.SubstituteSecret | pkg/secret/secret.go:81-100 | the loop is the fold of replace-all over the matches of the original command, unknown names skipped; a single placeholder between texts without `$` becomes its value, whatever that is; in a command of such texts and any number of placeholders, with values without `$`, every placeholder becomes its value |
| Secret.PlainCommandIsFilled | pkg/secret/secret.go:81-100 | the last of these as a lemma, for every list of texts and placeholders |
| Secret.SubstitutesOnce | pkg/secret/secret.go:81-100 | for every command made of tokens whose texts hold no opening, and values in which no known placeholder can begin, the loop equals one left-to-right substitution, with unknown names kept verbatim |
| Secret.SubstitutesOnceIff | pkg/secret/secret.go:81-100 | the loop is one substitution for all such commands exactly if no placeholder of a known secret, unless its value is its own text, can begin in the value of a known secret |
| Secret.DollarFreeIsHarmless | pkg/secret/secret.go:81-100 | so it is if no value holds a `$` |
| Secret.PlainTokens | pkg/secret/secret.go:81-100 | text without `$`, and placeholders spelled out with names without `$`, `}` and newline that do not end in a space, are such tokens |
| Secret.ValueCanBeSubstitutedAgain | pkg/secret/secret.go:87-97 | a value that is itself a placeholder is substituted again, so the loop is not one substitution |
| Substitution.SequentialIsSimultaneous | pkg/secret/secret.go:87-97 | the same equality for any expression that is local to its match |
| Substitution.AlwaysOnceIffHarmless | pkg/secret/secret.go:87-97 | the same exact condition for any such expression |
| Substitution.HarmShows | pkg/secret/secret.go:87-97 | for any known placeholder that can begin in a known value, a command that tells the loop from one substitution |
| Substitution.UnknownIsHarmless | pkg/secret/secret.go:91-95 | the text of a placeholder with an unknown name does no harm as a value |
| Substitution.ReplacedTwice | pkg/secret/secret.go:87-97 | for any two placeholders there are values for which sequential and simultaneous substitution differ |
| Mask.TrimmedIsInside | pkg/logstream/mask.go:26 | trimming cuts exactly the spaces at both ends |
| Mask.PartsOfLinesAre | pkg/logstream/mask.go:25-31 | the parts of a secret are its trimmed lines of two characters or more |
| Mask.PartsAreTrimmedLines | pkg/logstream/mask.go:25-32 | by positions in the secret: its parts are, in order, its lines without the white space at either end, those of two characters or more, and no line is left out |
| Text.SplitAt | pkg/logstream/mask.go:25 | splitting at a separator finds exactly the stretches between separators, in order |
| Mask.AddParts | pkg/logstream/mask.go:25-32 | the inner loop appends the parts of one secret in order, which `Mask.PartsAreTrimmedLines` finds by position |
| Mask.NewMasker | pkg/logstream/mask.go:19-41 | the replacer holds, secret by secret in some order of the map and line by line, exactly the trimmed lines of two characters or more of all secrets; without any the writer itself is used |
| Mask.NothingToMask | pkg/logstream/mask.go:34-36 | using the writer itself is masking with no parts |
| Mask.MaskedIsCutUp | pkg/logstream/mask.go:9-48 | every text can be cut from left to right, hiding the first listed part that fits and keeping a byte where none fits, and masking gives it with sixteen stars for each hidden part |
| Mask.OnlyMasking | pkg/logstream/mask.go:38-48 | and whatever way of cutting obeys that rule gives the same output |
| Mask.Masker.Write | pkg/logstream/mask.go:45-48 | the masked text is written in one call and the count is that of the input |
| Mask.NothingLeaks | pkg/logstream/mask.go:43-48 | if no part begins or ends with `*` or holds the whole mask, no output contains a part, for every text and every order of the parts |
| Mask.UnchangedIffClean | pkg/logstream/mask.go:43-48 | a text is left alone exactly when it contains no part |
| Mask.MaskingIsIdempotent | pkg/logstream/mask.go:43-48 | masking twice is masking once |
| Mask.StarCompletesPart | pkg/logstream/mask.go:9-48 | for every part that begins or ends with `*` or holds the mask there is a text in which the mask completes it |
| Mask.LeaksIffStarred | pkg/logstream/mask.go:9-48 | so a single part can leak exactly if it is such a part |
| Mask.PartsAreOneLine | pkg/logstream/mask.go:25-31 | no part of any secret holds a line break |
| Mask.LineEndsCut | pkg/logstream/mask.go:45-48 | a write that ends a line is masked as if the rest followed in the same write |
| Mask.LineWritesAreSafe | pkg/logstream/mask.go:45-48 | if every write but the last ends a line, writing in pieces is writing at once, and no part is left in all outputs together |
| Mask.CutLeaksIffStraddled | pkg/logstream/mask.go:45-48 | for any two writes: their outputs together hold a part exactly if one begins in what is left after the last masked part of the first and ends in what is left before the first masked part of the second |
| Mask.SplitSecretLeaks | pkg/logstream/mask.go:45-48 | any part comes through if it is cut where neither piece holds a part |
| Mask.OrderFreeIffAgree | pkg/logstream/mask.go:21-39 | the output is the same for every order of the map exactly when any two secrets choose the same first part wherever both choose one |
| Mask.PrefixFreeAgrees | pkg/logstream/mask.go:21-39 | so it is if no part is a proper prefix of another |
| LogWriter.Writer.Write | pkg/lumber/logio.go:25-31 | the log and buffer become what feeding the bytes one by one gives; the count is the input's length |
| LogWriter.Writer.WriteLine | pkg/lumber/logio.go:35-60 | a non-empty piece of the input is taken up and the rest returned, on the fast path and on the slow one |
| LogWriter.Writer.Sync | pkg/lumber/logio.go:69-75 | a partial line becomes an entry, an empty one does not |
| LogWriter.Writer.Close | pkg/lumber/logio.go:63-65 | the same, leaving the buffer empty |
| LogWriter.Writer.Flush | pkg/lumber/logio.go:79-84 | the buffer is logged unless it is empty and that is not allowed, and then is empty |
| LogWriter.FeedConcat | pkg/lumber/logio.go:25-60 | two writes are one write of both texts |
| LogWriter.FeedSplits | pkg/lumber/logio.go:35-60 | no entry and no buffer holds a newline |
| LogWriter.FeedRebuilds | pkg/lumber/logio.go:25-60 | the entries, each with a newline, and the buffer rebuild the stream |
| LogWriter.CutIsUnique | pkg/lumber/logio.go:25-60 | and nothing else without newlines rebuilds it |
| LogWriter.RunIsOneWrite | pkg/lumber/logio.go:25-60 | any number of writes is one write |
| LogWriter.RunKeepsBytes | pkg/lumber/logio.go:25-84 | with syncs anywhere all bytes but newlines are logged or buffered, in order |
| LogWriter.ClosedRunIsLogged | pkg/lumber/logio.go:62-84 | after closing they are all logged |
| Reporter.NodeMissing | scripts/custom-reporter.js:19-41 | the loop prints the ranges of the maximal runs of unhit lines |
| Reporter.RunsAreAll | scripts/custom-reporter.js:19-32 | the runs found are exactly the maximal ones |
| Reporter.RunsOfAreRuns | scripts/custom-reporter.js:19-32 | the fold finds them, in order and apart |
| Reporter.PrintRoundTrip | scripts/custom-reporter.js:33-41 | the printed ranges can be read back |
| Reporter.TextGivesRuns | scripts/custom-reporter.js:19-41 | read back, the text gives as many ranges as there are maximal unhit runs, sorted and disjoint |
| Reporter.TextGivesUnhitLines | scripts/custom-reporter.js:19-41 | a listed line is unhit exactly when it lies in one of them |
| Diff.ChangeMap.UpdateWithOr | pkg/diffmanager/setup.go:58-63 | the key's value is or-ed into what it had, zero if nothing |
| Diff.OrderIrrelevant | pkg/diffmanager/setup.go:58-63 | a list of updates gives one map in every order |
| Diff.ParseDiff | pkg/diffmanager/setup.go:145-159 | the map has an entry for exactly the paths that follow `--- a/` or `+++ b/` on a line of the diff, 2 for the first, 1 for the second and 3 for both; it is the fold of what the lines say |
| Diff.ParseGitLabDiff | pkg/diffmanager/setup.go:161-186 | a decoding error is returned; else the map of the list for the event has an entry for exactly the old paths of deleted files, 2, and the new paths of the others, 1 if new and 3 if not, or-ed where a path comes more than once |
| Diff.TextIsHeadersAndLookAlikes | pkg/diffmanager/setup.go:145-159 | for every list of changes the text's map is the or of what the file headers say and of what other lines say by looking like one |
| Diff.ParsersAgree | pkg/diffmanager/setup.go:145-186 | without renames the text is read as the list of those changes that have file headers, or-ed with what look-alikes say |
| Diff.AgreeIffAbsorbed | pkg/diffmanager/setup.go:145-186 | if all changes have headers and none is renamed, the two parsers agree exactly if every look-alike is already in the list's map |
| Diff.AgreeIffTextual | pkg/diffmanager/setup.go:145-186 | without look-alikes and with one change a path they agree exactly if every change has file headers, which binary and empty ones lack, and none is renamed |
| Diff.HeadersSayTheRecord | pkg/core/models.go:267-274 | the two headers of an unrenamed change or to the record's value: added 1, removed 2, modified 1 and 2, that is 3 |
| Diff.ChangesInAnyOrder | pkg/diffmanager/setup.go:145-186 | neither the map of the text nor that of the list depends on the order of the changes |
| Diff.RenameDiffers | pkg/diffmanager/setup.go:145-186 | the diff of any renamed file is read as old removed and new added, and its record as new modified |
| Diff.LookAlikeCounts | pkg/diffmanager/setup.go:150-156 | a removed line of text that looks like a header puts a path into the diff's map that no record names |
| ConfigParse.GetTags | config/parse.go:98-112 | the tags that are set, in the order of the prefixes; the field's name only if it has no tag at all |
| ConfigParse.TagsInOrder | config/parse.go:98-112 | these are the tags viper, yaml, json, env and mapstructure in this order, empty ones left out, and so possibly none |
| ConfigParse.Config.SetLeaf | config/parse.go:58-91 | one lookup sets a leaf unless it is zero and the leaf is not; an unsupported kind is an error |
| ConfigParse.Config.RecursivelySet | config/parse.go:36-96 | the nested loops do the visits of the walk in order, up to the first error |
| ConfigParse.WalkVisits | config/parse.go:51-93 | a leaf is visited once for every tag path to it, in lexicographic order of tag paths |
| ConfigParse.LeafValues | config/parse.go:51-93 | a number or string ends as the last non-zero lookup in that order or as it was, a flag as the or of what it was and all lookups, a map and what no tag path leads to as it was |
| ConfigParse.LastIsLast | config/parse.go:68-80 | that value is of the last key that is set, or the initial one if none is |
| ConfigParse.FailsIffUnsupported | config/parse.go:89-91 | it fails exactly when a tag path leads to a field of an unsupported kind |
| ConfigParse.PopulatingIsIdempotent | config/parse.go:36-96 | populating twice is populating once |
| ConfigParse.FitsIffInRange | config/parse.go:69-74 | a number is stored as it is exactly when it is in the range of its field, and else its low bits are |
| ConfigParse.LastLookupItself | config/parse.go:66-74 | so a number ends as the last non-zero lookup itself exactly when that is in the range of the field |
| ConfigParse.WideLookupStoresZero | config/parse.go:69-74 | a last lookup that is a multiple of 2 to the 32nd sets a narrow field to zero, whatever was looked up before |

## Left out

- CarryForward.CoverageService.MergeAndUpload: the downloaded base is taken to be in place already; manifests are decoded by a function that is a parameter; uploads, compression and the merge command, with or without its threshold argument, succeed or fail arbitrarily and write only the merged report; the shared `err` of the three upload goroutines is taken as one outcome.
- CarryForward.CoverageService.ProcessCommit: the history is stated for directories that list without error, because the walk ignores such an error, and for trees in which no commit's directory holds one called like its own or a later commit.
- FileSystem.Disk.CopyDir: symbolic links on the way to the source or destination are not followed, file modes are not kept, `entry.Info` does not fail, and copying into itself is excluded because it does not end.
- Coverage.CopyFromParentCommitDir: a parent path that runs through a file, for which the walk's function would get no entry, is excluded: the commit loop only names siblings of an existing directory.
- FileSystem.Disk.ReadDir: a listing may stop early with an error; which entries it then has is arbitrary.
- Secret.SubstituteSecret: the branch for a match without a group cannot be reached with this expression and is not modelled; `Expired` is conditions only.
- Mask.LeaksIffStarred: the exact condition is for a single part; for several the condition is sufficient, as one part can hide what another would leak.
- Mask.Masker.Write: text is a sequence of characters, not UTF-8 bytes, and only ASCII spaces are trimmed; whether the wrapped writer fails is arbitrary.
- LogWriter.Writer.Write: the logger never fails, as in the source.
- Reporter.NodeMissing: whether lines or branches are listed is decided before the loop and is part of the input; the report file around it is output only.
- Diff.ParseDiff: the scanner's limit on the length of a line and its dropping of a carriage return are not modelled, nor are quoted paths and trailing tabs in headers.
- Diff.ParseGitLabDiff: decoding JSON is a parameter, and so is fetching the diff.
- BlockTests.BlockTestService.Once: encoding the map and writing the file are outcomes given from outside; only the first caller's configured list is ever used, as in the source.
- PreRun.StageResult: when the top-level commands fail the stage returns their error before any goroutine starts; that path is one branch. The wait group is the condition that all goroutines have finished. The second stage of `runDiscoveryHelper` has the same shape without buffers and status and is not repeated.
- PreRun.BlocklistFailureReportedOnce: the error of the fetch is any text; how it comes about is in BlockTests.Failure.
- TestStats.AppendStatsToTests: time is an unbounded number of nanoseconds, so the overflow of a very long duration is not modelled; CPU and memory figures are copied, not computed with.
- TestExecution.NormalReturn: starting the process, its output and its samples are outcomes of steps; a process left running after a failed capture is not followed.
- Docker.DockerRunner.Initiate: creating a container is one outcome; images, volumes, secrets and log streaming are not modelled.
- Synapse.TaskReports: encoding a message to JSON never fails; the host volume path is not modelled; docker never gives out an id twice.
- Synapse.RunningContainersExact: each update of the list and of the abort map is one step, so data races of Go's memory are not modelled.
- Outbox.NothingLostOrDoubled: connecting, logging in and out, pings, deadlines and back-off are left to the steps Connect, Signal and Stop, which may come at any time; a message lost on the wire after a write that seemed to succeed counts as delivered.
- ConfigParse.Config.RecursivelySet: looked-up values come from functions; the two errors for values that are not pointers to structs cannot occur with the two callers and are not modelled.
- The concurrent parts (`Outbox`, `Synapse`, `PreRun`, `TestExecution`) are state machines over values, not classes: a step is one atomic action of one goroutine, and nothing is said about memory that goroutines share without synchronisation.
- HTTP, Azure, Docker, git, archives, YAML and JSON decoding, flags and default values, payload and tier validation, URL building, shell scripts and the merging of Istanbul reports are not modelled.
