# Verified models of CodedBulk's algorithms and protocols

The repository around the CodedBulk coding engine holds Python programs and ns-3 code with real
algorithms in them. This project models the hardest of them in Dafny and proves what they promise.

| area | files |
|---|---|
| topological sorting and the enumeration of all simple cycles | `Graph`, `TopSort`, `Rotation`, `FindCycles` |
| the control protocol between the experiment controller and its servers | `WanWire`, `WanSession`, `WanRun`, `WanTail`, `WanScript`, `WanConnect`, `WanTestProxy`, `WanLockStep`, `WanEnding`, `WanLedger`, `WanBarrier`, `WanWhole` |
| the worker threads of the ns-3 test runner | `WorkerPool` |
| configuration paths through the graph of registered types | `TypePaths` |
| the shell pipeline parser and runner | `ShellSyntax`, `ShellRun` |
| integer, binary and combinatorial helpers | `Fractions`, `Binary`, `Permutations` |
| unified diffs in the style checker | `PatchText`, `PatchReading`, `PatchSet` |
| interface allocation, and the sender of a patterned stream | `Allocation`, `LargeTransfer` |
| shared facts | `Collections`, `Sums` |

`dafny verify dfyconfig.toml` checks everything.

## How the models are made

**Sorting and cycles.** A graph is the program's own list of (parent, child) pairs, or its dictionary of
child lists, with duplicates and self-loops. Dictionaries are maps whose keys are listed in an arbitrary
order without repetition (Python 2). Acyclicity, reachability from a cycle and the longest incoming path
are defined on paths, apart from the algorithms. A generator is taken as the list of all it yields.

**The control protocol.** The state holds the controller's remaining actions, and for every server the two
byte streams, the server's position in its code and its variables. Each `send` appends its bytes to a
stream; a `recv(n)` waits until its stream is not empty and takes at most n bytes. A step is one action of
the controller or of any one server, and a run is any interleaving. `ControllerStep` and `ServerStep` are the
two programs statement by statement; the payload bounds are those under which the programs work at all: names
of 1 to 40 bytes, addresses of up to 20, reasons of up to 200, bandwidths of up to 6, ids and scenarios below
100. The grammar of what the controller sends to one server (`IdDialogue` and the predicates after it) is
separate from the controller's script, which `SessionScript` gives for any plan of experiments and latency
measurements. The main results hold for every plan and every run.

The lock-step is: whenever the controller's next action on a connection starts a command, both streams are
empty and the server is at its command read. It fails when `test_proxy` is a server's index and any task runs
a scenario, because the stop of the proxies is sent to that server as well but its reply is not awaited.
`LockStepIff` gives the exact condition on the plan, over all runs; `FinishedRunInStepIff` gives it for each
single run that goes on until nothing moves. `TestProxyBreaksLockStep` names the point at which it is lost, for
the first scenario of the session wherever it stands among the tasks, and `BreakingRun` constructs a run that
comes there. The proofs exchange the end of a script: the same run with one more wait would follow the protocol.
A plan without this fault is called conforming (`Conforms`).

**The worker pool.** The state holds both queues, each worker's position, the main thread's position, the
interrupt flag, what has been collected and which processes were started. Each job carries the code that its
process will exit with if it is run, which the program learns only from the process. The flag may be set at any moment. A pool without workers, which
the program builds when the operating system reports no positive number of processors, never finishes if
there is a job: `RunsToTheEnd` and `NoWorkersNoEnd` together give the exact condition.

**Type paths.** `DoGather` keeps the program's two stacks and its output as fields, in three loops over
attributes, descendants and aggregation pairs. Which edges leave a type is defined by four cases, apart from the
search (`Leads`). A walk is the list of the edges taken, each with the attribute or pair that it comes from, so that
parallel edges count separately.

**Shell pipelines.** The parser is the program's machine with six states; its meaning is a grammar without
states, in which a redirection sign and its file are read together. Running is compared with the evaluation of
a tree nested to the right. Exit codes are an arbitrary function of the number of the process. Two things
differ from what one might expect and are kept: `a >` at the end of the input is accepted, and a pipeline that
ends in `cd` fails with an index error when it gets there (`RunReturnsIff`).

**Diffs.** Text is a list of lines, each with its line break. A header's counts are written but not used in
reading. Reading undoes writing exactly when no removed line starts with `-- ` and no added line with `++ `
(`ParseUndoesWrite`). The patch, chunk and line objects are real objects, and the loop keeps them without sharing.

## Model

| member | source | states |
|---|---|---|
| TopSort.Sort | simulator/bindings/python/topsort.py:77-112 | the list is returned if and only if the pairs are acyclic; then it has every node once and each parent before its child; otherwise the leftover keys are exactly the nodes that a cycle leads to, each with a count of at least 1; the decrement never meets a deleted key |
| TopSort.BuildTables | simulator/bindings/python/topsort.py:157-170 | the two tables count the parents and list the children of every node, with duplicates; only parents have an entry in the second |
| TopSort.SortLevels | simulator/bindings/python/topsort.py:157-172 | level k holds exactly the nodes whose longest incoming path has k edges, no level is empty, and the levels end in an error if and only if there is a cycle |
| TopSort.LevelsCore | simulator/bindings/python/topsort.py:174-232 | the same for tables that the caller provides, with items that have no edge and with empty child lists; after an error both tables describe what is left |
| TopSort.PairsOf | simulator/bindings/python/topsort.py:199-201 | whatever child lists the caller provides, there are pairs that they describe |
| TopSort.SortAndLevelsAgree | simulator/bindings/python/topsort.py:203-232 | the levels laid end to end are a permutation of the plain answer |
| Graph.Residual | simulator/bindings/python/topsort.py:108-111 | when the counts of all remaining nodes are positive, what remains is exactly what a cycle leads to |
| Rotation.IsRotated | simulator/bindings/python/rad_util.py:735-775 | true exactly when some rotation of the first list is the second; two empty lists raise an index error |
| Rotation.Transitive | simulator/bindings/python/rad_util.py:735-775 | being a rotation is transitive, so comparing with one member of a class is enough |
| FindCycles.FindAll | simulator/bindings/python/topsort.py:343-385 | every simple cycle of the graph is yielded exactly once up to rotation, everything yielded is one, and the loops terminate |
| FindCycles.ExploreRoot | simulator/bindings/python/topsort.py:351-385 | one starting node: every cycle that can be reached from it is among the cycles afterwards |
| FindCycles.ExploredFindsCycle | simulator/bindings/python/topsort.py:351-385 | once the search from one node is finished, every cycle that can be reached from it is recorded |
| FindCycles.FinishedReach | simulator/bindings/python/topsort.py:346-355 | skipping a node that a finished search visited loses no cycle: all that can be reached from it are recorded as well |
| WanSession.ServerKeepsHealthy | implementation/WAN_exp_controller/core/remote_server.py:92-311 | each statement of the server keeps its position, the undelivered messages and the controller's remaining actions in agreement |
| WanSession.ControllerKeepsHealthy | implementation/WAN_exp_controller/core/local_controller.py:36-49 | each statement of the controller does, including the error dialogue |
| WanSession.QuietAtCommand | implementation/WAN_exp_controller/core/local_controller.py:36-49 | when the next action starts a command, the server is at its command read and both streams are empty |
| WanRun.Framing | implementation/WAN_exp_controller/core/remote_server.py:125-311 | in every state of every run each recv of either end has returned exactly one sent message, in order, and the streams hold exactly the messages not yet received; no server crashes or meets an unknown command |
| WanRun.QuietBetweenCommands | implementation/WAN_exp_controller/core/local_controller.py:227-306 | whenever a wait for all servers has returned and a command comes next, both streams to the server are empty and it is back at its command read |
| WanRun.NoDeadlock | implementation/WAN_exp_controller/core/local_controller.py:36-49 | as long as the controller has something to do, some end can move |
| WanRun.StepDecreases | implementation/WAN_exp_controller/core/remote_server.py:142-311 | every step shortens the controller's script or the work left at the servers, so no run is endless, whatever errors are reported |
| WanRun.StuckIsDone | implementation/WAN_exp_controller/core/remote_server.py:142-311 | where nothing moves the controller is done, each server has stopped or waits for a command, and the streams are empty |
| WanRun.RunsToTheEnd | implementation/WAN_exp_controller/core/local_controller.py:227-308 | every reachable state can be run on until then |
| WanScript.SessionFollowsProtocol | implementation/WAN_exp_controller/core/local_controller.py:227-306 | the controller's actions on every connection fit the grammar of the protocol if and only if test_proxy is not a server's index or no task runs a scenario |
| WanScript.ExperimentIsBroadcast | implementation/WAN_exp_controller/core/local_controller.py:231-306 | an experiment is a list of requests, each sent to all servers and awaited from all |
| WanBarrier.ExperimentShape | implementation/WAN_exp_controller/core/local_controller.py:231-304 | the list: the experiment under its name, then for each scenario nine requests in their order, the third with a payload that the server reads as the number of the scenario |
| WanScript.ConnectDialogue | implementation/WAN_exp_controller/core/local_controller.py:444-468 | connecting and setting the bandwidth follow the protocol, for any id below 100 |
| WanScript.TwoDigitsRead | implementation/WAN_exp_controller/core/local_controller.py:450 | the two digits sent for a number below 100 are read back by the server's int() as that number |
| WanConnect.ServersAreIntroduced | implementation/WAN_exp_controller/core/remote_server.py:125-147 | in every state of every conforming session, what server j has received first is its own number j, its addresses in their order, and the bandwidth |
| WanConnect.LatencyAsks | implementation/WAN_exp_controller/core/local_controller.py:52-81 | a latency measurement asks each server for its own addresses in their order and takes one result for each |
| WanScript.LatencyTask | implementation/WAN_exp_controller/core/local_controller.py:52-81 | so does the latency measurement, for any number of addresses |
| WanLockStep.LockStepIff | implementation/WAN_exp_controller/core/local_controller.py:227-306 | all runs of a session keep the lock-step with all servers if and only if test_proxy is not a server's index or no task runs a scenario |
| WanLockStep.FinishedRunInStepIff | implementation/WAN_exp_controller/core/local_controller.py:34-49 | the same condition decides it for each single run that goes on until nothing moves |
| WanTestProxy.TestProxyBreaksLockStep | implementation/WAN_exp_controller/core/local_controller.py:294-304 | with test_proxy a server's index, after the wait for the stopped proxies of the session's first scenario, in whichever task it is, the next action on that connection is a command and the connection is not quiet, in every run |
| WanTestProxy.FinishedRunBreaks | implementation/WAN_exp_controller/core/local_controller.py:294-304 | every run of such a session comes to that point before it is stuck |
| WanTestProxy.BreakingRun | implementation/WAN_exp_controller/core/local_controller.py:294-304 | every such session has a run that comes there |
| WanLockStep.QuietBeforeRound | implementation/WAN_exp_controller/core/local_controller.py:36-49 | in a conforming session, whenever the controller is about to send a command, a latency request or the quit command to all servers, every connection is quiet |
| WanLockStep.SessionFramed | implementation/WAN_exp_controller/core/remote_server.py:92-311 | in every state of every run of a conforming session all messages are received whole, once and in order, and no server crashes |
| WanEnding.SessionCompletes | implementation/WAN_exp_controller/core/local_controller.py:472-487 | a conforming session moves as long as its script is not done, and each of its runs can be continued to the end |
| WanEnding.FinishedSession | implementation/WAN_exp_controller/core/remote_server.py:142-146 | where nothing moves any more a conforming session is over: every server has stopped, with both streams empty |
| WanLedger.CommandCounts | implementation/WAN_exp_controller/core/remote_server.py:142-311 | a server has completed all commands sent to it but at most one, and all of them when a command comes next |
| WanLedger.ServerKeepsTables | implementation/WAN_exp_controller/core/remote_server.py:222-305 | what the completed requests say about the processes (all started for the scenario, or all gone) is true of the server's dictionaries after every statement |
| WanBarrier.Barrier | implementation/WAN_exp_controller/core/local_controller.py:244-304 | in every reachable state there is a k such that all servers have completed at least k requests and none has received more than k + 1 |
| WanBarrier.StatusAt | implementation/WAN_exp_controller/core/local_controller.py:244-304 | after o requests of a scenario exactly the programs between their start and their stop run, and the scenario read by the server is the number in the plan |
| WanBarrier.SendersNeedTheRest | implementation/WAN_exp_controller/core/local_controller.py:279-290 | while any server has received the senders' start and not completed their stop, every server runs all receivers and proxies, started with this scenario's number |
| WanBarrier.ProxiesNeedReceivers | implementation/WAN_exp_controller/core/local_controller.py:263-304 | while a proxy is up on any server, every server runs all its receivers |
| WanBarrier.ProgramsStay | implementation/WAN_exp_controller/core/remote_server.py:174-216 | from the making of an experiment to its end a server knows the same programs, so that all receivers means all that were found |
| WanWhole.IdleBetweenTasks | implementation/WAN_exp_controller/core/remote_server.py:222-305 | in every run of every session no process runs on any server whenever the controller is between two tasks |
| WanWhole.ExperimentIsUnderway | implementation/WAN_exp_controller/core/local_controller.py:398-412 | from the state in which the controller begins an experiment to the one in which it begins the next task, the barrier's assumptions hold |
| WanWhole.SendersNeedTheRestInSession | implementation/WAN_exp_controller/core/local_controller.py:279-290 | the phase barrier of every experiment of every session, with the scenario's number |
| WanWhole.ProxiesNeedReceiversInSession | implementation/WAN_exp_controller/core/local_controller.py:263-304 | the same for receivers under running proxies |
| WanWhole.ProgramsStayInSession | implementation/WAN_exp_controller/core/remote_server.py:174-216 | the same for the programs that a server knows |
| WorkerPool.Conservation | simulator/test.py:965-1033 | in every reachable state each job is exactly once among the jobs not dispatched, queued, held by a worker, in the output queue or collected |
| WorkerPool.MarkersComeLast | simulator/test.py:1667-1670 | no worker takes a stop marker while a real job is queued or not taken; as many workers have ended as markers were taken |
| WorkerPool.NoStuckState | simulator/test.py:1689-1692 | some thread can go on until the main thread has finished, unless there are jobs and no worker |
| WorkerPool.StepDecreases | simulator/test.py:965-1033 | every step, and the flag being set, lowers a bounded measure |
| WorkerPool.RunsToTheEnd | simulator/test.py:1828-1829 | every reachable state can be run on until collection and all joins are done |
| WorkerPool.NoWorkersNoEnd | simulator/test.py:1399-1402 | with jobs and no worker the main thread never finishes |
| WorkerPool.EverythingCollected | simulator/test.py:1689-1829 | at the end both queues are empty, all workers have ended, and the collected jobs are the dispatched ones, each once, interrupted only if the flag was set, otherwise skipped or with the exit code of their process |
| WorkerPool.LaunchedOnce | simulator/test.py:994-1021 | in every reachable state the process of a job was started once for each copy that runs or has an output neither interrupted nor skipped, and never more often than the job was dispatched |
| WorkerPool.OutputsAreTruthful | simulator/test.py:979-1033 | every output is interrupted with the flag set, or skipped, or carries the exit code of a process that was started for it |
| WorkerPool.InterruptStopsWork | simulator/test.py:979-982 | once the flag is set no process is started, and what is handed over later is interrupted unless its process was running |
| WorkerPool.Summary.Take | simulator/test.py:1689-1718 | one turn of the collector keeps all counters and name lists equal to the counts over the jobs collected |
| WorkerPool.SuccessMeansAllGood | simulator/test.py:1913-1916 | the exit status is 0 if and only if no collected job was interrupted and every dispatched job is skipped or its process exits with 0; without interrupt the five counters add up to the number of jobs |
| WorkerPool.SummaryIsTrue | simulator/test.py:1699-1718 | without interrupt the counters and the lists of names are those of the dispatched jobs by the exit codes of their processes: 1 failed, 2 valgrind, all but 0 to 2 crashed |
| TypePaths.IsChildOf | simulator/src/core/model/type-id.cc:950-959 | true exactly for the proper descendants |
| TypePaths.StaticInformation.GetCurrentPath | simulator/utils/print-introspected-doxygen.cc:1091-1102 | each label with a slash before it, as TextOfMore says |
| TypePaths.StaticInformation.HasAlreadyBeenProcessed | simulator/utils/print-introspected-doxygen.cc:1113-1125 | membership in the stack of types |
| TypePaths.StaticInformation.RecordOutput | simulator/utils/print-introspected-doxygen.cc:1105-1110 | appends the type with the current path |
| TypePaths.StaticInformation.FollowAttributes | simulator/utils/print-introspected-doxygen.cc:1195-1232 | follows the edges of the attributes in order, pointers but those to Object, and containers; AttributesExact says which edges these are |
| TypePaths.AttributesExact | simulator/utils/print-introspected-doxygen.cc:1195-1232 | attribute i gives an edge exactly if it is a pointer to a type other than Object, under its name, or a container, under its name with "/[i]"; the edges keep the order of the attributes |
| TypePaths.EdgesExact | simulator/utils/print-introspected-doxygen.cc:1195-1268 | the edges followed from a type are exactly those of the four cases (pointer, container, proper descendant, other side of a pair), each once and in order |
| TypePaths.TextOfMore | simulator/utils/print-introspected-doxygen.cc:1091-1102 | one more label in front adds a slash and the label |
| TypePaths.StaticInformation.FollowChildren | simulator/utils/print-introspected-doxygen.cc:1233-1246 | all descendants, in the order of registration |
| TypePaths.StaticInformation.FollowAggregates | simulator/utils/print-introspected-doxygen.cc:1247-1268 | the other side of each aggregation pair |
| TypePaths.StaticInformation.DoGather | simulator/utils/print-introspected-doxygen.cc:1185-1269 | terminates on every graph, restores both stacks and appends the entries of the search |
| TypePaths.StaticInformation.Gather | simulator/utils/print-introspected-doxygen.cc:1176-1182 | the same; sorting a copy changes nothing |
| TypePaths.StaticInformation.Get | simulator/utils/print-introspected-doxygen.cc:1128-1142 | the paths recorded for one type, as PathsInOrder says |
| TypePaths.PathsInOrder | simulator/utils/print-introspected-doxygen.cc:1128-1142 | they are the texts of all entries of the type, in the order of the entries |
| TypePaths.OneEntryPerSimpleWalk | simulator/utils/print-introspected-doxygen.cc:1185-1269 | what is appended has one entry for each simple walk along the four kinds of edges from the root, none twice and none missing, at its end, under its labels, in depth-first order |
| TypePaths.PathsAreSimpleWalks | simulator/utils/print-introspected-doxygen.cc:1128-1142 | the paths listed for a type are exactly the label texts of the simple walks to it along the four kinds of edges |
| ShellSyntax.PositionsAlternate | simulator/waf-tools/shellcmd.py:136-201 | commands and operators alternate; standard output is a pipe if and only if a pipe operator follows; only And follows a change of directory |
| ShellSyntax.ParseUndoesRender | simulator/waf-tools/shellcmd.py:121-201 | parsing the tokens of any well-formed list returns the list, in whatever order environments are listed |
| ShellSyntax.ParseImage | simulator/waf-tools/shellcmd.py:121-201 | the results of parsing are exactly the well-formed lists |
| ShellSyntax.SecondRedirection | simulator/waf-tools/shellcmd.py:155-197 | a stream cannot be redirected twice, nor a redirected output be piped, whatever words are in between |
| ShellSyntax.RedirectionMoves | simulator/waf-tools/shellcmd.py:151-197 | it does not matter where among the words a redirection stands |
| ShellSyntax.Rejected | simulator/waf-tools/shellcmd.py:136-200 | a change of directory takes no environment and one directory, and every operator needs a command after it |
| ShellSyntax.AssignmentExact | simulator/waf-tools/shellcmd.py:24 | a token is an assignment exactly if it is key, equals sign and value, with or without a final line break |
| ShellSyntax.AssignmentOfPair | simulator/waf-tools/shellcmd.py:24 | the pattern takes key, equals sign and value apart as they were put together |
| ShellRun.Pipeline.CommitCommand | simulator/waf-tools/shellcmd.py:101-104 | moves the current command to the pipeline, and fails without one |
| ShellRun.Pipeline.Parse | simulator/waf-tools/shellcmd.py:121-201 | the token machine accepts exactly the grammar and builds what the tokens mean |
| ShellRun.Pipeline.ExecPipedCommands | simulator/waf-tools/shellcmd.py:203-212 | the result is the exit code of the last process, 0 without processes |
| ShellRun.Pipeline.Run | simulator/waf-tools/shellcmd.py:214-346 | outcome and launched processes are those of the tree nested to the right; no result for an empty pipeline |
| ShellRun.RunInOrder | simulator/waf-tools/shellcmd.py:222-346 | commands are launched in order, each in its directory; a process reads its predecessor's output if that writes to a pipe, otherwise the file of its redirection, otherwise what is inherited; a run goes on after a process exactly as the operator and the exit code say; the result is the exit code of the last process launched |
| ShellRun.StageOfCommand | simulator/waf-tools/shellcmd.py:225-231 | a command that no broken change of directory precedes is a stage, in the directory that the changes before it lead to and with the operator after it |
| ShellRun.StagesCount | simulator/waf-tools/shellcmd.py:225-231 | there are no other stages |
| ShellRun.JoinPathAssociates | simulator/waf-tools/shellcmd.py:228 | changes of directory accumulate |
| ShellRun.RunReturnsIff | simulator/waf-tools/shellcmd.py:225-231 | a run returns for all exit codes if and only if no `cd` lacks its directory or ends the pipeline |
| Fractions.Gcf | simulator/bindings/python/rad_util.py:252-257 | terminates for all integers and gives a common factor that is a combination of both, not negative |
| Fractions.GcfIsGreatest | simulator/bindings/python/rad_util.py:252-257 | every common factor divides it and, unless both numbers are 0, none is greater |
| Fractions.Lcm | simulator/bindings/python/rad_util.py:285-290 | a common multiple that divides all others; times the gcf it is the product |
| Fractions.LcmIsLeast | simulator/bindings/python/rad_util.py:285-290 | no common multiple but 0 is smaller in size |
| Fractions.ReduceFraction | simulator/bindings/python/rad_util.py:345-348 | fails exactly for (0, 0); otherwise a positive common factor is taken out and none is left |
| Fractions.ReducedIsUnique | simulator/bindings/python/rad_util.py:345-348 | the result has the same value, coprime parts, and is the only one |
| Binary.Int2BinIsMsb | simulator/bindings/python/rad_util.py:74-105 | the n bits of every number that has no more, and an error for the others |
| Binary.Int2BinWidthZero | simulator/bindings/python/rad_util.py:93-104 | with width 0 nothing is cut off |
| Binary.BinaryRoundTrip | simulator/bindings/python/rad_util.py:74-130 | bin2int undoes int2bin, and int2bin undoes bin2int at the string's own width |
| Binary.Ripple | simulator/bindings/python/rad_util.py:648-659 | the carry loop adds one, and its last toggle is the overflow |
| Binary.BinaryRange | simulator/bindings/python/rad_util.py:632-660 | all numbers of the width in order; no string at all for width 0 |
| Binary.RangeCounts | simulator/bindings/python/rad_util.py:632-660 | entry k is int2bin of k |
| Binary.GrayBijection | simulator/bindings/python/rad_util.py:612-615 | gray_encode maps the numbers below 2^n one to one onto themselves |
| Binary.GrayStepsOneBit | simulator/bindings/python/rad_util.py:612-615 | cyclically neighbouring codes differ in exactly one bit |
| Permutations.Permute | simulator/bindings/python/rad_util.py:311-326 | the loops build the results list by list |
| Permutations.ResultsAreRearrangements | simulator/bindings/python/rad_util.py:293-326 | for every input, repeated items included, the results are exactly the lists with the same items |
| Permutations.EachPermutationOnce | simulator/bindings/python/rad_util.py:293-326 | for distinct items there are n! results and none occurs twice |
| PatchText.ParseUndoesWrite | simulator/utils/check-style.py:348-403 | reading what was written gives the same patches if and only if no removed line starts with "-- " and no added line with "++ " |
| PatchText.NoAmbiguousLine | simulator/utils/check-style.py:359-403 | that count of lines is 0 exactly if there is no such line |
| PatchText.HeaderCounts | simulator/utils/check-style.py:274-295 | the counts of a written header are those of the lines written after it |
| PatchReading.HeaderExact | simulator/utils/check-style.py:362 | a line is a header exactly if it has the four numbers and the marks, whatever follows the closing mark |
| PatchReading.ReadExactly | simulator/utils/check-style.py:360-402 | which of the patterns a line meets, in the order of the program, and what they capture |
| PatchReading.RaisesExactly | simulator/utils/check-style.py:366-403 | reading raises exactly when a line meets no pattern, a destination name or a header comes before any source name, or a body line before any header |
| PatchReading.LinesGoToTheLastChunk | simulator/utils/check-style.py:366-403 | for any readable lines there is one patch per source name, and each chunk has the body lines up to the next header |
| PatchSet.PatchChunkLine.Write | simulator/utils/check-style.py:204-217 | mark, text and line break; an error for a line whose type was never set |
| PatchSet.PatchChunk.Write | simulator/utils/check-style.py:286-295 | the header with both lengths, then the lines |
| PatchSet.Patch.Write | simulator/utils/check-style.py:348-358 | both file names, then the chunks |
| PatchSet.ParsePatchset | simulator/utils/check-style.py:359-403 | the objects built have the values the text means, are not shared, and the loop raises exactly on the texts without meaning |
| Allocation.Allocate | implementation/generate_exp.py:125-161 | finishes if and only if all nodes are known and have at least as many addresses as link ends; the counters are the degrees; each link takes the next slot at either end |
| Allocation.SlotsDiffer | implementation/generate_exp.py:156-159 | two links never take the same slot of a node, and slots stay below the degree |
| Allocation.SlotsFilled | implementation/src/topology_generator/topology_generator.py:156-159 | every slot below the degree is taken |
| Allocation.RemoteIsSymmetric | implementation/src/topology_generator/topology_generator.py:125-161 | the table of remote addresses has exactly the links, in both directions |
| LargeTransfer.Sender.constructor | simulator/examples/tcp/tcp-large-transfer.cc:82-86 | the buffer holds the repeated alphabet |
| LargeTransfer.Sender.Send | simulator/examples/tcp/tcp-large-transfer.cc:202-214 | one write stays inside the buffer and the total, and continues the pattern however much is taken |
| LargeTransfer.Sender.WriteUntilBufferFull | simulator/examples/tcp/tcp-large-transfer.cc:198-216 | for every sequence of partial sends, byte k of the stream is letter k mod 26 and the total is never exceeded |
| LargeTransfer.PositionBounded | simulator/examples/tcp/tcp-large-transfer.cc:200-214 | whatever the socket takes, the position never falls back and never passes the total |
| LargeTransfer.TakenIsCounted | simulator/examples/tcp/tcp-large-transfer.cc:203-213 | what the socket takes of what it is offered is counted byte for byte |
| LargeTransfer.EverythingIsSent | simulator/examples/tcp/tcp-large-transfer.cc:200-214 | a socket that has room and takes something each time gets the whole total |

## Left out

- Sorting and cycles: generators are taken as full lists, so a consumer that stops early or changes the graph meanwhile is not covered.
- Control protocol: split or merged TCP segments, closed connections and crashed servers; each send arrives whole.
- Control protocol: free-form commands of the user interaction mode other than the latency measurement, and an unknown command; nothing constrains what the user types.
- Control protocol: a message is a string of bytes; UTF-8 decoding failures, and the signs and spaces that Python's int() accepts, are not modelled.
- Control protocol: an error reason of 0 or more than 200 bytes, and a program whose start raises an exception.
- Control protocol: a server's working directory, the variables that keep its number, addresses and bandwidth after they are received, its traffic control and make commands, sleeps, downloads, and the controller's lists of error reasons; they do not touch the streams or the processes.
- Control protocol: the two programs are step relations over values, not classes, because their statements interleave; each branch and each recv size is kept.
- Control protocol: servers are asked for latencies in the order 0 to n - 1; the program uses the order of a dictionary, which concerns different connections.
- Worker pool: the threads are step relations over values for the same reason; shell commands, durations, verbose printing and the XML report are left out, and a skip reason is not part of a name.
- Type paths: the name lookups that fill the aggregation pairs; `Uniquefy` works on a copy and changes nothing.
- Shell pipelines: opening and closing of files, failures of Popen, and the verbose mode, which reads a variable before it is set; `get_abbreviated_command` only displays.
- Shell pipelines: white space in a value means the six ASCII characters, as in Python 2.
- Shell pipelines: splitting a command line into tokens is the work of the standard library.
- Number helpers: floating-point arguments, and arguments that are not integers.
- Binary.BinaryRoundTrip: bin2int is int(s, 2) for strings of digits only; signs, spaces and prefixes that int() accepts are not modelled.
- PatchText.ParseUndoesWrite: names and lines without line breaks and positions that are not negative, which is what a diff has.
- Style checker: the removal of trailing whitespace changes and everything about files and indentation programs.
- Allocation: reading the table of links from its file, and the half-made entry after a failed lookup.
- LargeTransfer: the Close call after the loop, which is also reached when the buffer is merely full, and everything in the simulator.
- Grid drawing, topologies, build tools, benchmarks and report formatting hold little that could go wrong in this sense.
