# Verification of the rdsctl task engine, topology and codecs

This project models the parts of rdsctl whose correctness depends on whole runs rather than on single
functions, and proves what they promise.

**Tasks.** A task is a plan: nodes with ids, dependencies, retries and steps. `Graph` and `CycleSearch` hold
the plan and the cycle search; `Waves` says which nodes the rounds of the scheduler can start and ties them to
longest dependency chains. `Sessions` describes one run as a trace of events (node taken up, node row written,
task row written, cancel seen) and proves safety and outcome theorems about every legal trace. `Scheduler` is
the engine itself, a class with the counters, the pending set, the ready list, the results in memory and the
persisted rows; its methods are proved to emit legal traces only. Completion order inside a wave, step
outcomes, cancels and crashes are unconstrained choices. `Store` is the persisted copy, `Ledger` the retry
loop that carries out steps, with the step ledger, and `Runs` puts submit, crash, resume, rerun and the
startup scan together into histories. A crash is a trace cut off after any of its events. `Joint` and
`JointRuns` put the events of runs and of the ledger into one order and carry the ledger through every
history. `LastNode` says when a node comes last over crashes and resumes. `RunGaps` holds the reachable
histories in which the task row does not tell the truth; the theorems of `Sessions` and `Runs` give the exact
conditions.

**Instances.** `Plans` builds the creation plans for any number of shards, slaves, raft members and proxies
and shows that the engine theorems apply to them; `CreationRuns` says when an interrupted creation sets its
instance running too early. `CreationPlans` ties each plan to the records of the instance that it builds.
`Instance`, `Reparent` and `Topology` cover the registered nodes: the switchover as SQL statements that can
fail with or without effect, the rewrite of roles and parents, naming and numbering over runs of create,
scale-out, switchover and replacement. `Trees` and `TreeRuns` show that the recorded parents stay a
replication tree. `ServerIds` says exactly when server ids stay distinct and which servers start writable.
`Decimal` is the printing and parsing of numbers that the names depend on. `Ports` is the host port allocator,
with the records that take its ports.

**Codecs and arithmetic.** `Scanner` is the SQL scanner, `TableCodec` the parser for tab-separated output,
`Sha256` the digest against FIPS 180-4, `Capacity` least squares, the disk forecast and down-sampling over
real numbers.

Where code and its comments or documents disagree, the model follows the code:

- the cycle search is described as returning a cycle member; it returns a listed node from which a cycle can
  be reached;
- a task is described as successful when its nodes are; with a dependency on an unknown node, after a resume
  of a snapshot that holds a failed node, and after a crash while rows are inserted, it reports success
  without that;
- the growth of a forecast is described as rounded before it is compared with zero; it is compared unrounded;
- the two persistence backends differ: SQL keeps the stored definition of an existing node row, the in-memory
  one replaces it. The theorems hold for both;
- a first keyword is described as the first word at top level; a sign other than a break does not end a word,
  so `SELECT*FROM t` is read as the word SELECTFROM;
- a restart is described as not giving out ports of existing instances again; a port drawn for a scale-out or
  a replacement is declared only when the node is recorded, and a restart in between gives it out again;
- read-only states are documented to agree with the roles; what starts writable is decided by whether a server
  id ends in 1, which is the same only while every base does and no slave has a number divisible by ten.

One property that the plans are built for holds in an uninterrupted run only: that the instance is set running
after everything else. After crashes and resumes it fails for every creation with two or more proxies, because
the access layer waits for the last proxy alone and resume drops satisfied edges. `CreationRuns` gives the
exact condition, over all histories and on a single snapshot.

Retries, steps, clocks and outputs that come from outside are parameters or free choices: the replies of SQL
statements, the answer of the bind probe, the outcome of each side effect and of each consensus write. Every
lemma switches automatic induction off, so that each proof is its body. `dafny verify dfyconfig.toml` checks
everything.

## Model

| member | source | states |
|---|---|---|
| `CycleSearch.FindCycle` | src/dag.rs:1390-1400 | reports nothing exactly when the dependency graph is acyclic; otherwise reports the first listed node from which a cycle can be reached |
| `CycleSearch.RootOnCycleIff` | src/dag.rs:1390-1400 | the reported node lies on a cycle if and only if no node listed before the first listed cycle member leads to a cycle |
| `CycleSearch.Search.Dfs` | src/dag.rs:1402-1425 | the recursion terminates and answers whether a cycle can be reached; on a negative answer the visited set grows, holds no node that reaches a cycle, and stays closed under dependencies |
| `CycleSearch.ReportedRootMayLieOffTheCycle` | src/dag.rs:1390-1400 | the reported node need not lie on a cycle, although the comment calls it a cycle member: a concrete plan |
| `Graph.AcyclicIffNoNodeReachesCycle` | src/dag.rs:1390-1425 | no repeating walk exists exactly when no listed node reaches a cycle, which is what the search looks for |
| `Waves.WaveIsLevel` | src/dag.rs:858-983 | a node of the k-th wave has a longest dependency chain of exactly k edges |
| `Waves.LevelIsWave` | src/dag.rs:858-983 | in a closed acyclic plan a node is in wave k if and only if its longest dependency chain has k edges |
| `Waves.Progress` | src/dag.rs:864-872 | while nodes remain, an acyclic closed plan always has a node whose dependencies are all done |
| `Waves.EmptyWaveMeansDone` | src/dag.rs:864-872 | an empty wave means that all nodes of a closed acyclic plan are done |
| `Sessions.RunShape` | src/dag.rs:849-983 | at every moment of every run the recorded and started nodes are the waves before some k, plus part of wave k, plus skips after a failure of that wave |
| `Sessions.StartsAfterDependencies` | src/dag.rs:864-891 | a node is taken up only when all its dependencies are recorded successful and nothing recorded has failed |
| `Sessions.SuccessIsClosed` | src/dag.rs:849-983 | at every moment of every run the successful nodes are closed under dependencies |
| `Sessions.StartedOnce` | src/dag.rs:872-891 | no node is taken up twice in a run |
| `Sessions.WaveIsLongestChain` | src/dag.rs:849-983 | in a successful run of a closed plan, under every completion order, each node is taken up exactly once, in the round whose number is its longest dependency chain |
| `Sessions.Outcome` | src/dag.rs:858-992 | a finished uncanceled run of a closed plan leaves every node successful, failed or skipped; it is a success exactly when all nodes are; and once a failure is recorded nothing is started |
| `Sessions.NothingStartsAfterFailure` | src/dag.rs:959-977 | in any legal run, after a failure is recorded no node is taken up any more |
| `Sessions.SuccessMeansAllRanIffClosed` | src/dag.rs:884-992 | dangling dependencies are not checked: a successful task ran every node if and only if the plan is closed |
| `Sessions.OutcomeIsOrderIndependent` | src/dag.rs:893-983 | two finished uncanceled runs in which the same nodes fail end with the same status for every node, whatever the completion orders |
| `Scheduler.CountDependencies` | src/dag.rs:850-851 | the counter of a node is the number of its dependency entries |
| `Scheduler.InvertDependencies` | src/dag.rs:852-857 | a node is listed under x exactly as often as x occurs in its dependencies |
| `Scheduler.TaskScheduler.Drive` | src/dag.rs:945-957 | counting down the dependents of a finished node keeps every counter equal to the unfinished dependency entries and the ready list equal to the unblocked pending nodes, each once |
| `Scheduler.TaskScheduler.StartWave` | src/dag.rs:872-902 | takes up exactly the nodes of wave k, once each, and shrinks the pending set |
| `Scheduler.TaskScheduler.JoinWave` | src/dag.rs:903-957 | whatever order the nodes report in, afterwards exactly wave k is recorded and the ready list is exactly what became unblocked |
| `Scheduler.TaskScheduler.SkipPending` | src/dag.rs:959-977 | after a failed wave every node has a record and the untaken ones are skipped |
| `Scheduler.TaskScheduler.Reject` | src/dag.rs:858-881 | on a cyclic plan every node gets a record: the reported one failed, all others skipped, none run |
| `Scheduler.TaskScheduler.RunWaves` | src/dag.rs:882-992 | the loop terminates and ends in a legal finished trace |
| `Scheduler.TaskScheduler.Execute` | src/dag.rs:825-993 | on any plan with distinct ids, whatever steps, users and completion order do, terminates with a legal finished trace; disk, memory and task status are exactly what the trace says; run and ledger events form one legal sequence; and if every success on disk was backed by the ledger before, it is afterwards |
| `Scheduler.TaskScheduler.Submit` | src/dag.rs:558-629 | rows first, then the run: the disk afterwards is the whole skeleton with a finished legal trace applied, and the run with its ledger events begins a joint history |
| `Scheduler.TaskScheduler.ResumeOne` | src/dag.rs:1128-1230 | resumes exactly if the task is unfinished and some row is unfinished; runs exactly the unfinished rows, with edges to recorded successes dropped; the run with its ledger events is a step of a joint history |
| `Scheduler.TaskScheduler.Hydrate` | src/dag.rs:1057-1126 | rebuilds memory so that it mirrors the disk |
| `Scheduler.TaskScheduler.RerunNode` | src/dag.rs:429-554 | reruns exactly if the task has failed, the node is failed or skipped, and all its dependencies are successful; otherwise nothing changes; the disk is what the rerun trace writes, and with its ledger events that is a step of a joint history |
| `Scheduler.TaskScheduler.MarkInterrupted` | src/store.rs:1215-1233 | the startup scan fails an unfinished task, skips its unfinished nodes and touches nothing else; that is a step of a joint history |
| `Scheduler.TaskScheduler.Summary` | src/dag.rs:522-535 | the task becomes successful exactly if every defined node is successful or skipped |
| `Scheduler.AgreeAfter` | src/dag.rs:903-957 | along every run memory and disk agree on all finished statuses, and rows of nodes that have not reported stay untouched |
| `Runs.SuccessStaysClosed` | src/dag.rs:429-554 | over every history of submit, crash at any write, resume, rerun and startup scan, at every moment, the successful nodes are closed under the dependencies of the submitted plan |
| `Runs.ResumeStartsAreSafe` | src/dag.rs:1160-1178 | in a resumed run a node starts only when all its original dependencies are recorded successful, although resume forgets edges |
| `Runs.RerunStartsAreSafe` | src/dag.rs:470-481 | a rerun node starts only on recorded successes of all its original dependencies |
| `Runs.CrashAndResumeEqualsUninterrupted` | src/dag.rs:1128-1230 | from a crash snapshot without failed or skipped nodes, a resumed run without failures starts exactly the unfinished nodes, keeps recorded successes untouched, and ends with the same node statuses and task status as the uninterrupted run |
| `Runs.ResumeAfterCrash` | src/dag.rs:1128-1230 | the same from any sound snapshot of a whole plan, however many crashes and resumes led to it |
| `Runs.ResumeReportsTruthIff` | src/dag.rs:1160-1182 | a clean resumed run always reports success; every node of the plan really has a successful row if and only if the snapshot held a row for every node and none of them failed or skipped |
| `RunGaps.ResumeAfterFailureReportsSuccess` | src/dag.rs:1160-1178 | a reachable history in which resume reports success although one node failed and one never ran |
| `RunGaps.FinishedNodesStayRunning` | src/dag.rs:1179-1182 | a reachable snapshot, all nodes successful and the task still running, that no resume or rerun can change |
| `RunGaps.NothingToResume` | src/dag.rs:1179-1182 | a running task without an unfinished row admits no operation but giving up |
| `RunGaps.LostRowsGoUnnoticed` | src/dag.rs:597-618 | a crash while the rows are inserted: the resumed task succeeds without the nodes that had no row yet |
| `Store.SkeletonRows` | src/store.rs:1177-1213 | inserting the rows of a plan with distinct ids leaves one unrun row for each node |
| `Store.UnsatisfiedMembers` | src/dag.rs:1168-1173 | pruning keeps exactly the dependencies that are not recorded successful |
| `Ledger.Executor.ExecStep` | src/instance.rs:6178-6336 | one attempt at one step, ledgered or not, with every reply possible and with late completions and late effects of earlier attempts in between: it leaves exactly one entry with its outcome, at the end; a positive answer for a ledgered step means that its completion is recorded; nothing recorded is ever forgotten |
| `Ledger.Executor.RunNode` | src/dag.rs:1274-1319 | the steps carried out are exactly the attempts listed: each goes through the steps in order, each step after the one before it succeeded, up to the first failure or the end; all attempts but the last failed; the node succeeds if and only if the last one carried out all steps; at most retries + 1 attempts, all of them on failure; success means that every ledgered step is recorded done |
| `Ledger.CompletedDidAll` | src/dag.rs:1284-1303 | a node that was run with success has carried out every one of its steps successfully, ledgered or not |
| `Ledger.NeverAgainOnceRecorded` | src/instance.rs:6057-6117 | a completion that is recorded while no attempt, in progress or abandoned, may still have its side effect is final: over all retries, crashes, resumes and reruns the side effect never runs again |
| `Ledger.NeverAgainIff` | src/dag.rs:1287-1297 | a recorded step is never carried out again, whatever follows, if and only if there is no attempt, in progress or given up with its command still running, that may still have its side effect |
| `Ledger.EffectAccounting` | src/instance.rs:6057-6117 | a side effect runs at most once more than there were failed attempts, lost completion writes and crashes, also when completions are applied late and abandoned commands take effect late; a recorded step has run, and exactly once without such setbacks |
| `Ledger.CrashAnywhere` | src/instance.rs:6057-6117 | a crash may cut the trace at any event; what follows is again a legal trace |
| `Joint.JLegalPrefix` | src/instance.rs:6178-6336 | a crash may cut off a run after any event of the run or of the ledger |
| `Joint.RunKeepsBacked` | src/dag.rs:903-957 | at every moment of a run every node recorded successful has all of its ledgered steps recorded done, and an attempt had gone through all of its steps |
| `JointRuns.SuccessIsBacked` | src/dag.rs:1128-1230 | the same at every moment of every history of submit, crash, resume, rerun and startup scan; the operations of the scheduler class are proved to be such steps |
| `JointRuns.SuccessDidEveryStep` | src/dag.rs:1284-1303 | at every moment of every history, a node recorded successful has carried out every one of its steps, ledgered or not, in one attempt from the first to the last |
| `JointRuns.Extended` | src/dag.rs:1128-1230 | a history followed by such an operation is a history |
| `JointRuns.CutResumeIsStep` | src/dag.rs:1128-1230 | a resumed run may be cut off by a crash after any event of the run or of the ledger: that is a step, too |
| `JointRuns.CutRerunIsStep` | src/dag.rs:429-554 | the same for a manual rerun |
| `JointRuns.CutSubmitIsSubmit` | src/dag.rs:558-629 | the same for the first run |
| `JointRuns.SuccessHadItsEffects` | src/instance.rs:6057-6117 | over every history, each ledgered step of a node recorded successful has been carried out, and at most once more often than there were setbacks |
| `JointRuns.SuccessIsNotRepeated` | src/instance.rs:6057-6117 | no later crash, resume or rerun carries out a ledgered step of a node recorded successful again, unless an attempt at it may still have had its effect |
| `Plans.CreateNodes2` | src/instance.rs:5278-5444 | for every slave list and proxy list: ids are distinct, every dependency lies on a lower level, the node that sets the instance running lies above all others, every node but the proxies before the last is waited for by some other, and the steps are complete, with multiplicity; each step occurs once for every server that asks for it: started under its server id, waited for, told once to follow its own master (a master gets the replication user instead), every statement after its own server is up; proxies start once each without a server id; and every master with slaves is verified against exactly these |
| `Plans.CreateNodesMulti` | src/instance.rs:5478-5652 | the same for every number of shards, with or without offline slaves; each slave follows the master of its own shard, and with distinct masters each shard is verified on its own |
| `Plans.CreateNodesXenon` | src/instance.rs:2734-2906 | the same for every list of raft members, with and without proxies |
| `Plans.AppendDts` | src/instance.rs:2328-2375 | the registrations of distinct targets all depend on the last node and keep what the plan promises, the servers it builds and what it verifies |
| `CreationPlans.PlanSingle` | src/instance.rs:2395-2531 | records and plan of a new instance with one shard fit together: each record is started once under its recorded server id, each slave is told once to follow its recorded parent and nobody else is, masters alone get the replication user, the master is verified against exactly the slaves; the records are a replication tree below the master |
| `CreationPlans.PlanMulti` | src/instance.rs:2537-2692 | the same for every number of shards, each a tree below its own master |
| `CreationPlans.BuildsMatches` | src/instance.rs:5654-5678 | a plan that builds the registered servers starts each record once and makes each slave follow its recorded parent, once, and nothing else follow anything |
| `CreationPlans.SlaveSpecs` | src/instance.rs:2466-2481 | the slaves of the plan are the slave records in order; counting from the master id gives their recorded server ids |
| `Plans.RunningComesLast` | src/instance.rs:5278-5444 | in one uninterrupted run of such a plan, when the node that sets the instance running is taken up, every other node except the DTS registrations is recorded successful, although the access layer depends on the last proxy alone; for resumed runs see `LastNode` and `CreationRuns` |
| `LastNode.ComesLastIff` | src/dag.rs:1160-1178 | over every history of submit, crash, resume, rerun and startup scan, on any closed acyclic plan: everything else is successful whenever a node is taken up if and only if the node depends on all of it; levels do not suffice, because resume drops satisfied edges |
| `LastNode.SafeToCloseIff` | src/dag.rs:1160-1178 | the exact condition on one snapshot under which a node comes last in every run that resumes it: it is not to come at all, or everything else is successful or still waiting, and waiting only while a direct dependency of the node is not successful |
| `LastNode.ComesLastInRunIff` | src/dag.rs:864-891 | within one run of any acyclic plan, a node comes last under every completion order if and only if everything else lies in an earlier wave or was successful before |
| `LastNode.CanComeEarly` | src/dag.rs:1160-1182 | for every node that another does not depend on, a reachable history in which the other is taken up, and one in which it succeeds, without it |
| `CreationRuns.RunningComesLastIff` | src/instance.rs:5360-5444 | the instance is set running last over every history exactly if no node of the creation is left that nothing waits for |
| `CreationRuns.OneProxyIsSafe` | src/instance.rs:5366-5416 | that is the case exactly for at most one proxy |
| `CreationRuns.AllButSideComeFirst` | src/instance.rs:5360-5444 | over every history, all nodes but the proxies before the last are successful when the instance is set running |
| `CreationRuns.RunningTooEarly` | src/instance.rs:5404-5416 | with two or more proxies: a reachable history in which the closing node has set the instance running and is recorded successful while a proxy is not |
| `CreationRuns.ClosesSafelyAfterCrashIff` | src/instance.rs:5404-5416 | on a snapshot that only crashes led to, the instance is set running last in every resumed run if and only if the closing node is successful, or one of its direct dependencies (the access layer) is not, or everything else is |
| `Plans.ShardNodesDiffer` | src/instance.rs:5478-5530 | node ids of different shards or of different kinds never coincide |
| `Plans.PushedLevels` | src/instance.rs:5278-5444 | appending a node with dependencies on lower levels keeps a plan levelled, so its waves are its levels |
| `Reparent.RerootsTree` | src/instance.rs:7790-7814 | from a replication tree of any depth the rewrite yields a tree on the same containers, rooted at the candidate, with exactly one master |
| `Reparent.SwitchingBackRestoresIff` | src/instance.rs:7790-7814 | switching back restores all records if and only if the candidate was a read slave directly below the old master and had no slaves of its own (and the master had no parent) |
| `Reparent.RollbackReroots` | src/instance.rs:3819-3867 | a switchover and its rollback end in a tree rooted at the old master |
| `Reparent.Cluster.MoveWriter` | src/instance.rs:7737-7776 | the outcome for every combination of replies; which of the two servers is writable in the end; and exactly when both are writable at some moment |
| `Reparent.Cluster.SwapRoles` | src/instance.rs:7790-7810 | the in-place loop is the record-wise rewrite, and reports whether a record matched |
| `Reparent.Cluster.ReparentCore` | src/instance.rs:7680-7818 | roles and snapshots change only in a run that switched; then the candidate is writable, the old master, if it answered, is not, and the records are rewritten |
| `Reparent.Cluster.Rollback` | src/instance.rs:3819-3867 | runs exactly if the last snapshot names a registered node that is not the master; a completed one makes that node the writer |
| `Topology.Manager.BuildSingle` | src/instance.rs:2395-2461 | names follow the numbering scheme, server ids count up from a fresh base; the records are a replication tree below the one master; besides it there is one read slave unless the type is single, and one offline slave unless it is single or sync |
| `Topology.Manager.BuildMulti` | src/instance.rs:2537-2623 | for every number of shards: names and server ids follow the scheme with bases exactly ten apart, slave numbers without gaps; each shard is a replication tree below its own master, with one read slave and an offline slave if and only if the instance is async; the groups handed to the plan name the same servers as the records |
| `Topology.ContainerInjective` | src/instance.rs:2560-2623 | container names determine shard number and slave number |
| `Topology.SuffixOf` | src/instance.rs:3150-3154 | the suffix scan reads the slave number back from every generated name, and nothing from a master |
| `Topology.NextShardSlaveIdx` | src/instance.rs:3143-3157 | one more than the largest number shown by a container of the shard |
| `Topology.PlanScaleOut` | src/instance.rs:3029-3141 | exactly when a scale-out is refused and why; otherwise the new container, role, server id and parent |
| `Topology.SingleScaleOutKeeps` | src/instance.rs:3049-3067 | scaling out an instance with one shard keeps names distinct, one master and at most one offline slave |
| `Topology.ShardScaleOutKeeps` | src/instance.rs:3068-3102 | scaling out a shard takes a free number and keeps names, offline slaves and server-id numbering |
| `Topology.SwitchKeeps` | src/instance.rs:7790-7814 | a switchover keeps the naming invariants of an instance with one shard |
| `Topology.SingleRunsStaySound` | src/instance.rs:6536-6608 | over every run of scale-outs, switchovers and replacements, each topology step applied once: distinct names, one master, at most one offline slave |
| `Topology.ManyRunsStaySound` | src/instance.rs:6536-6608 | over every run of scale-outs and replacements of a sharded instance: distinct names, at most one offline slave per shard, slave numbers without gaps; server ids count from the bases as long as nothing is replaced |
| `TreeRuns.SingleRunsStayTrees` | src/instance.rs:6536-6588 | over every run of scale-outs, switchovers and replacements of an instance with one shard the records stay a replication tree; its root is the candidate of the latest switchover, or else the first master |
| `TreeRuns.ManyRunsStayTrees` | src/instance.rs:6536-6588 | over every run of scale-outs and replacements of a sharded instance each shard stays a replication tree below its own master |
| `TreeRuns.AddedBelowOwnMaster` | src/instance.rs:3068-3102 | a slave added to one shard is recorded below the master of that shard, never below the first master of the instance |
| `Trees.GrownTree` | src/instance.rs:6561-6588 | a slave recorded below any node of a tree extends the tree |
| `Trees.StarIsTree` | src/instance.rs:2443-2447 | a master and slaves recorded directly below it are a replication tree |
| `ServerIds.SingleScaleOutsKeepIdsUnique` | src/instance.rs:3056-3067 | without a switchover server ids of an instance with one shard stay distinct, for any number of slaves |
| `ServerIds.ScaleOutKeepsIdsIff` | src/instance.rs:3049-3067 | one scale-out keeps server ids distinct if and only if they were and no record holds the id of the master plus the number of records |
| `ServerIds.ShardScaleOutKeepsIdsIff` | src/instance.rs:3068-3102 | for one shard of several: if and only if they were distinct and no record holds the id of the shard master plus the new slave number |
| `ServerIds.ReplaceKeepsIdsIff` | src/instance.rs:3239-3240 | after a replacement the ids are distinct if and only if those of the other nodes are |
| `ServerIds.RunKeepsIdsIff` | src/instance.rs:6536-6608 | over every run of scale-outs, switchovers and replacements, of instances with one shard or several: ids are distinct if and only if no scale-out has drawn an id that a record held at that moment, unless one of the two has been replaced since |
| `ServerIds.SingleRunIds` | src/instance.rs:6536-6624 | every run of an instance with one shard is such a run |
| `ServerIds.ManyRunIds` | src/instance.rs:6536-6624 | every run of an instance with several shards is such a run |
| `ServerIds.SwitchesKeepIdsIff` | src/instance.rs:6536-6608 | for an instance as created and without replacements that means: there are no two scale-outs between which the id of the master drops by exactly the number of scale-outs |
| `ServerIds.ManyRunsIdsIff` | src/instance.rs:6536-6608 | over every run of scale-outs of a sharded instance as created, nothing replaced: ids are distinct if and only if every shard but the last has at most nine slaves |
| `Topology.ServerIdsAreUnique` | src/instance.rs:2560-2623 | a stride of ten keeps server ids of all shards distinct up to nine slaves each |
| `ServerIds.SwitchingBetweenScaleOutsRepeatsIds` | src/instance.rs:3056-3064 | a switchover, a scale-out, the switchover back and a scale-out always draw one server id twice |
| `ServerIds.ReplaceThenScaleOutCollides` | src/instance.rs:3239-3240 | while ids count from the base, replacing a slave always sets up a server-id collision with the next scale-out |
| `Topology.AppendingTwiceDuplicates` | src/instance.rs:6576-6588 | the topology step is not idempotent |
| `ServerIds.MastersStartWritableIff` | src/instance.rs:5040-5042 | exactly the masters start writable if and only if every base ends in 1 and no slave number is divisible by ten |
| `ServerIds.ScaleOutStartsWritableIff` | src/instance.rs:3056-3064 | the slave that a scale-out adds starts writable exactly if the id of the master plus the number of records ends in 1 |
| `ServerIds.ShardScaleOutStartsWritableIff` | src/instance.rs:3094-3102 | for one shard of several: exactly if the id of the shard master plus the new slave number ends in 1 |
| `ServerIds.EveryTenthStartsWritable` | src/instance.rs:5040-5042 | while ids count from a base that ends in 1, the tenth slave, the twentieth and so on start writable, added or put in the place of another |
| `ServerIds.SingleRunsStartReadOnlyIff` | src/instance.rs:5040-5042 | over every run of scale-outs of an instance with one shard: exactly the master starts writable if and only if the base ends in 1 and there are at most nine slaves |
| `ServerIds.ManyRunsStartReadOnlyIff` | src/instance.rs:5040-5042 | over every run of scale-outs of a sharded instance: exactly the masters start writable if and only if the first base ends in 1 and no shard has more than nine slaves |
| `Decimal.ParseOfDec` | src/instance.rs:3150-3154 | parsing a printed number gives it back |
| `Decimal.DigitsThenMark` | src/instance.rs:2560-2623 | a number followed by a non-digit can be split off in one way only |
| `Ports.DeclaredPorts` | src/instance.rs:981-1012 | exactly the positive ports that some instance record declares, in any of its fields for nodes, raft, proxies and access layer |
| `Ports.Allocator.AllocHostPort` | src/instance.rs:950-975 | if some port is usable, the probe loop ends after a bounded number of probes with the first usable port from the counter on, or after a wrap with the first usable port at all; it stands in no field of any record |
| `Ports.Allocator.AllocHostPorts` | src/instance.rs:2300-2324 | the ports drawn for one creation, not yet declared, are pairwise distinct if and only if there are as many usable ports, even across a wrap |
| `Ports.Allocator.LoadPersisted` | src/instance.rs:4412-4466 | the counters continue right above the largest port in any field of any record and the largest server id |
| `Ports.Allocator.CreateRecord` | src/instance.rs:2293-2322 | a new record holds a port drawn for every proxy place, the access layer and every node, the older proxy fields repeat those of the first proxy; the ports are new and pairwise distinct if and only if enough ports were usable |
| `Ports.Allocator.CreateXenonRecord` | src/instance.rs:2745-2872 | the same for raft members, each with two ports, with and without proxies; the ports drawn before are dropped |
| `Ports.FreshRecord` | src/instance.rs:976-980 | a record made of usable ports shares none with any other record; it is apart in itself exactly if the drawn ports differ |
| `Ports.CreationsStayApart` | src/instance.rs:976-980 | over every run of creations, destructions and restarts, as long as creations find enough ports, no two places of all records hold the same port |
| `Ports.RunStaysApartIff` | src/instance.rs:6536-6588 | with scale-outs and replacements, which record their port only at the end: no port is ever held twice if and only if each port recorded late is still free |
| `Ports.LateRecordCollides` | src/instance.rs:3105-3141 | a reachable run in which it is not: the process restarts between drawing and recording, and the next creation draws the same port |
| `Scanner.ScanSql` | src/query.rs:105-213 | the index loop computes the token-wise scan, on every byte string; what that is, say the rows below |
| `Scanner.ScanMeans` | src/query.rs:105-213 | the first keyword is the first top-level word in upper case, and the skeleton is the text between breaks, in order, cut down to the signs before its word and that word in lower case, with a blank for each break |
| `Scanner.FirstKeywordIs` | src/query.rs:112-122 | behind blanks, comments, literals and signs, the first keyword is the first word and all word characters and dots up to the next break, whatever follows |
| `Scanner.FirstKeywordIff` | src/query.rs:112-122 | it is the first word itself if and only if neither a word character nor a dot stands between that word and the next break |
| `Scanner.NoKeywordIff` | src/query.rs:112-122 | the first keyword is empty if and only if no word character stands at top level |
| `Scanner.SkeletonKeepsWords` | src/query.rs:105-213 | scanning the skeleton finds the same words in the same order, and the same first keyword |
| `Scanner.SignsDoNotSeparate` | src/query.rs:187-206 | a sign between two words does not separate them: `SELECT*FROM t` has the first keyword SELECTFROM |
| `Scanner.ScanComposes` | src/query.rs:105-213 | at a top-level position the scan splits: the part before it matters only through the state it leaves |
| `Scanner.ClosesBehindIff` | src/query.rs:127-148 | a literal closes exactly behind its content if and only if every matching quote and every backslash in it is escaped |
| `Scanner.LiteralContentIsInvisible` | src/query.rs:127-148 | replacing the content of a top-level literal by any other escaped content leaves skeleton, first keyword and semicolon count unchanged |
| `Scanner.SemicolonsAreTopLevel` | src/query.rs:181-186 | the count is the number of semicolons at top-level positions |
| `Scanner.SkeletonIsClean` | src/query.rs:105-213 | the skeleton holds no quote, backtick, comment sign, semicolon or upper-case letter |
| `Scanner.TokenEndLocal` | src/query.rs:125-206 | where a token ends depends on the text up to that end and one more character |
| `TableCodec.UnescapeField` | src/query.rs:402-429 | the loop computes the recursive decoding |
| `TableCodec.UnescapeEscape` | src/query.rs:402-429 | decoding inverts escaping, for every text |
| `TableCodec.UnescapeDrops` | src/query.rs:402-429 | decoding drops exactly the backslashes that stand for something, before one of seven characters; a field without such a pair stays as it is, also with other backslashes or one at the end |
| `TableCodec.ProtectedStays` | src/query.rs:402-429 | a backslash before a quote or a backslash yields that character, wherever it stands |
| `TableCodec.ParseTable` | src/query.rs:433-484 | rows are the longest prefix of all rows within both limits, and `truncated` holds exactly if that prefix is proper |
| `TableCodec.ParseRows` | src/query.rs:447-478 | the loop over the lines stops at the first row that passes a limit |
| `TableCodec.RowBytesAreLineLength` | src/query.rs:447-478 | a row counts against the byte limit as the line of its decoded cells that are not NULL, with separators and line end |
| `TableCodec.ParseIsUnique` | src/query.rs:433-484 | that description determines the result |
| `TableCodec.RoundTripIff` | src/query.rs:433-484 | parsing the rendering of a table gives it back, untruncated, if and only if no column name is empty, no text cell reads NULL, no row renders to an empty line and the table is within the limits |
| `TableCodec.EmptyLineIff` | src/query.rs:448-450 | the rows that render to an empty line are the row without cells and the row of one empty text |
| `TableCodec.SplitJoin` | src/query.rs:434-437 | splitting inverts joining parts without the separator |
| `Sha256.Compress` | src/sha256.rs:24-72 | in-place schedule and eight rolling variables compute the recursive compression of FIPS 180-4 section 6.2.2 |
| `Sha256.FillSchedule` | src/sha256.rs:25-41 | the array holds the recursive message schedule |
| `Sha256.Pad` | src/sha256.rs:75-83 | the padding loop runs the least number of times that leaves eight bytes of the last block; the result is a whole number of blocks |
| `Sha256.Digest` | src/sha256.rs:74-94 | the digest is the recursive definition of FIPS 180-4 sections 5.1.1 and 6.2.2, big-endian |
| `Sha256.PaddingIsSuffixFree` | src/sha256.rs:78-83 | below 2^61 bytes no padded message ends in another one; in particular padding is injective |
| `Sha256.Reordered` | src/sha256.rs:37-40 | the source adds the terms of the schedule in the opposite order of the standard, with the same result |
| `Sha256.ConstantsAreCubeRoots` | src/sha256.rs:5-14 | each of the 64 round constants is the first 32 bits of the fraction of the cube root of the prime of that number |
| `Sha256.StartIsSquareRoots` | src/sha256.rs:16-18 | the initial value is the same for the square roots of the first eight primes |
| `Sha256.SigmaAmounts` | src/sha256.rs:34-54 | the values of the four sigmas on the first and the last bit, which fix their rotations and shifts |
| `Sha256.ChoiceChooses` | src/sha256.rs:45 | where a bit of the first word is set the bit of the second is taken, elsewhere that of the third |
| `Sha256.MajorityWins` | src/sha256.rs:52 | of three bits the one that two agree on |
| `Capacity.LsSlopePerSec` | src/capacity.rs:114-143 | the loops over centred coordinates compute the least-squares slope |
| `Capacity.SlopeMinimises` | src/capacity.rs:114-143 | slope and mean-based intercept minimise the sum of squared residuals over all lines, and no other line attains the minimum |
| `Capacity.SlopeIff` | src/capacity.rs:135-137 | there is a slope exactly if two samples differ in time |
| `Capacity.SlopeIgnoresTheClock` | src/capacity.rs:126-134 | shifting all timestamps does not change the slope |
| `Capacity.DaysAreLeast` | src/capacity.rs:161-204 | a forecast exists exactly for positive growth; it is the least non-negative whole day at which 90% of the disk is used |
| `Capacity.RoundedGrowthDisagreesIff` | src/capacity.rs:188-202 | the reported growth is rounded and the forecast is not: they disagree exactly for a growth between 0 and 0.5 bytes a day |
| `Capacity.GrowthIsNearest` | src/capacity.rs:188-202 | the growth shown is a nearest whole number of bytes a day |
| `Capacity.Downsample` | src/capacity.rs:221-236 | identity when the rows fit; otherwise every stride-th row, at most the cap, ending with the last sample |
| `Capacity.StrideIsLeast` | src/capacity.rs:227-228 | the stride is the least one that respects the cap |

## Left out

- Texts: node names, outputs, log lines, timestamps, timeouts as durations, and the exact container, SQL and configuration arguments of steps.
- Overlap inside a wave: a node's steps run when its result is taken; shared access to one step from two nodes at once, join panics and races on the task maps are not modelled.
- Plans with duplicate node ids: the engine theorems require distinct ids, which the creation plans are proved to have.
- The set of tasks: the model is one task; task lists, drafts and deletion only move whole tasks.
- Running without a persistence backend, and running steps without the ledger.
- Digest collisions in the idempotency key, and attempts registered late, after the proposal to begin a step was given up.
- The choice of the switchover candidate and the facts it is based on; the statements that attach the old master to the new one, whose failure the code only logs.
- Snapshots for rollback: the code looks at the ten latest evidence entries, the model keeps all snapshots.
- The task of a scale-out, three nodes one after the other; its decisions and its topology step are modelled.
- Topology of raft instances, the shard list beside the node records, and the selection of DTS targets.
- `Reparent.Cluster.ReparentCore`: takes the first master, as the code does; the re-rooting theorems are stated for one master, because on several shards the candidate may belong to another shard.
- `Sha256.Digest`: holds on every input with the bit length taken modulo 2^64, as the code computes it; it is the standard's digest below 2^61 bytes.
- `Capacity.LsSlopePerSec`: works over real numbers; floating-point rounding, non-finite results, missing JSON fields and the integer casts of large forecasts are not modelled.
- `Capacity.DaysAreLeast`: saturation of the forecast time at 64 bits is not modelled.
- `TableCodec.ParseTable`: text is a sequence of bytes; the conversion of invalid UTF-8 is not modelled.
- `Scanner.ScanSql`: text is a sequence of bytes, each pushed as the character of that code; the later byte slicing of a non-ASCII skeleton and the keyword lists built on it are not modelled.
- `Topology.PlanScaleOut`: 64-bit overflow of server ids and numbers is not modelled.
- The records of several replicas: the model has one process, which knows all records; a port that another replica draws at the same time is not modelled.
- `Ports.Allocator.AllocHostPort`: the bind probe is a fixed predicate during one allocation; changes by other processes between probes are not modelled.
- The operation lock of an instance: one path of a raft creation returns without releasing it, so no lifecycle theorem holds.
- Moving a master to another host, whose steps are not safe to repeat after a crash.
- HTTP, agents, containers, consensus, alerting, accounts and reports: plumbing, or easy members.
