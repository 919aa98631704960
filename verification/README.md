# Verified models of the Periscope agents

Periscope runs a frontend, a tree of agents and the processes of a parallel application. These modules
model the parts of it that hold the hard promises, and prove them:

- **Call trees** (`CallPaths`, `RegionNames`, `ScorepRecords`, `TreeReplay`, `CallTree`, `NodeStreams`,
  `FrontendTree`, `ClusterTree`). An analysis agent rebuilds one call tree from the flat preorder records of all
  threads and processes, works out call paths and parameters, and sends the tree node by node to the frontend,
  which rebuilds it from the interleaved streams of all agents. Trees are heap objects with parent and child
  links, as in the program; a ghost map from call paths to nodes says that they form a trie. For phase clustering a
  tree is cloned once per cluster.
- **Agent hierarchy** (`Hierarchy`, `Tokens`, `ApplicationStarter`). Processes are clustered onto agents, levels with
  a bounded fan-out are put on top, and agents get tags that encode their place. The tags and lists are taken
  apart again in place by `strtok`.
- **Measurement** (`MeasurementScheduler`, `Reductions`, `PerformanceDataBase`, `MetricAllocation`). Requests that cannot
  be measured together are spread over rounds and repeated for a burst of iterations; the database reduces a window of
  a sparse series; configurable metrics are given to expressions.
- **Regions** (`ParallelRegions`, `RegionRegistry`). Regions that may run threaded are marked over a possibly cyclic
  call graph; regions are interned and found by an arithmetic key.
- **Control** (`ProtocolStates`, `ProtocolInvariant`, `ProtocolEnds`, `ContinuationProtocol`, `TuningEvents`,
  `TuningCounts`, `TuningDriver`). The frontend and an agent exchange requests and answers over two FIFO queues: what
  each event does, what holds after any of them, when a session can still end, and the methods that do it. The tuning
  driver issues events to a state machine: which, whether they are accepted, and how often each is issued.

`Sequences`, `Maps`, `SortedSets`, `Separators`, `Arithmetic`, `DecimalStrings` and `Options` hold what the others share.

Code that changes objects step by step is modelled by classes whose methods change fields, with invariants in
`Valid()` and its parts; what these methods compute is tied to functions on values, and what the program promises is
proved about those functions. `dafny verify dfyconfig.toml` checks everything.

## What the code does differently from what one may expect

- A child is looked up by Score-P id **or** name. An id that an earlier buffer left behind under the same parent
  redirects the lookup (`CallTree.MergeSameId`); `TreeReplay.LookupByNameIff` says exactly when it does not.
- A node that reaches the frontend before its parent is lost (`NodeStreams.AllKeptIff`).
- A slash in a region name makes call-path strings ambiguous; `CallPaths.SameString` says which call paths coincide,
  and `CallPaths.JoinCollides` names two.
- Region keys are unique exactly up to 1000 strings and for lines below 20000 (`RegionRegistry.KeysUniqueIff`): only
  odd numbers are given out, so half the keys stay unused.
- A cluster number in the root's own name stays the same in all clusters, so the strings of a cluster are those of the
  first with its number in place only if the root's name has no other number (`ClusterTree.ClusterStrings`).
- Search steps that follow the first one of a tuning step must not ask for an analysis, and only the last one may
  create no scenarios; otherwise the state machine ends the program (`TuningEvents.AcceptedIff`).
- `start()` does not reset the search status of the agent. That is harmless, since no decision is taken before
  the next answer arrives (`ContinuationProtocol.Session.ReceiveAnswer`).
- If the application does not end in time, the agent is told to quit, but the main program still goes on to wait for
  it to be reinitialized. A session can come to its end if and only if that never happens (`ProtocolEnds.CanStillEndIff`);
  `ContinuationProtocol.HangUp` is a run in which it does.
- A property whose registration fails stays registered with the metrics it got before, and a second registration
  returns it as if it were complete. What is returned is complete if and only if the first registration did not fail
  (`MetricAllocation.PropertyConfigurationManager.RegisterPropertyConfiguration`); `MetricAllocation.RegisterTwice` is a
  case in which it did.
- A constant fill of a gap takes half the sum of both neighbours, rounded toward zero, where a missing neighbour counts
  as 0, except behind the last value of a window, which goes on as it is (`Reductions.Fill`).

## Model

| member | source | states |
|---|---|---|
| `CallPaths.MakeCallpathString` | aagent/src/rts.cc:660-666 | the loop over the name stack builds the slash-joined call path, defined from the other end |
| `CallPaths.JoinInjective` | aagent/src/rts.cc:660-666 | two call paths have the same string if and only if they are the same, for slash-free names |
| `CallPaths.SameString` | aagent/src/rts.cc:660-666 | whatever the names, two call paths have the same string if and only if they are the same once every name is cut at its slashes |
| `CallPaths.ParentTest` | aagent/src/rts.cc:624-624 | the frontend's string comparison holds for exactly one node: the one at the parent's call path |
| `RegionNames.ParameterSplit` | aagent/src/rts.cc:264-296 | a name taken for a parameter splits at its first equals sign into name and non-empty value, and the two give it back |
| `RegionNames.ParameterIff` | aagent/src/rts.cc:269-271 | a name is taken for a parameter if and only if it holds an equals sign, each stands alone between characters that are not white space, and none ends an operator's name; stated by positions in the name |
| `ScorepRecords.AncestorPath` | aagent/src/rts.cc:200-209 | along parent ids, call paths are proper prefixes of each other |
| `ScorepRecords.ParentPathPresent` | aagent/src/rts.cc:211-211 | the call path of a record's parent is among those of its buffer |
| `TreeReplay.LookupByNameIff` | aagent/src/rts.cc:175-183 | a lookup by id or name finds the child of that name, or none, if and only if no earlier child still holds the id |
| `CallTree.MergeSameId` | aagent/src/rts.cc:175-253 | two concrete well-formed buffers that use one id for two children of the root: the second one's record is merged into the node of the first, and its own call path is nowhere in the tree |
| `TreeReplay.NeverStale` | aagent/src/rts.cc:175-183 | in a run of buffers that use no id for two children of one node, no stale id ever misleads a lookup |
| `TreeReplay.ReplayAllPaths` | aagent/src/rts.cc:107-152 | after any number of buffers, the call paths held are the union of those the buffers mention |
| `TreeReplay.ReplayAllValues` | aagent/src/rts.cc:155-158 | the two ids held at a call path are both those of one record with that call path |
| `CallTree.AgentCallTree.FindNode` | aagent/src/rts.cc:175-183 | returns the first child that agrees in id or name |
| `CallTree.AgentCallTree.AddChild` | aagent/src/rts.cc:240-249 | a new child keeps the tree a trie, extends both the creation order and the serialization list, and takes the next number |
| `CallTree.AgentCallTree.PlaceRecord` | aagent/src/rts.cc:225-253 | the child at the record's call path is reused or appended, and just that path holds the record's two ids afterwards |
| `CallTree.AgentCallTree.InsertNode` | aagent/src/rts.cc:194-258 | merges the rest of the buffer and terminates; the ids per call path are those of replaying the records by their parent ids alone, and the walk toward the root never leaves the tree |
| `CallTree.AgentCallTree.MergeBuffer` | aagent/src/rts.cc:107-142 | a well-formed buffer is merged record by record, and each record's id, unless the table had it before, leads to the tree's own node at the record's call path; ids the table had stay as they were |
| `CallTree.AgentCallTree.ConstructAagentCalltree` | aagent/src/rts.cc:107-152 | merging a buffer, and settling all nodes: the tree stays a trie, old nodes stay, every node knows its call path, and new ids lead to the nodes at their records' call paths |
| `CallTree.AgentCallTree.ConstructFrom` | aagent/src/rts.cc:107-258 | from any run of consistent well-formed buffers, the tree holds exactly the union of their call paths, each with the ids that replaying the records gives it |
| `CallTree.PropagateUnion` | aagent/src/rts.cc:688-700 | inheriting parameters gives the union of both lists without duplicates |
| `CallTree.PropagateIdempotent` | aagent/src/rts.cc:688-700 | what is inherited already is not inherited twice |
| `CallTree.AgentCallTree.PropagateParameters` | aagent/src/rts.cc:688-700 | a parameter node lists exactly the parameters of the maximal chain of parameter nodes above it |
| `CallTree.AgentCallTree.SetCallPaths` | aagent/src/rts.cc:675-721 | every node of the subtree gets its call-path string, parameters and validity, nothing else changes, and the name stack is left as found; settled nodes are not changed again |
| `CallTree.AgentCallTree.GetRtsByCallpath` | aagent/src/rts.cc:871-888 | returns a node with the string, or none if no node of the subtree has it |
| `CallTree.AgentCallTree.FindByPath` | aagent/src/rts.cc:871-888 | in a settled tree the lookup by string returns the node at that call path, or none if there is none |
| `CallTree.AgentCallTree.CreationOrder` | aagent/src/rts.cc:249-249 | the serialization order names every call path once, parents first, and only the root carries parent id 0 |
| `NodeStreams.NothingDropped` | aagent/src/rts.cc:621-642 | when parents come first, the frontend keeps every node it receives |
| `NodeStreams.AllKeptIff` | aagent/src/rts.cc:621-642 | among distinct nodes with one root, all are kept if and only if each arrives after its parent |
| `NodeStreams.InterleavingKeepsOrder` | aagent/src/accl_mrinodeagent_handler.cc:317-324 | any interleaving of streams that send parents first still sends parents first |
| `NodeStreams.AnyOrderGivesTheUnion` | aagent/src/application.cc:491-502 | whatever the order of arrival, the frontend ends up with the union of the streams |
| `NodeStreams.BringsFirst` | aagent/src/rts.cc:621-642 | when parents come first, the message that brings a call path into the tree is the first one to name it |
| `FrontendTree.FrontendCallTree.FindFrontendNode` | aagent/src/rts.cc:606-613 | finds the child with the call path, and finds none if and only if there is none |
| `FrontendTree.FrontendCallTree.InsertFrontendNode` | aagent/src/rts.cc:621-642 | one node takes the newcomer if its parent is in the subtree, a second copy is discarded, and no other node is touched |
| `FrontendTree.FrontendCallTree.ConstructFrontendCalltree` | aagent/src/application.cc:491-502 | one message changes the set of call paths as the stream account says, and no node is moved; a message for a root renews the root's ids, any other brings the ids of the one node it adds, and no other node's ids change |
| `FrontendTree.SerializeCalltree` | aagent/src/accl_mrinodeagent_handler.cc:312-335 | an agent sends each call path of its tree once, parents first, and has nothing left to send |
| `FrontendTree.FrontendCallTree.ReceiveRun` | aagent/src/application.cc:491-502 | after any run of messages, a node holds the ids of the message that brought it, the root those of the last message for a root, and only the root has parent id 0 |
| `FrontendTree.FrontendCallTree.ReceiveAgents` | aagent/src/application.cc:491-502 | the messages of several agents, interleaved in any way, rebuild exactly the union of what they send; every node but the root is in all fields what the first message for its call path says, the root holds the ids of the last message for a root, and only the root has parent id 0 |
| `FrontendTree.FrontendCallTree.TransmitCalltrees` | aagent/src/accl_mrinodeagent_handler.cc:312-335 | from Score-P records to the frontend: every agent merges its buffers and sends what is on its list, the messages arrive in any order, and the frontend has exactly the call paths some buffer mentions, each with both ids of one record with that call path; only the root has parent id 0 |
| `FrontendTree.SettledNodeSends` | aagent/src/accl_mrinodeagent_handler.cc:317-324 | what an agent sends for a settled node is what the frontend expects of a node at that call path |
| `ClusterTree.ModifyTwice` | aagent/src/rts.cc:1071-1074 | replacing cluster numbers twice leaves the number of the second replacement |
| `ClusterTree.ModifyJoin` | aagent/src/rts.cc:1071-1074 | replacing the number in a call-path string is replacing it in every region name |
| `ClusterTree.CloneTree` | aagent/src/rts.cc:1129-1140 | the clone has the shape of the original, with the cluster number in all names and the same ids node by node, and is made of new nodes only, none of them twice |
| `ClusterTree.SetCallPaths` | aagent/src/rts.cc:1147-1191 | every node of the subtree gets the string of its call path, node by node, and the name stack is left as found |
| `ClusterTree.ModifyTree` | aagent/src/rts.cc:1095-1115 | the root ends up with max(1, n) clusters that share no node, the first made of the nodes that were there; the k-th looks like the first with number k in all names, and the strings stored at its nodes are those stored at the first cluster's nodes with number k in place, if and only if that number leaves the root's name alone; all clusters hold the same ids, node by node |
| `ClusterTree.SubtreeRepresents` | autotune/plugins/readex_interphase/src/readex_interphase.cc:683-683 | every node of the frontend's tree heads a tree of its own nodes, none of them twice, which is all that splitting it into clusters asks for |
| `ClusterTree.UnnumberedIff` | aagent/src/rts.cc:1071-1074 | a name is left alone by every number if and only if it holds no cluster number |
| `ClusterTree.RenamedCluster` | aagent/src/rts.cc:1104-1110 | cloning any cluster with number k gives cluster k |
| `ClusterTree.ClusterPaths` | aagent/src/rts.cc:1104-1110 | as values, the call paths of cluster k are those of the first cluster with the number replaced |
| `ClusterTree.ModifyPathsAt` | aagent/src/rts.cc:1071-1074 | replacing the number in call paths replaces it in their strings, position by position |
| `ClusterTree.ClusterStrings` | aagent/src/rts.cc:1112-1113 | nodes with the call-path strings of cluster k have those of the first cluster with the number replaced, if and only if it leaves the root's name alone |
| `ParallelRegions.Application.GetSubroutine` | aagent/src/application.cc:203-213 | returns the region at the least position of the table that has this name and is a subroutine, and none if and only if there is no such position |
| `ParallelRegions.Application.SetRraRecursive` | aagent/src/Region.cc:100-123 | terminates though subroutines may call each other; marks within any closed set, and leaves the marked set closed but for the regions still being walked |
| `ParallelRegions.Application.MarkAllPotentialParallelRegions` | aagent/src/application.cc:193-201 | the marked regions are exactly the least set with the parallel regions below main, closed under subregions and under calls: whatever a marked region contains is marked, and so is the subroutine at the least position with the name a call in it gives |
| `ParallelRegions.Application.LeastIsAdmissible` | aagent/src/Region.cc:100-123 | that least set has the closure properties itself |
| `ParallelRegions.Application.LeastIsStable` | aagent/src/Region.cc:100-123 | marking once more changes nothing |
| `MeasurementScheduler.DataProvider.Distribute` | aagent/src/DataProvider.cc:1566-1613 | every request is put in its PAPI set or aside, and the set remembered is a largest one; aborts exactly on an unsupported metric |
| `MeasurementScheduler.DataProvider.FormRequestSet` | aagent/src/DataProvider.cc:1557-1671 | selects one largest PAPI set and all metrics that can be measured at any time, and leaves the rest |
| `MeasurementScheduler.DataProvider.SplitCounts` | aagent/src/DataProvider.cc:1627-1658 | where each request goes, with multiplicity |
| `MeasurementScheduler.DataProvider.SplitIsPartition` | aagent/src/DataProvider.cc:1627-1658 | selected and remaining together are the requests, and one PAPI set fewer is pending |
| `MeasurementScheduler.DataProvider.AddMeasurementRequest` | aagent/src/DataProvider.cc:128-160 | queues a request, unless a schedule is unfinished, which is refused |
| `MeasurementScheduler.DataProvider.SetIterationBurstLength` | aagent/src/DataProvider.cc:2551-2554 | sets the counter and keeps the requests for the later sweeps |
| `MeasurementScheduler.DataProvider.TransferRequests` | aagent/src/DataProvider.cc:465-475 | removes duplicates and submits exactly the selected metrics |
| `MeasurementScheduler.DataProvider.GetResults` | aagent/src/DataProvider.cc:280-321 | burst counter, pending requests, iteration and status after a round |
| `MeasurementScheduler.DataProvider.Round` | aagent/src/DataProvider.cc:163-321 | one round submits what is no longer pending and reports the end exactly when nothing is left of sweep and burst |
| `MeasurementScheduler.DataProvider.UnderNext` | aagent/src/DataProvider.cc:280-321 | a round takes the schedule to the next round, the next sweep, or the end |
| `MeasurementScheduler.DataProvider.Measure` | aagent/src/DataProvider.cc:280-321 | a burst of b iterations over k PAPI sets ends after exactly K*ceil(B/K) transfers of requests; each metric is submitted ceil(B/K) times and the iteration advances by B, with B = max(b,1) and K = max(k,1) |
| `Reductions.InterpolateAndReduce` | aagent/src/PerformanceDataBase.cc:530-580 | a gap contributes its value once for each of its points, and nothing if it is empty |
| `Reductions.FirstGap` | aagent/src/PerformanceDataBase.cc:87-121 | the iterations before the first value of the window all count with the value used for that gap |
| `Reductions.MiddleGap` | aagent/src/PerformanceDataBase.cc:129-160 | the same between two values |
| `Reductions.LastGap` | aagent/src/PerformanceDataBase.cc:161-180 | the same behind the last value |
| `Reductions.GetReductions` | aagent/src/PerformanceDataBase.cc:70-194 | for every window and sparse map, the number of elements is its length, so the warning is never reached; sum, sum of squares and squared deviation are those over each iteration on its own |
| `Reductions.TotalOfStored` | aagent/src/PerformanceDataBase.cc:530-580 | unless gaps are filled with a constant, a window sums up just the values stored in it |
| `PerformanceDataBase.DataBase.SetTimeWindow` | aagent/src/PerformanceDataBase.cc:510-528 | accepts exactly the windows within what was written, and refuses others without a change |
| `PerformanceDataBase.DataBase.Store` | aagent/src/PerformanceDataBase.cc:396-417 | never throws; stores the value, and shows just its iteration unless that lies before one already written |
| `PerformanceDataBase.DataBase.GetReducedValueInWindow` | aagent/src/PerformanceDataBase.cc:197-241 | the sum or the sum of squares of the filled window; fails exactly without an entry |
| `PerformanceDataBase.DataBase.Get` | aagent/src/PerformanceDataBase.cc:471-484 | the default query, 0 without an entry |
| `PerformanceDataBase.DataBase.StoreThenGet` | aagent/src/PerformanceDataBase.cc:396-484 | a default query right after a store returns the value stored |
| `PerformanceDataBase.DataBase.GetAllIterationsValues` | aagent/src/PerformanceDataBase.cc:298-333 | position i holds the value of the last stored iteration up to i, or 0 |
| `Hierarchy.ClustersFilled` | frontend/src/ApplicationStarter.cc:372-401 | clustering keeps every process in order, fills all groups but the last, and uses max(1, ceil(n/clusterSize)) groups |
| `Hierarchy.OneHostPerAgent` | frontend/src/ApplicationStarter.cc:402-452 | no agent mixes hosts, and each holds between 1 and clusterSize processes |
| `Hierarchy.HostClustersFlat` | frontend/src/ApplicationStarter.cc:402-452 | the agents together hold the processes host by host |
| `Hierarchy.EveryProcessOnce` | frontend/src/ApplicationStarter.cc:345-348 | whatever the order of the hosts, every process is held exactly once |
| `Hierarchy.ParentsBetween` | frontend/src/ApplicationStarter.cc:477-485 | a level above several agents has fewer agents, as few as the fan-out allows |
| `Hierarchy.HeightLeast` | frontend/src/ApplicationStarter.cc:457-486 | h levels are enough if and only if maxfan^h reaches the number of analysis agents |
| `Hierarchy.HeightOfFlat` | frontend/src/ApplicationStarter.cc:473-475 | with a fan-out of 1 there is one agent above all |
| `Hierarchy.TopHasOne` | frontend/src/ApplicationStarter.cc:457-486 | the topmost level is the first with a single agent |
| `Hierarchy.KidsOf` | frontend/src/ApplicationStarter.cc:497-526 | the children of an agent are a run of agents, and those whose parent it is |
| `Hierarchy.KidsCount` | frontend/src/ApplicationStarter.cc:497-526 | every agent above the lowest level has at least one child, and at most maxfan unless that is 1 |
| `Hierarchy.UpBelow` | frontend/src/ApplicationStarter.cc:501-501 | the parent cursor does not run out before the children |
| `Hierarchy.TagsUnique` | frontend/src/ApplicationStarter.cc:488-529 | no two agents anywhere share a tag |
| `Hierarchy.TagInjective` | frontend/src/ApplicationStarter.cc:491-491 | a tag tells the frontend and the place: tags are equal if and only if both are |
| `Hierarchy.TagParent` | frontend/src/frontend.cc:845-872 | the parent read off a tag is the tag of the agent's parent |
| `Hierarchy.TopParent` | frontend/src/ApplicationStarter.cc:493-494 | for the topmost agent that agrees with the parent it is told if and only if the frontend's local tag is "fe" |
| `Hierarchy.ChildrenRead` | hagent/src/hlagent_main.cc:509-513 | an agent reads from its children list the tags of its children, in order, with or without the final comma |
| `ApplicationStarter.Starter.AppendAgent` | frontend/src/ApplicationStarter.cc:379-388 | a new agent is linked behind the current one and gets the next port |
| `ApplicationStarter.Starter.PlaceEntry` | frontend/src/ApplicationStarter.cc:375-399 | a process goes into the current agent, or into a new one if that is full |
| `ApplicationStarter.Starter.ClusterAll` | frontend/src/ApplicationStarter.cc:372-401 | the localhost branch clusters all processes in their order |
| `ApplicationStarter.Starter.ClusterByHost` | frontend/src/ApplicationStarter.cc:402-452 | the other branch clusters each host's processes on their own |
| `ApplicationStarter.Starter.AddLevels` | frontend/src/ApplicationStarter.cc:457-486 | levels are put on top until one agent is left; their number and sizes |
| `ApplicationStarter.Starter.TagChildren` | frontend/src/ApplicationStarter.cc:496-528 | every child gets the tag and parent of its place, every parent the list of its children |
| `ApplicationStarter.Starter.AssignTags` | frontend/src/ApplicationStarter.cc:487-529 | the same from the topmost level down to the analysis agents; the topmost agent's tag is fe[id]:0 |
| `ApplicationStarter.Starter.ComputeAgentHierarchy` | frontend/src/ApplicationStarter.cc:332-531 | the whole construction: clusters, levels, tags, parents and children lists; the topmost agent is told the tag fe[id]:0 and the parent the frontend is known by |
| `ApplicationStarter.Starter.RunAgents` | frontend/src/ApplicationStarter.cc:534-546 | the tag of the topmost agent is the child tag that the frontend registers beforehand |
| `ApplicationStarter.AgentKnowsParent` | frontend/src/ApplicationStarter.cc:502-506 | in a finished hierarchy an agent's parent field is the tag of the agent above it, and what the graph reads off its own tag; its tag is that tag with its number among the children |
| `ApplicationStarter.AgentKnowsChildren` | frontend/src/ApplicationStarter.cc:508-526 | its children list names the agents below it, in order |
| `ApplicationStarter.AgentsDistinct` | frontend/src/ApplicationStarter.cc:357-529 | no two agents share a tag or a port |
| `ApplicationStarter.ApplIdsRead` | frontend/src/ApplicationStarter.cc:391-399 | an agent can read its process ids back from what it is told |
| `Tokens.Tokenizer.Next` | frontend/src/frontend.cc:847-853 | the next token of the text, the rest of the text, and the one character overwritten |
| `Tokens.ReadList` | hagent/src/hlagent_main.cc:509-513 | collects the tokens of a list |
| `Tokens.TokensOfList` | hagent/src/hlagent_main.cc:509-513 | taking a comma-separated list apart gives its pieces back |
| `Tokens.ParentTag` | frontend/src/frontend.cc:845-867 | the in-place tokenizing and restoring of the tag buffer yields the prefix before the last component |
| `Tokens.ParentOfChild` | frontend/src/frontend.cc:845-867 | a tag extended by one component is taken for a child of the shorter one if and only if that does not end in a colon itself |
| `ContinuationProtocol.Session.OnStart` | aagent/src/accl_mrinodeagent_handler.cc:46-155 | accepts the request: an experiment runs, or exactly one answer is sent |
| `ContinuationProtocol.Session.OnStartExperiment` | aagent/src/accl_mrinodeagent_handler.cc:168-187 | the same |
| `ContinuationProtocol.Session.OnCheck` | aagent/src/accl_mrinodeagent_handler.cc:239-302 | sends all properties found so far, in order, then the note that these were all, and forgets them |
| `ContinuationProtocol.Session.EvaluateExperiment` | aagent/src/analysisagent.cc:185-235 | ends a finished experiment with exactly one answer, and which; what the strategy found is kept unless the experiment was suspended |
| `ContinuationProtocol.Session.AgentReceive` | aagent/src/accl_mrinodeagent_handler.cc:46-302 | any request the agent handles keeps the invariant of the protocol; one for an experiment is followed by the experiment or by one answer, one for the properties by all of them |
| `ContinuationProtocol.Session.DecideContinuation` | frontend/src/frontend_accl_handler.cc:172-326 | asks for properties if they are not in; otherwise enforces the decision for the status, and then everything found has been delivered once and in order |
| `ContinuationProtocol.Session.ReceiveAnswer` | frontend/src/frontend_accl_handler.cc:329-400 | an answer is noted, and the properties are asked for before anything is decided |
| `ContinuationProtocol.Session.OnPropertiesSent` | frontend/src/frontend_accl_handler.cc:462-491 | the note that all properties are in leads to a decision with all of them delivered |
| `ContinuationProtocol.Session.OnFoundProp` | frontend/src/frontend_accl_handler.cc:114-158 | a property is taken over in the order of arrival |
| `ContinuationProtocol.Session.FrontendReceive` | frontend/src/frontend_accl_handler.cc:25-491 | any message the frontend handles keeps the invariant, and decisions are enforced on one kind of message only |
| `ContinuationProtocol.Session.StartupStep` | frontend/src/frontend.cc:570-615 | the startup timer starts the search once the agent is up, or gives up |
| `ContinuationProtocol.Session.TerminationStep` | frontend/src/frontend.cc:681-731 | the termination timer waits for the application, or gives up |
| `ContinuationProtocol.Session.ReinitStep` | frontend/src/frontend.cc:617-650 | the reinitialization timer asks for the next experiment once the agent is ready |
| `ContinuationProtocol.Session.MainContinues` | frontend/src/frontend.cc:372-416 | the restart loop: at most 39 restarts, none after quitting |
| `ProtocolStates.FoundIs` | aagent/src/analysisagent.cc:185-235 | over any schedule, what is found is what the strategy contributes to the events that take effect: experiments that end without being suspended, and requests for one that are accepted; all of it, in order |
| `ProtocolInvariant.StillOk` | frontend/src/frontend.cc:332-417 | no event, whatever application and strategy contribute to it, breaks the invariant of the protocol |
| `ProtocolInvariant.AllDelivered` | frontend/src/frontend_accl_handler.cc:462-491 | when the note arrives that all properties are in, they are: nothing found is still on its way or waits at the agent |
| `ProtocolInvariant.AtMostOneExperiment` | aagent/src/analysisagent.cc:185-235 | never more than one experiment is asked for, running, or answered; every accepted request has one answer, but for the one that runs, and every request one decision, but for one under way |
| `ProtocolEnds.DoomedIff` | frontend/src/frontend.cc:681-731 | over any schedule: the frontend has quit and is still in an event loop, or about to enter one, if and only if it was so before, or at some tick the time was up and the application had not ended |
| `ProtocolEnds.CanEndIff` | frontend/src/frontend.cc:372-416 | from any state that fulfils the invariant, some schedule brings the session to its end unless the frontend has quit and is still in an event loop, or about to enter one, and then none does |
| `ProtocolEnds.CanStillEndIff` | frontend/src/frontend.cc:372-416 | from the beginning and after any schedule: the session can still come to its end if and only if the application was never given up on the way |
| `ContinuationProtocol.Session.Step` | frontend/src/frontend.cc:332-417 | the methods of frontend and agent do with all they know, and with both queues, what the event does to the state; nothing if it cannot happen |
| `ContinuationProtocol.Session.Run` | frontend/src/frontend.cc:332-417 | for any schedule and any behaviour of application and strategy: the state after it; everything the strategy finds on the way, in order, has been delivered, is on its way, or waits at the agent; every decision taken has everything delivered that was found, there is one decision per request but for one under way, and the session can still end if and only if it could before and the application was not given up |
| `ContinuationProtocol.HangUp` | frontend/src/frontend.cc:372-416 | a concrete run in which the application is given up; it cannot end any more |
| `TuningEvents.SearchStepRuns` | frontend/include/frontend_statemachine.h:236-264 | where a search step takes the state machine, or that it stops it |
| `TuningEvents.TuningStepRuns` | frontend/include/frontend_statemachine.h:236-264 | a tuning step is accepted if and only if analysis is required at most in its first search step and no scenarios are created at most in its last |
| `TuningEvents.AcceptedIff` | frontend/include/frontend_statemachine.h:218-264 | all events are accepted, ending in the final state, if and only if that holds of every tuning step |
| `TuningCounts.RunsTold` | frontend/src/frontend.cc:276-297 | through the whole run, the experiments are run, in order, as often as each has to be until its scenarios are executed |
| `TuningCounts.EventsTold` | frontend/src/frontend.cc:243-323 | each event is issued as often as the answers ask for |
| `TuningDriver.Driver.ProcessEvent` | frontend/include/frontend_statemachine.h:218-227 | an event without a transition ends the program |
| `TuningDriver.Driver.RunExperiment` | frontend/src/frontend.cc:276-305 | an experiment is defined once, a restart considered once, and it is run once more than it has to be repeated |
| `TuningDriver.Driver.RunSearchStep` | frontend/src/frontend.cc:260-314 | issues the events of a search step: one creation of scenarios, an analysis if one is required, one preparation per pool, and each experiment run as often as it has to be |
| `TuningDriver.Driver.RunTuningPlugin` | frontend/src/frontend.cc:243-323 | the nested loops issue exactly the events of the plugin's answers; executed to the end exactly when all tuning steps fit; each event issued as often as the answers ask for, each experiment, in order, run as often as it has to be; search steps are counted through the whole run |
| `RegionRegistry.KeysInjective` | aagent/src/application.cc:314-323 | up to 1000 strings and for lines below 20000, keys are different for different regions, and never 0 |
| `RegionRegistry.KeysUniqueIff` | aagent/src/application.cc:314-323 | keys are unique and never 0 if and only if there are at most 1000 strings and all lines are below 20000 |
| `RegionRegistry.RegionIdInjective` | aagent/src/Region.cc:55-59 | the string id identifies a region whose name holds no star |
| `RegionRegistry.Registry.AddString` | aagent/src/application.cc:286-304 | the string has its old number or the next odd one, the correspondence of strings and numbers is kept, and the waiting loop is never entered |
| `RegionRegistry.Registry.NoClash` | aagent/src/application.cc:348-366 | up to 1000 strings and with lines below 20000, a region's key never leads to another region |
| `RegionRegistry.Registry.AddScorepRegion` | aagent/src/application.cc:427-459 | the region returned is the one asked for if and only if no other sits under its key; a region not made anew is one of the registry's, and within the bounds it is made anew if and only if none with its name, file and line was registered |
| `RegionRegistry.Registry.AlwaysStored` | aagent/src/application.cc:449-456 | within these bounds and without stars in names, storing a new region never aborts |
| `MetricAllocation.PropertyConfigurationManager.MetricOf` | aagent/src/PropertyConfiguration.cc:84-102 | the metric of an expression: its old one, or the next one, or none if there is none left |
| `MetricAllocation.PropertyConfigurationManager.RegisterPropertyConfiguration` | aagent/src/PropertyConfiguration.cc:73-112 | expressions and metrics stay in one-to-one correspondence, each configured in the order of the metrics; a new property fails exactly when it needs more metrics than are left; an expression list is complete in what is returned if and only if the first registration did not fail; otherwise the list stops at the first expression that gets no metric; registering again changes nothing |
| `MetricAllocation.RegisterTwice` | aagent/src/PropertyConfiguration.cc:73-112 | a property with one new expression more than there are metrics: refused at first, and returned with an incomplete list when registered again |
| `MetricAllocation.PropertyConfigurationManager.Clear` | aagent/src/PropertyConfiguration.cc:47-55 | forgets everything and starts over with the first metric |

## Left out

- Regions of call-tree nodes and the search for the valid nodes of a region, their XML form, the mapping of nodes to call-path strings kept beside the tree, tuning results and energy values, and printing.
- Root nodes whose name denotes a parameter: the program would follow the null parent of the root.
- The lists of parameters at the frontend: nodes arrive there without them in the model.
- Messages that reach an empty frontend before any root: the program would follow a null pointer.
- Sorting out duplicates of requests (`sort` and `unique`) and iterating over ordered maps are modelled by visiting members in ascending order; the order of hosts is left open instead, so the result holds for every order.
- `GROUP_PERISCOPE_COUNTER`, which one of the two switches accepts and the other rejects: each metric has one group here, and PAPI sets are a function of the metric.
- What measurements return, subscribers and notifications, waiting for processes, and the text of the requests.
- Averages and standard deviations of a window: they divide by one more than the number of points reduced. `erase`, which changes a copy.
- Rounding of `double`: sums are computed over the reals, so values beyond 2^53 are exact here.
- ParallelRegions.Application.WellFormed: regions do not contain themselves, and the lists of subregions do not change while regions are marked.
- Region types in the registry, and regions added by `addRegion`, which have no key.
- RegionRegistry.Registry.AddScorepRegion: says nothing about the registry after an abort, since the program has ended.
- The quality expressions behind the numbers of expressions, and how an expression is split.
- Buffers of fixed size in the hierarchy (`char[100]`, `char[4000]`) are taken to be large enough, and fan-out and cluster size to be at least 1. Hosts of agents are not modelled beyond the one host name.
- ApplicationStarter.Starter.ClusterByHost: the program visits hosts in the order of their names; the model proves its result for any order.
- CallTree.AgentCallTree.PlaceRecord: asks that no child of the node uses the record's id for another name, where the lookup is misled only by a child that comes before the one of that name (`TreeReplay.LookupByNameIff`).
- Interrupts and commands typed at the frontend: both can end an event loop, also one that would otherwise wait for ever.
- Failing connections, the registry, interactive mode, the fast mode without timers, and hierarchies with more than one direct child: the frontend asks only the first child for another experiment.
- The kinds of properties the frontend tells apart, and what it does with them.
- ClusterTree.ModifyTree: says nothing about lists of parameters. Moved nodes keep their old parent in the program, and clones whose names mention no cluster become regular regions there; the bodies do the same, but only strings, validity and ids are stated.
- Tuning plugins whose loops never end: the answers of a plugin are a finite script.
- The one-state machines of the message handlers and the linear machine of the initialization, scalability analysis, and simple accessors: they keep no state that another part relies on.
