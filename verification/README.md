# A Dafny model of Tethux

Tethux starts Ethernet labs on one host. This project models the parts of it whose
correctness spans several functions or many steps, and proves what those parts
promise. `dafny verify dfyconfig.toml` checks everything.

| files | component | what is proved |
|---|---|---|
| `Workflow.dfy` | CI workflow engine | the depth-first search accepts exactly the acyclic workflows; every accepted workflow is scheduled to the end, dependencies first |
| `Switch.dfy`, `LearningSwitch.dfy` | learning switch, one call at a time | the forwarding database is the latest sighting of each address; every target gets the ingress bytes once |
| `SwitchInterleaving.dfy` | learning switch, lock region by lock region | under every interleaving every attached port has a reader, every lookup is sound, every looked-up frame is written once per port found, and the forwarding database is the latest sighting |
| `Topology.dfy`, `Views.dfy`, `Numerals.dfy`, `LuaBuilder.dfy` | topology validation and Lua builder | built topologies can fail validation only on the ID or a spec |
| `Allocation.dfy` | UDP ports and interface names | one listener per link end, distinct names of at most 15 bytes |
| `Realization.dfy`, `LocalRun.dfy` | starting and closing a topology | when exactly a start succeeds; every resource is tracked exactly once or gone, for all failures; a close tries everything |
| `Leases.dfy` | storage leases, container and domain managers | every lease is released once or returned once |
| `RouterConfig.dfy`, `Dynamips.dfy` | router adapter and its manager | exactly the native calls a configuration asks for; no VM or NIO is lost, no lease is released under a live router, no two routers share a directory |
| `Endpoint.dfy` | packet endpoint life cycle | one worker, one native caller, silence after close, a `Stop` that is never stuck, and `Stop`, `Restart` and `Delete` that end as they should, in every interleaving |
| `Operation.dfy` | asynchronous operations | the first end counts; subscribers see exactly the events after they subscribed, and always settle |
| `Store.dfy`, `Put.dfy`, `TreeCopy.dfy` | local store | all-or-nothing `Put`, tree copy as an overlay, and when exactly each succeeds |
| `Shell.dfy` | shell printing | a POSIX lexer reads back exactly the original words |

Providers, native handles, readers, the kernel and the filesystem are oracles: each
call may fail or not, without any pattern being excluded. Ghost fields record what
exists, which deletes were tried, and how many calls failed (`faults`), so that a
contract can say that an operation succeeds if and only if its inputs allow it and no
call failed. Contexts appear as choices to stop. A `StartContainerBridge` call and every
provider create call that returns an error and no object are assumed to have created
nothing.

## Where the code differs from what is said about it

Each of these is stated with the condition under which the promise does hold, and
with an input for which it does not.

- `Close` of a running topology returns nil and still leaves `providers` filled: the map
  is empty afterwards exactly when no node that was tracked is a container
  (`LocalRun.StartAndClose`, after a successful start as well as after a failed one;
  `LocalRun.ProvidersOutliveClose` is a run with one container). `ContainerProvider`
  goes on answering for nodes that are gone (`topology/local/provider.go:31-35`).
- `Start` returns a nil handle only when nothing *tracked* is left. Nothing at all is left
  exactly when no `CreateContainer` call returned a container together with an error
  (`LocalRun.Start`); `LocalRun.StrayContainerIsLeft` is a start in which one does. The
  moby and containerd providers of the repository return no container with an error
  (`virt/container/moby/moby.go:183-190`, `virt/container/containerd/containerd.go:301`),
  so only a provider supplied by the caller can cause this; the container manager allows
  for such providers (`virt/container/manager.go:143-146`).
- With interleaved readers an FDB entry can point to a removed port. This happens
  exactly when a reader learns after its port was removed
  (`SwitchInterleaving.EntriesDangleOnlyAfterLateLearning`, with a concrete schedule in
  `LateLearningHappens`).
- Event handlers are said to receive an immutable copy (`bridge/engine.go:91`). Each gets
  a copy of the buffer as the previous handler left it. All of them are given the emitted
  frame exactly when every handler but the last leaves its buffer alone
  (`LearningSwitch.HandlersSeeTheFrame`; `SecondHandlerSeesTheChange` is a pair of
  handlers that do not). The frame that is forwarded is out of their reach.
- A failed `Put` leaves its target as it was, unless the target was absent, the temporary
  file was created under the target's own name and could not be removed (`Puts.Put`,
  with `Puts.FailedPutShows` as such a call). A caller can tell beforehand: a target that
  exists, or whose name does not begin with `.tethux-`, is never affected, and any other
  target of an accepted request can be (`Puts.SomeHostExposes`).
- `Copy` refuses a source that equals its destination, but compares the references and
  not the places they name. Different references to one place, such as `a` and `./a`, pass,
  and an overwriting copy onto itself empties every regular file below
  (`TreeCopies.SelfCopyEmpties`, `TreeCopies.AliasedCopyEmpties`). Contents are lost
  exactly when there is a regular file that has any (`TreeCopies.MirrorsUnlessSpecial`).
- Deleting what a failed router creation left can delete a router of another run: exactly
  when the adapter is shared, already has a router of that node ID, and the new lease could
  not be given back at once (`Dynamips.StateManager.CreateThenDelete`, with two such runs
  in `Dynamips.SecondRunDeletesTheFirst`).
- A tree copy that overwrites writes *into* a special file that it finds where the
  source has a regular one. The destination mirrors the source exactly when there is no
  such file (`TreeCopies.MirrorsUnlessSpecial`, example in `SpecialFileIsKept`).

## Model

| member | source | states |
|---|---|---|
| `Workflows.ValidateWorkflow` | internal/ci/framework.go:285-338 | accepts exactly the workflows with a name, complete and distinctly named steps, known dependencies and no dependency cycle, for any visiting order |
| `Workflows.CheckNames` | internal/ci/framework.go:289-298 | accepts exactly complete, distinctly named steps, and yields the set of their names |
| `Workflows.CheckDependencies` | internal/ci/framework.go:299-308 | an error only for an unknown dependency or a cycle; success means that all dependencies are known and none is the step itself |
| `Workflows.Search.Visit` | internal/ci/framework.go:315-331 | terminates; success finishes the node after everything it depends on, an error comes with an actual cycle |
| `Workflows.OrderExcludesCycles` | internal/ci/framework.go:309-336 | a finishing order that covers every step rules out cycles |
| `Workflows.SweepSplits` | internal/ci/framework.go:109-139 | one round splits the pending steps without loss into steps reached and steps kept; each reached step comes after everything it depends on, each kept one still waits for something |
| `Workflows.RoundMakesProgress` | internal/ci/framework.go:106-141 | in an acyclic workflow every round with pending steps reaches one |
| `Workflows.WalkMeetsItself` | internal/ci/framework.go:309-336 | a finite set of steps in which each depends on another one of the set contains a cycle |
| `Workflows.PlanIsComplete` | internal/ci/framework.go:98-144 | the rounds together reach every step exactly once, each after every step it names as a dependency |
| `Workflows.RecordMeaning` | internal/ci/framework.go:114-135 | skipped are exactly the steps not marked `Always` that are reached after a failure, none under `ContinueOnError`; the error is that of the first failure |
| `Workflows.PlanKeepsPromises` | internal/ci/framework.go:98-144 | for an accepted workflow the recorded results meet all of this together |
| `Workflows.Round` | internal/ci/framework.go:107-140 | the in-place compaction keeps exactly the waiting steps, in order, at the front of the same array |
| `Workflows.RunAccepted` | internal/ci/framework.go:102-143 | the round loop terminates with the record of the whole plan |
| `Workflows.Run` | internal/ci/framework.go:98-144 | rejects what validation rejects; otherwise every step is recorded once, the record of each dependency stands before the record of the step, skips and error are the promised ones, and unresolved dependencies are never reported |
| `Ordering.SortSorts` | bridge/engine.go:647-669 | the sorted identifiers are ascending and the same multiset |
| `Ordering.AtMostIsLexicographic` | bridge/engine.go:647-669 | the order of identifiers is the lexicographic one: a prefix comes first, otherwise the first difference decides |
| `SwitchSpec.HeaderReads` | bridge/engine.go:477-478 | a frame begins with the destination, followed by the source |
| `SwitchSpec.FloodReachesTheOthers` | bridge/engine.go:609-645 | flooding reaches every attached port but the ingress, once, in ascending order |
| `SwitchSpec.LookupIsSound` | bridge/engine.go:566-607 | targets are distinct attached ports without the ingress, and exactly those that the address class, the FDB and the flood option call for, dangling entries included |
| `SwitchSpec.KnownUnicastGoesThere` | bridge/engine.go:588-601 | a unicast address known on another attached port goes to that port only |
| `SwitchSpec.GroupGoesEverywhere` | bridge/engine.go:566-587 | an address with the group bit, broadcast included, reaches exactly the other ports, whatever the database and the flood option say |
| `SwitchSpec.UnknownUnicastFloods` | bridge/engine.go:588-607 | any other unicast address reaches exactly the other ports, or none if flooding is off |
| `SwitchSpec.ReplayIsLatest` | bridge/engine.go:521-564 | folding learning and removal over any history yields p for a MAC exactly when the latest teaching frame entered on p and p was not removed since |
| `LearningSwitch.FdbIsLatest` | bridge/engine.go:446-564 | the same for the database of a switch in any state its operations reach |
| `LearningSwitch.RemovePortOrder` | bridge/engine.go:766-780 | the filter that overwrites the slice it reads removes the target and keeps the rest in order |
| `LearningSwitch.WithoutKeepsTheOthers` | bridge/engine.go:766-780 | filtering keeps exactly the other identifiers, without duplicates |
| `LearningSwitch.DeleteFdbEntries` | bridge/engine.go:782-797 | deleting while iterating, in any order, removes exactly the entries of the port |
| `LearningSwitch.Switch.AttachPort` | bridge/engine.go:128-174 | keeps the order/ports/FDB invariants; a duplicate changes nothing, a new port is appended |
| `LearningSwitch.Switch.RemovePort` | bridge/engine.go:177-222 | keeps the invariants; the port leaves `ports`, `order` and every FDB entry, even when its close fails |
| `LearningSwitch.Switch.Learn` | bridge/engine.go:521-564 | only a broadcast source is skipped; an event is emitted exactly when the entry changes |
| `LearningSwitch.Switch.EgressPorts` | bridge/engine.go:566-607 | computes the specified targets |
| `LearningSwitch.Switch.AllPortsExcept` | bridge/engine.go:609-645 | computes the specified flood |
| `LearningSwitch.Switch.EmitFrame` | bridge/engine.go:700-760 | each handler sees a copy of what the previous one left; the caller's frame is untouched |
| `LearningSwitch.HandlersSeeTheFrame` | bridge/engine.go:738-760 | every handler is given the emitted frame if and only if every handler but the last leaves its buffer as it got it |
| `LearningSwitch.SecondHandlerSeesTheChange` | bridge/engine.go:738-760 | a pair of handlers of which the second is given what the first wrote, and not the frame |
| `LearningSwitch.Switch.Capture` | bridge/engine.go:671-698 | each sink receives the frame's bytes, whatever the other sinks do with theirs |
| `LearningSwitch.Switch.Forward` | bridge/engine.go:486-518 | one write of the ingress bytes per target, in order, each with its egress or drop event |
| `LearningSwitch.Switch.Deliver` | bridge/engine.go:492-517 | one target gets one write of the ingress bytes; a failed write drops the frame for that target only |
| `LearningSwitch.Switch.ProcessFrame` | bridge/engine.go:446-519 | a full frame is learned and written once to every target with the matching events; a short one causes one drop event and no change |
| `LearningSwitch.DeliveriesAreCounted` | bridge/engine.go:486-518 | egress plus dropped events equal the number of targets |
| `SwitchInterleaving.OrderAlwaysMatches` | bridge/engine.go:128-222 | under every interleaving `order` lists exactly the attached ports, once |
| `SwitchInterleaving.EveryPortIsRead` | bridge/engine.go:225-266 | in every run each port that is attached while the switch is started has a reader of that start |
| `SwitchInterleaving.UndisturbedReaderSwitches` | bridge/engine.go:446-519 | a reader that nobody disturbs does with a frame what the switch does with it in one piece: records the source, looks up the destination, writes once per port found and reads on |
| `SwitchInterleaving.EveryLookupIsSound` | bridge/engine.go:446-484 | under every interleaving a lookup returns distinct attached ports without the ingress, ascending when flooding, and exactly the ones called for |
| `SwitchInterleaving.DeliveryIsWhatWasFound` | bridge/engine.go:481-486 | a lookup opens a delivery of its frame to the ports it found, and no later step changes what the delivery is about |
| `SwitchInterleaving.EveryDeliveryIsWritten` | bridge/engine.go:486-518 | under every interleaving, whatever is removed meanwhile, a looked-up frame is written once to each port found, in that order; all are written when the reader moves on |
| `SwitchInterleaving.FdbIsLatestLearned` | bridge/engine.go:521-564 | under every interleaving the database maps a MAC to p if and only if the latest frame learned from it entered on p and p was not removed since |
| `SwitchInterleaving.EntriesDangleOnlyAfterLateLearning` | bridge/engine.go:521-564 | FDB entries always point to attached ports if and only if no reader learns after its port was removed |
| `SwitchInterleaving.LateLearningHappens` | bridge/engine.go:382-435 | a schedule of five steps that leaves a dangling entry |
| `Topologies.Validate` | topology/validate.go:15-73 | accepts exactly the valid topologies and names the part that failed |
| `Topologies.ValidateNode` | topology/validate.go:75-160 | accepts exactly nodes with an ID, a valid spec and distinct named ports of a known kind |
| `Topologies.ValidateNodes` | topology/validate.go:24-40 | accepts exactly distinct valid nodes and indexes them by ID |
| `Topologies.FindPort` | topology/validate.go:228-252 | finds a port exactly when the node has one of that ID |
| `Topologies.ValidateLink` | topology/validate.go:162-226 | accepts exactly links between two different existing ports of the link's medium |
| `Topologies.ValidateLinks` | topology/validate.go:42-66 | accepts exactly distinct valid links that form a matching on ports |
| `Topologies.LinksNext` | topology/validate.go:42-66 | the checks against the seen-maps are equivalent to extending a valid list |
| `Views.ValidateViews` | topology/validate.go:254-324 | accepts exactly distinct views that place existing nodes and links, each once, at finite positions |
| `LuaBuilder.Builder.Node` | topology/lua/builder.go:36-59 | adds a node exactly for a new ID and a spec, else changes nothing; the index maps stay in agreement |
| `LuaBuilder.Builder.Port` | topology/lua/builder.go:61-115 | returns the existing port of the same medium or appends one, exactly when allowed; a refusal changes nothing |
| `LuaBuilder.PortOf` | topology/lua/builder.go:61-115 | the same for any handle: one without a builder gets nothing, a refusal leaves every list and index map alone |
| `LuaBuilder.Builder.PortKind` | topology/lua/validate.go:8-26 | the lookup through both index maps finds the port's own medium, exactly for handles of this builder |
| `LuaBuilder.Builder.Link` | topology/lua/builder.go:117-153 | links exactly two unused different ports of one medium, under a new ID; a refusal changes nothing |
| `LuaBuilder.LinkNamesDiffer` | topology/lua/builder.go:146-149 | generated link IDs are distinct |
| `LuaBuilder.BuiltIsStructured` | topology/lua/builder.go:36-153 | agreement of the maps implies everything validation asks of nodes, ports and links |
| `LuaBuilder.BuilderTopologiesAreStructured` | topology/validate.go:15-252 | a built topology is valid if and only if it has an ID and valid specs |
| `LuaBuilder.Builder.Finish` | topology/validate.go:15-73 | validating a built topology fails only on the ID or a spec |
| `Allocation.ValidateSupport` | topology/local/container.go:108-154 | accepts exactly the topologies whose workloads have a provider, whose ports and links are Ethernet with an MTU of 0 or at least 68, whose container ports are interface names, and whose two ports per link lie between the base port and 65535 |
| `Allocation.CountDomainEnds` | topology/local/domains.go:106-113 | going port by port, a domain binds each of its link ends once |
| `Allocation.CountRealizedEnds` | topology/local/shitnet.go:23-36 | each realizer binds every link end on its node exactly once, although an endpoint stops at the first it finds |
| `Allocation.EveryEndOnce` | topology/local/container.go:156-260 | across the four realizers every link end is bound exactly once |
| `Allocation.ListenersAreWellBound` | topology/local/container.go:246-247 | one listener per link end, its remote is the other end's local port, and local ports are distinct within 1..65535 |
| `Allocation.NamesFit` | bridge/link.go:95-101 | interface names have at most 15 bytes and peer names are never cut |
| `Allocation.NamesDiffer` | topology/local/container.go:248-252 | host ends, peers and domain bridges of one run never share a name |
| `Realization.Retrack` | topology/local/container.go:38-51 | changing what one node holds keeps every resource in exactly one place |
| `Realization.TrackNode` | topology/local/container.go:209-211 | a newly tracked container, endpoint, router or domain owns exactly its new resource |
| `Realization.TrackInDomain` | topology/local/domains.go:94-121 | a domain that gains a link, switch, lease or domain owns exactly one more resource |
| `Realization.ForgetBridge` | topology/local/container.go:287-294 | deleting a slice element in place forgets exactly that bridge |
| `Realization.ForgetNode` | topology/local/container.go:295-336 | forgetting a node forgets exactly what it held |
| `Realization.ShrinkDomain` | topology/local/domains.go:173-207 | a partly closed domain owns exactly what was not deleted |
| `Realization.CloseDomain` | topology/local/domains.go:173-207 | tries switches, domain, leases, links and directory in this order, each at most once, and stops where the source does; an error if and only if one of these deletes failed, which is if and only if something is left |
| `LocalRun.Running.ObtainContainer` | topology/local/container.go:197-208 | creates a container, pulling a missing image once; a container returned with an error stays behind untracked |
| `LocalRun.Running.StartContainer` | topology/local/container.go:178-224 | succeeds exactly when no call failed; a created container is tracked before it is started, and every outcome keeps the books |
| `LocalRun.FirstEndOn` | topology/local/shitnet.go:23-27 | finds the first link end on the node, if there is one |
| `LocalRun.Running.StartEndpoint` | topology/local/shitnet.go:14-51 | succeeds exactly when the node has a link end and no call failed; tracks the endpoint and binds the port pair of that end |
| `LocalRun.NativeMappings` | topology/local/dynamips.go:87-93 | accepts exactly mappings with distinct IDs and indexes them |
| `LocalRun.RouterInterfaces` | topology/local/dynamips.go:94-113 | succeeds if and only if every link end on the node has a mapping and a port pair, and then lists, for each, an interface with that port pair and the mapped slot and port |
| `LocalRun.Running.StartRouter` | topology/local/dynamips.go:35-129 | succeeds exactly when the interfaces can be listed and no call failed, and then tracks the router and has bound every link end on the node; every outcome keeps the books |
| `LocalRun.Running.CreateRouter` | topology/local/dynamips.go:115-126 | tracks whatever the manager returned before the error is looked at |
| `LocalRun.Running.StartDomain` | topology/local/domains.go:40-127 | keeps the books at every failure point, names bridges by the run's counter, binds every link end on its ports |
| `LocalRun.Running.MakeDirectory` | topology/local/domains.go:41-49 | the directory is tracked as soon as it exists, whatever fails next |
| `LocalRun.Running.MakeBridge` | topology/local/domains.go:88-97 | a bridge name is used at most once, also after a failure |
| `LocalRun.Running.ConnectDomainPort` | topology/local/domains.go:106-114 | connects exactly the link ends on one port |
| `LocalRun.Running.CreateDomain` | topology/local/domains.go:116-124 | keeps leases and domain whichever of them the manager returned |
| `LocalRun.Running.StartNodes` | topology/local/container.go:159-225 | succeeds exactly when every node is ready and no call failed; then the maps list exactly the topology's nodes by kind, and the realizers have bound their ends |
| `LocalRun.Running.StartBridges` | topology/local/container.go:226-259 | the link loop bridges exactly the ends that no realizer has connected |
| `LocalRun.Running.CloseBridges` | topology/local/container.go:287-294 | tries every bridge once, from the last, also after a failure; an error if and only if a close failed, which is if and only if a bridge stays |
| `LocalRun.Running.CloseNodes` | topology/local/container.go:295-336 | tries every tracked node once, from the last, also after a failure; an error if and only if a delete failed, which is if and only if a node stays; this rests on distinct IDs |
| `LocalRun.Running.Close` | topology/local/container.go:282-338 | tries all bridges and then all nodes, in reverse order; returns an error if and only if a delete failed, which is if and only if something stays tracked, and otherwise empties every map but `providers` |
| `LocalRun.Start` | topology/local/container.go:59-106 | succeeds if and only if the topology is valid, supported and startable (endpoints linked, router ports mapped once, bridge names sufficient) and no call failed; then the handle owns everything and listeners are well bound; nil handle: nothing tracked is left, and nothing at all if and only if no create call returned a container with an error; handle with error: something tracked is left; the tracked nodes are the first ones of the topology; interface names are distinct and short in every outcome |
| `LocalRun.StrayContainerIsLeft` | topology/local/container.go:197-208 | a start whose provider answers with a container and an error returns a nil handle and leaves the container |
| `LocalRun.ProvidersOutliveClose` | topology/local/container.go:282-338 | a topology of one container that starts and closes when no call fails, and whose `providers` is not empty afterwards |
| `LocalRun.StartAndClose` | topology/local/container.go:282-338 | a startable topology on a host where no call fails starts and closes; after any start and a nil-error close nothing tracked exists, and `providers` is empty if and only if no tracked node is a container |
| `Leases.RetryDrainsSurvivors` | storage/release.go:10-22 | releasing the survivors again leaves what one pass with the combined outcomes leaves, in order |
| `Leases.SurvivorsAreSome` | storage/release.go:10-22 | survivors are a duplicate-free part of the leases |
| `Leases.ReleaseResources` | storage/release.go:10-22 | tries every lease once, in order, compacts the survivors to the front of the same array and clears its tail |
| `Leases.Manager.Release` | virt/container/manager.go:114-125 | the resources keep exactly the survivors; an error if and only if a release failed, which is if and only if there are any |
| `Leases.Manager.Rollback` | virt/domain/manager.go:136-144 | every lease is released or returned to the caller; nothing is returned exactly when no release failed |
| `Leases.Manager.Prepare` | virt/container/manager.go:32-111 | succeeds exactly when no call failed and every lease lies on a filesystem path; then there is one lease and mount per volume, in order and of that volume; for every failure pattern the leases gained are exactly the ones returned |
| `Leases.Manager.Create` | virt/domain/manager.go:110-133 | the same up to the provider's create call, whose node is returned with the leases, or without which they are rolled back |
| `RouterConfigs.ValidateConfig` | virt/emulator/dynamips/validate.go:12-86 | accepts exactly configurations with valid names, sizes, platform and console, and with distinct slots, interface IDs and native ports |
| `RouterConfigs.ValidateInterfaces` | virt/emulator/dynamips/validate.go:67-84 | accepts exactly interfaces with IPv4 UDP endpoints whose IDs and card ports are distinct |
| `RouterConfigs.CollectSettings` | virt/emulator/dynamips/create.go:80-124 | the native settings are exactly those the configuration asks for, in the order in which they are applied |
| `Dynamips.Adapter.ConfigureRouter` | virt/emulator/dynamips/create.go:80-143 | succeeds exactly when the memory fits and no native call failed; then the native calls are the settings, the cards, and for every interface the creation of an NIO on its UDP pair and its attachment to its slot and port, and the router's map has one NIO per interface ID; at every failure point all NIOs allocated so far are in the map, none overwritten |
| `Dynamips.Adapter.CleanupRouter` | virt/emulator/dynamips/create.go:145-163 | tries the VM first, then, if it is gone, every NIO, each once; what fails stays in the router; an error if and only if a delete failed |
| `Dynamips.Adapter.CreateRouter` | virt/emulator/dynamips/create.go:19-78 | each outcome has its exact condition; success creates the VM and makes exactly the native calls the configuration asks for, and tracks a router that holds the VM and one NIO per interface; a VM or NIO exists if and only if a tracked router holds it; without a cleanup error a failure leaves nothing; no two routers share a name, an instance or a resolved state directory |
| `Dynamips.Adapter.Delete` | virt/emulator/dynamips/lifecycle.go:68-84 | tries all that the router holds, and forgets it exactly when no native call failed |
| `Dynamips.Adapter.Close` | virt/emulator/dynamips/lifecycle.go:87-98 | tries every router; an error if and only if a native call failed, and otherwise nothing is left |
| `Dynamips.StateManager.Release` | virt/emulator/dynamips/manager.go:60-73 | clears the lease exactly when it was released |
| `Dynamips.StateManager.Prepare` | virt/emulator/dynamips/manager.go:30-56 | a lease exactly for a node and a state source when no storage call failed and its location is an absolute path; the lease gained is exactly the one returned |
| `Dynamips.StateManager.Create` | virt/emulator/dynamips/manager.go:77-99 | succeeds exactly when the lease is usable, the adapter can create the router in it and no call failed; the router works in the resolved location of its lease; the lease is released only if no router remains that uses it, else it is returned |
| `Dynamips.StateManager.Delete` | virt/emulator/dynamips/manager.go:102-114 | succeeds exactly for the lease's own node when no call failed; the lease is kept as long as the router is tracked; no other router is removed |
| `Dynamips.StateManager.CreateThenDelete` | virt/emulator/dynamips/manager.go:77-114 | deleting the resources of a failed creation removes a router if and only if one of that ID was there before |
| `Dynamips.SecondRunDeletesTheFirst` | topology/local/dynamips.go:115-123 | two runs on one adapter of which the second deletes the router of the first |
| `Endpoints.InvAlways` | virt/emulator/shitnet/adapter.go:80-152 | the endpoint invariants hold after every sequence of steps |
| `Endpoints.EveryRunIsSafe` | virt/emulator/shitnet/adapter.go:107-152 | at most one live worker and one native caller per endpoint, none once the stack is closed; a recorded failure is the latest run's |
| `Endpoints.PublishingWorkerIsCurrent` | virt/emulator/shitnet/adapter.go:107-152 | a worker that comes to publish is the latest run and can do so at once; the endpoint is then stopped, with this worker's failure recorded if and only if it failed before its context was done |
| `Endpoints.ClosedStackStaysSilent` | virt/emulator/shitnet/adapter.go:284-300 | after `Delete` closed a stack no continuation enters it |
| `Endpoints.OnlyDeleteCloses` | virt/emulator/shitnet/adapter.go:188-220 | in a run without `Delete` no stack is closed and no call is about to close one |
| `Endpoints.NodeStaysUntilDeleted` | virt/emulator/shitnet/adapter.go:284-300 | a node keeps its open endpoint until it is deleted itself, whatever happens to the others |
| `Endpoints.CallEndsAsItsKind` | virt/emulator/shitnet/adapter.go:187-300 | whatever the workers do meanwhile, a call that is not given up ends as its kind says: `Stop` with the worker joined and the stack open, `Restart` with a new worker if and only if the port binds, `Delete` with the stack closed and the node gone, and nothing else about the nodes changes |
| `Endpoints.StartAddsOneWorker` | virt/emulator/shitnet/adapter.go:80-105 | `Start` adds a worker if and only if none is alive and the port binds, and changes nothing else |
| `Endpoints.FailureIsNoted` | virt/emulator/shitnet/adapter.go:107-152 | a worker has failed exactly when one of its own steps did |
| `Endpoints.HealthyWorkerServes` | virt/emulator/shitnet/adapter.go:107-152 | in every run a worker that has neither failed nor been cancelled is in its receive loop, and its endpoint counts as running |
| `Endpoints.StopIsNotStuck` | virt/emulator/shitnet/adapter.go:188-210 | a call that waits for a worker can count on it: the worker can move, and moves at most seven times whatever else happens |
| `Endpoints.JoinedStopSucceeds` | virt/emulator/shitnet/adapter.go:204-209 | with no worker to wait for, the stop succeeds, and its call returns, starts the endpoint again or closes its stack, whichever it was made for |
| `Operations.EveryRunIsFaultless` | storage/local/operation.go:151-256 | in every interleaving no broadcast blocks and no channel is closed twice or sent to after its close |
| `Operations.SubscriberSeesEverything` | storage/local/operation.go:151-193 | an uncancelled subscriber has read a prefix of the events after it subscribed, and all of them when it meets the close |
| `Operations.SettledSubscriberHasAll` | storage/local/operation.go:165-190 | once the operation has ended and no step is left, the subscriber has everything and the close |
| `Operations.EverySubscriberSettles` | storage/local/operation.go:165-190 | after the end a subscription takes a bounded number of steps whatever else happens, and can take one as long as it has not settled |
| `Operations.EventsAreStartThenEnd` | storage/local/operation.go:195-249 | at most a start and one terminal event take effect, in that order |
| `Operations.TerminalStateIsNeverLeft` | storage/local/operation.go:195-249 | no continuation changes an ended operation or adds an event |
| `Operations.FinishDecides` | storage/local/operation.go:210-249 | in every run the first `Finish` decides how the operation ended, announces exactly that and releases all subscribers; a later one changes nothing |
| `Operations.StartAnnounces` | storage/local/operation.go:195-208 | in every run `Start` sets a pending operation running and announces it, and does nothing otherwise |
| `Operations.StatusIsOutcome` | storage/local/operation.go:195-249 | in every run the status is how the first `Finish` ended it, else running once it was started, else pending |
| `Operations.CancelledSubscriberIsReleased` | storage/local/operation.go:165-190 | a cancelled subscription with no step left has had its channel closed and is no longer registered |
| `Stores.CopyContext` | storage/local/local.go:1139-1173 | succeeds if and only if the stream has an end and no read, write or look at the context fails, with all of it written; otherwise exactly a prefix is |
| `Stores.Store.MkdirAll` | storage/local/local.go:210-212 | adds only missing directories on the way; succeeds if and only if nothing is in the way and each missing one can be made |
| `Puts.Fill` | storage/local/local.go:230-244 | touches nothing but the temporary file; succeeds if and only if the stream has an end and no call failed, and then the file holds the whole stream and the mode |
| `Puts.Put` | storage/local/local.go:186-251 | succeeds if and only if the request is accepted, the temporary file can be made, the stream has an end, no directory is in the target's place and no call failed; then the target holds the whole stream, for every chunking, with the mode asked for or 0644; on failure it is unchanged if and only if no temporary file of its own name was left; nothing else differs but added parents and a temporary file that could not be removed |
| `Puts.SomeHostExposes` | storage/local/local.go:210-228 | a failure can show at the target if and only if the request is accepted, the target is absent and named like a temporary file, and no file is in the way of its parents |
| `Puts.FailedPutShows` | storage/local/local.go:219-236 | a call that fails and leaves its file at the target |
| `TreeCopies.CopyFile` | storage/local/local.go:1271-1328 | succeeds if and only if the parents can be made, what is at the place may be overwritten and no call failed; copies one file or leaves everything but its place unchanged |
| `TreeCopies.PrepareDir` | storage/local/local.go:1199-1233 | creates or accepts the directory, exactly when that is possible, and sets its mode |
| `TreeCopies.ChildIsCopied` | storage/local/local.go:1240-1258 | copying one more child extends the overlay by exactly its subtree |
| `TreeCopies.ChildDoesNotFit` | storage/local/local.go:1240-1258 | a child that cannot be copied half-way through is one that stood in the way from the start |
| `TreeCopies.CopyPath` | storage/local/local.go:1175-1328 | terminates; succeeds if and only if nowhere in the tree something is in the way or a directory cannot be made, and no call failed; on success the destination is its old tree overlaid with the source, or, for a tree copied onto itself, every regular file is emptied; whatever happens, nothing but covered places and added parents changes and nothing is removed |
| `TreeCopies.CopyKeepsSource` | storage/local/local.go:1175-1328 | the source survives, entry by entry |
| `TreeCopies.CopyIsIdempotent` | storage/local/local.go:1175-1328 | copying again changes nothing more |
| `TreeCopies.MirrorsUnlessSpecial` | storage/local/local.go:1276-1303 | the destination mirrors the source if and only if no special file is in the way and no file with contents was copied onto itself |
| `TreeCopies.SpecialFileIsKept` | storage/local/local.go:1276-1303 | a tree for which it does not |
| `TreeCopies.CleanKeepsPaths` | storage/local/local.go:1082-1098 | every path is what its own key cleans to |
| `TreeCopies.CleanRules` | storage/local/local.go:1082-1098 | at any place of a key empty components and dots count for nothing, a name and the way up from it cancel out, and a way up from the root leads out for good |
| `TreeCopies.PathForNames` | storage/local/local.go:1073-1098 | every place but the root can be named by its provider and its own key; a reference names a place of its own provider only, never the root, and never by an absolute key |
| `TreeCopies.Copy` | storage/local/local.go:727-838 | refuses equal references, keys that name no place, mismatched kinds and a special file at the destination, without any change; otherwise succeeds and copies exactly as the path copy |
| `TreeCopies.SelfCopyEmpties` | storage/local/local.go:1276-1326 | a tree copied onto itself keeps its entries and loses the contents of every regular file, and nothing else changes |
| `TreeCopies.AliasedCopyEmpties` | storage/local/local.go:738-744 | `a` copied to `./a` succeeds when no call fails, and empties the file |
| `Shell.JoinRoundTrip` | cmd/virt/temp_entry_point.go:213-226 | lexing the joined line yields exactly the original arguments |
| `Shell.JoinIsInjective` | cmd/virt/temp_entry_point.go:213-226 | different argument lists have different lines |
| `Shell.ShellJoin` | cmd/virt/temp_entry_point.go:213-219 | the loop prints a line that lexes back |
| `Shell.QuotedBody` | cmd/virt/temp_entry_point.go:221-226 | inside single quotes the text is read back character by character, quotes included |
| `Shell.QuoteUnlessSafeRoundTrip` | internal/ci/framework.go:259-269 | bare or quoted, the printed value lexes back to one word |
| `Shell.BareIffHarmless` | internal/ci/framework.go:259-269 | printed bare are exactly the words of letters, digits and `_@%+=:,./-`, the empty one aside |

## Left out

- Container, hypervisor and emulator daemons, netlink, namespaces and sockets: only their success or failure appears.
- Step processes, `sudo` and SSH: the outcome of a step is an arbitrary function of its name.
- Error texts, logging, timestamps, latency and loss: they decide no branch of what is proved. Only error categories that steer a branch are kept.
- TOML and Lua interpretation: the model starts from the builder calls and the topology value.
- `Running`'s maps and slices are one value, `Holdings`, that its methods replace; the routers of the adapter and a domain's resources are values inside such maps. Aliasing of these records is not modelled.
- Endpoints, operations and the interleaved switch are step relations over values: goroutines, mutex regions and channel operations are steps, not objects.
- The container and the domain manager share one model, `Leases.Manager`; they differ only in names.
- Stores.CopyContext: a call that never returns, on a reader that never ends, has no result to describe; every call that returns has read finitely many chunks and is covered.
- Topologies.ValidateNode: the IP and MAC parsers belong to Go's library; the model starts from what they return.
- Readers of the switch that are told to stop may go on in the interleaved model, which allows more runs than the code has.
- Errors of closing the two sockets when a domain connection fails half-way are part of the all-or-nothing assumption.
- Symbolic links in the store, and copies between nested paths.
- LocalRun.Start: the host serves one run; what a second run on the same router adapter can do is stated in `Dynamips.StateManager.CreateThenDelete`.
- Reserved words, assignments and aliases in shell input: they do not change how a line splits into words.
- Moving, listing and preparing store objects, and conditional writes, which the local store refuses.
