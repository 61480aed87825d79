# Valkey operator: verified model

A Dafny model of the parts of the Valkey operator that decide things: the Go controller
(`internal/controller`) and the C module that the Valkey servers load (`server`). `dafny verify
dfyconfig.toml` checks the whole project.

Five parts are modelled.

- **CLUSTER NODES.** Four Go parsers and several C scanners read the same text. `NodesFormat` prints
  records as a Valkey node does; parsing gives them back, and the scanners agree with the parser
  (`ClusterNodes`, `NodesFormat`, `NodesProjection`, `ClusterSafe`, `SlotScan`).
- **The topology push.** Go prints a JSON payload, C reads it with a hand-written scanner over fixed
  buffers and sends MEET and REPLICATE (`TopologyPayload`, `PayloadRoundTrip`, `TopologySet`,
  `TopologyFixpoint`).
- **The replica allocator.** The pick of a primary, the assignment loop that reads the cluster again
  before each assignment, and every push on its way through the printed payload, the C scanner and
  the pod's own view (`Allocator`, `Reintegration`, `Assignment`).
- **Reconcile passes.** The annotations of the resource are the operator's only memory. Each step is
  an imperative method on the resource, proved equal to a function of the state; theorems over whole
  runs are proved about those functions (`Annotations`, `RecoveryTimer`, `Aggregation`, `Bootstrap`,
  `ClusterTopology`, `StaleNodes`, `CrashLoop`, `PersistedTimer`, `Reconcile`, `Runs`, `PushSpacing`,
  `ResetSpacing`, `RecoveryProgress`).
- **Election and conditions.** The choice of a replica for a failing primary, and the history that
  the condition list records (`Election`, `Conditions`).

`Text`, `Counting`, `Order` and `Options` are libraries.

## Modelling decisions

- Text is one character per byte. A `const char *` is the text it points at: `*p` is the first
  character, or the terminating zero at the end. Buffers that C fills in place are arrays.
- A pass starts from a fresh read of the resource, so it sees the operator's own accepted writes. A
  patch sends the difference between the copy and its base. If it is accepted, the copy takes over the
  server's annotations; whether the copy keeps annotations that the server does not have is left open,
  and every theorem holds either way. If it is rejected, nothing changes on the server.
- Times are nanoseconds. Stamps are printed without fractional seconds (section 5.6 of RFC 3339), so
  they lose up to a second; every bound of N seconds is therefore proved as more than N - 1 seconds.
- Answers of pods, API results and clock readings are inputs. Answers that arrive on a channel are a
  sequence in the order of arrival.
- Scores in the election are exact reals.
- The final status write of a pass goes to the status subresource, which does not change annotations.

## What turned out false

Each comes with the exact condition and with an input on which it fails.

- The threshold of two remaining primaries protects a majority for up to three primaries and for no
  larger number (`MajorityExactly`, `MajorityLost`); it does not scale, although the comment in
  server/cluster_safe.c:205-207 suggests it.
- At weight 0 the zone-aware election is the election by lag exactly when some offset is positive or
  the first arrival has answered with offset 0 (`WeightZeroIsLag`, `WeightZeroDiffers`).
- The reset cooldown does not separate all resets. One pass resets twice exactly when it forces a
  reset that the cooldown does not stop and finds no Job (`ResetTwice`, `ResetTwiceHappens`). Over
  runs it separates resets as long as no pass drops the record (`ResetsSpaced`); `DropsExactly` says
  which passes do, and `DroppedRecordResets` and `BypassResets` that no bound holds behind one, nor in
  a pass that drops the record on the way to its own reset.
- Two topology pushes are guaranteed to be spaced when a pass from the first one on has replaced the
  timer (`PushesSpaced`), and only then; `ReplacedExactly` says which passes do. Otherwise the second
  push has found the stamp of the first, and goes out whatever the clock says (`PushRepeats`,
  `PushesAtOnce`).
- A slot owner can be reset, exactly when the best answer has slots and a state that is neither ok nor
  fail, and the bootstrap path forces a reset that goes out (`OwnerAtRisk`); a reply without the state
  line is enough (`BlankStateUnsafe`). With ok and fail it cannot happen (`BootstrapSafety`).

- A lost node whose time has run out is forgotten if and only if the pass reaches a pod
  (`ForgetPresses`, `StaleSafety`). A pass that reaches none drops the stamp all the same, so the node
  waits for the full time once more (`UnreachedRestarts`).

docs/reconciliation-flows.md describes annotations for the start and end of gossip recovery; the code
has none, and the model follows the code.

## Model

| member | source | states |
|---|---|---|
| `ClusterNodes.ParseClusterNodes` | internal/controller/helpers_parse.go:101-146 | the loop yields the node of every line with at least eight fields, in order |
| `ClusterNodes.ParseNodeRoles` | internal/controller/helpers_parse.go:154-196 | the loop yields one entry per line with a role flag, master before slave |
| `ClusterNodes.RolesMean` | internal/controller/helpers_parse.go:170-193 | an entry is listed if and only if a line has its addresses and flags with "master" for a primary, or with "slave" and not "master" for a replica |
| `ClusterNodes.ParseReplicaAddrsForMaster` | internal/controller/helpers_parse.go:200-237 | the sets hold exactly the non-empty ips and host names of the lines that replicate the given master |
| `ClusterNodes.BuildKnownAddrSets` | internal/controller/helpers_parse.go:243-281 | the sets hold exactly the non-empty ips and host names of the lines not flagged noaddr |
| `NodesFormat.RoundTrip` | internal/controller/helpers_parse.go:86-146 | rendering any well-formed records and parsing the text gives the same records in order, with and without the RESP3 "txt:" header |
| `NodesProjection.NodeRolesProject` | internal/controller/helpers_parse.go:154-196 | the role list is the projection of the parsed nodes if and only if no line of three to seven fields has a role flag |
| `NodesProjection.ReplicaAddrsProject` | internal/controller/helpers_parse.go:200-237 | the sets are those of the parsed replicas of the master if and only if no line with fewer than eight fields adds an address |
| `NodesProjection.KnownAddrsProject` | internal/controller/helpers_parse.go:243-281 | the sets are those of the parsed nodes not flagged noaddr if and only if no line with fewer than eight fields adds an address |
| `NodesProjection.FullLinesAgree` | internal/controller/helpers_parse.go:154-281 | on texts with full lines all three are projections of the parsed nodes |
| `TopologyPayload.BuildPeersJson` | internal/controller/cluster.go:732-742 | appending element by element builds the JSON array of all peers, each quoted with its escapes |
| `TopologyPayload.EndpointsPrinted` | internal/controller/repair.go:181-189 | addresses need no escapes, so the array is the plain quoted list |
| `TopologyPayload.JsonExtractString` | server/topology.c:45-63 | the buffer receives what fits of the value behind the first occurrence of the quoted field name; an absent field leaves it alone |
| `TopologyPayload.JsonExtractArrayStrings` | server/topology.c:70-95 | the scan yields the quoted elements in order, up to the limit; an element that does not fit is cut to 63 characters and the scan resumes right at the cut, which ends it when the element is an address |
| `PayloadRoundTrip.RoundTrip` | server/topology.c:45-95 | the scanner returns role, primary address and the first 64 peers of what the two Go printers print; the peers are an exact prefix if and only if all of them fit the buffer |
| `TopologySet.CollectKnownAddrs` | server/topology.c:238-277 | the loop collects the "ip:port" texts of the first lines, as many as there is room for |
| `TopologySet.MeetPeers` | server/topology.c:279-300 | the loop sends the MEETs that `MeetsUnknown` describes; the counter counts those that `AnsweredMeans` describes |
| `TopologySet.SplitJoined` | server/topology.c:101-113 | splitting "ip:port" gives back ip and port whenever the port has no colon, with the port cut to 15 characters, and nothing when the ip does not fit; IPv6 included |
| `TopologySet.SplitMeans` | server/topology.c:101-113 | what is split off is the MEET for the address, and nothing exactly when the address cannot be met |
| `TopologySet.MeetsUnknown` | server/topology.c:279-300 | for every list of peers: one MEET per peer that is not known and can be met, in order, each to the ip and port of its own peer |
| `TopologySet.AnsweredMeans` | server/topology.c:294-299 | the counter is the number of MEETs that got a reply |
| `TopologySet.InPlaceMeans` | server/topology.c:118-142 | the node counts as in place if and only if INFO has the lines role:slave and master_host with exactly that ip, each between line ends; the port is ignored |
| `TopologySet.GetNodeIdForAddr` | server/topology.c:149-201 | the id in the first line whose address is the target |
| `TopologySet.TopologySetCommand` | server/topology.c:203-353 | the command as a function of payload and server: replies, MEETs sent, REPLICATE sent |
| `TopologyFixpoint.NodeIdOfRender` | server/topology.c:149-201 | on a rendered text the id is that of the first record with the address, and none if there is none |
| `TopologyFixpoint.ReplicaRun` | server/topology.c:238-346 | the printed payload, run on a node that shows at most 64 lines, meets exactly the unlisted peers, each at its own ip and port, and replicates the first listed node with the primary's address unless it already replicates it; and what it answers in each case |
| `TopologyFixpoint.Silent` | server/topology.c:118-142 | once all peers are listed and the target is replicated, the same payload sends nothing and answers ok |
| `TopologyFixpoint.GossipRun` | server/topology.c:279-346 | the gossip payload meets exactly the unlisted peers, each at its own ip and port, never replicates, and answers ok |
| `TopologyFixpoint.Refuses` | server/topology.c:221-236 | a payload without a role, or a replica without a primary, is refused with its message, and nothing is sent |
| `TopologyFixpoint.OtherRolesNeverReplicate` | server/topology.c:303-346 | no role but "replica" leads to a REPLICATE |
| `ClusterSafe.ExtractFlags` | server/cluster_safe.c:156-173 | the walk cuts out what lies between the second and third space |
| `ClusterSafe.CountHealthyOtherPrimaries` | server/cluster_safe.c:144-200 | the counter is the number of lines whose flags name a healthy primary other than this node |
| `ClusterSafe.CountsAgree` | server/cluster_safe.c:144-200 | on every well-formed text the counter equals the count over the nodes that the Go parser yields |
| `ClusterSafe.SafeExactly` | server/cluster_safe.c:66-218 | on every well-formed text: safe if and only if the cluster is ok and the node is a replica, or has a replica and the Go parser sees two other primaries in good health |
| `ClusterSafe.SafeKeepsMajority` | server/cluster_safe.c:209-218 | with up to three primaries listed, a "safe" verdict on a primary leaves a strict majority |
| `ClusterSafe.MajorityLost` | server/cluster_safe.c:203-216 | for every larger number of primaries there is a view of an ok cluster, with this node listed and ids and addresses distinct, on which "safe" loses the majority |
| `ClusterSafe.MajorityExactly` | server/cluster_safe.c:203-216 | over all such views, the constant protects the majority if and only if there are at most three primaries |
| `SlotScan.ExtractMyselfSlots` | server/slot_stats.c:63-122 | the buffer holds what fits of the joined slot ranges of the first line that names this node; -1 and an empty buffer without such a line |
| `SlotScan.ParseMyselfLine` | server/node_state.c:59-152 | the primary's id goes into the buffer when it fits and is not "-"; the flag says whether a token other than a marker follows the eighth field |
| `SlotScan.ScannersAgree` | server/slot_stats.c:63-122 | on well-formed texts both scanners read the same record: the joined non-marker ranges, non-empty for every buffer exactly when the other scanner sets its flag, and the record's primary |
| `Allocator.DetectUnderReplicatedShards` | internal/controller/health.go:359-382 | one report per healthy primary with fewer replicas than expected, in order, with its count |
| `Allocator.PickMasterForReplica` | internal/controller/repair.go:229-266 | the least pair of replica count and id among healthy slotted primaries with at most the expected number; nothing exactly when there is none |
| `Order.LessMeans` | internal/controller/repair.go:256 | the string order: the smaller character at the first difference, or the end of the first text |
| `Allocator.PickMeans` | internal/controller/repair.go:243-259 | no primary that could be picked has fewer replicas than the pick; with as many, its id has no smaller character where the two first differ, and is not a prefix of the pick's |
| `Allocator.NoPick` | internal/controller/repair.go:243-264 | nothing is picked if and only if every slotted primary in good health has more than the expected number |
| `Allocator.ReplicaCountMeans` | internal/controller/repair.go:232-238 | the count is the number of nodes flagged slave that name the primary |
| `Allocator.PickPermuted` | internal/controller/repair.go:229-266 | every order of the nodes gives the same pick |
| `Allocator.LinesPermuted` | internal/controller/repair.go:229-266 | two texts with the same lines in any order have the same pick |
| `Allocator.PickIsShort` | internal/controller/repair.go:256-259 | whenever a shard is reported short, the pick is a shard that is reported short |
| `Allocator.ShortOfMeans` | internal/controller/health.go:369-381 | a primary is reported if and only if it is listed, in good health and has fewer than the expected number |
| `Allocator.PrimaryIp` | internal/controller/repair.go:463-469 | the address of the first node with the id |
| `Assignment.DeficitAfter` | internal/controller/repair.go:450-462 | making a spare primary a replica of the pick lowers the total deficit by exactly one while it is positive |
| `Assignment.AtMostAfter` | internal/controller/repair.go:450-462 | while something is missing, no assignment overfills a shard |
| `Assignment.LevelAfter` | internal/controller/repair.go:241-259 | no assignment puts a shard more than one above the expected number, and shards within one of each other stay so |
| `Assignment.MovedInVain` | internal/controller/repair.go:442-447 | a second push to a pod that already replicates a shard lowers no deficit, so candidates must not share an address |
| `Assignment.LoadIsFollowers` | internal/controller/repair.go:232-238 | counting replicas shard by shard or node by node gives the same number |
| `Assignment.FilledDeficit` | internal/controller/repair.go:431-526 | when the nodes are exactly enough for all shards, the deficit equals the number of candidates |
| `Assignment.Converges` | internal/controller/repair.go:431-526 | k candidates leave max(0, deficit - k), and an exactly filled cluster ends with the expected number everywhere |
| `Assignment.LandsOnPick` | internal/controller/repair.go:457-516 | the push, printed, scanned and run in the pod on the pod's own view, makes the pod replicate the pick or nothing, and a willing pod the pick, whatever the pod lists before its MEETs |
| `Assignment.AssignReplicas` | internal/controller/repair.go:431-526 | the loop: each push that takes effect lowers the deficit by one and is recorded with node and primary; as long as the view can be read, every willing pod counts, whatever the others do; no shard is raised more than one above the expected number, and level shards stay level; when nothing holds a push up, the result of `Converges` |
| `Assignment.ChangedMeans` | internal/controller/repair.go:431-447 | whatever the loop changes was a primary in good health without slots in a ready pod, and is now a replica of a primary in good health with slots |
| `Reintegration.PrepareOrder` | internal/controller/repair.go:155-194 | the payload names the pick by the address of the first node with its id, and all reachable nodes as peers |
| `Reintegration.PeersMean` | internal/controller/repair.go:173-180 | the peers are exactly the addresses of the listed nodes that have an ip and are not flagged noaddr |
| `Reintegration.OrderMeans` | internal/controller/repair.go:155-172 | an order goes out if and only if there is a pick whose address is known |
| `Reintegration.OrderRun` | internal/controller/repair.go:489-501 | the pod that runs the order is told to replicate the first node that its own view lists with that address, whatever its first read says; with at most 64 nodes in that read it meets the unlisted peers, each at its own ip and port |
| `TopologyFixpoint.ReplicaTarget` | server/topology.c:305-346 | whatever the first read says, REPLICATE goes to the first node that the second read lists with the primary's address |
| `Reintegration.OrderReachesPick` | internal/controller/repair.go:463-501 | the pod replicates the operator's pick when the view behind its MEETs lists the pick, and no other node, under that address |
| `Annotations.NamesDiffer` | internal/controller/cluster.go:122-131 | the names of the operator's annotations do not collide |
| `Annotations.ClusterResource.Patch` | internal/controller/cluster.go:305-309 | annotation by annotation: an accepted patch writes what the copy has changed since the base and leaves the rest, and the copy gets the server's values; a rejected one changes nothing |
| `RecoveryTimer.ConvergenceTimeout` | internal/controller/cluster.go:278-291 | ten times the node timeout from 3 to 12 seconds, 30 s below (and without one), 120 s above |
| `RecoveryTimer.ClusterNotOkTimedOut` | internal/controller/cluster.go:297-318 | asking starts the timer, a rejected start is undone, and only a stamp of sufficient age times out |
| `RecoveryTimer.ClearClusterNotOk` | internal/controller/cluster.go:322-337 | both annotations leave the copy, and the server if the patch is accepted |
| `RecoveryTimer.ResetAllNodes` | internal/controller/cluster.go:453-497 | a reset is issued unless the recorded one is less than five minutes old, and is then recorded |
| `RecoveryTimer.ClearStops` | internal/controller/cluster.go:332-336 | clearing stops the timer in the copy whatever the server answers |
| `RecoveryTimer.ClearForgetsReset` | internal/controller/cluster.go:332-336 | no cooldown outlives a clear |
| `Aggregation.QueryClusterInfo` | internal/controller/cluster.go:373-397 | the loop computes the fold of the answers, and fails exactly when no pod responds |
| `Aggregation.AggregateMeans` | internal/controller/cluster.go:373-397 | the result has the largest slot count, and state ok if and only if an answer with that count says ok |
| `Aggregation.AggregatePermuted` | internal/controller/cluster.go:376-387 | every order of arrival gives the same result |
| `Bootstrap.AllNodesBootstrapReady` | internal/controller/cluster.go:433-446 | the reasons of all pods that are not ready; ready if and only if there is none |
| `Bootstrap.ReconcileBootstrapJob` | internal/controller/cluster.go:153-267 | the state machine as a function of annotations and answers: resets, Job created, Job deleted |
| `Bootstrap.ActsOnlyWhenComplete` | internal/controller/cluster.go:164-219 | resets and Jobs need all pods, and all ready or one with stale peers; a Job is created only if none exists |
| `Bootstrap.ResetsAre` | internal/controller/cluster.go:153-267 | how often the state machine resets, and that it creates a Job exactly when it gets to one that is missing |
| `Bootstrap.DeletesExactly` | internal/controller/cluster.go:226-249 | a Job is deleted if and only if the state machine gets to it and it has succeeded or failed more often than its limit |
| `Bootstrap.FailsExactly` | internal/controller/cluster.go:153-267 | the step fails if and only if the secret is missing, or it gets to the Job and can neither read nor create it |
| `Bootstrap.ResetTwice` | internal/controller/cluster.go:211-257 | a pass resets twice if and only if it forces a reset that the cooldown does not stop and finds no Job; never more often |
| `Bootstrap.ResetTwiceHappens` | internal/controller/cluster.go:211-257 | one pod with stale peers, an expired timer and no Job: two resets |
| `ClusterTopology.ReconcileClusterTopology` | internal/controller/cluster.go:52-118 | the step as a function: formed cluster, gossip recovery or bootstrap |
| `ClusterTopology.ViewMeans` | internal/controller/cluster.go:87-107 | formed if and only if an answer with the most slots has some and says ok; not formed if and only if no answer has slots |
| `ClusterTopology.TopologyFailsExactly` | internal/controller/cluster.go:55-118 | the step fails if and only if it cannot ask, a due push fails, or the bootstrap path fails |
| `ClusterTopology.StartsExactly` | internal/controller/cluster.go:164-219 | on one snapshot: a fresh cluster is started if and only if all pods are there and answer, in cluster mode, without slots and without peers |
| `ClusterTopology.ForcesExactly` | internal/controller/cluster.go:195-219 | on one snapshot: a reset is forced if and only if all pods are there, the timer has run out, and a pod without slots knows other nodes |
| `ClusterTopology.BootstrapSafety` | internal/controller/cluster.go:87-118 | on one snapshot with states ok or fail, a reset or a new Job implies all pods present, no answering pod with slots, and no existing Job |
| `ClusterTopology.OwnerAtRisk` | internal/controller/cluster.go:87-118 | on one snapshot, a reset or a new Job with a slot owner among the pods happens if and only if the best answer has slots and a state other than ok and fail, and a forced reset goes out |
| `ClusterTopology.BlankStateUnsafe` | internal/controller/cluster.go:104-118 | a reply without the state line from a slot owner, next to stale peers, leads to its reset |
| `StaleNodes.ForgetStaleNodes` | internal/controller/health.go:388-529 | the step as a function: guards, stamps set and dropped, nodes forgotten, one patch |
| `StaleNodes.ForgetStep` | internal/controller/health.go:440-498 | what the step does to one node's stamp; a node is forgotten only if seen lost with an overdue stamp, and then it is unless also listed as well |
| `StaleNodes.EventMeans` | internal/controller/health.go:391-445 | a node is seen lost if and only if no guard applies, it is flagged fail or noaddr, and no pod has its address |
| `StaleNodes.GuardsHold` | internal/controller/health.go:391-420 | during an update, a scaling or a termination nothing is forgotten and no annotation changes |
| `StaleNodes.OverdueDrops` | internal/controller/health.go:480-492 | a lost node whose time has run out loses its stamp, whether or not a pod is reached |
| `CrashLoop.IsCrashLoopBackOff` | internal/controller/recovery.go:180-192 | true if and only if the valkey container waits in CrashLoopBackOff after at least three restarts |
| `CrashLoop.RecoverCorruptedPod` | internal/controller/recovery.go:139-176 | at most one call: a deletion if and only if the Job was there and works, a creation if and only if there was none; the Jobs change by the creation alone |
| `CrashLoop.ReconcileCrashLoopRecovery` | internal/controller/recovery.go:49-127 | the step as a function: stamps, Jobs and deletions over all listed pods, one patch |
| `CrashLoop.DeletesOnlyWithJob` | internal/controller/recovery.go:139-176 | a deletion needs a working Job from before the step, never one created in it, and an overdue crash |
| `CrashLoop.SweepDeletes` | internal/controller/recovery.go:86-113 | an overdue crash with a working Job leads to the deletion |
| `CrashLoop.SweepCreates` | internal/controller/recovery.go:86-158 | an overdue crash without a Job leads to its creation |
| `CrashLoop.EventMeans` | internal/controller/recovery.go:60-74 | a pod is seen crashing if and only if it is listed with its valkey container in CrashLoopBackOff after three restarts |
| `CrashLoop.DeletionDrops` | internal/controller/recovery.go:110-125 | a pod that is gone leaves no stamp from before |
| `PersistedTimer.Origin` | internal/controller/health.go:440-498 | any stamp found by a pass was persisted by an earlier pass that saw the failure, with no persisted recovery in between |
| `PersistedTimer.StaysYounger` | internal/controller/health.go:440-498 | once no older stamp is left, no later pass finds one |
| `StaleNodes.ForgetPresses` | internal/controller/health.go:440-498 | a step that sees the node lost starts its stamp, keeps it, or forgets the node, which it does if and only if the stamp is overdue |
| `CrashLoop.CrashPresses` | internal/controller/recovery.go:60-118 | a step that sees the pod crashing starts its stamp, keeps it, or ends it with the pod; it deletes the pod if and only if the crash is overdue and the Job works, and creates the Job if and only if the crash is overdue and there is none |
| `Reconcile.ReconcileClusterHealth` | internal/controller/health.go:58-208 | the timer, reset and forget parts of the health step as a function |
| `Reconcile.HealthTimer` | internal/controller/health.go:121-166 | what the health step does to the timer on the server, case by case |
| `Reconcile.ReconcilePass` | internal/controller/valkeycluster_controller.go:160-182 | the order and gating of the steps of a pass |
| `Reconcile.HealthExactly` | internal/controller/valkeycluster_controller.go:166-182 | the health step runs in exactly the passes that find the cluster formed |
| `Reconcile.HealthNeverResets` | internal/controller/health.go:123-161 | the reset branch of the health step cannot fire |
| `Reconcile.FormedPassNeverResets` | internal/controller/cluster.go:90-97 | a pass whose best view is ok with slots resets nothing, whatever the health step is told |
| `Runs.ResetsComeFromBootstrap` | internal/controller/valkeycluster_controller.go:166-182 | in every run all resets come from the bootstrap path |
| `Runs.JobDeletedExactly` | internal/controller/cluster.go:226-249 | in every run, the bootstrap Job is deleted by exactly the passes that get to it and find it succeeded or exhausted |
| `Runs.StaleSafety` | internal/controller/health.go:388-529 | in every run, CLUSTER FORGET implies an earlier pass that persisted the node as lost more than 29 s before, and no pass in between that persisted it as well |
| `Runs.CrashSafety` | internal/controller/recovery.go:49-176 | in every run, a deletion implies a Job that existed and works, a crash persisted more than 179 s before, and no persisted recovery in between |
| `Runs.StaleProgress` | internal/controller/health.go:388-529 | in every run, a node that all passes of a stretch of 30 s see lost, with accepted patches, is forgotten in it |
| `Runs.CrashProgress` | internal/controller/recovery.go:49-176 | in every run, a pod that all passes of a stretch of 180 s see crashing, with accepted patches, is deleted in it once its Job works |
| `Runs.CrashCreates` | internal/controller/recovery.go:49-158 | in every run, a pod that all passes of a stretch of 180 s see crashing and without a Job, with accepted patches, gets its Job at the end of it |
| `Runs.ForgetsSpaced` | internal/controller/health.go:480-492 | in every run, a node is not forgotten twice within 29 s |
| `Runs.UnreachedRestarts` | internal/controller/health.go:480-512 | in every run, a pass that finds a node overdue but reaches no pod forgets nothing, and no later pass does within 29 s |
| `Runs.GuardedPass` | internal/controller/health.go:391-420 | a pass during an update, a scaling or a termination forgets nothing and leaves every stamp of a node |
| `Runs.DeletionsSpaced` | internal/controller/recovery.go:110-125 | in every run, a pod is not deleted twice within 179 s |
| `PushSpacing.PassEvolves` | internal/controller/cluster.go:297-337 | a timer that a pass leaves behind is the old one or was started by that pass |
| `PushSpacing.ReplacedExactly` | internal/controller/cluster.go:90-118 | a stored timer is replaced by exactly the passes that clear it with an accepted patch, or fail to and restart it in the health step |
| `PushSpacing.PushesSpaced` | internal/controller/cluster.go:104-113 | of two pushes in a run: if a pass from the first on replaced the timer, they are more than the timeout less one second apart, hence more than 29 s; and a pass did if and only if the second push found another stamp |
| `PushSpacing.PushRepeats` | internal/controller/cluster.go:104-113 | if no pass replaced it, every later pass that finds the cluster diverged pushes, whatever the clock says |
| `PushSpacing.PushesAtOnce` | internal/controller/cluster.go:104-113 | a pass with a rejected clear, repeated at the same moment, pushes twice |
| `ResetSpacing.ResetsOfPass` | internal/controller/cluster.go:153-267 | the resets that the spacing is about are those that a pass issues |
| `ResetSpacing.ResetsExactly` | internal/controller/cluster.go:195-257 | a pass resets if and only if it gets to a try that no recent record stops, or bypasses the record |
| `ResetSpacing.NewJobRecords` | internal/controller/cluster.go:453-497 | the reset in front of a new Job leaves its record if the patch is accepted |
| `ResetSpacing.DropsExactly` | internal/controller/cluster.go:322-337 | a recorded reset is dropped by exactly the passes that clear with an accepted patch and do not record another |
| `ResetSpacing.ResetsSpaced` | internal/controller/cluster.go:453-497 | in every run, with no pass in between that drops the record, the next pass that resets does so more than 299 s later, unless it bypasses the record |
| `ResetSpacing.BypassResets` | internal/controller/cluster.go:211-257 | a forced reset without a Job goes out although the record is recent |
| `ResetSpacing.DroppedRecordResets` | internal/controller/cluster.go:457-464 | without a record that can be read the first try is a reset, whatever the clock says |
| `RecoveryProgress.PushProgress` | internal/controller/cluster.go:104-113 | in every run, a stretch of passes that find the cluster diverged, with accepted patches, pushes the topology by the time the timeout has passed |
| `RecoveryProgress.ResetProgress` | internal/controller/cluster.go:195-257 | in every run, a stretch of passes that find stale peers and no Job, with accepted patches, resets the nodes and creates the Job by the time the timeout has passed |
| `RecoveryProgress.GossipPresses` | internal/controller/cluster.go:104-113 | a diverged pass starts the timer, keeps it, or pushes, which it does if and only if the timer has run out |
| `RecoveryProgress.PeersPress` | internal/controller/cluster.go:195-257 | a pass with stale peers starts the timer, keeps it, or forces a reset, which it does if and only if the timer has run out |
| `RecoveryProgress.MalformedTimer` | internal/controller/cluster.go:311-317 | a timer that cannot be read leads to no push and no forced reset |
| `RecoveryProgress.MalformedStale` | internal/controller/health.go:471-474 | a stamp that cannot be read leads to no CLUSTER FORGET |
| `RecoveryProgress.MalformedCrash` | internal/controller/recovery.go:91-94 | a stamp that cannot be read leads to no Job and no deletion |
| `Election.FindReplicaPods` | internal/controller/failover.go:261-323 | the candidates are exactly the running, non-terminating pods with an address, other than the primary, that the text lists as its replicas |
| `Election.TopologyScore` | internal/controller/topology.go:320-330 | 0 in the failed zone when avoided, 1 in a preferred zone, one half elsewhere |
| `Election.TradeOff` | internal/controller/topology.go:285-302 | one step up in zone, from avoided to neutral or from neutral to preferred, outweighs a lag if and only if weight times the largest offset exceeds twice the lag times (100 - weight) |
| `Election.ZoneDecides` | internal/controller/topology.go:288-302 | without any progress in replication, one step up in zone wins if and only if the weight is positive |
| `Election.ShunnedLoses` | internal/controller/topology.go:285-327 | with a positive weight, a pod of the failed zone that is to be avoided is elected only ahead of candidates from elsewhere that lag behind it |
| `Election.PreferredZones` | internal/controller/topology.go:333-340 | the preferences of the first assignment for the pod |
| `Election.PickTopologyAware` | internal/controller/topology.go:262-313 | the first arrival with the best score |
| `Election.PickByLag` | internal/controller/failover.go:327-359 | the first arrival with the largest answered offset; nothing when none is above -1 |
| `Election.FreshestMeans` | internal/controller/failover.go:327-359 | the choice by lag among the candidates that answered: the largest offset, the first of them |
| `Election.PickBestReplicaForShard` | internal/controller/failover.go:218-239 | the elected pod runs, does not terminate, is not the primary, is listed as its replica, and is the respective choice |
| `Election.ElectedIsUndominated` | internal/controller/topology.go:277-302 | with a positive offset and a weight strictly between 0 and 100 no candidate beats the elected one in one of offset and zone while matching it in the other |
| `Election.WeightZeroIsLag` | internal/controller/topology.go:277-302 | at weight 0 the choice is that by lag if and only if an offset is positive or the first arrival answered 0 |
| `Election.WeightZeroDiffers` | internal/controller/topology.go:277-302 | two candidates on which the choices differ |
| `Conditions.Status.SetCondition` | internal/controller/valkeycluster_controller.go:473-485 | the list after one call: replaced in place or appended, with the time kept when the status is the same |
| `Conditions.History` | internal/controller/valkeycluster_controller.go:473-485 | after any calls from an empty list, kinds are unique, exactly those ever set are present, and each has its last value and the time of the first call of its latest unbroken run |

## Left out

- Kubernetes object construction, services, disruption budgets, metrics and labels: no decisions.
- Network calls, contexts, timeouts, logging and events: their results are inputs.
- The per-pod connection loops of resets, gossip pushes and CLUSTER FORGET: the model records that the command goes out, not which pods receive it.
- The ghost-node and readiness gates in front of the assignment loop: they only skip the loop.
- Assignment.AssignReplicas: the lines keep their order between reads, ids are distinct, the pod at a candidate's address is that candidate (so no two candidates share an address), nothing but the pushes changes the cluster during the loop, and a pod whose nodes can be read behind its MEETs lists the shards under the addresses that the operator knows; the pick itself is proved independent of the order.
- Runs: annotations other than the operator's timers, and the steps behind the health step, which write only those.
- Runs: lag of the informer cache, and patches that the server applies but reports as failed.
- TopologyPayload.BuildPeersJson: quoting is that of ASCII text; addresses are a subset of section 7 of RFC 8259 that needs no escapes.
- SlotScan.ScannersAgree: the line of this node is shorter than the 1024-byte copy.
- The imbalance grace period and the ACL hash: they do not persist what they are meant to, so the intended property does not hold.
- server/gate.c, server/node_ready.c, server/health.c, server/failover.c: each is one decision over the replies of the server and keeps no state.
- The PreStop script, the valkey-cli Jobs and the configuration templates: foreign commands and text.
- Floating-point rounding in scores.
- The fields of INFO and CLUSTER INFO replies outside the topology command: their parsed values are inputs.
