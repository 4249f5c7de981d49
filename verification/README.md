# bulb, modelled and proved in Dafny

bulb is a load balancer controller for Kubernetes. Its controller turns Services of type
LoadBalancer into proxy DaemonSets and LBPort objects; a firewall agent on every node opens the
LBPorts' ports; the proxy forwards TCP and UDP to the Service. Each part drives state it shares
with others (a cluster store, a firewall zone, a socket table) towards a target it computes.
This project models the parts whose correctness is not visible in any one function and proves
what they promise over whole runs, with calls that fail at any point, with other writers in
between, and under every interleaving.

## What is where

| files | part of bulb |
|---|---|
| `Ports`, `Firewalld`, `FirewalldRuns` | the firewalld backend, sharing its zone with an operator |
| `RuleListing`, `IPTables`, `IPTablesRuns` | the iptables backend and the text it reads back |
| `Exposure`, `AgentStatus` | the node agent: which ports to open, and the status list agents and controller write |
| `Naming`, `Conflicts`, `Store`, `Reconciler` | the Service reconciler as a class whose API calls may fail |
| `Passes`, `SecondPass`, `ControllerRuns`, `Confluence`, `Hazards` | what one pass promises and what runs of passes promise |
| `EndToEnd` | controller, agent and proxy together |
| `UDPSessions`, `UDPRuns`, `UDPTraffic` | the proxy's UDP session table as a transition system |
| `HostPort`, `ProxyFlags`, `ProxyArgs`, `ServiceArgs`, `RoundRobin` | the argument language between controller and proxy, and endpoint choice |
| `Api`, `Cluster`, `Text`, `Ordering`, `Wrappers` | shared objects, string and sorting operations |

Code that changes things step by step is a class or a method with loops, proved equal to a
specification function (`ApplyRun`, `After`, `ParseArgs`, ...); the run theorems are about those
functions. `dafny verify dfyconfig.toml` checks everything.

## Main results

* Firewalld: bulb only ever closes ports it opened itself, whatever fails and whatever the
  operator does (`OwnershipSafety`); undisturbed successful calls have a closed form
  (`ClosedForm`); no port is closed before everything wanted is open (`NoGap`); with failures
  anywhere the zone after a success is determined exactly (`ExactDespiteFailures`).
* Iptables: any number of interrupted attempts followed by one completed call leaves exactly the
  wanted rules and one jump in both families (`DualCrashAndRetry`); when a call on an arbitrary
  chain is exact (`ApplyExact`) and how many rounds a neglected chain needs (`RoundsConverge`).
* Reconciler: settled Services never claim the same port on the same node (`Exclusion`); settled
  LBPorts are a function of the inputs and of foreign LBPorts alone (`SettledLBPorts`,
  `SameLBPorts`), and one pass per Service in any order reaches them (`EveryOrder`); frame,
  idempotence and conditions of one pass, with the exact reasons for each verdict
  (`VerdictsSpelledOut`); a port open in a node's zone belongs to exactly one
  Service (`OpenForOneService`), and what a Reconciled Service asks for is open where it asks and
  forwarded (`OpenWhereAsked`, `ProxyServes`).
* UDP sessions: every socket serves the client it was dialled for (`ServesOwnClient`); sockets
  and the gauge are conserved under every interleaving (`SocketConservation`,
  `GaugeConservation`), and after shutdown every socket is closed or about to be closed by the
  read loop that took it out (`Shutdown`).
* Arguments: the proxy forwards exactly what the Service intends (`ForwardsAsIntended`);
  round-robin is fair in every window of mixed calls (`Fairness`), and across the counter's wrap
  exactly for endpoint counts that divide 2^64 (`FairAcrossWrap`).

## Promises that hold only under a condition

Each of these is false of the code as stated without the condition; the condition is exact and
an input that breaks it is given.

* A firewalld call that fails after opening ports leaves them open for good, because the state
  file is written last (`ExactDespiteFailures`, `LeakExample`).
* An iptables call removes one rule per unwanted port, so a port listed twice survives it
  (`ApplyExact`, `DuplicateSurvives`).
* The controller's prune writes a list computed from an older read and can drop a node that
  reported in between (`PruneExact`, `ForgetExample`).
* Comparing label maps by length and by reading missing keys as empty text is equality exactly for
  maps without empty values (`SameMapSound`); an LBPort with an empty label value can be taken
  over (`Frame`, `AdoptionExample`).
* Two Services can share a DaemonSet name; cleanup then stops early and leaves LBPorts
  (`LeftoverExactly`, `CollisionExample`).
* When listing nodes fails while another Service's ports are computed, that Service is skipped
  and an overlap with it goes unnoticed although the pass succeeds (`ConflictMissed`,
  `BlindExample`).
* When listing the Service's own nodes fails, the pass succeeds and takes a healthy Service down
  as invalid (`OwnListingExactly`, `TearDownExample`).
* A Service refused because of an LBPort that carries its own labels is accepted by the next pass,
  since the first deleted the obstacle (`SecondPassIdle`, `ObstructionExample`).
* A UDP read loop drops by client address, not by session, and can drop its successor
  (`LoopDropsOwn`, `LoopDropsSuccessor`).

## Hypotheses

Ports and protocols are those the LBPort schema admits (1 to 65535, TCP or UDP) wherever the
firewall is concerned. A firewalld zone holds single ports. Node names are neither empty nor
`*`. API calls are atomic, may fail without effect, and a failed call is the last of its pass,
except the node listing discussed above. Run theorems about the controller assume that the
Services involved have different DaemonSet names and that no DaemonSet of those names is someone
else's. Protocols are compared after `Unset` is read as TCP. Text is ASCII.

## Model

| member | source | states |
|---|---|---|
| Ports.StableUniquePorts | internal/firewall/firewalld.go:155-173 | the method returns each key once, ascending; equals the specification list |
| Ports.StableUniqueKeys | internal/firewall/firewalld.go:155-173 | same key set as the input, keys distinct, strictly ascending, privilege flag dropped |
| Ports.StableUniqueCanonical | internal/firewall/firewalld.go:155-173 | the result depends only on the set of keys, not on order or repetition |
| Ports.PortOrder | internal/firewall/firewalld.go:166-171 | lists are ordered by port number, TCP before UDP |
| Ports.KeyMeaning | internal/firewall/firewalld.go:211-225 | a key keeps the number, and the protocol up to unset being TCP |
| Ports.DiffPorts | internal/firewall/firewalld.go:102-114 | the list of left entries whose key is not on the right, canonical |
| Ports.DiffKeys | internal/firewall/firewalld.go:102-114 | its keys are exactly the set difference, each once |
| Ports.IntersectPorts | internal/firewall/firewalld.go:116-128 | the list of left entries whose key is on the right, canonical |
| Ports.IntersectKeys | internal/firewall/firewalld.go:116-128 | its keys are exactly the intersection, each once |
| Ports.NextManagedPorts | internal/firewall/firewalld.go:130-153 | the recorded list after an Apply, canonical |
| Ports.NextManagedKeys | internal/firewall/firewalld.go:130-153 | its keys are those managed before that are wanted and present, plus those just added |
| Firewalld.FirewalldBackend.GetPorts | internal/firewall/firewalld.go:179-199 | the returned list has exactly the zone's keys |
| Firewalld.FirewalldBackend.AddPorts | internal/firewall/firewalld.go:84-88 | zone and store end where executing the Add commands one by one against the environment leads, stopping at the first failure |
| Firewalld.FirewalldBackend.RemovePorts | internal/firewall/firewalld.go:89-93 | the same for Remove commands |
| Firewalld.FirewalldBackend.Commit | internal/firewall/firewalld.go:84-98 | additions, then removals, then the save, as one command list |
| Firewalld.FirewalldBackend.Apply | internal/firewall/firewalld.go:69-100 | for every pattern of failures and operator edits, zone, store, log and result equal `ApplyRun` |
| FirewalldRuns.ApplyOwned | internal/firewall/firewalld.go:74-98 | one call, failing anywhere and edited around, keeps: stored keys were added by bulb, every removal names such a key, all other ports follow the operator |
| FirewalldRuns.OwnershipSafety | internal/firewall/firewalld.go:69-153 | the same over every run of calls from any zone |
| FirewalldRuns.ApplyQuiet | internal/firewall/firewalld.go:69-100 | an undisturbed call performs a prefix of its plan, all of it when it succeeds |
| FirewalldRuns.PrefixState | internal/firewall/firewalld.go:80-98 | zone and store after any number of plan commands |
| FirewalldRuns.NoGap | internal/firewall/firewalld.go:80-93 | at every intermediate point wanted open ports stay open, nothing outside old and wanted is open, and all wanted ports are open before the first removal |
| FirewalldRuns.ApplySettles | internal/firewall/firewalld.go:69-153 | a successful call moves the closed form from one wanted set to the next |
| FirewalldRuns.ClosedForm | internal/firewall/firewalld.go:69-173 | after any successful calls the zone is the first zone plus the last wanted set and the store the difference, ascending |
| FirewalldRuns.RepeatIsSilent | internal/firewall/firewalld.go:69-100 | repeating a call issues no zone command and rewrites the same store |
| FirewalldRuns.EmptyRestores | internal/firewall/firewalld.go:69-100 | wanting nothing restores the first zone and empties the store |
| FirewalldRuns.StopLitters | internal/firewall/firewalld.go:84-98 | a call stopped short of its save, from any such state, opens exactly the planned ports and loses those of them the state file lacks |
| FirewalldRuns.LitterStays | internal/firewall/firewalld.go:69-153 | a successful call closes no lost port, and zone and store are otherwise as intended |
| FirewalldRuns.LitterForever | internal/firewall/firewalld.go:69-153 | over any undisturbed calls, each stopping anywhere, the zone is the operator's, the lost ports and some recorded ones, and the lost ports are those of the failed calls |
| FirewalldRuns.ExactDespiteFailures | internal/firewall/firewalld.go:69-153 | after a call that succeeds, whatever calls failed before and wherever, the zone is first zone plus wanted plus lost and the store wanted less both; it is as intended iff all lost ports are wanted, and an empty call restores the zone iff none is lost |
| FirewalldRuns.InterruptedApply | internal/firewall/firewalld.go:84-98 | the case of one stop from a converged state: the lost ports are those of the first n additions |
| FirewalldRuns.LeakExample | internal/firewall/firewalld.go:84-98 | one port opened before a failed save outlives a retry and an empty call |
| RuleListing.ParseRule | internal/firewall/iptables.go:104-123 | the inner scan of a line equals the specification parser |
| RuleListing.ParseChainRules | internal/firewall/iptables.go:98-126 | the whole parser equals the specification parser |
| RuleListing.ListingRoundTrip | internal/firewall/iptables.go:85-126 | parsing a printed chain, with any extra match tokens, gives exactly its ports, each once, ascending |
| RuleListing.ListingOrder | internal/firewall/iptables.go:98-126 | the result is the same for every order, repetition and choice of extra tokens |
| RuleListing.NoPortIgnored | internal/firewall/iptables.go:104-118 | lines that name no port contribute nothing |
| RuleListing.RuleText | internal/firewall/iptables.go:86-86 | the literal text of a rule |
| RuleListing.CountLine | internal/firewall/iptables.go:128-136 | the number of lines that are the wanted one after trimming |
| RuleListing.JumpsCounted | internal/firewall/iptables.go:59-75 | the jumps are counted right in a printed INPUT chain with any other rules |
| IPTables.IPTablesBackend.Ensure | internal/firewall/iptables.go:52-75 | chain and jump after a prefix of the set-up commands, from the printed INPUT chain; refuses more than one jump |
| IPTables.IPTablesBackend.ReconcileOwnedRules | internal/firewall/iptables.go:77-96 | the chain after a prefix of the delete-then-append commands, all of them on success |
| IPTables.IPTablesBackend.Family | internal/firewall/iptables.go:39-48 | one address family after a prefix of its plan |
| IPTables.IPTablesBackend.Apply | internal/firewall/iptables.go:37-50 | both families after prefixes of their plans; IPv6 is touched only after IPv4 is complete |
| IPTablesRuns.SyncKeys | internal/firewall/iptables.go:77-96 | what is deleted and what is appended, as sets, each once |
| IPTablesRuns.MidPort | internal/firewall/iptables.go:82-94 | rule counts of any port at any intermediate point |
| IPTablesRuns.NoGap | internal/firewall/iptables.go:82-94 | at every point wanted open ports stay open and nothing outside old and wanted is open |
| IPTablesRuns.AfterPort | internal/firewall/iptables.go:77-96 | rule counts after a completed call on an arbitrary chain |
| IPTablesRuns.ApplyExact | internal/firewall/iptables.go:77-96 | a completed call opens exactly the wanted ports iff no unwanted port was listed twice |
| IPTablesRuns.DuplicateSurvives | internal/firewall/iptables.go:77-96 | an unwanted port listed twice stays open |
| IPTablesRuns.StopKeeps | internal/firewall/iptables.go:37-96 | stopping anywhere keeps rules distinct and at most one jump |
| IPTablesRuns.AttemptsKeep | internal/firewall/iptables.go:37-96 | so do any number of stopped attempts |
| IPTablesRuns.CrashAndRetry | internal/firewall/iptables.go:37-96 | one family: stopped attempts, then one completed call: rules exactly as wanted, none twice, one jump |
| IPTablesRuns.DualMatchesApply | internal/firewall/iptables.go:37-50 | the ends the backend's Apply promises are those of a dual attempt, IPv6 touched only after IPv4 |
| IPTablesRuns.DualCrashAndRetry | internal/firewall/iptables.go:37-96 | both families: any stopped Applies, then a completed one, leave both chains exactly as wanted with one jump each |
| IPTablesRuns.RoundsConverge | internal/firewall/iptables.go:77-96 | repeated calls reach the wanted set after n rounds iff no unwanted port was listed more than n times |
| Exposure.Gather | internal/firewall/firewall.go:213-233 | the map holds exactly the named ports, privileged iff some applying LBPort says so |
| Exposure.DesiredPortsForNode | internal/firewall/firewall.go:213-246 | every named port once, ascending, privileged iff some applying LBPort says so |
| Exposure.DesiredIsCanonical | internal/firewall/firewall.go:213-246 | the list is the same for every input order and map iteration order |
| Exposure.Filter | internal/firewall/firewall.go:257-277 | kept and rejected partition the input as multisets, each rejection with the reason that applied first |
| Exposure.FilteredMembers | internal/firewall/firewall.go:257-277 | exactly the ports that are not denied and unprivileged or allowed |
| Exposure.ExactExposure | internal/firewall/firewall.go:213-286 | a port reaches the backend iff an applying LBPort names it, it is not denied, and it is unprivileged or allowed |
| Exposure.PrivilegeGate | internal/firewall/firewall.go:257-277 | of the named ports, denied ones are rejected as denied, others from 1024 up are handed over, and those below 1024 iff an applying LBPort allows it, else rejected for privilege |
| Exposure.PrivilegedInZone | internal/firewall/firewall.go:149-199 | in the zone a port below 1024 is open only if the operator opened it or an applying LBPort allows it, and every named port from 1024 up that is not denied is open |
| Exposure.AgentClosedForm | internal/firewall/firewall.go:149-199 | over agent passes on firewalld a port is open iff the operator had it open or the last LBPort list exposes it |
| AgentStatus.RemoveNode | internal/firewall/firewall.go:387-410 | the list without one node, contents exactly |
| AgentStatus.PruneNodes | internal/controller/lbport.go:215-220 | the list restricted to valid nodes, contents exactly |
| AgentStatus.EditedFacts | internal/firewall/firewall.go:367-410 | an edit keeps the list strictly ascending and changes one node's membership |
| AgentStatus.AlwaysAscending | internal/firewall/firewall.go:341-410 | strictly ascending under every interleaving of agents, prunes and other writers |
| AgentStatus.Versioned | internal/firewall/firewall.go:367-410 | only an update based on the current version changes the list, every change makes a new version, and an update right after its read is accepted |
| AgentStatus.AgentWritesOwn | internal/firewall/firewall.go:367-410 | an agent's update changes only its own node, and to what it wants if accepted |
| AgentStatus.LastWriteDecides | internal/firewall/firewall.go:341-410 | from any reachable state, without prunes, each node's membership is its own latest accepted update |
| AgentStatus.OrderIrrelevant | internal/firewall/firewall.go:341-410 | runs whose latest writes agree end with the same list |
| AgentStatus.PassesCommute | internal/firewall/firewall.go:341-410 | with specs fixed and no prune, every interleaving of versioned reads and updates in which each agent came through ends with the same list, which is as wished |
| AgentStatus.PruneExact | internal/controller/lbport.go:209-232 | an accepted prune writes the list of its listing less the nodes gone then, and removes exactly those from the present list iff every valid node's latest accepted update since the listing left it as it was |
| AgentStatus.PruneForgets | internal/controller/lbport.go:209-232 | every accepted report of a valid node that changed its membership since the listing is undone |
| AgentStatus.ForgetExample | internal/controller/lbport.go:209-232 | such runs exist whenever some listed node is gone |
| Naming.PortKeyTextInjective | internal/controller/conflicts.go:165-174 | key texts are equal iff port and normalized protocol are |
| Naming.NameInjective | internal/controller/lbport.go:60-66 | within a Service LBPort names are equal iff port and protocol are |
| Naming.NameTellsService | internal/controller/lbport.go:60-66 | across Services a name determines DaemonSet name, port and protocol |
| Naming.NameText | internal/controller/lbport.go:60-66 | the literal names |
| Naming.LabelText | internal/controller/lbport.go:167-173 | the literal labels that mark a Service's objects |
| Naming.NamesCollide | internal/controller/daemonset.go:143-145 | two different Services share a DaemonSet name |
| Naming.SameStringMap | internal/controller/conflicts.go:176-186 | the loop decides the comparison |
| Naming.SameIsEqual | internal/controller/conflicts.go:176-186 | it is equality for maps without empty values |
| Naming.SameMapSound | internal/controller/conflicts.go:176-186 | it implies equality with every other map iff the map has no empty value |
| Naming.LabelsTellService | internal/controller/lbport.go:167-173 | labels carry, or read the same as, at most one Service's |
| Conflicts.SortedConcreteNodes | internal/controller/conflicts.go:150-159 | the concrete names of a list, sorted |
| Conflicts.OverlappingNodes | internal/controller/conflicts.go:123-148 | the loop computes the shared node list |
| Conflicts.OverlapExact | internal/controller/conflicts.go:96-163 | an overlap is found iff some node name satisfies the agent's test for both lists; symmetric |
| Conflicts.MatchNodes | internal/controller/lbport.go:151-164 | exactly the schedulable nodes the selector matches, strictly ascending, whatever the listing order |
| Conflicts.RenderPorts | internal/controller/lbport.go:33-57 | one LBPort per Service port with name, labels, normalized protocol, nodes and owner |
| Conflicts.BuildFacts | internal/controller/lbport.go:27-66 | a built LBPort's name, labels and owner follow from its spec and Service, and its nodes are a proper node list |
| Conflicts.BuildExact | internal/controller/lbport.go:27-165 | the built LBPorts stand for the Service's ports in order and apply to exactly the nodes its annotation picks; without one the list is a star |
| Conflicts.DuplicateServicePortConflict | internal/controller/conflicts.go:30-43 | found iff two ports share number and protocol |
| Conflicts.OverlappingPortConflict | internal/controller/conflicts.go:96-121 | found iff some pair of ports shares number, protocol and a node |
| Conflicts.RivalrySymmetric | internal/controller/conflicts.go:71-121 | each of two Services sees the other as a rival iff the other sees it |
| Conflicts.ConflictMeaning | internal/controller/conflicts.go:71-121 | a Service is refused because of another iff some other load balancer of bulb's class or none, with its nodes known, has a port of the same number and protocol and both pick a common node |
| Conflicts.RepeatsMeaning | internal/controller/conflicts.go:30-43 | refused for a duplicate iff two of its ports have the same number and protocol |
| Conflicts.OwnerMeaning | internal/controller/conflicts.go:45-69 | refused for a taken name iff an LBPort of a wanted name has another owner or labels that read differently |
| Store.BuildDistinct | internal/controller/lbport.go:27-66 | built names are distinct iff no port and protocol repeats |
| Store.OwnedText | internal/controller/reconciler.go:269-269 | the three literal labels by which a DaemonSet is the Service's |
| Reconciler.Empty | internal/controller/reconciler.go:363-370 | true iff no port has a ready endpoint |
| Reconciler.BuildDaemonSet | internal/controller/daemonset.go:56-133 | accepts exactly Services with an address, ports, granted privileges, TCP or UDP only and a readable selector, and renders labels, keep mark and arguments |
| Reconciler.ServiceReconciler.LBPortNodes | internal/controller/lbport.go:134-165 | every node, an error, or the matching nodes; a failed listing is an error too |
| Reconciler.ServiceReconciler.BuildLBPorts | internal/controller/lbport.go:27-58 | the desired LBPorts or an error, and whether a failed listing caused it |
| Reconciler.ServiceReconciler.LBPortOwnerConflict | internal/controller/conflicts.go:45-69 | found iff some wanted name is taken |
| Reconciler.ServiceReconciler.ServicePortConflict | internal/controller/conflicts.go:71-94 | found iff a rival exists among the Services whose ports could be computed, in whatever order they are listed |
| Reconciler.ServiceReconciler.DetectPortConflict | internal/controller/conflicts.go:20-28 | found iff any of the three refusals holds |
| Reconciler.ServiceReconciler.UpdateStatus | internal/controller/status.go:30-47 | an upsert of the given conditions, all or nothing |
| Reconciler.ServiceReconciler.ApplyDaemonSet | internal/controller/reconciler.go:185-212 | the DaemonSet as desired, or nothing changed |
| Reconciler.ServiceReconciler.CleanupLBPorts | internal/controller/lbport.go:117-132 | on success no LBPort carries the Service's labels and all others are untouched; at any failure only logged names have changed |
| Reconciler.ServiceReconciler.ApplyLBPorts | internal/controller/lbport.go:68-115 | on success exactly the desired LBPorts carry the labels; only names that must change are written, each once |
| Reconciler.ServiceReconciler.CleanupByName | internal/controller/reconciler.go:253-285 | DaemonSet and LBPorts after cleanup, with keep and foreign DaemonSets; interrupted, each object is old or new |
| Reconciler.ServiceReconciler.Refuse | internal/controller/reconciler.go:214-226 | conditions, then forced cleanup |
| Reconciler.ServiceReconciler.Judge | internal/controller/reconciler.go:61-132 | the decision of a pass from what it reads |
| Reconciler.ServiceReconciler.Reconcile | internal/controller/reconciler.go:50-168 | without error the store equals `After`; with one, every object is as before or as in `After`; the LBPort writes are exactly the changes, each once; the failed calls are the node listings of `blind` and, with an error, one more |
| Passes.AfterAt | internal/controller/reconciler.go:50-168 | what a pass leaves under any LBPort name |
| Passes.Frame | internal/controller/conflicts.go:45-69 | an LBPort without the Service's labels is untouched iff it is not a listed name of an applied Service, and is always untouched if its labels have no empty value |
| Passes.FrameInterrupted | internal/controller/lbport.go:68-132 | the same wherever a pass is interrupted |
| Passes.OthersUntouched | internal/controller/conflicts.go:45-69 | another Service's LBPort is never touched, whatever its labels |
| Passes.OwnExactly | internal/controller/lbport.go:68-132 | the Service's own LBPorts after a pass are exactly the desired ones, or none, or all of them if a foreign DaemonSet stopped the cleanup |
| Passes.OneVerdict | internal/controller/reconciler.go:85-167 | exactly one of the four conditions is true, whatever they were before, and it names the decision |
| Passes.VerdictMeaning | internal/controller/reconciler.go:85-167 | when each condition is true, in terms of endpoints, refusals and the validity of the Service |
| Passes.VerdictsSpelledOut | internal/controller/reconciler.go:85-167 | the same in terms of the Services, nodes, endpoints and LBPorts alone: when exactly a Service is Reconciled, in conflict, invalid or without endpoints |
| Passes.SoundExactly | internal/controller/daemonset.go:56-83 | a Service can be rendered iff it has a usable address, ports, only TCP and UDP, and leave for every port below 1024 |
| Passes.OutcomeAgreement | internal/controller/reconciler.go:85-167 | LBPorts exist iff Reconciled, DaemonSet exists iff Reconciled, with or without keep |
| Passes.Uninstalled | internal/controller/reconciler.go:63-78 | for a gone or foreign-class Service nothing is left but a DaemonSet that asked to be kept |
| Passes.KeptExactly | internal/controller/daemonset.go:135-140 | after a Service was applied and deleted its DaemonSet remains iff the Service asked to be kept |
| SecondPass.SecondPassIdle | internal/controller/reconciler.go:50-168 | a second pass changes no LBPort iff the first was not stopped solely by LBPorts with the Service's own labels |
| SecondPass.SecondPassSilent | internal/controller/lbport.go:68-115 | and then writes no LBPort at all |
| SecondPass.NoWrite | internal/controller/lbport.go:85-96 | when nothing has to change nothing is written |
| SecondPass.ObstructionExample | internal/controller/conflicts.go:56-61 | a Service refused by the first pass and applied by the second |
| ControllerRuns.OrderlyEstablished | internal/controller/reconciler.go:75-139 | after a completed pass every LBPort of the Service is asked for and free of rivals |
| ControllerRuns.OrderlyKept | internal/controller/reconciler.go:75-139 | no later pass over any Service, completed or interrupted, breaks that |
| ControllerRuns.RunOrderly | internal/controller/reconciler.go:50-168 | it holds of all settled Services in every run |
| ControllerRuns.Exclusion | internal/controller/conflicts.go:20-121 | in every run LBPorts of settled Services never share port, protocol and node, nor repeat within a Service |
| ControllerRuns.BothRefused | internal/controller/conflicts.go:71-94 | two overlapping Services are both refused whatever LBPorts exist |
| Confluence.DecidedOutside | internal/controller/conflicts.go:45-69 | decisions depend on LBPorts only through those no Service owns |
| Confluence.TidyKept | internal/controller/lbport.go:68-132 | passes keep bulb's own LBPorts its own and the outside unchanged |
| Confluence.SettledLBPorts | internal/controller/lbport.go:68-132 | a settled run ends with exactly the LBPorts the inputs and the outside determine |
| Confluence.SameLBPorts | internal/controller/conflicts.go:71-94 | two settled runs from equal inputs and outside end with equal LBPorts, whatever their order and interruptions |
| Confluence.OnePassEach | internal/controller/reconciler.go:50-168 | from a tidy store one completed pass per Service, in any order, settles them all |
| Confluence.EveryOrder | internal/controller/conflicts.go:71-94 | the LBPorts after one pass per Service are the same in every order |
| Hazards.LeftoverExactly | internal/controller/reconciler.go:269-272 | a refused or gone Service keeps LBPorts iff it had some and the DaemonSet of its name is foreign |
| Hazards.CollisionExample | internal/controller/reconciler.go:269-272 | such a store |
| Hazards.AdoptionExample | internal/controller/conflicts.go:176-186 | an LBPort with an empty label value that a pass overwrites |
| Hazards.ConflictMissed | internal/controller/conflicts.go:85-88 | overlaps are missed iff every rival's node listing failed and was needed |
| Hazards.BlindExample | internal/controller/conflicts.go:85-88 | two completed passes after which two Services hold one port on one node |
| Hazards.OwnListingExactly | internal/controller/reconciler.go:101-105 | a failed node listing for the Service itself changes the decision, to Invalid, iff the annotation needs the list and the Service would have been applied or refused |
| Hazards.TearDownExample | internal/controller/reconciler.go:101-105 | a Service applied by one pass and taken down by the next |
| Hazards.OwnListingTearsDown | internal/controller/reconciler.go:101-105 | such a pass takes down the LBPorts and DaemonSet of a Service it would have applied |
| EndToEnd.ExposedForOneService | internal/firewall/firewall.go:165-166 | a port exposed on a node is claimed there by exactly one LBPort, asked for by exactly one settled Service |
| EndToEnd.OpenForOneService | internal/firewall/firewall.go:149-199 | so is every port open in the node's firewalld zone that the operator had not opened |
| EndToEnd.ExposedWhereAsked | internal/firewall/firewall.go:165-166 | after a pass that applies a Service, each of its ports that is not denied is exposed on every node it picks |
| EndToEnd.OpenWhereAsked | internal/firewall/firewall.go:149-199 | and is open in that node's firewalld zone once its agent has run |
| EndToEnd.ProxyServes | internal/controller/reconciler.go:126-139 | the applied DaemonSet's arguments are parsed into exactly one rule per port and address family, each as the Service intends it |
| UDPSessions.NextInv | internal/proxy/udp.go:52-216 | every step of reader, reaper, read loops and shutdown keeps table, sockets and threads consistent; the reaper loads activity times one by one under the lock |
| UDPSessions.ScanFreezes | internal/proxy/udp.go:176-182 | while the reaper looks for idle sessions nobody changes the table |
| UDPTraffic.ServesOwnClient | internal/proxy/udp.go:70-94 | in every run a socket that carries a client's datagrams, in either direction, was dialled for that client and no other |
| UDPTraffic.RefreshesOwn | internal/proxy/udp.go:76-76 | a datagram refreshes the activity of the socket it went through, and of no other |
| UDPTraffic.TableChanges | internal/proxy/udp.go:114-194 | sessions enter the table only by insertion of the dialled socket and leave it only by a drop of their client |
| UDPTraffic.DropCauses | internal/proxy/udp.go:78-80 | a client is dropped only after a failed write to its upstream, a failure of its own read loop, being found idle, or at shutdown |
| UDPTraffic.DropStarts | internal/proxy/udp.go:78-80 | and then it is, while a write that went through drops nobody |
| UDPTraffic.ReapExact | internal/proxy/udp.go:173-186 | one reap takes up every session idle before the cutoff throughout its scan and none that never is |
| UDPRuns.SocketConservation | internal/proxy/udp.go:88-202 | each dialled socket is in exactly one of in flight, mapped, awaiting close, closed; none is closed twice; mapped sockets are open |
| UDPRuns.GaugeConservation | internal/proxy/udp.go:121-201 | the gauge is the mapped sessions plus those taken out and not yet counted down |
| UDPRuns.Shutdown | internal/proxy/proxy.go:220-231 | after closeAllSessions the table is empty for good, and every socket is closed or held by a read loop past its delete that closes it |
| UDPRuns.LostIsUnreachable | internal/proxy/udp.go:114-120 | with one reader the lost-race branch is never taken |
| UDPRuns.LoopDropsOwn | internal/proxy/udp.go:131-141 | a read loop's drop removes its own session iff the table still maps its client to it |
| UDPRuns.LoopDropsSuccessor | internal/proxy/udp.go:131-141 | a run in which it removes its successor |
| Cluster.SplitClusterIPs | internal/controller/daemonset.go:251-275 | for each family the text at the least usable index of the dual-stack list, or of the single address when that list is empty, or nothing |
| HostPort.SplitJoin | internal/controller/reconciler.go:404-404 | splitting undoes joining of host and port |
| HostPort.SplitExact | internal/proxy/proxy.go:565-570 | exactly the two forms of a text have a host and a port, and they have these |
| ProxyFlags.ParsePairsWithProtocol | internal/proxy/proxy.go:508-519 | all pairs or an error |
| ProxyFlags.PairExact | internal/proxy/proxy.go:558-575 | a pair is accepted iff it is two texts with host and port around its first equals sign |
| ProxyFlags.EntriesExact | internal/proxy/proxy.go:537-548 | endpoint entries are trimmed, blank ones skipped, and accepted iff all others have host and port |
| ProxyFlags.ParseEndpointPairs | internal/proxy/proxy.go:524-556 | the endpoint map, later flags replacing earlier ones, or an error |
| ProxyFlags.AttachEndpoints | internal/proxy/proxy.go:77-81 | each rule gets the endpoints of its listen address and keeps the rest |
| ProxyFlags.Run | internal/proxy/proxy.go:45-82 | the rules a command line asks for, or an error |
| ProxyArgs.PrintRoundTrip | internal/proxy/proxy.go:57-82 | printed rules with distinct listen addresses are parsed back exactly |
| ServiceArgs.EndpointUpstreamsForFamily | internal/controller/daemonset.go:199-216 | one family's endpoints, ascending |
| ServiceArgs.FamilyExact | internal/controller/daemonset.go:199-216 | exactly the addresses of that family |
| ServiceArgs.AppendRule | internal/controller/daemonset.go:171-193 | one rule's flags |
| ServiceArgs.PortsAndArgs | internal/controller/daemonset.go:147-186 | the flags of every port and family, or an error iff some port is neither TCP nor UDP |
| ServiceArgs.RulesExact | internal/controller/daemonset.go:152-181 | exactly one rule per port and family |
| ServiceArgs.RulesDistinct | internal/controller/daemonset.go:171-180 | their listen addresses differ when port numbers do |
| ServiceArgs.ArgumentRoundTrip | internal/controller/daemonset.go:147-216 | parsing the printed arguments gives back exactly the printed rules, one per port and family |
| ServiceArgs.ForwardsAsIntended | internal/controller/daemonset.go:147-226 | for each port and family exactly one parsed rule has the declared protocol, the port on every address, the family's first usable address with the target port, and exactly that family's endpoints, ascending; there are no others |
| ServiceArgs.PrintedText | internal/controller/daemonset.go:171-193 | the literal flags of a rule |
| ServiceArgs.PrefixText | internal/controller/daemonset.go:113-113 | the literal arguments before them |
| RoundRobin.EndpointCounters.Inc | internal/proxy/proxy.go:319-321 | the counter rises by one, wrapping, and the old value is returned |
| RoundRobin.EndpointCounters.UpstreamFor | internal/proxy/proxy.go:303-312 | the ClusterIP without endpoints, else the endpoint the listener's counter names; the theorems below are about these answers |
| RoundRobin.AnswerOwn | internal/proxy/proxy.go:303-312 | every answer is one of the call's endpoints, or its ClusterIP when it has none |
| RoundRobin.CounterValue | internal/proxy/proxy.go:303-312 | among any calls a listener's counter moves only with its own |
| RoundRobin.CounterKeyInjective | internal/proxy/proxy.go:307-307 | listeners share a counter only if protocol and address agree |
| RoundRobin.OwnPick | internal/proxy/proxy.go:303-312 | a call picks by the number of its own listener's earlier calls alone |
| RoundRobin.FairPicks | internal/proxy/proxy.go:303-321 | the endpoint numbers of any window are fair, endpoints repeated or not |
| RoundRobin.Fairness | internal/proxy/proxy.go:303-321 | in any window of mixed calls each endpoint is the answer to floor or ceiling of the listener's calls over its endpoints, while the counter stays below 2^64 |
| RoundRobin.Permutation | internal/proxy/proxy.go:303-321 | a window of mixed calls with as many of the listener's as it has endpoints is answered with each exactly once |
| RoundRobin.FairAcrossWrap | internal/proxy/proxy.go:319-321 | that holds of the answers in every run, wrapping or not, iff the number of endpoints divides 2^64 |

## Left out

- The nftables backend: its effect depends on how `nft -f` merges a script into a table.
- PROXY protocol headers and the `--proxy-protocol` flag: the repository README documents `v1` and `v2`, internal/proxy/proxy.go:53 accepts `1` and `2`; the flag is parsed and its value ignored here.
- TCP splicing, dialling, deadlines, the health server and clocks; UDP session times are abstract integers.
- DNSRecords, ingress addresses, events, metrics and logging in the reconciler.
- endpointsByServicePort: a Service's ready endpoints are an input here, already grouped by port name.
- Reconciler.ServiceReconciler.Reconcile: leaves out pruneStaleAppliedNodes, whose errors the pass ignores; the status list it writes is the subject of AgentStatus.
- Reconciler.ServiceReconciler.UpdateStatus: always makes its API call, while the code skips it when nothing changes; ingress addresses are not part of the store.
- Reconciler.ServiceReconciler.CleanupByName: leaves out the DNS record cleanup after its last LBPort deletion.
- ServiceArgs.PortsAndArgs: leaves out container ports and the `--proxy-protocol` flag it appends.
- ProxyFlags.Run: accepts any value of the duration flags and of `--proxy-protocol`, which the code checks.
- IPTables.IPTablesBackend.Ensure: INPUT's rules other than the jumps are not part of the state it changes.
- Reconciler.BuildDaemonSet: renders labels, keep mark and arguments only; pod template, affinity, container ports and security context are constant data.
- Label selector parsing: a selector is absent, unreadable, or a predicate on node labels.
- Address parsing: each address text comes with its family.
- Firewalld.FirewalldBackend.GetPorts: zones hold single TCP and UDP ports; ranges and other protocols, which the code folds to TCP, are not represented.
- D-Bus, exec, JSON and file handling: they are calls that succeed or fail without effect.
- The agent's dry-run mode, readiness probes, configuration loading, node IP labeling, manifests and Helm charts.
- Unicode: strings are compared and split as ASCII.
