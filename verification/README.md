# A model of the Swarm manager and its scale-and-seize layer

The project models the parts of this Docker Swarm fork whose correctness spans several functions or a whole
run, and proves properties of them. `dafny verify dfyconfig.toml` checks everything.

| files | what they model |
|---|---|
| `Containers`, `Filters`, `Meanings`, `Strategy`, `Scheduler` | how a node is found for a container: look-up, seven narrowing filters and what they ask of a node, weighing, ranking, the soft and the hard pass |
| `CpuShares` | the translation of CPUs to engine shares and back |
| `Placement`, `Capacity`, `Exclusive`, `Names`, `Safety`, `PlainRuns`, `Overruns`, `HostPorts`, `Cluster`, `Lifecycle` | the creation of containers by any number of clients as a state machine (begin, register, end, remove, and engines reporting health and images), its invariants over every run, and the cluster object whose critical sections take those steps |
| `EngineHealth`, `Membership` | the health states of an engine; discovery, pending engines and their validation |
| `Watchdog` | rescheduling of containers and removal of duplicates |
| `Rings`, `RoundRobin`, `Tasks` | the task queue on Go's `container/ring`, as a heap structure that is proved to behave as a plain round-robin queue |
| `ScaleDown`, `Seize`, `SeizeScans`, `SeizePlans`, `FilterStrings` | which containers a scale-down takes, which nodes a scale-up seizes and what it creates, and the text form of filters |
| `Scale`, `Handover`, `SeizeJobs` | a whole scale request: what the filters of its items hand over, what the queue takes up of it, and what becomes of every task |

Code that changes things in place is a class with the fields of the source, and its methods are proved against
functions on values; what the source promises is then proved about those functions. Maps are iterated in any order.

The design promises some things that the code does not keep. They are stated as results, with the exact condition
where there is one:

- Host-mode ports are exclusive against registered containers only. A reservation shows up with an empty host
  configuration, so two host-mode containers that expose the same port can be reserved on one engine
  (`HostPorts.ExposedIff`, `HostPorts.HostPortsCanClash`). Over a whole run they stay exclusive exactly when every
  host-mode creation begins while no host-mode reservation with one of its ports is in flight to its engine
  (`HostPorts.HostSafeThroughoutIff`). Neither the host-mode nor the bridge-mode filter compares exposed ports with
  host-port bindings: these stay apart exactly when no creation begins on an engine with a tenant in the other mode
  that has one of its ports (`HostPorts.MixedSafeThroughoutIff`, `HostPorts.MixedPortsCanClash`).
- The percentage test lets a node give away up to `Total + (Total - 1) / 100`; it keeps all nodes within their
  total exactly when totals are at most 100 (`Strategy.RoundingIff`).
- CPU requests survive the way to the engine and back exactly on engines of at most 1024 CPUs
  (`CpuShares.RoundTripIff`). So a run keeps larger engines within their limits exactly when no registration is booked
  for more than its engine has left (`Safety.CapacityKeptIff`), and an engine stays within its limit in all runs exactly
  when all requests that fit it are booked exactly (`Overruns.AlwaysInLimitIff`): unless the cluster undercommits its
  engines, these are the engines of at most 1024 CPUs (`Overruns.LargeEnginesExceed`).
- The local processor shares the labels map of a running container with the copies it creates, which so takes on
  their swarm IDs: a copy that is reserved on the engine of its template is not shown to the next creation
  (`Clusters.TemplateHidesReservation`).
- A batch that is added to a queue whose ring holds only its head is dropped (`TaskQueue.Tasks.AddTasks`). This
  is so after an empty first batch, and also after the queue has been worked off.
- So a scale request loses the lists that lie between an empty first list and the next seizing item, and no others
  (`Scaling.AllKeptIff`). A scale-down by the form without apps hands on such an empty list exactly when the minimum
  runs (`Handover.FormStarvesIff`); the form with apps hands on nil instead, which loses nothing
  (`Handover.ServiceNeverStarves`).
- All items of a request are filtered before any container is removed, and each of them sees the matches in an order
  of its own. Several items for one app leave its minimum m of len matches in every order exactly when m is zero or
  the sum of all min(n, len - m) is at most len - m (`ScaleDown.RequestKeepsMinimumIff`); of five matches with a
  minimum of two, items that ask for two each may leave one (`ScaleDown.TwoItemsTakeTooMany`).
- The tasks of a seizing item are added one by one, which does not keep their order (`TaskQueue.ThreadSpreads`,
  `TaskQueue.ThreadThree`).
- A scale-up whose filters match nothing is not stopped and asks for copies of every container of the cluster
  (`Scaling.NoMatchCopiesAll`); `Scale` never reports a name, because it returns the names only together with an
  error that the queue never gives (`Scaling.Scale`).
- `removeEngine` looks the engine up in one critical section and deletes it in another; a stale engine object that
  is validated in between keeps the removed address in the cluster (`Membership.RemovalRace`). The branch of
  `validatePendingEngine` for an engine that is already registered at its own address is never taken: under the
  invariant `Valid` no address is pending and registered at once.
- A successful connection check tests the state, sets it and resets the failure count in separate critical sections:
  a removal in between is undone, in the middle a healthy engine has a count beyond the threshold, and the end leaves
  the engine consistent exactly when it is not unhealthy by then (`EngineHealth.TornCheck`, `EngineHealth.TornMiddle`,
  `EngineHealth.TornResetIff`). A removed engine comes back when it is connected again and answers with another ID, and
  in no other case (`EngineHealth.StaysRemovedIff`).
- Rescheduling loses sight of a swarm ID exactly when a nameless container was the only one to carry it
  (`Watchdogs.LostIff`).
- A seizure takes containers of no lower priority exactly when free nodes do not suffice and the tour over the nodes
  ended before it reached a blocked node that stayed on the list (`SeizePlans.SeizesOnlyLowerIff`,
  `Seize.UncheckedNodeSeized`).
- A match that runs on a node whose tasks are emitted is told to be created as well, and so is created once more. Only
  missing containers are created exactly when no free node holds a match and no node that stays on the list does
  (`SeizePlans.CreatesOnlyCopiesIff`); one engine of two lots with one match gets two containers where one is missing
  (`SeizePlans.MoreThanMissing`). A seizure can also create too few, because nodes that were given copies are cut off the
  list again (`Seize.PlanAllMissingIff`, `SeizePlans.FewerThanMissing`). `SeizePlans.CreatesMissingIff` says for every list
  of engines when exactly the missing containers are created.
- The list of nodes to seize is cut behind as many nodes as are needed and were refused; with a refused node behind
  the cut more nodes are emptied than are needed (`SeizePlans.EmptiesNeededIff`). A node that runs exactly one match is
  passed over like a full one (`SeizeScans.PassedOverIff`).
- A node counts as free although a container there has to go, if a match is listed after that container
  (`Seize.FreeIff`, `Seize.OverlookedOnFreeNode`); without any running match planning panics
  (`Seize.SeizeResourceFilter.Filter`).
- A filter string that starts with `=` makes the parser panic, and one without an operator gets through when it
  ends in a character of several bytes (`FilterStrings.RefusedIff`, `FilterStrings.WithoutOperator`).
- A scale-down panics when an app has fewer matches than it must keep, and a matching container without an app
  label ends the selection with the list unfiltered (`ScaleDown.ContainerFilter.FilterService`).

## Model

| member | source | states |
|---|---|---|
| Containers.GetBySwarmID | cluster/container.go:97-157 | a look-up by swarm ID finds something exactly when a container carries that ID, provided that no other container can be mistaken for it |
| Containers.GetDecides | cluster/container.go:97-157 | exact or short IDs win over swarm IDs, these over names and names over prefixes; a name or prefix that two containers have finds nothing |
| Containers.ShortIdIs | vendor/github.com/docker/docker/pkg/stringid/stringid.go:28-36 | a short ID is the first twelve characters of what is behind the colon |
| Containers.IdAnswers | cluster/container.go:103-115 | a container answers to its ID and swarm ID, to the first twelve characters of each, and to what they begin with |
| Containers.NameAnswers | cluster/container.go:119-130 | a container named /n answers to n, to /n, and to both behind the ID or name of its engine |
| Nodes.ConflictIff | scheduler/filter/port.go:113-134 | two bindings conflict exactly when they state the same host port and listen at a common address |
| Nodes.ClashesIff | scheduler/filter/port.go:113-134 | a binding clashes with a port map exactly when the map listens on its host port at an address at which it listens |
| Nodes.InUseIff | scheduler/filter/port.go:79-111 | a requested binding is taken on a node exactly when some container there takes its host port up at such an address: by its own or by engine-made bindings, or while under construction by those it asks for |
| Meanings.AffinityKeeps | scheduler/filter/affinity.go:35-70 | an affinity == keeps the nodes with a container ID, first name, image or label value that it accepts, != those without |
| Meanings.EmptyNodeAffinity | scheduler/filter/affinity.go:35-70 | a node without containers meets no == affinity to containers or labels, and every != one |
| Meanings.ConstraintKeeps | scheduler/filter/constraint.go:21-53 | a constraint looks at the ID and name of a node, or at the label of its key |
| Meanings.WhitelistKeeps | scheduler/filter/whitelist.go:36-50 | a whitelist keeps exactly the nodes with one of the names it joins by bars |
| Meanings.SplitJoined | scheduler/filter/whitelist.go:36-37 | splitting a joined list gives the list back |
| Meanings.DependsOnIff | scheduler/filter/dependency.go:25-41 | a container depends on those its volumes-from and links refer to before the colon, and on the one whose network it shares |
| Meanings.AtoiReads | scheduler/filter/slots.go:31-35 | decimal numbers are read as what they are, with or without a sign |
| Meanings.SlotsKeep | scheduler/filter/slots.go:26-47 | a legible slot label is an upper bound on the containers before placing, and without a legible label there is none |
| Meanings.HardPassIs | scheduler/filter/affinity.go:28-31 | the hard pass asks for exactly what remains when all soft expressions are left out |
| Meanings.PassesIff | scheduler/filter/filter.go:63-80 | a node passes the chain exactly when it passes every filter, each for what it is for |
| Filters.KeepKeep | scheduler/filter/filter.go:70-77 | narrowing by one set of demands and then by another is narrowing once by both, order of nodes included |
| Filters.Narrow | scheduler/filter/health.go:25-38 | the filter loop keeps exactly the nodes that meet the demand, in their order |
| Filters.FilterSlots | scheduler/filter/slots.go:26-47 | keeps exactly the nodes with an open slot, or refuses when there is none |
| Filters.FilterHostPorts | scheduler/filter/port.go:32-46 | in host mode, keeps the nodes that expose none of the requested ports, or refuses when there is none |
| Filters.NarrowByBindings | scheduler/filter/port.go:51-61 | after all bindings of a port, the nodes left are those that have all of them free; refusal in the middle means that no node has |
| Filters.FilterBridgePorts | scheduler/filter/port.go:48-64 | otherwise, keeps the nodes that have every requested host-port binding free, whatever the map order |
| Filters.FilterPort | scheduler/filter/port.go:24-30 | dispatches on the network mode |
| Filters.FilterDependency | scheduler/filter/dependency.go:21-57 | keeps the nodes that hold all containers the new one depends on |
| Filters.NarrowByExprs | scheduler/filter/affinity.go:22-78 | one pass per expression, soft ones left out of the hard pass, equals one pass by all of them; a refusal in the middle means that no node meets them all |
| Filters.FilterExprs | scheduler/filter/constraint.go:21-53 | affinity, constraint and whitelist filters refuse malformed expressions and else narrow by all of them |
| Filters.ApplyFilters | scheduler/filter/filter.go:63-80 | the chain step by step is one filter by the conjunction of all demands; it refuses exactly when parsing fails or no node meets them all, with the reason of the first filter that leaves no node |
| Filters.OrderOfFilters | scheduler/filter/filter.go:63-80 | every permutation of the chain accepts the same list |
| Filters.HardIsWeaker | scheduler/scheduler.go:36-43 | the hard pass asks for a part of what the soft pass asks for |
| Strategy.ScoreIsLimit | scheduler/strategy/weighted_node.go:56-65 | a score of at most 100 percent, with truncating division, means staying within total plus one percent rounded down |
| Strategy.RoundingIff | scheduler/strategy/weighted_node.go:56-65 | the test keeps nodes within their total exactly for totals of at most 100 |
| Strategy.EligibleIsRoom | scheduler/strategy/weighted_node.go:47-65 | a node is eligible exactly when it is big enough and the request keeps both resources within their limits |
| Strategy.WeighNodes | scheduler/strategy/weighted_node.go:39-73 | weighs exactly the eligible nodes, and fails exactly when there is none |
| Strategy.RankAndSort | scheduler/strategy/spread.go:25-40 | ranks a permutation of exactly the eligible nodes by weight, spread upwards and binpack downwards |
| Strategy.HealthierFirst | scheduler/strategy/binpack.go:25-40 | under both strategies nobody stands before a node that is at least 21 points healthier, whatever the load |
| Strategy.FewerContainersFirst | scheduler/strategy/weighted_node.go:26-36 | of two equally weighted nodes spread puts the one with fewer containers first, binpack the other one |
| Strategy.FullerLast | scheduler/strategy/weighted_node.go:56-68 | of two equally big and healthy nodes spread never puts the fuller one first, binpack never the emptier one |
| Strategy.TwentyPointsMayTie | scheduler/strategy/weighted_node.go:63-65 | under both strategies a gap of 20 points is not enough |
| Schedulers.SelectPass | scheduler/scheduler.go:45-56 | a pass succeeds exactly when some node passes all filters and has room, and returns exactly those nodes, ranked; no resources means that nodes pass the filters but none has room |
| Schedulers.SelectNodesForContainer | scheduler/scheduler.go:36-43 | selection succeeds exactly when the hard pass alone would; all returned nodes meet all hard demands, and the soft ones too if any suitable node does; a refusal has the reason of the hard pass |
| Schedulers.FirstIsBest | scheduler/scheduler.go:36-56 | no suitable node stands before the first returned one, by strategy and weight, in the pass that counts |
| Schedulers.FewerFailuresFirst | scheduler/strategy/weighted_node.go:26-36 | with at most four retries no eligible engine stands before one that failed less often |
| CpuShares.BookedBounds | cluster/engine.go:976 | a booking is at least the request and exceeds it by at most (cpus - 1) / 1024 |
| CpuShares.SharesAreLeast | cluster/engine.go:836 | an engine is asked for the least number of shares that is enough, 1024 being all CPUs |
| CpuShares.RoundTripIff | cluster/engine.go:836 | all requests survive the round trip exactly on engines of at most 1024 CPUs |
| CpuShares.OneTooMany | cluster/engine.go:836 | on every larger engine one particular request is booked as one CPU more |
| Placement.NextSound | cluster/swarm/cluster.go:178-247 | every step keeps identities consistent: containers keyed by ID, one container per swarm ID, the copy of a reservation on its engine and with its configuration |
| Placement.OvercommittedIs | cluster/engine.go:952-959 | the overcommit percentage comes on top of an amount, rounded toward zero |
| Lifecycle.FailedCreation | cluster/swarm/cluster.go:205-244 | a creation that fails leaves engines and reservations as they were, and its name free |
| Lifecycle.Creation | cluster/swarm/cluster.go:205-244 | one that succeeds leaves exactly its container, on the chosen engine, and no reservation |
| Lifecycle.RemovalUndoes | cluster/swarm/cluster.go:250-252 | removing a container undoes its registration |
| Lifecycle.ImageRetry | cluster/swarm/cluster.go:201-209 | a retry with an image affinity asks for a node with the image on top of everything else |
| Lifecycle.InFlightAnswers | cluster/swarm/cluster.go:38-57 | a container in flight shows its configuration and labels and answers to its name |
| Placement.InFlightNext | cluster/swarm/cluster.go:815-831 | how each step changes the set of reservations that are laid over an engine: registering takes one out and ending takes nothing out that is registered |
| Capacity.BeginsWithRoom | scheduler/strategy/weighted_node.go:47-65 | the chosen node has room for the request on top of everything registered or in flight |
| Capacity.NextUsed | cluster/swarm/cluster.go:205-246 | on engines of any size a step leaves an engine's use as it is or lower, or within the limit; a registration adds exactly what is booked beyond the request |
| Capacity.NextCapped | cluster/swarm/cluster.go:205-246 | every step keeps within their limits the memory of all engines and the CPUs of those with exact bookings |
| Capacity.ExcessBounds | cluster/engine.go:976 | a booking never falls below the request, and equals it on engines of at most 1024 CPUs |
| Capacity.NextInLimitIff | cluster/engine.go:941-949 | a step keeps all engines within their limits exactly when it is no registration booked for more than its engine has left |
| Exclusive.OriginRight | cluster/swarm/cluster.go:815-831 | a tenant of an engine after a step is the new one, or was there before with the same bindings and network mode |
| Exclusive.OriginsDiffer | cluster/swarm/cluster.go:815-831 | two tenants were two tenants before: nothing is counted twice or dropped between reservation and registration |
| Exclusive.BeginsFree | scheduler/filter/port.go:48-134 | the bindings of a new bridge-mode container overlap with those of no tenant of the chosen engine, registered or in flight |
| Exclusive.OverlapIff | scheduler/filter/port.go:113-134 | two port maps listen on a common host port at a common address exactly when some binding of the one clashes with the other |
| Exclusive.NextPortSafe | scheduler/filter/port.go:48-134 | with the port filter on, every step keeps it so that at no address and on no host port two bridge-mode tenants of an engine listen |
| Exclusive.NextSlotSafe | scheduler/filter/slots.go:26-47 | with the slots filter on, every step keeps the number of tenants within a legible slot label |
| Names.FreeNameUnasked | cluster/swarm/cluster.go:751-777 | a name that passes the check is asked for by no creation that is in flight or registered |
| Names.NextNameSafe | cluster/swarm/cluster.go:178-247 | every step keeps names unique, with no gap between registering and dropping the reservation |
| Names.ReportedNames | cluster/swarm/cluster.go:751-777 | a registered container reports the name its creation asked for, with or without a slash, and no other live creation asks for it |
| Names.ReportedIsTaken | cluster/swarm/cluster.go:751-777 | a name that a container reports, with or without a slash, is not free |
| Safety.EmptyIsSafe | cluster/swarm/cluster.go:59-83 | a cluster without containers satisfies all invariants |
| Safety.SafeThroughout | cluster/swarm/cluster.go:178-247 | in all states of all runs: unique names, exclusive bridge-mode ports, slots within their limit |
| Safety.CapacityKept | cluster/swarm/cluster.go:178-247 | in all states of all runs each engine's CPUs and memory stay within the limit, registered and in-flight containers counted once each |
| Safety.CapacityKeptIff | cluster/swarm/cluster.go:178-247 | over whole runs, with engines of any size: all stay within their limits exactly when no registration books more than its engine has left |
| Safety.SoundThroughout | cluster/swarm/cluster.go:178-247 | identities stay consistent in all states of all runs |
| Safety.NeverBeyondTotal | scheduler/strategy/weighted_node.go:47-65 | for totals of 1 to 100 the limit is the total |
| PlainRuns.PlainBegins | scheduler/scheduler.go:36-56 | under any filters, a container without dependencies, affinities and constraints, whose bindings are free, can be reserved on an idle engine that has enough left |
| Overruns.ExceedingRun | cluster/swarm/cluster.go:205-246 | a run that exceeds the limit of an engine, for each request that fits it and is booked for more |
| Overruns.AlwaysInLimitIff | cluster/swarm/cluster.go:205-246 | an engine stays within its CPU limit in all states of all runs exactly when all requests that fit it are booked exactly |
| Overruns.LargeEnginesExceed | cluster/engine.go:836 | these are the engines of at most 1024 CPUs and, without a negative overcommit ratio, no others |
| HostPorts.ExposedIff | scheduler/filter/port.go:66-77 | the filter sees a port exactly when a registered host-mode container exposes it |
| HostPorts.BeginHostSafeIff | scheduler/filter/port.go:32-46 | a host-mode reservation keeps the ports of its engine exclusive exactly when no host-mode reservation in flight to it exposes one of its ports |
| HostPorts.NextHostSafeIff | cluster/swarm/cluster.go:178-247 | every other step keeps them exclusive |
| HostPorts.HostSafeThroughoutIff | cluster/swarm/cluster.go:178-247 | over whole runs host-mode ports stay exclusive exactly when every host-mode creation begins under that condition |
| HostPorts.HostPortsCanClash | cluster/swarm/cluster.go:38-57 | from an empty cluster two host-mode containers, with any exposed ports, are reserved on one engine under any filters, which breaks exclusivity when they share a port |
| HostPorts.BeginMixedSafeIff | scheduler/filter/port.go:66-111 | a reservation keeps host-mode ports and bindings of other modes apart exactly when no tenant of its engine in the other mode, registered or in flight, has one of its ports |
| HostPorts.NextMixedSafeIff | cluster/swarm/cluster.go:178-247 | every other step keeps them apart |
| HostPorts.MixedSafeThroughoutIff | cluster/swarm/cluster.go:178-247 | over whole runs they stay apart exactly when every creation begins under that condition |
| HostPorts.MixedPortsCanClash | scheduler/filter/port.go:24-30 | from an empty cluster a host-mode container and one bound to its port are reserved on one engine under any filters |
| Clusters.LookupTells | cluster/swarm/cluster.go:823 | looking a reservation's swarm ID up on the node of an engine tells whether it is registered there |
| Clusters.ReservationShownIff | cluster/swarm/cluster.go:822-826 | without any assumption about IDs and names: looking at a reservation leaves the node right exactly when its container is registered there or nothing on the node is found under its swarm ID |
| Clusters.TemplateHidesReservation | cluster/swarm/local_processor.go:53-60 | the node lacks the reservation of a copy that is created where its template runs: one container and what the copy asks for |
| Clusters.Cluster.Overlay | cluster/swarm/cluster.go:822-826 | the node then shows each registered or in-flight container of its engine exactly once, with what they use |
| Clusters.Cluster.ListNodes | cluster/swarm/cluster.go:815-831 | one such node for each engine |
| Clusters.Cluster.CheckNameUniqueness | cluster/swarm/cluster.go:751-777 | free exactly when no container of an engine reports the name, with or without a slash, and no reservation has it |
| Clusters.Cluster.Place | cluster/swarm/cluster.go:201-226 | reserves, as a begin step, on a node of the listing before which no suitable one stands by strategy and weight in the pass that counts; or changes nothing because no listed node suits, with the reason |
| Clusters.Cluster.BeginCreate | cluster/swarm/cluster.go:179-228 | refuses exactly the taken names; else it places the container so, under the swarm ID it came with or else the one drawn for it |
| Clusters.Cluster.EngineRegisters | cluster/swarm/cluster.go:230 | is a register step |
| Clusters.Cluster.EndCreate | cluster/swarm/cluster.go:242-244 | is an end step |
| Clusters.Cluster.RemoveContainer | cluster/swarm/cluster.go:250-252 | is a remove step |
| EngineHealth.AfterConsistent | cluster/engine.go:386-443 | every atomic step keeps the failure count on its side of the threshold, and losses and returns alternating since the last removal |
| EngineHealth.ValidationHeals | cluster/engine.go:347-356 | validation makes a pending engine healthy with full health, and changes no other |
| EngineHealth.ComesUp | cluster/engine.go:231-239 | a new engine that connects, reports an ID and is validated is healthy with full health |
| EngineHealth.DisconnectRemoves | cluster/engine.go:263-283 | removal disconnects an engine and takes its client, once |
| EngineHealth.AnswersDecide | cluster/engine.go:386-443 | from full health on the count is the number of connection errors since the last good answer, and the engine is unhealthy exactly when that reached the threshold |
| EngineHealth.AnswersWait | cluster/engine.go:386-443 | while pending or removed an engine counts answers and changes no state |
| EngineHealth.SpecsAre | cluster/engine.go:465-505 | reading the specs is a series of checks, after which a first ID is taken and another one than before makes the engine pending |
| EngineHealth.RemovalIsFinal | cluster/engine.go:263-283 | a removed engine stays removed exactly unless it is connected again and answers with another ID |
| EngineHealth.StaysRemovedIff | cluster/engine.go:498-505 | over a run removal is absorbing exactly when no step of it brings the engine back so |
| EngineHealth.IndicatorTells | cluster/engine.go:310-317 | the indicator is positive exactly for healthy engines and within 0 to 100 |
| EngineHealth.AlwaysConsistent | cluster/engine.go:386-443 | the same over every run from the creation of an engine on, whatever the steps; the indicator is positive exactly while the engine is healthy |
| EngineHealth.FewerFailuresHealthier | cluster/engine.go:313-316 | with at most four retries one failure more costs at least 21 points |
| EngineHealth.TornCheck | cluster/engine.go:418-429 | the two sections after the test have the effect of the whole check exactly when the engine is still unhealthy, and undo a removal |
| EngineHealth.TornMiddle | cluster/engine.go:424-427 | between them a healthy engine has indicator zero, and one more failure makes it unhealthy again |
| EngineHealth.TornResetIff | cluster/engine.go:411-415 | the reset keeps an engine consistent exactly when it is not unhealthy by then |
| EngineHealth.Engine.HealthIndicator | cluster/engine.go:310-317 | computes the indicator with truncating division |
| EngineHealth.Engine.ValidationComplete | cluster/engine.go:347-356 | is the validation step |
| EngineHealth.Engine.IncFailureCount | cluster/engine.go:386-395 | is the failure step |
| EngineHealth.Engine.CheckConnectionErr | cluster/engine.go:418-443 | is the check step for each kind of answer |
| EngineHealth.Engine.Disconnect | cluster/engine.go:263-283 | is the removal step, which acts once |
| EngineHealth.Engine.UpdateSpecs | cluster/engine.go:465-505 | is the specs step for each way its calls end; it succeeds exactly when the engine reports its first ID or the same one |
| EngineHealth.Engine.Connect | cluster/engine.go:231-239 | is the connection step, whatever the state was and however the calls end |
| Membership.Without | vendor/github.com/docker/docker/pkg/discovery/entry.go:58-74 | each half of Diff is the set difference |
| Membership.OnlyOneLess | cluster/swarm/cluster.go:385 | taking out one engine takes out its address and no other |
| Membership.Cluster.GetEngineByAddr | cluster/swarm/cluster.go:282-295 | finds an engine exactly for the known addresses, pending ones first |
| Membership.Cluster.AddPending | cluster/swarm/cluster.go:307-315 | adds that address and no other |
| Membership.Cluster.Connect | cluster/swarm/cluster.go:329-332 | connecting an engine object, also a stale one, keeps membership and takes the connection step on its health |
| Membership.Cluster.Validate | cluster/swarm/cluster.go:334-370 | registers exactly the engines whose address is pending and whose ID is not taken, and makes those that were pending healthy; the set of addresses stays the same, for stale engine objects too |
| Membership.Cluster.RemoveLocked | cluster/swarm/cluster.go:377-388 | disconnects the engine object, and removes the address and no other exactly when it is pending or the object looked up still stands for it |
| Membership.Cluster.RemoveEngine | cluster/swarm/cluster.go:372-389 | removes exactly that address and disconnects its engine when nothing happens in between |
| Membership.Cluster.AddEngine | cluster/swarm/cluster.go:301-323 | the address is known afterwards, once, whatever validations interfere |
| Membership.Cluster.Update | cluster/swarm/cluster.go:397-410 | after an update the pending and registered addresses are exactly the discovered entries |
| Membership.Monitor | cluster/swarm/cluster.go:392-415 | through any number of discovery updates, with any interference between their steps, the known addresses are those of the last update |
| Membership.RemovalRace | cluster/swarm/cluster.go:372-389 | a run in which a removed address stays |
| Watchdogs.NothingLost | cluster/watchdog.go:35-152 | over every interleaving of reschedulings, refreshes and removals of duplicates, a swarm ID of a named container stays present |
| Watchdogs.LostIff | cluster/watchdog.go:76-91 | a step loses sight of a swarm ID exactly when it reschedules a nameless container that was the only one with it |
| Watchdogs.RefreshShows | cluster/watchdog.go:38 | a refresh shows exactly what is on the engine |
| Watchdogs.RescheduleMoves | cluster/watchdog.go:76-129 | rescheduling takes a container off its engine in view and puts it where it was created; it stays if that failed, and is gone from view if it has no name |
| Watchdogs.RemoveDuplicateTakes | cluster/watchdog.go:53-55 | a removal that succeeds takes that copy away and nothing else |
| Watchdogs.Watchdog.RescheduleOne | cluster/watchdog.go:68-151 | is a legal rescheduling step for that container, whatever creating it elsewhere gives |
| Watchdogs.Watchdog.RescheduleContainers | cluster/watchdog.go:62-152 | is a run of legal steps, with refreshes in between, that reschedules each container of the engine with the policy exactly once, and no other |
| Watchdogs.Watchdog.RemoveIfDouble | cluster/watchdog.go:49-57 | removes at that engine only, and only duplicates; exactly when its removals succeed it succeeds, and then the swarm ID is not both on that engine and on another |
| Watchdogs.Watchdog.RemoveDuplicateContainers | cluster/watchdog.go:35-59 | the same for all containers of the engine: the last copy is never removed, and no duplicate is left when removals succeed |
| Rings.Ring.Link | cluster/swarm/task.go:56 | the four pointer assignments of Go's `container/ring`, with elements that may coincide |
| Rings.Ring.LinkOne | cluster/swarm/task.go:92 | linking a ring of one inserts it behind the element and returns the element that followed |
| Rings.LongerLinked | cluster/swarm/task.go:56 | these assignments, seen as links, insert one element into the ring |
| Rings.Ring.UnlinkOne | cluster/swarm/task.go:121 | unlinking one cuts out the next element |
| Rings.Ring.Len | cluster/swarm/task.go:102 | walking around counts the elements |
| Rings.Ring.New | cluster/swarm/task.go:72 | n elements linked in a ring, or nil for none |
| RoundRobin.AttemptsBounded | cluster/swarm/task.go:100-126 | for every processor the number of attempts is at most the sum of all retries plus one each |
| RoundRobin.Fair | cluster/swarm/task.go:100-126 | at every moment the numbers of attempts at two waiting tasks differ by at most one |
| RoundRobin.Accounts | cluster/swarm/task.go:109-123 | waiting tasks failed as often as they lost retries; those that left succeeded once, or failed once more than they had retries |
| RoundRobin.WorkedOff | cluster/swarm/task.go:100-126 | at the end every task succeeded exactly once or failed exactly retry + 1 times, and there is one name per success |
| TaskQueue.WeaveConserves | cluster/swarm/task.go:89-93 | wherever the cursor stands and however long the batch, no task is lost, doubled or invented |
| TaskQueue.WeaveAlternates | cluster/swarm/task.go:89-93 | with the cursor behind the head, a batch no longer than the queue alternates with it |
| TaskQueue.AlternateAt | cluster/swarm/task.go:62-66 | which task is where then: t1 d1 ... tm dm t(m+1) ... tn |
| TaskQueue.ThreadConserves | cluster/swarm/task.go:54-57 | adding tasks one by one loses, doubles or invents none |
| TaskQueue.ThreadSpreads | cluster/swarm/task.go:54-57 | tasks added one by one have two others between each and the next, for one pass around the ring |
| TaskQueue.ThreadThree | cluster/swarm/task.go:54-57 | into a queue without tasks three go in as first, third, second |
| TaskQueue.Tasks.AddTask | cluster/swarm/task.go:42-59 | inserts one new task with three retries at the cursor, making the ring when there is none, and says where the cursor ends; nil changes nothing |
| TaskQueue.Tasks.AddTasks | cluster/swarm/task.go:67-96 | a first batch makes the queue in its order; a later one is woven in; one that meets an empty ring is dropped and changes nothing, as nil does; one sentinel in all cases |
| TaskQueue.Tasks.Settle | cluster/swarm/task.go:109-123 | what happens to the ring after a call is what happens to the plain queue |
| TaskQueue.Tasks.DoTasks | cluster/swarm/task.go:100-126 | terminates for every processor, never tries the sentinel, tries tasks as the plain queue does, and returns one name per success in order |
| ScaleDown.MinimumKept | cluster/swarm/filter.go:128-137 | what an app gives up is a contiguous part of its matches that leaves max(matches - n, minimum) |
| ScaleDown.UniformShare | cluster/swarm/filter.go:154-170 | with one minimum for all, the form without apps gives up the same share |
| ScaleDown.ConsideredAre | cluster/swarm/filter.go:153-156 | the form without apps considers the matching containers on admitted nodes |
| ScaleDown.OrderDecides | cluster/swarm/filter.go:128-137 | with different minimums the order of two matches decides how many remain |
| ScaleDown.EmptyHandedOnIff | cluster/swarm/filter.go:167-173 | with one minimum for all, the form without apps gives up nothing exactly when the matches are exactly the minimum |
| Handover.FormStarvesIff | cluster/swarm/filter.go:142-174 | as the first item, the form without apps leaves a ring of only a head exactly when some containers match and no more than the minimum |
| Handover.ServiceNeverStarves | cluster/swarm/filter.go:127-139 | the form with apps never does, because it hands on nil instead of an empty list |
| ScaleDown.LastSeenDecides | cluster/swarm/filter.go:154-170 | with different minimums, exactly when the minimum of a considered container is kept: by the number asked for, or by that of the last one seen |
| ScaleDown.ShareIs | cluster/swarm/filter.go:131-134 | which of the matches of an app its share consists of |
| ScaleDown.OfOrder | cluster/swarm/cluster.go:728-739 | what an item sees of an app, whatever the order of the maps, is an order of the same matches |
| ScaleDown.GoneAtMost | cluster/swarm/cluster.go:1162-1174 | in whatever orders, several items for one app take at most the sum of min(n, matches - minimum) |
| ScaleDown.WorstShares | cluster/swarm/cluster.go:1162-1174 | in some orders they take as many as that, or all |
| ScaleDown.RequestKeepsMinimumIff | cluster/swarm/cluster.go:1162-1174 | for every choice of one order per item at least the minimum is left, exactly when there is none or that sum is at most matches - minimum |
| ScaleDown.TwoItemsTakeTooMany | cluster/swarm/cluster.go:1162-1174 | of five matches with a minimum of two, items for two and two may leave one, and items for three and four none |
| ScaleDown.ContainerFilter.FilterService | cluster/swarm/filter.go:102-140 | each app gives up exactly its share, for any map order; when it ends early and when it panics |
| ScaleDown.ContainerFilter.FilterContainers | cluster/swarm/filter.go:142-174 | what the scan that stops early selects, and exactly when slicing panics |
| Scaling.AllKeptIff | cluster/swarm/cluster.go:1158-1180 | over all calls of `AddTasks` and `AddTask` of a request no task is lost, exactly when no list that holds something lies between an empty first list and the next call of `AddTask` |
| Scaling.KeptOrLost | cluster/swarm/task.go:87 | every job that is asked for is queued or in such a list |
| Scaling.CreateCopies | cluster/swarm/filter.go:302-307 | a scale-up by n asks for n copies of each container of its list |
| Scaling.StartFills | cluster/swarm/filter.go:347-356 | starting asks for as many jobs as wanted, by creating what is missing, provided there is anything to start |
| Scaling.StartsAll | cluster/swarm/filter.go:347-349 | and for the start of every container of the list |
| Scaling.FillUpCopiesFirst | cluster/swarm/filter.go:350-355 | what is missing then is filled up by copies of the first container |
| Scaling.PlainAsks | cluster/swarm/filter.go:59-62 | destroying and stopping ask for the list as it is, once |
| Scaling.Enqueue | cluster/swarm/task.go:67-96 | one call of `AddTasks` brings in its list, or nothing into a ring that holds only its head |
| Scaling.AddStart | cluster/swarm/filter.go:347-356 | the calls for a list to start |
| Scaling.AddSingle | cluster/swarm/task.go:42-59 | one call of `AddTask` brings its job in, also into a ring that holds only its head |
| Scaling.AddSeized | cluster/swarm/resource_filter.go:92-96 | the calls for a plan that seizes nodes, and the order that its tasks get |
| Scaling.AddItem | cluster/swarm/filter.go:302-307 | the calls for an item; creating from an empty list panics |
| Scaling.AddItems | cluster/swarm/cluster.go:1162-1172 | what the calls for all items bring into the queue, whose tasks all have three retries |
| Scaling.Scale | cluster/swarm/cluster.go:1158-1180 | every queued task succeeds exactly once after at most three failures or fails four times, for any processor and items of all kinds; no name is reported |
| Scaling.CreateContainerFilter.FilterService | cluster/swarm/filter.go:250-273 | one template per app, its last match, for any map order; a match without an app label leaves the list unfiltered |
| Scaling.LastMatchIs | cluster/swarm/filter.go:250-258 | the template of an app is the match after which there is no other |
| Scaling.CreateContainerFilter.FilterContainers | cluster/swarm/filter.go:275-299 | the first match, or the unfiltered list when there is none |
| Scaling.NoMatchCopiesAll | cluster/swarm/filter.go:275-307 | without a match `number` copies of every container are asked for |
| Seize.FreeIff | cluster/swarm/resource_filter.go:197-224 | a scanned node is free exactly when nothing on it is relevant, or its last relevant container is a match and there is room |
| SeizeScans.ScanLists | cluster/swarm/resource_filter.go:197-224 | a scanned node lists its matches and what has to go, each in the order of the engine |
| SeizeScans.PassedOverIff | cluster/swarm/resource_filter.go:212-217 | a node that is not free is passed over exactly when it runs one match or as many as it has lots |
| SeizeScans.EngineSorts | cluster/swarm/resource_filter.go:100-117 | which admitted engines become free nodes, nodes that may be seized, or neither |
| SeizeScans.SurveyStates | cluster/swarm/resource_filter.go:199-207 | lots and priority are those that a match on an admitted engine states first; else a node has one lot |
| SeizeScans.TemplateIsFirst | cluster/swarm/resource_filter.go:209-211 | what is copied is the first match on the admitted engines |
| Seize.OverlookedOnFreeNode | cluster/swarm/resource_filter.go:212-222 | a node that is free in this sense may hold a container that has to go; the other order makes the node neither free nor seizable |
| Seize.SurveyFit | cluster/swarm/resource_filter.go:100-117 | the scan counts every match on admitted engines once |
| Seize.VisitedAreSafe | cluster/swarm/resource_filter.go:168-190 | every visited node is left without tasks, or seizes only containers of strictly lower priority |
| Seize.VisitCounts | cluster/swarm/resource_filter.go:168-190 | the tour accounts for what it adds and never for more than is asked for |
| Seize.SeizingIsNeeded | cluster/swarm/resource_filter.go:123-129 | when the free nodes do not suffice, at least one more is needed |
| Seize.NeededIsLeast | cluster/swarm/resource_filter.go:123-129 | together with the free nodes those needed have lots for all that is asked for, and fewer have not |
| SeizePlans.EmptiesNeededIff | cluster/swarm/resource_filter.go:187-194 | where the list is cut and how many nodes are emptied, by the least number that is needed; they are no more than that exactly when no refused node lies behind the cut |
| SeizePlans.PlanDiscards | cluster/swarm/resource_filter.go:76-86 | when free nodes do not suffice a plan removes exactly what has to go on the nodes that were kept |
| SeizePlans.TwoEmptied | cluster/swarm/resource_filter.go:126 | engines with two lots each: four asked for, two running, and of four nodes two are emptied |
| Seize.PlanCounts | cluster/swarm/resource_filter.go:99-139 | a plan adds at most max(0, number - matches) copies and creates at most max(number, matches) containers |
| Seize.PlanFills | cluster/swarm/task_filter.go:27-62 | no node gets beyond max(what it had, its lots) |
| Seize.PlanDowns | cluster/swarm/resource_filter.go:59-89 | a container is removed exactly when its node was kept and the free nodes did not sate the plan |
| Seize.PlanAdds | cluster/swarm/resource_filter.go:99-139 | the copies in a plan are exactly those added to nodes, less those added to nodes cut off the list |
| Seize.AllMissingIff | cluster/swarm/resource_filter.go:123-136 | on the scanned lists, exactly when a plan holds copies for all missing containers: the needed unblocked nodes have room for them, or all unblocked and free ones together and only blocked nodes are cut |
| Seize.PlanAllMissingIff | cluster/swarm/resource_filter.go:99-139 | the same for every list of engines |
| Seize.TourReaches | cluster/swarm/resource_filter.go:168-190 | when the pool has the room, the tour ends at a node it worked on, and the first k unblocked nodes have the room exactly when it worked on no more than k |
| Seize.TourExhausts | cluster/swarm/resource_filter.go:168-190 | otherwise it visits all nodes and uses all room on those that are not blocked |
| Seize.AddedAt | cluster/swarm/resource_filter.go:181-186 | copies are added to exactly the visited nodes that are not blocked |
| SeizePlans.FewerThanMissing | cluster/swarm/resource_filter.go:131-136 | engine lists for which fewer containers are created than are missing, although free nodes are left |
| Seize.FreeNodesSuffice | cluster/swarm/resource_filter.go:123-125 | when the free nodes suffice nothing is removed |
| Seize.FreeNodesReach | cluster/swarm/resource_filter.go:123-136 | and as many copies are added as containers are missing |
| SeizePlans.VisitStops | cluster/swarm/resource_filter.go:168-190 | the tour ends behind the first node at which the unblocked nodes so far have space for what is missing, or behind the last, and refuses the blocked ones among the nodes it visits |
| SeizePlans.StopExists | cluster/swarm/resource_filter.go:168-190 | for every list of engines there is exactly one such end |
| SeizePlans.NeverSated | cluster/swarm/resource_filter.go:59-76 | free nodes that do not suffice never end the emission of tasks |
| SeizePlans.SeizesOnlyLowerIff | cluster/swarm/resource_filter.go:187-194 | for every list of engines: only containers of lower priority go exactly when the free nodes suffice or no node from the end of the tour to the cut is blocked |
| SeizePlans.PlanCreates | cluster/swarm/resource_filter.go:92-96 | a plan creates the copies it added and the running matches on the nodes it emits, once more |
| SeizePlans.CreatesOnlyCopiesIff | cluster/swarm/resource_filter.go:197-211 | for every list of engines: nothing but copies is created exactly when no free node holds a match and, unless these suffice, no node before the cut does, other than refused ones |
| SeizePlans.CreatesMissingIff | cluster/swarm/resource_filter.go:99-139 | for every list of engines: exactly the missing containers are created exactly when there are copies for all of them and no match is emitted |
| SeizePlans.FreeNodesCreateIff | cluster/swarm/resource_filter.go:123-136 | when the free nodes suffice no fewer are created than are missing, and no more exactly when no free node holds a match |
| SeizePlans.MoreThanMissing | cluster/swarm/resource_filter.go:59-74 | an engine on which two containers are created where one is missing |
| Seize.UncheckedNodeSeized | cluster/swarm/resource_filter.go:187-189 | engine lists for which the plan destroys a container of no lower priority |
| Seize.PlanBounds | cluster/swarm/resource_filter.go:99-139 | the bounds on copies added and containers created, for every list of engines |
| Seize.SeizeResourceFilter.FilterNodeContainers | cluster/swarm/resource_filter.go:197-224 | is one step of the scan |
| Seize.SeizeResourceFilter.ScanEngines | cluster/swarm/resource_filter.go:100-117 | is the scan of all engines |
| Seize.SeizeResourceFilter.DoContainers | cluster/swarm/task_filter.go:27-62 | adds as many containers, bound to the node, as lots and number leave room for; panics exactly when it has to copy and there is no match |
| Seize.SeizeResourceFilter.DoPriority | cluster/swarm/resource_filter.go:168-195 | is the tour, and the cut |
| Seize.SeizeResourceFilter.ReorganizeContainers | cluster/swarm/resource_filter.go:59-89 | emits the tasks of free nodes, then of kept ones, each with its type, with its early return |
| SeizeScans.PlanIs | cluster/swarm/resource_filter.go:59-89 | a plan is the tasks of the free nodes until more is sent than asked for, and unless it is those of the kept ones |
| SeizeScans.FreeFirst | cluster/swarm/resource_filter.go:63-74 | at which free node sending ends |
| SeizeScans.RemovesFirst | cluster/swarm/resource_filter.go:76-86 | on each kept node nothing is created before what has to go |
| SeizeScans.CopiesBound | cluster/swarm/task_filter.go:27-62 | every copy in a plan is bound to the engine of the node it was added to |
| SeizeJobs.JobIs | cluster/swarm/resource_filter.go:265-284 | which task type and container the task for each chosen container has |
| Seize.SeizeResourceFilter.Filter | cluster/swarm/resource_filter.go:99-139 | emits exactly the plan, copies the first match, and panics exactly when there is no match and some node would be given a container |
| SeizeJobs.AddTasks | cluster/swarm/resource_filter.go:92-96 | turns a plan into jobs and threads one task for each into the queue, which so creates as many containers as the plan tells to be created |
| SeizeJobs.SeizedKept | cluster/swarm/resource_filter.go:92-96 | of a request with one seizing item every job is kept |
| SeizeJobs.SameJobs | cluster/swarm/task.go:42-59 | a queue with the same jobs in whatever order creates as many containers |
| SeizeJobs.ScaleFor | cluster/swarm/cluster.go:1158-1180 | a seizing request from the engines to the end: the queue holds exactly the jobs of the plan, and all of them are worked off |
| FilterStrings.SplitAtLeftmost | cluster/swarm/utils.go:91-106 | key, operator and pattern put together are the string, split at its leftmost operator |
| FilterStrings.RefusedIff | cluster/swarm/utils.go:92-103 | exactly which strings with an operator are refused, and which panic |
| FilterStrings.WithoutOperator | cluster/swarm/utils.go:101-103 | exactly which strings without an operator get through, and that no ASCII string does |
| FilterStrings.RoundTripIff | cluster/swarm/utils.go:84-111 | printing and parsing gives a filter back exactly when it is printable |
| FilterStrings.ListRoundTripIff | cluster/swarm/utils.go:84-111 | the same for lists |
| FilterStrings.AsciiFaithful | cluster/swarm/utils.go:84-111 | of a list of ASCII strings all text is kept, in filters that print back to it, and one bad string refuses the list |
| FilterStrings.Scan | cluster/swarm/utils.go:91-100 | the inner loop over characters finds the leftmost operator, or ends on the last character |
| FilterStrings.ParseFilterString | cluster/swarm/utils.go:84-111 | is the parser of lists, with the operator and the index that stay from string to string |

## Left out

- The HTTP API, proxying, events, the command line, TLS, volumes, images and networks, and the Mesos driver.
- The random strategy, and the options and sorters of the command line.
- Each section under the scheduler's lock, under the cluster's lock or inside an engine method is one step; preemption inside it is not modelled, except where the source itself splits it (`removeEngine`, `CheckConnectionErr`).
- In the placement protocol the engines, their specifications and their labels stay the same during a run, an engine registers a container only while its reservation stands, and the retries of `CreateContainer` are further runs of the protocol.
- Clusters.Cluster.BeginCreate: assumes that a given or generated swarm ID is new and that no container can be mistaken for a reservation when its swarm ID is looked up (`NoCollisions`); `ReservationShownIff` says what the overlay does otherwise. The local processor of scale tasks hands the labels map of a template to all copies (cluster/swarm/local_processor.go:58) and so breaks this assumption, as `TemplateHidesReservation` shows; the resolution of network names at cluster/swarm/cluster.go:194-199 is an input.
- Names.NextNameSafe: is about the names creations ask for; `RenameContainer`, which checks names without lock or reservation, is no step of the protocol. Names have no leading slash.
- Safety.CapacityKept: is about requests that are not negative, and counts CPUs only of engines with at most 1024 CPUs, where bookings are exact; `CapacityKeptIff` and `Overruns.AlwaysInLimitIff` are about all engines.
- Safety.SafeThroughout: in these runs no engine joins or leaves the cluster.
- Exclusive.NextPortSafe: is about host ports that requests state; ports the engine picks itself are outside.
- Integers are unbounded, and the ceilings the source takes on floating-point numbers are exact; the overcommit ratio is the integer percentage the engine stores.
- Regular expressions and globs are a predicate of an expression; parsing expressions, JSON labels and environment variables gives inputs of the model. The list of an engine's images is flattened to strings.
- Strategy.Sort: stands for Go's sort, of which only the sorted permutation is used.
- CpuShares.BookedBounds: starts from requests that are not negative.
- Membership.Cluster.Update: has validations interfere between its steps but not inside `removeEngine`, whose look-up and deletion are taken to be adjacent; `RemovalRace` shows what happens otherwise. Discovery entries are address strings.
- EngineHealth.AfterConsistent: checks are atomic, which `TornCheck` shows to matter; the calls that follow updateSpecs in ConnectWithClient are further checks.
- Watchdogs.Watchdog.RescheduleContainers: assumes that the manager sees only containers that there are, as they are, as `Sound` keeps it.
- Watchdogs.NothingLost: has an engine's contents refreshed at any time, but no container disappear by itself; the networks and the start of a rescheduled container are left out.
- Rings.Ring.UnlinkOne: is `Unlink` for one element, the only form the queue uses; `Move` and `Do` are not part of this model.
- TaskQueue.Tasks.DoTasks: has a processor that answers arbitrarily and adds no tasks itself; on a queue without a ring it returns nothing at once.
- TaskQueue.Tasks.AddTask: the log line after the insertion reads the first name of the container, which panics for a nameless one.
- ScaleDown.ContainerFilter.FilterService: assumes that no MIN_NUMBER is negative and that the number asked for is not zero.
- ScaleDown.RequestKeepsMinimumIff: is about items whose filters match the same containers of the app.
- Scaling.Scale: starts from the lists and jobs that the filters of the items hand over (`Handover` and `SeizeJobs` say which these are for a scale-down and for a seizing item); the constraint labels that a scale-up writes into its template (cluster/swarm/filter.go:282-292) and the processor's work on a task are left out.
- Seize.SeizeResourceFilter.Filter: the lots that items and containers state are positive; negative or zero lots divide by zero or slice out of range. Tasks that start stopped containers instead of creating new ones (cluster/swarm/task_filter.go:93-115) are left out.
- FilterStrings.ParseFilterString: its strings are UTF-8, up to overlong forms.
- The unused duplicate of the container filter in cluster/swarm/cluster.go:1029-1135.
