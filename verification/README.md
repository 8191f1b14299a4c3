# Verified models of the distributed systems and algorithms

Dafny models of five parts of the repository, each with the properties its algorithm is meant to have.
`dafny verify dfyconfig.toml` checks all of them.

* **Distributed gcd ring** (`divisibility`, `gcd_ring*`, `worker_listener`, `ring_plan`): workers in a ring
  replace their value by a remainder whenever a neighbour announces a smaller one. The network is a step
  system with messages in flight, a four-phase start-up in which early sends are dropped, and two threads
  per worker that send one message at a time.
* **Distance-vector routing** (`routing_*`): tables, split horizon, and TTL forwarding on an arbitrary fixed
  symmetric graph. Routing messages may be delayed, reordered, lost and repeated.
* **Token ring with a registry** (`neighbors`, `token_*`): clients join, leave, fetch listings and pass on a
  token that the registry mints for a lone client.
* **Seating crossover and evolution** (`crossover`, `seating_plan`, `evolution`): the repairing crossover, and
  generations of plans, some kept, some bred, some mutated in place.
* **Region timer and charging cluster** (`region_timer`, `timer_events`, `charging_*`): time
  bounds and firing condition of a two-phase timer, and auctions, ports, queue and energy ledger of a charging
  cluster, over the reals.

Classes follow the objects of the source. Their methods are proved against specification functions, and the
theorems about whole runs are proved about those functions.

Results that differ from what one would expect of the code:

* The registry serves UNREGISTER without the lock that REGISTER holds. A client that passes its token to one
  just being registered and unregisters before the registry counts makes the registry mint a second token
  (`TokenRace.RaceBreaksExclusion`). The departed client may even pass its token on after the mint
  (`TokenRace.MintBreaksLater`). `TokenSafety.OneTokenIff` says for every run when the token stays unique, and
  `TokenStrategy.SafeHistoryIff` for which request histories it does so whatever the clients do: exactly if every
  client for which a token is minted was the only one when it was put.
* The Chef accepts zeros and negative numbers. The gcd of all values is preserved for these as well
  (`GcdRingSafety.GcdIsPreserved`), and every run comes to rest, but `GcdRingQuiescence.QuiescenceIsGcdIff` states
  that all workers then hold the gcd only if the inputs are all positive or all zero.
* A chat message with TTL 13 reaches exactly the nodes at distance at most 12.
* The final cut of a generation never removes a plan, because plants and prey already fill the population.
* A robot call that throws loses the token, and so does a listing that cannot be fetched.

Where comments and code disagree the models follow the code: the timer's tolerance is 40 % of the base time
(its comment says 20 %) and its time event fires at 93 % of the way (the comment says 100 %); an auction's price is
kept at or above 0.01 (the comment says 0.50).

Choices: numbers are unbounded, and floating-point values are reals. Random choices are arbitrary. A node's
address stands for its host and port without leading slashes. The worker that receives an UPDATE is identified by
its ring position, which `RingPlan.ProcessInput` ties to its port. A token sent to a client that has closed its
socket is refused, as every client closes its socket before it unregisters. A listing is one snapshot of the
registry, but a client may use a listing of any age. The fitness of a seating may be any number, because evaluating
it uses up the list of constraints.

## Model

| member | source | states |
|---|---|---|
| GcdRingSafety.ReduceKeepsCovered | networks-distributed/distributed-gcd-ring/src/main/java/worker/WorkerListener.java:100-113 | One worker's update, by any number but zero and with the remainder that truncates toward zero, keeps for every covered number z that the gcd of the values at most z divides z, or some value is 1; this is the invariant that survives stale neighbours' values |
| GcdRingSafety.GcdIsPreserved | networks-distributed/distributed-gcd-ring/src/main/java/worker/WorkerListener.java:100-113 | For all integer inputs, in every reachable state, with lost, repeated, reordered and stale UPDATEs, the gcd of all current values is the gcd of the inputs |
| GcdRingSafety.ResultsAreMultiples | networks-distributed/distributed-gcd-ring/src/main/java/worker/WorkerListener.java:118-124 | Every RESULT, sent at any time, is a multiple of the gcd; for a positive input of its sender it is positive and at most that input, for any other it is that input or 1 |
| GcdRingQuiescence.DeliverKeepsTold | networks-distributed/distributed-gcd-ring/src/main/java/worker/WorkerListener.java:100-113 | Handling a positive UPDATE keeps, for both neighbours of an announced worker, that the neighbour is at or below its value or will still be told it |
| GcdRingQuiescence.QuietValuesEqual | networks-distributed/distributed-gcd-ring/src/main/java/worker/WorkerListener.java:45-113 | Where all neighbours were told and nothing is on its way, all values round the ring are equal |
| GcdRingQuiescence.QuiescenceIsGcd | networks-distributed/distributed-gcd-ring/src/main/java/worker/WorkerListener.java:45-113 | When nothing is in flight or waiting to be sent after a run without loss, every worker holds the gcd, also when UPDATEs were handled during start-up while sends were silently dropped |
| GcdRingQuiescence.QuiescenceIsGcdIff | networks-distributed/distributed-gcd-ring/src/main/java/chef/Chef.java:110-119 | Zeros and negative numbers are not rejected: at rest all workers hold the gcd if and only if the inputs are all positive or all zero |
| GcdRingQuiescence.LeastStays | networks-distributed/distributed-gcd-ring/src/main/java/worker/WorkerListener.java:100-113 | A worker that holds the least value of all, zero or negative, keeps it in every run |
| GcdRingQuiescence.QueryAtRest | networks-distributed/distributed-gcd-ring/src/main/java/worker/WorkerListener.java:118-124 | A query at rest is answered with the gcd, under the condition on the inputs |
| GcdRingTermination.StepLowersMeasures | networks-distributed/distributed-gcd-ring/src/main/java/messaging/MessageBroker.java:107-119 | For all integer values, a delivery lowers the message potential, no other step raises it, and every step that is not a query lowers the remaining work |
| GcdRingTermination.ProgressUnlessQuiescent | networks-distributed/distributed-gcd-ring/src/main/java/worker/WorkerListener.java:45-93 | A network that is not at rest can always take a step that does real work |
| GcdRingTermination.RunsTerminateWithGcd | networks-distributed/distributed-gcd-ring/src/main/java/worker/WorkerListener.java:45-113 | For all integer inputs a run without loss or repetition has a bounded number of deliveries (at most 2 * sum for positive inputs) and of steps (at most 5 * sum + 9 * n for natural ones); where it can go no further it is at rest, and holds the gcd if and only if the inputs are all positive or all zero |
| GcdRingTermination.EveryInputComesToRest | networks-distributed/distributed-gcd-ring/src/main/java/worker/WorkerListener.java:45-113 | For all integer inputs there is a run without loss or repetition to rest, so both directions of the condition have runs |
| GcdRingTermination.SpoiltResults | networks-distributed/distributed-gcd-ring/src/main/java/chef/Chef.java:116-119 | The inputs 0 5 and 4 -6 have runs to rest that end without the gcd |
| WorkerRuntime.WorkerListener.FirstUpdates | networks-distributed/distributed-gcd-ring/src/main/java/worker/WorkerListener.java:62-67 | The start-up sends one and the same value of M to both neighbours |
| WorkerRuntime.WorkerListener.ProcessUpdate | networks-distributed/distributed-gcd-ring/src/main/java/worker/WorkerListener.java:100-113 | Value and messages after an UPDATE are those of the ring step; a zero below M throws and changes nothing |
| WorkerRuntime.WorkerListener.OnMessage | networks-distributed/distributed-gcd-ring/src/main/java/worker/WorkerListener.java:76-93 | Dispatch by type: updates act as the ring step, a query answers with M, everything else leaves M alone |
| RingPlan.DealIsPermutation | networks-distributed/distributed-gcd-ring/src/main/java/models/WorkersRing.java:38-56 | For any number of computers the ring order is a permutation of the inputs |
| RingPlan.ColumnIsEveryCth | networks-distributed/distributed-gcd-ring/src/main/java/models/WorkersRing.java:38-56 | The k-th worker of computer i carries number k * c + i of the input line, and every full turn gives each computer one worker |
| RingPlan.WorkersRing.constructor | networks-distributed/distributed-gcd-ring/src/main/java/models/WorkersRing.java:38-56 | The nested loops build one linked cycle whose workers carry the dealt numbers and consecutive ports from 5000, grouped by computer |
| RingPlan.WorkersRing.AddWorker | networks-distributed/distributed-gcd-ring/src/main/java/models/WorkersRing.java:63-76 | Appends the worker to the cycle and keeps all links |
| RingPlan.RingIsOneCycle | networks-distributed/distributed-gcd-ring/src/main/java/models/WorkersRing.java:63-76 | `next` from the head visits every worker once and then returns to the head; `prev` inverts `next` |
| RingPlan.ProcessInput | networks-distributed/distributed-gcd-ring/src/main/java/chef/Chef.java:110-146 | Fewer than two numbers are refused; otherwise each SPAWN names its computer, number, port and the ports of its two ring neighbours |
| RingPlan.PlannedRingComputesGcd | networks-distributed/distributed-gcd-ring/src/main/java/chef/Chef.java:110-146 | The ring that the Chef plans, run without loss until it rests, gives every worker the gcd of the input line if and only if the numbers are all positive or all zero |
| RoutingNode.RoutingTable.UpdateEntry | networks-distributed/chatprotocol/src/main/java/routing/RoutingTable.java:41-53 | Only a first or strictly better route replaces the entry, and the answer says whether the table changed |
| RoutingNode.RoutingTable.GenerateRoutingUpdate | networks-distributed/chatprotocol/src/main/java/routing/RoutingTable.java:63-83 | Every entry not learnt from the excluded neighbour exactly once, with this node as next hop |
| RoutingNode.RoutingTable.GetNeighbors | networks-distributed/chatprotocol/src/main/java/routing/RoutingTable.java:122-132 | Exactly the entries with hop count 1, each once |
| RoutingNode.Server.HandleHello | networks-distributed/chatprotocol/src/main/java/networking/MessageHandler.java:22-33 | The sender becomes an entry of hop count 1 via itself unless there is one already |
| RoutingNode.Server.HandleRoutingInfo | networks-distributed/chatprotocol/src/main/java/networking/MessageHandler.java:35-47 | Each route in turn updates the table with its hop count plus one |
| RoutingNode.Server.HandleChatMessage | networks-distributed/chatprotocol/src/main/java/networking/MessageHandler.java:10-20 | Deliver here, or forward by the single-hop rule |
| RoutingNode.Server.ForwardMessage | networks-distributed/chatprotocol/src/main/java/networking/SimpleNIOServer.java:171-198 | Drop on expired TTL, missing entry or hop count 13, else send to the next hop with the TTL lowered |
| RoutingNode.Server.PropagateRoutingTable | networks-distributed/chatprotocol/src/main/java/networking/SimpleNIOServer.java:129-169 | As many messages as there are entries of hop count 1, to exactly their next hops, each with exactly the routes that split horizon allows |
| RoutingNetwork.StepIsSound | networks-distributed/chatprotocol/src/main/java/routing/RoutingTable.java:41-53 | Every hello, propagation and handled route keeps the invariant, and no hop count ever rises |
| RoutingNetwork.HopCountsAreSound | networks-distributed/chatprotocol/src/main/java/routing/RoutingTable.java:41-53 | In every reachable state, under any delay, reordering, loss or repetition, no hop count is below the true distance, and the next hop's own count is strictly smaller |
| RoutingNetwork.RoutingInfoIsHandledOffers | networks-distributed/chatprotocol/src/main/java/networking/MessageHandler.java:35-47 | Handling a whole routing message is handling its routes one by one, so the network's finer steps cover the handler |
| RoutingConvergence.NeededRouteIsOffered | networks-distributed/chatprotocol/src/main/java/routing/RoutingTable.java:74-81 | Split horizon never withholds a route whose addressee is farther from the target |
| RoutingConvergence.RoundExtendsAccuracy | networks-distributed/chatprotocol/src/main/java/networking/SimpleNIOServer.java:129-169 | A full exchange round extends exact hop counts by one hop of distance, whatever else is delivered in between |
| RoutingConvergence.RoundsMakeDistancesExact | networks-distributed/chatprotocol/src/main/java/networking/SimpleNIOServer.java:129-169 | After the hellos and r full rounds every hop count to a node at distance 1..r+1 is exactly the shortest distance |
| RoutingConvergence.FullRoundIsPossible | networks-distributed/chatprotocol/src/main/java/networking/SimpleNIOServer.java:129-169 | From any sound state with its hellos done a full round can be completed |
| RoutingConvergence.HellosCanBeDone | networks-distributed/chatprotocol/src/main/java/networking/MessageHandler.java:22-33 | On every graph a state in which all hellos are done is reachable |
| RoutingConvergence.DistancesCanBecomeExact | networks-distributed/chatprotocol/src/main/java/networking/SimpleNIOServer.java:129-169 | On every graph and for every r the hellos and r full rounds are possible, so the convergence theorem has instances |
| RoutingConvergence.RoutesAreStable | networks-distributed/chatprotocol/src/main/java/routing/RoutingTable.java:41-53 | In every run an entry stays as it is, next hop included, or gives way to a strictly shorter route; equally long routes never replace each other |
| RoutingConvergence.ExactEntriesAreFinal | networks-distributed/chatprotocol/src/main/java/routing/RoutingTable.java:41-53 | Once distances up to k are exact, their entries never change again |
| RoutingConvergence.SplitHorizonIsExact | networks-distributed/chatprotocol/src/main/java/routing/RoutingTable.java:74-81 | A route is sent to a neighbour if and only if it does not lead through it |
| RoutingConvergence.WithheldRouteIsUseless | networks-distributed/chatprotocol/src/main/java/routing/RoutingTable.java:74-81 | The neighbour from which a route is withheld is its target or has a shorter one |
| RoutingForwarding.TtlBoundsForwards | networks-distributed/chatprotocol/src/main/java/networking/SimpleNIOServer.java:171-198 | On any table contents, loops included, a delivered message took fewer forwards than its TTL |
| RoutingForwarding.KnownTargetsAreReached | networks-distributed/chatprotocol/src/main/java/networking/SimpleNIOServer.java:171-198 | While tables keep changing, a message with TTL above the hop count and hop count at most 12 is delivered within that many forwards |
| RoutingForwarding.DeliveredIffNear | networks-distributed/chatprotocol/src/main/java/networking/SimpleNIOServer.java:171-198 | With exact tables a message arrives if and only if the distance is 0 or below both 13 and the TTL, and takes exactly that many forwards |
| RoutingForwarding.ConvergedNetworkDelivers | networks-distributed/chatprotocol/src/main/java/networking/SimpleNIOServer.java:161-198 | After the hellos and r full rounds, TTL 13 reaches a node at distance at most r+1 if and only if the distance is at most 12 |
| Neighbors.ExtractNeighbors | networks-distributed/distributed-robotarm-control/src/main/java/TerminalClient/Client.java:255-289 | The filter, sort and scan loops return the cyclic successor in id order, or none |
| Neighbors.NextIsCyclicSuccessor | networks-distributed/distributed-robotarm-control/src/main/java/TerminalClient/Client.java:255-289 | Independently of the sort: the smallest larger id or, for the largest, the smallest of all |
| Neighbors.NoNeighborIff | networks-distributed/distributed-robotarm-control/src/main/java/TerminalClient/Client.java:262-286 | No neighbour if and only if the client is the only one listed or is not listed |
| Neighbors.TokenVisitsEveryClient | networks-distributed/distributed-robotarm-control/src/main/java/TerminalClient/Client.java:255-289 | Forwarding along the neighbours visits every other client exactly once and then returns to the start |
| TokenSafety.ChosenIsOfSameEra | networks-distributed/distributed-robotarm-control/src/main/java/TerminalClient/Client.java:43-62 | However old the listing, the chosen neighbour was registered together with the client that chose it |
| TokenSafety.StepIsGood | networks-distributed/distributed-robotarm-control/src/main/java/RegistryService/RegistryServer.java:92-135 | Every registry request, departure, forward, failure and robot use keeps at most one token per era, except exactly the mint into an era in which a client, registered or departed, has a token |
| TokenSafety.OneTokenIff | networks-distributed/distributed-robotarm-control/src/main/java/RegistryService/RegistryServer.java:95-128 | In every state of a run each era has at most one token if and only if no mint of the run falls into an era in which a client, registered or departed, has one |
| TokenSafety.TokenIsUnique | networks-distributed/distributed-robotarm-control/src/main/java/RegistryService/RegistryServer.java:95-128 | After a run with no such mint, registered clients hold at most one token between them, however the steps interleave |
| TokenSafety.RobotIsExclusive | networks-distributed/distributed-robotarm-control/src/main/java/TerminalClient/Client.java:240-247 | After a run with no such mint, two registered clients are never both in the robot control |
| TokenStrategy.SafeHistoryIff | networks-distributed/distributed-robotarm-control/src/main/java/RegistryService/RegistryServer.java:95-128 | A history of registry requests keeps the token unique under every behaviour of the clients if and only if each mint in it is for a client that was put while no other was registered; the registry can check that |
| TokenStrategy.RequestStaysTidy | networks-distributed/distributed-robotarm-control/src/main/java/TerminalClient/Client.java:43-62 | Clients can always keep the token with a registered client, handing it on before its holder leaves |
| TokenRace.SerialisedRunsAreSafe | networks-distributed/distributed-robotarm-control/src/main/java/RegistryService/RegistryServer.java:123-128 | The token is unique in every run in which no UNREGISTER is served during a REGISTER |
| TokenRace.MintBreaksAtOnceIff | networks-distributed/distributed-robotarm-control/src/main/java/RegistryService/RegistryServer.java:108-119 | The second token shows among the registered clients right after the mint if and only if the one client counted has already been given a token |
| TokenRace.MintBreaksLater | networks-distributed/distributed-robotarm-control/src/main/java/TerminalClient/Client.java:43-62 | Otherwise it can show later: a reachable mint after which the registered clients hold one token, until the departed holder sends the first one on |
| TokenRace.RaceBreaksExclusion | networks-distributed/distributed-robotarm-control/src/main/java/RegistryService/RegistryServer.java:95-128 | The code does not exclude it: a run with an UNREGISTER inside a REGISTER ends with two registered clients steering the robot |
| TokenBalance.TokensAreMintsMinusLosses | networks-distributed/distributed-robotarm-control/src/main/java/TerminalClient/Client.java:43-96 | In every reachable state the clients hold exactly the tokens that were minted and not lost by a vanished message, a failed fetch or a robot call that threw |
| TokenBalance.OwnStepBalances | networks-distributed/distributed-robotarm-control/src/main/java/TerminalClient/Client.java:240-247 | A client's own step gives away one token by sending it, loses one by a loss, and otherwise keeps its tokens: also without a neighbour, after a failed send and when the robot control is left |
| TokenBalance.TokenIsNeverStuck | networks-distributed/distributed-robotarm-control/src/main/java/TerminalClient/Client.java:67-96 | As long as no robot call of a client threw, a token it holds can always be brought on to its manager; in particular the user's semaphore gets back what the robot control took |
| TokenRound.PassesOn | networks-distributed/distributed-robotarm-control/src/main/java/TerminalClient/Client.java:67-96 | One pass: listing, choice, send, arrival, user's turn and reclaiming bring the token to the next client by id; nothing else changes and all clients are at work again |
| TokenRound.TokenReachesEveryClient | networks-distributed/distributed-robotarm-control/src/main/java/TerminalClient/Client.java:67-96 | While all registered clients are at work the token can be brought to any of them with fewer passes than there are clients, and with as many it is back at its holder |
| TokenObjects.RegistryServer.Put | networks-distributed/distributed-robotarm-control/src/main/java/RegistryService/RegistryServer.java:95-106 | A taken name changes nothing; a new one gets the next id and is stored, as in the Register step |
| TokenObjects.RegistryServer.SendsToken | networks-distributed/distributed-robotarm-control/src/main/java/RegistryService/RegistryServer.java:108-119 | The counting loop decides for a token exactly when one client is registered, which with a client still open is the mint of the FinishRegister step |
| TokenObjects.RegistryServer.Unregister | networks-distributed/distributed-robotarm-control/src/main/java/RegistryService/RegistryServer.java:123-128 | Removes the name and reports what it held, as in the Unregister step |
| TokenObjects.TerminalClient.ReceiveToken | networks-distributed/distributed-robotarm-control/src/main/java/Messaging/COM.java:106-123 | A TOKEN becomes a permit of the token semaphore and enters no queue |
| TokenObjects.TerminalClient.AttemptSendToken | networks-distributed/distributed-robotarm-control/src/main/java/TerminalClient/Client.java:43-62 | No listing ends the thread; no neighbour or a failed send returns the token to the user; a delivered send gives it away |
| TokenObjects.TerminalClient.EndControl | networks-distributed/distributed-robotarm-control/src/main/java/TerminalClient/Client.java:240-247 | Only a robot call that returns gives the permit back, as the token balance demands; one that throws loses the token |
| Crossover.MissingStudentHasSeat | algorithms-datastructure/cpa-carnivorous-plant-algorithm/src/main/java/Sitzordnung/Sitzordnung.java:324-334 | By counting: while a student is missing, the scan from the back finds an empty seat |
| Crossover.ChildIsSeating | algorithms-datastructure/cpa-carnivorous-plant-algorithm/src/main/java/Sitzordnung/Sitzordnung.java:293-337 | The child seats every student 1..n exactly once, for any two parents with students of the class in a room that is large enough |
| Crossover.ChildInherits | algorithms-datastructure/cpa-carnivorous-plant-algorithm/src/main/java/Sitzordnung/Sitzordnung.java:304-323 | In every seat sits the dominant parent's student, unless that seat was empty or the student sits further to the front; then the other parent's student, with the same exception; and else nobody or a student who was missing |
| Crossover.ChildIsFilledFromBack | algorithms-datastructure/cpa-carnivorous-plant-algorithm/src/main/java/Sitzordnung/Sitzordnung.java:324-334 | The missing students fill the empty seats from the back in ascending order |
| Crossover.ChildOfTwins | algorithms-datastructure/cpa-carnivorous-plant-algorithm/src/main/java/Sitzordnung/Sitzordnung.java:293-337 | Crossing a seating with itself gives it back |
| SeatingPlans.BuildChild | algorithms-datastructure/cpa-carnivorous-plant-algorithm/src/main/java/Sitzordnung/Sitzordnung.java:304-334 | The two loops of the crossover compute the child whose every seat the inheritance and filling theorems determine |
| SeatingPlans.ListTo2DArray | algorithms-datastructure/cpa-carnivorous-plant-algorithm/src/main/java/Sitzordnung/Sitzordnung.java:347-358 | Round trip: reading the rows of the array gives the list back, padded with empty seats; a list that is too long is refused |
| SeatingPlans.SeatingPlan.Create | algorithms-datastructure/cpa-carnivorous-plant-algorithm/src/main/java/Sitzordnung/Sitzordnung.java:71-92 | A random plan is a seating; it throws exactly for bad dimensions, too many students, or fewer than 22 students with the second set of example relations |
| SeatingPlans.SeatingPlan.Mutate | algorithms-datastructure/cpa-carnivorous-plant-algorithm/src/main/java/Sitzordnung/Sitzordnung.java:273-284 | The seats are the old ones with two places swapped, and still a seating |
| SeatingPlans.SeatingPlan.Recombine | algorithms-datastructure/cpa-carnivorous-plant-algorithm/src/main/java/Sitzordnung/Sitzordnung.java:293-337 | A new plan in its own array, holding the child of both parents |
| Evolution.CPA.Generation | algorithms-datastructure/cpa-carnivorous-plant-algorithm/src/main/java/CPA/CPA.java:128-197 | The population keeps its size, every plan stays a seating and no two plans ever share their seats, so mutation in place leaves the old plants' seats alone; the final cut removes nobody, so every prey plan survives; the population is ranked, with invalid plans at the worst fitness number |
| Evolution.CPA.Grow | algorithms-datastructure/cpa-carnivorous-plant-algorithm/src/main/java/CPA/CPA.java:139-154 | Each new plant is one of the best old plans or was bred from it and a prey plan, and the new plants are ranked by fitness number |
| Evolution.CPA.MutatePrey | algorithms-datastructure/cpa-carnivorous-plant-algorithm/src/main/java/CPA/CPA.java:158-167 | Mutation in place reaches only the prey: all plans stay seatings and the plants' seats stay as they were |
| Evolution.CPA.Reproduce | algorithms-datastructure/cpa-carnivorous-plant-algorithm/src/main/java/CPA/CPA.java:171-183 | A new plant gives way only to a child of the best new plant and the old plant of its place, whose fitness number is larger |
| Evolution.UnsharedTogether | algorithms-datastructure/cpa-carnivorous-plant-algorithm/src/main/java/CPA/CPA.java:186-188 | Plans without duplicates and with seats of their own stay so when plants and prey are joined |
| Evolution.CPA.PenaliseInvalid | algorithms-datastructure/cpa-carnivorous-plant-algorithm/src/main/java/CPA/CPA.java:190-193 | Exactly the invalid plans get the worst fitness number |
| Evolution.CPA.Run | algorithms-datastructure/cpa-carnivorous-plant-algorithm/src/main/java/CPA/CPA.java:88-237 | After any number of generations the population has its size, all plans are seatings, and the result is one with the smallest fitness value |
| RegionTimers.FirstPhaseTick | embedded-systems/code/src/HFSM/regionTimer.hpp:61-75 | A tick of the first phase keeps the time bounds under any change of speed |
| RegionTimers.TimerFiresInTime | embedded-systems/code/src/HFSM/regionTimer.hpp:40-87 | The time event fires at most once, with unpaused time in [0.93 Bmin, 0.93 Bmax + D), and before the tolerance event, which fires at most once, in [0.4 Bmin, 0.4 Bmax + D) after it and in [1.33 Bmin, 1.33 Bmax + 2D) in all; neither is overdue |
| TimerEvents.TimeUpIff | embedded-systems/code/src/HFSM/regionTimer.hpp:61-75 | For positive base times, the time event has fired if and only if the unpaused time at the fast speed over the fast base time and that at the slow speed over the slow one add up to 0.93 |
| TimerEvents.ToleranceUpIff | embedded-systems/code/src/HFSM/regionTimer.hpp:76-86 | After the time event, an input fires the tolerance event if and only if it is a tick while the timer runs and the time since then has reached 0.4 of the base time of the speed of this tick |
| TimerEvents.TimeUpIsRecorded | embedded-systems/code/src/HFSM/regionTimer.hpp:61-75 | The time event fires at the unpaused time of the inputs up to its tick |
| RegionTimers.NoBaseTimeNoEvent | embedded-systems/code/src/HFSM/regionTimer.hpp:61-75 | Base times that are not positive stop the clock: no event ever fires |
| RegionTimers.RegionTimer.Update | embedded-systems/code/src/HFSM/regionTimer.hpp:55-87 | The tick method's new fields and the callback it invokes are those of the timer's step |
| RegionTimers.RegionTimer.Start | embedded-systems/code/src/HFSM/regionTimer.hpp:40-53 | A start resets the whole state |
| ChargingClusters.RunKeepsAuctions | networks-distributed/cyber-physical-system/src/charging_system/charging_cluster.py:126-376 | Over every message sequence each auctioned port exists and is free, each auction runs with 1..5 ticks and a price in [0.01, 50], and the uncoordinated mode has none |
| ChargingClusters.OccupiedPortsAreKept | networks-distributed/cyber-physical-system/src/charging_system/charging_cluster.py:262-276 | An occupied port changes only by a release of its own vehicle |
| ChargingClusters.PortIsKeptUntilReleased | networks-distributed/cyber-physical-system/src/charging_system/charging_cluster.py:126-276 | Over every message sequence, mode flips included, a port that a vehicle occupies stays its own until the first release of that vehicle |
| ChargingClusters.PortsAreTakenFairly | networks-distributed/cyber-physical-system/src/charging_system/charging_cluster.py:182-249 | A port is taken only by a bid at or above the price of its running auction or, uncoordinated, by the vehicle whose place in the queue matches |
| ChargingClusters.ReleasedFreesFirst | networks-distributed/cyber-physical-system/src/charging_system/charging_cluster.py:262-276 | A release frees the first port of the vehicle and nothing else |
| ChargingService.BidWinsIff | networks-distributed/cyber-physical-system/src/charging_system/charging_cluster.py:210-249 | A coordinated bid at or above the price of a running auction takes its port and ends the auction; any other changes nothing |
| ChargingService.ReleaseFreesPort | networks-distributed/cyber-physical-system/src/charging_system/charging_cluster.py:262-276 | A release frees the vehicle's first port, if it has one |
| ChargingService.TickMovesAuction | networks-distributed/cyber-physical-system/src/charging_system/auction_state.py:45-59 | A tick takes one tick from an auction; one of a single remaining tick ends, and its port is auctioned anew if the buffer holds enough |
| ChargingService.FreePortsAreAuctioned | networks-distributed/cyber-physical-system/src/charging_system/charging_cluster.py:304-335 | With enough in the buffer exactly the free ports are auctioned after a tick; with less no auction starts |
| ChargingService.PricesFollowBalance | networks-distributed/cyber-physical-system/src/charging_system/grid_monitor.py:28-50 | A surplus lowers the price of a running auction, a deficit raises it, both by 5 % within the limits |
| ChargingService.StartPriceNeedsNoLimits | networks-distributed/cyber-physical-system/src/charging_system/charging_cluster.py:278-294 | The start price is proportional to one plus the share of taken ports and to the grid factor, so it lies in [0.40, 1.50] and its limits are never reached |
| ChargingService.NewAuctionPrice | networks-distributed/cyber-physical-system/src/charging_system/charging_cluster.py:304-335 | An auction that starts with a tick has five ticks and, times the number of ports, the price base * grid factor * (ports + taken ports) |
| ChargingService.PowerOfPorts | networks-distributed/cyber-physical-system/src/charging_system/charging_cluster.py:378-423 | The ports together draw 3.7 kW for each taken one |
| ChargingService.QueueIsServed | networks-distributed/cyber-physical-system/src/charging_system/charging_cluster.py:182-208 | An uncoordinated tick serves min(queue, free ports) vehicles from the front, each at the next free port |
| ChargingService.RunKeepsQueue | networks-distributed/cyber-physical-system/src/charging_system/charging_cluster.py:216-221 | Over every message sequence no vehicle is in the queue twice |
| ChargingService.WaitsUntilServed | networks-distributed/cyber-physical-system/src/charging_system/charging_cluster.py:126-221 | Over every message sequence a vehicle in the queue stays there until a tick gives it a port or the queue is cleared |
| ChargingService.RunFollowsMessages | networks-distributed/cyber-physical-system/src/charging_system/charging_cluster.py:126-150 | Mode and grid balance are those of the last such message |
| ChargingService.EnergyFlows | networks-distributed/cyber-physical-system/src/charging_system/charging_cluster.py:378-423 | A tick charges the buffer only with a surplus above 5, by as much as fits; the buffer supplies the ports before the grid does; and a share of what remains is lost |
| ChargingClusters.EnergyBalances | networks-distributed/cyber-physical-system/src/charging_system/charging_cluster.py:378-423 | Over every run the buffer stays within its capacity, its energy balances exactly, and buffer plus grid supply is the ports' power times tick length |
| ChargingObjects.AuctionState.TickAuction | networks-distributed/cyber-physical-system/src/charging_system/auction_state.py:45-59 | One tick lowers the count, moves the price within its limits and expires the auction at zero |
| ChargingObjects.AuctionState.AcceptBid | networks-distributed/cyber-physical-system/src/charging_system/auction_state.py:61-84 | A bid wins exactly when the auction is active and the bid reaches the price |
| ChargingObjects.ChargingCluster.HandleTick | networks-distributed/cyber-physical-system/src/charging_system/charging_cluster.py:152-180 | The tick's loops compute the cluster's next state |
| ChargingObjects.ChargingCluster.HandleBid | networks-distributed/cyber-physical-system/src/charging_system/charging_cluster.py:210-252 | The bid handler computes the cluster's next state |
| ChargingObjects.ChargingCluster.HandleAdaptiveMode | networks-distributed/cyber-physical-system/src/charging_system/charging_cluster.py:126-150 | Leaving the coordinated mode cancels all auctions and empties the queue |
| ChargingObjects.ChargingCluster.UpdateBuffer | networks-distributed/cyber-physical-system/src/charging_system/charging_cluster.py:378-423 | Charging, supply and loss of one tick |

## Left out

- Sockets, JMS, MQTT, JSON, process spawning, console input and CSV output; channels are multisets or sets of messages.
- The Chef's fixed waiting times and its result latch, and further rounds in one session; the code does not detect termination.
- Reading the `producer` field without synchronisation while the worker starts: a thread sees the latest value.
- Goodbye messages, stale-entry removal and time stamps of the routing table: the theorems are for a fixed topology.
- Nodes that first hear of themselves from a neighbour keep such an entry, as in the code; the theorems on distances cover it.
- The extra semaphore permits that a closing client releases to wake its threads, and everything such a client does with them.
- Token liveness against every schedule: the code gives no guarantee once a holder leaves, fails or throws; `TokenRound` says what clients at work can do.
- TokenSafety.TokenIsUnique: holds for runs in which no mint falls into an era that has a token, because the code does not provide it for all runs; the exact condition is `TokenSafety.OneTokenIff`.
- The evaluation of seatings and their validity; of the example relations only that the second set throws for fewer than 22 students.
- Populations without prey, for which drawing a random prey plan throws.
- Callbacks of the timer that call back into the timer.
- ChargingObjects.ChargingCluster.HandleTick: stores its auctions as values in a map, so two references to one auction object are not modelled; the auction object itself is `AuctionState`.
- Malformed and incomplete messages of the charging cluster; its handlers drop them with an exception before any change.
- Electric vehicles, wind turbine, robot arm movements, the conveyor's hierarchical state machine, hardware drivers.
