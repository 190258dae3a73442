# Verified model of the golancer control core

golancer is an HTTP load balancer. This project models the parts of it that decide
something: which backend a request goes to, which client a request came from, which
backends count as healthy, what a reader of the backend list sees while others change
it, and what happens to a request whose backend cannot be reached. It proves what these
parts keep, over every input, every interleaving or every history.

| file | what it holds |
|---|---|
| `Domain.dfy` | the shared backend object, the id supply, Go's fixed-width integers |
| `Registry.dfy` | the copy-on-write registry as a class over real arrays, one call at a time |
| `RegistryRuns.dfy` | the same registry as interleaved lock, load, in-place write, store and unlock steps with lock-free readers |
| `HealthRuns.dfy` | the registry's interleavings together with the flag stores of SetHealthy and the flag-by-flag scans of ListHealthyBackends; what the selectors make of such a scan |
| `RoundRobin.dfy` | the wrapping counter and the modular sweep; exact shares under failures, and when it is fair |
| `WeightedBands.dfy` | random and hash selection over weight bands; exact counting |
| `LeastConnections.dfy` | cross-multiplied comparison and the fairness of greedy selection |
| `Hysteresis.dfy` | the two-threshold health automaton over whole probe histories |
| `Prober.dfy` | the prober as a class: recording, pruning, worker scheduling, one round |
| `Churn.dfy` | probe rounds interleaved with registrations and removals |
| `Affinity.dfy` | what a sticky key is routed to over such runs |
| `Forwarding.dfy` | the X-Forwarded-For walk, the header rewrite, and chains of balancers |
| `Proxy.dfy` | the retry loop and one proxied attempt |
| `Failover.dfy` | the retry loop together with the round-robin and hash selectors, and with churn between sticky attempts |
| `Connections.dfy` | the connection counters under concurrent requests |
| `Lists.dfy`, `Arithmetic.dfy`, `Wrappers.dfy` | filtering, sums and products, Option and Result |

Where golancer updates something in place, the model does: classes with fields, arrays
written by index, loops with invariants. Each such method is proved against a
specification function, and the theorems are about that function. Concurrency is modelled
by state machines whose actions are the separate atomic steps of the code.

Libraries are contracts: address parsing, trusted networks and the hash are arbitrary
functions, a random draw is any number below its bound, a probe's outcome is an arbitrary
boolean, and the reverse proxy either writes one response or calls its error handler
before writing anything.

## Findings

- The round-robin sweep adds in uint32 before it reduces modulo the list length. A sweep
  that crosses the wrap looks at every backend exactly when the list length divides 2^32;
  otherwise it overlooks one and can refuse a request although a backend is healthy
  (`RoundRobin.SweepCoversIff`, `RoundRobin.RefusesOnlyWhenNoneHealthyIff`; three backends
  and the last counter value: `RoundRobin.WrapOverlooksThirdBackend`).
- Round-robin gives healthy backends counts that differ by at most one exactly when every
  backend is healthy or at most one is (`RoundRobin.FairIff`). The FIXME in
  `round_robin.go` speaks of several backends down; one is enough as soon as two others are
  up. The shares are exact: a healthy backend answers for itself and for the run of
  unhealthy ones just before it (`RoundRobin.ShareOfOneTurn`).
- Sticky routing has no failover, as the comment in `ServeHTTP` says: as long as the same
  backends are healthy, all attempts of a request go to one backend, whatever rounds,
  evictions, registrations and removals come between them (`Failover.StickyHasNoFailover`).

One caution that ordinary traffic does not meet: for an untrusted peer `ClientIP` returns the
raw host text and not the parsed address. So while the client's address survives any chain of
balancers, the text, which is the sticky-routing key, does so exactly when the peer was
trusted or its address was written canonically (`Forwarding.KeySurvivesChainIff`;
`Forwarding.MappedPeerChangesKey` is an input where it changes). The TCP listener of
`net/http` writes addresses canonically, so only a listener or a wrapper that sets
`RemoteAddr` itself can bring this about.

## Model

| member | source | states |
|---|---|---|
| Forwarding.ClientIP | internal/proxy/proxy.go:181-203 | an untrusted or unparsable peer is named by the host text of RemoteAddr; a trusted one by the text of the address its forwarded hops originate from; the two loops compute it |
| Forwarding.WalkFindsOrigin | internal/proxy/proxy.go:176-203 | the walk's answer is, and is the only one that is, the rightmost address outside the trusted set, or the last believed one behind a malformed hop or at the end of the list |
| Forwarding.ForgedPrefixIsIgnored | internal/proxy/proxy.go:176-180 | field lines sent before an untrusted or malformed hop never change the client; when every hop is trusted, they decide it |
| Forwarding.FieldLinesCombine | internal/proxy/proxy.go:187-190 | one line "x,y" and two lines "x" and "y" name the same client |
| Forwarding.SplitAtComma | internal/proxy/proxy.go:189 | splitting distributes over a comma |
| Forwarding.SplitIff | internal/proxy/proxy.go:189 | the parts are the only ones without commas that give the text back when joined by commas |
| Forwarding.TrimSpaceRemovesBlanks | internal/proxy/proxy.go:193 | blanks around a hop go, and nothing else |
| Forwarding.ProxyRequest.SetForwarded | internal/proxy/proxy.go:163-174 | from an untrusted peer the outbound list is the peer alone and the scheme that of the connection, whatever headers came in; from a trusted one the inbound list with the peer appended, claiming the same addresses and the peer, and its scheme if it names one |
| Forwarding.ClientSurvivesHop | internal/proxy/proxy.go:163-203 | what one balancer forwards, the next resolves to the same client |
| Forwarding.ClientSurvivesChain | internal/proxy/proxy.go:163-203 | the same over a chain of any length, whatever list the first request carried |
| Forwarding.KeySurvivesChainIff | internal/proxy/proxy.go:181-185 | the returned text is the same at both ends of a chain exactly when the peer was trusted or its host text was canonical |
| Forwarding.MappedPeerChangesKey | internal/proxy/proxy.go:181-185 | a caller whose RemoteAddr is an IPv4-mapped address has one key at the first balancer and another at the second |
| Forwarding.SchemeSurvivesChain | internal/proxy/proxy.go:171-173 | the scheme chosen by the first balancer is the one the last one forwards, whatever Host and TLS state each hop has |
| RoundRobin.RoundRobinSelector.GetServer | internal/balancer/round_robin.go:21-35 | the counter advances by one in 32 bits and the sweep's first healthy backend is returned; an empty list moves nothing |
| RoundRobin.SweepFindsFirst | internal/balancer/round_robin.go:28-34 | the sweep returns the first healthy index it looks at and gives up only when all it looked at are unhealthy |
| RoundRobin.SweepCoversIff | internal/balancer/round_robin.go:27-29 | a sweep looks at every index, each once, exactly when the counter does not wrap in it or the length divides 2^32 |
| RoundRobin.RefusesOnlyWhenNoneHealthyIff | internal/balancer/round_robin.go:28-34 | a refusal always means that none is healthy exactly under that condition |
| RoundRobin.WrapOverlooksThirdBackend | internal/balancer/round_robin.go:27-29 | the concrete overlooked backend |
| RoundRobin.ReturnedWasHealthy | internal/balancer/round_robin.go:28-34 | with flags changing during the sweep and the counter anywhere, a returned backend was healthy at some moment of the call, and a refusal saw each backend it looked at unhealthy |
| RoundRobin.SteadyBackendIsEnough | internal/balancer/round_robin.go:28-34 | unless the counter wraps at the wrong place, a call is not refused while one backend stays healthy throughout |
| RoundRobin.ChosenIff | internal/balancer/round_robin.go:18-35 | a call goes to healthy backend k exactly when the counter stands on k or in the unhealthy run before it |
| RoundRobin.ShareOfOneTurn | internal/balancer/round_robin.go:18-35 | over any n calls in a row healthy backend k gets one call plus the length of the unhealthy run before it, also across the wrap of the counter when n divides 2^32 |
| RoundRobin.ShareOfManyCalls | internal/balancer/round_robin.go:18-35 | over any m calls its share lies between the whole turns' worth and one turn's worth more |
| RoundRobin.FairIff | internal/balancer/round_robin.go:18-35 | over any stretch of calls the healthy backends' counts differ by at most one exactly when all backends are healthy or at most one is |
| RoundRobin.FairWhenAllHealthy | internal/balancer/round_robin.go:18-35 | with all backends up, counts differ by at most one after any number of calls, up to the wrap of the counter and, when n divides 2^32, across it |
| RoundRobin.UnfairWhenNeighboursAreDown | internal/balancer/round_robin.go:20 | with only two neighbours up, one of them gets all calls of a turn but one |
| WeightedBands.RandomSelector.GetServer | internal/balancer/random.go:22-47 | the selected backend is the one whose band the drawn number falls into; the uint64 total does not wrap, the fallback is unreachable |
| WeightedBands.HashSelector.GetServerForKey | internal/balancer/hash.go:27-53 | the same with the key's hash modulo the total weight |
| WeightedBands.WalkBands | internal/balancer/hash.go:44-52 | the subtracting loop ends inside a band, never behind the last |
| WeightedBands.BandIff | internal/balancer/hash.go:42-43 | each number below the total lies in exactly one backend's band |
| WeightedBands.HashPickIff | internal/balancer/hash.go:38-49 | the selected backend is the one whose band the hash modulo the total falls into |
| WeightedBands.BandsAreExact | internal/balancer/random.go:33-42 | of all draws exactly its weight many select each backend |
| WeightedBands.HashSharesAreProportional | internal/balancer/hash.go:40-49 | over the first m hash values, 2^32 or any other number, each backend gets between weight times the rounded-down and the rounded-up number of totals in m |
| LeastConnections.LeastConnectionsSelector.GetServer | internal/balancer/least_connections.go:19-32 | a refusal exactly when none is healthy; else, when counts are not negative and weights valid, the first healthy backend in registration order whose connections times any other weight are at most that other's connections times its own weight, and fewer for those before it |
| LeastConnections.CompareIsRatioOrder | internal/balancer/least_connections.go:25-30 | for sound loads the products never wrap and the comparator is the order of connections per weight |
| LeastConnections.CompareIsWrapped | internal/balancer/least_connections.go:28-30 | for all counts, negative ones too, it is the order of the exact cross products modulo 2^64 |
| LeastConnections.StrictWeakOrder | internal/balancer/least_connections.go:24-31 | the comparator is a strict weak order, as the library's minimum requires |
| LeastConnections.MinIndexIff | internal/balancer/least_connections.go:18-31 | the selected backend is the first of those with the lowest ratio over the whole list, and the only one with that property |
| LeastConnections.NegativeCountLooksBusy | internal/balancer/least_connections.go:28-30 | any negative count loses against every sound load, so the conversion needs non-negative counts |
| LeastConnections.GreedyIsBalanced | internal/balancer/least_connections.go:18-32 | after any run of select-then-acquire, giving one connection back never leaves a backend more loaded than another |
| LeastConnections.GreedyIsProportional | internal/balancer/least_connections.go:18-32 | hence every backend holds its weight's share to within one connection per backend |
| Hysteresis.StreakIsTrailingRun | internal/health/prober.go:183-207 | after any history the clamped counter is the signed length of the trailing run of equal results, clamped to the thresholds |
| Hysteresis.AtThresholdIff | internal/health/prober.go:183-207 | it stands at a threshold exactly when the last that many results agree |
| Hysteresis.FlagIsLatestVerdict | internal/health/prober.go:177-207 | the flag is the verdict of the latest probe that ended a run at its threshold or was an initial success, and false before any |
| Hysteresis.FlagChangesOnEvidence | internal/health/prober.go:64-66 | the flag falls only after UnhealthyThreshold failures in a row and rises only after HealthyThreshold successes or an initial one |
| Hysteresis.FlapBudget | internal/health/prober.go:177-207 | HealthyThreshold times the up reports plus UnhealthyThreshold times the down reports stays within the number of probes, plus one HealthyThreshold for each initial success; the same for changes of the flag |
| Hysteresis.CountsAreExact | internal/health/prober.go:177-207 | what the budget counts: each probe that reports, that flips the flag, or that is an initial success |
| Hysteresis.BudgetIsTight | internal/health/prober.go:177-207 | histories of every length in cycles use the budget up |
| Prober.Prober.Record | internal/health/prober.go:183-207 | a backend whose flag and streak are those of some probe history has those of the history with this result appended, and every other backend keeps its own |
| Prober.Prober.ProbeAll | internal/health/prober.go:138-149 | every start and completion order of the workers under every limit gives the same results |
| Prober.Prober.ProbeRound | internal/health/prober.go:118-154 | the same for every listed backend over a whole round; afterwards exactly the listed backends have streaks |
| Churn.HysteresisUnderChurn | internal/health/prober.go:118-207 | in every interleaving a registered backend's streak and flag are those of its whole history; at a threshold the flag says so |
| Churn.FlagMovesOnEvidence | internal/health/prober.go:177-207 | in every interleaving only the prober's store moves a registered backend's flag, and only on evidence |
| Churn.RoundLeavesItsStreaks | internal/health/prober.go:121-132 | at the end of a round the streak map holds exactly the backends the round listed, registered by then or not |
| Churn.RoundRecords | internal/health/prober.go:118-154 | a round appends result i to the history of the i-th backend listed when it started, whatever registrations, removals and stores come in between, and nothing to any other |
| Churn.RegisteredIff | internal/backend/registry.go:60-94 | registered are the seed and later registrations that were not removed, in order of creation and with the weights they came with |
| Churn.RemovedKeepsFlag | internal/health/prober.go:190-204 | a backend that has left the registry keeps its flag, unless the prober had found it before and is about to store |
| Churn.RoundFinishes | internal/health/prober.go:151-153 | a round that has its results can always be finished by the prober alone |
| Affinity.AffinityIsStable | internal/balancer/hash.go:9-11 | any run of registrations, removals and probes that ends with the same healthy members routes every key as before |
| Affinity.RoutedBand | internal/balancer/hash.go:38-49 | a key goes to the registered healthy backend whose stretch the hash falls into, the backends laid end to end in registration order by their weights |
| Affinity.RoutedIff | internal/balancer/hash.go:28-36 | a key is refused exactly when no backend is healthy, and else goes to a registered healthy one |
| Registry.Registry.AddNewBackend | internal/backend/registry.go:60-73 | a known URL is refused and changes nothing; else the list is the old one with a fresh, unhealthy, idle backend appended, in a new array |
| Registry.Registry.RemoveInstanceByID | internal/backend/registry.go:78-94 | the list without that id, in a new array; an unknown id changes nothing |
| Registry.Registry.ListHealthyBackends | internal/backend/registry.go:44-56 | exactly the positions of the list whose backend is healthy, in increasing order |
| Registry.Registry.SetHealthy | internal/backend/registry.go:97-105 | sets the flag of the listed backend of that id and no other |
| Registry.DeleteFunc | internal/backend/registry.go:89-91 | the in-place loop leaves the survivors in order and clears the cells behind them |
| Registry.WithoutKeeps | internal/backend/registry.go:75-94 | removal keeps ids and URLs distinct and weights valid |
| RegistryRuns.Linearizable | internal/backend/registry.go:13-94 | in every interleaving the events form a history of a sequential registry and the list is what that history leaves; ids stay distinct, URLs if the seed's were |
| RegistryRuns.ListIsWhatStays | internal/backend/registry.go:58-94 | cell by cell the current list holds, in the order in which they came in, exactly the entries that were never removed; no identity is given twice |
| RegistryRuns.CallsAreAnswered | internal/backend/registry.go:58-94 | a call for an operation has, when it returns, taken effect at one event between call and return; that event is what it returns and answers that operation |
| RegistryRuns.SnapshotsNeverChange | internal/backend/registry.go:16-19 | the array behind a list handed to a reader never changes again, although append and DeleteFunc write in place |
| RegistryRuns.ReaderKeepsItsList | internal/backend/registry.go:31-38 | a reader is given the list of that moment, and the cells it was given are the same after any later interleaving |
| RegistryRuns.NoPanic | internal/backend/registry.go:58-94 | no step of any interleaving indexes out of range or follows a nil |
| RegistryRuns.WriterFinishes | internal/backend/registry.go:60-94 | from every reachable state a writer that holds the lock can finish by its own steps alone, and the lock is free then |
| HealthRuns.RunsTheRegistry | internal/backend/registry.go:13-105 | an interleaving with flag stores and scans does to the registry what some interleaving of its own steps does |
| HealthRuns.Linearizable | internal/backend/registry.go:13-105 | with add, remove, list, set-health and scans interleaved, the events are still a sequential history and the list what it leaves |
| HealthRuns.SnapshotsNeverChange | internal/backend/registry.go:16-19 | nor does any list a reader, a scan or a search has loaded ever change |
| HealthRuns.NoPanic | internal/backend/registry.go:44-105 | no scan, search or registry step indexes out of range or follows a nil |
| HealthRuns.FlagsMoveBySetHealthy | internal/backend/registry.go:97-105 | in every interleaving a listed backend's flag moves only by a SetHealthy call for it |
| HealthRuns.SetHealthyCall | internal/backend/registry.go:97-105 | a call for a backend and a value stores that value in that flag and no other if the list it loaded has the backend, and gives up if not |
| HealthRuns.UnhealthyWhenListed | internal/domain/backend.go:21-24 | a backend that appears in the list is unhealthy at that moment |
| HealthRuns.MomentsAreStates | internal/backend/registry.go:40-56 | the moments these theorems speak of are the list and the flags after each step of the run |
| HealthRuns.HealthyScan | internal/backend/registry.go:40-56 | with lists and flags changing during the scan: a subsequence, in registration order, of one list current during the call; each member healthy at some moment of it; every backend of that list that stays healthy throughout is in it |
| HealthRuns.SelectorsDuringChange | internal/balancer/random.go:22-47 | so random, hash and least-connections return a listed backend that was healthy at some moment of the call, the first two the one whose band the draw or the hash falls into, and do not refuse while one listed backend stays healthy throughout |
| HealthRuns.ScanFinishes | internal/backend/registry.go:44-56 | from every reachable state a healthy-list call can be made and finished by its own steps alone |
| Proxy.Handler.ServeHTTP | internal/proxy/proxy.go:72-119 | which attempts are made and what the client is sent, by the verb, maxRetries and the world alone: served by the first attempt that serves, at most maxRetries failovers and none for POST and PATCH, a backend's response exactly when one within that limit serves after failures only; 400 for an unreadable body, 503 for no backend or none that serves; each attempt has the whole body; every counter is back where it was |
| Proxy.Handler.ProxyOnce | internal/proxy/proxy.go:135-156 | one response exactly when the attempt is served; the connection count one higher while the backend has the request and unchanged afterwards |
| Proxy.OneOutcome | internal/proxy/proxy.go:87-119 | a request ends in exactly one way: served at its first serving attempt, given up, refused, or exhausted after one more attempt than retries |
| Proxy.ServedIff | internal/proxy/proxy.go:87-119 | it is served exactly when some attempt within the limit would be and all before it fail |
| Failover.FailoverCovers | internal/proxy/proxy.go:87-118 | with round-robin and a reachable healthy backend k, n-1 retries, less the unhealthy run before k, serve the request from every counter value that does not wrap at the wrong place |
| Failover.FailoverCoversIff | internal/proxy/proxy.go:87-118 | and when k alone is reachable no fewer do |
| Failover.StickyHasNoFailover | internal/proxy/proxy.go:91-92 | while the same backends stay healthy, churn or not, every attempt hashes to one backend; the request is served at the first attempt that one answers, else fails after all attempts at it |
| Connections.ConnectionsAreConserved | internal/proxy/proxy.go:131-137 | in every interleaving a backend's counter is the number of attempts in flight to it, registered or not, and zero at rest |
| Connections.HoldingIff | internal/proxy/proxy.go:131-137 | in flight to a backend are exactly the attempts that a step of the run began there and no later one ended |
| Connections.ListedIff | internal/backend/registry.go:58-105 | the list, the weights and the flags are what registrations, removals and flag stores of the run make them |
| Connections.SelectionIsLeastLoaded | internal/balancer/least_connections.go:18-32 | so in every reachable state the selector picks the first of the registered and healthy backends with the fewest attempts in flight per weight |

## Left out

- HTTP servers, routing, graceful shutdown, configuration loading, metrics, authentication and JSON encoding: input and output around the core.
- Address parsing, the reverse proxy, FNV-1a, the random generator and UUIDs: taken as contracts, as said above.
- The body limit, timeouts and the network side of a probe: a body is readable or not, a probe succeeds or not.
- Which of several healthy backends a selector picks is stated for flags and counters that stand still; while they change, `HealthRuns.SelectorsDuringChange` and `RoundRobin.SteadyBackendIsEnough` say what remains.
- Prober.Prober.ProbeRound: one round over a registry that stands still; `Churn` has the interleaved round.
- Churn.HysteresisUnderChurn: loading the list and pruning the streaks are one step, because only the prober touches the streaks.
- RoundRobin.ShareOfOneTurn: for sweeps that do not wrap unless the list length divides 2^32, as are the other shares and `Failover.FailoverCovers`; what a badly wrapping sweep does is said by `RoundRobin.SweepCoversIff`.
- RoundRobin.FairIff: for lists of at most 2^32 / 3 backends, so that stretches long enough to show the difference fit before the wrap.
- Forwarding.ClientSurvivesChain: a RemoteAddr has to read back as itself in a header list; an IPv6 zone with a comma in its name would not.
- LeastConnections.GreedyIsProportional: up to 2^31 - 1 open connections, the width of the counter.
- The header X-Forwarded-Host beyond one hop, where each balancer overwrites it.
- The error return of rewinding a body, which the closure built in `ServeHTTP` never takes.
- The slice handed to `NewRegistry`: its caller keeps no other use of it.
