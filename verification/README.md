# DeployMonster: verified models of the stateful core

Dafny models of the parts of DeployMonster whose correctness depends on order, state or time, and proofs of what they guarantee.
`dafny verify dfyconfig.toml` checks everything.

Three forms are used. Code that edits fields or slices is a class or a method with loops, proved against a specification
function or property. Goroutine protocols are state machines: a `Step` function with one action per critical section, and theorems
over every finite run, that is over every interleaving. Parsers and printers are functions and loops with round-trip theorems.
Clocks, generated IDs, map iteration order, and the answers of stores, providers and the container runtime are parameters or
unconstrained choices, so each theorem holds for all of them.

| file | models |
|---|---|
| `Graphs.dfy`, `Registry.dfy`, `Compose.dfy` | dependency graphs; module registry; compose ordering and stack deployment |
| `EventBus.dfy`, `EventPool.dfy` | subscription matching and removal; the asynchronous pool with its semaphore, retry and drain |
| `CircuitBreaker.dfy` | the breaker's fields and all interleavings of calls |
| `Schedule.dfy`, `Scheduler.dfy` | next-run calculation; the job scheduler's lifecycle |
| `RouteTable.dfy`, `Watcher.dfy` | the copy-on-write route table; label parsing and route reconciliation |
| `SigV4.dfy` | sorting and the canonical query string |
| `Tokenizer.dfy` | the command tokenizer |
| `Leader.dfy` | lease-based leader election |
| `DnsQueue.dfy`, `LokiSink.dfy` | the DNS retry queue; the log sink's shutdown |
| `Stripe.dfy` | webhook replay suppression and tenant updates |
| `Backup.dfy` | full and incremental backups, retention, paging |
| `Deployments.dfy`, `RollbackProtocol.dfy`, `Orphans.dfy`, `Rollback.dfy` | version allocation and container names; concurrent rollbacks; which containers stay within reach; the rollback engine |
| `Options.dfy`, `ByteStrings.dfy`, `Texts.dfy`, `Fresh.dfy` | shared types, text and numbers |

## Where the code differs from its comments, or from what one would expect

The models follow the code. For each point a theorem states what the code does.

- The event pool's retry takes a second slot that nothing gives back, although the comments speak of a bounded pool that stays
  responsive. `SlotLaw` counts the loss exactly; `PoolLaw` says exactly when the pool can still serve a new delivery: while the
  retries in progress and those finished are fewer than 64. `PoolDiesAfterRetries` gives the runs that lead to the end.
- `Drain` does not wait for a direct `Publish` that holds a slot and has not started its handler (`DrainMissesDirectPublish`).
- `Match` promises exact hosts before wildcards; only priority and prefix length decide (`ExactWinsOnlyByRank`, an if and only if).
- The DNS queue says its lock keeps `Stop` from accepting a job the worker will never see. Any job in the channel when `Stop` is
  called can be left there, and a submission in progress can even enter it later. `StrandingLaw` says exactly when: unless
  nothing is in the channel, being submitted, or being put back (`QueuedJobCanBeStranded`, `SubmissionCanBeStranded` are runs).
- A failed DNS job is put at the end of the channel while its worker still holds it, so with the channel full it is dropped instead
  of retried; `RetryLaw` says exactly when a job still has all its attempts. A provider panic ends the only worker, although
  the queue goes on accepting jobs (`DeadForever`).
- Electing again does not extend a lease (`ReElectionDoesNotExtend`). A `true` from `Renew` is right exactly if the new expiry is
  ahead and no step between its read and its write took the row for good (`RenewLaw`; `RenewTrueButLost` is a run where one did).
  A late write also revives the process's own expired lease (`OwnRowRevived`).
- Query keys are sorted before they are encoded, so the encoded names are out of order for some keys (`NamesSortedExactly`, an if and
  only if).
- A half-open breaker whose probes all ended in uncounted errors or never returned rejects every call until a manual reset, and these
  are exactly the states without recovery (`RecoveryLaw`).
- A redelivered Stripe event is applied again once the replay memory has forgotten it (`OnceLaw`, an if and only if;
  `LateRedeliveryIsApplied` is a run).
- The retention sweep goes by the object's age, so recent incremental rows can name a removed object (`SweepOrphansRows`), for ever
  (`SweptForever`), and each further backup of the unchanged app adds one more (`NewRowObject`).
- After a failed rollback the container that kept serving is out of reach of every later rollback, unless the latest row of an app
  names it or another rollback in progress is to replace it too (`FailedRollbackLaw`, an if and only if).
- A container with labels for several domains gets a route for one of them only (`RollbackIsRouted`).
- A created container with an empty ID is not verified before the previous one is stopped (`EmptyIdLosesService`).

## Model

| member | source | states |
|---|---|---|
| `ModuleRegistry.Registry.Register` | internal/core/registry.go:25-35 | a duplicate ID is refused and changes nothing; otherwise only that module is added, and an order resolved before stays a valid one |
| `ModuleRegistry.Traversal.Visit` | internal/core/registry.go:48-72 | the depth-first step keeps the finished list duplicate-free and dependencies-first, and fails only at a name on a cycle or an unregistered dependency |
| `ModuleRegistry.EdgesAreDeclared` | internal/core/registry.go:62-66 | the edges of the graph are exactly the declared dependencies of registered modules |
| `ModuleRegistry.Registry.Resolve` | internal/core/registry.go:39-82 | succeeds if and only if every dependency is registered and the graph is acyclic, for every map iteration order; the order then lists exactly the modules, once each, every declared dependency before its module; on failure the stored order is unchanged and the error names a real cycle or a declared dependency that is not registered |
| `ModuleRegistry.Registry.ForwardAll` | internal/core/registry.go:85-110 | InitAll and StartAll: modules are reached in resolved order up to the first failure, each only after all its dependencies were reached and succeeded |
| `ModuleRegistry.Registry.StopAll` | internal/core/registry.go:113-127 | every module is stopped once, after all its dependents, whatever fails; the error reported is the first one |
| `ModuleRegistry.StopOrder` | internal/core/registry.go:118-119 | reversing a dependencies-first order puts dependents before dependencies |
| `Graphs.OrderedIsAcyclic` | internal/core/registry.go:39-82 | a duplicate-free dependencies-first listing of a graph exists only if the graph has no cycle |
| `Graphs.AcyclicOrderIsStrict` | internal/compose/parser.go:244-271 | without cycles the cycle-tolerant order is a strict dependencies-first order |
| `Compose.ParseDependsOn` | internal/compose/parser.go:274-294 | a list gives its items in order, a mapping exactly its keys, every other shape nothing |
| `Compose.EdgesAreListed` | internal/compose/parser.go:274-294 | the edges of the graph are exactly the names in the list or mapping of a non-null service |
| `Compose.Planner.Visit` | internal/compose/parser.go:248-264 | on any graph the visit ends, keeps the order duplicate-free, and a dependency may come later only if it reaches its dependent |
| `Compose.MentionedIsNeeded` | internal/compose/parser.go:244-271 | the names mentioned in a file are exactly its services and the names reachable from them |
| `Compose.DependencyOrder` | internal/compose/parser.go:244-271 | on every file, cyclic or not, the order lists each service and each name reachable through depends_on exactly once; a dependency listed after its dependent reaches it; on acyclic files every name in the list or mapping of a service stands before that service |
| `Compose.RollbackLeaves` | internal/compose/deployer.go:116-123 | stopping and removing what was started leaves the earlier containers plus those the runtime refused to remove, stopped where stopping worked |
| `Compose.StackDeployer.Rollback` | internal/compose/deployer.go:116-123 | exactly the removable ones among the listed containers go away, and the stoppable ones among the rest no longer run |
| `Compose.StartedMeans` | internal/compose/deployer.go:90-109 | every started service has its own running container under an ID new to the host, and there is no other new one |
| `Compose.FailureLeaves` | internal/compose/deployer.go:62-123 | container by container: a failed deployment leaves every earlier container as it was, and of its own exactly those whose removal was refused, stopped unless that was refused as well |
| `Compose.StackDeployer.Deploy` | internal/compose/deployer.go:62-112 | success starts every non-null service once, dependencies first on acyclic files; failure names a service whose creation failed and leaves the host as it was apart from containers the runtime refused to remove, stopped where stopping worked |
| `EventBus.MatchesMeaning` | internal/core/events.go:262-281 | a pattern matches if and only if it is the star, the type itself, or a dotted prefix of it |
| `EventBus.MatchingSelects` | internal/core/events.go:262-281 | the delivery list holds each matching subscription as often as it is registered and no other |
| `EventBus.MatchingInOrder` | internal/core/events.go:262-281 | the delivery list of a concatenation is the concatenation of the lists, so deliveries go in registration order |
| `EventBus.Bus.SubscribeNamed` | internal/core/events.go:102-115 | appends one subscription and keeps IDs distinct |
| `EventBus.Bus.Unsubscribe` | internal/core/events.go:126-138 | removes exactly the subscription with the ID, as a multiset, and reports whether there was one |
| `EventBus.Bus.MatchSubscriptions` | internal/core/events.go:262-281 | the loop computes the matching subscriptions in registration order |
| `EventPool.InvOverRuns` | internal/core/events.go:143-258 | every interleaving keeps the slot and wait-group accounting, the pairing of held slots with unstarted deliveries, and the number of handler calls |
| `EventPool.PublishLaw` | internal/core/events.go:143-222 | counted from the steps alone: a publish that has ended served its subscriptions in their order, synchronous ones by a returned call and asynchronous ones by a started goroutine; all of them if no synchronous handler failed, and otherwise exactly those up to and including the one that did |
| `EventPool.PublishGoesOn` | internal/core/events.go:158-222 | a publish in progress without a failure has served the front of its subscriptions, the rest is what it goes on with, and it can end exactly when nothing is left |
| `EventPool.SlotLaw` | internal/core/events.go:158-210 | occupied slots are the deliveries acquired but unstarted, in first attempt or in retry, plus all retries ever finished; at most 64 handlers run at once; occupied equals in use exactly when no retry has finished |
| `EventPool.CallsBounded` | internal/core/events.go:163-210 | the handler calls of a delivery are its start and its second slot, counted from the steps; at most two, and a finished delivery was called once, or twice if retried |
| `EventPool.ReleaseNeverBlocks` | internal/core/events.go:174-183 | giving a slot back is possible whenever it is due |
| `EventPool.NextStep` | internal/core/events.go:174-209 | after a first failure both the retry and the cancellation are possible; a started delivery has a next step unless it waits for a second slot while all 64 are taken |
| `EventPool.PoolLaw` | internal/core/events.go:158-210 | a new delivery can still get a slot after some continuation if and only if the retries in progress and the finished ones are fewer than 64 |
| `EventPool.DeadPool` | internal/core/events.go:158-210 | once the retries in progress and the finished ones reach 64, no acquire and no re-acquire is possible after any further steps |
| `EventPool.PoolDiesAfterRetries` | internal/core/events.go:178-209 | for every n up to 64, n failing deliveries one after the other lead to a pool with n slots lost and nothing running |
| `EventPool.AllSlotsLeaked` | internal/core/events.go:201-208 | in that state all n slots are lost, none in use, no goroutine alive |
| `EventPool.DrainLaw` | internal/core/events.go:298-300 | the wait group is zero exactly when no PublishAsync and no handler goroutine is left; any delivery not over then belongs to a direct Publish that holds its slot, and all are over if and only if no publisher holds one |
| `EventPool.DrainMissesDirectPublish` | internal/core/events.go:161-163 | a reachable state in which Drain returns while a direct Publish is about to start a handler |
| `CircuitBreakers.CircuitBreaker.constructor` | internal/core/circuitbreaker.go:56-74 | non-positive settings become 5 failures, 30 seconds, one probe; the new breaker is closed and satisfies the invariant at every time |
| `CircuitBreakers.CircuitBreaker.Before` | internal/core/circuitbreaker.go:139-157 | admits and counts as the transition function on the derived state says |
| `CircuitBreakers.CircuitBreaker.After` | internal/core/circuitbreaker.go:160-205 | the new fields are those of the transition function for success, uncounted error and failure |
| `CircuitBreakers.CircuitBreaker.Reset` | internal/core/circuitbreaker.go:207-219 | closes the breaker and clears its three counters |
| `CircuitBreakers.InvOverRuns` | internal/core/circuitbreaker.go:129-212 | over all interleavings with a monotone clock: half-open is never stored; closed means fewer failures than the threshold and no probe counters; open means at least the threshold; a probe counter is non-zero only after the reset timeout; every used probe slot is accounted for |
| `CircuitBreakers.FailuresAreCounted` | internal/core/circuitbreaker.go:178-212 | the failure field equals the counted failures since the last reset, closed-state success or closing probe success |
| `CircuitBreakers.TrackedExactly` | internal/core/circuitbreaker.go:129-212 | all fields, the stored state included, are those of a record kept from the steps alone, which has no stored state |
| `CircuitBreakers.AdmissionLaw` | internal/core/circuitbreaker.go:129-157 | in terms of the steps alone: a call is admitted if and only if the failures not yet forgotten are below the threshold, or the reset timeout has passed since the last counted failure and a probe is left |
| `CircuitBreakers.LastFailureIsRecorded` | internal/core/circuitbreaker.go:190-192 | the stored failure time is that of the last counted failure |
| `CircuitBreakers.WedgeHasACause` | internal/core/circuitbreaker.go:145-176 | all probe slots used with no call outstanding is possible only after an uncounted error or an abandoned call |
| `CircuitBreakers.WedgedForever` | internal/core/circuitbreaker.go:149-153 | from a wedged state every call is rejected at every time until a manual reset |
| `CircuitBreakers.RecoveryLaw` | internal/core/circuitbreaker.go:129-212 | without a manual reset some later call can still be admitted if and only if the breaker is not wedged |
| `CircuitBreakers.WedgeExample` | internal/core/circuitbreaker.go:168-174 | one failure, one probe and one uncounted error reach that state |
| `Schedule.ParseExactly` | internal/core/scheduler.go:345-365 | a text is accepted as a minute of the day if and only if it splits at its first colon into an hour and a minute in range |
| `Schedule.ParseRoundTrip` | internal/core/scheduler.go:345-365 | every wall-clock time written HH:MM is read as the minute it names |
| `Schedule.AtoiOfDecimal` | internal/core/scheduler.go:350-357 | decimal numbers are read back with either sign or none |
| `Schedule.AtoiRefuses` | internal/core/scheduler.go:350-357 | leading zeros do not matter, and a text is refused if and only if something but digits follows the sign or nothing does |
| `Schedule.DailyNextIsLeast` | internal/core/scheduler.go:309-338 | the next run of a daily schedule is the least instant strictly after now with that time of day, at most a day later |
| `Schedule.EveryLaw` | internal/core/scheduler.go:312-319 | an interval schedule gives now plus the interval, or plus one hour when the interval cannot be read |
| `Schedule.HourlyOtherwise` | internal/core/scheduler.go:321-338 | a schedule that is neither an interval nor a minute of the day gives one hour from now |
| `Scheduler.InvOverRuns` | internal/core/scheduler.go:110-298 | every interleaving of Add, Remove, Start, Stop, loop, tick and runJob keeps the wait-group count, the Running flags and the stop protocol |
| `Scheduler.RunsNeverOverlap` | internal/core/scheduler.go:244-298 | the wait group counts the loop and the live runs; an object's Running flag is set exactly while one run of it is in progress, so two never overlap |
| `Scheduler.NothingAfterStop` | internal/core/scheduler.go:177-194 | once any Stop has returned, no loop and no run is alive and none starts, after any further steps |
| `Scheduler.LoopLaw` | internal/core/scheduler.go:145-232 | by the steps alone: the loop lives from the first Start, if no Stop came before, until it exits, which it does only after a Stop |
| `Scheduler.NextRunLaw` | internal/core/scheduler.go:110-298 | an object's next run is computed from the schedule it was first added with and the time it was last added or finished a run |
| `Scheduler.DispatchLaw` | internal/core/scheduler.go:244-298 | by the steps alone: a job is dispatched if and only if no Stop was called, its ID was added and not removed since, no run of its object is in its handler, and the time computed at its last addition or finish has come |
| `Scheduler.RemovedStaysOut` | internal/core/scheduler.go:130-138 | a removed ID is not dispatched until it is added again, whatever else happens |
| `Scheduler.DispatchAfterSlot` | internal/core/scheduler.go:244-298 | a repeated dispatch of a daily job has a scheduled instant after the previous run finished and not after the dispatch, a day or more after the previous instant |
| `Scheduler.DailySpacing` | internal/core/scheduler.go:244-298 | after n dispatches since the job was added, first and last scheduled instants are n - 1 days or more apart |
| `Routing.WildcardMeaning` | internal/ingress/router.go:176-190 | a host pattern matches if and only if it equals the host or is a wildcard standing for one dot-free label before the same rest |
| `Routing.PrefixMeaning` | internal/ingress/router.go:193-198 | a path prefix matches if and only if it is the slash or the path is the prefix followed by anything |
| `Routing.SortRoutes` | internal/ingress/router.go:165-172 | the slice becomes a permutation of itself ordered by priority, then prefix length |
| `Routing.PermutationKeepsTable` | internal/ingress/router.go:68-75 | sorting a snapshot changes neither key uniqueness nor the map it stands for |
| `Routing.RouteTable.Publish` | internal/ingress/router.go:68-75 | the sorted private copy becomes the snapshot and stands for the same map |
| `Routing.RouteTable.Upsert` | internal/ingress/router.go:81-98 | the abstract map gets the entry under its host and its prefix, the slash for an empty one, and changes nowhere else; the snapshot stays sorted with unique keys, and the one published before keeps its contents |
| `Routing.RouteTable.Remove` | internal/ingress/router.go:101-117 | the abstract map loses exactly that key, shifting in place only in a private copy |
| `Routing.RouteTable.RemoveByAppID` | internal/ingress/router.go:120-133 | the abstract map loses exactly the app's routes, filtering in place only in a private copy |
| `Routing.RouteTable.Match` | internal/ingress/router.go:139-146 | none exactly when no route matches both host and path; otherwise a matching route such that every matching one has a lower priority, or the same priority and a prefix that is no longer |
| `Routing.RouteTable.All` | internal/ingress/router.go:151-156 | the entries of the current snapshot, in order |
| `Routing.HitIsBest` | internal/ingress/router.go:139-146 | the first match in a sorted snapshot is a best match of the map |
| `Routing.ExactWinsOnlyByRank` | internal/ingress/router.go:136-172 | an exact host is answered for every admissible order of equal ranks if and only if a matching exact route strictly outranks every matching wildcard route |
| `Routing.WildcardCanWin` | internal/ingress/router.go:136-172 | a wildcard with a longer prefix beats the exact host |
| `Discovery.IndexFrom` | internal/discovery/watcher.go:267-287 | the least position from i on at which a text occurs, or -1 when there is none |
| `Discovery.HostRoundTrip` | internal/discovery/watcher.go:267-287 | a host written into a rule is read back if and only if it contains no closing mark |
| `Discovery.RuleRoundTrip` | internal/discovery/watcher.go:267-287 | host rules and host-and-path rules are read back whole for hosts without backtick or parenthesis and prefixes without backtick |
| `Discovery.ParseLabelsToRoute` | internal/discovery/watcher.go:197-263 | the route comes from one rule, port, strategy and middlewares label each, with the defaults; its app is the app label, its host and prefix are not empty |
| `Discovery.RouteFields` | internal/discovery/watcher.go:197-263 | every field of a route: host and prefix from a rule label, the backend from the first 12 characters of the container ID and a port label or 80, the strategy from its label or round-robin, no middlewares without a label, priority 100, name and app from their labels |
| `Discovery.KindOfRest` | internal/discovery/watcher.go:230-243 | the documented middlewares and strategy keys are recognised for every router name |
| `Discovery.RoutedExactly` | internal/discovery/watcher.go:138-155 | a container that is not running or has no app gets no route; a running one whose rules all name a host gets one, under its app |
| `Discovery.NoHostMark` | internal/discovery/watcher.go:268-276 | a rule without the host mark names no host |
| `Discovery.RollbackIsRouted` | internal/deploy/rollback.go:88-103 | the labels a rollback writes for its domains are read back as a route for one of them, to the new container on the app's port, and as none without domains |
| `Discovery.OwnKeys` | internal/deploy/rollback.go:89-96 | the six labels a rollback always writes are no routing labels and give the app and its name |
| `Discovery.MiddlewaresRoundTrip` | internal/discovery/watcher.go:227-237 | middleware names without commas or spaces at their ends, written with commas and any spaces between, are read back |
| `Texts.TrimSpaceLaw` | internal/discovery/watcher.go:232-234 | trimming takes exactly the spaces off both ends |
| `Discovery.SyncOne` | internal/discovery/watcher.go:138-155 | a skipped container changes nothing; any other has its parsed route upserted |
| `Discovery.Sweep` | internal/discovery/watcher.go:157-178 | the table keeps exactly the routes with an empty app or an active one |
| `Discovery.SyncRoutes` | internal/discovery/watcher.go:125-188 | a listing error changes nothing; otherwise the table is the old one with all parsed routes upserted in order and inactive apps swept |
| `Discovery.Reconciled` | internal/discovery/watcher.go:125-188 | key by key: the last running container's route is there; an untouched old route survives exactly when its app is empty or active; nothing else remains |
| `Sorting.SortedUnique` | internal/awsauth/sigv4.go:145-165 | a multiset has one sorted arrangement under a total order |
| `Sorting.SortSorts` | internal/awsauth/sigv4.go:145-165 | sorting gives a sorted permutation in byte order |
| `Sorting.LeqMeaning` | internal/awsauth/sigv4.go:153-160 | byte order: a prefix, or smaller at the first difference |
| `SigV4.SigV4Encode` | internal/awsauth/sigv4.go:170-184 | the loop computes the percent-encoding of sections 2.1 and 2.3 of RFC 3986 |
| `SigV4.EncodedByteIs` | internal/awsauth/sigv4.go:170-184 | an unreserved byte stands for itself, any other as a percent sign and two uppercase hexadecimal digits |
| `SigV4.Alphabet` | internal/awsauth/sigv4.go:175-178 | the unreserved bytes are exactly the letters, the digits and - _ . ~ |
| `SigV4.DecodeEncode` | internal/awsauth/sigv4.go:170-184 | a percent-decoder inverts the encoding on every byte string |
| `SigV4.EncodedBytes` | internal/awsauth/sigv4.go:170-184 | encoded text has unreserved bytes and percent signs only, so no separators |
| `SigV4.CanonicalQueryString` | internal/awsauth/sigv4.go:145-165 | the loops print the sorted keys with their sorted values, joined by separators |
| `SigV4.ReadCanonical` | internal/awsauth/sigv4.go:145-165 | splitting the canonical string at the separators and decoding recovers exactly the sorted list of pairs |
| `SigV4.PairsCount` | internal/awsauth/sigv4.go:145-165 | each pair is printed as often as its value is listed under its key |
| `SigV4.PairsSorted` | internal/awsauth/sigv4.go:145-165 | the pairs are sorted by key, then by value |
| `SigV4.CanonicalIsExact` | internal/awsauth/sigv4.go:145-165 | two queries have the same canonical string if and only if every key has the same multiset of values in both |
| `SigV4.EncodedOrder` | internal/awsauth/sigv4.go:145-184 | for names in raw order the encoded names are in order if and only if they do not clash at their first difference |
| `SigV4.NamesSortedExactly` | internal/awsauth/sigv4.go:145-184 | the printed names are sorted if and only if no two keys with values clash; always so for unreserved keys |
| `SigV4.NamesUnsortedExample` | internal/awsauth/sigv4.go:145-184 | a query whose encoded names come out unsorted |
| `Tokenizer.SplitCommand` | internal/core/command_safety.go:54-87 | the byte loop computes the scan's tokens; never an empty list, never an empty token |
| `Tokenizer.Alphabet` | internal/core/command_safety.go:69-76 | the blanks are space, tab, newline and return; the quotes and the default command are the literal ones |
| `Tokenizer.WordIsToken` | internal/core/command_safety.go:69-82 | a non-empty run of bytes without blanks and quotes is one token, and leaves no quote open |
| `Tokenizer.LineRoundTrip` | internal/core/command_safety.go:54-87 | a non-empty list of ASCII words without blanks and quotes, written with any blanks between them, is read back as the list |
| `Tokenizer.BlankLine` | internal/core/command_safety.go:83-85 | a command of blanks only is the default command |
| `Tokenizer.QuoteInsideWord` | internal/core/command_safety.go:60-72 | a quoted part inside a word belongs to the word's token, blanks included, and without its quotes |
| `Tokenizer.UnclosedQuote` | internal/core/command_safety.go:60-82 | a quote never closed takes in the rest of the command |
| `Tokenizer.RecodeIsReversible` | internal/core/command_safety.go:63-79 | writing bytes as code points loses nothing: they can be read back |
| `Tokenizer.SplitDistributes` | internal/core/command_safety.go:54-87 | a blank outside quotes between two non-blank halves splits the command into the tokens of both |
| `Tokenizer.FoundDistributes` | internal/core/command_safety.go:54-87 | the same for halves that may be blank, on the tokens found |
| `Tokenizer.QuotedFound` | internal/core/command_safety.go:54-87 | tokens in either kind of quotes, joined by spaces, come back without the empty ones, bytes above 127 as two |
| `Tokenizer.QuoteRoundTrip` | internal/core/command_safety.go:54-87 | for tokens written in quotes they do not contain, single or double, the joined text is read back as the list if and only if the list is non-empty and all its tokens are non-empty ASCII |
| `LeaderElection.LeaseTable.Elect` | internal/db/postgres.go:1011-1074 | the transaction's statements in order give the election result; a lost election changes nothing |
| `LeaderElection.LeaseTable.IsLeader` | internal/db/postgres.go:1128-1142 | true exactly for the holder of an unexpired row |
| `LeaderElection.ElectionLaw` | internal/db/postgres.go:1011-1074 | an election is won if and only if the name leads already, and then nothing changes, or the key has no row or one that ran out before now, and then the row is the winner's to the end it asked for, if that is ahead |
| `LeaderElection.OneLeaderIffDistinct` | internal/db/postgres.go:1128-1142 | a key has one row, so at most one name passes IsLeader for it; hence at most one process does, in every run, if and only if no two share an instance name |
| `LeaderElection.ElectionBlocked` | internal/db/postgres.go:1011-1074 | while a lease is unexpired no other name wins, and its attempt leaves no trace |
| `LeaderElection.LeaseLaw` | internal/db/postgres.go:1011-1142 | a holder leads after every step of a run, whatever others elect, renew and resign, if and only if the steps say so: it does not resign, no clock reading reaches the end of the lease then in force, and no delayed renewal of its own writes an end already past |
| `LeaderElection.LeaseHolds` | internal/db/postgres.go:1011-1142 | if no clock reading reaches a deadline the lease covers, the holder does not resign and all its renewals go to the deadline or beyond, it leads after every step and no rival's election wins at any |
| `LeaderElection.NoRivalWins` | internal/db/postgres.go:1011-1074 | while the lease is kept no election under another name wins |
| `LeaderElection.NextWinnerWaits` | internal/db/postgres.go:1011-1142 | between two won elections of a key under different names the first winner resigned or its lease came to an end |
| `LeaderElection.ReElectionDoesNotExtend` | internal/db/postgres.go:1024-1058 | electing again while leading succeeds and keeps the old expiry |
| `LeaderElection.RenewTouchesOwnRow` | internal/db/postgres.go:1097-1102 | a renewal's write changes only an expiry in a row still held under its own name |
| `LeaderElection.RenewReads` | internal/db/postgres.go:1079-1096 | a renewal goes on to its write if and only if its process leads when it reads; the read changes nothing else |
| `LeaderElection.RenewalsNeverChangeHolder` | internal/db/postgres.go:1079-1108 | renewals interleaved anywhere never change, add or remove a row's holder |
| `LeaderElection.RenewalsLeaveOthersAlone` | internal/db/postgres.go:1079-1108 | delayed renewals of other processes, interleaved anywhere, leave a row exactly as it is, its expiry included |
| `LeaderElection.RenewVerdict` | internal/db/postgres.go:1097-1107 | after a renewal's write its process leads until the new expiry if and only if the row is still held under its name, expired or not, and the new expiry is ahead; otherwise nobody else's row changes |
| `LeaderElection.HeldLaw` | internal/db/postgres.go:1011-1142 | a row once held is held at the end of a run if and only if no step took it without a later one giving it back; only the holder's resignation and a rival's election after expiry take it |
| `LeaderElection.RenewLaw` | internal/db/postgres.go:1079-1108 | the whole of Renew with any steps between read and write: what its true reports holds if and only if the new expiry is ahead and no step in between took the row for good |
| `LeaderElection.OwnRowRevived` | internal/db/postgres.go:1097-1102 | a run in which a late write makes its process leader again after its lease ran out |
| `LeaderElection.RenewTrueButLost` | internal/db/postgres.go:1079-1108 | a renewal that will report true although another process leads; its write then changes nothing |
| `DnsQueue.InvOverRuns` | internal/dns/sync.go:140-324 | every interleaving keeps job conservation, the wait-group count, the retry counts and the stop protocol |
| `DnsQueue.ExactlyOnePlace` | internal/dns/sync.go:140-324 | every submitted job is at all times in exactly one of: being submitted, queued, in the worker, or finished with one outcome; the channel never holds more than 100; a job causes at most 3 provider calls, is abandoned if and only if it failed 3 times, and on success has one call more than failures |
| `DnsQueue.RetryGoesBack` | internal/dns/sync.go:272-276 | a job asleep in an open queue with room goes to the end of the channel when its delay is over |
| `DnsQueue.RetryLaw` | internal/dns/sync.go:233-281 | with the queue open and the worker alive, an unfinished job with n failures can fail 2 - n more times and then succeed, and can be abandoned after 3 failed calls, if and only if it is not in the worker's hand before a full channel in which it still needs a place |
| `DnsQueue.FirstInFirstOut` | internal/dns/sync.go:155-160 | what went into the channel is, in order, what the worker took and then what is still there |
| `DnsQueue.EverySuccessIsVerified` | internal/dns/sync.go:289-294 | successful calls are as many as verifications ended and running |
| `DnsQueue.WorkerLaw` | internal/dns/sync.go:167-231 | by the steps alone: the one worker lives from the first Start, if no Stop came before, until it leaves after a Stop or a provider panics |
| `DnsQueue.DeadForever` | internal/dns/sync.go:216-231 | after a provider panic no job is ever taken from the channel or tried again, although submissions are still accepted |
| `DnsQueue.FailureCostsOne` | internal/dns/sync.go:256-281 | every failed attempt lowers the sum of 3 minus Retries over live jobs by one |
| `DnsQueue.RetriesRunOut` | internal/dns/sync.go:233-294 | over any run failed attempts plus attempts left never exceed three per submission |
| `DnsQueue.NothingAfterStop` | internal/dns/sync.go:184-203 | after any Stop has returned no worker or verification goroutine is alive, no job makes progress, and the queue only grows, after any further steps |
| `DnsQueue.StrandingLaw` | internal/dns/sync.go:107-231 | at any moment after Stop was called, a job can be left in the channel with a Stop returned if and only if one is in the channel, being submitted, or being put back |
| `DnsQueue.StrandingAfterStop` | internal/dns/sync.go:140-203 | once a Stop has returned the channel stays empty in every continuation if and only if it is empty and no submission is between the closed test and the send |
| `DnsQueue.QueuedJobCanBeStranded` | internal/dns/sync.go:184-231 | a run without any race in which a job queued before Stop is left behind |
| `DnsQueue.SubmissionCanBeStranded` | internal/dns/sync.go:140-160 | a run in which a submission racing Stop enters the channel after Stop has returned |
| `LokiSink.InvOverRuns` | internal/core/logger.go:68-171 | every interleaving keeps the split of accepted records into sent and buffered, and the stop protocol |
| `LokiSink.SentInOrder` | internal/core/logger.go:68-97 | records are passed to send in acceptance order, each exactly once, the rest still in the buffer |
| `LokiSink.AcceptedExactly` | internal/core/logger.go:85-97 | by the steps alone: a record is accepted if and only if no Close was called and fewer than 1024 accepted ones have not been taken by the sender |
| `LokiSink.CloseLosesNothing` | internal/core/logger.go:99-108 | when any Close has returned everything accepted was sent, and nothing is accepted or sent later |
| `LokiSink.NothingAcceptedAfterClosing` | internal/core/logger.go:85-97 | nothing is accepted once closing is set |
| `LokiSink.ShutdownTerminates` | internal/core/logger.go:68-171 | after closing is set the sender always has a step until it exits, and each of its steps uses up a measure that nothing raises |
| `Stripe.StripeEventHandler.Sweep` | internal/billing/stripe_webhook.go:100-111 | exactly the entries older than the limit are dropped; none with a non-positive limit |
| `Stripe.StripeEventHandler.AlreadyProcessed` | internal/billing/stripe_webhook.go:78-84 | after a sweep, whether the ID is still remembered |
| `Stripe.StripeEventHandler.HandleDelivery` | internal/billing/stripe_webhook.go:136-185 | memory, tenants and result are those of the handling function; a failed dispatch is not remembered |
| `Stripe.ReplayLaw` | internal/billing/stripe_webhook.go:78-111 | for every sequential delivery sequence an ID counts as processed later if and only if its last success is not older than the limit |
| `Stripe.DoneLaw` | internal/billing/stripe_webhook.go:136-185 | a delivery is rejected if and only if it is malformed, suppressed if and only if its ID has a success not yet forgotten, and succeeds if and only if neither holds and its dispatch works |
| `Stripe.MemoryIsSwept` | internal/billing/stripe_webhook.go:78-111 | after a delivery with an ID nothing older than the limit is remembered, and nothing but that ID, if handled, was added |
| `Stripe.DispatchFails` | internal/billing/stripe_webhook.go:207-382 | an event is reported as an error, to be sent again, if and only if it does not parse, is an update without a subscription ID, or is a subscription event whose tenant cannot be read |
| `Stripe.OnlySubjectChanges` | internal/billing/stripe_webhook.go:207-382 | no event adds or removes a tenant or changes another than it names |
| `Stripe.SuccessesApply` | internal/billing/stripe_webhook.go:136-185 | over every sequence the tenants are those of applying the successful deliveries in order: nothing else changes them |
| `Stripe.OnceLaw` | internal/billing/stripe_webhook.go:78-185 | no ID succeeds twice if and only if no delivery repeats an ID after its successes were forgotten and then works |
| `Stripe.SameAsIdeal` | internal/billing/stripe_webhook.go:136-185 | with redeliveries within the limit the handler agrees with one that never forgets |
| `Stripe.EachIdOnce` | internal/billing/stripe_webhook.go:136-301 | with redeliveries within the limit the final tenants are those of applying the handler's own successes in order, each processed ID exactly once, as a handler that never forgets would; a delivery with an ID succeeds if and only if it is the first of its ID to work |
| `Stripe.SubscriptionFollowsLastEvent` | internal/billing/stripe_webhook.go:207-301 | over any sequence of applied events a tenant's last subscription event decides: an update leaves its subscription and customer, its item and price if it has any, and the first plan with the price; a cancellation no subscription, item or price, and the free plan if there is one; what the event does not say stays as it was before it |
| `Stripe.StatusFollowsLastEvent` | internal/billing/stripe_webhook.go:207-382 | a tenant's status is that of its last subscription or invoice event: the subscription's own, canceled, active or past_due |
| `Stripe.PaymentTimesFollowInvoices` | internal/billing/stripe_webhook.go:318-382 | the last success and failure times are those of the last paid and the last failed invoice event |
| `Stripe.PlanByPriceIsFirst` | internal/billing/tenant_metadata.go:99-109 | the first plan with the price is found |
| `Stripe.LateRedeliveryIsApplied` | internal/billing/stripe_webhook.go:100-111 | a redelivery after the limit is applied again where the never-forgetting handler does not |
| `Backup.InvOverRuns` | internal/backup/scheduler.go:422-562 | every run of backups and sweeps, whatever the database and storage report, keeps completed rows backed by uploads and the storage equal to the uploads not swept |
| `Backup.CompletedRowsAreBacked` | internal/backup/scheduler.go:422-518 | over any run a completed row's path was uploaded with contents of the recorded hash, across incremental chains of any length; the object is there unaltered if and only if it was not swept, and it was swept only when itself older than the retention time |
| `Backup.SweepLaw` | internal/backup/scheduler.go:544-562 | a sweep keeps a row's object if and only if it was there and the object, not the row, is within the retention time |
| `Backup.SweptForever` | internal/backup/scheduler.go:434-471 | a removed object never comes back, whatever follows |
| `Backup.NewRowObject` | internal/backup/scheduler.go:439-491 | a fully successful backup leaves a completed row whose object exists if and only if the backup was full or the object built on was not swept |
| `Backup.BackupRow` | internal/backup/scheduler.go:422-492 | the one row a backup adds, or none: its path is that of the tenant's newest row if that is a completed one of the app with the same hash, else its own; completed, failed or pending exactly as creation, upload and update went |
| `Backup.RowsStay` | internal/backup/scheduler.go:422-562 | no later backup or sweep changes or removes a row |
| `Backup.SweepOrphansRows` | internal/backup/scheduler.go:544-562 | a run after which a completed row younger than the retention time names a removed object |
| `Backup.Scheduler.UpdateBackupStatus` | internal/db/backups.go:64-74 | exactly the row with that ID and tenant gets the status, none when the update fails |
| `Backup.Scheduler.BackupApp` | internal/backup/scheduler.go:422-492 | rows and objects change as one backup step says; true exactly when the row was created and the object stored or reused |
| `Backup.Scheduler.CleanupOldBackups` | internal/backup/scheduler.go:544-562 | exactly the tenant's expired deletable objects go and are counted; nothing on a listing error |
| `Backup.VisitAll` | internal/backup/scheduler.go:261-291 | paging visits every item once and in order, up to the first listing failure or cancellation |
| `Deployments.MaxVersionBounds` | internal/db/deployments.go:33-49 | the allocated version exceeds every earlier version of the app |
| `Deployments.MaxVersionAttained` | internal/db/deployments.go:33-49 | the greatest version is a version of the app, or 0 |
| `RollbackProtocol.LatestIsGreatest` | internal/db/deployments.go:71-84 | an app with a row has a latest one, whose version none of the app's exceeds |
| `Deployments.NameInjective` | internal/deploy/rollback.go:108 | a container name belongs to one app and one version, whatever the app ID contains |
| `RollbackProtocol.InvOverRuns` | internal/deploy/rollback.go:54-170 | any number of interleaved rollbacks, from any table and containers in which no name is ahead of its version, keep: versions grow, names are unique to their rollback, an unfinished rollback's container is known to nobody else, and a verified one is untouched |
| `RollbackProtocol.CleanupHitsOwn` | internal/deploy/rollback.go:116-128 | cleaning up by name after a failed creation reaches the partly created container and no other, in particular none of an older version |
| `RollbackProtocol.TouchLaw` | internal/deploy/rollback.go:116-170 | a container is stopped or removed only by the rollback that created it and did not see it running, or as the previous container by a rollback whose own container was seen running and still serves |
| `RollbackProtocol.AlwaysAvailable` | internal/deploy/rollback.go:54-170 | once an app has a container seen running that nobody was asked to stop, it has one at every later moment, for all outcomes and interleavings with non-empty IDs |
| `RollbackProtocol.EmptyIdLosesService` | internal/deploy/rollback.go:134-170 | in every state where the previous container is the only one serving, an empty ID makes the next calls stop it |
| `Orphans.LatestAfterAllocation` | internal/db/deployments.go:71-84 | after an allocation the app's latest row is the new one; other apps' are unchanged |
| `Orphans.ForgottenForever` | internal/deploy/rollback.go:54-170 | a container that no latest row names and no rollback in progress handles stays so, and no later rollback stops or removes it |
| `Orphans.ReachLaw` | internal/deploy/rollback.go:54-170 | in every reachable state a container not yet touched can be stopped or removed by some continuation if and only if the latest row of an app names it or a rollback in progress is to replace it, may clean it up, or will record it in the latest row |
| `Orphans.FailedRollbackLaw` | internal/deploy/rollback.go:116-164 | when a rollback fails before seeing its container running, the container it was to replace can be touched by later rollbacks if and only if the latest row of an app names it or another rollback in progress is to replace it too |
| `Rollback.FindVersion` | internal/deploy/rollback.go:27-42 | a row of the app with the version, or none only if all 50 listed rows are at least as new or the version does not exist |
| `Rollback.HealthyLaw` | internal/deploy/rollback.go:134-164 | a container counts as running if and only if the first answer of ten looks says so, or the one look after it, or after ten without an answer, does |
| `Rollback.RollbackEngine.AwaitRunning` | internal/deploy/rollback.go:134-164 | healthy exactly when the first answer of ten looks says running or the one look after it does; the container then counts as verified |
| `Rollback.RollbackEngine.FailCreation` | internal/deploy/rollback.go:116-128 | records the failure and touches nothing but the partly created container |
| `Rollback.RollbackEngine.Replace` | internal/deploy/rollback.go:134-178 | records the outcome; touches the new container when unhealthy and only the previous one when healthy |
| `Rollback.RollbackEngine.Rollback` | internal/deploy/rollback.go:25-194 | from any reachable state, is a run of the protocol; its result is fixed by the answers; an exit without a row changes nothing; every error before the new container was seen running leaves all earlier containers alone and cleans up the new one; otherwise the new one serves and exactly the latest deployment's container was touched; the one new row has the target's image, a version above all earlier ones, and the outcome |
| `Rollback.VerdictLaw` | internal/deploy/rollback.go:25-194 | a rollback succeeds if and only if the version is listed with an image, app and row are there, the container is created and seen running, and the update goes through; each error reports the one of these that failed |

## Left out

- HTTP handlers, middleware, the web interface, the command line, configuration, permission tables: plumbing around the modelled parts.
- Docker, SQL, JSON and YAML decoding, TLS, ACME, network probes and cryptography: foreign code, seen only through its answers; hashes are an arbitrary function and only equality of hashes is used.
- Metrics, log lines, emitted events and error counters of all components.
- Event pool: event contents, ordering of sync handlers' results beyond the first error, and a panic inside the error callback.
- Compose.StackDeployer.Deploy: a container left behind by the failing creation itself is not modelled; environment, labels and limits of a service are left out.
- Schedule.DailyNextIsLeast: the zone offset is fixed, so daylight-saving shifts are not modelled; parsing of `@every` durations is a parameter.
- Scheduler.InvOverRuns: the Enabled flag, and objects handed to Add with Running already set, are not modelled; a tick is a series of dispatches at one clock reading.
- Routing.SortRoutes: the library sort is represented by an insertion sort; nothing but sorted and permuted is used of it, and the order of equal ranks stays open in `ExactWinsOnlyByRank`.
- Routing.RouteTable.Upsert: entries are values, so a caller that edits an entry after handing it over is not modelled; the TLS, prefix-stripping and health fields of an entry are left out.
- Discovery.SyncRoutes: a writer that changes the table during the reconciliation is not modelled.
- SigV4: the header part of the signature and the signature itself.
- Tokenizer: the command allow-list that uses the tokens.
- LeaderElection.LeaseTable.Elect: the transaction is one atomic step, and the session-scoped advisory locks are left out.
- DnsQueue.ExactlyOnePlace: jobs are fresh objects with no retries behind them.
- LokiSink: the HTTP request inside `send`.
- Stripe.EachIdOnce: deliveries are sequential; two simultaneous deliveries of one ID are not modelled. Checkout and payment events change no tenant and are one case of the event type.
- Backup.CompletedRowsAreBacked: one storage target and backup rows written by the scheduler only; object keys are triples rather than strings; the retention time is 30 times 24 hours; the database snapshot upload is left out.
- RollbackProtocol.AlwaysAvailable: rollbacks only; the deploy pipeline, deletion of an app and crashes of a container after it was seen running are not modelled.
- Rollback.RollbackEngine.Rollback: an engine without a container runtime, which only writes rows, and the app status are left out; the labels are in `Discovery.RollbackIsRouted`, with every naming of the routers.
