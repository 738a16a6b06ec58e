# Verified models of the proxy core's state machines

This project models, in Dafny, the parts of the proxy core and its v2 service layer that
carry state across calls or goroutines, and proves what they keep over every input, every run or
every interleaving. To verify it, run `dafny verify dfyconfig.toml`.

| file | what it covers |
|---|---|
| `DependencyStart.dfy` | the fixpoint start loop of outbounds and DNS transports with its recursive diagnosis |
| `TagIndex.dfy` | the member list, by-tag map and reverse dependency index that both managers keep in step |
| `OutboundManager.dfy`, `TransportManager.dfy` | Create, Remove, Start and Close over that index |
| `BoxStart.dfy` | the staged start of a box and the tag check of its options |
| `DialRace.dfy` | serial dialing and the two-group dial race |
| `ConnShutdown.dfy` | the life of a routed connection: setup, and shutdown by its two copy goroutines |
| `QuestionLock.dfy`, `DnsTtl.dfy`, `DnsClient.dfy` | the DNS client: per-question lock, TTL arithmetic, cache |
| `DnsRouter.dfy` | DNS rule selection and the retry loops |
| `RouteRules.dfy` | route rule evaluation in pre-match and full mode |
| `CoreLifecycle.dfy` | Start, Stop, Restart and ServiceReload over the service globals |
| `Decimal.dfy`, `Version.dfy` | version names |
| `Optional.dfy` | the option type the others share |

Objects that the source updates in place are classes whose methods are proved against functions on
an abstract state; the invariants are then proved about those functions for all sequences of
operations. Concurrent protocols are transition systems, and the theorems range over every
sequence of enabled steps. Dialers, transports, starters, closers, rule matching, sniffing and clocks are
parameters: a function of what they are shown, or a free choice at each step.

Where a natural property does not hold of the code, the model keeps the code, gives a failing case and
states exactly when the property holds:

- a dependency listed twice can erase another member's record, so that Remove succeeds on a tag still in use;
- re-creating a member, or a refused Remove, leaves records behind, so that Remove can refuse a tag nothing depends on;
- the transport manager's Remove compares the fakeip type with `!=` and so keeps or picks a wrong default;
- the fallback outbound `direct` clashes with an endpoint of that tag, which ends the start loop in a nil dereference;
- the outbound diagnosis ignores endpoints and can call a listed one missing;
- a packet connection whose handshake report fails never runs its close handler;
- an OPT record put back after the store spoils the TTL decay: its own TTL wraps around, or with the DO bit all others come out wrong;
- a negative answer whose SOA minimum is zero is kept for the SOA's own TTL;
- in independent mode the lock is per question but the cache per transport, so one question can reach transports several times;
- options gathered by DNS route-options rules are lost on a retry, and a predefined Lookup answer after a failed attempt carries the old error;
- a sniff rule that overrides the destination after something resolved it leaves addresses of another domain;
- PreStart followed by Start panics;
- Remove takes out an outbound that an endpoint has as its detour;
- ServiceReload drops its command server without closing it, and stops the core because its request has no configuration;
- `After` orders rc above beta and beta above alpha but not rc above alpha.

## Model

| member | source | states |
|---|---|---|
| `DependencyStart.StartAll` | core/adapter/outbound/manager.go:93-158 | For every list, index and set of failing starters: the loop terminates; each tag starts at most once and only after all its dependencies; nil if and only if tags are distinct, every dependency is listed, the graph is acyclic and no starter fails; a failing starter ends the run; a nil dereference needs a repeated tag, and a repeated tag in a good graph forces it; every diagnosis is true when index and list agree |
| `DependencyStart.StartPass` | core/adapter/outbound/manager.go:99-129 | One pass extends the start order, reports progress exactly when it started something, and a pass without progress leaves every unstarted member with an unstarted dependency |
| `DependencyStart.AllStarted` | core/adapter/outbound/manager.go:105-109 | True exactly when every dependency has been started |
| `DependencyStart.Diagnose` | core/adapter/outbound/manager.go:136-155 | A stuck loop has a bad graph or repeated tags, and with an agreeing index the report is true |
| `DependencyStart.LintTellsTheTruth` | core/dns/transport_manager.go:111-130 | For a stuck member, a circular report is a path of unstarted dependencies ending in a repeated tag, and a not-found report names an unstarted dependency that is absent from the index and that a listed unstarted member really has |
| `DependencyStart.StuckIsMaximal` | core/adapter/outbound/manager.go:99-135 | Whatever is left when the loop is stuck could not have been started by any order at all |
| `DependencyStart.StuckMeansBadGraph` | core/adapter/outbound/manager.go:99-135 | A stuck loop implies a missing dependency or a cycle, so the graph condition is sufficient |
| `DependencyStart.FullOrderMeansGoodGraph` | core/adapter/outbound/manager.go:130-132 | A complete start order implies distinct tags, listed dependencies and acyclicity, so the graph condition is necessary |
| `DependencyStart.StartOrderAt` | core/adapter/outbound/manager.go:99-129 | Position by position: no tag repeats and some member with that tag has all its dependencies earlier |
| `TagIndex.RecordDepsAt` | core/adapter/outbound/manager.go:285-288 | Recording appends one copy of the tag per occurrence of a dependency and changes no other entry |
| `TagIndex.DropDepsExact` | core/adapter/outbound/manager.go:234-243 | For any index: dropping a member's records removes the only record of an entry whoever it names, else filters the tag out, and a dependency listed twice also erases the one dependent that is left |
| `TagIndex.DropKeepsCompleteExactly` | core/adapter/outbound/manager.go:234-243 | The reverse index stays complete if and only if no repeated dependency has a live member as its only other recorded dependent |
| `TagIndex.DuplicateFreeNeverLoses` | core/adapter/outbound/manager.go:234-243 | A duplicate-free dependency list never loses another member's record |
| `TagIndex.DetachKeeps` | core/adapter/outbound/manager.go:213-222 | Taking a member out keeps list and map in bijection, removes exactly that member, and keeps the reverse index complete |
| `TagIndex.ReplaceKeeps` | core/adapter/outbound/manager.go:269-288 | Replacing or adding a member keeps list and map in bijection, keeps exactly the other tags' members, and keeps the reverse index complete |
| `TagIndex.FindIndex` | core/adapter/outbound/manager.go:214-216 | The first position of the member, -1 exactly when it is not listed |
| `TagIndex.RecordAll` | core/adapter/outbound/manager.go:285-288 | The recording loop computes the recursive specification whose entries RecordDepsAt gives |
| `TagIndex.DropAll` | core/adapter/outbound/manager.go:234-243 | The dropping loop computes the recursive specification whose entries DropDepsExact gives |
| `TagIndex.ReplaceIn` | core/adapter/outbound/manager.go:269-288 | The list, map and index after Create's in-place edits are those of Replace; it fails exactly where the source panics |
| `TagIndex.DetachIn` | core/adapter/outbound/manager.go:213-220 | The list and map after Remove's first edits; on the panic path the map has already changed |
| `TagIndex.StartStage` | core/adapter/outbound/manager.go:83-88 | The other stages run in list order, succeed exactly when no member fails, and stop at the first failing one, which is the last in the order |
| `TagIndex.RecordedExactly` | core/adapter/outbound/manager.go:229-233 | With live and complete records an entry is nonempty if and only if something live depends on its tag |
| `TagIndex.ReplaceKeepsRecordsLiveExactly` | core/adapter/outbound/manager.go:269-288 | Replacing a member keeps every record live if and only if the new one has every dependency of the old |
| `TagIndex.DetachKeepsRecordsLiveExactly` | core/adapter/outbound/manager.go:213-233 | Taking a member out without dropping its records keeps every record live if and only if it had no dependency |
| `TagIndex.DropKeepsRecordsLive` | core/adapter/outbound/manager.go:234-243 | Dropping its records as well always keeps the others live |
| `TagIndex.StartListAgrees` | core/adapter/outbound/manager.go:80-158 | The tag map is a truthful index for the list of outbounds and endpoints that is started |
| `OutboundManager.RunKeeps` | core/adapter/outbound/manager.go:51-296 | After any Create/Remove/Start sequence the list is duplicate-free by tag and in bijection with the map, no operation can reach an index panic, and with duplicate-free dependency lists every live dependency is in the reverse index |
| `OutboundManager.StepKeeps` | core/adapter/outbound/manager.go:51-296 | Each operation keeps that invariant, including the clause that makes the fallback outbound unable to clash with a listed one |
| `OutboundManager.RemoveIsSafe` | core/adapter/outbound/manager.go:206-248 | After any such run, Remove gets past its dependency check only when no listed outbound depends on the tag, before and after |
| `OutboundManager.RemoveSparesEndpointsExactly` | core/adapter/outbound/manager.go:206-248 | Counting live endpoints too, whose dependencies are never recorded, Remove gets past its check only for a tag nothing needs if and only if no endpoint needs it or a record makes Remove refuse |
| `OutboundManager.EndpointLosesItsDetour` | core/adapter/endpoint/adapter.go:22-42 | Concrete outbound that Remove takes out although an endpoint has it as its detour |
| `OutboundManager.RemoveKeepsCompleteExactly` | core/adapter/outbound/manager.go:206-248 | On any complete index, repeated dependencies included, Remove keeps it complete if and only if no repeated dependency loses its last live record |
| `OutboundManager.RepeatedDependencyLosesRecord` | core/adapter/outbound/manager.go:234-243 | Concrete run with a repeated dependency after which Remove succeeds on a tag that a live outbound depends on |
| `OutboundManager.CreateStrandsDefaultExactly` | core/adapter/outbound/manager.go:269-294 | Re-creating a tag strands a listed default exactly when it replaces the default and the tag is not the configured one; a changed default is the created, listed outbound, and an endpoint default stays |
| `OutboundManager.RemoveRefusesExactly` | core/adapter/outbound/manager.go:206-233 | While every record is live, Remove refuses if and only if something live depends on the tag |
| `OutboundManager.CreateKeepsRecordsLiveExactly` | core/adapter/outbound/manager.go:250-288 | Create keeps every record live if and only if it does not replace a member with a dependency the new one lacks |
| `OutboundManager.RemoveKeepsRecordsLiveExactly` | core/adapter/outbound/manager.go:206-248 | Remove keeps every record live if and only if it is not refused or the member had no dependency |
| `OutboundManager.StaleRecordRefuses` | core/adapter/outbound/manager.go:269-288 | Concrete run in which a re-created outbound leaves a record that makes Remove refuse a tag nothing live depends on |
| `OutboundManager.RemoveAfterClosePanics` | core/adapter/outbound/manager.go:160-182 | Close empties the list but not the map, so a later Remove of any tag reaches the index panic |
| `OutboundManager.StartListDistinct` | core/adapter/outbound/manager.go:67-80 | The started list has distinct tags if and only if endpoints do and no endpoint shares an outbound's tag |
| `OutboundManager.NotFoundIsFalseExactlyForEndpoints` | core/adapter/outbound/manager.go:139-155 | A not-found report names a listed member if and only if it names an endpoint, and what it names could not have been started by any order |
| `OutboundManager.EndpointCycleReportedAsMissing` | core/adapter/outbound/manager.go:147-152 | Concrete list where a self-dependent endpoint is reported as not found because only the outbound map is consulted |
| `OutboundManager.Manager.constructor` | core/adapter/outbound/manager.go:36-45 | A new manager is empty and satisfies the invariant |
| `OutboundManager.Manager.CreateOutbound` | core/adapter/outbound/manager.go:250-296 | The fields after the call are those of Create, with every error exit; the invariant is kept and no panic occurs under it |
| `OutboundManager.Manager.RemoveOutbound` | core/adapter/outbound/manager.go:206-248 | The fields after the call are those of Remove, which changes list, map and default before looking at dependents |
| `OutboundManager.Manager.PrepareStart` | core/adapter/outbound/manager.go:51-79 | Stage guard, default lookup among endpoints and fallback creation, keeping the invariant |
| `OutboundManager.Manager.Start` | core/adapter/outbound/manager.go:51-91 | Start-stage runs are valid start orders, succeed exactly on good graphs with tags apart from the endpoints', and diagnose truthfully; other stages run in list order |
| `OutboundManager.Manager.CloseAll` | core/adapter/outbound/manager.go:160-182 | Close empties the list and clears the started flag, nothing else |
| `TransportManager.RunKeeps` | core/dns/transport_manager.go:52-291 | After any Create/Remove/Start sequence list and map are in bijection, index panics are unreachable, and duplicate-free dependency lists keep the reverse index complete |
| `TransportManager.RemoveIsSafe` | core/dns/transport_manager.go:188-234 | After any such run Remove succeeds only when nothing live depends on the tag |
| `TransportManager.RemoveKeepsGoodDefaultExactly` | core/dns/transport_manager.go:204-215 | Remove keeps a registered, non-fakeip default if and only if it removed another server or the last one: with servers left over the inverted type comparison keeps the removed server or picks fakeip |
| `TransportManager.RemovedServerStaysDefault` | core/dns/transport_manager.go:204-215 | Concrete pair of ordinary servers where removing the default fails and leaves it the default, off the list |
| `TransportManager.CreateRunsNeverDefaultToFakeIP` | core/dns/transport_manager.go:273-282 | Without Remove the default is never fakeip, whatever fails |
| `TransportManager.RemovedFakeIPBlocksAnother` | core/dns/transport_manager.go:188-289 | Remove never clears the fakeip server, so a later fakeip Create cannot succeed |
| `TransportManager.StartedTransports` | core/dns/transport_manager.go:71-130 | The started list has distinct tags and the diagnosed index holds exactly its tags |
| `TransportManager.Manager.CreateTransport` | core/dns/transport_manager.go:236-291 | The fields after the call are those of Create; both fakeip errors leave the transport registered |
| `TransportManager.Manager.RemoveTransport` | core/dns/transport_manager.go:188-234 | The fields after the call are those of Remove, including the early error exit |
| `TransportManager.Manager.Start` | core/dns/transport_manager.go:52-75 | nil exactly for listed dependencies, acyclic graph and no failing starter; never a nil dereference; a not-found report names a tag no registered transport has |
| `DialRace.DialSerial` | core/common/dialer/default_parallel_network.go:16-45 | Addresses are dialed in order with the destination's port; success is the first address that does not fail; an error means all were tried and carries each one's error; the usage panic exactly for no address and a non-IP destination |
| `DialRace.GroupsPartition` | core/common/dialer/default_parallel_network.go:62-78 | The two groups split the valid addresses in order, with multiplicity, and the preferred family is the primary group |
| `DialRace.KeepCounts` | core/common/dialer/default_parallel_network.go:62-67 | Both filters and the invalid rest add up to the list, as multisets |
| `DialRace.StepKeeps` | core/common/dialer/default_parallel_network.go:79-129 | Every step of caller, racers and timer keeps the conservation and progress invariant |
| `DialRace.RunKeeps` | core/common/dialer/default_parallel_network.go:79-129 | Hence every interleaving does |
| `DialRace.RunIsShort` | core/common/dialer/default_parallel_network.go:85-129 | Every run is finite, bounded by twice the number of addresses plus fifteen |
| `DialRace.LoopHead` | core/common/dialer/default_parallel_network.go:105-128 | At each loop head the primary is working, the timer is armed or pending, or the fallback is working, and some step is possible |
| `DialRace.FallbackDiscipline` | core/common/dialer/default_parallel_network.go:106-127 | The fallback starts at most once and, before the delay has expired, only after the primary's failure was received |
| `DialRace.ErrorMeansAllFailed` | core/common/dialer/default_parallel_network.go:120-124 | An error is returned only after both groups failed entirely, is the primary's, and no connection was ever established |
| `DialRace.NothingLeaks` | core/common/dialer/default_parallel_network.go:85-129 | When nothing more can happen the caller has returned, and each established connection is either the returned one or closed exactly once; the returned one is to the first address of its group that did not fail, at the destination's port |
| `DialRace.RaceErrorCoversTheList` | core/common/dialer/default_parallel_network.go:47-129 | An error from a race means every valid address of the caller's list was dialed and failed |
| `DialRace.RaceSuccessIsListed` | core/common/dialer/default_parallel_network.go:26-129 | A success from a race is to an address of the caller's list, of its group's family, at the destination's port, after every earlier address of that family failed |
| `ConnShutdown.StepKeeps` | core/route/conn.go:227-312 | Every step of either copy direction keeps the invariant on the flag, the close handler and its argument, the list element and the two ends |
| `ConnShutdown.LifeStepKeeps` | core/route/conn.go:58-107 | So does every step of the whole life: dial, handshake report, registration, copying |
| `ConnShutdown.RunKeeps` | core/route/conn.go:58-312 | Hence every interleaving with any failures does |
| `ConnShutdown.OnCloseAtMostOnce` | core/route/conn.go:227-312 | The close handler runs at most once; while copying only after both directions reached the flag, with the second finisher's result, and together with the list removal |
| `ConnShutdown.ShutdownComplete` | core/route/conn.go:96-106 | When both directions are over: exactly one close handler call, one list removal, both ends closed |
| `ConnShutdown.HalfCloseKeepsBothOpen` | core/route/conn.go:280-294 | While the other direction is still copying, a clean half-close closes neither end and runs no handler |
| `ConnShutdown.RunsComplete` | core/route/conn.go:58-312 | Every life has at most thirteen steps, and one that cannot be extended failed to set up or finished both directions |
| `ConnShutdown.StreamCallsOnce` | core/route/conn.go:58-107 | Over the whole life, whatever fails, the close handler runs exactly once, every end that was opened is closed, and the element is removed as often as registered |
| `ConnShutdown.PStepKeeps` | core/route/conn.go:336-359 | The same invariant for packets, where the first finisher runs the handler |
| `ConnShutdown.PLifeStepKeeps` | core/route/conn.go:109-225 | It is kept over dial, handshake report, registration and copying |
| `ConnShutdown.PacketShutdown` | core/route/conn.go:336-359 | While copying, the handler has run exactly when the first finisher is past its call, with that direction's result and one removal; both ends are closed exactly when a direction is over |
| `ConnShutdown.PacketRunsComplete` | core/route/conn.go:109-359 | Every packet life has at most eleven steps, and one that cannot be extended failed to set up or finished |
| `ConnShutdown.PacketCallsOnceExactly` | core/route/conn.go:172-178 | Over the whole life every opened end is closed and removals match registrations, but the handler runs exactly once if and only if no handshake report fails; after a failed report it never runs and nothing was registered |
| `ConnShutdown.FailedReportRunsNoHandler` | core/route/conn.go:172-178 | Concrete life with a failed report: both ends closed, handler never run |
| `QuestionLock.StepKeeps` | core/dns/client.go:143-171 | Every step of any number of concurrent exchanges, with eviction at any time, keeps the lock, channel and waiting invariants |
| `QuestionLock.RunKeeps` | core/dns/client.go:143-171 | Hence every interleaving does |
| `QuestionLock.OneLeaderPerQuestion` | core/dns/client.go:143-171 | At most one exchange holds a question's entry, and no channel is closed twice |
| `QuestionLock.FollowersHaveALiveLeader` | core/dns/client.go:143-171 | A blocked follower can wake, or its channel has a leader of the same question that can take a step |
| `QuestionLock.QuietRunsAreComplete` | core/dns/client.go:143-171 | When no exchange can move, all have returned, the lock map is empty and every channel handed out was closed exactly once |
| `QuestionLock.FewMoves` | core/dns/client.go:112-171 | An exchange takes at most seven steps in any run, however the others are scheduled |
| `QuestionLock.CachedAnswerSparesTransport` | core/dns/client.go:143-171 | While its key stays in the cache an exchange that has not yet missed never calls its transport, in particular a follower that wakes |
| `QuestionLock.SingleFlight` | core/dns/client.go:143-194 | If answers are stored and kept, a question whose exchanges share one cache key, or of which at most one misses the initial cache, reaches a transport at most once in the whole run |
| `QuestionLock.SingleFlightExactly` | core/dns/client.go:143-194 | Every such run calls at most once per question if and only if that holds for each question |
| `QuestionLock.TwoKeysTwoCalls` | core/dns/client.go:143-171 | From any start, two exchanges of one question with different uncached keys have a run that calls twice |
| `QuestionLock.TwoTransportsTwoCalls` | core/dns/client.go:143-171 | From any start, one cached and two uncached exchanges of a question have a run in which a follower without the lock races a new leader to a second call |
| `DnsTtl.Lowest` | core/dns/client.go:273-281 | The scan yields the least positive TTL, 0 when none is positive |
| `DnsTtl.ScanTtl` | core/dns/client.go:273-281 | The loop computes it over answer, authority and additional records |
| `DnsTtl.NegativeTtl` | core/dns/client.go:98-110 | The first SOA decides: the smaller of its TTL and MINIMUM; none exactly without a SOA |
| `DnsTtl.NeverKeptTooLong` | core/dns/client.go:267-284 | Without a rewrite a nonempty answer's lifetime is positive and at most every positive TTL it carries |
| `DnsTtl.NegativeTtlExactly` | core/dns/client.go:267-281 | A negative answer is kept for the SOA value if and only if that is positive or no record has a positive TTL |
| `DnsTtl.ZeroMinimumIsCached` | core/dns/client.go:267-281 | Concrete negative answer with MINIMUM 0 that is kept for its SOA's own TTL |
| `DnsTtl.FinishCleansUp` | core/dns/client.go:293-303 | After the EDNS clean-up every record is at the chosen TTL except at most one OPT holding only the DO bit, and no other record is lost |
| `DnsTtl.CleanedUpServesAll` | core/dns/client.go:472-499 | Such a cached message, loaded before expiry, is served with the whole seconds remaining on every record if and only if no OPT was put back beside another record |
| `DnsTtl.CleanedUpServesData` | core/dns/client.go:472-499 | Its records other than OPT are, if and only if no OPT at 0x8000 was put back beside them |
| `DnsTtl.ServedRightExactly` | core/dns/client.go:267-303 | End to end, for every message: every record, OPT included, is served with lifetime minus elapsed, between 0 and the lifetime, if and only if no OPT was put back beside a record that stays |
| `DnsTtl.DataServedRightExactly` | core/dns/client.go:267-303 | For the records other than OPT: if and only if the OPT put back beside them does not carry the DO bit |
| `DnsTtl.PutBackOptWrapsAround` | core/dns/client.go:293-303 | Concrete answer at TTL 0x10000 whose OPT, put back at 0, is served as 0xFFFFFFFF a second later |
| `DnsTtl.ShiftLeavesRemaining` | core/dns/client.go:482-490 | Subtracting the elapsed time in 32 bits leaves the remaining time, without wrap-around |
| `DnsTtl.ShiftFromDoBitIsWrong` | core/dns/client.go:472-490 | Measured against the DO bit, no remaining time ever comes out right |
| `DnsTtl.RemainingFalls` | core/dns/client.go:480-483 | The remaining seconds never increase over time |
| `DnsClient.SubnetIsNeverSimple` | core/dns/extension_edns0_subnet.go:9-53 | A request with a client subnet is never a simple one |
| `DnsClient.SubnetDisablesCache` | core/dns/client.go:126-142 | With a client-wide subnet nothing is ever served from or written to the cache, in any run |
| `DnsClient.ExchangeKeeps` | core/dns/client.go:112-306 | One exchange keeps every cache entry backed by a recorded answer |
| `DnsClient.RunKeeps` | core/dns/client.go:112-306 | So does any sequence of exchanges, evictions and purges |
| `DnsClient.HitsAreGood` | core/dns/client.go:429-501 | In every run a hit is, up to id, TTLs, OPT records and HTTPS hints, an answer some transport (the same one in independent mode) gave to that question with success or name-error, on a cacheable request, accepted; it is within the lifetime chosen for that answer and, unless rewritten, within every positive TTL it carried; every record carries the seconds that remain of that lifetime exactly unless an OPT was put back beside a record that stays, and the data records exactly unless that OPT carries the DO bit |
| `DnsClient.ExpiredIsMissed` | core/dns/client.go:457-471 | After its lifetime an entry is a miss and is gone or replaced by a new one |
| `DnsClient.FinalDerives` | core/dns/client.go:248-303 | The returned and cached response differs from the transport's answer only in id, TTLs, OPT records and filtered HTTPS hints |
| `DnsClient.FindNegativeTtl` | core/dns/client.go:98-110 | The loop computes NegativeTtl |
| `DnsClient.WriteTtl` | core/dns/client.go:285-289 | The loop writes the TTL to every record and nothing else |
| `DnsClient.KeepHints` | core/dns/client.go:252-262 | Exactly the address hints of the other family go, every other parameter stays as often as before |
| `DnsClient.KeepHintsInOrder` | core/dns/client.go:252-262 | What stays keeps its order: a prefix and the rest are filtered separately |
| `DnsClient.StripHints` | core/dns/client.go:248-266 | The loop applies KeepHints to every HTTPS record and leaves the others alone |
| `DnsClient.Finish` | core/dns/client.go:248-303 | The tail of Exchange, from hint filtering to EDNS clean-up, with the TTL it stores under |
| `DnsClient.Client.constructor` | core/dns/client.go:60-90 | A new client has an empty cache |
| `DnsClient.Client.Ask` | core/dns/client.go:112-306 | State and result of one call are those of the specification, whose runs are described above; provenance is kept |
| `DnsClient.Client.Clear` | core/dns/client.go:348-354 | Purging empties the cache |
| `DnsRouter.MatchDns` | core/dns/router.go:121-200 | The first rule from the given index that ends the search, with the options gathered on the way and the transport's legacy settings, else the default transport |
| `DnsRouter.MatchIsUnique` | core/dns/router.go:121-200 | That description determines the selection |
| `DnsRouter.Exchange` | core/dns/router.go:246-306 | The retry loop terminates and its run is a retry chain from the caller's addresses: each selection but the last made a checked call that was rejected, and the next one starts right after it |
| `DnsRouter.Lookup` | core/dns/router.go:366-419 | The retry loop of Lookup terminates and is such a chain, in which any error of a checked lookup is retried |
| `DnsRouter.IndicesIncrease` | core/dns/router.go:246-411 | In both loops rule indices strictly increase and only the last selection can be the default |
| `DnsRouter.FewAttempts` | core/dns/router.go:246-411 | In both loops at most one selection, hence one client call, per rule plus one |
| `DnsRouter.AttemptsAreUnique` | core/dns/router.go:246-411 | In both loops environment and query determine all selections |
| `DnsRouter.EarlierRulesAreAccountedFor` | core/dns/router.go:246-411 | In both loops every rule before a selection was looked at and passed over, or selected and refused, so the last selection is the least-index usable matching rule that was not refused, else the default |
| `DnsRouter.ChainIsUnique` | core/dns/router.go:246-306 | They also determine the outcome of Exchange |
| `DnsRouter.LookupChainIsUnique` | core/dns/router.go:366-419 | And that of Lookup |
| `DnsRouter.RetryKeepsOptionsExactly` | core/dns/router.go:253-255 | Options are rebuilt from the caller's on every retry; the attempt gathers the same options as if all rules since the first had counted if and only if, field by field, each value set by an applying route-options rule passed before is set again later or is the caller's own |
| `DnsRouter.RetryForgetsOptions` | core/dns/router.go:253-255 | Concrete rule list where options gathered before a rejected attempt do not apply to the next one |
| `DnsRouter.PredefinedIsCleanExactly` | core/dns/router.go:376-395 | When a predefined success answers a lookup, it comes without an error if and only if it is the first rule to end the search from the caller's addresses; otherwise the old error comes with the addresses |
| `DnsRouter.FirstPredefinedAnswers` | core/dns/router.go:376-395 | Such a first rule does answer, at once and without an error |
| `DnsRouter.PredefinedAfterFailure` | core/dns/router.go:376-418 | Concrete rules where a failed checked lookup is followed by a predefined answer: the caller gets the address and the old error |
| `RouteRules.MatchRule` | core/route/route.go:277-489 | The loop computes the ordered fold in both modes, fatal errors included |
| `RouteRules.EvaluationIsAFold` | core/route/route.go:277-489 | Every evaluation past the preparation has a trace: it selects the first rule whose action is final on the metadata left by the earlier ones |
| `RouteRules.TracesAgree` | core/route/route.go:374-487 | The metadata each rule is shown is determined |
| `RouteRules.PreMatchRejectionStands` | core/route/route.go:262-275 | With the inbound's own sniffing off, a pre-match rejection by rule k is also the full evaluation's result, with the same metadata |
| `RouteRules.FullRejectionIsPreMatchedExactly` | core/route/route.go:262-275 | A full rejection is found by pre-matching if and only if no sniff rule matched on the way |
| `RouteRules.OriginalIsFixed` | core/route/route.go:405-424 | Once recorded, the original destination never changes again for any later rule |
| `RouteRules.OriginalReachesOutcome` | core/route/route.go:405-424 | Nor in the metadata the evaluation ends with, after a final route with an override |
| `RouteRules.FirstOverrideRecords` | core/route/route.go:405-424 | Until then it is recorded exactly by a matching rule that overrides, as the destination being replaced |
| `RouteRules.AddressesAnswerTheDomain` | core/route/route.go:374-487 | From empty addresses, in pre-match always and in full mode when no overriding sniff rule follows something that resolves, nonempty destination addresses answer the final domain |
| `RouteRules.FreshForEveryEnvironmentExactly` | core/route/route.go:374-487 | For a rule list and inbound strategy this holds whatever matches, is sniffed or looked up if and only if it is a pre-match or no overriding sniff rule follows a resolve rule or the inbound's strategy |
| `RouteRules.SniffAfterResolveGoesStale` | core/route/route.go:665-673 | Concrete evaluation of resolve and overriding sniff that ends with the new domain and the old domain's addresses |
| `RouteRules.StepKeepsFresh` | core/route/route.go:374-487 | Each rule keeps addresses fresh under that condition, and absent until something resolves |
| `RouteRules.ResolveKeepsFresh` | core/route/route.go:688-712 | So does resolving, on every exit |
| `CoreLifecycle.StepKeeps` | v2/custom.go:22-250 | Every operation with any errors keeps the invariant between operations |
| `CoreLifecycle.RunKeeps` | v2/custom.go:22-250 | After any sequence of Start/Stop/Restart/ServiceReload: STARTED has a box, STOPPED has none, STARTING does not persist, and no stored instance was dropped or overwritten before Close was attempted on it |
| `CoreLifecycle.StartSettles` | v2/custom.go:54-77 | Start ends STARTED or STOPPED from any reachable state |
| `CoreLifecycle.StoppingIsLeftOnlyByStartOrReload` | v2/custom.go:156-250 | A failed close leaves STOPPING, where Stop and Restart change nothing and Start and ServiceReload leave it |
| `CoreLifecycle.ServerDroppedExactly` | v2/old_command_server.go:15-35 | For command servers the close-before-drop promise fails exactly in two cases: a reload finds an open server, or Start overwrites one that a failed box close left behind |
| `CoreLifecycle.ReloadDropsOpenServer` | v2/old_command_server.go:15-35 | Concrete start and reload after which the core is stopped without a box and the first command server is dropped and unclosed |
| `CoreLifecycle.StartServiceEnds` | v2/custom.go:79-154 | Success if and only if STARTED, failure if and only if STOPPED, from every entry state |
| `CoreLifecycle.StopEnds` | v2/custom.go:156-212 | Success leaves STOPPED without a server, and what each failure leaves behind |
| `CoreLifecycle.ReloadEnds` | v2/old_command_server.go:15-35 | A reload ends STARTED or STOPPED, whatever the new start does, and drops an open server it finds |
| `CoreLifecycle.EmptyReloadStops` | v2/old_command_server.go:29-32 | The request of a reload carries no configuration, so from every state of every run it ends STOPPED with the box closed and the server it found dropped and unclosed |
| `CoreLifecycle.Core.constructor` | v2/coreinfo.go:11-14 | The initial globals satisfy the invariant |
| `CoreLifecycle.Core.DoStopAndAlert` | v2/custom.go:22-45 | Globals after StopAndAlert, the closed but still referenced command server included |
| `CoreLifecycle.Core.DoStartService` | v2/custom.go:79-154 | Globals and status after StartService on each of its exits |
| `CoreLifecycle.Core.DoStop` | v2/custom.go:156-212 | Globals and status after Stop on each of its exits, keeping the invariant |
| `CoreLifecycle.Core.DoStart` | v2/custom.go:54-77 | Globals after Start, whose inner Stop may fail; ends STARTED or STOPPED |
| `CoreLifecycle.Core.DoRestart` | v2/custom.go:214-250 | Globals and status after Restart, keeping the invariant |
| `CoreLifecycle.Core.DoReload` | v2/old_command_server.go:15-35 | Globals and status after ServiceReload; ends STARTED or STOPPED |
| `BoxStart.Box.constructor` | core/box.go:97-398 | A new box whose managers hold distinct tags has offered no stage to anyone |
| `BoxStart.Box.StartOutbounds` | core/adapter/outbound/manager.go:51-91 | Outbounds or the fallback, and endpoints, in dependency order; with good graphs and no failure they start exactly when no tags clash, and a clash crashes the loop |
| `BoxStart.Box.StartTransports` | core/dns/transport_manager.go:52-133 | DNS transports in dependency order; all start exactly when dependencies are transports, the graph is acyclic and none fails |
| `BoxStart.Box.Members` | core/adapter/outbound/manager.go:51-91 | A call offers its stage only to those it serves, each once, and to all of them if it completes; endpoints get Start from the outbound manager |
| `BoxStart.Box.Call` | core/adapter/lifecycle.go:51-59 | Panics exactly when a guarded manager is already past the stage; otherwise everyone's stages stay increasing and inbounds wait |
| `BoxStart.Box.Phase` | core/adapter/lifecycle.go:51-69 | One stage down a list of components, stopping at the first failure, without a panic |
| `BoxStart.Box.PreStart` | core/box.go:438-459 | On a fresh box, cut short anywhere: no already-started panic, increasing stages; a crash only on a tag clash |
| `BoxStart.Box.PreStartAgain` | core/box.go:438-459 | A second preStart reaches the already-started panic exactly unless the logger, an internal service or the network manager fails first |
| `BoxStart.Box.PreStartThenStart` | core/box.go:400-436 | After a completed PreStart, Start never completes, and panics when nothing fails |
| `BoxStart.Box.Start` | core/box.go:461-491 | On a fresh box, cut short anywhere: no already-started panic, each manager and member was offered a strictly increasing prefix of the four stages, no inbound got Start before all outbounds, endpoints and DNS transports; a crash only, and completion never, on a clash of start tags; a complete run gives everyone all four |
| `BoxStart.ExpectedGrows` | core/adapter/endpoint/manager.go:36-55 | A completed call adds its stage to exactly those it serves, across the endpoint manager's skipped Start stage |
| `BoxStart.CompletedCall` | core/adapter/lifecycle.go:51-69 | The log of offers after a completed call is what the levels say |
| `BoxStart.AnyCallIsOrderly` | core/adapter/lifecycle.go:51-69 | Also a call cut short leaves everyone with an increasing prefix of stages |
| `BoxStart.AnyCallKeepsInboundsWaiting` | core/box.go:461-474 | No call offers an inbound its Start stage before those it needs |
| `BoxStart.StartBlock` | core/adapter/outbound/manager.go:80-81 | The outbound manager's Start stage offers Start to outbounds, endpoints or the fallback, each once, all of them on success |
| `BoxStart.TransportBlock` | core/dns/transport_manager.go:77-133 | The transport manager's Start stage offers Start to transports, each once, all of them on success |
| `BoxStart.SeeTags` | core/option/options.go:77-100 | One loop of the tag check: it accepts exactly when the tags so far and its own effective tags are distinct |
| `BoxStart.CheckOutbounds` | core/option/options.go:77-100 | Accepts if and only if all effective tags of outbounds and endpoints are distinct, an empty tag standing for its position |
| `BoxStart.CheckedTagsStartCleanlyExactly` | core/adapter/outbound/manager.go:67-80 | Accepted tags give distinct start tags if and only if the fallback outbound is not needed or no endpoint is called direct |
| `BoxStart.DirectEndpointCrashes` | core/adapter/outbound/manager.go:67-80 | Concrete options with only an endpoint called direct: accepted by the check, and the start loop crashes although nothing fails |
| `Decimal.AtoiOfToString` | core/common/badversion/version.go:60-124 | Reading a printed numeral gives the number back, up to the 64-bit maximum |
| `Version.StringRoundTripsExactly` | core/common/badversion/version.go:64-124 | For non-negative versions Parse(String(v)) = v if and only if there is no commit, the identifier has no dash or dot, and no pre-release number stands without an identifier |
| `Version.BadStringRoundTripsExactly` | core/common/badversion/version.go:72-124 | Parse(BadString(v)) = v if and only if there is no commit and the identifier is alpha, beta, or absent without a pre-release number |
| `Version.ParseOfString` | core/common/badversion/version.go:64-124 | What String and Parse keep of any version with a plain identifier |
| `Version.ParseOfBadString` | core/common/badversion/version.go:72-124 | What BadString and Parse keep of any version with a plain identifier |
| `Version.ParsedIdIsPlain` | core/common/badversion/version.go:86-124 | Whatever is parsed, the identifier has no dash and no dot |
| `Version.AfterIsAsymmetric` | core/common/badversion/version.go:19-58 | Two versions are never both after each other |
| `Version.AfterIsTransitiveExactly` | core/common/badversion/version.go:19-58 | Transitivity fails exactly from a release candidate over a beta to an alpha of the same core |
| `Version.CandidateIsNotAfterAlpha` | core/common/badversion/version.go:19-58 | Concrete release candidate, beta and alpha where it fails |

## Left out

- Locking inside the managers: operations are atomic and follow one another; slices shared between a running Start and a later Create are not modelled.
- Registries: a created member carries the requested tag.
- Box.Close, ConnectionManager.Close and the re-initialised connection list: closing everything would add easy members.
- Inbound, service and endpoint Create/Remove: they repeat the outbound index in an easier form.
- The outbound selection after matchRule in routeConnection, and the handlers it calls: a case distinction on the selected action.
- Process search, IP version bookkeeping, the contents of sniffing, buffers, NAT wrappers and early payloads: sniffing is a function of the metadata, the others do not influence the results stated.
- The client's Lookup, which asks for A and AAAA concurrently, and lookupToExchange: DnsRouter.Lookup takes its result and the addresses its check last saw as given.
- Queries with a transport fixed by the caller in the DNS router: they make one client call without rules.
- The LRU behind the DNS cache: a map that may evict at any time; its clock is in nanoseconds and the rounding of seconds to floating point is not modelled.
- QuestionLock: exchanges that bypass the cache take no lock and are absent, and an exchange does not start another one for the same question from inside its transport, which would block on itself.
- DnsClient: one exchange at a time; interleavings are the subject of QuestionLock. The rejection cache and the loopback context are free choices.
- DialRace: a dialer that takes over the whole list is left to itself; contexts cancelled on return show up only as failing dials.
- CoreLifecycle: panics recovered by DeferPanicToError, log and bridge messages are absent; an instance whose own Start fails closes itself and is never stored; that the empty configuration of ServiceReload cannot be parsed is a fact about the JSON decoder, which EmptyReloadStops takes as given.
- BoxStart.Box.constructor: asks for distinct tags per manager, which Create provides by replacing a member under the same tag; clashes between managers are covered.
- ConnShutdown: CloseOnHandshakeFailure is taken to close the local end and run the handler once; ConnectionManager.Close is absent.
- Version.StringRoundTripsExactly: for components between 0 and the 64-bit maximum; negative ones are not covered.
- Version.BadStringRoundTripsExactly: for components between 0 and the 64-bit maximum; negative ones are not covered.
- NetworkManager, certificate store, badtls, logging, the HTTP debug server, option marshalling, generated RPC code, the Dart bridge, cgo exports and command-line tools: platform code, I/O or generated code.
