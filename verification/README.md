# kube-tunnel, modelled and proved in Dafny

kube-tunnel lets a developer reach services of a Kubernetes cluster by name: a
proxy parses `service.namespace.svc...` out of a request, keeps a port-forward
("tunnel") to a pod of that service in a cache, watches the tunnels' health in
the background, and redirects local traffic to itself with `iptables` or
`pfctl` rules. This project models the stateful cores of that program and
proves what they keep over whole runs. `dafny verify dfyconfig.toml` checks all
of it.

| file | what it models |
|---|---|
| `TunnelKeys.dfy` | the text key a tunnel is cached under, and when two requests share it |
| `Health.dfy`, `HealthMonitor.dfy` | the health monitor: its table with a history of what happened to each key, and the object that updates it |
| `Tunnels.dfy` | cache, watchers, monitor, launched callbacks and time as one step system, and who owns which context |
| `TunnelOwners.dfy` | whose tunnel an answer comes from |
| `MonitorAddresses.dfy` | which addresses the monitor holds over a run |
| `TunnelLife.dfy` | what becomes of one tunnel over a run: until when it is cached and kept from idling out, and watched by the monitor |
| `Watchers.dfy` | the watchers over a run: their clocks, how long tunnels can be idle, and how long watchers outlive them |
| `MonitorRuns.dfy` | the monitor's table over runs: its verdicts, its history told by the steps alone, and every goroutine it launches accounted for |
| `TunnelCache.dfy` | the cache as an object; each method is a path of that step system |
| `Hosts.dfy`, `Requests.dfy` | host parsing, the `X-Kube-Service` line, and how a request is classified, which port it prefers and whether it is local |
| `FastPath.dfy` | the two request caches in front of the regular path |
| `FastTunnels.dfy` | the request caches on top of a run of the tunnels: when what the fast path serves is still alive |
| `NatTable.dfy`, `LinuxRedirection.dfy`, `UniversalPorts.dfy` | the NAT table and the two managers that install rules with rollback |
| `Pfctl.dfy` | the `pf` rule list with its anchors, rule file and rollback |
| `Forwarding.dfy`, `ProtocolDetector.dfy` | reading through the detector's buffer, the copy loops in both directions, and the protocol a connection is taken for |
| `Retry.dfy` | retry with capped exponential backoff in int64 arithmetic, and protocol fallback |
| `HopByHop.dfy` | stripping hop-by-hop headers (section 6.1 of RFC 7230) |
| `PortResolution.dfy` | the three lookups from a service to a pod and a port |
| `LocalIPs.dfy` | the cyclic scan for a free `127.0.0.x` address |
| `NetworkConfig.dfy` | the normalising validation of the network section |
| `Text.dfy` | the few operations of Go's `strings` and `strconv` these use, each with its law |

How to read the main ones:

* **Step system.** A step of `Tunnels` is one section that runs under the
  cache's lock or the monitor's lock. `Lock` says how far the goroutine holding
  the cache's lock has got, so monitor steps (checks finishing, delayed removals,
  real-request updates) interleave inside every Ensure, removal and Stop. A run
  is any sequence of enabled steps; time passes in `Advance` steps of any length.
  Only the idle-time bounds assume that due ticks are taken at most `late` after
  they are due.
* **History.** `Health.Monitor.log` records events with their times and is never
  read by the monitor's effects. `FailuresSince`, `LastSeen`, `Present` and `Well`
  read the table's contents off the log alone, and the table is proved equal to
  that reading; `MonitorRuns.Told` says what each step records, going by the log.
* **Commands that may fail.** The environment of each NAT or `pf` operation says
  which commands fail; theorems quantify over all of them.
* **Properties that do not hold everywhere** are stated with the exact condition
  under which they do: the monitor's addresses under forced refreshes
  (`ForceRefreshKeepsFaithIff`, over runs `FaithfulRunIff`), a cached tunnel that
  is also watched (`WatchedIff`), tunnel keys (`KeyCollisions`, over runs
  `ServedByIff` and `AnswerOwnerCases`), classifiers that agree
  (`ClassifiersDisagreeIff`), agreement of the two request caches
  (`AgreeKeptIff`, `ClassifiersMustAgree`), a fast answer from the tunnel of one's
  own port (`FastServesOwnTargetIff`) and from a tunnel that is still alive
  (`FastAnswerIsLiveIff`), distinct `pf` lines (`PortRulesShareLineIff`,
  `PortShownIff`), consistent `pf` lists after a flush (`FlushKeepsConsistentIff`),
  a list that stays loaded over a removal (`RemovalKeepsLoadedIff`), agreement of
  the port lookups (`LookupsAgreeIff`, `LookupPanicsIff`, `ServicePortAgreesIff`),
  the end of copying when the detector met an error (`CopyStopsAt`), backoff
  without wrap-around (`NoDelayWrapsIff`), and a call that returns something
  (`NeverNothingIff`). Lemmas on single inputs (`ForceRefreshBreaksFaith`,
  `ColonHostIsCrossServed`, `DottedServiceCollides`, `MisclassifiedExample`,
  `PortIsIgnored`, `OddTextCollides`, `ColonAddressesCollide`,
  `LaterPodMakesThemDiffer`, `UnclampedDelayWraps`) show inputs that fail. Of the
  two about tunnel keys the first is a pair of hosts a client can send; no caller
  passes the dotted service of the second.

Two observations about the code itself. The connection that the multiplexer
passes on has no `Peek` method, so `extractServiceFromHeaders` never reads the
`X-Kube-Service` line the comments describe (the parsing is modelled all the
same). And some code is modelled as written although nothing uses it: the wiring
constructs neither `retryableTransport`, `protocolFallbackTransport`,
`ProtocolMultiplexer` nor `PfctlManager`, and nothing calls `GetFreeLocalIP`,
`GetServicePort`, `ForceRefreshPortForward`, `UpdateServicePerformance` or the
cache's `Stop`. Since nothing calls
`ForceRefreshPortForward`, the program as wired meets the condition of
`FaithfulRunIff`.

## Model

| member | source | states |
|---|---|---|
| TunnelKeys.KeyCollisions | internal/cache/cache.go:164-170 | for services without a dot, two requests share a key exactly when they are the same up to a non-positive port, or one spells its port inside its namespace text |
| TunnelKeys.KeyInjective | internal/cache/cache.go:164-170 | for plain names the printed key is injective in service, namespace and port-or-none |
| TunnelKeys.DottedServiceCollides | internal/cache/cache.go:164-170 | two different services whose names contain dots can share a key |
| Health.ValidateHealthConfig | internal/config/config.go:329-340 | interval, timeout and failure limit are raised to their floors and otherwise kept |
| Health.ClampedIsLeast | internal/config/config.go:329-340 | validation raises the three settings to their floors by as little as that takes, and nothing else |
| Health.FreshEntryBelowLimitIff | internal/config/config.go:335-337 | a freshly registered healthy entry is below the failure limit exactly when the limit is at least one, which validation guarantees |
| Health.VerdictIsHistory | internal/health/monitor.go:156-181 | IsHealthy says yes exactly for a key whose history makes it well and whose last event is at most three intervals old; asking again at once agrees |
| Health.DoomedIff | internal/health/monitor.go:385-403 | a finished check schedules a delayed removal exactly when it failed and the history counts three times the limit of failures |
| Health.FailedCheckTips | internal/health/monitor.go:355-383 | the table takes a failed check for the transition to unhealthy exactly when the history does |
| Health.SoundFinish | internal/health/monitor.go:259-404 | a finished check, also one that brings a removed key back blank, keeps the table equal to its history and launches exact |
| Health.SoundServe | internal/health/monitor.go:461-526 | so does an update from a real request, which never launches a callback |
| Health.SoundAsk | internal/health/monitor.go:156-181 | so does asking for a verdict, which may mark the entry stale |
| Health.SoundRegister | internal/health/monitor.go:100-133 | so does a registration, which leaves an existing entry alone |
| Health.SoundUnregister | internal/health/monitor.go:135-154 | so does an unregistration |
| Health.FinishKeepsAddress | internal/health/monitor.go:286-290 | no finished check gives a key a new address; a revived entry is blank |
| Health.ServeKeepsAddress | internal/health/monitor.go:469-474 | no real-request update gives a key a new address |
| Health.RecoveryHasCause | internal/health/monitor.go:334-352 | a key that was not well and is well again succeeded or was created in between |
| Health.LaunchesSeparated | internal/health/monitor.go:366-383 | between two OnUnhealthy launches for one key it succeeded or its entry was created afresh |
| Health.RoundChecksEveryEntry | internal/health/monitor.go:225-256 | a round launches one check for every entry, healthy or not, on its present address, and no other |
| HealthMonitor.Monitor.RegisterService | internal/health/monitor.go:100-133 | the object's registration has the effect the history theorems are about |
| HealthMonitor.Monitor.UnregisterService | internal/health/monitor.go:135-154 | likewise unregistration |
| HealthMonitor.Monitor.IsHealthy | internal/health/monitor.go:156-181 | likewise the verdict, with the stale mark it leaves |
| HealthMonitor.Monitor.PerformHealthChecks | internal/health/monitor.go:225-256 | a round launches exactly one check per entry, on the address the entry holds then |
| HealthMonitor.Monitor.CheckServiceHealth | internal/health/monitor.go:259-331 | a finished check revives a missing key and records its result |
| HealthMonitor.Monitor.HandleUnhealthyService | internal/health/monitor.go:355-404 | a failure counts, marks at the limit, launches the callback only on the transition, and schedules removal at three times the limit |
| HealthMonitor.Monitor.RunDelayedRemoval | internal/health/monitor.go:398-402 | the launched goroutine unregisters the key whenever it gets to run |
| HealthMonitor.Monitor.UpdateServicePerformance | internal/health/monitor.go:461-526 | a real request creates a healthy entry without address, or updates the one there |
| MonitorRuns.HistoryIsTold | internal/health/monitor.go:100-526 | over every run a step adds to the history exactly what the earlier history and the step call for, stamped with the present time |
| MonitorRuns.ChecksConserved | internal/health/monitor.go:225-256 | over every run the checks launched for an address, one by each round that finds it in the table and one by the registration that puts it there, have finished or are in flight |
| MonitorRuns.LaunchesConserved | internal/health/monitor.go:355-404 | over every run each OnUnhealthy launch in the history, and each delayed removal called for by a failed check at three times the limit, has run or is waiting |
| Tunnels.RemovalDrops | internal/cache/cache.go:490-554 | tick, lifetime, callback and invalidation change the cache at most by cancelling and dropping their own key |
| Tunnels.OwnedStep | internal/cache/cache.go:172-216 | every step of every agent keeps the uncancelled contexts equal to those of cached tunnels plus the one being set up |
| Tunnels.TunnelsAreOwned | internal/cache/cache.go:172-216 | in every lock-free state of every run the uncancelled contexts are exactly those of the cached tunnels, one each |
| Tunnels.NeverOverwritten | internal/cache/cache.go:186-191 | a step never replaces a cached tunnel in place: it stays, or it is removed and its context cancelled |
| Tunnels.AnswersAreLive | internal/cache/cache.go:172-216 | every address Ensure returns is that of an uncancelled tunnel cached under the caller's key |
| Tunnels.AnswerEndsCall | internal/cache/cache.go:158-216 | Ensure answers in just those steps by which a call that found or made a tunnel gives the lock back, and answers its own caller |
| Tunnels.JudgedAsAsked | internal/cache/cache.go:242-257 | over every run a cached tunnel is judged on what the monitor said at the lookup: healthy when it is off, not healthy when it did not know the key, either when it did |
| TunnelOwners.ServedByIff | internal/cache/cache.go:164-216 | some run answers a target from the tunnel made for another exactly when the two have the same key |
| TunnelOwners.AnswerOwnerCases | internal/cache/cache.go:164-216 | over runs whose services have no dot, the address returned is of a tunnel of the same service, made for that target unless one of the two spells the other's port inside its namespace text |
| TunnelOwners.NeverCrossServed | internal/cache/cache.go:164-216 | in particular, over runs of plainly named requests the address returned for a target is of a tunnel made for that same target |
| MonitorAddresses.MonitorHoldsNoDeadAddress | internal/cache/cache.go:189-197 | over runs whose forced refreshes were harmless, in every lock-free state each monitored entry is blank or holds the address of the tunnel cached under its key |
| MonitorAddresses.ForceRefreshKeepsFaithIff | internal/cache/cache.go:558-584 | a forced refresh keeps this up exactly when its key was not cached or the monitor had no address for it |
| MonitorAddresses.FaithfulRunIff | internal/cache/cache.go:558-584 | over every run the monitor is faithful throughout exactly when each forced refresh on the way met that condition |
| MonitorAddresses.ForceRefreshBreaksFaith | internal/cache/cache.go:558-584 | a concrete run after which the monitor checks an address no tunnel has |
| MonitorRuns.VerdictsMatchHistory | internal/health/monitor.go:259-404 | over every run the failure count is the failures since the last success or creation, the limit implies unhealthy, and launches are exactly the checks that took a healthy key to the limit |
| Watchers.WatcherExits | internal/cache/cache.go:219-240 | a watcher exits only in a step after which its key is not cached |
| Watchers.CachedIsWatched | internal/cache/cache.go:199-240 | in every lock-free state each cached tunnel has a watcher of its own on its key |
| Watchers.IdleTimeIsBounded | internal/cache/cache.go:219-240 | with ticks taken at most `late` after they are due, for any `late`, idle time and lifetime are bounded: six minutes plus `late` unless `late` nears the idle timeout, and 24 hours plus `late` after the watcher's start |
| Watchers.IdleRemovalWindow | internal/cache/cache.go:490-505 | a tick removes a tunnel strictly more than five minutes after its last Ensure, whichever watcher runs, and within the same bound above: at most six minutes plus `late` unless `late` nears the idle timeout |
| Tunnels.PathIsRun | internal/cache/cache.go:158-216 | any path of steps from the initial state is a run, so the run theorems apply to it |
| TunnelLife.LivesUntilDropped | internal/cache/cache.go:490-592 | over every run a tunnel stays cached under its key until the first step that drops it, and is gone for good from then on |
| TunnelLife.LatestUse | internal/cache/cache.go:242-251 | over every run a cached tunnel remembers the time of the latest Ensure that found or cached it |
| TunnelLife.TickDropsIff | internal/cache/cache.go:490-505 | over every run a tick drops its key's tunnel exactly when every Ensure that found or cached it is more than five minutes old |
| TunnelLife.WatchedIff | internal/health/monitor.go:100-154 | over every run a registered tunnel is cached and watched at its own address exactly when its key had no entry, or one with that address, at the registration, and since then neither was it dropped nor did a delayed removal of its key run |
| Watchers.WatcherClock | internal/cache/cache.go:219-240 | over every run a watcher keeps its key and start, and its next tick is due one minute after the last was due |
| Watchers.NothingIsEarly | internal/cache/cache.go:219-240 | the k-th tick of a watcher comes no earlier than k minutes, and its lifetime ends no earlier than 24 hours, after its start |
| Watchers.WatchersLeave | internal/cache/cache.go:490-505 | with ticks taken at most `late` after they are due, a key uncached for more than a minute and `late` has no watcher left |
| TunnelCache.CallsKeepPromises | internal/cache/cache.go:158-216 | after any sequence of calls and monitor steps the cache owns exactly the uncancelled tunnels, all watched, and without a forced refresh the monitor has no address but theirs |
| TunnelCache.Cache.Look | internal/cache/cache.go:242-251 | a cached tunnel is touched and the monitor asked; its answer is the verdict of the history, and acting on it is an enabled step |
| TunnelCache.Cache.TryReuse | internal/cache/cache.go:242-274 | reuse succeeds exactly for a cached tunnel that is healthy or can be dialled; otherwise it is cancelled, removed and unregistered |
| TunnelCache.Cache.SetUp | internal/cache/cache.go:176-199 | a successful setup is cached, registered, validated and watched; a failed one leaves the sessions as they were |
| TunnelCache.Cache.EnsurePortForward | internal/cache/cache.go:158-216 | Ensure is a path of the step system, returns the cached tunnel's address, and fails only when setup fails |
| TunnelCache.Cache.CheckAndExpireIdleSession | internal/cache/cache.go:490-505 | a tick is the tick step, followed by telling the monitor if it removed the tunnel; it reports an exit exactly then or when the key is gone |
| TunnelCache.Cache.ExpireLifetime | internal/cache/cache.go:508-554 | the 24-hour timer removes the key's tunnel, if any, and ends the watcher |
| TunnelCache.Cache.InvalidateSession | internal/cache/cache.go:590-592 | afterwards the key is not cached; the monitor was told if it was |
| TunnelCache.Cache.ForceRefreshPortForward | internal/cache/cache.go:558-584 | cancels and removes the tunnel and leaves the monitor's entry alone |
| TunnelCache.Cache.Stop | internal/cache/cache.go:396-419 | visits every session once, in any order, and leaves nothing cached and no context uncancelled |
| Hosts.ParseHostExact | internal/tools/util.go:21-28 | accepted hosts are exactly those printed from a service, a namespace, `svc` and at least two labels, and the first two come back |
| Hosts.FastPartsAgree | internal/proxy/handler.go:48-54 | the fast path reads the first two labels of any host with a dot, which wherever ParseHost succeeds are its service and namespace |
| Hosts.LineEndsAfterHeader | internal/proxy/multiplexer.go:187-192 | the slice bounds of the header value are valid for every peeked text |
| Hosts.FirstHeaderLineIsRead | internal/proxy/multiplexer.go:181-202 | the pair is read off the first header line there is, up to the first line end behind it |
| Hosts.HeaderLabelsAreRead | internal/proxy/multiplexer.go:181-202 | of the value behind that header the first label is the service and the second, if any, the namespace; spaces around them do not count |
| Hosts.NoHeaderLineNoChange | internal/proxy/multiplexer.go:181-191 | without a header, or a line end behind the first one, the given pair stays |
| Hosts.HeaderRoundTrip | internal/proxy/multiplexer.go:139-158 | the pair extracted from any peeked text, printed as a cluster host, parses back to itself, so validation never rejects it |
| Requests.ClassifiersDisagreeIff | internal/proxy/utils.go:13-19 | the exact header contents on which the two ways to tell gRPC disagree |
| Requests.PortBehindHost | internal/proxy/utils.go:93-101 | without a port header the text behind the last colon of the host is the preferred port exactly when it reads as a TCP port |
| Requests.NoPortNoPreference | internal/proxy/utils.go:77-101 | without a port header and a colon in the host no port is preferred |
| Requests.PlainHostIsAcceptable | internal/proxy/utils.go:77-136 | the ordinary cluster host without any port is acceptable and asks for service and namespace without a port |
| Requests.LocalIff | internal/proxy/utils.go:106-136 | a request is local exactly when its host without port is empty, localhost, begins with the label 127, or has four labels with no inner svc |
| Requests.HeaderPortWins | internal/proxy/utils.go:77-91 | a port in a header wins over the host's, whether in range or not |
| Requests.HostPortReadsBack | internal/proxy/utils.go:93-101 | a port printed behind the host is the preferred port exactly when it is a TCP port, for every number |
| Requests.ClusterHostIsNotLocal | internal/proxy/utils.go:106-136 | cluster hosts are never taken for local ones unless they begin with a loopback number |
| Requests.ColonHostSharesKey | internal/proxy/utils.go:77-136 | a host with a port behind its namespace is acceptable, and shares its key with the host without it asked for on that port by header |
| Requests.MisclassifiedExample | internal/proxy/utils.go:13-19 | a request with only a Grpc-Encoding header is classified differently by the two paths |
| FastPath.KeysCoincide | internal/proxy/handler.go:48-58 | where the classifiers agree, fast and regular path use the same cache key |
| FastPath.AgreeKeptIff | internal/proxy/handler.go:118-156 | one request keeps the two caches in agreement exactly when it does not meet an older proxy with another address |
| FastPath.RunAgrees | internal/proxy/handler.go:31-156 | over every run on which the classifiers agree, setup and proxy cache have the same keys and equal addresses |
| FastPath.FastHit | internal/proxy/handler.go:43-116 | the fast path serves exactly while an unexpired setup entry is there, and serves its address |
| FastPath.FastExactly | internal/proxy/handler.go:43-156 | over every run a request takes the fast path exactly when one of the same service, namespace and kind was stored at most five minutes before |
| FastPath.FastAgreesWithRegular | internal/proxy/handler.go:43-156 | a fast answer is what the regular path got from Ensure and stored at most five minutes earlier, for the service and namespace ParseHost gives; the regular path would have refused the request exactly when it is not acceptable |
| FastPath.RegularServesFreshAddress | internal/proxy/handler.go:137-154 | a regular request is served by a proxy to the address it was just given |
| FastPath.ClassifiersMustAgree | internal/proxy/utils.go:13-19 | two requests answered with different addresses leave the caches agreeing if and only if both classifiers agree |
| FastPath.FastServesOwnTargetIff | internal/proxy/handler.go:43-76 | over any run a fast answer comes from the tunnel of the caller's own target exactly when it prefers the same port as the request that stored it, or neither prefers any |
| FastPath.Proxy.TryFastPath | internal/proxy/handler.go:43-76 | looks both caches up and evicts an expired pair |
| FastPath.Proxy.TryUseCachedSetup | internal/proxy/handler.go:78-116 | an expired entry takes both cache entries with it; a live one is used with the proxy beside it |
| FastPath.Proxy.GetOrCreateCachedProxy | internal/proxy/handler.go:300-317 | an existing proxy is kept whatever address is asked for; otherwise one is made and stored |
| FastPath.Proxy.HandleProxyRegular | internal/proxy/handler.go:118-156 | preflight, local, bad-host and no-tunnel requests change nothing; the rest store setup and proxy |
| FastPath.Proxy.HandleProxy | internal/proxy/handler.go:31-41 | one request has the effect the run theorems are about and keeps the caches in agreement |
| FastTunnels.FastAnswerHasTunnel | internal/proxy/handler.go:43-156 | behind every fast answer is a tunnel that Ensure answered with, under the storing request's key and with the served address |
| FastTunnels.FastAnswerIsLiveIff | internal/proxy/handler.go:78-116 | a fast answer belongs to an uncancelled tunnel exactly when no step has dropped that tunnel since then, and then it is still the cached one |
| FastTunnels.IdleRuleNeedsGap | internal/proxy/handler.go:154-159 | the idle rule can have dropped it only more than five minutes after the last Ensure, so only if the answer was stored later than the tunnel was touched |
| FastTunnels.IdleRuleCanKill | internal/proxy/handler.go:89-116 | with any such gap up to a minute there is a run in which ticks alone cancel a tunnel the fast path still serves; for a gap no longer than validating a new tunnel can take, that run is on time |
| FastTunnels.ColonHostIsCrossServed | internal/cache/cache.go:164-216 | a concrete run in which an acceptable request is answered with the tunnel of another target |
| LinuxRedirection.KeyInjective | internal/proxy/traffic_redirection_linux.go:83-83 | for address text the key determines the redirection and so its rules |
| LinuxRedirection.OddTextCollides | internal/proxy/traffic_redirection_linux.go:83-83 | text that is no address can make two redirections share a key |
| LinuxRedirection.TrackedMeansInstalled | internal/proxy/traffic_redirection_linux.go:75-153 | over every run, whatever commands fail, each tracked key has both its rules in the kernel and no foreign rule is lost |
| LinuxRedirection.RunConserves | internal/proxy/traffic_redirection_linux.go:75-280 | when deletions of present rules succeed the table is always the foreign rules plus one pair per tracked key |
| LinuxRedirection.CleanupRestores | internal/proxy/traffic_redirection_linux.go:242-280 | Cleanup after any such run restores exactly the foreign rules |
| LinuxRedirection.AddTracksIff | internal/proxy/traffic_redirection_linux.go:75-153 | an add leaves its key tracked exactly when it succeeds, and for a new key adds the pair once |
| LinuxRedirection.TrackedIff | internal/proxy/traffic_redirection_linux.go:75-280 | over every run, whatever fails, a key is tracked exactly when an add for it went through and no removal of it or cleanup came since |
| LinuxRedirection.FailedAddChangesNothing | internal/proxy/traffic_redirection_linux.go:118-138 | a failed add leaves everything as it was exactly unless its rollback fails |
| LinuxRedirection.AddRemoveRoundTrip | internal/proxy/traffic_redirection_linux.go:75-191 | adding and removing a redirection is as if nothing had happened |
| LinuxRedirection.RemoveKeepsExactIff | internal/proxy/traffic_redirection_linux.go:156-191 | a removal keeps the account exact only when it names the very redirection tracked under its key |
| LinuxRedirection.Manager.AddRedirectionRule | internal/proxy/traffic_redirection_linux.go:75-153 | installs the pair or rolls the first rule back, and reports which |
| LinuxRedirection.Manager.RemoveRedirectionRule | internal/proxy/traffic_redirection_linux.go:156-191 | issues both deletions and forgets the key whatever they return |
| LinuxRedirection.Manager.CleanupAll | internal/proxy/traffic_redirection_linux.go:242-280 | deletes every tracked pair in any map order; without an error none was stuck |
| UniversalPorts.InstallCases | internal/proxy/universal_port_handler.go:58-99 | what Start comes to for each rule that may be refused |
| UniversalPorts.JournalIsExact | internal/proxy/universal_port_handler.go:50-136 | over every run the handler is running exactly when both rules are journaled, journaled rules are in the kernel, and with succeeding deletions the table is the initial one plus the journal |
| UniversalPorts.StopRestores | internal/proxy/universal_port_handler.go:109-136 | Stop after any such run restores the initial table, also when the port changed since Start |
| UniversalPorts.WantedTellsAll | internal/proxy/universal_port_handler.go:58-78 | the first rule determines both addresses and the port, the second the main address and the port |
| UniversalPorts.StartUsesLatestPort | internal/proxy/universal_port_handler.go:50-106 | a Start that goes through after any run installs the rules of the port last set |
| UniversalPorts.FailedStartChangesNothing | internal/proxy/universal_port_handler.go:80-88 | a failed Start changes nothing exactly unless its rollback is stuck |
| UniversalPorts.Handler.StartHandling | internal/proxy/universal_port_handler.go:50-106 | the installing loop with its rollback has the effect of the specification |
| UniversalPorts.Handler.StopHandling | internal/proxy/universal_port_handler.go:109-122 | a running handler deletes its journal and stops |
| UniversalPorts.Handler.CleanupRules | internal/proxy/universal_port_handler.go:125-136 | issues one deletion per journaled rule and empties the journal |
| UniversalPorts.Handler.UpdateMainProxyPort | internal/proxy/universal_port_handler.go:188-190 | changes the port and neither rules nor journal |
| Pfctl.RuleLooksLikeAnchorIff | internal/proxy/pfctl_manager.go:219-252 | a built rule line could be taken for an anchor line exactly when its action begins like one |
| Pfctl.RuleReadsBack | internal/proxy/pfctl_manager.go:219-252 | a rule line of space-free fields reads back word by word, what is redirected before the arrow and where to behind it |
| Pfctl.PortRuleInjective | internal/proxy/pfctl_manager.go:138-154 | for IPv4 text different port redirections have different rule lines |
| Pfctl.PortRulesShareLineIff | internal/proxy/pfctl_manager.go:219-252 | two port redirections between addresses without spaces share a rule line exactly when the first two colon-separated parts agree at both ends |
| Pfctl.PortShownIff | internal/proxy/pfctl_manager.go:219-252 | a rule line tells two ports of an end apart exactly when that end's address has no colon |
| Pfctl.ContentReadsBack | internal/proxy/pfctl_manager.go:255-262 | the rule file of one-line rules can be read back line by line |
| Pfctl.ListsStayConsistent | internal/proxy/pfctl_manager.go:76-135 | in any run without FlushRules the list is anchor lines matching `anchors` as a multiset, then redirect lines |
| Pfctl.FlushKeepsConsistentIff | internal/proxy/pfctl_manager.go:157-175 | FlushRules empties the list of an enabled manager and keeps its anchors, so the lists stay consistent exactly when pf was off or there was no anchor |
| Pfctl.SuccessLoadsList | internal/proxy/pfctl_manager.go:255-283 | every operation that applies leaves pf loaded with the text of the list |
| Pfctl.WhatReachesPf | internal/proxy/pfctl_manager.go:255-283 | whether or not an operation succeeds, the attempted list reaches the file exactly if that can be written, and pf exactly if it can also be loaded; an add without pf changes nothing |
| Pfctl.FailureRestoresLists | internal/proxy/pfctl_manager.go:91-95 | a failed add or anchor creation restores both lists; pf holds the new text only if nothing but enabling failed |
| Pfctl.RemovalKeepsLoadedIff | internal/proxy/pfctl_manager.go:110-135 | starting from a loaded list, a rule or anchor removal leaves pf loaded with the list exactly when write and load succeed or the line was not in it |
| Pfctl.AddRemoveRoundTrip | internal/proxy/pfctl_manager.go:76-135 | adding a rule and removing it leaves the lists as they were, up to the place of a line that was there before |
| Pfctl.AnchorRoundTrip | internal/proxy/pfctl_manager.go:329-380 | likewise for an anchor, whose line keeps no trace |
| Pfctl.Manager.ApplyRules | internal/proxy/pfctl_manager.go:255-283 | writes, loads and enables in that order, stopping at the first failure |
| Pfctl.Manager.AddRedirectionRule | internal/proxy/pfctl_manager.go:76-107 | appends, applies, and takes the line back on failure |
| Pfctl.Manager.RemoveRedirectionRule | internal/proxy/pfctl_manager.go:110-135 | splices out the first equal line and applies |
| Pfctl.Manager.AddAnchor | internal/proxy/pfctl_manager.go:329-349 | appends the anchor, prepends its line, applies, and undoes both on failure |
| Pfctl.Manager.DropAnchor | internal/proxy/pfctl_manager.go:352-380 | splices the anchor and its line out and applies |
| Pfctl.Manager.FlushRules | internal/proxy/pfctl_manager.go:157-175 | empties the list of an enabled manager, anchors kept |
| Pfctl.SpliceOut | internal/proxy/pfctl_manager.go:116-122 | the search loop removes the first occurrence and nothing else |
| Forwarding.ReadBuffered | internal/proxy/multiplexer.go:212-221 | a read through the detector's buffer hands out the next bytes in order, and reports an error only with an empty buffer |
| Forwarding.PeekDropsShortError | internal/proxy/protocol_detector.go:57-68 | a peek changes what will be delivered only by dropping one error met within the first 256 bytes, and exactly then when no read is empty |
| Forwarding.StepsConserve | internal/proxy/tcp_proxy.go:147-173 | after any number of reads and writes, delivered, in-hand, buffered and unread bytes together are the bytes there were |
| Forwarding.CopyEnds | internal/proxy/tcp_proxy.go:147-173 | a copy loop ends, however its reads and writes go, within a number of steps bounded by what is left to read |
| Forwarding.EndsOnFailedWrite | internal/proxy/tcp_proxy.go:147-173 | copying ends on a write exactly when that write fails or is cut short; every earlier one went through |
| Forwarding.CopyRunsToReadEnd | internal/proxy/tcp_proxy.go:147-173 | when no write fails, copying a connection runs until a read error ends it |
| Forwarding.ForwardingIsPrefix | internal/proxy/tcp_proxy.go:147-173 | for every chunking and every short write the delivered bytes are a prefix of those sent, peeked bytes included, and all those read when copying ends on a read error |
| Forwarding.CopyStopsAt | internal/proxy/tcp_proxy.go:147-173 | with succeeding writes copying ends with the first read error, or with the second when the detector swallowed the first |
| Forwarding.RawCopyStopsAt | internal/proxy/tcp_proxy.go:147-173 | the reverse direction delivers everything up to its first read error, bytes that came with it included |
| Forwarding.EverythingArrives | internal/proxy/tcp_proxy.go:147-173 | when errors come only with or after the last bytes, every byte sent is delivered |
| Forwarding.InterleaveIsIndependent | internal/proxy/tcp_proxy.go:113-140 | under every schedule each direction is where it would be alone after as many steps |
| Forwarding.BothDirectionsArePrefixes | internal/proxy/tcp_proxy.go:113-140 | under every schedule each side has received a prefix of what the other sent |
| ProtocolDetector.DetectionIgnoresChunking | internal/proxy/protocol_detector.go:57-109 | over every chunking a connection is taken for HTTP exactly when the bytes before its first error begin like HTTP and that error is the end of input or lies beyond the first 256 bytes; everything else is TCP |
| ProtocolDetector.FilledWindow | internal/proxy/protocol_detector.go:57-68 | the peek sees all bytes before the first error, and that error, when there is room for them, and else the first 256 of them |
| ProtocolDetector.WindowDecides | internal/proxy/protocol_detector.go:81-109 | the first 256 bytes decide the protocol |
| ProtocolDetector.OpeningsAreHTTP | internal/proxy/protocol_detector.go:81-109 | a request line of any method, an HTTP/2 preface and a TLS record are taken for HTTP whatever follows |
| ProtocolDetector.HTTPBeginsSo | internal/proxy/protocol_detector.go:81-109 | nothing is taken for HTTP that does not begin like one of them |
| Forwarding.BufReader.PeekBuffer | internal/proxy/protocol_detector.go:57-68 | the peek loop fills 256 bytes or stops at an error, which a short peek reports and forgets |
| Forwarding.BufReader.Read | internal/proxy/multiplexer.go:212-221 | buffered bytes first, then a pending error, then the connection itself |
| ProtocolDetector.DetectFromConnection | internal/proxy/protocol_detector.go:57-78 | decides from the peeked bytes and returns the reader that still holds them; other read errors mean TCP |
| Forwarding.Copy | internal/proxy/tcp_proxy.go:147-173 | the loop over a reused buffer is some number of the read and write steps and ends on an error |
| ProtocolDetector.ForwardClient | internal/proxy/tcp_proxy.go:113-129 | detecting a client and copying it delivers a prefix of what it sent, and all of it on a clean end |
| Retry.ValidateProxyConfig | internal/config/config.go:477-491 | retries and delay are clamped into their ranges |
| Retry.ValidatedIsIdempotent | internal/config/config.go:477-491 | validation changes nothing exactly for values within the ranges |
| Retry.ValidatedIsNearest | internal/config/config.go:477-491 | each value is moved into its range by as little as that takes |
| Retry.ClampsPreventOverflow | internal/proxy/proxy.go:216-218 | under a validated configuration base times 2^k fits int64, so delays are the meant ones, from 25 ms to 1 s and never shrinking |
| Retry.NoDelayWrapsIff | internal/proxy/proxy.go:216-218 | for any base the first n delays are the meant ones exactly when base times 2^(n-1) fits int64 |
| Retry.FirstWrapIsNegative | internal/proxy/proxy.go:216-218 | the first product that does not fit gives a negative delay, so no wait |
| Retry.RoundTrip | internal/proxy/proxy.go:41-93 | the loop does what the recursive account of a call says |
| Retry.NeverNothingIff | internal/proxy/proxy.go:41-93 | a call returns a response or an error, never both, and never neither exactly when it may try at least once |
| Retry.AttemptsAreBounded | internal/proxy/proxy.go:41-93 | one attempt for gRPC, else at most maxRetries + 1, all before the deadline, each after a retryable failure and its full delay, later than that only by the lag of the wake-up; how a call may end, and that it runs out of time only at or after the deadline |
| Retry.RetriesExactly | internal/proxy/proxy.go:151-263 | every attempt but the last failed without cancellation or timeout and with a listed text; a call that gives up with attempts left met a failure that did not |
| Retry.GivesUpOnlyAfterDeadline | internal/proxy/proxy.go:211-237 | a wait is cut short only once the deadline has passed, and lasts past it only by the lag of the wake-up |
| Retry.WaitsAreBoundedBackoff | internal/proxy/proxy.go:211-237 | under a validated configuration the waits are the capped backoff, never shrink, and sum to at most maxRetries seconds |
| Retry.FallbackRoundTrip | internal/proxy/proxy.go:276-343 | enabled or not, the fallback transport makes the call over one protocol only: h2c for gRPC, else HTTP/1.1 |
| HopByHop.CanonicalIffSameName | internal/proxy/proxy.go:497-499 | deleting by any token text hits a canonical key exactly when the two differ in case only |
| HopByHop.OtherNamesAreKept | internal/proxy/proxy.go:497-499 | a name with a character that no header name may have stands for itself |
| HopByHop.SurvivesIff | internal/proxy/proxy.go:477-504 | a canonical key survives, values unchanged, exactly when it is not a fixed name and no Connection token equals it up to case |
| HopByHop.RemovedIffNamed | internal/proxy/proxy.go:493-500 | a canonical key outside the fixed list is removed exactly when some Connection line, whichever it is, has a part that is it up to case and spaces |
| HopByHop.StripIdempotent | internal/proxy/proxy.go:477-504 | stripping twice is stripping once |
| HopByHop.FixedNameIsCanonical | internal/proxy/proxy.go:480-489 | each fixed name is its own canonical form, so deleting it by name deletes it |
| HopByHop.DeleteNamed | internal/proxy/proxy.go:493-500 | the loops delete exactly the keys the original Connection values name, even when Connection names itself |
| HopByHop.RemoveHopByHopHeaders | internal/proxy/proxy.go:477-504 | the in-place removal leaves exactly the surviving keys |
| PortResolution.NestedSearchIsFlat | internal/k8s/client.go:131-140 | the nested search finds the first port of that name in the whole pod |
| PortResolution.ApplicationPort | internal/k8s/client.go:113-128 | the port is that of a non-sidecar container with ports, and 0 when there is none |
| PortResolution.ApplicationPortIsFirst | internal/k8s/client.go:113-128 | it is the first port of the first container that is no sidecar and has ports |
| PortResolution.LookupsChooseSamePod | internal/k8s/client.go:35-110 | for a service with ports both pod lookups fail together for the same reason, or both choose the first running pod |
| PortResolution.LookupFailures | internal/k8s/client.go:35-307 | both pod lookups fail for lack of a service, a selector, a list or a running pod, each exactly then |
| PortResolution.ListedPortIsResolved | internal/k8s/client.go:248-307 | a requested port the service lists, at whatever place, is looked up by the target of its first entry in the first running pod |
| PortResolution.LookupsAgreeIff | internal/k8s/client.go:213-307 | for the first or an unlisted port they agree exactly unless the last fallback is reached with a request other than 80 |
| PortResolution.LookupPanicsIff | internal/k8s/client.go:71-73 | GetPodNameForService crashes exactly when a readable service with a selector has no ports and one of its pods runs |
| PortResolution.NoPortsCrashesOneLookup | internal/k8s/client.go:259-272 | whenever it does, the other lookup answers with the first running pod and the requested port |
| PortResolution.ScanForNameExact | internal/k8s/client.go:188-196 | the scan finds nothing exactly when no running pod declares the name, and else the port of the first running pod that does |
| PortResolution.ServicePortFailures | internal/k8s/client.go:144-209 | GetServicePort fails for each of its reasons exactly then; only a named target needs selector and pods |
| PortResolution.ServicePortAgreesIff | internal/k8s/client.go:144-209 | GetServicePort returns the pod lookup's port exactly when the first running pod resolves the target, or the first running pod that declares the name gives it the port the first running pod falls back to, or the target is of odd type and that fallback is 80 |
| PortResolution.ServicePortAgrees | internal/k8s/client.go:144-209 | in particular it does whenever the first running pod resolves the target |
| PortResolution.NamedServicePortFailsIff | internal/k8s/client.go:188-204 | a named target fails there exactly when no running pod declares the name, though the pod lookup answers |
| LocalIPs.TriesGoRound | internal/tools/util.go:55-79 | the tries begin at the counter and go up by one, from 255 on to 2 |
| LocalIPs.TriesVisitEachOnce | internal/tools/util.go:55-79 | from any start the 254 tries visit each of 2..255 exactly once |
| LocalIPs.ErrorIffNoneFree | internal/tools/util.go:51-82 | an error is returned exactly when no octet is both unheld and bindable, and the scan then has come round to its start |
| LocalIPs.ResultIsFirstFree | internal/tools/util.go:51-82 | the result is the first such octet in cyclic order |
| LocalIPs.HeldIff | internal/tools/util.go:51-90 | over every run an address is held exactly from its being handed out to its release |
| LocalIPs.ReissuedOnlyAfterRelease | internal/tools/util.go:51-90 | over every run an address is handed out again only after a release |
| LocalIPs.IPManager.GetFreeLocalIP | internal/tools/util.go:51-82 | the scanning loop does what the search says, counter included |
| LocalIPs.IPManager.ReleaseLocalIP | internal/tools/util.go:84-90 | only the named address is released |
| NetworkConfig.PrintedIsValidIff | internal/config/config.go:443-454 | four printed numbers, of whatever sign or size, are a valid address exactly when each is an octet |
| NetworkConfig.PrintedCIDRIsValidIff | internal/config/config.go:457-474 | with a printed prefix length an address is a valid range exactly from 0 to 32 bits |
| NetworkConfig.LooseNumbersPass | internal/config/config.go:448-452 | the check is looser than dotted decimal: signs and leading zeros pass |
| NetworkConfig.ValidRangesExact | internal/config/config.go:424-431 | filtering drops exactly the invalid ranges, and nothing when there are none |
| NetworkConfig.ValidateDNSConfig | internal/config/config.go:352-361 | the DNS address is kept if valid and the default otherwise |
| NetworkConfig.ValidatePortForwardConfig | internal/config/config.go:364-391 | bind address, interface name and interface address, which falls back to the validated bind address |
| NetworkConfig.ValidateVirtualInterfaceConfig | internal/config/config.go:394-412 | name and address are repaired only when the interface is used |
| NetworkConfig.ValidateIPRanges | internal/config/config.go:415-440 | valid ranges are kept in order and the defaults stand in for none |
| NetworkConfig.ValidateNetworkConfig | internal/config/config.go:343-349 | the four parts together arrive at the normal form |
| NetworkConfig.RepairsAddresses | internal/config/config.go:343-412 | a bad bind address becomes the default and a bad interface address the validated bind address it belongs to; good ones are kept |
| NetworkConfig.NormalIsValid | internal/config/config.go:343-474 | validation always arrives at valid addresses and a non-empty list of valid ranges |
| NetworkConfig.NormalFixesValidIff | internal/config/config.go:343-474 | it changes nothing exactly when the configuration is valid already, so twice is once |

## Left out

- Health.Status: response time, error message, last-healthy time and the source of the response time, which no decision reads; FailureCount is unbounded.
- Tunnels.FixedAnswer: the flag of a shared status, read after the monitor's lock is released, may by then hold either value; the model does not say which goroutine wrote it. A nil monitor does not occur in the wiring.
- Tunnels.SetupStarts: port choice, the pod lookup and the wait for the tunnel are one outcome, an address or a failure before the context is created; the forwarder's own death is seen only through failing dials.
- Tunnels.Spawn: a watcher's timers start when it is spawned; ticks missed by a slow receiver are not dropped, so the model has more ticks than the program.
- TunnelCache.Cache: returning the local IP to the address manager on removal, which has no effect because the cache never takes one from it; the replacement of the cache object at start-up.
- FastPath.Handle: concurrent requests, whose deletes and stores on the two maps can interleave; serving, metrics and response bodies.
- FastTunnels.Served: requests are sequential there too, while the steps of the tunnels interleave with them freely.
- Requests.Request: header values are looked up by one canonical name; CORS response headers.
- NatTable.Kernel: other programs editing the table during a run, and everything about packets.
- UniversalPorts.Handler.UpdateMainProxyPort: the code writes the port without the handler's lock; the model orders the write with the other operations.
- Pfctl.Manager: whether the platform supports pf is constant during a run; disabling pf cannot fail the flush.
- Forwarding.CopyStopsAt: connections whose reads come back with neither bytes nor an error, which TCP connections do not do; the conservation and prefix theorems cover them.
- ProtocolDetector.DetectionIgnoresChunking: the same connections; a hundred such reads in a row make the detector give up and say TCP.
- Forwarding.Conn: deadlines, and the blocking of a peek until 256 bytes or an error arrive, which a run shows only by taking no further step; the buffer pool; the unused byte counter.
- ProtocolDetector.DetectFromConnection: the loop of Accept over listeners and the routing of UDP, which a TCP stream is never detected as.
- Retry.RoundTrip: the deadline comes as a parameter, whether taken over from the request or set from the configured timeout; cancelling the request is seen only through the wrapped transport's errors.
- HopByHop.Canonical: header names that are no tokens are kept as they are, as in Go; response trailers and the choice of essential headers.
- PortResolution.Cluster: the selector text, since the pods it lists are given; a target port type that is neither number nor name is `Odd`.
- LocalIPs.IPManager: binding tests are given as the set of octets that cannot be bound during the call.
- Text.TrimSpace: text is a sequence of code points, not of UTF-8 bytes.
- Real input and output: dialling, listening, TLS, HTTP/2, SPDY, Kubernetes and operating-system calls are parameters.
- DNS server, interface creation, port manager, route and Darwin providers, UDP forwarding, dashboard, logging, metrics and configuration loading are not part of this model.
