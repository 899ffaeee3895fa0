# Verified models of the network enforcement runtimes

This project models, in Dafny, the parts of the system that decide which network traffic is let through, and
proves what they promise:

- the **WireGuard gateway**: the validators for peers, routes and lease-bound firewall rules, the nftables compiler,
  the second generator used on readback, the lease guard, the executor that applies, reads back and rolls back, and
  the runtime that polls, keeps a version floor on disk, applies, reports and expires;
- the **proxy runtime**: the revision floor, the runner loop, the engine (process, egress guard, configuration file),
  and the rewrite of a mihomo configuration that protects, inlines and guards every rule, group and outbound;
- the **access-policy engine** with its answers under missing namespace labels, missing resource labels and whole
  collections;
- the **tunnel counters** of gateway telemetry and the **RADIUS result journal**.

`dafny verify dfyconfig.toml` checks the whole project.

## How the models are built

- State that the program updates in place is a class (`Executor`, `Runtime`, `Engine`, `Runner`, `Journal`,
  `TelemetryClient`, `EgressGuard`), and each of its methods is proved equal to a step function on values. Properties
  over whole runs are proved about the step functions; a run is any sequence of cycles, deaths part-way through a cycle
  and restarts.
- Clocks, network answers, disk results, System calls, health probes and the random user names of backends are
  parameters (a script of answers, or an environment record per cycle), so every theorem holds for all of them.
- The runtime model takes the validator's answer as a field of its environment; `GatewayProcess.Judged` fills it with
  what `GatewayFirewall.DesiredOk` says, and the object's methods are proved against that.
- Times are integers (nanoseconds). A digest is the document it is computed from, with runtime intervals removed for
  the gateway; this is collision freedom.
- An IP prefix is a family, a bit string and a length. A CIDR or key text is what it parses to plus a spelling, so that
  comparing texts and comparing prefixes stay two different things, as in the program.
- An nft rule is a list of structured matches and a verdict; ports in a match are compared as a multiset,
  standing for the sorted list the program builds. A packet evaluator over all chains the
  kernel runs, with connection states, gives them their meaning. A guard set element lives until its reported expiry.
- A mihomo rule is its list of comma-separated parts; a destination is the set of conditions it meets; MATCH always
  holds. A guarded document keeps, of each group, its name, type, `proxies` and `use`.
- The floor file of the gateway is a list of the contents a power loss may leave, because its write can fail between
  rename and directory sync.
- The order `sort.Slice` gives to policies of equal priority is unspecified, so evaluation is proved for every
  priority order.

## What turned out not to hold

- *Rollback never widens access* is false as it stands: the check compares rule sets, not their order.
  `RollbackAccess.SwappedRulesWiden` gives two configurations that both pass validation, differ only in the order of an
  allow and a deny, and widen access on rollback. `RollbackAccess.RollbackNeverWidens` is the exact condition for
  packets: after a passed check no packet is gained exactly when no inverted allow/deny pair is exposed, that is, met by
  a packet that no earlier rule of either list matches; by `PacketClasses.PacketStandIn` that is decided by finitely many
  stand-in packets. `RollbackAccess.OrderOfMeetingRulesSuffices` and `RollbackAccess.LoneInversionWidens` are simpler
  tests, one sufficient and one necessary.
- *A RULE-SET sends its entries to its own target* fails when the target is the word `no-resolve` and an entry names
  another target: `MihomoRules.NoResolveTargetMisreads` is an instance, and `MihomoRules.InlinedLineReads` says for each
  entry that it reads as meant exactly when the pair is proper. The rewrite keeps the meaning of every list as the code
  reads it, improper pairs included.
- *An accepted configuration compiles* fails when a rule mixes address families, which no validator compares:
  `MixedFamilies.MixedFamiliesDoNotCompile` is an instance and `Nftables.AcceptedCompilesExactlyWhen` the exact condition.
- *An allow for a whole collection covers its members* fails for an allow policy that lists the empty resource name:
  `AccessPolicy.EmptyNameBreaksCollectionAllow` is an instance, and `AccessPolicy.CollectionAllowIsExact` shows that a
  matching allow covers every member exactly when it does not list that name.
- *The gateway's floor file only grows* fails after a write that breaks off between rename and directory sync:
  `GatewayFloorFile.FileMayGoBack`. `GatewayFloorFile.CycleLowersExactlyWhen` says exactly which cycle lowers it, and
  `GatewayFloorFile.FileOnlyGrows` that no run without such a write ever does. It always stays at or above everything
  handed to the applier.
- *Disabled means shut down* fails when a refused floor check cannot disable the system: the runtime sets its flag all
  the same (`GatewayExpiry.DisabledMayStillServe`), a later failed attempt can even reinstall the predecessor
  (`GatewayExpiry.DisabledMayBeReinstalled`), and the runtime's expiry check never looks again, which leaves the deadline
  to the kernel's lease guard. `GatewayExpiry.CycleShutsExactlyWhen` is the exact condition for a cycle, and
  `GatewayExpiry.DisabledMeansShutDown` the law for runs that meet it.
- *Rolled-back means reinstalled* fails when the predecessor had expired; the system is then shut down
  (`GatewayExecutor.RolledBackMayShutDown`). `GatewayExecutor.ApplyFailsClosed` states that the deadline alone decides.
- *A raw outbound sits behind one listener* needs the random backend users to differ, which the program does not check:
  `MihomoGuard.RawOnlyBehindItsListener` is an equivalence.

## Model

| member | source | states |
|---|---|---|
| `Prefixes.CoversIsInclusion` | internal/networkgateway/executor.go:432-453 | the containment test used for site rules and leases holds exactly when every address of one prefix lies in the other |
| `Prefixes.OverlapsIsIntersection` | internal/networkgateway/executor.go:300-318 | the overlap test used for AllowedIPs holds exactly when the two prefixes share an address |
| `Prefixes.CanonicalIsItsAddresses` | internal/networkgateway/executor.go:474-480 | two accepted texts give the same prefix exactly when they hold the same addresses |
| `Prefixes.SinglePrefixHoldsOneAddress` | internal/networkgateway/executor.go:474-480 | a full-length prefix holds its own address and no other |
| `Prefixes.ContainsComparesBits` | internal/networkgateway/executor.go:432-453 | an address lies in a prefix exactly when it is of the same family and agrees on the prefix's bits |
| `GatewayPeers.OverlapsAny` | internal/networkgateway/executor.go:300-318 | the inner loop reports a clash exactly when some taken prefix overlaps |
| `GatewayPeers.ReadAllowedIPs` | internal/networkgateway/executor.go:300-318 | accepts exactly when each AllowedIP is canonical, fits the peer kind, and overlaps nothing before it, in this peer or an earlier one |
| `GatewayPeers.JoinPeer` | internal/networkgateway/executor.go:278-322 | one turn of the peer loop: accepts exactly when key, runtime and prefixes are new, and extends the three source tables |
| `GatewayPeers.ValidatePeers` | internal/networkgateway/executor.go:278-334 | accepts exactly the lists with well-formed, pairwise distinct peers and pairwise disjoint AllowedIPs, and returns their sources |
| `GatewayPeers.ValidateRoutes` | internal/networkgateway/executor.go:249-270 | the subset-and-equal-cardinality test accepts exactly when the routes are canonical, distinct and as a set equal to the AllowedIPs |
| `GatewayPeers.SubsetOfEqualSize` | internal/networkgateway/executor.go:249-270 | why counting is enough: inclusion and equal size make the sets equal |
| `GatewayPeers.AddressHasOneOwner` | internal/networkgateway/executor.go:278-322 | in an accepted list two prefixes holding the same address are the same prefix of the same peer |
| `GatewayPeers.RoutesReachExactlyThePeers` | internal/networkgateway/executor.go:249-270 | an address is routed exactly when some peer owns it |
| `GatewayPeers.CryptokeyRoutingIsUnambiguous` | internal/networkgateway/executor.go:249-334 | each address belongs to at most one peer, each endpoint peer owns exactly one single address, and the routes reach exactly the owned addresses |
| `GatewayFirewall.CheckRules` | internal/networkgateway/executor.go:336-357 | the rule loop accepts exactly the lists whose every rule passes, with distinct IDs |
| `GatewayFirewall.ValidateFirewall` | internal/networkgateway/executor.go:336-430 | the same over the lease tables built from the configuration |
| `GatewayFirewall.ValidateGatewayDesired` | internal/networkgateway/executor.go:202-247 | accepts exactly the configurations meeting the whole declarative condition, SNAT families included |
| `ValidationLaws.AcceptedExactlyWhenNothingIsRefused` | internal/networkgateway/executor.go:202-247 | a configuration is accepted exactly when none of the listed refusals, field by field, applies to its header, interface, peers, routes or rules |
| `ValidationLaws.WireGuardTest` | internal/networkgateway/executor.go:229-247 | the interface is refused exactly for another role, name, key, port, MTU, default, mode, count or address, or an IPv6 text in SNAT mode |
| `ValidationLaws.PeerTest` | internal/networkgateway/executor.go:278-334 | a peer is refused exactly for its key, identifiers, AllowedIPs, endpoint or keepalive |
| `ValidationLaws.RuleTest` | internal/networkgateway/executor.go:359-430 | a rule is refused exactly for its identifier, ends, effect, transport, authorisation, expiry, site or lease |
| `GatewayFirewall.SiteRuleStaysInside` | internal/networkgateway/executor.go:432-443 | a packet matched by a covered site rule has its site end inside that peer's AllowedIPs |
| `GatewayFirewall.EndpointRuleNamesItsPeer` | internal/networkgateway/executor.go:392-413 | a packet matched by an endpoint rule comes from an endpoint peer's single address |
| `GatewayFirewall.AllowedPacketsAreJustified` | internal/networkgateway/executor.go:336-466 | for every accepted configuration, a packet the rules allow is justified by an unexpired allow: endpoint peer into its lease's CIDRs, a known resource lease, or a site link inside the peer's AllowedIPs |
| `GatewayFirewall.DenyBeatsCoveringAllow` | internal/networkgateway/executor.go:455-466 | a packet some deny matches is never accepted by a non-resource allow of the same source text whose destination covers that deny's |
| `Nftables.GuardEndsByDeadline` | internal/networkgateway/lease_guard.go:16-29 | the guard's timeout is 1 to 300 seconds, ends by the deadline and is the longest whole number of seconds that does |
| `Nftables.CompileForward` | internal/networkgateway/executor.go:482-557 | the rule loop compiles exactly when every rule does, in order |
| `Nftables.CompileSnat` | internal/networkgateway/executor.go:514-521 | the masquerade lines are those of the allow rules, in order |
| `Nftables.BuildNftProgram` | internal/networkgateway/executor.go:482-524 | succeeds exactly when names, rules and deadline are in order, and its chains are then, rule for rule, the ones the independent readback generator expects |
| `Nftables.ExpectedLines` | internal/networkgateway/system.go:552-593 | the generator's loop succeeds exactly when every rule has canonical ends, and yields one expected line per rule |
| `Nftables.GenerateExpected` | internal/networkgateway/system.go:552-593 | the whole expected forward chain: return rule, rules, two closing drops |
| `Nftables.CompiledChainsAreExpected` | internal/networkgateway/system.go:552-611 | whatever compiles, both generators give the same forward and postrouting chains |
| `Nftables.AcceptedCompilesExactlyWhen` | internal/networkgateway/executor.go:526-557 | an accepted configuration compiles exactly when 1 to 300 whole seconds are left and no rule mixes address families |
| `MixedFamilies.MixedFamiliesDoNotCompile` | internal/networkgateway/executor.go:526-557 | an accepted configuration, IPv4 peer to IPv6 lease, that compiles at no time |
| `MixedFamilies.MixedTextsExist` | internal/networkgateway/executor.go:474-480 | addresses as that instance needs them exist |
| `Nftables.ExpectedRuleMatches` | internal/networkgateway/system.go:552-593 | an expected line matches a packet exactly when the rule does and, for an allow, the guard lives |
| `Nftables.ExpectedChainMeansIntended` | internal/networkgateway/system.go:552-593 | evaluating the expected chain gives every packet the intended verdict: first matching rule, allows and established or related traffic into WireGuard only while the guard lives, otherwise drop if the packet touches WireGuard |
| `Nftables.NewConnectionsNeedAnAllow` | internal/networkgateway/system.go:552-593 | a packet that opens a connection over WireGuard passes exactly when an allow is its first match and the guard lives |
| `Nftables.PostroutingTranslates` | internal/networkgateway/system.go:595-611 | the expected postrouting chain translates exactly the traffic of allow rules that leaves through the egress interface |
| `NftReadback.DecodeReadback` | internal/networkgateway/system.go:479-518 | decoding succeeds exactly on well-formed items of the owned table and gives its tables, chains and rules in order |
| `NftReadback.VerifyLeaseGuard` | internal/networkgateway/lease_guard.go:35-76 | accepts exactly when one guard set with one zero-mark element exists and its remaining life ends by the deadline plus one second |
| `NftReadback.MatchRules` | internal/networkgateway/system.go:539-550 | accepts exactly when the listed rules are the expected ones, in order |
| `NftReadback.VerifyReadback` | internal/networkgateway/system.go:448-477 | accepts exactly when topology, forward, postrouting and guard are all as expected |
| `NftReadback.ReadbackFixesMeaning` | internal/networkgateway/system.go:448-550 | after a successful readback, all chains the kernel runs over forwarded packets give every packet at every later time the intended verdict, and the guard is alive at the reading |
| `NftReadback.ReadbackFixesTranslation` | internal/networkgateway/system.go:448-537 | after a successful readback, the kernel translates exactly the traffic of allow rules leaving through the egress interface, and none in routed mode |
| `NftReadback.ReadbackBoundsGuard` | internal/networkgateway/lease_guard.go:35-76 | after a successful readback the guard is dead one second past validUntil |
| `NftReadback.KernelAdmitsOnlyJustifiedTraffic` | internal/networkgateway/system.go:448-550 | validator, generator and readback together: WireGuard traffic the kernel accepts is return traffic or justified by a validated rule, and never later than validUntil plus one second |
| `PacketClasses.AddressStandIn` | internal/networkgateway/executor.go:526-557 | every address shares its memberships in a list of prefixes with one of finitely many corners |
| `PacketClasses.PacketStandIn` | internal/networkgateway/executor.go:526-557 | every packet some rule matches has a stand-in, from a finite supply, that the same rules match |
| `PacketClasses.CanMeetIsExact` | internal/networkgateway/executor.go:526-557 | the overlap test on two rules holds exactly when some packet matches both |
| `RollbackAccess.LostPacketExposes` | internal/networkgateway/executor.go:149-170 | after a passed check, a packet allowed before and not after meets an inverted pair and no earlier rule of either list |
| `RollbackAccess.NarrowsExactlyWhen` | internal/networkgateway/executor.go:149-170 | for lists passing the check, no packet is lost exactly when no stand-in packet exposes an inverted pair |
| `RollbackAccess.OrderOfMeetingRulesSuffices` | internal/networkgateway/executor.go:149-170 | it is enough that every inverted allow and deny cannot meet |
| `RollbackAccess.LoneInversionWidens` | internal/networkgateway/executor.go:149-170 | an inverted pair that can meet, with no rule ahead of it that meets both, does widen |
| `RollbackAccess.RollbackNeverWidens` | internal/networkgateway/executor.go:149-170 | between two configurations that pass the check, every packet the predecessor admits is admitted by the rejected one, exactly when no inversion is exposed |
| `RollbackAccess.SwappedRulesWiden` | internal/networkgateway/executor.go:149-170 | without the order hypothesis: two accepted configurations that pass the check and widen access |
| `RollbackAccess.ExampleTextsExist` | internal/networkgateway/executor.go:474-480 | laptop, server, subnet and gateway as the counterexample needs them exist, all different |
| `GatewayExecutor.Executor.Invoke` | internal/networkgateway/executor.go:70-90 | one System call is logged with its answer |
| `GatewayExecutor.Executor.Disable` | internal/networkgateway/executor.go:134-146 | baseline and disable are both tried; the predecessor is forgotten only if both succeed |
| `GatewayExecutor.Executor.FallBack` | internal/networkgateway/executor.go:172-193 | refines the rollback step: unexpired predecessor reinstalled and read back, otherwise shut down |
| `GatewayExecutor.Executor.RecoverFailure` | internal/networkgateway/executor.go:106-121 | refines recovery: disable when rollback would restore access, else roll back, with the right status |
| `GatewayExecutor.Executor.Apply` | internal/networkgateway/executor.go:70-90 | refines the apply step with the validator's real answer |
| `GatewayExecutor.Executor.Verify` | internal/networkgateway/executor.go:93-104 | refines the verify step; the predecessor is untouched |
| `ExecutorLaws.VerifyMeansReadBack` | internal/networkgateway/executor.go:93-104 | "applied" exactly when the configuration is accepted and its one call, a readback of it, succeeds with a hash, which is passed on; anything else is a rejection |
| `ExecutorLaws.ApplySucceedsExactlyWhen` | internal/networkgateway/executor.go:70-90 | "applied" exactly when accepted and baseline, install and readback succeed, in that order and with nothing else called |
| `ExecutorLaws.FailureNamesItsStep` | internal/networkgateway/executor.go:70-90 | the reason names the step that failed, unless recovery failed |
| `ExecutorLaws.CheckIsMayFallBack` | internal/networkgateway/executor.go:149-170 | the check passes exactly when policy versions agree, every old allow is kept and every new deny is old |
| `ExecutorLaws.RollsBackExactlyWhen` | internal/networkgateway/executor.go:106-193 | recovery rolls back exactly when the predecessor may be fallen back to and the calls for it succeed |
| `ExecutorLaws.ApplyCallsOnly` | internal/networkgateway/executor.go:70-193 | Apply installs nothing but the desired configuration or an unexpired predecessor it may fall back to, and every baseline and Disable names the desired or the held interface |
| `ExecutorLaws.PolicyChangeNeverRollsBack` | internal/networkgateway/executor.go:149-152 | across policy versions a failed Apply never reinstalls |
| `ExecutorLaws.DisableCalls` | internal/networkgateway/executor.go:134-146 | disabling calls baseline and Disable on the held interface, or the default one, and forgets the predecessor exactly when both succeed |
| `GatewayExecutor.RecoverFailsClosed` | internal/networkgateway/executor.go:106-193 | recovery ends in a good readback of an unexpired predecessor or in a Disable, each install right after a good baseline |
| `GatewayExecutor.ApplyFailsClosed` | internal/networkgateway/executor.go:70-193 | for every failure pattern: no call when rejected by validation, otherwise the last call is a good readback of the desired or of the unexpired predecessor, or a Disable, as the status says |
| `GatewayExecutor.RolledBackMayShutDown` | internal/networkgateway/executor.go:172-193 | over an expired predecessor the status is rolled-back and the last call a Disable |
| `GatewayExecutor.ReinstalledPredecessorNeverWidens` | internal/networkgateway/executor.go:106-193 | a failed Apply that reinstalls its predecessor admits no packet the rejected configuration would not, exactly when no inversion is exposed |
| `GatewayRuntime.RememberIsDurable` | internal/networkgateway/configuration_floor.go:57-122 | at every point of a floor write, every content the file may show bounds everything handed out |
| `GatewayFloorFile.RememberLowersExactlyWhen` | internal/networkgateway/configuration_floor.go:57-122 | a floor check lowers what the file shows exactly when the write gets to the rename, memory admits the configuration and the file shows something above it |
| `GatewayFloorFile.CycleLowersExactlyWhen` | internal/networkgateway/runtime.go:133-181 | the same for a whole cycle |
| `GatewayFloorFile.FileMayGoBack` | internal/networkgateway/configuration_floor.go:91-122 | from any floor in memory, a write that fails past the rename shows a higher version that the next write lowers |
| `GatewayFloorFile.FileOnlyGrows` | internal/networkgateway/configuration_floor.go:27-122 | in every run whose writes fail before the rename or not at all, what the file shows never goes back and is the floor in memory while the process is up |
| `GatewayRuntime.HandingIsDurable` | internal/networkgateway/runtime.go:133-181 | handing out what the floor admits keeps order and bounds |
| `GatewayRuntime.StepsAreDurable` | internal/networkgateway/runtime.go:133-181 | every prefix of a cycle keeps the durable invariant |
| `GatewayRuntime.CycleIsDurable` | internal/networkgateway/runtime.go:133-181 | so does a whole cycle |
| `GatewayRuntime.EventIsDurable` | internal/networkgateway/configuration_floor.go:27-55 | so do deaths at any step, with any surviving file content, and restarts |
| `GatewayRuntime.AppliedConfigurationsNeverRegress` | internal/networkgateway/configuration_floor.go:27-122 | in any run, what the applier is given never decreases in configuration or policy version, and equal versions are identical up to runtime intervals, deadline included |
| `GatewayRuntime.RunsAreDurable` | internal/networkgateway/configuration_floor.go:27-122 | every run ends with the durable invariant: order of what was handed out, and every possible file content at or above it |
| `GatewayRuns.RunsAreConsistent` | internal/networkgateway/runtime.go:133-278 | the joint invariant of floor, agreement, reports and guarded installs holds after every run |
| `GatewayRuns.RuntimeAndExecutorAgree` | internal/networkgateway/runtime.go:133-278 | healthy implies not disabled with the three versions equal and positive; not disabled with equal versions implies the executor's last known good is that configuration |
| `GatewayRuns.ReportsAreAPrefix` | internal/networkgateway/runtime.go:201-278 | acknowledged outcomes are a prefix of the outcome sequence, missing at most the last, which is then pending |
| `GatewayRuns.EveryInstallIsGuarded` | internal/networkgateway/executor.go:70-193 | across whole runs, each install directly follows a good baseline |
| `GatewayRuns.CycleEnforcesExpiry` | internal/networkgateway/runtime.go:193-199 | a cycle that ends enabled and expired ends with a failed disable attempt |
| `GatewayExpiry.RunsHold` | internal/networkgateway/runtime.go:133-278 | in any run, what the executor holds is the document the runtime keeps time for, with the same deadline |
| `GatewayExpiry.ExpiredIsDisabledOrFlagged` | internal/networkgateway/runtime.go:133-199 | if the executor holds an expired configuration at the end of a cycle, the last two System calls are a failed disable attempt or the runtime counts itself disabled |
| `GatewayExpiry.CycleShutsExactlyWhen` | internal/networkgateway/runtime.go:155-163 | disabled still means shut down after a cycle exactly when no refused floor check failed to disable |
| `GatewayExpiry.DisabledMeansShutDown` | internal/networkgateway/runtime.go:133-199 | in runs without such a failure, disabled means that the executor holds nothing, and an expired configuration is left only after a failed disable attempt |
| `GatewayExpiry.DisabledMayStillServe` | internal/networkgateway/runtime.go:155-163 | a refused floor check whose disable fails leaves the predecessor in force under the disabled flag, and no expiry check touches it |
| `GatewayExpiry.DisabledMayBeReinstalled` | internal/networkgateway/runtime.go:155-175 | a script after which the predecessor is reinstalled and read back while the runtime is disabled |
| `GatewayRuns.WakesBeforeDeadline` | internal/networkgateway/runtime.go:280-293 | while active and unexpired the next wake-up, whatever the jitter, is no later than validUntil |
| `GatewayRuns.ReadyMeansInstalled` | internal/networkgateway/runtime.go:352-356 | readiness implies the executor holds the unexpired configuration the floor names |
| `RuntimeLaws.KnownVersionIsReadBack` | internal/networkgateway/runtime.go:244-262 | the installed version again ends healthy exactly after a good readback, and otherwise disabled or with a failed disable attempt |
| `RuntimeLaws.HealthyMeansReadBack` | internal/networkgateway/runtime.go:133-181 | a cycle that ends healthy read the runtime's own document back, successfully, as its last System call |
| `RuntimeLaws.HandedWasCarried` | internal/networkgateway/runtime.go:214-229 | a cycle hands the applier only the configuration its own poll carried: for this gateway, within the skew, unexpired, with the message's expiry as deadline |
| `RuntimeLaws.AppliesOnlyNewVersions` | internal/networkgateway/runtime.go:231-243 | what is applied is above every attempted version, or the same version after a disable |
| `RuntimeLaws.FailureIsNotRetried` | internal/networkgateway/runtime.go:231-243 | a version that failed is not given to the applier again and its reason stays |
| `RuntimeLaws.FailedAttemptKeepsCourse` | internal/networkgateway/runtime.go:265-278 | a failed attempt is recorded and reported and changes nothing that was in force |
| `RuntimeLaws.BadPollOnlyDegrades` | internal/networkgateway/runtime.go:142-154 | a poll without a usable configuration only sets the status, with the reason for what is missing |
| `RuntimeLaws.PendingReportComesFirst` | internal/networkgateway/runtime.go:201-212 | an undelivered report stops the cycle; a delivered one is cleared and the cycle goes on |
| `RuntimeLaws.GoodPollIsInstalled` | internal/networkgateway/runtime.go:133-181 | a newer configuration with every answer good is written to the floor, installed, read back and reported, and the runtime ends healthy at it |
| `RuntimeLaws.IntervalsAreTakenOver` | internal/networkgateway/runtime.go:295-313 | intervals are taken over exactly when both are between 30 and 300 seconds, each as itself |
| `RuntimeLaws.StartsShut` | cmd/network-gateway/main.go:93-105 | a process comes up only after both calls of its opening disable succeeded, with the floor the file shows, holding nothing and disabled |
| `RuntimeLaws.WakesAtTheSooner` | internal/networkgateway/runtime.go:280-293 | the next cycle starts after the jittered interval or at the deadline, whichever is sooner |
| `GatewayProcess.Runtime.constructor` | internal/networkgateway/runtime.go:73-79 | a new runtime knows nothing and is disabled |
| `GatewayProcess.Runtime.ConfigureState` | internal/networkgateway/configuration_floor.go:27-55 | takes over the floor the file shows, refusing versions below 1 |
| `GatewayProcess.Runtime.Start` | cmd/network-gateway/main.go:93-105 | refines the start of a process: disable, then the floor, either failing ends it; consistency is kept |
| `GatewayProcess.Runtime.Expire` | internal/networkgateway/runtime.go:334-350 | refines the expiry step |
| `GatewayProcess.Runtime.ReportPending` | internal/networkgateway/runtime.go:201-212 | refines the reporting step |
| `GatewayProcess.Runtime.Receive` | internal/networkgateway/runtime.go:214-229 | refines the message checks, each with its own diagnostic |
| `GatewayProcess.Runtime.RememberConfiguration` | internal/networkgateway/configuration_floor.go:57-89 | refines the floor check: refuse, recognise, or write before moving |
| `GatewayProcess.Runtime.CheckDrift` | internal/networkgateway/runtime.go:244-262 | refines the read-back of an installed version, disabling on drift |
| `GatewayProcess.Runtime.HandleKnown` | internal/networkgateway/runtime.go:231-263 | refines the known-version cases |
| `GatewayProcess.Runtime.RecordOutcome` | internal/networkgateway/runtime.go:265-278 | refines recording, with the report left pending |
| `GatewayProcess.Runtime.Cycle` | internal/networkgateway/runtime.go:133-181 | one cycle of the object is one cycle of the run model with the validator's real answers; it keeps the joint invariant and the executor's agreement, and ends enabled and expired only after a failed disable |
| `ProxyEngine.Engine.Stop` | internal/networkproxyruntime/engine.go:264-279 | neither process nor guard is left; the file stays |
| `ProxyEngine.Engine.CheckHealth` | internal/networkproxyruntime/engine.go:281-313 | refines the health check; an exited process is forgotten |
| `ProxyEngine.Engine.Start` | internal/networkproxyruntime/engine.go:231-262 | refines start with its twenty health attempts |
| `ProxyEngine.Engine.Rollback` | internal/networkproxyruntime/engine.go:328-341 | the old file is put back or the new one removed, and nothing is started |
| `ProxyEngine.Engine.Apply` | internal/networkproxyruntime/engine.go:315-399 | refines apply over all its failure points |
| `ProxyEngine.AwaitedIsAllOrNothing` | internal/networkproxyruntime/engine.go:231-262 | start-up ends with process and guard both up and unchanged, or both gone |
| `ProxyEngine.ApplyFailsClosed` | internal/networkproxyruntime/engine.go:315-399 | not "applied" leaves neither process nor guard, and the old file unless restoring failed; "applied" means running behind a guard leased to the deadline over the document read back, or nothing running if disabled |
| `ProxyLaws.HealthyMeansSound` | internal/networkproxyruntime/engine.go:281-313 | the health check passes exactly when process and guard are there and every single check is good |
| `ProxyLaws.WaitSucceedsExactlyWhen` | internal/networkproxyruntime/engine.go:250-261 | start-up succeeds exactly when one of the first twenty checks is good and none before it ended the wait |
| `ProxyLaws.ApplySucceedsExactlyWhen` | internal/networkproxyruntime/engine.go:315-399 | applying succeeds exactly when the configuration is disabled or every stage does, up to the readback of the written document |
| `ProxyLaws.RejectionNamesItsStage` | internal/networkproxyruntime/engine.go:315-399 | the reason names the first stage that failed |
| `ProxyRunner.RememberIsDurable` | internal/networkproxyruntime/configuration_floor.go:53-76 | the floor is written before it is used, only upwards, and always bounds what was handed out |
| `ProxyRunner.StepsAreDurable` | internal/networkproxyruntime/runner.go:207-249 | every prefix of an iteration keeps that |
| `ProxyRunner.RevisionsNeverRegress` | internal/networkproxyruntime/runner.go:207-268 | over any run with deaths and restarts, revisions given to the engine never decrease, equal revisions carry equal digest and enabled flag, and protection policy versions never decrease |
| `ProxyRunner.FloorNeverGoesBack` | internal/networkproxyruntime/configuration_floor.go:30-76 | the recorded revision and policy version never decrease across a run, and no restart is refused |
| `ProxyRunner.ApplyRuns` | internal/networkproxyruntime/runner.go:251-268 | after the apply step an unsuspended runner runs the revision just accepted |
| `ProxyRunner.IterationSettles` | internal/networkproxyruntime/runner.go:124-154 | one iteration restores the loop invariant and leaves an enabled runner time on its deadline |
| `ProxyRunner.IterationsEndClosed` | internal/networkproxyruntime/runner.go:124-279 | at the end of each iteration of any run, enabled implies not suspended, deadline ahead and equal to the guard's lease, live process, last attempt applied at the highest revision ever accepted with the digest on disk; not enabled implies neither process nor guard |
| `ProxyRunner.WakesByDeadline` | internal/networkproxyruntime/runner.go:189-194 | the loop sleeps no longer than to the deadline or one millisecond |
| `ProxyLaws.SleepsToTheSooner` | internal/networkproxyruntime/runner.go:189-194 | the loop sleeps for its interval or to the deadline, whichever is sooner, and at least a millisecond |
| `ProxyProcess.Runner.constructor` | internal/networkproxyruntime/configuration_floor.go:30-49 | a new runner is idle, with the floor the file shows |
| `ProxyProcess.Runner.Suspend` | internal/networkproxyruntime/runner.go:196-199 | refines suspension |
| `ProxyProcess.Runner.Expire` | internal/networkproxyruntime/runner.go:201-205 | refines expiry |
| `ProxyProcess.Runner.RememberConfiguration` | internal/networkproxyruntime/configuration_floor.go:53-76 | refines the floor check; on refusal or a failed write neither file nor memory changes |
| `ProxyProcess.Runner.ApplyConfiguration` | internal/networkproxyruntime/runner.go:251-268 | refines the conditions under which the engine is given a configuration |
| `ProxyProcess.Runner.SyncConfiguration` | internal/networkproxyruntime/runner.go:207-249 | refines the whole synchronisation with its early returns |
| `ProxyLaws.RefusalEndsAccess` | internal/networkproxyruntime/runner.go:207-216 | after a poll answered 401, 403, 404 or 409, an empty answer, or a missing, altered, expired or badly protected payload, nothing runs |
| `ProxyLaws.OtherFailuresChangeNothing` | internal/networkproxyruntime/runner.go:207-216 | any other failed poll leaves an undisturbed runner exactly as it was |
| `ProxyLaws.RegressionEndsAccess` | internal/networkproxyruntime/runner.go:218-233 | after a configuration for another engine, of a lower revision or policy version, changed within its revision, or whose floor could not be written, nothing runs and nothing was handed out |
| `ProxyLaws.HandedWasCarried` | internal/networkproxyruntime/client.go:222-242 | the engine is given only what the poll carried: intact, unexpired, protected and for this engine |
| `ProxyLaws.GapNeedsFreshConfiguration` | internal/networkproxyruntime/runner.go:138-143 | after a gap in the clock nothing runs unless the engine was given a configuration anew |
| `ProxyLaws.BootstrapStaysFresh` | internal/networkproxyruntime/runner.go:251-268 | an enabled runner's bootstrap is at most five minutes old after the apply step |
| `ProxyLaws.EnabledWasSound` | internal/networkproxyruntime/runner.go:275-279 | an iteration that checks health and ends enabled found every check good |
| `ProxyLaws.SteadyPollRenews` | internal/networkproxyruntime/runner.go:207-249 | the running configuration polled again renews lease and deadline and leaves the engine alone |
| `ProxyLaws.NewerPollRuns` | internal/networkproxyruntime/runner.go:207-268 | a newer configuration with every answer good is written down, applied, leased, acknowledged and left running |
| `ProxyProcess.Runner.EnsureRunning` | internal/networkproxyruntime/runner.go:275-279 | refines the health check of an enabled runner |
| `ProxyProcess.Runner.Iterate` | internal/networkproxyruntime/runner.go:124-154 | one turn of the loop is one iteration of the run model; it keeps the loop and floor invariants, and ends with the engine running behind a lease equal to a deadline still ahead, or idle |
| `MihomoPipeline.ProtectDocument` | internal/networkproxyruntime/protection.go:95-112 | refuses exactly documents with listeners, tunnels, an enabled tun or no rule array; otherwise forces rule mode and IPv6 and prefixes one rejection per protected host and CIDR |
| `MihomoRules.InlineProvider` | internal/networkproxyruntime/bootstrap.go:238-256 | succeeds exactly when behaviour, entries and the size limit are in order, and appends the provider's lines |
| `MihomoRules.InlineRules` | internal/networkproxyruntime/bootstrap.go:204-261 | succeeds exactly on inlinable lists and yields their expansion |
| `MihomoRules.EntryIsMeant` | internal/networkproxyruntime/bootstrap.go:243-251 | the line written for an entry asks what the entry stands for: an address range, a host under a domain with "+." and "." as mere spelling, or its own condition |
| `MihomoRules.InlinedLineReads` | internal/networkproxyruntime/bootstrap.go:238-256 | an inlined line means the entry's condition and the rule's target exactly when the pair is proper |
| `MihomoRules.GuardRules` | internal/networkproxyruntime/egress.go:515-538 | accepts exactly when every target is allowed after replacing DIRECT, and replaces it in place |
| `MihomoRules.ReadersAgree` | internal/networkproxyruntime/protection_readback.go:71-106 | on readable rules, the target position the rewrite uses is the one mihomo reads |
| `MihomoRules.InliningKeepsVerdicts` | internal/networkproxyruntime/bootstrap.go:204-261 | inlining changes no destination's verdict, for every list as the code reads it |
| `MihomoRules.ProperTargetsReadPlainly` | internal/networkproxyruntime/bootstrap.go:204-261 | with proper targets that reading is the plain one: members go to the rule's target |
| `MihomoRules.GuardingRedirectsVerdicts` | internal/networkproxyruntime/egress.go:515-538 | guarding changes a verdict only from DIRECT, explicit or implicit, to the guarded outbound |
| `MihomoRules.RewriteKeepsMeaning` | internal/networkproxyruntime/egress.go:236-305 | protecting, inlining and guarding a rule list rejects every protected destination and sends every other one where the user's list did, DIRECT replaced |
| `MihomoPipeline.Boot` | internal/networkproxyruntime/bootstrap.go:100-158 | succeeds exactly on documents whose providers, groups and rules inline within the limits, and gives the inlined document |
| `MihomoPipeline.Rewrite` | internal/networkproxyruntime/engine.go:342-365 | the passes in order, the shape check on the finished rules included, succeed exactly on passing documents |
| `MihomoPipeline.FinishedRulesKeepMeaning` | internal/networkproxyruntime/engine.go:342-365 | for every document that passes, the finished rules reject every protected destination and send every other one where the user's rules did, DIRECT replaced by the guarded front |
| `MihomoPipeline.FinishedDocumentHasNoBypass` | internal/networkproxyruntime/engine.go:342-365 | for every document that passes, no chain of groups from any rule leads around the guard |
| `MihomoPipeline.EveryNodeIsFronted` | internal/networkproxyruntime/egress.go:244-268 | every configured outbound, a provider's included, has its front, its raw form and its two listeners under one user; the direct front's listener leads to DIRECT |
| `MihomoPipeline.GroupsKeepTheirOffers` | internal/networkproxyruntime/egress.go:315-342 | a group keeps name and type and sends exactly where it offered to, its providers' outbounds included, DIRECT replaced |
| `MihomoPipeline.EntrancesTest` | internal/networkproxyruntime/protection.go:95-112 | a document is protectable exactly with no listeners, no tunnels and no tun that is on or not an object |
| `MihomoPipeline.ShapeTest` | internal/networkproxyruntime/protection_readback.go:71-106 | a line is readable exactly as MATCH with a target or one of eleven types with payload and target, a trailing no-resolve apart |
| `MihomoPipeline.NameTest` | internal/networkproxyruntime/egress.go:227-233 | a name is refused exactly when missing, empty, over 128 characters or beginning with soha- in any case |
| `MihomoPipeline.GroupTest` | internal/networkproxyruntime/egress.go:315-342 | a group is refused exactly for its type, a remaining provider, no members or an unknown member |
| `MihomoPipeline.PassingDocumentsAreBounded` | internal/networkproxyruntime/bootstrap.go:100-158 | at most 127 outbounds, 32 providers of each kind and 16384 rules pass |
| `MihomoRules.ReadableBeforeGuarding` | internal/networkproxyruntime/protection_readback.go:71-106 | the check on the finished list already covers the list before guarding |
| `MihomoRules.NoResolveTargetMisreads` | internal/networkproxyruntime/bootstrap.go:238-256 | a RULE-SET with target no-resolve sends a destination to a proxy that the user's list leaves to DIRECT |
| `MihomoGuard.InlineGroup` | internal/networkproxyruntime/bootstrap.go:420-449 | succeeds exactly when every used provider is known, and appends its members |
| `MihomoGuard.InlineGroups` | internal/networkproxyruntime/bootstrap.go:420-449 | the same for every group |
| `MihomoGuard.EgressGuard.Add` | internal/networkproxyruntime/egress.go:71-89 | a backend is added exactly when the name is new, the limit not reached and a user available |
| `MihomoGuard.EgressGuard.GuardOutbounds` | internal/networkproxyruntime/egress.go:244-268 | accepts exactly original, distinct names within the limit, and yields front and raw outbounds and their listeners |
| `MihomoGuard.CollectGroupNames` | internal/networkproxyruntime/egress.go:273-283 | accepts exactly original group names that clash with nothing |
| `MihomoGuard.GuardGroup` | internal/networkproxyruntime/egress.go:315-342 | accepts exactly groups of a known type whose members are all allowed, and replaces DIRECT among them |
| `MihomoGuard.EgressGuard.Mihomo` | internal/networkproxyruntime/egress.go:236-305 | the whole pass succeeds exactly on acceptable documents and gives the guarded one |
| `MihomoGuard.MembersAreSafe` | internal/networkproxyruntime/egress.go:315-342 | every group member is a rejection, a front or a group |
| `MihomoGuard.NoBypass` | internal/networkproxyruntime/egress.go:227-342 | following any rule through any chain of groups, cyclic or not, meets only rejections, fronts, the guarded direct front and groups, never a raw outbound or built-in DIRECT |
| `MihomoGuard.ListenerTargets` | internal/networkproxyruntime/egress.go:306-314 | a listener that leads to a backend is that backend's own |
| `MihomoGuard.RawListenerIsUnderItsUser` | internal/networkproxyruntime/egress.go:306-314 | a listener that sends to a raw outbound asks for that outbound's own user |
| `MihomoGuard.RawOnlyBehindItsListener` | internal/networkproxyruntime/egress.go:236-314 | each raw outbound is the target of its own listener only, exactly when the random users differ |
| `AccessPolicy.SortByPriority` | internal/policy/engine.go:17-30 | the sort yields a permutation in descending priority |
| `PolicyFilters.MatchMeetsEveryFilter` | internal/policy/engine.go:118-171 | a policy matches exactly when each of its seventeen filters is empty or met by the request's own field |
| `PolicyFilters.EngineTestsAreMet` | internal/policy/engine.go:55-70 | with a deny widened, the engine's tests hold exactly when every filter is met or passed over because the request cannot speak to it |
| `PolicyFilters.FirstMetPolicyDecides` | internal/policy/engine.go:17-53 | with no labels pending the first met policy decides, with its effect, actions, reason and scope, and without one the answer is no |
| `PolicyFilters.UnmetFilterNeverDecides` | internal/policy/engine.go:17-53 | leaving out a policy one of whose filters lists only other values changes no answer |
| `PolicyFilters.ClusterWideRefusal` | internal/policy/engine.go:80-97 | a cluster-wide request is refused outright exactly when some deny for it narrows namespaces or objects and has its other filters met |
| `PolicyFilters.AsksForLabelsExactlyWhen` | internal/policy/engine.go:17-78 | labels are asked for exactly when required for a named namespace and unknown, the request is not refused outright, and the first policy some labels meet is not met under all |
| `PolicyFilters.FirstMatchWins` | internal/policy/engine.go:17-53 | the loop gives the first-match answer over a priority order |
| `PolicyFilters.Evaluate` | internal/policy/engine.go:17-53 | an allow names a policy that is no deny, is met field by field and has no met policy above it; with no labels pending a met policy of the highest priority decides |
| `AccessPolicy.OnePolicyUnderUnknownLabels` | internal/policy/engine.go:72-78 | a policy asks for labels exactly when some label map makes it match and another does not |
| `AccessPolicy.DecideUnderUnknownLabels` | internal/policy/engine.go:17-53 | with labels pending, the answer is fixed by the first policy that could match |
| `AccessPolicy.DecideUnderKnownLabels` | internal/policy/engine.go:17-53 | with labels known, the answer is that of the first policy that does match |
| `AccessPolicy.NamespaceLabelAnswersAreFinal` | internal/policy/engine.go:17-78 | any answer other than "labels required" is the answer for every label map |
| `AccessPolicy.AsksForLabelsExactlyWhenUndetermined` | internal/policy/engine.go:17-78 | labels are asked for exactly when the first possible policy is not certain |
| `AccessPolicy.SatisfyingLabels` | internal/policy/engine.go:199-213 | every label filter has a label map that satisfies it |
| `AccessPolicy.ScopedDenyIgnoresResource` | internal/policy/engine.go:80-97 | the scoped-deny test does not depend on resource name, labels or collection |
| `AccessPolicy.AllowSurvivesSharpening` | internal/policy/engine.go:17-53 | if learning more lets no deny newly match and no allow stop matching, an allow stays one |
| `AccessPolicy.UnknownResourceLabelsAreSafe` | internal/policy/engine.go:17-171 | with fail-closed on unknown resource labels, an allow holds for every actual labelling, or at worst asks for pending namespace labels |
| `AccessPolicy.WholeCollectionAllowCoversMembers` | internal/policy/engine.go:17-213 | an allow for a whole collection holds for each member by name and labels, unless an allow lists the empty name |
| `AccessPolicy.CollectionAllowIsExact` | internal/policy/engine.go:118-213 | an allow matching the collection matches each member, whatever its name and labels, exactly when it does not list the empty name |
| `AccessPolicy.EmptyNameBreaksCollectionAllow` | internal/policy/engine.go:118-185 | an allow listing the empty name admits the collection and no named member |
| `TunnelCounters.TelemetryClient.VpnEvents` | internal/networkgateway/vpn_metrics.go:24-77 | one heartbeat replaces the remembered samples by those just read and emits the differences |
| `TunnelCounters.GeneratedStatsAreAccepted` | internal/networkprotocol/vpn.go:148-171 | every generated event satisfies the ingest validators |
| `TunnelCounters.AcceptedPeersAreDistinctBindings` | internal/networkgateway/vpn_metrics.go:24-77 | an accepted peer list never gives one counter two bindings |
| `TunnelCounters.RunBalances` | internal/networkgateway/vpn_metrics.go:24-86 | over any run of heartbeats, the windows of every epoch chain its readings |
| `TunnelCounters.ChainTelescopes` | internal/networkgateway/vpn_metrics.go:24-86 | a chain of windows sums to last minus first reading |
| `TunnelCounters.CountersAreConserved` | internal/networkgateway/vpn_metrics.go:24-86 | per epoch, windows are consecutive, positive and at most ten minutes, and bytes sum to the last minus the first reading |
| `TunnelCounters.WindowsSpanConsecutiveHeartbeats` | internal/networkgateway/vpn_metrics.go:24-77 | whatever the epochs, a heartbeat has at most one window per public key, and it spans that key's readings at this heartbeat and the one before |
| `TunnelCounters.NoByteIsCountedTwice` | internal/networkgateway/vpn_metrics.go:24-86 | over all epochs together, a key's bytes sum to at most what its counters rose between consecutive heartbeats |
| `TunnelCounters.WindowEmittedExactlyWhen` | internal/networkgateway/vpn_metrics.go:41-69 | a window is emitted for a peer exactly when this and the previous heartbeat read the same session, key and version, at most ten minutes apart and with neither counter fallen; it describes that peer |
| `RadiusJournal.Journal.Put` | internal/radiusadapter/journal.go:57-65 | memory and file change together or not at all |
| `RadiusJournal.Journal.Delete` | internal/radiusadapter/journal.go:67-78 | the same for removal; a missing key succeeds |
| `RadiusJournal.Journal.ReplayPending` | internal/radiusadapter/adapter.go:113-141 | refines the replay loop; reports whether anything was pending |
| `RadiusJournal.Journal.ProcessOnce` | internal/radiusadapter/adapter.go:58-111 | refines one step: replay first, otherwise fetch, journal, send, remove |
| `RadiusJournal.RunIsSound` | internal/radiusadapter/adapter.go:58-141 | after every run with failures and restarts memory and file agree with the log; at most one result is pending, under its own command ID; journaled only after its command ran in time; posted only while journaled; removed only after delivery or expiry; nothing is fetched over a pending result |
| `RadiusJournal.FetchedCommandIsCarriedOut` | internal/radiusadapter/adapter.go:58-111 | a fetched command runs exactly when its deadline is ahead, and a valid, journaled result is posted at once and removed exactly when delivered |
| `RadiusJournal.PendingResultIsReplayed` | internal/radiusadapter/adapter.go:113-141 | a pending result is removed once expired, and otherwise posted again and removed exactly when delivered |
| `RadiusJournal.PostedWasJournaled` | internal/radiusadapter/adapter.go:58-141 | each post has an earlier journaling of that same message |

## Left out

- HTTP clients, TLS identity, message schemas and the JSON and YAML codecs: messages are taken as decoded and
  schema-valid, so configuration, policy and revision numbers are positive where the schema says so.
- The kernel, `ip`, `nft` and wgctrl calls of the Linux system: kept as System calls that may fail in any pattern; nft's
  own normalisation of what it is given (merging duplicate ports, rewriting ranges) is not modelled.
- The literal nft program text and its quoting.
- SHA-256 and Ed25519: digests are documents, so collisions are not modelled.
- The workload variant of the gateway validator and of the tunnel configuration.
- Enrolment, observation, connection listing and close commands of the proxy runner: they change no modelled state.
- SOCKS dialling, the transport library and live probes: a probe is an answer, and renewing a lease sets it to the
  given time or fails.
- The text forms checked by the protection validator (identifiers, host names, global unicast CIDRs): one answer.
- The sing-box and V2Ray forms of the protection and guard rewrites: the same shape as mihomo's.
- Provider downloads, DNS pinning and transport pinning: a provider's payload is an input.
- Group options other than `proxies`, `use`, name and type, and mihomo's own matching of a condition.
- `radclient` output parsing, the DNS resolver, SQL seeding, command wiring, DTOs, scripts and deployment labs.
- Heartbeat concurrency and mutexes: a cycle and a heartbeat are separate atomic steps.
- Power loss for the proxy floor and the RADIUS journal: their renames are not followed by a directory sync, so only
  process deaths are covered there; for the gateway floor both are.
- The proxy engine's child process and guard are taken to die with the runner process.
- TunnelCounters.CountersAreConserved: like the two laws after it, assumes distinct peer keys, which `AcceptedPeersAreDistinctBindings` gives for
  every accepted peer list; epochs are numbered instead of named by random UUIDs.
- MihomoGuard.NoBypass: assumes the finished rules pass the readback shape check, as the engine demands before starting;
  `MihomoPipeline.FinishedDocumentHasNoBypass` discharges that for every document that passes.
- The recursive search for unmanaged dialling options and the pinning of transports before guarding.
