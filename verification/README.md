# Verified model of st-agent

st-agent runs proxy tunnels (xray, hysteria, anytls) on a node, keeps their users in step with a control
plane, reports traffic, reloads its configuration while running, and serves certificates from files that
may be rewritten at any moment. This project models the stateful parts of the agent in Dafny and proves what they
keep over whole runs. All files verify together with `dafny verify dfyconfig.toml`.

| files | part of the agent |
|---|---|
| `CertLoader.dfy`, `CertAnswers.dfy`, `LocalCertificateLoader.dfy` | the certificate cache: any number of goroutines, a mutex, an atomic pointer and two files that change under them. The first two are the step machine with the main results; the third is the code as written, each of whose executions is proved to be a run of that machine |
| `Pool.dfy`, `UserPool.dfy` | the user pool with its password index, hooks, traffic reports. The first holds functions on values and an induction principle for runs; the second the heap objects and loops, each method proved equal to its function |
| `PoolIndex.dfy`, `PoolTrace.dfy`, `PoolBackend.dfy`, `PoolCalls.dfy`, `PoolLedger.dfy`, `PoolReports.dfy`, `PoolReaders.dfy` | results about the pool: the index, the order of hooks and convergence, the xray backend, the calls and accounts of every tunnel, conservation of traffic, what reports say, and concurrent look-ups |
| `CountingConn.dfy`, `PoolArrivals.dfy` | anytls byte counters: connections adding while the report loop reads and clears, first counter by counter, then for the books of the whole pool |
| `Supervisor.dfy`, `SupervisorRuns.dfy`, `SupervisorTicks.dfy`, `Agent.dfy` | the configuration watcher: functions on values, results over all ticks and about each tick, and the loops as written |
| `Framing.dfy`, `StatName.dfy`, `Text.dfy` | the anytls preamble, traffic counter names, and the string functions they use |
| `Bandwidth.dfy`, `AcmeOverlay.dfy` | bandwidth texts and the overlay of ACME flags |

## What is assumed

- A file never carries one modification time for two different contents (`CertLoader.File`); files may be hidden, restored, truncated or rewritten between any two accesses.
- The outcomes of HTTP and gRPC calls, file reads, server set-ups and starts are arbitrary. An xray add or removal may be carried out and acknowledged, carried out with the acknowledgement lost, or not carried out; "not found" is answered only for an unknown user, and an add is refused for a user already present or of a protocol without an account (tunnel/xray/user.go:75-87).
- The xray user list starts empty, only this agent alters it, and the xray configuration itself names no clients, so every user in a statistics reply has a printed id.
- The password key is an arbitrary function of the password; nothing about SHA-256 is used.
- Go map iteration order is arbitrary. Traffic counters are unbounded naturals.

## Where the code does not do what one might expect

- The password index is always sound but not always complete. `ExactIffNoKeyTaken` gives the exact condition, `HandedOverPasswordIsLost` and `SwappedPasswordIsLost` are inputs that lose an entry, and `LostEntryIsNotRepaired` shows that no run in which the user is listed unchanged brings it back.
- The xray update hook marks the response's user as running and not the pool's (tunnel/xray/user.go:52-60). A change reaches the backend if and only if the pool's flag is set and the removal is carried out, and a removal that is acknowledged unsets the flag (`ChangeReachesBackendIffEvicts`, `ChangeReachesBackendIff`). From then on the backend keeps the very account it has for as long as the user is listed, whatever the lists ask for (`UnmarkedAccountIsFrozen`; inputs: `SecondChangeIsLost`, `SecondCipherIsLost`). Only a lost acknowledgement lets a further change through (`LostAcknowledgementLetsChangeThrough`).
- The xray add hook does not look at Enable, so a disabled user can be known to the backend: `DisabledUserIsAdded`, with the exact condition for any user in `BackendKnowsByCalls`.
- An enabled user can be in the pool and missing from xray: after an add that failed, or a removal carried out whose acknowledgement was lost. `EnabledUsersInbound` is the exact condition, `FailedAddLeavesGap` and `LostRemovalLeavesGap` are inputs, and `GapIsNotRepaired` shows that later synchronisations do not help.
- The xray test for a reload fires under the very configuration the server runs if and only if a proxy tag is listed with two addresses: `SameConfigIsIdleIff`, `OneTagTwoAddresses`. Whether xray starts such a configuration at all is its own decision and not part of this model; if it does, the server is restarted at every tick (`TwoAddressesRestartEveryTick`).
- Fetched counters overwrite instead of adding up; `FetchOverwritesNothingIff` is the exact condition under which nothing is lost. Within the agent it is always met (`CanonicalTrafficIsPostedOrDropped`): xray's names and the ids the hysteria auth handler hands out (tunnel/hysteria/services.go:60) are printed canonically (`XrayReplyIsCanonical`, `HysteriaReplyIsCanonical`). A reply with an id the agent never handed out, such as "07", would break it: `OddKeysCollide`.
- Anytls bytes that arrive between the read of a counter and its clearing are neither reported nor pending: `PoolArrivals.TrafficIsConserved` has the whole books, `NothingMissedIffNoneLate` the exact condition.
- The anytls handler reads Enable after it released the pool's lock, so a disabled user who is enabled with a new password in that moment gets a session by the old one: `EnabledAfterLookUp`.
- A text of digits alone is refused as bandwidth, although the digits are a number: `AcceptedIffReading`.

## Model

| member | source | states |
|---|---|---|
| CertLoader.UpToDateAnswersMatchDisk | tunnel/hysteria/utils/certloader.go:109-124 | in every schedule an answer on the up-to-date branch is the certificate file as of that call's certificate stat and the key file as of its key stat |
| CertLoader.UpToDateIsCurrent | tunnel/hysteria/utils/certloader.go:84-124 | why: times are recorded before contents are read and the snapshot is loaded before the stats, so equal times leave no room for another version |
| CertLoader.StoredVersionsNeverDecrease | tunnel/hysteria/utils/certloader.go:141-151 | the file versions in successive stored caches never decrease |
| CertLoader.LaterCallsNeverServeOlder | tunnel/hysteria/utils/certloader.go:109-152 | a lookup that begins after another call returned a certificate gets a certificate and a key that are not older, whichever return path either took |
| CertLoader.FreshAnswersAreCurrent | tunnel/hysteria/utils/certloader.go:110-151 | a certificate served as up to date, or just loaded, is no older than both files were when the call began |
| CertLoader.NoErrorOnceStored | tunnel/hysteria/utils/certloader.go:113-148 | a lookup that begins after any cache was stored returns no error |
| CertLoader.ServedPairsMatch | tunnel/hysteria/utils/certloader.go:84-107 | every certificate ever served was read from the files and passed the key match |
| CertLoader.StoreReplacesSnapshot | tunnel/hysteria/utils/certloader.go:126-151 | the pointer changes only by a store of the lock holder, and a lookup's store replaces exactly the snapshot it loaded on entry |
| CertLoader.NeverCrashes | tunnel/hysteria/utils/certloader.go:136-139 | the pointer never returns to nil and the dereference after the double check is safe |
| CertLoader.StepKeepsInv | tunnel/hysteria/utils/certloader.go:37-152 | every access of every goroutine and every change on disk keeps the cache, lock, goroutine and log invariants, and only extends the records |
| CertLoader.UndisturbedLookupServesDisk | tunnel/hysteria/utils/certloader.go:67-152 | from any reachable state with the lock free, an undisturbed lookup serves the pair on disk if it loads, else the last good pair, else an error |
| CertLoader.UndisturbedLookupUsesCache | tunnel/hysteria/utils/certloader.go:121-124 | and it serves the cached pair without loading if and only if both files have the recorded times |
| CertLoader.UndisturbedInitializeLoadsDisk | tunnel/hysteria/utils/certloader.go:37-48 | an undisturbed initialisation stores the pair on disk if it loads, whatever is cached, and otherwise fails and leaves the cache alone |
| CertAnswers.AnswersFollowSnapshot | tunnel/hysteria/utils/certloader.go:109-152 | in every schedule a lookup answers with the very pointer it loaded on entry, unless it stored the next cache itself or found under the lock that another one was stored |
| CertAnswers.SupersededAnswersAreNewer | tunnel/hysteria/utils/certloader.go:136-139 | a lookup that finds itself overtaken serves a cache stored after it began, never an error |
| CertAnswers.ErrorsComeFromTheFiles | tunnel/hysteria/utils/certloader.go:113-148 | an error is returned only after a failed stat or a failed load |
| CertLoader.SoloIsRun | tunnel/hysteria/utils/certloader.go:109-152 | that undisturbed call is a run of the machine: it is never blocked |
| CertLoader.OthersGrantRely | tunnel/hysteria/utils/certloader.go:109-152 | whatever other goroutines and the disk do between two accesses of one goroutine, in any number of steps: records only grow, and under its lock the cache stands still |
| LocalCertificateLoader.Loader.GetCertificateWithCache | tunnel/hysteria/utils/certloader.go:109-152 | under any interference the execution is a run of the machine in which this goroutine made one lookup, begun at the call and ended with the answer returned, so all results about lookups hold of it |
| LocalCertificateLoader.Loader.Refresh | tunnel/hysteria/utils/certloader.go:134-151 | from the second load of the pointer to the release of the lock, the steps and the answer are the machine's |
| LocalCertificateLoader.Loader.MakeCache | tunnel/hysteria/utils/certloader.go:84-107 | it brings the goroutine to the store with what it saw, or, only if a stat, a read or the match failed, to the release of the lock |
| LocalCertificateLoader.Loader.LoadX509KeyPair | tunnel/hysteria/utils/certloader.go:92-95 | the two reads and the match, failing exactly where the machine fails |
| LocalCertificateLoader.Loader.CheckModTime | tunnel/hysteria/utils/certloader.go:67-82 | two stats, each the machine's, in both places it is called from; None only if one of them failed |
| LocalCertificateLoader.Loader.InitializeCache | tunnel/hysteria/utils/certloader.go:37-48 | the execution is a run in which this goroutine made one initialisation; success stores a cache newer than any before, failure comes from a failed load |
| LocalCertificateLoader.Loader.TryLock | tunnel/hysteria/utils/certloader.go:127-130 | the lock is taken, or the call returns the snapshot |
| UserPool.UserPool.CreateUser | tunnel/common/pool.go:75-91 | the new pool state, index included, and that no other user object is touched |
| UserPool.UserPool.RemoveUser | tunnel/common/pool.go:111-122 | the new pool state, and the traffic lost with the user |
| UserPool.UserPool.GetUserByKey | tunnel/common/pool.go:100-109 | finds exactly the user the index leads to |
| UserPool.UserPool.GetAllUsers | tunnel/common/pool.go:124-132 | lists every user once, in some order |
| UserPool.UserPool.OnUserAdd | tunnel/xray/user.go:48-51 | what the installed hook does to backend, running flag and hook trace |
| UserPool.UserPool.OnUserUpdate | tunnel/xray/user.go:52-60 | the same for updates, with hysteria's kick (tunnel/hysteria/user.go:39-47) |
| UserPool.UserPool.OnUserRemove | tunnel/xray/user.go:61-64 | the same for removals, with hysteria's kick (tunnel/hysteria/user.go:48-50) |
| UserPool.UserPool.AddInboundUser | tunnel/xray/services.go:31-44 | backend effect, result and running flag for every kind of reply, for the pool's object and for one outside the pool |
| UserPool.UserPool.RemoveInboundUser | tunnel/xray/services.go:47-68 | the same for removals; an unknown user counts as removed |
| UserPool.UserPool.ReplaceInboundUser | tunnel/xray/user.go:52-60 | the update hook evicts a running user and adds the response's object, which is the one marked as running |
| UserPool.UserPool.RewriteUser | tunnel/common/pool.go:185-192 | the in-place update of one user object and its index entry; no other user changes |
| UserPool.UserPool.SyncUserConfigsFromServer | tunnel/common/pool.go:168-210 | the loops over response and pool compute `Pool.Sync`, for every response, iteration order and point of abort |
| UserPool.UserPool.FetchTraffic | tunnel/hysteria/user.go:67-94 | the loop sets counters, kicks strangers and stops at an id that does not parse, as `Pool.Fetch` says |
| UserPool.UserPool.Report | tunnel/common/pool.go:139-148 | the loop empties the counters into the request, as `Pool.ReportAll` says |
| UserPool.UserPool.SyncTrafficToServer | tunnel/common/pool.go:134-166 | the whole report with its three fallible calls |
| UserPool.UserPool.SyncOnce | tunnel/common/pool.go:226-237 | a cycle feeds the pool the outcomes of its turns in order up to the first failure, succeeds if and only if every turn did, and is a run in the sense of `Pool.Run`, so all results about runs hold of the class |
| UserPool.UserPool.CountBytes | tunnel/anytls/counting_conn.go:22-32 | bytes read count as download, bytes written as upload, of that user alone |
| UserPool.GetTotalTraffic | tunnel/common/user.go:34-40 | the loop returns the request's total |
| Pool.RunKeeps | tunnel/common/pool.go:224-258 | induction principle: what every turn of every loop keeps, every run keeps, wherever its cycles abort |
| PoolIndex.IndexAlwaysSound | tunnel/common/pool.go:75-122 | at every point of every run each index entry leads to a user in the pool whose password has that key, with no assumption on password reuse |
| PoolIndex.LookupFindsOwner | tunnel/common/pool.go:100-109 | a look-up never returns a user whose password has another key |
| PoolIndex.ExactIsInverse | tunnel/common/pool.go:55-56 | an exact index holds k -> id if and only if user id has a password of key k |
| PoolIndex.NoKeyTakenKeepsExact | tunnel/common/pool.go:173-208 | if no entry takes a key another user still has, every synchronisation keeps the index exact, aborted ones included |
| PoolIndex.NeverTakenKeepsExact | tunnel/common/pool.go:224-258 | and so does every run in which that never happens, traffic in between included |
| PoolIndex.ExactIffNoKeyTaken | tunnel/common/pool.go:173-208 | with distinct ids, a successful synchronisation keeps an exact index exact if and only if no entry takes a key |
| PoolIndex.NoKeyTakenMeans | tunnel/common/pool.go:173-208 | that condition on the response alone: distinct keys, and a key another user held is given away only after that user's own entry |
| PoolIndex.HandedOverPasswordIsLost | tunnel/common/pool.go:178-206 | a password handed from a removed user to a new one loses its entry |
| PoolIndex.SwappedPasswordIsLost | tunnel/common/pool.go:187-191 | of two users who swap passwords one loses its entry |
| PoolIndex.LostEntryIsNotRepaired | tunnel/common/pool.go:173-208 | a user without an entry stays without it throughout every run that keeps listing it unchanged |
| PoolTrace.HookTracesAreBracketed | tunnel/common/pool.go:168-210 | each user's hook events form a prefix of (Added (Updated or failed Removed)* Removed)*, and the bracket is open exactly while the user is in the pool |
| PoolTrace.UsersLeaveByTheirHook | tunnel/common/pool.go:199-207 | over any run, a user that was in the pool and no longer is left after its own removal hook had returned nil |
| PoolTrace.SyncConverges | tunnel/common/pool.go:173-208 | after success the pool has exactly the response's ids, configured by their last entries; level and protocol stay from creation |
| PoolTrace.SilentIffSettled | tunnel/common/pool.go:182-208 | a synchronisation fires no hook if and only if the pool already is as the response asks, and then it changes nothing |
| PoolTrace.RepeatIsSilentIffConsistent | tunnel/common/pool.go:226-237 | repeating a successful user synchronisation after a traffic report, as is done per tag, fires no hook if and only if entries with the same id agree, and then changes nothing at all |
| PoolBackend.InboundWithinPool | tunnel/xray/user.go:48-64 | the backend never knows a user the pool does not, whatever fails |
| PoolBackend.EnabledUsersInbound | tunnel/xray/services.go:31-68 | after any run an enabled user of the pool is missing from the backend if and only if the last call about it, failed removals aside, was a failed add or a removal whose acknowledgement was lost |
| PoolBackend.ReliableCallsForgetNobody | tunnel/xray/services.go:31-68 | so a user whose own adds were carried out and whose removals were not lost is known to the backend |
| PoolBackend.BackendKnowsByCalls | tunnel/xray/services.go:31-68 | whether the backend knows a user, enabled or not, is decided by the calls made about it |
| PoolBackend.DisabledUserIsAdded | tunnel/xray/user.go:48-51 | a new disabled user is added to the backend |
| PoolBackend.FailedAddLeavesGap | tunnel/common/pool.go:178-184 | a user whose add failed stays in the pool, enabled, and is not added by the next synchronisation |
| PoolBackend.LostRemovalLeavesGap | tunnel/common/pool.go:199-207 | a user whose removal was not acknowledged stays in the pool and, listed again, is missing from the backend |
| PoolBackend.GapIsNotRepaired | tunnel/common/pool.go:173-208 | a user missing from the backend stays missing throughout every run that keeps listing it unchanged |
| PoolBackend.ChangeReachesBackendIffEvicts | tunnel/xray/user.go:52-60 | for every reply, what a change makes of a known user's account and of the running flag: nothing reaches the backend unless the flag is set and the removal is carried out |
| PoolBackend.ChangeReachesBackendIff | tunnel/xray/user.go:52-60 | a disabled user leaves the backend if and only if that eviction takes place; an enabled one has the wanted account if and only if eviction and add take place, or it had it before |
| PoolBackend.UnmarkedAccountIsFrozen | tunnel/xray/user.go:52-60 | over every run that keeps listing it, a known user whose flag is unset keeps the account it has in the backend, whatever is asked for and whatever the backend replies |
| PoolBackend.SecondChangeIsLost | tunnel/xray/user.go:57-59 | a second change that disables a user leaves it in a reliable backend |
| PoolBackend.LostAcknowledgementLetsChangeThrough | tunnel/xray/services.go:55-66 | if the first removal's acknowledgement is lost the flag stays set and the second change evicts the user |
| PoolBackend.SecondCipherIsLost | tunnel/xray/user.go:75-87 | after a second change of the cipher alone the backend serves the one before |
| PoolCalls.NewUserIsAdded | tunnel/xray/services.go:31-44 | a new xray user: when the hook succeeds, the credentials the backend then has, the running flag and the one call made |
| PoolCalls.ChangedUserHasCredentials | tunnel/xray/user.go:75-87 | after a change that gets through, an enabled user is known by the list's password, level and cipher, trojan and shadowsocks apart |
| PoolCalls.AccountsComeFromLists | tunnel/xray/user.go:75-87 | over whole runs every account holds the credentials of one list entry with that id |
| PoolCalls.NewUserNeedsNoCall | tunnel/hysteria/user.go:28-51 | without an add hook a new user takes no call and is not marked running |
| PoolCalls.ChangedUserIsKickedIffRunning | tunnel/hysteria/user.go:39-47 | a changed hysteria user is kicked by exactly one call if marked running and by none otherwise, and the mark is taken off |
| PoolCalls.UnlistedUserIsKicked | tunnel/hysteria/user.go:48-50 | an unlisted hysteria user is kicked and leaves if and only if the kick is acknowledged |
| PoolCalls.LoginMarksUser | tunnel/hysteria/services.go:52-54 | a login marks its user as running and does nothing else |
| PoolCalls.LoggedInUsersAreKicked | tunnel/hysteria/user.go:39-50 | over any run, a hysteria user that was logged in and no longer is was kicked in between, and one that is gone left after an acknowledged kick |
| PoolCalls.AnytlsCallsNobody | tunnel/anytls/user.go:15-22 | an anytls pool makes no backend call in any run |
| PoolLedger.TrafficIsConserved | tunnel/common/pool.go:134-166 | for fetched sources: attributed = posted + dropped + pending + overwritten + lost, at every point of every run |
| PoolArrivals.TrafficIsConserved | tunnel/common/pool.go:140-163 | with anytls bytes arriving at any moment, during a report or a synchronisation too: the same with the bytes missed, that arrived between the read of a counter and its clearing |
| PoolArrivals.NothingMissedIffNoneLate | tunnel/anytls/counting_conn.go:22-32 | so the five other places hold all traffic if and only if no bytes arrive in such a window |
| PoolLedger.CanonicalTrafficIsPostedOrDropped | tunnel/hysteria/user.go:74-92 | with canonical ids nothing is overwritten, lost or pending between cycles |
| PoolLedger.FetchOverwritesNothingIff | tunnel/hysteria/user.go:74-92 | a fetch overwrites no traffic if and only if the counters it sets are zero and it never sets again one it gave something to, for every reply and every place where it stops |
| PoolReports.FetchSetsCounters | tunnel/hysteria/user.go:90-91 | after a fetch every counter is the last reading for it, upload and download apart, or what it was, wherever the fetch stops |
| PoolReports.FetchEvictsStrangers | tunnel/hysteria/user.go:80-88 | a fetch asks the backend to evict exactly the users the pool does not know, in order |
| PoolReports.RequestListsActiveUsers | tunnel/common/user.go:50-63 | a request lists every user with traffic exactly once, with its upload and its download, and nobody else |
| PoolReports.FailedFetchEndsReport | tunnel/common/pool.go:135-138 | a failed statistics call ends the report and changes nothing |
| PoolReports.BadRecordEndsReport | tunnel/xray/user.go:99-103 | an id that does not parse ends it too: nothing is posted or dropped |
| PoolReports.ReportSucceedsIff | tunnel/common/pool.go:134-166 | a report succeeds if and only if the statistics came and parse, or there are none to fetch, and both calls that follow succeed |
| PoolReports.ReportPostsAllOrDropsAll | tunnel/common/pool.go:152-163 | once the fetch is through, all counters are posted together if both calls succeed and dropped otherwise, and cleared either way |
| PoolLedger.RequestCarriesAllCounters | tunnel/common/pool.go:139-150 | for fetched sources: a request's total is the sum of all counters before the loop, which clears them |
| PoolArrivals.RequestCarriesCounters | tunnel/common/pool.go:139-150 | with bytes arriving during the loop, request, counters left over and missed bytes add up to the counters before the loop and the arrivals |
| PoolArrivals.AccessesMakeUpReport | tunnel/common/user.go:50-63 | undisturbed, the single accesses to the counters add up to the report of the other results |
| PoolArrivals.StepsMakeUpReport | tunnel/common/pool.go:134-166 | and with the two calls to the whole report of an anytls pool |
| PoolReaders.ReadersSeeOwners | tunnel/common/pool.go:173-208 | between any two steps of a synchronisation no entry dangles, and only the one user being rewritten can be found under its old key |
| PoolReaders.StepsMakeUpSync | tunnel/common/pool.go:173-208 | undisturbed, the small steps add up to the synchronisation of the other results |
| CountingConn.NeverOverReported | tunnel/common/pool.go:140-147 | reported plus pending never exceeds counted, per user object and direction, in every schedule |
| CountingConn.ShortfallIsMissedBytes | tunnel/common/user.go:50-63 | the shortfall is exactly the bytes added between the read of a counter and its clearing |
| CountingConn.NothingMissedIffNoAddInWindow | tunnel/anytls/counting_conn.go:22-32 | every byte is reported or pending if and only if no add fell into such a window |
| CountingConn.TurnReportsBoth | tunnel/common/pool.go:140-147 | an undisturbed turn of the loop reports both counters in full and clears them |
| SupervisorRuns.ServersTakeTurns | cli/start.go:54-147 | per slot: set up, started, stopped, in turns; a replacement is set up only after the old server was stopped; the slot holds a started server of its own type or none |
| SupervisorRuns.RunsIffDesired | cli/start.go:115-147 | after a tick a slot runs if and only if it should and no attempt failed in that tick; the tick sets a server up if and only if an attempt was due, and for an idle slot that should run it always does |
| SupervisorRuns.NoDrift | tunnel/hysteria/server.go:132-167 | running servers agree with the last loaded configuration: hysteria on seven settings, anytls on its address and padding scheme, xray on every proxy inbound |
| SupervisorRuns.AnytlsTickAppliesPadding | tunnel/anytls/server.go:114-136 | after a tick a configured scheme that parses is the one in force |
| SupervisorRuns.FreshXrayServesItself | tunnel/xray/server.go:129-158 | the test finds nothing to do under the server's own configuration if and only if no proxy tag has two addresses |
| SupervisorRuns.SameConfigIsIdleIff | cli/start.go:115-147 | a tick that loads again what a server was started with does nothing to it, unless it is xray with two addresses under one tag: that one is stopped and set up anew |
| SupervisorRuns.TwoAddressesRestartEveryTick | cli/start.go:137-146 | over any number of such ticks that xray server, if it starts, is restarted at each |
| SupervisorTicks.HysteriaReloadsIff | tunnel/hysteria/server.go:132-167 | a hysteria server is left alone if and only if seven settings, written out, are as they were |
| SupervisorTicks.AnytlsReloadsIff | tunnel/anytls/server.go:114-136 | an anytls server is left alone if and only if its address is as it was, and which padding scheme it then remembers and the process applies |
| SupervisorTicks.XrayReloadsIff | tunnel/xray/server.go:129-158 | an xray server with unique proxy tags is left alone if and only if it runs every proxy inbound now configured |
| SupervisorTicks.ProxyTags | tunnel/xray/const.go:17-21 | the five tags of proxy inbounds |
| SupervisorTicks.LoadedConfig | config/config.go:89-92 | a missing log level is "info", the rest is taken as it stands |
| SupervisorTicks.FailedLoadChangesNothing | cli/start.go:95-100 | a tick whose file cannot be loaded changes nothing |
| SupervisorTicks.SlotAfterTick | cli/start.go:115-147 | what a tick leaves in a slot by the file alone: nothing without a section, and after a set-up the file's own section exactly if it is complete and the attempt ends well |
| SupervisorTicks.StopsIff | cli/start.go:119-142 | a running server is stopped if and only if its section is gone or its test asks for a reload |
| SupervisorTicks.PaddingAfterTick | tunnel/anytls/server.go:41-58 | the padding scheme in force after a tick, for every outcome |
| SupervisorTicks.BootRunsSections | cli/start.go:58-69 | after the initial start exactly the tunnels with a section run, each with its section |
| SupervisorRuns.SettingsDeterminedByHistory | cli/start.go:71-113 | ticker and log level follow the most recent positive interval and the most recent level that parses |
| Supervisor.SlotTicksLocal | cli/start.go:115-147 | a tick does to each slot one turn from where it stood: slots do not influence each other |
| Agent.XrayNeedReload | tunnel/xray/server.go:129-158 | the two loops decide exactly whether some wanted proxy inbound is not running at its address |
| Agent.Agent.NeedReload | tunnel/anytls/server.go:114-136 | the three tests, with the scheme and configuration the anytls test leaves behind |
| Agent.Agent.StartTunnel | cli/start.go:77-88 | the slot's new content, events and the scheme in force, for every outcome |
| Agent.Agent.StartAll | cli/start.go:58-69 | the initial start succeeds if and only if every configured tunnel starts, and then leads to a booted state |
| Agent.Agent.Tick | cli/start.go:95-149 | one tick of the watcher, for failing loads and every outcome of starts |
| Framing.HandleTcpConnection | tunnel/anytls/inbound_tcp.go:30-75 | the handler's cursor and early returns compute `Framing.Handle` |
| Framing.SessionReadsWhatFollows | tunnel/anytls/inbound_tcp.go:40-73 | if the first read holds 32 bytes of hash, a length in two bytes, high byte first, and the padding, the session reads exactly what follows, for every hash, padding and split, if and only if the hash is an enabled user's |
| Framing.SessionsAreFramed | tunnel/anytls/inbound_tcp.go:40-75 | a session exists only behind a whole preamble of that form |
| Framing.SessionsAreAuthenticated | tunnel/anytls/inbound_tcp.go:49-53 | with a synchronisation going on before, after and between the look-up and the read of Enable: a session is created only for a user of the pool whose password hashed to the bytes received at the look-up (or, for the one user being rewritten, whose replaced password did), and that is enabled at the read |
| Framing.PromptSessionsAreAuthenticated | tunnel/anytls/user.go:15-26 | with nothing between the two reads, the enabled user is the one whose password was checked |
| Framing.EnabledAfterLookUp | tunnel/anytls/inbound_tcp.go:49-53 | with the reads apart, an old password can open a session of a user enabled with a new one |
| Framing.SettledSessionsAreAuthenticated | tunnel/anytls/user.go:15-26 | with no synchronisation under way there is no exception |
| StatName.NameRoundTrip | tunnel/xray/services.go:13-16 | id and direction are recovered from a counter's name, for every 64-bit id |
| StatName.XrayReadingsLand | tunnel/xray/user.go:114-122 | uplink readings become upload and downlink readings download, doubled |
| StatName.OtherReadingsSetNothing | tunnel/xray/user.go:98-123 | another kind of counter sets nothing, and an id that is no number is refused |
| StatName.HysteriaReadingsLand | tunnel/hysteria/user.go:90-91 | tx becomes upload and rx download |
| StatName.OddIdsEndTheFetch | tunnel/hysteria/user.go:74-78 | an id is refused if and only if it is no 64-bit number |
| StatName.XrayReplyIsCanonical | tunnel/xray/user.go:98-123 | distinct counters never collide, so the ledger results apply to xray's replies |
| StatName.HysteriaReplyIsCanonical | tunnel/hysteria/user.go:74-91 | the same for hysteria ids printed canonically |
| StatName.OddKeysCollide | tunnel/hysteria/user.go:74-91 | and a reply with ids printed otherwise, which the agent never hands out, loses the first reading |
| Text.AtoiItoa | tunnel/xray/user.go:99-103 | a printed 64-bit id parses to itself |
| Text.AtoiReads | tunnel/hysteria/user.go:75 | digits with an optional sign are read as decimals if the number fits |
| Text.AtoiReadsOnly | tunnel/hysteria/user.go:75 | and nothing else is read |
| Bandwidth.StringToBps | tunnel/hysteria/utils/bpsconv.go:20-53 | the scanning loop computes `Bandwidth.Parse` |
| Bandwidth.AcceptedIffReading | tunnel/hysteria/utils/bpsconv.go:20-53 | a text is accepted if and only if it is digits, spaces and a known unit with a 64-bit value |
| Bandwidth.ReadingsAreAccepted | tunnel/hysteria/utils/bpsconv.go:33-49 | and then its value is ((v * unit) mod 2^64) / 8 |
| Bandwidth.ReadingsMean | tunnel/hysteria/utils/bpsconv.go:10-16 | the value of a reading in each of the fourteen units, in decimal multiples |
| Bandwidth.UnitsAreKnown | tunnel/hysteria/utils/bpsconv.go:39-52 | no other unit is known |
| Bandwidth.ExactIffNoWrap | tunnel/hysteria/utils/bpsconv.go:39-49 | which is the true floor if and only if the product fits into 64 bits |
| Bandwidth.ConvBandwidth | tunnel/hysteria/utils/bpsconv.go:59-68 | texts are parsed, ints taken in two's complement, other types refused |
| AcmeOverlay.Config.MergeACMECLI | cli/init.go:45-129 | the in-place overlay computes `AcmeOverlay.Merge` |
| AcmeOverlay.MergeIdempotent | cli/init.go:45-129 | overlaying the same flags again changes nothing |
| AcmeOverlay.FlagsBeatFile | cli/init.go:69-96 | every flag that is set beats the file and every other leaves it alone; the EAB flag is key id, colon, key |
| AcmeOverlay.DnsFlagsBeatFile | cli/init.go:97-112 | the same for the DNS provider and its section |
| AcmeOverlay.SectionAppearsIff | cli/init.go:48-67 | without a section in the file there is one if and only if some flag is set, and then it is the overlay on an empty one |
| AcmeOverlay.MergedOptions | cli/init.go:105-119 | each provider option is the last command-line setting of its key, split at the first "=", or else the file's |

## Left out

- CertLoader.UndisturbedLookupServesDisk: assumes that TryLock succeeds on a free mutex; in all other results it may fail on a free one.
- LocalCertificateLoader.Loader.GetCertificateWithCache: waiting for the mutex is bounded by a parameter, because nothing bounds it in the code; liveness of the lock is not claimed.
- UserPool.UserPool.FetchTraffic: does not model wrap-around of 64-bit counters, nor negative values in a statistics reply, which the code would take as they come.
- UserPool.UserPool.SyncUserConfigsFromServer: a JSON null among the response's users, which the code would dereference, is not modelled.
- StatName.XrayReplyIsCanonical: a name without ">>>" makes getEmailAndTrafficType index out of range; the query pattern excludes such names.
- SupervisorRuns.NoDrift: tags removed from the xray configuration, the sync endpoint and fields no test compares are not covered, because the code does not look at them.
- Agent.XrayNeedReload: compares addresses as texts; an inbound without listen address or ports, which the code would dereference, is not modelled.
- Bandwidth.StringToBps: ASCII only; Unicode spaces and case folding are not modelled.
- Servers whose Start failed part way keep what they had opened; the model stops at the instances the watcher records.
- SNI guards, TLS, QUIC, HTTP and gRPC transport, the padding scheme syntax and the sing, certmagic, xray and hysteria libraries are outcomes or parameters.
- The Reload methods of the servers, which the watcher never calls.
- Certificate issuance (tool/tls), hysteria's configuration fillers, the geo and update loaders, bandwidth recorders, installer and QR code: they would add only easy members.
