# GuardMe, verified

A Dafny model of the parts of GuardMe that decide, remember and protect: the filtering proxy of the gateway with
its in-memory tables, the credential vault, the behaviour analytics, and the live stores and generators of the
dashboard. Each module follows one component.

- `BypassTokens`, `ThreatScanCache`, `RateLimit`: the tables that are purged by time. Each has a pure state machine
  whose ghost history never forgets, a theorem that purging cannot be noticed, theorems over whole runs, and a class
  whose methods change the real table in place and refine the machine.
- `Policy`, `Pipeline`, `ProxyPipeline`, `PipelineAgreement`: the proxy. `Pipeline` is a machine whose steps are the
  stretches of code between two waits, so its runs are all interleavings of requests over the shared tables;
  `ProxyPipeline` serves one request over the service objects; `PipelineAgreement` shows that both agree.
- `VaultState`, `VaultKeyCache`, `Vault`: rows, keys and encryptions as a machine over interleaved requests, and the
  services over real key buffers that are zeroed in place.
- `RandomInt`, `Shuffle`, `PasswordGenerator`: rejection sampling over 32-bit words, the in-place shuffle and the
  generated passwords.
- `Histograms`, `PlainObjects`, `Baseline`, `Entries`, `KnownHosts`, `Snapshot`, `Anomaly`, `RiskTrend`: the behaviour
  baseline, the scorer that reads it, and the daily averages that server and client compute between them.
  `PlainObjects` is about tables that are plain objects and inherit names such as `toString` and `__proto__`.
- `LiveStore`, `NewestStore`, `TrafficStore`, `NotificationStore`: the sorted entity store, what it keeps when it is
  bounded, and the two reducers over it.
- `DomainLabels`, `Rules`, `Html`, `Ipv4`: decisions taken on texts, against the structure the texts stand for.
- `ChartAxis`, `Polling`: bounded loops. `Threat` and `Wrappers` hold shared types.

`dafny verify dfyconfig.toml` checks everything.

## How the model reads the code

- Clocks are explicit, in milliseconds, and do not go back. A call that reads the clock several times takes two
  readings, one for the purge it starts with and one for everything after. Every run theorem holds for any such
  clock. Configuration values are fixed for a run and whole numbers.
- Cryptography, signatures, random sources, the name server, the scanners and the database are parameters. The laws
  asked of them are stated: decryption undoes encryption under the same key, only a user's own password passes for
  it, tokens cannot be forged, token and row ids are fresh, and a random device never stops delivering low words.
- Averages, shares and axis steps are exact numbers; only the roundings of the code are modelled as roundings.
- The ISO texts that key days and hours stand for the number of the UTC day or hour; both have the same order. Local
  hours come from an arbitrary function of the time.
- Case folding and trimming are arbitrary functions of the text, so nothing depends on how they treat a character.
- The local tables of the baseline loop are the fields of one record, and one round of the loop is a method of its own.
- A traffic record is the start of the write: the code does not wait for the write itself.
- A sort is any function that does what ECMA-262 asks in section 23.1.3.30: it keeps the entries, and sorts them stably
  if the comparison is consistent on them. Differences with a text are not numbers and count as equal.

Three results are not what a reader of the names would expect. A malicious url is not always blocked: the file scan is
asked first, so a suspicious download softens the block to a warning (`Policy.MaliciousUrlIsBlocked` gives the exact
condition). And the limit of failed logins bounds a window, not an interval: an interval as long as a window can hold
nearly twice the limit (`RateLimit.FailuresPerInterval`, and its tightness for all settings). Finally, the baseline
counts hosts in a plain object, so a host named like an inherited property is miscounted: its count is a text, or
nothing for `__proto__`, which is never known either. `Baseline.HostCountsAreRight`,
`KnownHosts.AllHostsKnownWithoutProto` and `KnownHosts.RankingIsRightWithoutInheritedNames` say exactly when all is well.

## Model

| member | source | states |
|---|---|---|
| `Pipeline.ProceedsAtMostWarnings` | apps/gateway-backend/src/modules/proxy/proxy-pipeline.service.ts:54-142 | In every interleaving of requests and at every moment, for any user, session and url, no more requests were let past a warning than warning pages for the same three were shown before, and each has a warning page of its own. |
| `Pipeline.ForwardsAreAllowed` | apps/gateway-backend/src/modules/proxy/proxy-pipeline.service.ts:52-142 | In every run a request forwarded upstream was recorded with decision ALLOW before, and unless the user proceeded or has an allow rule, both scans found nothing, on a result for that very url that was new, or less than one lifetime old when it was read from the cache, or on a tolerated stand-in. |
| `Pipeline.EveryRequestIsInOrder` | apps/gateway-backend/src/modules/proxy/proxy-pipeline.service.ts:51-184 | In every run a request leaves at most one traffic record, gets at most one answer and only after its record, and an error page comes last. |
| `Pipeline.HistoriesGrow` | apps/gateway-backend/src/modules/proxy/proxy-pipeline.service.ts:51-184 | What a request has shown is never taken back, so the order inside a history is the order in time. |
| `Pipeline.ConnectNeverWarns` | apps/gateway-backend/src/modules/proxy/proxy-pipeline.service.ts:186-224 | A tunnel request is never answered WARN nor with a page, and an answer ALLOW follows a record ALLOW. |
| `Pipeline.AnswersByGrounds` | apps/gateway-backend/src/modules/proxy/proxy-pipeline.service.ts:45-224 | In every run, which record and which answer a finished request has, exactly, by its token, its rule or the verdicts of its scans. |
| `Pipeline.RunKeepsInv` | apps/gateway-backend/src/modules/proxy/proxy-pipeline.service.ts:45-224 | Every state reached by interleaved requests keeps the tables, histories, signatures, spent tokens and results in agreement. |
| `Pipeline.StepKeepsShape` | apps/gateway-backend/src/modules/proxy/proxy-pipeline.service.ts:84-142 | Whatever a request waits for, its effects so far are a function of its stage alone, errors included. |
| `Pipeline.ProceedingIsNew` | apps/gateway-backend/src/modules/proxy/proxy-pipeline.service.ts:54-62 | A token that is let through was never spent before and was signed for the same user, session and url. |
| `Pipeline.NewResultIsStored` | apps/gateway-backend/src/modules/proxy/proxy-pipeline.service.ts:341-359 | A scan result that is not a stand-in was stored for the url of the request when it starts to be used: at that moment, or less than one lifetime before. |
| `Pipeline.HitIsFresh` | apps/gateway-backend/src/modules/proxy/proxy-pipeline.service.ts:345-348 | A cache hit was stored for the url less than one lifetime before it is read. |
| `PipelineAgreement.HttpIsServedAsPromised` | apps/gateway-backend/src/modules/proxy/proxy-pipeline.service.ts:45-142 | From every reachable state, the interleaved machine serves an undisturbed browser request as HandleHttp promises: same record and answer, same spent tokens, same issued tokens, same stored scans. |
| `PipelineAgreement.ConnectIsServedAsPromised` | apps/gateway-backend/src/modules/proxy/proxy-pipeline.service.ts:186-224 | The same for an undisturbed tunnel request and EvaluateConnect, with no token spent or issued. |
| `ProxyPipeline.ProxyPipelineService.HandleHttp` | apps/gateway-backend/src/modules/proxy/proxy-pipeline.service.ts:45-142 | A browser that brings an accepted token proceeds; else a rule blocks or allows; else it sees a warning page exactly for a suspicion, a block page exactly for a danger, by the verdicts of file and url, and is forwarded otherwise, always after the record of just that decision. A token is spent exactly to proceed and signed exactly for a warning page. |
| `ProxyPipeline.ProxyPipelineService.EvaluateConnect` | apps/gateway-backend/src/modules/proxy/proxy-pipeline.service.ts:186-224 | By rule or url verdict, one record WARN, BLOCK or ALLOW, and the answer BLOCK exactly for the first two. |
| `ProxyPipeline.ProxyPipelineService.ScanWithCache` | apps/gateway-backend/src/modules/proxy/proxy-pipeline.service.ts:341-359 | The result a full, time-checked history would give, else the scanner's; only a real, fresh scan is added to the history. |
| `Policy.AllowedMeansNothingFound` | apps/gateway-backend/src/modules/proxy/policy.service.ts:11-136 | ALLOW exactly if neither scan found anything and a missing scan is tolerated. |
| `Policy.DecisionsByVerdicts` | apps/gateway-backend/src/modules/proxy/policy.service.ts:11-136 | WARN exactly for a suspicious file, or a suspicious url without a malicious file; BLOCK exactly for a malicious file, or without a suspicious one for a malicious url or a stand-in under fail-closed. |
| `Policy.TheFindingIsRecorded` | apps/gateway-backend/src/modules/proxy/policy.service.ts:11-136 | Score and verdict of the decision are the file's exactly if the file is a finding, and the url's otherwise. |
| `Policy.MaliciousUrlIsBlocked` | apps/gateway-backend/src/modules/proxy/policy.service.ts:11-57 | A malicious url is blocked exactly if the file scan is not merely suspicious: the file scan is asked first and then decides WARN. |
| `Policy.SuspiciousFileSoftensTheBlock` | apps/gateway-backend/src/modules/proxy/policy.service.ts:15-20 | A concrete malicious url that only gets a warning because of a suspicious file. |
| `BypassTokens.SingleUse` | apps/gateway-backend/src/modules/proxy/bypass-token.service.ts:37-71 | In every run with a clock that does not go back, a token id is accepted at most once, although consumed ids are purged. |
| `BypassTokens.AcceptedWasSigned` | apps/gateway-backend/src/modules/proxy/bypass-token.service.ts:21-71 | An accepted token was signed earlier for the same user, session and url, less than its lifetime ago. |
| `BypassTokens.AcceptedIffDeserved` | apps/gateway-backend/src/modules/proxy/bypass-token.service.ts:21-71 | In every run a presentation is accepted exactly if an earlier event signed its token for the same user, session and url, no acceptance of the id came since, and its second is less than the setting in minutes after that of the signing. |
| `BypassTokens.PurgeNeverChangesAnAnswer` | apps/gateway-backend/src/modules/proxy/bypass-token.service.ts:37-80 | The purged table answers like a set that never forgets an id; whole-second `exp` as in section 4.1.4 of RFC 7519. |
| `BypassTokens.RunKeepsInv` | apps/gateway-backend/src/modules/proxy/bypass-token.service.ts:21-80 | In every run an id is missing from the table only if its token has expired. |
| `BypassTokens.BypassTokenService.Sign` | apps/gateway-backend/src/modules/proxy/bypass-token.service.ts:21-35 | Adds one issued token with the caller's user, session and url and an expiry of the setting in minutes after the current second, and changes nothing else. |
| `BypassTokens.BypassTokenService.VerifyAndConsume` | apps/gateway-backend/src/modules/proxy/bypass-token.service.ts:37-71 | True exactly if all claims fit and the id was never accepted before; then the id is spent. |
| `BypassTokens.BypassTokenService.PurgeConsumedIds` | apps/gateway-backend/src/modules/proxy/bypass-token.service.ts:73-80 | The in-place loop removes exactly the entries whose time has come. |
| `ThreatScanCache.CachedAnswersAreFreshScans` | apps/gateway-backend/src/modules/proxy/threat-scan-cache.service.ts:14-43 | In every interleaving a cached answer is what a real scan of that same url returned less than one lifetime earlier, never a stand-in. |
| `ThreatScanCache.AnswerIsTheLastFreshScan` | apps/gateway-backend/src/modules/proxy/threat-scan-cache.service.ts:14-43 | In every run the cache answers a result exactly if the last real scan of the url gave it less than one lifetime ago. |
| `ThreatScanCache.PurgeNeverChangesAnAnswer` | apps/gateway-backend/src/modules/proxy/threat-scan-cache.service.ts:14-43 | The purging table answers like a search through the full history with an age check. |
| `ThreatScanCache.ThreatScanCacheService.Get` | apps/gateway-backend/src/modules/proxy/threat-scan-cache.service.ts:14-27 | Answers like the full history; leaves the table as the state machine says. |
| `ThreatScanCache.ThreatScanCacheService.Set` | apps/gateway-backend/src/modules/proxy/threat-scan-cache.service.ts:29-34 | Stores one result; asked again at once, the cache answers it. |
| `ThreatScanCache.ThreatScanCacheService.PurgeExpiredEntries` | apps/gateway-backend/src/modules/proxy/threat-scan-cache.service.ts:36-43 | The in-place loop removes exactly the expired entries. |
| `RateLimit.FailuresPerInterval` | apps/gateway-backend/src/modules/proxy/proxy-rate-limit.service.ts:13-53 | Without a success of the key, any closed interval as long as the window holds at most 2(L-1+P)-1 recorded failures, P attempts being under way at once; with P = 1 that is 2L-1. |
| `RateLimit.FailuresPerIntervalIsTight` | apps/gateway-backend/src/modules/proxy/proxy-rate-limit.service.ts:13-53 | For every limit, every window of at least a millisecond and every number of attempts under way, some possible run without a success reaches the bound exactly. |
| `RateLimit.NoWindowOverflows` | apps/gateway-backend/src/modules/proxy/proxy-auth.service.ts:86-130 | With at most P attempts of a key between check and record, no window ever counts more than L-1+P. |
| `RateLimit.PruningNeverChangesAnAnswer` | apps/gateway-backend/src/modules/proxy/proxy-rate-limit.service.ts:27-53 | Removing expired windows never changes whether a key is blocked. |
| `RateLimit.BlockedIffFilled` | apps/gateway-backend/src/modules/proxy/proxy-rate-limit.service.ts:13-53 | In every run an attempt is turned away exactly if some failure opened a window that still lasts, the key failed at least limit times since, and no success came in between, all read off the events. |
| `RateLimit.ProxyRateLimitService.IsBlocked` | apps/gateway-backend/src/modules/proxy/proxy-rate-limit.service.ts:13-25 | Blocked exactly by a live window that reached the limit; an expired window of the key is dropped. |
| `RateLimit.ProxyRateLimitService.RecordFailure` | apps/gateway-backend/src/modules/proxy/proxy-rate-limit.service.ts:27-37 | Prunes, then counts one failure in the live window or opens a new one. |
| `RateLimit.ProxyRateLimitService.PruneExpired` | apps/gateway-backend/src/modules/proxy/proxy-rate-limit.service.ts:47-53 | The in-place loop removes exactly the expired windows. |
| `RateLimit.ProxyAuthService.BeginAttempt` | apps/gateway-backend/src/modules/proxy/proxy-auth.service.ts:82-92 | Admits exactly the keys that an unpruned table would not block. |
| `RateLimit.ProxyAuthService.EndAttempt` | apps/gateway-backend/src/modules/proxy/proxy-auth.service.ts:93-140 | Logged in exactly with a known user, a right password, a session and an accepted device; InvalidCredentials exactly without user or right password, and then one more failure in the live window or the first of a new one; a success takes the window away, and the session errors change nothing. |
| `RateLimit.ProxyAuthService.AuthenticateWithBasicCredentials` | apps/gateway-backend/src/modules/proxy/proxy-auth.service.ts:82-140 | One undisturbed attempt: RateLimited exactly if the key's window lasts and is full, whatever the password; else InvalidCredentials exactly for an unknown user or wrong password, with one more failure; else the session errors or the user. |
| `VaultState.EveryRowDecrypts` | apps/gateway-backend/src/modules/vault/vault.service.ts:44-206 | In every interleaving of unlock, lock, create, update and delete, each stored row decrypts, under the key of its owner's password and salt, to the password stored last. |
| `VaultState.UnlockedOwnersCanRead` | apps/gateway-backend/src/modules/vault/vault.service.ts:110-143 | Whoever is unlocked reads the password stored last with the cached key. |
| `VaultState.RunKeepsInv` | apps/gateway-backend/src/modules/vault/vault.service.ts:44-206 | Every reachable state keeps cached keys right and every encryption readable. |
| `VaultState.WrittenIsLastWritten` | apps/gateway-backend/src/modules/vault/vault.service.ts:145-201 | The value kept for a row is the last one the events stored; an update without password leaves it. |
| `VaultState.NamesAreLastGiven` | apps/gateway-backend/src/modules/vault/vault.service.ts:145-201 | In every run the service name and the username of a row are the last ones that its insert and its updates gave. |
| `VaultState.RowsAreTheInsertedOnes` | apps/gateway-backend/src/modules/vault/vault.service.ts:145-206 | After every run a user has exactly the rows inserted for that user and not deleted since. |
| `VaultState.UnlockedExactly` | apps/gateway-backend/src/modules/vault/vault.service.ts:44-99 | After every run exactly the users are unlocked who unlocked with a verified password and did not lock since. |
| `VaultKeyCache.VaultKeyCacheService.ClearKey` | apps/gateway-backend/src/modules/vault/vault-key-cache.service.ts:20-26 | Zeroes the buffer in place before letting it go; other buffers and users keep theirs. |
| `VaultKeyCache.VaultKeyCacheService.SetKey` | apps/gateway-backend/src/modules/vault/vault-key-cache.service.ts:11-14 | Zeroes and retires the old buffer, then stores the new one unchanged; buffers stay pairwise distinct and retired ones zero. |
| `Vault.VaultService.Unlock` | apps/gateway-backend/src/modules/vault/vault.service.ts:44-90 | Succeeds exactly for a known user with a verified password; then the derived key is in the cache, in a fresh buffer. |
| `Vault.VaultService.Lock` | apps/gateway-backend/src/modules/vault/vault.service.ts:92-99 | Takes the key away and leaves every row readable after the next unlock. |
| `Vault.VaultService.GetCredential` | apps/gateway-backend/src/modules/vault/vault.service.ts:110-143 | Not found before locked, and otherwise exactly the password stored last; decryption never fails. |
| `Vault.VaultService.CreateCredential` | apps/gateway-backend/src/modules/vault/vault.service.ts:145-164 | Locked or one new row with trimmed names that reads back as the given password; all other rows stay. |
| `Vault.VaultService.UpdateCredential` | apps/gateway-backend/src/modules/vault/vault.service.ts:166-201 | Not found before locked; a service name or username that is given is stored trimmed under its own field, the others stay, the owner stays, and without a password the stored encryption stays. |
| `Vault.VaultService.DeleteCredential` | apps/gateway-backend/src/modules/vault/vault.service.ts:203-206 | Removes exactly an owned row. |
| `Vault.VaultService.DecryptRow` | apps/gateway-backend/src/modules/vault/crypto.service.ts:39-57 | Decrypts a row found earlier, even if the vault was locked and unlocked since. |
| `Vault.VaultService.DeriveVaultKey` | apps/gateway-backend/src/modules/vault/crypto.service.ts:14-28 | A fresh buffer with the derived bytes. |
| `RandomInt.SecureRandomInt` | apps/dashboard-frontend/src/app/features/vault/utils/password-generator.util.ts:37-52 | An error exactly for a bound below one; else the first word below the limit, reduced modulo the bound; terminates for a device that keeps delivering low words. |
| `RandomInt.SamplingIsUniform` | apps/dashboard-frontend/src/app/features/vault/utils/password-generator.util.ts:42-51 | Each value below the bound comes from exactly floor(2^32/max) accepted words. |
| `RandomInt.MoreThanHalfIsKept` | apps/dashboard-frontend/src/app/features/vault/utils/password-generator.util.ts:42-49 | More than half of all words are accepted for every bound up to 2^32. |
| `RandomInt.SomeWordIsKept` | apps/dashboard-frontend/src/app/features/vault/utils/password-generator.util.ts:42-49 | A word can be accepted at all exactly if the bound is at most 2^32. |
| `RandomInt.DrawnIsDetermined` | apps/dashboard-frontend/src/app/features/vault/utils/password-generator.util.ts:37-52 | The values drawn are a function of the words of the device. |
| `Shuffle.ShuffleInPlace` | apps/dashboard-frontend/src/app/features/vault/utils/password-generator.util.ts:54-61 | The in-place loop applies choices c_i in 0..i drawn by rejection sampling. |
| `Shuffle.ShuffleIsBijection` | apps/dashboard-frontend/src/app/features/vault/utils/password-generator.util.ts:54-61 | For distinct items, each permutation is the outcome of exactly one list of choices. |
| `Shuffle.EveryPermutationIsReached` | apps/dashboard-frontend/src/app/features/vault/utils/password-generator.util.ts:54-61 | Every rearrangement, with or without repeated items, is reached. |
| `Shuffle.ShufflePermutes` | apps/dashboard-frontend/src/app/features/vault/utils/password-generator.util.ts:54-61 | Whatever is chosen, the shuffle only reorders. |
| `PasswordGenerator.GenerateVaultPassword` | apps/dashboard-frontend/src/app/features/vault/utils/password-generator.util.ts:17-30 | Always a password of sixteen characters with one from each of the four sets, determined by thirty-one draws. |
| `PasswordGenerator.CharsetsAreClasses` | apps/dashboard-frontend/src/app/features/vault/utils/password-generator.util.ts:1-15 | The sets are the upper case letters, the lower case letters, the digits and twenty-six symbols, and together the alphabet of 88. |
| `PasswordGenerator.GeneratedExactlyTheVaultPasswords` | apps/dashboard-frontend/src/app/features/vault/utils/password-generator.util.ts:1-30 | The possible passwords are exactly those that keep the promise. |
| `PasswordGenerator.PickRandomChar` | apps/dashboard-frontend/src/app/features/vault/utils/password-generator.util.ts:32-35 | A character of the set, at the drawn index. |
| `Baseline.Accumulate` | apps/gateway-backend/src/modules/ueba/baseline.service.ts:127-178 | The single loop ends with each of its fourteen totals as if computed alone: maps by filtering and counting, plain objects by the same with their inherited names, sets, sums and maxima. |
| `Baseline.CountIsFilterAndCount` | apps/gateway-backend/src/modules/ueba/baseline.service.ts:151-152 | A count in a map is the number of logs with that key, and a key is in the map exactly if that number is positive. |
| `Baseline.CountsPerHourAndDay` | apps/gateway-backend/src/modules/ueba/baseline.service.ts:147-170 | Requests per UTC hour, and requests, blocks and downloads per UTC day, each as the number of logs that pass one test on time stamp, decision and url. |
| `Baseline.UploadsAndLocalHours` | apps/gateway-backend/src/modules/ueba/baseline.service.ts:143-170 | Uploads are the requests that post or put, and each local hour counts the requests of that hour. |
| `Baseline.TableEntryIsCount` | apps/gateway-backend/src/modules/ueba/utils/baseline-stats.util.ts:33-38 | Under a name that was counted, a plain object holds the number of logs with that name exactly if no object inherits the name. |
| `PlainObjects.TabulatedOneMore` | apps/gateway-backend/src/modules/ueba/utils/baseline-stats.util.ts:33-38 | Incrementing as the code does takes the table of some names to the table of one name more, inherited names included. |
| `PlainObjects.TableIsRight` | apps/gateway-backend/src/modules/ueba/utils/baseline-stats.util.ts:33-38 | A counted table is the histogram exactly if no counted name is inherited, and all numbers exactly if none is an inherited function. |
| `PlainObjects.SumIsRight` | apps/gateway-backend/src/modules/ueba/utils/baseline-stats.util.ts:33-38 | The numbers of a counted table add up to the number of things counted exactly if none has an inherited name. |
| `Baseline.HostCountsAreRight` | apps/gateway-backend/src/modules/ueba/baseline.service.ts:134-154 | The host counts are numbers, agree with filtering and counting, and add up to the number of logs, exactly if no log went to a host with an inherited name. |
| `Baseline.InheritedHostsAreMiscounted` | apps/gateway-backend/src/modules/ueba/baseline.service.ts:134-154 | One request to the host toString leaves a text where its count should be, one to __proto__ leaves no entry. |
| `Baseline.HistogramsConserve` | apps/gateway-backend/src/modules/ueba/baseline.service.ts:150-152 | Hours, days and hours of days each add up to the number of logs. |
| `Baseline.TablesConserve` | apps/gateway-backend/src/modules/ueba/baseline.service.ts:154-158 | Hosts, decisions, verdicts, methods and ports each add up to the number of logs exactly if none of their names is inherited. |
| `Baseline.BlocksAddUp` | apps/gateway-backend/src/modules/ueba/baseline.service.ts:155-162 | The blocks of all days add up to the count of the decision BLOCK, whatever else was counted. |
| `Baseline.HostsAtMostRequests` | apps/gateway-backend/src/modules/ueba/baseline.service.ts:172-174 | The days with hosts are the days with requests, and a day has no more hosts than requests. |
| `Histograms.HistogramConserves` | apps/gateway-backend/src/modules/ueba/baseline.service.ts:151-152 | The counts of any map histogram add up to the number of things counted. |
| `Snapshot.ComputeSnapshot` | apps/gateway-backend/src/modules/ueba/baseline.service.ts:122-262 | Averages are, to the nearest hundredth, the number of logs over the active hours and over the hours of the window, in that order; the most active hours are those with a twentieth of the requests, by falling count, twenty at most; the known hosts are all hosts but __proto__ while there is room, and the busiest when no name is inherited. |
| `Snapshot.SnapshotHours` | apps/gateway-backend/src/modules/ueba/baseline.service.ts:206-225 | For the snapshot of any logs, averages in order and the most active hours characterised. |
| `Snapshot.AveragesOfLogs` | apps/gateway-backend/src/modules/ueba/baseline.service.ts:189-225 | Zero filling keeps the sum, which is the number of logs, so both averages divide that number, by the active hours and by all hours of the window. |
| `Snapshot.RoundIsNearestHundredth` | apps/gateway-backend/src/modules/ueba/utils/baseline-stats.util.ts:1-4 | Rounding gives the nearest hundredth, halves upward, and is the only number that does. |
| `Snapshot.AtMostTwentyActiveHours` | apps/gateway-backend/src/modules/ueba/baseline.service.ts:206-210 | At most twenty hours hold a twentieth of a total that is not zero. |
| `Snapshot.MostActiveHoursAreBusy` | apps/gateway-backend/src/modules/ueba/baseline.service.ts:206-210 | An hour is most active exactly if it has its twentieth of the requests; sorting loses none. |
| `Entries.StableSortSorts` | apps/gateway-backend/src/modules/ueba/baseline.service.ts:196-210 | Sorting numbers puts them in falling order. |
| `Entries.StableSortKeepsAll` | apps/gateway-backend/src/modules/ueba/baseline.service.ts:196-210 | Sorting loses and adds no entry. |
| `KnownHosts.KnownHostsAreTheHosts` | apps/gateway-backend/src/modules/ueba/baseline.service.ts:201-204 | While there is room, whatever order the platform comes up with, the known hosts are the hosts of the logs but __proto__. |
| `KnownHosts.AllHostsKnownWithoutProto` | apps/gateway-backend/src/modules/ueba/baseline.service.ts:201-204 | While there is room the known hosts are all hosts of the logs exactly if __proto__ is not among these. |
| `KnownHosts.KnownHostsAreTheBusiest` | apps/gateway-backend/src/modules/ueba/baseline.service.ts:201-204 | When there is none and no name is inherited, no unknown host has more requests than a known one. |
| `KnownHosts.RankingIsRightWithoutInheritedNames` | apps/gateway-backend/src/modules/ueba/baseline.service.ts:201-204 | For all traffic to some hosts and every number of hosts to keep, the busiest are kept exactly if none of the hosts has an inherited name or there is no other host. |
| `Anomaly.OffHoursAreTheOtherHours` | apps/gateway-backend/src/modules/ueba/anomaly.service.ts:143-155 | For the snapshot of any logs, off hours are exactly the hours that are not most active. |
| `Anomaly.SpikeIsAMatterOfTheCount` | apps/gateway-backend/src/modules/ueba/anomaly.service.ts:128-141 | For the snapshot of any logs the guard against a zero average never bites, and a spike exceeds the multiplier. |
| `Anomaly.NewHostsAreTheOtherHosts` | apps/gateway-backend/src/modules/ueba/anomaly.service.ts:119-126 | While there is room for all hosts, a host not seen lately is new exactly if the logs never went there, or if it is __proto__. |
| `Anomaly.ScoreTrafficEvent` | apps/gateway-backend/src/modules/ueba/anomaly.service.ts:83-117 | Each signal exactly if its test holds, more than three recent blocks and an average risk above seventy among them; the score is the sum of 30, 25, 20, 15 and 25 for the signals shown, cut at 100; the severity is high exactly with four signals. |
| `RiskTrend.PeriodAverageIsClose` | apps/dashboard-frontend/src/app/store/behavior/behavior.selectors.ts:56-74 | The client's average of rounded daily averages is within one tenth of the true mean of all scores. |
| `RiskTrend.PeriodCountIsExact` | apps/gateway-backend/src/modules/ueba/ueba-analytics.service.ts:130-150 | The daily counts add up to the number of rows. |
| `RiskTrend.TrendPoints` | apps/gateway-backend/src/modules/ueba/ueba-analytics.service.ts:130-150 | Exactly the days with traffic, in strictly ascending order, with their positive counts. |
| `RiskTrend.PointsShowDailyMeans` | apps/gateway-backend/src/modules/ueba/ueba-analytics.service.ts:130-178 | Each point shows the mean score of its day to the nearest tenth. |
| `RiskTrend.DaysHoldTheirRecords` | apps/gateway-backend/src/modules/ueba/ueba-analytics.service.ts:136-138 | Every record falls into the UTC day of some point. |
| `RiskTrend.PeriodAverageIsNearestTenth` | apps/dashboard-frontend/src/app/store/behavior/behavior.selectors.ts:56-74 | The client shows the request-weighted mean of the points to the nearest tenth. |
| `RiskTrend.BuildRiskTrend` | apps/gateway-backend/src/modules/ueba/ueba-analytics.service.ts:130-150 | The bucket loop computes the trend defined day by day. |
| `RiskTrend.SelectPeriodAverageRisk` | apps/dashboard-frontend/src/app/store/behavior/behavior.selectors.ts:56-74 | The loop computes the rounded weighted average. |
| `RiskTrend.EmptyPeriod` | apps/dashboard-frontend/src/app/store/behavior/behavior.selectors.ts:56-74 | No rows give no points and an average of zero. |
| `TrafficStore.TrafficPageShowsNewest` | apps/dashboard-frontend/src/app/store/traffic/traffic.reducer.ts:7-44 | After any stream of inserts, re-deliveries, updates and clears with one time per id and distinct times, the store is exactly the newest min(100, n), newest first, with ids and entities in agreement. |
| `TrafficStore.RunHoldsNewest` | apps/dashboard-frontend/src/app/store/traffic/traffic.reducer.ts:7-44 | At every point of every run, ties between times included, nothing missing is newer than anything resident. |
| `NewestStore.ResidentByRank` | apps/dashboard-frontend/src/app/store/traffic/traffic.reducer.ts:9-30 | With distinct times an item is in the store exactly if fewer than the bound of those that came in are newer. |
| `TrafficStore.ResidentsAreLastDelivered` | apps/dashboard-frontend/src/app/store/traffic/traffic.reducer.ts:19-44 | A resident log is as it was delivered last: by the insertion that brought it in, or by the last update since. |
| `NewestStore.InsertKeepsNewest` | apps/dashboard-frontend/src/app/store/traffic/traffic.reducer.ts:9-30 | Insert-then-trim keeps the newest of everything inserted. |
| `TrafficStore.RunExists` | apps/dashboard-frontend/src/app/store/traffic/traffic.reducer.ts:7-44 | Every list of actions has a run, so the theorems about runs speak of all of them. |
| `LiveStore.TrimView` | apps/dashboard-frontend/src/app/store/traffic/traffic.reducer.ts:9-17 | Trimming keeps the first `max` entries and the agreement of ids and entities. |
| `LiveStore.MergeView` | apps/dashboard-frontend/src/app/store/traffic/traffic.reducer.ts:19-30 | A new entry goes into its place of the order and moves nothing else. |
| `NotificationStore.FlagsAreTheMarks` | apps/dashboard-frontend/src/app/store/notifications/notifications.reducer.ts:21-67 | In every run an entry is read, or dismissed, exactly if it was marked so while in the list without a break; re-delivery takes no flag away. Which entries are in the list is NotificationStore.ListShowsNewest. |
| `NotificationStore.FlagsChangeByMarksOnly` | apps/dashboard-frontend/src/app/store/notifications/notifications.reducer.ts:21-67 | In one step flags change by the user's marks only. |
| `NotificationStore.ListStaysBounded` | apps/dashboard-frontend/src/app/store/notifications/notifications.reducer.ts:7-30 | The list never holds more than its bound, with or without distinct times. |
| `NotificationStore.ListShowsNewest` | apps/dashboard-frontend/src/app/store/notifications/notifications.reducer.ts:7-67 | After any stream of deliveries, re-deliveries, marks and clears with one time per id and distinct times, the list is exactly the newest min(50, n), newest first, with ids and entities in agreement. |
| `NotificationStore.RunHoldsNewest` | apps/dashboard-frontend/src/app/store/notifications/notifications.reducer.ts:7-67 | At every point of every run, ties between times included, nothing missing is newer than anything in the list. |
| `NotificationStore.ContentIsLastSent` | apps/dashboard-frontend/src/app/store/notifications/notifications.reducer.ts:34-67 | In every run an entry has the time and content of the last delivery of its id. |
| `NotificationStore.NewOneComesFirst` | apps/dashboard-frontend/src/app/store/notifications/notifications.reducer.ts:34-43 | A notification that is not in the list and not older than any in it is listed first, with its content, unread and not dismissed. |
| `NotificationStore.RunExists` | apps/dashboard-frontend/src/app/store/notifications/notifications.reducer.ts:7-67 | Every list of actions has a run here too. |
| `Rules.DomainRuleIsLabelSuffix` | apps/gateway-backend/src/modules/rules/utils/rule-matcher.util.ts:37-46 | For all texts, a domain rule matches exactly if the pattern's case-folded labels end the host's labels. |
| `Rules.ParentRuleCoversSubdomainRule` | apps/gateway-backend/src/modules/rules/utils/rule-matcher.util.ts:37-46 | A rule for a parent domain matches all that a rule for its subdomain matches. |
| `Rules.BlockBeatsAllow` | apps/gateway-backend/src/modules/rules/rules.service.ts:93-128 | BLOCK if any enabled block rule matches, else ALLOW if any enabled allow rule does, else nothing. |
| `Rules.DecidedByCoveringRules` | apps/gateway-backend/src/modules/rules/rules.service.ts:93-144 | BLOCK exactly if some enabled block rule of the user covers the host by labels, or names the host or its address; ALLOW exactly if none does and some enabled allow rule covers. |
| `Rules.AddressRuleBlocksEveryName` | apps/gateway-backend/src/modules/rules/utils/rule-matcher.util.ts:48-60 | A block rule whose trimmed pattern is the resolved address blocks the host under any name. |
| `Rules.ReportsARuleOfTheUser` | apps/gateway-backend/src/modules/rules/rules.service.ts:93-128 | What is reported are the id, name, type, pattern and action of one of the user's enabled rules that matches. |
| `Rules.DecisionIgnoresRuleOrder` | apps/gateway-backend/src/modules/rules/rules.service.ts:93-128 | The decision does not depend on the order of the rules. |
| `Rules.LazyResolutionIsInvisible` | apps/gateway-backend/src/modules/rules/rules.service.ts:130-144 | Resolving the address only when an IP rule exists decides as always resolving it. |
| `Rules.FindRuleFindsFirst` | apps/gateway-backend/src/modules/rules/rules.service.ts:111-125 | The search finds the first matching rule and fails only if there is none. |
| `DomainLabels.LabelsSplitAtDots` | apps/gateway-backend/src/modules/rules/utils/rule-matcher.util.ts:37-46 | Joining the labels of a name with dots gives the name back, and no label has a dot. |
| `Html.DecodeUndoesEscape` | apps/gateway-backend/src/modules/proxy/utils/html-escape.util.ts:1-11 | Decoding the five entities undoes escaping on every text. |
| `Html.RenderFillsPieces` | apps/gateway-backend/src/modules/proxy/utils/template-render.util.ts:9-17 | The page is the template's pieces in order, each marker filled once with its escaped value; rendering throws at the first marker with an inherited name that was not given. |
| `Html.PageComesOut` | apps/gateway-backend/src/modules/proxy/utils/template-render.util.ts:13-16 | A page comes out exactly if every marker's name was given or is not inherited. |
| `Html.MarkerShowsItsValue` | apps/gateway-backend/src/modules/proxy/utils/template-render.util.ts:13-16 | A marker becomes a text that decodes to exactly the value given, an absent name leaves nothing, and an absent inherited one throws. |
| `Html.PiecesAreParsed` | apps/gateway-backend/src/modules/proxy/utils/template-render.util.ts:13-16 | Every template has a split into literals and markers. |
| `Html.PiecesAreUnique` | apps/gateway-backend/src/modules/proxy/utils/template-render.util.ts:13-16 | That split is the only one. |
| `Html.PageMarkupIsTemplateMarkup` | apps/gateway-backend/src/modules/proxy/utils/template-render.util.ts:9-17 | The tags and quotes of every page that comes out are those of the template, for all variables. |
| `Ipv4.TextTestsAreRangeTests` | apps/gateway-backend/src/modules/proxy/utils/url.util.ts:50-72 | On every dotted quad the text tests hold exactly if the 32-bit address is in 0.0.0.0/32, 127/8, 10/8, 172.16/12, 192.168/16 (section 3 of RFC 1918) or 169.254/16 (section 2.1 of RFC 3927). |
| `Ipv4.BlockedIpv4Hosts` | apps/gateway-backend/src/modules/proxy/utils/url.util.ts:21-48 | A host that is a dotted quad, bracketed or not, is blocked exactly if its address is in such a block. |
| `Ipv4.LocalhostIsBlocked` | apps/gateway-backend/src/modules/proxy/utils/url.util.ts:21-26 | The name localhost is blocked, bracketed or not, whatever the other tests say. |
| `Ipv4.BlockedNames` | apps/gateway-backend/src/modules/proxy/utils/url.util.ts:21-37 | Any other host that is no dotted quad is left to the test of other texts. |
| `ChartAxis.BuildTimeChartYAxisTicks` | apps/dashboard-frontend/src/app/core/utils/analytics-chart.util.ts:150-164 | For every positive maximum three to five equally spaced ticks from zero, the last at least the maximum and less than one step above it; the loop ends. |
| `ChartAxis.TimeChartYAxisCeiling` | apps/dashboard-frontend/src/app/core/utils/analytics-chart.util.ts:145-148 | The top of the axis covers the maximum by less than one step. |
| `ChartAxis.StepIsLeastNice` | apps/dashboard-frontend/src/app/core/utils/analytics-chart.util.ts:123-142 | The step is the smallest of 1, 2, 5 or 10 times a power of ten that is not below the rough step. |
| `ChartAxis.StepBounds` | apps/dashboard-frontend/src/app/core/utils/analytics-chart.util.ts:123-142 | The step is at least the rough step and less than 2.5 times it. |
| `Polling.PollAnalysisResult` | apps/gateway-backend/src/modules/threat/providers/virustotal.provider.ts:118-161 | At most ceil(T/I) polls, no sleep past the deadline, and the answer of the first decisive reply or a timeout if there is none: a result exactly for a completed reply, malicious with score 90 by any malicious count, else suspicious with 60 by any suspicious one, else safe with 10. |
| `Polling.ScanWithProvider` | apps/gateway-backend/src/modules/threat/providers/virustotal.provider.ts:55-116 | Look-up, submission and polling with their errors; a report found is answered with the verdict and score of its own counts, or unverified with 40 without counts; polls only for a url without a report, with the bound for the whole timeout. |

## Left out

- Rendering details, headers, status texts and security-event messages of the proxy: they do not influence decisions.
- Forwarding and tunnelling themselves: a forward is one effect, and its failure is an event that shows an error page.
- The failure of a traffic record's write after it was started: the code neither waits for it nor reacts to it.
- Database queries: rows are maps or lists, and the filters that the code passes to them are modelled.
- Users are registered before a run starts; the code has no change of password or salt.
- RandomInt.SecureRandomInt: bounds above 2^32 are excluded by a precondition, because the loop of the code does not end for them (RandomInt.SomeWordIsKept).
- RandomInt.SecureRandomInt: that the device delivers low words again and again is assumed of every run; the code relies on chance for it.
- Snapshot.ComputeSnapshot: holds the fields the scorer reads; standard deviations, the median of hosts per day, upload share, the list of top hosts, sessions and browsers are not part of it.
- Snapshot.ComputeSnapshot: hosts with equal counts keep the order of their first request; the platform lists integer-like names of an object first, which, as long as all counts are numbers, only moves hosts with equal counts.
- PlainObjects.TableIsRight: inherited names are those of `Object.prototype` as the platform ships it, and built-in functions read as texts the way V8 prints them.
- Anomaly.ScoreTrafficEvent: the counts and averages that the scorer queries for an event are inputs, and the share of an hour is compared exactly, without rounding of binary fractions.
- RiskTrend.PeriodAverageIsClose: with exact daily fractions; the rounding of binary fractions is not modelled.
- ChartAxis.BuildTimeChartYAxisTicks: the logarithm is exact, and ticks are not rounded to binary fractions.
- Ipv4.BlockedIpv4Hosts: says nothing about IPv6 texts, whose test looks at the first non-empty part only; that branch is a parameter.
- Polling.PollAnalysisResult: the clock advances at least as far as each requested sleep.
- The anomaly timeline of the analytics, the security-events reducer and the alert cooldown of the listener: the first two have the shape of code that is modelled, the last is separated from its update by a wait and promises nothing over interleaved events.
- The list of credentials, the vault status, and the removal of the bypass parameter from a url: they read or rewrite one value.
- NotificationStore.ListShowsNewest: marking all as read changes the entries in place; the adapter takes them out and merges them again, which keeps the order of a sorted list because its sort is stable.
- Ids of logs and notifications that are inherited names of an object: ids are those of database rows.
- Controllers, guards, the web socket gateway, session rows, DNS, and all user interface code.
