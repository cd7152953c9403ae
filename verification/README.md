# Verified model of the LiderAhenk test platform

This project models the stateful parts of the LiderAhenk test platform and proves what they promise over whole runs. One
module stands for each source component; three more hold shared ground, and three say what a run leaves on disk or in the
directory value by value, without the functions that write it.

| module | models |
|---|---|
| `Text`, `Json`, `Directory` | string helpers; JSON values; an LDAP directory with the operations and result codes of sections 4.6 to 4.9 of RFC 4511 |
| `Registration` | the six registration inventories, the verdict on a snapshot, the per-agent states |
| `Evidence`, `Consistency` | the independent validator of a run's artifact bundle; what it accepts and at what it raises, value by value |
| `Artifacts`, `Orchestrator`, `RunLog` | what an attempt writes; the polling loop, as a machine over ticks and as an object that refines it; the log and the documents of any run |
| `PresenceIndex`, `PresenceCache` | the presence provider's index of connected users; its cache under interleaved callers |
| `Migration`, `Whereabouts` | the legacy group migration on a server that may refuse; where it takes each entry |
| `GroupSeeding`, `Provisioner`, `SeededDirectory` | round-robin groups; the whole provisioning run; every seeded entry after it |
| `LiderApi`, `PolicyRoundtrip`, `UserGroupRoundtrip` | the management server as an abstract state; the two create, execute and clean-up roundtrips |
| `Bootstrap`, `Gate` | the phased bootstrap; the consecutive-success gate |
| `GoldenBaseline` | capture and validation of the golden baseline |
| `Reconciler`, `AgentListing`, `EndToEnd` | LDAP reconciliation; the one-page agent list; everything together |

## Main results

- **Writer and validator.** After every completed write of every run the validator is satisfied if and only if the
  latest verdict fails or the connected ids are the directory's ids. A pass on counts alone, with a stranger connected,
  is the one thing the two sides disagree about. It needs a dashboard and a session list that saw different sessions
  (`Registration.PassWithAStrangerConnected`); over one view of the sessions it cannot happen
  (`EndToEnd.OneViewLeavesNoStranger`).
- **The log of a run.** After any ticks of any run the log on disk says settle, with failures, up to at most one passing
  line or one timeout line repeating its number, then steady-state; a line blames the time-out exactly if it says timeout
  and fail, and names exactly the checks that fail (`RunLog.LogOfEveryRun`, `RunLog.LineInWords`).
- **Polling.** Whatever the collections answer, settling ends if the backoff is at least a second or collections take any
  time; every time remaining is the deadline less a clock reading, every sleep is the doubling delay clipped to it, and
  no timeout is reported before the deadline.
- **Migration.** Something is lost if and only if the run completes although the legacy root, lying directly below the new
  root, has a group with its own name: that group counts as a duplicate of the legacy root, and both are deleted
  (`Migration.TwinIsLost`). Whether a run completes is decided by the server's refusals and the directory before it, and
  on a willing server by that directory alone (`Migration.WillingLossIff`).
- **Provisioning.** A run that exits normally has applied every seed, whatever else was refused, if the server has not
  called an entry existing that does not; the groups then have exactly the seeded members
  (`SeededDirectory.UpsertsOfARun`), and the directory stays a tree (`Provisioner.RunKeepsTheTree`).
- **Bootstrap.** A later phase starts only after one of the polls of the phase before it saw that phase satisfied; a job
  waited for has then exited with 0 (`Bootstrap.CompletedMeansExitedWithZero`).
- **Roundtrips.** Which calls a roundtrip makes is decided, one by one, by the replies to the calls before; the tree is
  asked for a fallback group exactly after the answers 406 and 417, respectively 417, and what was made is taken back.
- **Verification of a provisioning run.** It is not exactly "no foreign devices": the run also verifies when as many
  generated names are taken by other entries as there are foreign devices
  (`Provisioner.VerificationCanBeBalanced`), and the migration may move devices under or from the agent root. The exact
  condition is proved for every configuration, from where the migration takes each entry (`Whereabouts`).
- **Golden baseline.** Later validation compares the bytes exactly while the manifest is an object; an array in its place
  is accepted and pins nothing (`GoldenBaseline.BytesAreComparedIff`, `ArrayForAManifest`).
- **Presence cache.** For any interleaving of any threads, every nonempty answer is justified by a fetch that is recent
  enough. The clock need not be monotone for this.
- **End to end.** For 1 to 100 agents, provisioning, reconciliation and connection give a passing verdict with every agent
  domain-ready; beyond 100 no snapshot passes.

Contract constants (field lists, states, phases, failure classes, baseline paths) are those of the files under
`platform/contracts/`.

## Model

| member | source | states |
|---|---|---|
| Registration.CleanJids | platform_runtime/registration.py:25-41 | a full JID normalises to the agent's name |
| Registration.HostNames | platform_runtime/registration.py:39-41 | a host name normalises to the agent's name |
| Registration.DistinguishedNames | platform_runtime/registration.py:35-38 | a distinguished name normalises to the value of its first RDN |
| Registration.FirstIdentityIsTheFirst | platform_runtime/registration.py:67-106 | the id of a row is that of its first field naming an agent; a row without one has none |
| Registration.TreeIdsAreTheAgentsInTheForest | platform_runtime/registration.py:44-64 | an id is collected exactly when an agent node anywhere in the tree bears it |
| Registration.FlattenTreeAgentIds | platform_runtime/registration.py:44-64 | the walk returns those ids sorted and without duplicates |
| Registration.CollectedIds | platform_runtime/registration.py:130-197 | which ids each of the six lists of a snapshot holds, the server account left out of the two XMPP lists |
| Registration.NoFailedChecksMeansAligned | platform_runtime/registration.py:216-241 | no check fails exactly when five inventories are identical and every count is the expected one |
| Registration.PassMeansAligned | platform_runtime/registration.py:231-259 | a verdict passes exactly when no collection failed and the inventories are aligned |
| Registration.TaxonomyOfVerdict | platform_runtime/registration.py:231-257 | when each of the three failure classes is reported |
| Registration.BuildPerAgentState | platform_runtime/registration.py:287-331 | the loop builds one entry for each id of any inventory, in order |
| Registration.HighestStateIsDomainReady | platform_runtime/registration.py:297-330 | the highest state is domain_ready exactly for ids in all six lists, and missing exactly for ids only the tree knows |
| Registration.ExpectedAgentsAreDomainReady | platform_runtime/registration.py:302-330 | in a passing verdict exactly the expected number of agents is domain-ready if and only if the connected ids are the directory's |
| Registration.PerAgentCountOfPass | platform_runtime/registration.py:297-331 | in a passing verdict the report has one entry per expected agent if and only if the connected ids are the directory's |
| Registration.ConnectedWithinRegistered | platform_runtime/registration.py:219-225 | connected ids among the registered ones leave no room for a stranger |
| Registration.PassWithAStrangerConnected | platform_runtime/registration.py:219 | an input that passes although the connected agent is another one: dashboard and session list saw different sessions |
| Registration.SeparatedNames | platform_runtime/registration.py:31-34 | what follows the first at sign or slash is dropped |
| Registration.SurroundingSpace | platform_runtime/registration.py:28-30 | whitespace around a text makes no difference, and whitespace alone names nobody |
| Registration.NamesWithCommas | platform_runtime/registration.py:35-40 | text with commas but no equals sign before the first one is kept whole, but for the host ending |
| Registration.DeviceIsKnownBy | platform_runtime/registration.py:67-106 | a device is known by its first common name, else its first uid, else its distinguished name |
| Registration.RowsAreKnownBy | platform_runtime/registration.py:67-106 | the order in which the fields of a listed agent and of a table row are tried |
| Registration.NodeInWords | platform_runtime/registration.py:44-64 | which nodes of the tree are agents, what they are called and what is below them |
| Registration.FailedChecksInWords | platform_runtime/registration.py:216-241 | each of the twelve checks fails exactly when its two lists or counts differ |
| Registration.EvaluationInWords | platform_runtime/registration.py:231-272 | the failed checks are those that fail, once each and in the order of the twelve; the findings are the exception, then all failed checks under the class the time-out decides; a pass has none |
| Registration.StatesInWords | platform_runtime/registration.py:297-330 | each of the six states is reached exactly by the ids of its list, and the highest is the last one reached |
| Evidence.LoadEvents | platform_runtime/registration_evidence.py:42-60 | the log loads without complaint exactly when it is absent, or nonempty with an object on every line |
| Evidence.ValidatePerAgentEntry | platform_runtime/registration_evidence.py:126-151 | raises exactly at a highest state that is an array or an object; otherwise no complaint exactly for an entry with the contract's states, all boolean, whose highest state is true or missing |
| Evidence.ValidatePerAgentStates | platform_runtime/registration_evidence.py:120-151 | raises exactly if an entry makes it raise; otherwise no complaint exactly when every entry is well formed |
| Evidence.CheckVerdict | platform_runtime/registration_evidence.py:202-238 | raises exactly at an unhashable status or entry; otherwise no complaint exactly for a well-shaped verdict whose pass has no failed check, no finding and the right number of entries |
| Evidence.CheckEvents | platform_runtime/registration_evidence.py:269-290 | raises exactly at an event with an unhashable phase or status; otherwise no complaint exactly when every event is well formed, and the last event's attempt and status are returned |
| Evidence.ValidateRegistrationEvidence | platform_runtime/registration_evidence.py:154-314 | a bundle is accepted exactly when it is consistent; the validator raises exactly at a bundle with a status, phase or highest state that is an array or object, or a runtime report whose support or topology cannot be looked into |
| Evidence.ConsistentIsReadable | platform_runtime/registration_evidence.py:63-103 | it raises at no consistent bundle |
| Consistency.FalseValues | platform_runtime/registration_evidence.py:63-70 | the six values that are false to Python |
| Consistency.ConsistentInWords | platform_runtime/registration_evidence.py:154-314 | a bundle is consistent exactly when its documents have, value by value, the required fields, words, numbers, shapes and agreements |
| Consistency.RaisesInWords | platform_runtime/registration_evidence.py:63-314 | the validator raises exactly at an array or object where a word is looked up, or something truthy that is no object where a key is |
| Artifacts.TimeoutIsReportedByTheTimeoutEventOnly | platform/services/registration-orchestrator/orchestrator.py:57-131 | a write blames the timeout exactly when it is a failing timeout event, even if its collection threw |
| Artifacts.LogOfRun | platform/services/registration-orchestrator/orchestrator.py:81-103 | after any writes the log holds one line for each, in order, and other reports are untouched |
| Artifacts.VerdictIsOkIff | platform_runtime/registration_evidence.py:202-238 | the validator objects to a written verdict exactly when it passes with a stranger connected |
| Artifacts.ValidatorAgreesOnEveryRun | platform_runtime/registration_evidence.py:154-314 | after every nonempty sequence of genuine writes the validator is satisfied if and only if the bounds are ordered and the last verdict fails or its connected ids are the directory's |
| Artifacts.ValidatorReadsEveryRun | platform_runtime/registration_evidence.py:63-314 | after any run the validator raises only at a runtime report that was there before |
| Artifacts.ValidatorRejectsAnEmptyRun | platform_runtime/registration_evidence.py:47-49 | before the first write the bundle is rejected |
| Orchestrator.EveryRunIsWellShaped | platform/services/registration-orchestrator/orchestrator.py:105-131 | settle events 1..n of which only the last may pass, then at most one timeout event repeating n, then steady-state events n+1, n+2 and so on |
| Orchestrator.EveryWriteIsGenuine | platform/services/registration-orchestrator/orchestrator.py:57-131 | every write reports its own collection, judged as timed out only in the timeout phase |
| Orchestrator.TimeoutsOfEveryRun | platform/services/registration-orchestrator/orchestrator.py:116-120 | registration_timeout occurs in the timeout event whenever it fails, and nowhere else |
| RunLog.LineInWords | platform/services/registration-orchestrator/orchestrator.py:81-103 | line k on disk has the phase word, number, status, time, failed checks and findings of write k; it blames the time-out exactly if it is a failing timeout line, naming exactly the checks that fail |
| RunLog.TaxonomyIsTold | platform_runtime/registration.py:231-257 | which of the three codes a written taxonomy has, and that its details name exactly the failing checks or the exception |
| RunLog.LogOfEveryRun | platform/services/registration-orchestrator/orchestrator.py:105-131 | the log on disk after any ticks of any run: settle lines 1..n of which only the last may pass, at most one timeout line repeating n, then steady-state lines counting on |
| RunLog.DocumentsInWords | platform/services/registration-orchestrator/orchestrator.py:57-91 | manifest, verdict and summary on disk after a run tell of its last write: status, counts, checks, surfaces and the states of every agent |
| RunLog.EntryIsTold | platform_runtime/registration.py:297-330 | a written per-agent entry marks exactly the states the agent has reached, and the highest of them |
| RunLog.ThrownInWords | platform/services/registration-orchestrator/orchestrator.py:39-63 | a collection that threw is judged by six empty lists and a dashboard without counts |
| Orchestrator.ValidatorAgreesThroughoutARun | platform_runtime/registration_evidence.py:225-231 | the equivalence holds after every prefix of the writes of every run |
| Orchestrator.ValidatorAgreesWithTheOrchestrator | platform/services/registration-orchestrator/orchestrator.py:81-103 | the equivalence holds of the directory an orchestrator object has written |
| Orchestrator.BackoffDoublesUpToTheMaximum | platform/services/registration-orchestrator/orchestrator.py:107-122 | the backoff after k sleeps is min(min*2^k, max) |
| Orchestrator.LastDoublingExists | platform/services/registration-orchestrator/orchestrator.py:122 | with 1 <= min <= max there is a largest j with min*2^j <= max |
| Orchestrator.SleepsAreFew | platform/services/registration-orchestrator/orchestrator.py:116-122 | at most j + ceil(T/max) delays fit before the deadline in full |
| Orchestrator.AttemptsAreFew | platform/services/registration-orchestrator/orchestrator.py:105-122 | a paced run makes at most j + 2 + ceil(T/max) attempts |
| Orchestrator.RegistrationOrchestrator.constructor | platform/services/registration-orchestrator/orchestrator.py:18-37 | a new run has written nothing; its log is empty and its manifest fresh |
| Orchestrator.RegistrationOrchestrator.CollectVerdict | platform/services/registration-orchestrator/orchestrator.py:57-79 | the verdict is that of the collection just made, or of the empty snapshot with the exception's message |
| Orchestrator.RegistrationOrchestrator.WriteArtifacts | platform/services/registration-orchestrator/orchestrator.py:81-103 | one more write is recorded, and the directory is the replay of all writes |
| Orchestrator.RegistrationOrchestrator.SettleRegistration | platform/services/registration-orchestrator/orchestrator.py:105-122 | terminates as a run of the machine whose collections, clock readings and sleeps are all the world saw: each remaining time is the deadline less a reading, each sleep the doubling delay clipped to it, a timeout event only after a reading past the deadline; the sleeps sum to at most the timeout, attempts are bounded |
| Orchestrator.RegistrationOrchestrator.RunForever | platform/services/registration-orchestrator/orchestrator.py:124-131 | settling, then exactly the given number of steady-state rounds, each a collection and the interval's sleep, are a run of the machine |
| Orchestrator.TraceInWords | platform/services/registration-orchestrator/orchestrator.py:105-122 | what settling asks of the world: the clock, then for each attempt that failed in time a collection, a reading before the deadline and a sleep of the doubling delay or the time left, then a last collection that passes, or a reading past the deadline and the collection of the time-out |
| PresenceIndex.FetchOnlineRecipients | services/liderapi/extensions/src/main/java/tr/org/lider/platform/presence/EjabberdAgentPresenceProvider.java:122-136 | the fetch loop builds the index of the payload |
| PresenceIndex.KeysAreLocalParts | services/liderapi/extensions/src/main/java/tr/org/lider/platform/presence/EjabberdAgentPresenceProvider.java:122-176 | the local part of every key is a connected user's, and every connected local part is a key |
| PresenceIndex.OnlineMeansSameLocalPart | services/liderapi/extensions/src/main/java/tr/org/lider/platform/presence/EjabberdAgentPresenceProvider.java:46-71 | without whitespace, the lookup succeeds exactly when a connected JID has the same case-folded local part |
| PresenceIndex.ThirdLookupIsRedundant | services/liderapi/extensions/src/main/java/tr/org/lider/platform/presence/EjabberdAgentPresenceProvider.java:66-70 | the lookup under the server's domain finds nothing the first two do not |
| PresenceIndex.SpaceAroundIsIgnored | services/liderapi/extensions/src/main/java/tr/org/lider/platform/presence/EjabberdAgentPresenceProvider.java:46-159 | whitespace around a reported JID or around the one looked up makes no difference |
| PresenceCache.EveryStateIsSafe | services/liderapi/extensions/src/main/java/tr/org/lider/platform/presence/EjabberdAgentPresenceProvider.java:74-102 | the invariant of every reachable state, for any interleaving |
| PresenceCache.EveryAnswerIsJustified | services/liderapi/extensions/src/main/java/tr/org/lider/platform/presence/EjabberdAgentPresenceProvider.java:74-102 | every nonempty answer was fetched at most 3 s before the call's last clock reading, or 30 s if that call's own fetch failed |
| PresenceCache.CachedAtNeverDecreases | services/liderapi/extensions/src/main/java/tr/org/lider/platform/presence/EjabberdAgentPresenceProvider.java:76-98 | cachedAt stays or grows by more than the freshness limit |
| PresenceCache.FailureKeepsAnUsableCache | services/liderapi/extensions/src/main/java/tr/org/lider/platform/presence/EjabberdAgentPresenceProvider.java:91-99 | a nonempty cache is emptied only by a fetch of nobody, or by a failed fetch that found it more than 30 s old |
| PresenceCache.RefreshIsExclusive | services/liderapi/extensions/src/main/java/tr/org/lider/platform/presence/EjabberdAgentPresenceProvider.java:80-101 | at most one caller is inside the lock |
| PresenceCache.EveryMoveTells | services/liderapi/extensions/src/main/java/tr/org/lider/platform/presence/EjabberdAgentPresenceProvider.java:74-102 | for any interleaving, every answer is the cached set of that moment: at most 3 s old, or the one this call has just fetched and stamped, or after a failed fetch at most 30 s old or empty; only a reply with users is a fetch |
| PresenceCache.EjabberdAgentPresenceProvider.GetOnlineRecipients | services/liderapi/extensions/src/main/java/tr/org/lider/platform/presence/EjabberdAgentPresenceProvider.java:74-102 | a reading at most 3000 ms after cachedAt answers the cached set and changes nothing; else a fetched set is answered and stored with the second reading; else a nonempty cache at most 30000 ms old is answered and left alone; else answer and cache are empty; all as the machine does when one thread alone moves |
| Migration.EveryChildIsCounted | services/provisioner/provision.py:687-718 | moved, deleted and failed children add up to all of them |
| Migration.CountersInWords | services/provisioner/provision.py:687-718 | deleted counts the children with a namesake under the new root and nothing below them, moved those whose name is free there, failed the others and the refused, all of the directory as it was |
| Migration.MigrationKeepsTheTree | services/provisioner/provision.py:669-748 | whatever is refused, every entry keeps a superior |
| Directory.UnderMeansEndsWith | services/provisioner/provision.py:801-803 | what a search of a subtree covers: the names that end with its base |
| Directory.AddInWords | services/provisioner/provision.py:267-289 | an add succeeds exactly where there is a superior and no entry, and changes nothing else |
| Directory.ReplaceInWords | services/provisioner/provision.py:320-326 | a replacement replaces exactly the attributes it names of an entry that is there |
| Directory.DeleteInWords | services/provisioner/provision.py:697-699 | exactly the entries without children can be deleted |
| Directory.ModifyDnInWords | services/provisioner/provision.py:710-712 | an entry moves, with all below it, exactly if it and the new superior are there, the superior is not below it and has no child of its name |
| Migration.ProtectedStays | services/provisioner/provision.py:691-718 | entries already under the new root stay as they were, save what lies below a legacy root there |
| Migration.EveryChildIsAccounted | services/provisioner/provision.py:691-718 | whatever is refused, each child with all below it is in place, or at its vacant target, or had a namesake there |
| Migration.RootGoesLast | services/provisioner/provision.py:720-735 | deleting the emptied legacy root loses something exactly when a child counted as its duplicate |
| Migration.NoFailureUnitesTheNames | services/provisioner/provision.py:691-735 | without failures the new root holds the names of both, the legacy root's own aside |
| Migration.MigrateLegacyAgentGroupRoot | services/provisioner/provision.py:669-748 | the directory after is the one the listing and the server's refusals decide; moved and deleted count the children that were movable, respectively duplicates, in the directory before and not refused, failed the others; something is lost if and only if a child has the name of the legacy root, lying directly below the new one, and the run completes |
| Migration.NoneFailsIff | services/provisioner/provision.py:691-718 | no child fails exactly when none is refused and each can go from the directory as it was before the run |
| Migration.CompletesIff | services/provisioner/provision.py:691-735 | the legacy root is gone afterwards exactly when no step is refused, every child can go from the directory before the run, and nothing below the root lacks an ancestor among the children |
| Migration.ClosedHasNoOrphans | services/provisioner/provision.py:720-735 | in a directory where every entry has a superior, nothing below the legacy root lacks an ancestor among its children |
| Migration.LossIff | services/provisioner/provision.py:691-735 | for every refusal pattern something is lost exactly when a run with such a twin completes |
| Migration.WillingLossIff | services/provisioner/provision.py:691-735 | on a willing server the directory before the run alone decides whether something is lost |
| Migration.NoTwinNoLoss | services/provisioner/provision.py:669-748 | without such a twin nothing is ever lost |
| Migration.EveryChildIsResolved | services/provisioner/provision.py:691-718 | after the loop each child is gone with all below it and its name is under the new root, or all of it is in place |
| Migration.TwinIsLost | services/provisioner/provision.py:693-697 | an input on which that loss happens |
| Migration.MigrationIsIdempotent | services/provisioner/provision.py:669-748 | migrating again, in any order, changes nothing |
| Migration.MigrationIsLocal | services/provisioner/provision.py:669-748 | outside the two roots nothing changes |
| Whereabouts.MigrationKeeps | services/provisioner/provision.py:687-735 | for every refusal pattern the directory before and the refusals decide where each entry is afterwards, and nothing else is there |
| Whereabouts.PlaceIsInjective | services/provisioner/provision.py:691-718 | no two entries come to the same place |
| Whereabouts.PlaceInUse | services/provisioner/provision.py:691-718 | nothing comes to a name that was in use |
| Whereabouts.OrderDoesNotMatter | services/provisioner/provision.py:687-718 | on a willing server the order of the listing makes no difference |
| GroupSeeding.RoundRobinMembers | services/provisioner/provision.py:211-217 | bucket b of the loop is the bucket of the specification; none for a count of zero or less |
| GroupSeeding.BucketIsAStride | services/provisioner/provision.py:211-217 | bucket b holds, in order, the members whose index is b modulo the count |
| GroupSeeding.BucketsAreBalanced | services/provisioner/provision.py:211-217 | bucket sizes differ by at most one |
| GroupSeeding.EveryMemberLandsOnce | services/provisioner/provision.py:211-217 | each member is in exactly one bucket, at one place |
| GroupSeeding.EmptyBuckets | services/provisioner/provision.py:251-253 | a bucket is empty exactly when there are too few members to reach it |
| GroupSeeding.AgentNamesAreDistinct | services/provisioner/provision.py:242-243 | zero-padded agent names are injective |
| GroupSeeding.UserGroupNamesAreDistinct | services/provisioner/provision.py:199-202 | user group names are injective |
| GroupSeeding.EndpointGroupNamesAreDistinct | services/provisioner/provision.py:205-208 | endpoint group names are injective |
| GroupSeeding.GroupNamesInWords | services/provisioner/provision.py:199-208 | the names of the archetypal groups and of the numbered ones |
| GroupSeeding.UserGroupSpecs | services/provisioner/provision.py:220-239 | the seeded user groups, each with a member as section 3.5 of RFC 4519 demands |
| GroupSeeding.EndpointGroupSpecs | services/provisioner/provision.py:246-264 | min(count, N) endpoint groups with distinct names, none empty |
| Provisioner.EnsureEntry | services/provisioner/provision.py:267-289 | adds the entry or leaves the one that is there; a failure changes nothing; success means the seed is applied unless the server lied |
| Provisioner.EnsureGroupEntry | services/provisioner/provision.py:292-326 | adds the group, or gives the one that is there every attribute of the seed but its name and keeps the others; a failure changes nothing; success means the seed is applied unless the server lied |
| Provisioner.SeedsAreDistinct | services/provisioner/provision.py:199-264 | no two updating seeds share a name, so none undoes another |
| Provisioner.SeedingSettles | services/provisioner/provision.py:292-326 | after seeding every seed is there with the attributes it writes |
| Provisioner.SettledStays | services/provisioner/provision.py:292-326 | seeding a settled directory changes nothing |
| SeededDirectory.UpsertsAreWritten | services/provisioner/provision.py:292-326 | after seeding every updating seed's entry has the seed's attributes, exactly its members among them, and what it had besides is as it was |
| SeededDirectory.FirstSeedAdds | services/provisioner/provision.py:267-289 | a free name gets the entry of the first seed that bears it |
| SeededDirectory.UpsertsOfARun | services/provisioner/provision.py:814-867 | the same after a whole fault-free run, for a name the migration leaves alone |
| SeededDirectory.AddedOfARun | services/provisioner/provision.py:814-867 | an entry no seed updates is after a run as it was, or, if its name was free, its first seed's |
| SeededDirectory.EndpointGroupsInWords | services/provisioner/provision.py:246-264 | after a run endpoint group i has every n-th agent from the one after i on for its members |
| SeededDirectory.UserGroupsInWords | services/provisioner/provision.py:220-239 | after a run user group i has every n-th directory user from user i on, or without one the administrator |
| SeededDirectory.DomainAdminsInWords | services/provisioner/provision.py:632-646 | after a run the domain administrators are the operators, or without any the administrator |
| SeededDirectory.AgentsInWords | services/provisioner/provision.py:769-793 | after a run an agent's entry is the one that was there, or its own with uid, password and owner |
| SeededDirectory.UsersInWords | services/provisioner/provision.py:159-196 | after a run a user's entry is the one that was there, or has the uid and the privileges of its place in the order |
| SeededDirectory.RoleInWords | services/provisioner/provision.py:610-629 | after a run the role is the one that was there, or names every agent and every agent's host |
| Provisioner.ProvisioningIsIdempotent | services/provisioner/provision.py:814-867 | a second fault-free run that finds its roots, with any listing, leaves the directory unchanged |
| Provisioner.SeparateRootsStay | services/provisioner/provision.py:669-748 | no root is missing after a run if none lies under the legacy root |
| Provisioner.RunKeepsTheTree | services/provisioner/provision.py:814-867 | after a fault-free run every entry has a superior if every one had before |
| Provisioner.RunSettlesSeeds | services/provisioner/provision.py:814-867 | after a run every seed is settled, or was taken by the migration and is taken again by the next |
| Provisioner.DevicesAfterRun | services/provisioner/provision.py:769-811 | after any fault-free run the devices under the agent root are those that landed there, as many as the directory before says |
| Provisioner.UndisturbedLanding | services/provisioner/provision.py:669-811 | where the migration moves no device, those are the devices before and the generated names that were free |
| Provisioner.VerificationSucceedsIff | services/provisioner/provision.py:796-811 | the verification succeeds exactly when as many strangers land under the agent root as agents do not, for any nesting of the roots; with all agents there, exactly when no stranger is |
| Provisioner.VerificationCanBeBalanced | services/provisioner/provision.py:796-811 | an input that verifies although a foreign device is there |
| Provisioner.XmppServer.Register | services/provisioner/provision.py:751-766 | 200 creates the account, 409 finds it, anything else may or may not have taken effect |
| Provisioner.RegisterAgents | services/provisioner/provision.py:838-854 | success leaves an account for each agent and, unless the server lied, every agent's entry applied; no account but theirs is added, whatever fails |
| Provisioner.Provision | services/provisioner/provision.py:814-867 | exit 0 only with N devices, an account for each agent and, unless the server lied, every seed applied and then the migration under some refusals; without its roots nothing is done; without faults the directory is the provisioned one and exit 0 means exactly N devices |
| LiderApi.FindGroupEntryFindsTheName | platform_runtime/readiness/policy_roundtrip.py:16-27 | the search finds a node of the name if the tree has one anywhere |
| LiderApi.CleanUp | platform_runtime/readiness/policy_roundtrip.py:113-165 | every artifact handed over gets a delete attempt, in order; the failures are exactly those whose delete did not return; without failures exactly those are gone |
| PolicyRoundtrip.CreateComputerGroupWithReconciliation | platform_runtime/readiness/policy_roundtrip.py:30-63 | succeeds exactly if the create returned, or was answered 417 and the tree has a node of the name; the tree is asked exactly after an answer 417 and what it reveals is what counts as found; with a fresh name success reveals the one group that is new |
| PolicyRoundtrip.CleanupIsInReverse | platform_runtime/readiness/policy_roundtrip.py:124-132 | the cleanup deletes in the reverse order of creation |
| PolicyRoundtrip.CreateAndExecute | platform_runtime/readiness/policy_roundtrip.py:189-230 | each call is made exactly if the one before came to something, and what is held is what the replies say; the policy is executed, once and on the group held, exactly if its record has an id and the group a name; if the execution answered, taking everything back restores the server |
| PolicyRoundtrip.RunPolicyRoundtripCheck | platform_runtime/readiness/policy_roundtrip.py:168-274 | without the agent nothing is called; otherwise the calls are those of the steps above; passes exactly if the execution answered 200 and the cleanup completed, and then leaves the server as it was; in every run each artifact answered or revealed by the tree is tried for deletion, in reverse order |
| UserGroupRoundtrip.IterTreeNodes | tests/e2e/support/backend_facade.py:224-233 | draining the queue yields exactly the nodes of the forest |
| UserGroupRoundtrip.GetExistingUserGroup | tests/e2e/support/backend_facade.py:276-295 | an existing group is found exactly if there is one, a preferred one if there is any |
| UserGroupRoundtrip.ObtainGroup | tests/e2e/support/backend_facade.py:552-583 | without a given group one is created; the tree is asked exactly if that was answered 406 or 417 and no user was to be created; succeeds exactly if the given group took the member, the create returned, or that tree has a group, a preferred one if there is any; only a group made by this call is marked for deletion |
| UserGroupRoundtrip.Apply | tests/e2e/support/backend_facade.py:585-610 | profile, then policy, then one execution of that policy on that group, each only if the one before returned |
| UserGroupRoundtrip.Steps | tests/e2e/support/backend_facade.py:551-627 | each call is made exactly if the one before came to something; the policy is executed exactly if it was created, on the given, the made or the fallback group; wherever an exception strikes, what is handed to the cleanup is new |
| UserGroupRoundtrip.ExecuteUserGroupPolicyRoundtrip | tests/e2e/support/backend_facade.py:502-638 | the calls are those of the steps above, and none without preflight; the policy runs on the given group by the name its update answers, on the one made, or, only after the answers 406 and 417 and with no user created, on an existing one; on both exits exactly what the run made is tried for deletion, in reverse, and nothing that existed before; with working deletes the server is restored |
| Gate.WaitForGate | services/ahenk/liderapi_gate.py:181-238 | ready exactly at the first window of k successes, after one sleep less than attempts; timed out exactly when no attempt begun in time completes one |
| Gate.OneEnd | services/ahenk/liderapi_gate.py:199-238 | the two ends exclude each other and are unique |
| Bootstrap.GroupByService | platform/scripts/bootstrap_runtime.py:233-245 | each named service gets its containers' observations in order (`ObservedInWords` says what those are) |
| Bootstrap.CheckService | platform/scripts/bootstrap_runtime.py:255-287 | a service is faulted exactly when it fails its expectation, for the first of count, state and health that is wrong |
| Bootstrap.PhaseSatisfied | platform/scripts/bootstrap_runtime.py:248-288 | exactly one error for each service that fails its expectation, in order, with its reason |
| Bootstrap.AwaitPhase | platform/scripts/bootstrap_runtime.py:356-375 | polling ends with the first sight that satisfies the phase, an exception, or the timeout; the log gains exactly the sights of the phase's own polls |
| Bootstrap.BootstrapRuntime | platform/scripts/bootstrap_runtime.py:300-379 | a phase starts only right after one of the polls of the phase before saw every service of that one as expected; the log is that of the phases started; the first phase not completed decides the outcome; zero means every phase was served, and if every one is, all are started and the final status is returned; a port conflict starts nothing |
| Bootstrap.RunLogIsGenuine | platform/scripts/bootstrap_runtime.py:343-375 | every sight in the log of a run is a poll of its own phase |
| Bootstrap.ObservedInWords | platform/scripts/bootstrap_runtime.py:223-245 | a container counts as completed exactly if its state is "exited" and "Exited (0)" occurs in its status, or its state is that word; as running exactly if its state is; as unknown without a state |
| Bootstrap.SatisfiesInWords | platform/scripts/bootstrap_runtime.py:248-288 | a sight satisfies a phase exactly if the containers of each service are as many, in the state and of the health that is expected |
| Bootstrap.EndInWords | platform/scripts/bootstrap_runtime.py:356-375 | a phase completes exactly if one of its polls serves it and none before raises; when it breaks and when it times out |
| Bootstrap.CompletedMeansExitedWithZero | platform/scripts/bootstrap_runtime.py:223-230 | a phase that waits for a service to be completed is served only by a poll that saw containers of it, all exited with 0 |
| Bootstrap.StartFollowsItsSight | platform/scripts/bootstrap_runtime.py:333-367 | in the log of a run a later phase starts directly after a sight, of a poll of the phase before, that served that phase |
| GoldenBaseline.CaptureRuntimeConfig | platform_runtime/golden_baseline.py:80-99 | exactly the critical fields are captured: whether the payload has each, its source, the hash of its value, and the value itself exactly if it is present and no secret |
| GoldenBaseline.CollectFileMetadata | platform_runtime/golden_baseline.py:173-182 | path, size and hash of each file; a missing file raises |
| GoldenBaseline.ValidateGoldenBaseline | platform_runtime/golden_baseline.py:296-387 | valid exactly for a valid baseline; raises exactly for a configuration that is no object, whose fields are none, or that has null, a number or a boolean for a secret |
| GoldenBaseline.ValidInWords | platform_runtime/golden_baseline.py:296-387 | a valid baseline, file by file: present, JSON, nonempty; a complete manifest that describes every tracked file, or JSON that is no object; fields with their three keys and no value of a secret |
| GoldenBaseline.NamedContractIsMatched | platform_runtime/golden_baseline.py:34-47 | captures of a contract's payloads and nonempty screenshots satisfy what capture needs |
| GoldenBaseline.RegistryIsWellNamed | platform/contracts/baseline-registry.yaml:6-27 | the repository's own contract is of that kind |
| GoldenBaseline.CapturedBaselineIsValid | platform_runtime/golden_baseline.py:244-293 | a captured baseline validates |
| GoldenBaseline.BaselinedInWords | platform_runtime/golden_baseline.py:244-293 | after a capture the manifest describes every tracked file as it is, and every other file is as the sources answered, or as before |
| GoldenBaseline.LaterValidationComparesTheBytes | platform_runtime/golden_baseline.py:341-356 | with an untouched manifest and a collision-free hash, later validation succeeds exactly when every tracked file is unchanged |
| GoldenBaseline.BytesAreComparedIff | platform_runtime/golden_baseline.py:319-356 | another presentable content of a tracked file is accepted exactly if the manifest is no object |
| GoldenBaseline.ObjectManifestPins | platform_runtime/golden_baseline.py:341-356 | with a manifest that is an object at most one content of each tracked file is valid |
| GoldenBaseline.ArrayForAManifest | platform_runtime/golden_baseline.py:324-326 | a valid baseline stays valid when its manifest becomes an array |
| GoldenBaseline.TextIsWrittenIff | platform_runtime/golden_baseline.py:80-170 | a text, say of a secret, stands in a captured file exactly if a source shows it or a field that is no secret has it |
| GoldenBaseline.Baseline.Capture | platform_runtime/golden_baseline.py:244-293 | refuses exactly without confirmation, or without force over a manifest that is complete or JSON but no object; fails exactly if a tracked file is missing; otherwise the files are the captured ones and the report says whether they are valid, without errors where contract and captures match |
| Reconciler.HostnamesEndWithHost | services/liderapi/extensions/src/main/java/tr/org/lider/platform/inventory/LdapAgentInventoryReconciler.java:117-127 | a derived host name is the cn or uid, with the ending added only where it lacks |
| Reconciler.Refresh | services/liderapi/extensions/src/main/java/tr/org/lider/platform/inventory/LdapAgentInventoryReconciler.java:71-101 | the setters give the updated agent; dirty exactly if it is new, online or not current |
| Reconciler.ReconcileFromLdap | services/liderapi/extensions/src/main/java/tr/org/lider/platform/inventory/LdapAgentInventoryReconciler.java:45-115 | table and counters after the loop; a failed search changes nothing |
| Reconciler.JidsAfterRun | services/liderapi/extensions/src/main/java/tr/org/lider/platform/inventory/LdapAgentInventoryReconciler.java:45-115 | the stored jids are the old ones and the directory's |
| Reconciler.RunSettles | services/liderapi/extensions/src/main/java/tr/org/lider/platform/inventory/LdapAgentInventoryReconciler.java:71-103 | with distinct uids every entry's agent is current after a run |
| Reconciler.JidInWords | services/liderapi/extensions/src/main/java/tr/org/lider/platform/inventory/LdapAgentInventoryReconciler.java:57-61 | an entry is skipped exactly without a uid that is more than whitespace; else its jid is the uid without the whitespace around it |
| Reconciler.RowsAfterRun | services/liderapi/extensions/src/main/java/tr/org/lider/platform/inventory/LdapAgentInventoryReconciler.java:56-104 | with distinct names each entry's row after a run: Active exactly if online, the defaults where blank, dates and addresses kept; left alone exactly if it said so already and is offline; every other row as before |
| Reconciler.ReportsOfARun | services/liderapi/extensions/src/main/java/tr/org/lider/platform/inventory/LdapAgentInventoryReconciler.java:99-108 | exactly the agents without a row are reported created, exactly those rewritten updated |
| Reconciler.SecondRunSavesTheOnlineAgents | services/liderapi/extensions/src/main/java/tr/org/lider/platform/inventory/LdapAgentInventoryReconciler.java:99-108 | a second run creates nothing and saves exactly the online agents |
| AgentListing.PageIsItsSlice | services/liderapi/wiring/patches/overlay/src/main/java/tr/org/lider/repositories/AgentInfoCriteriaBuilder.java:225-231 | the remainder arithmetic gives every page its slice of the rows |
| AgentListing.AgentList | adapters/lider_api_adapter.py:173-206 | the whole table up to 100 rows, else its first 100; nothing if the call fails |
| EndToEnd.TotalOnlineComputerCount | services/liderapi/extensions/src/main/java/tr/org/lider/platform/dashboard/LdapDashboardComputerMetricsProvider.java:37-45 | the loop counts the entries whose uid is online |
| EndToEnd.RunFurnishes | services/provisioner/provision.py:814-867 | a fault-free run leaves exactly the agents' entries if and only if only agents land under the agent root, unmoved, and their names were free or theirs |
| EndToEnd.UndisturbedIsFurnished | services/provisioner/provision.py:814-867 | where the migration moves no device, that is the absence of foreign devices |
| EndToEnd.TableAfterReconciliation | services/liderapi/extensions/src/main/java/tr/org/lider/platform/inventory/LdapAgentInventoryReconciler.java:45-115 | the table then holds one row per agent |
| EndToEnd.AgentIsOnline | services/liderapi/extensions/src/main/java/tr/org/lider/platform/presence/EjabberdAgentPresenceProvider.java:46-71 | an agent with a session is found online |
| EndToEnd.RunningInstallationPasses | platform_runtime/registration.py:130-259 | for 1 to 100 agents a running installation passes with every agent domain-ready |
| EndToEnd.ProvisionedInstallationPasses | services/provisioner/provision.py:814-867 | the same from before provisioning, given that only agents land under the agent root, and no other account or table row |
| EndToEnd.NoPassBeyondOnePage | adapters/lider_api_adapter.py:173-206 | with more than 100 expected agents no snapshot passes |
| EndToEnd.OneViewLeavesNoStranger | platform_runtime/registration.py:219-229 | if the dashboard counts the same sessions as the session list shows, a pass means that the connected ids are the directory's |

## Left out

- Orchestrator.RegistrationOrchestrator.SettleRegistration: with a backoff bound of 0 asks that every collection take some least time, for a clock that stands still would have it poll for ever; negative bounds, at which sleeping raises, are left out. The machine lemmas (`EveryRunIsWellShaped`, `ValidatorAgreesThroughoutARun`) cover all bounds.
- Orchestrator.RegistrationOrchestrator.RunForever: is observed for a finite number of steady-state rounds.
- PresenceCache.EjabberdAgentPresenceProvider.GetOnlineRecipients: is the call nobody interrupts; interleaved calls are states of a machine, with unbounded clock values instead of 64-bit ones.
- Provisioner.ProvisioningIsIdempotent: asks that the first run leave the roots where a second one looks for them, which it does unless a root lies under the legacy root (`SeparateRootsStay`); without its roots a second run raises.
- EndToEnd.ProvisionedInstallationPasses: takes the computer tree to show exactly the agents and the listing to be the whole table, because the code that serves them is not part of this model.
- Evidence.ValidateRegistrationEvidence: JSON numbers are integers here, and `1 == True` does not hold of JSON values as it does in Python.
- HTTP, the LDAP wire, XMPP, MariaDB, Docker and the processes behind them: calls are operations on abstract servers, or parameters that say how they end.
- The runtime configuration fingerprint, the observability notes and `registration-snapshot.json`: no check reads them.
- The contents of the optional runtime reports beyond what decides whether looking into their support and topology raises.
- Wall-clock details of `Gate` and `Bootstrap`: their clocks are sequences of readings, or of the polls made before a deadline.
- Case folding beyond ASCII, and whitespace other than characters up to the blank.
- Distinguished names with escaped commas, and comparison of names that ignores case: names are sequences of RDNs.
- User attributes besides uid and privileges (names, mail, salted passwords): a seeded user that exists is never changed.
- Searches the LDAP server refuses: a moody server refuses changes, not reads. One that calls an entry existing that does not has lied, and what it leaves out is then not seeded.
- The group members a roundtrip adds to an existing group, and a directory user it creates: the source does not take them back.
- The server of the roundtrips answers a create with an artifact that is new and revealed by its record; a policy record may still lack the key `id`.
- JPA's own saving of managed entities: an agent that is not dirty is taken as not saved, modification time included.
- The LDAP search behind `ldap-tree.json`: what it shows is a parameter, passwords included, which the provisioner stores in clear with the agents; `TextIsWrittenIff` says that the baseline then shows them too.
- The capture context in the golden baseline's manifest.
- JSON inside the baseline files beyond the keys validation looks at; the hash is any function, collision-free where a lemma says so.
- Start-up waiting, schema loading, support summaries, report rendering, exporters, the user interface and its page objects: no deep property.
