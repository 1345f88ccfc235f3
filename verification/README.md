# Cuexis verification model

A Dafny model of the parts of the Cuexis rhythm-chart SDK that carry state or arithmetic no test can exhaust, with
proofs for all inputs, all runs or all reachable states. `dafny verify dfyconfig.toml` checks everything.

What is modelled, one module per component:

- **Beats and behaviours** (`RationalBeat`, `BeatRanges`, `BehaviorSampling`, `BehaviorCompiler`,
  `BehaviorAcceptance`): exact rational beats within 64 bits, keyframe and Hermite event sampling, and the compiler's
  checks on event tracks.
- **Migration** (`ChartMigration`, `MigrationMeaning`, `BehaviorMigration`, `MigrationSuccess`): the translation of
  keyframe tracks into Hermite events over a rewritten baseline, the proof that it changes no value at any time, and
  exactly when it reports nothing.
- **Resources** (`ResourcePool`, `ResourceContent`, `ResourceManager`, `ResourceScope`, `ResourceReasons`,
  `SharedScopes`): generation-tagged slots with counted leases, what they hold, loads that give up the lock while a
  provider reads, and scopes whose requests acquire dependencies recursively and roll back. `AssetDatabase`,
  `AssetReports` and `DatabaseOrder` are the database below them: a depth-first search with three colours, and when its
  verdict depends on the order of the input.
- **Animation** (`MixValues`, `AnimationMixer`, `LayerValues`, `PriorityOrder`, `MixerOrder`, `AnimationSampler`):
  weighted and additive blends, the passes over groups, layers and priority tiers, clip looping and track sampling.
- **Passes over charts** (`ParentChains`, `ChartHierarchy`, `CandidateLowering`, `TemplateExpansion`,
  `IdentityPreimages`): hierarchy classification, candidate lowering, memoised template inheritance with patches, and
  the byte streams that are hashed into identities.
- **Audio** (`HostClock`, `WavDecoder`, `WavFiles`, `AudioClipStore`, `SdlTransport`): the sequence lock as a state
  machine over single atomic accesses, the RIFF/WAVE decoder, the clip store and the device transport's frame
  accounting.
- **The player** (`PlayerControl`): the six-step content transaction over renderer, clip store, device seat and session.

Where the engine changes state in place the model does so too: classes, arrays and loops, each method tied to a function
of its inputs or the old state, about which the properties are proved. Doubles and floats are real numbers, integers
carry their 32- or 64-bit limits, and whatever the engine asks of code outside the model (content providers, devices,
ports, renderers) is an argument, so that the properties hold for every answer.

## Findings

Properties that the code does not have, each with a concrete input and the exact condition:

- A content provider that loads the asset it is being asked for, or a sweep during a load on a slot in its last
  generation, leaves a live lease whose handle is refused (`ReentrantProviderLosesLease`, `SweepDuringLoadLosesLease`).
  A step loses the correspondence of leases and accepted handles if and only if it disturbs a load
  (`FaithfulUntilDisturbed`).
- Whether the asset database accepts a chain of dependencies as deep as the limit depends on the order of its records
  (`DepthDependsOnOrder`); the exact condition for acceptance in every order is `AcceptedInEveryOrder`.
- Whether a layer fails depends on the order of its groups (`FailureDependsOnGroupOrder`): it fails exactly when the
  first contributing group of some property does (`FailsWithFirst`). The order of instances does not matter.
- The sum of two beats can be refused although a beat denotes it (`AddRefusesRepresentable`, exactly when:
  `AddRefusesExactly`); products are refused only when no beat denotes them.
- 2^63 submissions inside one snapshot tear it (`WrappedCounterTears`). A thread that reads a second clock can get the
  default sample after a newer one (`OtherClockForgets`), exactly when all its attempts are spent with an empty cache
  (`GoesBackExactly`); an older submission never comes back, with any number of clocks (`SnapshotsNeverGoBack`).
- Clip handles are accepted again after 2^32 - 1 removals from their slot (`AudioClipStore.WrapAround`), and exactly
  then (`AcceptedDuringItsLife`).
- A failed player transaction makes the seat play a clip the store no longer holds exactly when it had replaced the
  stream on the same device: when the commit fails, or when the device does not resume after the new stream was opened
  (`StraysExactly`, `PlayerController.Transact`). A failed precheck on the same device leaves the replacement staged in
  the seat, for nothing cancels it; every other failure leaves the seat as it was but for a device that could not be
  opened again and plays nothing (`LeftSeat`, in the contract of `PlayerController.CommitBundle`). `StrandedSeat` is a
  run from an audio load into both kinds. The published bundle is unaffected. A rebuild closes the seat before it can
  fail.
  The player documentation says the audio handles stay as they were on failure; that is so for the published handle, not
  for the seat.
- A transport that is paused stays paused also when the pause hears the last frame (`PausedAtTheEnd`), exactly when all
  has been heard by then (`PlayAndPause`, `SdlTransport.Pause`). A replacement publishes a stopped transport at its
  frame before it goes on, which is away from zero whenever that frame is (`StoppedAwayFromZero`,
  `SdlTransport.ActivateReplacement`).

## Model

| member | source | states |
|---|---|---|
| HostClocks.SnapshotsAreWhole | engine/audio/src/audio_transport.cpp:39-89 | in every interleaving of one submitter and any readers, stepped one atomic access at a time, every value a snapshot returned is the default sample or one whole submitted sample, while fewer than 2^63 submissions fall inside one attempt |
| HostClocks.SnapshotsNeverGoBack | engine/audio/src/audio_transport.cpp:59-89 | whatever clocks a thread reads, no snapshot returns an older submission than an earlier one did: only the default sample can come back; and positions never go back inside one contiguous discontinuity segment |
| HostClocks.GoesBackExactly | engine/audio/src/audio_transport.cpp:59-89 | a step returns something older than an earlier snapshot did exactly when all eight attempts are spent and this clock has no cached sample |
| HostClocks.SnapshotsOfOneClockAscend | engine/audio/src/audio_transport.cpp:59-89 | a thread that reads only this clock sees publications in order |
| HostClocks.SnapshotsAreFresh | engine/audio/src/audio_transport.cpp:59-89 | in every interleaving a snapshot ends within 42 steps; one of which at most seven attempts met an odd or changed counter returns a submission no older than the last one complete when it was entered, and only after eight such attempts it returns what the thread was last given |
| HostClocks.RunKeepsOk | engine/audio/src/audio_transport.cpp:39-89 | the protocol invariant (the sequence counter is even exactly between publications and counts them; readers hold fields of publications they began under) is kept by every run |
| HostClocks.WrappedCounterTears | engine/audio/src/audio_transport.cpp:48-89 | exactly 2^63 submissions inside one attempt make a snapshot return a mixture that was never submitted: the bound is tight |
| HostClocks.OtherClockForgets | engine/audio/src/audio_transport.cpp:59-89 | after reading a second clock, a snapshot that meets a submission at all eight attempts returns the default sample although the thread had seen a newer one |
| HostClocks.HostClock.Submit | engine/audio/src/audio_transport.cpp:39-57 | a rejected sample changes nothing; an accepted one has exactly the effect of the protocol's owner accesses and becomes the published sample |
| HostClocks.SubmitsExactly | engine/audio/src/audio_transport.cpp:39-57 | between submissions a sample is accepted exactly when its source is loaded, a stopped one stands at zero, and it does not go back within the discontinuity segment of the last submission, if there was one |
| HostClocks.HostClock.Snapshot | engine/audio/src/audio_transport.cpp:59-89 | without a submission in progress the first attempt returns the published sample; with one in progress throughout, all eight attempts fail and the thread's cache of this clock, else the default, is returned |
| HostClocks.ValidateSourceClockSample | engine/audio/src/audio_transport.cpp:12-37 | accepted exactly when the state is not Empty and a Stopped sample stands at zero |
| RationalBeats.Compare | engine/chart/src/rational_beat.cpp:129-149 | the three-way comparison, by continued fractions and without multiplying, is the order of the values |
| RationalBeats.Multiply | engine/chart/src/rational_beat.cpp:164-189 | an accepted product is exact and in lowest terms, and a product is refused if and only if no 64-bit beat denotes it |
| RationalBeats.Divide | engine/chart/src/rational_beat.cpp:191-208 | an accepted quotient is exact; refused exactly for a zero divisor, a divisor whose numerator is the least integer, or when no beat denotes the quotient |
| RationalBeats.CheckedMultiply | engine/chart/src/rational_beat.cpp:67-86 | the overflow tests made before multiplying accept exactly the products that fit 64 bits |
| RationalBeats.CheckedAdd | engine/chart/src/rational_beat.cpp:88-98 | the overflow test made before adding accepts exactly the sums that fit 64 bits |
| RationalBeats.AddRefusesExactly | engine/chart/src/rational_beat.cpp:222-238 | a sum is refused exactly when a numerator, the denominator or their sum over the least common denominator does not fit |
| RationalBeats.AddRefusesRepresentable | engine/chart/src/rational_beat.cpp:222-238 | a sum that a beat denotes is refused: half the greatest integer added to itself |
| RationalBeats.AddUndoesSubtract | engine/chart/src/rational_beat.cpp:151-162 | when a positive distance between two beats is representable, adding it back never overflows and gives the later beat |
| BeatRanges.AddSucceedsExactly | engine/chart/src/rational_beat.cpp:222-238 | a sum succeeds exactly when both numerators over a least common denominator, that denominator and the sum fit 64 bits |
| BeatRanges.SubtractSucceedsExactly | engine/chart/src/rational_beat.cpp:151-162 | a difference succeeds exactly when the right numerator has a negation and the sum with it is in that range |
| BeatRanges.MidpointSucceedsExactly | engine/chart/src/rational_beat.cpp:241-255 | a midpoint exists exactly when the sum does and is even, or its doubled denominator fits |
| RationalBeats.CanonicalIsUnique | engine/chart/src/rational_beat.cpp:100-119 | reduced beats with the same value are the same field by field |
| RationalBeats.Floor | engine/chart/src/rational_beat.cpp:210-220 | the result is the greatest integer not above the value, also for negative beats, and never overflows |
| BehaviorSampling.HermiteIsEasing | engine/chart/src/chart_migrator.cpp:376-384 | the slopes the migrator picks reproduce the linear, in_cubic and out_cubic easings at every progress |
| BehaviorSampling.HermiteHalves | engine/chart/src/chart_migrator.cpp:386-411 | the two half-length Hermite curves are in_out_cubic |
| BehaviorSampling.HermiteMonotone | engine/chart/src/chart_runtime.cpp:438-450 | non-negative slopes summing to at most 3 make the Hermite progress monotone |
| BehaviorSampling.HermiteStaysInUnit | engine/behavior/src/behavior_system.cpp:138-159 | under the slope rule the progress never leaves 0 to 1 |
| BehaviorCompiler.CompileEventTrack | engine/chart/src/chart_runtime.cpp:370-470 | the sorted pass with its running end beat compiles and reports as the recursive reading of the sorted events does |
| BehaviorCompiler.CompiledEventsAccepted | engine/chart/src/chart_runtime.cpp:424-470 | without errors every compiled event has positive length, slopes within the rule and endpoints in its property's range |
| BehaviorAcceptance.EventsCompileExactly | engine/chart/src/chart_runtime.cpp:370-470 | sorted events compile without an error exactly when each is well formed (a start and end beat in range, a duration that is not negative, slopes within the rule, values in their property's range, no change in no time) and none starts with or inside the one before; then exactly these events run, with an instantaneous one for no duration |
| BehaviorCompiler.SamplesStayInRange | engine/behavior/src/behavior_system.cpp:138-159 | over an accepted track every scalar or vector sample lies componentwise between the endpoints of the event selected at that beat, before the first event is the baseline, and is in the property's range |
| ChartMigration.TranslationCompiles | engine/chart/src/chart_migrator.cpp:364-411 | when the migrator reports nothing, its events never trip the compiler's duplicate-start, overlap, slope, duration or range checks, and compile to contiguous blocks |
| MigrationMeaning.MigrationPreservesMeaning | engine/chart/src/chart_migrator.cpp:364-411 | for any sorted keys (scalars and vectors under all four easings, rotations given the quaternion laws) the compiled events over the first key as baseline equal the sampled keys at the corresponding time, for every beat, errors included |
| MigrationMeaning.TempoRescales | engine/behavior/src/behavior_system.cpp:80-110 | a keyframe track gives the same value in beats and in milliseconds of a constant tempo |
| BehaviorMigration.BehaviorKeepsMeaning | engine/chart/src/chart_migrator.cpp:458-520 | for a whole behaviour, whatever the order of tracks and keys, the gathered events split by property give every track's values at every time over the rewritten baseline of every bound object |
| BehaviorMigration.OtherPropertiesUntouched | engine/chart/src/chart_migrator.cpp:458-520 | a property no track animates keeps its baseline in every bound object and gets no events |
| BehaviorMigration.BaselinesAreFirstKeys | engine/chart/src/chart_migrator.cpp:458-520 | every bound object ends with each track's first key as that property's baseline and keeps every other baseline |
| BehaviorMigration.TrackEventsSurvive | engine/chart/src/chart_migrator.cpp:458-520 | of all gathered events, those of one track's property are exactly that track's translation |
| BehaviorMigration.RewriteSetsBaseline | engine/chart/src/chart_migrator.cpp:313-362 | rewriting succeeds exactly where the session finds a stored baseline of the same type, sets it and changes no other property's |
| MigrationSuccess.IntervalSucceedsExactly | engine/chart/src/chart_migrator.cpp:364-411 | an interval of accepted keys translates exactly when its duration is a beat within the limits and, under in_out_cubic, so are the middle beat and both halves and a rotation has a midpoint (scalars and vectors always have one); each report has its one reason |
| MigrationSuccess.KeysMigrateExactly | engine/chart/src/chart_migrator.cpp:364-411 | sorted accepted keys translate without a report exactly when every interval does |
| MigrationSuccess.FoldReportsExactly | engine/chart/src/chart_migrator.cpp:458-520 | the fold over parts reports nothing exactly when every part has no report of its own, more than one key or a bound object, and a stored baseline of its type in every bound object |
| MigrationSuccess.BehaviorMigratesExactly | engine/chart/src/chart_migrator.cpp:458-520 | a whole behaviour of accepted tracks, in any order, migrates without a report exactly when every track satisfies those conditions |
| BehaviorMigration.AppendInterval | engine/chart/src/chart_migrator.cpp:364-411 | one interval appends one event, two for in_out_cubic, or a report, with its branches in order: as the interval about which meaning and success are proved |
| BehaviorMigration.MigrateBehavior | engine/chart/src/chart_migrator.cpp:458-520 | the in-place migration of sorted tracks over an array of bound objects is the fold about which the meaning, and exactly when nothing is reported, are proved |
| ResourcePools.RunSound | engine/assets/src/resource_manager.cpp:185-305 | over every interleaved run of load halves, fallback, drop, unload and sweep, each slot's strong references are exactly the live leases of its current generation, and spent keys stay spent across exhaustion and retirement |
| ResourcePools.AcceptedHandlesAreLive | engine/assets/src/resource_manager.cpp:316-445 | no ABA in any run: an issued non-fallback handle is accepted only while a lease of its own lifetime lives, and never unloads a slot |
| ResourcePools.FaithfulUntilDisturbed | engine/assets/src/resource_manager.cpp:185-305 | acceptance coincides with a live lease after a step if and only if the step does not disturb a load in progress |
| ResourcePools.UndisturbedRunsAreFaithful | engine/assets/src/resource_manager.cpp:185-305 | over whole runs without disturbed loads a handle is accepted exactly while a lease of its lifetime is alive |
| ResourcePools.OneSlotPerAsset | engine/assets/src/resource_manager.cpp:185-305 | without disturbance no asset ever has two slots in use |
| ResourcePools.ReentrantProviderLosesLease | engine/assets/src/resource_manager.cpp:185-305 | a provider that loads the same asset and then fails leaves a live lease whose handle is refused |
| ResourcePools.SweepDuringLoadLosesLease | engine/assets/src/resource_manager.cpp:467-476 | a sweep during a load on a slot in its last generation hands out a lease on a retired slot |
| ResourcePools.SweepExactly | engine/assets/src/resource_manager.cpp:467-476 | a sweep moves each unused slot to its next generation, or retires it and forgets its asset, and changes nothing else |
| ResourcePools.SameLeasesSameCounts | engine/assets/src/resource_manager.cpp:421-445 | pools with the same live leases have the same reference counts, slot by slot |
| ResourceContents.LeasesGiveLastContent | engine/assets/src/resource_manager.cpp:185-305 | over every interleaved run the slot of a live lease, and every accepted handle, gives the content that last arrived at that slot; the fallback's slot gives its payload until then |
| ResourceContents.ContentStays | engine/assets/src/resource_manager.cpp:294-304 | while a lease lives no step changes what its slot holds but content that arrives at that slot |
| ResourceContents.RevisionCountsFills | engine/assets/src/resource_manager.cpp:294-304 | over every run the revision of a slot counts how often it was filled, modulo its width and never zero again |
| ResourceContents.StepGenerations | engine/assets/src/resource_manager.cpp:421-445 | a step moves a generation only by one, only on a slot without references that it empties, and retires it instead at 0xFFFF_FFFF |
| ResourceContents.LoadGives | engine/assets/src/resource_manager.cpp:185-305 | a load hands out a key of the slot of that name, which gives what was ready there or else what arrived, and none exactly when there is neither or no room |
| ResourceContents.HeldContentStays | engine/assets/src/resource_manager.cpp:185-476 | whatever operation its owner does to a pool, what a lease gives stays the same as long as it lives |
| ResourceManagers.ResourceManager.Load | engine/assets/src/resource_manager.cpp:185-305 | the two locked halves around the unlocked read answer as one load of the model, which keeps the books balanced: it reads exactly when nothing is ready under the name and there is room, the key it hands out gives what was ready or else exactly the bytes the provider answered, and each failure has its one reason |
| ResourceManagers.ResourceManager.Get | engine/assets/src/resource_manager.cpp:316-332 | a handle of this manager issued for a lease is accepted exactly while a lease of its lifetime is alive, and gives what its slot holds |
| ResourceManagers.ResourceManager.Unload | engine/assets/src/resource_manager.cpp:362-385 | a failed unload changes nothing, a handle that was ever issued never frees a slot, and other pools and all leases stay as they are |
| ResourceManagers.ResourceManager.UnloadUnused | engine/assets/src/resource_manager.cpp:467-476 | a sweep over all pools gives up exactly the unpinned, unretired and unreferenced slots that are not unloaded already, leaves every other slot as it was and affects no lease |
| ResourceManagers.ResourceManager.ReleaseLease | engine/assets/src/resource_manager.cpp:418-445 | dropping a lease removes exactly that lease, and with the last one moves the slot to its next generation or retires it |
| ResourceManagers.ResourceScope.Request | engine/assets/src/resource_manager.cpp:816-1209 | the in-place request changes entries, index and pools as the specified one does: a loaded name is granted with its own key under every policy; a refused one is answered as failed under Required and as skipped under Optional, both without a handle, and only Fallback hands out the fallback; a held fallback is handed out exactly under Fallback |
| ResourceManagers.ResourceScope.RollbackTo | engine/assets/src/resource_manager.cpp:1261-1273 | gives up exactly the entries from a size on, with their names and leases |
| ResourceManagers.ResourceScope.Clear | engine/assets/src/resource_manager.cpp:1327-1330 | afterwards only the leases of other holders remain |
| ResourceScopes.RequestAllOrNothing | engine/assets/src/resource_manager.cpp:816-1209 | from every good state and for every policy: success extends the entries as a prefix, a refusal under Fallback adds exactly one fallback entry, and a refusal under Required or Optional answers with its cause and leaves entries, index and every lease as they were; the index stays the exact inverse of the entries and loaded entries keep their dependencies loaded at smaller indices |
| ResourceScopes.FailureRestoresCounts | engine/assets/src/resource_manager.cpp:816-1209 | after a failed request every slot's reference count is what it was, and zero on slots that are new |
| ResourceScopes.RollbackRestores | engine/assets/src/resource_manager.cpp:1261-1273 | rolling back to an earlier size restores that scope exactly, and all leases with it |
| ResourceScopes.EntriesAreAccepted | engine/assets/src/resource_manager.cpp:816-1061 | the handle of every entry is accepted as long as the scope holds it |
| ResourceScopes.LoadAnswers | engine/assets/src/resource_manager.cpp:185-305 | what a load reads, hands out and reports, exactly, and what its key then gives |
| ResourceReasons.AcquireExplained | engine/assets/src/resource_manager.cpp:816-1054 | an acquisition fails only with the error of a reason at the end of a path of dependencies, as deep as that error says |
| ResourceReasons.AcquireEnters | engine/assets/src/resource_manager.cpp:816-1054 | an acquisition enters only assets that what was asked for depends on |
| ResourceReasons.RefusedForAReason | engine/assets/src/resource_manager.cpp:816-1067 | and so a request for an asset that is not held is refused only for such a reason |
| ResourceReasons.GoodRequestIsGranted | engine/assets/src/resource_manager.cpp:816-1067 | a request is granted under every policy when its paths of dependencies end within the limit in the database, none of it is held as a fallback, the provider refuses nothing and no pool is full |
| ResourceScopes.BuiltDatabaseNeverStructural | engine/assets/src/resource_manager.cpp:878-971 | over a database that was built, no request reaches the dependency-cycle, dependency-missing or index-conflict branches |
| SharedScopes.OtherScopeChanges | engine/assets/src/resource_manager.cpp:816-1061 | a change of one scope's leases keeps every other scope on the manager in good order, for correspondingly changed outside leases |
| SharedScopes.OtherLoads | engine/assets/src/resource_manager.cpp:185-305 | a load by another holder keeps a scope good with one lease more outside, or none |
| SharedScopes.OtherTakesFallback | engine/assets/src/resource_manager.cpp:307-314 | a fallback taken by another holder keeps a scope good with one lease more outside |
| SharedScopes.OtherDrops | engine/assets/src/resource_manager.cpp:418-445 | dropping an outside lease keeps a scope good |
| SharedScopes.OtherUnloads | engine/assets/src/resource_manager.cpp:362-385 | an unload by anyone keeps a scope good |
| SharedScopes.OtherSweeps | engine/assets/src/resource_manager.cpp:467-476 | a sweep by anyone keeps a scope good |
| SharedScopes.RequestBeside | engine/assets/src/resource_manager.cpp:816-1209 | a request on one of two scopes of a manager keeps its own promise and leaves the other one usable with its entries |
| SharedScopes.ClearBeside | engine/assets/src/resource_manager.cpp:1327-1330 | giving one scope up leaves the other usable with its entries |
| SharedScopes.OpenBeside | engine/assets/src/resource_manager.cpp:764-792 | a scope opened beside another starts empty and apart from it |
| AssetDatabases.QuietSearchMeansAcyclic | engine/assets/src/asset_database.cpp:470-510 | a depth-first search that reports nothing proves the dependencies acyclic, by a rank that falls along every one |
| AssetDatabases.CollectExactly | engine/assets/src/asset_database.cpp:307-424 | collecting reports nothing exactly for a clean input, and then keeps every record with its dependencies sorted |
| AssetDatabases.CheckRulesExactly | engine/assets/src/asset_database.cpp:425-468 | the dependency rules report nothing exactly when every dependency exists and the audio and shader rules hold |
| AssetReports.RecordCodesExactly | engine/assets/src/asset_database.cpp:307-424 | which code a record is reported with while collecting, exactly, for every code |
| AssetReports.RuleCodesExactly | engine/assets/src/asset_database.cpp:425-468 | which code a record is reported with by the dependency rules, exactly, for every code |
| AssetReports.LimitKeepsFirst | engine/assets/src/asset_database.cpp:307-468 | a bounded collector keeps the first reports, and its last one says so exactly when there are more |
| AssetDatabases.BuildAccepts | engine/assets/src/asset_database.cpp:307-543 | a built database has every input record once, exact lookup, and dependencies that are closed and acyclic |
| AssetDatabases.BuildRefusesOnlyFaults | engine/assets/src/asset_database.cpp:307-543 | a clean input that obeys the rules, without cycles and with bounded paths, is never refused |
| AssetDatabases.BuildIgnoresOrder | engine/assets/src/asset_database.cpp:512-543 | two databases built from the same records in any order are the same |
| AssetDatabases.DepthDependsOnOrder | engine/assets/src/asset_database.cpp:470-510 | with two levels allowed a chain of three is refused with its top first and accepted with its end first |
| AssetDatabases.DependencySearch.Explore | engine/assets/src/asset_database.cpp:470-510 | the recursive visit over shared colours and stack is the specified visit |
| AssetDatabases.BuildDatabase | engine/assets/src/asset_database.cpp:307-543 | the collecting, checking and searching loops together accept and refuse as specified |
| DatabaseOrder.AcceptedInEveryOrder | engine/assets/src/asset_database.cpp:470-510 | a clean, rule-abiding input is accepted in every order if and only if the search started from each record alone is quiet |
| DatabaseOrder.VisitStaysAhead | engine/assets/src/asset_database.cpp:470-510 | a visit that reports nothing also reports nothing in a search, in any order of the records, that has finished more |
| DatabaseOrder.BoundedPathsSuffice | engine/assets/src/asset_database.cpp:470-510 | paths within the depth limit make every record quiet on its own |
| MixValues.RunningBlendIsMean | engine/animation/src/animation_mixer.cpp:205-268 | the running lerp equals the weighted mean of all contributions, for any number of positive weights, in every component |
| MixValues.OverrideIsMean | engine/animation/src/animation_mixer.cpp:205-268 | the override, which sorts first, is the weighted mean of the contributions as given |
| MixValues.OverrideIsBounded | engine/animation/src/animation_mixer.cpp:205-268 | it stays within the contributions' minimum and maximum |
| MixValues.BlendIgnoresOrder | engine/animation/src/animation_mixer.cpp:205-268 | the blend is invariant under permutation |
| MixValues.OverrideIgnoresOrder | engine/animation/src/animation_mixer.cpp:205-268 | so is the whole override, rotations, discrete values and failures included |
| MixValues.WinnerWins | engine/animation/src/animation_mixer.cpp:205-268 | a discrete override picks the greatest weight, and of equal ones the least identity |
| MixValues.MixOverride | engine/animation/src/animation_mixer.cpp:205-268 | sorting and one pass compute the specified override |
| MixValues.AdditiveIgnoresOrder | engine/animation/src/animation_mixer.cpp:270-352 | the additive pass succeeds for both orders of the contributions or for neither, with the same value |
| MixValues.ApplyAdditive | engine/animation/src/animation_mixer.cpp:270-352 | the accumulating loops, with their checks on scale factors and turns, compute the specified additive value or fail where it is undefined |
| MixValues.LayerStaysBetween | engine/animation/src/animation_mixer.cpp:596-613 | with group and layer weights in 0 to 1 the layer's output lies between its input and the group's value |
| AnimationMixer.SharedPropertyOverlaps | engine/chart/src/chart_v4_animation_reader_internal.cpp:401-419 | two masks that both allow an animated property are found to overlap |
| AnimationMixer.DisjointMasksNeverConflict | engine/animation/src/animation_mixer.cpp:425-438 | layers of one priority that passed the reader's overlap check never reach the priority-conflict branch, and the tier changes whatever any of them changes |
| AnimationMixer.SlotIsChange | engine/animation/src/animation_mixer.cpp:508-632 | the pass over override groups and then additive ones leaves exactly the layer's change: a property one supported group contributes to |
| AnimationMixer.ClaimIsChange | engine/animation/src/animation_mixer.cpp:634-673 | the owners and conflicts of a tier come down to the change of the one layer that makes one |
| AnimationMixer.ChangeIgnoresGroupOrder | engine/animation/src/animation_mixer.cpp:508-632 | the order of groups does not matter to a layer's change |
| AnimationMixer.MixIgnoresInstanceOrder | engine/animation/src/animation_mixer.cpp:517-613 | the order of instances does not matter to a group's value |
| AnimationMixer.TierIgnoresOrder | engine/animation/src/animation_mixer.cpp:634-673 | the order of layers in a tier does not matter |
| AnimationMixer.MixLayer | engine/animation/src/animation_mixer.cpp:501-632 | the two passes over the groups fail exactly when some property does and otherwise propose exactly the layer's changes, of which LayerValues says what they are |
| AnimationMixer.MixTier | engine/animation/src/animation_mixer.cpp:499-673 | the loop over a tier's layers fails exactly when one fails and otherwise proposes exactly the tier's changes |
| AnimationMixer.EvaluateObject | engine/animation/src/animation_mixer.cpp:475-673 | the loops over tiers of sorted layers are the fold of tier changes, of which EvaluatedByPriority says what it leaves and accepts |
| PriorityOrder.EvaluatedByPriority | engine/animation/src/animation_mixer.cpp:475-673 | however the layers are listed, the accepted value of a property is the change of the greatest priority that makes one, on the values the lower priorities left; the evaluation fails exactly where mixing fails at some priority on what the lower ones left |
| LayerValues.ContributionsAre | engine/animation/src/animation_mixer.cpp:517-560 | the contributions of a group are exactly its instances with weight that sample the property and whose masks, like the layer's, allow it, each with its own weight and sample; their weights and weighted samples add up to the contributions' sums |
| LayerValues.OverrideMoves | engine/animation/src/animation_mixer.cpp:596-613 | what an override layer makes of its input moves it towards the weighted mean of the instances' samples, in every component by group weight times layer weight |
| LayerValues.ChangesByOneGroup | engine/animation/src/animation_mixer.cpp:508-632 | a layer changes a property only where it has weight and a single group contributes; a discrete property only by an override at full weights, and an additive group only a position, rotation or scale |
| LayerValues.WeightiestIsTaken | engine/animation/src/animation_mixer.cpp:205-225 | a discrete property takes the sample of the instance of the greatest weight, of equal ones the least identity |
| LayerValues.AdditiveAdds | engine/animation/src/animation_mixer.cpp:270-290 | an additive group adds the sum of its weighted samples times group weight times layer weight to a position |
| LayerValues.AdditiveNumber | engine/animation/src/animation_mixer.cpp:270-290 | one contribution more adds its value times its weight and share, and fails exactly for another type |
| LayerValues.AdditiveScale | engine/animation/src/animation_mixer.cpp:291-319 | one contribution more multiplies every component by its factor drawn from one by weight and share, and fails exactly for factors that are not positive, or not so once drawn |
| LayerValues.AdditiveTurns | engine/animation/src/animation_mixer.cpp:320-352 | one contribution more adds its logarithm by weight and share, and the input is multiplied by the exponential of the sum from the right and normalized |
| LayerValues.AlignedSumAdds | engine/animation/src/animation_mixer.cpp:228-253 | the sum of rotations takes each by its share of the total weight, on the side of the first |
| LayerValues.OverrideTurns | engine/animation/src/animation_mixer.cpp:596-613 | an override of rotations turns the input towards the normalized sum, by group weight and then by layer weight |
| LayerValues.HamiltonProduct | engine/animation/src/animation_mixer.cpp:153-159 | the product of rotations is Hamilton's on one, i, j and k; with `ProductIsLinear` and `ProductIsLinearOnTheLeft` it is that everywhere |
| MixerOrder.EvaluationIgnoresOrder | engine/animation/src/animation_mixer.cpp:475-673 | listing layers, groups and instances in any order gives the same accepted writes whenever both evaluations succeed |
| MixerOrder.FailsWithFirst | engine/animation/src/animation_mixer.cpp:508-632 | a layer fails on a property exactly when its first contributing group, overrides first, fails to mix |
| MixerOrder.FailureIgnoresInstanceOrder | engine/animation/src/animation_mixer.cpp:517-613 | reordering instances never changes whether a layer fails |
| MixerOrder.FailureDependsOnGroupOrder | engine/animation/src/animation_mixer.cpp:508-632 | two additive groups of which one scales by a negative factor fail in one order and are discarded in the other |
| AnimationSampler.ResolveLocalBeat | engine/animation/src/animation_sampler.cpp:149-220 | nothing before the start, the elapsed time modulo the duration while iterations remain, then the duration or nothing by fill mode; overflow exactly when an intermediate beat does not fit |
| AnimationSampler.LocalTimeIsUnique | engine/animation/src/animation_sampler.cpp:149-220 | the elapsed local time of which the resolution speaks is unique |
| AnimationSampler.ResolvesOneWay | engine/animation/src/animation_sampler.cpp:149-220 | the resolved beat is a function of the elapsed local time |
| AnimationSampler.EndlessClipRepeats | engine/animation/src/animation_sampler.cpp:149-220 | an endless clip is at the same beat whole durations later |
| AnimationSampler.ResolvedIsInClip | engine/animation/src/animation_sampler.cpp:149-220 | whatever is resolved lies between zero and the duration |
| AnimationSampler.FinishedExactly | engine/animation/src/animation_sampler.cpp:190-215 | the finishing test on lap index and remainder holds exactly from count durations on |
| AnimationSampler.UpperBoundSegment | engine/animation/src/animation_sampler.cpp:108-145 | the binary search finds what a linear scan for the last started segment finds |
| AnimationSampler.SampleSegment | engine/animation/src/animation_sampler.cpp:66-106 | a beat before the segment is refused, overflow is reported exactly when end or progress does not fit, else the interpolated or held value is given |
| AnimationSampler.SampleTrack | engine/animation/src/animation_sampler.cpp:108-131 | the value of the last started segment, or none |
| AnimationSampler.SampleStepTrack | engine/animation/src/animation_sampler.cpp:133-147 | the value of the last step reached, or none |
| AnimationSampler.SampleClip | engine/animation/src/animation_sampler.cpp:222-255 | rejects exactly the beats outside the clip, overflows exactly when a track does before any interpolation error, else gives the tracks' values in order |
| AnimationSampler.SampleInstance | engine/animation/src/animation_sampler.cpp:257-291 | resolving and sampling together: the resolved beat is never rejected by the clip |
| ParentChains.FateOfOne | engine/chart/src/chart_runtime.cpp:57-104 | a key is a root, hangs from a missing parent, or shares its parent's fate |
| ParentChains.EndlessMeansCycle | engine/chart/src/chart_runtime.cpp:57-104 | a chain of parents is endless exactly when some walk along it comes back to itself |
| ChartHierarchy.HierarchyValidator.Visit | engine/chart/src/chart_runtime.cpp:46-106 | settles an object and all above it by the fate of its chain, keeps all earlier states, reports a cycle exactly when one was found and an orphan exactly for a missing parent |
| ChartHierarchy.SettleAll | engine/chart/src/chart_runtime.cpp:659-666 | whatever the visit order, an object is Valid iff its parent chain ends at a root, Skipped iff at a missing parent, Cyclic otherwise |
| ChartHierarchy.Compile | engine/chart/src/chart_runtime.cpp:640-701 | fails exactly for an empty or repeated identifier or a cycle, never with the internal-parent-missing error, and otherwise compiles exactly the rooted objects in order with the indices of their parents |
| ChartHierarchy.ParentsAreIncluded | engine/chart/src/chart_runtime.cpp:672-701 | every included object's parent is included, so the internal-parent-missing branch is unreachable |
| ChartHierarchy.CompilationIgnoresOrder | engine/chart/src/chart_runtime.cpp:640-701 | the compiled objects and parent indices do not depend on the order of the document's objects |
| CandidateLowering.Lower | engine/chart/src/candidate_lowering.cpp:151-303 | reports exactly the faults of the entities; without any, the objects are strictly sorted by execution identifier, one per entity, and following parents always reaches a root |
| CandidateLowering.ParentIsDeclared | engine/chart/src/candidate_lowering.cpp:202-303 | after the remap each parent index names exactly the object of the entity's declared parent |
| CandidateLowering.ObjectsAreDeclared | engine/chart/src/candidate_lowering.cpp:67-200 | every object bears its entity's own identifier, or the hashed name of a generated identity, and exactly its entity's components with their payloads |
| CandidateLowering.HasParentCycle | engine/chart/src/candidate_lowering.cpp:238-275 | the marking climb errs if and only if some parent chain does not end at a root |
| CandidateLowering.LoweringIgnoresOrder | engine/chart/src/candidate_lowering.cpp:151-303 | any permutation of the entities gives the same artifact |
| CandidateLowering.FaultsIgnoreOrder | engine/chart/src/candidate_lowering.cpp:151-275 | and the same faults |
| CandidateLowering.Rearrange | engine/chart/src/candidate_lowering.cpp:277-303 | sorting by identifier and remapping through the inverse moves every object with its parent |
| CandidateLowering.MovingKeepsRoots | engine/chart/src/candidate_lowering.cpp:277-303 | the remap changes nobody's way up to a root |
| CandidateLowering.ToRuntimeComponents | engine/chart/src/candidate_lowering.cpp:67-97 | reports a repeated component exactly when there is one, else maps each kind to its payload |
| TemplateExpansion.TemplateResolver.Resolve | engine/chart/src/canonical_chart_template_internal.cpp:216-283 | memoised resolution, from any state earlier resolutions left, gives exactly the recursively defined expansion, forgets nothing, and of all that was resolved it has reported exactly the templates whose parent is missing, and for every cycle run into exactly one template on it |
| TemplateExpansion.ClimbIsReported | engine/chart/src/canonical_chart_template_internal.cpp:216-260 | what one climb reports at its end makes the reports right for every template on its way |
| TemplateExpansion.ResolveAll | engine/chart/src/canonical_chart_template_internal.cpp:396-412 | resolving templates in any order expands each by its definition |
| TemplateExpansion.ExpansionOfOne | engine/chart/src/canonical_chart_template_internal.cpp:246-283 | the expansion is the prototype of a root, or the base's expansion with the template's own patches applied after it |
| TemplateExpansion.ExpandsExactly | engine/chart/src/canonical_chart_template_internal.cpp:216-260 | the expansion that Resolve computes exists exactly when the ancestor chain ends at a root with a prototype: not for a cycle, a missing parent or a bare root |
| TemplateExpansion.ApplyPatches | engine/chart/src/canonical_chart_template_internal.cpp:98-200 | the loop over patches changes the components and reports the errors exactly as the patches one after another do; more patches than the limit, or components that are no object, change nothing and give the one report |
| TemplateExpansion.PatchDoesItsPart | engine/chart/src/canonical_chart_template_internal.cpp:126-200 | add puts, replace puts where something was, remove takes away, at the patch's target and nowhere else |
| TemplateExpansion.PatchSucceedsExactly | engine/chart/src/canonical_chart_template_internal.cpp:98-200 | a patch is refused for exactly one of its reasons, in the order of the checks, and is carried out otherwise |
| TemplateExpansion.PatchesCommute | engine/chart/src/canonical_chart_template_internal.cpp:98-200 | patches to different components commute |
| TemplateExpansion.TargetsHavePaths | engine/chart/src/canonical_chart_template_internal.cpp:68-92 | patches can reach exactly the targets of the schema |
| TemplateExpansion.SplitUndoesJoin | engine/chart/src/canonical_chart_template_internal.cpp:34-66 | splitting the escaped path of any non-empty list of segments returns that list |
| TemplateExpansion.SplitPatchPath | engine/chart/src/canonical_chart_template_internal.cpp:34-66 | the scanning loop splits and unescapes as specified |
| IdentityPreimages.ParameterSetsDecide | engine/chart/src/chart_parameter_resolver.cpp:122-164 | sorted parameters have the same preimage if and only if the sets of parameters are the same |
| IdentityPreimages.PreparedSetsDecide | engine/chart/src/candidate_lowering.cpp:314-369 | assembled identities have the same preimage if and only if semantics and resource sets are the same |
| IdentityPreimages.EntryIsReadBack | engine/chart/src/chart_parameter_resolver.cpp:138-164 | an entry's bytes tell where they end and which entry it is, up to the sign of zero |
| IdentityPreimages.ListIsReadBack | engine/chart/src/chart_parameter_resolver.cpp:138-164 | two lists give the same bytes only when they are the same list |
| IdentityPreimages.ParameterIdentity | engine/chart/src/chart_parameter_resolver.cpp:138-164 | the loop feeds the hash exactly the domain, count and entries in order |
| IdentityPreimages.ParameterExample | engine/chart/src/chart_parameter_resolver.cpp:122-164 | the bytes of a number, a fraction and a negative zero, one by one: domain, lengths, identifiers, tags and values, least byte first |
| IdentityPreimages.AssemblePrepared | engine/chart/src/candidate_lowering.cpp:330-369 | refuses exactly the counts that do not fit, and otherwise with the error of the first unusable or repeated identifier in sorted order; else feeds the sorted resources |
| IdentityPreimages.PreparedExample | engine/chart/src/candidate_lowering.cpp:314-369 | the bytes of one resource behind a semantic identity |
| WavDecoder.Decode | engine/audio_sdl/src/wav_decoder.cpp:83-189 | the chunk walk ends and every read is in bounds for arbitrary bytes, and the result is the specified decoding |
| WavDecoder.DecodesChunks | engine/audio_sdl/src/wav_decoder.cpp:83-189 | the decoding of a container is decided by its chunks taken in turn |
| WavDecoder.OnlyRiffIsDecoded | engine/audio_sdl/src/wav_decoder.cpp:83-189 | whatever decodes is a container of written chunks, and decodes as those chunks do |
| WavDecoder.UnknownChunksAreIgnored | engine/audio_sdl/src/wav_decoder.cpp:109-156 | inserting unknown chunks anywhere changes neither the clip nor the error |
| WavFiles.DecodingInvertsWriting | tools/check_stage6_a2.py:199-212 | decoding the canonical file of samples in any of the five encodings (8, 16, 24 and 32 bits, floats), with unknown chunks anywhere and trailing bytes, yields exactly those samples, integers divided by 2^(bits - 1); only a float that is not finite is reported |
| WavFiles.SampleComesBack | engine/audio_sdl/src/wav_decoder.cpp:57-77 | one sample of any encoding, wherever it stands, decodes to its value |
| WavFiles.ParsesExactly | engine/audio_sdl/src/wav_decoder.cpp:119-140 | a format chunk is accepted exactly for one or two channels, 8000 to 192000 frames a second, a supported encoding and the block size that follows, and read from its places |
| WavFiles.TakesExactly | engine/audio_sdl/src/wav_decoder.cpp:109-156 | chunks are taken without a report exactly when at most one is a format, a good one, and at most one is data |
| WavFiles.ContainerDecodesExactly | engine/audio_sdl/src/wav_decoder.cpp:83-189 | a container within the size limit decodes exactly when it has one good format chunk and one data chunk of whole frames, at least one, whose floats are finite |
| WavDecoder.ClipChecksAreRedundant | engine/audio/src/audio_clip.cpp:35-63 | after the decoder's own checks the clip's never fail |
| AudioClipStores.AudioClipStore.RegisterClip | engine/audio/src/audio_clip.cpp:152-192 | the refusals in their order with exact conditions; a registered clip adds exactly one new handle to the accepted ones, reusing a vacant slot while there is one, and both counters follow |
| AudioClipStores.RefusesExactly | engine/audio/src/audio_clip.cpp:152-192 | each refusal has its one reason in terms of the limits, with four bytes for every sample |
| AudioClipStores.AudioClipStore.Lease | engine/audio/src/audio_clip.cpp:194-210 | a handle is accepted exactly when the store holds it, and gives its clip |
| AudioClipStores.AudioClipStore.Remove | engine/audio/src/audio_clip.cpp:212-230 | removes exactly that handle and its bytes and moves the slot to its next generation, or changes nothing |
| AudioClipStores.ContentsAreCounted | engine/audio/src/audio_clip.cpp:152-230 | the clip counter is the number of accepted handles |
| AudioClipStores.AudioClipStore.CountersAgree | engine/audio/src/audio_clip.cpp:152-230 | clip and byte counters are the number and size of what is held |
| AudioClipStores.AcceptedDuringItsLife | engine/audio/src/audio_clip.cpp:194-230 | a handle is accepted exactly while its slot is occupied and the removals since it was issued are a multiple of 2^32 - 1 |
| AudioClipStores.AudioClipStore.WrapAround | engine/audio/src/audio_clip.cpp:212-230 | after 2^32 - 1 cycles the first handle is accepted for another clip |
| AudioClipStores.NextIsAfter | engine/audio/src/audio_clip.cpp:226-229 | the increment that skips zero counts removals modulo 2^32 - 1 |
| PlayerControls.PlayerController.CommitBundle | app/player/src/player_control.cpp:580-745 | the six steps stop exactly at the first refusing answer; success publishes every part anew with exactly the new clip in the store and the seat after it; failure leaves bundle, store and renderer as they were, fails the application exactly for activation and commit, settles the candidate and leaves the seat exactly as LeftSeat says |
| PlayerControls.PlayerController.Transact | app/player/src/player_control.cpp:580-745 | after a failure the seat plays a clip the store does not hold if and only if the stream had been replaced on the same device: the commit failed, or the device did not resume; after a success the seat, if any, keeps the device it had in audio mode or is on the one opened, and plays the new clip from where source and chart clock begin |
| PlayerControls.StopsExactly | app/player/src/player_control.cpp:580-745 | each refusal of a transaction has its one reason: the first answer in the order of the steps that is not what is needed |
| PlayerControls.OpeningStopsExactly | app/player/src/player_control.cpp:391-496 | and so have the refusals of a load, a reload and a rebuild before it |
| PlayerControls.CommandStopsExactly | app/player/src/player_control.cpp:323-578 | and those of every command the table lets through |
| PlayerControls.StraysExactly | app/player/src/player_control.cpp:655-745 | of what a failure leaves of the seat: it strays exactly for a commit or an activation that had opened the new stream, and otherwise as before |
| PlayerControls.StrandedSeat | app/player/src/player_control.cpp:580-745 | a run from an audio load into both: a failed precheck leaves a stream of a discarded clip staged, a failed commit or a device that does not resume leaves one playing |
| PlayerControls.PlayerController.StageBundle | app/player/src/player_control.cpp:586-653 | staging publishes nothing and stops exactly at the first refusing answer; then the clip and the candidate are gone again and the seat is as it was, but for the replacement that a failed precheck leaves staged on the same device |
| PlayerControls.PlayerController.RunLoad | app/player/src/player_control.cpp:391-421 | fails exactly at the first refusing answer, demanding a mode exactly for mismatching content without one; a successful load starts source and chart clock at zero, with a seat exactly in audio mode; a failed one leaves bundle, store and renderer as they were and the seat as LeftSeat says |
| PlayerControls.PlayerController.RunReload | app/player/src/player_control.cpp:423-450 | a reload keeps the mode and the session object and goes on from the last position, chart clock and seat alike; it fails exactly at the first refusing answer, and then bundle, store and renderer are as they were and the seat as LeftSeat says |
| PlayerControls.PlayerController.RunRebuild | app/player/src/player_control.cpp:452-496 | a rebuild closes the seat and drops the presentation before it can fail; then the application has failed with its bundle and clip kept |
| PlayerControls.PlayerController.Apply | app/player/src/player_control.cpp:323-358 | a command during a transaction changes nothing; between transactions its result is exactly the first refusal of table and ports, candidates are settled, the store holds exactly the active clip, a seat exists iff the mode is CuexisAudio unless empty or failed, a failed load or reload rolls back, and Failed is left only by a successful load or rebuild |
| PlayerControls.PlayerController.RunTransport | app/player/src/player_control.cpp:498-578 | pause freezes the chart time a later play resumes from, stop and seek set it, audio sessions use the transport only |
| PlayerControls.PlayerController.Shutdown | app/player/src/player_control.cpp:747-773 | seat and clip are released and the state is Empty |
| PlayerControls.PlayerController.Live | app/player/src/player_control.cpp:580-773 | over any sequence of commands, observations and failures every candidate ever prepared was activated or discarded exactly once, and the store's counters are those of the active clip alone |
| PlayerControls.PlayerController.AlwaysRoom | engine/audio/src/audio_clip.cpp:152-175 | with limits for two clips, as the default ones, a transaction's clip is never refused for capacity |
| PlayerControls.EvaluateCommand | engine/player_support/src/player_command.cpp:60-131 | a transaction in progress refuses everything, only load and rebuild are accepted when empty or failed, nothing leads to Failed, duplicates are exactly the three repeated transport states |
| SdlTransports.SdlTransport.Service | engine/audio_sdl/src/sdl_audio.cpp:746-814 | fails exactly where the device does, with that error; otherwise frame, submitted frames and underruns are exactly those after the reading, an underrun when the queue is dry with unheard frames left, and the due refill, and the state is Ended exactly at the last frame |
| SdlTransports.RefillIsSound | engine/audio_sdl/src/sdl_audio.cpp:788-812 | for every validated configuration and clip a due refill queues at least one frame, reads only samples of the clip, and has at most 1536000 bytes |
| SdlTransports.RefillReachesTarget | engine/audio_sdl/src/sdl_audio.cpp:788-812 | a refill is due exactly while less than the low water mark is queued and the clip goes on, and fills up to the target or the end of the clip |
| SdlTransports.ServiceExactly | engine/audio_sdl/src/sdl_audio.cpp:746-814 | a service counts an underrun exactly when less than a frame is queued of a clip that goes on, with submitted frames not yet presented, and then starts a new segment at what was heard; it submits exactly a due refill and presents what has been heard by its end |
| SdlTransports.RunningFailsExactly | engine/audio_sdl/src/sdl_audio.cpp:746-814 | each failure of a stream that is to run has its one reason: the device is gone, changed, does not tell its queue, refuses a due refill or does not resume |
| SdlTransports.FramesAreWhole | engine/audio_sdl/src/sdl_audio.cpp:746-814 | of the queued bytes four for each channel make a frame, and a frame that is not whole is not counted |
| SdlTransports.ValidateConfig | engine/audio/src/audio_config.cpp:25-50 | accepted, and kept as it is, exactly for the default route with 40 <= target <= 1000, 10 <= low water < target and a gain in 0 to 1 |
| SdlTransports.CreatedIsClip | engine/audio/src/audio_clip.cpp:35-63 | what the clip checks accept has whole frames and the bounds the transport relies on |
| SdlTransports.SdlTransport.UpdatePresentedFrame | engine/audio_sdl/src/sdl_audio.cpp:374-410 | the presented frame is the exact converted count clamped between what was presented and what was submitted, and the state Ended exactly at the last frame |
| SdlTransports.CandidateIsExact | engine/audio_sdl/src/sdl_audio.cpp:387-405 | the 64-bit saturations never show in the computed frame |
| SdlTransports.HeardExactly | engine/audio_sdl/src/sdl_audio.cpp:374-410 | the presented frame is the callbacks of this segment less what the device buffers, in frames of the clip rounded down, unless that is before what was presented or after what was submitted |
| SdlTransports.SdlTransport.SeekMs | engine/audio_sdl/src/sdl_audio.cpp:676-725 | the exact result for every state, position and device answer; the stream restarts at the nearest frame, under a new discontinuity exactly when the presented frame moved, and goes on playing with the books of a service if it played |
| SdlTransports.FrameIsNearest | engine/audio_sdl/src/sdl_audio.cpp:686-693 | a position within the clip has a frame of the clip at most half a frame away |
| SdlTransports.SdlTransport.Stop | engine/audio_sdl/src/sdl_audio.cpp:639-674 | succeeds exactly when the device pauses and clears, or nothing is to be done; back to frame zero, under a new discontinuity unless nothing was presented or submitted |
| SdlTransports.SdlTransport.Pause | engine/audio_sdl/src/sdl_audio.cpp:618-637 | succeeds exactly for a playing stream whose device pauses, or a paused one; presents exactly what has been heard, and is Paused also at the last frame |
| SdlTransports.SdlTransport.Play | engine/audio_sdl/src/sdl_audio.cpp:594-616 | plays from Stopped or Paused exactly when the filling service and the device succeed, with exactly the books of that service; a refused call changes nothing |
| SdlTransports.SdlTransport.Load | engine/audio_sdl/src/sdl_audio.cpp:575-592 | succeeds exactly for an empty transport, an accepted handle and a device with a usable format, and then stands stopped at zero |
| SdlTransports.OpensExactly | engine/audio_sdl/src/sdl_audio.cpp:294-350 | a device opens exactly with a positive rate, channels and buffer |
| SdlTransports.SdlTransport.ActivateReplacement | engine/audio_sdl/src/sdl_audio.cpp:935-963 | the exact result; the replacement takes over at its frame under one new discontinuity, keeps playing iff it was playing, with the books of a fresh stream, and first publishes a stopped transport there |
| SdlTransports.PlayAndPause | engine/audio_sdl/src/sdl_audio.cpp:594-637 | a stream that is played and, when all has been heard, paused ends Paused at its last frame |
| SdlTransports.PausedAtTheEnd | engine/audio_sdl/src/sdl_audio.cpp:594-637 | a run of load, play and pause with a clip of one frame that ends so |
| SdlTransports.StoppedAwayFromZero | engine/audio_sdl/src/sdl_audio.cpp:935-963 | a run that replaces a stream at its second frame and publishes a stopped transport there |
| SdlTransports.SdlTransport.PrepareReplacement | engine/audio_sdl/src/sdl_audio.cpp:908-933 | stages a clip at the nearest frame and touches nothing else |
| SdlTransports.SdlTransport.Unload | engine/audio_sdl/src/sdl_audio.cpp:727-744 | empties the transport, with its staged replacement, under a new discontinuity |
| SdlTransports.SdlTransport.Live | engine/audio_sdl/src/sdl_audio.cpp:233-424 | over any operations and device answers 0 <= presented <= submitted <= frameCount, the stream has been given exactly the clip's frames from its start to what was submitted, and publications are in order |
| SdlTransports.PositionsDoNotGoBack | engine/audio_sdl/src/sdl_audio.cpp:233-277 | of two publications with the same identity, fewer than all identities apart, the later has no earlier frame or position |
| SdlTransports.PositionIsNearest | engine/audio_sdl/src/sdl_audio.cpp:233-277 | a published position is that of the presented frame to the nearest microsecond |

## Left out

- OpenGL, windows, shaders, logging, diagnostics wording and order, JSON and the field-by-field readers, file and path
  checks, hashing itself: foreign calls, input and output, or long and shallow checks.
- Identifiers, paths and field shapes in the asset database are one opaque test `malformed`; physical roots and
  case-folded path conflicts are not modelled.
- Owner-thread checks and operations on moved-from or expired objects: every call is on the owner thread of a live object.
- Floating point: doubles and floats are reals, so rounding, non-finite values and the order of float additions are not
  captured. The bytes of IEEE floats in WAV data and in identities are kept as patterns that are not interpreted.
- Quaternion normalisation, slerp, logarithm and exponential: interpolation and turns of rotations are parameters with
  the few laws a result needs as its premises.
- BehaviorMigration.BehaviorKeepsMeaning: rotations under in_out_cubic need a midpoint that halves the turn, which is a
  premise; documents, groups and the limits on numbers of events and objects are not modelled.
- HostClocks: the atomics are sequentially consistent, as they are by default; the relaxed accesses of the device
  transport's published clock are not modelled.
- ResourceManagers: contents are byte strings, one provider answers in sequence, and each pool operation under the lock
  is one step; destruction order is not modelled.
- ResourceScopes.RequestAllOrNothing: each load inside a request is one undisturbed load. Steps of other holders are
  taken between whole operations (`SharedScopes`), not between the two halves of a load inside a request.
- AnimationMixer: bindings, entities and the write buffer, and the samples of clip instances, are given;
  `AnimationSampler` is about the samples themselves.
- MixerOrder.EvaluationIgnoresOrder: which of two failures is reported when both orders fail is not stated.
- CandidateLowering: the profile and timing checks before lowering and the payloads of components are opaque.
- TemplateExpansion: the wording and paths of the diagnostics, and their order among templates.
- ChartHierarchy: stopping early at the diagnostics limit is not modelled, for the limit only ends a compilation that
  has failed already.
- IdentityPreimages: parameter declarations, types, defaults and constraints before the values are resolved.
- PlayerControls.PlayerController.CommitBundle: what the session, renderer, ports and seat do inside is an argument; a
  session whose commit fails is taken to be unchanged. The frame loop, hooks and the identity of the configuration are
  not modelled, nor the correction of a seek's source position, whose failure counts as the transport's.
- PlayerControls.PlayerController.RunTransport: a seek target that is no number is left out with the other non-finite
  values.
- SdlTransports: the effect of the gain, device enumeration and names, latency figures and metrics other than the
  underrun count; the service counter and the underrun counter are unbounded.
- SdlTransports.SdlTransport.Live: the callback's counters are arbitrary at every reading, so nothing is said about how
  fast a device plays.
- AudioClipStores.AudioClipStore.RegisterClip: store tokens are given and distinct stores are not compared.
