# RDC metrics engine: model and proofs

A Dafny model of the metrics engine of the ROCm Data Center tool (RDC): the groups clients define, the
watch table, the sample and job cache, the telemetry dispatch between them, and three pieces of fetcher
machinery (event counters, the asynchronous PCIe fetch, rolling averages).

`dafny verify dfyconfig.toml` checks the whole project.

## How it is built

Objects the source changes in place are classes (`GroupTable`, `Manager`, `EventCounters`, `Module`,
`Table`, `Averages`, `Fetch`). Their methods keep the source's loops and stand for its critical sections, or
for parts of one; each is proved to carry out a function on the object's value. Properties that span
operations are proved about those functions, over all runs:

- `Engine.dfy` puts the groups, the watch table, the field index, the job table, the cache and the open
  counters into one state and defines a step per critical section. `AnySteps` is any sequence of steps from
  start-up. `IsRun` adds what is expected of the environment: clock readings taken under the watch mutex
  do not go back, telemetry answers the fields it was asked for, notification events carry notification
  fields, id counters do not wrap, and no group is changed or destroyed while an active watch names it.
- `Invariants.dfy`: the incrementally maintained field index always agrees with the settings deduced from
  the watch table. The hypothesis on groups is shown to be needed, with the exact condition under which
  destroying a group, or adding a GPU to one, does no harm.
- `Lifetimes.dfy`: an unwanted field expires and leaves no samples behind, selections of a field respect its
  rate limit from both sides, clean-up runs at most once a second and keeps what each client asked to keep until
  its unwatch, and open counters follow the marks.
- `JobRuns.dfy`: a job's record is the fold of exactly the samples delivered to it, and its ECC counters are
  the fold of exactly its stops, so that a report shows the exact averages, extremes and times of those samples and
  the difference between start and stop.
- `JobCalls.dfy`: over runs of whole client calls one stop per start is not assumed but proved.
- `ConcurrentStops.dfy` and `ConcurrentStarts.dfy`: two stops of one job, and a stop and a start of one id, whose
  critical sections interleave in any order, with the exact orders in which the wrong thing happens;
  `Schedules.dfy` is the order itself.
- `WatchTable.dfy`: the watch table object, whose methods carry out the engine's steps.

The clock, the SMI and rocprofiler calls and the values they give are parameters: `now` and `at` arguments,
`times` and `evictAt` functions for repeated readings, `Library` for what a library's hardware answers, and
`offer`, `stops` and `destroys` for the answers of the counter calls. Doubles are modelled by reals, integers are
unbounded except where a conversion is written out (`ToInt32`, `Sub64`, `ToU64`, the 32-bit memory adjuster,
the id counters). A `std::map` iteration whose order cannot matter is a loop over a set of keys; job ids and
GPU ids are visited in order, except that a removal of all jobs stops them in any order.

Where code and documentation disagree the model follows the code: `max_keep_samples` 0 keeps nothing,
although `include/rdc/rdc.h:975` says "no limit".

## What the code does not guarantee

- `evict_cache` converts an unsigned difference to `int`. `RemoveCountExactIff` shows that it erases the
  right number of samples exactly when the difference fits; for limits more than 2^31 above the size it asks
  to erase past the end, which is undefined in C++ (the model clamps it to the size).
- A one-by-one fetch that fails before writing its slot is reported under the field of the last request that
  wrote that slot, or the slot's initial content: `OwnKeyIff` says exactly when that is its own field.
- Destroying the group of an active watch can leave its fields marked, and makes every unwatch fail until that
  watch itself is unwatched (`DestroyBreaksAgreement`, `LostGroupBlocksUnwatch`); `UnwatchClearsMarkIff` and
  `StepClearsMarkIff` say exactly which step clears a mark. A GPU added to a watched group may not be marked for
  that watch, or not be kept as long as it asks (`AddGpuBreaksAgreement`, `AddGpuLosesRetention`).
  `DestroyKeepsAgreementIff`, `DestroyFieldsKeepsAgreementIff` and `AddGpuKeepsAgreementIff` give the exact
  conditions.
- Two samples with equal timestamps stop a since-cursor (`CursorAdvancesIff`).
- A job's record can be stopped twice, which corrupts its ECC counts: by two stops that overlap
  (`StopIsRefusedIff` gives the exact order of critical sections), or by a stop that overlaps a start of the same
  id and stops the new record, followed by any later stop (`RestartLeavesStoppedIff`,
  `RestartedJobIsStoppedTwice`). `SecondStopKeepsEccIff` gives the gauges that do no harm. Calls that do not
  overlap any other call on jobs cannot do this (`OneStopPerStart`).
- A stop without an ECC gauge leaves the start counter, which every later report shows as if it were the difference
  (`StoppedJobReport`).
- A stop that overlaps a start can leave the job running where no later stop finds it (`StartLeavesOrphanIff`).
- Samples below zero can put a summary's average outside its bounds, and GPUs without samples the job's average
  below its minimum: `GpuSummaryBoundsIff` and `SilentLowerBoundIff` say exactly when.
- A wrapped id counter can hand out an id again (`WrapReusesAnId`), or one still in use, with the old group's
  content (`IssuedIdHoldsRequestIff`, `WrapHandsOutJobGroup`).
- A report divides by zero for memory samples of a GPU whose total memory is less than 100 bytes above a multiple
  of 400 GiB (`ReportTrapsIff`, `ZeroAdjusterIff`, `ReportDividesByZero`).

## Model

| member | source | states |
|---|---|---|
| GroupSettings.RunWithinLimits | rdc_libs/rdc/src/RdcGroupSettingsImpl.cc:32-165 | every run of group operations keeps at most 64 groups of each kind, at most 64 distinct GPUs per group, at most 128 fields per field group, and job field group 0 with its eight fields |
| GroupSettings.IdsNeverReused | rdc_libs/rdc/src/RdcGroupSettingsImpl.cc:43-65 | until a counter wraps, an id once gone from a table never comes back |
| GroupSettings.GroupsOnlyGrow | rdc_libs/rdc/src/RdcGroupSettingsImpl.cc:67-90 | while a group exists its GPUs keep their places and are only added at the end; field groups never change |
| GroupSettings.MembersAreAdded | rdc_libs/rdc/src/RdcGroupSettingsImpl.cc:67-90 | over any run, wrapped counters included, a new group that is not destroyed holds only GPUs that were added to it, and every one of them until it has 64 |
| GroupSettings.WrapReusesAnId | rdc_libs/rdc/src/RdcGroupSettingsImpl.cc:43-59 | the no-wrap hypothesis is needed: a run from start-up that issues and destroys every GPU group id but the last, and then wraps, gives id 1 to another group |
| GroupSettings.IssuedIdHoldsRequestIff | rdc_libs/rdc/src/RdcGroupSettingsImpl.cc:43-155 | a create that is not refused puts what was asked for under the id it hands out exactly when the counter stands at a free id, or at a group with that very content |
| GroupSettings.IssuedIdsAreFree | rdc_libs/rdc/src/RdcGroupSettingsImpl.cc:43-155 | in every run from start-up that does not wrap, both counters stand at a free id |
| GroupSettings.WrapHandsOutJobGroup | rdc_libs/rdc/src/RdcGroupSettingsImpl.cc:130-155 | a run from start-up that wraps the field-group counter ends with a create answered Ok with id 0: the job field group stays and the client's list, whatever it is, is dropped |
| GroupSettings.GroupTable.constructor | rdc_libs/rdc/src/RdcGroupSettingsImpl.cc:32-41 | start-up leaves no GPU group and the job field group under id 0 |
| GroupSettings.GroupTable.CreateGpuGroup | rdc_libs/rdc/src/RdcGroupSettingsImpl.cc:43-59 | an Ok adds an empty group under the id handed out, or leaves the table alone if that id is in use; refused, and nothing changed, at 64 groups |
| GroupSettings.GroupTable.DestroyGpuGroup | rdc_libs/rdc/src/RdcGroupSettingsImpl.cc:61-65 | the id is gone and every other group as it was; NOT_FOUND for an unknown id |
| GroupSettings.GroupTable.AddGpuToGroup | rdc_libs/rdc/src/RdcGroupSettingsImpl.cc:67-90 | an Ok puts the GPU at the end of the group and changes nothing else; unknown group, GPU already present and a group of 64 are told apart and change nothing |
| GroupSettings.GroupTable.CreateFieldGroup | rdc_libs/rdc/src/RdcGroupSettingsImpl.cc:130-155 | an Ok puts the list under the id handed out, or leaves the table alone if that id is in use; refused, and nothing changed, for more than 128 fields or at 64 field groups |
| GroupSettings.GroupTable.DestroyFieldGroup | rdc_libs/rdc/src/RdcGroupSettingsImpl.cc:157-165 | on Ok the id is gone and every other group as it was; refused for the job field group |
| SampleCache.RemoveCountExactIff | rdc_libs/rdc/src/RdcCacheManagerImpl.cc:90-95 | the truncated difference erases the right number of samples exactly when it fits an int; above that range it asks for more than there are |
| SampleCache.EvictSuffix | rdc_libs/rdc/src/RdcCacheManagerImpl.cc:90-109 | eviction only shortens a vector from the front |
| SampleCache.EvictKeepsUnexpired | rdc_libs/rdc/src/RdcCacheManagerImpl.cc:90-109 | with sorted timestamps eviction keeps exactly the unexpired samples among the last max_keep_samples |
| SampleCache.EvictKeepsFresh | rdc_libs/rdc/src/RdcCacheManagerImpl.cc:90-109 | sorted or not, eviction keeps everything from a sample on that is among the last max_keep_samples and whose age has not passed |
| SampleCache.EvictMonotone | rdc_libs/rdc/src/RdcCacheManagerImpl.cc:90-109 | larger limits keep everything smaller limits keep, sorted or not |
| SampleCache.EvictEmpties | rdc_libs/rdc/src/RdcCacheManagerImpl.cc:97-109 | a vector of expired samples is emptied |
| SampleCache.EvictVector | rdc_libs/rdc/src/RdcCacheManagerImpl.cc:90-109 | the eviction loops compute that eviction |
| SampleCache.ReadSince | rdc_libs/rdc/src/RdcCacheManagerImpl.cc:52-77 | the search finds the first sample at or after the cursor and hands back the next sample's time, or one past the last |
| SampleCache.CursorAdvancesIff | rdc_libs/rdc/src/RdcCacheManagerImpl.cc:54-62 | in a sorted vector the cursor moves past the returned sample exactly when the next one has another timestamp; otherwise it stays stuck |
| SampleCache.Drain | rdci/src/RdciDmonSubSystem.cc:362-379 | over strictly increasing timestamps the drain loop ends and returns every sample at or after its start, leaving none |
| SampleCache.ReaderDeliversInOrder | rdc_libs/rdc/src/RdcCacheManagerImpl.cc:36-112 | a reader interleaved in any way with appends and evictions delivers in strictly increasing order and has delivered every still-cached sample between its start and its cursor |
| SampleCache.ReadProgresses | rdc_libs/rdc/src/RdcCacheManagerImpl.cc:52-77 | in every such run a read delivers the oldest still-cached sample at or after the cursor and moves the cursor past it but not past the next |
| JobStats.FoldCounts | rdc_libs/rdc/src/RdcCacheManagerImpl.cc:208-234 | count, total, maximum, minimum and last time are those of the sample list |
| JobStats.WelfordExact | rdc_libs/rdc/src/RdcCacheManagerImpl.cc:218-243 | the running mean times the count is the total, and the running sum is the sum of squared deviations from the mean, never negative |
| JobStats.VarianceExact | rdc_libs/rdc/src/RdcCacheManagerImpl.cc:263-266 | for two or more samples, what the standard deviation is the root of is the sample variance, never negative |
| JobStats.GpuSummaryExact | rdc_libs/rdc/src/RdcCacheManagerImpl.cc:256-258 | for nonnegative samples with a 64-bit total and unit u, the reported average a of n samples is the one with a*u*n <= sum < (a+1)*u*n, and maximum and minimum are the greatest and least sample divided by u |
| JobStats.GpuSummaryBounds | rdc_libs/rdc/src/RdcCacheManagerImpl.cc:256-258 | for nonnegative samples, min <= average <= max through the nested divisions |
| JobStats.GpuSummaryBoundsIff | rdc_libs/rdc/src/RdcCacheManagerImpl.cc:256-258 | for 64-bit samples of either sign (count squared times adjuster at most 2^64), min <= average <= max holds exactly when no sample rounds below zero and the total is not negative, or there is one sample and the adjuster is 1 |
| JobStats.NegativeSampleBreaksBounds | rdc_libs/rdc/src/RdcCacheManagerImpl.cc:256-258 | an instance: one negative sample of two wraps the minimum above the average |
| JobStats.JobSummaryBounds | rdc_libs/rdc/src/RdcCacheManagerImpl.cc:259-262 | the job average is at most the job maximum, and at least the job minimum when every GPU has samples |
| JobStats.SilentLowerBoundIff | rdc_libs/rdc/src/RdcCacheManagerImpl.cc:250-262 | the job average is at least the job minimum exactly when the averages of the GPUs with samples exceed that minimum, in all, by at least the minimum times the number of GPUs without samples |
| JobStats.SilentGpuBreaksLowerBound | rdc_libs/rdc/src/RdcCacheManagerImpl.cc:250-254 | an instance: with one constant GPU and one without samples the job average is below the job minimum |
| CacheManager.EccTotalsAreSums | rdc_libs/rdc/src/RdcCacheManagerImpl.cc:315-335 | the job's ECC totals are the sums of its GPUs' counts |
| CacheManager.ReportBounds | rdc_libs/rdc/src/RdcCacheManagerImpl.cc:343-384 | the bounds hold for every metric of a whole job report, with the adjuster each metric uses |
| CacheManager.ReportMadeIff | rdc_libs/rdc/src/RdcCacheManagerImpl.cc:305-384 | a report is made exactly when the job has a GPU and the total memory of every GPU is known and not a zero divisor; it is BAD_PARAMETER exactly when the first GPU that fails lacks its total memory |
| CacheManager.ReportTrapsIff | rdc_libs/rdc/src/RdcCacheManagerImpl.cc:343-349 | a report of a job with GPUs divides by zero exactly when the first GPU that cannot be reported has memory samples and a zero memory adjuster |
| CacheManager.ZeroAdjusterIff | rdc_libs/rdc/src/RdcCacheManagerImpl.cc:346-349 | the memory adjuster is zero exactly for a total memory less than 100 bytes above a multiple of 400 GiB |
| CacheManager.ReportDividesByZero | rdc_libs/rdc/src/RdcCacheManagerImpl.cc:246-258 | an instance: a GPU of 400 GiB with one memory sample |
| CacheManager.OutcomeBounds | rdc_libs/rdc/src/RdcCacheManagerImpl.cc:270-384 | the bounds hold of the report as it is made |
| CacheManager.OutcomeIsExact | rdc_libs/rdc/src/RdcCacheManagerImpl.cc:248-384 | a report shows for every GPU those quotients, in the unit of the metric given by value, and for the job the greatest maximum, the least minimum and the sum of averages, over the GPUs with samples, divided by the number of GPUs |
| CacheManager.OutcomeMemory | rdc_libs/rdc/src/RdcCacheManagerImpl.cc:346-354 | a report's memory figure is the greatest memory sample of the GPU and, for the job, of all its GPUs |
| CacheManager.OutcomeTimes | rdc_libs/rdc/src/RdcCacheManagerImpl.cc:280-311 | a report shows the record's start time and its end time, or the time of the report while the job runs |
| CacheManager.Manager.constructor | include/rdc_lib/impl/RdcCacheManagerImpl.h:114-116 | starts with no samples and no jobs |
| CacheManager.Manager.UpdateCache | rdc_libs/rdc/src/RdcCacheManagerImpl.cc:157-176 | appends to the key's vector, which stays a suffix of everything accepted for it |
| CacheManager.Manager.EvictCache | rdc_libs/rdc/src/RdcCacheManagerImpl.cc:80-112 | evicts the key's vector, which stays a suffix of everything accepted for it |
| CacheManager.Manager.GetLatest | rdc_libs/rdc/src/RdcCacheManagerImpl.cc:114-135 | returns the last sample ever accepted for the key, or nothing when none is cached |
| CacheManager.Manager.GetValueSince | rdc_libs/rdc/src/RdcCacheManagerImpl.cc:36-78 | reads the key's vector by cursor; nothing found leaves the cursor |
| CacheManager.Manager.UpdateJobStats | rdc_libs/rdc/src/RdcCacheManagerImpl.cc:190-246 | folds the sample into the record of job, GPU and field, and nothing else; NOT_FOUND when there is none |
| CacheManager.Manager.JobStart | rdc_libs/rdc/src/RdcCacheManagerImpl.cc:386-422 | replaces the job's record by empty statistics and the gauges' ECC counters |
| CacheManager.Manager.JobStop | rdc_libs/rdc/src/RdcCacheManagerImpl.cc:424-450 | stores the ECC differences for the gauges present and the end time |
| CacheManager.Manager.SummarizeGpu | rdc_libs/rdc/src/RdcCacheManagerImpl.cc:343-366 | one GPU's eight summaries and their share of the job's, as the functions of which `JobStats.GpuSummaryExact` and `CacheManager.OutcomeIsExact` give the values |
| CacheManager.Manager.JobGetStats | rdc_libs/rdc/src/RdcCacheManagerImpl.cc:270-379 | for every job and gauges: NOT_FOUND, the whole report, or the fault of the first GPU, in order, that cannot be reported, a division by zero included |
| Batches.Remaining | rdc_libs/rdc/src/RdcSmiLib.cc:76-85 | the requests the bulk results do not answer, in order |
| Batches.DeliverInBatches | rdc_libs/rdc/src/RdcSmiLib.cc:72-106 | what is handed over is a prefix of the slot contents owed, in nonempty batches of at most 16, complete unless a batch is refused |
| Batches.SmiValueGet | rdc_libs/rdc/src/RdcSmiLib.cc:47-109 | bulk results first, then the rest in batches, against any callback; the first refusal stops the delivery and is returned |
| Batches.RocpValueGet | rdc_libs/rdc_modules/rdc_rocp/RdcTelemetryLib.cc:92-141 | every request is delivered under its own field, in batches of at most 16, until a batch is refused |
| Batches.ExactlyOnce | rdc_libs/rdc/src/RdcSmiLib.cc:57-106 | for distinct requests, whatever subset the bulk call answered, each requested key is owed exactly once and nothing else |
| Batches.BulkAndRest | rdc_libs/rdc/src/RdcSmiLib.cc:57-85 | whatever subset the bulk call answered, its answers and the requests fetched one by one are the requests, each once |
| Batches.WriterIsLast | rdc_libs/rdc/src/RdcSmiLib.cc:72-99 | the writer of a request is the last request up to it in the same one of 16 slots whose fetch wrote |
| Batches.SlotHoldsLastWrite | rdc_libs/rdc/src/RdcSmiLib.cc:72-99 | a slot delivers what its last writer left, or the array's initial content when none wrote |
| Batches.OwnKeyIff | rdc_libs/rdc/src/RdcMetricFetcherImpl.cc:464-487 | a request is delivered under its own key exactly when the last request that wrote its slot, or else the initial slot, has the same field |
| Batches.AllOwnKeysIff | rdc_libs/rdc/src/RdcSmiLib.cc:72-106 | all requests are delivered under their own keys exactly when that holds of each |
| Batches.StaleSlot | rdc_libs/rdc/src/RdcMetricFetcherImpl.cc:474-487 | an instance: the seventeenth request, failing early, is reported under the first one's field and its own key is never delivered |
| BulkFetch.Fetch | rdc_libs/rdc/src/RdcMetricFetcherImpl.cc:338-430 | answers exactly the requested bulk fields that have a value, with that value in the GPU's metrics, none twice, or nothing at all once a requested GPU refuses; the refusal is remembered |
| BulkFetch.BulkValueIs | rdc_libs/rdc/src/RdcMetricFetcherImpl.cc:372-425 | clock and power in millionths, temperatures in thousandths, activity as it is; power falls back from the average to the current reading, and zero is no answer |
| BulkFetch.OrganizePerGpu | rdc_libs/rdc/src/RdcMetricFetcherImpl.cc:357-363 | groups the requested bulk fields by GPU, in order |
| Telemetry.RouteFirst | rdc_libs/rdc/src/RdcTelemetryModule.cc:93-106 | a field is served by the first library whose successful query listed it, and is served exactly when it is supported |
| Telemetry.ServedCount | rdc_libs/rdc/src/RdcTelemetryModule.cc:108-125 | each request goes as often as requested to the one library, or to the unsupported list, that serves it, and nowhere else |
| Telemetry.DispatchConserves | rdc_libs/rdc/src/RdcTelemetryModule.cc:108-145 | across all libraries and the unsupported list the multiset of keys handed out is the multiset requested, repetitions included, and a library whose query failed is handed nothing |
| Telemetry.Module.constructor | rdc_libs/rdc/src/RdcTelemetryModule.cc:93-106 | the field map is exactly that first-wins routing |
| Telemetry.Module.FieldsQuery | rdc_libs/rdc/src/RdcTelemetryModule.cc:35-51 | lists exactly the supported fields |
| Telemetry.Module.LookUp | rdc_libs/rdc/src/RdcTelemetryModule.cc:113 | a look-up gives the routing and, inserting an empty entry, keeps it |
| Telemetry.Module.GetFieldsForModule | rdc_libs/rdc/src/RdcTelemetryModule.cc:108-125 | partitions the requests by library, in order, the unserved ones answered NOT_SUPPORTED |
| Telemetry.Module.SmiGet | rdc_libs/rdc/src/RdcSmiLib.cc:47-109 | the bulk fetch is made if it is enabled and was never refused, and its results, which hold the requested bulk fields that have a value, go over in one batch; then, at most 16 at a time, one value for every other request, with its GPU and what was fetched for it; each distinct request is answered exactly once |
| Telemetry.Module.LibraryGet | rdc_libs/rdc/src/RdcTelemetryModule.cc:140-145 | so does a call of either library; a rocprofiler call delivers exactly its lookups, under the requested fields |
| Telemetry.Module.ValueGet | rdc_libs/rdc/src/RdcTelemetryModule.cc:127-151 | the values are, library by library, what each library gave for exactly the requests routed to it, every library that serves a request among them, and then NOT_SUPPORTED for exactly the requests none serves; for distinct requests every one is answered exactly once, with the right GPU, and under its own field when every one-by-one SMI fetch fills its slot |
| Telemetry.ValuesAreRead | rdc_libs/rdc/src/RdcTelemetryModule.cc:127-151 | when every one-by-one fetch fills its slot, each of those values is, for its key, a reading of the library that serves it: the metrics of its GPU, or what a fetch or look-up of that key returned |
| Telemetry.Module.FieldsWatch | rdc_libs/rdc/src/RdcTelemetryModule.cc:53-71 | opens counters for the granted counter events of the SMI library and leaves open ones as they are |
| Telemetry.Module.FieldsUnwatch | rdc_libs/rdc/src/RdcTelemetryModule.cc:73-91 | closes the counters of the fields whatever the SMI calls answer |
| Telemetry.EventCounters.Acquire | rdc_libs/rdc/src/RdcMetricFetcherImpl.cc:935-1000 | at most one handle per key: an open one is kept, a new one stored when granted |
| Telemetry.EventCounters.Delete | rdc_libs/rdc/src/RdcMetricFetcherImpl.cc:888-933 | the handle goes on success and on every error path |
| Telemetry.EventCounters.AcquireAll | rdc_libs/rdc/src/RdcSmiLib.cc:111-127 | acquires for every field, going on after failures |
| Telemetry.EventCounters.DeleteAll | rdc_libs/rdc/src/RdcSmiLib.cc:129-141 | deletes for every field |
| Invariants.WatchKeyAgrees | rdc_libs/rdc/src/RdcWatchTableImpl.cc:247-268 | a watch keeps index and deduced settings in agreement for every key, retention included |
| Invariants.UnwatchKeyAgrees | rdc_libs/rdc/src/RdcWatchTableImpl.cc:293-346 | an unwatch, first or repeated, keeps them in agreement for every key |
| Invariants.WatchGrants | rdc_libs/rdc/src/RdcWatchTableImpl.cc:194-268 | a watch that succeeds leaves an active entry with exactly the frequency, age and samples asked for, marks every supported key it covers at least as often and kept at least as long, from old or new settings only, and touches nothing else |
| Invariants.StepKeepsIndex | rdc_libs/rdc/src/RdcWatchTableImpl.cc:177-540 | every step of the engine keeps them in agreement |
| Invariants.IndexAlwaysAgrees | include/rdc_lib/impl/RdcWatchTableImpl.h:123-127 | in every run a key is marked watching exactly when an active watch covers it and telemetry supports it, its frequency is the minimum over those watches, and its retention is at least what each asked for |
| Invariants.GroupOpKeepsCovers | rdc_libs/rdc/src/RdcGroupSettingsImpl.cc:43-90 | creating a group never changes what an entry of the watch table, even a left-over one, covers |
| Invariants.RegroupKeepsAgreementIff | rdc_libs/rdc/src/RdcGroupSettingsImpl.cc:43-165 | whatever happens to the groups, a key keeps its whole agreement, retention included, exactly when every watch that asked for it is matched by one still asking at least as often, and the index already serves (marked, as often, kept as long) every watch that newly asks |
| Invariants.DestroyKeepsAgreementIff | rdc_libs/rdc/src/RdcGroupSettingsImpl.cc:61-65 | destroying a GPU group keeps the whole agreement exactly when every supported telemetry key watched through it is watched at least as often through another group; retention and notification keys never suffer |
| Invariants.DestroyFieldsKeepsAgreementIff | rdc_libs/rdc/src/RdcGroupSettingsImpl.cc:157-165 | the same for a field group; the job field group is never destroyed |
| Invariants.AddGpuKeepsAgreementIff | rdc_libs/rdc/src/RdcGroupSettingsImpl.cc:67-90 | adding a GPU keeps the whole agreement exactly when the index already serves every watch that comes to cover a supported key: marked, at least as often, and with both retention limits at least the watch's |
| Invariants.DestroyBreaksAgreement | rdc_libs/rdc/src/RdcWatchTableImpl.cc:364-373 | a concrete run in which destroying a watched group breaks the agreement |
| Invariants.AddGpuBreaksAgreement | rdc_libs/rdc/src/RdcGroupSettingsImpl.cc:67-90 | a concrete run in which a GPU added to a watched group is covered by the watch but not marked |
| Invariants.AddGpuLosesRetention | rdc_libs/rdc/src/RdcGroupSettingsImpl.cc:67-90 | a concrete run in which the GPU added to a watched group is already marked and as frequent as the watch asks, but kept for less |
| Invariants.UnwatchSucceedsIff | rdc_libs/rdc/src/RdcWatchTableImpl.cc:285-374 | an unwatch succeeds exactly when its entry and both its groups exist and no other active watch has lost a group |
| Invariants.LostGroupBlocksUnwatch | rdc_libs/rdc/src/RdcWatchTableImpl.cc:302-309 | one active watch whose group is gone makes every unwatch answer NOT_FOUND and leave all fields marked as they were |
| Invariants.UnwatchClearsMarkIff | rdc_libs/rdc/src/RdcWatchTableImpl.cc:323-346 | an unwatch clears a mark exactly when its watch covers the key, no other active watch asks for it, and every other active watch has its groups |
| Lifetimes.CleanKeepsLasting | rdc_libs/rdc/src/RdcWatchTableImpl.cc:513-529 | whenever clean-up erases a field, that field's sample vector has just been emptied |
| Lifetimes.NothingLeftBehind | rdc_libs/rdc/src/RdcWatchTableImpl.cc:398-417 | in every run, keys with cached telemetry samples are in the field index, and no sample is younger than its field's last update |
| Lifetimes.UnwatchedFieldExpires | rdc_libs/rdc/src/RdcWatchTableImpl.cc:456-529 | the first update more than a second after the last clean-up erases every field no active watch wants whose retention has passed, samples included |
| Lifetimes.UnwatchedEntryExpiresIff | rdc_libs/rdc/src/RdcWatchTableImpl.cc:531-540 | over any sequence of steps an unwatched entry stays as the unwatch left it, and is gone exactly once a clean-up has come more than its retention after the unwatch |
| Lifetimes.RateLimit | rdc_libs/rdc/src/RdcWatchTableImpl.cc:428-450 | while a key stays indexed, any two selections of it are at least the later update frequency apart |
| Lifetimes.NoFieldIsOverdue | rdc_libs/rdc/src/RdcWatchTableImpl.cc:436-450 | after an update no supported key of an active watch is older than that watch's update frequency |
| Lifetimes.WatchedSamplesSurvive | rdc_libs/rdc/src/RdcWatchTableImpl.cc:519-529 | clean-up keeps every sample that the limits of any one active watch would keep |
| Lifetimes.AskedUntilUnwatch | rdc_libs/rdc/src/RdcWatchTableImpl.cc:177-283 | in every run a watch keeps the settings its client gave and covers the same keys until it is unwatched |
| Lifetimes.AskedIsServed | rdc_libs/rdc/src/RdcWatchTableImpl.cc:247-268 | until then every supported key it covers is marked, updated at least as often and kept at least as long as the client asked |
| Lifetimes.AskedSamplesSurvive | rdc_libs/rdc/src/RdcWatchTableImpl.cc:519-529 | until then no update evicts a sample that the client's own limits would keep |
| Lifetimes.CleanupThrottled | rdc_libs/rdc/src/RdcWatchTableImpl.cc:456-463 | an update cleans up exactly when more than a second has passed since the last clean-up or the clock went back; otherwise nothing is erased or evicted |
| Lifetimes.CleanupsAreSpaced | rdc_libs/rdc/src/RdcWatchTableImpl.cc:456-463 | over any sequence of steps in which the clock does not go back, two clean-ups are more than a second apart |
| Lifetimes.StepKeepsCounters | rdc_libs/rdc/src/RdcWatchTableImpl.cc:270-352 | every step, failing ones included, keeps open counters within the keys marked watching, and all of them when the SMI calls succeed |
| Lifetimes.CountersFollowMarks | rdc_libs/rdc/src/RdcWatchTableImpl.cc:270-352 | over any sequence of steps open counters are a subset of the keys marked watching |
| Lifetimes.GrantedCountersAreOpen | rdc_libs/rdc/src/RdcWatchTableImpl.cc:270-280 | if every counter call succeeded, every counter event marked watching has its counter open |
| Lifetimes.StepClearsMarkIff | rdc_libs/rdc/src/RdcWatchTableImpl.cc:177-540 | no other step of the engine ever clears a mark, so that a mark left by a destroyed group lasts exactly until such an unwatch |
| JobRuns.RouteJobIsLeast | rdc_libs/rdc/src/RdcWatchTableImpl.cc:376-389 | a key is routed to the job listing it whose id comes first in the lexicographic order of its characters, and to none only if no job lists it |
| JobRuns.BeforeIsLexical | include/rdc_lib/impl/RdcWatchTableImpl.h:121 | an id is before another exactly when it is a proper prefix or has the smaller character at the first difference |
| JobRuns.RecordedReaches | rdc_libs/rdc/src/RdcWatchTableImpl.cc:416-423 | a good sample reaches the record of the job its key is routed to and no other record |
| JobRuns.HandleAppends | rdc_libs/rdc/src/RdcWatchTableImpl.cc:398-417 | handling a batch appends to each key's samples exactly its good readings, time and value, in order |
| JobRuns.RecordIsFold | rdc_libs/rdc/src/RdcWatchTableImpl.cc:398-424 | from its cache start on, a job's record of a key is the fold of exactly the good samples routed to it, over any sequence of steps |
| JobRuns.SoleRecordIsFold | rdc_libs/rdc/src/RdcWatchTableImpl.cc:52-126 | for jobs over disjoint keys that is every good sample delivered from cache start to removal from the job table, and nothing after |
| JobRuns.RunReportBounds | rdc_libs/rdc/src/RdcCacheManagerImpl.cc:208-384 | end to end over any sequence of steps: for nonnegative readings routed to the job that add up to less than 2^64 per GPU, its report has average at most maximum, and at least minimum once every GPU has a reading |
| JobRuns.RunReportExact | rdc_libs/rdc/src/RdcCacheManagerImpl.cc:208-384 | end to end over any sequence of steps: for nonnegative readings with 64-bit totals the report shows the exact quotients of the good readings routed to the job, per GPU and for the job |
| JobRuns.ReportTimes | rdc_libs/rdc/src/RdcCacheManagerImpl.cc:280-311 | end to end over any sequence of steps the report shows the start time the job was given and the time of its last stop, or of the report while it runs |
| JobRuns.EccIsFold | rdc_libs/rdc/src/RdcCacheManagerImpl.cc:386-450 | over any sequence of steps a job's ECC counters are those it started with and exactly its stops, however many, applied in order |
| JobRuns.EccWhileRunning | rdc_libs/rdc/src/RdcCacheManagerImpl.cc:404-412 | while it runs a job keeps the ECC counters it started with |
| JobRuns.EccAfterStop | rdc_libs/rdc/src/RdcCacheManagerImpl.cc:435-447 | with one stop among the steps a job keeps the differences to its start, unchanged until restart or removal |
| JobRuns.RunningJobReport | rdc_libs/rdc/src/RdcCacheManagerImpl.cc:315-335 | end to end over steps without a stop, the report shows the gauge now minus the gauge at the start (0 if it was not read then), modulo 2^64 if it went down, and 0 for a gauge not read now |
| JobRuns.StoppedJobReport | rdc_libs/rdc/src/RdcCacheManagerImpl.cc:315-335 | end to end over steps with one stop, the report shows the gauge at the stop minus the gauge at the start, whatever the gauge reads when the report is made; a gauge not read at the stop shows its start value |
| JobRuns.SecondStopKeepsEccIff | rdc_libs/rdc/src/RdcCacheManagerImpl.cc:435-447 | a second stop leaves a counter as the first left it exactly when it brings no gauge for it, or one equal to twice the stored difference modulo 2^64 |
| JobRuns.SecondStopBreaksEcc | rdc_libs/rdc/src/RdcCacheManagerImpl.cc:435-447 | an instance: a second stop with the same gauge reports 10 errors instead of 2 |
| WatchTable.JobStartedIsSteps | rdc_libs/rdc/src/RdcWatchTableImpl.cc:73-98 | a job start is the sequence of engine steps job table, cache start, watch |
| WatchTable.StartGrants | rdc_libs/rdc/src/RdcWatchTableImpl.cc:52-99 | a job start that succeeds grants the watch on the group's job fields at the frequency asked, lists exactly the keys of the group, and leaves a record without samples for its GPUs and fields |
| WatchTable.JobStoppedIsSteps | rdc_libs/rdc/src/RdcWatchTableImpl.cc:113-125 | a successful job stop is the sequence unwatch, job table, cache stop |
| JobCalls.JobsAlwaysRun | rdc_libs/rdc/src/RdcWatchTableImpl.cc:52-151 | over every run of whole calls, a job in the job table has a running record if it has one, so that a stop always finds it running |
| JobCalls.OneStopPerStart | rdc_libs/rdc/src/RdcWatchTableImpl.cc:101-126 | over every run of whole calls, two successful stops of a job have a start of it between them |
| JobCalls.CallKeepsEcc | rdc_libs/rdc/src/RdcWatchTableImpl.cc:52-151 | every whole call other than a start, a successful stop or a removal leaves the job's ECC counters alone |
| JobCalls.EccOnceStopped | rdc_libs/rdc/src/RdcWatchTableImpl.cc:101-126 | once a stop has succeeded the job keeps the differences to its start over any further whole calls, stops included, until it is started anew or removed |
| JobCalls.RunningCallReport | rdc_libs/rdc/src/RdcCacheManagerImpl.cc:315-335 | end to end over whole calls, until a stop succeeds the report shows the same as over steps without a stop |
| JobCalls.StoppedCallReport | rdc_libs/rdc/src/RdcCacheManagerImpl.cc:315-335 | end to end over whole calls, once a stop has succeeded the report shows the gauge at that stop minus the gauge at the start, or the start value of a gauge not read at the stop; no other stop is assumed away |
| JobCalls.RecordsAlwaysHaveGpus | rdc_libs/rdc/src/RdcWatchTableImpl.cc:61-96 | over every run of whole calls each cached record has a GPU |
| JobCalls.ReportOverCalls | rdc_libs/rdc/src/RdcCacheManagerImpl.cc:270-384 | over every run of whole calls a report is made exactly when every GPU can be reported, and divides by zero exactly when the first that cannot has a zero memory adjuster; the division by the number of GPUs is never by zero |
| ConcurrentStops.UnwatchTwice | rdc_libs/rdc/src/RdcWatchTableImpl.cc:357-374 | the unwatch of an entry just unwatched succeeds again |
| ConcurrentStops.StopAlone | rdc_libs/rdc/src/RdcWatchTableImpl.cc:101-126 | run without interruption the sections of a stop are the whole call |
| ConcurrentStops.StopIsRefusedIff | rdc_libs/rdc/src/RdcWatchTableImpl.cc:101-126 | of two stops of a running job whose critical sections interleave in any order, one is refused exactly when the other's erase comes before its lookup |
| ConcurrentStops.RecordAfterRace | rdc_libs/rdc/src/RdcWatchTableImpl.cc:101-126 | the record is stopped once if one lookup comes after the other's erase, and twice if neither does, in the order of the two cache sections |
| ConcurrentStops.OverlappingStopsBothSucceed | rdc_libs/rdc/src/RdcWatchTableImpl.cc:104-123 | two stops taking turns both succeed, and the second subtracts from the differences the first left |
| ConcurrentStarts.StartAlone | rdc_libs/rdc/src/RdcWatchTableImpl.cc:52-99 | run without interruption the sections of a start are the whole call |
| ConcurrentStarts.RecordAfterRestart | rdc_libs/rdc/src/RdcWatchTableImpl.cc:52-126 | a stop of a running job against a start of the same id, in any order of their critical sections: the start gets past its check exactly when the stop's erase comes first, and the old stop then stops the new record exactly when that is installed before the stop's cache section |
| ConcurrentStarts.RestartLeavesStoppedIff | rdc_libs/rdc/src/RdcWatchTableImpl.cc:118-123 | a job in the table is left with a stopped record exactly in those orders |
| ConcurrentStarts.RestartedJobIsStoppedTwice | rdc_libs/rdc/src/RdcWatchTableImpl.cc:101-126 | in every such order a later whole stop, overlapping no other stop, succeeds and stops the new record a second time |
| ConcurrentStarts.StartFitsInBetween | rdc_libs/rdc/src/RdcWatchTableImpl.cc:118-123 | there is such an order: the whole start between the stop's erase and its cache section |
| ConcurrentStarts.RecordAfterStart | rdc_libs/rdc/src/RdcWatchTableImpl.cc:52-126 | a stop of a job that is being started, in any order: the stop gets through exactly when its lookup comes after the insert and its unwatch finds an entry, left over or the start's, and then stops the new record exactly when that is installed before its cache section |
| ConcurrentStarts.StartLeavesOrphanIff | rdc_libs/rdc/src/RdcWatchTableImpl.cc:73-126 | the job is left running but out of the job table exactly when the stop's lookup comes after the insert, its cache section before the cache start, and a left-over entry was there to unwatch |
| WatchTable.Table.constructor | rdc_libs/rdc/src/RdcWatchTableImpl.cc:42-50 | over fresh parts the table starts in the engine's initial state |
| WatchTable.Table.GetFieldsFromGroup | rdc_libs/rdc/src/RdcWatchTableImpl.cc:153-175 | GPUs times fields, or nothing when either group is missing |
| WatchTable.Table.SkipUnsupported | rdc_libs/rdc/src/RdcWatchTableImpl.cc:215-242 | keeps exactly the supported keys |
| WatchTable.Table.MergeWatch | rdc_libs/rdc/src/RdcWatchTableImpl.cc:247-265 | merges the settings into every key once, however often it is listed |
| WatchTable.Table.FieldWatch | rdc_libs/rdc/src/RdcWatchTableImpl.cc:177-283 | carries out the engine's watch step, with CONFLICT, NOT_FOUND and re-watch of an unwatched entry; an Ok grants the client's own frequency, age and samples |
| WatchTable.Table.UpdateFrequencies | rdc_libs/rdc/src/RdcWatchTableImpl.cc:296-321 | the minimum frequency of every key an active watch covers, or nothing when one of their groups is gone |
| WatchTable.Table.ClearFields | rdc_libs/rdc/src/RdcWatchTableImpl.cc:323-346 | updates or clears each impacted field and lists those whose counters close |
| WatchTable.Table.UpdateFieldsWhenUnwatch | rdc_libs/rdc/src/RdcWatchTableImpl.cc:285-355 | the field index and counters of the engine's unwatch step; on an error neither changes |
| WatchTable.Table.FieldUnwatch | rdc_libs/rdc/src/RdcWatchTableImpl.cc:357-374 | carries out the engine's unwatch step, with both NOT_FOUND cases; an entry that exists is inactive and stamped afterwards |
| WatchTable.Table.IsJobWatchField | rdc_libs/rdc/src/RdcWatchTableImpl.cc:376-389 | finds the lexicographically first job that lists the key, or none if no job does |
| WatchTable.Table.HandleValue | rdc_libs/rdc/src/RdcWatchTableImpl.cc:398-423 | one value: stamp always, cache and job record only when it is good |
| WatchTable.Table.HandleFields | rdc_libs/rdc/src/RdcWatchTableImpl.cc:391-426 | the batch is handled value by value |
| WatchTable.Table.SelectDue | rdc_libs/rdc/src/RdcWatchTableImpl.cc:433-444 | selects each due field once |
| WatchTable.Table.FieldUpdateAll | rdc_libs/rdc/src/RdcWatchTableImpl.cc:428-463 | carries out the engine's update step; when the one-by-one SMI fetches fill their slots, each due key gets one reading of the library that serves it, stored once at the end of its samples if it is good, no other key gets any, and only then a clean-up, if one is due, evicts |
| WatchTable.Table.CleanFields | rdc_libs/rdc/src/RdcWatchTableImpl.cc:518-529 | evicts every indexed key's samples and erases the expired fields |
| WatchTable.Table.CleanWatches | rdc_libs/rdc/src/RdcWatchTableImpl.cc:531-540 | erases the expired inactive watches |
| WatchTable.CleanAll | rdc_libs/rdc/src/RdcWatchTableImpl.cc:518-529 | evicting and erasing field by field, in any order, is the engine's clean-up of all of them at once |
| WatchTable.Table.CleanUp | rdc_libs/rdc/src/RdcWatchTableImpl.cc:513-540 | carries out the engine's clean-up |
| WatchTable.Table.NotifUpdateCache | rdc_libs/rdc/src/RdcWatchTableImpl.cc:465-497 | carries out the engine's notification step; no events is BAD_PARAMETER |
| WatchTable.Table.JobStartStats | rdc_libs/rdc/src/RdcWatchTableImpl.cc:52-99 | starts a job, with every refusal, and leaves it in place when the final watch conflicts; an Ok leaves what `WatchTable.StartGrants` says |
| WatchTable.Table.JobStopStats | rdc_libs/rdc/src/RdcWatchTableImpl.cc:101-126 | stops a job, with every refusal; an Ok takes it, and no other, out of the job table and gives its record the end time |
| WatchTable.Table.JobRemove | rdc_libs/rdc/src/RdcWatchTableImpl.cc:128-132 | a stop without gauges, then the record is dropped |
| WatchTable.Table.JobRemoveAll | rdc_libs/rdc/src/RdcWatchTableImpl.cc:134-151 | every job in the table is stopped without gauges, each once, then every record is dropped |
| PcieAsync.AlwaysSound | rdc_libs/rdc/src/RdcMetricFetcherImpl.cc:61-80 | for any interleaving of queued tasks with the one worker, TX and RX entries exist together with equal times, carry the GPU's last read, and reads of a GPU start at least 30000 ms after the previous stamp |
| PcieAsync.ServedIsYoung | rdc_libs/rdc/src/RdcMetricFetcherImpl.cc:249-267 | a value served from the cache is that of the GPU's last read, with its status, stamped less than 30000 ms ago; otherwise one task is queued |
| PcieAsync.PublishedIsServed | rdc_libs/rdc/src/RdcMetricFetcherImpl.cc:243-336 | in every run a read that is published serves every request for its GPU that comes less than 30000 ms after its stamp and before a later read of the GPU finishes: with its sent or received bytes if it succeeded, with the value from before otherwise |
| PcieAsync.CheckReadsIff | rdc_libs/rdc/src/RdcMetricFetcherImpl.cc:277-295 | in every run the worker goes on to a read exactly when the entry of its task is missing or at least 30000 ms old |
| PcieAsync.PopTakesOldest | rdc_libs/rdc/src/RdcMetricFetcherImpl.cc:65-72 | in every run the worker takes the oldest task off the queue |
| PcieAsync.Fetch.AsyncGet | rdc_libs/rdc/src/RdcMetricFetcherImpl.cc:243-275 | carries out the request step: serves a young entry, otherwise queues a task |
| PcieAsync.Fetch.NextTask | rdc_libs/rdc/src/RdcMetricFetcherImpl.cc:65-72 | carries out the step that takes the oldest task |
| PcieAsync.Fetch.CheckTask | rdc_libs/rdc/src/RdcMetricFetcherImpl.cc:277-295 | carries out the check step: goes on to a read exactly when the entry is not young |
| PcieAsync.Fetch.PublishRead | rdc_libs/rdc/src/RdcMetricFetcherImpl.cc:297-336 | carries out the publish step: creates missing entries, stamps both, and stores the values only on success |
| PcieAsync.Fetch.GetThroughput | rdc_libs/rdc/src/RdcMetricFetcherImpl.cc:277-336 | a task of the worker is its check, read and publish steps: it leaves a young entry alone and otherwise publishes its read |
| RollingAverage.BufferIsWindow | rdc_libs/rdc_modules/rdc_rocp/RdcRocpBase.cc:330-371 | after any pushes and resets, for any length K, the buffer is the multiset of the last min(n, K) values, the index is n mod K and points at the oldest once full |
| RollingAverage.PushFull | rdc_libs/rdc_modules/rdc_rocp/RdcRocpBase.cc:341-352 | the value overwritten in a full buffer is the oldest one |
| RollingAverage.Averages.constructor | rdc_libs/rdc_modules/rdc_rocp/RdcRocpBase.cc:295-298 | an empty window for every supported key |
| RollingAverage.Averages.GetAverage | rdc_libs/rdc_modules/rdc_rocp/RdcRocpBase.cc:330-359 | the mean of the sliding window that ends with the value, other keys untouched; nothing for an unknown key |
| RollingAverage.Averages.ResetAverage | rdc_libs/rdc_modules/rdc_rocp/RdcRocpBase.cc:361-371 | the key's window is empty again |
| RollingAverage.Averages.FieldsUnwatch | rdc_libs/rdc_modules/rdc_rocp/RdcTelemetryLib.cc:155-169 | exactly the unwatched fields start afresh |

## Left out

- CacheManager.Manager.SummarizeGpu: leaves out the standard deviation, a square root of doubles; `VarianceExact` states what the root is taken of.
- CacheManager.Manager.UpdateJobStats: leaves out the energy accounting of power samples: `energy_last_time` is never advanced, so there is no law to prove.
- JobStats.GpuSummaryBounds: states the bounds for totals below 2^64; 64-bit wrap-around of running totals, of sums of averages and of ECC sums is not modelled.
- Telemetry.Module.ValueGet: does not model the fixed buffer of 8192 requests per library, and leaves the batch sizes to `Telemetry.Module.LibraryGet`, which states them for each library.
- Telemetry.EventCounters.Delete: tracks the handle table, not the hardware counters that a failed stop or start leaves behind.
- Notification masks and the listening loop: a watch overwrites the mask and an unwatch clears it for every watcher; the key-level claims about the index, samples and stamps are stated for fields that are not notification events.
- Interleavings of three or more calls on one job id, of two starts and of removals: the runs of steps cover any order of the critical sections, while two stops, and a stop and a start, are the pairs of calls followed section by section, with the groups as they are.
- The null branch of `get_telemetry_module`, which always creates the module.
- Payloads other than the integer member of a field value, names of groups, and the listing of group ids.
- The individual SMI queries of `fetch_smi_field`, ECC block tables, rocprofiler, HSA and RVS calls, diagnostics, gRPC, the command line, Python bindings, daemon start-up and logging: foreign calls or thin wrappers.
