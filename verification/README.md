# A verified model of the taxi trip pipeline

This project models the pipeline that loads monthly trip files into PostgreSQL, checks their quality, builds
a small warehouse from them and serves it, and proves what the pipeline is meant to guarantee.

`dafny verify dfyconfig.toml` checks everything.

## How the model is laid out

**Ingestion.** `Lifecycle` holds the operational tables and what each metadata operation does to them.
`Batches` holds the two readers with their running row numbers. `Sessions` is a database session, a class whose
fields are the session's view of the tables and whose methods are the registry and run operations; `Service`
composes them, transaction by transaction, into one undisturbed attempt.

The service runs up to four transactions per attempt, and any number of attempts may interleave. `Protocol` is
that system as events. What a transaction has written stays private in the attempt's phase until it commits;
between any two events other attempts may act, a load may raise after any number of copied rows, and an attempt
may stop for good. Keys are checked against the tables as they are at the commit, so two loads racing for one
source are separated by the primary key of the raw table and by nothing else. `Invariants` and `Safety` prove what
every event keeps, `Guarantees` what follows for whole runs, `Provenance` that a loaded source holds the file its run
opened, row for row, `Recovery` that the imperative attempt is one of the
system's runs and recovers from whatever happened before, and `Repeats` that later attempts on a loaded version
skip. `Scenarios` builds concrete runs in which a condition fails that the pipeline relies on.

**Warehouse.** `Relational` defines left joins, inner joins and grouping on sequences. `Warehouse` writes the
staging views, the dimensions and the fact select with them, `Grain` proves that the seven joins keep the grain,
`Builds` is the incremental delete-and-insert table, and `History` interleaves builds with the ingestion system.
`Actives` says which trips a build holds, how many, and what each fact's keys mean, in terms of the raw rows alone.
`Analytics` queries the result. `EndToEnd` follows a value from the file to the fact.

**Checks.** `Duplicates` is the two-pass duplicate profile, the SQL grouping check and the data frame profile, all
tied to one multiset. `Quality`, `Evaluator` and `Idempotence` are the set-based checks and their upserted
results, `Measurements` what each of them counts, `References` the zone profile.

**Smaller parts.** `Keys` and `Storage` (checksum-addressed objects, landing files), `Paging`, `Months`,
`Percentile`.

## What is assumed

- Identity sequences start at 1, an inspected file has at least one row, and equal checksums mean equal row counts
  (`Catalog.Inspected`); the landing schema contracts and the unique constraints promise these.
- A commit either happens or raises.
- Where partition exclusivity is used, registrations of different contents of one partition do not overlap
  (`Guarantees.Serialised`): the unique constraint covers equal checksums only, and races for one checksum are
  allowed. The assumption is exact: `Guarantees.ExclusiveIffSerial` proves that exclusivity holds after a run if and
  only if registrations did not overlap in it, and `Guarantees.OverlappingRegistrations` shows a run where they do.
- A build is atomic with respect to ingestion and finds a loaded zone version. The monthly workflow loads it first,
  and the build's own test (`dbt/taxi_analytics/tests/stg_tlc__taxi_zones_one_loaded_source.sql`) demands exactly
  one before anything downstream is built.

## Where the code needs a condition

- Two versions of one partition are both accepted if their registrations overlap: see above.
- Zone analytics join the zone dimension on a key that is 0 for "unknown". If a loaded zone had the location 0,
  trips of unknown zones would be counted twice. `Analytics.ZoneAnalyticsConserve` and `Grain.ZeroZoneKey` give the
  exact conditions, `Scenarios.UnknownCountedTwice` a history. It takes a build that skips the data tests: the
  `unique` test on `dim_zone.zone_key` (`dbt/taxi_analytics/models/marts/_marts__models.yml`) passes exactly when no
  loaded zone has that location (`Analytics.UniqueTestGuards`), and
  `dbt/taxi_analytics/tests/dimensions_unknown_members.sql` keeps the unknown member itself in place.
- A fact table first built without zones keeps their keys at 0. `History.LateZones` says exactly when that does no
  harm, `Scenarios.LateZonesDisagree` is a run where it does. It, too, takes a build without the one-loaded-source
  test.
- Pages of a list that loses rows between requests can miss rows that were there all the time. A row is missed
  exactly when the losses before it let it slip from beyond one window to before the next (`Paging.LosingTable`; for
  lists that change in any way, `Paging.ReturnedExactly` and `Paging.ReturnedIfNeverSlips`). A source list filtered
  by status can lose rows (`Scenarios.ReadySourceIsMissed`), any other only grows.
- A storage URI reads back exactly when the bucket has no delimiter, the key has no leading slash and no query or
  fragment character, and neither has a tab or line break (`Keys.UriRoundTrip`); keys of stored versions always
  qualify.
- The month window of December 9999 cannot be computed (`Months.WindowExists`).

## Model

| member | source | states |
|---|---|---|
| Batches.IterParquetBatches | src/taxi_pipeline/ingestion/parquet.py:13-46 | however the file is cut into record batches, the yielded batches concatenate to the file's rows in order, padded with null, numbered from 1, each batch saying where it starts |
| Batches.StartNumbersRows | src/taxi_pipeline/ingestion/parquet.py:33-46 | every row of a batch has the number start plus its offset |
| Batches.IterTaxiZoneBatches | src/taxi_pipeline/ingestion/taxi_zones.py:22-59 | the buffered reader yields all records in order and numbered, all batches but the last exactly full; it fails exactly at the first record without integer LocationID and then has yielded a prefix |
| Lifecycle.SafeErrorMessageIsUsable | src/taxi_pipeline/ingestion/service.py:172-176 | a failure message is never blank, at most 1000 characters and on one line, whatever the error said |
| Lifecycle.SafeErrorMessageTells | src/taxi_pipeline/ingestion/service.py:172-176 | it tells the whole error up to white space, or the class of an error that says nothing, and is cut after 1000 characters only |
| Safety.StepKeeps | src/taxi_pipeline/ingestion/service.py:58-117 | every event of any attempt, in any interleaving, keeps the invariant of tables and attempts and lets the tables only evolve |
| Safety.RunKeeps | src/taxi_pipeline/ingestion/service.py:58-117 | the same for all event sequences |
| Safety.LoadedMeansClash | alembic/versions/20260905_01_create_database_foundation.py:148-152 | appending a load to a table that holds a load of the same source always violates the raw primary key |
| Safety.FinishLoadOk | src/taxi_pipeline/metadata/runs.py:34-59 | a validated load that meets no key finds its source ready, and its commit makes it the one successful run and the author of all of the source's rows |
| Guarantees.ExactlyOnce | src/taxi_pipeline/ingestion/service.py:58-117 | in every reachable state a source is loaded iff one of its runs succeeded, that run is unique, and the raw rows are its rows numbered 1 to the registered count; otherwise there are none |
| Provenance.LoadedRowsAreTheFile | src/taxi_pipeline/ingestion/parquet.py:33-46 | if a run succeeded for a source, some event started it with a file, and the raw rows are exactly the rows of that file in order, however the copies were batched and interleaved |
| Guarantees.RaceIsDecidedByTheKey | src/taxi_pipeline/ingestion/service.py:83-108 | of two attempts past validation on one source, once one has committed the other can only fail, at any later time |
| Guarantees.FollowUpTransactionsSucceed | src/taxi_pipeline/ingestion/service.py:61-108 | a skip decision is still valid when its run is recorded, and recording a failure always finds the run running and the message not blank |
| Guarantees.StartRaisesIffLoaded | src/taxi_pipeline/metadata/runs.py:17-24 | after a decision to proceed, starting the run raises iff the source was loaded meanwhile |
| Guarantees.OutcomesAreRecorded | src/taxi_pipeline/ingestion/service.py:69-117 | what a finished attempt reported stays what the tables say: a skipped, succeeded or failed run of its version, with the reported message |
| Guarantees.OneRowPerVersion | src/taxi_pipeline/metadata/source_registry.py:50-60 | no reachable state has two rows of one partition and checksum, and all attempts of that version, running or finished, refer to the same one |
| Guarantees.InsertKeepsExclusive | src/taxi_pipeline/metadata/source_registry.py:28-33 | inserting a version keeps at most one accepted version per partition iff it is refused or the partition is still empty |
| Guarantees.SerialRunKeeps | src/taxi_pipeline/metadata/source_registry.py:24-60 | if registrations of different contents of a partition do not overlap, exclusivity holds in every state; races for one checksum are allowed |
| Guarantees.ExclusiveIffSerial | src/taxi_pipeline/metadata/source_registry.py:24-60 | after any run, at most one version of every partition is accepted if and only if such registrations did not overlap in it |
| Guarantees.FirstVersionOnly | src/taxi_pipeline/metadata/source_registry.py:28-33 | the first registered version of a partition, and no other, is ever ready or loaded |
| Guarantees.VerdictsAreFinal | src/taxi_pipeline/metadata/source_registry.py:86-94 | a refused version stays refused, a loaded one stays loaded with the same raw rows, for all continuations |
| Guarantees.OverlappingRegistrations | src/taxi_pipeline/metadata/source_registry.py:24-60 | a run in which two contents of one partition are both registered as ready, because neither look-up sees the other |
| Sessions.Session.FindExactVersion | src/taxi_pipeline/metadata/source_registry.py:97-106 | finds the version with this partition and checksum, if there is one |
| Sessions.Session.RegisterSourceFile | src/taxi_pipeline/metadata/source_registry.py:19-60 | reuses the exact version; otherwise inserts one, refused iff the partition was known at the look-up, unless the same version was committed meanwhile, which is then used; id, status and decision agree with the table |
| Sessions.Session.MarkSourceLoaded | src/taxi_pipeline/metadata/source_registry.py:79-94 | succeeds iff the source is ready, and then changes only its status |
| Sessions.Session.StartRun | src/taxi_pipeline/metadata/runs.py:17-31 | adds one running run iff the source is ready |
| Sessions.Session.GetRunningRun | src/taxi_pipeline/metadata/runs.py:118-122 | refuses unknown and terminal runs |
| Sessions.Session.MarkRunSucceeded | src/taxi_pipeline/metadata/runs.py:34-59 | finishes the run and its source together, or changes nothing |
| Sessions.Session.MarkRunFailed | src/taxi_pipeline/metadata/runs.py:62-72 | fails a running run with a message that is not blank, or changes nothing |
| Sessions.Session.CreateSkippedRun | src/taxi_pipeline/metadata/runs.py:75-107 | appends a skipped run iff the source has the status its reason requires |
| Sessions.Session.CopyRows | src/taxi_pipeline/ingestion/copy.py:9-29 | appends exactly the given rows, and counts them |
| Sessions.Session.LoadBatches | src/taxi_pipeline/ingestion/yellow.py:47-74 | copies the concatenation of the batches; both totals are its length |
| Service.LoadAndCount | src/taxi_pipeline/ingestion/service.py:120-151 | copies all source rows numbered from 1 and counts rows read, copied and persisted, or raises iff the reader does |
| Service.LoadTransaction | src/taxi_pipeline/ingestion/service.py:83-103 | commits rows, source and run iff the file reads to the end, has the registered count and violates no key; otherwise leaves the database as it was |
| Service.LoadableExactly | src/taxi_pipeline/database/models/taxi_zone.py:24-28 | rows that were read load iff there are as many as registered and, for the lookup, no location is repeated |
| Service.IngestSource | src/taxi_pipeline/ingestion/service.py:47-117 | result and final tables of an undisturbed attempt, for every status of its source and every file; after a load, staging reads from every raw row the file's columns of the right names, and every zone row has its record's four values |
| Recovery.AloneIsARun | src/taxi_pipeline/ingestion/service.py:47-117 | from every state of the system, that attempt is what some events of one new attempt do |
| Recovery.RegistrationAmid | src/taxi_pipeline/metadata/source_registry.py:24-60 | registration amid commits of other transactions is the two registration events with the others in between |
| Recovery.UndisturbedAttemptLoads | src/taxi_pipeline/ingestion/service.py:79-117 | whatever failed or crashed before, one undisturbed attempt with a matching file loads a ready or new source, with exactly the file's rows |
| Repeats.LaterAttemptsSkip | src/taxi_pipeline/ingestion/service.py:61-77 | once a version is loaded, an attempt on it that arrives later never starts a run, in any interleaving: its events append at most one skipped run and change nothing else |
| Repeats.RepeatedAttemptsSkip | src/taxi_pipeline/ingestion/service.py:61-77 | n undisturbed attempts after a load append exactly n skipped runs and change nothing else |
| Relational.LeftJoinKeepsGrain | dbt/taxi_analytics/models/marts/fct_trips.sql:53-67 | a left join whose rows match at most once yields row for row the left side with its match |
| Grain.DateKeysDiffer | dbt/taxi_analytics/models/marts/dim_date.sql:15-18 | the YYYYMMDD key is injective on dates and never 0 |
| Grain.FactSelectKeepsGrain | dbt/taxi_analytics/models/marts/fct_trips.sql:23-67 | the select with its seven joins yields one fact per trip, equal to the trip resolved on its own without any join |
| Grain.ZeroKeys | dbt/taxi_analytics/models/marts/fct_trips.sql:25-29 | date and vendor keys are 0 iff the value is null or not in the dimension |
| Grain.ZeroZoneKey | dbt/taxi_analytics/models/marts/dim_zone.sql:3-18 | a zone key of 0 means null or unresolved, for all locations, iff no zone has the location 0 |
| Actives.ActiveTripsAreLoadedRows | dbt/taxi_analytics/models/staging/tlc/stg_tlc__green_trips.sql:1-7 | in every reachable state, the active trips of each loaded monthly source are its raw rows, row for row, for both services, and there are no others |
| Actives.ActiveZonesAreLoadedRows | dbt/taxi_analytics/models/staging/tlc/stg_tlc__taxi_zones.sql:1-20 | the active zones are the raw rows of the loaded zone version |
| Actives.FactsAreLoadedRows | dbt/taxi_analytics/models/intermediate/int_trips_normalized.sql:1-59 | after any history that ends with a build, the facts' trips are the active trips, each once, and there are as many as the successful trip runs have loaded |
| Actives.FactsMean | dbt/taxi_analytics/models/marts/fct_trips.sql:23-67 | every key and name of every fact follows from its own trip, the rows of the loaded zone version and the seeds |
| Builds.FactTable.Build | dbt/taxi_analytics/models/marts/fct_trips.sql:1-21 | a build over a table that is current leaves exactly the rows of a full refresh, current again, and an incremental one keeps the stored rows as they are |
| Builds.BuiltIsFullRefresh | dbt/taxi_analytics/models/marts/fct_trips.sql:1-21 | the same of the build as a function of tables and stored facts |
| Builds.ActiveZonesDistinct | dbt/taxi_analytics/models/staging/tlc/stg_tlc__taxi_zones.sql:1-20 | the active zones have distinct locations, because one version at most is loaded |
| Builds.DeleteRemovesNothing | dbt/taxi_analytics/models/marts/fct_trips.sql:4-5 | the delete half of an incremental build never removes a row |
| Builds.IncrementalIsFullRefresh | dbt/taxi_analytics/models/marts/fct_trips.sql:11-21 | over current facts, an incremental build yields the multiset of rows of a full refresh |
| History.HappensKeeps | dbt/taxi_analytics/models/marts/fct_trips.sql:1-21 | every ingestion event and every build keeps the stored facts current |
| History.BuildsAgreeWithFullRefresh | dbt/taxi_analytics/models/marts/fct_trips.sql:1-21 | after every build of every history of events and builds the table equals a full refresh at that moment |
| History.StoredTripsStay | dbt/taxi_analytics/models/staging/tlc/stg_tlc__yellow_trips.sql:1-38 | the active trips of loaded sources never change |
| History.ZonesStay | dbt/taxi_analytics/models/staging/tlc/stg_tlc__taxi_zones.sql:1-20 | once a zone version is loaded, the active zones never change |
| History.LateZones | dags/tlc_monthly_pipeline.py:113-119 | a table first built without zones equals a full refresh after zones came iff none of its trips has a location they resolve |
| Scenarios.LateZonesDisagree | dbt/taxi_analytics/tests/stg_tlc__taxi_zones_one_loaded_source.sql:1-13 | a run in which it does not |
| Analytics.WithDateConserves | src/taxi_pipeline/api/routes/analytics.py:49-62 | joining the facts with the date dimension neither drops nor repeats a fact and gives each its own pickup date |
| Analytics.AnalyticsConserve | src/taxi_pipeline/api/routes/analytics.py:24-99 | after any history, for any filter, the summary counts exactly the facts of its service whose pickup is known, if it has dates, with a date key between theirs, both included; the monthly counts sum to it |
| Analytics.MonthlyCountsAreExact | src/taxi_pipeline/api/routes/analytics.py:80-99 | after any history, the years, months and services with selected facts are listed, each once, with exactly their number |
| Analytics.ZoneAnalyticsConserve | src/taxi_pipeline/api/routes/analytics.py:106-133 | the trips per pickup zone sum to the summary count iff no loaded zone has the location 0 or no passing trip has an unknown zone |
| Analytics.ZoneCountsAreExact | src/taxi_pipeline/api/routes/analytics.py:119-130 | after any history, the zones with selected facts are listed, each once, with the number of selected facts of that location, and the unknown zone with the facts of no known location |
| Analytics.UniqueTestGuards | dbt/taxi_analytics/models/marts/_marts__models.yml:10-14 | the uniqueness test on the zone key passes iff no loaded zone has the location 0 |
| Scenarios.UnknownCountedTwice | src/taxi_pipeline/api/routes/analytics.py:106-133 | a history after which the zone counts do not sum to the trips, because a zone has the location 0 |
| EndToEnd.YellowTripReadsFile | dbt/taxi_analytics/models/staging/tlc/stg_tlc__yellow_trips.sql:9-38 | the canonical columns of a loaded row are the file's columns of the corresponding names, null where the file has none |
| EndToEnd.GreenTripReadsFile | dbt/taxi_analytics/models/staging/tlc/stg_tlc__green_trips.sql:9-38 | the same through green's other column order |
| EndToEnd.ProfileOfLoadedFile | src/taxi_pipeline/quality/queries.py:142-176 | the duplicate profile of a file equals the SQL check over its loaded rows, for any column order and any columns the file lacks, or none |
| Duplicates.ExactDuplicateProfile | src/taxi_pipeline/profiling/statistics.py:105-134 | for every hash of the stable frame and every batching, the five counts are those of the multiset of normalised rows |
| Duplicates.SqlDuplicatesCount | src/taxi_pipeline/quality/queries.py:142-176 | the three sums over the groups with HAVING count > 1 are those same counts |
| Duplicates.ProfileAgreesWithSql | src/taxi_pipeline/profiling/statistics.py:180-195 | profile and SQL check agree whenever the rows have the same pattern of equalities |
| Duplicates.NormalRowsEqual | src/taxi_pipeline/profiling/statistics.py:180-195 | rows count as equal iff they are equal cell by cell, with the two float zeros equal and null and not-a-number equal to themselves only |
| EndToEnd.PaddingKeepsPattern | src/taxi_pipeline/ingestion/parquet.py:33-40 | two rows are equal over the table's columns iff they are equal over the file's |
| Duplicates.DataframeProfileCounts | src/taxi_pipeline/profiling/statistics.py:137-145 | the two duplicate masks of a data frame give the counts of the multiset of its rows |
| Quality.DomainMeasurements | src/taxi_pipeline/quality/queries.py:64-91 | the loop over the domains sums each grouped query and keeps its groups |
| Quality.DomainCountIsFilter | src/taxi_pipeline/quality/queries.py:71-91 | the grouped counts sum to the plain count of rows that are neither null nor documented |
| Quality.ZoneJoinKeepsGrain | src/taxi_pipeline/quality/queries.py:118-134 | the two outer joins do not fan out |
| Quality.UnknownZonesCount | src/taxi_pipeline/quality/queries.py:94-139 | the zone check counts exactly the rows whose known location is missing from the version |
| References.UnmatchedAreListed | src/taxi_pipeline/profiling/statistics.py:88-102 | the listed unmatched ids sum to the unmatched count, which is that of the known values that are no zone |
| References.ReferenceAgreesWithSql | src/taxi_pipeline/profiling/statistics.py:88-102 | that profile finds as many unmatched rows as the SQL zone check |
| Evaluator.MeasuredBounded | src/taxi_pipeline/quality/evaluator.py:81-105 | every measurement has 0 <= rows_failed <= rows_checked, the number of raw rows |
| Measurements.RunMeasured | src/taxi_pipeline/quality/evaluator.py:81-87 | an evaluation measures the raw rows of the run's source against the month of that source |
| Measurements.WindowOfMonth | src/taxi_pipeline/quality/queries.py:21-23 | a target has a window iff its year and month are those of a calendar month before December 9999 |
| Measurements.PickupMeasured | src/taxi_pipeline/quality/queries.py:21-36 | the pickup check fails for the rows whose known pickup is in another year or month |
| Measurements.ConditionMeasured | src/taxi_pipeline/quality/queries.py:28-61 | every null, zero or negative condition fails for the rows it holds of |
| Measurements.DomainMeasured | src/taxi_pipeline/quality/queries.py:64-91 | every domain check fails for the rows with a value neither null nor allowed, and lists these values with their counts |
| Measurements.ZonesMeasured | src/taxi_pipeline/quality/queries.py:94-139 | each zone check fails for the rows whose own known location no row of the zone version has |
| Measurements.DuplicatesMeasured | src/taxi_pipeline/quality/queries.py:142-176 | the duplicate check fails for the rows in duplicate groups and details excess rows and groups |
| Evaluator.QualityStore.FindLatestSuccessfulRun | src/taxi_pipeline/quality/evaluator.py:46-72 | finds the highest successful run of the partition, or raises iff there is none |
| Evaluator.QualityStore.ValidatedTarget | src/taxi_pipeline/quality/evaluator.py:132-147 | accepts a run iff it is a successful trip run of a loaded monthly source |
| Evaluator.QualityStore.LoadedZoneSource | src/taxi_pipeline/quality/evaluator.py:150-169 | yields the loaded zone version that is last by load time, unknown times first, and id, or raises iff there is none or it has no rows |
| Evaluator.QualityStore.UpsertAll | src/taxi_pipeline/quality/evaluator.py:172-202 | every rule has a stored result with its severity and its measurement's counts and details, violated iff rows failed, with the exact failure rate |
| Evaluator.QualityStore.RunQualityChecks | src/taxi_pipeline/quality/evaluator.py:75-129 | stores such a result for every rule, and on the run and in the summary the numbers of rules of each severity whose measurement failed; or raises and stores nothing, exactly when target, zones, window or catalogue do not allow an evaluation |
| Idempotence.UpsertTwice | src/taxi_pipeline/quality/evaluator.py:196-202 | upserting the same measurements again replaces the earlier results completely |
| Idempotence.MeasurementsStay | src/taxi_pipeline/quality/evaluator.py:75-105 | the measurements of a loaded source are the same at every later time |
| Idempotence.ReevaluationIsIdempotent | src/taxi_pipeline/quality/evaluator.py:75-129 | in every reachable state, evaluating again after any further events and any results written for other runs moves execution times only; neither evaluation touches another run |
| Idempotence.OthersEvaluated | src/taxi_pipeline/quality/evaluator.py:172-202 | any number of evaluations of other runs leaves a run's results as they are |
| Idempotence.SuccessfulRunIsUnique | src/taxi_pipeline/quality/evaluator.py:46-72 | a monthly partition has one successful run at most, and its rows_loaded is the number of raw rows |
| Idempotence.SuccessIsOfPartition | src/taxi_pipeline/quality/evaluator.py:54-66 | the run that is looked up is a successful run of exactly that monthly partition |
| Idempotence.TargetIsTripRun | src/taxi_pipeline/quality/evaluator.py:132-147 | the runs that can be evaluated are the successful runs of monthly partitions |
| Idempotence.OneZoneVersion | src/taxi_pipeline/quality/evaluator.py:150-160 | there is never a second loaded zone version to choose from |
| Keys.KeyIsInjective | src/taxi_pipeline/storage/backends.py:32-44 | equal keys mean equal partition and checksum |
| Keys.MonthlyKeySays | src/taxi_pipeline/storage/backends.py:41-44 | a monthly key names service, year in four and month in two digits, and checksum |
| Keys.UriRoundTrip | src/taxi_pipeline/storage/backends.py:215-219 | a stored URI parses back to bucket and key iff the bucket has no delimiter, the key is not empty and has no leading slash, no ? and no #, and neither has a character the URL parser removes |
| Keys.KeyParsesBack | src/taxi_pipeline/storage/backends.py:95-100 | the URI of every stored version parses back to its bucket and key |
| Storage.Landing.EnsureLocal | src/taxi_pipeline/landing/downloader.py:14-49 | succeeds iff the final file exists or a complete body arrived; never overwrites a final file and leaves no partial one |
| Storage.S3Storage.Store | src/taxi_pipeline/storage/backends.py:78-100 | overwrites nothing, keeps every key holding only content of its checksum, succeeds iff the head then matches, and always for an intact file under a free key |
| Storage.S3Storage.Inspect | src/taxi_pipeline/storage/backends.py:102-113 | succeeds iff the object exists and its head matches, and then size, checksum, partition and dataset are those of the source |
| Storage.S3Storage.Materialize | src/taxi_pipeline/storage/backends.py:115-150 | whatever body arrives, also a short one, creates the final file iff the URI names an object and the body was read to its end with the registered size and checksum; otherwise changes no final file and leaves no partial one |
| Storage.AddressedPut | src/taxi_pipeline/storage/backends.py:78-94 | putting a verified file cannot break the addressing of another version |
| Storage.StoredCanBeRestored | src/taxi_pipeline/storage/backends.py:78-150 | what was stored once is found under its URI after any later stores, and every body that delivers it passes size and checksum |
| Storage.SourceRecord.Merge | src/taxi_pipeline/storage/service.py:48-55 | a local result keeps a durable record, any other result is recorded; durable afterwards iff the result is, or it is local and the record was |
| Storage.DurabilityIsKept | src/taxi_pipeline/storage/service.py:48-55 | after any sequence of results a record is durable iff it was or one of them is |
| Paging.AllPages | src/taxi_pipeline/dashboard/api_client.py:91-100 | the loop terminates once the table stops growing, with exactly the items and requests of the page specification |
| Paging.UnchangedTable | src/taxi_pipeline/dashboard/api_client.py:91-100 | over an unchanged table it returns the table after floor(n/100)+1 requests |
| Paging.GrowingTable | src/taxi_pipeline/dashboard/api_client.py:91-100 | if rows are only inserted, at any positions, every row that was there at the start is returned |
| Paging.SourceListGrows | src/taxi_pipeline/api/routes/sources.py:22-41 | while ingestion runs, a source list not filtered by status only gains rows |
| Paging.SourceListIs | src/taxi_pipeline/api/routes/sources.py:22-41 | the list holds exactly the sources that fit every given filter, newest first |
| Paging.PagingOverIngestion | src/taxi_pipeline/api/routes/sources.py:22-41 | so paging through it during ingestion misses no source that was there at the start |
| Paging.ReturnedExactly | src/taxi_pipeline/dashboard/api_client.py:91-100 | however the table changes, a row is returned iff some request that is made finds it in its window |
| Paging.ReturnedIfNeverSlips | src/taxi_pipeline/dashboard/api_client.py:91-100 | a row that stays and never falls from beyond one window to before the next is returned |
| Paging.LosingTable | src/taxi_pipeline/dashboard/api_client.py:91-100 | when rows are only lost, that condition is exact |
| Scenarios.ReadySourceIsMissed | src/taxi_pipeline/api/routes/sources.py:22-41 | a run in which a source that stays ready is missed by paging through the ready sources, because another is loaded between the requests |
| Months.LagIsTwoMonths | src/taxi_pipeline/orchestration.py:42-44 | the scheduled month is the month whose second successor is the logical month |
| Months.ScheduleHasNoGaps | src/taxi_pipeline/orchestration.py:42-44 | consecutive logical months schedule consecutive partitions |
| Months.ExplicitMonthIsKept | src/taxi_pipeline/orchestration.py:33-41 | an explicit valid month is returned as it is, and each error is raised in exactly its own case |
| Months.OutsideMeansOtherMonth | src/taxi_pipeline/quality/queries.py:21-27 | a pickup is outside the window iff it is known and its own year or month differs |
| Months.WindowExists | src/taxi_pipeline/quality/queries.py:21-23 | December 9999 is the only month without a window |
| Percentile.RankInRange | src/taxi_pipeline/benchmarking.py:16-18 | the rank is between 1 and n, and is the least that reaches p/q of n |
| Percentile.PercentileErrors | src/taxi_pipeline/benchmarking.py:10-15 | without observations, and with a percentile outside (0, 1], it raises |
| Percentile.NearestRankMeaning | src/taxi_pipeline/benchmarking.py:10-18 | the result is an observation, at least p/q of the observations are at most it and fewer lie strictly below |
| Percentile.OrderDoesNotMatter | src/taxi_pipeline/benchmarking.py:10-18 | the result does not depend on the order of the observations |

## Left out

- Timestamps of registration, loading, ingestion and storage are left out, except the execution time of a quality result and the load times that order zone versions, which are opaque numbers.
- Object identity in the ORM: rows of the metadata tables are values in maps that a session's methods reassign, so aliasing between loaded objects is not captured.
- Blocking and isolation inside PostgreSQL: pending writes are private, uniqueness is decided at the commit, and a waiting insert is one that commits later.
- Service.LoadAndCount: the reader runs to its end, or until it raises, before its batches are copied; in the source reading and copying alternate, which matters only for memory. In the interleaved model batches are copied one event at a time.
- Starting a run is split into its status read and its insert; the transactions that record a skip and a failure are single events, because each reads and writes within one short transaction.
- Commits that succeed on the server but raise on the client.
- Status texts outside the vocabularies, which the enumerations make unrepresentable.
- Keys.UriRoundTrip: the checks of an authority's brackets and of its Unicode normalisation in Python's URL parser are not modelled.
- Sessions.Session.GetRunningRun: the run found is a value, not a row object to assign to.
- The catalogues of rules, null, zero and negative conditions and domains are parameters of the evaluation.
- Year, quarter, names and weekend flag of the date dimension, and the measure columns that the fact select passes through, which travel as the row's values.
- Dates before year 1 and the numbers of days of the months, on which nothing here depends.
- Averages, sums of amounts and the ranking limit of the analytics queries.
- References.UnmatchedAreListed: the listed ids are in order of first appearance instead of sorted, and the rate is left out.
- The rounding of floating point in rates and in the percentile's product; both are exact fractions here.
- Null, numeric, datetime and domain profiles, the Markdown and JSON reports, dashboards, health routes and the command line.
- The local storage backend, bucket checks, and the services that look up records around store and materialise.
- Schema contracts, decoding of Parquet and CSV, and the constructors of source partitions; what they guarantee is a precondition.
- dbt builds that overlap a load, and the workflow engine.
