# qsimbench retrieval and sampling core, in Dafny

qsimbench serves outcome histograms of quantum circuits from a dataset of
recorded simulator runs kept in a GitHub repository. This project models
the library's engine in `src/qsimbench/qsimbench.py`:

- `get_outcomes` collects the history records of every requested version.
  It then aggregates them with one of two strategies:
  - the sequential strategy, a round-robin walk that resumes from a cursor
    kept per `(algorithm, size, backend, circuit_kind)`;
  - the random strategy, which draws records with replacement.

  Both stop as soon as the shot total reaches the target. The result is
  then trimmed to exactly `shots` by `_multinomial_sample`, but only when
  `exact` is set and the run overshot.
- `_download_and_cache` serves a history file from the on-disk cache while
  it is younger than the timeout. Otherwise it downloads the file, parses
  it line by line and then caches the parsed records.
- `_get_data` checks the request and derives the URL and the cache path of
  a history file.
- The tokenizer of `get_index` turns a catalog file name into
  (algorithm, size, backend). The index groups the entries either by
  algorithm or by backend.
- The configuration helpers are `get_raw_url`, `set_dataset_url`,
  `set_cache_timeout` and `load_versions`, plus the file selection of
  `get_metadata`.

Modules, one file each:

- `Base`: Option, Result, the error kinds, and the outcome of an HTTP GET.
- `Strings`: the `str` operations the code relies on, with their round
  trips.
- `Histogram`: the total of a histogram, additive merge, counting, and the
  multinomial trim loop.
- `Sampling`: records, both strategies as loops proved against
  specification functions (`Agg`, `ShotTotal`, `Cycle`, `Pick`), and the
  cursor map as a class.
- `Cache`: the cache decision as a transition function `Download`, and the
  file store as a class whose method is proved against it.
- `Catalog`: the tokenizer `ParseSpec` and the deque loop proved against
  it, the grouping, `get_index`, and the metadata file selection.
- `Config`: the raw URL, the URL and timeout checks, and the latest
  version.
- `Outcomes`: request naming, the fold over versions, the exact gate, and
  the library's module-level state as the class `Client` with
  `GetOutcomes`.

The environment is passed in as parameters:

- The network is a parameter: `net` maps a URL to the response of a GET,
  and the single-request operations take the response `resp` directly.
- The clock is the integer `now`, read once per call.
- `json.loads` and `json.dumps` of one record are the functions `parse`
  and `dump`.
- The two random generators are oracles. `draws` is the indices
  `rng.choice` returns, and `sampled` is the keys `rng.choices` returns.
  `get_outcomes` reports an oracle that cannot stand for a run as
  `Err(OracleInvalid)`:
  - indices outside the records;
  - too few draws to reach the target;
  - a trim draw of the wrong length or with keys outside the aggregate.
- Both strategy loops in the code run forever when no record has
  `shots > 0`. `GetOutcomes` reports that case as `Err(Diverges)`, and the
  strategy methods require a positive-shot record.

The model follows the code as written in these corner cases:

- The tokenizer always drops the last token after the size, so
  `qft_8_aer_simulator.json` gives the backend `aer`, not `aer_simulator`.
  Likewise `quantum_volume_4_statevector.json` gives the empty backend
  (`Catalog.QftExample`, `Catalog.QuantumVolumeExample`).
- `str.replace(".json", "")` removes every occurrence, not only the
  extension.
- Only the first token is taken as part of the algorithm unconditionally.
  An all-digit first token does not become the size (`7_qft.json` is an
  error, `Catalog.LeadingDigitsError`).
- `get_index` checks the circuit kind and the version. It then parses
  every name without further validation. A name without a size token, or
  without a token after the size, is an error for the whole index.
- A stored cursor that is not below the number of records is reset to 0,
  not reduced modulo it. Only the value written back is taken modulo the
  number of records.
- The sequential cursor is written back as soon as the walk ends, so a
  trim that fails afterwards still moves it.

## Model

| member | source | states |
|---|---|---|
| Histogram.Total | src/qsimbench/qsimbench.py:226 | `sum(agg.values())` is never negative when no count is |
| Histogram.Merge | src/qsimbench/qsimbench.py:407-408 | merging count maps keeps exactly the keys of both |
| Histogram.TotalMerge | src/qsimbench/qsimbench.py:407-409 | the total of a merge is the sum of the totals |
| Histogram.MergeInto | src/qsimbench/qsimbench.py:407-408 | the `agg[bit] = agg.get(bit, 0) + cnt` loop computes the additive merge |
| Histogram.SumCounts | src/qsimbench/qsimbench.py:226 | the summing loop computes `sum(agg.values())` |
| Histogram.Tally | src/qsimbench/qsimbench.py:233-235 | the tally of a draw has exactly the drawn outcomes as keys |
| Histogram.TallySnoc | src/qsimbench/qsimbench.py:234-235 | one more draw adds one to that outcome's count and changes nothing else |
| Histogram.TallyTotal | src/qsimbench/qsimbench.py:232-235 | the counts of a tally sum to the number of draws |
| Histogram.MultinomialSample | src/qsimbench/qsimbench.py:207-236 | fails with "no counts" exactly when the aggregate sums to at most zero, with no demand on the draw then; otherwise returns the tally of the draw, whose counts sum to exactly `shots` and whose keys are keys of the aggregate |
| Sampling.Agg | src/qsimbench/qsimbench.py:405-408 | the aggregate of the consumed records: the counts of the positive-shot records merged in order (keys in `Sampling.AggKeys`, counts in `Sampling.AggIsSum`) |
| Sampling.AggKeys | src/qsimbench/qsimbench.py:405-408 | the outcomes of the aggregate are exactly those of the positive-shot records |
| Sampling.Wrap | src/qsimbench/qsimbench.py:402-403 | an index below `n` is kept, any other goes back to 0, so the result is below `n` |
| Sampling.ShotTotal | src/qsimbench/qsimbench.py:405-409 | the shots gained from consumed records are never negative |
| Sampling.Contributing | src/qsimbench/qsimbench.py:405-406 | the records kept are only those with positive shots, and no more than were given |
| Sampling.WrapIsMod | src/qsimbench/qsimbench.py:402-403 | the reset of an index that reached `n` agrees with reduction modulo `n` |
| Sampling.Pos | src/qsimbench/qsimbench.py:399-410 | the position after `t` cyclic steps always lies in `[0, n)` |
| Sampling.Cycle | src/qsimbench/qsimbench.py:399-411 | the records read by `k` round-robin steps are `k` records |
| Sampling.Pick | src/qsimbench/qsimbench.py:419 | one record is picked per draw |
| Sampling.StartOf | src/qsimbench/qsimbench.py:397-403 | the walk starts at the stored cursor when it is below `n`, and at 0 when there is none or it is not below `n` |
| Sampling.AggSnoc | src/qsimbench/qsimbench.py:405-411 | one more record merges its counts and adds its shots only when its shots are positive |
| Sampling.Absorb | src/qsimbench/qsimbench.py:405-409 | the loop body merges a record's counts and adds its shots, or leaves both for a non-positive record |
| Sampling.RoundRobin | src/qsimbench/qsimbench.py:399-411 | the walk consumes at least one record, ends with `total >= shots` after having been below `shots` one record earlier, returns the aggregate and total of the records it read cyclically, and ends one past the last one |
| Sampling.LastRecordContributes | src/qsimbench/qsimbench.py:401-411 | the record that ended the walk has positive shots and the overshoot is below its shot count |
| Sampling.CursorRegistry.constructor | src/qsimbench/qsimbench.py:135 | the cursor map starts empty |
| Sampling.CursorRegistry.SampleSequential | src/qsimbench/qsimbench.py:394-414 | the sequential strategy reads records cyclically from the stored cursor (reset to 0 when not below `n`), stops exactly when the total reaches `shots`, overshoots by less than the last record's shots, and writes back the position after the last record read, under that key only |
| Sampling.SampleRandom | src/qsimbench/qsimbench.py:416-425 | the random strategy consumes a prefix of the draws, merges only positive-shot records, and stops at the first draw that brings the total to `shots` |
| Sampling.PosAdd | src/qsimbench/qsimbench.py:410-414 | walking `k1` then `k2` steps lands where walking `k1 + k2` steps does |
| Sampling.ConsecutiveRuns | src/qsimbench/qsimbench.py:395-414 | a second call with the same key starts right after the first call's last record, and the two calls together read what one longer walk reads |
| Sampling.OnlyContributingCount | src/qsimbench/qsimbench.py:405-406 | records with non-positive shots change neither the aggregate nor the total |
| Sampling.AggIsSum | src/qsimbench/qsimbench.py:407-408 | every outcome's aggregate count is the sum of its counts over the contributing records |
| Sampling.AggTotalMatches | src/qsimbench/qsimbench.py:407-409 | when each contributing record's counts sum to its shots, the aggregate sums to the shot total |
| Sampling.CycleTotalMonotone | src/qsimbench/qsimbench.py:401-411 | reading more records never lowers the shot total |
| Sampling.StopIsUnique | src/qsimbench/qsimbench.py:401 | the number of records a sequential run reads is determined by the data, the start and `shots` |
| Sampling.ScenarioCycles | src/qsimbench/qsimbench.py:399-411 | over three 50-shot records, two steps read the first two records (100 shots) and three steps read all three (150 shots), back at position 0 |
| Sampling.ScenarioAgg | src/qsimbench/qsimbench.py:407-408 | the three scenario records aggregate to 75 and 75 |
| Sampling.SequentialScenario | src/qsimbench/qsimbench.py:395-414 | with target 120 from cursor 0 the run reads exactly three records, returns `{a: 75, b: 75}` with total 150, and the cursor is written back as 0 |
| Cache.Fresh | src/qsimbench/qsimbench.py:262 | a cached file is fresh exactly while `now - mtime < CACHE_TIMEOUT` |
| Cache.ReadCached | src/qsimbench/qsimbench.py:264-268 | every record read from a cached file is parsed from a non-empty line, and every non-empty line gives a record |
| Cache.ParseBody | src/qsimbench/qsimbench.py:283-285 | every record of a response is parsed from a non-blank line, and every non-blank line gives a record |
| Cache.Serialize | src/qsimbench/qsimbench.py:288 | the cache text has one line per record: when no dump holds a line break, its lines are the dumps in order |
| Cache.NonEmpty | src/qsimbench/qsimbench.py:264-268 | the lines read from a cached file are exactly its non-empty lines |
| Cache.NonBlank | src/qsimbench/qsimbench.py:283-285 | the lines read from a response are exactly its non-blank lines |
| Cache.MapAll | src/qsimbench/qsimbench.py:283-288 | one record is parsed per line, and one line dumped per record, in order |
| Cache.Download | src/qsimbench/qsimbench.py:259-290 | a call that does not go to the network leaves the disk alone; a successful download caches the file with the current time |
| Cache.Store.DownloadAndCache | src/qsimbench/qsimbench.py:239-290 | the method returns what `Download` returns, leaves the disk as `Download` leaves it, and records the URL exactly when it went to the network |
| Cache.FreshHit | src/qsimbench/qsimbench.py:259-268 | a fresh, unforced file is served from disk: no request, disk unchanged, its non-empty lines parsed |
| Cache.MissFetches | src/qsimbench/qsimbench.py:259-273 | a forced call, an absent file or an expired file goes to the network; an expired file is removed first, so a failed, unforced fetch leaves nothing under that path, while a failed forced fetch keeps the file; other paths are untouched |
| Cache.ErrorsOfFetch | src/qsimbench/qsimbench.py:272-281 | 404 yields no records, any other status or a connection failure is an error, and these are the only errors |
| Cache.SuccessCaches | src/qsimbench/qsimbench.py:283-290 | a success returns the parsed non-blank lines of the body and overwrites the cache with exactly those records, stamped `now` |
| Cache.ParseDumpAll | src/qsimbench/qsimbench.py:264-268 | dumping then parsing the records gives them back, and no dumped line is empty |
| Cache.ReadWhatWasWritten | src/qsimbench/qsimbench.py:264-288 | the text written to the cache reads back as the records written |
| Cache.CachedWithinTimeout | src/qsimbench/qsimbench.py:259-290 | a second unforced call within the timeout makes no request and returns the records of the download |
| Cache.RefetchedAfterTimeout | src/qsimbench/qsimbench.py:259-269 | once the timeout has passed, the same second call goes to the network |
| Catalog.ParseSpec | src/qsimbench/qsimbench.py:480-493 | the tokenizer of one name; its only errors are "no size" and "no backend" (its results are stated by the lemmas below) |
| Catalog.ItemSpec | src/qsimbench/qsimbench.py:477-493 | an item is skipped exactly when its name is reserved; any other item succeeds exactly when its name parses |
| Catalog.Entries | src/qsimbench/qsimbench.py:476-493 | the listing gives at most one entry per item, and its only errors are the tokenizer's |
| Catalog.AddByAlgorithm | src/qsimbench/qsimbench.py:495-496 | the `setdefault` chain by algorithm, whose effect `Catalog.AddByAlgorithmAppends` states |
| Catalog.AddByAlgorithmAppends | src/qsimbench/qsimbench.py:495-496 | one entry adds its algorithm to the keys and appends its backend to the list under its algorithm and size, a new list when there was none; every other list is kept |
| Catalog.AddByBackend | src/qsimbench/qsimbench.py:497-498 | the `setdefault` chain by backend, whose effect `Catalog.AddByBackendAppends` states |
| Catalog.AddByBackendAppends | src/qsimbench/qsimbench.py:497-498 | one entry adds its backend to the keys and appends its size to the list under its backend and algorithm, a new list when there was none; every other list is kept |
| Catalog.GroupByAlgorithm | src/qsimbench/qsimbench.py:476-500 | the index by algorithm: the entries added in listing order (contents in `Catalog.GroupByAlgorithmContents`) |
| Catalog.GroupByBackend | src/qsimbench/qsimbench.py:476-500 | the index by backend: the entries added in listing order (contents in `Catalog.GroupByBackendContents`) |
| Catalog.IndexSpec | src/qsimbench/qsimbench.py:453-500 | an index is only built for a circuit or mirror kind, a known version and a fetched listing, and has the shape `by_backend` asks for |
| Catalog.MetadataFiles | src/qsimbench/qsimbench.py:526-550 | a selection only comes from a fetched listing of a known version, is never empty, and every selected name starts with `algorithm_size_backend` |
| Catalog.FirstDigits | src/qsimbench/qsimbench.py:484-489 | the scan stops at the first all-digit token, and every token it passes is not all digits |
| Catalog.ParseName | src/qsimbench/qsimbench.py:477-493 | the deque loop (`popleft` until an all-digit token, one `pop`, join) computes the tokenizer `ParseSpec`, errors included |
| Catalog.GroupByAlgorithmContents | src/qsimbench/qsimbench.py:495-496 | under algorithm and size the index holds the backends of exactly those entries, in listing order; an algorithm or size is present exactly when some entry has it |
| Catalog.GroupByBackendContents | src/qsimbench/qsimbench.py:497-498 | under backend and algorithm the index holds the sizes of exactly those entries, in listing order; a key is present exactly when some entry has it |
| Catalog.GetIndex | src/qsimbench/qsimbench.py:453-500 | the method computes `IndexSpec`: a kind other than circuit or mirror (any case) is an error, then an unknown version, then a failed fetch, then the first name that does not parse; otherwise the grouped entries |
| Catalog.EntriesErrPersists | src/qsimbench/qsimbench.py:476-493 | a name that fails to parse fails the whole listing, whatever follows it |
| Catalog.ParseFormatted | src/qsimbench/qsimbench.py:480-493 | a name `alg_size_backend.json` built from `_`-free tokens, in which `.json` occurs only as the extension and no algorithm token after the first is all digits, parses to the algorithm, the size and the backend minus its last token |
| Catalog.ParseSpecAt | src/qsimbench/qsimbench.py:480-493 | when the first all-digit token after the first is at `k` with another token after it, the entry is the tokens before `k`, the value of token `k`, and the tokens between it and the last one |
| Catalog.ParseOneTwo | src/qsimbench/qsimbench.py:480-493 | a one-token algorithm with a two-token backend keeps only the first backend token |
| Catalog.ParseTwoOne | src/qsimbench/qsimbench.py:480-493 | a two-token algorithm keeps both tokens, and a one-token backend becomes empty |
| Catalog.QftExample | src/qsimbench/qsimbench.py:480-493 | `qft_8_aer_simulator.json` parses to algorithm `qft`, size 8, backend `aer` |
| Catalog.QuantumVolumeExample | src/qsimbench/qsimbench.py:480-493 | `quantum_volume_4_statevector.json` parses to algorithm `quantum_volume`, size 4 and the empty backend |
| Catalog.ParseSpecNoSize | src/qsimbench/qsimbench.py:484-485 | no all-digit token after the first is the "no size" error of an empty `popleft` |
| Catalog.ParseSpecNoBackend | src/qsimbench/qsimbench.py:491 | nothing after the size token is the "no backend" error of an empty `pop` |
| Catalog.ReservedSkipped | src/qsimbench/qsimbench.py:478-479 | `artifacts`, `histories` and `metadata.json` are skipped |
| Catalog.MissingNameError | src/qsimbench/qsimbench.py:477-485 | an item without a path reads as "" and fails with "no size" |
| Catalog.LeadingDigitsError | src/qsimbench/qsimbench.py:483-485 | `7_qft.json` fails: the first token is never the size |
| Catalog.NoBackendError | src/qsimbench/qsimbench.py:491 | `qft_8.json` fails: no token follows the size |
| Catalog.WithPrefix | src/qsimbench/qsimbench.py:542-546 | every selected name starts with the prefix |
| Catalog.WithPrefixMembers | src/qsimbench/qsimbench.py:542-546 | a name is selected exactly when it is listed and starts with the prefix |
| Catalog.MetadataSelection | src/qsimbench/qsimbench.py:542-550 | for a known version the selection fails with "no metadata" exactly when no listed name starts with `algorithm_size_backend`, and otherwise holds exactly the listed names with that prefix |
| Config.InitialDatasetUrl | src/qsimbench/qsimbench.py:66-69 | DEFAULT_DATASET_URL never ends in `/` |
| Config.RawUrlOf | src/qsimbench/qsimbench.py:92-99 | RAW_URL starts with `https://raw.githubusercontent.com/` and ends with `/refs/heads/main/dataset` |
| Config.InitialDatasetUrlDefault | src/qsimbench/qsimbench.py:66-69 | unset, DEFAULT_DATASET_URL is the default repository unchanged; set, it is the environment's value without trailing `/` |
| Config.InitialCacheTimeout | src/qsimbench/qsimbench.py:74 | unset, DEFAULT_CACHE_TIMEOUT is thirty days (2592000 seconds); set, it is the environment's value |
| Config.RawUrlOfSegments | src/qsimbench/qsimbench.py:95-99 | the raw URL is built from the last two `/`-segments of the dataset URL, whatever precedes them |
| Config.DefaultRawUrl | src/qsimbench/qsimbench.py:66-99 | the default dataset gives the raw URL of `superceccho/qsimbench-dataset` |
| Config.CheckDatasetUrl | src/qsimbench/qsimbench.py:173-175 | accepted exactly when the URL starts with `http://` or `https://`; the stored URL is the given one with every trailing `/` removed and no more |
| Config.CheckKeepsScheme | src/qsimbench/qsimbench.py:173-175 | a URL with something other than slashes after its scheme keeps the scheme when normalised |
| Config.CheckIdempotent | src/qsimbench/qsimbench.py:173-175 | normalising an accepted URL a second time changes nothing |
| Config.CheckCacheTimeout | src/qsimbench/qsimbench.py:195-199 | accepted exactly when non-negative, zero included, and stored as given |
| Config.LatestVersion | src/qsimbench/qsimbench.py:149-151 | an empty list is an error, otherwise the latest is the last listed version |
| Config.LatestAfterAppend | src/qsimbench/qsimbench.py:151 | appending a version makes it the latest |
| Outcomes.Request | src/qsimbench/qsimbench.py:318-329 | fails exactly on an empty algorithm or backend, a non-positive size (request error, checked first) or a kind outside circuit/mirror after lower-casing (kind error) |
| Outcomes.HistoryFile | src/qsimbench/qsimbench.py:325-327 | the history file name, whose shape `Outcomes.HistoryFileShape` states |
| Outcomes.HistoryFileShape | src/qsimbench/qsimbench.py:325-327 | the lower-cased algorithm and `_` start the file name, `.jsonl` ends it, and it holds no upper-case letter |
| Outcomes.RequestTarget | src/qsimbench/qsimbench.py:325-329 | a valid request reads `RAW_URL/version/histories/kind/alg_size_be.jsonl` and caches it at `CACHE_DIR/version/kind/` under the same file name, with kind, algorithm and backend lower-cased |
| Outcomes.RequestIgnoresCase | src/qsimbench/qsimbench.py:320-327 | names that differ only in case request the same file |
| Outcomes.KindIsFolded | src/qsimbench/qsimbench.py:320-321 | `Mirror` is accepted as the mirror kind |
| Outcomes.DataSpec | src/qsimbench/qsimbench.py:316-333 | one `_get_data` call on the disk: the check, then `_download_and_cache` of the request's path with the response for its URL (frame in `Outcomes.DataSpecFrame`) |
| Outcomes.DataSpecFrame | src/qsimbench/qsimbench.py:318-333 | an invalid request fails with its own error, makes no request and leaves the disk alone; a valid one changes the disk at its own cache path only |
| Outcomes.Gather | src/qsimbench/qsimbench.py:378-381 | the version loop as a fold: records concatenated in version order, the first error ends it (bounds in `Outcomes.GatherBounds`) |
| Outcomes.GatherBounds | src/qsimbench/qsimbench.py:378-381 | at most one request per version, and a fetch that succeeds had a valid request for every version |
| Outcomes.GatherNext | src/qsimbench/qsimbench.py:378-381 | after a successful prefix of the versions, the next version's call appends its records, its disk and its request |
| Outcomes.GatherErrPersists | src/qsimbench/qsimbench.py:379-381 | the first failing version ends the fetch: later versions are not requested and the disk stays as it was |
| Outcomes.GatherAppend | src/qsimbench/qsimbench.py:378-381 | fetching two lists of versions in turn concatenates their records in version order, and the disk and the requests thread through |
| Outcomes.GatherInvalidRequest | src/qsimbench/qsimbench.py:318-322 | an invalid request fails on the first version before anything is fetched |
| Outcomes.Trim | src/qsimbench/qsimbench.py:428-431 | the exact gate and the trim fail only behind the gate (`exact` and an overshoot), and only with "no counts" or an invalid draw |
| Outcomes.TrimProperties | src/qsimbench/qsimbench.py:428-431 | without `exact && total > shots` the aggregate is returned unchanged, short or not; a trim that succeeds sums to exactly `shots` over keys of the aggregate; behind the gate "no counts" is raised exactly when the aggregate sums to at most zero |
| Outcomes.TrimTo | src/qsimbench/qsimbench.py:428-429 | the gate and the trim compute `Trim` |
| Outcomes.Client.constructor | src/qsimbench/qsimbench.py:66-88 | the globals as set at import, from a dataset URL without a trailing `/` as DEFAULT_DATASET_URL always is (`Config.InitialDatasetUrl`): that URL, RAW_URL derived from it, the cache timeout from the environment or thirty days, no versions, empty cursors |
| Outcomes.Client.LoadVersions | src/qsimbench/qsimbench.py:138-151 | a failed fetch is reported and changes nothing; a fetched list is stored, an empty one is an error that keeps `latest`, otherwise `latest` is its last element |
| Outcomes.Client.SetDatasetUrl | src/qsimbench/qsimbench.py:162-181 | a URL without scheme is refused and nothing changes; otherwise the normalised URL is stored with RAW_URL derived from it, then the tree fetch and the version load report their errors or store the versions and the latest |
| Outcomes.Client.SetCacheTimeout | src/qsimbench/qsimbench.py:194-199 | a negative timeout is refused and the old one kept; any other is stored |
| Outcomes.Client.GetData | src/qsimbench/qsimbench.py:293-333 | an invalid request fails without touching the disk; a valid one is a `Download` of its path with the response for its URL |
| Outcomes.Client.FetchAll | src/qsimbench/qsimbench.py:378-381 | the version loop computes the fold `Gather`: records concatenated in version order, the first error returned, the disk and the URLs requested as `Gather` says |
| Outcomes.Client.Sample | src/qsimbench/qsimbench.py:394-431 | the sequential branch is a `SequentialRun` from the stored cursors; the random branch is a `RandomRun` of the draws and leaves the cursors alone |
| Outcomes.Client.GetOutcomes | src/qsimbench/qsimbench.py:338-431 | `shots <= 0`, then an unknown strategy, then an empty version list fail before any fetch and change nothing; then the versions are fetched in order; an error or no records is returned with the cursors unchanged; otherwise the chosen strategy runs and the exact gate applies |
| Strings.Join | src/qsimbench/qsimbench.py:493 | `sep.join(parts)`, whose round trips with `split` are `Strings.JoinSplit` and `Strings.SplitJoin` |
| Strings.IsDigits | src/qsimbench/qsimbench.py:486 | `str.isdigit` on ASCII: non-empty and every character a digit |
| Strings.DigitsValue | src/qsimbench/qsimbench.py:487 | `int` of a digit string: the last digit is the units, and the value is zero exactly when every digit is `0` |
| Strings.StartsWith | src/qsimbench/qsimbench.py:545 | `str.startswith`: the prefix is no longer than the string and equals its first characters |
| Strings.IsBlank | src/qsimbench/qsimbench.py:284 | `line.strip() == ""`: every character is whitespace as `str.strip` counts it |
| Strings.IntToString | src/qsimbench/qsimbench.py:327 | `str` of an integer: its digits, after a `-` when negative |
| Strings.Split | src/qsimbench/qsimbench.py:481 | `str.split` gives at least one piece, and no piece holds the separator |
| Strings.JoinSplit | src/qsimbench/qsimbench.py:481-493 | joining the pieces of a split gives the string back |
| Strings.SplitJoin | src/qsimbench/qsimbench.py:481-493 | splitting a join of separator-free pieces gives the pieces back |
| Strings.SplitSnoc | src/qsimbench/qsimbench.py:95-97 | the last piece of a split is what follows the last separator |
| Strings.Lower | src/qsimbench/qsimbench.py:320-326 | lower-casing keeps the length |
| Strings.LowerCases | src/qsimbench/qsimbench.py:320-326 | lower-casing leaves no upper-case letter, maps each of `A`-`Z` to its lower-case letter and keeps every other character |
| Strings.LowerIdempotent | src/qsimbench/qsimbench.py:320-326 | lower-casing twice is lower-casing once |
| Strings.NatToString | src/qsimbench/qsimbench.py:327 | the decimal form of a size is all digits |
| Strings.DigitsValueOfNatToString | src/qsimbench/qsimbench.py:486-487 | `int` of the decimal form of a size is that size |
| Strings.RStrip | src/qsimbench/qsimbench.py:175 | `rstrip("/")` removes the trailing run of `/` and nothing else |
| Strings.RemoveAll | src/qsimbench/qsimbench.py:480 | `replace(".json", "")` never lengthens the name |
| Strings.RemoveAllSuffix | src/qsimbench/qsimbench.py:480 | on a name in which no occurrence of `.json` starts before the extension, the replace removes exactly the extension |
| Strings.Lines | src/qsimbench/qsimbench.py:266 | splitting into lines gives at least one line |
| Strings.LinesJoin | src/qsimbench/qsimbench.py:266-288 | splitting a `\n`-join of break-free lines into lines gives them back |

## Left out

- `src/qsimbench/custom_interface.py`, the GUI, is not part of this model.
- The HTTP session with its retries, timeouts and headers, and every
  `_SESSION.get`, are left out. The responses are parameters (`resp`,
  `net`). `net` is a function, so within one call the same URL always
  gives the same response.
- The import-time side effects are left out. These are the `.env` file,
  the creation of the cache directory, the network loads at import, and
  dotenv's `set_key` when `set_default` is given.
- `set_github_token` only sets a header, and is left out with the HTTP
  session.
- Python's Mersenne Twister and the master seed, with the two seeds
  derived from it, are left out. The generators are the oracles `draws`
  and `sampled`, so reproducibility under a seed is not modelled.
- The float weights `agg[b] / total` are left out. The trim draw is any
  sequence of `shots` keys of the aggregate, so the proportions of the
  draw are not modelled.
- JSON decoding and encoding are left out. Records are already
  structured, and `parse`/`dump` stand for one line. Decoding failures
  and non-integer `shots` or counts are not modelled.
- `lru_cache` on `get_index` and `get_metadata` and the cursor lock are
  left out. They are memoisation and concurrency. Locking cannot be
  stated in this model.
- `time.time()` and `st_mtime` are integers given by the caller.
- `get_dataset_content` is left out, together with the lookup of a
  version's tree URL in it. The listing a version resolves to is the
  parameter `resp` of `GetIndex` and `MetadataFiles`.
  `Outcomes.Client.SetDatasetUrl` sees the tree fetch only as
  success or failure (`content`).
- `get_version_metadata` and `get_versions` are left out. They are a
  plain fetch and a plain read of the version list.
- The fetch loop of `get_metadata` is left out, with its fallback from
  whole-document JSON to one document per line. Only its file
  selection is modelled.
- The default `versions=[latest]` of `get_outcomes` is left out. Python
  evaluates it once, at definition time. Callers pass the versions
  explicitly.
- Dictionary key order is left out. Histograms and indexes are maps, and
  the order of the lists inside the index is modelled.
- Cache paths are the string join of the parts with `/`. `Path`
  normalisation (empty and `.` parts, repeated separators, absolute
  parts) is not modelled, so spellings `Path` would merge are different
  keys of the disk.
- The `cache_path.parent.mkdir(parents=True, exist_ok=True)` of
  `_get_data` is left out. The disk is a map from path to file, with no
  directories.
- The default arguments of the code are left out: `circuit_kind="circuit"`
  and `force=False` of `_get_data` and `get_outcomes`; `shots=1024`,
  `strategy="sequential"` and `exact=True` of `get_outcomes`;
  `circuit_kind="circuit"`, `by_backend=False` and `version=latest` of
  `get_index`; and `version=latest` of `get_metadata`. Callers pass every
  argument explicitly.
- The conversion `int(...)` of QSIMBENCH_CACHE_TIMEOUT is left out: the
  environment's value is already an integer.
- `str.lower`, `str.isdigit` and `str.strip` are modelled for ASCII only.
- `Strings.Lines` differs from `str.splitlines` in empty lines only:
  a trailing break or a `\r\n` pair gives an extra empty line here.
  Every caller drops empty lines first.
- `Outcomes.Client.SetCacheTimeout` takes a Dafny `int`, so the
  `isinstance(timeout, int)` check of the code has no counterpart.
  The same holds for the `shots` check of `GetOutcomes`.
- `Sampling.SampleRandom` and `Sampling.CursorRegistry.SampleSequential`
  require a record with positive shots. The code loops forever without
  one, and `Outcomes.Client.GetOutcomes` returns `Err(Diverges)` for that
  case instead.
- `Outcomes.Client.GetOutcomes` returns `Err(OracleInvalid)` for a
  random-draw or trim oracle that cannot stand for a generator's output.
  Such an oracle has no counterpart in the code.
