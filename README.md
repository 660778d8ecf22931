# Crypto exchange-rate service: a verified model

This project models the core of a Symfony application that collects EUR exchange rates for
BTC, ETH and LTC from Binance, stores them as `(pair, rate, timestamp)` rows and serves
them as chart data. It proves properties of that model.

What is modelled:

- **Historical backfill** (`HistoricalRateBackfillService`, module `HistoricalRateBackfill`).
  - The pairs to run are resolved from the catalog. A specific pair that is not in the catalog gives an empty run.
  - For every pair, the range `[now - days, now)` is split into 3-day chunks.
  - The klines of each chunk are fetched from an abstract kline source.
  - Malformed klines are logged as warnings and skipped. Klines whose `(pair, open second)` is already stored are skipped too.
  - Each chunk is batch-saved exactly once.
  - A pair whose fetch fails is logged and left out of the summary. Later pairs still run.
  - The specification functions (`SaveChunk`, `RunChunks`, `RunPairs`, `Backfill`) pass the observable world through the run: stored rows, requests sent, log entries and flush count. The class methods are proved to leave exactly that world.
  - Module `BackfillProperties` proves, over those functions:
    - chunk tiling;
    - the chunk count `(days + 2) / 3`;
    - failure isolation;
    - idempotence of a repeated run;
    - append-only growth of the store.
- **Persistence** (`CryptoRatePersistenceService` over an `EntityManager` class).
  - The store has flushed rows, a pending list and a flush counter.
  - `saveRatesBatch` returns the input length, appends every row in order and flushes `n / batchSize + 1` times.
- **Repository queries.** The existence check, the last-24-hours window and the calendar-day window. Results are sorted ascending by timestamp, and their contents are characterised exactly as a multiset.
- **Millisecond-to-second conversion** (`BinanceHelper`). It truncates toward zero, as PHP's `(int)` cast does, and inverts the client's `seconds * 1000` encoding.
- **The entity** `CryptoRate`:
  - its validation constraints: `NotBlank`, `Length(max: 10)`, and `Positive` on the rate string. `Positive` is PHP 8's `$rate > 0`. A numeric string (surrounding whitespace, a sign, a decimal point and an exponent allowed) is compared as a number, and a fraction is compared as the double it rounds to, so '1e-400' is not positive. Any other string is compared with "0" byte by byte, so 'abc' passes;
  - its fluent setters and getters;
  - `createdAt`, which the constructor takes from a clock reading.
- **The request DTOs** `CryptoRatesRequest` and `Last24HoursRequest`: the violation lists that Symfony's validator produces for them, in constraint order.
- **The spot-price service** `BinanceApiService`:
  - `updateRates` makes one request per catalog pair and stamps every row with one shared instant. An `\Exception` is caught per pair; an `\Error` escapes. That `\Error` is a `TypeError` from an array or object price. A number or boolean price is converted to its string form, because the file does not declare `strict_types`.
  - It also has the read-side queries and `getSupportedPairs`.
- **The console command** `app:backfill-crypto-rates`:
  - PHP's `(int)` cast of the `days` argument;
  - the days range check, which runs before the interval check;
  - the exit codes.
- **The controller**:
  - the 400 / 200 / 500 branching of both endpoints;
  - the `labels`/`datasets` chart shape and the flat rate array.
- **`ExceptionHandlerService`**: the 400 body with one `details` entry per violation, and the fixed 500 and 503 bodies.
- **`SqlQueryTypeDetector`**:
  - `normalizeSql`, which is trim after ASCII upper-case;
  - the first-prefix classification;
  - leftmost regular-expression table extraction;
  - the query-context priority chain.
- **`ResilientGelfHandler`**: the connected/disconnected state machine with its 300-second retry window, and the fallback logger calls.

Time is an integer count of UTC seconds. "Now" and other clock readings are parameters. HTTP replies, kline fetches and database reachability are abstract functions given to the model.

Where the code's own documentation or tests suggest something the code does not do, the model follows the code. Three cases:

- The command's `interval` option is described as the data interval (src/Command/BackfillCryptoRatesCommand.php:31), and the command passes it as a third argument (line 59). `HistoricalRateBackfillService::backfillHistoricalRates` takes only two parameters (src/Service/HistoricalRateBackfillService.php:26), so PHP drops the third. The service fetches at the interval it was constructed with, and the model does the same.
- The command calls `backfillHistoricalRates` on its `BinanceApiService` (line 59), and its unit test mocks that method with the arguments `(7, null)` (tests/Unit/Command/BackfillCryptoRatesCommandTest.php:26-30). src/Service/BinanceApiService.php has no such method. The model therefore treats the backfill call as an abstract function that says whether the call returns or throws.
- The DTO test for an empty pair asserts a 'required' violation (tests/Unit/DTO/CryptoRatesRequestTest.php:34-41). The model produces that violation and also an 'unsupported' one, because Symfony's `Choice` constraint skips only `null` and so fires on `''` next to `NotBlank`.

## Model

| member | source | states |
|---|---|---|
| BinanceHelper.MsToSeconds | src/Helper/BinanceHelper.php:16-20 | the second count is the millisecond count divided by 1000 and truncated toward zero: the discarded part is in [0, 1000) on the side of zero, for negative inputs too |
| BinanceHelper.SecondsToMs | src/Helper/BinanceHelper.php:16-20 | encoding seconds as milliseconds gives a whole multiple of 1000 whose quotient is the seconds |
| BinanceHelper.RoundTrip | src/Helper/BinanceHelper.php:18 | converting `s * 1000` milliseconds back gives exactly `s`: request encoding and kline decoding are inverse |
| BinanceHelper.Monotone | src/Helper/BinanceHelper.php:18 | the conversion preserves order |
| BinanceHelper.SameSecond | src/Helper/BinanceHelper.php:18 | every millisecond in `[1000k, 1000k + 999]` maps to second `k` (truncation, not rounding) |
| BinanceHelper.OpenTimeExample | src/Helper/BinanceHelper.php:18 | 1703505600000 ms is 1703505600 s, and the last millisecond of that 5-minute bar stays in its own second |
| CryptoRateEntity.ConstraintExamples | src/Entity/CryptoRate.php:28-36 | '' and an eleven-plus character pair are invalid and 'EUR/BTC' valid; '' and '-100.00000000' are invalid rates and '98606.12345678' valid |
| CryptoRateEntity.NegativeRateInvalid | src/Entity/CryptoRate.php:33-36 | no plain decimal written with a leading minus sign, with or without a fraction, satisfies `Positive` |
| CryptoRateEntity.ValidPair | src/Entity/CryptoRate.php:28-30 | a pair is valid iff it has one to ten characters |
| CryptoRateEntity.IsPositive | src/Entity/CryptoRate.php:35 | a positive rate is never empty, and a positive numeric rate is never written with a minus sign |
| CryptoRateEntity.ValidRate | src/Entity/CryptoRate.php:33-36 | `NotBlank` adds nothing to `Positive`: a rate is valid iff it is positive |
| CryptoRateEntity.ParseDecimalText | src/Entity/CryptoRate.php:35 | after the sign, digits read as an integer, and digits, a point and digits read as the mantissa of both parts scaled by the number of fraction digits |
| CryptoRateEntity.IntegerNumeral | src/Entity/CryptoRate.php:35 | a digit string is numeric, with its exact value and scale 0 |
| CryptoRateEntity.DecimalNumeral | src/Entity/CryptoRate.php:35 | a plain decimal such as '98606.12345678' is numeric, with its digits as mantissa and minus its fraction length as scale |
| CryptoRateEntity.NegativeDecimalNumeral | src/Entity/CryptoRate.php:35 | the same decimal after a minus sign is numeric and negative |
| CryptoRateEntity.ParseInteger | src/Entity/CryptoRate.php:35 | digits without a point followed by nothing or an exponent are numeric, and followed by anything else are not |
| CryptoRateEntity.ParseWithExponent | src/Entity/CryptoRate.php:35 | digits, 'e' and a signed exponent read as the digits scaled by that exponent |
| CryptoRateEntity.ExponentNumeral | src/Entity/CryptoRate.php:35 | digits, 'e' and an exponent with nothing around them are numeric: the digits scaled by the exponent, e.g. '1e400' |
| CryptoRateEntity.ParseTrailingText | src/Entity/CryptoRate.php:35 | digits followed by other text ('5 apples') are not numeric |
| CryptoRateEntity.NumericIgnoresSpace | src/Entity/CryptoRate.php:35 | whitespace before and after a string changes neither its numeric reading nor, for numeric text, whether it is positive |
| CryptoRateEntity.ValidRateOfNumeral | src/Entity/CryptoRate.php:33-36 | for numeric text, validity is the positivity of the number |
| CryptoRateEntity.ValidRateOfText | src/Entity/CryptoRate.php:33-36 | for text that is not numeric, validity is the byte-wise comparison with "0" |
| CryptoRateEntity.ShortDecimalPositive | src/Entity/CryptoRate.php:35 | a non-negative decimal with at most 268 fraction digits is positive iff its mantissa is nonzero: it cannot round to 0.0 |
| CryptoRateEntity.DecimalRatePositive | src/Entity/CryptoRate.php:33-36 | a plain decimal with at most 268 fraction digits is a valid rate iff one of its digits is nonzero, in both directions |
| CryptoRateEntity.TinyNotPositive | src/Entity/CryptoRate.php:35 | a mantissa of 1 scaled by 10^-359 or less is not positive, because it rounds to 0.0 |
| CryptoRateEntity.UnderflowInvalid | src/Entity/CryptoRate.php:33-36 | a numeric rate whose value rounds to 0.0 as a double is invalid |
| CryptoRateEntity.SpacedNumberExample | src/Entity/CryptoRate.php:35 | ' 5' is a valid rate |
| CryptoRateEntity.ZeroRateExamples | src/Entity/CryptoRate.php:35 | '0e5' and '0.0 ' are invalid rates |
| CryptoRateEntity.ExponentRateExamples | src/Entity/CryptoRate.php:35 | '1e-400' is invalid and '1e400' valid |
| CryptoRateEntity.TextRateExamples | src/Entity/CryptoRate.php:35 | 'abc' and '5 apples' are valid rates and ' abc' is not, by string comparison with "0" |
| CryptoRateEntity.CryptoRate.constructor | src/Entity/CryptoRate.php:45-48 | a new entity has no id, and `createdAt` is the clock reading taken at construction |
| CryptoRateEntity.CryptoRate.SetPair | src/Entity/CryptoRate.php:60-64 | sets the pair, returns the same object, leaves every other field unchanged |
| CryptoRateEntity.CryptoRate.SetRate | src/Entity/CryptoRate.php:71-75 | sets the rate string verbatim, returns the same object, leaves every other field unchanged |
| CryptoRateEntity.CryptoRate.SetTimestamp | src/Entity/CryptoRate.php:82-86 | sets the timestamp, returns the same object, leaves every other field unchanged |
| CryptoRateEntity.CryptoRate.SetCreatedAt | src/Entity/CryptoRate.php:93-97 | sets `createdAt`, returns the same object, leaves every other field unchanged |
| CryptoRateEntity.BuildEntity | src/Entity/CryptoRate.php:45-97 | each getter of a fresh entity returns the value last passed to its setter, and `createdAt` stays the clock reading the constructor took |
| Logging.CountLevel | src/Service/HistoricalRateBackfillService.php:43-62 | a log holds at most as many entries of one level as it has entries |
| Logging.CountLevelAppend | src/Service/HistoricalRateBackfillService.php:43-62 | per-level counts of a concatenated log add up |
| Logging.CountLevelAll | src/Service/HistoricalRateBackfillService.php:43-62 | a log whose every entry has one level holds that many entries of it |
| Persistence.FlushCount | src/Service/CryptoRatePersistenceService.php:45-50 | a batch save flushes at least once, even for no rows |
| Persistence.FlushCountExamples | src/Service/CryptoRatePersistenceService.php:45-50 | 250 rows flush 3 times at batch size 100, 25 rows 3 times at batch size 10, 0 rows once, 100 rows twice |
| Persistence.CryptoRatePersistenceService.SaveRate | src/Service/CryptoRatePersistenceService.php:18-27 | exactly one row with the given pair, rate and timestamp is persisted and written by one flush, with rows pending before it written first |
| Persistence.CryptoRatePersistenceService.SaveRatesBatch | src/Service/CryptoRatePersistenceService.php:32-53 | returns the number of input rows; every row is stored, in input order, unchanged and without dedupe; the flush count grows by `n / batchSize + 1`; nothing is left pending |
| CryptoRateRepository.ScanExists | src/Repository/CryptoRateRepository.php:57-63 | true exactly when some stored row has that pair and exactly that timestamp |
| CryptoRateRepository.ExistsAfterAppend | src/Repository/CryptoRateRepository.php:57-63 | a row exists in an extended store iff it existed before or is among the added rows |
| CryptoRateRepository.Select | src/Repository/CryptoRateRepository.php:24-28 | the rows kept are exactly those of the pair inside the time window, each with its multiplicity in the store |
| CryptoRateRepository.SortByTimestamp | src/Repository/CryptoRateRepository.php:29 | the result is a permutation of the input, ascending by timestamp |
| CryptoRateRepository.Last24HoursContents | src/Repository/CryptoRateRepository.php:22-32 | the last-24-hours query returns, ascending, exactly the pair's rows with timestamp at least `now - 86400`, duplicates kept |
| CryptoRateRepository.DayContents | src/Repository/CryptoRateRepository.php:37-52 | the day query returns, ascending, exactly the pair's rows between 00:00:00 and 23:59:59 of the date, both ends inclusive |
| CryptoRateRepository.DayWindowIsSameDay | src/Repository/CryptoRateRepository.php:39-40 | a timestamp lies in the day window iff it falls on the same UTC calendar day as the date |
| CryptoRateRepository.Last24HoursIgnoresOtherPairs | src/Repository/CryptoRateRepository.php:25 | adding a row of another pair does not change a pair's last-24-hours answer |
| CryptoRateRepository.DayQueryExample | src/Repository/CryptoRateRepository.php:37-52 | the next day's midnight and other pairs are excluded, 23:59:59 is included, and the answer is ascending |
| HistoricalRateBackfill.KlineSource.FetchKlines | src/Service/HistoricalRateBackfillService.php:97 | each fetch records one request with the chunk bounds in milliseconds and returns the source's answer for it |
| HistoricalRateBackfill.ChunkEnd | src/Service/HistoricalRateBackfillService.php:86-89 | a chunk ends 3 days after its start, or at the range end when that is sooner |
| HistoricalRateBackfill.StageOne | src/Service/HistoricalRateBackfillService.php:115-135 | a kline stages at most one row, of the pair, whose (pair, second) is not in the store |
| HistoricalRateBackfill.Staged | src/Service/HistoricalRateBackfillService.php:113-135 | a chunk stages at most one row per kline; which rows it stages, in both directions, is `BackfillProperties.StagedMembers` |
| HistoricalRateBackfill.Warnings | src/Service/HistoricalRateBackfillService.php:119-125 | every warning a chunk logs names its pair, at most one per kline |
| HistoricalRateBackfill.StagedNext | src/Service/HistoricalRateBackfillService.php:115-135 | staging and warnings of a chunk extend one kline at a time |
| HistoricalRateBackfill.SaveChunk | src/Service/HistoricalRateBackfillService.php:111-138 | saving a chunk sends no request |
| HistoricalRateBackfill.RunChunks | src/Service/HistoricalRateBackfillService.php:77-106 | a pair sends at most one request per chunk |
| HistoricalRateBackfill.Lookup | src/Service/HistoricalRateBackfillService.php:34-35 | a pair is found iff the catalog has it as a key, and the symbol found is the one the catalog gives it |
| HistoricalRateBackfill.ResolvePairs | src/Service/HistoricalRateBackfillService.php:31-37 | no specific pair runs the whole catalog; a specific pair runs alone with its symbol if listed, and nothing otherwise |
| HistoricalRateBackfill.RunPairs | src/Service/HistoricalRateBackfillService.php:41-64 | no more pairs are reported processed than were run |
| HistoricalRateBackfill.RunPairsStep | src/Service/HistoricalRateBackfillService.php:41-64 | one loop iteration: a completed pair adds its count and its name, a failed one only its effects |
| HistoricalRateBackfill.Backfill | src/Service/HistoricalRateBackfillService.php:26-72 | the summary's dates are `now - days` and `now` formatted as Y-m-d |
| HistoricalRateBackfill.HistoricalRateBackfillService.StageKline | src/Service/HistoricalRateBackfillService.php:116-134 | one kline: a malformed one logs one warning and stages nothing, a good one stages its row unless the store has it |
| HistoricalRateBackfill.HistoricalRateBackfillService.StageKlines | src/Service/HistoricalRateBackfillService.php:113-135 | the loop stages exactly `Staged` of the chunk and logs exactly its warnings |
| HistoricalRateBackfill.HistoricalRateBackfillService.SaveHistoricalRates | src/Service/HistoricalRateBackfillService.php:111-138 | returns the number of staged rows; they are appended to the store in kline order; warnings are logged; one batch save's flushes happen even for an empty chunk |
| HistoricalRateBackfill.HistoricalRateBackfillService.BackfillRatesForPair | src/Service/HistoricalRateBackfillService.php:77-106 | the chunk loop leaves exactly the world and count of `RunChunks` over `Chunks(start, end)` |
| HistoricalRateBackfill.HistoricalRateBackfillService.AttemptPair | src/Service/HistoricalRateBackfillService.php:42-63 | one pair inside its try/catch: start entry, chunk loop, then a success or a failure entry |
| HistoricalRateBackfill.HistoricalRateBackfillService.BackfillHistoricalRates | src/Service/HistoricalRateBackfillService.php:26-72 | the summary and the final world are exactly those of `Backfill` |
| BackfillProperties.ChunksTile | src/Service/HistoricalRateBackfillService.php:83-101 | the chunks tile `[start, end)` exactly: none for an empty range, the first at `start`, each next at the previous end, the last at `end`, each non-empty and at most 3 days, all but the last exactly 3 days |
| BackfillProperties.ChunkCount | src/Service/HistoricalRateBackfillService.php:85-101 | a range of length L has `ceil(L / 259200)` chunks |
| BackfillProperties.ChunksPerPair | src/Service/HistoricalRateBackfillService.php:29-101 | a backfill of `days` days fetches `ceil(days / 3)` chunks per pair |
| BackfillProperties.ChunksPerPairExamples | src/Service/HistoricalRateBackfillService.php:85-101 | 7 days give 3 fetches, 5 give 2, 3 and 1 give 1, 0 give none |
| BackfillProperties.ChunkRequests | src/Service/HistoricalRateBackfillService.php:97 | the requests for a list of chunks are one per chunk, in order |
| BackfillProperties.FetchedPrefix | src/Service/HistoricalRateBackfillService.php:85-103 | the chunks that fetch before the first failure are the longest succeeding prefix |
| BackfillProperties.AllFetchedPrefix | src/Service/HistoricalRateBackfillService.php:85-103 | every chunk fetches iff that prefix is all the chunks |
| BackfillProperties.RunChunksRequests | src/Service/HistoricalRateBackfillService.php:85-103 | a pair completes iff all chunk fetches succeed, and its requests are the chunks up to and including the first failing one |
| BackfillProperties.RunChunksCompletes | src/Service/HistoricalRateBackfillService.php:85-103 | completion of a pair is equivalent to all its fetches succeeding |
| BackfillProperties.RunChunksSent | src/Service/HistoricalRateBackfillService.php:85-103 | the requests sent stop at the first failing chunk |
| BackfillProperties.RunChunksCompletedRequests | src/Service/HistoricalRateBackfillService.php:85-103 | when every fetch succeeds, exactly one request per chunk is sent, in order, and the pair completes |
| BackfillProperties.RunChunksGrows | src/Service/HistoricalRateBackfillService.php:85-103 | a pair only appends to the store, log and requests, and the count it reports is the number of rows added |
| BackfillProperties.PairStepGrows | src/Service/HistoricalRateBackfillService.php:42-63 | a pair only appends, always logs its start entry, and logs a failure entry when it does not complete |
| BackfillProperties.CompletedPairs | src/Service/HistoricalRateBackfillService.php:52 | the processed list holds exactly the pairs whose fetches all succeed, and none when none do |
| BackfillProperties.RunPairsOutcome | src/Service/HistoricalRateBackfillService.php:41-64 | processed pairs are exactly the completed ones in catalog order; every pair is started, each failing one logs a failure; the run only appends; the total never exceeds the rows added and equals it when no pair fails |
| BackfillProperties.FailingPairIsolated | src/Service/HistoricalRateBackfillService.php:58-63 | a failing pair contributes nothing to the summary but its effects, and the later pairs run as if it had not been there |
| BackfillProperties.RequestCount | src/Service/HistoricalRateBackfillService.php:41-103 | when every fetch succeeds, a run sends pairs times chunks requests |
| BackfillProperties.WeekOfThreePairs | src/Service/HistoricalRateBackfillService.php:41-103 | three pairs over 7 days send 9 requests, over 5 days 6 |
| BackfillProperties.UnknownPairIsNoOp | src/Service/HistoricalRateBackfillService.php:31-37 | an unknown specific pair inserts nothing, processes nothing and changes nothing |
| BackfillProperties.TotalOutage | src/Service/HistoricalRateBackfillService.php:41-64 | when every fetch fails, nothing is inserted or processed and the store is unchanged |
| BackfillProperties.NoCompletionNoRows | src/Service/HistoricalRateBackfillService.php:85-103 | with a non-empty range and every fetch failing, no row is stored |
| BackfillProperties.StagedAppend | src/Service/HistoricalRateBackfillService.php:115-135 | staging and warnings distribute over concatenated kline lists |
| BackfillProperties.StagedRowsAppend | src/Service/HistoricalRateBackfillService.php:115-135 | staging distributes over concatenation |
| BackfillProperties.WarningsAppend | src/Service/HistoricalRateBackfillService.php:119-125 | warnings distribute over concatenation |
| BackfillProperties.MalformedSkipped | src/Service/HistoricalRateBackfillService.php:116-126 | a malformed kline anywhere in a chunk adds one warning and leaves the staging of the rest unchanged |
| BackfillProperties.MalformedAlone | src/Service/HistoricalRateBackfillService.php:116-126 | a chunk of one malformed kline stages nothing and logs one warning |
| BackfillProperties.MalformedWarns | src/Service/HistoricalRateBackfillService.php:116-126 | each malformed kline in a chunk adds exactly one warning, and the chunk logs nothing at any other level |
| BackfillProperties.StagedMembers | src/Service/HistoricalRateBackfillService.php:115-135 | a row is staged iff some good kline has that close price and open second and the store has no row of that pair and second |
| BackfillProperties.InvalidKlineExample | src/Service/HistoricalRateBackfillService.php:115-135 | a good, a malformed and a good kline stage the two good rows and log one warning |
| BackfillProperties.SameSecondBothStaged | src/Service/HistoricalRateBackfillService.php:128-134 | two klines in one second are both staged: staging checks only the store |
| BackfillProperties.CoveredGrows | src/Service/HistoricalRateBackfillService.php:128 | once a chunk's rows are present, they stay present as the store grows |
| BackfillProperties.SaveChunkCovers | src/Service/HistoricalRateBackfillService.php:128-137 | after a chunk is saved, every good kline of it has its row in the store |
| BackfillProperties.StagedWhenCovered | src/Service/HistoricalRateBackfillService.php:128-134 | a chunk whose rows are all present stages nothing |
| BackfillProperties.ChunksCoveredGrows | src/Service/HistoricalRateBackfillService.php:85-103 | coverage of a pair's chunks survives store growth |
| BackfillProperties.RunChunksCovers | src/Service/HistoricalRateBackfillService.php:85-103 | after a pair runs, every chunk it fetched is covered in the store |
| BackfillProperties.RunChunksWhenCovered | src/Service/HistoricalRateBackfillService.php:85-103 | a pair whose fetched chunks are all covered inserts nothing |
| BackfillProperties.RunPairsCovers | src/Service/HistoricalRateBackfillService.php:41-64 | after a run, every pair's fetched chunks are covered |
| BackfillProperties.RunPairsWhenCovered | src/Service/HistoricalRateBackfillService.php:41-64 | a run over covered pairs inserts nothing and leaves the store unchanged |
| BackfillProperties.BackfillIdempotent | src/Service/HistoricalRateBackfillService.php:26-72 | repeating an identical backfill, with the source answering the same, inserts 0 rows, leaves the store unchanged and reports the same pairs and dates |
| BackfillProperties.BackfillOnlyAppends | src/Service/HistoricalRateBackfillService.php:26-72 | a backfill only appends to the store, and its total never exceeds the rows appended |
| Dto.PairViolations | src/DTO/CryptoRatesRequest.php:9-16 | no pair violation iff the pair is supported; 'required' iff it is empty, 'unsupported' iff it is not in the list; '' gives both, in that order |
| Dto.DateViolations | src/DTO/CryptoRatesRequest.php:18-20 | no date violation iff the date is a real YYYY-MM-DD day; 'required' for null or '', 'invalid format' for any other non-date, never both |
| Dto.CryptoRatesRequest.Validate | src/DTO/CryptoRatesRequest.php:9-20 | a day request is valid iff its pair is supported and its date is a real calendar date |
| Dto.DayViolations | src/DTO/CryptoRatesRequest.php:11-20 | the violations are exactly the pair ones and the date ones, pair ones first |
| Dto.Last24HoursRequest.Validate | src/DTO/Last24HoursRequest.php:9-14 | valid iff the pair is supported; 'required' iff empty, 'unsupported' iff not in the list |
| Dto.SamePairChecks | src/DTO/Last24HoursRequest.php:11 | both requests check the pair identically: the last-24-hours violations are a prefix of the day ones, followed only by date violations |
| Dto.ValidationExamples | src/DTO/CryptoRatesRequest.php:9-20 | every supported pair with '2025-09-21' is valid |
| Dto.PairValidationExamples | src/DTO/CryptoRatesRequest.php:11-15 | 'INVALID/PAIR' is unsupported and '' is required |
| Dto.DateValidationExamples | src/DTO/CryptoRatesRequest.php:18-19 | 'invalid-date' is badly formatted, '' is required, and a missing date is invalid |
| Dto.Last24HoursValidationExamples | src/DTO/Last24HoursRequest.php:9-14 | every supported pair is valid, 'INVALID' is unsupported, '' is required |
| Dto.AcceptedDateRoundTrip | src/Controller/CryptoRatesController.php:64-70 | an accepted date parsed to its midnight and formatted as Y-m-d gives back the same text |
| Calendar.CivilRoundTrip | src/Repository/CryptoRateRepository.php:39-40 | the day count of a valid calendar date converts back to that date |
| Calendar.StartOfDay | src/Repository/CryptoRateRepository.php:39 | `setTime(0, 0, 0)` gives the midnight on or before the instant, on the same date |
| Calendar.EndOfDay | src/Repository/CryptoRateRepository.php:40 | `setTime(23, 59, 59)` is the last second of the same date |
| Calendar.MidnightOf | src/Controller/CryptoRatesController.php:64 | a parsed date's instant is the midnight of that date |
| Calendar.FormatParsedDate | src/Controller/CryptoRatesController.php:64-70 | a valid YYYY-MM-DD text survives parse-and-format unchanged |
| Calendar.FormatHiFields | src/Controller/CryptoRatesController.php:97 | the 'H:i' label reads back as the hour before the colon and the minute after it |
| Calendar.FormatMdHiFields | src/Controller/CryptoRatesController.php:99 | the 'M-d H:i' label holds the month's abbreviation, the two-digit day of the month and then the 'H:i' label |
| Digits.ParseFixedDigits | src/Controller/CryptoRatesController.php:97-99 | a number below 10^w printed zero-padded to width w reads back as itself |
| ExceptionHandler.Field | src/Service/ExceptionHandlerService.php:27-30 | a key's value is found iff the object has a field with that key |
| ExceptionHandler.Details | src/Service/ExceptionHandlerService.php:19-25 | one `details` entry per violation, in order, with its field and message copied |
| ExceptionHandler.ErrorBodiesAreFixed | src/Service/ExceptionHandlerService.php:41-57 | the 500 and 503 bodies contain only their fixed texts, so no exception message can appear in them |
| ExceptionHandler.ExceptionHandlerService.HandleValidationErrors | src/Service/ExceptionHandlerService.php:17-31 | a 400 whose `error` is 'Validation failed' and whose `details` list every violation's field and message in order |
| ExceptionHandler.ExceptionHandlerService.HandleApiException | src/Service/ExceptionHandlerService.php:33-45 | logs exactly one error entry with the context and message, and answers the fixed 500 |
| ExceptionHandler.ExceptionHandlerService.HandleBinanceApiException | src/Service/ExceptionHandlerService.php:47-58 | logs exactly one error entry with the message, and answers the fixed 503 |
| ExceptionHandler.ValidationDetailsExample | src/Service/ExceptionHandlerService.php:19-25 | two violations give two details with their fields and messages |
| BinanceApi.FetchRate | src/Service/BinanceApiService.php:58-76 | a price is returned iff the decoded reply has a non-null `price`; a missing or null price or an HTTP or decoding error is a caught exception; an array price is an uncaught type error |
| BinanceApi.FetchRateExamples | src/Service/BinanceApiService.php:66-72 | a ticker reply gives its price string; no `price` key, a null price or an HTTP failure give a caught failure |
| BinanceApi.Symbols | src/Service/BinanceApiService.php:37-39 | one request per pair attempted |
| BinanceApi.Successes | src/Service/BinanceApiService.php:37-52 | at most one row per pair, all stamped with the run's single instant |
| BinanceApi.Outcomes | src/Service/BinanceApiService.php:42-50 | exactly one log entry per pair |
| BinanceApi.StepAppends | src/Service/BinanceApiService.php:38-51 | a pair that does not raise an `\Error` appends its row (if any), its request, its log entry and one flush per row |
| BinanceApi.UpdateRunComplete | src/Service/BinanceApiService.php:33-53 | without an `\Error`, every pair is attempted whatever failed before, the store gains exactly the successful rows in catalog order, one request and one log entry per pair, and one flush per row |
| BinanceApi.UpdateRunConcat | src/Service/BinanceApiService.php:37-52 | a run over two lists is the run over the first followed by the run over the second |
| BinanceApi.UpdateRunFatal | src/Service/BinanceApiService.php:46 | an `\Error` at one pair ends the run there: earlier pairs' effects and that pair's request remain, and later pairs are not attempted |
| BinanceApi.UpdateRunAppends | src/Service/BinanceApiService.php:33-53 | a run only appends, with no dedupe, and every row it adds carries the run's instant |
| BinanceApi.UpdateRatesExamples | src/Service/BinanceApiService.php:33-53 | with all prices available, three rows in catalog order; with the exchange down, no row, three requests and three failure entries |
| BinanceApi.PriceClient.Request | src/Service/BinanceApiService.php:61-64 | each request records its symbol and returns the endpoint's reply |
| BinanceApi.BinanceApiService.UpdateRates | src/Service/BinanceApiService.php:33-53 | the loop leaves exactly the world, and reports exactly the escaping `\Error`, of `UpdateRun` over the catalog |
| BinanceApi.BinanceApiService.UpdatePair | src/Service/BinanceApiService.php:38-51 | one iteration's try/catch leaves exactly the world of `Step` |
| BinanceApi.BinanceApiService.FetchRateFromBinance | src/Service/BinanceApiService.php:58-76 | sends one request for the symbol and returns `FetchRate` of the reply |
| BinanceApi.BinanceApiService.SaveRate | src/Service/BinanceApiService.php:81-90 | exactly one row with the pair, rate and instant is persisted and flushed |
| BinanceApi.BinanceApiService.GetRatesForLast24Hours | src/Service/BinanceApiService.php:95-108 | ascending; each row of the pair no older than 24 hours is returned exactly as many times as it is stored, and no other row |
| BinanceApi.BinanceApiService.GetRatesForDay | src/Service/BinanceApiService.php:113-131 | ascending; each row of the pair on the same UTC day as the date is returned exactly as many times as it is stored, and no other row |
| BinanceApi.BinanceApiService.GetSupportedPairs | src/Service/BinanceApiService.php:136-139 | exactly EUR/BTC, EUR/ETH, EUR/LTC in that order, the same list the DTOs accept |
| Strings.SkipSpace | src/Command/BackfillCryptoRatesCommand.php:40 | the leading whitespace the cast skips is removed and nothing else |
| Digits.LeadingDigits | src/Command/BackfillCryptoRatesCommand.php:40 | the longest run of digits at the start of the text |
| BackfillCommand.IntCastRoundTrip | src/Command/BackfillCryptoRatesCommand.php:40 | casting the decimal text of any integer gives back that integer |
| BackfillCommand.CastOfDigits | src/Command/BackfillCryptoRatesCommand.php:40 | a text of digits casts to its value |
| BackfillCommand.CastOfNegativeDigits | src/Command/BackfillCryptoRatesCommand.php:40 | a minus sign and digits cast to the negated value |
| BackfillCommand.IntCastNonNumeric | src/Command/BackfillCryptoRatesCommand.php:40-44 | a text that does not start with a sign or digit casts to 0, so it fails the days check |
| BackfillCommand.CastTwelveDays | src/Command/BackfillCryptoRatesCommand.php:40 | leading blanks are skipped and trailing text after the digits is dropped |
| BackfillCommand.Execute | src/Command/BackfillCryptoRatesCommand.php:36-73 | exit code 0 or 1; days outside 1..365 fail first, without a call; then an interval outside the 11 allowed fails, without a call; otherwise the backfill is called with the cast days, the pair and the interval, and the code is 0 iff it returns |
| BackfillCommand.ExecuteCalls | src/Command/BackfillCryptoRatesCommand.php:29-59 | the defaults call the backfill with 7 days, no pair and '5m'; a numeric days argument and a pair are passed on |
| BackfillCommand.ExecuteRejectsDays | src/Command/BackfillCryptoRatesCommand.php:44-47 | 0, -5 and 400 days fail without a call |
| BackfillCommand.ExecuteRejectsText | src/Command/BackfillCryptoRatesCommand.php:40-53 | non-numeric days fail without a call, and a bad day count is reported before a bad interval |
| BackfillCommand.ExecuteIntervalAndCode | src/Command/BackfillCryptoRatesCommand.php:49-72 | '3m' or a missing interval fails without a call; the exit code follows whether the backfill throws |
| Controller.Label | src/Controller/CryptoRatesController.php:96-100 | a day label has the 'H:i' shape, any other chart type the 'M-d H:i' shape |
| Controller.Labels | src/Controller/CryptoRatesController.php:95-100 | one label per rate, in order |
| Controller.Values | src/Controller/CryptoRatesController.php:101 | one value per rate, in order, the stored rate string unchanged |
| Controller.ChartShape | src/Controller/CryptoRatesController.php:104-116 | the chart has the labels and exactly one dataset labelled 'Exchange Rate'; labels, data and rates have equal lengths; data are the rate strings |
| Controller.TransformRatesToArray | src/Controller/CryptoRatesController.php:79-88 | one entry per rate, in order, with its timestamp as Y-m-d H:i:s, its rate and its pair |
| Controller.Last24HoursBodyFields | src/Controller/CryptoRatesController.php:40-44 | the 200 body holds the pair, the chart and the count of rates |
| Controller.DayBodyFields | src/Controller/CryptoRatesController.php:68-73 | the 200 body holds the pair, the date, the day chart and the count of rates |
| Controller.Last24HoursRejected | src/Controller/CryptoRatesController.php:30-35 | the answer is 400 iff the pair is missing or unsupported; then it lists the pair violations, logs nothing, and does not depend on the store or the database |
| Controller.Last24HoursUnreachable | src/Controller/CryptoRatesController.php:37-47 | a valid request to an unreachable database gets the fixed 500 and one error entry with context 'getLast24Hours' |
| Controller.Last24HoursReplyRejected | src/Controller/CryptoRatesController.php:32-35 | any violation makes the answer the validation failure |
| Controller.Last24HoursReplyAnswered | src/Controller/CryptoRatesController.php:37-44 | a valid request is answered 200 with the body built from the last-24-hours rows |
| Controller.Last24HoursAnswered | src/Controller/CryptoRatesController.php:37-44 | a valid request against a reachable database gets 200 with the pair, the 24h chart of the window's rows and their count, and logs nothing |
| Controller.MissingPairRejected | src/Controller/CryptoRatesController.php:30-35 | a request without a pair gets 400 with 'required' and 'unsupported' |
| Controller.DayRejected | src/Controller/CryptoRatesController.php:54-62 | the answer is 400 iff pair or date is invalid; then it lists the violations, logs nothing, and does not depend on the store or the database |
| Controller.DayUnreachable | src/Controller/CryptoRatesController.php:65-76 | a valid request to an unreachable database gets the fixed 500 and one error entry with context 'getDay' |
| Controller.DayReplyRejected | src/Controller/CryptoRatesController.php:59-62 | any violation makes the answer the validation failure |
| Controller.DayReplyAnswered | src/Controller/CryptoRatesController.php:64-73 | a valid request is answered 200 with the body built from the day's rows |
| Controller.DayAnswered | src/Controller/CryptoRatesController.php:64-73 | a valid request gets 200 with the pair, the date echoed as Y-m-d, the day chart of that day's rows and their count, and logs nothing |
| Controller.CryptoRatesController.GetLast24Hours | src/Controller/CryptoRatesController.php:27-48 | the response and the log entries are exactly those of `Last24HoursReply` |
| Controller.CryptoRatesController.ReadLast24Hours | src/Controller/CryptoRatesController.php:37-47 | the read after validation answers 200 or, when the query throws, the handler's 500 |
| Controller.CryptoRatesController.AnswerLast24Hours | src/Controller/CryptoRatesController.php:37-44 | the 200 answer carries the last-24-hours rows |
| Controller.CryptoRatesController.GetDay | src/Controller/CryptoRatesController.php:51-77 | the response and the log entries are exactly those of `DayReply` |
| Controller.CryptoRatesController.ReadDay | src/Controller/CryptoRatesController.php:64-76 | the read after validation answers 200 or, when the query throws, the handler's 500 |
| Controller.CryptoRatesController.AnswerDay | src/Controller/CryptoRatesController.php:64-73 | the 200 answer carries that day's rows and the date as Y-m-d |
| Controller.CryptoRatesController.TransformRatesToChartFormat | src/Controller/CryptoRatesController.php:90-117 | the loop builds exactly the chart of the rates' labels and values |
| Strings.Upper | src/Monitoring/Metrics/SqlQueryTypeDetector.php:93 | `strtoupper` maps each character, changing only ASCII lower-case letters |
| Strings.Trim | src/Monitoring/Metrics/SqlQueryTypeDetector.php:93 | `trim` leaves no trimmed character at either end |
| SqlQueryTypeDetector.NormalizeSql | src/Monitoring/Metrics/SqlQueryTypeDetector.php:91-94 | the normal form has no ASCII lower-case letter and no blank at either end |
| SqlQueryTypeDetector.NormalizeIdempotent | src/Monitoring/Metrics/SqlQueryTypeDetector.php:91-94 | normalizing twice is normalizing once |
| SqlQueryTypeDetector.NormalizeIgnoresCase | src/Monitoring/Metrics/SqlQueryTypeDetector.php:91-94 | upper- or lower-casing first does not change the normal form |
| SqlQueryTypeDetector.FirstMatch | src/Monitoring/Metrics/SqlQueryTypeDetector.php:29-33 | the first key in map order that prefixes the text, no earlier key matching |
| SqlQueryTypeDetector.PrefixesExclusive | src/Monitoring/Metrics/SqlQueryTypeDetector.php:13-21 | no text starts with two different keys, so map order never decides |
| SqlQueryTypeDetector.Detect | src/Monitoring/Metrics/SqlQueryTypeDetector.php:25-36 | the answer is one of the seven kinds or 'OTHER'; which kind, in both directions, is `SqlQueryTypeDetector.DetectIff` and `SqlQueryTypeDetector.DetectOtherIff` |
| SqlQueryTypeDetector.KindOf | src/Monitoring/Metrics/SqlQueryTypeDetector.php:29-35 | 'OTHER' iff no key prefixes the text; otherwise a kind that prefixes it |
| SqlQueryTypeDetector.KindOfIff | src/Monitoring/Metrics/SqlQueryTypeDetector.php:29-33 | a kind is chosen iff the text starts with it |
| SqlQueryTypeDetector.DetectIff | src/Monitoring/Metrics/SqlQueryTypeDetector.php:25-36 | a query is of a kind iff its normal form starts with that keyword |
| SqlQueryTypeDetector.DetectOtherIff | src/Monitoring/Metrics/SqlQueryTypeDetector.php:35 | 'OTHER' iff the normal form starts with none of the keys |
| SqlQueryTypeDetector.DetectInvariant | src/Monitoring/Metrics/SqlQueryTypeDetector.php:27-94 | classification is unchanged by normalizing or lower-casing first |
| SqlQueryTypeDetector.DetectSelected | src/Monitoring/Metrics/SqlQueryTypeDetector.php:30 | 'selected_rows' is SELECT: prefix matching has no word boundary |
| SqlQueryTypeDetector.NormalizeSkipsBlank | src/Monitoring/Metrics/SqlQueryTypeDetector.php:93 | a leading blank does not change the normal form |
| SqlQueryTypeDetector.SkipsTwoBlanks | src/Monitoring/Metrics/SqlQueryTypeDetector.php:93 | two leading blanks do not change the normal form |
| SqlQueryTypeDetector.DetectLeadingBlanks | src/Monitoring/Metrics/SqlQueryTypeDetector.php:27-31 | leading blanks are trimmed before matching |
| SqlQueryTypeDetector.NoKindStartsWithW | src/Monitoring/Metrics/SqlQueryTypeDetector.php:13-35 | a normal form starting with 'W' is 'OTHER' |
| SqlQueryTypeDetector.DetectOther | src/Monitoring/Metrics/SqlQueryTypeDetector.php:35 | a WITH query is 'OTHER' |
| SqlQueryTypeDetector.SpaceRun | src/Monitoring/Metrics/SqlQueryTypeDetector.php:44-56 | the longest run of `\s` characters at a position |
| SqlQueryTypeDetector.WordRun | src/Monitoring/Metrics/SqlQueryTypeDetector.php:44-56 | the longest run of `\w` characters at a position |
| SqlQueryTypeDetector.MatchFrom | src/Monitoring/Metrics/SqlQueryTypeDetector.php:44-56 | a capture is a non-empty word, upper-case when the text is |
| SqlQueryTypeDetector.Search | src/Monitoring/Metrics/SqlQueryTypeDetector.php:44-56 | the leftmost position where the pattern matches, none earlier |
| SqlQueryTypeDetector.SearchAt | src/Monitoring/Metrics/SqlQueryTypeDetector.php:44-56 | the search stops at the first matching position |
| SqlQueryTypeDetector.TablePattern | src/Monitoring/Metrics/SqlQueryTypeDetector.php:43-59 | a pattern is chosen only for SELECT, INSERT, UPDATE and DELETE forms |
| SqlQueryTypeDetector.ExtractTableName | src/Monitoring/Metrics/SqlQueryTypeDetector.php:38-62 | a name other than 'unknown' is a word with no lower-case letter |
| SqlQueryTypeDetector.ExtractTableLeftmost | src/Monitoring/Metrics/SqlQueryTypeDetector.php:38-62 | 'unknown' when the statement kind has no pattern or the pattern matches nowhere; otherwise the capture of the leftmost match |
| SqlQueryTypeDetector.CapturedName | src/Monitoring/Metrics/SqlQueryTypeDetector.php:44-56 | the search fails iff no position matches, and a captured name is never 'unknown' |
| SqlQueryTypeDetector.OtherStatementsHaveNoTable | src/Monitoring/Metrics/SqlQueryTypeDetector.php:43-61 | statements other than SELECT, INSERT, UPDATE and DELETE have table 'unknown' |
| SqlQueryTypeDetector.UpdateNamesTable | src/Monitoring/Metrics/SqlQueryTypeDetector.php:51-54 | 'update' followed by one word names that word, upper-cased |
| SqlQueryTypeDetector.UpdateNormalPattern | src/Monitoring/Metrics/SqlQueryTypeDetector.php:51-52 | such a statement normalizes to 'UPDATE w' and selects the UPDATE pattern |
| SqlQueryTypeDetector.UpdateCapture | src/Monitoring/Metrics/SqlQueryTypeDetector.php:52 | the UPDATE pattern captures the word at the start |
| SqlQueryTypeDetector.GetQueryContext | src/Monitoring/Metrics/SqlQueryTypeDetector.php:64-89 | the context is one of the seven names; which name, branch by branch, is `SqlQueryTypeDetector.HistoricalFirst`, `SqlQueryTypeDetector.CryptoRateDecidesFirst`, `SqlQueryTypeDetector.RateInsertLast` and `SqlQueryTypeDetector.GeneralOtherwise` |
| SqlQueryTypeDetector.ContextOf | src/Monitoring/Metrics/SqlQueryTypeDetector.php:66-88 | the context is one of the seven names; the branch lemmas `SqlQueryTypeDetector.HistoricalFirst`, `SqlQueryTypeDetector.CryptoRateDecidesFirst`, `SqlQueryTypeDetector.RateInsertLast` and `SqlQueryTypeDetector.GeneralOtherwise` say which |
| SqlQueryTypeDetector.HistoricalFirst | src/Monitoring/Metrics/SqlQueryTypeDetector.php:69-71 | 'historical_query' iff the text mentions CRYPTO_RATE and 'TIMESTAMP >= ?' |
| SqlQueryTypeDetector.RateInsertLast | src/Monitoring/Metrics/SqlQueryTypeDetector.php:69-76 | 'rate_insert' iff CRYPTO_RATE and INSERT INTO appear but neither timestamp pattern does |
| SqlQueryTypeDetector.CryptoRateDecidesFirst | src/Monitoring/Metrics/SqlQueryTypeDetector.php:69-78 | one of the four rate contexts iff the text mentions CRYPTO_RATE |
| SqlQueryTypeDetector.GeneralOtherwise | src/Monitoring/Metrics/SqlQueryTypeDetector.php:69-88 | 'general' iff none of CRYPTO_RATE, DOCTRINE_MIGRATION and INFORMATION_SCHEMA appears |
| SqlQueryTypeDetector.SameNormalForm | src/Monitoring/Metrics/SqlQueryTypeDetector.php:27-66 | two queries with the same normal form get the same kind, table and context |
| SqlQueryTypeDetector.ContextInvariant | src/Monitoring/Metrics/SqlQueryTypeDetector.php:66-94 | the context is unchanged by normalizing or lower-casing first |
| SqlQueryTypeDetector.TableNameInvariant | src/Monitoring/Metrics/SqlQueryTypeDetector.php:40-94 | the table name is unchanged by normalizing or lower-casing first |
| ResilientGelf.LevelMethodSpec | src/Log/ResilientGelfHandler.php:91-105 | a level goes to the fallback method of the same lower-case name, and to info when no method has that name |
| ResilientGelf.LevelMethodRoundTrip | src/Log/ResilientGelfHandler.php:95-103 | each method's name selects that method, whatever its case |
| ResilientGelf.Merge | src/Log/ResilientGelfHandler.php:93 | the merged context has the keys of both, the extra fields winning on a clash |
| ResilientGelf.FirstRecordAttempted | src/Log/ResilientGelfHandler.php:15-52 | a fresh handler tries GELF for its first record and, when that succeeds, calls no fallback |
| ResilientGelf.WithinWindowFallsBack | src/Log/ResilientGelfHandler.php:33-60 | within 300 seconds of a failure a record goes only to the fallback, GELF is not tried, and the state is unchanged |
| ResilientGelf.RetryAfterWindow | src/Log/ResilientGelfHandler.php:54-58 | once 300 seconds have passed, the handler reconnects and publishes, with no fallback call |
| ResilientGelf.FailureDisconnects | src/Log/ResilientGelfHandler.php:41-83 | a failed send disconnects, records the clock reading taken after the failure, and sends the fallback a warning whose next retry is 300 seconds after that reading, then the record |
| ResilientGelf.ConnectedIgnoresClock | src/Log/ResilientGelfHandler.php:48-53 | while connected, the outcome of a write does not depend on the clock |
| ResilientGelf.WindowFromFailure | src/Log/ResilientGelfHandler.php:53-83 | the retry window runs from the reading taken after the failed send: a record less than 300 seconds after it goes only to the fallback |
| ResilientGelf.WritesOnlyAppend | src/Log/ResilientGelfHandler.php:31-46 | writes only append to the published records and to the fallback calls |
| ResilientGelf.NoFallbackDrops | src/Log/ResilientGelfHandler.php:87-89 | without a fallback logger, records that cannot go to GELF are dropped silently |
| ResilientGelf.FallbacksOf | src/Log/ResilientGelfHandler.php:85-106 | one fallback call per record |
| ResilientGelf.OutageWindow | src/Log/ResilientGelfHandler.php:33-60 | every record written inside the window goes to the fallback in order, and nothing else changes |
| ResilientGelf.NoRestoredNotice | src/Log/ResilientGelfHandler.php:56-68 | 'GELF connection restored' is never sent by `write` unless a record carries that text itself |
| ResilientGelf.ResilientGelfHandler.constructor | src/Log/ResilientGelfHandler.php:15-17 | a new handler is connected, with failure time 0 |
| ResilientGelf.ResilientGelfHandler.Write | src/Log/ResilientGelfHandler.php:31-46 | one write moves the handler to exactly the state of `WriteStep`, with the pre-attempt reading for the window and the post-failure reading for `lastFailTime` |
| ResilientGelf.ResilientGelfHandler.ShouldAttemptConnection | src/Log/ResilientGelfHandler.php:48-61 | attempts iff connected or 300 seconds have passed since the failure, and is connected afterwards exactly when it attempts |
| ResilientGelf.ResilientGelfHandler.MarkConnectionSuccessful | src/Log/ResilientGelfHandler.php:63-69 | connected afterwards; the restored notice goes to the fallback only on a change from disconnected |
| ResilientGelf.ResilientGelfHandler.MarkConnectionFailed | src/Log/ResilientGelfHandler.php:71-75 | disconnected, with the failure time set to its own clock reading |
| ResilientGelf.ResilientGelfHandler.LogConnectionError | src/Log/ResilientGelfHandler.php:77-83 | one warning with the error and the next retry time, when a fallback exists |
| ResilientGelf.ResilientGelfHandler.LogToFallback | src/Log/ResilientGelfHandler.php:85-106 | one call of the level's method with the record's message and merged context, when a fallback exists |

## Left out

- Network and HTTP: the Binance kline client, the ticker endpoint and the rate-limit `usleep(100000)` are abstract functions. The sleep is a no-op. `BinanceApiClientService` is not part of this model.
- Clocks: every `new DateTimeImmutable()`, `time()` and `-24 hours` reading is a parameter. All times are UTC integer seconds, with no time zones and no float timestamps (the `float` branch of `BinanceHelper`).
- Database: Doctrine's entity manager, query builder and `findOneBy` are an in-memory row sequence with a pending list and a flush counter. A failing `persist` or `flush` is not modelled; a query raises only through `Controller.Database.Unreachable`. Decimal normalisation of the `rate` column and the auto-increment `id` are not modelled. Pairs are compared as exact character sequences. The table's `utf8mb4_unicode_ci` collation (migrations/Version20241201000000.php:31) makes the database's `c.pair = :pair` and `findOneBy` ignore case and trailing spaces, so 'eur/btc' would find the 'EUR/BTC' rows. No caller sees the difference: stored pairs come from the pair catalog, and the controller's strict `Choice` admits only catalog pairs, so every queried pair is spelled as stored.
- Concurrency: the check-then-insert race between two concurrent backfills is not modelled; the model is sequential.
- Log text: log entries record their level and the values they carry, not the message templates. The `next_retry` date that `logConnectionError` formats uses UTC, not the server's default time zone.
- JSON encoding of responses, `JsonResponse` headers, and the 'borderColor', 'backgroundColor', 'fill' and 'tension' chart keys. The chart keys are constants of the model but are not stated in any contract.
- The console output of the command (titles, success and error messages).
- `configurePublisherTimeout`: it reaches into the GELF publisher by reflection, which has no counterpart here. GELF publishing itself is the abstract `Delivery`.
- `HistoricalRateBackfill.HistoricalRateBackfillService.BackfillHistoricalRates`: requires `days >= 0`. A negative day count, which the command never passes, moves the range start forward and is not modelled.
- `HistoricalRateBackfill.HistoricalRateBackfillService.SaveHistoricalRates`: requires nothing to be pending in the entity manager. This holds whenever every save ends with a flush, as each one in the source does.
- `BinanceApi.BinanceApiService.UpdateRates` and `BinanceApi.BinanceApiService.UpdatePair`: require nothing to be pending in the entity manager, for the same reason: every save before them ended with a flush.
- Stored rows do not carry the `created_at` column. The entities the services build are stamped with a clock reading passed in, one per call, and `RateRow` leaves it out because no query or response reads it.
- `Persistence.CryptoRatePersistenceService.SaveRatesBatch`: requires `batchSize > 0`. PHP raises a `DivisionByZeroError` for 0, and no caller passes anything but the default 100.
- `CryptoRateEntity.IsPositive`: a numeric rate is compared as an exact decimal that is zero only when it underflows, that is, when it is at most 2^-1075. Other double rounding and overflow to infinity are not modelled, because they cannot change whether a nonzero value is above 0. As in PHP 8, '.5' and '5.' are numeric, a point needs a digit on at least one side, and hexadecimal text such as '0x1A' is not numeric.
- Klines: a kline is either well-formed (a numeric open time and a close text) or malformed (reading its open time throws). A kline that lacks its close field makes PHP emit a warning and use `null` rather than throw; such klines are not modelled.
- `CryptoRateRepository.SortByTimestamp`: the order of rows with equal timestamps is not specified by the database; the model fixes one and states only that the result is sorted and a permutation.
- `BackfillCommand.IntCast`: reads the leading integer, so a fraction is cut at the point ('2.5' gives 2, as in PHP). A numeric string with an exponent is cast through a float in PHP ('1e3' gives 1000, '2.9e1' gives 29); the model stops at the 'e' and gives 1 and 2. Overflow beyond 64 bits is not modelled either.
- `BackfillCommand.Execute`: the interval check uses PHP's loose `in_array`. The model compares strings exactly, which agrees for string and null options.
- Query parameters given as arrays (`?pair[]=x`) make Symfony's `InputBag::get` throw; the model reads each parameter as a plain string.
- `ResilientGelf.Merge`: PHP's `array_merge` renumbers integer keys. The model's context keys are strings, so this does not arise.
- `ResilientGelf.LevelMethod`: Monolog's eight level names always match one of the eight methods, so the `default` branch is reachable only through names no `Level` has; the model keeps it anyway.
- DTO and entity getters are plain field selectors (`CryptoRatesRequest.pair`, `CryptoRate.GetPair`) and need no contract of their own. PHP declares `pair`, `rate` and `timestamp` of the entity without a default, so reading one before its setter throws an `Error`. The model reads them as '', '' and 0 instead, which `CryptoRateEntity.CryptoRate.constructor` states. No caller reads a field before setting it, so no modelled flow reaches that error.
- Everything outside the modelled files: OpenTelemetry, Prometheus, the tracing and SQL metrics decorators, the scheduler, migrations, `MainController`, `MetricsController` and `UpdateCryptoRatesCommand`.
