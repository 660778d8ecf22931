/** The historical backfill: for each catalog pair, the requested range is cut into 3-day
    chunks; each chunk's klines are fetched, malformed klines are logged and skipped, klines
    whose (pair, second) is already stored are skipped, and the rest are batch-saved.

    The specification functions thread the observable world through the run as `Effects`:
    the flushed rows, the requests sent to the kline source, the log and the flush count. The
    service class is proved to leave exactly the world those functions compute. */
module HistoricalRateBackfill {
  import opened Strings
  import opened CryptoRateEntity
  import opened Calendar
  import opened Digits
  import opened BinanceHelper
  import opened Logging
  import opened Persistence
  import opened CryptoRateRepository

  /** `new DateInterval('P3D')` in UTC. */
  const ChunkSeconds: int := 259200

  /** One kline from the exchange: its open time in milliseconds and its close price, or an
      entry whose open time is not a number (reading it throws a type error). */
  datatype Kline = Good(openMs: int, close: string) | Malformed

  /** What the kline source answers: the decoded list, or a failure (it throws). */
  datatype FetchResult = Fetched(klines: seq<Kline>) | FetchFailed

  /** A request as the client sends it: times encoded in milliseconds. */
  datatype Request = Request(symbol: string, interval: string, startMs: int, endMs: int)

  /** The world a backfill touches. */
  datatype Effects = Effects(store: seq<RateRow>, requests: seq<Request>, log: seq<LogEntry>, flushes: nat)

  /** The exchange, seen through `fetchKlines`. Its answer is a fixed function of the request;
      every request is recorded. */
  class KlineSource {
    const respond: Request -> FetchResult
    var requests: seq<Request>

    constructor (respond: Request -> FetchResult)
      ensures this.respond == respond && requests == []
    {
      this.respond := respond;
      requests := [];
    }

    method FetchKlines(symbol: string, interval: string, startTime: int, endTime: int) returns (r: FetchResult)
      modifies this
      ensures requests == old(requests) + [Request(symbol, interval, SecondsToMs(startTime), SecondsToMs(endTime))]
      ensures r == respond(Request(symbol, interval, SecondsToMs(startTime), SecondsToMs(endTime)))
    {
      var req := Request(symbol, interval, SecondsToMs(startTime), SecondsToMs(endTime));
      requests := requests + [req];
      r := respond(req);
    }
  }

  // ---- chunking --------------------------------------------------------------------

  /** End of the chunk starting at `start`: three days later, clipped to `end`. */
  function ChunkEnd(start: int, end: int): (r: int)
    ensures r == end || r == start + ChunkSeconds
    ensures start < end ==> start < r <= end && r <= start + ChunkSeconds
  {
    if start + ChunkSeconds > end then end else start + ChunkSeconds
  }

  /** The chunks the `while ($currentStartTime < $endTime)` loop visits, in order. */
  function Chunks(start: int, end: int): (cs: seq<(int, int)>)
    decreases end - start
  {
    if start < end then [(start, ChunkEnd(start, end))] + Chunks(ChunkEnd(start, end), end) else []
  }

  function ChunkRequest(symbol: string, interval: string, c: (int, int)): Request {
    Request(symbol, interval, SecondsToMs(c.0), SecondsToMs(c.1))
  }

  // ---- one chunk: parse, dedupe, stage ----------------------------------------------

  /** The rows `saveHistoricalRates` stages for a chunk, in kline order: each well-formed kline
      whose (pair, open second) is absent from the store. The check reads the store only, so two
      klines of the same second are both staged. */
  function Staged(store: seq<RateRow>, pair: string, klines: seq<Kline>): (r: seq<RateRow>)
    ensures |r| <= |klines|
  {
    if klines == [] then []
    else Staged(store, pair, klines[..|klines| - 1]) + StageOne(store, pair, klines[|klines| - 1])
  }

  /** What one kline adds to the staged rows: nothing when it is malformed or its second is
      already stored, else its row. */
  function StageOne(store: seq<RateRow>, pair: string, k: Kline): (r: seq<RateRow>)
    ensures |r| <= 1
    ensures forall i :: 0 <= i < |r| ==> r[i].pair == pair && !RateExists(store, pair, r[i].timestamp)
  {
    match k
    case Malformed => []
    case Good(ms, close) =>
      if RateExists(store, pair, MsToSeconds(ms)) then [] else [RateRow(pair, close, MsToSeconds(ms))]
  }

  /** Staging one more kline of a list adds what that kline stages, and a warning when it is
      malformed. */
  lemma StagedNext(store: seq<RateRow>, pair: string, klines: seq<Kline>, i: int)
    requires 0 <= i < |klines|
    ensures Staged(store, pair, klines[..i + 1]) == Staged(store, pair, klines[..i]) + StageOne(store, pair, klines[i])
    ensures Warnings(pair, klines[..i + 1])
         == Warnings(pair, klines[..i]) + if klines[i].Malformed? then [KlineRejected(pair)] else []
  {
    assert klines[..i + 1][..i] == klines[..i];
  }

  /** One warning per malformed kline, in kline order. */
  function Warnings(pair: string, klines: seq<Kline>): (w: seq<LogEntry>)
    ensures forall i :: 0 <= i < |w| ==> w[i] == KlineRejected(pair)
    ensures |w| <= |klines|
  {
    if klines == [] then []
    else
      Warnings(pair, klines[..|klines| - 1]) + (if klines[|klines| - 1].Malformed? then [KlineRejected(pair)] else [])
  }

  /** The world after `saveHistoricalRates`: the staged rows are written by one batch save. */
  function SaveChunk(e: Effects, pair: string, klines: seq<Kline>): (r: Effects)
    ensures r.requests == e.requests
  {
    var staged := Staged(e.store, pair, klines);
    e.(store := e.store + staged,
       log := e.log + Warnings(pair, klines),
       flushes := e.flushes + FlushCount(|staged|, DefaultBatchSize))
  }

  // ---- one pair ----------------------------------------------------------------------

  /** How a pair's chunk loop ended: whether every fetch succeeded, the rows batch-saved (up to
      the failure, if any) and the world afterwards. */
  datatype PairOutcome = PairOutcome(completed: bool, inserted: int, effects: Effects)

  function AddInserted(n: int, o: PairOutcome): PairOutcome {
    o.(inserted := n + o.inserted)
  }

  /** `backfillRatesForPair` over the remaining chunks, from world `e`. A failed fetch throws
      out of the loop, so nothing after it happens. */
  function RunChunks(e: Effects, pair: string, symbol: string, interval: string,
                     chunks: seq<(int, int)>, respond: Request -> FetchResult): (o: PairOutcome)
    ensures |o.effects.requests| <= |e.requests| + |chunks|
    decreases |chunks|
  {
    if chunks == [] then PairOutcome(true, 0, e)
    else
      var req := ChunkRequest(symbol, interval, chunks[0]);
      var e1 := e.(log := e.log + [ChunkFetching(pair, chunks[0].0, chunks[0].1)],
                   requests := e.requests + [req]);
      match respond(req)
      case FetchFailed => PairOutcome(false, 0, e1)
      case Fetched(klines) =>
        var e2 := SaveChunk(e1, pair, klines);
        AddInserted(|Staged(e1.store, pair, klines)|, RunChunks(e2, pair, symbol, interval, chunks[1..], respond))
  }

  // ---- all pairs ---------------------------------------------------------------------

  /** The catalog `supportedPairs`: pair name to exchange symbol, in configuration order. */
  predicate DistinctKeys(catalog: seq<(string, string)>) {
    forall i, j :: 0 <= i < j < |catalog| ==> catalog[i].0 != catalog[j].0
  }

  /** `$this->supportedPairs[$pair]` when set. */
  function Lookup(catalog: seq<(string, string)>, pair: string): (r: Option<string>)
    ensures r.Some? <==> exists i :: 0 <= i < |catalog| && catalog[i].0 == pair
    ensures r.Some? ==> (pair, r.value) in catalog
  {
    if catalog == [] then None
    else if catalog[0].0 == pair then Some(catalog[0].1)
    else
      var r := Lookup(catalog[1..], pair);
      assert forall i :: 1 <= i < |catalog| ==> catalog[1..][i - 1] == catalog[i];
      r
  }

  /** The pairs to run: the whole catalog, or the one named pair if the catalog has it, or none. */
  function ResolvePairs(catalog: seq<(string, string)>, specific: Option<string>): (r: seq<(string, string)>)
    ensures specific.None? ==> r == catalog
    ensures specific.Some? ==> |r| <= 1 && (r == [] <==> Lookup(catalog, specific.value).None?)
    ensures specific.Some? && r != [] ==> r[0] == (specific.value, Lookup(catalog, specific.value).value)
  {
    match specific
    case None => catalog
    case Some(p) =>
      match Lookup(catalog, p)
      case None => []
      case Some(symbol) => [(p, symbol)]
  }

  /** The accumulated result of the pair loop. */
  datatype Tally = Tally(total: int, processed: seq<string>, effects: Effects)

  function AddTally(n: int, done: seq<string>, t: Tally): Tally {
    t.(total := n + t.total, processed := done + t.processed)
  }

  /** One iteration of the `foreach ($pairs ...)` loop: the start is logged, the chunk loop
      runs, and either the count is logged or the exception is caught and logged. */
  function PairStep(e: Effects, pair: string, symbol: string, interval: string,
                    respond: Request -> FetchResult, start: int, end: int): (o: PairOutcome)
  {
    var e1 := e.(log := e.log + [BackfillStarted(pair, start, end)]);
    var o := RunChunks(e1, pair, symbol, interval, Chunks(start, end), respond);
    var last := if o.completed then BackfillFinished(pair, o.inserted) else BackfillFailed(pair);
    o.(effects := o.effects.(log := o.effects.log + [last]))
  }

  /** The pair loop with its try/catch: every pair is attempted; a pair whose chunk loop throws
      is left out of the count and the list, and the loop goes on with the next pair. */
  function RunPairs(e: Effects, pairs: seq<(string, string)>, interval: string,
                    respond: Request -> FetchResult, start: int, end: int): (t: Tally)
    ensures |t.processed| <= |pairs|
    decreases |pairs|
  {
    if pairs == [] then Tally(0, [], e)
    else
      var o := PairStep(e, pairs[0].0, pairs[0].1, interval, respond, start, end);
      var rest := RunPairs(o.effects, pairs[1..], interval, respond, start, end);
      if o.completed then AddTally(o.inserted, [pairs[0].0], rest) else rest
  }

  /** One iteration of the pair loop, from the outcome of its pair. */
  lemma RunPairsStep(e: Effects, pairs: seq<(string, string)>, i: int, interval: string,
                     respond: Request -> FetchResult, start: int, end: int, o: PairOutcome)
    requires 0 <= i < |pairs|
    requires o == PairStep(e, pairs[i].0, pairs[i].1, interval, respond, start, end)
    ensures RunPairs(e, pairs[i..], interval, respond, start, end)
         == if o.completed then AddTally(o.inserted, [pairs[i].0], RunPairs(o.effects, pairs[i + 1..], interval, respond, start, end))
            else RunPairs(o.effects, pairs[i + 1..], interval, respond, start, end)
  {
    assert pairs[i..][0] == pairs[i] && pairs[i..][1..] == pairs[i + 1..];
  }

  lemma AddTallyTwice(n: int, done: seq<string>, m: int, more: seq<string>, t: Tally)
    ensures AddTally(n, done, AddTally(m, more, t)) == AddTally(n + m, done + more, t)
  {
    assert done + (more + t.processed) == done + more + t.processed;
  }

  /** The array `backfillHistoricalRates` returns. */
  datatype Summary = Summary(totalInserted: int, pairsProcessed: seq<string>, startDate: string, endDate: string)

  /** Start of the requested range: `modify("-{$days} days")` in UTC. */
  function RangeStart(now: int, days: int): int {
    now - days * SecondsPerDay
  }

  /** `backfillHistoricalRates(days, specificPair)` run at `now`. */
  function Backfill(e: Effects, catalog: seq<(string, string)>, interval: string, respond: Request -> FetchResult,
                    days: int, specific: Option<string>, now: int): (r: (Summary, Effects))
    ensures r.0.startDate == FormatYmd(RangeStart(now, days)) && r.0.endDate == FormatYmd(now)
  {
    var t := RunPairs(e, ResolvePairs(catalog, specific), interval, respond, RangeStart(now, days), now);
    (Summary(t.total, t.processed, FormatYmd(RangeStart(now, days)), FormatYmd(now)), t.effects)
  }

  // ---- the service -------------------------------------------------------------------

  class HistoricalRateBackfillService {
    const binanceClient: KlineSource
    const persistence: CryptoRatePersistenceService
    const logger: Logger
    const supportedPairs: seq<(string, string)>
    const cryptoRatesInterval: string

    constructor (client: KlineSource, persistence: CryptoRatePersistenceService, logger: Logger,
                 supportedPairs: seq<(string, string)>, cryptoRatesInterval: string)
      requires DistinctKeys(supportedPairs)
      ensures binanceClient == client && this.persistence == persistence && this.logger == logger
      ensures this.supportedPairs == supportedPairs && this.cryptoRatesInterval == cryptoRatesInterval
    {
      binanceClient := client;
      this.persistence := persistence;
      this.logger := logger;
      this.supportedPairs := supportedPairs;
      this.cryptoRatesInterval := cryptoRatesInterval;
    }

    /** The world as the specification functions see it. */
    function State(): Effects
      reads binanceClient, persistence.entityManager, logger
    {
      Effects(persistence.entityManager.rows, binanceClient.requests, logger.entries, persistence.entityManager.flushes)
    }

    /** `saveHistoricalRates`: returns the number of rows saved; the entities are built at the
        clock reading `createdAt`. */
    method SaveHistoricalRates(pair: string, klines: seq<Kline>, createdAt: int) returns (inserted: int)
      requires persistence.entityManager.pending == []
      modifies persistence.entityManager, logger
      ensures persistence.entityManager.pending == []
      ensures inserted == |Staged(old(State()).store, pair, klines)|
      ensures persistence.entityManager.rows
           == old(persistence.entityManager.rows) + Staged(old(persistence.entityManager.rows), pair, klines)
      ensures logger.entries == old(logger.entries) + Warnings(pair, klines)
      ensures persistence.entityManager.flushes
           == old(persistence.entityManager.flushes)
              + FlushCount(|Staged(old(persistence.entityManager.rows), pair, klines)|, DefaultBatchSize)
      ensures State() == SaveChunk(old(State()), pair, klines)
    {
      var ratesToSave := StageKlines(pair, klines);
      inserted := persistence.SaveRatesBatch(ratesToSave, DefaultBatchSize, createdAt);
    }

    /** The kline loop of `saveHistoricalRates`: it logs each malformed kline and collects the
        rows to save, reading the store and changing nothing else. */
    method StageKlines(pair: string, klines: seq<Kline>) returns (ratesToSave: seq<RateRow>)
      modifies logger
      ensures ratesToSave == Staged(persistence.entityManager.rows, pair, klines)
      ensures logger.entries == old(logger.entries) + Warnings(pair, klines)
    {
      ghost var store := persistence.entityManager.rows;
      ghost var entries := logger.entries;
      ratesToSave := [];
      for i := 0 to |klines|
        invariant persistence.entityManager.rows == store
        invariant ratesToSave == Staged(store, pair, klines[..i])
        invariant logger.entries == entries + Warnings(pair, klines[..i])
      {
        StagedNext(store, pair, klines, i);
        ghost var w := Warnings(pair, klines[..i]);
        var row := StageKline(pair, klines[i]);
        AppendAssoc(entries, w, if klines[i].Malformed? then [KlineRejected(pair)] else []);
        ratesToSave := ratesToSave + row;
      }
      assert klines[..|klines|] == klines;
    }

    /** The loop body for one kline: a malformed one is logged and skipped, a well-formed one is
        staged unless its second is already stored. */
    method StageKline(pair: string, k: Kline) returns (row: seq<RateRow>)
      modifies logger
      ensures row == StageOne(persistence.entityManager.rows, pair, k)
      ensures logger.entries == old(logger.entries) + if k.Malformed? then [KlineRejected(pair)] else []
    {
      match k
      case Malformed =>
        logger.Log(KlineRejected(pair));
        row := [];
      case Good(ms, close) =>
        var timestamp := MsToSeconds(ms);
        var found := ScanExists(persistence.entityManager.rows, pair, timestamp);
        row := if found then [] else [RateRow(pair, close, timestamp)];
    }

    /** `backfillRatesForPair`: `completed` is false when a fetch threw; `totalInserted` counts
        the rows saved by the chunks before that. */
    method BackfillRatesForPair(pair: string, symbol: string, startTime: int, endTime: int, createdAt: int)
      returns (completed: bool, totalInserted: int)
      requires persistence.entityManager.pending == []
      modifies binanceClient, persistence.entityManager, logger
      ensures persistence.entityManager.pending == []
      ensures PairOutcome(completed, totalInserted, State())
           == RunChunks(old(State()), pair, symbol, cryptoRatesInterval, Chunks(startTime, endTime), binanceClient.respond)
    {
      totalInserted := 0;
      var currentStartTime := startTime;
      while currentStartTime < endTime
        invariant persistence.entityManager.pending == []
        invariant RunChunks(old(State()), pair, symbol, cryptoRatesInterval, Chunks(startTime, endTime), binanceClient.respond)
               == AddInserted(totalInserted, RunChunks(State(), pair, symbol, cryptoRatesInterval,
                                                       Chunks(currentStartTime, endTime), binanceClient.respond))
        decreases endTime - currentStartTime
      {
        var currentEndTime := currentStartTime + ChunkSeconds;
        if currentEndTime > endTime {
          currentEndTime := endTime;
        }
          ghost var before := State();
        logger.Log(ChunkFetching(pair, currentStartTime, currentEndTime));
        var klines := binanceClient.FetchKlines(symbol, cryptoRatesInterval, currentStartTime, currentEndTime);
        if klines.FetchFailed? {
          return false, totalInserted;
        }
        ghost var fetched := State();
        var inserted := SaveHistoricalRates(pair, klines.klines, createdAt);
        assert fetched.store == before.store;
        totalInserted := totalInserted + inserted;
        currentStartTime := currentEndTime;
      }
      completed := true;
    }

    /** The body of the pair loop: the try block and its catch. Entities are stamped with the
        clock reading `createdAt`. */
    method AttemptPair(pair: string, symbol: string, startTime: int, endTime: int, createdAt: int)
      returns (completed: bool, inserted: int)
      requires persistence.entityManager.pending == []
      modifies binanceClient, persistence.entityManager, logger
      ensures persistence.entityManager.pending == []
      ensures PairOutcome(completed, inserted, State())
           == PairStep(old(State()), pair, symbol, cryptoRatesInterval, binanceClient.respond, startTime, endTime)
    {
      logger.Log(BackfillStarted(pair, startTime, endTime));
      completed, inserted := BackfillRatesForPair(pair, symbol, startTime, endTime, createdAt);
      if completed {
        logger.Log(BackfillFinished(pair, inserted));
      } else {
        logger.Log(BackfillFailed(pair));
      }
    }

    /** `backfillHistoricalRates`. */
    method BackfillHistoricalRates(days: int, specificPair: Option<string>, now: int) returns (summary: Summary)
      requires days >= 0
      requires persistence.entityManager.pending == []
      modifies binanceClient, persistence.entityManager, logger
      ensures persistence.entityManager.pending == []
      ensures (summary, State())
           == Backfill(old(State()), supportedPairs, cryptoRatesInterval, binanceClient.respond, days, specificPair, now)
    {
      var endTime := now;
      var startTime := RangeStart(now, days);
      var pairs := ResolvePairs(supportedPairs, specificPair);
      var totalInserted := 0;
      var pairsProcessed: seq<string> := [];
      for i := 0 to |pairs|
        invariant persistence.entityManager.pending == []
        invariant RunPairs(old(State()), pairs, cryptoRatesInterval, binanceClient.respond, startTime, endTime)
               == AddTally(totalInserted, pairsProcessed,
                           RunPairs(State(), pairs[i..], cryptoRatesInterval, binanceClient.respond, startTime, endTime))
      {
        var pair := pairs[i].0;
        var symbol := pairs[i].1;
        ghost var before := State();
        var completed, inserted := AttemptPair(pair, symbol, startTime, endTime, now);
        RunPairsStep(before, pairs, i, cryptoRatesInterval, binanceClient.respond, startTime, endTime,
                     PairOutcome(completed, inserted, State()));
        if completed {
          AddTallyTwice(totalInserted, pairsProcessed, inserted, [pair],
                        RunPairs(State(), pairs[i + 1..], cryptoRatesInterval, binanceClient.respond, startTime, endTime));
          totalInserted := totalInserted + inserted;
          pairsProcessed := pairsProcessed + [pair];
        }
      }
      assert pairs[|pairs|..] == [];
      assert pairsProcessed + [] == pairsProcessed;
      assert RunPairs(old(State()), pairs, cryptoRatesInterval, binanceClient.respond, startTime, endTime)
          == Tally(totalInserted, pairsProcessed, State());
      summary := Summary(totalInserted, pairsProcessed, FormatYmd(startTime), FormatYmd(endTime));
    }
  }
}
