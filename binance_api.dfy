/** The spot-price service: `updateRates` asks the ticker endpoint for the current price of
    every catalog pair and writes one row per pair it got a price for, all stamped with one
    instant read before the loop; a pair whose request fails is logged and skipped. The
    read side answers the same range queries as the repository.

    As in the backfill model, the specification functions thread the observable world through
    the run (`SpotEffects`) and the service class is proved to leave exactly that world. */
module BinanceApi {
  import opened Strings
  import opened CryptoRateEntity
  import opened Calendar
  import opened Digits
  import opened Logging
  import opened Persistence
  import opened CryptoRateRepository
  import Dto

  /** `BinanceApiService::SUPPORTED_PAIRS`: pair name to exchange symbol, in this order. */
  const SupportedPairsCatalog: seq<(string, string)> :=
    [("EUR/BTC", "BTCEUR"), ("EUR/ETH", "ETHEUR"), ("EUR/LTC", "LTCEUR")]

  /** A value of the decoded response object. `JNumber` holds PHP's string form of the number. */
  datatype JsonValue = JString(s: string) | JNull | JNumber(text: string) | JBool(b: bool) | JCompound

  /** What one ticker request yields: the decoded top-level object; a transport error or a
      3xx/4xx/5xx status; or a body that does not decode to a JSON object or array. */
  datatype PriceReply = Decoded(data: map<string, JsonValue>) | HttpFailure | Undecodable

  /** How `fetchRateFromBinance` ends: it returns a price string, throws an `\Exception`
      (caught per pair by `updateRates`), or throws an `\Error` (not caught there). */
  datatype PriceOutcome = Price(rate: string) | Failure | Fatal

  /** `fetchRateFromBinance` on one reply. A missing or null `price` fails the `isset` test;
      the HTTP errors are wrapped in a `RuntimeException`, a decoding error passes through
      unwrapped, and both are exceptions. The declared `string` return type coerces a number
      or a boolean to its string form and rejects an array or object with a `TypeError`. */
  function FetchRate(reply: PriceReply): (o: PriceOutcome)
    ensures o.Failure? <==> reply.HttpFailure? || reply.Undecodable?
                            || (reply.Decoded? && ("price" !in reply.data || reply.data["price"] == JNull))
    ensures o.Fatal? <==> reply.Decoded? && "price" in reply.data && reply.data["price"] == JCompound
    ensures reply.Decoded? && "price" in reply.data && reply.data["price"].JString?
            ==> o == Price(reply.data["price"].s)
  {
    match reply
    case HttpFailure => Failure
    case Undecodable => Failure
    case Decoded(data) =>
      if "price" !in data then Failure
      else
        match data["price"]
        case JNull => Failure
        case JString(s) => Price(s)
        case JNumber(t) => Price(t)
        case JBool(b) => Price(if b then "1" else "")
        case JCompound => Fatal
  }

  /** The ticker cases: the price string is returned unchanged; no `price` key, or a null one,
      is a failure. */
  lemma FetchRateExamples()
    ensures FetchRate(Decoded(map["symbol" := JString("BTCEUR"), "price" := JString("98606.63000000")]))
         == Price("98606.63000000")
    ensures FetchRate(Decoded(map["symbol" := JString("BTCEUR")])) == Failure
    ensures FetchRate(Decoded(map["price" := JNull])) == Failure
    ensures FetchRate(HttpFailure) == Failure
  {
    var m := map["symbol" := JString("BTCEUR")];
    assert "price" !in m;
  }

  /** The world `updateRates` touches: flushed rows, symbols requested, log, flush count. */
  datatype SpotEffects = SpotEffects(store: seq<RateRow>, requests: seq<string>, log: seq<LogEntry>, flushes: nat)

  /** How a run ends: `thrown` when an `\Error` escaped, with the world at that point. */
  datatype UpdateResult = UpdateResult(thrown: bool, effects: SpotEffects)

  /** `saveRate` followed by the info entry. */
  function SaveSpot(e: SpotEffects, pair: string, rate: string, now: int): SpotEffects {
    e.(store := e.store + [RateRow(pair, rate, now)], flushes := e.flushes + 1,
       log := e.log + [RateUpdated(pair, rate)])
  }

  /** One iteration of the loop of `updateRates`: the request, then either the row and the
      info entry, or the error entry, or an escaping `\Error`. */
  function Step(e: SpotEffects, pair: string, symbol: string, respond: string -> PriceReply, now: int)
    : UpdateResult
  {
    var e1 := e.(requests := e.requests + [symbol]);
    match FetchRate(respond(symbol))
    case Fatal => UpdateResult(true, e1)
    case Failure => UpdateResult(false, e1.(log := e1.log + [RateUpdateFailed(pair)]))
    case Price(rate) => UpdateResult(false, SaveSpot(e1, pair, rate, now))
  }

  /** The loop of `updateRates` over the remaining pairs, every row stamped `now`. */
  function UpdateRun(e: SpotEffects, pairs: seq<(string, string)>, respond: string -> PriceReply, now: int)
    : UpdateResult
    decreases |pairs|
  {
    if pairs == [] then UpdateResult(false, e)
    else
      var s := Step(e, pairs[0].0, pairs[0].1, respond, now);
      if s.thrown then s else UpdateRun(s.effects, pairs[1..], respond, now)
  }

  // ---- reference definitions ----------------------------------------------------------

  predicate IsFatal(p: (string, string), respond: string -> PriceReply) {
    FetchRate(respond(p.1)).Fatal?
  }

  /** No reply for these pairs ends in an `\Error`. */
  predicate NoFatal(pairs: seq<(string, string)>, respond: string -> PriceReply) {
    forall k :: 0 <= k < |pairs| ==> !IsFatal(pairs[k], respond)
  }

  function Symbols(pairs: seq<(string, string)>): (r: seq<string>)
    ensures |r| == |pairs|
    decreases |pairs|
  {
    if pairs == [] then [] else [pairs[0].1] + Symbols(pairs[1..])
  }

  /** The row a pair contributes: one when its reply carries a price. */
  function RowOf(p: (string, string), respond: string -> PriceReply, now: int): (r: seq<RateRow>)
    ensures |r| <= 1
  {
    match FetchRate(respond(p.1))
    case Price(rate) => [RateRow(p.0, rate, now)]
    case _ => []
  }

  /** One row per pair whose reply carries a price, in catalog order. */
  function Successes(pairs: seq<(string, string)>, respond: string -> PriceReply, now: int): (r: seq<RateRow>)
    ensures |r| <= |pairs|
    ensures forall i :: 0 <= i < |r| ==> r[i].timestamp == now
    decreases |pairs|
  {
    if pairs == [] then [] else RowOf(pairs[0], respond, now) + Successes(pairs[1..], respond, now)
  }

  /** The entry logged for a pair: its price on success, a failure otherwise. */
  function EntryOf(p: (string, string), respond: string -> PriceReply): LogEntry {
    match FetchRate(respond(p.1))
    case Price(rate) => RateUpdated(p.0, rate)
    case _ => RateUpdateFailed(p.0)
  }

  function Outcomes(pairs: seq<(string, string)>, respond: string -> PriceReply): (r: seq<LogEntry>)
    ensures |r| == |pairs|
    decreases |pairs|
  {
    if pairs == [] then [] else [EntryOf(pairs[0], respond)] + Outcomes(pairs[1..], respond)
  }

  /** A step that does not throw requests the symbol, logs the pair's entry and adds its row. */
  lemma StepAppends(e: SpotEffects, p: (string, string), respond: string -> PriceReply, now: int)
    requires !IsFatal(p, respond)
    ensures Step(e, p.0, p.1, respond, now)
         == UpdateResult(false, SpotEffects(e.store + RowOf(p, respond, now), e.requests + [p.1],
                                            e.log + [EntryOf(p, respond)], e.flushes + |RowOf(p, respond, now)|))
  {
  }

  /** Without an `\Error`, every pair is requested in order regardless of earlier failures,
      each gets exactly one log entry, the pairs with a price get one row each (all stamped
      with the one instant) and one flush each, and nothing else is written. */
  lemma {:induction false} UpdateRunComplete(e: SpotEffects, pairs: seq<(string, string)>,
                                             respond: string -> PriceReply, now: int)
    requires NoFatal(pairs, respond)
    ensures UpdateRun(e, pairs, respond, now)
         == UpdateResult(false, SpotEffects(e.store + Successes(pairs, respond, now), e.requests + Symbols(pairs),
                                            e.log + Outcomes(pairs, respond),
                                            e.flushes + |Successes(pairs, respond, now)|))
    decreases |pairs|
  {
    if pairs == [] {
      assert e.store + [] == e.store && e.requests + [] == e.requests && e.log + [] == e.log;
    } else {
      var p, tail := pairs[0], pairs[1..];
      assert !IsFatal(pairs[0], respond);
      assert NoFatal(tail, respond) by {
        forall k | 0 <= k < |tail| ensures !IsFatal(tail[k], respond) {
          assert tail[k] == pairs[k + 1];
        }
      }
      StepAppends(e, p, respond, now);
      var e1 := Step(e, p.0, p.1, respond, now).effects;
      UpdateRunComplete(e1, tail, respond, now);
      CompleteStep(e, e1, pairs, respond, now);
    }
  }

  /** The inductive step of `UpdateRunComplete`: what the rest of the run appends to the world
      after the first pair, added to what the first pair appended. */
  lemma CompleteStep(e: SpotEffects, e1: SpotEffects, pairs: seq<(string, string)>, respond: string -> PriceReply, now: int)
    requires pairs != []
    requires e1 == SpotEffects(e.store + RowOf(pairs[0], respond, now), e.requests + [pairs[0].1],
                               e.log + [EntryOf(pairs[0], respond)], e.flushes + |RowOf(pairs[0], respond, now)|)
    ensures e1.store + Successes(pairs[1..], respond, now) == e.store + Successes(pairs, respond, now)
    ensures e1.requests + Symbols(pairs[1..]) == e.requests + Symbols(pairs)
    ensures e1.log + Outcomes(pairs[1..], respond) == e.log + Outcomes(pairs, respond)
    ensures e1.flushes + |Successes(pairs[1..], respond, now)| == e.flushes + |Successes(pairs, respond, now)|
  {
    AppendAssoc(e.store, RowOf(pairs[0], respond, now), Successes(pairs[1..], respond, now));
    AppendAssoc(e.requests, [pairs[0].1], Symbols(pairs[1..]));
    AppendAssoc(e.log, [EntryOf(pairs[0], respond)], Outcomes(pairs[1..], respond));
  }

  /** Running over `a + b` is running over `a`, then over `b` from where `a` left the world,
      when nothing in `a` throws. */
  lemma {:induction false} UpdateRunConcat(e: SpotEffects, a: seq<(string, string)>, b: seq<(string, string)>,
                                           respond: string -> PriceReply, now: int)
    requires NoFatal(a, respond)
    ensures UpdateRun(e, a + b, respond, now) == UpdateRun(UpdateRun(e, a, respond, now).effects, b, respond, now)
    decreases |a|
  {
    if a == [] {
      assert a + b == b;
    } else {
      var tail := a[1..];
      assert (a + b)[0] == a[0] && (a + b)[1..] == tail + b;
      assert !IsFatal(a[0], respond);
      assert NoFatal(tail, respond) by {
        forall k | 0 <= k < |tail| ensures !IsFatal(tail[k], respond) {
          assert tail[k] == a[k + 1];
        }
      }
      StepAppends(e, a[0], respond, now);
      UpdateRunConcat(Step(e, a[0].0, a[0].1, respond, now).effects, tail, b, respond, now);
    }
  }

  /** An `\Error` for one pair ends the run there: the pairs before it were handled as usual,
      the failing pair was requested but neither saved nor logged, and the later pairs were
      never requested. */
  lemma UpdateRunFatal(e: SpotEffects, before: seq<(string, string)>, p: (string, string),
                       after: seq<(string, string)>, respond: string -> PriceReply, now: int)
    requires NoFatal(before, respond) && IsFatal(p, respond)
    ensures UpdateRun(e, before + [p] + after, respond, now)
         == UpdateResult(true, SpotEffects(e.store + Successes(before, respond, now),
                                           e.requests + Symbols(before) + [p.1],
                                           e.log + Outcomes(before, respond),
                                           e.flushes + |Successes(before, respond, now)|))
  {
    assert before + [p] + after == before + ([p] + after);
    UpdateRunConcat(e, before, [p] + after, respond, now);
    UpdateRunComplete(e, before, respond, now);
    assert ([p] + after)[0] == p;
  }

  /** However a run ends, it only appends: the earlier rows, requests and log entries stay as
      they were, and every row it adds carries the run's one timestamp. */
  lemma {:induction false} UpdateRunAppends(e: SpotEffects, pairs: seq<(string, string)>,
                                            respond: string -> PriceReply, now: int)
    ensures var r := UpdateRun(e, pairs, respond, now);
      && e.store <= r.effects.store && e.requests <= r.effects.requests && e.log <= r.effects.log
      && e.flushes <= r.effects.flushes
      && forall i :: |e.store| <= i < |r.effects.store| ==> r.effects.store[i].timestamp == now
    decreases |pairs|
  {
    if pairs != [] {
      var s := Step(e, pairs[0].0, pairs[0].1, respond, now);
      if !s.thrown {
        var e2 := s.effects;
        assert e.store <= e2.store && e.requests <= e2.requests && e.log <= e2.log;
        assert forall i :: |e.store| <= i < |e2.store| ==> e2.store[i].timestamp == now;
        UpdateRunAppends(e2, pairs[1..], respond, now);
        var r := UpdateRun(e2, pairs[1..], respond, now);
        PrefixChain(e.requests, e2.requests, r.effects.requests);
        PrefixChain(e.log, e2.log, r.effects.log);
        PrefixChain(e.store, e2.store, r.effects.store);
        forall i | |e.store| <= i < |r.effects.store| ensures r.effects.store[i].timestamp == now {
          if i < |e2.store| {
            assert r.effects.store[i] == e2.store[i];
          }
        }
      }
    }
  }

  lemma PrefixChain<T>(a: seq<T>, b: seq<T>, c: seq<T>)
    requires a <= b && b <= c
    ensures a <= c
  {
    assert c[..|a|] == b[..|a|];
  }

  /** The service's unit cases: three prices give three rows sharing the timestamp; three
      failures give three failure entries and no row. */
  lemma UpdateRatesExamples(e: SpotEffects, now: int)
    ensures var ok := (s: string) => Decoded(map["price" := JString(if s == "BTCEUR" then "98606.63000000" else "1")]);
      UpdateRun(e, SupportedPairsCatalog, ok, now).effects.store
      == e.store + [RateRow("EUR/BTC", "98606.63000000", now), RateRow("EUR/ETH", "1", now), RateRow("EUR/LTC", "1", now)]
    ensures var down := (s: string) => HttpFailure;
      UpdateRun(e, SupportedPairsCatalog, down, now)
      == UpdateResult(false, e.(requests := e.requests + ["BTCEUR", "ETHEUR", "LTCEUR"],
                                log := e.log + [RateUpdateFailed("EUR/BTC"), RateUpdateFailed("EUR/ETH"), RateUpdateFailed("EUR/LTC")]))
  {
    var c := SupportedPairsCatalog;
    assert c[1..][1..][1..] == [];
  }

  /** The price endpoint, answering each symbol through a fixed function; every request is
      recorded. */
  class PriceClient {
    const respond: string -> PriceReply
    var requests: seq<string>

    constructor (respond: string -> PriceReply)
      ensures this.respond == respond && requests == []
    {
      this.respond := respond;
      requests := [];
    }

    method Request(symbol: string) returns (reply: PriceReply)
      modifies this
      ensures requests == old(requests) + [symbol]
      ensures reply == respond(symbol)
    {
      requests := requests + [symbol];
      reply := respond(symbol);
    }
  }

  class BinanceApiService {
    const httpClient: PriceClient
    const entityManager: EntityManager
    const logger: Logger

    constructor (httpClient: PriceClient, entityManager: EntityManager, logger: Logger)
      ensures this.httpClient == httpClient && this.entityManager == entityManager && this.logger == logger
    {
      this.httpClient := httpClient;
      this.entityManager := entityManager;
      this.logger := logger;
    }

    function State(): SpotEffects
      reads httpClient, entityManager, logger
    {
      SpotEffects(entityManager.rows, httpClient.requests, logger.entries, entityManager.flushes)
    }

    /** `updateRates`, with the clock reading `now`; `thrown` reports an escaping `\Error`. */
    method UpdateRates(now: int) returns (thrown: bool)
      requires entityManager.pending == []
      modifies httpClient, entityManager, logger
      ensures entityManager.pending == []
      ensures UpdateResult(thrown, State()) == UpdateRun(old(State()), SupportedPairsCatalog, httpClient.respond, now)
    {
      var timestamp := now;
      var pairs := SupportedPairsCatalog;
      for i := 0 to |pairs|
        invariant entityManager.pending == []
        invariant UpdateRun(old(State()), pairs, httpClient.respond, now)
               == UpdateRun(State(), pairs[i..], httpClient.respond, now)
      {
        var pair := pairs[i].0;
        var symbol := pairs[i].1;
        assert pairs[i..][0] == (pair, symbol) && pairs[i..][1..] == pairs[i + 1..];
        var fatal := UpdatePair(pair, symbol, timestamp);
        if fatal {
          return true;
        }
      }
      assert pairs[|pairs|..] == [];
      thrown := false;
    }

    /** The body of the pair loop: the try block and its catch. */
    method UpdatePair(pair: string, symbol: string, timestamp: int) returns (fatal: bool)
      requires entityManager.pending == []
      modifies httpClient, entityManager, logger
      ensures entityManager.pending == []
      ensures UpdateResult(fatal, State()) == Step(old(State()), pair, symbol, httpClient.respond, timestamp)
    {
      var rate := FetchRateFromBinance(symbol);
      match rate
      case Fatal =>
        fatal := true;
      case Failure =>
        logger.Log(RateUpdateFailed(pair));
        fatal := false;
      case Price(r) =>
        SaveRate(pair, r, timestamp);
        logger.Log(RateUpdated(pair, r));
        fatal := false;
    }

    /** `fetchRateFromBinance`: one request for the symbol. */
    method FetchRateFromBinance(symbol: string) returns (o: PriceOutcome)
      modifies httpClient
      ensures httpClient.requests == old(httpClient.requests) + [symbol]
      ensures o == FetchRate(httpClient.respond(symbol))
    {
      var reply := httpClient.Request(symbol);
      o := FetchRate(reply);
    }

    /** `saveRate`: one entity persisted and flushed at once. */
    method SaveRate(pair: string, rate: string, timestamp: int)
      modifies entityManager
      ensures entityManager.rows == old(entityManager.rows) + old(entityManager.pending) + [RateRow(pair, rate, timestamp)]
      ensures entityManager.pending == []
      ensures entityManager.flushes == old(entityManager.flushes) + 1
    {
      var cryptoRate := new CryptoRate(timestamp);
      var _ := cryptoRate.SetPair(pair);
      var _ := cryptoRate.SetRate(rate);
      var _ := cryptoRate.SetTimestamp(timestamp);
      entityManager.Persist(cryptoRate.Row());
      entityManager.Flush();
    }

    /** `getRatesForLast24Hours`: the pair's flushed rows at or after `now` minus 24 hours,
        ascending by timestamp, each with its multiplicity in the store; the same query as the
        repository's. */
    function GetRatesForLast24Hours(pair: string, now: int): (r: seq<RateRow>)
      reads entityManager
      ensures SortedByTimestamp(r)
      ensures forall x :: multiset(r)[x] == (if x.pair == pair && x.timestamp >= now - Last24HoursSeconds
                                             then multiset(entityManager.rows)[x] else 0)
      ensures forall x :: x in r <==> x in entityManager.rows && x.pair == pair && x.timestamp >= now - Last24HoursSeconds
    {
      var r := FindRatesForLast24Hours(entityManager.rows, pair, now);
      Last24HoursContents(entityManager.rows, pair, now);
      assert forall x :: x in r <==> x in multiset(r);
      r
    }

    /** `getRatesForDay`: the pair's flushed rows of the UTC day of `date`, ascending, each with
        its multiplicity in the store. */
    function GetRatesForDay(pair: string, date: int): (r: seq<RateRow>)
      reads entityManager
      ensures SortedByTimestamp(r)
      ensures forall x :: multiset(r)[x] == (if x.pair == pair && x.timestamp / SecondsPerDay == date / SecondsPerDay
                                             then multiset(entityManager.rows)[x] else 0)
      ensures forall x :: x in r <==> x in entityManager.rows && x.pair == pair
                                      && x.timestamp / SecondsPerDay == date / SecondsPerDay
    {
      var r := FindRatesForDay(entityManager.rows, pair, date);
      DayContents(entityManager.rows, pair, date);
      assert forall x :: multiset(r)[x] == (if x.pair == pair && x.timestamp / SecondsPerDay == date / SecondsPerDay
                                            then multiset(entityManager.rows)[x] else 0) by {
        forall x ensures multiset(r)[x] == (if x.pair == pair && x.timestamp / SecondsPerDay == date / SecondsPerDay
                                            then multiset(entityManager.rows)[x] else 0) {
          DayWindowIsSameDay(date, x.timestamp);
        }
      }
      assert forall x :: x in r <==> x in entityManager.rows && x.pair == pair
                                     && x.timestamp / SecondsPerDay == date / SecondsPerDay by {
        forall x ensures x in r <==> x in entityManager.rows && x.pair == pair
                                     && x.timestamp / SecondsPerDay == date / SecondsPerDay {
          assert x in r <==> x in multiset(r);
          assert x in entityManager.rows <==> x in multiset(entityManager.rows);
        }
      }
      r
    }

    /** `getSupportedPairs`: the catalog's keys, which are the pairs the request objects accept. */
    function GetSupportedPairs(): (r: seq<string>)
      ensures r == ["EUR/BTC", "EUR/ETH", "EUR/LTC"]
      ensures r == Dto.SupportedPairs
    {
      seq(|SupportedPairsCatalog|, k requires 0 <= k < |SupportedPairsCatalog| => SupportedPairsCatalog[k].0)
    }
  }
}
