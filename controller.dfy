/** The two rate endpoints. Each builds its request object from the query string, answers
    a 400 listing the violations when validation fails, otherwise reads the rows and answers
    the pair, the chart and the count; an exception on the way becomes the fixed 500.

    The only exception the model lets the read raise is the database being unreachable
    (`Database.Unreachable`); the spec functions `Last24HoursReply` and `DayReply` give the
    response and the log entries each request produces. */
module Controller {
  import opened Strings
  import opened Calendar
  import opened Digits
  import opened CryptoRateEntity
  import opened CryptoRateRepository
  import opened Dto
  import opened Logging
  import opened ExceptionHandler
  import BinanceApi

  /** Whether the database answers queries; when it does not, the query throws with a message. */
  datatype Database = Reachable | Unreachable(message: string)

  const ChartLabel: string := "Exchange Rate"
  const BorderColor: string := "#007bff"
  const BackgroundColor: string := "rgba(0, 123, 255, 0.1)"

  // ---- the chart ------------------------------------------------------------------

  /** A label: 'H:i' for the day chart, 'M-d H:i' for any other chart type. */
  function Label(t: int, chartType: string): (r: string)
    ensures chartType == "day" ==> |r| == 5 && r[2] == ':'
    ensures chartType != "day" ==> |r| == 12 && r[3] == '-' && r[6] == ' ' && r[9] == ':'
  {
    if chartType == "day" then FormatHi(t) else FormatMdHi(t)
  }

  function Labels(rates: seq<RateRow>, chartType: string): (r: seq<string>)
    ensures |r| == |rates|
    ensures forall i :: 0 <= i < |rates| ==> r[i] == Label(rates[i].timestamp, chartType)
  {
    seq(|rates|, i requires 0 <= i < |rates| => Label(rates[i].timestamp, chartType))
  }

  function Values(rates: seq<RateRow>): (r: seq<string>)
    ensures |r| == |rates|
    ensures forall i :: 0 <= i < |rates| ==> r[i] == rates[i].rate
  {
    seq(|rates|, i requires 0 <= i < |rates| => rates[i].rate)
  }

  function Texts(ss: seq<string>): (r: seq<Json>)
    ensures |r| == |ss| && forall i :: 0 <= i < |ss| ==> r[i] == JStr(ss[i])
  {
    seq(|ss|, i requires 0 <= i < |ss| => JStr(ss[i]))
  }

  /** The one dataset of a chart. */
  function Dataset(values: seq<string>): Json {
    JObj([("label", JStr(ChartLabel)), ("data", JArr(Texts(values))), ("borderColor", JStr(BorderColor)),
          ("backgroundColor", JStr(BackgroundColor)), ("fill", JBool(true)), ("tension", JNum("0.1"))])
  }

  function ChartBody(labels: seq<string>, values: seq<string>): Json {
    JObj([("labels", JArr(Texts(labels))), ("datasets", JArr([Dataset(values)]))])
  }

  /** The chart holds one label per rate and a single dataset labelled 'Exchange Rate' whose
      data are the rate strings, unchanged, in the order of the rates. */
  lemma ChartShape(rates: seq<RateRow>, chartType: string)
    ensures var c := ChartBody(Labels(rates, chartType), Values(rates));
      && Field(c, "labels") == Some(JArr(Texts(Labels(rates, chartType))))
      && Field(c, "datasets") == Some(JArr([Dataset(Values(rates))]))
      && Field(Dataset(Values(rates)), "label") == Some(JStr(ChartLabel))
      && Field(Dataset(Values(rates)), "data") == Some(JArr(Texts(Values(rates))))
      && |Texts(Labels(rates, chartType))| == |Texts(Values(rates))| == |rates|
      && forall i :: 0 <= i < |rates| ==> Texts(Values(rates))[i] == JStr(rates[i].rate)
  {
    var c := ChartBody(Labels(rates, chartType), Values(rates));
    assert c.fields[1..][0].0 == "datasets";
    var d := Dataset(Values(rates)).fields;
    assert d[1..][0].0 == "data";
  }

  /** One more rate adds its label and its value at the end. */
  lemma ChartSeriesNext(rates: seq<RateRow>, chartType: string, i: int)
    requires 0 <= i < |rates|
    ensures Labels(rates[..i + 1], chartType) == Labels(rates[..i], chartType) + [Label(rates[i].timestamp, chartType)]
    ensures Values(rates[..i + 1]) == Values(rates[..i]) + [rates[i].rate]
  {
    var p, q := rates[..i], rates[..i + 1];
    assert q == p + [rates[i]];
    LabelsSnoc(p, rates[i], chartType);
    ValuesSnoc(p, rates[i]);
  }

  lemma LabelsSnoc(p: seq<RateRow>, r: RateRow, chartType: string)
    ensures Labels(p + [r], chartType) == Labels(p, chartType) + [Label(r.timestamp, chartType)]
  {
    var q := p + [r];
    var l, l' := Labels(p, chartType), Labels(q, chartType);
    forall k | 0 <= k < |p| ensures l'[k] == l[k] {
      assert q[k] == p[k];
    }
  }

  lemma ValuesSnoc(p: seq<RateRow>, r: RateRow)
    ensures Values(p + [r]) == Values(p) + [r.rate]
  {
    var q := p + [r];
    var v, v' := Values(p), Values(q);
    forall k | 0 <= k < |p| ensures v'[k] == v[k] {
      assert q[k] == p[k];
    }
  }

  /** One element of `transformRatesToArray`. */
  function RateEntry(r: RateRow): Json {
    JObj([("timestamp", JStr(FormatYmdHis(r.timestamp))), ("rate", JStr(r.rate)), ("pair", JStr(r.pair))])
  }

  /** `transformRatesToArray`: one entry per rate, in order, with its timestamp as
      'Y-m-d H:i:s', its rate string and its pair. */
  function TransformRatesToArray(rates: seq<RateRow>): (r: seq<Json>)
    ensures |r| == |rates|
    ensures forall i :: 0 <= i < |rates| ==>
              Field(r[i], "timestamp") == Some(JStr(FormatYmdHis(rates[i].timestamp)))
              && Field(r[i], "rate") == Some(JStr(rates[i].rate))
              && Field(r[i], "pair") == Some(JStr(rates[i].pair))
  {
    RateEntryFields();
    seq(|rates|, i requires 0 <= i < |rates| => RateEntry(rates[i]))
  }

  lemma RateEntryFields()
    ensures forall r :: Field(RateEntry(r), "timestamp") == Some(JStr(FormatYmdHis(r.timestamp)))
                        && Field(RateEntry(r), "rate") == Some(JStr(r.rate))
                        && Field(RateEntry(r), "pair") == Some(JStr(r.pair))
  {
    forall r ensures Field(RateEntry(r), "timestamp") == Some(JStr(FormatYmdHis(r.timestamp)))
                     && Field(RateEntry(r), "rate") == Some(JStr(r.rate))
                     && Field(RateEntry(r), "pair") == Some(JStr(r.pair)) {
      var f := RateEntry(r).fields;
      assert f[1..][0].0 == "rate" && f[1..][1..][0].0 == "pair";
    }
  }

  // ---- the endpoints ----------------------------------------------------------------

  /** `$request->query->get($key) ?? ''`. */
  function QueryText(query: map<string, string>, key: string): string {
    if key in query then query[key] else ""
  }

  function QueryValue(query: map<string, string>, key: string): Option<string> {
    if key in query then Some(query[key]) else None
  }

  /** The answer to `GET /api/rates/last-24h` and the entries it logs. */
  function Last24HoursReply(query: map<string, string>, store: seq<RateRow>, db: Database, now: int)
    : (JsonResponse, seq<LogEntry>)
  {
    var pair := QueryText(query, "pair");
    var violations := Last24HoursRequest(pair).Validate();
    if |violations| > 0 then (ValidationFailed(violations), [])
    else if db.Unreachable? then (InternalError, [ApiException("getLast24Hours", db.message)])
    else
      var rates := FindRatesForLast24Hours(store, pair, now);
      (JsonResponse(HttpOk, Last24HoursBody(pair, rates)), [])
  }

  function Last24HoursBody(pair: string, rates: seq<RateRow>): Json {
    JObj([("pair", JStr(pair)), ("chart", ChartBody(Labels(rates, "24h"), Values(rates))), ("count", JInt(|rates|))])
  }

  lemma Last24HoursBodyFields(pair: string, rates: seq<RateRow>)
    ensures var body := Last24HoursBody(pair, rates);
      && Field(body, "pair") == Some(JStr(pair))
      && Field(body, "count") == Some(JInt(|rates|))
      && Field(body, "chart") == Some(ChartBody(Labels(rates, "24h"), Values(rates)))
  {
    var body := Last24HoursBody(pair, rates);
    assert body.fields[1..][0].0 == "chart" && body.fields[1..][1..][0].0 == "count";
  }

  /** The instant `new \DateTimeImmutable($date)` denotes for an accepted date: its midnight. */
  function DayInstant(date: string): int
    requires IsCalendarDate(date)
  {
    MidnightOf(DateFields(date))
  }

  /** The answer to `GET /api/rates/day` and the entries it logs. */
  function DayReply(query: map<string, string>, store: seq<RateRow>, db: Database): (JsonResponse, seq<LogEntry>) {
    var pair := QueryText(query, "pair");
    var date := QueryValue(query, "date");
    var violations := CryptoRatesRequest(pair, date).Validate();
    if |violations| > 0 then (ValidationFailed(violations), [])
    else if db.Unreachable? then (InternalError, [ApiException("getDay", db.message)])
    else
      var t := DayInstant(date.value);
      (JsonResponse(HttpOk, DayBody(pair, FormatYmd(t), FindRatesForDay(store, pair, t))), [])
  }

  function DayBody(pair: string, date: string, rates: seq<RateRow>): Json {
    JObj([("pair", JStr(pair)), ("date", JStr(date)), ("chart", ChartBody(Labels(rates, "day"), Values(rates))),
          ("count", JInt(|rates|))])
  }

  lemma DayBodyFields(pair: string, date: string, rates: seq<RateRow>)
    ensures var body := DayBody(pair, date, rates);
      && Field(body, "pair") == Some(JStr(pair))
      && Field(body, "date") == Some(JStr(date))
      && Field(body, "count") == Some(JInt(|rates|))
      && Field(body, "chart") == Some(ChartBody(Labels(rates, "day"), Values(rates)))
  {
    var body := DayBody(pair, date, rates);
    assert body.fields[1..][0].0 == "date" && body.fields[1..][1..][0].0 == "chart";
    assert body.fields[1..][1..][1..][0].0 == "count";
  }

  /** The 24-hour endpoint answers 400 exactly when the pair (missing counts as '') is not a
      supported pair, decided before any read, so the rows, the database and the clock do
      not matter then. */
  lemma Last24HoursRejected(query: map<string, string>, store: seq<RateRow>, db: Database, now: int)
    ensures var pair := QueryText(query, "pair");
      && (Last24HoursReply(query, store, db, now).0.status == HttpBadRequest <==> pair !in SupportedPairs)
      && (pair !in SupportedPairs ==>
            && Last24HoursReply(query, store, db, now) == (ValidationFailed(PairViolations(pair)), [])
            && forall s, d, n :: Last24HoursReply(query, s, d, n) == Last24HoursReply(query, store, db, now))
  {
    var pair := QueryText(query, "pair");
    if pair in SupportedPairs {
      assert Last24HoursRequest(pair).Validate() == [];
      assert Last24HoursReply(query, store, db, now).0.status != HttpBadRequest;
    }
  }

  /** A supported pair against an unreachable database is the fixed 500, logged once. */
  lemma Last24HoursUnreachable(query: map<string, string>, store: seq<RateRow>, message: string, now: int)
    requires QueryText(query, "pair") in SupportedPairs
    ensures Last24HoursReply(query, store, Unreachable(message), now)
         == (InternalError, [ApiException("getLast24Hours", message)])
  {
    assert Last24HoursRequest(QueryText(query, "pair")).Validate() == [];
  }

  lemma Last24HoursReplyRejected(query: map<string, string>, store: seq<RateRow>, db: Database, now: int)
    requires |Last24HoursRequest(QueryText(query, "pair")).Validate()| > 0
    ensures Last24HoursReply(query, store, db, now)
         == (ValidationFailed(Last24HoursRequest(QueryText(query, "pair")).Validate()), [])
  {
  }

  lemma Last24HoursReplyAnswered(query: map<string, string>, store: seq<RateRow>, now: int)
    requires QueryText(query, "pair") in SupportedPairs
    ensures var pair := QueryText(query, "pair");
      Last24HoursReply(query, store, Reachable, now)
      == (JsonResponse(HttpOk, Last24HoursBody(pair, FindRatesForLast24Hours(store, pair, now))), [])
  {
    assert Last24HoursRequest(QueryText(query, "pair")).Validate() == [];
  }

  /** A supported pair against a reachable database is a 200 whose pair is the query's, whose
      count is the number of rows in the window and whose chart has one label and one value
      per row. */
  lemma Last24HoursAnswered(query: map<string, string>, store: seq<RateRow>, now: int)
    requires QueryText(query, "pair") in SupportedPairs
    ensures var (r, log) := Last24HoursReply(query, store, Reachable, now);
      var pair := QueryText(query, "pair");
      var rates := FindRatesForLast24Hours(store, pair, now);
      && r.status == HttpOk && log == []
      && Field(r.body, "pair") == Some(JStr(pair))
      && Field(r.body, "count") == Some(JInt(|rates|))
      && Field(r.body, "chart") == Some(ChartBody(Labels(rates, "24h"), Values(rates)))
  {
    var pair := QueryText(query, "pair");
    var rates := FindRatesForLast24Hours(store, pair, now);
    Last24HoursReplyAnswered(query, store, now);
    Last24HoursBodyFields(pair, rates);
  }

  /** A request without a pair is answered with the two pair violations, in order. */
  lemma MissingPairRejected(store: seq<RateRow>, db: Database, now: int)
    ensures Last24HoursReply(map[], store, db, now).0
         == ValidationFailed([Violation("pair", PairRequired), Violation("pair", PairUnsupported)])
  {
  }

  predicate DayQueryAccepted(query: map<string, string>) {
    QueryText(query, "pair") in SupportedPairs && "date" in query && IsCalendarDate(query["date"])
  }

  /** The day endpoint answers 400 exactly when the pair or the date is rejected, with the
      violations of both in order, before any read: the rows and the database do not matter. */
  lemma DayRejected(query: map<string, string>, store: seq<RateRow>, db: Database)
    ensures DayReply(query, store, db).0.status == HttpBadRequest <==> !DayQueryAccepted(query)
    ensures !DayQueryAccepted(query) ==>
              DayReply(query, store, db) == (ValidationFailed(CryptoRatesRequest(QueryText(query, "pair"), QueryValue(query, "date")).Validate()), [])
              && forall s, d :: DayReply(query, s, d) == DayReply(query, store, db)
  {
  }

  /** An accepted day request against an unreachable database is the fixed 500, logged once. */
  lemma DayUnreachable(query: map<string, string>, store: seq<RateRow>, message: string)
    requires DayQueryAccepted(query)
    ensures DayReply(query, store, Unreachable(message)) == (InternalError, [ApiException("getDay", message)])
  {
  }

  lemma DayReplyRejected(query: map<string, string>, store: seq<RateRow>, db: Database)
    requires |CryptoRatesRequest(QueryText(query, "pair"), QueryValue(query, "date")).Validate()| > 0
    ensures DayReply(query, store, db)
         == (ValidationFailed(CryptoRatesRequest(QueryText(query, "pair"), QueryValue(query, "date")).Validate()), [])
  {
  }

  lemma DayReplyAnswered(query: map<string, string>, store: seq<RateRow>)
    requires DayQueryAccepted(query)
    ensures var pair := QueryText(query, "pair"); var t := DayInstant(query["date"]);
      DayReply(query, store, Reachable) == (JsonResponse(HttpOk, DayBody(pair, FormatYmd(t), FindRatesForDay(store, pair, t))), [])
  {
    assert CryptoRatesRequest(QueryText(query, "pair"), QueryValue(query, "date")).Validate() == [];
  }

  /** An accepted day request against a reachable database is a 200 that echoes the pair and
      the date exactly as given, counts the rows of that UTC day, and charts them with 'H:i'
      labels. */
  lemma DayAnswered(query: map<string, string>, store: seq<RateRow>)
    requires DayQueryAccepted(query)
    ensures var (r, log) := DayReply(query, store, Reachable);
      var pair := QueryText(query, "pair");
      var rates := FindRatesForDay(store, pair, DayInstant(query["date"]));
      && r.status == HttpOk && log == []
      && Field(r.body, "pair") == Some(JStr(pair))
      && Field(r.body, "date") == Some(JStr(query["date"]))
      && Field(r.body, "count") == Some(JInt(|rates|))
      && Field(r.body, "chart") == Some(ChartBody(Labels(rates, "day"), Values(rates)))
  {
    var pair := QueryText(query, "pair");
    var t := DayInstant(query["date"]);
    var rates := FindRatesForDay(store, pair, t);
    DayReplyAnswered(query, store);
    AcceptedDateRoundTrip(query["date"]);
    DayBodyFields(pair, FormatYmd(t), rates);
  }

  class CryptoRatesController {
    const binanceApiService: BinanceApi.BinanceApiService
    const exceptionHandler: ExceptionHandlerService

    constructor (binanceApiService: BinanceApi.BinanceApiService, exceptionHandler: ExceptionHandlerService)
      ensures this.binanceApiService == binanceApiService && this.exceptionHandler == exceptionHandler
    {
      this.binanceApiService := binanceApiService;
      this.exceptionHandler := exceptionHandler;
    }

    /** `getLast24Hours`, with the clock reading `now`. */
    method GetLast24Hours(query: map<string, string>, db: Database, now: int) returns (r: JsonResponse)
      modifies exceptionHandler.logger
      ensures r == Last24HoursReply(query, binanceApiService.entityManager.rows, db, now).0
      ensures exceptionHandler.logger.entries
           == old(exceptionHandler.logger.entries) + Last24HoursReply(query, binanceApiService.entityManager.rows, db, now).1
    {
      ghost var rows := binanceApiService.entityManager.rows;
      var requestDto := Last24HoursRequest(QueryText(query, "pair"));
      var violations := requestDto.Validate();
      if |violations| > 0 {
        r := exceptionHandler.HandleValidationErrors(violations);
        Last24HoursReplyRejected(query, rows, db, now);
        return;
      }
      r := ReadLast24Hours(query, db, now);
    }

    /** The `try` block of `getLast24Hours` once the request is valid: the read, or the fixed
        500 when it throws. */
    method ReadLast24Hours(query: map<string, string>, db: Database, now: int) returns (r: JsonResponse)
      requires QueryText(query, "pair") in SupportedPairs
      modifies exceptionHandler.logger
      ensures r == Last24HoursReply(query, binanceApiService.entityManager.rows, db, now).0
      ensures exceptionHandler.logger.entries
           == old(exceptionHandler.logger.entries) + Last24HoursReply(query, binanceApiService.entityManager.rows, db, now).1
    {
      ghost var rows := binanceApiService.entityManager.rows;
      if db.Unreachable? {
        r := exceptionHandler.HandleApiException(db.message, "getLast24Hours");
        Last24HoursUnreachable(query, rows, db.message, now);
        return;
      }
      r := AnswerLast24Hours(QueryText(query, "pair"), now);
      Last24HoursReplyAnswered(query, rows, now);
    }

    /** The successful part of `getLast24Hours`: the window's rows, as an array and as a chart. */
    method AnswerLast24Hours(pair: string, now: int) returns (r: JsonResponse)
      ensures r == JsonResponse(HttpOk, Last24HoursBody(pair, FindRatesForLast24Hours(binanceApiService.entityManager.rows, pair, now)))
    {
      var rates := binanceApiService.GetRatesForLast24Hours(pair, now);
      var data := TransformRatesToArray(rates);
      var chart := TransformRatesToChartFormat(rates, "24h");
      r := JsonResponse(HttpOk, JObj([("pair", JStr(pair)), ("chart", chart), ("count", JInt(|data|))]));
    }

    /** `getDay`. */
    method GetDay(query: map<string, string>, db: Database) returns (r: JsonResponse)
      modifies exceptionHandler.logger
      ensures r == DayReply(query, binanceApiService.entityManager.rows, db).0
      ensures exceptionHandler.logger.entries
           == old(exceptionHandler.logger.entries) + DayReply(query, binanceApiService.entityManager.rows, db).1
    {
      ghost var rows := binanceApiService.entityManager.rows;
      var requestDto := CryptoRatesRequest(QueryText(query, "pair"), QueryValue(query, "date"));
      var violations := requestDto.Validate();
      if |violations| > 0 {
        r := exceptionHandler.HandleValidationErrors(violations);
        DayReplyRejected(query, rows, db);
        return;
      }
      r := ReadDay(query, db);
    }

    /** The `try` block of `getDay` once the request is valid: the read, or the fixed 500 when
        it throws. */
    method ReadDay(query: map<string, string>, db: Database) returns (r: JsonResponse)
      requires DayQueryAccepted(query)
      modifies exceptionHandler.logger
      ensures r == DayReply(query, binanceApiService.entityManager.rows, db).0
      ensures exceptionHandler.logger.entries
           == old(exceptionHandler.logger.entries) + DayReply(query, binanceApiService.entityManager.rows, db).1
    {
      ghost var rows := binanceApiService.entityManager.rows;
      if db.Unreachable? {
        r := exceptionHandler.HandleApiException(db.message, "getDay");
        DayUnreachable(query, rows, db.message);
        return;
      }
      r := AnswerDay(QueryText(query, "pair"), DayInstant(query["date"]));
      DayReplyAnswered(query, rows);
    }

    /** The successful part of `getDay`: the day's rows, as an array and as a chart. */
    method AnswerDay(pair: string, date: int) returns (r: JsonResponse)
      ensures r == JsonResponse(HttpOk, DayBody(pair, FormatYmd(date), FindRatesForDay(binanceApiService.entityManager.rows, pair, date)))
    {
      var rates := binanceApiService.GetRatesForDay(pair, date);
      var data := TransformRatesToArray(rates);
      var chart := TransformRatesToChartFormat(rates, "day");
      r := JsonResponse(HttpOk, JObj([("pair", JStr(pair)), ("date", JStr(FormatYmd(date))),
                                      ("chart", chart), ("count", JInt(|data|))]));
    }

    /** `transformRatesToChartFormat`: the labels and the values collected rate by rate. */
    method TransformRatesToChartFormat(rates: seq<RateRow>, chartType: string) returns (chart: Json)
      ensures chart == ChartBody(Labels(rates, chartType), Values(rates))
    {
      var labels: seq<string> := [];
      var values: seq<string> := [];
      for i := 0 to |rates|
        invariant labels == Labels(rates[..i], chartType)
        invariant values == Values(rates[..i])
      {
        ChartSeriesNext(rates, chartType, i);
        var rate := rates[i];
        var text: string;
        if chartType == "day" {
          text := FormatHi(rate.timestamp);
        } else {
          text := FormatMdHi(rate.timestamp);
        }
        assert text == Label(rate.timestamp, chartType);
        labels := labels + [text];
        values := values + [rate.rate];
      }
      assert rates[..|rates|] == rates;
      var dataset := JObj([("label", JStr(ChartLabel)), ("data", JArr(Texts(values))),
                           ("borderColor", JStr(BorderColor)), ("backgroundColor", JStr(BackgroundColor)),
                           ("fill", JBool(true)), ("tension", JNum("0.1"))]);
      chart := JObj([("labels", JArr(Texts(labels))), ("datasets", JArr([dataset]))]);
    }
  }
}
