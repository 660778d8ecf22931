/** JSON values and responses, and the service that turns validation failures and exceptions
    into the API's error responses. */
module ExceptionHandler {
  import opened Strings
  import opened Dto
  import opened Logging

  /** A JSON value. Objects keep their keys in insertion order, as PHP arrays do; `JNum` holds
      the literal text of a non-integer number. */
  datatype Json =
    | JStr(s: string)
    | JInt(i: int)
    | JNum(text: string)
    | JBool(b: bool)
    | JArr(items: seq<Json>)
    | JObj(fields: seq<(string, Json)>)

  datatype JsonResponse = JsonResponse(status: int, body: Json)

  const HttpOk: int := 200
  const HttpBadRequest: int := 400
  const HttpInternalServerError: int := 500
  const HttpServiceUnavailable: int := 503

  /** The value under a key of a JSON object (the first, as keys are unique in practice). */
  function Field(j: Json, key: string): (r: Option<Json>)
    ensures r.Some? ==> j.JObj? && (key, r.value) in j.fields
    ensures r.None? ==> !j.JObj? || forall i :: 0 <= i < |j.fields| ==> j.fields[i].0 != key
  {
    if !j.JObj? then None else FieldIn(j.fields, key)
  }

  function FieldIn(fields: seq<(string, Json)>, key: string): (r: Option<Json>)
    ensures r.Some? ==> (key, r.value) in fields
    ensures r.None? ==> forall i :: 0 <= i < |fields| ==> fields[i].0 != key
  {
    if fields == [] then None
    else if fields[0].0 == key then Some(fields[0].1)
    else
      var r := FieldIn(fields[1..], key);
      assert forall i :: 1 <= i < |fields| ==> fields[i] == fields[1..][i - 1];
      r
  }

  /** Every string in a JSON value, keys included. */
  function TextsOf(j: Json): set<string>
    decreases j, 1
  {
    match j
    case JStr(s) => {s}
    case JInt(_) => {}
    case JNum(t) => {t}
    case JBool(_) => {}
    case JArr(items) => ItemsTexts(j, items)
    case JObj(fields) => FieldsTexts(j, fields)
  }

  function ItemsTexts(parent: Json, items: seq<Json>): set<string>
    requires forall i :: 0 <= i < |items| ==> items[i] < parent
    decreases parent, 0, |items|
  {
    if items == [] then {} else TextsOf(items[0]) + ItemsTexts(parent, items[1..])
  }

  function FieldsTexts(parent: Json, fields: seq<(string, Json)>): set<string>
    requires forall i :: 0 <= i < |fields| ==> fields[i].1 < parent
    decreases parent, 0, |fields|
  {
    if fields == [] then {} else {fields[0].0} + TextsOf(fields[0].1) + FieldsTexts(parent, fields[1..])
  }

  /** One `details` entry. */
  function DetailOf(v: Violation): Json {
    JObj([("field", JStr(v.propertyPath)), ("message", JStr(v.message))])
  }

  /** The `details` list: one entry per violation, in order. */
  function Details(vs: seq<Violation>): (d: seq<Json>)
    ensures |d| == |vs|
    ensures forall i :: 0 <= i < |vs| ==>
              Field(d[i], "field") == Some(JStr(vs[i].propertyPath))
              && Field(d[i], "message") == Some(JStr(vs[i].message))
  {
    DetailFields();
    seq(|vs|, i requires 0 <= i < |vs| => DetailOf(vs[i]))
  }

  lemma DetailFields()
    ensures forall v :: Field(DetailOf(v), "field") == Some(JStr(v.propertyPath))
                        && Field(DetailOf(v), "message") == Some(JStr(v.message))
  {
    forall v ensures Field(DetailOf(v), "field") == Some(JStr(v.propertyPath))
                     && Field(DetailOf(v), "message") == Some(JStr(v.message)) {
      var f := DetailOf(v).fields;
      assert f[1..][0] == ("message", JStr(v.message));
    }
  }

  function ValidationFailed(vs: seq<Violation>): JsonResponse {
    JsonResponse(HttpBadRequest, JObj([("error", JStr("Validation failed")), ("details", JArr(Details(vs)))]))
  }

  /** The reply of `handleApiException`, whatever the exception. */
  const InternalError: JsonResponse :=
    JsonResponse(HttpInternalServerError,
                 JObj([("error", JStr("Internal server error")),
                       ("message", JStr("An error occurred while processing your request"))]))

  /** The reply of `handleBinanceApiException`, whatever the exception. */
  const ExternalApiError: JsonResponse :=
    JsonResponse(HttpServiceUnavailable,
                 JObj([("error", JStr("External API error")),
                       ("message", JStr("Failed to fetch data from Binance API"))]))

  /** The 500 and 503 bodies consist of fixed text only: an exception message other than those
      fixed strings never appears in them. */
  lemma ErrorBodiesAreFixed()
    ensures TextsOf(InternalError.body)
         == {"error", "Internal server error", "message", "An error occurred while processing your request"}
    ensures TextsOf(ExternalApiError.body)
         == {"error", "External API error", "message", "Failed to fetch data from Binance API"}
  {
    var f := InternalError.body.fields;
    assert f[1..][1..] == [];
    var g := ExternalApiError.body.fields;
    assert g[1..][1..] == [];
  }

  class ExceptionHandlerService {
    const logger: Logger

    constructor (logger: Logger)
      ensures this.logger == logger
    {
      this.logger := logger;
    }

    /** `handleValidationErrors`: a 400 whose `details` copy every violation's field and
        message, in order. Nothing is logged. */
    method HandleValidationErrors(violations: seq<Violation>) returns (r: JsonResponse)
      ensures r.status == HttpBadRequest
      ensures Field(r.body, "error") == Some(JStr("Validation failed"))
      ensures Field(r.body, "details") == Some(JArr(Details(violations)))
      ensures r == ValidationFailed(violations)
    {
      var errors: seq<Json> := [];
      for i := 0 to |violations|
        invariant |errors| == i
        invariant forall k :: 0 <= k < i ==> errors[k] == DetailOf(violations[k])
      {
        var violation := violations[i];
        errors := errors + [JObj([("field", JStr(violation.propertyPath)), ("message", JStr(violation.message))])];
      }
      assert errors == Details(violations);
      var fields := [("error", JStr("Validation failed")), ("details", JArr(errors))];
      assert fields[1..][0] == ("details", JArr(errors));
      r := JsonResponse(HttpBadRequest, JObj(fields));
    }

    /** `handleApiException`: one error entry logged with the context and message; a fixed 500. */
    method HandleApiException(message: string, context: string) returns (r: JsonResponse)
      modifies logger
      ensures logger.entries == old(logger.entries) + [ApiException(context, message)]
      ensures r == InternalError
    {
      logger.Log(ApiException(context, message));
      r := InternalError;
    }

    /** `handleBinanceApiException`: one error entry logged with the message; a fixed 503. */
    method HandleBinanceApiException(message: string) returns (r: JsonResponse)
      modifies logger
      ensures logger.entries == old(logger.entries) + [BinanceApiException(message)]
      ensures r == ExternalApiError
    {
      logger.Log(BinanceApiException(message));
      r := ExternalApiError;
    }
  }

  /** The handler's unit case: two violations give two details, field and message copied. */
  lemma ValidationDetailsExample()
    ensures var d := Details([Violation("pair", "Pair parameter is required"), Violation("date", "Invalid date format")]);
      |d| == 2 && Field(d[0], "field") == Some(JStr("pair")) && Field(d[1], "message") == Some(JStr("Invalid date format"))
  {
  }
}
