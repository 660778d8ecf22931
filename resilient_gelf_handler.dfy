/** The Monolog handler that ships records to Graylog (GELF) and, while the GELF endpoint is
    failing, sends them to a fallback PSR-3 logger instead, retrying GELF at most once every
    300 seconds. */
module ResilientGelf {
  import opened Strings
  import opened Calendar
  import opened Digits

  const RetryInterval: int := 300

  /** The PSR-3 methods of the fallback logger. */
  datatype FallbackMethod = Emergency | Alert | Critical | Error | Warning | Notice | Info | Debug

  /** A Monolog record: the name of its level (`Level::name`, e.g. 'Warning'), its message,
      and its context and extra fields. */
  datatype LogRecord = LogRecord(levelName: string, message: string,
                                 context: map<string, string>, extra: map<string, string>)

  /** One call made on the fallback logger. */
  datatype FallbackCall = FallbackCall(psrMethod: FallbackMethod, message: string, context: map<string, string>)

  /** What the parent `GelfHandler::write` does when it is called: it publishes the record,
      or it throws with a message, the clock reading `failedAt` once it has failed (the
      failed send may itself take up to the publisher's timeout). */
  datatype Delivery = Delivered | Throws(error: string, failedAt: int)

  /** The lower-case name of each method. */
  function MethodName(m: FallbackMethod): string {
    match m
    case Emergency => "emergency"
    case Alert => "alert"
    case Critical => "critical"
    case Error => "error"
    case Warning => "warning"
    case Notice => "notice"
    case Info => "info"
    case Debug => "debug"
  }

  /** The fallback method for a level name: the method of the same name, compared after
      `strtolower`; 'info' for any other name. */
  function LevelMethod(levelName: string): (m: FallbackMethod)
  {
    var level := Lower(levelName);
    if level == "emergency" then Emergency
    else if level == "alert" then Alert
    else if level == "critical" then Critical
    else if level == "error" then Error
    else if level == "warning" then Warning
    else if level == "notice" then Notice
    else if level == "info" then Info
    else if level == "debug" then Debug
    else Info
  }

  /** A level name selects the method of the same name after `strtolower`, and 'info' when no
      method has that name. */
  lemma LevelMethodSpec(levelName: string)
    ensures var m := LevelMethod(levelName);
      Lower(levelName) == MethodName(m)
      || (m == Info && forall k: FallbackMethod :: Lower(levelName) != MethodName(k))
  {
  }

  /** Each method's own name selects it, whatever the case of its letters. */
  lemma LevelMethodRoundTrip(m: FallbackMethod, name: string)
    requires Lower(name) == MethodName(m)
    ensures LevelMethod(name) == m
  {
  }

  /** `array_merge` of two string-keyed arrays: a key present in both takes the second value. */
  function Merge(context: map<string, string>, extra: map<string, string>): (r: map<string, string>)
    ensures r.Keys == context.Keys + extra.Keys
    ensures forall k :: k in extra ==> r[k] == extra[k]
    ensures forall k :: k in context && k !in extra ==> r[k] == context[k]
  {
    context + extra
  }

  /** The call `logToFallback` makes for a record. */
  function FallbackOf(record: LogRecord): FallbackCall {
    FallbackCall(LevelMethod(record.levelName), record.message, Merge(record.context, record.extra))
  }

  const FailureText: string := "GELF handler failed, falling back to alternative logging: {error}"
  const RestoredText: string := "GELF connection restored"

  /** The warning `logConnectionError` sends after a failure at failTime. */
  function FailureWarning(error: string, failTime: int): FallbackCall {
    FallbackCall(Warning, FailureText,
                 map["error" := error, "next_retry" := FormatYmdHis(failTime + RetryInterval)])
  }

  const RestoredNotice: FallbackCall := FallbackCall(Info, RestoredText, map[])

  /** The handler's state: the two connection fields, the records GELF accepted, and the
      calls made on the fallback logger. */
  datatype HandlerState = HandlerState(isConnected: bool, lastFailTime: int,
                                       published: seq<LogRecord>, fallbackCalls: seq<FallbackCall>)

  const InitialState: HandlerState := HandlerState(true, 0, [], [])

  /** `shouldAttemptConnection`: connected, or the retry window since the last failure has
      passed. */
  predicate Attempts(st: HandlerState, now: int) {
    st.isConnected || now - st.lastFailTime >= RetryInterval
  }

  /** The fallback calls appended: none without a fallback logger. */
  function Fallback(st: HandlerState, hasFallback: bool, calls: seq<FallbackCall>): seq<FallbackCall> {
    if hasFallback then st.fallbackCalls + calls else st.fallbackCalls
  }

  /** `write` of one record, the parent's write behaving as `delivery`. `now` is the reading
      `shouldAttemptConnection` takes, which matters only while disconnected; a failure stamps
      `lastFailTime` with the later reading `failedAt`. */
  function WriteStep(st: HandlerState, hasFallback: bool, record: LogRecord, now: int, delivery: Delivery): HandlerState {
    if !Attempts(st, now) then
      st.(fallbackCalls := Fallback(st, hasFallback, [FallbackOf(record)]))
    else
      match delivery
      case Delivered => HandlerState(true, st.lastFailTime, st.published + [record], st.fallbackCalls)
      case Throws(e, failedAt) =>
        HandlerState(false, failedAt, st.published,
                     Fallback(st, hasFallback, [FailureWarning(e, failedAt), FallbackOf(record)]))
  }

  /** One `write` call: the record, the clock, and what GELF would do with it. */
  datatype WriteCall = WriteCall(record: LogRecord, now: int, delivery: Delivery)

  /** A series of writes, from the first. */
  function Writes(st: HandlerState, hasFallback: bool, calls: seq<WriteCall>): HandlerState
    decreases |calls|
  {
    if calls == [] then st
    else Writes(WriteStep(st, hasFallback, calls[0].record, calls[0].now, calls[0].delivery), hasFallback, calls[1..])
  }

  // ---- properties of one write ----------------------------------------------------

  /** The initial state is connected, so the first record goes to GELF, whatever the time. */
  lemma FirstRecordAttempted(hasFallback: bool, record: LogRecord, now: int)
    ensures WriteStep(InitialState, hasFallback, record, now, Delivered)
         == HandlerState(true, 0, [record], [])
  {
  }

  /** Within 300 seconds of a failure, a record goes only to the fallback: GELF is not tried
      (what it would do does not matter) and the connection fields are unchanged. */
  lemma WithinWindowFallsBack(st: HandlerState, hasFallback: bool, record: LogRecord, now: int, d1: Delivery, d2: Delivery)
    requires !st.isConnected && now - st.lastFailTime < RetryInterval
    ensures var s1 := WriteStep(st, hasFallback, record, now, d1);
      && s1 == WriteStep(st, hasFallback, record, now, d2)
      && s1.isConnected == st.isConnected && s1.lastFailTime == st.lastFailTime
      && s1.published == st.published
      && s1.fallbackCalls == (if hasFallback then st.fallbackCalls + [FallbackOf(record)] else st.fallbackCalls)
  {
  }

  /** Once 300 seconds have passed since the failure, GELF is tried again; a delivery makes
      the handler connected with no fallback call, and in particular no 'restored' notice. */
  lemma RetryAfterWindow(st: HandlerState, hasFallback: bool, record: LogRecord, now: int)
    requires !st.isConnected && now - st.lastFailTime >= RetryInterval
    ensures var s1 := WriteStep(st, hasFallback, record, now, Delivered);
      s1.isConnected && s1.published == st.published + [record] && s1.fallbackCalls == st.fallbackCalls
  {
  }

  /** A failed send disconnects the handler, records the time the failure ended, and sends
      the warning, whose next retry is 300 seconds after that time, and then the record to
      the fallback. */
  lemma FailureDisconnects(st: HandlerState, hasFallback: bool, record: LogRecord, now: int, error: string, failedAt: int)
    requires Attempts(st, now)
    ensures var s1 := WriteStep(st, hasFallback, record, now, Throws(error, failedAt));
      && !s1.isConnected && s1.lastFailTime == failedAt && s1.published == st.published
      && s1.fallbackCalls == (if hasFallback then st.fallbackCalls + [FailureWarning(error, failedAt), FallbackOf(record)]
                             else st.fallbackCalls)
  {
  }

  /** While connected, `shouldAttemptConnection` reads no clock: the outcome of a write does not
      depend on `now`. */
  lemma ConnectedIgnoresClock(st: HandlerState, hasFallback: bool, record: LogRecord, now1: int, now2: int, delivery: Delivery)
    requires st.isConnected
    ensures WriteStep(st, hasFallback, record, now1, delivery) == WriteStep(st, hasFallback, record, now2, delivery)
  {
  }

  /** The window after a failure is measured from the end of the failed send: a record written
      less than 300 seconds after `failedAt` goes to the fallback, however long ago the attempt
      began. */
  lemma WindowFromFailure(st: HandlerState, hasFallback: bool, r1: LogRecord, now1: int, error: string, failedAt: int,
                          r2: LogRecord, now2: int, d2: Delivery)
    requires Attempts(st, now1) && now2 - failedAt < RetryInterval
    ensures var s1 := WriteStep(st, hasFallback, r1, now1, Throws(error, failedAt));
      WriteStep(s1, hasFallback, r2, now2, d2)
        == s1.(fallbackCalls := Fallback(s1, hasFallback, [FallbackOf(r2)]))
  {
  }

  // ---- properties of a series of writes ---------------------------------------------

  /** The records GELF accepts and the fallback calls only ever grow. */
  lemma {:induction false} WritesOnlyAppend(st: HandlerState, hasFallback: bool, calls: seq<WriteCall>)
    ensures var s1 := Writes(st, hasFallback, calls);
      && |st.published| <= |s1.published| && s1.published[..|st.published|] == st.published
      && |st.fallbackCalls| <= |s1.fallbackCalls| && s1.fallbackCalls[..|st.fallbackCalls|] == st.fallbackCalls
    decreases |calls|
  {
    if calls != [] {
      var s := WriteStep(st, hasFallback, calls[0].record, calls[0].now, calls[0].delivery);
      WritesOnlyAppend(s, hasFallback, calls[1..]);
      assert s.published[..|st.published|] == st.published;
      assert s.fallbackCalls[..|st.fallbackCalls|] == st.fallbackCalls;
    }
  }

  /** With no fallback logger, the fallback sees nothing: records GELF does not take are
      dropped. */
  lemma {:induction false} NoFallbackDrops(st: HandlerState, calls: seq<WriteCall>)
    ensures Writes(st, false, calls).fallbackCalls == st.fallbackCalls
    decreases |calls|
  {
    if calls != [] {
      NoFallbackDrops(WriteStep(st, false, calls[0].record, calls[0].now, calls[0].delivery), calls[1..]);
    }
  }

  /** The fallback calls of a series of records, in order. */
  function FallbacksOf(calls: seq<WriteCall>): (r: seq<FallbackCall>)
    ensures |r| == |calls|
  {
    if calls == [] then [] else [FallbackOf(calls[0].record)] + FallbacksOf(calls[1..])
  }

  /** A whole outage window: every write less than 300 seconds after the failure goes to the
      fallback in order, none reaches GELF, and the handler stays disconnected. */
  lemma {:induction false} OutageWindow(st: HandlerState, calls: seq<WriteCall>)
    requires !st.isConnected
    requires forall i :: 0 <= i < |calls| ==> calls[i].now - st.lastFailTime < RetryInterval
    ensures Writes(st, true, calls) == st.(fallbackCalls := st.fallbackCalls + FallbacksOf(calls))
    decreases |calls|
  {
    if calls == [] {
      assert st.fallbackCalls + [] == st.fallbackCalls;
    } else {
      var rest := calls[1..];
      var s := OutageStep(st, calls);
      assert forall i :: 0 <= i < |rest| ==> rest[i] == calls[i + 1];
      OutageWindow(s, rest);
      var first := [FallbackOf(calls[0].record)];
      assert FallbacksOf(calls) == first + FallbacksOf(rest);
      AppendAssoc(st.fallbackCalls, first, FallbacksOf(rest));
    }
  }

  /** The first write of an outage window, and the window that remains. */
  lemma OutageStep(st: HandlerState, calls: seq<WriteCall>) returns (s: HandlerState)
    requires calls != [] && !st.isConnected && calls[0].now - st.lastFailTime < RetryInterval
    ensures Writes(st, true, calls) == Writes(s, true, calls[1..])
    ensures s == st.(fallbackCalls := st.fallbackCalls + [FallbackOf(calls[0].record)])
  {
    s := WriteStep(st, true, calls[0].record, calls[0].now, calls[0].delivery);
  }

  /** 'GELF connection restored' is never logged through `write`: when the handler is retried
      after a failure, `shouldAttemptConnection` has already set it connected, so
      `markConnectionSuccessful` finds nothing to restore. Every fallback call a series of
      writes makes is the warning of a failure or some record's own call. */
  lemma {:induction false} NoRestoredNotice(st: HandlerState, hasFallback: bool, calls: seq<WriteCall>)
    requires forall i :: 0 <= i < |calls| ==> calls[i].record.message != RestoredText
    ensures var s1 := Writes(st, hasFallback, calls);
      forall j :: |st.fallbackCalls| <= j < |s1.fallbackCalls| ==> s1.fallbackCalls[j] != RestoredNotice
    decreases |calls|
  {
    if calls != [] {
      var s := WriteStep(st, hasFallback, calls[0].record, calls[0].now, calls[0].delivery);
      assert FailureText != RestoredText by {
        assert |FailureText| != |RestoredText|;
      }
      assert forall j :: |st.fallbackCalls| <= j < |s.fallbackCalls| ==> s.fallbackCalls[j] != RestoredNotice;
      assert forall i :: 0 <= i < |calls[1..]| ==> calls[1..][i].record.message != RestoredText by {
        forall i | 0 <= i < |calls[1..]| ensures calls[1..][i].record.message != RestoredText {
          assert calls[1..][i] == calls[i + 1];
        }
      }
      NoRestoredNotice(s, hasFallback, calls[1..]);
      WritesOnlyAppend(s, hasFallback, calls[1..]);
      var s1 := Writes(st, hasFallback, calls);
      forall j | |st.fallbackCalls| <= j < |s.fallbackCalls| ensures s1.fallbackCalls[j] != RestoredNotice {
        assert s1.fallbackCalls[..|s.fallbackCalls|] == s.fallbackCalls;
        assert s1.fallbackCalls[j] == s.fallbackCalls[j];
      }
    }
  }

  // ---- the handler ----------------------------------------------------------------

  class ResilientGelfHandler {
    var isConnected: bool
    var lastFailTime: int
    /** Whether a fallback logger was injected (it is nullable). */
    const hasFallback: bool
    /** The records the parent `GelfHandler` published. */
    var published: seq<LogRecord>
    /** The calls made on the fallback logger. */
    var fallbackCalls: seq<FallbackCall>

    function State(): HandlerState
      reads this
    {
      HandlerState(isConnected, lastFailTime, published, fallbackCalls)
    }

    constructor (hasFallback: bool)
      ensures State() == InitialState && this.hasFallback == hasFallback
    {
      isConnected := true;
      lastFailTime := 0;
      this.hasFallback := hasFallback;
      published := [];
      fallbackCalls := [];
    }

    /** `write`: the record goes to GELF when a connection is to be attempted, and to the
        fallback otherwise or when the attempt throws. `now` is the clock reading of
        `shouldAttemptConnection`, and a failed attempt carries the later reading
        `markConnectionFailed` takes. */
    method Write(record: LogRecord, now: int, delivery: Delivery)
      modifies this
      ensures State() == WriteStep(old(State()), hasFallback, record, now, delivery)
    {
      var attempt := ShouldAttemptConnection(now);
      if !attempt {
        LogToFallback(record);
        return;
      }
      match delivery {
        case Delivered =>
          published := published + [record];
          MarkConnectionSuccessful();
        case Throws(e, failedAt) =>
          MarkConnectionFailed(failedAt);
          LogConnectionError(e);
          LogToFallback(record);
      }
    }

    /** `shouldAttemptConnection`: reconnects once the retry window has passed. */
    method ShouldAttemptConnection(now: int) returns (attempt: bool)
      modifies this
      ensures attempt == Attempts(old(State()), now)
      ensures State() == old(State()).(isConnected := attempt)
    {
      if isConnected {
        return true;
      }
      if now - lastFailTime >= RetryInterval {
        isConnected := true;
        return true;
      }
      return false;
    }

    /** `markConnectionSuccessful`: the notice is logged only when the handler was
        disconnected. */
    method MarkConnectionSuccessful()
      modifies this
      ensures isConnected && lastFailTime == old(lastFailTime) && published == old(published)
      ensures fallbackCalls == (if !old(isConnected) && hasFallback then old(fallbackCalls) + [RestoredNotice]
                               else old(fallbackCalls))
    {
      if !isConnected {
        isConnected := true;
        if hasFallback {
          fallbackCalls := fallbackCalls + [RestoredNotice];
        }
      }
    }

    /** `markConnectionFailed`, with its own clock reading `now`. */
    method MarkConnectionFailed(now: int)
      modifies this
      ensures State() == old(State()).(isConnected := false, lastFailTime := now)
    {
      isConnected := false;
      lastFailTime := now;
    }

    /** `logConnectionError`: the warning carries the error and the time of the next retry. */
    method LogConnectionError(error: string)
      modifies this
      ensures State() == old(State()).(fallbackCalls := Fallback(old(State()), hasFallback, [FailureWarning(error, lastFailTime)]))
    {
      if hasFallback {
        fallbackCalls := fallbackCalls + [FailureWarning(error, lastFailTime)];
      }
    }

    /** `logToFallback` */
    method LogToFallback(record: LogRecord)
      modifies this
      ensures State() == old(State()).(fallbackCalls := Fallback(old(State()), hasFallback, [FallbackOf(record)]))
    {
      if !hasFallback {
        return;
      }
      var level := Lower(record.levelName);
      var context := Merge(record.context, record.extra);
      var m: FallbackMethod;
      if level == "emergency" { m := Emergency; }
      else if level == "alert" { m := Alert; }
      else if level == "critical" { m := Critical; }
      else if level == "error" { m := Error; }
      else if level == "warning" { m := Warning; }
      else if level == "notice" { m := Notice; }
      else if level == "info" { m := Info; }
      else if level == "debug" { m := Debug; }
      else { m := Info; }
      fallbackCalls := fallbackCalls + [FallbackCall(m, record.message, context)];
    }
  }
}
