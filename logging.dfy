/** The application logger (PSR-3). Each entry records which event was logged, with the
    values the core passes as context; the rendered message text is not modelled. */
module Logging {

  datatype Level = Debug | Info | Warning | Error

  datatype LogEntry =
    | BackfillStarted(pair: string, startTime: int, endTime: int)
    | BackfillFinished(pair: string, count: int)
    | BackfillFailed(pair: string)
    | ChunkFetching(pair: string, startTime: int, endTime: int)
    | KlineRejected(pair: string)
    | RateUpdated(pair: string, rate: string)
    | RateUpdateFailed(pair: string)
    | ApiException(context: string, message: string)
    | BinanceApiException(message: string)

  /** The PSR-3 method each event is logged with. */
  function LevelOf(e: LogEntry): Level {
    match e
    case BackfillStarted(_, _, _) => Info
    case BackfillFinished(_, _) => Info
    case BackfillFailed(_) => Error
    case ChunkFetching(_, _, _) => Debug
    case KlineRejected(_) => Warning
    case RateUpdated(_, _) => Info
    case RateUpdateFailed(_) => Error
    case ApiException(_, _) => Error
    case BinanceApiException(_) => Error
  }

  /** How many entries of a log were written at a given level. */
  function CountLevel(log: seq<LogEntry>, level: Level): (n: nat)
    ensures n <= |log|
  {
    if log == [] then 0
    else CountLevel(log[..|log| - 1], level) + (if LevelOf(log[|log| - 1]) == level then 1 else 0)
  }

  lemma {:induction false} CountLevelAppend(a: seq<LogEntry>, b: seq<LogEntry>, level: Level)
    ensures CountLevel(a + b, level) == CountLevel(a, level) + CountLevel(b, level)
    decreases |b|
  {
    if b == [] {
      assert a + b == a;
    } else {
      assert (a + b)[..|a + b| - 1] == a + b[..|b| - 1];
      CountLevelAppend(a, b[..|b| - 1], level);
    }
  }

  /** A log whose every entry is written at one level counts all of its entries at that level. */
  lemma {:induction false} CountLevelAll(log: seq<LogEntry>, level: Level)
    requires forall i :: 0 <= i < |log| ==> LevelOf(log[i]) == level
    ensures CountLevel(log, level) == |log|
    decreases |log|
  {
    if log != [] {
      CountLevelAll(log[..|log| - 1], level);
    }
  }

  class Logger {
    var entries: seq<LogEntry>

    constructor ()
      ensures entries == []
    {
      entries := [];
    }

    method Log(e: LogEntry)
      modifies this
      ensures entries == old(entries) + [e]
    {
      entries := entries + [e];
    }
  }
}
