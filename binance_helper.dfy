/** Conversion of the exchange's millisecond timestamps to the second-precision
    timestamps the store keeps, and the inverse encoding used for request times. */
module BinanceHelper {

  /** `(int)($binanceTimestamp / 1000)` for an integer argument: exact division followed by a
      cast that truncates toward zero (PHP), which differs from floor for negative inputs. */
  function MsToSeconds(ms: int): (s: int)
    ensures ms >= 0 ==> 0 <= ms - 1000 * s < 1000
    ensures ms < 0 ==> 0 <= 1000 * s - ms < 1000
  {
    if ms >= 0 then ms / 1000 else -((-ms) / 1000)
  }

  /** `$time->getTimestamp() * 1000`: how the client encodes startTime/endTime on a request. */
  function SecondsToMs(s: int): (ms: int)
    ensures ms / 1000 == s && ms % 1000 == 0
  {
    s * 1000
  }

  /** Decoding an encoded request time gives the second back. */
  lemma RoundTrip(s: int)
    ensures MsToSeconds(SecondsToMs(s)) == s
  {
  }

  /** The conversion never reverses the order of two instants. */
  lemma Monotone(ms1: int, ms2: int)
    requires ms1 <= ms2
    ensures MsToSeconds(ms1) <= MsToSeconds(ms2)
  {
  }

  /** The sub-second part is discarded, not rounded: all of [1000k, 1000k + 999] map to k. */
  lemma SameSecond(k: nat, sub: int)
    requires 0 <= sub < 1000
    ensures MsToSeconds(1000 * k + sub) == k
  {
  }

  lemma OpenTimeExample()
    ensures MsToSeconds(1703505600000) == 1703505600
    ensures MsToSeconds(1703505899999) == 1703505899
  {
  }
}
