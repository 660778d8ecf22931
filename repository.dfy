/** The rate repository: the three queries the application runs against the flushed rows
    of the `crypto_rates` table. The table is a sequence of rows; a query result is a
    sequence of rows. */
module CryptoRateRepository {
  import opened Strings
  import opened CryptoRateEntity
  import opened Calendar
  import opened Digits

  /** Length of the `-24 hours` window in seconds. */
  const Last24HoursSeconds: int := 86400

  /** `findOneBy(['pair' => $pair, 'timestamp' => $timestamp]) !== null`. */
  predicate RateExists(store: seq<RateRow>, pair: string, timestamp: int)
  {
    exists i :: 0 <= i < |store| && store[i].pair == pair && store[i].timestamp == timestamp
  }

  /** The same question answered by a scan from the last row back, as the engine may. */
  function ScanExists(store: seq<RateRow>, pair: string, timestamp: int): (b: bool)
    ensures b <==> RateExists(store, pair, timestamp)
  {
    if store == [] then false
    else
      var last := store[|store| - 1];
      (last.pair == pair && last.timestamp == timestamp)
      || (assert forall i :: 0 <= i < |store| - 1 ==> store[..|store| - 1][i] == store[i];
          ScanExists(store[..|store| - 1], pair, timestamp))
  }

  /** Appending rows can only make an existing row stay existing, and a row exists after an
      append exactly when it existed before or is among the appended rows. */
  lemma ExistsAfterAppend(store: seq<RateRow>, added: seq<RateRow>, pair: string, timestamp: int)
    ensures RateExists(store + added, pair, timestamp)
      <==> RateExists(store, pair, timestamp) || RateExists(added, pair, timestamp)
  {
    if RateExists(store + added, pair, timestamp) {
      var i :| 0 <= i < |store + added| && (store + added)[i].pair == pair && (store + added)[i].timestamp == timestamp;
      if i >= |store| {
        assert added[i - |store|] == (store + added)[i];
      }
    }
    if RateExists(added, pair, timestamp) {
      var j :| 0 <= j < |added| && added[j].pair == pair && added[j].timestamp == timestamp;
      assert (store + added)[|store| + j] == added[j];
    }
    if RateExists(store, pair, timestamp) {
      var j :| 0 <= j < |store| && store[j].pair == pair && store[j].timestamp == timestamp;
      assert (store + added)[j] == store[j];
    }
  }

  /** The WHERE clause of the two range queries: the pair, a lower bound and an optional
      upper bound, both inclusive. */
  predicate InRange(r: RateRow, pair: string, lo: int, hi: Option<int>) {
    r.pair == pair && lo <= r.timestamp && (hi.Some? ==> r.timestamp <= hi.value)
  }

  /** The rows satisfying the WHERE clause, in table order. */
  function Select(store: seq<RateRow>, pair: string, lo: int, hi: Option<int>): (r: seq<RateRow>)
    ensures forall x :: multiset(r)[x] == if InRange(x, pair, lo, hi) then multiset(store)[x] else 0
    ensures forall i :: 0 <= i < |r| ==> InRange(r[i], pair, lo, hi)
  {
    if store == [] then []
    else
      var rest := Select(store[1..], pair, lo, hi);
      assert store == [store[0]] + store[1..];
      if InRange(store[0], pair, lo, hi) then [store[0]] + rest else rest
  }

  /** `ORDER BY c.timestamp ASC`. */
  predicate SortedByTimestamp(s: seq<RateRow>) {
    forall i, j :: 0 <= i < j < |s| ==> s[i].timestamp <= s[j].timestamp
  }

  /** Places a row before the first row whose timestamp is not smaller. */
  function Insert(x: RateRow, s: seq<RateRow>): (r: seq<RateRow>)
    requires SortedByTimestamp(s)
    ensures multiset(r) == multiset(s) + multiset{x}
    ensures SortedByTimestamp(r)
  {
    if s == [] || x.timestamp <= s[0].timestamp then
      SortedCons(x, s);
      [x] + s
    else
      assert s == [s[0]] + s[1..];
      var tail := Insert(x, s[1..]);
      BoundOfInsert(s[0], x, s[1..], tail);
      SortedCons(s[0], tail);
      [s[0]] + tail
  }

  lemma SortedCons(h: RateRow, t: seq<RateRow>)
    requires SortedByTimestamp(t)
    requires t == [] || h.timestamp <= t[0].timestamp
    ensures SortedByTimestamp([h] + t)
  {
  }

  /** A row no later than the inserted row and than all rows of t is no later than any row
      of the result. */
  lemma BoundOfInsert(h: RateRow, x: RateRow, t: seq<RateRow>, tail: seq<RateRow>)
    requires multiset(tail) == multiset(t) + multiset{x}
    requires h.timestamp <= x.timestamp
    requires forall k :: 0 <= k < |t| ==> h.timestamp <= t[k].timestamp
    ensures tail == [] || h.timestamp <= tail[0].timestamp
  {
    if tail != [] {
      assert tail[0] in multiset(tail);
      if tail[0] != x {
        assert tail[0] in multiset(t);
        var k :| 0 <= k < |t| && t[k] == tail[0];
      }
    }
  }

  /** The ordering the database applies. Its treatment of equal timestamps is one admissible
      order; SQL leaves that order open. */
  function SortByTimestamp(s: seq<RateRow>): (r: seq<RateRow>)
    ensures multiset(r) == multiset(s)
    ensures SortedByTimestamp(r)
  {
    if s == [] then []
    else
      assert s == [s[0]] + s[1..];
      Insert(s[0], SortByTimestamp(s[1..]))
  }

  /** `findRatesForLast24Hours`: the rows of the pair at or after `now - 24h` (no upper
      bound), ascending by timestamp, each matching row with its multiplicity. */
  function FindRatesForLast24Hours(store: seq<RateRow>, pair: string, now: int): seq<RateRow> {
    SortByTimestamp(Select(store, pair, now - Last24HoursSeconds, None))
  }

  /** The 24-hour result is sorted and holds exactly the pair's rows of the window. */
  lemma Last24HoursContents(store: seq<RateRow>, pair: string, now: int)
    ensures var r := FindRatesForLast24Hours(store, pair, now);
      && SortedByTimestamp(r)
      && forall x :: multiset(r)[x]
                  == if x.pair == pair && x.timestamp >= now - Last24HoursSeconds then multiset(store)[x] else 0
  {
  }

  /** `findRatesForDay`: the rows of the pair from 00:00:00 to 23:59:59 of the day of `date`,
      both ends included, ascending by timestamp, each matching row with its multiplicity. */
  function FindRatesForDay(store: seq<RateRow>, pair: string, date: int): seq<RateRow> {
    SortByTimestamp(Select(store, pair, StartOfDay(date), Some(EndOfDay(date))))
  }

  /** The day result is sorted and holds exactly the pair's rows from 00:00:00 to 23:59:59. */
  lemma DayContents(store: seq<RateRow>, pair: string, date: int)
    ensures var r := FindRatesForDay(store, pair, date);
      && SortedByTimestamp(r)
      && forall x :: multiset(r)[x]
                  == if x.pair == pair && StartOfDay(date) <= x.timestamp <= EndOfDay(date) then multiset(store)[x] else 0
  {
  }

  /** The day window holds exactly the instants of the same UTC day: the rows returned for a
      date are the rows whose timestamp falls on that calendar day. */
  lemma DayWindowIsSameDay(date: int, t: int)
    ensures StartOfDay(date) <= t <= EndOfDay(date) <==> t / SecondsPerDay == date / SecondsPerDay
  {
    var d := date / SecondsPerDay;
    assert StartOfDay(date) == d * SecondsPerDay;
    if StartOfDay(date) <= t <= EndOfDay(date) {
      DivInBlock(t, d);
    }
    if t / SecondsPerDay == d {
      assert t == d * SecondsPerDay + t % SecondsPerDay;
    }
  }

  lemma DivInBlock(t: int, d: int)
    requires d * SecondsPerDay <= t < d * SecondsPerDay + SecondsPerDay
    ensures t / SecondsPerDay == d
  {
    var q, rem := t / SecondsPerDay, t % SecondsPerDay;
    assert t == q * SecondsPerDay + rem;
  }

  /** Rows of other pairs, and rows before the window, never reach a 24-hour result; adding
      such rows to the table leaves the result unchanged as a multiset. */
  lemma Last24HoursIgnoresOtherPairs(store: seq<RateRow>, other: RateRow, pair: string, now: int)
    requires other.pair != pair
    ensures multiset(FindRatesForLast24Hours(store + [other], pair, now))
      == multiset(FindRatesForLast24Hours(store, pair, now))
  {
    var a := FindRatesForLast24Hours(store + [other], pair, now);
    var b := FindRatesForLast24Hours(store, pair, now);
    assert multiset(store + [other]) == multiset(store) + multiset{other};
    forall x ensures multiset(a)[x] == multiset(b)[x] {
    }
  }

  /** 23:59:59 is in the day, the next midnight is not; later rows come back after earlier ones. */
  lemma DayQueryExample()
    ensures FindRatesForDay([RateRow("EUR/BTC", "3", 86400), RateRow("EUR/BTC", "2", 86399),
                             RateRow("EUR/ETH", "9", 10), RateRow("EUR/BTC", "1", 0)], "EUR/BTC", 100)
      == [RateRow("EUR/BTC", "1", 0), RateRow("EUR/BTC", "2", 86399)]
  {
    assert StartOfDay(100) == 0 && EndOfDay(100) == 86399;
    DayExampleSelect();
    DayExampleSort();
  }

  lemma DayExampleSelect()
    ensures Select([RateRow("EUR/BTC", "3", 86400), RateRow("EUR/BTC", "2", 86399),
                    RateRow("EUR/ETH", "9", 10), RateRow("EUR/BTC", "1", 0)], "EUR/BTC", 0, Some(86399))
      == [RateRow("EUR/BTC", "2", 86399), RateRow("EUR/BTC", "1", 0)]
  {
    var store := [RateRow("EUR/BTC", "3", 86400), RateRow("EUR/BTC", "2", 86399),
                  RateRow("EUR/ETH", "9", 10), RateRow("EUR/BTC", "1", 0)];
    assert Select(store[3..], "EUR/BTC", 0, Some(86399)) == [store[3]];
    assert Select(store[2..], "EUR/BTC", 0, Some(86399)) == [store[3]];
    assert Select(store[1..], "EUR/BTC", 0, Some(86399)) == [store[1], store[3]];
  }

  lemma DayExampleSort()
    ensures SortByTimestamp([RateRow("EUR/BTC", "2", 86399), RateRow("EUR/BTC", "1", 0)])
      == [RateRow("EUR/BTC", "1", 0), RateRow("EUR/BTC", "2", 86399)]
  {
    var s := [RateRow("EUR/BTC", "2", 86399), RateRow("EUR/BTC", "1", 0)];
    assert SortByTimestamp(s[1..]) == [s[1]];
  }
}
